/** What the keys of reads over any tables, and of joins, tell. */
module JoinKeys {
  import opened YanTypes
  import opened Strings
  import opened SqlGrammar
  import opened QueryModel
  import opened SqlText
  import opened ParamKey
  import opened CommandKey

  /******* Reads of any tables *******/

  lemma NamesNotLonger(n: string, ps: seq<Param>, m: string, qs: seq<Param>)
    requires Plain(m) && SmallFields(ps) && SmallFields(qs) && n + Chunks(ps) == m + Chunks(qs)
    ensures |m| <= |n|
  {
    assert |n| + 4 * |ps| == |n + Chunks(ps)| == |m + Chunks(qs)| == |m| + 4 * |qs|;
    assert |n| < |m| ==> |m| >= |n| + 4;
    if |n| < |m| {
      PlainAt(m, Chunks(qs), |n| + 2);
      OpAfterName(n, ps);
    }
  }

  lemma PlainAt(m: string, x: string, k: nat)
    requires Plain(m) && k < |m|
    ensures (m + x)[k] > 6 as char
  {
  }

  lemma OpAfterName(n: string, ps: seq<Param>)
    requires SmallFields(ps) && ps != []
    ensures (n + Chunks(ps))[|n| + 2] <= 6 as char
  {
    OpByte(ps, 0, "");
    assert Chunks(ps) + "" == Chunks(ps);
  }

  /** Names and the comparisons after them cannot be confused, whatever they are. */
  lemma NamesThenChunks(n: string, ps: seq<Param>, m: string, qs: seq<Param>)
    requires Plain(n) && Plain(m) && SmallFields(ps) && SmallFields(qs) && n + Chunks(ps) == m + Chunks(qs)
    ensures n == m && Shapes(ps) == Shapes(qs)
  {
    NamesNotLonger(n, ps, m, qs);
    NamesNotLonger(m, qs, n, ps);
    SplitChunk(n, Chunks(ps), m, Chunks(qs));
    ChunksDecode(ps, qs);
  }

  // The names at the front of a key: of the result, then of the table.
  function Front(c: ReadCond): string
    requires c.table.Some?
  {
    RetName(c.ret) + c.table.value.name
  }

  /** Two conditional reads, of any tables, share a key exactly when the name of the result followed by
      that of the table is the same, and so is the list of comparisons. */
  lemma ReadKeysIff(c: ReadCond, d: ReadCond)
    requires WellFormed(c) && WellFormed(d) && KeyedCond(c) && KeyedCond(d) && HasCond(c) && HasCond(d)
    requires Plain(Front(c)) && Plain(Front(d))
    ensures CondKey(c) == CondKey(d) <==> Front(c) == Front(d) && Shapes(c.params.value) == Shapes(d.params.value)
  {
    if CondKey(c) == CondKey(d) { NamesThenChunks(Front(c), c.params.value, Front(d), d.params.value); }
    if Shapes(c.params.value) == Shapes(d.params.value) { ChunksOfShapes(c.params.value, d.params.value); }
  }

  /******* The conditions of a union or a join *******/

  // What may follow a list of comparisons: nothing, or a name of some length.
  predicate Named3(x: string) {
    x == "" || (|x| >= 3 && Plain(x[..3]))
  }

  lemma NotMoreChunks(ps: seq<Param>, x: string, qs: seq<Param>, y: string)
    requires SmallFields(ps) && SmallFields(qs) && Named3(x) && Chunks(ps) + x == Chunks(qs) + y
    ensures |qs| <= |ps|
  {
    assert 4 * |ps| + |x| == |Chunks(ps) + x| == |Chunks(qs) + y| == 4 * |qs| + |y|;
    if |ps| < |qs| {
      NameAfterChunks(ps, x);
      OpByte(qs, |ps|, y);
    }
  }

  lemma NameAfterChunks(ps: seq<Param>, x: string)
    requires SmallFields(ps) && Named3(x) && x != ""
    ensures (Chunks(ps) + x)[4 * |ps| + 2] > 6 as char
  {
    assert (Chunks(ps) + x)[4 * |ps| + 2] == x[2] == x[..3][2];
  }

  predicate LongNamed(c: ReadCond) {
    WellFormed(c) && KeyedCond(c) && HasCond(c) && |Front(c)| >= 3 && Plain(Front(c))
  }

  predicate AllLongNamed(cs: seq<ReadCond>) {
    forall i :: 0 <= i < |cs| ==> KeyedCond(cs[i]) && LongNamed(cs[i])
  }

  // Condition by condition the same result and table.
  predicate SameTables(cs: seq<ReadCond>, ds: seq<ReadCond>) {
    |cs| == |ds|
    && (cs == [] || (cs[0].ret == ds[0].ret && cs[0].table == ds[0].table && SameTables(cs[1..], ds[1..])))
  }

  predicate SameShapes(cs: seq<ReadCond>, ds: seq<ReadCond>) {
    |cs| == |ds| && (cs == [] || (SameShape(cs[0], ds[0]) && SameShapes(cs[1..], ds[1..])))
  }

  lemma FrontFirst(f: string, x: string)
    requires |f| >= 3 && Plain(f)
    ensures Named3(f + x)
  {
    assert forall i :: 0 <= i < 3 ==> (f + x)[..3][i] == f[i];
  }

  lemma CondsKeyStarts(cs: seq<ReadCond>)
    requires AllLongNamed(cs)
    ensures Named3(CondsKey(cs))
  {
    if cs != [] {
      hide Named3, Chunks;
      Assoc3(Front(cs[0]), HashOf(cs[0]), CondsKey(cs[1..]));
      FrontFirst(Front(cs[0]), HashOf(cs[0]) + CondsKey(cs[1..]));
    } else {
      assert CondsKey(cs) == "";
    }
  }

  // One condition in front of more.
  lemma CondTells(c: ReadCond, x: string, d: ReadCond, y: string)
    requires LongNamed(c) && LongNamed(d) && c.ret == d.ret && c.table == d.table && Named3(x) && Named3(y)
    requires KeyedCond(c) && KeyedCond(d) && CondKey(c) + x == CondKey(d) + y
    ensures SameShape(c, d) && x == y
  {
    Assoc3(Front(c), HashOf(c), x);
    Assoc3(Front(d), HashOf(d), y);
    CancelFront(Front(c), HashOf(c) + x, HashOf(d) + y);
    NotMoreChunks(c.params.value, x, d.params.value, y);
    NotMoreChunks(d.params.value, y, c.params.value, x);
    SplitChunk(HashOf(c), x, HashOf(d), y);
    ChunksDecode(c.params.value, d.params.value);
  }

  /** For fixed tables the key of the conditions of a union or a join tells the comparisons of every
      one of them. */
  lemma {:induction false} CondsKeyTells(cs: seq<ReadCond>, ds: seq<ReadCond>)
    requires AllLongNamed(cs) && AllLongNamed(ds) && SameTables(cs, ds) && CondsKey(cs) == CondsKey(ds)
    ensures SameShapes(cs, ds)
  {
    if cs != [] {
      CondsKeyStarts(cs[1..]);
      CondsKeyStarts(ds[1..]);
      CondTells(cs[0], CondsKey(cs[1..]), ds[0], CondsKey(ds[1..]));
      hide LongNamed, SameShape, CondKey, KeyedCond;
      CondsKeyTells(cs[1..], ds[1..]);
    }
  }

  /** So joins over the same tables with the same equalities share a key only if they share their text. */
  lemma JoinKeyTells(r: Ret, js: seq<JoinCond>, cs: seq<ReadCond>, ds: seq<ReadCond>)
    requires AllLongNamed(cs) && AllLongNamed(ds) && SameTables(cs, ds) && JoinKey(r, js, cs) == JoinKey(r, js, ds)
    ensures SameShapes(cs, ds)
  {
    CancelFront(JoinsKey(js), CondsKey(cs), CondsKey(ds));
    CondsKeyTells(cs, ds);
  }

  /******* The equalities of a join *******/

  // A name without the characters that stand around it in an equality.
  predicate Clean(s: string) {
    s != "" && forall i :: 0 <= i < |s| ==> s[i] != '.' && s[i] != ' '
  }

  predicate CleanColumn(c: Column) { Clean(c.table) && Clean(c.name) }

  // An equality and what is printed in front of it: the names of the tables since the last one.
  datatype Segment = Segment(gap: string, bridge: Bridge)

  function SegmentsText(xs: seq<Segment>, end: string): string {
    if xs == [] then end else xs[0].gap + (BridgeText(xs[0].bridge) + SegmentsText(xs[1..], end))
  }

  predicate DotFree(s: string) {
    forall i :: 0 <= i < |s| ==> s[i] != '.'
  }

  predicate AllClean(xs: seq<Segment>) {
    forall i :: 0 <= i < |xs| ==>
      DotFree(xs[i].gap) && CleanColumn(xs[i].bridge.left) && CleanColumn(xs[i].bridge.right)
  }

  // `a` is an end part of `b`.
  predicate EndPart(a: string, b: string) {
    |a| <= |b| && b[|b| - |a|..] == a
  }

  // No table on the left of an equality is an end part of another one.
  predicate NoEndParts(xs: seq<Segment>, ys: seq<Segment>) {
    forall i, j :: 0 <= i < |xs| && 0 <= j < |ys| ==>
      var a, b := xs[i].bridge.left.table, ys[j].bridge.left.table;
      (EndPart(a, b) || EndPart(b, a)) ==> a == b
  }

  predicate SameGaps(xs: seq<Segment>, ys: seq<Segment>) {
    |xs| == |ys| && forall i :: 0 <= i < |xs| ==> xs[i].gap == ys[i].gap
  }

  // Two texts split where a character first occurs.
  lemma FirstMark(c: char, a: string, x: string, b: string, y: string)
    requires (forall i :: 0 <= i < |a| ==> a[i] != c) && (forall i :: 0 <= i < |b| ==> b[i] != c)
    requires a + ([c] + x) == b + ([c] + y)
    ensures a == b && x == y
  {
    MarkNotLater(c, a, x, b, y);
    MarkNotLater(c, b, y, a, x);
    SplitChunk(a, [c] + x, b, [c] + y);
    CancelFront([c], x, y);
  }

  lemma MarkNotLater(c: char, a: string, x: string, b: string, y: string)
    requires (forall i :: 0 <= i < |b| ==> b[i] != c) && a + ([c] + x) == b + ([c] + y)
    ensures |b| <= |a|
  {
    assert (a + ([c] + x))[|a|] == c;
    assert forall i :: 0 <= i < |b| ==> (b + ([c] + y))[i] == b[i];
  }

  // An equality and more, cut at its marks.
  lemma BridgeCut(b: Bridge, more: string)
    requires CleanColumn(b.left) && CleanColumn(b.right)
    ensures BridgeText(b) + more ==
            b.left.table + (['.'] + (b.left.name + ([' '] + ("= " + (b.right.table + (['.'] + (b.right.name + more)))))))
  {
    assert BridgeText(b) == (b.left.table + "." + b.left.name) + " = " + (b.right.table + "." + b.right.name);
    assert " = " == [' '] + "= ";
    CutParts(b.left.table, b.left.name, b.right.table, b.right.name, more);
  }

  lemma CutParts(a: string, b: string, c: string, d: string, more: string)
    ensures (a + "." + b) + ([' '] + "= ") + (c + "." + d) + more
            == a + (['.'] + (b + ([' '] + ("= " + (c + (['.'] + (d + more)))))))
  {
    Assoc3(a + "." + b, [' '] + "= ", c + "." + d);
    Assoc3(a, ".", b);
    Assoc3(c, ".", d);
  }

  // What follows the name on the right of an equality, up to the next dot.
  function UpToDot(gap: string, left: string, name: string): string { name + (gap + left) }

  lemma {:induction false} SegmentsTell(xs: seq<Segment>, ys: seq<Segment>, end: string)
    requires AllClean(xs) && AllClean(ys) && SameGaps(xs, ys) && NoEndParts(xs, ys)
    requires SegmentsText(xs, end) == SegmentsText(ys, end)
    ensures xs == ys
  {
    if xs != [] {
      SegmentsRest(xs, ys);
      FirstSegment(xs, ys, end);
      hide AllClean, SameGaps, NoEndParts, SegmentsText;
      SegmentsTell(xs[1..], ys[1..], end);
      assert xs == [xs[0]] + xs[1..] && ys == [ys[0]] + ys[1..];
    }
  }

  lemma SegmentsRest(xs: seq<Segment>, ys: seq<Segment>)
    requires AllClean(xs) && AllClean(ys) && SameGaps(xs, ys) && NoEndParts(xs, ys) && xs != []
    ensures AllClean(xs[1..]) && AllClean(ys[1..]) && SameGaps(xs[1..], ys[1..]) && NoEndParts(xs[1..], ys[1..])
  {
    hide CleanColumn, DotFree, EndPart;
  }

  lemma FirstSegment(xs: seq<Segment>, ys: seq<Segment>, end: string)
    requires AllClean(xs) && AllClean(ys) && SameGaps(xs, ys) && NoEndParts(xs, ys) && xs != []
    requires SegmentsText(xs, end) == SegmentsText(ys, end)
    ensures xs[0] == ys[0] && SegmentsText(xs[1..], end) == SegmentsText(ys[1..], end)
  {
    hide BridgeText, EndPart, DotFree;
    var x, y, r, t := xs[0].bridge, ys[0].bridge, SegmentsText(xs[1..], end), SegmentsText(ys[1..], end);
    CancelFront(xs[0].gap, BridgeText(x) + r, BridgeText(y) + t);
    FirstEquality(x, r, y, t);
    if |xs| == 1 {
      CancelBack(x.right.name, y.right.name, end);
    } else {
      SegmentsRest(xs, ys);
      NextEquality(x.right.name, xs[1..], y.right.name, ys[1..], end);
    }
  }

  lemma CancelBack(a: string, b: string, x: string)
    requires a + x == b + x
    ensures a == b
  {
    assert |a| + |x| == |a + x| == |b + x| == |b| + |x|;
    SplitChunk(a, x, b, x);
  }

  // All but the last name of an equality is told by its marks.
  lemma FirstEquality(x: Bridge, r: string, y: Bridge, t: string)
    requires CleanColumn(x.left) && CleanColumn(x.right) && CleanColumn(y.left) && CleanColumn(y.right)
    requires BridgeText(x) + r == BridgeText(y) + t
    ensures x.left == y.left && x.right.table == y.right.table && x.right.name + r == y.right.name + t
  {
    hide BridgeText;
    BridgeCut(x, r);
    BridgeCut(y, t);
    var x3, y3 := x.right.table + (['.'] + (x.right.name + r)), y.right.table + (['.'] + (y.right.name + t));
    var x2, y2 := x.left.name + ([' '] + ("= " + x3)), y.left.name + ([' '] + ("= " + y3));
    FirstMark('.', x.left.table, x2, y.left.table, y2);
    FirstMark(' ', x.left.name, "= " + x3, y.left.name, "= " + y3);
    CancelFront("= ", x3, y3);
    FirstMark('.', x.right.table, x.right.name + r, y.right.table, y.right.name + t);
  }

  // The last name, because the table of the next equality is told from what stands before the dot.
  lemma NextEquality(a: string, xs: seq<Segment>, b: string, ys: seq<Segment>, end: string)
    requires xs != [] && ys != [] && AllClean(xs) && AllClean(ys) && xs[0].gap == ys[0].gap && Clean(a) && Clean(b)
    requires var s, t := xs[0].bridge.left.table, ys[0].bridge.left.table; (EndPart(s, t) || EndPart(t, s)) ==> s == t
    requires a + SegmentsText(xs, end) == b + SegmentsText(ys, end)
    ensures a == b && SegmentsText(xs, end) == SegmentsText(ys, end)
  {
    hide SegmentsText, AllClean, EndPart, Clean;
    var x, y, gap := xs[0].bridge, ys[0].bridge, xs[0].gap;
    var s, t := x.left.table, y.left.table;
    var u := DotAfter(a, xs, end);
    var v := DotAfter(b, ys, end);
    FirstMark('.', UpToDot(gap, s, a), u, UpToDot(gap, t, b), v);
    assert UpToDot(gap, s, a) == (a + gap) + s && UpToDot(gap, t, b) == (b + gap) + t;
    SameEnds(a + gap, s, b + gap, t);
    CancelBack(a + gap, b + gap, s);
    CancelBack(a, b, gap);
    CancelFront(a, SegmentsText(xs, end), SegmentsText(ys, end));
  }

  lemma SameEnds(a: string, s: string, b: string, t: string)
    requires a + s == b + t
    ensures EndPart(s, t) || EndPart(t, s)
  {
    var w := a + s;
    assert s == w[|w| - |s|..] && t == (b + t)[|b + t| - |t|..];
    if |s| <= |t| { assert t[|t| - |s|..] == w[|w| - |s|..]; } else { assert s[|s| - |t|..] == w[|w| - |t|..]; }
  }

  // The text from the first dot on.
  lemma DotAfter(a: string, xs: seq<Segment>, end: string) returns (u: string)
    requires xs != [] && AllClean(xs) && Clean(a)
    ensures a + SegmentsText(xs, end) == UpToDot(xs[0].gap, xs[0].bridge.left.table, a) + (['.'] + u)
    ensures forall i :: 0 <= i < |UpToDot(xs[0].gap, xs[0].bridge.left.table, a)| ==>
              UpToDot(xs[0].gap, xs[0].bridge.left.table, a)[i] != '.'
  {
    hide BridgeText;
    var b, more := xs[0].bridge, SegmentsText(xs[1..], end);
    BridgeCut(b, more);
    u := b.left.name + ([' '] + ("= " + (b.right.table + (['.'] + (b.right.name + more)))));
    Assoc3(xs[0].gap, b.left.table, ['.'] + u);
    Assoc3(a, xs[0].gap + b.left.table, ['.'] + u);
    assert SegmentsText(xs, end) == xs[0].gap + (b.left.table + (['.'] + u));
  }

  /******* Joins as segments *******/

  // The equalities of a join with the names of tables printed before each, and what is left at the end.
  function SegmentsOf(js: seq<JoinCond>, gap: string): (seq<Segment>, string) {
    if js == [] then ([], gap)
    else
      var here := Here(js[0].equals, gap + js[0].table.name);
      var rest := SegmentsOf(js[1..], here.1);
      (here.0 + rest.0, rest.1)
  }

  function Here(bs: seq<Bridge>, gap: string): (seq<Segment>, string) {
    if bs == [] then ([], gap) else ([Segment(gap, bs[0])] + Here(bs[1..], "").0, Here(bs[1..], "").1)
  }

  lemma {:induction false} SegmentsTextAppend(xs: seq<Segment>, ys: seq<Segment>, end: string)
    ensures SegmentsText(xs + ys, end) == SegmentsText(xs, SegmentsText(ys, end))
  {
    if xs == [] {
      assert xs + ys == ys;
    } else {
      assert (xs + ys)[1..] == xs[1..] + ys && (xs + ys)[0] == xs[0];
      SegmentsTextAppend(xs[1..], ys, end);
    }
  }

  lemma {:induction false} HereText(bs: seq<Bridge>, gap: string, more: string)
    ensures SegmentsText(Here(bs, gap).0, Here(bs, gap).1 + more) == gap + (EqualsKey(bs) + more)
  {
    hide BridgeText;
    if bs == [] {
      Empty(more);
    } else {
      HereText(bs[1..], "", more);
      Empty(EqualsKey(bs[1..]) + more);
      var xs := Here(bs, gap).0;
      assert xs[0] == Segment(gap, bs[0]) && xs[1..] == Here(bs[1..], "").0;
      Assoc3(BridgeText(bs[0]), EqualsKey(bs[1..]), more);
    }
  }

  lemma {:induction false} SegmentsOfText(js: seq<JoinCond>, gap: string)
    ensures SegmentsText(SegmentsOf(js, gap).0, SegmentsOf(js, gap).1) == gap + JoinsKey(js)
  {
    hide BridgeText, EqualsKey, Here;
    if js == [] {
      Empty(gap);
    } else {
      var here := Here(js[0].equals, gap + js[0].table.name);
      var rest := SegmentsOf(js[1..], here.1);
      SegmentsOfText(js[1..], here.1);
      SegmentsTextAppend(here.0, rest.0, rest.1);
      HereText(js[0].equals, gap + js[0].table.name, JoinsKey(js[1..]));
      Assoc4(gap, js[0].table.name, EqualsKey(js[0].equals), JoinsKey(js[1..]));
      Assoc3(gap, js[0].table.name, EqualsKey(js[0].equals) + JoinsKey(js[1..]));
      Assoc3(js[0].table.name, EqualsKey(js[0].equals), JoinsKey(js[1..]));
    }
  }

  // The same tables with as many equalities each.
  predicate Alike(js: seq<JoinCond>, ks: seq<JoinCond>) {
    |js| == |ks|
    && (js == [] || (js[0].table == ks[0].table && |js[0].equals| == |ks[0].equals| && Alike(js[1..], ks[1..])))
  }

  predicate CleanJoin(j: JoinCond) {
    && DotFree(j.table.name)
    && forall i :: 0 <= i < |j.equals| ==> CleanColumn(j.equals[i].left) && CleanColumn(j.equals[i].right)
  }

  predicate AllCleanJoins(js: seq<JoinCond>) {
    js == [] || (CleanJoin(js[0]) && AllCleanJoins(js[1..]))
  }

  lemma SameGapsAppend(a: seq<Segment>, b: seq<Segment>, c: seq<Segment>, d: seq<Segment>)
    requires SameGaps(a, c) && SameGaps(b, d)
    ensures SameGaps(a + b, c + d)
  {
  }

  lemma {:induction false} HereAlike(bs: seq<Bridge>, cs: seq<Bridge>, gap: string)
    requires |bs| == |cs|
    ensures SameGaps(Here(bs, gap).0, Here(cs, gap).0) && Here(bs, gap).1 == Here(cs, gap).1
    ensures |Here(bs, gap).0| == |bs|
    ensures Here(bs, gap).0 == Here(cs, gap).0 ==> bs == cs
  {
    if bs != [] {
      HereAlike(bs[1..], cs[1..], "");
      var x, y := Here(bs, gap).0, Here(cs, gap).0;
      assert x[1..] == Here(bs[1..], "").0 && y[1..] == Here(cs[1..], "").0;
      SameGapsAppend([Segment(gap, bs[0])], x[1..], [Segment(gap, cs[0])], y[1..]);
      assert x == y ==> x[0] == y[0];
      assert bs == [bs[0]] + bs[1..] && cs == [cs[0]] + cs[1..];
    }
  }

  lemma {:induction false} SegmentsAlike(js: seq<JoinCond>, ks: seq<JoinCond>, gap: string)
    requires Alike(js, ks)
    ensures SameGaps(SegmentsOf(js, gap).0, SegmentsOf(ks, gap).0) && SegmentsOf(js, gap).1 == SegmentsOf(ks, gap).1
    ensures SegmentsOf(js, gap).0 == SegmentsOf(ks, gap).0 ==> js == ks
  {
    if js != [] {
      hide Here, SameGaps;
      var g := gap + js[0].table.name;
      var x, y := Here(js[0].equals, g), Here(ks[0].equals, g);
      HereAlike(js[0].equals, ks[0].equals, g);
      HereAlike(ks[0].equals, js[0].equals, g);
      SegmentsAlike(js[1..], ks[1..], x.1);
      var r, t := SegmentsOf(js[1..], x.1).0, SegmentsOf(ks[1..], x.1).0;
      SameGapsAppend(x.0, r, y.0, t);
      if x.0 + r == y.0 + t {
        assert x.0 == (x.0 + r)[..|x.0|] && y.0 == (y.0 + t)[..|y.0|];
        assert r == (x.0 + r)[|x.0|..] && t == (y.0 + t)[|y.0|..];
      }
      assert js == [js[0]] + js[1..] && ks == [ks[0]] + ks[1..];
    }
  }

  lemma {:induction false} HereClean(bs: seq<Bridge>, gap: string)
    requires DotFree(gap) && forall i :: 0 <= i < |bs| ==> CleanColumn(bs[i].left) && CleanColumn(bs[i].right)
    ensures AllClean(Here(bs, gap).0) && DotFree(Here(bs, gap).1)
  {
    if bs != [] { HereClean(bs[1..], ""); }
  }

  lemma {:induction false} SegmentsClean(js: seq<JoinCond>, gap: string)
    requires AllCleanJoins(js) && DotFree(gap)
    ensures AllClean(SegmentsOf(js, gap).0)
  {
    if js != [] {
      var here := Here(js[0].equals, gap + js[0].table.name);
      HereClean(js[0].equals, gap + js[0].table.name);
      SegmentsClean(js[1..], here.1);
    }
  }

  /** For fixed tables and numbers of equalities the key of a join tells its equalities, if no table on
      the left of one is an end part of another. */
  lemma EqualitiesTell(js: seq<JoinCond>, ks: seq<JoinCond>)
    requires Alike(js, ks) && AllCleanJoins(js) && AllCleanJoins(ks) && JoinsKey(js) == JoinsKey(ks)
    requires NoEndParts(SegmentsOf(js, "").0, SegmentsOf(ks, "").0)
    ensures js == ks
  {
    hide SegmentsOf, JoinsKey, AllCleanJoins, Alike, NoEndParts, AllClean, SameGaps;
    SegmentsAlike(js, ks, "");
    SegmentsClean(js, "");
    SegmentsClean(ks, "");
    SegmentsOfText(js, "");
    SegmentsOfText(ks, "");
    SegmentsTell(SegmentsOf(js, "").0, SegmentsOf(ks, "").0, SegmentsOf(js, "").1);
  }

  /** Otherwise the key may leave them open: `x.k = b.y` and `za.k = b.w` read like `x.k = b.yz` and
      `a.k = b.w`. */
  lemma EqualitiesBlur(t: Table)
    ensures var b := Column("b", "w");
      var js := [JoinCond(t, [Bridge(Column("x", "k"), Column("b", "y")), Bridge(Column("za", "k"), b)])];
      var ks := [JoinCond(t, [Bridge(Column("x", "k"), Column("b", "yz")), Bridge(Column("a", "k"), b)])];
      JoinsKey(js) == JoinsKey(ks) && js != ks
  {
    var b := Column("b", "w");
    var p, q := Bridge(Column("x", "k"), Column("b", "y")), Bridge(Column("za", "k"), b);
    var r, u := Bridge(Column("x", "k"), Column("b", "yz")), Bridge(Column("a", "k"), b);
    assert BridgeText(p) + BridgeText(q) == "x.k = b.yza.k = b.w" == BridgeText(r) + BridgeText(u);
    TwoEquals(p, q);
    TwoEquals(r, u);
    assert [JoinCond(t, [p, q])][0].equals[0] != [JoinCond(t, [r, u])][0].equals[0];
    assert JoinsKey([JoinCond(t, [p, q])]) == t.name + EqualsKey([p, q]) + JoinsKey([]);
    assert JoinsKey([JoinCond(t, [r, u])]) == t.name + EqualsKey([r, u]) + JoinsKey([]);
  }

  lemma TwoEquals(p: Bridge, q: Bridge)
    ensures EqualsKey([p, q]) == BridgeText(p) + BridgeText(q)
  {
    assert [p, q][1..] == [q] && [q][1..] == [];
    assert EqualsKey([q]) == BridgeText(q) + EqualsKey([]);
    Empty(BridgeText(q));
    assert EqualsKey([p, q]) == BridgeText(p) + EqualsKey([q]);
  }
}

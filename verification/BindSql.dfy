/** Binding values to a prepared statement, and how the second traversal lines up with the first. */
module BindSql {
  import opened YanTypes
  import opened SqlLexer
  import opened SqlGrammar
  import opened QueryModel
  import opened SqlText
  import opened SqlPhrase
  import opened SqlRoundTrip
  import opened WhereMeaning

  /******* The statement object of the database *******/

  /** A prepared statement: its text, its parameter slots, and whether it was finalized or is in
      the middle of being stepped. */
  class PreparedStmt {
    const text: string
    var slots: seq<Option<Value>>
    var live: bool
    var stepping: bool

    constructor (text: string)
      ensures this.text == text && live && !stepping && Clear()
      ensures |slots| == Marks(Lex(text))
    {
      this.text := text;
      slots := seq(Marks(Lex(text)), _ => None);
      live, stepping := true, false;
    }

    predicate Clear()
      reads this
    {
      forall i :: 0 <= i < |slots| ==> slots[i].None?
    }

    // `sqlite3_bind_*`: misuse while stepping or after finalize, a range error outside the slots.
    method Bind(index: int, v: Value) returns (ok: bool)
      modifies this`slots
      ensures ok == (live && !stepping && 1 <= index <= old(|slots|))
      ensures ok ==> slots == old(slots)[index - 1 := Some(v)]
      ensures !ok ==> slots == old(slots)
    {
      ok := live && !stepping && 1 <= index <= |slots|;
      if ok { slots := slots[index - 1 := Some(v)]; }
    }

    method Reset()
      modifies this`stepping
      ensures !stepping
    {
      stepping := false;
    }

    method ClearBindings()
      modifies this`slots
      ensures Clear() && |slots| == old(|slots|)
    {
      slots := seq(|slots|, _ => None);
    }

    method Finalize()
      modifies this`live
      ensures !live
    {
      live := false;
    }
  }

  /******* What is to be bound *******/

  // `append_value` exists for int32, int64 and string; every other C++ type throws.
  predicate BindableType(t: YanType) {
    t.Int32? || t.Int64? || t.AutoIncrement? || t.Date? || t.Timestamp?
    || t.String? || t.Text? || t.Blob?
  }

  lemma BindableTypeIff(t: YanType)
    ensures BindableType(t) <==> CppTypeOf(t) in {Int32T, Int64T, StringT}
  {
  }

  // A list value (EQUAL_LIST) has no overload either.
  predicate Bindable(n: Named) {
    BindableType(n.ytype) && !n.op.EqualList?
  }

  // A plan names the value for each successive index; None is a value that cannot be bound.
  type Plan = seq<Option<Value>>

  function PlanOf(ns: seq<Named>): (p: Plan)
    ensures |p| == |ns|
  {
    if ns == [] then [] else [if Bindable(ns[0]) then Some(ns[0].value) else None] + PlanOf(ns[1..])
  }

  lemma {:induction false} PlanAt(ns: seq<Named>, i: nat)
    requires i < |ns|
    ensures PlanOf(ns)[i] == if Bindable(ns[i]) then Some(ns[i].value) else None
  {
    if i > 0 { PlanAt(ns[1..], i - 1); }
  }

  function SetPlan(t: Table, seqs: seq<nat>, values: map<nat, Value>): (p: Plan)
    requires forall i :: 0 <= i < |seqs| ==> seqs[i] < |t.members| && seqs[i] in values
    ensures |p| == |seqs|
  {
    if seqs == [] then []
    else [if BindableType(t.members[seqs[0]].ytype) then Some(values[seqs[0]]) else None]
         + SetPlan(t, seqs[1..], values)
  }

  lemma {:induction false} SetPlanAt(t: Table, seqs: seq<nat>, values: map<nat, Value>, i: nat)
    requires forall i :: 0 <= i < |seqs| ==> seqs[i] < |t.members| && seqs[i] in values
    requires i < |seqs|
    ensures SetPlan(t, seqs, values)[i] ==
            if BindableType(t.members[seqs[i]].ytype) then Some(values[seqs[i]]) else None
  {
    if i > 0 { SetPlanAt(t, seqs[1..], values, i - 1); }
  }

  function UpdatePlan(u: UpdateCond): Plan
    requires WellFormedUpdate(u)
  {
    SetPlan(u.cond.ret.table, u.seqs, u.values) + PlanOf(NamedConds(u.cond))
  }

  predicate AllBindable(p: Plan) {
    p == [] || (p[0].Some? && AllBindable(p[1..]))
  }

  lemma {:induction false} AllBindableAppend(p: Plan, q: Plan)
    ensures AllBindable(p + q) <==> AllBindable(p) && AllBindable(q)
  {
    if p == [] {
      assert p + q == q;
    } else {
      assert (p + q)[1..] == p[1..] + q && (p + q)[0] == p[0];
      AllBindableAppend(p[1..], q);
    }
  }

  lemma {:induction false} AllBindableAt(p: Plan, i: nat)
    requires AllBindable(p) && i < |p|
    ensures p[i].Some?
  {
    if i > 0 { AllBindableAt(p[1..], i - 1); }
  }

  // The slots after binding `p` from zero-based place `start` on.
  function Fill(slots: Plan, start: nat, p: Plan): Plan
    decreases |p|
  {
    if p == [] then slots
    else Fill(if start < |slots| then slots[start := p[0]] else slots, start + 1, p[1..])
  }

  // Binding `p` from there on succeeds: every value has a type the binder knows and a slot to go to.
  predicate Fits(p: Plan, start: nat, slots: nat) {
    p == [] || (p[0].Some? && start < slots && Fits(p[1..], start + 1, slots))
  }

  lemma {:induction false} FillTwice(slots: Plan, start: nat, p: Plan, q: Plan)
    ensures Fill(Fill(slots, start, p), start + |p|, q) == Fill(slots, start, p + q)
    decreases |p|
  {
    if p == [] {
      assert p + q == q;
    } else {
      assert (p + q)[1..] == p[1..] + q && (p + q)[0] == p[0];
      FillTwice(if start < |slots| then slots[start := p[0]] else slots, start + 1, p[1..], q);
    }
  }

  lemma {:induction false} FitsAppend(p: Plan, q: Plan, start: nat, slots: nat)
    ensures Fits(p + q, start, slots) <==> Fits(p, start, slots) && Fits(q, start + |p|, slots)
  {
    if p == [] {
      assert p + q == q;
    } else {
      assert (p + q)[1..] == p[1..] + q && (p + q)[0] == p[0];
      FitsAppend(p[1..], q, start + 1, slots);
    }
  }

  lemma {:induction false} FitsIff(p: Plan, start: nat, slots: nat)
    ensures Fits(p, start, slots) <==> AllBindable(p) && (p == [] || start + |p| <= slots)
  {
    if p != [] { FitsIff(p[1..], start + 1, slots); }
  }

  /** A plan as long as the statement has slots replaces every one of them, in order. */
  lemma {:induction false} FillAll(slots: Plan, start: nat, p: Plan)
    requires start + |p| == |slots|
    ensures Fill(slots, start, p) == slots[..start] + p
    decreases |p|
  {
    if p != [] {
      FillAll(slots[start := p[0]], start + 1, p[1..]);
      assert slots[start := p[0]][..start + 1] == slots[..start] + [p[0]];
      assert p == [p[0]] + p[1..];
    }
  }

  // The plan of the condition objects from the i-th on.
  function PlanFrom(cs: seq<ReadCond>, i: nat): Plan
    requires AllWellFormed(cs) && i <= |cs|
    decreases |cs| - i
  {
    if i == |cs| then [] else PlanOf(NamedConds(cs[i])) + PlanFrom(cs, i + 1)
  }

  lemma {:induction false} PlanFromIs(cs: seq<ReadCond>, i: nat)
    requires AllWellFormed(cs) && i <= |cs|
    ensures PlanFrom(cs, i) == PlanOf(AllConds(cs[i..]))
    ensures cs[0..] == cs
    decreases |cs| - i
  {
    if i < |cs| {
      PlanFromIs(cs, i + 1);
      assert cs[i..][1..] == cs[i + 1..];
      PlanAppend(NamedConds(cs[i]), AllConds(cs[i + 1..]));
    }
  }

  lemma {:induction false} PlanAppend(a: seq<Named>, b: seq<Named>)
    ensures PlanOf(a + b) == PlanOf(a) + PlanOf(b)
  {
    if a == [] {
      assert a + b == b;
    } else {
      assert (a + b)[1..] == a[1..] + b && (a + b)[0] == a[0];
      PlanAppend(a[1..], b);
    }
  }

  // Members whose values fit are scalar: a struct has no value to bind.
  lemma {:induction false} FitsScalar(t: Table, seqs: seq<nat>, values: map<nat, Value>, start: nat, slots: nat)
    requires forall i :: 0 <= i < |seqs| ==> seqs[i] < |t.members| && seqs[i] in values
    requires Fits(SetPlan(t, seqs, values), start, slots)
    ensures AllScalar(t, seqs)
  {
    FitsIff(SetPlan(t, seqs, values), start, slots);
    forall i | 0 <= i < |seqs| ensures IsScalar(t.members[seqs[i]].ytype) {
      AllBindableAt(SetPlan(t, seqs, values), i);
      SetPlanAt(t, seqs, values, i);
    }
  }

  class BindSqlParam {
    const stmt: PreparedStmt
    var index: nat

    constructor (stmt: PreparedStmt)
      ensures this.stmt == stmt && index == 0
    {
      this.stmt := stmt;
      index := 0;
    }

    // `ReadMemRef::append`: the counter moves before the value is looked at.
    method Append(v: Option<Value>) returns (ok: bool)
      requires stmt.live && !stmt.stepping
      modifies this, stmt`slots
      ensures index == old(index) + 1 && |stmt.slots| == old(|stmt.slots|)
      ensures ok == Fits([v], old(index), |stmt.slots|)
      ensures ok ==> stmt.slots == Fill(old(stmt.slots), old(index), [v])
    {
      index := index + 1;
      if v.None? {
        assert [v][0].None?;
        return false;
      }
      ok := stmt.Bind(index, v.value);
    }

    // One traversal: every value takes the next index; the first failure is thrown.
    method AppendAll(p: Plan) returns (ok: bool)
      requires stmt.live && !stmt.stepping
      modifies this, stmt`slots
      ensures |stmt.slots| == old(|stmt.slots|)
      ensures ok == Fits(p, old(index), |stmt.slots|)
      ensures ok ==> index == old(index) + |p| && stmt.slots == Fill(old(stmt.slots), old(index), p)
    {
      var i := 0;
      while i < |p|
        invariant 0 <= i <= |p| && index == old(index) + i && |stmt.slots| == old(|stmt.slots|)
        invariant Fits(p[..i], old(index), |stmt.slots|)
        invariant stmt.slots == Fill(old(stmt.slots), old(index), p[..i])
      {
        assert p == p[..i] + [p[i]] + p[i + 1..] && p[..i + 1] == p[..i] + [p[i]];
        FitsAppend(p[..i], [p[i]], old(index), |stmt.slots|);
        FitsAppend(p[..i + 1], p[i + 1..], old(index), |stmt.slots|);
        FillTwice(old(stmt.slots), old(index), p[..i], [p[i]]);
        ok := Append(p[i]);
        if !ok { return; }
        i := i + 1;
      }
      assert p[..|p|] == p;
      ok := true;
    }

    /** `bind(const ReadCond*)`: nothing is bound without a condition. */
    method BindCond(c: ReadCond) returns (ok: bool)
      requires WellFormed(c) && stmt.live && !stmt.stepping
      modifies this, stmt`slots
      ensures |stmt.slots| == old(|stmt.slots|)
      ensures ok == Fits(PlanOf(NamedConds(c)), old(index), |stmt.slots|)
      ensures ok ==> index == old(index) + |PlanOf(NamedConds(c))|
      ensures ok ==> stmt.slots == Fill(old(stmt.slots), old(index), PlanOf(NamedConds(c)))
    {
      if !HasCond(c) { return true; }
      ok := AppendAll(PlanOf(NamedConds(c)));
      if !ok { return; }
      if index == 0 { ok := false; }
    }

    /** `bind` over a list of conditions (UNION, JOIN, COPY): the index runs on from one to the next. */
    method BindConds(cs: seq<ReadCond>) returns (ok: bool)
      requires AllWellFormed(cs) && stmt.live && !stmt.stepping
      modifies this, stmt`slots
      ensures |stmt.slots| == old(|stmt.slots|)
      ensures ok == Fits(PlanOf(AllConds(cs)), old(index), |stmt.slots|)
      ensures ok ==> index == old(index) + |PlanOf(AllConds(cs))|
      ensures ok ==> stmt.slots == Fill(old(stmt.slots), old(index), PlanOf(AllConds(cs)))
    {
      PlanFromIs(cs, 0);
      ghost var all, slots := PlanFrom(cs, 0), |stmt.slots|;
      var i := 0;
      while i < |cs|
        invariant 0 <= i <= |cs| && |stmt.slots| == slots
        invariant index + |PlanFrom(cs, i)| == old(index) + |all|
        invariant Fits(all, old(index), slots) == Fits(PlanFrom(cs, i), index, slots)
        invariant Fill(old(stmt.slots), old(index), all) == Fill(stmt.slots, index, PlanFrom(cs, i))
      {
        ghost var p, rest := PlanOf(NamedConds(cs[i])), PlanFrom(cs, i + 1);
        FitsAppend(p, rest, index, slots);
        FillTwice(stmt.slots, index, p, rest);
        ok := BindCond(cs[i]);
        if !ok { return; }
        i := i + 1;
      }
      ok := true;
    }

    /** `bind(const UpdateCond*)`: the SET values first, then the condition.  Throws also when nothing is
        assigned, or a struct member is. */
    method BindUpdate(u: UpdateCond) returns (ok: bool)
      requires WellFormedUpdate(u) && stmt.live && !stmt.stepping
      modifies this, stmt`slots
      ensures |stmt.slots| == old(|stmt.slots|)
      ensures ok == (u.seqs != [] && Fits(UpdatePlan(u), old(index), |stmt.slots|))
      ensures ok ==> AllScalar(u.cond.ret.table, u.seqs)
      ensures ok ==> stmt.slots == Fill(old(stmt.slots), old(index), UpdatePlan(u))
    {
      if u.seqs == [] { return false; }
      ghost var sets, conds := SetPlan(u.cond.ret.table, u.seqs, u.values), PlanOf(NamedConds(u.cond));
      FitsAppend(sets, conds, index, |stmt.slots|);
      FillTwice(stmt.slots, index, sets, conds);
      ok := AppendAll(SetPlan(u.cond.ret.table, u.seqs, u.values));
      if !ok { return; }
      FitsScalar(u.cond.ret.table, u.seqs, u.values, old(index), |stmt.slots|);
      ok := BindCond(u.cond);
    }
  }

  /******* How many placeholders a text has *******/

  /** GROUP and ORDER print no `?`. */
  function LogicalCount(ns: seq<Named>): (n: nat)
    ensures n <= |ns|
    ensures n == |ns| <==> AllLogical(ns)
  {
    if ns == [] then 0 else (if IsLogical(ns[0].cond) then 1 else 0) + LogicalCount(ns[1..])
  }

  lemma {:induction false} CondsMarks(ns: seq<Named>, first: bool, ts: Tokens)
    ensures Marks(CondsTokens(ns, first, ts)) == LogicalCount(ns) + Marks(ts)
  {
    if ns != [] {
      CondsMarks(ns[1..], false, ts);
      CondMarks(ns[0], first, CondsTokens(ns[1..], false, ts));
    }
  }

  lemma {:induction false} CondMarks(n: Named, first: bool, ts: Tokens)
    ensures Marks(CondTokens(n, first, ts)) == (if IsLogical(n.cond) then 1 else 0) + Marks(ts)
  {
    assert Marks(PredTokens(n, ts)) == 1 + Marks(ts) by {
      assert Marks(Cons(Sym('?'), ts)) == 1 + Marks(ts);
    }
    assert n.cond.OrderDesc? ==> Marks(Cons(Word(n.col), Cons(Key(DESC), ts))) == Marks(ts);
    assert !IsLogical(n.cond) ==> Marks(Cons(Word(n.col), ts)) == Marks(ts);
  }

  lemma {:induction false} ColumnListMarks(cs: seq<Column>, ts: Tokens)
    ensures Marks(ColumnListTokens(cs, ts)) == Marks(ts)
  {
    if cs != [] {
      var rest := if |cs| == 1 then ts else Cons(Sym(','), ColumnListTokens(cs[1..], ts));
      if |cs| > 1 { ColumnListMarks(cs[1..], ts); }
      assert Marks(Cons(Word(cs[0].name), rest)) == Marks(rest);
      assert Marks(Cons(Sym('.'), Cons(Word(cs[0].name), rest))) == Marks(rest);
    }
  }

  lemma {:induction false} HeadMarks(cols: Columns, from: string, ts: Tokens)
    ensures Marks(HeadTokens(cols, from, ts)) == Marks(ts)
  {
    FromMarks(cols, Cons(Word(from), ts));
  }

  lemma {:induction false} FromMarks(cols: Columns, ts: Tokens)
    ensures Marks(FromTokens(cols, ts)) == Marks(ts)
  {
    var rest := Cons(Key(FROM), ts);
    assert Marks(rest) == Marks(ts);
    match cols
    case Star =>
    case Listed(columns) => ColumnListMarks(columns, rest);
    case CountOf(name) =>
      var close := Cons(Word(name), Cons(Sym(')'), rest));
      assert Marks(close) == Marks(rest);
      assert Marks(ColumnsTokens(cols, rest)) == Marks(close);
  }

  lemma {:induction false} WhereMarks(ns: seq<Named>, ts: Tokens)
    ensures Marks(WhereTokens(ns, ts)) == LogicalCount(ns) + Marks(ts)
  {
    CondsMarks(ns, true, ts);
  }

  lemma EndMarks()
    ensures Marks(END) == 0
  {
    assert Marks(END.tail) == 0;
  }

  /** A SELECT has one `?` for every logical condition. */
  lemma QueryMarks(c: ReadCond)
    requires WellFormed(c) && !QueryThrows(c) && NamesIn(c)
    ensures Marks(Lex(QueryText(c) + ";")) == LogicalCount(NamedConds(c))
  {
    var p := PartsOf(c);
    PrintSelect(p, STOP);
    LexStatement(SelectPhrase(p, STOP), SelectText(p));
    HeadMarks(p.cols, p.from, WhereTokens(p.ns, END));
    WhereMarks(p.ns, END);
    EndMarks();
  }

  lemma DeleteMarks(c: ReadCond)
    requires WellFormed(c) && !DeleteThrows(c) && ColsAreNames(NamedConds(c)) && IsName(ObjName(c).value)
    ensures Marks(Lex(DeleteText(c) + ";")) == LogicalCount(NamedConds(c))
  {
    var ns, name := NamedConds(c), ObjName(c).value;
    PrintWhere(ns, STOP);
    PrintDelete(name, WherePhrase(ns, STOP), WhereText(ns), STOP);
    LexStatement(DeletePhrase(name, WherePhrase(ns, STOP)), DeleteText(c));
    WhereMarks(ns, END);
    EndMarks();
    assert Marks(Cons(Word(name), WhereTokens(ns, END))) == Marks(WhereTokens(ns, END));
  }

  lemma {:induction false} SetsMarks(names: seq<string>, ts: Tokens)
    ensures Marks(SetsTokens(names, ts)) == |names| + Marks(ts)
  {
    if names != [] {
      var rest := if |names| == 1 then ts else Cons(Sym(','), SetsTokens(names[1..], ts));
      if |names| > 1 { SetsMarks(names[1..], ts); }
      assert Marks(Cons(Sym('?'), rest)) == 1 + Marks(rest);
      assert Marks(SetTokens(names[0], rest)) == 1 + Marks(rest);
    }
  }

  lemma UpdateMarks(u: UpdateCond)
    requires WellFormedUpdate(u) && !UpdateThrows(u) && UpdateNames(u)
    ensures Marks(Lex(UpdateText(u) + ";")) == |u.seqs| + LogicalCount(NamedConds(u.cond))
  {
    hide Prints, WherePhrase, UpdatePhrase, WhereTokens, SetsTokens, LogicalCount;
    var t, ns := u.cond.ret.table, NamedConds(u.cond);
    var names := SetNames(t, u.seqs);
    PrintWhere(ns, STOP);
    PrintUpdate(t.name, names, WherePhrase(ns, STOP), WhereText(ns), STOP);
    LexStatement(UpdatePhrase(t.name, names, WherePhrase(ns, STOP)), UpdateText(u));
    var sets := SetsTokens(names, WhereTokens(ns, END));
    SetsMarks(names, WhereTokens(ns, END));
    WhereMarks(ns, END);
    EndMarks();
    assert Marks(Cons(Key(SET), sets)) == Marks(sets);
    assert Marks(UpdateTokens(t.name, names, WhereTokens(ns, END))) == Marks(sets);
  }

  function UnionCount(ps: seq<Parts>): nat {
    if ps == [] then 0 else LogicalCount(ps[0].ns) + UnionCount(ps[1..])
  }

  lemma {:induction false} UnionTokensMarks(ps: seq<Parts>)
    ensures Marks(UnionTokens(ps, END)) == UnionCount(ps)
  {
    EndMarks();
    if ps != [] {
      var rest := if |ps| == 1 then END else Cons(Key(UNION), UnionTokens(ps[1..], END));
      if |ps| > 1 { UnionTokensMarks(ps[1..]); }
      HeadMarks(ps[0].cols, ps[0].from, WhereTokens(ps[0].ns, rest));
      WhereMarks(ps[0].ns, rest);
    }
  }

  lemma {:induction false} UnionMarks(cs: seq<ReadCond>)
    requires AllWellFormed(cs) && !UnionThrows(cs) && (forall i :: 0 <= i < |cs| ==> NamesIn(cs[i]))
    ensures Marks(Lex(UnionText(cs) + ";")) == UnionCount(MemberParts(cs)) == LogicalCount(AllConds(cs))
  {
    var ps := MemberParts(cs);
    PrintUnion(ps, STOP);
    LexStatement(UnionPhrase(ps, STOP), UnionText(cs));
    UnionTokensMarks(ps);
    UnionCountIs(cs);
  }

  lemma {:induction false} LogicalCountAppend(a: seq<Named>, b: seq<Named>)
    ensures LogicalCount(a + b) == LogicalCount(a) + LogicalCount(b)
  {
    if a == [] {
      assert a + b == b;
    } else {
      assert (a + b)[1..] == a[1..] + b;
      LogicalCountAppend(a[1..], b);
    }
  }

  lemma {:induction false} UnionCountIs(cs: seq<ReadCond>)
    requires forall i :: 0 <= i < |cs| ==> WellFormed(cs[i]) && !QueryThrows(cs[i])
    ensures UnionCount(MemberParts(cs)) == LogicalCount(AllConds(cs))
  {
    if cs != [] {
      UnionCountIs(cs[1..]);
      LogicalCountAppend(NamedConds(cs[0]), AllConds(cs[1..]));
    }
  }

  lemma {:induction false} BridgesMarks(bs: seq<Bridge>, ts: Tokens)
    ensures Marks(BridgesTokens(bs, ts)) == Marks(ts)
  {
    if bs != [] {
      var rest := if |bs| == 1 then ts else Cons(Key(AND), BridgesTokens(bs[1..], ts));
      if |bs| > 1 { BridgesMarks(bs[1..], ts); }
      ColumnListMarks([bs[0].right], rest);
      ColumnListMarks([bs[0].left], Cons(Op("="), ColumnTokens(bs[0].right, rest)));
    }
  }

  lemma {:induction false} JoinsMarks(js: seq<JoinCond>, ts: Tokens)
    ensures Marks(JoinsTokens(js, ts)) == Marks(ts)
  {
    if js != [] {
      var rest := JoinsTokens(js[1..], ts);
      var on := BridgesTokens(js[0].equals, rest);
      JoinsMarks(js[1..], ts);
      BridgesMarks(js[0].equals, rest);
      assert Marks(Cons(Word(js[0].table.name), Cons(Key(ON), on))) == Marks(on);
    }
  }

  lemma {:induction false} FuseMarks(word: string, ts: Tokens)
    ensures Marks(Fuse(word, ts)) == Marks(ts)
  {
  }

  lemma {:induction false} JoinMarks(ret: Ret, js: seq<JoinCond>, cs: seq<ReadCond>)
    requires AllConditional(cs) && !JoinThrows(ret, js, cs) && JoinNames(ret, js, cs)
    ensures Marks(Lex(JoinText(ret, js, cs) + ";")) == LogicalCount(AllConds(cs))
  {
    hide Fuse, BridgesTokens, JoinsTokens, WhereTokens, FromTokens, JoinText;
    var cols, from, ns := RetColumns(ret).value, js[0].table.name, AllConds(cs);
    var joins := JoinsTokens(js[1..], WhereTokens(ns, END));
    LexJoinText(ret, js, cs);
    FromMarks(cols, Fuse(from, BridgesTokens(js[0].equals, joins)));
    FuseMarks(from, BridgesTokens(js[0].equals, joins));
    BridgesMarks(js[0].equals, joins);
    JoinsMarks(js[1..], WhereTokens(ns, END));
    WhereMarks(ns, END);
    EndMarks();
  }

  lemma {:induction false} CopyMarks(froms: seq<JoinCond>, into: Ret, cs: seq<ReadCond>)
    requires AllConditional(cs) && !CopyThrows(froms, into, cs) && JoinNames(into, froms, cs)
    requires IsName(into.table.name)
    ensures Marks(Lex(CopyText(froms, into, cs) + ";")) == LogicalCount(AllConds(cs))
  {
    var name, cols, ns := into.table.name, RetColumns(into).value, AllConds(cs);
    var body := SelectTokens(Parts(cols, froms[0].table.name, ns), END);
    LexCopyText(froms, into, cs);
    HeadMarks(cols, froms[0].table.name, WhereTokens(ns, END));
    WhereMarks(ns, END);
    EndMarks();
    var close := Cons(Sym(')'), body);
    assert Marks(close) == Marks(body);
    ColumnListMarks(cols.columns, close);
    var open := Cons(Sym('('), ColumnsTokens(cols, close));
    assert Marks(open) == Marks(close);
    assert Marks(Cons(Word(name), open)) == Marks(open);
  }

  /******* The two traversals agree *******/

  lemma {:induction false} BindableIff(ns: seq<Named>)
    ensures AllBindable(PlanOf(ns)) <==> forall i :: 0 <= i < |ns| ==> Bindable(ns[i])
  {
    if ns != [] {
      BindableIff(ns[1..]);
      assert ns == [ns[0]] + ns[1..];
      if forall i :: 0 <= i < |ns| ==> Bindable(ns[i]) {
        forall i | 0 <= i < |ns[1..]| ensures Bindable(ns[1..][i]) { assert Bindable(ns[i + 1]); }
      }
    }
  }

  /** Binding to a fresh statement succeeds exactly when every condition is logical and of a type
      the binder knows: one GROUP or ORDER in the list and the last value has no `?`. */
  lemma {:induction false} BindSucceedsIff(ns: seq<Named>, marks: nat)
    requires marks == LogicalCount(ns)
    ensures Fits(PlanOf(ns), 0, marks)
            <==> (AllLogical(ns) && forall i :: 0 <= i < |ns| ==> Bindable(ns[i]))
  {
    BindableIff(ns);
    FitsIff(PlanOf(ns), 0, marks);
  }

  predicate Bindables(ns: seq<Named>) {
    AllLogical(ns) && AllBindable(PlanOf(ns))
  }

  /** Position by position: on a fresh statement with one slot for each condition, binding succeeds,
      fills every slot, and leaves in the k-th the value of the k-th condition. */
  lemma {:induction false} ConditionsAlign(ns: seq<Named>, slots: Plan, k: nat)
    requires Bindables(ns) && |slots| == LogicalCount(ns) && k < |ns|
    ensures Fits(PlanOf(ns), 0, |slots|) && |Fill(slots, 0, PlanOf(ns))| == |ns|
    ensures Fill(slots, 0, PlanOf(ns))[k] == Some(ns[k].value)
  {
    FitsIff(PlanOf(ns), 0, |slots|);
    FillAll(slots, 0, PlanOf(ns));
    assert slots[..0] + PlanOf(ns) == PlanOf(ns);
    AllBindableAt(PlanOf(ns), k);
    PlanAt(ns, k);
  }

  // The slots of a statement to which a plan was bound from the start.
  lemma {:induction false} PlanIsBound(ns: seq<Named>, start: Plan, binds: Plan)
    requires AllBindable(PlanOf(ns)) && start + PlanOf(ns) <= binds
    ensures BoundInOrder(ns, |start| + 1, binds)
  {
    forall i | 0 <= i < |ns| ensures Bound(binds, |start| + 1 + i) == Some(ns[i].value) {
      assert binds[|start| + i] == (start + PlanOf(ns))[|start| + i] == PlanOf(ns)[i];
      AllBindableAt(PlanOf(ns), i);
      PlanAt(ns, i);
    }
  }

  // The condition of a parsed statement is true exactly of the rows the list selects.
  predicate WhereSelects(where: Option<Search>, ns: seq<Named>, row: Row, binds: Plan) {
    where.Some? && (EvalSearch(where.value, row, binds).True? <==> Selected(ns, row))
  }

  lemma {:induction false} LogicalSpanAll(ns: seq<Named>)
    requires AllLogical(ns)
    ensures LogicalSpan(ns) == |ns|
  {
    if ns != [] { LogicalSpanAll(ns[1..]); }
  }

  // A list that reads as a search condition with no GROUP or ORDER after it.
  predicate TailIs(ns: seq<Named>, k: nat)
    requires ns != []
  {
    TailOf(ns, k) == Some(Tail(Some(Runs(ns, k)), None, None)) && WhereOf(ns, k) == Some(Some(Runs(ns, k)))
  }

  // A bindable logical list is SQL, and its values stand where the text expects them.
  lemma {:induction false} TailMeaning(ns: seq<Named>, start: Plan, row: Row, binds: Plan)
    requires ns != [] && Bindables(ns) && start + PlanOf(ns) <= binds
    ensures TailIs(ns, |start| + 1) && WhereSelects(Some(Runs(ns, |start| + 1)), ns, row, binds)
  {
    PlanIsBound(ns, start, binds);
    BoundTailMeaning(ns, |start| + 1, row, binds);
  }

  lemma {:induction false} BoundTailMeaning(ns: seq<Named>, k: nat, row: Row, binds: Plan)
    requires ns != [] && Bindables(ns) && BoundInOrder(ns, k, binds)
    ensures TailIs(ns, k) && WhereSelects(Some(Runs(ns, k)), ns, row, binds)
  {
    BindableIff(ns);
    forall i | 0 <= i < |ns| ensures !ns[i].op.EqualList? { assert Bindable(ns[i]); }
    LogicalSpanAll(ns);
    assert ns[..|ns|] == ns && ns[|ns|..] == [];
    SearchMeaning(ns, k, row, binds);
  }

  lemma WholePlan(p: Plan)
    ensures [] + p <= p
  {
  }

  lemma {:induction false} WholeTailMeaning(ns: seq<Named>, row: Row)
    requires ns != [] && Bindables(ns)
    ensures TailIs(ns, 1) && WhereSelects(Some(Runs(ns, 1)), ns, row, PlanOf(ns))
  {
    WholePlan(PlanOf(ns));
    TailMeaning(ns, [], row, PlanOf(ns));
  }

  // The one SELECT of a query.
  predicate IsSelect(q: Option<Statement>, cols: Columns, from: string, joins: seq<JoinClause>) {
    && q.Some? && q.value.Query? && |q.value.members| == 1
    && var s := q.value.members[0]; s.columns == cols && s.from == from && s.joins == joins
  }

  predicate QueryMeans(q: Option<Statement>, cols: Columns, from: string, ns: seq<Named>, row: Row) {
    if NoColumns(cols) then q.None?
    else IsSelect(q, cols, from, []) && WhereSelects(q.value.members[0].tail.where, ns, row, PlanOf(ns))
  }

  /** From text to meaning: parse the text of a SELECT that lists a column, bind the values the binder
      binds, and the row condition is true exactly when the list of conditions selects the row. */
  lemma QueryMeaning(c: ReadCond, row: Row)
    requires WellFormed(c) && HasCond(c) && !QueryThrows(c) && NamesIn(c) && Bindables(NamedConds(c))
    ensures Marks(Lex(QueryText(c) + ";")) == |PlanOf(NamedConds(c))|
    ensures QueryMeans(ParseText(QueryText(c) + ";"), QueryColumns(c).value, ObjName(c).value, NamedConds(c), row)
  {
    hide ParseText, QueryText, TailOf, WhereSelects, PlanOf, Runs;
    QueryMarks(c);
    QueryRoundTrip(c);
    WholeTailMeaning(NamedConds(c), row);
  }

  predicate DeleteMeans(q: Option<Statement>, table: string, ns: seq<Named>, row: Row) {
    q.Some? && q.value.Delete? && q.value.table == table && WhereSelects(q.value.where, ns, row, PlanOf(ns))
  }

  /** The same for DELETE. */
  lemma DeleteMeaning(c: ReadCond, row: Row)
    requires WellFormed(c) && HasCond(c) && !DeleteThrows(c) && ColsAreNames(NamedConds(c)) && IsName(ObjName(c).value)
    requires Bindables(NamedConds(c))
    ensures Marks(Lex(DeleteText(c) + ";")) == |PlanOf(NamedConds(c))|
    ensures DeleteMeans(ParseText(DeleteText(c) + ";"), ObjName(c).value, NamedConds(c), row)
  {
    DeleteMarks(c);
    DeleteRoundTrip(c);
    WholeTailMeaning(NamedConds(c), row);
  }

  // The i-th assignment names the i-th assigned member, and its `?` receives that member's value.
  predicate Assigned(u: UpdateCond, sets: seq<Assign>)
    requires WellFormedUpdate(u)
  {
    && |sets| == |u.seqs|
    && forall i :: 0 <= i < |sets| ==>
         sets[i].col == u.cond.ret.table.members[u.seqs[i]].name
         && Bound(UpdatePlan(u), sets[i].mark) == Some(u.values[u.seqs[i]])
  }

  lemma AssignedHolds(u: UpdateCond)
    requires WellFormedUpdate(u) && AllBindable(UpdatePlan(u))
    ensures Assigned(u, AssignsOf(SetNames(u.cond.ret.table, u.seqs), 1))
  {
    var sets := AssignsOf(SetNames(u.cond.ret.table, u.seqs), 1);
    forall i | 0 <= i < |sets| ensures Bound(UpdatePlan(u), sets[i].mark) == Some(u.values[u.seqs[i]]) {
      AllBindableAt(UpdatePlan(u), i);
      SetPlanAt(u.cond.ret.table, u.seqs, u.values, i);
    }
  }

  /** UPDATE, position by position: the assigned values fill the first slots, the values of the
      condition the rest. */
  lemma {:induction false} UpdateAligns(u: UpdateCond, slots: Plan)
    requires WellFormedUpdate(u) && AllLogical(NamedConds(u.cond)) && AllBindable(UpdatePlan(u))
    requires |slots| == |u.seqs| + LogicalCount(NamedConds(u.cond))
    ensures Fits(UpdatePlan(u), 0, |slots|) && Fill(slots, 0, UpdatePlan(u)) == UpdatePlan(u)
    ensures forall i :: 0 <= i < |u.seqs| ==> UpdatePlan(u)[i] == Some(u.values[u.seqs[i]])
    ensures UpdatePlan(u)[|u.seqs|..] == PlanOf(NamedConds(u.cond))
  {
    FitsIff(UpdatePlan(u), 0, |slots|);
    FillAll(slots, 0, UpdatePlan(u));
    assert slots[..0] + UpdatePlan(u) == UpdatePlan(u);
    forall i | 0 <= i < |u.seqs| ensures UpdatePlan(u)[i] == Some(u.values[u.seqs[i]]) {
      AllBindableAt(UpdatePlan(u), i);
      SetPlanAt(u.cond.ret.table, u.seqs, u.values, i);
    }
  }

  predicate UpdateMeans(q: Option<Statement>, u: UpdateCond, row: Row)
    requires WellFormedUpdate(u)
  {
    && q.Some? && q.value.Update? && q.value.table == u.cond.ret.table.name
    && Assigned(u, q.value.sets)
    && WhereSelects(q.value.where, NamedConds(u.cond), row, UpdatePlan(u))
  }

  /** UPDATE: each SET placeholder receives the value assigned to its column, and the condition
      selects with the values bound after them. */
  lemma UpdateMeaning(u: UpdateCond, row: Row)
    requires WellFormedUpdate(u) && HasCond(u.cond) && !UpdateThrows(u) && UpdateNames(u)
    requires AllLogical(NamedConds(u.cond)) && AllBindable(UpdatePlan(u))
    ensures Marks(Lex(UpdateText(u) + ";")) == |UpdatePlan(u)|
    ensures UpdateMeans(ParseText(UpdateText(u) + ";"), u, row)
  {
    var t, ns := u.cond.ret.table, NamedConds(u.cond);
    var set0 := SetPlan(t, u.seqs, u.values);
    UpdateMarks(u);
    UpdateRoundTrip(u);
    AllBindableAppend(set0, PlanOf(ns));
    AssignedHolds(u);
    TailMeaning(ns, set0, row, UpdatePlan(u));
  }

  /******* UNION: the numbering runs on *******/

  // All conditions of the members of a union, one after the other.
  function PartsConds(ps: seq<Parts>): seq<Named> {
    if ps == [] then [] else ps[0].ns + PartsConds(ps[1..])
  }

  lemma BindablesSplit(a: seq<Named>, b: seq<Named>)
    requires Bindables(a + b)
    ensures Bindables(a) && Bindables(b)
  {
    PlanAppend(a, b);
    AllBindableAppend(PlanOf(a), PlanOf(b));
    forall i | 0 <= i < |a| ensures IsLogical(a[i].cond) { assert (a + b)[i] == a[i]; }
    forall i | 0 <= i < |b| ensures IsLogical(b[i].cond) { assert (a + b)[|a| + i] == b[i]; }
  }

  // One member of a union, with the values bound to the whole statement.
  predicate MemberSelects(s: Select, p: Parts, row: Row, binds: Plan) {
    && s.columns == p.cols && s.from == p.from && s.tail.order.None?
    && if p.ns == [] then s.tail.where.None? else WhereSelects(s.tail.where, p.ns, row, binds)
  }

  // The values bound to the statement from number k on are those of the member.
  predicate Supplies(p: Parts, k: nat, binds: Plan) {
    Bindables(p.ns) && BoundInOrder(p.ns, k, binds)
  }

  predicate AllSupplied(ps: seq<Parts>, k: nat, binds: Plan) {
    ps == [] || (Supplies(ps[0], k, binds) && AllSupplied(ps[1..], k + |ps[0].ns|, binds))
  }

  // The select list read with numbers from k on means the members.
  predicate MembersMean(ps: seq<Parts>, k: nat, row: Row, binds: Plan) {
    MembersOf(ps, k).Some? && AllSelect(MembersOf(ps, k).value, ps, row, binds)
  }

  lemma {:induction false} SuppliedInOrder(ps: seq<Parts>, start: Plan, binds: Plan)
    requires Bindables(PartsConds(ps)) && start + PlanOf(PartsConds(ps)) <= binds
    ensures AllSupplied(ps, |start| + 1, binds)
    decreases |ps|
  {
    if ps != [] {
      SplitFirst(ps[0], ps[1..], start, binds);
      PlanIsBound(ps[0].ns, start, binds);
      SuppliedInOrder(ps[1..], start + PlanOf(ps[0].ns), binds);
    }
  }

  predicate AllListed(ps: seq<Parts>) {
    forall i :: 0 <= i < |ps| ==> !NoColumns(ps[i].cols)
  }

  lemma MemberMeaning(p: Parts, k: nat, row: Row, binds: Plan)
    requires Supplies(p, k, binds) && !NoColumns(p.cols)
    ensures LogicalSpan(p.ns) == |p.ns|
    ensures SelectOf(p, k).Some? && MemberSelects(SelectOf(p, k).value, p, row, binds)
  {
    LogicalSpanAll(p.ns);
    if p.ns != [] { BoundTailMeaning(p.ns, k, row, binds); }
  }

  // Member by member.
  predicate AllSelect(ms: seq<Select>, ps: seq<Parts>, row: Row, binds: Plan) {
    if ps == [] then ms == []
    else ms != [] && MemberSelects(ms[0], ps[0], row, binds) && AllSelect(ms[1..], ps[1..], row, binds)
  }

  lemma {:induction false} AllSelectCons(s: Option<Select>, ms: Option<seq<Select>>, p: Parts, ps: seq<Parts>, row: Row, binds: Plan)
    requires s.Some? && MemberSelects(s.value, p, row, binds) && ms.Some? && AllSelect(ms.value, ps, row, binds)
    ensures MemberCons(s, ms).Some? && AllSelect(MemberCons(s, ms).value, [p] + ps, row, binds)
  {
    assert ([s.value] + ms.value)[1..] == ms.value && ([p] + ps)[1..] == ps;
  }

  lemma PrefixSplit(start: Plan, plan: Plan, rest: Plan, binds: Plan)
    requires start + (plan + rest) <= binds
    ensures start + plan <= binds && (start + plan) + rest <= binds
  {
    assert start + (plan + rest) == (start + plan) + rest;
  }

  lemma {:induction false} SplitFirst(p: Parts, ps: seq<Parts>, start: Plan, binds: Plan)
    requires Bindables(p.ns + PartsConds(ps)) && start + PlanOf(p.ns + PartsConds(ps)) <= binds
    ensures Bindables(p.ns) && start + PlanOf(p.ns) <= binds
    ensures Bindables(PartsConds(ps)) && (start + PlanOf(p.ns)) + PlanOf(PartsConds(ps)) <= binds
  {
    BindablesSplit(p.ns, PartsConds(ps));
    PlanAppend(p.ns, PartsConds(ps));
    PrefixSplit(start, PlanOf(p.ns), PlanOf(PartsConds(ps)), binds);
  }

  lemma {:induction false} MembersAt(p: Parts, ps: seq<Parts>, k: nat)
    requires LogicalSpan(p.ns) == |p.ns|
    ensures MembersOf([p] + ps, k) == MemberCons(SelectOf(p, k), MembersOf(ps, k + |p.ns|))
  {
    assert ([p] + ps)[1..] == ps;
  }

  lemma MembersStep(p: Parts, ps: seq<Parts>, row: Row, binds: Plan, k: nat)
    requires Supplies(p, k, binds) && MembersMean(ps, k + |p.ns|, row, binds) && !NoColumns(p.cols)
    ensures MembersMean([p] + ps, k, row, binds)
  {
    MemberMeaning(p, k, row, binds);
    MembersAt(p, ps, k);
    AllSelectCons(SelectOf(p, k), MembersOf(ps, k + |p.ns|), p, ps, row, binds);
  }

  lemma SuppliedRest(ps: seq<Parts>, k: nat, binds: Plan)
    requires ps != [] && AllSupplied(ps, k, binds)
    ensures Supplies(ps[0], k, binds) && AllSupplied(ps[1..], k + |ps[0].ns|, binds) && ps == [ps[0]] + ps[1..]
  {
  }

  lemma NoMembers(k: nat, row: Row, binds: Plan)
    ensures MembersMean([], k, row, binds)
  {
  }

  lemma {:induction false} MembersMeaning(ps: seq<Parts>, k: nat, row: Row, binds: Plan)
    requires AllSupplied(ps, k, binds) && AllListed(ps)
    ensures MembersMean(ps, k, row, binds)
    decreases |ps|
  {
    hide Supplies, MembersMean;
    if ps == [] {
      NoMembers(k, row, binds);
    } else {
      SuppliedRest(ps, k, binds);
      MembersMeaning(ps[1..], k + |ps[0].ns|, row, binds);
      MembersStep(ps[0], ps[1..], row, binds, k);
    }
  }

  lemma {:induction false} UnionOfMeaning(ps: seq<Parts>, row: Row)
    requires Bindables(PartsConds(ps)) && AllListed(ps)
    ensures MembersOf(ps, 1).Some?
    ensures AllSelect(MembersOf(ps, 1).value, ps, row, PlanOf(PartsConds(ps)))
  {
    hide Bindables, PlanOf, PartsConds, AllSupplied, MembersOf, AllSelect;
    WholePlan(PlanOf(PartsConds(ps)));
    SuppliedInOrder(ps, [], PlanOf(PartsConds(ps)));
    MembersMeaning(ps, 1, row, PlanOf(PartsConds(ps)));
  }

  lemma {:induction false} PartsCondsAre(cs: seq<ReadCond>)
    requires forall i :: 0 <= i < |cs| ==> WellFormed(cs[i]) && !QueryThrows(cs[i])
    ensures PartsConds(MemberParts(cs)) == AllConds(cs)
  {
    if cs != [] {
      PartsCondsAre(cs[1..]);
      assert MemberParts(cs)[1..] == MemberParts(cs[1..]);
    }
  }

  /** UNION: every member selects with its own values although one index runs over all of them; the text
      is not SQL exactly when some member lists no column. */
  lemma {:induction false} UnionMeaning(cs: seq<ReadCond>, row: Row)
    requires AllWellFormed(cs) && !UnionThrows(cs) && (forall i :: 0 <= i < |cs| ==> NamesIn(cs[i]))
    requires Bindables(AllConds(cs))
    ensures Marks(Lex(UnionText(cs) + ";")) == |PlanOf(AllConds(cs))|
    ensures UnionMeans(ParseText(UnionText(cs) + ";"), MemberParts(cs), row, PlanOf(AllConds(cs)))
  {
    hide ParseText, UnionText, PlanOf, AllSelect, AllConds;
    UnionMarks(cs);
    UnionRoundTrip(cs);
    PartsCondsAre(cs);
    if AllListed(MemberParts(cs)) { UnionOfMeaning(MemberParts(cs), row); }
  }

  predicate UnionMeans(q: Option<Statement>, ps: seq<Parts>, row: Row, binds: Plan) {
    if AllListed(ps) then q.Some? && q.value.Query? && AllSelect(q.value.members, ps, row, binds) else q.None?
  }
}

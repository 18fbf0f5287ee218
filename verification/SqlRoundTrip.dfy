/** Parsing undoes printing: what a database reads in each generated text. */
module SqlRoundTrip {
  import opened YanTypes
  import opened Strings
  import opened SqlLexer
  import opened SqlGrammar
  import opened SqlPhrase
  import opened QueryModel
  import opened SqlText

  /******* What a list of conditions says *******/

  predicate AllLogical(ns: seq<Named>) {
    forall i :: 0 <= i < |ns| ==> IsLogical(ns[i].cond)
  }

  predicate HasListOp(ns: seq<Named>) {
    exists i :: 0 <= i < |ns| && ns[i].op.EqualList?
  }

  // One printed predicate; NOT prints the complemented operator.
  function PredOf(n: Named, k: nat): Pred {
    Pred(n.col, OpsSymbol(n.op, n.cond.Not?), k)
  }

  /** The OR-separated runs of a logical list.  The first connective is not printed. */
  function Runs(ns: seq<Named>, k: nat): (s: Search)
    requires ns != []
    ensures s != [] && s[0] != []
  {
    var p := PredOf(ns[0], k);
    if |ns| == 1 then [[p]]
    else
      var s := Runs(ns[1..], k + 1);
      if ns[1].cond.Or? then [[p]] + s else [[p] + s[0]] + s[1..]
  }

  function LogicalSpan(ns: seq<Named>): (n: nat)
    ensures n <= |ns|
  {
    if ns == [] || !IsLogical(ns[0].cond) then 0 else 1 + LogicalSpan(ns[1..])
  }

  lemma {:induction false} SpanIsMaximal(ns: seq<Named>)
    ensures AllLogical(ns[..LogicalSpan(ns)])
    ensures LogicalSpan(ns) < |ns| ==> !IsLogical(ns[LogicalSpan(ns)].cond)
  {
    if ns != [] && IsLogical(ns[0].cond) {
      var n := LogicalSpan(ns[1..]);
      SpanIsMaximal(ns[1..]);
      assert ns[..n + 1] == [ns[0]] + ns[1..][..n];
    }
  }

  function OrderOf(n: Named): Order { Order(n.col, n.cond.OrderDesc?) }

  predicate IsOrder(n: Named) { n.cond.OrderAsc? || n.cond.OrderDesc? }

  // [GROUP] [ORDER], and nothing more.
  function ClausesOf(ns: seq<Named>): Option<(Option<string>, Option<Order>)> {
    if ns == [] then Some((None, None))
    else if |ns| == 1 && ns[0].cond.Group? then Some((Some(ns[0].col), None))
    else if |ns| == 1 && IsOrder(ns[0]) then Some((None, Some(OrderOf(ns[0]))))
    else if |ns| == 2 && ns[0].cond.Group? && IsOrder(ns[1]) then Some((Some(ns[0].col), Some(OrderOf(ns[1]))))
    else None
  }

  /** The clauses a list of conditions stands for, if it is SQL at all: logical conditions without
      EQUAL_LIST, then at most one GROUP, then at most one ORDER. */
  function TailOf(ns: seq<Named>, k: nat): Option<Tail> {
    if ns == [] then Some(Tail(None, None, None))
    else
      var n := LogicalSpan(ns);
      if n == 0 || HasListOp(ns[..n]) || ClausesOf(ns[n..]).None? then None
      else
        var c := ClausesOf(ns[n..]).value;
        Some(Tail(Some(Runs(ns[..n], k)), c.0, c.1))
  }

  /******* Search conditions *******/

  predicate NoMoreTerms(rest: Tokens) {
    !Starts(rest, Key(AND)) && !Starts(rest, Key(OR))
  }

  // One predicate read off the front; EQUAL_LIST leaves no operator to read.
  lemma ParseOnePred(n: Named, k: nat, rest: Tokens)
    ensures ParsePred(PredTokens(n, rest), k) ==
            if n.op.EqualList? then Unread else Read(PredOf(n, k), rest, k + 1)
  {
  }

  lemma {:induction false} CondsTokensShift(ns: seq<Named>, ts: Tokens)
    requires ns != [] && IsLogical(ns[0].cond)
    ensures CondsTokens(ns, false, ts) == Cons(Key(Connective(ns[0].cond)), CondsTokens(ns, true, ts))
    ensures CondsTokens(ns, true, ts) == PredTokens(ns[0], CondsTokens(ns[1..], false, ts))
  {
  }

  lemma HasListOpSplit(ns: seq<Named>)
    requires ns != []
    ensures HasListOp(ns) == (ns[0].op.EqualList? || HasListOp(ns[1..]))
  {
    if HasListOp(ns) && !ns[0].op.EqualList? {
      var i :| 0 <= i < |ns| && ns[i].op.EqualList?;
      assert ns[1..][i - 1] == ns[i];
    }
    if HasListOp(ns[1..]) {
      var i :| 0 <= i < |ns[1..]| && ns[1..][i].op.EqualList?;
      assert ns[i + 1] == ns[1..][i];
    }
  }

  /** AND binds tighter than OR: the parser finds exactly the OR-separated runs, with the `?`
      numbered in list order, or nothing when an EQUAL_LIST is among them. */
  lemma {:induction false} ParseRuns(ns: seq<Named>, k: nat, rest: Tokens)
    requires ns != [] && AllLogical(ns) && NoMoreTerms(rest)
    ensures ParseSearch(CondsTokens(ns, true, rest), k) ==
            if HasListOp(ns) then Unread else Read(Runs(ns, k), rest, k + |ns|)
    decreases |ns|
  {
    var after := CondsTokens(ns[1..], false, rest);
    CondsTokensShift(ns, rest);
    HasListOpSplit(ns);
    ParseOnePred(ns[0], k, after);
    if |ns| > 1 {
      CondsTokensShift(ns[1..], rest);
      ParseRuns(ns[1..], k + 1, rest);
      if !ns[0].op.EqualList? {
        ParseStep(ns, k, CondsTokens(ns, true, rest), CondsTokens(ns[1..], true, rest));
      }
    }
  }

  // One more predicate in front of a search that parses as `more`.
  lemma ParseStep(ns: seq<Named>, k: nat, ts: Tokens, more: Tokens)
    requires |ns| > 1
    requires ParsePred(ts, k) == Read(PredOf(ns[0], k), Cons(Key(Connective(ns[1].cond)), more), k + 1)
    ensures ParseSearch(ts, k) ==
      match ParseSearch(more, k + 1)
      case Unread => Unread
      case Read(s, rest, k2) =>
        if ns[1].cond.Or? then Read([[PredOf(ns[0], k)]] + s, rest, k2)
        else if s == [] then Unread
        else Read([[PredOf(ns[0], k)] + s[0]] + s[1..], rest, k2)
  {
    var p := PredOf(ns[0], k);
    if !ns[1].cond.Or? {
      match ParseTerm(more, k + 1)
      case Unread =>
      case Read(t, rest, k1) =>
        assert ParseTerm(ts, k) == Read([p] + t, rest, k1);
        if Starts(rest, Key(OR)) {
          if ParseSearch(rest.tail, k1).Read? {
            var s := ParseSearch(rest.tail, k1).value;
            assert ([t] + s)[1..] == s;
          }
        } else {
          assert [[p] + t] + [t][1..] == [[p] + t];
        }
    }
  }

  /******* GROUP, ORDER and the whole tail *******/

  // Tokens that may follow a whole list of conditions.
  predicate Stops(rest: Tokens) {
    rest == END || Starts(rest, Key(UNION))
  }

  // Tokens left over where neither the statement nor a member of a union ends.
  predicate Continues(ts: Tokens) {
    ts.Cons? && ts.head != Sym(';') && ts.head != Key(UNION) && ts.head != Key(DESC)
  }

  lemma {:induction false} CondsTokensAppend(a: seq<Named>, b: seq<Named>, first: bool, ts: Tokens)
    ensures CondsTokens(a + b, first, ts) == CondsTokens(a, first, CondsTokens(b, first && a == [], ts))
  {
    if a == [] {
      assert a + b == b;
    } else {
      assert (a + b)[1..] == a[1..] + b;
      CondsTokensAppend(a[1..], b, false, ts);
    }
  }

  lemma {:induction false} FirstToken(ns: seq<Named>, ts: Tokens)
    requires ns != []
    ensures Continues(CondsTokens(ns, false, ts))
    ensures !IsLogical(ns[0].cond) ==> NoMoreTerms(CondsTokens(ns, false, ts))
    ensures !ns[0].cond.Group? ==> !Starts(CondsTokens(ns, false, ts), Key(GROUP))
    ensures !IsOrder(ns[0]) ==> !Starts(CondsTokens(ns, false, ts), Key(ORDER))
  {
  }

  function GroupLeft(ns: seq<Named>): (Option<string>, seq<Named>) {
    if ns != [] && ns[0].cond.Group? then (Some(ns[0].col), ns[1..]) else (None, ns)
  }

  // What a list leaves after its ORDER clause, if it has one.
  function OrderLeft(ns: seq<Named>): (Option<Order>, seq<Named>) {
    if ns != [] && IsOrder(ns[0]) then (Some(OrderOf(ns[0])), ns[1..]) else (None, ns)
  }

  lemma {:induction false} ParseGroupClause(ns: seq<Named>, rest: Tokens)
    requires Stops(rest)
    ensures ParseGroup(CondsTokens(ns, false, rest)) == (GroupLeft(ns).0, CondsTokens(GroupLeft(ns).1, false, rest))
  {
    if ns != [] { FirstToken(ns, rest); }
  }

  lemma {:induction false} ParseOrderClause(ns: seq<Named>, rest: Tokens)
    requires Stops(rest)
    ensures ParseOrder(CondsTokens(ns, false, rest)) == (OrderLeft(ns).0, CondsTokens(OrderLeft(ns).1, false, rest))
  {
    if ns != [] { FirstToken(ns, rest); }
    if |ns| > 1 { FirstToken(ns[1..], rest); }
  }

  // What the GROUP and ORDER parsers make of the non-logical rest of a list.
  function ClausesRead(ts: Tokens): (Option<string>, Option<Order>, Tokens) {
    var g := ParseGroup(ts);
    var o := ParseOrder(g.1);
    (g.0, o.0, o.1)
  }

  lemma {:induction false} ParseClauses(ns: seq<Named>, rest: Tokens)
    requires Stops(rest)
    ensures match ClausesOf(ns)
            case Some(c) => ClausesRead(CondsTokens(ns, false, rest)) == (c.0, c.1, rest)
            case None => Continues(ClausesRead(CondsTokens(ns, false, rest)).2)
  {
    ParseGroupClause(ns, rest);
    ParseOrderClause(GroupLeft(ns).1, rest);
    var left := OrderLeft(GroupLeft(ns).1).1;
    if left != [] { FirstToken(left, rest); }
  }

  predicate TailReads(ns: seq<Named>, k: nat, rest: Tokens, r: Reading<Tail>) {
    match TailOf(ns, k)
    case Some(t) => r == Read(t, rest, k + LogicalSpan(ns))
    case None => r.Unread? || Continues(r.rest)
  }

  // The search condition is read up to the first condition that is not logical.
  lemma {:induction false} ParseWhereRead(ns: seq<Named>, k: nat, rest: Tokens)
    requires !CondsThrow(ns, true) && ns != [] && Stops(rest)
    ensures var n := LogicalSpan(ns);
            && n <= |ns| && AllLogical(ns[..n]) && ns[..n] != []
            && ParseWhere(WhereTokens(ns, rest), k) ==
               if HasListOp(ns[..n]) then Unread
               else Read(Some(Runs(ns[..n], k)), CondsTokens(ns[n..], false, rest), k + n)
  {
    var n := LogicalSpan(ns);
    SpanIsMaximal(ns);
    assert ns == ns[..n] + ns[n..];
    CondsTokensAppend(ns[..n], ns[n..], true, rest);
    if n < |ns| { FirstToken(ns[n..], rest); }
    ParseRuns(ns[..n], k, CondsTokens(ns[n..], false, rest));
  }

  /** The search condition a list stands for where nothing but WHERE may follow: every condition
      logical and none an EQUAL_LIST. */
  function WhereOf(ns: seq<Named>, k: nat): Option<Option<Search>> {
    if ns == [] then Some(None)
    else if AllLogical(ns) && !HasListOp(ns) then Some(Some(Runs(ns, k)))
    else None
  }

  predicate WhereReads(w: Option<Option<Search>>, r: Reading<Option<Search>>) {
    if w.Some? then r.Read? && r.value == w.value && r.rest == END else r.Unread? || Continues(r.rest)
  }

  lemma ParseWhereOf(ns: seq<Named>, k: nat)
    requires !CondsThrow(ns, true)
    ensures WhereReads(WhereOf(ns, k), ParseWhere(WhereTokens(ns, END), k))
  {
    if ns != [] {
      var n := LogicalSpan(ns);
      ParseWhereRead(ns, k, END);
      SpanIsMaximal(ns);
      if n < |ns| { FirstToken(ns[n..], END); } else { assert ns[..n] == ns; }
    }
  }

  /** The clauses parse to what the list stands for; a list that is not SQL either fails or leaves
      tokens behind that no statement may end with. */
  lemma ParseTailOf(ns: seq<Named>, k: nat, rest: Tokens)
    requires !CondsThrow(ns, true) && Stops(rest)
    ensures TailReads(ns, k, rest, ParseTail(WhereTokens(ns, rest), k))
  {
    if ns != [] {
      ParseWhereRead(ns, k, rest);
      ParseClauses(ns[LogicalSpan(ns)..], rest);
    }
  }

  /******* Columns, bridges, joins, assignments *******/

  predicate AfterColumns(rest: Tokens) {
    Starts(rest, Key(FROM)) || Starts(rest, Sym(')'))
  }

  lemma ParseOneColumn(c: Column, rest: Tokens)
    requires !Starts(rest, Sym('.'))
    ensures ParseColumn(ColumnTokens(c, rest)) == Read(c, rest, 0)
  {
  }

  lemma {:induction false} ParseListed(cs: seq<Column>, rest: Tokens)
    requires cs != [] && AfterColumns(rest)
    ensures ParseColumnList(ColumnListTokens(cs, rest)) == Read(cs, rest, 0)
  {
    if |cs| == 1 {
      ParseOneColumn(cs[0], rest);
      assert [cs[0]] == cs;
    } else {
      ParseListed(cs[1..], rest);
      ParseOneColumn(cs[0], Cons(Sym(','), ColumnListTokens(cs[1..], rest)));
      assert [cs[0]] + cs[1..] == cs;
    }
  }

  // What a struct without members leaves to select, and a count over AUTO_INCREMENT members only.
  predicate NoColumns(cs: Columns) {
    cs.Listed? && cs.columns == []
  }

  lemma ParseColumnsOf(cs: Columns, rest: Tokens)
    requires ColumnsAreNames(cs) && AfterColumns(rest)
    ensures ParseColumns(ColumnsTokens(cs, rest)) == if NoColumns(cs) then Unread else Read(cs, rest, 0)
  {
    match cs
    case Star =>
    case CountOf(name) => assert StartsTwo(ColumnsTokens(cs, rest), Key(COUNT), Sym('('));
    case Listed(columns) => if columns != [] { ParseListed(columns, rest); }
  }

  lemma ParseOneBridge(b: Bridge, rest: Tokens)
    requires !Starts(rest, Sym('.'))
    ensures ParseBridge(BridgeTokens(b, rest)) == Read(b, rest, 0)
  {
    ParseOneColumn(b.left, Cons(Op("="), ColumnTokens(b.right, rest)));
    ParseOneColumn(b.right, rest);
  }

  lemma {:induction false} ParseBridgeList(bs: seq<Bridge>, rest: Tokens)
    requires bs != [] && !Starts(rest, Sym('.')) && !Starts(rest, Key(AND))
    ensures ParseBridges(BridgesTokens(bs, rest)) == Read(bs, rest, 0)
  {
    if |bs| == 1 {
      ParseOneBridge(bs[0], rest);
      assert [bs[0]] == bs;
    } else {
      ParseBridgeList(bs[1..], rest);
      ParseOneBridge(bs[0], Cons(Key(AND), BridgesTokens(bs[1..], rest)));
      assert [bs[0]] + bs[1..] == bs;
    }
  }

  function JoinsOf(js: seq<JoinCond>): seq<JoinClause> {
    if js == [] then [] else [JoinClause(js[0].table.name, js[0].equals)] + JoinsOf(js[1..])
  }

  predicate AfterJoins(rest: Tokens) {
    rest.Cons? && rest.head != Sym('.') && rest.head != Key(AND) && rest.head != Key(LEFT) && !rest.head.Word?
  }

  lemma {:induction false} JoinAt(j: JoinCond, more: Tokens)
    requires j.equals != [] && !Starts(more, Sym('.')) && !Starts(more, Key(AND))
    ensures ParseJoins(JoinTokens(j, more)) ==
      match ParseJoins(more)
      case Unread => Unread
      case Read(js, rest, _) => Read([JoinClause(j.table.name, j.equals)] + js, rest, 0)
  {
    ParseBridgeList(j.equals, more);
  }

  lemma {:induction false} ParseJoinList(js: seq<JoinCond>, rest: Tokens)
    requires (forall i :: 0 <= i < |js| ==> js[i].equals != []) && AfterJoins(rest)
    ensures ParseJoins(JoinsTokens(js, rest)) == Read(JoinsOf(js), rest, 0)
  {
    if js != [] {
      ParseJoinList(js[1..], rest);
      JoinAt(js[0], JoinsTokens(js[1..], rest));
    }
  }

  // A dangling ON: no equality stands between it and the next clause.
  lemma {:induction false} DanglingOn(js: seq<JoinCond>, rest: Tokens)
    requires (exists i :: 0 <= i < |js| && js[i].equals == []) && AfterJoins(rest)
    ensures ParseJoins(JoinsTokens(js, rest)).Unread?
  {
    var more := JoinsTokens(js[1..], rest);
    assert more.Cons? && !more.head.Word?;
    if js[0].equals == [] {
      assert ParseBridges(more).Unread?;
    } else {
      assert exists i :: 0 <= i < |js[1..]| && js[1..][i].equals == [] by {
        var i :| 0 <= i < |js| && js[i].equals == [];
        assert js[1..][i - 1] == js[i];
      }
      DanglingOn(js[1..], rest);
      JoinAt(js[0], more);
    }
  }

  function AssignsOf(names: seq<string>, k: nat): (sets: seq<Assign>)
    ensures |sets| == |names|
    ensures forall i :: 0 <= i < |names| ==> sets[i] == Assign(names[i], k + i)
  {
    if names == [] then [] else [Assign(names[0], k)] + AssignsOf(names[1..], k + 1)
  }

  lemma {:induction false} ParseSetList(names: seq<string>, k: nat, rest: Tokens)
    requires names != [] && !Starts(rest, Sym(','))
    ensures ParseAssigns(SetsTokens(names, rest), k) == Read(AssignsOf(names, k), rest, k + |names|)
  {
    if |names| == 1 {
      assert AssignsOf(names, k) == [Assign(names[0], k)];
    } else {
      ParseSetList(names[1..], k + 1, rest);
      var more := Cons(Sym(','), SetsTokens(names[1..], rest));
      assert ParseAssign(SetTokens(names[0], more), k) == Read(Assign(names[0], k), more, k + 1);
    }
  }

  /******* SELECT and UNION *******/

  // Either the member the list stands for, or a reading that no statement can end with.
  predicate SelectReads(cols: Columns, from: string, joins: seq<JoinClause>, ns: seq<Named>, k: nat,
                        rest: Tokens, r: Reading<Select>) {
    if TailOf(ns, k).Some? && !NoColumns(cols)
    then r == Read(Select(cols, from, joins, TailOf(ns, k).value), rest, k + LogicalSpan(ns))
    else r.Unread? || Continues(r.rest)
  }

  lemma {:induction false} ParseSelectOf(cols: Columns, from: string, js: seq<JoinCond>, ns: seq<Named>, k: nat, rest: Tokens)
    requires ColumnsAreNames(cols) && !CondsThrow(ns, true) && Stops(rest)
    requires forall i :: 0 <= i < |js| ==> js[i].equals != []
    ensures SelectReads(cols, from, JoinsOf(js), ns, k, rest,
                        ParseSelect(HeadTokens(cols, from, JoinsTokens(js, WhereTokens(ns, rest))), k))
  {
    hide ParseSelect, HeadTokens, ParseJoins, JoinsTokens, ParseTail;
    var tail := WhereTokens(ns, rest);
    ParseJoinList(js, tail);
    ParseTailOf(ns, k, rest);
    ParseSelectAt(cols, from, JoinsTokens(js, tail), k);
  }

  lemma {:induction false} ParseSelectAt(cols: Columns, from: string, more: Tokens, k: nat)
    requires ColumnsAreNames(cols)
    ensures ParseSelect(HeadTokens(cols, from, more), k) ==
      if NoColumns(cols) then Unread else
      match ParseJoins(more)
      case Unread => Unread
      case Read(js, rest2, _) =>
        match ParseTail(rest2, k)
        case Unread => Unread
        case Read(tail, rest3, k1) => Read(Select(cols, from, js, tail), rest3, k1)
  {
    hide ParseColumns, ColumnsTokens, ParseJoins, ParseTail;
    ParseColumnsOf(cols, Cons(Key(FROM), Cons(Word(from), more)));
  }

  /** What one printed SELECT is, or None when it lists no column or its conditions are not SQL. */
  function SelectOf(p: Parts, k: nat): Option<Select> {
    if TailOf(p.ns, k).Some? && !NoColumns(p.cols) then Some(Select(p.cols, p.from, [], TailOf(p.ns, k).value)) else None
  }

  predicate Printable(p: Parts) {
    PartsAreNames(p) && !CondsThrow(p.ns, true)
  }

  predicate MemberReads(s: Option<Select>, rest: Tokens, next: nat, r: Reading<Select>) {
    if s.Some? then r == Read(s.value, rest, next) else r.Unread? || Continues(r.rest)
  }

  lemma ParseMember(p: Parts, k: nat, rest: Tokens)
    requires Printable(p) && Stops(rest)
    ensures MemberReads(SelectOf(p, k), rest, k + LogicalSpan(p.ns), ParseSelect(SelectTokens(p, rest), k))
  {
    ParseSelectOf(p.cols, p.from, [], p.ns, k, rest);
    assert JoinsTokens([], WhereTokens(p.ns, rest)) == WhereTokens(p.ns, rest);
  }

  /** The members of a UNION; the `?` numbering runs on from one member to the next, and only the last
      may be ordered. */
  function MembersOf(ps: seq<Parts>, k: nat): Option<seq<Select>> {
    if ps == [] then Some([])
    else MemberCons(SelectOf(ps[0], k), MembersOf(ps[1..], k + LogicalSpan(ps[0].ns)))
  }

  function MemberCons(s: Option<Select>, ss: Option<seq<Select>>): Option<seq<Select>> {
    if s.Some? && ss.Some? && (ss.value == [] || s.value.tail.order.None?) then Some([s.value] + ss.value) else None
  }

  predicate ListReads(ss: Option<seq<Select>>, r: Reading<seq<Select>>) {
    if ss.Some? then r.Read? && r.value == ss.value && r.rest == END else r.Unread? || Continues(r.rest)
  }

  // One member in front of a union that reads as `ss`.
  lemma {:induction false} UnionStep(ts: Tokens, k: nat, s: Option<Select>, more: Tokens, k1: nat, ss: Option<seq<Select>>)
    requires MemberReads(s, Cons(Key(UNION), more), k1, ParseSelect(ts, k))
    requires ListReads(ss, ParseUnion(more, k1)) && (ss.Some? ==> ss.value != [])
    ensures ListReads(MemberCons(s, ss), ParseUnion(ts, k))
  {
  }

  lemma {:induction false} UnionLast(ts: Tokens, k: nat, s: Option<Select>, k1: nat)
    requires MemberReads(s, END, k1, ParseSelect(ts, k))
    ensures ListReads(MemberCons(s, Some([])), ParseUnion(ts, k))
  {
  }

  lemma {:induction false} ParseUnionOf(ps: seq<Parts>, k: nat)
    requires ps != [] && forall i :: 0 <= i < |ps| ==> Printable(ps[i])
    ensures ListReads(MembersOf(ps, k), ParseUnion(UnionTokens(ps, END), k))
  {
    hide Printable, SelectTokens, SelectOf, ParseSelect, ParseUnion, LogicalSpan;
    var k1 := k + LogicalSpan(ps[0].ns);
    if |ps| == 1 {
      ParseMember(ps[0], k, END);
      UnionLast(SelectTokens(ps[0], END), k, SelectOf(ps[0], k), k1);
      assert MembersOf(ps[1..], k1) == Some([]);
    } else {
      var more := UnionTokens(ps[1..], END);
      ParseUnionOf(ps[1..], k1);
      ParseMember(ps[0], k, Cons(Key(UNION), more));
      MembersOfIff(ps[1..], k1);
      UnionStep(SelectTokens(ps[0], Cons(Key(UNION), more)), k, SelectOf(ps[0], k), more, k1, MembersOf(ps[1..], k1));
    }
  }

  // A text whose tokens start a query parses as one.
  lemma {:induction false} QueryTextParses(text: string, ts: Tokens, ss: Option<seq<Select>>)
    requires Lex(text) == ts && Starts(ts, Key(SELECT)) && ListReads(ss, ParseUnion(ts, 1))
    ensures ParseText(text) == if ss.Some? then Some(Query(ss.value)) else None
  {
    assert ParseAny(ts) == ParseQuery(ts);
  }

  lemma {:induction false} PartsRoundTrip(ps: seq<Parts>)
    requires ps != [] && forall i :: 0 <= i < |ps| ==> Printable(ps[i])
    ensures ParseText(UnionOfText(ps) + ";") ==
            if MembersOf(ps, 1).None? then None else Some(Query(MembersOf(ps, 1).value))
  {
    PrintUnion(ps, STOP);
    LexStatement(UnionPhrase(ps, STOP), UnionOfText(ps));
    ParseUnionOf(ps, 1);
    UnionStarts(ps);
    QueryTextParses(UnionOfText(ps) + ";", UnionTokens(ps, END), MembersOf(ps, 1));
  }

  lemma {:induction false} UnionStarts(ps: seq<Parts>)
    requires ps != []
    ensures Starts(UnionTokens(ps, END), Key(SELECT))
  {
  }

  predicate NamesIn(c: ReadCond)
    requires WellFormed(c) && !QueryThrows(c)
  {
    PartsAreNames(PartsOf(c))
  }

  predicate HasOrder(ns: seq<Named>) {
    exists i :: 0 <= i < |ns| && IsOrder(ns[i])
  }

  // The member lists a column and its conditions are SQL.
  predicate MemberIsSql(p: Parts) {
    TailOf(p.ns, 1).Some? && !NoColumns(p.cols)
  }

  // Every member is SQL, and none but the last holds an ORDER.
  predicate UnionIsSql(ps: seq<Parts>) {
    forall i :: 0 <= i < |ps| ==> MemberIsSql(ps[i]) && (i < |ps| - 1 ==> !HasOrder(ps[i].ns))
  }

  // The ORDER clause of a list that is SQL.
  lemma OrderInTail(ns: seq<Named>, k: nat)
    requires TailOf(ns, k).Some?
    ensures TailOf(ns, k).value.order.Some? <==> HasOrder(ns)
  {
    if ns != [] {
      var n := LogicalSpan(ns);
      SpanIsMaximal(ns);
      assert forall i :: 0 <= i < n ==> ns[..n][i] == ns[i];
      assert forall i :: n <= i < |ns| ==> ns[n..][i - n] == ns[i];
    }
  }

  // Whether a list is SQL does not depend on the numbers.
  lemma SqlWherever(ns: seq<Named>, k: nat)
    ensures TailOf(ns, k).Some? <==> TailOf(ns, 1).Some?
  {
  }

  lemma UnionIsSqlSplit(ps: seq<Parts>)
    requires ps != []
    ensures UnionIsSql(ps) <==>
            MemberIsSql(ps[0]) && (|ps| > 1 ==> !HasOrder(ps[0].ns)) && UnionIsSql(ps[1..])
  {
    assert forall i :: 1 <= i < |ps| ==> ps[1..][i - 1] == ps[i];
    if UnionIsSql(ps[1..]) {
      forall i | 1 <= i < |ps|
        ensures MemberIsSql(ps[i]) && (i < |ps| - 1 ==> !HasOrder(ps[i].ns))
      {
        assert ps[1..][i - 1] == ps[i];
      }
    }
  }

  lemma {:induction false} MembersOfIff(ps: seq<Parts>, k: nat)
    ensures MembersOf(ps, k).Some? <==> UnionIsSql(ps)
    ensures MembersOf(ps, k).Some? ==> |MembersOf(ps, k).value| == |ps|
  {
    if ps != [] {
      hide UnionIsSql, HasOrder, TailOf;
      UnionIsSqlSplit(ps);
      SqlWherever(ps[0].ns, k);
      MembersOfIff(ps[1..], k + LogicalSpan(ps[0].ns));
      if TailOf(ps[0].ns, k).Some? { OrderInTail(ps[0].ns, k); }
    } else {
      assert UnionIsSql(ps);
    }
  }

  /** Parsing a generated UNION recovers every member, and fails exactly when some member lists no column,
      some list of conditions is not SQL, or a member before the last holds an ORDER. */
  lemma {:induction false} UnionRoundTrip(cs: seq<ReadCond>)
    requires AllWellFormed(cs) && !UnionThrows(cs) && (forall i :: 0 <= i < |cs| ==> NamesIn(cs[i]))
    ensures ParseText(UnionText(cs) + ";") ==
            if MembersOf(MemberParts(cs), 1).None? then None
            else Some(Query(MembersOf(MemberParts(cs), 1).value))
    ensures ParseText(UnionText(cs) + ";").Some? <==> UnionIsSql(MemberParts(cs))
  {
    PartsRoundTrip(MemberParts(cs));
    MembersOfIff(MemberParts(cs), 1);
  }

  /** What a read query means to the database, or None when its text is not SQL. */
  function QueryOf(c: ReadCond): Option<Statement>
    requires WellFormed(c) && !QueryThrows(c)
  {
    if SelectOf(PartsOf(c), 1).None? then None else Some(Query([SelectOf(PartsOf(c), 1).value]))
  }

  /** Parsing a generated SELECT recovers columns, table and conditions, and fails exactly when
      it lists no column or the list of conditions is not SQL. */
  lemma QueryRoundTrip(c: ReadCond)
    requires WellFormed(c) && !QueryThrows(c) && NamesIn(c)
    ensures ParseText(QueryText(c) + ";") == QueryOf(c)
  {
    OnePartRoundTrip(PartsOf(c));
  }

  lemma OnePartRoundTrip(p: Parts)
    requires Printable(p)
    ensures ParseText(SelectText(p) + ";") ==
            if SelectOf(p, 1).None? then None else Some(Query([SelectOf(p, 1).value]))
  {
    var ts := SelectTokens(p, END);
    PrintSelect(p, STOP);
    LexStatement(SelectPhrase(p, STOP), SelectText(p));
    ParseMember(p, 1, END);
    UnionLast(ts, 1, SelectOf(p, 1), 1 + LogicalSpan(p.ns));
    QueryTextParses(SelectText(p) + ";", ts, MemberCons(SelectOf(p, 1), Some([])));
  }

  /******* JOIN and COPY *******/

  // What a join must have to be SQL: an equality for every joined table, and none for the first.
  predicate Joinable(js: seq<JoinCond>)
    requires js != []
  {
    js[0].equals == [] && forall i :: 1 <= i < |js| ==> js[i].equals != []
  }

  predicate JoinNames(ret: Ret, js: seq<JoinCond>, cs: seq<ReadCond>)
    requires AllConditional(cs)
  {
    && JoinsAreNames(js) && ColsAreNames(AllConds(cs))
    && (RetColumns(ret).Ok? ==> ColumnsAreNames(RetColumns(ret).value))
  }

  function JoinOf(ret: Ret, js: seq<JoinCond>, cs: seq<ReadCond>): Option<Statement>
    requires AllConditional(cs) && !JoinThrows(ret, js, cs)
  {
    match JoinMembers(RetColumns(ret).value, js, AllConds(cs))
    case None => None
    case Some(ss) => Some(Query(ss))
  }

  function JoinMembers(cols: Columns, js: seq<JoinCond>, ns: seq<Named>): Option<seq<Select>>
    requires js != []
  {
    if TailOf(ns, 1).None? || NoColumns(cols) || !Joinable(js) then None
    else Some([Select(cols, js[0].table.name, JoinsOf(js[1..]), TailOf(ns, 1).value)])
  }

  // Nothing separates the name of the first table from its equalities.
  function JoinTokensOf(cols: Columns, js: seq<JoinCond>, ns: seq<Named>): Tokens
    requires js != []
  {
    FromTokens(cols, Fuse(js[0].table.name, BridgesTokens(js[0].equals, JoinsTokens(js[1..], WhereTokens(ns, END)))))
  }

  /** Parsing a generated join recovers it, and fails exactly when it lists no column, the list of
      conditions is not SQL, a
      joined table has no equality (its ON dangles), or the first table has one (it is printed directly
      behind the name). */
  lemma JoinRoundTrip(ret: Ret, js: seq<JoinCond>, cs: seq<ReadCond>)
    requires AllConditional(cs) && !JoinThrows(ret, js, cs) && JoinNames(ret, js, cs)
    ensures ParseText(JoinText(ret, js, cs) + ";") == JoinOf(ret, js, cs)
  {
    var cols, ns := RetColumns(ret).value, AllConds(cs);
    hide ParseText, JoinText, JoinTokensOf, ListReads;
    LexJoinText(ret, js, cs);
    if js[0].equals == [] { ParseJoinable(cols, js, ns); } else { ParseFused(cols, js, ns); }
    QueryTextParses(JoinText(ret, js, cs) + ";", JoinTokensOf(cols, js, ns), JoinMembers(cols, js, ns));
  }

  lemma ParseJoinable(cols: Columns, js: seq<JoinCond>, ns: seq<Named>)
    requires js != [] && js[0].equals == [] && ColumnsAreNames(cols) && !CondsThrow(ns, true)
    ensures Starts(JoinTokensOf(cols, js, ns), Key(SELECT))
    ensures ListReads(JoinMembers(cols, js, ns), ParseUnion(JoinTokensOf(cols, js, ns), 1))
  {
    hide ParseSelect, ParseUnion, TailOf, JoinsTokens, WhereTokens, BridgesTokens, Fuse;
    var from := js[0].table.name;
    NothingToFuse(from, js[1..], ns);
    JoinedSelect(cols, from, js[1..], ns);
    var s := if JoinMembers(cols, js, ns).Some? then Some(JoinMembers(cols, js, ns).value[0]) else None;
    assert forall i :: 1 <= i < |js| ==> js[i] == js[1..][i - 1];
    UnionLast(JoinTokensOf(cols, js, ns), 1, s, 1 + LogicalSpan(ns));
  }

  lemma ParseFused(cols: Columns, js: seq<JoinCond>, ns: seq<Named>)
    requires js != [] && js[0].equals != [] && ColumnsAreNames(cols)
    ensures Starts(JoinTokensOf(cols, js, ns), Key(SELECT))
    ensures ListReads(JoinMembers(cols, js, ns), ParseUnion(JoinTokensOf(cols, js, ns), 1))
  {
    hide ParseSelect, ParseUnion, JoinsTokens, WhereTokens, BridgesTokens, Fuse;
    FusedSelect(cols, js[0].table.name, js[0].equals, JoinsTokens(js[1..], WhereTokens(ns, END)));
    UnionLast(JoinTokensOf(cols, js, ns), 1, None, 1);
  }

  lemma {:induction false} NothingToFuse(from: string, js: seq<JoinCond>, ns: seq<Named>)
    ensures var more := JoinsTokens(js, WhereTokens(ns, END));
            Fuse(from, BridgesTokens([], more)) == Cons(Word(from), more)
  {
  }

  lemma {:induction false} JoinedSelect(cols: Columns, from: string, js: seq<JoinCond>, ns: seq<Named>)
    requires ColumnsAreNames(cols) && !CondsThrow(ns, true)
    ensures var r := ParseSelect(HeadTokens(cols, from, JoinsTokens(js, WhereTokens(ns, END))), 1);
            if TailOf(ns, 1).Some? && !NoColumns(cols) && forall i :: 0 <= i < |js| ==> js[i].equals != []
            then r == Read(Select(cols, from, JoinsOf(js), TailOf(ns, 1).value), END, 1 + LogicalSpan(ns))
            else r.Unread? || Continues(r.rest)
  {
    if forall i :: 0 <= i < |js| ==> js[i].equals != [] {
      ParseSelectOf(cols, from, js, ns, 1, END);
    } else {
      DanglingOn(js, WhereTokens(ns, END));
      ParseSelectAt(cols, from, JoinsTokens(js, WhereTokens(ns, END)), 1);
    }
  }

  // With an equality behind its name the first table reads as another name and leaves a `.` or a `=`.
  lemma {:induction false} FusedSelect(cols: Columns, from: string, bs: seq<Bridge>, more: Tokens)
    requires ColumnsAreNames(cols) && bs != []
    ensures MemberReads(None, END, 1, ParseSelect(FromTokens(cols, Fuse(from, BridgesTokens(bs, more))), 1))
  {
    hide ParseColumns, ColumnsTokens, BridgesTokens;
    var b := BridgesTokens(bs, more);
    FirstBridge(bs, more);
    var fused := WordToken(from + b.head.text);
    if fused.Word? {
      ParseSelectAt(cols, fused.text, b.tail, 1);
      assert ParseJoins(b.tail) == Read([], b.tail, 0);
    } else {
      ParseColumnsOf(cols, Cons(Key(FROM), Cons(fused, b.tail)));
    }
  }

  // The text of any join as tokens.
  lemma {:induction false} LexJoinText(ret: Ret, js: seq<JoinCond>, cs: seq<ReadCond>)
    requires AllConditional(cs) && !JoinThrows(ret, js, cs) && JoinNames(ret, js, cs)
    ensures Lex(JoinText(ret, js, cs) + ";") == JoinTokensOf(RetColumns(ret).value, js, AllConds(cs))
  {
    var cols, from, es, ns := RetColumns(ret).value, js[0].table.name, js[0].equals, AllConds(cs);
    hide Prints, ColumnsPhrase, JoinsPhrase, BridgesPhrase, WherePhrase, Fuse, FusePhrase, JoinsTokens, BridgesTokens, WhereTokens;
    var where := WherePhrase(ns, STOP);
    var joins := JoinsPhrase(js[1..], where);
    var joinsText := JoinsText(js[1..]) + WhereText(ns);
    PrintWhere(ns, STOP);
    PrintJoins(js[1..], where, WhereText(ns), STOP);
    PrintBridges(es, joins, joinsText, STOP);
    JoinFuses(es, js[1..], ns);
    PrintFused(from, BridgesPhrase(es, joins), BridgesText(es) + joinsText, STOP);
    PrintFrom(cols, FusePhrase(from, BridgesPhrase(es, joins)), from + (BridgesText(es) + joinsText), STOP);
    JoinTextIs(ret, js, cs);
    LexStatement(FromPhrase(cols, FusePhrase(from, BridgesPhrase(es, joins))), JoinText(ret, js, cs));
  }

  lemma {:induction false} JoinTextIs(ret: Ret, js: seq<JoinCond>, cs: seq<ReadCond>)
    requires AllConditional(cs) && !JoinThrows(ret, js, cs)
    ensures JoinText(ret, js, cs) ==
            "SELECT " + ColumnsText(RetColumns(ret).value) + " FROM "
            + (js[0].table.name + (BridgesText(js[0].equals) + (JoinsText(js[1..]) + WhereText(AllConds(cs)))))
  {
    Assoc5("SELECT " + ColumnsText(RetColumns(ret).value) + " FROM ", js[0].table.name, BridgesText(js[0].equals),
           JoinsText(js[1..]), WhereText(AllConds(cs)));
  }

  function CopyOf(froms: seq<JoinCond>, into: Ret, cs: seq<ReadCond>): Option<Statement>
    requires AllConditional(cs) && !CopyThrows(froms, into, cs)
  {
    var cols := RetColumns(into).value;
    if TailOf(AllConds(cs), 1).None? || NoColumns(cols) || !Unqualified(cols) then None
    else Some(Copy(into.table.name, cols, Select(cols, froms[0].table.name, [], TailOf(AllConds(cs), 1).value)))
  }

  /** Parsing a generated copy recovers it, and fails exactly when it lists no column, the list of
      conditions is not SQL, or a member of the target struct comes from a table of its own. */
  lemma CopyRoundTrip(froms: seq<JoinCond>, into: Ret, cs: seq<ReadCond>)
    requires AllConditional(cs) && !CopyThrows(froms, into, cs) && JoinNames(into, froms, cs)
    requires IsName(into.table.name)
    ensures ParseText(CopyText(froms, into, cs) + ";") == CopyOf(froms, into, cs)
  {
    LexCopyText(froms, into, cs);
    ParseCopyBody(into.table.name, RetColumns(into).value, froms[0].table.name, AllConds(cs));
  }

  lemma {:induction false} LexCopyText(froms: seq<JoinCond>, into: Ret, cs: seq<ReadCond>)
    requires AllConditional(cs) && !CopyThrows(froms, into, cs) && JoinNames(into, froms, cs)
    requires IsName(into.table.name)
    ensures Lex(CopyText(froms, into, cs) + ";") ==
            IntoTokens(into.table.name, RetColumns(into).value,
                       SelectTokens(Parts(RetColumns(into).value, froms[0].table.name, AllConds(cs)), END))
  {
    var name, cols := into.table.name, RetColumns(into).value;
    var p := Parts(cols, froms[0].table.name, AllConds(cs));
    PrintSelect(p, STOP);
    PrintInto(name, cols, SelectPhrase(p, STOP), SelectText(p), STOP);
    LexStatement(IntoPhrase(name, cols, SelectPhrase(p, STOP)), CopyText(froms, into, cs));
  }

  lemma ParseCopyBody(into: string, cols: Columns, from: string, ns: seq<Named>)
    requires ColumnsAreNames(cols) && !CondsThrow(ns, true)
    ensures var r := ParseAny(IntoTokens(into, cols, SelectTokens(Parts(cols, from, ns), END)));
            if TailOf(ns, 1).Some? && !NoColumns(cols) && Unqualified(cols)
            then r.Read? && r.value == Copy(into, cols, Select(cols, from, [], TailOf(ns, 1).value)) && r.rest == END
            else r.Unread? || Continues(r.rest)
  {
    var body := SelectTokens(Parts(cols, from, ns), END);
    ParseIntoAt(into, cols, body);
    ParseSelectOf(cols, from, [], ns, 1, END);
    assert JoinsTokens([], WhereTokens(ns, END)) == WhereTokens(ns, END);
  }

  lemma ParseIntoAt(into: string, cols: Columns, more: Tokens)
    requires ColumnsAreNames(cols) && Starts(more, Key(SELECT))
    ensures ParseAny(IntoTokens(into, cols, more)) ==
      if NoColumns(cols) || !Unqualified(cols) then Unread else
      match ParseSelect(more, 1)
      case Unread => Unread
      case Read(s, rest2, k) => Read(Copy(into, cols, s), rest2, k)
  {
    ParseIntoStart(into, cols, more);
    ParseColumnsOf(cols, Cons(Sym(')'), more));
  }

  lemma ParseIntoStart(into: string, cols: Columns, more: Tokens)
    ensures ParseAny(IntoTokens(into, cols, more)) == ParseIntoBody(into, ColumnsTokens(cols, Cons(Sym(')'), more)))
  {
    hide ColumnsTokens, ParseIntoBody;
    assert StartsTwo(IntoTokens(into, cols, more), Key(INSERT), Key(INTO));
  }

  /******* DELETE and UPDATE *******/

  function DeleteOf(c: ReadCond): Option<Statement>
    requires WellFormed(c) && !DeleteThrows(c)
  {
    match WhereOf(NamedConds(c), 1)
    case None => None
    case Some(w) => Some(Delete(ObjName(c).value, w))
  }

  /** Parsing a generated DELETE recovers table and condition, and fails exactly when the list holds a
      GROUP, an ORDER or an EQUAL_LIST. */
  lemma DeleteRoundTrip(c: ReadCond)
    requires WellFormed(c) && !DeleteThrows(c) && ColsAreNames(NamedConds(c)) && IsName(ObjName(c).value)
    ensures ParseText(DeleteText(c) + ";") == DeleteOf(c)
    ensures DeleteOf(c).Some? <==> AllLogical(NamedConds(c)) && !HasListOp(NamedConds(c))
  {
    var ns, name := NamedConds(c), ObjName(c).value;
    PrintWhere(ns, STOP);
    PrintDelete(name, WherePhrase(ns, STOP), WhereText(ns), STOP);
    LexStatement(DeletePhrase(name, WherePhrase(ns, STOP)), DeleteText(c));
    ParseWhereOf(ns, 1);
    ParseDeleteAt(name, WhereTokens(ns, END));
  }

  lemma ParseDeleteAt(name: string, more: Tokens)
    ensures ParseAny(DeleteTokens(name, more)) ==
      match ParseWhere(more, 1)
      case Unread => Unread
      case Read(w, rest, k) => Read(Delete(name, w), rest, k)
  {
    assert ParseFrom(DeleteTokens(name, more).tail) == Read(name, more, 0);
  }

  function UpdateOf(u: UpdateCond): Option<Statement>
    requires WellFormedUpdate(u)
  {
    var t := u.cond.ret.table;
    match WhereOf(NamedConds(u.cond), 1 + |u.seqs|)
    case None => None
    case Some(w) => Some(Update(t.name, AssignsOf(SetNames(t, u.seqs), 1), w))
  }

  predicate UpdateNames(u: UpdateCond)
    requires WellFormedUpdate(u)
  {
    && IsName(u.cond.ret.table.name) && ColsAreNames(NamedConds(u.cond))
    && forall i :: 0 <= i < |u.cond.ret.table.members| ==> IsName(u.cond.ret.table.members[i].name)
  }

  /** The SET placeholders are numbered before those of the condition; the text is not SQL exactly when
      the list holds a GROUP, an ORDER or an EQUAL_LIST. */
  lemma UpdateRoundTrip(u: UpdateCond)
    requires WellFormedUpdate(u) && !UpdateThrows(u) && UpdateNames(u)
    ensures ParseText(UpdateText(u) + ";") == UpdateOf(u)
    ensures UpdateOf(u).Some? <==> AllLogical(NamedConds(u.cond)) && !HasListOp(NamedConds(u.cond))
  {
    var t, ns := u.cond.ret.table, NamedConds(u.cond);
    var names := SetNames(t, u.seqs);
    PrintWhere(ns, STOP);
    PrintUpdate(t.name, names, WherePhrase(ns, STOP), WhereText(ns), STOP);
    LexStatement(UpdatePhrase(t.name, names, WherePhrase(ns, STOP)), UpdateText(u));
    ParseUpdateTokens(t.name, names, ns);
  }

  lemma {:induction false} ParseUpdateTokens(name: string, sets: seq<string>, ns: seq<Named>)
    requires sets != [] && !CondsThrow(ns, true)
    ensures var r := ParseAny(UpdateTokens(name, sets, WhereTokens(ns, END)));
            if WhereOf(ns, 1 + |sets|).Some?
            then r.Read? && r.value == Update(name, AssignsOf(sets, 1), WhereOf(ns, 1 + |sets|).value) && r.rest == END
            else r.Unread? || Continues(r.rest)
  {
    ParseWhereOf(ns, 1 + |sets|);
    ParseUpdateAt(name, sets, WhereTokens(ns, END));
  }

  lemma {:induction false} ParseUpdateAt(name: string, sets: seq<string>, more: Tokens)
    requires sets != [] && !Starts(more, Sym(','))
    ensures ParseAny(UpdateTokens(name, sets, more)) ==
      match ParseWhere(more, 1 + |sets|)
      case Unread => Unread
      case Read(w, rest2, k1) => Read(Update(name, AssignsOf(sets, 1), w), rest2, k1)
  {
    hide ParseWhere, ParseAssigns, SetsTokens;
    assert Starts(UpdateTokens(name, sets, more), Key(UPDATE));
    ParseSetList(sets, 1, more);
  }
}

/**
 What a join and a copy select.  The generator prints the bare name of a column, whatever table the
 condition is on; the database looks for the one table of the statement that has such a column, and
 refuses the text when there is none or there are several.
 */
module JoinSql {
  import opened YanTypes
  import opened SqlLexer
  import opened SqlGrammar
  import opened QueryModel
  import opened SqlText
  import opened SqlPhrase
  import opened SqlRoundTrip
  import opened WhereMeaning
  import opened BindSql

  /******* The database *******/

  // The columns of each table.
  type Catalog = map<string, set<string>>

  // One row of a join: the values by table and column, NULL where a table had no partner.
  type JoinRow = map<(string, string), Option<Value>>

  // The tables a SELECT reads.
  function Sources(s: Select): seq<string> {
    [s.from] + ClauseTables(s.joins)
  }

  function ClauseTables(js: seq<JoinClause>): seq<string> {
    if js == [] then [] else [js[0].table] + ClauseTables(js[1..])
  }

  predicate Has(cat: Catalog, table: string, col: string) {
    table in cat && col in cat[table]
  }

  // The i-th table and no other has such a column.
  predicate OnlyHas(cat: Catalog, sources: seq<string>, col: string, i: nat) {
    && i < |sources| && Has(cat, sources[i], col)
    && forall j :: 0 <= j < |sources| && j != i ==> !Has(cat, sources[j], col)
  }

  /** The table a bare name means. */
  ghost function Meant(cat: Catalog, sources: seq<string>, col: string): Option<string> {
    if exists i: nat :: OnlyHas(cat, sources, col, i)
    then
      var i: nat :| OnlyHas(cat, sources, col, i);
      Some(sources[i])
    else None
  }

  // The row as bare names see it.
  ghost function Bare(cat: Catalog, sources: seq<string>, row: JoinRow): Row {
    map k | k in row && Meant(cat, sources, k.1) == Some(k.0) :: k.1 := row[k]
  }

  predicate Names(s: Search, col: string) {
    exists i :: 0 <= i < |Flatten(s)| && Flatten(s)[i].col == col
  }

  // Every name of the condition means a table.
  ghost predicate Understood(cat: Catalog, s: Select) {
    s.tail.where.Some? ==> forall col :: Names(s.tail.where.value, col) ==> Meant(cat, Sources(s), col).Some?
  }

  /** Whether a row passes the condition; None when the database refuses the text. */
  ghost function Passes(cat: Catalog, s: Select, row: JoinRow, binds: Plan): Option<bool> {
    if !Understood(cat, s) then None
    else if s.tail.where.None? then Some(true)
    else Some(EvalSearch(s.tail.where.value, Bare(cat, Sources(s), row), binds).True?)
  }

  /******* The caller *******/

  // The columns of the table made for a struct.
  function ColumnsOf(t: Table): set<string> {
    set i | 0 <= i < |t.members| && IsScalar(t.members[i].ytype) :: t.members[i].name
  }

  // The table each condition of the list is on.
  function Owners(cs: seq<ReadCond>): (ts: seq<Table>)
    requires AllConditional(cs)
    ensures |ts| == |AllConds(cs)|
  {
    if cs == [] then [] else seq(|cs[0].params.value|, _ => cs[0].table.value) + Owners(cs[1..])
  }

  // How many conditions the objects before the i-th have.
  function Offset(cs: seq<ReadCond>, i: nat): nat
    requires AllConditional(cs) && i <= |cs|
    decreases i
  {
    if i == 0 then 0 else |cs[0].params.value| + Offset(cs[1..], i - 1)
  }

  /** The list of a join: the conditions of the first object, then those of the second, and so on, each on
      the table of its object. */
  lemma {:induction false} ConditionAt(cs: seq<ReadCond>, i: nat, j: nat)
    requires AllConditional(cs) && i < |cs| && j < |cs[i].params.value|
    ensures IsCondition(cs, Offset(cs, i) + j, cs[i], j)
    decreases i
  {
    hide IsCondition, WellFormed, AllConds, Owners;
    if i == 0 {
      FirstObject(cs, j);
    } else {
      assert cs[1..][i - 1] == cs[i];
      ConditionAt(cs[1..], i - 1, j);
      LaterObject(cs, Offset(cs[1..], i - 1) + j, cs[i], j);
    }
  }

  // Condition k of the list is the j-th parameter of `c`.
  predicate IsCondition(cs: seq<ReadCond>, k: nat, c: ReadCond, j: nat)
    requires AllConditional(cs) && WellFormed(c) && HasCond(c) && j < |c.params.value|
  {
    var p, t := c.params.value[j], c.table.value;
    && k < |AllConds(cs)| && Owners(cs)[k] == t
    && AllConds(cs)[k] == Named(t.members[p.field].name, p.cond, p.op, p.ytype, p.value)
  }

  lemma FirstObject(cs: seq<ReadCond>, j: nat)
    requires AllConditional(cs) && cs != [] && j < |cs[0].params.value|
    ensures IsCondition(cs, j, cs[0], j)
  {
    hide NamedConds;
    NamedCondsAt(cs[0], j);
  }

  lemma LaterObject(cs: seq<ReadCond>, k: nat, c: ReadCond, j: nat)
    requires AllConditional(cs) && cs != [] && WellFormed(c) && HasCond(c) && j < |c.params.value|
    requires IsCondition(cs[1..], k, c, j)
    ensures IsCondition(cs, |cs[0].params.value| + k, c, j)
  {
    hide NamedConds;
    NamedCondsAt(cs[0], 0);
    var n := |cs[0].params.value|;
    assert AllConds(cs)[n + k] == AllConds(cs[1..])[k] && Owners(cs)[n + k] == Owners(cs[1..])[k];
  }

  function JoinField(row: JoinRow, table: string, col: string): Option<Value> {
    if (table, col) in row then row[(table, col)] else None
  }

  /** What a condition asks: it is on the column of its own table. */
  function WantedOf(t: Table, n: Named, row: JoinRow): Truth {
    WantedOn(n, JoinField(row, t.name, n.col))
  }

  predicate JoinRunHolds(ts: seq<Table>, ns: seq<Named>, i: nat, row: JoinRow)
    requires |ts| == |ns|
  {
    forall k :: i <= k < |ns| && SameRun(ns, i, k) ==> WantedOf(ts[k], ns[k], row).True?
  }

  /** No condition, or some OR-separated run has all its conditions true, each of its own table. */
  predicate JoinSelected(ts: seq<Table>, ns: seq<Named>, row: JoinRow)
    requires |ts| == |ns|
  {
    ns == [] || exists i :: 0 <= i < |ns| && (i == 0 || ns[i].cond.Or?) && JoinRunHolds(ts, ns, i, row)
  }

  /******* When a name means the table of its condition *******/

  function TableNames(js: seq<JoinCond>): (names: seq<string>)
    ensures |names| == |js| && forall i :: 0 <= i < |js| ==> names[i] == js[i].table.name
  {
    seq(|js|, i requires 0 <= i < |js| => js[i].table.name)
  }

  predicate Known(cat: Catalog, t: Table) {
    t.name in cat && cat[t.name] == ColumnsOf(t)
  }

  // The database has the tables of the statement and of its conditions, as their structs say.
  predicate Catalogued(cat: Catalog, js: seq<JoinCond>, cs: seq<ReadCond>)
    requires AllConditional(cs)
  {
    && (forall i :: 0 <= i < |js| ==> Known(cat, js[i].table))
    && (forall k :: 0 <= k < |Owners(cs)| ==> Known(cat, Owners(cs)[k]))
  }

  // The j-th table is `t`, the others are not and have no column of that name.
  predicate OnlyAt(js: seq<JoinCond>, t: Table, col: string, j: nat) {
    && j < |js| && js[j].table.name == t.name
    && forall i :: 0 <= i < |js| && i != j ==> js[i].table.name != t.name && col !in ColumnsOf(js[i].table)
  }

  /** `t` has the column, is joined exactly once, and no other joined table has a column of that name. */
  predicate Unmistakable(js: seq<JoinCond>, t: Table, col: string) {
    col in ColumnsOf(t) && exists j :: 0 <= j < |js| && OnlyAt(js, t, col, j)
  }

  predicate AllUnmistakable(js: seq<JoinCond>, cs: seq<ReadCond>)
    requires AllConditional(cs)
  {
    forall k :: 0 <= k < |AllConds(cs)| ==> Unmistakable(js, Owners(cs)[k], AllConds(cs)[k].col)
  }

  // Exactly one joined table has a column of that name.
  predicate InOneTable(js: seq<JoinCond>, col: string) {
    exists j :: 0 <= j < |js| && col in ColumnsOf(js[j].table)
                && forall i :: 0 <= i < |js| && i != j ==> col !in ColumnsOf(js[i].table)
  }

  lemma MeantIs(cat: Catalog, sources: seq<string>, col: string, i: nat)
    requires OnlyHas(cat, sources, col, i)
    ensures Meant(cat, sources, col) == Some(sources[i])
  {
  }

  lemma MeantSomeIff(cat: Catalog, js: seq<JoinCond>, col: string)
    requires forall i :: 0 <= i < |js| ==> Known(cat, js[i].table)
    ensures Meant(cat, TableNames(js), col).Some? <==> InOneTable(js, col)
  {
    hide ColumnsOf;
    if InOneTable(js, col) {
      var j :| 0 <= j < |js| && col in ColumnsOf(js[j].table)
               && forall i :: 0 <= i < |js| && i != j ==> col !in ColumnsOf(js[i].table);
      assert OnlyHas(cat, TableNames(js), col, j);
    }
    if Meant(cat, TableNames(js), col).Some? {
      var j: nat :| OnlyHas(cat, TableNames(js), col, j);
      assert col in ColumnsOf(js[j].table);
    }
  }

  /** A bare name means the table of its condition exactly when it is unmistakable. */
  lemma MeantIff(cat: Catalog, js: seq<JoinCond>, t: Table, col: string)
    requires Known(cat, t) && forall i :: 0 <= i < |js| ==> Known(cat, js[i].table)
    ensures Meant(cat, TableNames(js), col) == Some(t.name) <==> Unmistakable(js, t, col)
  {
    if Unmistakable(js, t, col) {
      var j :| 0 <= j < |js| && OnlyAt(js, t, col, j);
      assert OnlyHas(cat, TableNames(js), col, j);
      MeantIs(cat, TableNames(js), col, j);
    }
    if Meant(cat, TableNames(js), col) == Some(t.name) {
      var j: nat :| OnlyHas(cat, TableNames(js), col, j);
      MeantIs(cat, TableNames(js), col, j);
      assert OnlyAt(js, t, col, j);
    }
  }

  /******* The condition of a statement over several tables *******/

  lemma BareField(cat: Catalog, sources: seq<string>, row: JoinRow, table: string, col: string)
    requires Meant(cat, sources, col) == Some(table)
    ensures Field(Bare(cat, sources, row), col) == JoinField(row, table, col)
  {
    if (table, col) in row {
      assert col in Bare(cat, sources, row);
    }
  }

  lemma SelectedAgree(ts: seq<Table>, ns: seq<Named>, row: JoinRow, bare: Row)
    requires ns != [] && |ts| == |ns| && forall k :: 0 <= k < |ns| ==> Wanted(ns[k], bare) == WantedOf(ts[k], ns[k], row)
    ensures Selected(ns, bare) <==> JoinSelected(ts, ns, row)
  {
    forall i | 0 <= i < |ns| ensures RunHolds(ns, i, bare) <==> JoinRunHolds(ts, ns, i, row) {
    }
    if Selected(ns, bare) {
      var i :| 0 <= i < |ns| && (i == 0 || ns[i].cond.Or?) && RunHolds(ns, i, bare);
      assert JoinRunHolds(ts, ns, i, row);
    }
    if JoinSelected(ts, ns, row) {
      var i :| 0 <= i < |ns| && (i == 0 || ns[i].cond.Or?) && JoinRunHolds(ts, ns, i, row);
      assert RunHolds(ns, i, bare);
    }
  }

  // The names of the printed condition are those of the list.
  lemma {:induction false} NamesOfRuns(ns: seq<Named>, k: nat, col: string)
    requires ns != []
    ensures Names(Runs(ns, k), col) <==> exists i :: 0 <= i < |ns| && ns[i].col == col
  {
    PlaceholderOrder(ns, k);
    var ps := Flatten(Runs(ns, k));
    assert forall i :: 0 <= i < |ns| ==> ps[i] == PredOf(ns[i], k + i) && ps[i].col == ns[i].col;
  }

  // The SELECT reads the tables of `js`, and its condition is the list.
  predicate ReadsList(s: Select, js: seq<JoinCond>, ns: seq<Named>) {
    Sources(s) == TableNames(js) && s.tail.where == if ns == [] then None else Some(Runs(ns, 1))
  }

  predicate AllInOneTable(js: seq<JoinCond>, ns: seq<Named>) {
    forall k :: 0 <= k < |ns| ==> InOneTable(js, ns[k].col)
  }

  /** The database accepts the names exactly when each is in one of the tables. */
  lemma UnderstoodIff(cat: Catalog, s: Select, js: seq<JoinCond>, ns: seq<Named>)
    requires ReadsList(s, js, ns) && forall i :: 0 <= i < |js| ==> Known(cat, js[i].table)
    ensures Understood(cat, s) <==> AllInOneTable(js, ns)
  {
    hide Meant, InOneTable, Names, Known;
    if ns == [] { return; }
    forall col ensures Names(s.tail.where.value, col) <==> exists k :: 0 <= k < |ns| && ns[k].col == col {
      NamesOfRuns(ns, 1, col);
    }
    forall col ensures Meant(cat, TableNames(js), col).Some? <==> InOneTable(js, col) {
      MeantSomeIff(cat, js, col);
    }
    if Understood(cat, s) {
      forall k | 0 <= k < |ns| ensures InOneTable(js, ns[k].col) {
        assert Names(s.tail.where.value, ns[k].col);
      }
    }
  }

  /** Under the guard the parsed condition, with the values the binder binds, passes exactly the rows of
      which each condition holds in its own table. */
  lemma {:induction false} ListMeaning(cat: Catalog, s: Select, js: seq<JoinCond>, cs: seq<ReadCond>, row: JoinRow)
    requires AllConditional(cs) && Catalogued(cat, js, cs) && ReadsList(s, js, AllConds(cs)) && Bindables(AllConds(cs))
    requires AllUnmistakable(js, cs)
    ensures Passes(cat, s, row, PlanOf(AllConds(cs))) == Some(JoinSelected(Owners(cs), AllConds(cs), row))
  {
    hide Meant, Unmistakable, InOneTable, Known, Bindables, Runs, Understood;
    var ns, ts := AllConds(cs), Owners(cs);
    var bare := Bare(cat, TableNames(js), row);
    forall k | 0 <= k < |ns|
      ensures Wanted(ns[k], bare) == WantedOf(ts[k], ns[k], row) && InOneTable(js, ns[k].col)
    {
      MeantIff(cat, js, ts[k], ns[k].col);
      MeantSomeIff(cat, js, ns[k].col);
      BareField(cat, TableNames(js), row, ts[k].name, ns[k].col);
    }
    UnderstoodIff(cat, s, js, ns);
    if ns != [] {
      SelectedAgree(ts, ns, row, bare);
      WholeTailMeaning(ns, bare);
    }
  }

  /** What becomes of the names of a list: the text is refused exactly when one of them is in none of
      the tables or in several, all of them mean the tables of their conditions exactly under the
      guard, and under the guard the rows that pass are those the caller asked for. */
  ghost predicate ListMeans(cat: Catalog, s: Select, js: seq<JoinCond>, cs: seq<ReadCond>, row: JoinRow)
    requires AllConditional(cs)
  {
    var ns, ts := AllConds(cs), Owners(cs);
    && (Passes(cat, s, row, PlanOf(ns)).Some? <==> AllInOneTable(js, ns))
    && ((forall k :: 0 <= k < |ns| ==> Meant(cat, Sources(s), ns[k].col) == Some(ts[k].name)) <==> AllUnmistakable(js, cs))
    && (AllUnmistakable(js, cs) ==> Passes(cat, s, row, PlanOf(ns)) == Some(JoinSelected(ts, ns, row)))
  }

  lemma {:induction false} ListMeansHolds(cat: Catalog, s: Select, js: seq<JoinCond>, cs: seq<ReadCond>, row: JoinRow)
    requires AllConditional(cs) && Catalogued(cat, js, cs) && ReadsList(s, js, AllConds(cs)) && Bindables(AllConds(cs))
    ensures ListMeans(cat, s, js, cs, row)
  {
    hide Meant, Unmistakable, Known, Bindables, JoinSelected, AllInOneTable;
    var ns, ts := AllConds(cs), Owners(cs);
    UnderstoodIff(cat, s, js, ns);
    forall k | 0 <= k < |ns|
      ensures Meant(cat, TableNames(js), ns[k].col) == Some(ts[k].name) <==> Unmistakable(js, ts[k], ns[k].col)
    {
      MeantIff(cat, js, ts[k], ns[k].col);
    }
    if AllUnmistakable(js, cs) { ListMeaning(cat, s, js, cs, row); }
  }

  /******* JOIN *******/

  ghost predicate JoinMeans(q: Option<Statement>, cols: Columns, js: seq<JoinCond>, cs: seq<ReadCond>, cat: Catalog, row: JoinRow)
    requires js != [] && AllConditional(cs)
  {
    if NoColumns(cols) || !Joinable(js) then q.None?
    else
      IsSelect(q, cols, js[0].table.name, JoinsOf(js[1..])) && ListMeans(cat, q.value.members[0], js, cs, row)
  }

  /** From a join to the rows it selects: one list runs over all its condition objects, and what its bare
      names mean decides.  The text is not SQL when it lists no column or an equality is missing or
      misplaced. */
  lemma {:induction false} JoinMeaning(ret: Ret, js: seq<JoinCond>, cs: seq<ReadCond>, cat: Catalog, row: JoinRow)
    requires AllConditional(cs) && !JoinThrows(ret, js, cs) && JoinNames(ret, js, cs)
    requires Bindables(AllConds(cs)) && Catalogued(cat, js, cs)
    ensures Marks(Lex(JoinText(ret, js, cs) + ";")) == |PlanOf(AllConds(cs))|
    ensures JoinMeans(ParseText(JoinText(ret, js, cs) + ";"), RetColumns(ret).value, js, cs, cat, row)
  {
    hide ParseText, JoinText, ListMeans, Catalogued, PlanOf, Runs, Joinable, TailOf;
    JoinMarks(ret, js, cs);
    JoinRoundTrip(ret, js, cs);
    WholeTail(AllConds(cs));
    if JoinOf(ret, js, cs).Some? {
      var s := JoinOf(ret, js, cs).value.members[0];
      JoinSources(js);
      ListMeansHolds(cat, s, js, cs, row);
    }
  }

  // A bindable list is a search condition with no GROUP or ORDER after it.
  lemma {:induction false} WholeTail(ns: seq<Named>)
    requires Bindables(ns)
    ensures TailOf(ns, 1) == Some(Tail(if ns == [] then None else Some(Runs(ns, 1)), None, None))
  {
    if ns != [] { WholeTailMeaning(ns, map[]); }
  }

  lemma JoinSources(js: seq<JoinCond>)
    requires js != []
    ensures [js[0].table.name] + ClauseTables(JoinsOf(js[1..])) == TableNames(js)
  {
    ClauseTablesAre(js[1..]);
    assert TableNames(js) == [js[0].table.name] + TableNames(js[1..]);
  }

  lemma {:induction false} ClauseTablesAre(js: seq<JoinCond>)
    ensures ClauseTables(JoinsOf(js)) == TableNames(js)
  {
    if js != [] {
      ClauseTablesAre(js[1..]);
      assert TableNames(js) == [js[0].table.name] + TableNames(js[1..]);
    }
  }

  /******* COPY *******/

  // Every condition is on a column of the table that is copied.
  predicate AllOnSource(source: Table, cs: seq<ReadCond>)
    requires AllConditional(cs)
  {
    forall k :: 0 <= k < |AllConds(cs)| ==>
      Owners(cs)[k].name == source.name && AllConds(cs)[k].col in ColumnsOf(Owners(cs)[k])
  }

  ghost predicate CopyMeans(q: Option<Statement>, into: string, cols: Columns, froms: seq<JoinCond>, cs: seq<ReadCond>,
                      cat: Catalog, row: JoinRow)
    requires |froms| == 1 && AllConditional(cs)
  {
    if NoColumns(cols) || !Unqualified(cols) then q.None?
    else
      && q.Some? && q.value.Copy? && q.value.into == into && q.value.columns == cols
      && q.value.from.columns == cols && q.value.from.from == froms[0].table.name && q.value.from.joins == []
      && ListMeans(cat, q.value.from, froms, cs, row)
  }

  /** The same for a copy, whose guard is that every condition is on the table that is copied. */
  lemma {:induction false} CopyMeaning(froms: seq<JoinCond>, into: Ret, cs: seq<ReadCond>, cat: Catalog, row: JoinRow)
    requires AllConditional(cs) && !CopyThrows(froms, into, cs) && JoinNames(into, froms, cs)
    requires IsName(into.table.name) && Bindables(AllConds(cs)) && Catalogued(cat, froms, cs)
    ensures Marks(Lex(CopyText(froms, into, cs) + ";")) == |PlanOf(AllConds(cs))|
    ensures CopyMeans(ParseText(CopyText(froms, into, cs) + ";"), into.table.name, RetColumns(into).value, froms, cs, cat, row)
    ensures AllUnmistakable(froms, cs) <==> AllOnSource(froms[0].table, cs)
  {
    hide ParseText, CopyText, ListMeans, PlanOf, Runs, TailOf, Catalogued, AllUnmistakable, AllOnSource;
    CopyMarks(froms, into, cs);
    CopyRoundTrip(froms, into, cs);
    WholeTail(AllConds(cs));
    CopyGuard(froms, cs);
    if CopyOf(froms, into, cs).Some? {
      JoinSources(froms);
      assert froms[1..] == [];
      ListMeansHolds(cat, CopyOf(froms, into, cs).value.from, froms, cs, row);
    }
  }

  lemma CopyGuard(froms: seq<JoinCond>, cs: seq<ReadCond>)
    requires |froms| == 1 && AllConditional(cs)
    ensures AllUnmistakable(froms, cs) <==> AllOnSource(froms[0].table, cs)
  {
    hide ColumnsOf, Owners, AllConds;
    forall k | 0 <= k < |AllConds(cs)|
      ensures Unmistakable(froms, Owners(cs)[k], AllConds(cs)[k].col)
              <==> Owners(cs)[k].name == froms[0].table.name && AllConds(cs)[k].col in ColumnsOf(Owners(cs)[k])
    {
      if Owners(cs)[k].name == froms[0].table.name { assert OnlyAt(froms, Owners(cs)[k], AllConds(cs)[k].col, 0); }
    }
  }

  /******* Joins that go wrong *******/

  /** A condition on a name that two joined tables share: the text is SQL and every value is bound, yet
      the database refuses it. */
  lemma {:induction false} SharedNameRefused(ret: Ret, js: seq<JoinCond>, cs: seq<ReadCond>, cat: Catalog, row: JoinRow, i: nat, j: nat, k: nat)
    requires AllConditional(cs) && !JoinThrows(ret, js, cs) && JoinNames(ret, js, cs)
    requires Bindables(AllConds(cs)) && Catalogued(cat, js, cs)
    requires !NoColumns(RetColumns(ret).value) && Joinable(js)
    requires i < j < |js| && k < |AllConds(cs)|
    requires AllConds(cs)[k].col in ColumnsOf(js[i].table) && AllConds(cs)[k].col in ColumnsOf(js[j].table)
    ensures IsSelect(ParseText(JoinText(ret, js, cs) + ";"), RetColumns(ret).value, js[0].table.name, JoinsOf(js[1..]))
    ensures Passes(cat, ParseText(JoinText(ret, js, cs) + ";").value.members[0], row, PlanOf(AllConds(cs))).None?
  {
    hide ParseText, JoinText, Passes, Meant, Bindables, Catalogued, Joinable, Owners, PlanOf, JoinSelected, AllUnmistakable;
    JoinMeaning(ret, js, cs, cat, row);
    assert !InOneTable(js, AllConds(cs)[k].col);
  }

  // Two tables of one column `n`, joined on it, with a condition on each.
  function Single(name: string): Table {
    Table(name, name, [Member("n", Int32, "", 0, true)])
  }

  function On(t: Table, v: int): ReadCond {
    ReadCond(Rows(t), Some(t), Some([Param(0, And, Equal, Int32, IntVal(v))]))
  }

  function TwoTables(): seq<JoinCond> {
    [JoinCond(Single("tm"), []), JoinCond(Single("tc"), [Bridge(Column("tm", "n"), Column("tc", "n"))])]
  }

  function TwoConds(): seq<ReadCond> {
    [On(Single("tm"), 1), On(Single("tc"), 2)]
  }

  function NamedN(v: int): Named {
    Named("n", And, Equal, Int32, IntVal(v))
  }

  lemma TwoCondsAre()
    ensures AllConditional(TwoConds()) && AllConds(TwoConds()) == [NamedN(1), NamedN(2)]
  {
    assert NamedConds(TwoConds()[0]) == [NamedN(1)] && NamedConds(TwoConds()[1]) == [NamedN(2)];
    assert TwoConds()[1..] == [On(Single("tc"), 2)] && TwoConds()[1..][1..] == [];
    assert AllConds(TwoConds()[1..]) == [NamedN(2)] + AllConds([]);
  }

  lemma TwoNames()
    ensures JoinsAreNames(TwoTables()) && IsName("n")
  {
    LowerCase("n");
    LowerCase("tm");
    LowerCase("tc");
  }

  function TwoCatalog(): Catalog {
    map["tm" := {"n"}, "tc" := {"n"}]
  }

  lemma TwoKnown()
    ensures AllConditional(TwoConds()) && Catalogued(TwoCatalog(), TwoTables(), TwoConds())
  {
    TwoCondsAre();
    SingleColumn("tm");
    SingleColumn("tc");
    var tm, tc := Single("tm"), Single("tc");
    assert TwoConds()[1..] == [On(tc, 2)] && TwoConds()[1..][1..] == [];
    assert Owners(TwoConds()[1..]) == [tc];
    assert Owners(TwoConds()) == [tm, tc];
  }

  lemma SingleColumn(name: string)
    ensures ColumnsOf(Single(name)) == {"n"}
  {
    assert Single(name).members[0].name == "n";
  }

  /** Such a join: `SELECT n FROM tm LEFT JOIN tc ON tm.n = tc.n WHERE n == ? AND n == ?`. */
  lemma TwoOfOneName(row: JoinRow)
    ensures var ret, js, cs, cat := Rows(Single("tm")), TwoTables(), TwoConds(), TwoCatalog();
            && AllConditional(cs) && Catalogued(cat, js, cs)
            && !JoinThrows(ret, js, cs) && JoinNames(ret, js, cs) && Joinable(js) && Bindables(AllConds(cs))
            && IsSelect(ParseText(JoinText(ret, js, cs) + ";"), Listed([Column("", "n")]), "tm", JoinsOf(js[1..]))
            && Passes(cat, ParseText(JoinText(ret, js, cs) + ";").value.members[0], row, PlanOf(AllConds(cs))).None?
  {
    hide ParseText, JoinText, Passes, Catalogued, AllConds, AllConditional, TwoConds, JoinsAreNames, IsName, JoinsOf;
    var ret, js, cs, cat := Rows(Single("tm")), TwoTables(), TwoConds(), TwoCatalog();
    TwoCondsAre();
    TwoKnown();
    TwoNames();
    assert AllBindable(PlanOf([NamedN(1), NamedN(2)])) by { BindableIff([NamedN(1), NamedN(2)]); }
    assert MemberColumns(Single("tm").members) == [Column("", "n")];
    assert Single("tm").members[0].name == "n" && Single("tc").members[0].name == "n";
    SharedNameRefused(ret, js, cs, cat, row, 0, 1, 0);
  }

  lemma LowerCase(w: string)
    requires w != "" && 'a' <= w[0] <= 'z' && IsWord(w)
    ensures IsName(w)
  {
  }

  /** A name that means another table than that of its condition is no error: the wrong table answers.
      For one equality there is always a row to show it. */
  lemma WrongTableAnswers(cat: Catalog, s: Select, js: seq<JoinCond>, c: ReadCond) returns (row: JoinRow)
    requires AllConditional([c]) && Catalogued(cat, js, [c]) && ReadsList(s, js, AllConds([c])) && Bindables(AllConds([c]))
    requires |AllConds([c])| == 1 && AllConds([c])[0].op.Equal? && !AllConds([c])[0].cond.Not?
    requires AllInOneTable(js, AllConds([c])) && !AllUnmistakable(js, [c])
    ensures Passes(cat, s, row, PlanOf(AllConds([c]))) == Some(true)
    ensures !JoinSelected(Owners([c]), AllConds([c]), row)
  {
    var ns, t := AllConds([c]), Owners([c])[0];
    var n := ns[0];
    MeantIff(cat, js, t, n.col);
    MeantSomeIff(cat, js, n.col);
    var u := Meant(cat, TableNames(js), n.col).value;
    row := map[(u, n.col) := Some(n.value)];
    UnderstoodIff(cat, s, js, ns);
    BareField(cat, TableNames(js), row, u, n.col);
    WholeTailMeaning(ns, Bare(cat, TableNames(js), row));
    assert SameRun(ns, 0, 0);
    assert Selected(ns, Bare(cat, TableNames(js), row)) by { assert RunHolds(ns, 0, Bare(cat, TableNames(js), row)); }
  }
}

/**
 A database that evaluates the texts: tables of rows, the SELECT, UNION, UPDATE and DELETE statements of
 the grammar, and an engine for the statement cache made of them.  Joins and copies, GROUP BY and
 ORDER BY are left to `JoinSql` and `SqlRoundTrip`; it does not run them.
 */
module Database {
  import opened YanTypes
  import opened SqlGrammar
  import opened BindSql
  import opened StmtCache
  import FetchSql

  datatype Relation = Relation(cols: seq<string>, rows: seq<Row>)

  type Contents = map<string, Relation>

  /******* Rows *******/

  predicate Passes(where: Option<Search>, row: Row, slots: Plan) {
    where.None? || EvalSearch(where.value, row, slots).True?
  }

  function Filter(rows: seq<Row>, where: Option<Search>, slots: Plan): seq<Row> {
    if rows == [] then []
    else (if Passes(where, rows[0], slots) then [rows[0]] else []) + Filter(rows[1..], where, slots)
  }

  // The values of the named columns.
  function RowCells(names: seq<string>, row: Row): (r: ResultRow)
    ensures |r| == |names| && forall i :: 0 <= i < |names| ==> r[i] == Field(row, names[i])
  {
    seq(|names|, i requires 0 <= i < |names| => Field(row, names[i]))
  }

  function AllCells(names: seq<string>, rows: seq<Row>): (rs: seq<ResultRow>)
    ensures |rs| == |rows| && forall i :: 0 <= i < |rows| ==> rs[i] == RowCells(names, rows[i])
  {
    seq(|rows|, i requires 0 <= i < |rows| => RowCells(names, rows[i]))
  }

  // COUNT(col) counts the rows in which the column is not NULL.
  function NotNull(rows: seq<Row>, col: string): nat {
    if rows == [] then 0 else (if Field(rows[0], col).Some? then 1 else 0) + NotNull(rows[1..], col)
  }

  function Output(cols: Columns, rel: Relation, rows: seq<Row>): seq<ResultRow> {
    match cols
    case Star => AllCells(rel.cols, rows)
    case Listed(cs) => AllCells(FetchSql.ColumnNames(cs), rows)
    case CountOf(col) => [[Some(IntVal(NotNull(rows, col)))]]
  }

  // Without the rows that stand further on as well.
  function Distinct(rs: seq<ResultRow>): seq<ResultRow> {
    if rs == [] then []
    else (if rs[0] in rs[1..] then [] else [rs[0]]) + Distinct(rs[1..])
  }

  // The assignments are made one after the other.
  function SetAll(row: Row, sets: seq<Assign>, slots: Plan): Row
    decreases |sets|
  {
    if sets == [] then row else SetAll(row[sets[0].col := Bound(slots, sets[0].mark)], sets[1..], slots)
  }

  function UpdateRows(rows: seq<Row>, sets: seq<Assign>, where: Option<Search>, slots: Plan): seq<Row> {
    if rows == [] then []
    else
      [if Passes(where, rows[0], slots) then SetAll(rows[0], sets, slots) else rows[0]]
      + UpdateRows(rows[1..], sets, where, slots)
  }

  function Remaining(rows: seq<Row>, where: Option<Search>, slots: Plan): seq<Row> {
    if rows == [] then []
    else (if Passes(where, rows[0], slots) then [] else [rows[0]]) + Remaining(rows[1..], where, slots)
  }

  /******* Statements *******/

  // One table, which exists, and no column of another one.
  predicate Runnable(db: Contents, s: Select) {
    && s.joins == [] && s.from in db && s.tail.group.None? && s.tail.order.None?
    && (s.columns.Listed? ==>
          forall i :: 0 <= i < |s.columns.columns| ==> s.columns.columns[i].table in {"", s.from})
  }

  predicate AllRunnable(db: Contents, ss: seq<Select>) {
    forall i :: 0 <= i < |ss| ==> Runnable(db, ss[i])
  }

  function SelectRows(db: Contents, s: Select, slots: Plan): seq<ResultRow>
    requires Runnable(db, s)
  {
    Output(s.columns, db[s.from], Filter(db[s.from].rows, s.tail.where, slots))
  }

  function MemberRows(db: Contents, ss: seq<Select>, slots: Plan): seq<ResultRow>
    requires AllRunnable(db, ss)
  {
    if ss == [] then [] else SelectRows(db, ss[0], slots) + MemberRows(db, ss[1..], slots)
  }

  predicate Prepares(db: Contents, text: string) {
    match ParseText(text)
    case Some(Query(ss)) => AllRunnable(db, ss)
    case Some(Update(t, _, _)) => t in db
    case Some(Delete(t, _)) => t in db
    case _ => false
  }

  function Run(db: Contents, text: string, slots: Plan): Outcome<Contents> {
    if !Prepares(db, text) then Outcome([], false, db)
    else
      match ParseText(text).value
      case Query(ss) =>
        Outcome(if |ss| == 1 then SelectRows(db, ss[0], slots) else Distinct(MemberRows(db, ss, slots)), true, db)
      case Update(t, sets, w) =>
        Outcome([], true, db[t := db[t].(rows := UpdateRows(db[t].rows, sets, w, slots))])
      case Delete(t, w) =>
        Outcome([], true, db[t := db[t].(rows := Remaining(db[t].rows, w, slots))])
      case _ => Outcome([], false, db)
  }

  function Sqlite(): Engine<Contents> {
    Engine((db: Contents, text: string) => Prepares(db, text),
           (db: Contents, text: string, slots: Plan) => Run(db, text, slots))
  }

  // The same tables with the same columns.
  predicate SameSchema(db: Contents, after: Contents) {
    db.Keys == after.Keys && forall t :: t in db ==> db[t].cols == after[t].cols
  }

  lemma RunKeepsSchema(db: Contents, text: string, slots: Plan)
    ensures SameSchema(db, Run(db, text, slots).after)
  {
  }

  lemma PreparesAlike(db: Contents, after: Contents, text: string)
    requires SameSchema(db, after)
    ensures Prepares(db, text) == Prepares(after, text)
  {
  }

  /** What can be prepared once can be prepared after any statement. */
  lemma SqliteStable()
    ensures Stable(Sqlite())
  {
    forall db, text, other, slots | Sqlite().prepare(db, text)
      ensures Sqlite().prepare(Sqlite().run(db, other, slots).after, text)
    {
      RunKeepsSchema(db, other, slots);
      PreparesAlike(db, Run(db, other, slots).after, text);
    }
  }
}

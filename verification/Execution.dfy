/**
 From a request to its answer: what `read`, `del` and `update` do to a database and reply, said of the
 conditions and members alone, and that the way over key, text, cache and bound values does it.
 */
module Execution {
  import opened YanTypes
  import opened SqlLexer
  import opened SqlGrammar
  import opened QueryModel
  import opened SqlText
  import opened SqlPhrase
  import opened SqlRoundTrip
  import opened WhereMeaning
  import opened BindSql
  import opened InsertSql
  import opened CommandKey
  import opened StmtCache
  import opened CommandCache
  import opened Database
  import JoinSql
  import FetchSql

  /******* What is asked *******/

  // A row that the conditions select; every row when there are none.
  predicate Wants(ns: seq<Named>, row: Row) {
    ns == [] || Selected(ns, row)
  }

  function Chosen(ns: seq<Named>, rows: seq<Row>): seq<Row> {
    if rows == [] then [] else (if Wants(ns, rows[0]) then [rows[0]] else []) + Chosen(ns, rows[1..])
  }

  function Others(ns: seq<Named>, rows: seq<Row>): seq<Row> {
    if rows == [] then [] else (if Wants(ns, rows[0]) then [] else [rows[0]]) + Others(ns, rows[1..])
  }

  // The values assigned to the columns of the struct.
  function Assignments(t: Table, seqs: seq<nat>, values: map<nat, Value>): Row
    requires forall i :: 0 <= i < |seqs| ==> seqs[i] < |t.members| && seqs[i] in values
  {
    if seqs == [] then map[]
    else Assignments(t, seqs[1..], values)[t.members[seqs[0]].name := Some(values[seqs[0]])]
  }

  function Changed(u: UpdateCond, rows: seq<Row>): seq<Row>
    requires WellFormedUpdate(u)
  {
    if rows == [] then []
    else
      [if Wants(NamedConds(u.cond), rows[0]) then rows[0] + Assignments(u.cond.ret.table, u.seqs, u.values) else rows[0]]
      + Changed(u, rows[1..])
  }

  // Conditions that can be asked: comparisons only, with values that can be bound.
  predicate Askable(ns: seq<Named>) {
    AllLogical(ns) && forall i :: 0 <= i < |ns| ==> Bindable(ns[i])
  }

  // The table a request is on: that of its condition, else that of the result.
  function TableFor(c: ReadCond): Option<string> {
    if c.table.Some? then Some(c.table.value.name) else if c.ret.Rows? then Some(c.ret.table.name) else None
  }

  // The struct of the result is the table itself.
  predicate Whole(c: ReadCond) {
    c.ret.Rows? && (c.table.None? || c.table == Some(c.ret.table))
  }

  // The first member that is not numbered by the database.
  predicate FirstPlain(ms: seq<Member>, i: nat) {
    i < |ms| && !ms[i].ytype.AutoIncrement? && forall j :: 0 <= j < i ==> ms[j].ytype.AutoIncrement?
  }

  // The result has columns, all of the one table.
  ghost predicate HasColumns(c: ReadCond)
    requires TableFor(c).Some?
  {
    match c.ret
    case Count => exists i: nat :: FirstPlain(c.table.value.members, i)
    case Rows(t) =>
      Whole(c) || (t.members != [] && forall i :: 0 <= i < |t.members| ==> t.members[i].from in {"", TableFor(c).value})
  }

  ghost predicate ReadAnswered(c: ReadCond, db: Contents)
    requires WellFormed(c)
  {
    TableFor(c).Some? && TableFor(c).value in db && HasColumns(c) && Askable(NamedConds(c))
  }

  /** The rows of a read: of each row wanted the members of the result, in order; for a count the number
      of rows wanted in which the first member that is not AUTO_INCREMENT is not NULL. */
  ghost function ReadRows(c: ReadCond, db: Contents): seq<ResultRow>
    requires WellFormed(c) && ReadAnswered(c, db)
  {
    var rows := Chosen(NamedConds(c), db[TableFor(c).value].rows);
    match c.ret
    case Rows(t) => AllCells(FetchSql.Names(t.members), rows)
    case Count =>
      var i: nat :| FirstPlain(c.table.value.members, i);
      [[Some(IntVal(NotNull(rows, c.table.value.members[i].name)))]]
  }

  /** What becomes of the rows: the first one, all of them in order, their number, or nothing. */
  function Replied(mode: Mode, fetchable: bool, rows: seq<ResultRow>): Result<Reply> {
    match mode
    case ReadOne => if |rows| == 0 then Ok(NoRow) else if fetchable then Ok(OneRow(rows[0])) else Thrown
    case ReadMany => if |rows| == 0 || fetchable then Ok(Reply.Rows(rows)) else Thrown
    case CountRows => Ok(Counted(|rows|))
    case Blind => Ok(Nothing)
  }

  predicate DeleteAnswered(c: ReadCond, db: Contents)
    requires WellFormed(c)
  {
    TableFor(c).Some? && TableFor(c).value in db && Askable(NamedConds(c))
  }

  predicate UpdateAnswered(u: UpdateCond, db: Contents)
    requires WellFormedUpdate(u)
  {
    && u.cond.ret.table.name in db && Askable(NamedConds(u.cond)) && u.seqs != []
    && forall i :: 0 <= i < |u.seqs| ==> BindableType(u.cond.ret.table.members[u.seqs[i]].ytype)
  }

  /** The contents after a request, and its reply; Thrown for one that cannot be answered, which changes
      nothing. */
  ghost function Answer(db: Contents, q: Request): (Contents, Result<Reply>)
    requires WellFormedCommand(q.cmd)
  {
    match q.cmd
    case ReadCommand(c) =>
      (db, if ReadAnswered(c, db) then Replied(q.mode, q.fetchable, ReadRows(c, db)) else Thrown)
    case DeleteCommand(c) =>
      if !DeleteAnswered(c, db) then (db, Thrown)
      else
        var t := TableFor(c).value;
        (db[t := db[t].(rows := Others(NamedConds(c), db[t].rows))], Replied(q.mode, q.fetchable, []))
    case UpdateCommand(u) =>
      if !UpdateAnswered(u, db) then (db, Thrown)
      else
        var t := u.cond.ret.table.name;
        (db[t := db[t].(rows := Changed(u, db[t].rows))], Replied(q.mode, q.fetchable, []))
  }

  /******* One text against the database *******/

  lemma FreshFill(m: nat, p: Plan)
    requires |p| == m
    ensures Fill(Fresh(m), 0, p) == p
  {
    FillAll(Fresh(m), 0, p);
    assert Fresh(m)[..0] + p == p;
  }

  // A call whose text is made runs it, with the values in its slots, if it can be prepared and bound.
  lemma StepOf(db: Contents, call: Call)
    requires call.text.Ok? && |call.plan| == Marks(Lex(call.text.value + ";"))
    requires Prepares(db, call.text.value + ";") && AllBindable(call.plan)
    ensures var o := Run(db, call.text.value + ";", call.plan);
            FreshStep(Sqlite(), db, call) == (o.after, Consume(call, o))
  {
    FitsIff(call.plan, 0, |call.plan|);
    FreshFill(|call.plan|, call.plan);
  }

  lemma StepFails(db: Contents, call: Call)
    requires call.text.Ok? ==> Prepares(db, call.text.value + ";") ==> !Fits(call.plan, 0, Marks(Lex(call.text.value + ";")))
    ensures FreshStep(Sqlite(), db, call) == (db, Thrown)
  {
  }

  lemma ConsumeIs(call: Call, o: Outcome<Contents>)
    requires o.ok
    ensures Consume(call, o) == Replied(call.mode, call.fetchable, o.rows)
  {
  }

  // The search condition of a list that can be asked.
  function WhereFor(ns: seq<Named>, k: nat): Option<Search> {
    if ns == [] then None else Some(Runs(ns, k))
  }

  // The printed condition passes the rows that the list wants.
  lemma PassesIff(ns: seq<Named>, start: Plan, row: Row, binds: Plan)
    requires Bindables(ns) && start + PlanOf(ns) <= binds
    ensures Passes(WhereFor(ns, |start| + 1), row, binds) <==> Wants(ns, row)
  {
    if ns != [] { TailMeaning(ns, start, row, binds); }
  }

  lemma {:induction false} RemainingIs(ns: seq<Named>, rows: seq<Row>)
    requires Bindables(ns)
    ensures var w := WhereFor(ns, 1);
            Remaining(rows, w, PlanOf(ns)) == Others(ns, rows)
  {
    if rows != [] {
      WholePlan(PlanOf(ns));
      PassesIff(ns, [], rows[0], PlanOf(ns));
      RemainingIs(ns, rows[1..]);
    }
  }

  lemma AskableIff(ns: seq<Named>)
    ensures Askable(ns) <==> Bindables(ns)
  {
    BindableIff(ns);
  }

  /******* Reading *******/

  // The names of a request are names, and a table read whole has the columns of its struct.
  predicate ReadFits(c: ReadCond, db: Contents)
    requires WellFormed(c)
  {
    && (!QueryThrows(c) ==> NamesIn(c))
    && (Whole(c) && c.ret.table.name in db ==> db[c.ret.table.name].cols == FetchSql.Names(c.ret.table.members))
  }

  lemma {:induction false} CountMemberIs(ms: seq<Member>, i: nat)
    requires FirstPlain(ms, i)
    ensures CountMember(ms) == Some(ms[i].name)
  {
    if i > 0 { CountMemberIs(ms[1..], i - 1); }
  }

  lemma {:induction false} NoCountMember(ms: seq<Member>)
    requires forall i: nat :: !FirstPlain(ms, i)
    ensures CountMember(ms) == None
  {
    if ms != [] {
      assert !FirstPlain(ms, 0);
      forall i: nat ensures !FirstPlain(ms[1..], i) { assert !FirstPlain(ms, i + 1); }
      NoCountMember(ms[1..]);
    }
  }

  lemma OnlyFirst(ms: seq<Member>, i: nat, j: nat)
    requires FirstPlain(ms, i) && FirstPlain(ms, j)
    ensures i == j
  {
  }

  // What the text of a read is, if its conditions can be asked.
  lemma ReadParsed(c: ReadCond)
    requires WellFormed(c) && !QueryThrows(c) && NamesIn(c) && Askable(NamedConds(c))
    ensures TableFor(c).Some?
    ensures ParseText(QueryText(c) + ";") ==
            if NoColumns(QueryColumns(c).value) then None
            else Some(Query([Select(QueryColumns(c).value, TableFor(c).value, [], Tail(WhereFor(NamedConds(c), 1), None, None))]))
  {
    AskableIff(NamedConds(c));
    hide ParseText, QueryText, TailOf, Bindables;
    QueryRoundTrip(c);
    JoinSql.WholeTail(NamedConds(c));
  }

  lemma ReadIsSelect(c: ReadCond, db: Contents)
    requires WellFormed(c) && ReadAnswered(c, db)
    ensures !QueryThrows(c) && !NoColumns(QueryColumns(c).value)
  {
    if c.ret.Count? {
      var i: nat :| FirstPlain(c.table.value.members, i);
      CountMemberIs(c.table.value.members, i);
    }
  }

  lemma ReadPrepares(c: ReadCond, db: Contents)
    requires WellFormed(c) && ReadFits(c, db) && ReadAnswered(c, db)
    ensures !QueryThrows(c) && Prepares(db, QueryText(c) + ";")
  {
    hide ParseText, QueryText, NamesIn, NamedConds;
    ReadIsSelect(c, db);
    ReadParsed(c);
  }

  // A SELECT that reads the table of `c`, passes the rows `c` wants and lists its columns.
  lemma SelectRowsAre(c: ReadCond, db: Contents, s: Select, binds: Plan)
    requires WellFormed(c) && ReadFits(c, db) && ReadAnswered(c, db) && !QueryThrows(c)
    requires s.columns == QueryColumns(c).value && s.from == TableFor(c).value && s.joins == []
    requires s.tail.group.None? && s.tail.order.None?
    requires forall row :: Passes(s.tail.where, row, binds) <==> Wants(NamedConds(c), row)
    ensures Runnable(db, s) && SelectRows(db, s, binds) == ReadRows(c, db)
  {
    FilterChosen(NamedConds(c), db[TableFor(c).value].rows, s.tail.where, binds);
    match c.ret
    case Count =>
      var i: nat :| FirstPlain(c.table.value.members, i);
      CountMemberIs(c.table.value.members, i);
      forall j: nat | FirstPlain(c.table.value.members, j) ensures j == i { OnlyFirst(c.table.value.members, i, j); }
    case Rows(t) =>
      if !Whole(c) {
        assert FetchSql.ColumnNames(QueryColumns(c).value.columns) == FetchSql.Names(t.members);
      }
  }

  lemma {:induction false} FilterChosen(ns: seq<Named>, rows: seq<Row>, where: Option<Search>, binds: Plan)
    requires forall row :: Passes(where, row, binds) <==> Wants(ns, row)
    ensures Filter(rows, where, binds) == Chosen(ns, rows)
  {
    if rows != [] { FilterChosen(ns, rows[1..], where, binds); }
  }

  lemma ReadOutput(c: ReadCond, db: Contents)
    requires WellFormed(c) && ReadFits(c, db) && ReadAnswered(c, db)
    requires !QueryThrows(c) && Prepares(db, QueryText(c) + ";")
    ensures Run(db, QueryText(c) + ";", PlanOf(NamedConds(c))) == Outcome(ReadRows(c, db), true, db)
  {
    var ns := NamedConds(c);
    hide QueryText, ParseText, ReadRows, SelectRows, Runnable, QueryThrows, NamesIn, QueryColumns, NamedConds, Wants, Passes;
    ReadIsSelect(c, db);
    ReadParsed(c);
    AskableIff(ns);
    WholePlan(PlanOf(ns));
    forall row ensures Passes(WhereFor(ns, 1), row, PlanOf(ns)) <==> Wants(ns, row) { PassesIff(ns, [], row, PlanOf(ns)); }
    SelectRowsAre(c, db, Select(QueryColumns(c).value, TableFor(c).value, [], Tail(WhereFor(ns, 1), None, None)), PlanOf(ns));
  }

  /** A read through text, binding and database gives the rows that its conditions select, each with the
      members of the result in order, and changes nothing; it throws exactly when it cannot be answered. */
  lemma ReadAnswers(q: Request, db: Contents)
    requires q.cmd.ReadCommand? && WellFormed(q.cmd.c) && KeyedCond(q.cmd.c) && ReadFits(q.cmd.c, db)
    ensures FreshStep(Sqlite(), db, CallOf(q)) == Answer(db, q)
  {
    var c, call := q.cmd.c, CallOf(q);
    var ns := NamedConds(c);
    AskableIff(ns);
    if ReadAnswered(c, db) {
      ReadPrepares(c, db);
      ReadOutput(c, db);
      QueryMarks(c);
      StepOf(db, call);
      ConsumeIs(call, Run(db, QueryText(c) + ";", PlanOf(ns)));
    } else {
      if !QueryThrows(c) { ReadNotAnswered(c, db); }
      StepFails(db, call);
    }
  }

  lemma ReadNotAnswered(c: ReadCond, db: Contents)
    requires WellFormed(c) && ReadFits(c, db) && !ReadAnswered(c, db) && !QueryThrows(c)
    ensures Prepares(db, QueryText(c) + ";") ==> !Fits(PlanOf(NamedConds(c)), 0, Marks(Lex(QueryText(c) + ";")))
  {
    hide ParseText, QueryText, NamedConds, Fits, PlanOf, Askable, NamesIn;
    if Askable(NamedConds(c)) {
      ReadParsed(c);
      var q := ParseText(QueryText(c) + ";");
      assert Prepares(db, QueryText(c) + ";") ==> q.Some? && Runnable(db, q.value.members[0]);
      if c.ret.Count? && forall i: nat :: !FirstPlain(c.table.value.members, i) { NoCountMember(c.table.value.members); }
      if c.ret.Rows? && !HasColumns(c) && c.ret.table.members != [] {
        var ms := c.ret.table.members;
        var i :| 0 <= i < |ms| && ms[i].from !in {"", TableFor(c).value};
        assert QueryColumns(c).value.columns[i].table == ms[i].from;
      }
    } else {
      NotAskable(c);
    }
  }

  lemma NotAskable(c: ReadCond)
    requires WellFormed(c) && !QueryThrows(c) && NamesIn(c) && !Askable(NamedConds(c))
    ensures !Fits(PlanOf(NamedConds(c)), 0, Marks(Lex(QueryText(c) + ";")))
  {
    hide QueryText, NamesIn, QueryThrows;
    QueryMarks(c);
    BindSucceedsIff(NamedConds(c), LogicalCount(NamedConds(c)));
  }

  /******* Deleting *******/

  predicate DeleteFits(c: ReadCond)
    requires WellFormed(c)
  {
    !DeleteThrows(c) ==> ColsAreNames(NamedConds(c)) && IsName(ObjName(c).value)
  }

  // What the text of a delete is, if its conditions can be asked.
  lemma DeleteParsed(c: ReadCond)
    requires WellFormed(c) && !DeleteThrows(c) && DeleteFits(c) && Askable(NamedConds(c))
    ensures TableFor(c).Some?
    ensures ParseText(DeleteText(c) + ";") == Some(Delete(TableFor(c).value, WhereFor(NamedConds(c), 1)))
  {
    AskableIff(NamedConds(c));
    hide ParseText, DeleteText, Bindables;
    DeleteRoundTrip(c);
    WholeWhere(NamedConds(c), 1);
  }

  lemma WholeWhere(ns: seq<Named>, k: nat)
    requires Askable(ns)
    ensures WhereOf(ns, k) == Some(WhereFor(ns, k))
  {
    forall i | 0 <= i < |ns| ensures !ns[i].op.EqualList? { assert Bindable(ns[i]); }
  }

  /** A delete removes the rows that its conditions select and leaves the others, in order; the number it
      replies is that of the rows a DELETE gives back: none. */
  lemma DeleteAnswers(q: Request, db: Contents)
    requires q.cmd.DeleteCommand? && WellFormed(q.cmd.c) && KeyedCond(q.cmd.c) && DeleteFits(q.cmd.c)
    ensures FreshStep(Sqlite(), db, CallOf(q)) == Answer(db, q)
  {
    var c, call := q.cmd.c, CallOf(q);
    var ns := NamedConds(c);
    if DeleteThrows(c) {
      StepFails(db, call);
    } else {
      DeleteMarks(c);
      hide ParseText, DeleteText, NamedConds, Fits, PlanOf, Askable, Consume;
      if Askable(ns) {
        DeleteParsed(c);
        AskableIff(ns);
        if TableFor(c).value in db {
          RemainingIs(ns, db[TableFor(c).value].rows);
          StepOf(db, call);
          ConsumeIs(call, Run(db, DeleteText(c) + ";", PlanOf(ns)));
        } else {
          StepFails(db, call);
        }
      } else {
        DeleteNotAskable(c);
        StepFails(db, call);
      }
    }
  }

  lemma DeleteNotAskable(c: ReadCond)
    requires WellFormed(c) && !DeleteThrows(c) && DeleteFits(c) && !Askable(NamedConds(c))
    ensures !Fits(PlanOf(NamedConds(c)), 0, Marks(Lex(DeleteText(c) + ";")))
  {
    hide DeleteText, DeleteThrows;
    DeleteMarks(c);
    BindSucceedsIff(NamedConds(c), LogicalCount(NamedConds(c)));
  }

  /******* Updating *******/

  predicate UpdateFits(u: UpdateCond)
    requires WellFormedUpdate(u)
  {
    UpdateNames(u) && DistinctNames(u.cond.ret.table) && Ascending(u.seqs)
  }

  lemma UpdateParsed(u: UpdateCond)
    requires WellFormedUpdate(u) && !UpdateThrows(u) && UpdateFits(u) && Askable(NamedConds(u.cond))
    ensures ParseText(UpdateText(u) + ";") ==
            Some(Update(u.cond.ret.table.name, AssignsOf(SetNames(u.cond.ret.table, u.seqs), 1), WhereFor(NamedConds(u.cond), 1 + |u.seqs|)))
  {
    hide ParseText, UpdateText;
    UpdateRoundTrip(u);
    WholeWhere(NamedConds(u.cond), 1 + |u.seqs|);
  }

  // Assigning the columns of `seqs` one after the other assigns all of them.
  lemma {:induction false} SetAllIs(t: Table, seqs: seq<nat>, values: map<nat, Value>, k: nat, row: Row, slots: Plan)
    requires forall i :: 0 <= i < |seqs| ==> seqs[i] < |t.members| && seqs[i] in values
    requires DistinctNames(t) && Ascending(seqs)
    requires forall i :: 0 <= i < |seqs| ==> Bound(slots, k + i) == Some(values[seqs[i]])
    ensures SetAll(row, AssignsOf(SetNames(t, seqs), k), slots) == row + Assignments(t, seqs, values)
    decreases |seqs|
  {
    if seqs != [] {
      var name, v := t.members[seqs[0]].name, Some(values[seqs[0]]);
      assert Bound(slots, k + 0) == v;
      forall i | 0 <= i < |seqs[1..]| ensures Bound(slots, k + 1 + i) == Some(values[seqs[1..][i]]) {
        assert Bound(slots, k + (i + 1)) == Some(values[seqs[i + 1]]);
      }
      SetAllIs(t, seqs[1..], values, k + 1, row[name := v], slots);
      NotAssigned(t, seqs[1..], values, seqs[0]);
      assert row[name := v] + Assignments(t, seqs[1..], values) == row + Assignments(t, seqs, values);
    }
  }

  lemma {:induction false} NotAssigned(t: Table, seqs: seq<nat>, values: map<nat, Value>, s: nat)
    requires forall i :: 0 <= i < |seqs| ==> seqs[i] < |t.members| && seqs[i] in values && s < seqs[i]
    requires DistinctNames(t) && s < |t.members|
    ensures t.members[s].name !in Assignments(t, seqs, values)
  {
    if seqs != [] { NotAssigned(t, seqs[1..], values, s); }
  }

  lemma {:induction false} SetBindableIff(t: Table, seqs: seq<nat>, values: map<nat, Value>)
    requires forall i :: 0 <= i < |seqs| ==> seqs[i] < |t.members| && seqs[i] in values
    ensures AllBindable(SetPlan(t, seqs, values)) <==> forall i :: 0 <= i < |seqs| ==> BindableType(t.members[seqs[i]].ytype)
  {
    if seqs != [] {
      SetBindableIff(t, seqs[1..], values);
      assert seqs == [seqs[0]] + seqs[1..];
      assert forall i :: 1 <= i < |seqs| ==> seqs[i] == seqs[1..][i - 1];
    }
  }

  predicate UpdateBindable(u: UpdateCond)
    requires WellFormedUpdate(u)
  {
    Askable(NamedConds(u.cond)) && forall i :: 0 <= i < |u.seqs| ==> BindableType(u.cond.ret.table.members[u.seqs[i]].ytype)
  }

  lemma UpdateBindableIff(u: UpdateCond)
    requires WellFormedUpdate(u)
    ensures UpdateBindable(u) <==> AllBindable(UpdatePlan(u)) && AllLogical(NamedConds(u.cond))
  {
    var ns := NamedConds(u.cond);
    AskableIff(ns);
    SetBindableIff(u.cond.ret.table, u.seqs, u.values);
    AllBindableAppend(SetPlan(u.cond.ret.table, u.seqs, u.values), PlanOf(ns));
  }

  lemma {:induction false} ChangedIs(u: UpdateCond, rows: seq<Row>)
    requires WellFormedUpdate(u) && UpdateFits(u) && UpdateBindable(u)
    ensures UpdateRows(rows, AssignsOf(SetNames(u.cond.ret.table, u.seqs), 1), WhereFor(NamedConds(u.cond), 1 + |u.seqs|), UpdatePlan(u))
            == Changed(u, rows)
  {
    if rows != [] {
      RowChanged(u, rows[0]);
      hide SetAll, Wants, Passes, Assignments, UpdatePlan, AssignsOf;
      ChangedIs(u, rows[1..]);
    }
  }

  lemma RowChanged(u: UpdateCond, row: Row)
    requires WellFormedUpdate(u) && UpdateFits(u) && UpdateBindable(u)
    ensures SetAll(row, AssignsOf(SetNames(u.cond.ret.table, u.seqs), 1), UpdatePlan(u))
            == row + Assignments(u.cond.ret.table, u.seqs, u.values)
    ensures Passes(WhereFor(NamedConds(u.cond), 1 + |u.seqs|), row, UpdatePlan(u)) <==> Wants(NamedConds(u.cond), row)
  {
    var t, ns := u.cond.ret.table, NamedConds(u.cond);
    UpdateBindableIff(u);
    AskableIff(ns);
    AssignedHolds(u);
    forall i | 0 <= i < |u.seqs| ensures Bound(UpdatePlan(u), 1 + i) == Some(u.values[u.seqs[i]]) {
      assert AssignsOf(SetNames(t, u.seqs), 1)[i].mark == 1 + i;
    }
    SetAllIs(t, u.seqs, u.values, 1, row, UpdatePlan(u));
    PassesIff(ns, SetPlan(t, u.seqs, u.values), row, UpdatePlan(u));
  }

  lemma UpdateNotBindable(u: UpdateCond)
    requires WellFormedUpdate(u) && !UpdateThrows(u) && UpdateFits(u) && !UpdateBindable(u)
    ensures !Fits(UpdatePlan(u), 0, Marks(Lex(UpdateText(u) + ";")))
  {
    hide UpdateText, UpdateThrows, UpdateBindable;
    UpdateMarks(u);
    UpdateBindableIff(u);
    FitsIff(UpdatePlan(u), 0, |u.seqs| + LogicalCount(NamedConds(u.cond)));
  }

  lemma UpdateThrowsNot(u: UpdateCond, db: Contents)
    requires WellFormedUpdate(u) && UpdateAnswered(u, db)
    ensures !UpdateThrows(u)
  {
  }

  /** An update assigns the members set to the rows that its conditions select, and leaves all other values
      and rows as they are. */
  lemma UpdateAnswers(q: Request, db: Contents)
    requires q.cmd.UpdateCommand? && WellFormedUpdate(q.cmd.u) && KeyedCond(q.cmd.u.cond) && UpdateFits(q.cmd.u)
    ensures FreshStep(Sqlite(), db, CallOf(q)) == Answer(db, q)
  {
    var u, call := q.cmd.u, CallOf(q);
    if UpdateAnswered(u, db) { UpdateThrowsNot(u, db); }
    hide ParseText, UpdateText, Fits, UpdatePlan, Askable, Consume, UpdateFits;
    if UpdateThrows(u) {
      StepFails(db, call);
    } else if !UpdateBindable(u) {
      UpdateNotBindable(u);
      StepFails(db, call);
    } else {
      UpdateParsed(u);
      UpdateRuns(u);
      if u.cond.ret.table.name in db {
        ChangedIs(u, db[u.cond.ret.table.name].rows);
        StepOf(db, call);
        ConsumeIs(call, Run(db, UpdateText(u) + ";", UpdatePlan(u)));
      } else {
        StepFails(db, call);
      }
    }
  }

  lemma UpdateRuns(u: UpdateCond)
    requires WellFormedUpdate(u) && !UpdateThrows(u) && UpdateFits(u) && UpdateBindable(u)
    ensures |UpdatePlan(u)| == Marks(Lex(UpdateText(u) + ";")) && AllBindable(UpdatePlan(u))
  {
    hide UpdateText, UpdateThrows;
    UpdateMarks(u);
    UpdateBindableIff(u);
  }

  /******* Any sequence of requests *******/

  // The names of a request are names, and the database has the columns of the tables read whole.
  predicate Fitting(q: Request, db: Contents)
    requires WellFormedCommand(q.cmd)
  {
    match q.cmd
    case ReadCommand(c) => ReadFits(c, db)
    case DeleteCommand(c) => DeleteFits(c)
    case UpdateCommand(u) => UpdateFits(u)
  }

  lemma RequestAnswers(q: Request, db: Contents)
    requires WellFormedCommand(q.cmd) && Keyed(q.cmd) && Fitting(q, db)
    ensures FreshStep(Sqlite(), db, CallOf(q)) == Answer(db, q)
  {
    hide Answer, FreshStep, CallOf;
    match q.cmd
    case ReadCommand(_) => ReadAnswers(q, db);
    case DeleteCommand(_) => DeleteAnswers(q, db);
    case UpdateCommand(_) => UpdateAnswers(q, db);
  }

  // What becomes of a sequence of requests; `others[i]` is what other connections do before the i-th.
  ghost function Answers(db: Contents, qs: seq<Request>, others: seq<Contents -> Contents>): Trace<Contents>
    requires AllKeyed(qs) && |others| == |qs|
    decreases |qs|
  {
    if qs == [] then Trace(db, [])
    else
      var (db1, reply) := Answer(others[0](db), qs[0]);
      var t := Answers(db1, qs[1..], others[1..]);
      Trace(t.db, [reply] + t.replies)
  }

  predicate AllFitting(qs: seq<Request>, db: Contents)
    requires AllKeyed(qs)
  {
    forall i :: 0 <= i < |qs| ==> Fitting(qs[i], db)
  }

  // Other connections leave tables and columns alone.
  ghost predicate KeepSchema(others: seq<Contents -> Contents>) {
    forall i, db :: 0 <= i < |others| ==> SameSchema(db, others[i](db))
  }

  lemma FittingAlike(q: Request, db: Contents, after: Contents)
    requires WellFormedCommand(q.cmd) && SameSchema(db, after) && Fitting(q, db)
    ensures Fitting(q, after)
  {
  }

  lemma StepKeepsSchema(q: Request, db: Contents)
    requires WellFormedCommand(q.cmd) && Keyed(q.cmd)
    ensures SameSchema(db, FreshStep(Sqlite(), db, CallOf(q)).0)
  {
    var call := CallOf(q);
    if Compile(Sqlite(), db, call).Ok? {
      var text := Compile(Sqlite(), db, call).value;
      RunKeepsSchema(db, text, Fill(Fresh(Marks(Lex(text))), 0, call.plan));
    }
  }

  lemma {:induction false} FreshAnswers(db: Contents, qs: seq<Request>, others: seq<Contents -> Contents>)
    requires AllKeyed(qs) && |others| == |qs| && AllFitting(qs, db) && KeepSchema(others)
    ensures FreshRun(Sqlite(), db, CallsOf(qs), others) == Answers(db, qs, others)
    decreases |qs|
  {
    if qs != [] {
      hide Fitting, Answer, FreshStep, SameSchema, CallOf, Sqlite;
      var db0 := others[0](db);
      var db1 := FreshStep(Sqlite(), db0, CallOf(qs[0])).0;
      StepKeepsSchema(qs[0], db0);
      forall i | 0 <= i < |qs| ensures Fitting(qs[i], db0) && Fitting(qs[i], db1) {
        FittingAlike(qs[i], db, db0);
        FittingAlike(qs[i], db0, db1);
      }
      RequestAnswers(qs[0], db0);
      forall i, d | 0 <= i < |others[1..]| ensures SameSchema(d, others[1..][i](d)) { assert others[1..][i] == others[i + 1]; }
      FreshAnswers(db1, qs[1..], others[1..]);
      assert CallsOf(qs)[1..] == CallsOf(qs[1..]);
    }
  }

  /** Over any sequence of reads, deletes and updates, of any tables and with other connections changing
      the rows in between: what the cached statements do to the database and reply is what the
      requests ask, provided their keys do not collide. */
  lemma RequestsAnswered(db: Contents, qs: seq<Request>, others: seq<Contents -> Contents>)
    requires AllKeyed(qs) && |others| == |qs| && AllFitting(qs, db) && KeepSchema(others)
    requires CollisionFree(CallsOf(qs))
    ensures CachedRun(Sqlite(), db, map[], CallsOf(qs), others) == Answers(db, qs, others)
  {
    FreshAnswers(db, qs, others);
    SqliteStable();
    forall i, d, text | 0 <= i < |others| && Sqlite().prepare(d, text) ensures Sqlite().prepare(others[i](d), text) {
      PreparesAlike(d, others[i](d), text);
    }
    CacheIsInvisible(Sqlite(), db, CallsOf(qs), others);
  }

  /** The same for one request on the connection object: `read`, `del` and `update`. */
  method Perform(ctx: SqliteContext<Contents>, q: Request) returns (r: Result<Reply>)
    requires ctx.Valid() && ctx.engine == Sqlite() && WellFormedCommand(q.cmd) && Keyed(q.cmd) && Fitting(q, ctx.db)
    requires Faithful(Sqlite(), ctx.db, ctx.Texts(), [CallOf(q)])
    modifies ctx, ctx.readStmts.Values
    ensures ctx.Valid() && (ctx.db, r) == Answer(old(ctx.db), q)
  {
    ghost var db, cache, call := ctx.db, ctx.Texts(), CallOf(q);
    SqliteStable();
    StepAgrees(Sqlite(), db, cache, [call]);
    RequestAnswers(q, db);
    r := ctx.Execute(CallOf(q));
  }

  /******* UNION *******/

  // The call of a union read.
  function UnionCall(cs: seq<ReadCond>, mode: Mode, fetchable: bool): Call
    requires AllWellFormed(cs) && forall i :: 0 <= i < |cs| ==> KeyedCond(cs[i])
  {
    Call(CondsKey(cs), if UnionThrows(cs) then Thrown else Ok(UnionText(cs)), PlanOf(AllConds(cs)), mode, fetchable)
  }

  ghost predicate AllAnswered(cs: seq<ReadCond>, db: Contents) {
    forall i :: 0 <= i < |cs| ==> WellFormed(cs[i]) && ReadFits(cs[i], db) && ReadAnswered(cs[i], db)
  }

  // The rows of the members, one after the other.
  ghost function AllReadRows(cs: seq<ReadCond>, db: Contents): seq<ResultRow>
    requires AllAnswered(cs, db)
  {
    if cs == [] then [] else ReadRows(cs[0], db) + AllReadRows(cs[1..], db)
  }

  // The first member of a union whose values start at number |start| + 1.
  lemma MemberRowsAre(c: ReadCond, db: Contents, start: Plan, binds: Plan)
    requires WellFormed(c) && ReadFits(c, db) && ReadAnswered(c, db) && start + PlanOf(NamedConds(c)) <= binds
    ensures !QueryThrows(c)
    ensures SelectOf(PartsOf(c), |start| + 1).Some? && SelectOf(PartsOf(c), |start| + 1).value.tail.order.None?
    ensures Runnable(db, SelectOf(PartsOf(c), |start| + 1).value)
    ensures SelectRows(db, SelectOf(PartsOf(c), |start| + 1).value, binds) == ReadRows(c, db)
    ensures LogicalSpan(NamedConds(c)) == |NamedConds(c)|
  {
    var ns := NamedConds(c);
    ReadIsSelect(c, db);
    AskableIff(ns);
    LogicalSpanAll(ns);
    if ns != [] { TailMeaning(ns, start, map[], binds); }
    forall row ensures Passes(WhereFor(ns, |start| + 1), row, binds) <==> Wants(ns, row) { PassesIff(ns, start, row, binds); }
    SelectRowsAre(c, db, SelectOf(PartsOf(c), |start| + 1).value, binds);
  }

  ghost predicate NoneThrows(cs: seq<ReadCond>) {
    forall i :: 0 <= i < |cs| ==> WellFormed(cs[i]) && !QueryThrows(cs[i])
  }

  lemma NoneThrow(cs: seq<ReadCond>, db: Contents)
    requires AllAnswered(cs, db)
    ensures NoneThrows(cs)
  {
    forall i | 0 <= i < |cs| ensures !QueryThrows(cs[i]) { ReadIsSelect(cs[i], db); }
  }

  // The members as parsed with numbers from k on read what the conditions ask.
  ghost predicate UnionReads(cs: seq<ReadCond>, db: Contents, k: nat, binds: Plan)
    requires AllAnswered(cs, db) && NoneThrows(cs)
  {
    var ss := MembersOf(MemberParts(cs), k);
    ss.Some? && |ss.value| == |cs| && AllRunnable(db, ss.value) && MemberRows(db, ss.value, binds) == AllReadRows(cs, db)
  }

  // The first member read with numbers from k on reads what its condition asks.
  ghost predicate MemberAnswers(c: ReadCond, db: Contents, k: nat, binds: Plan)
    requires WellFormed(c) && ReadAnswered(c, db) && !QueryThrows(c)
  {
    var s := SelectOf(PartsOf(c), k);
    && s.Some? && s.value.tail.order.None? && Runnable(db, s.value) && SelectRows(db, s.value, binds) == ReadRows(c, db)
    && LogicalSpan(NamedConds(c)) == |NamedConds(c)|
  }

  lemma UnionReadsCons(cs: seq<ReadCond>, db: Contents, k: nat, binds: Plan)
    requires cs != [] && AllAnswered(cs, db) && NoneThrows(cs)
    requires MemberAnswers(cs[0], db, k, binds)
    requires UnionReads(cs[1..], db, k + |NamedConds(cs[0])|, binds)
    ensures UnionReads(cs, db, k, binds)
  {
    hide ReadRows, Runnable, SelectOf, SelectRows, LogicalSpan, QueryThrows, ReadAnswered, ReadFits, WellFormed;
    var s, ss := SelectOf(PartsOf(cs[0]), k).value, MembersOf(MemberParts(cs[1..]), k + |NamedConds(cs[0])|).value;
    assert MemberParts(cs)[1..] == MemberParts(cs[1..]) && MemberParts(cs)[0] == PartsOf(cs[0]);
    assert MembersOf(MemberParts(cs), k) == Some([s] + ss);
    assert ([s] + ss)[1..] == ss && ([s] + ss)[0] == s;
  }

  // The values of the first member, and the rest.
  lemma UnionFirst(cs: seq<ReadCond>, db: Contents, start: Plan, binds: Plan)
    requires cs != [] && AllAnswered(cs, db) && NoneThrows(cs) && start + PlanOf(AllConds(cs)) <= binds
    ensures MemberAnswers(cs[0], db, |start| + 1, binds)
    ensures (start + PlanOf(NamedConds(cs[0]))) + PlanOf(AllConds(cs[1..])) <= binds
  {
    hide ReadRows, SelectOf, SelectRows, Runnable, QueryThrows, ReadAnswered, ReadFits, PlanOf, NamedConds;
    PlanAppend(NamedConds(cs[0]), AllConds(cs[1..]));
    PrefixSplit(start, PlanOf(NamedConds(cs[0])), PlanOf(AllConds(cs[1..])), binds);
    MemberRowsAre(cs[0], db, start, binds);
  }

  lemma {:induction false} UnionRowsAre(cs: seq<ReadCond>, db: Contents, start: Plan, binds: Plan)
    requires AllAnswered(cs, db) && NoneThrows(cs) && start + PlanOf(AllConds(cs)) <= binds
    ensures UnionReads(cs, db, |start| + 1, binds)
    decreases |cs|
  {
    hide UnionReads, MemberAnswers, QueryThrows, ReadAnswered, ReadFits, PlanOf, AllConds, NamedConds, WellFormed;
    if cs == [] {
      NoMemberReads(db, |start| + 1, binds);
    } else {
      UnionFirst(cs, db, start, binds);
      UnionRowsAre(cs[1..], db, start + PlanOf(NamedConds(cs[0])), binds);
      UnionReadsCons(cs, db, |start| + 1, binds);
    }
  }

  lemma NoMemberReads(db: Contents, k: nat, binds: Plan)
    ensures UnionReads([], db, k, binds)
  {
    assert MemberParts([]) == [] && MembersOf([], k) == Some([]);
  }

  /** A union gives the rows that its members select, each with its own conditions, and of several members
      no row twice. */
  lemma UnionAnswers(cs: seq<ReadCond>, db: Contents, mode: Mode, fetchable: bool)
    requires cs != [] && AllAnswered(cs, db) && AllWellFormed(cs) && forall i :: 0 <= i < |cs| ==> KeyedCond(cs[i])
    ensures var rows := AllReadRows(cs, db);
            FreshStep(Sqlite(), db, UnionCall(cs, mode, fetchable))
            == (db, Replied(mode, fetchable, if |cs| == 1 then rows else Distinct(rows)))
  {
    var plan, call := PlanOf(AllConds(cs)), UnionCall(cs, mode, fetchable);
    NoneThrow(cs, db);
    UnionRuns(cs, db);
    UnionRun(cs, db);
    hide ParseText, UnionText, PlanOf, AllConds, AllReadRows, Distinct, Consume, Run, Prepares, UnionThrows, AllAnswered, NoneThrows;
    StepOf(db, call);
    ConsumeIs(call, Run(db, UnionText(cs) + ";", plan));
  }

  lemma UnionRun(cs: seq<ReadCond>, db: Contents)
    requires cs != [] && AllAnswered(cs, db) && AllWellFormed(cs) && NoneThrows(cs) && !UnionThrows(cs)
    ensures var rows := AllReadRows(cs, db);
            && Prepares(db, UnionText(cs) + ";")
            && Run(db, UnionText(cs) + ";", PlanOf(AllConds(cs))) == Outcome(if |cs| == 1 then rows else Distinct(rows), true, db)
  {
    hide ParseText, UnionText, PlanOf, AllConds, AllReadRows, Distinct, SelectRows, Runnable, ReadRows, MembersOf;
    var plan := PlanOf(AllConds(cs));
    WholePlan(plan);
    UnionRowsAre(cs, db, [], plan);
    UnionRoundTrip(cs);
    var ss := MembersOf(MemberParts(cs), 1).value;
    if |ss| == 1 { OneMember(db, ss, plan); }
  }

  lemma OneMember(db: Contents, ss: seq<Select>, slots: Plan)
    requires |ss| == 1 && AllRunnable(db, ss)
    ensures MemberRows(db, ss, slots) == SelectRows(db, ss[0], slots)
  {
    assert ss[1..] == [];
  }

  lemma UnionRuns(cs: seq<ReadCond>, db: Contents)
    requires cs != [] && AllAnswered(cs, db) && AllWellFormed(cs) && forall i :: 0 <= i < |cs| ==> !QueryThrows(cs[i])
    ensures !UnionThrows(cs)
    ensures |PlanOf(AllConds(cs))| == Marks(Lex(UnionText(cs) + ";")) && AllBindable(PlanOf(AllConds(cs)))
  {
    UnionMarks(cs);
    AllAskable(cs, db);
  }

  lemma {:induction false} AllAskable(cs: seq<ReadCond>, db: Contents)
    requires AllAnswered(cs, db)
    ensures Bindables(AllConds(cs))
  {
    if cs != [] {
      AllAskable(cs[1..], db);
      AskableIff(NamedConds(cs[0]));
      PlanAppend(NamedConds(cs[0]), AllConds(cs[1..]));
      AllBindableAppend(PlanOf(NamedConds(cs[0])), PlanOf(AllConds(cs[1..])));
    }
  }

  /** Of several members the union keeps exactly the rows that occur, and each once. */
  lemma {:induction false} DistinctIs(rs: seq<ResultRow>)
    ensures forall r :: r in Distinct(rs) <==> r in rs
    ensures forall i, j :: 0 <= i < j < |Distinct(rs)| ==> Distinct(rs)[i] != Distinct(rs)[j]
  {
    if rs != [] {
      DistinctIs(rs[1..]);
      assert rs == [rs[0]] + rs[1..];
    }
  }
}

/** Fetching a result row into an object: the column cursor, and what it makes of stored rows. */
module FetchSql {
  import opened YanTypes
  import opened SqlLexer
  import opened SqlGrammar
  import opened QueryModel
  import opened SqlText
  import opened SqlRoundTrip
  import opened BindSql
  import opened InsertSql
  import opened SqlColumns

  // The cells of a result row; None is NULL, and so is every column past the end.
  type Cells = seq<Option<Value>>

  function Cell(cells: Cells, k: int): Option<Value> {
    if 0 <= k < |cells| then cells[k] else None
  }

  // A column holds values of its declared kind.
  predicate RightKind(t: YanType, c: Option<Value>) {
    c.Some? ==> (c.value.StrVal? <==> TextType(t))
  }

  // The lower 32 bits, as `sqlite3_column_int` returns them.
  function Wrap32(n: int): int {
    (n + 0x8000_0000) % 0x1_0000_0000 - 0x8000_0000
  }

  lemma Wrap32Is(n: int)
    ensures -0x8000_0000 <= Wrap32(n) < 0x8000_0000 && (n - Wrap32(n)) % 0x1_0000_0000 == 0
  {
  }

  /** What a cell gives to a member: NULL text sets nothing, a NULL number sets zero. */
  function Fetched(t: YanType, c: Option<Value>): Option<Value>
    requires RightKind(t, c)
  {
    if TextType(t) then c
    else
      var n := if c.None? then 0 else c.value.n;
      Some(IntVal(if t.Int32? then Wrap32(n) else n))
  }

  predicate RowHolds(ms: seq<Member>, cells: Cells) {
    forall k :: 0 <= k < |ms| ==> RightKind(ms[k].ytype, Cell(cells, k))
  }

  predicate AllFetchable(ms: seq<Member>, i: nat)
    requires i <= |ms|
    decreases |ms| - i
  {
    i == |ms| || (BindableType(ms[i].ytype) && AllFetchable(ms, i + 1))
  }

  function Lookup(m: map<nat, Value>, k: nat): Option<Value> {
    if k in m then Some(m[k]) else None
  }

  // `after` is `before` with the k-th of the first `n` cells stored into member k.
  ghost predicate FetchedInto(ms: seq<Member>, cells: Cells, n: nat, before: map<nat, Value>, after: map<nat, Value>)
    requires n <= |ms| && RowHolds(ms, cells)
  {
    forall k: nat :: Lookup(after, k) ==
      if k < n && Fetched(ms[k].ytype, Cell(cells, k)).Some? then Fetched(ms[k].ytype, Cell(cells, k))
      else Lookup(before, k)
  }

  class FetchSqlResult {
    const cells: Cells
    var col: int

    constructor (cells: Cells)
      ensures this.cells == cells && col == -1
    {
      this.cells := cells;
      col := -1;
    }

    // `WriteMemRef::get`: the cursor moves before the type is looked at.
    method Get(t: YanType) returns (r: Result<Option<Value>>)
      requires RightKind(t, Cell(cells, col + 1))
      modifies this
      ensures col == old(col) + 1
      ensures r == if BindableType(t) then Ok(Fetched(t, Cell(cells, col))) else Thrown
    {
      col := col + 1;
      if t.String? || t.Text? || t.Blob? {
        r := Ok(Cell(cells, col));
      } else if t.Int32? {
        var n := if Cell(cells, col).None? then 0 else Cell(cells, col).value.n;
        r := Ok(Some(IntVal(Wrap32(n))));
      } else if t.Int64? || t.AutoIncrement? || t.Date? || t.Timestamp? {
        var n := if Cell(cells, col).None? then 0 else Cell(cells, col).value.n;
        r := Ok(Some(IntVal(n)));
      } else {
        r := Thrown;
      }
    }

    /** `fetch`: one column for every member of the struct, in order. */
    method Fetch(t: Table, obj: map<nat, Value>) returns (r: Result<map<nat, Value>>)
      requires col == -1 && RowHolds(t.members, cells)
      modifies this
      ensures r.Ok? <==> AllFetchable(t.members, 0)
      ensures r.Ok? ==> col == |t.members| - 1
      ensures r.Ok? ==> FetchedInto(t.members, cells, |t.members|, obj, r.value)
    {
      var fetched: map<nat, Value> := obj;
      var i := 0;
      while i < |t.members|
        invariant 0 <= i <= |t.members| && col == i - 1
        invariant AllFetchable(t.members, 0) == AllFetchable(t.members, i)
        invariant FetchedInto(t.members, cells, i, obj, fetched)
      {
        assert RightKind(t.members[i].ytype, Cell(cells, i));
        var v := Get(t.members[i].ytype);
        if v.Thrown? { return Thrown; }
        if v.value.Some? { fetched := fetched[i := v.value.value]; }
        i := i + 1;
      }
      r := Ok(fetched);
    }
  }

  /******* Columns line up *******/

  function Names(ms: seq<Member>): (ns: seq<string>)
    ensures |ns| == |ms| && forall i :: 0 <= i < |ms| ==> ns[i] == ms[i].name
  {
    seq(|ms|, i requires 0 <= i < |ms| => ms[i].name)
  }

  // The names of the result columns of a SELECT, where `*` stands for the columns of the table.
  function ResultNames(q: Option<Statement>, created: Option<Created>): seq<string> {
    if q.None? || !q.value.Query? || q.value.members == [] then []
    else
      match q.value.members[0].columns
      case Star => if created.None? then [] else FieldNames(created.value.fields)
      case Listed(cs) => ColumnNames(cs)
      case CountOf(name) => [name]
  }

  function FieldNames(fs: seq<Field>): (ns: seq<string>)
    ensures |ns| == |fs| && forall i :: 0 <= i < |fs| ==> ns[i] == fs[i].name
  {
    seq(|fs|, i requires 0 <= i < |fs| => fs[i].name)
  }

  function ColumnNames(cs: seq<Column>): (ns: seq<string>)
    ensures |ns| == |cs| && forall i :: 0 <= i < |cs| ==> ns[i] == cs[i].name
  {
    seq(|cs|, i requires 0 <= i < |cs| => cs[i].name)
  }

  predicate Flat(t: Table) {
    forall i :: 0 <= i < |t.members| ==> IsScalar(t.members[i].ytype)
  }

  predicate Creatable(t: Table) {
    Flat(t) && !CreateThrows(t) && IsName(t.name) && NamedMembers(Scalars(t.members))
  }

  // The table a read is on: that of its condition, else that of the result.
  function TableRead(c: ReadCond): Table
    requires c.ret.Rows?
  {
    if c.table.Some? then c.table.value else c.ret.table
  }

  /** The k-th result column of any generated SELECT that is SQL has the name of the k-th member of the
      result, the one the cursor stores it into; `*` stands for the columns that the generated CREATE
      TABLE gives to the table after FROM. */
  lemma ColumnAlignment(c: ReadCond, t: Table)
    requires WellFormed(c) && !QueryThrows(c) && NamesIn(c) && TailOf(NamedConds(c), 1).Some?
    requires c.ret == Rows(t) && (TableRead(c) == t ==> Creatable(t))
    ensures ReadsInto(ParseText(QueryText(c) + ";"), c, t)
    ensures ResultNames(ParseText(QueryText(c) + ";"), ParseCreate(Lex(CreateText(TableRead(c))))) == Names(t.members)
  {
    QueryColumnsAre(c, t);
    hide ParseCreate, CreateText, ParseText, QueryText, QueryThrows, NamesIn, TailOf, ResultNames, ReadsInto, Creatable;
    Aligned(ParseText(QueryText(c) + ";"), c, t);
  }

  // The one SELECT that reads into `t`; none when no column is listed.
  predicate ReadsInto(q: Option<Statement>, c: ReadCond, t: Table)
    requires c.ret.Rows?
  {
    if TableRead(c) == t then IsSelect(q, Star, t.name, [])
    else if t.members == [] then q.None?
    else IsSelect(q, Listed(MemberColumns(t.members)), TableRead(c).name, [])
  }

  lemma Aligned(q: Option<Statement>, c: ReadCond, t: Table)
    requires c.ret == Rows(t) && ReadsInto(q, c, t) && (TableRead(c) == t ==> Creatable(t))
    ensures ResultNames(q, ParseCreate(Lex(CreateText(TableRead(c))))) == Names(t.members)
  {
    hide ParseCreate, CreateText, Creatable;
    if TableRead(c) == t {
      StarNames(q, t);
    } else if t.members != [] {
      ListedNames(q, TableRead(c).name, t.members, ParseCreate(Lex(CreateText(TableRead(c)))));
    }
  }

  lemma StarNames(q: Option<Statement>, t: Table)
    requires IsSelect(q, Star, t.name, []) && Creatable(t)
    ensures ResultNames(q, ParseCreate(Lex(CreateText(t)))) == Names(t.members)
  {
    hide ParseCreate, CreateText;
    CreateRoundTrip(t);
    assert Scalars(t.members) == t.members;
  }

  lemma ListedNames(q: Option<Statement>, from: string, ms: seq<Member>, created: Option<Created>)
    requires IsSelect(q, Listed(MemberColumns(ms)), from, [])
    ensures ResultNames(q, created) == Names(ms)
  {
  }

  lemma QueryColumnsAre(c: ReadCond, t: Table)
    requires WellFormed(c) && !QueryThrows(c) && NamesIn(c) && TailOf(NamedConds(c), 1).Some? && c.ret == Rows(t)
    ensures ReadsInto(ParseText(QueryText(c) + ";"), c, t)
  {
    hide ParseText, QueryText, TailOf;
    QueryRoundTrip(c);
  }

  /** The same for a join that is SQL, whatever its tables. */
  lemma {:induction false} JoinColumnAlignment(t: Table, js: seq<JoinCond>, cs: seq<ReadCond>, created: Option<Created>)
    requires AllConditional(cs) && !JoinThrows(Rows(t), js, cs) && JoinNames(Rows(t), js, cs)
    requires TailOf(AllConds(cs), 1).Some? && Joinable(js)
    ensures ResultNames(ParseText(JoinText(Rows(t), js, cs) + ";"), created) == Names(t.members)
  {
    hide ParseText, JoinText;
    JoinRoundTrip(Rows(t), js, cs);
  }

  /******* From an object through the database and back *******/

  // The cells of the k-th row, in the order of the result columns.
  function CellsOf(insert: Option<Statement>, k: nat, names: seq<string>): Cells {
    if insert.None? || !insert.value.Insert? || k >= |insert.value.rows| || !insert.value.columns.Listed? then []
    else seq(|names|, i requires 0 <= i < |names| =>
           Stored(insert.value.columns.columns, insert.value.rows[k], names[i]))
  }

  // A value its column can hold without loss.
  predicate InRange(t: YanType, v: Value) {
    (v.StrVal? <==> TextType(t)) && (t.Int32? ==> -0x8000_0000 <= v.n < 0x8000_0000)
  }

  predicate AllFit(t: Table, o: Obj)
    requires WellFormedObj(t, o)
  {
    forall i :: 0 <= i < |o.seqs| ==> InRange(t.members[o.seqs[i]].ytype, o.values[o.seqs[i]])
  }

  // What an object has assigned to a member.
  function Assignment(o: Obj, k: nat): Option<Value> {
    if k in o.seqs then Lookup(o.values, k) else None
  }

  predicate CellsAre(t: Table, o: Obj, cells: Cells) {
    |cells| == |t.members| && forall k :: 0 <= k < |cells| ==> cells[k] == Assignment(o, k)
  }

  // Objects that can be put into one INSERT: named, and with values that have a text.
  predicate Insertable(t: Table, os: seq<Obj>) {
    AllObjs(t, os) && InsertNames(t, os) && DistinctNames(t) && os != [] && os[0].seqs != []
  }

  // Every object has as many members assigned as the first.
  predicate SameWidth(os: seq<Obj>) {
    forall k :: 0 <= k < |os| ==> |os[k].seqs| == |os[0].seqs|
  }

  lemma {:induction false} InsertedRows(t: Table, os: seq<Obj>)
    requires Insertable(t, os)
    ensures ParseText(InsertText(t, os) + ";").Some? <==> NoEmptyRow(RowsOf(t, os))
    ensures NoEmptyRow(RowsOf(t, os)) ==>
      ParseText(InsertText(t, os) + ";") == Some(Insert(t.name, Listed(FieldColumns(t, os[0].seqs)), LiteralRows(RowsOf(t, os))))
  {
    InsertRoundTrip(t, os);
  }

  lemma {:induction false} InsertedRow(t: Table, os: seq<Obj>, k: nat)
    requires AllObjs(t, os) && k < |os|
    ensures LiteralRows(RowsOf(t, os))[k] == Literals(RowOf(os[k]))
  {
    LiteralRowAt(RowsOf(t, os), k);
    RowsAt(t, os, k);
  }

  lemma {:induction false} NoEmptyRowAt(rows: seq<seq<Value>>)
    ensures NoEmptyRow(rows) <==> forall k :: 0 <= k < |rows| ==> rows[k] != []
  {
    if rows != [] {
      NoEmptyRowAt(rows[1..]);
      assert forall k :: 1 <= k < |rows| ==> rows[k] == rows[1..][k - 1];
    }
  }

  lemma {:induction false} SameWidthFull(t: Table, os: seq<Obj>)
    requires Insertable(t, os) && SameWidth(os)
    ensures NoEmptyRow(RowsOf(t, os))
  {
    NoEmptyRowAt(RowsOf(t, os));
    forall k | 0 <= k < |RowsOf(t, os)| ensures RowsOf(t, os)[k] != [] { RowsAt(t, os, k); }
  }

  lemma CellsOfObject(t: Table, os: seq<Obj>, k: nat)
    requires Insertable(t, os) && SameWidth(os) && k < |os| && os[k].seqs == os[0].seqs
    ensures CellsAre(t, os[k], CellsOf(ParseText(InsertText(t, os) + ";"), k, Names(t.members)))
  {
    hide ParseText, InsertText;
    SameWidthFull(t, os);
    InsertedRows(t, os);
    InsertedRow(t, os, k);
    RowMeaning(t, os[0], os[k]);
  }

  // A declaration with NOT NULL in it.
  predicate ForbidsNull(decl: List<Token>) {
    decl.Cons? && (StartsTwo(decl, Key(NOT), Word("NULL")) || ForbidsNull(decl.tail))
  }

  // The row has a value for every listed column, and one for every column declared NOT NULL.
  predicate TakesRow(fields: seq<Field>, cols: seq<Column>, row: seq<Literal>) {
    && |row| == |cols|
    && forall i :: 0 <= i < |fields| && ForbidsNull(fields[i].decl) ==> Stored(cols, row, fields[i].name).Some?
  }

  /** A table takes the rows of an INSERT all together or not at all. */
  predicate Takes(created: Option<Created>, insert: Option<Statement>) {
    && created.Some? && insert.Some? && insert.value.Insert? && insert.value.columns.Listed?
    && forall k :: 0 <= k < |insert.value.rows| ==>
         TakesRow(created.value.fields, insert.value.columns.columns, insert.value.rows[k])
  }

  // An AUTO_INCREMENT member is never declared NOT NULL; it is no key either, because PRIMARY_KEY,
  // spelled with an underscore, only lengthens the name of the type.
  predicate NeedsValue(m: Member) {
    !m.canBeNull && !m.ytype.AutoIncrement?
  }

  lemma DeclForbidsNull(m: Member)
    ensures ForbidsNull(DeclOf(m)) <==> NeedsValue(m)
  {
    var nulls := NullDecl(m);
    assert ForbidsNull(nulls) <==> !m.canBeNull;
    if m.ytype.AutoIncrement? {
      var rest := Cons(Word("PRIMARY_KEY"), Cons(Word("AUTO_INCREMENT"), Nil));
      assert !ForbidsNull(rest.tail) && !ForbidsNull(rest);
    } else if m.ytype.String? {
      var close := Cons(Sym(')'), nulls);
      assert ForbidsNull(close) == ForbidsNull(nulls);
      var length := Cons(Word(IntText(m.length)), close);
      assert ForbidsNull(length) == ForbidsNull(close);
      assert ForbidsNull(Cons(Sym('('), length)) == ForbidsNull(length);
    }
  }

  predicate NothingMissing(t: Table, o: Obj) {
    forall k :: 0 <= k < |t.members| && NeedsValue(t.members[k]) ==> k in o.seqs
  }

  /** The table that the generated CREATE TABLE makes takes the generated INSERT exactly when every
      object has as many members assigned as the first, and that one every member that may not be null. */
  lemma InsertTakenIff(t: Table, os: seq<Obj>)
    requires Insertable(t, os) && Creatable(t)
    ensures Takes(ParseCreate(Lex(CreateText(t))), ParseText(InsertText(t, os) + ";"))
            <==> SameWidth(os) && NothingMissing(t, os[0])
  {
    hide ParseCreate, CreateText, ParseText, InsertText, TakesRow, NothingMissing, InsertNames;
    CreateRoundTrip(t);
    assert Scalars(t.members) == t.members;
    InsertedRows(t, os);
    if SameWidth(os) { SameWidthFull(t, os); }
    if NoEmptyRow(RowsOf(t, os)) {
      forall k | 0 <= k < |os|
        ensures TakesRow(FieldsOf(t.members), FieldColumns(t, os[0].seqs), LiteralRows(RowsOf(t, os))[k])
                <==> |os[k].seqs| == |os[0].seqs| && NothingMissing(t, os[0])
      {
        InsertedRow(t, os, k);
        RowTakenIff(t, os[0], Literals(RowOf(os[k])));
      }
    }
  }

  lemma {:induction false} RowTakenIff(t: Table, first: Obj, row: seq<Literal>)
    requires WellFormedObj(t, first) && DistinctNames(t)
    ensures TakesRow(FieldsOf(t.members), FieldColumns(t, first.seqs), row)
            <==> |row| == |first.seqs| && NothingMissing(t, first)
  {
    hide DeclOf, ForbidsNull, Stored, DistinctNames;
    var fields, cols := FieldsOf(t.members), FieldColumns(t, first.seqs);
    if |row| == |cols| {
      forall k | 0 <= k < |t.members|
        ensures ForbidsNull(fields[k].decl) <==> NeedsValue(t.members[k])
        ensures Stored(cols, row, fields[k].name).Some? <==> k in first.seqs
      {
        DeclForbidsNull(t.members[k]);
        assert forall i :: 0 <= i < |first.seqs| ==> Assignable(t, first, first.seqs[i]);
        if k in first.seqs { StoredSome(t, first.seqs, row, k); } else { StoredNone(t, first.seqs, row, k); }
      }
    }
  }

  // The fetched object has the assigned values; other text is unset and other numbers are zero.
  predicate Restored(t: Table, o: Obj, fetched: map<nat, Value>) {
    forall k :: 0 <= k < |t.members| ==>
      Lookup(fetched, k) ==
        if Assignment(o, k).Some? then Assignment(o, k)
        else if TextType(t.members[k].ytype) then None
        else Some(IntVal(0))
  }

  lemma {:induction false} CellFits(t: Table, o: Obj, cells: Cells, k: nat)
    requires WellFormedObj(t, o) && AllFit(t, o) && CellsAre(t, o, cells) && k < |t.members|
    ensures RightKind(t.members[k].ytype, Cell(cells, k))
    ensures Assignment(o, k).Some? ==> Fetched(t.members[k].ytype, Cell(cells, k)) == Assignment(o, k)
  {
    if Assignment(o, k).Some? {
      var i :| 0 <= i < |o.seqs| && o.seqs[i] == k;
      assert InRange(t.members[k].ytype, o.values[k]);
    }
  }

  lemma {:induction false} FetchRestores(t: Table, o: Obj, cells: Cells, fetched: map<nat, Value>)
    requires WellFormedObj(t, o) && AllFit(t, o) && CellsAre(t, o, cells)
    ensures RowHolds(t.members, cells)
    ensures FetchedInto(t.members, cells, |t.members|, map[], fetched) ==> Restored(t, o, fetched)
  {
    forall k | 0 <= k < |t.members|
      ensures RightKind(t.members[k].ytype, Cell(cells, k))
      ensures Assignment(o, k).Some? ==> Fetched(t.members[k].ytype, Cell(cells, k)) == Assignment(o, k)
    {
      CellFits(t, o, cells, k);
    }
  }

  /** Insert a list of objects into a table that takes them and read the k-th back with any SELECT into
      the same struct: when it has the members of the first one assigned, every assigned member comes
      back with its value, every other as NULL is fetched. */
  lemma {:induction false} InsertThenFetch(t: Table, os: seq<Obj>, k: nat, c: ReadCond, cells: Cells, fetched: map<nat, Value>)
    requires Insertable(t, os) && k < |os| && os[k].seqs == os[0].seqs && AllFit(t, os[k])
    requires WellFormed(c) && !QueryThrows(c) && NamesIn(c) && TailOf(NamedConds(c), 1).Some?
    requires c.ret == Rows(t) && Creatable(t) && AllFetchable(t.members, 0)
    requires Takes(ParseCreate(Lex(CreateText(t))), ParseText(InsertText(t, os) + ";"))
    requires cells == CellsOf(ParseText(InsertText(t, os) + ";"), k,
                              ResultNames(ParseText(QueryText(c) + ";"), ParseCreate(Lex(CreateText(TableRead(c))))))
    ensures NothingMissing(t, os[k]) && RowHolds(t.members, cells)
    ensures FetchedInto(t.members, cells, |t.members|, map[], fetched) ==> Restored(t, os[k], fetched)
  {
    hide ParseCreate, CreateText, ParseText, InsertText, QueryText, Takes, InsertNames;
    InsertTakenIff(t, os);
    ColumnAlignment(c, t);
    CellsOfObject(t, os, k);
    FetchRestores(t, os[k], cells, fetched);
  }
}

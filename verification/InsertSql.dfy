/** INSERT of one object or a list of objects, with the values printed into the text. */
module InsertSql {
  import opened YanTypes
  import opened Strings
  import opened SqlLexer
  import opened SqlGrammar
  import opened QueryModel
  import opened SqlText
  import opened SqlPhrase
  import opened SqlRoundTrip
  import opened MakeSql

  /******* Values as text *******/

  function DigitChar(d: nat): char
    requires d < 10
  {
    ('0' as int + d) as char
  }

  // `std::to_string` of an integer.
  function Digits(n: nat): (s: string)
    ensures s != "" && '0' <= s[0] <= '9'
  {
    if n < 10 then [DigitChar(n)] else Digits(n / 10) + [DigitChar(n % 10)]
  }

  function IntText(n: int): string {
    if n < 0 then "-" + Digits(-n) else Digits(n)
  }

  // The number a database reads; letters count as nothing in particular.
  function ReadDigits(s: string): int {
    if s == "" then 0 else 10 * ReadDigits(s[..|s| - 1]) + (s[|s| - 1] as int - '0' as int)
  }

  function ReadInt(s: string): int {
    if s != "" && s[0] == '-' then -ReadDigits(s[1..]) else ReadDigits(s)
  }

  function ValueText(v: Value): string {
    match v
    case IntVal(n) => IntText(n)
    case StrVal(s) => "'" + s + "'"
  }

  function LiteralOf(v: Value): Literal {
    match v
    case IntVal(n) => NumberText(IntText(n))
    case StrVal(s) => StringText(s)
  }

  function ReadLiteral(l: Literal): Value {
    match l
    case NumberText(s) => IntVal(ReadInt(s))
    case StringText(s) => StrVal(s)
  }

  lemma {:induction false} DigitsReadBack(n: nat)
    ensures ReadDigits(Digits(n)) == n
  {
    var s := Digits(n);
    if n < 10 {
      assert s[..|s| - 1] == "";
    } else {
      DigitsReadBack(n / 10);
      assert s[..|s| - 1] == Digits(n / 10);
    }
  }

  lemma {:induction false} DigitsAreDigits(n: nat)
    ensures forall i :: 0 <= i < |Digits(n)| ==> '0' <= Digits(n)[i] <= '9'
  {
    if n >= 10 { DigitsAreDigits(n / 10); }
  }

  lemma SpellStart(k: Keyword)
    ensures 'A' <= Spell(k)[0] <= 'Z'
  {
  }

  lemma IntTextIsName(n: int)
    ensures IsName(IntText(n))
  {
    DigitsAreDigits(if n < 0 then -n else n);
    if Reserved(IntText(n)) {
      var k: Keyword :| Spell(k) == IntText(n);
      SpellStart(k);
      assert false;
    }
  }

  /** What is printed for a value reads back as that value. */
  lemma ValueReadsBack(v: Value)
    ensures ReadLiteral(LiteralOf(v)) == v
  {
    if v.IntVal? {
      DigitsReadBack(if v.n < 0 then -v.n else v.n);
      if v.n < 0 { assert IntText(v.n)[1..] == Digits(-v.n); }
    }
  }

  /******* The text *******/

  // `seqs` is the ordered set of assigned members (the object's `seqset_`), with their values.
  datatype Obj = Obj(seqs: seq<nat>, values: map<nat, Value>)

  predicate Ascending(s: seq<nat>) {
    forall i, j :: 0 <= i < j < |s| ==> s[i] < s[j]
  }

  predicate WellFormedObj(t: Table, o: Obj) {
    && Ascending(o.seqs)
    && forall i :: 0 <= i < |o.seqs| ==> Assignable(t, o, o.seqs[i])
  }

  predicate Assignable(t: Table, o: Obj, s: nat) {
    s < |t.members| && s in o.values && !t.members[s].ytype.List?
  }

  predicate AllObjs(t: Table, os: seq<Obj>) {
    forall i :: 0 <= i < |os| ==> WellFormedObj(t, os[i])
  }

  function FieldColumns(t: Table, seqs: seq<nat>): (cs: seq<Column>)
    requires forall i :: 0 <= i < |seqs| ==> seqs[i] < |t.members|
    ensures |cs| == |seqs|
  {
    if seqs == [] then [] else [Column("", t.members[seqs[0]].name)] + FieldColumns(t, seqs[1..])
  }

  function ValuesOf(seqs: seq<nat>, values: map<nat, Value>): (vs: seq<Value>)
    requires forall i :: 0 <= i < |seqs| ==> seqs[i] in values
    ensures |vs| == |seqs|
  {
    if seqs == [] then [] else [values[seqs[0]]] + ValuesOf(seqs[1..], values)
  }

  function RowOf(o: Obj): seq<Value>
    requires forall i :: 0 <= i < |o.seqs| ==> o.seqs[i] in o.values
  {
    ValuesOf(o.seqs, o.values)
  }

  function RowsOf(t: Table, os: seq<Obj>): (rows: seq<seq<Value>>)
    requires AllObjs(t, os)
    ensures |rows| == |os|
  {
    if os == [] then [] else [RowOf(os[0])] + RowsOf(t, os[1..])
  }

  function ValuesText(vs: seq<Value>): string {
    if vs == [] then ""
    else if |vs| == 1 then ValueText(vs[0])
    else ValueText(vs[0]) + ", " + ValuesText(vs[1..])
  }

  function RowText(vs: seq<Value>): string {
    "(" + ValuesText(vs) + ")"
  }

  function RowsText(rows: seq<seq<Value>>): string {
    if rows == [] then ""
    else if |rows| == 1 then RowText(rows[0])
    else RowText(rows[0]) + ", " + RowsText(rows[1..])
  }

  /** The columns are those of the first object; every object adds a row.  No object, no text. */
  function InsertText(t: Table, os: seq<Obj>): string
    requires AllObjs(t, os)
  {
    if os == [] then ""
    else IntoText(t.name, Listed(FieldColumns(t, os[0].seqs))) + ("VALUES " + RowsText(RowsOf(t, os)))
  }

  /******* Its tokens *******/

  function ValueToken(v: Value): Token {
    match v
    case IntVal(n) => Word(IntText(n))
    case StrVal(s) => Str(s)
  }

  function ValuesPhrase(vs: seq<Value>, rest: Phrase): Phrase {
    if vs == [] then rest
    else if |vs| == 1 then Say(ValueToken(vs[0]), rest)
    else Say(ValueToken(vs[0]), Comma(ValuesPhrase(vs[1..], rest)))
  }

  function RowPhrase(vs: seq<Value>, rest: Phrase): Phrase {
    Say(Sym('('), ValuesPhrase(vs, Say(Sym(')'), rest)))
  }

  function RowsPhrase(rows: seq<seq<Value>>, rest: Phrase): Phrase {
    if rows == [] then rest
    else if |rows| == 1 then RowPhrase(rows[0], rest)
    else RowPhrase(rows[0], Comma(RowsPhrase(rows[1..], rest)))
  }

  function ValuesTokens(vs: seq<Value>, ts: Tokens): Tokens {
    if vs == [] then ts
    else if |vs| == 1 then Cons(ValueToken(vs[0]), ts)
    else Cons(ValueToken(vs[0]), Cons(Sym(','), ValuesTokens(vs[1..], ts)))
  }

  function RowTokens(vs: seq<Value>, ts: Tokens): Tokens {
    Cons(Sym('('), ValuesTokens(vs, Cons(Sym(')'), ts)))
  }

  function RowsTokens(rows: seq<seq<Value>>, ts: Tokens): Tokens {
    if rows == [] then ts
    else if |rows| == 1 then RowTokens(rows[0], ts)
    else RowTokens(rows[0], Cons(Sym(','), RowsTokens(rows[1..], ts)))
  }

  predicate Quotable(vs: seq<Value>) {
    vs == [] || ((vs[0].StrVal? ==> QuoteFree(vs[0].s)) && Quotable(vs[1..]))
  }

  predicate AllQuotable(rows: seq<seq<Value>>) {
    rows == [] || (Quotable(rows[0]) && AllQuotable(rows[1..]))
  }

  lemma PrintValue(v: Value, ps: Phrase, text: string, rest: Phrase)
    requires (v.StrVal? ==> QuoteFree(v.s)) && Prints(ps, text, rest) && Loose(ps)
    ensures Prints(Say(ValueToken(v), ps), ValueText(v) + text, rest)
  {
    if v.IntVal? { IntTextIsName(v.n); }
    PrintPiece(Tok(ValueToken(v)), ps, text, rest);
  }

  lemma {:induction false} PrintValues(vs: seq<Value>, ps: Phrase, text: string, rest: Phrase)
    requires Quotable(vs) && Prints(ps, text, rest) && Loose(ps)
    ensures Prints(ValuesPhrase(vs, ps), ValuesText(vs) + text, rest)
    ensures TokensOf(ValuesPhrase(vs, ps)) == ValuesTokens(vs, TokensOf(ps))
  {
    if vs == [] {
      assert "" + text == text;
    } else if |vs| == 1 {
      PrintValue(vs[0], ps, text, rest);
    } else {
      var more, moreText := ValuesPhrase(vs[1..], ps), ValuesText(vs[1..]);
      PrintValues(vs[1..], ps, text, rest);
      PrintComma(more, moreText + text, rest);
      PrintValue(vs[0], Comma(more), ", " + (moreText + text), rest);
      Assoc4(ValueText(vs[0]), ", ", moreText, text);
    }
  }

  lemma {:induction false} PrintRow(vs: seq<Value>, ps: Phrase, text: string, rest: Phrase)
    requires Quotable(vs) && Prints(ps, text, rest)
    ensures Prints(RowPhrase(vs, ps), RowText(vs) + text, rest)
    ensures TokensOf(RowPhrase(vs, ps)) == RowTokens(vs, TokensOf(ps))
  {
    var close := Say(Sym(')'), ps);
    PrintPiece(Tok(Sym(')')), ps, text, rest);
    PrintValues(vs, close, ")" + text, rest);
    PrintPiece(Tok(Sym('(')), ValuesPhrase(vs, close), ValuesText(vs) + (")" + text), rest);
    Assoc4("(", ValuesText(vs), ")", text);
  }

  lemma {:induction false} PrintRows(rows: seq<seq<Value>>, ps: Phrase, text: string, rest: Phrase)
    requires AllQuotable(rows) && Prints(ps, text, rest) && Loose(ps)
    ensures Prints(RowsPhrase(rows, ps), RowsText(rows) + text, rest)
    ensures TokensOf(RowsPhrase(rows, ps)) == RowsTokens(rows, TokensOf(ps))
  {
    if rows == [] {
      assert "" + text == text;
    } else if |rows| == 1 {
      PrintRow(rows[0], ps, text, rest);
    } else {
      var more, moreText := RowsPhrase(rows[1..], ps), RowsText(rows[1..]);
      PrintRows(rows[1..], ps, text, rest);
      PrintComma(more, moreText + text, rest);
      PrintRow(rows[0], Comma(more), ", " + (moreText + text), rest);
      Assoc4(RowText(rows[0]), ", ", moreText, text);
    }
  }

  /******* Parsing it back *******/

  function Literals(vs: seq<Value>): (ls: seq<Literal>)
    ensures |ls| == |vs|
  {
    if vs == [] then [] else [LiteralOf(vs[0])] + Literals(vs[1..])
  }

  function LiteralRows(rows: seq<seq<Value>>): (ls: seq<seq<Literal>>)
    ensures |ls| == |rows|
  {
    if rows == [] then [] else [Literals(rows[0])] + LiteralRows(rows[1..])
  }

  predicate NoEmptyRow(rows: seq<seq<Value>>) {
    rows == [] || (rows[0] != [] && NoEmptyRow(rows[1..]))
  }

  lemma {:induction false} ParseLiteralsOf(vs: seq<Value>, ts: Tokens)
    requires vs != [] && !Starts(ts, Sym(','))
    ensures ParseLiterals(ValuesTokens(vs, ts)) == Read(Literals(vs), ts, 0)
  {
    if |vs| == 1 {
      assert Literals(vs) == [LiteralOf(vs[0])];
    } else {
      ParseLiteralsOf(vs[1..], ts);
    }
  }

  // An empty row is "()", which is not SQL.
  lemma {:induction false} ParseRowOf(vs: seq<Value>, ts: Tokens)
    ensures ParseRow(RowTokens(vs, ts)) == if vs == [] then Unread else Read(Literals(vs), ts, 0)
  {
    if vs != [] { ParseLiteralsOf(vs, Cons(Sym(')'), ts)); }
  }

  lemma {:induction false} ParseRowsOf(rows: seq<seq<Value>>, ts: Tokens)
    requires rows != [] && !Starts(ts, Sym(','))
    ensures ParseRows(RowsTokens(rows, ts)) ==
            if NoEmptyRow(rows) then Read(LiteralRows(rows), ts, 0) else Unread
  {
    if |rows| == 1 {
      ParseRowOf(rows[0], ts);
      assert LiteralRows(rows) == [Literals(rows[0])] && NoEmptyRow(rows[1..]);
    } else {
      ParseRowOf(rows[0], Cons(Sym(','), RowsTokens(rows[1..], ts)));
      ParseRowsOf(rows[1..], ts);
    }
  }

  lemma {:induction false} ParseValuesAt(into: string, cols: Columns, more: Tokens)
    requires ColumnsAreNames(cols) && Unqualified(cols) && !NoColumns(cols)
    ensures ParseAny(IntoTokens(into, cols, Cons(Key(VALUES), more))) ==
      match ParseRows(more)
      case Unread => Unread
      case Read(rows, rest, _) => Read(Insert(into, cols, rows), rest, 1)
  {
    var values := Cons(Sym(')'), Cons(Key(VALUES), more));
    ParseIntoStart(into, cols, values.tail);
    assert StartsTwo(values, Sym(')'), Key(VALUES));
    ParseColumnsOf(cols, values);
  }

  predicate InsertNames(t: Table, os: seq<Obj>)
    requires AllObjs(t, os)
  {
    && IsName(t.name) && AllQuotable(RowsOf(t, os))
    && forall i :: 0 <= i < |t.members| ==> IsName(t.members[i].name)
  }

  lemma {:induction false} FieldColumnsAre(t: Table, seqs: seq<nat>)
    requires forall i :: 0 <= i < |seqs| ==> seqs[i] < |t.members|
    ensures forall i :: 0 <= i < |seqs| ==> FieldColumns(t, seqs)[i] == Column("", t.members[seqs[i]].name)
  {
    if seqs != [] { FieldColumnsAre(t, seqs[1..]); }
  }

  lemma {:induction false} LexInsert(t: Table, os: seq<Obj>)
    requires AllObjs(t, os) && InsertNames(t, os) && os != [] && os[0].seqs != []
    ensures Lex(InsertText(t, os) + ";") ==
            IntoTokens(t.name, Listed(FieldColumns(t, os[0].seqs)), Cons(Key(VALUES), RowsTokens(RowsOf(t, os), END)))
  {
    var cols, rows := Listed(FieldColumns(t, os[0].seqs)), RowsOf(t, os);
    var body := RowsPhrase(rows, STOP);
    FieldColumnsAre(t, os[0].seqs);
    PrintNothing(STOP);
    PrintRows(rows, STOP, "", STOP);
    NoMore(RowsText(rows));
    PrintLead(VALUES, body, RowsText(rows), STOP);
    PrintInto(t.name, cols, Lead(VALUES, body), "VALUES " + RowsText(rows), STOP);
    LexStatement(IntoPhrase(t.name, cols, Lead(VALUES, body)), InsertText(t, os));
  }

  lemma NoMore(s: string)
    ensures s + "" == s && Spell(VALUES) + " " == "VALUES "
  {
  }

  /** The text of an INSERT parses to the first object's columns and one row for each object, in
      order; it is not SQL exactly when some object has nothing assigned. */
  lemma {:induction false} InsertRoundTrip(t: Table, os: seq<Obj>)
    requires AllObjs(t, os) && InsertNames(t, os) && os != [] && os[0].seqs != []
    ensures ParseText(InsertText(t, os) + ";") ==
      if NoEmptyRow(RowsOf(t, os))
      then Some(Insert(t.name, Listed(FieldColumns(t, os[0].seqs)), LiteralRows(RowsOf(t, os))))
      else None
  {
    LexInsert(t, os);
    FieldColumnsAre(t, os[0].seqs);
    ParseValuesAt(t.name, Listed(FieldColumns(t, os[0].seqs)), RowsTokens(RowsOf(t, os), END));
    ParseRowsOf(RowsOf(t, os), END);
  }

  /******* What a row stores *******/

  // The value a row puts into a column.
  function Stored(cols: seq<Column>, row: seq<Literal>, name: string): Option<Value> {
    if cols == [] || row == [] then None
    else if cols[0].name == name then Some(ReadLiteral(row[0]))
    else Stored(cols[1..], row[1..], name)
  }

  // The row has a value for every column, and stores in the column of each member exactly what the
  // object has assigned to that member.
  predicate StoresObject(t: Table, cols: seq<Column>, row: seq<Literal>, o: Obj) {
    && |cols| == |row|
    && forall s :: 0 <= s < |t.members| ==>
         Stored(cols, row, t.members[s].name) == (if s in o.seqs && s in o.values then Some(o.values[s]) else None)
  }

  predicate DistinctNames(t: Table) {
    forall i, j :: 0 <= i < j < |t.members| ==> t.members[i].name != t.members[j].name
  }

  lemma {:induction false} StoredNone(t: Table, seqs: seq<nat>, row: seq<Literal>, s: nat)
    requires DistinctNames(t) && s < |t.members| && s !in seqs
    requires forall i :: 0 <= i < |seqs| ==> seqs[i] < |t.members|
    ensures Stored(FieldColumns(t, seqs), row, t.members[s].name).None?
  {
    if seqs != [] && row != [] {
      assert seqs[0] in seqs && seqs[0] != s;
      StoredNone(t, seqs[1..], row[1..], s);
    }
  }

  lemma {:induction false} StoredSome(t: Table, seqs: seq<nat>, row: seq<Literal>, s: nat)
    requires DistinctNames(t) && s < |t.members| && s in seqs && |row| == |seqs|
    requires forall i :: 0 <= i < |seqs| ==> seqs[i] < |t.members|
    ensures Stored(FieldColumns(t, seqs), row, t.members[s].name).Some?
  {
    if seqs[0] != s { StoredSome(t, seqs[1..], row[1..], s); }
  }

  lemma {:induction false} StoredValue(t: Table, seqs: seq<nat>, values: map<nat, Value>, s: nat)
    requires DistinctNames(t) && s < |t.members| && s in seqs
    requires forall i :: 0 <= i < |seqs| ==> seqs[i] < |t.members| && seqs[i] in values
    ensures s in values
    ensures Stored(FieldColumns(t, seqs), Literals(ValuesOf(seqs, values)), t.members[s].name) == Some(values[s])
  {
    ValueReadsBack(values[seqs[0]]);
    if seqs[0] != s { StoredValue(t, seqs[1..], values, s); }
  }

  // Ascending sequences with the same elements are the same.
  lemma {:induction false} SameElements(a: seq<nat>, b: seq<nat>)
    requires Ascending(a) && Ascending(b) && forall s: nat :: s in a <==> s in b
    ensures a == b
  {
    SameEmpty(a, b);
    SameEmpty(b, a);
    if a != [] {
      assert a[0] in a && a[0] in b && b[0] in b && b[0] in a;
      forall s: nat ensures s in a[1..] <==> s in b[1..] {
        assert s in a[1..] <==> s in a && s != a[0];
        assert s in b[1..] <==> s in b && s != b[0];
      }
      SameElements(a[1..], b[1..]);
    }
  }

  lemma SameEmpty(a: seq<nat>, b: seq<nat>)
    requires forall s: nat :: s in a ==> s in b
    ensures b == [] ==> a == []
  {
    if a != [] { assert a[0] in b; }
  }

  /** The row of a later object stores that object exactly when it has the same members assigned as
      the first one, whose columns head the statement; otherwise values go to wrong columns, or the
      row does not fit. */
  lemma {:induction false} RowMeaning(t: Table, first: Obj, o: Obj)
    requires DistinctNames(t) && WellFormedObj(t, first) && WellFormedObj(t, o)
    ensures StoresObject(t, FieldColumns(t, first.seqs), Literals(RowOf(o)), o) <==> first.seqs == o.seqs
  {
    var cols, row := FieldColumns(t, first.seqs), Literals(RowOf(o));
    if first.seqs == o.seqs {
      forall s | 0 <= s < |t.members|
        ensures Stored(cols, row, t.members[s].name) == (if s in o.seqs && s in o.values then Some(o.values[s]) else None)
      {
        if s in o.seqs { StoredValue(t, o.seqs, o.values, s); } else { StoredNone(t, o.seqs, row, s); }
      }
    } else if StoresObject(t, cols, row, o) {
      forall s: nat ensures s in first.seqs <==> s in o.seqs {
        if s < |t.members| {
          if s in first.seqs { StoredSome(t, first.seqs, row, s); } else { StoredNone(t, first.seqs, row, s); }
          if s in o.seqs { StoredValue(t, o.seqs, o.values, s); }
        }
      }
      SameElements(first.seqs, o.seqs);
    }
  }

  predicate InsertMeans(q: Option<Statement>, t: Table, os: seq<Obj>, k: nat) {
    && q.Some? && q.value.Insert? && q.value.into == t.name && q.value.columns.Listed?
    && |q.value.rows| == |os| && k < |os|
    && (StoresObject(t, q.value.columns.columns, q.value.rows[k], os[k]) <==> os[k].seqs == os[0].seqs)
  }

  lemma {:induction false} LiteralRowAt(rows: seq<seq<Value>>, k: nat)
    requires k < |rows|
    ensures LiteralRows(rows)[k] == Literals(rows[k])
  {
    if k > 0 { LiteralRowAt(rows[1..], k - 1); }
  }

  lemma {:induction false} RowsAt(t: Table, os: seq<Obj>, k: nat)
    requires AllObjs(t, os) && k < |os|
    ensures RowsOf(t, os)[k] == RowOf(os[k])
  {
    if k > 0 { RowsAt(t, os[1..], k - 1); }
  }

  /** From objects to stored rows: parsed, the k-th row stores the k-th object exactly when that
      object has the members of the first one assigned. */
  lemma {:induction false} InsertMeaning(t: Table, os: seq<Obj>, k: nat)
    requires AllObjs(t, os) && InsertNames(t, os) && DistinctNames(t)
    requires k < |os| && os[0].seqs != [] && NoEmptyRow(RowsOf(t, os))
    ensures InsertMeans(ParseText(InsertText(t, os) + ";"), t, os, k)
  {
    InsertRoundTrip(t, os);
    LiteralRowAt(RowsOf(t, os), k);
    RowsAt(t, os, k);
    RowMeaning(t, os[0], os[k]);
  }

  /******* The generator *******/

  // A struct member has no column: its reader throws.
  predicate HasStruct(t: Table, o: Obj, i: nat)
    requires WellFormedObj(t, o) && i <= |o.seqs|
    decreases |o.seqs| - i
  {
    i < |o.seqs| && (t.members[o.seqs[i]].ytype.Struct? || HasStruct(t, o, i + 1))
  }

  predicate SomeStruct(t: Table, os: seq<Obj>, i: nat)
    requires AllObjs(t, os) && i <= |os|
    decreases |os| - i
  {
    i < |os| && (HasStruct(t, os[i], 0) || SomeStruct(t, os, i + 1))
  }

  predicate InsertThrows(t: Table, os: seq<Obj>)
    requires AllObjs(t, os)
  {
    os != [] && (os[0].seqs == [] || SomeStruct(t, os, 0))
  }

  // A struct member is assigned in the object.
  predicate AssignsStruct(t: Table, o: Obj)
    requires WellFormedObj(t, o)
  {
    exists i :: 0 <= i < |o.seqs| && t.members[o.seqs[i]].ytype.Struct?
  }

  lemma {:induction false} HasStructIff(t: Table, o: Obj, i: nat)
    requires WellFormedObj(t, o) && i <= |o.seqs|
    ensures HasStruct(t, o, i) <==> exists j :: i <= j < |o.seqs| && t.members[o.seqs[j]].ytype.Struct?
    decreases |o.seqs| - i
  {
    if i < |o.seqs| { HasStructIff(t, o, i + 1); }
  }

  lemma {:induction false} SomeStructIff(t: Table, os: seq<Obj>, i: nat)
    requires AllObjs(t, os) && i <= |os|
    ensures SomeStruct(t, os, i) <==> exists k :: i <= k < |os| && AssignsStruct(t, os[k])
    decreases |os| - i
  {
    if i < |os| {
      HasStructIff(t, os[i], 0);
      SomeStructIff(t, os, i + 1);
    }
  }

  /** Making an INSERT throws exactly when the first object has nothing assigned, or some object has a
      struct assigned. */
  lemma InsertThrowsIff(t: Table, os: seq<Obj>)
    requires AllObjs(t, os)
    ensures InsertThrows(t, os) <==> os != [] && (os[0].seqs == [] || exists k :: 0 <= k < |os| && AssignsStruct(t, os[k]))
  {
    SomeStructIff(t, os, 0);
  }

  // The text of one object.
  function FirstText(t: Table, o: Obj): string
    requires WellFormedObj(t, o)
  {
    IntoText(t.name, Listed(FieldColumns(t, o.seqs))) + "VALUES " + RowText(RowOf(o))
  }

  // What the loops over members and over objects still have to append.
  function FieldsFrom(t: Table, seqs: seq<nat>, i: nat): string
    requires i <= |seqs| && forall i :: 0 <= i < |seqs| ==> seqs[i] < |t.members|
    decreases |seqs| - i
  {
    if i == |seqs| then "" else Item(", ", i, t.members[seqs[i]].name) + FieldsFrom(t, seqs, i + 1)
  }

  function ValuesFrom(seqs: seq<nat>, values: map<nat, Value>, i: nat): string
    requires i <= |seqs| && forall i :: 0 <= i < |seqs| ==> seqs[i] in values
    decreases |seqs| - i
  {
    if i == |seqs| then "" else Item(", ", i, ValueText(values[seqs[i]])) + ValuesFrom(seqs, values, i + 1)
  }

  lemma {:induction false} FieldsFromIs(t: Table, seqs: seq<nat>, i: nat)
    requires i < |seqs| && forall i :: 0 <= i < |seqs| ==> seqs[i] < |t.members|
    ensures FieldsFrom(t, seqs, i) == Item(", ", i, ColumnListText(FieldColumns(t, seqs[i..])))
    decreases |seqs| - i
  {
    assert seqs[i..][1..] == seqs[i + 1..];
    var name := t.members[seqs[i]].name;
    Empty(Item(", ", i, name));
    if i + 1 < |seqs| {
      FieldsFromIs(t, seqs, i + 1);
      Separate(", ", name, ", ", ColumnListText(FieldColumns(t, seqs[i + 1..])));
    }
  }

  lemma {:induction false} ValuesFromIs(seqs: seq<nat>, values: map<nat, Value>, i: nat)
    requires i < |seqs| && forall i :: 0 <= i < |seqs| ==> seqs[i] in values
    ensures ValuesFrom(seqs, values, i) == Item(", ", i, ValuesText(ValuesOf(seqs[i..], values)))
    decreases |seqs| - i
  {
    assert seqs[i..][1..] == seqs[i + 1..];
    var text := ValueText(values[seqs[i]]);
    Empty(Item(", ", i, text));
    if i + 1 < |seqs| {
      ValuesFromIs(seqs, values, i + 1);
      Separate(", ", text, ", ", ValuesText(ValuesOf(seqs[i + 1..], values)));
    }
  }

  lemma {:induction false} ObjectTexts(t: Table, o: Obj)
    requires WellFormedObj(t, o)
    ensures FieldsFrom(t, o.seqs, 0) == ColumnListText(FieldColumns(t, o.seqs))
    ensures ValuesFrom(o.seqs, o.values, 0) == ValuesText(RowOf(o))
  {
    if o.seqs != [] {
      FieldsFromIs(t, o.seqs, 0);
      ValuesFromIs(o.seqs, o.values, 0);
      assert o.seqs[0..] == o.seqs;
    }
  }

  function RowsFrom(t: Table, os: seq<Obj>, i: nat): string
    requires AllObjs(t, os) && i <= |os|
    decreases |os| - i
  {
    if i == |os| then "" else Item(", ", i, RowText(RowOf(os[i]))) + RowsFrom(t, os, i + 1)
  }

  lemma {:induction false} RowsFromIs(t: Table, os: seq<Obj>, i: nat)
    requires AllObjs(t, os) && i < |os|
    ensures RowsFrom(t, os, i) == Item(", ", i, RowsText(RowsOf(t, os[i..])))
    decreases |os| - i
  {
    assert os[i..][1..] == os[i + 1..];
    var text := RowText(RowOf(os[i]));
    Empty(Item(", ", i, text));
    if i + 1 < |os| {
      RowsFromIs(t, os, i + 1);
      Separate(", ", text, ", ", RowsText(RowsOf(t, os[i + 1..])));
    }
  }

  class MakeInsertSql {
    var fields: string
    var values: string
    var appendFirst: bool
    var onlyOne: bool

    constructor ()
      ensures fields == values == "" && appendFirst && onlyOne
    {
      fields, values, appendFirst, onlyOne := "", "", true, true;
    }

    // `SqlContext::reset`: the column list of the first object stays.
    method Reset()
      modifies this
      ensures values == "" && appendFirst && !onlyOne && fields == old(fields)
    {
      values, appendFirst, onlyOne := "", true, false;
    }

    // `ReadMemRef::append` with its `append_value`.
    method AppendMember(name: string, v: Value)
      modifies this
      ensures values == old(values) + Item(", ", if old(appendFirst) then 0 else 1, ValueText(v))
      ensures fields == if onlyOne then old(fields) + Item(", ", if old(appendFirst) then 0 else 1, name) else old(fields)
      ensures !appendFirst && onlyOne == old(onlyOne)
    {
      if !appendFirst {
        if onlyOne { fields := fields + ", "; }
        values := values + ", ";
      } else {
        appendFirst := false;
      }
      if onlyOne { fields := fields + name; }
      values := values + ValueText(v);
      Assoc3(old(fields), ", ", name);
      Assoc3(old(values), ", ", ValueText(v));
    }

    // `assign_value`: the assigned members in order; false stands for the thrown exception.
    method AppendObject(t: Table, o: Obj) returns (ok: bool)
      requires WellFormedObj(t, o) && appendFirst
      modifies this
      ensures ok == !HasStruct(t, o, 0)
      ensures ok ==> values == old(values) + ValuesText(RowOf(o)) && appendFirst == (o.seqs == [])
      ensures ok ==> fields == if onlyOne then old(fields) + ColumnListText(FieldColumns(t, o.seqs)) else old(fields)
      ensures onlyOne == old(onlyOne)
    {
      ObjectTexts(t, o);
      ok := AppendMembers(t, o);
    }

    // `member_ref` of the i-th assigned member: what was pending moves to the buffers.
    method AppendAt(t: Table, o: Obj, i: nat)
      requires WellFormedObj(t, o) && i < |o.seqs| && appendFirst == (i == 0)
      modifies this
      ensures values + ValuesFrom(o.seqs, o.values, i + 1) == old(values) + ValuesFrom(o.seqs, o.values, i)
      ensures onlyOne ==> fields + FieldsFrom(t, o.seqs, i + 1) == old(fields) + FieldsFrom(t, o.seqs, i)
      ensures !onlyOne ==> fields == old(fields)
      ensures !appendFirst && onlyOne == old(onlyOne)
    {
      ghost var name, text := t.members[o.seqs[i]].name, ValueText(o.values[o.seqs[i]]);
      Assoc3(values, Item(", ", i, text), ValuesFrom(o.seqs, o.values, i + 1));
      Assoc3(fields, Item(", ", i, name), FieldsFrom(t, o.seqs, i + 1));
      AppendMember(t.members[o.seqs[i]].name, o.values[o.seqs[i]]);
    }

    method AppendMembers(t: Table, o: Obj) returns (ok: bool)
      requires WellFormedObj(t, o) && appendFirst
      modifies this
      ensures ok == !HasStruct(t, o, 0)
      ensures ok ==> values == old(values) + ValuesFrom(o.seqs, o.values, 0) && appendFirst == (o.seqs == [])
      ensures ok ==> fields == if onlyOne then old(fields) + FieldsFrom(t, o.seqs, 0) else old(fields)
      ensures onlyOne == old(onlyOne)
    {
      hide Item, ValueText;
      ghost var columns, row := fields + FieldsFrom(t, o.seqs, 0), values + ValuesFrom(o.seqs, o.values, 0);
      var i := 0;
      while i < |o.seqs|
        invariant 0 <= i <= |o.seqs| && appendFirst == (i == 0) && onlyOne == old(onlyOne)
        invariant HasStruct(t, o, 0) == HasStruct(t, o, i)
        invariant values + ValuesFrom(o.seqs, o.values, i) == row
        invariant if onlyOne then fields + FieldsFrom(t, o.seqs, i) == columns else fields == old(fields)
      {
        if t.members[o.seqs[i]].ytype.Struct? { return false; }
        AppendAt(t, o, i);
        i := i + 1;
      }
      Empty(values);
      Empty(fields);
      ok := true;
    }

    // `make` of one object, with `create`.
    method MakeOne(t: Table, o: Obj) returns (r: Result<string>)
      requires WellFormedObj(t, o) && fields == values == "" && appendFirst && onlyOne
      modifies this
      ensures r.Thrown? == (HasStruct(t, o, 0) || o.seqs == [])
      ensures r.Ok? ==> r.value == FirstText(t, o)
    {
      hide HasStruct, ValuesText, ColumnListText;
      Empty(ValuesText(RowOf(o)));
      Empty(ColumnListText(FieldColumns(t, o.seqs)));
      var ok := AppendObject(t, o);
      if !ok || appendFirst { return Thrown; }
      var text := "INSERT INTO " + t.name + " ";
      text := text + "(" + fields + ") ";
      text := text + "VALUES (" + values + ")";
      InsertShape(t.name, fields, values);
      r := Ok(text);
    }

    // One more object of a list.
    method AppendRow(t: Table, o: Obj, text: string) returns (longer: string, ok: bool)
      requires WellFormedObj(t, o)
      modifies this
      ensures ok == !HasStruct(t, o, 0)
      ensures ok ==> longer == text + Item(", ", 1, RowText(RowOf(o)))
    {
      Reset();
      Empty(ValuesText(RowOf(o)));
      ok := AppendObject(t, o);
      RowShape(text, values);
      longer := text + ", (" + values + ")";
    }

    // The objects after the first.
    method AppendRows(t: Table, os: seq<Obj>, text: string) returns (longer: string, ok: bool)
      requires AllObjs(t, os) && os != []
      modifies this
      ensures ok == !SomeStruct(t, os, 1)
      ensures ok ==> longer == text + RowsFrom(t, os, 1)
    {
      longer := text;
      ghost var goal := text + RowsFrom(t, os, 1);
      var i := 1;
      while i < |os|
        invariant 1 <= i <= |os| && SomeStruct(t, os, 1) == SomeStruct(t, os, i)
        invariant longer + RowsFrom(t, os, i) == goal
      {
        ghost var before, row := longer, RowText(RowOf(os[i]));
        longer, ok := AppendRow(t, os[i], longer);
        if !ok { return; }
        Shift(before, Item(", ", i, row), RowsFrom(t, os, i + 1), goal);
        i := i + 1;
      }
      Empty(longer);
      ok := true;
    }

    /** `make` of a list: every object after the first is printed with fresh flags and the column
        list left alone. */
    method MakeList(t: Table, os: seq<Obj>) returns (r: Result<string>)
      requires AllObjs(t, os) && fields == values == "" && appendFirst && onlyOne
      modifies this
      ensures r.Thrown? == InsertThrows(t, os)
      ensures r.Ok? ==> r.value == InsertText(t, os)
    {
      if |os| == 0 { return Ok(""); }
      r := MakeOne(t, os[0]);
      if r.Thrown? { return; }
      ListStart(t, os);
      var text, ok := AppendRows(t, os, r.value);
      r := if ok then Ok(text) else Thrown;
    }
  }

  lemma {:induction false} ListStart(t: Table, os: seq<Obj>)
    requires AllObjs(t, os) && os != []
    ensures FirstText(t, os[0]) + RowsFrom(t, os, 1) == InsertText(t, os)
  {
    RowsFromIs(t, os, 0);
    assert os[0..] == os;
    Assoc4(IntoText(t.name, Listed(FieldColumns(t, os[0].seqs))), "VALUES ", RowText(RowOf(os[0])), RowsFrom(t, os, 1));
  }

  lemma RowShape(text: string, values: string)
    ensures text + ", (" + values + ")" == text + (", " + ("(" + values + ")"))
  {
    assert ", (" == ", " + "(";
  }

  lemma InsertShape(name: string, fields: string, values: string)
    ensures "INSERT INTO " + name + " " + "(" + fields + ") " + "VALUES (" + values + ")"
         == "INSERT INTO " + name + " (" + fields + ") " + "VALUES " + ("(" + values + ")")
  {
    assert " " + "(" == " (" && "VALUES (" == "VALUES " + "(";
    Assoc4("INSERT INTO ", name, " ", "(");
  }
}

/** The columns of a table: CREATE TABLE, the SELECT list and the cursor that fetches a row. */
module SqlColumns {
  import opened YanTypes
  import opened Strings
  import opened SqlLexer
  import opened SqlGrammar
  import opened QueryModel
  import opened SqlText
  import opened SqlPhrase
  import opened SqlRoundTrip
  import opened MakeSql
  import opened InsertSql

  /******* CREATE TABLE *******/

  // Members that are given a column; struct and list members are passed over.
  function Scalars(ms: seq<Member>): (r: seq<Member>)
    ensures (forall i :: 0 <= i < |ms| ==> IsScalar(ms[i].ytype)) ==> r == ms
    ensures forall i :: 0 <= i < |r| ==> IsScalar(r[i].ytype)
  {
    if ms == [] then []
    else if IsScalar(ms[0].ytype) then [ms[0]] + Scalars(ms[1..])
    else Scalars(ms[1..])
  }

  predicate HasColumnType(m: Member) {
    m.ytype.AutoIncrement? || m.ytype.Date?
    || m.ytype.Int8? || m.ytype.Int16? || m.ytype.Int32? || m.ytype.Int64?
    || (m.ytype.String? && m.length > 0)
  }

  predicate AllColumnTypes(ms: seq<Member>) {
    ms == [] || (HasColumnType(ms[0]) && AllColumnTypes(ms[1..]))
  }

  // No member with a column, or one whose type has no column type.
  predicate CreateThrows(t: Table) {
    Scalars(t.members) == [] || !AllColumnTypes(Scalars(t.members))
  }

  lemma {:induction false} ScalarsAre(ms: seq<Member>)
    ensures forall m :: m in Scalars(ms) <==> m in ms && IsScalar(m.ytype)
  {
    if ms != [] {
      ScalarsAre(ms[1..]);
      assert ms == [ms[0]] + ms[1..];
    }
  }

  lemma {:induction false} AllColumnTypesIff(ms: seq<Member>)
    ensures AllColumnTypes(ms) <==> forall m :: m in ms ==> HasColumnType(m)
  {
    if ms != [] {
      AllColumnTypesIff(ms[1..]);
      assert ms == [ms[0]] + ms[1..];
    }
  }

  /** Making a CREATE TABLE throws exactly when no member has a column, or one that has is of a type without
      a column type; struct and list members are passed over. */
  lemma CreateThrowsIff(t: Table)
    ensures CreateThrows(t) <==>
      (forall m :: m in t.members ==> m.ytype in {Struct, List})
      || exists m :: m in t.members && m.ytype !in {Struct, List} && !HasColumnType(m)
  {
    ScalarsAre(t.members);
    AllColumnTypesIff(Scalars(t.members));
    if Scalars(t.members) != [] { assert Scalars(t.members)[0] in Scalars(t.members); }
    if Scalars(t.members) == [] {
      forall m | m in t.members ensures !IsScalar(m.ytype) { assert m !in Scalars(t.members); }
    }
  }

  function NullText(m: Member): string {
    if m.canBeNull then "" else " NOT NULL"
  }

  function TypeText(m: Member): string {
    if m.ytype.String? then " CHAR(" + IntText(m.length) + ")" + NullText(m) else " INT" + NullText(m)
  }

  function FieldText(m: Member): string {
    m.name + (if m.ytype.AutoIncrement? then " INTEGER PRIMARY_KEY AUTO_INCREMENT" else TypeText(m))
  }

  function DefsText(ms: seq<Member>): string {
    if ms == [] then ""
    else if |ms| == 1 then FieldText(ms[0])
    else FieldText(ms[0]) + ", " + DefsText(ms[1..])
  }

  function CreateText(t: Table): string {
    "CREATE TABLE IF NOT EXISTS " + t.name + " (" + DefsText(Scalars(t.members)) + ") "
  }

  function DefsFrom(ms: seq<Member>, i: nat, first: bool): string
    requires i <= |ms|
    decreases |ms| - i
  {
    if i == |ms| then ""
    else if !IsScalar(ms[i].ytype) then DefsFrom(ms, i + 1, first)
    else (if first then FieldText(ms[i]) else ", " + FieldText(ms[i])) + DefsFrom(ms, i + 1, false)
  }

  lemma {:induction false} DefsFromIs(ms: seq<Member>, i: nat, first: bool)
    requires i <= |ms|
    ensures DefsFrom(ms, i, first) ==
            if first || Scalars(ms[i..]) == [] then DefsText(Scalars(ms[i..]))
            else ", " + DefsText(Scalars(ms[i..]))
    decreases |ms| - i
  {
    if i < |ms| {
      assert ms[i..][1..] == ms[i + 1..] && ms[i..][0] == ms[i];
      var more := Scalars(ms[i + 1..]);
      if IsScalar(ms[i].ytype) {
        DefsFromIs(ms, i + 1, false);
        assert Scalars(ms[i..]) == [ms[i]] + more && ([ms[i]] + more)[1..] == more;
        Empty(FieldText(ms[i]));
        Empty(", " + FieldText(ms[i]));
        Separate(", ", FieldText(ms[i]), ", ", DefsText(more));
      } else {
        DefsFromIs(ms, i + 1, first);
      }
    }
  }

  // Every member from the i-th on that has a column also has a column type.
  predicate TypesFrom(ms: seq<Member>, i: nat)
    requires i <= |ms|
    decreases |ms| - i
  {
    i == |ms| || ((IsScalar(ms[i].ytype) ==> HasColumnType(ms[i])) && TypesFrom(ms, i + 1))
  }

  lemma {:induction false} TypesFromIs(ms: seq<Member>, i: nat)
    requires i <= |ms|
    ensures TypesFrom(ms, i) == AllColumnTypes(Scalars(ms[i..]))
    decreases |ms| - i
  {
    if i < |ms| {
      TypesFromIs(ms, i + 1);
      assert ms[i..][1..] == ms[i + 1..];
      if IsScalar(ms[i].ytype) {
        assert Scalars(ms[i..]) == [ms[i]] + Scalars(ms[i + 1..]);
        assert Scalars(ms[i..])[1..] == Scalars(ms[i + 1..]);
      }
    }
  }

  class MakeTableSql {
    var fields: string
    var appendFirst: bool

    constructor ()
      ensures fields == "" && appendFirst
    {
      fields, appendFirst := "", true;
    }

    // `ReadMemRef::append`; false stands for the thrown exception.
    method Append(m: Member) returns (ok: bool)
      requires IsScalar(m.ytype)
      modifies this
      ensures ok == HasColumnType(m)
      ensures ok == (m.ytype in {Int8, Int16, Int32, Int64, Date, AutoIncrement} || (m.ytype.String? && m.length > 0))
      ensures ok ==> fields == old(fields) + (if old(appendFirst) then FieldText(m) else ", " + FieldText(m))
      ensures ok ==> !appendFirst
    {
      ghost var comma := appendFirst;
      if appendFirst {
        appendFirst := false;
      } else {
        fields := fields + ", ";
      }
      ghost var before := fields;
      fields := fields + m.name;
      if m.ytype.AutoIncrement? {
        fields := fields + " INTEGER PRIMARY_KEY AUTO_INCREMENT";
        Assoc3(before, m.name, " INTEGER PRIMARY_KEY AUTO_INCREMENT");
      } else {
        ok := AppendType(m);
        if !ok { return; }
        Assoc3(before, m.name, TypeText(m));
      }
      Assoc3(old(fields), ", ", FieldText(m));
      ok := true;
    }

    // The type after the name, and NOT NULL.
    method AppendType(m: Member) returns (ok: bool)
      requires IsScalar(m.ytype) && !m.ytype.AutoIncrement?
      modifies this`fields
      ensures ok == HasColumnType(m)
      ensures ok ==> fields == old(fields) + TypeText(m)
    {
      if m.ytype.Int8? || m.ytype.Int16? || m.ytype.Int32? || m.ytype.Int64? || m.ytype.Date? {
        fields := fields + " INT";
        Assoc3(old(fields), " INT", " NOT NULL");
      } else if m.ytype.String? {
        if m.length <= 0 { return false; }
        fields := fields + " CHAR(" + IntText(m.length) + ")";
        Assoc4(old(fields), " CHAR(", IntText(m.length), ")");
        Assoc3(old(fields), " CHAR(" + IntText(m.length) + ")", " NOT NULL");
        Empty(" CHAR(" + IntText(m.length) + ")");
      } else {
        return false;
      }
      if !m.canBeNull { fields := fields + " NOT NULL"; }
      Empty(fields);
      ok := true;
    }

    /** `MakeTableSql::make` */
    method Make(t: Table) returns (r: Result<string>)
      requires fields == "" && appendFirst
      modifies this
      ensures r.Thrown? == CreateThrows(t)
      ensures r.Ok? ==> r.value == CreateText(t)
    {
      ghost var ms := t.members;
      Begin(ms);
      var i := 0;
      while i < |t.members|
        invariant 0 <= i <= |ms|
        invariant AllColumnTypes(Scalars(ms)) == TypesFrom(ms, i)
        invariant fields + DefsFrom(ms, i, appendFirst) == DefsText(Scalars(ms))
        invariant appendFirst == NoneBefore(ms, i)
      {
        if IsScalar(t.members[i].ytype) {
          ghost var before, step := fields, if appendFirst then FieldText(ms[i]) else ", " + FieldText(ms[i]);
          var ok := Append(t.members[i]);
          if !ok { return Thrown; }
          Shift(before, step, DefsFrom(ms, i + 1, false), DefsText(Scalars(ms)));
        }
        i := i + 1;
      }
      Empty(fields);
      NoneBeforeIs(ms, |ms|);
      if appendFirst { return Thrown; }
      var text := "CREATE TABLE IF NOT EXISTS " + t.name + " ";
      text := text + "(" + fields + ") ";
      CreateShape("CREATE TABLE IF NOT EXISTS ", t.name, fields);
      r := Ok(text);
    }
  }

  predicate NoneBefore(ms: seq<Member>, i: nat)
    requires i <= |ms|
  {
    i == 0 || (!IsScalar(ms[i - 1].ytype) && NoneBefore(ms, i - 1))
  }

  lemma {:induction false} NoneBeforeIs(ms: seq<Member>, i: nat)
    requires i <= |ms|
    ensures ms[..|ms|] == ms
    ensures NoneBefore(ms, i) == (Scalars(ms[..i]) == [])
  {
    if i > 0 {
      NoneBeforeIs(ms, i - 1);
      assert ms[..i] == ms[..i - 1] + [ms[i - 1]];
      ScalarsSnoc(ms[..i - 1], ms[i - 1]);
    }
  }

  lemma {:induction false} ScalarsSnoc(ms: seq<Member>, m: Member)
    ensures Scalars(ms + [m]) == Scalars(ms) + (if IsScalar(m.ytype) then [m] else [])
  {
    if ms == [] {
      assert ms + [m] == [m];
    } else {
      assert (ms + [m])[1..] == ms[1..] + [m];
      ScalarsSnoc(ms[1..], m);
    }
  }

  lemma {:induction false} Begin(ms: seq<Member>)
    ensures "" + DefsFrom(ms, 0, true) == DefsText(Scalars(ms))
    ensures TypesFrom(ms, 0) == AllColumnTypes(Scalars(ms))
  {
    DefsFromIs(ms, 0, true);
    TypesFromIs(ms, 0);
    assert ms[0..] == ms;
  }

  lemma CreateShape(create: string, name: string, fields: string)
    ensures create + name + " " + "(" + fields + ") " == create + name + " (" + fields + ") "
  {
    assert " " + "(" == " (";
    assert create + name + " " + "(" == create + name + (" " + "(");
  }

  /******* Parsing it back *******/

  datatype Field = Field(name: string, decl: List<Token>)
  datatype Created = Created(table: string, fields: seq<Field>)

  // The tokens of a declaration: up to the next comma or the closing parenthesis.
  function ParseDecl(ts: Tokens): (r: (List<Token>, Tokens))
    ensures r.1 == ts || r.1 < ts
    decreases ts
  {
    if ts.Nil? || ts.head == Sym(',') || ts.head == Sym(')') then (Nil, ts)
    else if ts.head == Sym('(') && ts.tail.Cons? && Starts(ts.tail.tail, Sym(')')) then
      var more := ParseDecl(ts.tail.tail.tail);
      (Cons(ts.head, Cons(ts.tail.head, Cons(Sym(')'), more.0))), more.1)
    else
      var more := ParseDecl(ts.tail);
      (Cons(ts.head, more.0), more.1)
  }

  function ParseFields(ts: Tokens): Reading<seq<Field>>
    decreases ts
  {
    match ParseName(ts)
    case Unread => Unread
    case Read(name, rest, _) =>
      var d := ParseDecl(rest);
      if Starts(d.1, Sym(',')) then
        match ParseFields(d.1.tail)
        case Unread => Unread
        case Read(fs, rest2, _) => Read([Field(name, d.0)] + fs, rest2, 0)
      else Read([Field(name, d.0)], d.1, 0)
  }

  predicate StartsCreate(ts: Tokens) {
    StartsTwo(ts, Key(CREATE), Key(TABLE)) && StartsTwo(ts.tail.tail, Key(IF), Key(NOT))
    && Starts(ts.tail.tail.tail.tail, Key(EXISTS))
  }

  function ParseCreate(ts: Tokens): Option<Created> {
    if !StartsCreate(ts) then None else
    match ParseName(ts.tail.tail.tail.tail.tail)
    case Unread => None
    case Read(name, rest, _) =>
      if !Starts(rest, Sym('(')) then None else
      match ParseFields(rest.tail)
      case Unread => None
      case Read(fs, rest2, _) => if rest2 == Cons(Sym(')'), Nil) then Some(Created(name, fs)) else None
  }

  function NullDecl(m: Member): List<Token> {
    if m.canBeNull then Nil else Cons(Key(NOT), Cons(Word("NULL"), Nil))
  }

  /** The declaration a member should get. */
  function DeclOf(m: Member): List<Token> {
    if m.ytype.AutoIncrement? then Cons(Word("INTEGER"), Cons(Word("PRIMARY_KEY"), Cons(Word("AUTO_INCREMENT"), Nil)))
    else if m.ytype.String? then
      Cons(Word("CHAR"), Cons(Sym('('), Cons(Word(IntText(m.length)), Cons(Sym(')'), NullDecl(m)))))
    else Cons(Word("INT"), NullDecl(m))
  }

  function FieldOf(m: Member): Field { Field(m.name, DeclOf(m)) }

  function FieldsOf(ms: seq<Member>): (fs: seq<Field>)
    ensures |fs| == |ms|
    ensures forall i :: 0 <= i < |ms| ==> fs[i] == FieldOf(ms[i])
  {
    if ms == [] then [] else [FieldOf(ms[0])] + FieldsOf(ms[1..])
  }

  // The tokens `ds` before `ts`.
  function Before(ds: List<Token>, ts: Tokens): Tokens {
    if ds.Nil? then ts else Cons(ds.head, Before(ds.tail, ts))
  }

  function FieldsTokens(ms: seq<Member>, ts: Tokens): Tokens {
    if ms == [] then ts
    else if |ms| == 1 then Cons(Word(ms[0].name), Before(DeclOf(ms[0]), ts))
    else Cons(Word(ms[0].name), Before(DeclOf(ms[0]), Cons(Sym(','), FieldsTokens(ms[1..], ts))))
  }

  function CreateTokens(name: string, ms: seq<Member>): Tokens {
    Cons(Key(CREATE), Cons(Key(TABLE), Cons(Key(IF), Cons(Key(NOT), Cons(Key(EXISTS),
      Cons(Word(name), Cons(Sym('('), FieldsTokens(ms, Cons(Sym(')'), Nil)))))))))
  }

  lemma {:induction false} BeforeTwo(a: Token, b: Token, ts: Tokens)
    ensures Before(Cons(a, Cons(b, Nil)), ts) == Cons(a, Cons(b, ts))
  {
    assert Before(Cons(b, Nil), ts) == Cons(b, Before(Nil, ts));
  }

  // A word or keyword of a declaration.
  lemma {:induction false} ParsePlain(t: Token, ds: List<Token>, ts: Tokens)
    requires !t.Sym? && ParseDecl(Before(ds, ts)) == (ds, ts)
    ensures ParseDecl(Before(Cons(t, ds), ts)) == (Cons(t, ds), ts)
  {
  }

  lemma {:induction false} ParseLength(w: string, ds: List<Token>, ts: Tokens)
    requires ParseDecl(Before(ds, ts)) == (ds, ts)
    ensures ParseDecl(Before(Cons(Sym('('), Cons(Word(w), Cons(Sym(')'), ds))), ts))
            == (Cons(Sym('('), Cons(Word(w), Cons(Sym(')'), ds))), ts)
  {
    var close := Cons(Sym(')'), ds);
    assert Before(close, ts) == Cons(Sym(')'), Before(ds, ts));
    assert Before(Cons(Word(w), close), ts) == Cons(Word(w), Before(close, ts));
  }

  lemma {:induction false} ParseDeclOf(m: Member, ts: Tokens)
    requires Starts(ts, Sym(',')) || Starts(ts, Sym(')'))
    ensures ParseDecl(Before(DeclOf(m), ts)) == (DeclOf(m), ts)
  {
    assert ParseDecl(Before(Nil, ts)) == (Nil, ts);
    if m.ytype.AutoIncrement? {
      ParsePlain(Word("AUTO_INCREMENT"), Nil, ts);
      ParsePlain(Word("PRIMARY_KEY"), Cons(Word("AUTO_INCREMENT"), Nil), ts);
      ParsePlain(Word("INTEGER"), Cons(Word("PRIMARY_KEY"), Cons(Word("AUTO_INCREMENT"), Nil)), ts);
    } else {
      if !m.canBeNull {
        ParsePlain(Word("NULL"), Nil, ts);
        ParsePlain(Key(NOT), Cons(Word("NULL"), Nil), ts);
      }
      if m.ytype.String? {
        var nulls := NullDecl(m);
        ParseLength(IntText(m.length), nulls, ts);
        ParsePlain(Word("CHAR"), Cons(Sym('('), Cons(Word(IntText(m.length)), Cons(Sym(')'), nulls))), ts);
      } else {
        ParsePlain(Word("INT"), NullDecl(m), ts);
      }
    }
  }

  lemma {:induction false} ParseFieldsOf(ms: seq<Member>, ts: Tokens)
    requires ms != [] && Starts(ts, Sym(')'))
    ensures ParseFields(FieldsTokens(ms, ts)) == Read(FieldsOf(ms), ts, 0)
  {
    if |ms| == 1 {
      ParseDeclOf(ms[0], ts);
      assert FieldsOf(ms) == [FieldOf(ms[0])];
    } else {
      ParseFieldsOf(ms[1..], ts);
      ParseDeclOf(ms[0], Cons(Sym(','), FieldsTokens(ms[1..], ts)));
    }
  }

  /******* Its phrase *******/

  function NullPhrase(m: Member, rest: Phrase): Phrase {
    if m.canBeNull then rest else Gap(Say(Key(NOT), Gap(Say(Word("NULL"), rest))))
  }

  function TypePhrase(m: Member, rest: Phrase): Phrase {
    if m.ytype.AutoIncrement? then
      Gap(Say(Word("INTEGER"), Gap(Say(Word("PRIMARY_KEY"), Gap(Say(Word("AUTO_INCREMENT"), rest))))))
    else if m.ytype.String? then
      Gap(Say(Word("CHAR"), Say(Sym('('), Say(Word(IntText(m.length)), Say(Sym(')'), NullPhrase(m, rest))))))
    else Gap(Say(Word("INT"), NullPhrase(m, rest)))
  }

  function FieldsPhrase(ms: seq<Member>, rest: Phrase): Phrase {
    if ms == [] then rest
    else if |ms| == 1 then Say(Word(ms[0].name), TypePhrase(ms[0], rest))
    else Say(Word(ms[0].name), TypePhrase(ms[0], Comma(FieldsPhrase(ms[1..], rest))))
  }

  lemma TypeNames()
    ensures IsName("INT") && IsName("CHAR") && IsName("NULL")
    ensures IsName("INTEGER") && IsName("PRIMARY_KEY") && IsName("AUTO_INCREMENT")
  {
  }

  // A blank and a word before more text.
  lemma {:induction false} PrintBlankWord(w: string, ps: Phrase, text: string, rest: Phrase)
    requires IsName(w) && Prints(ps, text, rest) && Loose(ps)
    ensures Prints(Gap(Say(Word(w), ps)), " " + w + text, rest)
    ensures TokensOf(Gap(Say(Word(w), ps))) == Cons(Word(w), TokensOf(ps))
  {
    PrintName(w, ps, text, rest);
    PrintPiece(Blank, Say(Word(w), ps), w + text, rest);
    Assoc3(" ", w, text);
  }

  lemma {:induction false} PrintNulls(m: Member, ps: Phrase, text: string, rest: Phrase)
    requires Prints(ps, text, rest) && Loose(ps)
    ensures Prints(NullPhrase(m, ps), NullText(m) + text, rest) && Loose(NullPhrase(m, ps))
    ensures TokensOf(NullPhrase(m, ps)) == Before(NullDecl(m), TokensOf(ps))
  {
    if m.canBeNull {
      Empty(text);
    } else {
      TypeNames();
      PrintBlankWord("NULL", ps, text, rest);
      PrintPiece(Tok(Key(NOT)), Gap(Say(Word("NULL"), ps)), " " + "NULL" + text, rest);
      PrintPiece(Blank, Say(Key(NOT), Gap(Say(Word("NULL"), ps))), Spell(NOT) + (" " + "NULL" + text), rest);
      NotNull(text);
      BeforeTwo(Key(NOT), Word("NULL"), TokensOf(ps));
      assert TokensOf(Say(Key(NOT), Gap(Say(Word("NULL"), ps)))) == Cons(Key(NOT), Cons(Word("NULL"), TokensOf(ps)));
    }
  }

  lemma NotNull(t: string)
    ensures " " + (Spell(NOT) + (" " + "NULL" + t)) == " NOT NULL" + t
  {
    assert " " + Spell(NOT) + " " + "NULL" == " NOT NULL";
  }

  lemma {:induction false} PrintType(m: Member, ps: Phrase, text: string, rest: Phrase)
    requires HasColumnType(m) && Prints(ps, text, rest) && Loose(ps)
    ensures Prints(TypePhrase(m, ps), (if m.ytype.AutoIncrement? then " INTEGER PRIMARY_KEY AUTO_INCREMENT" else TypeText(m)) + text, rest)
    ensures Loose(TypePhrase(m, ps))
    ensures TokensOf(TypePhrase(m, ps)) == Before(DeclOf(m), TokensOf(ps))
  {
    TypeNames();
    if m.ytype.AutoIncrement? {
      PrintAuto(ps, text, rest);
    } else {
      PrintNulls(m, ps, text, rest);
      if m.ytype.String? {
        PrintLength(IntText(m.length), NullPhrase(m, ps), NullText(m) + text, rest);
        LengthBefore(IntText(m.length), NullDecl(m), TokensOf(ps));
        Assoc3(" CHAR(" + IntText(m.length) + ")", NullText(m), text);
      } else {
        PrintBlankWord("INT", NullPhrase(m, ps), NullText(m) + text, rest);
        IntShape(NullText(m), text);
      }
    }
  }

  lemma IntShape(nulls: string, t: string)
    ensures " " + "INT" + (nulls + t) == " INT" + nulls + t
  {
    assert " " + "INT" == " INT";
  }

  lemma {:induction false} LengthBefore(w: string, ds: List<Token>, ts: Tokens)
    ensures Before(Cons(Word("CHAR"), Cons(Sym('('), Cons(Word(w), Cons(Sym(')'), ds)))), ts)
            == Cons(Word("CHAR"), Cons(Sym('('), Cons(Word(w), Cons(Sym(')'), Before(ds, ts)))))
  {
    var close := Cons(Sym(')'), ds);
    var word := Cons(Word(w), close);
    var open := Cons(Sym('('), word);
    assert Before(close, ts) == Cons(Sym(')'), Before(ds, ts));
    assert Before(word, ts) == Cons(Word(w), Before(close, ts));
    assert Before(open, ts) == Cons(Sym('('), Before(word, ts));
  }

  lemma {:induction false} PrintLength(w: string, ps: Phrase, text: string, rest: Phrase)
    requires w != "" && (exists n: int :: w == IntText(n)) && Prints(ps, text, rest)
    ensures Prints(Gap(Say(Word("CHAR"), Say(Sym('('), Say(Word(w), Say(Sym(')'), ps))))), " CHAR(" + w + ")" + text, rest)
    ensures TokensOf(Gap(Say(Word("CHAR"), Say(Sym('('), Say(Word(w), Say(Sym(')'), ps))))))
            == Cons(Word("CHAR"), Cons(Sym('('), Cons(Word(w), Cons(Sym(')'), TokensOf(ps)))))
  {
    var n: int :| w == IntText(n);
    var close := Say(Sym(')'), ps);
    var open := Say(Sym('('), Say(Word(w), close));
    IntTextIsName(n);
    TypeNames();
    PrintPiece(Tok(Sym(')')), ps, text, rest);
    PrintName(w, close, ")" + text, rest);
    PrintPiece(Tok(Sym('(')), Say(Word(w), close), w + (")" + text), rest);
    PrintBlankWord("CHAR", open, "(" + (w + (")" + text)), rest);
    CharShape(w, text);
    assert TokensOf(open) == Cons(Sym('('), Cons(Word(w), TokensOf(close)));
  }

  lemma CharShape(w: string, t: string)
    ensures " " + "CHAR" + ("(" + (w + (")" + t))) == " CHAR(" + w + ")" + t
  {
    assert " " + "CHAR" + "(" == " CHAR(";
    assert " " + "CHAR" + ("(" + (w + (")" + t))) == " " + "CHAR" + "(" + (w + (")" + t));
  }

  lemma {:induction false} PrintAuto(ps: Phrase, text: string, rest: Phrase)
    requires Prints(ps, text, rest) && Loose(ps)
    ensures Prints(Gap(Say(Word("INTEGER"), Gap(Say(Word("PRIMARY_KEY"), Gap(Say(Word("AUTO_INCREMENT"), ps)))))),
                   " INTEGER PRIMARY_KEY AUTO_INCREMENT" + text, rest)
    ensures TokensOf(Gap(Say(Word("INTEGER"), Gap(Say(Word("PRIMARY_KEY"), Gap(Say(Word("AUTO_INCREMENT"), ps)))))))
            == Before(Cons(Word("INTEGER"), Cons(Word("PRIMARY_KEY"), Cons(Word("AUTO_INCREMENT"), Nil))), TokensOf(ps))
  {
    TypeNames();
    var auto := Gap(Say(Word("AUTO_INCREMENT"), ps));
    var key := Gap(Say(Word("PRIMARY_KEY"), auto));
    PrintBlankWord("AUTO_INCREMENT", ps, text, rest);
    PrintBlankWord("PRIMARY_KEY", auto, " " + "AUTO_INCREMENT" + text, rest);
    PrintBlankWord("INTEGER", key, " " + "PRIMARY_KEY" + (" " + "AUTO_INCREMENT" + text), rest);
    AutoShape(text);
    BeforeTwo(Word("PRIMARY_KEY"), Word("AUTO_INCREMENT"), TokensOf(ps));
    assert TokensOf(key) == Cons(Word("PRIMARY_KEY"), Cons(Word("AUTO_INCREMENT"), TokensOf(ps)));
  }

  lemma AutoShape(t: string)
    ensures " " + "INTEGER" + (" " + "PRIMARY_KEY" + (" " + "AUTO_INCREMENT" + t))
            == " INTEGER PRIMARY_KEY AUTO_INCREMENT" + t
  {
    assert " " + "INTEGER" == " INTEGER" && " " + "PRIMARY_KEY" == " PRIMARY_KEY" && " " + "AUTO_INCREMENT" == " AUTO_INCREMENT";
    AutoWords();
    Assoc4(" INTEGER", " PRIMARY_KEY", " AUTO_INCREMENT", t);
  }

  lemma AutoWords()
    ensures " INTEGER" + " PRIMARY_KEY" + " AUTO_INCREMENT" == " INTEGER PRIMARY_KEY AUTO_INCREMENT"
  {
  }

  predicate NamedMembers(ms: seq<Member>) {
    ms == [] || (IsName(ms[0].name) && NamedMembers(ms[1..]))
  }

  lemma {:induction false} PrintField(m: Member, ps: Phrase, text: string, rest: Phrase)
    requires HasColumnType(m) && IsName(m.name) && Prints(ps, text, rest) && Loose(ps)
    ensures Prints(Say(Word(m.name), TypePhrase(m, ps)), FieldText(m) + text, rest)
    ensures TokensOf(Say(Word(m.name), TypePhrase(m, ps))) == Cons(Word(m.name), Before(DeclOf(m), TokensOf(ps)))
  {
    var kind := if m.ytype.AutoIncrement? then " INTEGER PRIMARY_KEY AUTO_INCREMENT" else TypeText(m);
    PrintType(m, ps, text, rest);
    PrintName(m.name, TypePhrase(m, ps), kind + text, rest);
    Assoc3(m.name, kind, text);
  }

  lemma {:induction false} PrintFields(ms: seq<Member>, ps: Phrase, text: string, rest: Phrase)
    requires AllColumnTypes(ms) && NamedMembers(ms) && Prints(ps, text, rest) && Loose(ps)
    ensures Prints(FieldsPhrase(ms, ps), DefsText(ms) + text, rest)
    ensures TokensOf(FieldsPhrase(ms, ps)) == FieldsTokens(ms, TokensOf(ps))
  {
    if ms == [] {
      Empty(text);
    } else if |ms| == 1 {
      PrintField(ms[0], ps, text, rest);
    } else {
      var more, moreText := FieldsPhrase(ms[1..], ps), DefsText(ms[1..]);
      PrintFields(ms[1..], ps, text, rest);
      PrintComma(more, moreText + text, rest);
      PrintField(ms[0], Comma(more), ", " + (moreText + text), rest);
      Assoc4(FieldText(ms[0]), ", ", moreText, text);
    }
  }

  function CreatePhrase(name: string, body: Phrase): Phrase {
    Lead(CREATE, Lead(TABLE, Lead(IF, Lead(NOT, Lead(EXISTS, Say(Word(name), Gap(Say(Sym('('), body))))))))
  }

  lemma {:induction false} PrintCreate(name: string, body: Phrase, text: string)
    requires IsName(name) && Prints(body, text, Nil)
    ensures Prints(CreatePhrase(name, body), "CREATE TABLE IF NOT EXISTS " + (name + (" " + ("(" + text))), Nil)
    ensures TokensOf(CreatePhrase(name, body)) ==
            Cons(Key(CREATE), Cons(Key(TABLE), Cons(Key(IF), Cons(Key(NOT), Cons(Key(EXISTS),
              Cons(Word(name), Cons(Sym('('), TokensOf(body))))))))
  {
    var open := Gap(Say(Sym('('), body));
    var named, t := Say(Word(name), open), name + (" " + ("(" + text));
    PrintPiece(Tok(Sym('(')), body, text, Nil);
    PrintPiece(Blank, Say(Sym('('), body), "(" + text, Nil);
    PrintName(name, open, " " + ("(" + text), Nil);
    assert TokensOf(open) == Cons(Sym('('), TokensOf(body));
    assert TokensOf(named) == Cons(Word(name), Cons(Sym('('), TokensOf(body)));
    PrintTwoLeads(NOT, EXISTS, named, t);
    PrintTwoLeads(TABLE, IF, Lead(NOT, Lead(EXISTS, named)), Spell(NOT) + " " + (Spell(EXISTS) + " " + t));
    var more := Lead(TABLE, Lead(IF, Lead(NOT, Lead(EXISTS, named))));
    var moreText := Spell(TABLE) + " " + (Spell(IF) + " " + (Spell(NOT) + " " + (Spell(EXISTS) + " " + t)));
    PrintLead(CREATE, more, moreText, Nil);
    CreateWords(t);
  }

  lemma {:induction false} PrintTwoLeads(v: Keyword, w: Keyword, ps: Phrase, text: string)
    requires Prints(ps, text, Nil)
    ensures Prints(Lead(v, Lead(w, ps)), Spell(v) + " " + (Spell(w) + " " + text), Nil)
    ensures TokensOf(Lead(v, Lead(w, ps))) == Cons(Key(v), Cons(Key(w), TokensOf(ps)))
  {
    PrintLead(w, ps, text, Nil);
    PrintLead(v, Lead(w, ps), Spell(w) + " " + text, Nil);
  }

  lemma CreateWords(t: string)
    ensures Spell(CREATE) + " " + (Spell(TABLE) + " " + (Spell(IF) + " " + (Spell(NOT) + " " + (Spell(EXISTS) + " " + t))))
            == "CREATE TABLE IF NOT EXISTS " + t
  {
    FiveWords(Spell(CREATE), Spell(TABLE), Spell(IF), Spell(NOT), Spell(EXISTS), t);
    assert Spell(CREATE) + " " + Spell(TABLE) + " " + Spell(IF) + " " + Spell(NOT) + " " + Spell(EXISTS) + " "
           == "CREATE TABLE IF NOT EXISTS ";
  }

  lemma FiveWords(a: string, b: string, c: string, d: string, e: string, t: string)
    ensures a + " " + (b + " " + (c + " " + (d + " " + (e + " " + t))))
            == a + " " + b + " " + c + " " + d + " " + e + " " + t
  {
  }

  lemma LexCreate(t: Table)
    requires !CreateThrows(t) && IsName(t.name) && NamedMembers(Scalars(t.members))
    ensures Lex(CreateText(t)) == CreateTokens(t.name, Scalars(t.members))
  {
    var ms := Scalars(t.members);
    var close: Phrase := Say(Sym(')'), Gap(Nil));
    var body := FieldsPhrase(ms, close);
    PrintClose();
    PrintFields(ms, close, ")" + " ", Nil);
    PrintCreate(t.name, body, DefsText(ms) + (")" + " "));
    LexRender(CreatePhrase(t.name, body));
    CreateEnd("CREATE TABLE IF NOT EXISTS ", t.name, DefsText(ms));
  }

  lemma PrintClose()
    ensures Prints(Say(Sym(')'), Gap(Nil)), ")" + " ", Nil)
    ensures TokensOf(Say(Sym(')'), Gap(Nil))) == Cons(Sym(')'), Nil)
  {
    PrintPiece(Blank, Nil, "", Nil);
    PrintPiece(Tok(Sym(')')), Gap(Nil), " ", Nil);
    assert TokensOf(Gap(Nil)) == Nil;
  }

  /** Parsing a generated CREATE TABLE recovers one field for each scalar member, in order, each with
      its declaration. */
  lemma CreateRoundTrip(t: Table)
    requires !CreateThrows(t) && IsName(t.name) && NamedMembers(Scalars(t.members))
    ensures ParseCreate(Lex(CreateText(t))) == Some(Created(t.name, FieldsOf(Scalars(t.members))))
  {
    LexCreate(t);
    ParseCreateAt(t.name, Scalars(t.members));
  }

  lemma {:induction false} ParseCreateAt(name: string, ms: seq<Member>)
    requires ms != []
    ensures ParseCreate(CreateTokens(name, ms)) == Some(Created(name, FieldsOf(ms)))
  {
    ParseFieldsOf(ms, Cons(Sym(')'), Nil));
    assert StartsCreate(CreateTokens(name, ms));
  }

  lemma CreateEnd(create: string, name: string, fields: string)
    ensures create + (name + (" " + ("(" + (fields + (")" + " "))))) + "" == create + name + " (" + fields + ") "
  {
    assert ")" + " " == ") " && " " + "(" == " (";
    Parts5(create, name, " " , "(", fields, ") ");
  }

  lemma Parts5(a: string, b: string, c: string, d: string, e: string, f: string)
    ensures a + (b + (c + (d + (e + f)))) + "" == a + b + (c + d) + e + f
  {
  }
}

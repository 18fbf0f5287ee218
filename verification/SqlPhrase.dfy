/** The generated texts as sequences of tokens and blanks; lexing a text gives the tokens back. */
module SqlPhrase {
  import opened YanTypes
  import opened Strings
  import opened SqlLexer
  import opened SqlGrammar
  import opened QueryModel
  import opened SqlText

  datatype Piece = Blank | Tok(t: Token)

  type Phrase = List<Piece>

  function PieceText(p: Piece): string {
    match p
    case Blank => " "
    case Tok(Key(k)) => Spell(k)
    case Tok(Word(w)) => w
    case Tok(Op(o)) => o
    case Tok(Str(v)) => "'" + v + "'"
    case Tok(Sym(c)) => [c]
  }

  function Render(ps: Phrase): string {
    match ps
    case Nil => ""
    case Cons(p, rest) => PieceText(p) + Render(rest)
  }

  function TokensOf(ps: Phrase): Tokens {
    match ps
    case Nil => Nil
    case Cons(Blank, rest) => TokensOf(rest)
    case Cons(Tok(t), rest) => Cons(t, TokensOf(rest))
  }

  // Pieces that read back as themselves.
  predicate Sound(p: Piece) {
    match p
    case Blank => true
    case Tok(Key(_)) => true
    case Tok(Word(w)) => IsName(w)
    case Tok(Op(o)) => IsOpWord(o)
    case Tok(Str(v)) => QuoteFree(v)
    case Tok(Sym(c)) => c in "?,().*;"
  }

  predicate WordLike(t: Token) { t.Word? || t.Key? }

  // Two words, or two operators, need a blank between them.
  predicate Apart(p: Piece, q: Piece) {
    p.Blank? || q.Blank? || !((WordLike(p.t) && WordLike(q.t)) || (p.t.Op? && q.t.Op?))
  }

  predicate Neat(ps: Phrase) {
    match ps
    case Nil => true
    case Cons(p, rest) => Sound(p) && (rest.Cons? ==> Apart(p, rest.head)) && Neat(rest)
  }

  predicate StartsLike(s: string, p: Piece) {
    && s != ""
    && (IsWordChar(s[0]) ==> p.Tok? && WordLike(p.t))
    && (IsOpChar(s[0]) ==> p.Tok? && p.t.Op?)
  }

  lemma PieceStart(p: Piece, s: string)
    requires Sound(p)
    ensures StartsLike(PieceText(p) + s, p)
  {
    if p.Tok? && p.t.Key? { SpellIsWord(p.t.k); }
  }

  lemma {:induction false} LexPiece(p: Piece, s: string)
    requires Sound(p)
    requires s != "" ==>
      (IsWordChar(s[0]) ==> p.Blank? || !WordLike(p.t)) && (IsOpChar(s[0]) ==> p.Blank? || !p.t.Op?)
    ensures Lex(PieceText(p) + s) == if p.Blank? then Lex(s) else Cons(p.t, Lex(s))
  {
    match p
    case Blank => LexSymbol(' ', s);
    case Tok(Key(k)) =>
      SpellIsWord(k);
      LexWord(Spell(k), s);
    case Tok(Word(w)) => LexWord(w, s);
    case Tok(Op(o)) => LexOp(o, s);
    case Tok(Str(v)) => LexLiteral(v, s);
    case Tok(Sym(c)) => LexSymbol(c, s);
  }

  /** Lexing a neat text gives back exactly its tokens. */
  lemma {:induction false} LexRender(ps: Phrase)
    requires Neat(ps)
    ensures Lex(Render(ps)) == TokensOf(ps)
    ensures ps.Cons? ==> StartsLike(Render(ps), ps.head)
  {
    match ps
    case Nil =>
    case Cons(p, rest) =>
      LexRender(rest);
      PieceStart(p, Render(rest));
      LexPiece(p, Render(rest));
  }

  /******* The phrase of each text, followed by more *******/

  function Gap(rest: Phrase): Phrase { Cons(Blank, rest) }
  function Say(t: Token, rest: Phrase): Phrase { Cons(Tok(t), rest) }
  function Lead(k: Keyword, rest: Phrase): Phrase { Say(Key(k), Gap(rest)) }
  function Mid(k: Keyword, rest: Phrase): Phrase { Gap(Lead(k, rest)) }

  // What may follow a word: nothing, a blank or punctuation.
  predicate Loose(ps: Phrase) {
    ps.Nil? || ps.head.Blank? || ps.head.t.Sym?
  }

  // `ps` is neat and prints `text` before what `rest` prints.
  predicate Prints(ps: Phrase, text: string, rest: Phrase) {
    Neat(ps) && Render(ps) == text + Render(rest)
  }

  // A piece in front of printed text.
  lemma PrintPiece(p: Piece, ps: Phrase, text: string, rest: Phrase)
    requires Sound(p) && Prints(ps, text, rest) && (ps.Cons? ==> Apart(p, ps.head))
    ensures Prints(Cons(p, ps), PieceText(p) + text, rest)
  {
    Assoc3(PieceText(p), text, Render(rest));
  }

  lemma {:induction false} PrintLead(k: Keyword, ps: Phrase, text: string, rest: Phrase)
    requires Prints(ps, text, rest)
    ensures Prints(Lead(k, ps), Spell(k) + " " + text, rest)
    ensures Prints(Mid(k, ps), " " + Spell(k) + " " + text, rest)
    ensures TokensOf(Lead(k, ps)) == Cons(Key(k), TokensOf(ps)) == TokensOf(Mid(k, ps))
  {
    PrintPiece(Blank, ps, text, rest);
    PrintPiece(Tok(Key(k)), Gap(ps), " " + text, rest);
    PrintPiece(Blank, Lead(k, ps), Spell(k) + (" " + text), rest);
    LeadText(Spell(k), text);
  }

  lemma LeadText(word: string, text: string)
    ensures word + (" " + text) == word + " " + text
    ensures " " + (word + " " + text) == " " + word + " " + text
  {
  }

  lemma {:induction false} PrintNothing(rest: Phrase)
    requires Neat(rest)
    ensures Prints(rest, "", rest)
  {
  }

  lemma PrintName(w: string, ps: Phrase, text: string, rest: Phrase)
    requires IsName(w) && Prints(ps, text, rest) && Loose(ps)
    ensures Prints(Say(Word(w), ps), w + text, rest)
  {
    PrintPiece(Tok(Word(w)), ps, text, rest);
  }

  /******* Conditions *******/

  // `get_yan_ops_str` with its blanks; EQUAL_LIST is a lone blank.
  function OpsPhrase(o: OpsType, negated: bool, rest: Phrase): Phrase {
    if o.EqualList? then Gap(rest) else Gap(Say(Op(OpsSymbol(o, negated)), Gap(rest)))
  }

  function PredPhrase(n: Named, rest: Phrase): Phrase {
    Say(Word(n.col), OpsPhrase(n.op, n.cond.Not?, Say(Sym('?'), rest)))
  }

  function CondPhrase(n: Named, first: bool, rest: Phrase): Phrase {
    match n.cond
    case Group => Mid(GROUP, Lead(BY, Say(Word(n.col), rest)))
    case OrderAsc => Mid(ORDER, Lead(BY, Say(Word(n.col), rest)))
    case OrderDesc => Mid(ORDER, Lead(BY, Say(Word(n.col), Mid(DESC, rest))))
    case _ => if first then PredPhrase(n, rest) else Mid(Connective(n.cond), PredPhrase(n, rest))
  }

  function CondsPhrase(ns: seq<Named>, first: bool, rest: Phrase): Phrase {
    if ns == [] then rest else CondPhrase(ns[0], first, CondsPhrase(ns[1..], false, rest))
  }

  function WherePhrase(ns: seq<Named>, rest: Phrase): Phrase {
    if ns == [] then rest else Mid(WHERE, CondsPhrase(ns, true, rest))
  }

  predicate ColsAreNames(ns: seq<Named>) {
    forall i :: 0 <= i < |ns| ==> IsName(ns[i].col)
  }

  function PredTokens(n: Named, ts: Tokens): Tokens {
    if n.op.EqualList? then Cons(Word(n.col), Cons(Sym('?'), ts))
    else Cons(Word(n.col), Cons(Op(OpsSymbol(n.op, n.cond.Not?)), Cons(Sym('?'), ts)))
  }

  // A padded operator in front of printed text.
  lemma {:induction false} PrintOps(o: OpsType, negated: bool, ps: Phrase, text: string, rest: Phrase)
    requires Prints(ps, text, rest)
    ensures Prints(OpsPhrase(o, negated, ps), OpsText(o, negated) + text, rest)
    ensures TokensOf(OpsPhrase(o, negated, ps)) ==
            if o.EqualList? then TokensOf(ps) else Cons(Op(OpsSymbol(o, negated)), TokensOf(ps))
  {
    if o.EqualList? {
      PrintPiece(Blank, ps, text, rest);
    } else {
      PrintOp(OpsSymbol(o, negated), ps, text, rest);
    }
  }

  lemma {:induction false} PrintOp(o: string, ps: Phrase, text: string, rest: Phrase)
    requires IsOpWord(o) && Prints(ps, text, rest)
    ensures Prints(Gap(Say(Op(o), Gap(ps))), " " + o + " " + text, rest)
    ensures TokensOf(Gap(Say(Op(o), Gap(ps)))) == Cons(Op(o), TokensOf(ps))
  {
    PrintPiece(Blank, ps, text, rest);
    PrintPiece(Tok(Op(o)), Gap(ps), " " + text, rest);
    PrintPiece(Blank, Say(Op(o), Gap(ps)), o + (" " + text), rest);
    Padding(o, text);
    assert TokensOf(Say(Op(o), Gap(ps))) == Cons(Op(o), TokensOf(ps));
  }

  lemma Padding(o: string, text: string)
    ensures " " + (o + (" " + text)) == " " + o + " " + text
  {
  }

  lemma {:induction false} PrintMark(rest: Phrase)
    requires Neat(rest)
    ensures Prints(Say(Sym('?'), rest), "?", rest)
  {
    PrintNothing(rest);
    PrintPiece(Tok(Sym('?')), rest, "", rest);
    assert ['?'] + "" == "?";
  }

  lemma {:induction false} PrintPred(n: Named, rest: Phrase)
    requires IsName(n.col) && Neat(rest)
    ensures Prints(PredPhrase(n, rest), PredText(n), rest)
    ensures TokensOf(PredPhrase(n, rest)) == PredTokens(n, TokensOf(rest))
  {
    var mark, ops := Say(Sym('?'), rest), OpsText(n.op, n.cond.Not?);
    PrintMark(rest);
    PrintOps(n.op, n.cond.Not?, mark, "?", rest);
    PrintName(n.col, OpsPhrase(n.op, n.cond.Not?, mark), ops + "?", rest);
    Assoc3(n.col, ops, "?");
  }

  // " v w name" and " v w name x ", where `c` is the literal for " v w ".
  lemma {:induction false} PrintClause(v: Keyword, w: Keyword, c: string, name: string, rest: Phrase)
    requires IsName(name) && Neat(rest) && Loose(rest) && c == " " + Spell(v) + " " + Spell(w) + " "
    ensures var p := Mid(v, Lead(w, Say(Word(name), rest)));
            && Prints(p, c + name, rest)
            && TokensOf(p) == Cons(Key(v), Cons(Key(w), Cons(Word(name), TokensOf(rest))))
  {
    PrintNothing(rest);
    PrintWords(v, w, c, name, rest, "", rest);
    assert name + "" == name;
  }

  lemma {:induction false} PrintWords(v: Keyword, w: Keyword, c: string, name: string, ps: Phrase, text: string, rest: Phrase)
    requires IsName(name) && Prints(ps, text, rest) && Loose(ps) && c == " " + Spell(v) + " " + Spell(w) + " "
    ensures var p := Mid(v, Lead(w, Say(Word(name), ps)));
            && Prints(p, c + (name + text), rest)
            && TokensOf(p) == Cons(Key(v), Cons(Key(w), Cons(Word(name), TokensOf(ps))))
  {
    PrintName(name, ps, text, rest);
    PrintLead(w, Say(Word(name), ps), name + text, rest);
    PrintLead(v, Lead(w, Say(Word(name), ps)), Spell(w) + " " + (name + text), rest);
    TwoWords(Spell(v), Spell(w), name + text);
  }

  lemma TwoWords(v: string, w: string, t: string)
    ensures " " + v + " " + (w + " " + t) == " " + v + " " + w + " " + t
  {
  }

  // The literals of the texts, spelled out.
  lemma Literals()
    ensures " " + Spell(GROUP) + " " + Spell(BY) + " " == " GROUP BY "
    ensures " " + Spell(ORDER) + " " + Spell(BY) + " " == " ORDER BY "
    ensures " " + Spell(LEFT) + " " + Spell(JOIN) + " " == " LEFT JOIN "
  {
  }

  lemma PaddedLiterals()
    ensures " " + Spell(AND) + " " == " AND " && " " + Spell(OR) + " " == " OR "
    ensures " " + Spell(WHERE) + " " == " WHERE " && " " + Spell(DESC) + " " == " DESC "
    ensures " " + Spell(FROM) + " " == " FROM " && " " + Spell(UNION) + " " == " UNION "
    ensures " " + Spell(ON) + " " == " ON " && " " + Spell(SET) + " " == " SET "
    ensures Spell(SELECT) + " " == "SELECT " && Spell(UPDATE) + " " == "UPDATE "
  {
  }

  function CondTokens(n: Named, first: bool, ts: Tokens): Tokens {
    match n.cond
    case Group => Cons(Key(GROUP), Cons(Key(BY), Cons(Word(n.col), ts)))
    case OrderAsc => Cons(Key(ORDER), Cons(Key(BY), Cons(Word(n.col), ts)))
    case OrderDesc => Cons(Key(ORDER), Cons(Key(BY), Cons(Word(n.col), Cons(Key(DESC), ts))))
    case _ => if first then PredTokens(n, ts) else Cons(Key(Connective(n.cond)), PredTokens(n, ts))
  }

  lemma {:induction false} PrintCond(n: Named, first: bool, rest: Phrase)
    requires IsName(n.col) && Neat(rest) && Loose(rest)
    ensures Prints(CondPhrase(n, first, rest), CondText(n, first), rest)
    ensures TokensOf(CondPhrase(n, first, rest)) == CondTokens(n, first, TokensOf(rest))
    ensures !first ==> Loose(CondPhrase(n, first, rest))
  {
    if IsLogical(n.cond) {
      PrintPred(n, rest);
      if !first { PrintConnected(n, rest); }
      assert "" + PredText(n) == PredText(n);
    } else {
      Literals();
      match n.cond
      case Group => PrintClause(GROUP, BY, " GROUP BY ", n.col, rest);
      case OrderAsc => PrintClause(ORDER, BY, " ORDER BY ", n.col, rest);
      case OrderDesc => PrintDescending(n.col, rest);
    }
  }

  lemma {:induction false} PrintConnected(n: Named, rest: Phrase)
    requires IsName(n.col) && Neat(rest) && IsLogical(n.cond)
    ensures Prints(Mid(Connective(n.cond), PredPhrase(n, rest)), CondText(n, false), rest)
    ensures TokensOf(Mid(Connective(n.cond), PredPhrase(n, rest))) ==
            Cons(Key(Connective(n.cond)), PredTokens(n, TokensOf(rest)))
  {
    PrintPred(n, rest);
    PrintLead(Connective(n.cond), PredPhrase(n, rest), PredText(n), rest);
    PaddedLiterals();
  }

  lemma {:induction false} PrintDescending(name: string, rest: Phrase)
    requires IsName(name) && Neat(rest)
    ensures var p := Mid(ORDER, Lead(BY, Say(Word(name), Mid(DESC, rest))));
            && Prints(p, " ORDER BY " + name + " DESC ", rest)
            && TokensOf(p) == Cons(Key(ORDER), Cons(Key(BY), Cons(Word(name), Cons(Key(DESC), TokensOf(rest)))))
  {
    Literals();
    PaddedLiterals();
    PrintNothing(rest);
    PrintLead(DESC, rest, "", rest);
    assert " DESC " + "" == " DESC ";
    PrintWords(ORDER, BY, " ORDER BY ", name, Mid(DESC, rest), " DESC ", rest);
    Assoc3(" ORDER BY ", name, " DESC ");
  }

  function CondsTokens(ns: seq<Named>, first: bool, ts: Tokens): Tokens {
    if ns == [] then ts else CondTokens(ns[0], first, CondsTokens(ns[1..], false, ts))
  }

  lemma {:induction false} PrintConds(ns: seq<Named>, first: bool, rest: Phrase)
    requires ColsAreNames(ns) && Neat(rest) && Loose(rest)
    ensures Prints(CondsPhrase(ns, first, rest), CondsText(ns, first), rest)
    ensures TokensOf(CondsPhrase(ns, first, rest)) == CondsTokens(ns, first, TokensOf(rest))
    ensures !first ==> Loose(CondsPhrase(ns, first, rest))
  {
    if ns == [] {
      PrintNothing(rest);
    } else {
      var more := CondsPhrase(ns[1..], false, rest);
      PrintConds(ns[1..], false, rest);
      PrintCond(ns[0], first, more);
      Assoc3(CondText(ns[0], first), CondsText(ns[1..], false), Render(rest));
    }
  }

  function WhereTokens(ns: seq<Named>, ts: Tokens): Tokens {
    if ns == [] then ts else Cons(Key(WHERE), CondsTokens(ns, true, ts))
  }

  lemma {:induction false} PrintWhere(ns: seq<Named>, rest: Phrase)
    requires ColsAreNames(ns) && Neat(rest) && Loose(rest)
    ensures Prints(WherePhrase(ns, rest), WhereText(ns), rest)
    ensures TokensOf(WherePhrase(ns, rest)) == WhereTokens(ns, TokensOf(rest))
    ensures Loose(WherePhrase(ns, rest))
  {
    if ns == [] {
      PrintNothing(rest);
    } else {
      PrintConds(ns, true, rest);
      PrintLead(WHERE, CondsPhrase(ns, true, rest), CondsText(ns, true), rest);
      PaddedLiterals();
    }
  }

  /******* Columns *******/

  function ColumnPhrase(c: Column, rest: Phrase): Phrase {
    if c.table == "" then Say(Word(c.name), rest)
    else Say(Word(c.table), Say(Sym('.'), Say(Word(c.name), rest)))
  }

  function Comma(rest: Phrase): Phrase { Say(Sym(','), Gap(rest)) }

  function ColumnListPhrase(cs: seq<Column>, rest: Phrase): Phrase {
    if cs == [] then rest
    else if |cs| == 1 then ColumnPhrase(cs[0], rest)
    else ColumnPhrase(cs[0], Comma(ColumnListPhrase(cs[1..], rest)))
  }

  function ColumnsPhrase(cs: Columns, rest: Phrase): Phrase {
    match cs
    case Star => Say(Sym('*'), rest)
    case CountOf(name) => Say(Key(COUNT), Say(Sym('('), Say(Word(name), Say(Sym(')'), rest))))
    case Listed(columns) => ColumnListPhrase(columns, rest)
  }

  function ColumnTokens(c: Column, ts: Tokens): Tokens {
    if c.table == "" then Cons(Word(c.name), ts) else Cons(Word(c.table), Cons(Sym('.'), Cons(Word(c.name), ts)))
  }

  function ColumnListTokens(cs: seq<Column>, ts: Tokens): Tokens {
    if cs == [] then ts
    else if |cs| == 1 then ColumnTokens(cs[0], ts)
    else ColumnTokens(cs[0], Cons(Sym(','), ColumnListTokens(cs[1..], ts)))
  }

  function ColumnsTokens(cs: Columns, ts: Tokens): Tokens {
    match cs
    case Star => Cons(Sym('*'), ts)
    case CountOf(name) => Cons(Key(COUNT), Cons(Sym('('), Cons(Word(name), Cons(Sym(')'), ts))))
    case Listed(columns) => ColumnListTokens(columns, ts)
  }

  predicate ColumnIsNames(c: Column) {
    (c.table == "" || IsName(c.table)) && IsName(c.name)
  }

  predicate ColumnsAreNames(cs: Columns) {
    match cs
    case Star => true
    case CountOf(name) => IsName(name)
    case Listed(columns) => forall i :: 0 <= i < |columns| ==> ColumnIsNames(columns[i])
  }

  lemma {:induction false} PrintColumn(c: Column, ps: Phrase, text: string, rest: Phrase)
    requires ColumnIsNames(c) && Prints(ps, text, rest) && Loose(ps)
    ensures Prints(ColumnPhrase(c, ps), ColumnText(c) + text, rest)
    ensures TokensOf(ColumnPhrase(c, ps)) == ColumnTokens(c, TokensOf(ps))
  {
    PrintName(c.name, ps, text, rest);
    if c.table != "" {
      var name, dot := Say(Word(c.name), ps), Say(Sym('.'), Say(Word(c.name), ps));
      PrintPiece(Tok(Sym('.')), name, c.name + text, rest);
      PrintName(c.table, dot, "." + (c.name + text), rest);
      Dotted(c.table, c.name, text);
      assert TokensOf(dot) == Cons(Sym('.'), Cons(Word(c.name), TokensOf(ps)));
    }
  }

  lemma Dotted(a: string, b: string, t: string)
    ensures a + ("." + (b + t)) == a + "." + b + t
  {
  }

  lemma {:induction false} PrintComma(ps: Phrase, text: string, rest: Phrase)
    requires Prints(ps, text, rest)
    ensures Prints(Comma(ps), ", " + text, rest) && Loose(Comma(ps))
    ensures TokensOf(Comma(ps)) == Cons(Sym(','), TokensOf(ps))
  {
    PrintPiece(Blank, ps, text, rest);
    PrintPiece(Tok(Sym(',')), Gap(ps), " " + text, rest);
    CommaText(text);
  }

  lemma CommaText(t: string)
    ensures [','] + (" " + t) == ", " + t
  {
  }

  lemma {:induction false} PrintColumnList(cs: seq<Column>, ps: Phrase, text: string, rest: Phrase)
    requires forall i :: 0 <= i < |cs| ==> ColumnIsNames(cs[i])
    requires Prints(ps, text, rest) && Loose(ps)
    ensures Prints(ColumnListPhrase(cs, ps), ColumnListText(cs) + text, rest)
    ensures TokensOf(ColumnListPhrase(cs, ps)) == ColumnListTokens(cs, TokensOf(ps))
  {
    if cs == [] {
      assert "" + text == text;
    } else if |cs| == 1 {
      PrintColumn(cs[0], ps, text, rest);
    } else {
      var more, moreText := ColumnListPhrase(cs[1..], ps), ColumnListText(cs[1..]);
      PrintColumnList(cs[1..], ps, text, rest);
      PrintComma(more, moreText + text, rest);
      PrintColumn(cs[0], Comma(more), ", " + (moreText + text), rest);
      Assoc4(ColumnText(cs[0]), ", ", moreText, text);
    }
  }

  lemma {:induction false} PrintColumns(cs: Columns, ps: Phrase, text: string, rest: Phrase)
    requires ColumnsAreNames(cs) && Prints(ps, text, rest) && Loose(ps)
    ensures Prints(ColumnsPhrase(cs, ps), ColumnsText(cs) + text, rest)
    ensures TokensOf(ColumnsPhrase(cs, ps)) == ColumnsTokens(cs, TokensOf(ps))
  {
    match cs
    case Star => PrintPiece(Tok(Sym('*')), ps, text, rest);
    case Listed(columns) => PrintColumnList(columns, ps, text, rest);
    case CountOf(name) =>
      var close := Say(Sym(')'), ps);
      var open := Say(Sym('('), Say(Word(name), close));
      PrintPiece(Tok(Sym(')')), ps, text, rest);
      PrintName(name, close, ")" + text, rest);
      PrintPiece(Tok(Sym('(')), Say(Word(name), close), name + (")" + text), rest);
      PrintPiece(Tok(Key(COUNT)), open, "(" + (name + (")" + text)), rest);
      Counted(name, text);
      assert TokensOf(open) == Cons(Sym('('), Cons(Word(name), TokensOf(close)));
  }

  lemma Counted(name: string, t: string)
    ensures Spell(COUNT) + ("(" + (name + (")" + t))) == "COUNT(" + name + ")" + t
  {
    assert Spell(COUNT) + "(" == "COUNT(";
    assert Spell(COUNT) + ("(" + (name + (")" + t))) == Spell(COUNT) + "(" + (name + (")" + t));
  }

  /******* SELECT and UNION *******/

  function HeadPhrase(cols: Columns, from: string, rest: Phrase): Phrase {
    FromPhrase(cols, Say(Word(from), rest))
  }

  function FromPhrase(cols: Columns, rest: Phrase): Phrase {
    Lead(SELECT, ColumnsPhrase(cols, Mid(FROM, rest)))
  }

  function FromTokens(cols: Columns, ts: Tokens): Tokens {
    Cons(Key(SELECT), ColumnsTokens(cols, Cons(Key(FROM), ts)))
  }

  function HeadTokens(cols: Columns, from: string, ts: Tokens): Tokens {
    FromTokens(cols, Cons(Word(from), ts))
  }

  lemma {:induction false} PrintHead(cols: Columns, from: string, ps: Phrase, text: string, rest: Phrase)
    requires ColumnsAreNames(cols) && IsName(from) && Prints(ps, text, rest) && Loose(ps)
    ensures Prints(HeadPhrase(cols, from, ps), HeadText(cols, from) + text, rest)
    ensures TokensOf(HeadPhrase(cols, from, ps)) == HeadTokens(cols, from, TokensOf(ps))
  {
    PrintName(from, ps, text, rest);
    PrintFrom(cols, Say(Word(from), ps), from + text, rest);
    Assoc3("SELECT " + ColumnsText(cols) + " FROM ", from, text);
  }

  lemma {:induction false} PrintFrom(cols: Columns, ps: Phrase, text: string, rest: Phrase)
    requires ColumnsAreNames(cols) && Prints(ps, text, rest)
    ensures Prints(FromPhrase(cols, ps), "SELECT " + ColumnsText(cols) + " FROM " + text, rest)
    ensures TokensOf(FromPhrase(cols, ps)) == FromTokens(cols, TokensOf(ps))
  {
    PrintLead(FROM, ps, text, rest);
    PaddedLiterals();
    PrintColumns(cols, Mid(FROM, ps), " FROM " + text, rest);
    PrintLead(SELECT, ColumnsPhrase(cols, Mid(FROM, ps)), ColumnsText(cols) + (" FROM " + text), rest);
    Assoc4("SELECT ", ColumnsText(cols), " FROM ", text);
  }

  function SelectTokens(p: Parts, ts: Tokens): Tokens {
    HeadTokens(p.cols, p.from, WhereTokens(p.ns, ts))
  }

  function SelectPhrase(p: Parts, rest: Phrase): Phrase {
    HeadPhrase(p.cols, p.from, WherePhrase(p.ns, rest))
  }

  predicate PartsAreNames(p: Parts) {
    ColumnsAreNames(p.cols) && IsName(p.from) && ColsAreNames(p.ns)
  }

  lemma {:induction false} PrintSelect(p: Parts, rest: Phrase)
    requires PartsAreNames(p) && Neat(rest) && Loose(rest)
    ensures Prints(SelectPhrase(p, rest), SelectText(p), rest)
    ensures TokensOf(SelectPhrase(p, rest)) == SelectTokens(p, TokensOf(rest))
  {
    PrintWhere(p.ns, rest);
    PrintHead(p.cols, p.from, WherePhrase(p.ns, rest), WhereText(p.ns), rest);
  }

  function UnionPhrase(ps: seq<Parts>, rest: Phrase): Phrase {
    if ps == [] then rest
    else if |ps| == 1 then SelectPhrase(ps[0], rest)
    else SelectPhrase(ps[0], Mid(UNION, UnionPhrase(ps[1..], rest)))
  }

  function UnionTokens(ps: seq<Parts>, ts: Tokens): Tokens {
    if ps == [] then ts
    else if |ps| == 1 then SelectTokens(ps[0], ts)
    else SelectTokens(ps[0], Cons(Key(UNION), UnionTokens(ps[1..], ts)))
  }

  predicate AllNames(ps: seq<Parts>) {
    forall i :: 0 <= i < |ps| ==> PartsAreNames(ps[i])
  }

  lemma {:induction false} PrintMember(p: Parts, more: Phrase, text: string, rest: Phrase)
    requires PartsAreNames(p) && Prints(more, text, rest)
    ensures Prints(SelectPhrase(p, Mid(UNION, more)), SelectText(p) + " UNION " + text, rest)
    ensures TokensOf(SelectPhrase(p, Mid(UNION, more))) == SelectTokens(p, Cons(Key(UNION), TokensOf(more)))
  {
    PrintLead(UNION, more, text, rest);
    PaddedLiterals();
    PrintSelect(p, Mid(UNION, more));
    PrintChained(SelectPhrase(p, Mid(UNION, more)), SelectText(p), Mid(UNION, more), " UNION ", text, rest);
  }

  lemma PrintChained(ps: Phrase, a: string, qs: Phrase, b: string, c: string, rest: Phrase)
    requires Prints(ps, a, qs) && Prints(qs, b + c, rest)
    ensures Prints(ps, a + b + c, rest)
  {
    Assoc4(a, b, c, Render(rest));
    Assoc3(b, c, Render(rest));
  }

  lemma {:induction false} PrintUnion(ps: seq<Parts>, rest: Phrase)
    requires ps != [] && AllNames(ps) && Neat(rest) && Loose(rest)
    ensures Prints(UnionPhrase(ps, rest), UnionOfText(ps), rest)
    ensures TokensOf(UnionPhrase(ps, rest)) == UnionTokens(ps, TokensOf(rest))
  {
    if |ps| == 1 {
      PrintSelect(ps[0], rest);
    } else {
      PrintUnion(ps[1..], rest);
      PrintMember(ps[0], UnionPhrase(ps[1..], rest), UnionOfText(ps[1..]), rest);
    }
  }

  /******* JOIN and COPY *******/

  function BridgePhrase(b: Bridge, rest: Phrase): Phrase {
    ColumnPhrase(b.left, Gap(Say(Op("="), Gap(ColumnPhrase(b.right, rest)))))
  }

  function BridgesPhrase(bs: seq<Bridge>, rest: Phrase): Phrase {
    if bs == [] then rest
    else if |bs| == 1 then BridgePhrase(bs[0], rest)
    else BridgePhrase(bs[0], Mid(AND, BridgesPhrase(bs[1..], rest)))
  }

  function JoinsPhrase(js: seq<JoinCond>, rest: Phrase): Phrase {
    if js == [] then rest
    else Mid(LEFT, Lead(JOIN, Say(Word(js[0].table.name), Mid(ON, BridgesPhrase(js[0].equals, JoinsPhrase(js[1..], rest))))))
  }

  function BridgeTokens(b: Bridge, ts: Tokens): Tokens {
    ColumnTokens(b.left, Cons(Op("="), ColumnTokens(b.right, ts)))
  }

  function BridgesTokens(bs: seq<Bridge>, ts: Tokens): Tokens {
    if bs == [] then ts
    else if |bs| == 1 then BridgeTokens(bs[0], ts)
    else BridgeTokens(bs[0], Cons(Key(AND), BridgesTokens(bs[1..], ts)))
  }

  function JoinTokens(j: JoinCond, ts: Tokens): Tokens {
    Cons(Key(LEFT), Cons(Key(JOIN), Cons(Word(j.table.name), Cons(Key(ON), BridgesTokens(j.equals, ts)))))
  }

  function JoinsTokens(js: seq<JoinCond>, ts: Tokens): Tokens {
    if js == [] then ts else JoinTokens(js[0], JoinsTokens(js[1..], ts))
  }

  predicate BridgesAreNames(bs: seq<Bridge>) {
    forall i :: 0 <= i < |bs| ==> ColumnIsNames(bs[i].left) && ColumnIsNames(bs[i].right)
  }

  predicate JoinsAreNames(js: seq<JoinCond>) {
    forall i :: 0 <= i < |js| ==> IsName(js[i].table.name) && BridgesAreNames(js[i].equals)
  }

  lemma {:induction false} PrintBridge(b: Bridge, ps: Phrase, text: string, rest: Phrase)
    requires ColumnIsNames(b.left) && ColumnIsNames(b.right) && Prints(ps, text, rest) && Loose(ps)
    ensures Prints(BridgePhrase(b, ps), BridgeText(b) + text, rest)
    ensures TokensOf(BridgePhrase(b, ps)) == BridgeTokens(b, TokensOf(ps))
  {
    var right := ColumnPhrase(b.right, ps);
    var moreText := " " + "=" + " " + (ColumnText(b.right) + text);
    PrintColumn(b.right, ps, text, rest);
    PrintOp("=", right, ColumnText(b.right) + text, rest);
    PrintColumn(b.left, Gap(Say(Op("="), Gap(right))), moreText, rest);
    Equated(ColumnText(b.left), ColumnText(b.right), text);
  }

  lemma Equated(a: string, b: string, t: string)
    ensures a + (" " + "=" + " " + (b + t)) == a + " = " + b + t
  {
  }

  lemma {:induction false} PrintBridges(bs: seq<Bridge>, ps: Phrase, text: string, rest: Phrase)
    requires BridgesAreNames(bs) && Prints(ps, text, rest) && Loose(ps)
    ensures Prints(BridgesPhrase(bs, ps), BridgesText(bs) + text, rest)
    ensures TokensOf(BridgesPhrase(bs, ps)) == BridgesTokens(bs, TokensOf(ps))
  {
    if bs == [] {
      assert "" + text == text;
    } else if |bs| == 1 {
      PrintBridge(bs[0], ps, text, rest);
    } else {
      var more, moreText := BridgesPhrase(bs[1..], ps), BridgesText(bs[1..]);
      PrintBridges(bs[1..], ps, text, rest);
      PrintLead(AND, more, moreText + text, rest);
      PaddedLiterals();
      PrintBridge(bs[0], Mid(AND, more), " AND " + (moreText + text), rest);
      Assoc4(BridgeText(bs[0]), " AND ", moreText, text);
    }
  }

  lemma {:induction false} PrintJoin(j: JoinCond, ps: Phrase, text: string, rest: Phrase)
    requires IsName(j.table.name) && BridgesAreNames(j.equals) && Prints(ps, text, rest) && Loose(ps)
    ensures var p := Mid(LEFT, Lead(JOIN, Say(Word(j.table.name), Mid(ON, BridgesPhrase(j.equals, ps)))));
            && Prints(p, " LEFT JOIN " + j.table.name + " ON " + BridgesText(j.equals) + text, rest)
            && TokensOf(p) == JoinTokens(j, TokensOf(ps))
  {
    var on, onText := BridgesPhrase(j.equals, ps), BridgesText(j.equals);
    PrintBridges(j.equals, ps, text, rest);
    PrintLead(ON, on, onText + text, rest);
    PaddedLiterals();
    Literals();
    PrintWords(LEFT, JOIN, " LEFT JOIN ", j.table.name, Mid(ON, on), " ON " + (onText + text), rest);
    Assoc5(" LEFT JOIN ", j.table.name, " ON ", onText, text);
  }

  lemma {:induction false} PrintJoins(js: seq<JoinCond>, ps: Phrase, text: string, rest: Phrase)
    requires JoinsAreNames(js) && Prints(ps, text, rest) && Loose(ps)
    ensures Prints(JoinsPhrase(js, ps), JoinsText(js) + text, rest) && Loose(JoinsPhrase(js, ps))
    ensures TokensOf(JoinsPhrase(js, ps)) == JoinsTokens(js, TokensOf(ps))
  {
    if js == [] {
      assert "" + text == text;
    } else {
      PrintJoins(js[1..], ps, text, rest);
      PrintJoin(js[0], JoinsPhrase(js[1..], ps), JoinsText(js[1..]) + text, rest);
      Assoc3(" LEFT JOIN " + js[0].table.name + " ON " + BridgesText(js[0].equals), JoinsText(js[1..]), text);
    }
  }

  // A word written directly in front of more: it swallows a word there, and may even become a keyword.
  function FusePhrase(word: string, ps: Phrase): Phrase {
    match ps
    case Cons(Tok(Word(w)), rest) => Say(WordToken(word + w), rest)
    case _ => Say(Word(word), ps)
  }

  function Fuse(word: string, ts: Tokens): Tokens {
    match ts
    case Cons(Word(w), rest) => Cons(WordToken(word + w), rest)
    case _ => Cons(Word(word), ts)
  }

  // Either it starts with a word, or with no word even after a blank.
  predicate Fusable(ps: Phrase) {
    (ps.Cons? && ps.head.Tok? && ps.head.t.Word?) || (Loose(ps) && TokensOf(ps).Cons? && !TokensOf(ps).head.Word?)
  }

  lemma {:induction false} PrintFused(word: string, ps: Phrase, text: string, rest: Phrase)
    requires IsName(word) && Prints(ps, text, rest) && Fusable(ps)
    ensures Prints(FusePhrase(word, ps), word + text, rest)
    ensures TokensOf(FusePhrase(word, ps)) == Fuse(word, TokensOf(ps))
  {
    if ps.head.Tok? && ps.head.t.Word? {
      var w := ps.head.t.text;
      SoundWord(word + w);
      Assoc3(word, w, Render(ps.tail));
      Assoc3(word, text, Render(rest));
    } else {
      PrintName(word, ps, text, rest);
    }
  }

  lemma SoundWord(w: string)
    requires IsWord(w)
    ensures Sound(Tok(WordToken(w))) && WordLike(WordToken(w)) && PieceText(Tok(WordToken(w))) == w
  {
  }

  // A list of equalities starts with a word that a `.` or a `=` follows.
  lemma {:induction false} FirstBridge(bs: seq<Bridge>, ts: Tokens)
    requires bs != []
    ensures var b := BridgesTokens(bs, ts);
            b.Cons? && b.head.Word? && (Starts(b.tail, Sym('.')) || Starts(b.tail, Op("=")))
  {
  }

  lemma {:induction false} FirstWord(bs: seq<Bridge>, ps: Phrase)
    requires bs != []
    ensures BridgesPhrase(bs, ps).Cons? && BridgesPhrase(bs, ps).head.Tok? && BridgesPhrase(bs, ps).head.t.Word?
  {
  }

  lemma {:induction false} JoinFuses(bs: seq<Bridge>, js: seq<JoinCond>, ns: seq<Named>)
    ensures Fusable(BridgesPhrase(bs, JoinsPhrase(js, WherePhrase(ns, STOP))))
  {
    if bs != [] { FirstWord(bs, JoinsPhrase(js, WherePhrase(ns, STOP))); }
  }

  function IntoPhrase(into: string, cols: Columns, rest: Phrase): Phrase {
    Lead(INSERT, Lead(INTO, Say(Word(into), Gap(Say(Sym('('), ColumnsPhrase(cols, Say(Sym(')'), Gap(rest))))))))
  }

  function IntoTokens(into: string, cols: Columns, ts: Tokens): Tokens {
    Cons(Key(INSERT), Cons(Key(INTO), Cons(Word(into), Cons(Sym('('), ColumnsTokens(cols, Cons(Sym(')'), ts))))))
  }

  lemma {:induction false} PrintInto(into: string, cols: Columns, ps: Phrase, text: string, rest: Phrase)
    requires IsName(into) && ColumnsAreNames(cols) && Prints(ps, text, rest)
    ensures Prints(IntoPhrase(into, cols, ps), IntoText(into, cols) + text, rest)
    ensures TokensOf(IntoPhrase(into, cols, ps)) == IntoTokens(into, cols, TokensOf(ps))
  {
    var close := Say(Sym(')'), Gap(ps));
    var body, bodyText := ColumnsPhrase(cols, close), ColumnsText(cols) + (")" + (" " + text));
    var open := Gap(Say(Sym('('), body));
    PrintPiece(Blank, ps, text, rest);
    PrintPiece(Tok(Sym(')')), Gap(ps), " " + text, rest);
    PrintColumns(cols, close, ")" + (" " + text), rest);
    PrintPiece(Tok(Sym('(')), body, bodyText, rest);
    PrintPiece(Blank, Say(Sym('('), body), "(" + bodyText, rest);
    PrintName(into, open, " " + ("(" + bodyText), rest);
    PrintLead(INTO, Say(Word(into), open), into + (" " + ("(" + bodyText)), rest);
    PrintLead(INSERT, Lead(INTO, Say(Word(into), open)), Spell(INTO) + " " + (into + (" " + ("(" + bodyText))), rest);
    Parenthesised(into, ColumnsText(cols), text);
    assert TokensOf(open) == Cons(Sym('('), TokensOf(body));
  }

  lemma Parenthesised(into: string, cols: string, t: string)
    ensures Spell(INSERT) + " " + (Spell(INTO) + " " + (into + (" " + ("(" + (cols + (")" + (" " + t)))))))
            == "INSERT INTO " + into + " (" + cols + ") " + t
  {
    assert Spell(INSERT) + " " + Spell(INTO) + " " == "INSERT INTO ";
    assert ")" + (" " + t) == ") " + t;
    assert " " + ("(" + (cols + (") " + t))) == " (" + (cols + (") " + t));
    Assoc3(Spell(INSERT) + " ", Spell(INTO) + " ", into + (" (" + (cols + (") " + t))));
    Assoc5("INSERT INTO ", into, " (", cols, ") " + t);
    assert "INSERT INTO " + into + " (" + cols + (") " + t) == "INSERT INTO " + into + " (" + cols + ") " + t;
  }

  /******* DELETE and UPDATE *******/

  function DeletePhrase(name: string, rest: Phrase): Phrase {
    Lead(DELETE, Lead(FROM, Say(Word(name), rest)))
  }

  function DeleteTokens(name: string, ts: Tokens): Tokens {
    Cons(Key(DELETE), Cons(Key(FROM), Cons(Word(name), ts)))
  }

  lemma {:induction false} PrintDelete(name: string, ps: Phrase, text: string, rest: Phrase)
    requires IsName(name) && Prints(ps, text, rest) && Loose(ps)
    ensures Prints(DeletePhrase(name, ps), "DELETE FROM " + name + text, rest)
    ensures TokensOf(DeletePhrase(name, ps)) == DeleteTokens(name, TokensOf(ps))
  {
    PrintName(name, ps, text, rest);
    PrintLead(FROM, Say(Word(name), ps), name + text, rest);
    PrintLead(DELETE, Lead(FROM, Say(Word(name), ps)), Spell(FROM) + " " + (name + text), rest);
    DeleteFrom(name, text);
  }

  lemma DeleteFrom(name: string, t: string)
    ensures Spell(DELETE) + " " + (Spell(FROM) + " " + (name + t)) == "DELETE FROM " + name + t
  {
    assert Spell(DELETE) + " " + Spell(FROM) + " " == "DELETE FROM ";
    Assoc3(Spell(DELETE) + " ", Spell(FROM) + " ", name + t);
    Assoc3("DELETE FROM ", name, t);
  }

  function SetPhrase(name: string, rest: Phrase): Phrase {
    Say(Word(name), Gap(Say(Op("="), Gap(Say(Sym('?'), rest)))))
  }

  function SetsPhrase(names: seq<string>, rest: Phrase): Phrase {
    if names == [] then rest
    else if |names| == 1 then SetPhrase(names[0], rest)
    else SetPhrase(names[0], Comma(SetsPhrase(names[1..], rest)))
  }

  function SetTokens(name: string, ts: Tokens): Tokens {
    Cons(Word(name), Cons(Op("="), Cons(Sym('?'), ts)))
  }

  function SetsTokens(names: seq<string>, ts: Tokens): Tokens {
    if names == [] then ts
    else if |names| == 1 then SetTokens(names[0], ts)
    else SetTokens(names[0], Cons(Sym(','), SetsTokens(names[1..], ts)))
  }

  lemma {:induction false} PrintSet(name: string, ps: Phrase, text: string, rest: Phrase)
    requires IsName(name) && Prints(ps, text, rest)
    ensures Prints(SetPhrase(name, ps), name + " = ?" + text, rest)
    ensures TokensOf(SetPhrase(name, ps)) == SetTokens(name, TokensOf(ps))
  {
    PrintPiece(Tok(Sym('?')), ps, text, rest);
    PrintOp("=", Say(Sym('?'), ps), "?" + text, rest);
    PrintName(name, Gap(Say(Op("="), Gap(Say(Sym('?'), ps)))), " " + "=" + " " + ("?" + text), rest);
    SetText(name, text);
  }

  lemma SetText(name: string, t: string)
    ensures name + (" " + "=" + " " + ("?" + t)) == name + " = ?" + t
  {
    assert " " + "=" + " " + ("?" + t) == " = ?" + t;
  }

  lemma {:induction false} PrintSets(names: seq<string>, ps: Phrase, text: string, rest: Phrase)
    requires forall i :: 0 <= i < |names| ==> IsName(names[i])
    requires Prints(ps, text, rest)
    ensures Prints(SetsPhrase(names, ps), SetsText(names) + text, rest)
    ensures TokensOf(SetsPhrase(names, ps)) == SetsTokens(names, TokensOf(ps))
  {
    if names == [] {
      assert "" + text == text;
    } else if |names| == 1 {
      PrintSet(names[0], ps, text, rest);
    } else {
      var more, moreText := SetsPhrase(names[1..], ps), SetsText(names[1..]);
      PrintSets(names[1..], ps, text, rest);
      PrintComma(more, moreText + text, rest);
      PrintSet(names[0], Comma(more), ", " + (moreText + text), rest);
      Assoc4(names[0] + " = ?", ", ", moreText, text);
    }
  }

  function UpdatePhrase(name: string, sets: seq<string>, rest: Phrase): Phrase {
    Lead(UPDATE, Say(Word(name), Mid(SET, SetsPhrase(sets, rest))))
  }

  function UpdateTokens(name: string, sets: seq<string>, ts: Tokens): Tokens {
    Cons(Key(UPDATE), Cons(Word(name), Cons(Key(SET), SetsTokens(sets, ts))))
  }

  lemma {:induction false} PrintUpdate(name: string, sets: seq<string>, ps: Phrase, text: string, rest: Phrase)
    requires IsName(name) && (forall i :: 0 <= i < |sets| ==> IsName(sets[i])) && Prints(ps, text, rest)
    ensures Prints(UpdatePhrase(name, sets, ps), "UPDATE " + name + " SET " + SetsText(sets) + text, rest)
    ensures TokensOf(UpdatePhrase(name, sets, ps)) == UpdateTokens(name, sets, TokensOf(ps))
  {
    var body, bodyText := SetsPhrase(sets, ps), SetsText(sets) + text;
    PrintSets(sets, ps, text, rest);
    PrintLead(SET, body, bodyText, rest);
    PaddedLiterals();
    PrintName(name, Mid(SET, body), " SET " + bodyText, rest);
    PrintLead(UPDATE, Say(Word(name), Mid(SET, body)), name + (" SET " + bodyText), rest);
    Assoc5("UPDATE ", name, " SET ", SetsText(sets), text);
  }

  /******* The end of a statement *******/

  const STOP: Phrase := Cons(Tok(Sym(';')), Nil)

  /** A text with the semicolon `create_stmt` appends lexes to its tokens. */
  lemma {:induction false} LexStatement(ps: Phrase, text: string)
    requires Prints(ps, text, STOP)
    ensures Lex(text + ";") == TokensOf(ps) && TokensOf(STOP) == END
  {
    LexRender(ps);
    assert Render(STOP) == ";";
  }
}

/** A tokenizer for the SQL the library prints. */
module SqlLexer {
  import opened YanTypes

  // The keywords the library prints, always in upper case.
  datatype Keyword =
    | SELECT | FROM | WHERE | AND | OR | GROUP | BY | ORDER | DESC | UNION | LEFT | JOIN | ON
    | INSERT | INTO | VALUES | DELETE | UPDATE | SET | COUNT | CREATE | TABLE | IF | NOT | EXISTS

  // Punctuation is one token a character; a string literal loses its quotes.
  datatype Token = Key(k: Keyword) | Word(text: string) | Op(text: string) | Str(text: string) | Sym(c: char)

  function Spell(k: Keyword): string {
    match k
    case SELECT => "SELECT"
    case FROM => "FROM"
    case WHERE => "WHERE"
    case AND => "AND"
    case OR => "OR"
    case GROUP => "GROUP"
    case BY => "BY"
    case ORDER => "ORDER"
    case DESC => "DESC"
    case UNION => "UNION"
    case LEFT => "LEFT"
    case JOIN => "JOIN"
    case ON => "ON"
    case INSERT => "INSERT"
    case INTO => "INTO"
    case VALUES => "VALUES"
    case DELETE => "DELETE"
    case UPDATE => "UPDATE"
    case SET => "SET"
    case COUNT => "COUNT"
    case CREATE => "CREATE"
    case TABLE => "TABLE"
    case IF => "IF"
    case NOT => "NOT"
    case EXISTS => "EXISTS"
  }

  predicate Reserved(w: string) {
    exists k: Keyword :: Spell(k) == w
  }

  predicate IsWordChar(c: char) {
    'a' <= c <= 'z' || 'A' <= c <= 'Z' || '0' <= c <= '9' || c == '_' || c == '-' || c == '"'
  }

  predicate IsOpChar(c: char) {
    c == '=' || c == '!' || c == '<' || c == '>'
  }

  /** A name as the library's macros accept it: an identifier, or a number in double quotes. */
  predicate IsWord(s: string) {
    |s| > 0 && forall i :: 0 <= i < |s| ==> IsWordChar(s[i])
  }

  /** A word that is not a keyword. */
  predicate IsName(s: string) {
    IsWord(s) && !Reserved(s)
  }

  predicate IsOpWord(s: string) {
    |s| > 0 && forall i :: 0 <= i < |s| ==> IsOpChar(s[i])
  }

  function WordSpan(s: string): (n: nat)
    ensures n <= |s|
    ensures forall i :: 0 <= i < n ==> IsWordChar(s[i])
    ensures n < |s| ==> !IsWordChar(s[n])
  {
    if s == "" || !IsWordChar(s[0]) then 0 else 1 + WordSpan(s[1..])
  }

  function OpSpan(s: string): (n: nat)
    ensures n <= |s|
    ensures forall i :: 0 <= i < n ==> IsOpChar(s[i])
    ensures n < |s| ==> !IsOpChar(s[n])
  {
    if s == "" || !IsOpChar(s[0]) then 0 else 1 + OpSpan(s[1..])
  }

  // The number of characters before the first quote, or the whole length.
  function QuoteSpan(s: string): (n: nat)
    ensures n <= |s|
    ensures forall i :: 0 <= i < n ==> s[i] != '\''
    ensures n < |s| ==> s[n] == '\''
  {
    if s == "" || s[0] == '\'' then 0 else 1 + QuoteSpan(s[1..])
  }

  // How many characters the next token (or blank) takes.
  function TokenLength(s: string): (n: nat)
    requires s != ""
    ensures 0 < n <= |s|
  {
    if IsWordChar(s[0]) then WordSpan(s)
    else if IsOpChar(s[0]) then OpSpan(s)
    else if s[0] == '\'' && QuoteSpan(s[1..]) < |s| - 1 then QuoteSpan(s[1..]) + 2
    else 1
  }

  // The token a piece of text of that length stands for; a blank stands for none.
  function AddToken(t: string, rest: List<Token>): List<Token>
    requires t != ""
  {
    if t[0] == ' ' then rest
    else if IsWordChar(t[0]) then Cons(WordToken(t), rest)
    else if IsOpChar(t[0]) then Cons(Op(t), rest)
    else if |t| > 1 then Cons(Str(t[1..|t| - 1]), rest)
    else Cons(Sym(t[0]), rest)
  }

  function Lex(s: string): List<Token>
    decreases |s|
  {
    if s == "" then Nil
    else
      var n := TokenLength(s);
      AddToken(s[..n], Lex(s[n..]))
  }

  function KeywordOf(w: string): (k: Keyword)
    requires Reserved(w)
    ensures Spell(k) == w
  {
    SpellInjective();
    var k: Keyword :| Spell(k) == w;
    k
  }

  function WordToken(w: string): Token {
    if Reserved(w) then Key(KeywordOf(w)) else Word(w)
  }

  lemma SpellInjective()
    ensures forall j: Keyword, k: Keyword :: Spell(j) == Spell(k) ==> j == k
  {
  }

  lemma SpellIsWord(k: Keyword)
    ensures IsWord(Spell(k)) && WordToken(Spell(k)) == Key(k)
  {
    SpellInjective();
  }

  /******* A token at the front of more text *******/

  predicate QuoteFree(v: string) {
    forall i :: 0 <= i < |v| ==> v[i] != '\''
  }

  // A maximal span is determined by what it satisfies.
  lemma {:induction false} WordSpanIs(s: string, n: nat)
    requires n <= |s|
    requires forall i :: 0 <= i < n ==> IsWordChar(s[i])
    requires n < |s| ==> !IsWordChar(s[n])
    ensures WordSpan(s) == n
  {
    if n > 0 { WordSpanIs(s[1..], n - 1); }
  }

  lemma {:induction false} OpSpanIs(s: string, n: nat)
    requires n <= |s|
    requires forall i :: 0 <= i < n ==> IsOpChar(s[i])
    requires n < |s| ==> !IsOpChar(s[n])
    ensures OpSpan(s) == n
  {
    if n > 0 { OpSpanIs(s[1..], n - 1); }
  }

  lemma {:induction false} QuoteSpanIs(s: string, n: nat)
    requires n < |s| && s[n] == '\''
    requires forall i :: 0 <= i < n ==> s[i] != '\''
    ensures QuoteSpan(s) == n
  {
    if n > 0 { QuoteSpanIs(s[1..], n - 1); }
  }

  lemma {:induction false} LexFront(t: string, s: string)
    requires t != "" && TokenLength(t + s) == |t|
    ensures Lex(t + s) == AddToken(t, Lex(s))
  {
    assert (t + s)[..|t|] == t && (t + s)[|t|..] == s;
  }

  lemma {:induction false} LexWord(w: string, s: string)
    requires IsWord(w) && (s != "" ==> !IsWordChar(s[0]))
    ensures Lex(w + s) == Cons(WordToken(w), Lex(s))
  {
    WordSpanIs(w + s, |w|);
    LexFront(w, s);
  }

  lemma {:induction false} LexOp(o: string, s: string)
    requires IsOpWord(o) && (s != "" ==> !IsOpChar(s[0]))
    ensures Lex(o + s) == Cons(Op(o), Lex(s))
  {
    OpSpanIs(o + s, |o|);
    LexFront(o, s);
  }

  lemma {:induction false} LexLiteral(v: string, s: string)
    requires QuoteFree(v)
    ensures Lex("'" + v + "'" + s) == Cons(Str(v), Lex(s))
  {
    var t := "'" + v + "'";
    assert (t + s)[1..] == v + "'" + s;
    QuoteSpanIs((t + s)[1..], |v|);
    assert t[1..|t| - 1] == v;
    LexFront(t, s);
  }

  lemma {:induction false} LexSymbol(c: char, s: string)
    requires !IsWordChar(c) && !IsOpChar(c) && c != '\''
    ensures Lex([c] + s) == if c == ' ' then Lex(s) else Cons(Sym(c), Lex(s))
  {
    LexFront([c], s);
  }

  /** A value between quotes reads back as itself exactly when it holds no quote. */
  lemma {:induction false} LiteralReadsBack(v: string)
    ensures Lex("'" + v + "'") == Cons(Str(v), Nil) <==> QuoteFree(v)
  {
    var t := "'" + v + "'";
    if QuoteFree(v) {
      LexLiteral(v, "");
      assert t + "" == t;
    } else {
      var i :| 0 <= i < |v| && v[i] == '\'';
      var n := QuoteSpan(t[1..]);
      assert t[1..] == v + "'" && t[1..][i] == '\'';
      assert n <= i;
      assert t[..n + 2][1..n + 1] == v[..n];
      assert Lex(t).head == Str(v[..n]);
    }
  }
}

/**
 The SQL that the library prints, read the way a database reads it: syntax trees, a recursive
 descent parser over tokens, and the value of a search condition.  A `?` is numbered from left
 to right; AND binds tighter than OR (section 8.12 of ISO/IEC 9075:1992).
 */
module SqlGrammar {
  import opened YanTypes
  import opened SqlLexer

  datatype Pred = Pred(col: string, op: string, mark: nat)

  // A search condition: terms joined by OR, each a list of predicates joined by AND.
  type Search = seq<seq<Pred>>

  datatype Order = Order(col: string, descending: bool)
  datatype Tail = Tail(where: Option<Search>, group: Option<string>, order: Option<Order>)
  datatype Column = Column(table: string, name: string)
  datatype Columns = Star | CountOf(name: string) | Listed(columns: seq<Column>)
  datatype Bridge = Bridge(left: Column, right: Column)
  datatype JoinClause = JoinClause(table: string, on: seq<Bridge>)
  datatype Select = Select(columns: Columns, from: string, joins: seq<JoinClause>, tail: Tail)
  datatype Assign = Assign(col: string, mark: nat)
  datatype Literal = NumberText(text: string) | StringText(text: string)
  datatype Statement =
    | Query(members: seq<Select>)
    | Copy(into: string, columns: Columns, from: Select)
    | Insert(into: string, columns: Columns, rows: seq<seq<Literal>>)
    | Update(table: string, sets: seq<Assign>, where: Option<Search>)
    | Delete(table: string, where: Option<Search>)

  type Tokens = List<Token>

  // A phrase read from the front of the tokens, the tokens left, and the next `?` number.
  datatype Reading<+T> = Unread | Read(value: T, rest: Tokens, next: nat)

  predicate Starts(ts: Tokens, t: Token) { ts.Cons? && ts.head == t }

  predicate StartsTwo(ts: Tokens, t: Token, u: Token) { Starts(ts, t) && Starts(ts.tail, u) }

  // One name.
  function ParseName(ts: Tokens): (r: Reading<string>)
    ensures r.Read? ==> r.rest < ts
  {
    if ts.Cons? && ts.head.Word? then Read(ts.head.text, ts.tail, 0) else Unread
  }

  /******* Search conditions and the clauses after them *******/

  function ParsePred(ts: Tokens, k: nat): (r: Reading<Pred>)
    ensures r.Read? ==> r.rest < ts
  {
    match ParseName(ts)
    case Unread => Unread
    case Read(col, rest, _) =>
      if rest.Cons? && rest.head.Op? && Starts(rest.tail, Sym('?'))
      then Read(Pred(col, rest.head.text, k), rest.tail.tail, k + 1)
      else Unread
  }

  function ParseTerm(ts: Tokens, k: nat): (r: Reading<seq<Pred>>)
    ensures r.Read? ==> r.rest < ts
    decreases ts
  {
    match ParsePred(ts, k)
    case Unread => Unread
    case Read(p, rest, k1) =>
      if Starts(rest, Key(AND)) then
        match ParseTerm(rest.tail, k1)
        case Unread => Unread
        case Read(ps, rest2, k2) => Read([p] + ps, rest2, k2)
      else Read([p], rest, k1)
  }

  function ParseSearch(ts: Tokens, k: nat): (r: Reading<Search>)
    ensures r.Read? ==> r.rest < ts
    decreases ts
  {
    match ParseTerm(ts, k)
    case Unread => Unread
    case Read(t, rest, k1) =>
      if Starts(rest, Key(OR)) then
        match ParseSearch(rest.tail, k1)
        case Unread => Unread
        case Read(s, rest2, k2) => Read([t] + s, rest2, k2)
      else Read([t], rest, k1)
  }

  function ParseGroup(ts: Tokens): (r: (Option<string>, Tokens))
    ensures r.1 == ts || r.1 < ts
  {
    if StartsTwo(ts, Key(GROUP), Key(BY)) && ParseName(ts.tail.tail).Read?
    then (Some(ParseName(ts.tail.tail).value), ParseName(ts.tail.tail).rest)
    else (None, ts)
  }

  function ParseOrder(ts: Tokens): (r: (Option<Order>, Tokens))
    ensures r.1 == ts || r.1 < ts
  {
    if StartsTwo(ts, Key(ORDER), Key(BY)) && ParseName(ts.tail.tail).Read? then
      var col, rest := ParseName(ts.tail.tail).value, ParseName(ts.tail.tail).rest;
      if Starts(rest, Key(DESC)) then (Some(Order(col, true)), rest.tail) else (Some(Order(col, false)), rest)
    else (None, ts)
  }

  function ParseWhere(ts: Tokens, k: nat): (r: Reading<Option<Search>>)
    ensures r.Read? ==> r.rest == ts || r.rest < ts
  {
    if Starts(ts, Key(WHERE)) then
      match ParseSearch(ts.tail, k)
      case Unread => Unread
      case Read(s, rest, k1) => Read(Some(s), rest, k1)
    else Read(None, ts, k)
  }

  // [WHERE] [GROUP BY] [ORDER BY]
  function ParseTail(ts: Tokens, k: nat): (r: Reading<Tail>)
    ensures r.Read? ==> r.rest == ts || r.rest < ts
  {
    match ParseWhere(ts, k)
    case Unread => Unread
    case Read(w, rest, k1) =>
      var g := ParseGroup(rest);
      var o := ParseOrder(g.1);
      Read(Tail(w, g.0, o.0), o.1, k1)
  }

  /******* Columns and joins *******/

  function ParseColumn(ts: Tokens): (r: Reading<Column>)
    ensures r.Read? ==> r.rest < ts
  {
    match ParseName(ts)
    case Unread => Unread
    case Read(a, rest, _) =>
      if Starts(rest, Sym('.')) then
        match ParseName(rest.tail)
        case Unread => Unread
        case Read(b, rest2, _) => Read(Column(a, b), rest2, 0)
      else Read(Column("", a), rest, 0)
  }

  function ParseColumnList(ts: Tokens): (r: Reading<seq<Column>>)
    ensures r.Read? ==> r.rest < ts
    decreases ts
  {
    match ParseColumn(ts)
    case Unread => Unread
    case Read(c, rest, _) =>
      if Starts(rest, Sym(',')) then
        match ParseColumnList(rest.tail)
        case Unread => Unread
        case Read(cs, rest2, _) => Read([c] + cs, rest2, 0)
      else Read([c], rest, 0)
  }

  function ParseColumns(ts: Tokens): (r: Reading<Columns>)
    ensures r.Read? ==> r.rest < ts
  {
    if Starts(ts, Sym('*')) then Read(Star, ts.tail, 0)
    else if StartsTwo(ts, Key(COUNT), Sym('(')) then
      match ParseName(ts.tail.tail)
      case Unread => Unread
      case Read(n, rest, _) => if Starts(rest, Sym(')')) then Read(CountOf(n), rest.tail, 0) else Unread
    else
      match ParseColumnList(ts)
      case Unread => Unread
      case Read(cs, rest, _) => Read(Listed(cs), rest, 0)
  }

  function ParseBridge(ts: Tokens): (r: Reading<Bridge>)
    ensures r.Read? ==> r.rest < ts
  {
    match ParseColumn(ts)
    case Unread => Unread
    case Read(a, rest, _) =>
      if Starts(rest, Op("=")) then
        match ParseColumn(rest.tail)
        case Unread => Unread
        case Read(b, rest2, _) => Read(Bridge(a, b), rest2, 0)
      else Unread
  }

  function ParseBridges(ts: Tokens): (r: Reading<seq<Bridge>>)
    ensures r.Read? ==> r.rest < ts
    decreases ts
  {
    match ParseBridge(ts)
    case Unread => Unread
    case Read(b, rest, _) =>
      if Starts(rest, Key(AND)) then
        match ParseBridges(rest.tail)
        case Unread => Unread
        case Read(bs, rest2, _) => Read([b] + bs, rest2, 0)
      else Read([b], rest, 0)
  }

  function ParseJoins(ts: Tokens): (r: Reading<seq<JoinClause>>)
    ensures r.Read? ==> r.rest == ts || r.rest < ts
    decreases ts
  {
    if !StartsTwo(ts, Key(LEFT), Key(JOIN)) then Read([], ts, 0) else
    match ParseName(ts.tail.tail)
    case Unread => Unread
    case Read(t, more, _) =>
      if !Starts(more, Key(ON)) then Unread else
      match ParseBridges(more.tail)
      case Unread => Unread
      case Read(on, rest, _) =>
        match ParseJoins(rest)
        case Unread => Unread
        case Read(js, rest2, _) => Read([JoinClause(t, on)] + js, rest2, 0)
  }

  /******* Statements *******/

  function ParseFrom(ts: Tokens): (r: Reading<string>)
    ensures r.Read? ==> r.rest < ts
  {
    if Starts(ts, Key(FROM)) then ParseName(ts.tail) else Unread
  }

  function ParseSelect(ts: Tokens, k: nat): (r: Reading<Select>)
    ensures r.Read? ==> r.rest < ts
  {
    if !Starts(ts, Key(SELECT)) then Unread else
    match ParseColumns(ts.tail)
    case Unread => Unread
    case Read(cs, rest, _) =>
      match ParseFrom(rest)
      case Unread => Unread
      case Read(from, rest1, _) =>
        match ParseJoins(rest1)
        case Unread => Unread
        case Read(js, rest2, _) =>
          match ParseTail(rest2, k)
          case Unread => Unread
          case Read(tail, rest3, k1) => Read(Select(cs, from, js, tail), rest3, k1)
  }

  // Only the last member of a union may be ordered.
  function ParseUnion(ts: Tokens, k: nat): Reading<seq<Select>>
    decreases ts
  {
    match ParseSelect(ts, k)
    case Unread => Unread
    case Read(s, rest, k1) =>
      if Starts(rest, Key(UNION)) then
        if s.tail.order.Some? then Unread else
        match ParseUnion(rest.tail, k1)
        case Unread => Unread
        case Read(ss, rest2, k2) => Read([s] + ss, rest2, k2)
      else Read([s], rest, k1)
  }

  // name = ?
  function ParseAssign(ts: Tokens, k: nat): (r: Reading<Assign>)
    ensures r.Read? ==> r.rest < ts
  {
    match ParseName(ts)
    case Unread => Unread
    case Read(col, rest, _) =>
      if StartsTwo(rest, Op("="), Sym('?')) then Read(Assign(col, k), rest.tail.tail, k + 1) else Unread
  }

  function ParseAssigns(ts: Tokens, k: nat): Reading<seq<Assign>>
    decreases ts
  {
    match ParseAssign(ts, k)
    case Unread => Unread
    case Read(a, rest, k1) =>
      if Starts(rest, Sym(',')) then
        match ParseAssigns(rest.tail, k1)
        case Unread => Unread
        case Read(sets, rest2, k2) => Read([a] + sets, rest2, k2)
      else Read([a], rest, k1)
  }

  function ParseLiteral(ts: Tokens): (r: Reading<Literal>)
    ensures r.Read? ==> r.rest < ts
  {
    match ts
    case Cons(Word(w), rest) => Read(NumberText(w), rest, 0)
    case Cons(Str(s), rest) => Read(StringText(s), rest, 0)
    case _ => Unread
  }

  function ParseLiterals(ts: Tokens): (r: Reading<seq<Literal>>)
    ensures r.Read? ==> r.rest < ts
    decreases ts
  {
    match ParseLiteral(ts)
    case Unread => Unread
    case Read(v, rest, _) =>
      if Starts(rest, Sym(',')) then
        match ParseLiterals(rest.tail)
        case Unread => Unread
        case Read(vs, rest2, _) => Read([v] + vs, rest2, 0)
      else Read([v], rest, 0)
  }

  function ParseRow(ts: Tokens): (r: Reading<seq<Literal>>)
    ensures r.Read? ==> r.rest < ts
  {
    if !Starts(ts, Sym('(')) then Unread else
    match ParseLiterals(ts.tail)
    case Unread => Unread
    case Read(row, rest, _) => if Starts(rest, Sym(')')) then Read(row, rest.tail, 0) else Unread
  }

  function ParseRows(ts: Tokens): (r: Reading<seq<seq<Literal>>>)
    decreases ts
  {
    match ParseRow(ts)
    case Unread => Unread
    case Read(row, rest, _) =>
      if Starts(rest, Sym(',')) then
        match ParseRows(rest.tail)
        case Unread => Unread
        case Read(rows, rest2, _) => Read([row] + rows, rest2, 0)
      else Read([row], rest, 0)
  }

  // INSERT INTO name (columns), then VALUES or a SELECT.
  function ParseInto(ts: Tokens): Reading<Statement> {
    if !StartsTwo(ts, Key(INSERT), Key(INTO)) then Unread else
    match ParseName(ts.tail.tail)
    case Unread => Unread
    case Read(into, more, _) => if Starts(more, Sym('(')) then ParseIntoBody(into, more.tail) else Unread
  }

  // The columns a row can be inserted into: plain names of the one table.
  predicate Unqualified(cs: Columns) {
    cs.Listed? && forall i :: 0 <= i < |cs.columns| ==> cs.columns[i].table == ""
  }

  function ParseIntoBody(into: string, ts: Tokens): Reading<Statement> {
    match ParseColumns(ts)
    case Unread => Unread
    case Read(cs, rest, _) =>
      if !Unqualified(cs) then Unread
      else if StartsTwo(rest, Sym(')'), Key(VALUES)) then
        match ParseRows(rest.tail.tail)
        case Unread => Unread
        case Read(rows, rest2, _) => Read(Insert(into, cs, rows), rest2, 1)
      else if Starts(rest, Sym(')')) then
        match ParseSelect(rest.tail, 1)
        case Unread => Unread
        case Read(s, rest2, k) => Read(Copy(into, cs, s), rest2, k)
      else Unread
  }

  function ParseUpdate(ts: Tokens): Reading<Statement> {
    if !Starts(ts, Key(UPDATE)) then Unread else
    match ParseName(ts.tail)
    case Unread => Unread
    case Read(t, more, _) =>
      if !Starts(more, Key(SET)) then Unread else
      match ParseAssigns(more.tail, 1)
      case Unread => Unread
      case Read(sets, rest, k) =>
        match ParseWhere(rest, k)
        case Unread => Unread
        case Read(w, rest2, k1) => Read(Update(t, sets, w), rest2, k1)
  }

  function ParseDelete(ts: Tokens): Reading<Statement> {
    if !Starts(ts, Key(DELETE)) then Unread else
    match ParseFrom(ts.tail)
    case Unread => Unread
    case Read(t, more, _) =>
      match ParseWhere(more, 1)
      case Unread => Unread
      case Read(w, rest, k) => Read(Delete(t, w), rest, k)
  }

  function ParseQuery(ts: Tokens): Reading<Statement> {
    match ParseUnion(ts, 1)
    case Unread => Unread
    case Read(ss, rest, k) => Read(Query(ss), rest, k)
  }

  function ParseAny(ts: Tokens): Reading<Statement> {
    if Starts(ts, Key(SELECT)) then ParseQuery(ts)
    else if Starts(ts, Key(INSERT)) then ParseInto(ts)
    else if Starts(ts, Key(UPDATE)) then ParseUpdate(ts)
    else ParseDelete(ts)
  }

  const END: Tokens := Cons(Sym(';'), Nil)

  /** A whole statement, closed by the semicolon that `create_stmt` appends. */
  function ParseText(sql: string): Option<Statement> {
    match ParseAny(Lex(sql))
    case Unread => None
    case Read(s, rest, _) => if rest == END then Some(s) else None
  }

  // What `sqlite3_bind_parameter_count` answers.
  function Marks(ts: Tokens): nat {
    match ts
    case Nil => 0
    case Cons(t, rest) => (if t == Sym('?') then 1 else 0) + Marks(rest)
  }

  /******* The value of a search condition *******/

  type Row = map<string, Option<Value>>

  // A column the row lacks reads as NULL; so does an unbound `?`.
  function Field(row: Row, col: string): Option<Value> {
    if col in row then row[col] else None
  }

  function Bound(binds: seq<Option<Value>>, mark: nat): Option<Value> {
    if 1 <= mark <= |binds| then binds[mark - 1] else None
  }

  function EvalPred(p: Pred, row: Row, binds: seq<Option<Value>>): Truth {
    SqlCompare(p.op, Field(row, p.col), Bound(binds, p.mark))
  }

  function AndTruth(a: Truth, b: Truth): Truth {
    if a.False? || b.False? then False else if a.True? && b.True? then True else Unknown
  }

  function OrTruth(a: Truth, b: Truth): Truth {
    if a.True? || b.True? then True else if a.False? && b.False? then False else Unknown
  }

  function EvalTerm(ps: seq<Pred>, row: Row, binds: seq<Option<Value>>): Truth {
    if ps == [] then True else AndTruth(EvalPred(ps[0], row, binds), EvalTerm(ps[1..], row, binds))
  }

  function EvalSearch(s: Search, row: Row, binds: seq<Option<Value>>): Truth {
    if s == [] then False else OrTruth(EvalTerm(s[0], row, binds), EvalSearch(s[1..], row, binds))
  }
}

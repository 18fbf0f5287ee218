/** The texts the generators build, as functions of the query. */
module SqlText {
  import opened YanTypes
  import opened SqlLexer
  import opened SqlGrammar
  import opened QueryModel

  function ColumnText(c: Column): string {
    if c.table == "" then c.name else c.table + "." + c.name
  }

  function ColumnListText(cs: seq<Column>): string {
    if cs == [] then ""
    else if |cs| == 1 then ColumnText(cs[0])
    else ColumnText(cs[0]) + ", " + ColumnListText(cs[1..])
  }

  function ColumnsText(cs: Columns): string {
    match cs
    case Star => "*"
    case CountOf(name) => "COUNT(" + name + ")"
    case Listed(columns) => ColumnListText(columns)
  }

  function PredText(n: Named): string {
    n.col + OpsText(n.op, n.cond.Not?) + "?"
  }

  function Connective(c: CondType): Keyword {
    if c.Or? then OR else AND
  }

  function CondText(n: Named, first: bool): string {
    match n.cond
    case Group => " GROUP BY " + n.col
    case OrderAsc => " ORDER BY " + n.col
    case OrderDesc => " ORDER BY " + n.col + " DESC "
    case _ => (if first then "" else if n.cond.Or? then " OR " else " AND ") + PredText(n)
  }

  function CondsText(ns: seq<Named>, first: bool): string {
    if ns == [] then "" else CondText(ns[0], first) + CondsText(ns[1..], false)
  }

  /** GROUP and ORDER may not come first: "first condition should be pointed to a field". */
  predicate CondsThrow(ns: seq<Named>, first: bool) {
    first && |ns| > 0 && !IsLogical(ns[0].cond)
  }

  // An absent condition prints no WHERE.
  function WhereText(ns: seq<Named>): string {
    if ns == [] then "" else " WHERE " + CondsText(ns, true)
  }

  function HeadText(cols: Columns, from: string): string {
    "SELECT " + ColumnsText(cols) + " FROM " + from
  }

  // What one SELECT prints: columns, table and conditions.
  datatype Parts = Parts(cols: Columns, from: string, ns: seq<Named>)

  function SelectText(p: Parts): string {
    HeadText(p.cols, p.from) + WhereText(p.ns)
  }

  function QueryColumns(c: ReadCond): Result<Columns> {
    if ReturnsWholeTable(c) then Ok(Star) else ReadColumns(c)
  }

  predicate QueryThrows(c: ReadCond)
    requires WellFormed(c)
  {
    QueryColumns(c).Thrown? || ObjName(c).Thrown? || CondsThrow(NamedConds(c), true)
  }

  /** Making a query throws exactly without a table, for a count of a table without members, and for a GROUP
      or ORDER as its first condition. */
  lemma QueryThrowsIff(c: ReadCond)
    requires WellFormed(c)
    ensures QueryThrows(c) <==>
      || (c.table == None && c.ret == Count)
      || (c.ret == Count && c.table.value.members == [])
      || (c.params.Some? && c.params.value[0].cond in {Group, OrderAsc, OrderDesc})
  {
    NamedCondsAt(c, 0);
  }

  function PartsOf(c: ReadCond): Parts
    requires WellFormed(c) && !QueryThrows(c)
  {
    Parts(QueryColumns(c).value, ObjName(c).value, NamedConds(c))
  }

  /** The text of one `make(const ReadCond*)`. */
  function QueryText(c: ReadCond): string
    requires WellFormed(c) && !QueryThrows(c)
  {
    SelectText(PartsOf(c))
  }

  predicate AllWellFormed(cs: seq<ReadCond>) {
    forall i :: 0 <= i < |cs| ==> WellFormed(cs[i])
  }

  predicate UnionThrows(cs: seq<ReadCond>)
    requires AllWellFormed(cs)
  {
    cs == [] || exists i :: 0 <= i < |cs| && QueryThrows(cs[i])
  }

  function MemberParts(cs: seq<ReadCond>): (ps: seq<Parts>)
    requires forall i :: 0 <= i < |cs| ==> WellFormed(cs[i]) && !QueryThrows(cs[i])
    ensures |ps| == |cs|
    ensures forall i :: 0 <= i < |cs| ==> ps[i] == PartsOf(cs[i])
  {
    if cs == [] then [] else [PartsOf(cs[0])] + MemberParts(cs[1..])
  }

  function UnionOfText(ps: seq<Parts>): string {
    if ps == [] then ""
    else if |ps| == 1 then SelectText(ps[0])
    else SelectText(ps[0]) + " UNION " + UnionOfText(ps[1..])
  }

  function UnionText(cs: seq<ReadCond>): string
    requires AllWellFormed(cs) && !UnionThrows(cs)
  {
    UnionOfText(MemberParts(cs))
  }

  // `field_bridge`
  function BridgeText(b: Bridge): string {
    ColumnText(b.left) + " = " + ColumnText(b.right)
  }

  function BridgesText(bs: seq<Bridge>): string {
    if bs == [] then ""
    else if |bs| == 1 then BridgeText(bs[0])
    else BridgeText(bs[0]) + " AND " + BridgesText(bs[1..])
  }

  function JoinsText(js: seq<JoinCond>): string {
    if js == [] then ""
    else " LEFT JOIN " + js[0].table.name + " ON " + BridgesText(js[0].equals) + JoinsText(js[1..])
  }

  predicate AllConditional(cs: seq<ReadCond>) {
    forall i :: 0 <= i < |cs| ==> WellFormed(cs[i]) && HasCond(cs[i])
  }

  predicate JoinThrows(ret: Ret, js: seq<JoinCond>, cs: seq<ReadCond>)
    requires AllConditional(cs)
  {
    js == [] || ret.Count? || CondsThrow(AllConds(cs), true)
  }

  /** A join read.  The equalities of the first table follow its name with nothing between. */
  function JoinText(ret: Ret, js: seq<JoinCond>, cs: seq<ReadCond>): string
    requires AllConditional(cs) && !JoinThrows(ret, js, cs)
  {
    HeadText(RetColumns(ret).value, js[0].table.name) + BridgesText(js[0].equals)
    + JoinsText(js[1..]) + WhereText(AllConds(cs))
  }

  predicate CopyThrows(froms: seq<JoinCond>, into: Ret, cs: seq<ReadCond>)
    requires AllConditional(cs)
  {
    |froms| != 1 || into.Count? || CondsThrow(AllConds(cs), true)
  }

  // The first comparison that a list of condition objects prints.
  function FirstCond(cs: seq<ReadCond>): Option<CondType>
    requires AllConditional(cs)
  {
    if cs == [] then None else Some(cs[0].params.value[0].cond)
  }

  /** Making a join throws exactly without a table, for a count, and for a GROUP or ORDER as its first
      condition; a copy exactly for another number of source tables than one, and for the same. */
  lemma JoinThrowsIff(js: seq<JoinCond>, ret: Ret, cs: seq<ReadCond>)
    requires AllConditional(cs)
    ensures JoinThrows(ret, js, cs) <==>
      |js| == 0 || ret == Count || FirstCond(cs) in {Some(Group), Some(OrderAsc), Some(OrderDesc)}
    ensures CopyThrows(js, ret, cs) <==>
      |js| != 1 || ret == Count || FirstCond(cs) in {Some(Group), Some(OrderAsc), Some(OrderDesc)}
  {
    if cs != [] {
      hide NamedConds, FieldsKnown;
      NamedCondsAt(cs[0], 0);
      assert AllConds(cs)[0] == NamedConds(cs[0])[0];
    }
  }

  function IntoText(into: string, cols: Columns): string {
    "INSERT INTO " + into + " (" + ColumnsText(cols) + ") "
  }

  function CopyText(froms: seq<JoinCond>, into: Ret, cs: seq<ReadCond>): string
    requires AllConditional(cs) && !CopyThrows(froms, into, cs)
  {
    IntoText(into.table.name, RetColumns(into).value)
    + SelectText(Parts(RetColumns(into).value, froms[0].table.name, AllConds(cs)))
  }

  predicate DeleteThrows(c: ReadCond)
    requires WellFormed(c)
  {
    ObjName(c).Thrown? || CondsThrow(NamedConds(c), true)
  }

  function DeleteText(c: ReadCond): string
    requires WellFormed(c) && !DeleteThrows(c)
  {
    "DELETE FROM " + ObjName(c).value + WhereText(NamedConds(c))
  }

  function SetsText(names: seq<string>): string {
    if names == [] then ""
    else if |names| == 1 then names[0] + " = ?"
    else names[0] + " = ?" + ", " + SetsText(names[1..])
  }

  function SetNames(t: Table, seqs: seq<nat>): (names: seq<string>)
    requires forall i :: 0 <= i < |seqs| ==> seqs[i] < |t.members|
    ensures |names| == |seqs|
    ensures forall i :: 0 <= i < |seqs| ==> names[i] == t.members[seqs[i]].name
  {
    if seqs == [] then [] else [t.members[seqs[0]].name] + SetNames(t, seqs[1..])
  }

  // Sqlite tables are flat: `ComReadRef` throws on a struct member.
  predicate AllScalar(t: Table, seqs: seq<nat>)
    requires forall i :: 0 <= i < |seqs| ==> seqs[i] < |t.members|
  {
    forall i :: 0 <= i < |seqs| ==> IsScalar(t.members[seqs[i]].ytype)
  }

  predicate UpdateThrows(u: UpdateCond)
    requires WellFormedUpdate(u)
  {
    u.seqs == [] || !AllScalar(u.cond.ret.table, u.seqs) || CondsThrow(NamedConds(u.cond), true)
  }

  function UpdateText(u: UpdateCond): string
    requires WellFormedUpdate(u)
  {
    "UPDATE " + u.cond.ret.table.name + " SET " + SetsText(SetNames(u.cond.ret.table, u.seqs))
    + WhereText(NamedConds(u.cond))
  }
}

/** Tables, parameters and conditions as `ReadCond`, `UpdateCond` and `JoinReadCond` hold them. */
module QueryModel {
  import opened YanTypes
  import opened SqlGrammar

  // `name` is what `get_name` answers (the alias when there is one); `from` is the table a member
  // of a temporary struct comes from, empty otherwise.
  datatype Member = Member(name: string, ytype: YanType, from: string, length: int, canBeNull: bool)

  // `origin` identifies the C++ struct, `name` is the table name.
  datatype Table = Table(origin: string, name: string, members: seq<Member>)

  // One comparison: `field` is the member's seq.  The list of an EQUAL_LIST is never read by
  // the sqlite side, so one value is enough.
  datatype Param = Param(field: nat, cond: CondType, op: OpsType, ytype: YanType, value: Value)

  datatype Ret = Count | Rows(table: Table)

  // `table` and `params` are `cys_` and `params_`, with None for a null pointer.
  datatype ReadCond = ReadCond(ret: Ret, table: Option<Table>, params: Option<seq<Param>>)

  // The assigned members of the copied object: their seqs in the order of the std::set.
  datatype UpdateCond = UpdateCond(cond: ReadCond, seqs: seq<nat>, values: map<nat, Value>)

  datatype JoinCond = JoinCond(table: Table, equals: seq<Bridge>)

  predicate HasCond(c: ReadCond) {
    c.table.Some? && c.params.Some?
  }

  /** What the builder guarantees of a condition object: parameters belong to scalar members of the
      table, and the parameter list exists only once something was appended to it. */
  predicate WellFormed(c: ReadCond) {
    c.params.Some? ==> c.table.Some? && |c.params.value| > 0 && FieldsKnown(c.table.value, c.params.value)
  }

  predicate FieldsKnown(t: Table, ps: seq<Param>) {
    forall i :: 0 <= i < |ps| ==> ps[i].field < |t.members| && IsScalar(ps[i].ytype)
  }

  predicate WellFormedUpdate(u: UpdateCond) {
    && WellFormed(u.cond)
    && u.cond.ret.Rows? && u.cond.table == Some(u.cond.ret.table)
    && (forall i :: 0 <= i < |u.seqs| ==>
          u.seqs[i] < |u.cond.ret.table.members| && u.seqs[i] in u.values
          && !u.cond.ret.table.members[u.seqs[i]].ytype.List?)
  }

  // `ret_equal_to_cond`
  predicate ReturnsWholeTable(c: ReadCond) {
    c.ret.Rows? && (c.table.None? || c.table.value == c.ret.table)
  }

  // `get_obj_name`
  function ObjName(c: ReadCond): Result<string> {
    if c.table.Some? then Ok(c.table.value.name)
    else if c.ret.Rows? then Ok(c.ret.table.name)
    else Thrown
  }

  // The first member that `count` may use: `_get_read_members<int64_t>` skips AUTO_INCREMENT.
  function CountMember(ms: seq<Member>): Option<string> {
    if ms == [] then None
    else if ms[0].ytype.AutoIncrement? then CountMember(ms[1..])
    else Some(ms[0].name)
  }

  function MemberColumns(ms: seq<Member>): (cs: seq<Column>)
    ensures |cs| == |ms|
    ensures forall i :: 0 <= i < |ms| ==> cs[i] == Column(ms[i].from, ms[i].name)
  {
    if ms == [] then [] else [Column(ms[0].from, ms[0].name)] + MemberColumns(ms[1..])
  }

  // `get_read_members`
  function ReadColumns(c: ReadCond): Result<Columns> {
    match c.ret
    case Rows(_) => RetColumns(c.ret)
    case Count =>
      if c.table.None? || c.table.value.members == [] then Thrown
      else
        match CountMember(c.table.value.members)
        case None => Ok(Listed([]))
        case Some(name) => Ok(CountOf(name))
  }

  // `_get_read_members` of a result type that has no condition beside it (JOIN and COPY).
  function RetColumns(ret: Ret): Result<Columns> {
    match ret
    case Rows(t) => Ok(Listed(MemberColumns(t.members)))
    case Count => Thrown
  }

  // A parameter with its member name looked up, as `append_cond` hands it on.
  datatype Named = Named(col: string, cond: CondType, op: OpsType, ytype: YanType, value: Value)

  function Resolve(t: Table, ps: seq<Param>): (ns: seq<Named>)
    requires FieldsKnown(t, ps)
    ensures |ns| == |ps|
  {
    if ps == [] then []
    else [Named(t.members[ps[0].field].name, ps[0].cond, ps[0].op, ps[0].ytype, ps[0].value)]
         + Resolve(t, ps[1..])
  }

  /** Each condition is about the member whose seq it holds, with its own operator and value. */
  lemma {:induction false} ResolveAt(t: Table, ps: seq<Param>, i: nat)
    requires FieldsKnown(t, ps) && i < |ps|
    ensures Resolve(t, ps)[i] == Named(t.members[ps[i].field].name, ps[i].cond, ps[i].op, ps[i].ytype, ps[i].value)
  {
    if i > 0 { ResolveAt(t, ps[1..], i - 1); }
  }

  function NamedConds(c: ReadCond): seq<Named>
    requires WellFormed(c)
  {
    if HasCond(c) then Resolve(c.table.value, c.params.value) else []
  }

  lemma {:induction false} NamedCondsAt(c: ReadCond, i: nat)
    requires WellFormed(c)
    ensures c.params.None? ==> NamedConds(c) == []
    ensures c.params.Some? ==> |NamedConds(c)| == |c.params.value|
    ensures c.params.Some? && i < |c.params.value| ==>
      var p := c.params.value[i];
      NamedConds(c)[i] == Named(c.table.value.members[p.field].name, p.cond, p.op, p.ytype, p.value)
  {
    if c.params.Some? && i < |c.params.value| { ResolveAt(c.table.value, c.params.value, i); }
  }

  /** All conditions of a JOIN or COPY form one list: the flags are not reset between tables. */
  function AllConds(cs: seq<ReadCond>): seq<Named>
    requires forall i :: 0 <= i < |cs| ==> WellFormed(cs[i])
  {
    if cs == [] then [] else NamedConds(cs[0]) + AllConds(cs[1..])
  }
}

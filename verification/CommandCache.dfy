/** Commands for one table against the statement cache. */
module CommandCache {
  import opened YanTypes
  import opened QueryModel
  import opened BindSql
  import opened CommandKey
  import opened StmtCache

  // A command with the way its rows are consumed.
  datatype Request = Request(cmd: Command, mode: Mode, fetchable: bool)

  function PlanFor(cmd: Command): Plan
    requires WellFormedCommand(cmd)
  {
    match cmd
    case ReadCommand(c) => PlanOf(NamedConds(c))
    case DeleteCommand(c) => PlanOf(NamedConds(c))
    case UpdateCommand(u) => UpdatePlan(u)
  }

  // What `read`, `del` and `update` hand to `execute`.
  function CallOf(q: Request): Call
    requires WellFormedCommand(q.cmd) && Keyed(q.cmd)
  {
    Call(KeyOf(q.cmd), CommandText(q.cmd), PlanFor(q.cmd), q.mode, q.fetchable)
  }

  predicate AllKeyed(qs: seq<Request>) {
    forall i :: 0 <= i < |qs| ==> WellFormedCommand(qs[i].cmd) && Keyed(qs[i].cmd)
  }

  function CallsOf(qs: seq<Request>): (cs: seq<Call>)
    requires AllKeyed(qs)
    ensures |cs| == |qs| && forall i :: 0 <= i < |qs| ==> cs[i] == CallOf(qs[i])
  {
    if qs == [] then [] else [CallOf(qs[0])] + CallsOf(qs[1..])
  }

  predicate AllOneTable(qs: seq<Request>, t: Table) {
    forall i :: 0 <= i < |qs| ==> OneTable(qs[i].cmd, t)
  }

  predicate SomeCountsAll(qs: seq<Request>) {
    exists i :: 0 <= i < |qs| && CountsAll(qs[i].cmd)
  }

  predicate SomeReadsAll(qs: seq<Request>) {
    exists i :: 0 <= i < |qs| && ReadsAll(qs[i].cmd)
  }

  predicate SomeUpdatesClash(qs: seq<Request>, t: Table)
    requires AllOneTable(qs, t)
  {
    exists i, j :: 0 <= i < |qs| && 0 <= j < |qs| && DigitsClash(qs[i].cmd, qs[j].cmd)
  }

  /** Requests for one table collide exactly when unconditional counts and unconditional reads are mixed,
      or two updates clash in their digits. */
  lemma {:induction false} CollisionFreeIff(qs: seq<Request>, t: Table)
    requires AllOneTable(qs, t) && Ordinary(t)
    ensures CollisionFree(CallsOf(qs))
            <==> !(SomeCountsAll(qs) && SomeReadsAll(qs)) && !SomeUpdatesClash(qs, t)
  {
    var cs := CallsOf(qs);
    if SomeCountsAll(qs) && SomeReadsAll(qs) {
      var i :| 0 <= i < |qs| && CountsAll(qs[i].cmd);
      var j :| 0 <= j < |qs| && ReadsAll(qs[j].cmd);
      OnlyCollision(qs[i].cmd, qs[j].cmd, t);
      assert cs[i].key == cs[j].key && cs[i].text != cs[j].text;
    } else if SomeUpdatesClash(qs, t) {
      var i, j :| 0 <= i < |qs| && 0 <= j < |qs| && DigitsClash(qs[i].cmd, qs[j].cmd);
      OnlyCollision(qs[i].cmd, qs[j].cmd, t);
      assert cs[i].key == cs[j].key && cs[i].text != cs[j].text;
    } else {
      forall i, j | 0 <= i < |cs| && 0 <= j < |cs| && cs[i].key == cs[j].key ensures cs[i].text == cs[j].text {
        OnlyCollision(qs[i].cmd, qs[j].cmd, t);
      }
    }
  }

  /** So over any run of other requests the cache is invisible. */
  lemma {:induction false} OneTableInvisible<D(!new)>(e: Engine<D>, db: D, qs: seq<Request>, t: Table, others: seq<D -> D>)
    requires AllOneTable(qs, t) && Ordinary(t) && |others| == |qs| && Stable(e) && StableUnder(e, others)
    requires !(SomeCountsAll(qs) && SomeReadsAll(qs)) && !SomeUpdatesClash(qs, t)
    ensures CachedRun(e, db, map[], CallsOf(qs), others) == FreshRun(e, db, CallsOf(qs), others)
  {
    CollisionFreeIff(qs, t);
    CacheIsInvisible(e, db, CallsOf(qs), others);
  }
}

/**
 Worker threads that handle events: each takes a connection from the spin-locked pool, works, puts
 the connection back and settles its promise.  A step is one access to shared memory.
 */
module EventRuntime {
  import opened YanTypes

  /******* The pool on its own *******/

  // Inside the lock `get` takes the front connection, or creates one, which may fail.
  datatype Got = Got(idle: seq<nat>, used: nat, conn: Option<nat>)

  function TakeOrCreate(idle: seq<nat>, used: nat, created: bool): Got {
    if idle != [] then Got(idle[1..], used, Some(idle[0]))
    else if created then Got(idle, used + 1, Some(used))
    else Got(idle, used, None)
  }

  // Connections are numbered in the order of their creation.
  class ConnectionPool {
    var locked: bool
    var conns: seq<nat>
    var used: nat

    constructor ()
      ensures !locked && conns == [] && used == 0
    {
      locked, conns, used := false, [], 0;
    }

    // `get`, by a thread that finds the lock free; None stands for the thrown exception.
    method Get(created: bool) returns (conn: Option<nat>)
      requires !locked
      modifies this
      ensures !locked && Got(conns, used, conn) == TakeOrCreate(old(conns), old(used), created)
      ensures if old(conns) != [] then conn == Some(old(conns)[0]) && conns == old(conns)[1..] && used == old(used)
              else if created then conn == Some(old(used)) && conns == [] && used == old(used) + 1
              else conn == None && conns == [] && used == old(used)
    {
      locked := true;
      if |conns| > 0 {
        conn := Some(conns[0]);
        conns := conns[1..];
      } else if created {
        conn := Some(used);
        used := used + 1;
      } else {
        locked := false;
        return None;
      }
      locked := false;
    }

    method Release(conn: Option<nat>)
      requires !locked
      modifies this
      ensures !locked && used == old(used)
      ensures conns == if conn.Some? then old(conns) + [conn.value] else old(conns)
    {
      if conn.None? { return; }
      locked := true;
      conns := conns + [conn.value];
      locked := false;
    }
  }

  /******* All threads together *******/

  // Where a thread is in `handle` of an event.
  datatype Phase =
    | Idle
    | Getting(e: nat)                          // spinning in `get`
    | InGet(e: nat)                            // has the lock
    | Taken(e: nat, conn: nat)                 // has the lock and a connection
    | Failed(e: nat)                           // has the lock, the creation failed
    | Working(e: nat, conn: nat)               // runs its statements
    | Releasing(e: nat, conn: nat, ok: bool)   // spinning in `release`
    | InRelease(e: nat, conn: nat, ok: bool)   // has the lock
    | Pushed(e: nat, ok: bool)                 // has the lock, the connection is back
    | Settling(e: nat, ok: bool)               // about to settle the promise

  // What happened to an event so far: connections obtained and given back, how its statements ended,
  // the promise, and the thread that handles it.
  datatype Log = Log(gets: nat, puts: nat, worked: Option<bool>, settled: seq<bool>, handler: Option<nat>)

  // The flag is set when `owner` is not None; whose it is, and where each connection is, are kept for
  // the statements below only.
  datatype State = State(
    owner: Option<nat>,
    idle: seq<nat>,
    used: nat,
    threads: seq<Phase>,
    holder: seq<Option<nat>>,   // for each created connection the thread that holds it
    log: seq<Log>)              // one entry an event

  datatype Action =
    | Begin(i: nat)
    | TryLock(i: nat)                    // `test_and_set`, in `get` or `release`
    | Take(i: nat, created: bool)
    | Push(i: nat)
    | Unlock(i: nat)
    | Work(i: nat, ok: bool)             // returns or throws
    | Settle(i: nat)

  function Start(workers: nat): State {
    State(None, [], 0, seq(workers, _ => Idle), [], [])
  }

  predicate HasLock(p: Phase) {
    p.InGet? || p.Taken? || p.Failed? || p.InRelease? || p.Pushed?
  }

  predicate Holds(p: Phase) {
    p.Taken? || p.Working? || p.Releasing? || p.InRelease?
  }

  predicate Enabled(s: State, a: Action) {
    match a
    case Begin(i) => i < |s.threads| && s.threads[i].Idle?
    case TryLock(i) => i < |s.threads| && (s.threads[i].Getting? || s.threads[i].Releasing?)
    case Take(i, _) => i < |s.threads| && s.threads[i].InGet?
    case Push(i) => i < |s.threads| && s.threads[i].InRelease?
    case Unlock(i) => i < |s.threads| && (s.threads[i].Taken? || s.threads[i].Failed? || s.threads[i].Pushed?)
    case Work(i, _) => i < |s.threads| && s.threads[i].Working?
    case Settle(i) => i < |s.threads| && s.threads[i].Settling?
  }

  predicate Shape(s: State) {
    && |s.holder| == s.used
    && (forall k :: 0 <= k < |s.idle| ==> s.idle[k] < s.used)
    && (forall i :: 0 <= i < |s.threads| && !s.threads[i].Idle? ==> s.threads[i].e < |s.log|)
    && (forall i :: 0 <= i < |s.threads| && Holds(s.threads[i]) ==> s.threads[i].conn < s.used)
  }

  function HeldCount(ts: seq<Phase>): nat {
    if ts == [] then 0 else (if Holds(ts[0]) then 1 else 0) + HeldCount(ts[1..])
  }

  function AfterTake(s: State, i: nat, created: bool): State
    requires Shape(s) && i < |s.threads| && s.threads[i].InGet?
  {
    var e, g := s.threads[i].e, TakeOrCreate(s.idle, s.used, created);
    if g.conn.None? then s.(threads := s.threads[i := Failed(e)])
    else
      var c, ts := g.conn.value, s.threads[i := Taken(e, g.conn.value)];
      s.(idle := g.idle, used := g.used, threads := ts,
         holder := if c < s.used then s.holder[c := Some(i)] else s.holder + [Some(i)],
         log := s.log[e := s.log[e].(gets := s.log[e].gets + 1)])
  }

  function AfterPush(s: State, i: nat): State
    requires Shape(s) && i < |s.threads| && s.threads[i].InRelease?
  {
    var p := s.threads[i];
    s.(idle := s.idle + [p.conn], threads := s.threads[i := Pushed(p.e, p.ok)], holder := s.holder[p.conn := None],
       log := s.log[p.e := s.log[p.e].(puts := s.log[p.e].puts + 1)])
  }

  // Past the critical section.
  function Unlocked(p: Phase): Phase
    requires p.Taken? || p.Failed? || p.Pushed?
  {
    match p
    case Taken(e, c) => Working(e, c)
    case Failed(e) => Settling(e, false)
    case Pushed(e, ok) => Settling(e, ok)
  }

  // Inside it.
  function Locked(p: Phase): Phase
    requires p.Getting? || p.Releasing?
  {
    if p.Getting? then InGet(p.e) else InRelease(p.e, p.conn, p.ok)
  }

  function Apply(s: State, a: Action): State
    requires Shape(s) && Enabled(s, a)
  {
    match a
    case Begin(i) => s.(threads := s.threads[i := Getting(|s.log|)], log := s.log + [Log(0, 0, None, [], Some(i))])
    case TryLock(i) =>
      if s.owner.Some? then s else s.(owner := Some(i), threads := s.threads[i := Locked(s.threads[i])])
    case Take(i, created) => AfterTake(s, i, created)
    case Push(i) => AfterPush(s, i)
    case Unlock(i) => s.(owner := None, threads := s.threads[i := Unlocked(s.threads[i])])
    case Work(i, ok) =>
      var p := s.threads[i];
      s.(threads := s.threads[i := Releasing(p.e, p.conn, ok)], log := s.log[p.e := s.log[p.e].(worked := Some(ok))])
    case Settle(i) =>
      var p := s.threads[i];
      s.(threads := s.threads[i := Idle],
         log := s.log[p.e := s.log[p.e].(settled := s.log[p.e].settled + [p.ok], handler := None)])
  }

  /******* What every step keeps *******/

  // A thread is inside the lock exactly when it owns the flag.
  predicate LockAgrees(s: State) {
    && (s.owner.Some? ==> s.owner.value < |s.threads|)
    && forall i :: 0 <= i < |s.threads| ==> (HasLock(s.threads[i]) <==> s.owner == Some(i))
  }

  // Every created connection is idle at exactly one place, or held by exactly one thread.
  predicate ConnsAgree(s: State)
    requires Shape(s)
  {
    && (forall j, k :: 0 <= j < k < |s.idle| ==> s.idle[j] != s.idle[k])
    && (forall k :: 0 <= k < |s.idle| ==> s.holder[s.idle[k]].None?)
    && (forall i :: 0 <= i < |s.threads| && Holds(s.threads[i]) ==> s.holder[s.threads[i].conn] == Some(i))
    && (forall c :: 0 <= c < s.used && s.holder[c].None? ==> c in s.idle)
    && (forall c :: 0 <= c < s.used && s.holder[c].Some? ==>
          var i := s.holder[c].value; i < |s.threads| && Holds(s.threads[i]) && s.threads[i].conn == c)
  }

  predicate CountsAgree(s: State) {
    s.used == |s.idle| + HeldCount(s.threads)
  }

  // What the log of an event must be at each point of its handling.
  predicate LogFits(p: Phase, l: Log)
    requires !p.Idle?
  {
    && l.settled == []
    && match p
       case Getting(_) => l.gets == l.puts == 0 && l.worked.None?
       case InGet(_) => l.gets == l.puts == 0 && l.worked.None?
       case Failed(_) => l.gets == l.puts == 0 && l.worked.None?
       case Taken(_, _) => l.gets == 1 && l.puts == 0 && l.worked.None?
       case Working(_, _) => l.gets == 1 && l.puts == 0 && l.worked.None?
       case Releasing(_, _, ok) => l.gets == 1 && l.puts == 0 && l.worked == Some(ok)
       case InRelease(_, _, ok) => l.gets == 1 && l.puts == 0 && l.worked == Some(ok)
       case Pushed(_, ok) => l.gets == l.puts == 1 && l.worked == Some(ok)
       case Settling(_, ok) => l.gets == l.puts <= 1 && (l.gets == 1 <==> l.worked.Some?) && (ok <==> l.worked == Some(true))
  }

  // A handled event gave back what it got, ran its statements if it got a connection, and settled its
  // promise once: with a value if they returned, with an exception otherwise.
  predicate Completed(l: Log) {
    l.gets == l.puts <= 1 && (l.gets == 1 <==> l.worked.Some?) && l.settled == [l.worked == Some(true)]
  }

  predicate LogAgrees(s: State)
    requires Shape(s)
  {
    && (forall i :: 0 <= i < |s.threads| && !s.threads[i].Idle? ==>
          s.log[s.threads[i].e].handler == Some(i) && LogFits(s.threads[i], s.log[s.threads[i].e]))
    && (forall e :: 0 <= e < |s.log| ==>
          if s.log[e].handler.None? then Completed(s.log[e])
          else var i := s.log[e].handler.value; i < |s.threads| && !s.threads[i].Idle? && s.threads[i].e == e)
  }

  predicate Invariant(s: State) {
    Shape(s) && LockAgrees(s) && ConnsAgree(s) && CountsAgree(s) && LogAgrees(s)
  }

  lemma StartInvariant(workers: nat)
    ensures Invariant(Start(workers))
  {
    NoneHeld(Start(workers).threads);
  }

  lemma {:induction false} NoneHeld(ts: seq<Phase>)
    requires forall i :: 0 <= i < |ts| ==> !Holds(ts[i])
    ensures HeldCount(ts) == 0
  {
    if ts != [] { NoneHeld(ts[1..]); }
  }

  lemma {:induction false} HeldUpdate(ts: seq<Phase>, i: nat, p: Phase)
    requires i < |ts|
    ensures HeldCount(ts[i := p]) == HeldCount(ts) - (if Holds(ts[i]) then 1 else 0) + (if Holds(p) then 1 else 0)
  {
    if i == 0 {
      assert ts[0 := p][1..] == ts[1..];
    } else {
      assert ts[i := p][1..] == ts[1..][i - 1 := p];
      HeldUpdate(ts[1..], i - 1, p);
    }
  }

  // Thread i moves on, keeping the connection it has or has not.
  predicate SameConn(p: Phase, q: Phase) {
    (Holds(p) <==> Holds(q)) && (Holds(p) ==> p.conn == q.conn)
  }

  function Move(s: State, i: nat, q: Phase): State
    requires i < |s.threads|
  {
    s.(threads := s.threads[i := q])
  }

  lemma MoveConns(s: State, i: nat, q: Phase)
    requires Shape(s) && ConnsAgree(s) && CountsAgree(s) && i < |s.threads| && SameConn(s.threads[i], q)
    requires Shape(Move(s, i, q))
    ensures ConnsAgree(Move(s, i, q)) && CountsAgree(Move(s, i, q))
  {
    HeldUpdate(s.threads, i, q);
  }

  lemma MoveLog(s: State, i: nat, q: Phase)
    requires Shape(s) && LogAgrees(s) && i < |s.threads| && !s.threads[i].Idle? && !q.Idle?
    requires q.e == s.threads[i].e && LogFits(q, s.log[q.e]) && Shape(Move(s, i, q))
    ensures LogAgrees(Move(s, i, q))
  {
  }

  // The owner of the lock is no concern of connections, counts and logs.
  lemma OwnerFrame(s: State, o: Option<nat>)
    requires Shape(s) && ConnsAgree(s) && CountsAgree(s) && LogAgrees(s)
    ensures var r := s.(owner := o); Shape(r) && ConnsAgree(r) && CountsAgree(r) && LogAgrees(r)
  {
  }

  // Nor are the logs of connections and counts.
  lemma LogFrame(s: State, log: seq<Log>)
    requires Shape(s) && ConnsAgree(s) && CountsAgree(s) && |log| == |s.log|
    ensures var r := s.(log := log); Shape(r) && ConnsAgree(r) && CountsAgree(r)
  {
  }

  // Thread i adds to the log of its event.
  lemma LogStep(s: State, i: nat, q: Phase, l: Log)
    requires Shape(s) && LogAgrees(s) && i < |s.threads| && !s.threads[i].Idle? && !q.Idle?
    requires q.e == s.threads[i].e && LogFits(q, l) && l.handler == Some(i)
    requires Shape(Move(s, i, q).(log := s.log[q.e := l]))
    ensures LogAgrees(Move(s, i, q).(log := s.log[q.e := l]))
  {
  }

  /** Every step of every thread keeps the invariant. */
  lemma StepKeeps(s: State, a: Action)
    requires Invariant(s) && Enabled(s, a)
    ensures Invariant(Apply(s, a))
  {
    hide LockAgrees, ConnsAgree, CountsAgree, LogAgrees;
    match a
    case Begin(i) => BeginKeeps(s, i);
    case TryLock(i) => if s.owner.None? { TryLockKeeps(s, i); }
    case Take(i, created) => TakeKeeps(s, i, created);
    case Push(i) => PushKeeps(s, i);
    case Unlock(i) => UnlockKeeps(s, i);
    case Work(i, ok) => WorkKeeps(s, i, ok);
    case Settle(i) => SettleKeeps(s, i);
  }

  lemma BeginKeeps(s: State, i: nat)
    requires Invariant(s) && Enabled(s, Begin(i))
    ensures Invariant(Apply(s, Begin(i)))
  {
    var r := s.(log := s.log + [Log(0, 0, None, [], Some(i))]);
    assert ConnsAgree(r) && CountsAgree(r);
    MoveConns(r, i, Getting(|s.log|));
    BeginLog(s, i);
  }

  lemma BeginLog(s: State, i: nat)
    requires Invariant(s) && Enabled(s, Begin(i))
    ensures Shape(Apply(s, Begin(i))) && LockAgrees(Apply(s, Begin(i))) && LogAgrees(Apply(s, Begin(i)))
  {
    var s' := Apply(s, Begin(i));
    forall j | 0 <= j < |s'.threads| && !s'.threads[j].Idle?
      ensures s'.log[s'.threads[j].e].handler == Some(j) && LogFits(s'.threads[j], s'.log[s'.threads[j].e])
    {
      if j != i { assert s'.log[s'.threads[j].e] == s.log[s.threads[j].e]; }
    }
  }

  lemma TryLockKeeps(s: State, i: nat)
    requires Invariant(s) && Enabled(s, TryLock(i)) && s.owner.None?
    ensures Invariant(Apply(s, TryLock(i)))
  {
    var r, q := s.(owner := Some(i)), Locked(s.threads[i]);
    OwnerFrame(s, r.owner);
    hide ConnsAgree, CountsAgree;
    MoveConns(r, i, q);
    MoveLog(r, i, q);
  }

  lemma UnlockedFits(p: Phase, l: Log)
    requires (p.Taken? || p.Failed? || p.Pushed?) && LogFits(p, l)
    ensures var q := Unlocked(p);
            !q.Idle? && q.e == p.e && LogFits(q, l) && SameConn(p, q) && !HasLock(q)
  {
  }

  lemma UnlockLock(s: State, i: nat)
    requires Invariant(s) && Enabled(s, Unlock(i))
    ensures Shape(Apply(s, Unlock(i))) && LockAgrees(Apply(s, Unlock(i)))
  {
    UnlockedFits(s.threads[i], s.log[s.threads[i].e]);
  }

  lemma UnlockKeeps(s: State, i: nat)
    requires Invariant(s) && Enabled(s, Unlock(i))
    ensures Invariant(Apply(s, Unlock(i)))
  {
    var r, q := s.(owner := None), Unlocked(s.threads[i]);
    UnlockedFits(s.threads[i], s.log[s.threads[i].e]);
    UnlockLock(s, i);
    OwnerFrame(s, r.owner);
    hide ConnsAgree, CountsAgree;
    MoveConns(r, i, q);
    MoveLog(r, i, q);
  }

  lemma WorkKeeps(s: State, i: nat, ok: bool)
    requires Invariant(s) && Enabled(s, Work(i, ok))
    ensures Invariant(Apply(s, Work(i, ok)))
  {
    var p := s.threads[i];
    var q, l := Releasing(p.e, p.conn, ok), s.log[p.e].(worked := Some(ok));
    LogFrame(s, s.log[p.e := l]);
    hide ConnsAgree, CountsAgree;
    MoveConns(s.(log := s.log[p.e := l]), i, q);
    LogStep(s, i, q, l);
  }

  lemma SettleKeeps(s: State, i: nat)
    requires Invariant(s) && Enabled(s, Settle(i))
    ensures Invariant(Apply(s, Settle(i)))
  {
    var p, s' := s.threads[i], Apply(s, Settle(i));
    var r := s.(log := s'.log);
    assert ConnsAgree(r) && CountsAgree(r);
    MoveConns(r, i, Idle);
    assert Completed(s'.log[p.e]);
    SettleLog(s, i);
  }

  lemma SettleLog(s: State, i: nat)
    requires Invariant(s) && Enabled(s, Settle(i)) && Shape(Apply(s, Settle(i)))
    requires Completed(Apply(s, Settle(i)).log[s.threads[i].e])
    ensures LogAgrees(Apply(s, Settle(i)))
  {
    var s' := Apply(s, Settle(i));
    forall j | 0 <= j < |s'.threads| && !s'.threads[j].Idle?
      ensures s'.log[s'.threads[j].e].handler == Some(j) && LogFits(s'.threads[j], s'.log[s'.threads[j].e])
    {
      assert s.log[s.threads[j].e].handler == Some(j) && s.log[s.threads[i].e].handler == Some(i);
    }
  }

  lemma TakeKeeps(s: State, i: nat, created: bool)
    requires Invariant(s) && Enabled(s, Take(i, created))
    ensures Invariant(AfterTake(s, i, created))
  {
    if s.idle != [] {
      ReuseKeeps(s, i, created);
    } else if created {
      CreateKeeps(s, i);
    } else {
      MoveConns(s, i, Failed(s.threads[i].e));
      MoveLog(s, i, Failed(s.threads[i].e));
    }
  }

  lemma GetLog(s: State, i: nat, c: nat)
    requires Invariant(s) && i < |s.threads| && s.threads[i].InGet? && c < s.used
    ensures var e := s.threads[i].e;
            LogAgrees(Move(s, i, Taken(e, c)).(log := s.log[e := s.log[e].(gets := s.log[e].gets + 1)]))
  {
    var e := s.threads[i].e;
    LogStep(s, i, Taken(e, c), s.log[e].(gets := s.log[e].gets + 1));
  }

  // A connection that was idle.
  lemma ReuseKeeps(s: State, i: nat, created: bool)
    requires Invariant(s) && Enabled(s, Take(i, created)) && s.idle != []
    ensures Invariant(AfterTake(s, i, created))
  {
    hide LockAgrees, ConnsAgree, LogAgrees;
    HeldUpdate(s.threads, i, Taken(s.threads[i].e, s.idle[0]));
    ReuseConns(s, i, created);
    ReuseLog(s, i, created);
    ReuseLock(s, i, created);
  }

  lemma ReuseLog(s: State, i: nat, created: bool)
    requires Invariant(s) && Enabled(s, Take(i, created)) && s.idle != [] && Shape(AfterTake(s, i, created))
    ensures LogAgrees(AfterTake(s, i, created))
  {
    GetLog(s, i, s.idle[0]);
  }

  lemma ReuseLock(s: State, i: nat, created: bool)
    requires Invariant(s) && Enabled(s, Take(i, created)) && s.idle != []
    ensures LockAgrees(AfterTake(s, i, created))
  {
  }

  lemma ReuseConns(s: State, i: nat, created: bool)
    requires Invariant(s) && Enabled(s, Take(i, created)) && s.idle != []
    ensures Shape(AfterTake(s, i, created)) && ConnsAgree(AfterTake(s, i, created))
  {
    hide LockAgrees, LogAgrees, CountsAgree, HeldCount;
    var s', c := AfterTake(s, i, created), s.idle[0];
    assert s.holder[c].None? && s'.idle == s.idle[1..] && s'.holder == s.holder[c := Some(i)];
    ReuseIdle(s.idle, s.holder, i);
    forall d | 0 <= d < s'.used && s'.holder[d].None? ensures d in s'.idle {
      assert d in s.idle && d != c;
    }
  }

  lemma ReuseIdle(idle: seq<nat>, holder: seq<Option<nat>>, i: nat)
    requires idle != [] && forall k :: 0 <= k < |idle| ==> idle[k] < |holder| && holder[idle[k]].None?
    requires forall j, k :: 0 <= j < k < |idle| ==> idle[j] != idle[k]
    ensures forall j, k :: 0 <= j < k < |idle[1..]| ==> idle[1..][j] != idle[1..][k]
    ensures forall k :: 0 <= k < |idle[1..]| ==> holder[idle[0] := Some(i)][idle[1..][k]].None?
  {
  }

  // A new connection: every other one is held, so this is a new peak.
  lemma CreateKeeps(s: State, i: nat)
    requires Invariant(s) && Enabled(s, Take(i, true)) && s.idle == []
    ensures Invariant(AfterTake(s, i, true))
  {
    hide LockAgrees, ConnsAgree, LogAgrees;
    HeldUpdate(s.threads, i, Taken(s.threads[i].e, s.used));
    CreateConns(s, i);
    CreateLog(s, i);
    CreateLock(s, i);
  }

  lemma CreateLock(s: State, i: nat)
    requires Invariant(s) && Enabled(s, Take(i, true)) && s.idle == []
    ensures LockAgrees(AfterTake(s, i, true))
  {
  }

  lemma CreateLog(s: State, i: nat)
    requires Invariant(s) && Enabled(s, Take(i, true)) && s.idle == [] && Shape(AfterTake(s, i, true))
    ensures LogAgrees(AfterTake(s, i, true))
  {
    var e := s.threads[i].e;
    var r := s.(used := s.used + 1, holder := s.holder + [Some(i)]);
    LogStep(r, i, Taken(e, s.used), s.log[e].(gets := s.log[e].gets + 1));
  }

  lemma CreateConns(s: State, i: nat)
    requires Invariant(s) && Enabled(s, Take(i, true)) && s.idle == []
    ensures Shape(AfterTake(s, i, true)) && ConnsAgree(AfterTake(s, i, true))
  {
    hide LockAgrees, LogAgrees, CountsAgree, HeldCount;
  }

  lemma PushKeeps(s: State, i: nat)
    requires Invariant(s) && Enabled(s, Push(i))
    ensures Invariant(AfterPush(s, i))
  {
    var p := s.threads[i];
    PushConns(s, i);
    hide ConnsAgree;
    HeldUpdate(s.threads, i, Pushed(p.e, p.ok));
    LogStep(s, i, Pushed(p.e, p.ok), s.log[p.e].(puts := s.log[p.e].puts + 1));
  }

  lemma PushConns(s: State, i: nat)
    requires Invariant(s) && Enabled(s, Push(i))
    ensures Shape(AfterPush(s, i)) && ConnsAgree(AfterPush(s, i))
  {
    var s', c := AfterPush(s, i), s.threads[i].conn;
    assert s.holder[c] == Some(i) && c !in s.idle;
    forall d | 0 <= d < s'.used && s'.holder[d].None? ensures d in s'.idle {
      if d == c { assert s'.idle[|s.idle|] == c; } else { assert d in s.idle; }
    }
  }

  /******* Whole runs *******/

  predicate Possible(s: State, acts: seq<Action>)
    requires Invariant(s)
    decreases |acts|
  {
    acts == [] || (Enabled(s, acts[0]) && (StepKeeps(s, acts[0]); Possible(Apply(s, acts[0]), acts[1..])))
  }

  function Final(s: State, acts: seq<Action>): (r: State)
    requires Invariant(s) && Possible(s, acts)
    ensures Invariant(r) && |r.threads| == |s.threads|
    decreases |acts|
  {
    if acts == [] then s else (StepKeeps(s, acts[0]); Final(Apply(s, acts[0]), acts[1..]))
  }

  lemma {:induction false} HeldBound(ts: seq<Phase>)
    ensures HeldCount(ts) <= |ts|
  {
    if ts != [] { HeldBound(ts[1..]); }
  }

  /** In every reachable state at most one thread is inside the lock, each created connection is idle
      once or held by one thread, and `used_conns_` is idle plus held. */
  lemma {:induction false} PoolIsSafe(workers: nat, acts: seq<Action>)
    requires Invariant(Start(workers)) && Possible(Start(workers), acts)
    ensures var s := Final(Start(workers), acts);
      && (forall i, j :: 0 <= i < j < |s.threads| ==> !(HasLock(s.threads[i]) && HasLock(s.threads[j])))
      && (forall j, k :: 0 <= j < k < |s.idle| ==> s.idle[j] != s.idle[k])
      && (forall i, j :: 0 <= i < j < |s.threads| && Holds(s.threads[i]) && Holds(s.threads[j]) ==>
            s.threads[i].conn != s.threads[j].conn)
      && (forall i :: 0 <= i < |s.threads| && Holds(s.threads[i]) ==> s.threads[i].conn !in s.idle)
      && s.used == |s.idle| + HeldCount(s.threads)
  {
    var s := Final(Start(workers), acts);
    forall i, j | 0 <= i < j < |s.threads| && Holds(s.threads[i]) && Holds(s.threads[j])
      ensures s.threads[i].conn != s.threads[j].conn
    {
      assert s.holder[s.threads[i].conn] == Some(i) && s.holder[s.threads[j].conn] == Some(j);
    }
  }

  // The state after the first k actions.
  function StateAt(s: State, acts: seq<Action>, k: nat): (r: State)
    requires Invariant(s) && Possible(s, acts) && k <= |acts|
    ensures Invariant(r) && |r.threads| == |s.threads|
    decreases k
  {
    if k == 0 then s else (StepKeeps(s, acts[0]); StateAt(Apply(s, acts[0]), acts[1..], k - 1))
  }

  lemma {:induction false} StepAt(s: State, acts: seq<Action>, k: nat)
    requires Invariant(s) && Possible(s, acts) && k < |acts|
    ensures Enabled(StateAt(s, acts, k), acts[k])
    ensures StateAt(s, acts, k + 1) == Apply(StateAt(s, acts, k), acts[k])
    decreases k
  {
    StepKeeps(s, acts[0]);
    if k > 0 {
      StepAt(Apply(s, acts[0]), acts[1..], k - 1);
    } else {
      assert StateAt(Apply(s, acts[0]), acts[1..], 0) == Apply(s, acts[0]);
    }
  }

  lemma {:induction false} StateAtEnd(s: State, acts: seq<Action>)
    requires Invariant(s) && Possible(s, acts)
    ensures StateAt(s, acts, |acts|) == Final(s, acts)
    decreases |acts|
  {
    if acts != [] {
      StepKeeps(s, acts[0]);
      StateAtEnd(Apply(s, acts[0]), acts[1..]);
    }
  }

  // Of the first k actions one held as many connections as there are, and none more.
  ghost predicate PeakAt(s: State, acts: seq<Action>, k: nat)
    requires Invariant(s) && Possible(s, acts) && k <= |acts|
  {
    && (forall j :: 0 <= j <= k ==> HeldCount(StateAt(s, acts, j).threads) <= StateAt(s, acts, k).used)
    && (exists j :: 0 <= j <= k && HeldCount(StateAt(s, acts, j).threads) == StateAt(s, acts, k).used)
  }

  lemma {:induction false} PeakKept(s: State, acts: seq<Action>, k: nat)
    requires Invariant(s) && Possible(s, acts) && k <= |acts| && s.used == 0
    ensures PeakAt(s, acts, k)
  {
    hide Possible, ConnsAgree, LogAgrees, LockAgrees, Shape;
    if k == 0 {
      assert HeldCount(StateAt(s, acts, 0).threads) == 0;
    } else {
      PeakKept(s, acts, k - 1);
      StepAt(s, acts, k - 1);
      Grows(StateAt(s, acts, k - 1), acts[k - 1]);
    }
  }

  // A connection is created only when all there are are held.
  lemma Grows(s: State, a: Action)
    requires Invariant(s) && Enabled(s, a)
    ensures var r := Apply(s, a);
            && Invariant(r) && HeldCount(r.threads) <= r.used
            && (r.used == s.used || (r.used == s.used + 1 && HeldCount(r.threads) == r.used))
  {
    StepKeeps(s, a);
  }

  // The j-th action ends the statements of event e.
  ghost predicate WorksAt(s: State, acts: seq<Action>, j: nat, e: nat, ok: bool)
    requires Invariant(s) && Possible(s, acts) && j < |acts|
  {
    StepAt(s, acts, j);
    acts[j].Work? && acts[j].ok == ok && StateAt(s, acts, j).threads[acts[j].i].e == e
  }

  // Among the first k actions one ends the statements of event e.
  ghost predicate WorkedBy(s: State, acts: seq<Action>, k: nat, e: nat, ok: bool)
    requires Invariant(s) && Possible(s, acts) && k <= |acts|
  {
    exists j :: 0 <= j < k && WorksAt(s, acts, j, e, ok)
  }

  ghost predicate WorksLogged(s: State, acts: seq<Action>, k: nat)
    requires Invariant(s) && Possible(s, acts) && k <= |acts|
  {
    forall e: nat, ok ::
      WorkedBy(s, acts, k, e, ok) <==> Logged(StateAt(s, acts, k), e, ok)
  }

  lemma {:induction false} WorksAreLogged(s: State, acts: seq<Action>, k: nat)
    requires Invariant(s) && Possible(s, acts) && k <= |acts| && s.log == []
    ensures WorksLogged(s, acts, k)
  {
    if k > 0 {
      hide Possible, Invariant, WorkedBy, Logged, StateAt;
      WorksAreLogged(s, acts, k - 1);
      StepAt(s, acts, k - 1);
      forall e: nat, ok
        ensures WorkedBy(s, acts, k, e, ok) <==> Logged(StateAt(s, acts, k), e, ok)
      {
        WorkedByStep(s, acts, k - 1, e, ok);
        LogMoves(StateAt(s, acts, k - 1), acts[k - 1], e, ok);
      }
    }
  }

  predicate Logged(s: State, e: nat, ok: bool) {
    e < |s.log| && s.log[e].worked == Some(ok)
  }

  lemma WorkedByStep(s: State, acts: seq<Action>, k: nat, e: nat, ok: bool)
    requires Invariant(s) && Possible(s, acts) && k < |acts|
    ensures WorkedBy(s, acts, k + 1, e, ok) <==> WorkedBy(s, acts, k, e, ok) || WorksAt(s, acts, k, e, ok)
  {
    hide WorksAt, Invariant, Possible;
  }

  // What a step does to the record of how the statements of an event ended.
  lemma LogMoves(s: State, a: Action, e: nat, ok: bool)
    requires Invariant(s) && Enabled(s, a)
    ensures Logged(Apply(s, a), e, ok)
            <==> Logged(s, e, ok) || (a.Work? && a.ok == ok && s.threads[a.i].e == e)
  {
  }

  /** There are as many connections as were held at once at the peak, and so never more than there are
      workers; every event that is not being handled any more gave back the connection it got. */
  lemma EventsReturnConnections(workers: nat, acts: seq<Action>)
    requires Invariant(Start(workers)) && Possible(Start(workers), acts)
    ensures var s := Final(Start(workers), acts);
      && s.used <= workers
      && (forall j :: 0 <= j <= |acts| ==> HeldCount(StateAt(Start(workers), acts, j).threads) <= s.used)
      && (exists j :: 0 <= j <= |acts| && HeldCount(StateAt(Start(workers), acts, j).threads) == s.used)
      && (forall e :: 0 <= e < |s.log| && s.log[e].handler.None? ==> s.log[e].gets == s.log[e].puts)
      && ((forall i :: 0 <= i < |s.threads| ==> s.threads[i].Idle?) ==>
            |s.idle| == s.used && forall e :: 0 <= e < |s.log| ==> Completed(s.log[e]))
  {
    hide LockAgrees, ConnsAgree, Possible;
    var s0, s := Start(workers), Final(Start(workers), acts);
    StateAtEnd(s0, acts);
    PeakKept(s0, acts, |acts|);
    var j :| 0 <= j <= |acts| && HeldCount(StateAt(s0, acts, j).threads) == s.used;
    HeldBound(StateAt(s0, acts, j).threads);
    if forall i :: 0 <= i < |s.threads| ==> s.threads[i].Idle? { NoneHeld(s.threads); }
  }

  /** A promise is settled once, when its event is done: with a value exactly when its statements ran
      and returned, and with an exception when they threw or no connection could be had. */
  lemma SettledAsWorked(workers: nat, acts: seq<Action>, e: nat)
    requires Invariant(Start(workers)) && Possible(Start(workers), acts) && e < |Final(Start(workers), acts).log|
    ensures var s0, l := Start(workers), Final(Start(workers), acts).log[e];
      && (l.handler.Some? ==> l.settled == [])
      && (l.handler.None? ==>
            && l.settled == [WorkedBy(s0, acts, |acts|, e, true)]
            && (l.gets == 1 <==> WorkedBy(s0, acts, |acts|, e, true) || WorkedBy(s0, acts, |acts|, e, false)))
  {
    hide LockAgrees, ConnsAgree, CountsAgree, Possible, WorkedBy;
    StateAtEnd(Start(workers), acts);
    WorksAreLogged(Start(workers), acts, |acts|);
    var s0, s := Start(workers), Final(Start(workers), acts);
    assert forall ok :: WorkedBy(s0, acts, |acts|, e, ok) <==> Logged(s, e, ok);
    assert s.log[e].worked.Some? ==> Logged(s, e, s.log[e].worked.value);
  }

  /** A failed creation leaves connections and count alone, and two steps later the lock is free. */
  lemma FailedCreation(s: State, i: nat)
    requires Invariant(s) && Enabled(s, Take(i, false)) && s.idle == []
    ensures var s1 := Apply(s, Take(i, false));
      && s1.idle == s.idle && s1.used == s.used && s1.holder == s.holder && s1.log == s.log
      && Invariant(s1) && Enabled(s1, Unlock(i))
      && Apply(s1, Unlock(i)).owner.None? && Apply(s1, Unlock(i)).threads[i] == Settling(s.threads[i].e, false)
  {
    StepKeeps(s, Take(i, false));
  }

  // The next step of the thread that owns the lock.
  function OwnerStep(s: State, created: bool): Action
    requires Invariant(s) && s.owner.Some?
  {
    var i := s.owner.value;
    if s.threads[i].InGet? then Take(i, created) else if s.threads[i].InRelease? then Push(i) else Unlock(i)
  }

  /** The lock is never stuck: its owner can always go on, and frees it in at most two steps. */
  lemma LockIsFreed(s: State, c: bool, d: bool)
    requires Invariant(s) && s.owner.Some?
    ensures Enabled(s, OwnerStep(s, c))
    ensures var s1 := Apply(s, OwnerStep(s, c));
      && Invariant(s1)
      && (s1.owner.Some? ==> Enabled(s1, OwnerStep(s1, d)) && Apply(s1, OwnerStep(s1, d)).owner.None?)
  {
    var i := s.owner.value;
    assert HasLock(s.threads[i]);
    StepKeeps(s, OwnerStep(s, c));
  }

  /******* Every event is finished *******/

  // The steps a thread has left before its event is done.
  function Left(p: Phase): nat {
    match p
    case Idle => 0
    case Settling(_, _) => 1
    case Pushed(_, _) => 2
    case Failed(_) => 2
    case InRelease(_, _, _) => 3
    case Releasing(_, _, _) => 4
    case Working(_, _) => 5
    case Taken(_, _) => 6
    case InGet(_) => 7
    case Getting(_) => 8
  }

  function AllLeft(ts: seq<Phase>): nat {
    if ts == [] then 0 else Left(ts[0]) + AllLeft(ts[1..])
  }

  lemma {:induction false} LeftUpdate(ts: seq<Phase>, i: nat, p: Phase)
    requires i < |ts|
    ensures AllLeft(ts[i := p]) == AllLeft(ts) - Left(ts[i]) + Left(p)
  {
    if i == 0 {
      assert ts[0 := p][1..] == ts[1..];
    } else {
      assert ts[i := p][1..] == ts[1..][i - 1 := p];
      LeftUpdate(ts[1..], i - 1, p);
    }
  }

  // An action that is neither a new event nor an attempt at a lock that is taken.
  predicate Advances(s: State, a: Action) {
    !a.Begin? && (a.TryLock? ==> s.owner.None?)
  }

  /** Such an action brings the handling of its event forward. */
  lemma EventsDescend(s: State, a: Action)
    requires Invariant(s) && Enabled(s, a) && Advances(s, a)
    ensures AllLeft(Apply(s, a).threads) < AllLeft(s.threads)
  {
    hide ConnsAgree, CountsAgree, LogAgrees, LockAgrees;
    LeftUpdate(s.threads, a.i, Apply(s, a).threads[a.i]);
    assert Apply(s, a).threads == s.threads[a.i := Apply(s, a).threads[a.i]];
  }

  /** While an event is handled there is an action that brings one forward. */
  lemma SomeEventAdvances(s: State, i: nat) returns (a: Action)
    requires Invariant(s) && i < |s.threads| && !s.threads[i].Idle?
    ensures Enabled(s, a) && Advances(s, a)
  {
    if s.owner.Some? {
      a := OwnerStep(s, true);
      LockIsFreed(s, true, true);
    } else {
      assert !HasLock(s.threads[i]);
      a := match s.threads[i]
        case Working(_, _) => Work(i, true)
        case Settling(_, _) => Settle(i)
        case _ => TryLock(i);
    }
  }

  predicate AllAdvance(s: State, acts: seq<Action>)
    requires Invariant(s) && Possible(s, acts)
    decreases |acts|
  {
    acts == [] || (Advances(s, acts[0]) && (StepKeeps(s, acts[0]); AllAdvance(Apply(s, acts[0]), acts[1..])))
  }

  /** Without new events and vain attempts at the lock no run is longer than eight steps for each thread,
      and one that cannot go on has settled every promise and holds no connection. */
  lemma {:induction false} EventsFinish(s: State, acts: seq<Action>)
    requires Invariant(s) && Possible(s, acts) && AllAdvance(s, acts)
    ensures |acts| <= AllLeft(s.threads) <= 8 * |s.threads|
    ensures var r := Final(s, acts);
      (forall a :: Enabled(r, a) ==> !Advances(r, a)) ==>
        |r.idle| == r.used && forall e :: 0 <= e < |r.log| ==> |r.log[e].settled| == 1
    decreases |acts|
  {
    LeftBound(s.threads);
    if acts != [] {
      StepKeeps(s, acts[0]);
      EventsDescend(s, acts[0]);
      EventsFinish(Apply(s, acts[0]), acts[1..]);
    } else if forall a :: Enabled(s, a) ==> !Advances(s, a) {
      forall i | 0 <= i < |s.threads| ensures s.threads[i].Idle? {
        if !s.threads[i].Idle? { var a := SomeEventAdvances(s, i); }
      }
      NoneHeld(s.threads);
    }
  }

  lemma {:induction false} LeftBound(ts: seq<Phase>)
    ensures AllLeft(ts) <= 8 * |ts|
  {
    if ts != [] { LeftBound(ts[1..]); }
  }

  /******* Connections take turns *******/

  // The list lost some connections at the front and gained some at the back.
  predicate Advanced(q: seq<nat>, r: seq<nat>) {
    exists n :: 0 <= n <= |q| && q[n..] <= r
  }

  lemma AdvancedTwice(q: seq<nat>, r: seq<nat>, t: seq<nat>)
    requires Advanced(q, r) && Advanced(r, t)
    ensures Advanced(q, t)
  {
    var n :| 0 <= n <= |q| && q[n..] <= r;
    var m :| 0 <= m <= |r| && r[m..] <= t;
    var k := if n + m <= |q| then n + m else |q|;
    if n + m <= |q| { assert q[n + m..] == q[n..][m..] <= r[m..]; }
    assert q[k..] <= t;
  }

  lemma IdleStep(s: State, a: Action)
    requires Shape(s) && Enabled(s, a)
    ensures Advanced(s.idle, Apply(s, a).idle)
  {
    var q, r := s.idle, Apply(s, a).idle;
    assert q[0..] == q;
    assert q[0..] <= r || (|q| > 0 && q[1..] <= r);
  }

  /** Idle connections are taken in the order in which they were given back. */
  lemma {:induction false} IdleInOrder(s: State, acts: seq<Action>)
    requires Invariant(s) && Possible(s, acts)
    ensures Advanced(s.idle, Final(s, acts).idle)
    decreases |acts|
  {
    if acts == [] {
      assert s.idle[0..] == s.idle;
    } else {
      hide Advanced, LockAgrees, ConnsAgree, CountsAgree, LogAgrees;
      StepKeeps(s, acts[0]);
      IdleStep(s, acts[0]);
      IdleInOrder(Apply(s, acts[0]), acts[1..]);
      AdvancedTwice(s.idle, Apply(s, acts[0]).idle, Final(s, acts).idle);
    }
  }

  /******* An event from end to end *******/

  lemma OneMore(s: State, a: Action, acts: seq<Action>)
    requires Invariant(s) && Enabled(s, a)
    ensures Invariant(Apply(s, a))
    ensures Possible(s, [a] + acts) == Possible(Apply(s, a), acts)
    ensures Possible(Apply(s, a), acts) ==> Final(s, [a] + acts) == Final(Apply(s, a), acts)
  {
    StepKeeps(s, a);
    assert ([a] + acts)[1..] == acts;
  }

  // A state in which thread i alone is at work, on event 0.
  function Lone(workers: nat, i: nat, p: Phase, owner: Option<nat>, idle: seq<nat>, holder: seq<Option<nat>>, l: Log): State
    requires i < workers
  {
    State(owner, idle, |holder|, seq(workers, _ => Idle)[i := p], holder, [l])
  }

  lemma StepTo(s: State, a: Action, r: State, acts: seq<Action>)
    requires Invariant(s) && Enabled(s, a) && Apply(s, a) == r
    ensures Invariant(r) && Possible(s, [a] + acts) == Possible(r, acts)
    ensures Possible(r, acts) ==> Final(s, [a] + acts) == Final(r, acts)
  {
    OneMore(s, a, acts);
  }

  // A log entry while thread i handles the event.
  function Open(i: nat): Log { Log(0, 0, None, [], Some(i)) }

  function Holding(workers: nat, i: nat): State
    requires i < workers
  {
    Lone(workers, i, Working(0, 0), None, [], [Some(i)], Open(i).(gets := 1))
  }

  function Acquire(i: nat, more: seq<Action>): seq<Action> {
    [Begin(i)] + ([TryLock(i)] + ([Take(i, true)] + ([Unlock(i)] + more)))
  }

  lemma Acquires(workers: nat, i: nat, more: seq<Action>)
    requires i < workers
    ensures Invariant(Start(workers)) && Invariant(Holding(workers, i))
    ensures Possible(Holding(workers, i), more) ==>
              && Possible(Start(workers), Acquire(i, more))
              && Final(Start(workers), Acquire(i, more)) == Final(Holding(workers, i), more)
  {
    hide ConnsAgree, LogAgrees, LockAgrees, CountsAgree, Possible, Shape;
    StartInvariant(workers);
    var s1 := Lone(workers, i, Getting(0), None, [], [], Open(i));
    var s2 := Lone(workers, i, InGet(0), Some(i), [], [], Open(i));
    var s3 := Lone(workers, i, Taken(0, 0), Some(i), [], [Some(i)], Open(i).(gets := 1));
    StepTo(Start(workers), Begin(i), s1, [TryLock(i)] + ([Take(i, true)] + ([Unlock(i)] + more)));
    StepTo(s1, TryLock(i), s2, [Take(i, true)] + ([Unlock(i)] + more));
    StepTo(s2, Take(i, true), s3, [Unlock(i)] + more);
    StepTo(s3, Unlock(i), Holding(workers, i), more);
  }

  // The state once the statements have ended, and with the connection back.
  function Ended(workers: nat, i: nat, p: Phase, owner: Option<nat>, ok: bool): State
    requires i < workers
  {
    Lone(workers, i, p, owner, [], [Some(i)], Open(i).(gets := 1, worked := Some(ok)))
  }

  function Back(workers: nat, i: nat, p: Phase, owner: Option<nat>, ok: bool): State
    requires i < workers
  {
    Lone(workers, i, p, owner, [0], [None], Open(i).(gets := 1, puts := 1, worked := Some(ok)))
  }

  function GiveBack(i: nat, ok: bool, more: seq<Action>): seq<Action> {
    [Work(i, ok)] + ([TryLock(i)] + ([Push(i)] + ([Unlock(i)] + more)))
  }

  lemma GivesBack(workers: nat, i: nat, ok: bool, more: seq<Action>)
    requires i < workers && Invariant(Holding(workers, i))
    ensures Invariant(Back(workers, i, Settling(0, ok), None, ok))
    ensures Possible(Back(workers, i, Settling(0, ok), None, ok), more) ==>
              && Possible(Holding(workers, i), GiveBack(i, ok, more))
              && Final(Holding(workers, i), GiveBack(i, ok, more)) == Final(Back(workers, i, Settling(0, ok), None, ok), more)
  {
    hide ConnsAgree, LogAgrees, LockAgrees, CountsAgree, Possible, Shape;
    var s5, s6 := Ended(workers, i, Releasing(0, 0, ok), None, ok), Ended(workers, i, InRelease(0, 0, ok), Some(i), ok);
    var s7 := Back(workers, i, Pushed(0, ok), Some(i), ok);
    StepTo(Holding(workers, i), Work(i, ok), s5, [TryLock(i)] + ([Push(i)] + ([Unlock(i)] + more)));
    StepTo(s5, TryLock(i), s6, [Push(i)] + ([Unlock(i)] + more));
    StepTo(s6, Push(i), s7, [Unlock(i)] + more);
    StepTo(s7, Unlock(i), Back(workers, i, Settling(0, ok), None, ok), more);
  }

  lemma Settles(workers: nat, i: nat, ok: bool)
    requires i < workers && Invariant(Back(workers, i, Settling(0, ok), None, ok))
    ensures var s := Back(workers, i, Settling(0, ok), None, ok);
      && Possible(s, [Settle(i)])
      && Final(s, [Settle(i)]) == Lone(workers, i, Idle, None, [0], [None], Log(1, 1, Some(ok), [ok], None))
  {
    var s := Back(workers, i, Settling(0, ok), None, ok);
    OneMore(s, Settle(i), []);
    assert [Settle(i)] + [] == [Settle(i)] && s.log[0].settled + [ok] == [ok];
  }

  /** Handling an event is a run: `get`, the statements, `release`, the promise.  It leaves its connection
      idle and is settled as its statements ended. */
  lemma OneEvent(workers: nat, i: nat, ok: bool)
    requires i < workers
    ensures var s, acts := Start(workers), Acquire(i, GiveBack(i, ok, [Settle(i)]));
      && Invariant(s) && Possible(s, acts)
      && Final(s, acts) == Lone(workers, i, Idle, None, [0], [None], Log(1, 1, Some(ok), [ok], None))
  {
    hide Invariant, Possible, Lone, Acquire, GiveBack, Back, Holding;
    Acquires(workers, i, GiveBack(i, ok, [Settle(i)]));
    GivesBack(workers, i, ok, [Settle(i)]);
    Settles(workers, i, ok);
  }
}

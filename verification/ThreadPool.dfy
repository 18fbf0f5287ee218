/**
 The thread pool as a transition system: producers, one queue for each worker, and `stop`.  A step
 is one access to shared memory, so every interleaving of the threads is a sequence of actions.
 */
module ThreadPool {
  import opened YanTypes

  // The worker loop: about to read `stop_`; about to read the size, having read `stop_` as true;
  // about to dequeue; in the timed wait; running a task; returned.
  datatype Phase = AtTop | SawStop | TryDeq(sawStop: bool) | Waiting | Running(task: nat) | Exited

  // A thread in `insert` or `submit`: outside; past STOP_CHECK; with a queue chosen.
  datatype Hand = Idle | Passed(task: nat) | Placed(task: nat, queue: nat)

  // The thread in `stop`.
  datatype Stopper = Before | Joining(k: nat) | Returned

  // Where a task is, from its placement on with the number of its queue; kept for the statements below
  // only.
  datatype Place = InHand(p: nat) | Queued(i: nat) | RunningOn(i: nat) | Done(i: nat) | Refused(i: nat)

  datatype State = State(
    stop: bool,
    queues: seq<seq<nat>>,
    workers: seq<Phase>,
    hands: seq<Hand>,
    stopper: Stopper,
    counter: nat,             // `seq_`, as long as it has not wrapped
    ran: seq<nat>,            // tasks in the order they were finished
    places: seq<Place>,       // for every task created so far
    late: seq<seq<nat>>)      // tasks enqueued after the worker of their queue had returned

  datatype Action =
    | Begin(p: nat)                       // STOP_CHECK passes and the task is created
    | PlaceNext(p: nat)                   // `++seq_ % get_consumer_num()`
    | PlaceAt(p: nat, i: nat)             // by hash or by number
    | Enqueue(p: nat, ok: bool)           // `try_enqueue`, which may fail
    | SetStop
    | Join
    | ReadStop(i: nat)
    | ReadSize(i: nat)
    | TryDequeue(i: nat)
    | WaitDequeue(i: nat)
    | TimeOut(i: nat)
    | Finish(i: nat)

  const INT32_LIMIT: nat := 0x8000_0000

  // The counter as the machine holds it: 32 bits, two's complement.
  function Wrapped(k: nat): int {
    if k % 0x1_0000_0000 < INT32_LIMIT then k % 0x1_0000_0000 else k % 0x1_0000_0000 - 0x1_0000_0000
  }

  // The remainder of C++, which has the sign of the dividend.
  function Remainder(a: int, n: nat): int
    requires n > 0
  {
    if a >= 0 then a % n else -((-a) % n)
  }

  lemma WrappedIs(k: nat)
    ensures -0x8000_0000 <= Wrapped(k) < 0x8000_0000 && (k - Wrapped(k)) % 0x1_0000_0000 == 0
  {
  }

  lemma RemainderSign(a: int, n: nat)
    requires n > 0
    ensures -(n as int) < Remainder(a, n) < n && (a >= 0 ==> Remainder(a, n) >= 0) && (a <= 0 ==> Remainder(a, n) <= 0)
    ensures a == a / n * n + a % n && (a >= 0 ==> Remainder(a, n) == a - a / n * n)
    ensures a < 0 ==> Remainder(a, n) == a + (-a) / n * n
  {
  }

  /** The index of the k-th placement is a queue exactly when the wrapped counter is not negative or
      divisible by the number of queues. */
  lemma {:induction false} IndexInRangeIff(k: nat, n: nat)
    requires n > 0
    ensures 0 <= Remainder(Wrapped(k), n) < n <==> Wrapped(k) >= 0 || (-Wrapped(k)) % n == 0
    ensures k < INT32_LIMIT ==> Remainder(Wrapped(k), n) == k % n
  {
  }

  // `++seq_ % get_consumer_num()`
  function NextQueue(counter: nat, n: nat): (i: nat)
    requires n > 0 && counter + 1 < INT32_LIMIT
    ensures i == (counter + 1) % n && i < n
  {
    IndexInRangeIff(counter + 1, n);
    Remainder(Wrapped(counter + 1), n)
  }

  function Start(workers: nat, producers: nat): State {
    State(false, seq(workers, _ => []), seq(workers, _ => AtTop), seq(producers, _ => Idle), Before,
          0, [], [], seq(workers, _ => []))
  }

  predicate Enabled(s: State, a: Action) {
    match a
    case Begin(p) => p < |s.hands| && s.hands[p].Idle? && !s.stop
    case PlaceNext(p) => p < |s.hands| && s.hands[p].Passed? && |s.queues| > 0 && s.counter + 1 < INT32_LIMIT
    case PlaceAt(p, i) => p < |s.hands| && s.hands[p].Passed? && i < |s.queues|
    case Enqueue(p, _) => p < |s.hands| && s.hands[p].Placed?
    case SetStop => s.stopper.Before?
    case Join => s.stopper.Joining? && (s.stopper.k < |s.workers| ==> s.workers[s.stopper.k].Exited?)
    case ReadStop(i) => i < |s.workers| && s.workers[i].AtTop?
    case ReadSize(i) => i < |s.workers| && s.workers[i].SawStop?
    case TryDequeue(i) => i < |s.workers| && s.workers[i].TryDeq?
    case WaitDequeue(i) => i < |s.workers| && s.workers[i].Waiting? && i < |s.queues| && s.queues[i] != []
    case TimeOut(i) => i < |s.workers| && s.workers[i].Waiting?
    case Finish(i) => i < |s.workers| && s.workers[i].Running?
  }

  // Sizes agree; needed for the steps to be defined.
  predicate Shape(s: State) {
    && |s.queues| == |s.workers| == |s.late|
    && (forall p :: 0 <= p < |s.hands| ==>
          && (!s.hands[p].Idle? ==> s.hands[p].task < |s.places|)
          && (s.hands[p].Placed? ==> s.hands[p].queue < |s.queues|))
    && (forall i :: 0 <= i < |s.workers| && s.workers[i].Running? ==> s.workers[i].task < |s.places|)
    && (forall i, k :: 0 <= i < |s.queues| && 0 <= k < |s.queues[i]| ==> s.queues[i][k] < |s.places|)
  }

  // The worker takes the head of its own queue and starts to run it.
  function Take(s: State, i: nat): State
    requires Shape(s) && i < |s.workers| && s.queues[i] != []
  {
    var t := s.queues[i][0];
    s.(queues := s.queues[i := s.queues[i][1..]], workers := s.workers[i := Running(t)],
       places := s.places[t := RunningOn(i)])
  }

  function Put(s: State, p: nat): State
    requires Shape(s) && p < |s.hands| && s.hands[p].Placed?
  {
    var t, i := s.hands[p].task, s.hands[p].queue;
    s.(queues := s.queues[i := s.queues[i] + [t]], hands := s.hands[p := Idle], places := s.places[t := Queued(i)],
       late := if s.workers[i].Exited? then s.late[i := s.late[i] + [t]] else s.late)
  }

  function Apply(s: State, a: Action): State
    requires Shape(s) && Enabled(s, a)
  {
    match a
    case Begin(p) => s.(hands := s.hands[p := Passed(|s.places|)], places := s.places + [InHand(p)])
    case PlaceNext(p) =>
      var i := NextQueue(s.counter, |s.queues|);
      s.(counter := s.counter + 1, hands := s.hands[p := Placed(s.hands[p].task, i)])
    case PlaceAt(p, i) => s.(hands := s.hands[p := Placed(s.hands[p].task, i)])
    case Enqueue(p, ok) =>
      if ok then Put(s, p)
      else s.(hands := s.hands[p := Idle], places := s.places[s.hands[p].task := Refused(s.hands[p].queue)])
    case SetStop => s.(stop := true, stopper := Joining(0))
    case Join => s.(stopper := if s.stopper.k < |s.workers| then Joining(s.stopper.k + 1) else Returned)
    case ReadStop(i) => s.(workers := s.workers[i := if s.stop then SawStop else TryDeq(false)])
    case ReadSize(i) => s.(workers := s.workers[i := if s.queues[i] == [] then Exited else TryDeq(true)])
    case TryDequeue(i) => if s.queues[i] != [] then Take(s, i) else s.(workers := s.workers[i := Waiting])
    case WaitDequeue(i) => Take(s, i)
    case TimeOut(i) => s.(workers := s.workers[i := AtTop])
    case Finish(i) =>
      s.(workers := s.workers[i := AtTop], ran := s.ran + [s.workers[i].task],
         places := s.places[s.workers[i].task := Done(i)])
  }

  /******* What every step keeps *******/

  predicate NoRepeats(q: seq<nat>) {
    forall j, k :: 0 <= j < k < |q| ==> q[j] != q[k]
  }

  // A task is in a queue, and at one place of it, exactly when it is recorded there.
  predicate QueuesAgree(s: State)
    requires Shape(s)
  {
    && (forall i :: 0 <= i < |s.queues| ==> NoRepeats(s.queues[i]))
    && (forall i, k :: 0 <= i < |s.queues| && 0 <= k < |s.queues[i]| ==> s.places[s.queues[i][k]] == Queued(i))
    && (forall t :: 0 <= t < |s.places| && s.places[t].Queued? ==>
          s.places[t].i < |s.queues| && t in s.queues[s.places[t].i])
  }

  predicate WorkersAgree(s: State)
    requires Shape(s)
  {
    && (forall i :: 0 <= i < |s.workers| && s.workers[i].Running? ==> s.places[s.workers[i].task] == RunningOn(i))
    && (forall t :: 0 <= t < |s.places| && s.places[t].RunningOn? ==>
          s.places[t].i < |s.workers| && s.workers[s.places[t].i] == Running(t))
  }

  predicate HandsAgree(s: State)
    requires Shape(s)
  {
    forall p :: 0 <= p < |s.hands| && !s.hands[p].Idle? ==> s.places[s.hands[p].task] == InHand(p)
  }

  predicate RanAgrees(s: State) {
    && NoRepeats(s.ran)
    && (forall k :: 0 <= k < |s.ran| ==> s.ran[k] < |s.places| && s.places[s.ran[k]].Done?)
    && (forall t :: 0 <= t < |s.places| && s.places[t].Done? ==> t in s.ran)
  }

  // A worker that has seen `stop_` has a reason to; one that returned left only what came later.
  predicate StopAgrees(s: State)
    requires Shape(s)
  {
    && (s.stop <==> !s.stopper.Before?)
    && (forall i :: 0 <= i < |s.workers| ==>
          && (s.workers[i].SawStop? || s.workers[i] == TryDeq(true) || s.workers[i].Exited? ==> s.stop)
          && (s.workers[i] == TryDeq(true) ==> s.queues[i] != [])
          && s.late[i] == if s.workers[i].Exited? then s.queues[i] else [])
    && (s.stopper.Joining? ==> s.stopper.k <= |s.workers| && forall i :: 0 <= i < s.stopper.k ==> s.workers[i].Exited?)
    && (s.stopper.Returned? ==> forall i :: 0 <= i < |s.workers| ==> s.workers[i].Exited?)
  }

  predicate Invariant(s: State) {
    Shape(s) && QueuesAgree(s) && WorkersAgree(s) && HandsAgree(s) && RanAgrees(s) && StopAgrees(s)
  }

  lemma NoRepeatsAdd(q: seq<nat>, t: nat)
    requires NoRepeats(q) && t !in q
    ensures NoRepeats(q + [t])
  {
  }

  lemma StartInvariant(workers: nat, producers: nat)
    ensures Invariant(Start(workers, producers))
  {
  }

  predicate WorkerAction(a: Action) {
    a.ReadStop? || a.ReadSize? || a.TryDequeue? || a.WaitDequeue? || a.TimeOut? || a.Finish?
  }

  /** Every step of every thread keeps the invariant. */
  lemma {:induction false} StepKeeps(s: State, a: Action)
    requires Invariant(s) && Enabled(s, a)
    ensures Invariant(Apply(s, a))
  {
    hide QueuesAgree, WorkersAgree, HandsAgree, RanAgrees, StopAgrees;
    match a
    case Begin(p) => BeginKeeps(s, p);
    case PlaceNext(p) => PlaceKeeps(s, p, NextQueue(s.counter, |s.queues|), s.counter + 1);
    case PlaceAt(p, i) => PlaceKeeps(s, p, i, s.counter);
    case Enqueue(p, ok) => if ok { PutKeeps(s, p); } else { RefuseKeeps(s, p); }
    case SetStop => StopKeeps(s);
    case Join => JoinKeeps(s);
    case _ => WorkerKeeps(s, a);
  }

  lemma {:induction false} WorkerKeeps(s: State, a: Action)
    requires Invariant(s) && Enabled(s, a) && WorkerAction(a)
    ensures Invariant(Apply(s, a))
  {
    if a.ReadSize? { assert s.stop; }
    hide QueuesAgree, WorkersAgree, HandsAgree, RanAgrees, StopAgrees;
    match a
    case ReadStop(i) => MoveKeeps(s, i, Apply(s, a).workers[i]);
    case ReadSize(i) => if s.queues[i] == [] { LeaveKeeps(s, i); } else { MoveKeeps(s, i, TryDeq(true)); }
    case TryDequeue(i) => if s.queues[i] != [] { TakeKeeps(s, i); } else { MoveKeeps(s, i, Waiting); }
    case WaitDequeue(i) => TakeKeeps(s, i);
    case TimeOut(i) => MoveKeeps(s, i, AtTop);
    case Finish(i) => FinishKeeps(s, i);
  }

  // A worker moves without touching a task.
  lemma MoveKeeps(s: State, i: nat, w: Phase)
    requires Invariant(s) && i < |s.workers| && !s.workers[i].Running? && !s.workers[i].Exited?
    requires !w.Running? && !w.Exited?
    requires w.SawStop? ==> s.stop
    requires w == TryDeq(true) ==> s.stop && s.queues[i] != []
    ensures Invariant(s.(workers := s.workers[i := w]))
  {
  }

  lemma LeaveKeeps(s: State, i: nat)
    requires Invariant(s) && i < |s.workers| && s.workers[i].SawStop? && s.queues[i] == []
    ensures Invariant(s.(workers := s.workers[i := Exited]))
  {
  }

  lemma {:induction false} StopKeeps(s: State)
    requires Invariant(s) && Enabled(s, SetStop)
    ensures Invariant(Apply(s, SetStop))
  {
    var s' := Apply(s, SetStop);
    TasksFrame(s, s');
    hide QueuesAgree, WorkersAgree, HandsAgree, RanAgrees;
    assert forall i :: 0 <= i < |s.late| ==> s.late[i] == [];
  }

  lemma {:induction false} JoinKeeps(s: State)
    requires Invariant(s) && Enabled(s, Join)
    ensures Invariant(Apply(s, Join))
  {
    var s' := Apply(s, Join);
    TasksFrame(s, s');
    hide QueuesAgree, WorkersAgree, HandsAgree, RanAgrees;
  }

  // Where the tasks are does not depend on `stop_` or the thread that stops.
  lemma TasksFrame(s: State, r: State)
    requires Invariant(s) && r == s.(stop := r.stop, stopper := r.stopper)
    ensures Shape(r) && QueuesAgree(r) && WorkersAgree(r) && HandsAgree(r) && RanAgrees(r)
  {
  }

  lemma PlaceKeeps(s: State, p: nat, i: nat, c: nat)
    requires Invariant(s) && p < |s.hands| && s.hands[p].Passed? && i < |s.queues|
    ensures Invariant(s.(counter := c, hands := s.hands[p := Placed(s.hands[p].task, i)]))
  {
  }

  lemma {:induction false} BeginKeeps(s: State, p: nat)
    requires Invariant(s) && Enabled(s, Begin(p))
    ensures Invariant(Apply(s, Begin(p)))
  {
  }

  lemma PutKeeps(s: State, p: nat)
    requires Invariant(s) && p < |s.hands| && s.hands[p].Placed?
    ensures Invariant(Put(s, p))
  {
    hide QueuesAgree, WorkersAgree, HandsAgree, RanAgrees, StopAgrees;
    PutQueues(s, p);
    PutOthers(s, p);
    PutStop(s, p);
  }

  lemma PutQueues(s: State, p: nat)
    requires Invariant(s) && p < |s.hands| && s.hands[p].Placed?
    ensures Shape(Put(s, p)) && QueuesAgree(Put(s, p))
  {
    var t, i := s.hands[p].task, s.hands[p].queue;
    hide WorkersAgree, RanAgrees, StopAgrees;
    var s', q := Put(s, p), s.queues[i] + [t];
    assert s.places[t] == InHand(p) && s'.queues == s.queues[i := q];
    assert t !in s.queues[i];
    NoRepeatsAdd(s.queues[i], t);
    assert Shape(s');
    PutFound(s, p);
  }

  lemma PutFound(s: State, p: nat)
    requires Invariant(s) && p < |s.hands| && s.hands[p].Placed?
    ensures var s' := Put(s, p); forall u :: 0 <= u < |s'.places| && s'.places[u].Queued? ==>
              s'.places[u].i < |s'.queues| && u in s'.queues[s'.places[u].i]
  {
    var t, i := s.hands[p].task, s.hands[p].queue;
    var s', q := Put(s, p), s.queues[i] + [t];
    forall u | 0 <= u < |s'.places| && s'.places[u].Queued?
      ensures s'.places[u].i < |s'.queues| && u in s'.queues[s'.places[u].i]
    {
      if u == t { assert q[|q| - 1] == t; } else if s.places[u].i == i { assert u in s.queues[i]; }
    }
  }

  lemma PutOthers(s: State, p: nat)
    requires Invariant(s) && p < |s.hands| && s.hands[p].Placed? && Shape(Put(s, p))
    ensures WorkersAgree(Put(s, p)) && HandsAgree(Put(s, p)) && RanAgrees(Put(s, p))
  {
    assert s.places[s.hands[p].task] == InHand(p);
  }

  lemma PutStop(s: State, p: nat)
    requires Invariant(s) && p < |s.hands| && s.hands[p].Placed? && Shape(Put(s, p))
    ensures StopAgrees(Put(s, p))
  {
    var s', i := Put(s, p), s.hands[p].queue;
    assert s'.workers == s.workers && s'.stopper == s.stopper;
    assert s'.late[i] == if s.workers[i].Exited? then s'.queues[i] else [];
  }

  lemma {:induction false} RefuseKeeps(s: State, p: nat)
    requires Invariant(s) && Enabled(s, Enqueue(p, false))
    ensures Invariant(Apply(s, Enqueue(p, false)))
  {
    var s' := Apply(s, Enqueue(p, false));
    assert s.places[s.hands[p].task] == InHand(p) && Shape(s');
    RefuseOthers(s, p);
    hide QueuesAgree, WorkersAgree, HandsAgree, RanAgrees;
    assert StopAgrees(s');
  }

  lemma {:induction false} RefuseOthers(s: State, p: nat)
    requires Invariant(s) && Enabled(s, Enqueue(p, false)) && Shape(Apply(s, Enqueue(p, false)))
    ensures var s' := Apply(s, Enqueue(p, false));
            QueuesAgree(s') && WorkersAgree(s') && HandsAgree(s') && RanAgrees(s')
  {
    assert s.places[s.hands[p].task] == InHand(p);
  }

  lemma TakeKeeps(s: State, i: nat)
    requires Invariant(s) && i < |s.workers| && s.queues[i] != []
    requires s.workers[i].TryDeq? || s.workers[i].Waiting?
    ensures Invariant(Take(s, i))
  {
    var s', t := Take(s, i), s.queues[i][0];
    assert s.places[t] == Queued(i) && Shape(s');
    TakeQueues(s, i);
    TakeOthers(s, i);
    hide QueuesAgree, WorkersAgree, HandsAgree, RanAgrees;
    assert StopAgrees(s');
  }

  lemma TakeQueues(s: State, i: nat)
    requires Invariant(s) && i < |s.workers| && s.queues[i] != [] && Shape(Take(s, i))
    ensures QueuesAgree(Take(s, i))
  {
    var s', t := Take(s, i), s.queues[i][0];
    assert s'.queues[i] == s.queues[i][1..] && t !in s'.queues[i];
    forall u | 0 <= u < |s'.places| && s'.places[u].Queued?
      ensures s'.places[u].i < |s'.queues| && u in s'.queues[s'.places[u].i]
    {
      assert s.places[u] == s'.places[u] && u != t;
    }
  }

  lemma TakeOthers(s: State, i: nat)
    requires Invariant(s) && i < |s.workers| && s.queues[i] != [] && Shape(Take(s, i)) && !s.workers[i].Running?
    ensures WorkersAgree(Take(s, i)) && HandsAgree(Take(s, i)) && RanAgrees(Take(s, i))
  {
    assert s.places[s.queues[i][0]] == Queued(i);
  }

  lemma {:induction false} FinishKeeps(s: State, i: nat)
    requires Invariant(s) && Enabled(s, Finish(i))
    ensures Invariant(Apply(s, Finish(i)))
  {
    FinishShape(s, i);
    FinishOthers(s, i);
    FinishRan(s, i);
    FinishStop(s, i);
    hide QueuesAgree, WorkersAgree, HandsAgree, RanAgrees, StopAgrees;
  }

  lemma FinishShape(s: State, i: nat)
    requires Shape(s) && Enabled(s, Finish(i))
    ensures Shape(Apply(s, Finish(i)))
  {
  }

  lemma FinishStop(s: State, i: nat)
    requires Invariant(s) && Enabled(s, Finish(i)) && Shape(Apply(s, Finish(i)))
    ensures StopAgrees(Apply(s, Finish(i)))
  {
    hide QueuesAgree, HandsAgree, RanAgrees;
  }

  lemma {:induction false} FinishOthers(s: State, i: nat)
    requires Invariant(s) && Enabled(s, Finish(i)) && Shape(Apply(s, Finish(i)))
    ensures var s' := Apply(s, Finish(i)); QueuesAgree(s') && WorkersAgree(s') && HandsAgree(s')
  {
    assert s.places[s.workers[i].task] == RunningOn(i);
  }

  lemma {:induction false} FinishRan(s: State, i: nat)
    requires Invariant(s) && Enabled(s, Finish(i))
    ensures RanAgrees(Apply(s, Finish(i)))
  {
    var t, s' := s.workers[i].task, Apply(s, Finish(i));
    assert s.places[t] == RunningOn(i) && t !in s.ran;
    NoRepeatsAdd(s.ran, t);
    forall u | 0 <= u < |s'.places| && s'.places[u].Done? ensures u in s'.ran {
      if u == t { assert s'.ran[|s.ran|] == t; }
    }
  }

  /******* Whole runs *******/

  // A sequence of actions each enabled when its turn comes.
  predicate Possible(s: State, acts: seq<Action>)
    requires Invariant(s)
    decreases |acts|
  {
    acts == [] || (Enabled(s, acts[0]) && (StepKeeps(s, acts[0]); Possible(Apply(s, acts[0]), acts[1..])))
  }

  function Final(s: State, acts: seq<Action>): (r: State)
    requires Invariant(s) && Possible(s, acts)
    ensures Invariant(r)
    decreases |acts|
  {
    if acts == [] then s else (StepKeeps(s, acts[0]); Final(Apply(s, acts[0]), acts[1..]))
  }

  // The state after the first k actions.
  function StateAt(s: State, acts: seq<Action>, k: nat): (r: State)
    requires Invariant(s) && Possible(s, acts) && k <= |acts|
    ensures Invariant(r) && |r.queues| == |s.queues|
    decreases k
  {
    if k == 0 then s else (StepKeeps(s, acts[0]); StateAt(Apply(s, acts[0]), acts[1..], k - 1))
  }

  lemma {:induction false} StepAt(s: State, acts: seq<Action>, k: nat)
    requires Invariant(s) && Possible(s, acts) && k < |acts|
    ensures Enabled(StateAt(s, acts, k), acts[k])
    ensures StateAt(s, acts, k + 1) == Apply(StateAt(s, acts, k), acts[k])
    decreases k
  {
    hide QueuesAgree, WorkersAgree, HandsAgree, RanAgrees, StopAgrees;
    StepKeeps(s, acts[0]);
    if k > 0 {
      StepAt(Apply(s, acts[0]), acts[1..], k - 1);
    } else {
      assert StateAt(Apply(s, acts[0]), acts[1..], 0) == Apply(s, acts[0]);
    }
  }

  lemma {:induction false} StateAtEnd(s: State, acts: seq<Action>)
    requires Invariant(s) && Possible(s, acts)
    ensures StateAt(s, acts, |acts|) == Final(s, acts)
    decreases |acts|
  {
    hide QueuesAgree, WorkersAgree, HandsAgree, RanAgrees, StopAgrees;
    if acts != [] {
      StepKeeps(s, acts[0]);
      StateAtEnd(Apply(s, acts[0]), acts[1..]);
    }
  }

  /******* Each task runs once *******/

  // The j-th action is the end of task t.
  ghost predicate EndsAt(s: State, acts: seq<Action>, j: nat, t: nat)
    requires Invariant(s) && Possible(s, acts) && j < |acts|
  {
    StepAt(s, acts, j);
    acts[j].Finish? && StateAt(s, acts, j).workers[acts[j].i] == Running(t)
  }

  // Among the first k actions is the end of task t.
  ghost predicate EndedBy(s: State, acts: seq<Action>, k: nat, t: nat)
    requires Invariant(s) && Possible(s, acts) && k <= |acts|
  {
    exists j :: 0 <= j < k && EndsAt(s, acts, j, t)
  }

  lemma EndedByStep(s: State, acts: seq<Action>, k: nat, t: nat)
    requires Invariant(s) && Possible(s, acts) && k < |acts|
    ensures EndedBy(s, acts, k + 1, t) <==> EndedBy(s, acts, k, t) || EndsAt(s, acts, k, t)
  {
    hide EndsAt, Invariant, Possible;
  }

  ghost predicate RanBy(s: State, acts: seq<Action>, k: nat, t: nat)
    requires Invariant(s) && Possible(s, acts) && k <= |acts|
  {
    t in StateAt(s, acts, k).ran
  }

  lemma {:induction false} EndsAreLogged(s: State, acts: seq<Action>, k: nat, t: nat)
    requires Invariant(s) && Possible(s, acts) && k <= |acts| && s.ran == []
    ensures EndedBy(s, acts, k, t) <==> RanBy(s, acts, k, t)
  {
    hide Possible, Invariant, EndedBy, EndsAt, RanBy;
    if k > 0 {
      EndsAreLogged(s, acts, k - 1, t);
      EndedByStep(s, acts, k - 1, t);
      RanAt(s, acts, k - 1, t);
    } else {
      NothingRan(s, acts, t);
    }
  }

  lemma NothingRan(s: State, acts: seq<Action>, t: nat)
    requires Invariant(s) && Possible(s, acts) && s.ran == []
    ensures !EndedBy(s, acts, 0, t) && !RanBy(s, acts, 0, t)
  {
    hide Possible, Invariant, EndsAt;
  }

  lemma RanAt(s: State, acts: seq<Action>, k: nat, t: nat)
    requires Invariant(s) && Possible(s, acts) && k < |acts|
    ensures RanBy(s, acts, k + 1, t) <==> RanBy(s, acts, k, t) || EndsAt(s, acts, k, t)
  {
    hide Possible, Invariant, StateAt, Apply, Enabled;
    StepAt(s, acts, k);
    RanStep(StateAt(s, acts, k), acts[k], t);
  }

  lemma RanStep(s: State, a: Action, t: nat)
    requires Invariant(s) && Enabled(s, a)
    ensures t in Apply(s, a).ran <==> t in s.ran || (a.Finish? && s.workers[a.i] == Running(t))
  {
    hide QueuesAgree, WorkersAgree, HandsAgree, RanAgrees, StopAgrees;
    if a.Finish? { assert (s.ran + [s.workers[a.i].task])[|s.ran|] == s.workers[a.i].task; }
  }

  // A running task has not ended yet.
  lemma RunningNotRan(s: State, i: nat, t: nat)
    requires Invariant(s) && i < |s.workers| && s.workers[i] == Running(t)
    ensures t !in s.ran
  {
    assert s.places[t] == RunningOn(i);
  }

  // The j-th action puts task t into a queue whose worker is still there.
  ghost predicate AcceptsAt(s: State, acts: seq<Action>, j: nat, t: nat)
    requires Invariant(s) && Possible(s, acts) && j < |acts|
  {
    StepAt(s, acts, j);
    var r := StateAt(s, acts, j);
    acts[j].Enqueue? && acts[j].ok && r.hands[acts[j].p].task == t && !r.workers[r.hands[acts[j].p].queue].Exited?
  }

  // Task t is past its enqueue, and did not come after the worker of its queue had returned.
  predicate InTime(s: State, t: nat) {
    && t < |s.places| && !s.places[t].InHand? && !s.places[t].Refused?
    && forall i :: 0 <= i < |s.late| ==> t !in s.late[i]
  }

  lemma InTimeStarts(s: State, p: nat)
    requires Invariant(s) && p < |s.hands| && s.hands[p].Placed? && !s.workers[s.hands[p].queue].Exited?
    ensures InTime(Put(s, p), s.hands[p].task)
  {
    assert s.places[s.hands[p].task] == InHand(p);
    assert forall i :: 0 <= i < |s.late| ==> s.late[i] == if s.workers[i].Exited? then s.queues[i] else [];
  }

  lemma InTimeStays(s: State, a: Action, t: nat)
    requires Invariant(s) && Enabled(s, a) && InTime(s, t)
    ensures InTime(Apply(s, a), t)
  {
    hide QueuesAgree, WorkersAgree, RanAgrees, StopAgrees;
    if a.Enqueue? {
      assert s.places[s.hands[a.p].task] == InHand(a.p);
    }
  }

  lemma {:induction false} InTimeUntil(s: State, acts: seq<Action>, j: nat, k: nat, t: nat)
    requires Invariant(s) && Possible(s, acts) && j < k <= |acts| && AcceptsAt(s, acts, j, t)
    ensures InTime(StateAt(s, acts, k), t)
  {
    hide Possible, QueuesAgree, WorkersAgree, HandsAgree, RanAgrees, StopAgrees, StateAt;
    StepAt(s, acts, k - 1);
    if k == j + 1 {
      InTimeStarts(StateAt(s, acts, j), acts[j].p);
    } else {
      InTimeUntil(s, acts, j, k - 1, t);
      InTimeStays(StateAt(s, acts, k - 1), acts[k - 1], t);
    }
  }

  // When all workers have returned what came in time has run.
  lemma InTimeRan(s: State, t: nat)
    requires Invariant(s) && s.stopper.Returned? && InTime(s, t)
    ensures t in s.ran
  {
    assert forall i :: 0 <= i < |s.workers| ==> s.workers[i].Exited? && s.late[i] == s.queues[i];
  }

  /** Exactly-once drain: in every interleaving no task is run twice, at once or one after the other,
      and when `stop` has returned every task has run that was put into a queue before the worker of
      this queue had left, and so every one that was put there before `stop_` was set. */
  lemma ExactlyOnceDrain(workers: nat, producers: nat, acts: seq<Action>)
    requires Invariant(Start(workers, producers)) && Possible(Start(workers, producers), acts)
    ensures var s0, s := Start(workers, producers), Final(Start(workers, producers), acts);
      && (forall j, k, t :: 0 <= j < k < |acts| && EndsAt(s0, acts, j, t) ==> !EndsAt(s0, acts, k, t))
      && (forall i, j :: 0 <= i < j < |s.workers| && s.workers[i].Running? ==> s.workers[i] != s.workers[j])
      && (s.stopper.Returned? ==>
            forall j, t :: 0 <= j < |acts| && AcceptsAt(s0, acts, j, t) ==> EndedBy(s0, acts, |acts|, t))
  {
    var s0, s := Start(workers, producers), Final(Start(workers, producers), acts);
    OneRunner(s);
    hide Possible, Invariant, EndsAt, AcceptsAt, EndedBy;
    forall j, k, t | 0 <= j < k < |acts| && EndsAt(s0, acts, j, t) ensures !EndsAt(s0, acts, k, t) {
      EndsOnce(s0, acts, j, k, t);
    }
    if s.stopper.Returned? {
      forall j, t | 0 <= j < |acts| && AcceptsAt(s0, acts, j, t) ensures EndedBy(s0, acts, |acts|, t) {
        AcceptedRan(s0, acts, j, t);
      }
    }
  }

  lemma EndsOnce(s: State, acts: seq<Action>, j: nat, k: nat, t: nat)
    requires Invariant(s) && Possible(s, acts) && s.ran == [] && j < k < |acts| && EndsAt(s, acts, j, t)
    ensures !EndsAt(s, acts, k, t)
  {
    hide Possible, Invariant, StateAt;
    EndsAreLogged(s, acts, k, t);
    assert EndedBy(s, acts, k, t);
    StepAt(s, acts, k);
    if EndsAt(s, acts, k, t) { RunningNotRan(StateAt(s, acts, k), acts[k].i, t); }
  }

  lemma AcceptedRan(s: State, acts: seq<Action>, j: nat, t: nat)
    requires Invariant(s) && Possible(s, acts) && s.ran == [] && j < |acts| && AcceptsAt(s, acts, j, t)
    requires Final(s, acts).stopper.Returned?
    ensures EndedBy(s, acts, |acts|, t)
  {
    hide Possible, Invariant, StateAt, AcceptsAt, EndedBy;
    StateAtEnd(s, acts);
    InTimeUntil(s, acts, j, |acts|, t);
    InTimeRan(Final(s, acts), t);
    EndsAreLogged(s, acts, |acts|, t);
  }

  lemma OneRunner(s: State)
    requires Invariant(s)
    ensures forall i, j :: 0 <= i < j < |s.workers| && s.workers[i].Running? ==> s.workers[i] != s.workers[j]
  {
  }

  /** Before `stop_` is set every worker is there. */
  lemma WorkersStay(s: State, i: nat)
    requires Invariant(s) && !s.stop && i < |s.workers|
    ensures !s.workers[i].Exited?
  {
  }

  /******* First in, first out *******/

  // The queue lost some tasks at the front and gained some at the back.
  predicate Advanced(q: seq<nat>, r: seq<nat>) {
    exists n :: 0 <= n <= |q| && q[n..] <= r
  }

  lemma AdvancedTwice(q: seq<nat>, r: seq<nat>, t: seq<nat>)
    requires Advanced(q, r) && Advanced(r, t)
    ensures Advanced(q, t)
  {
    var n :| 0 <= n <= |q| && q[n..] <= r;
    var m :| 0 <= m <= |r| && r[m..] <= t;
    var k := if n + m <= |q| then n + m else |q|;
    if n + m <= |q| { assert q[n + m..] == q[n..][m..] <= r[m..]; }
    assert q[k..] <= t;
  }

  lemma QueueStep(s: State, a: Action, i: nat)
    requires Invariant(s) && Enabled(s, a) && i < |s.queues|
    ensures Advanced(s.queues[i], Apply(s, a).queues[i])
  {
    hide QueuesAgree, WorkersAgree, HandsAgree, RanAgrees, StopAgrees;
    var q, r := s.queues[i], Apply(s, a).queues[i];
    assert q[0..] == q;
    assert q[0..] <= r || (|q| > 0 && q[1..] <= r);
  }

  /** Queues are first in, first out: what stood in one leaves it from the front, in its order. */
  lemma {:induction false} QueuesAdvance(s: State, acts: seq<Action>, i: nat)
    requires Invariant(s) && Possible(s, acts) && i < |s.queues|
    ensures i < |Final(s, acts).queues| && Advanced(s.queues[i], Final(s, acts).queues[i])
    decreases |acts|
  {
    hide QueuesAgree, WorkersAgree, HandsAgree, RanAgrees, StopAgrees;
    if acts == [] {
      assert s.queues[i][0..] == s.queues[i];
    } else {
      hide Advanced;
      StepKeeps(s, acts[0]);
      QueueStep(s, acts[0], i);
      QueuesAdvance(Apply(s, acts[0]), acts[1..], i);
      AdvancedTwice(s.queues[i], Apply(s, acts[0]).queues[i], Final(s, acts).queues[i]);
    }
  }

  /******* The loop with its two reads the other way round *******/

  // `sawEmpty` holds the workers at the top of the loop that have read a size of zero and not yet
  // `stop_`.
  datatype Swapped = Swapped(s: State, sawEmpty: set<nat>)

  datatype SwappedAction = Same(a: Action) | SizeFirst(i: nat) | StopSecond(i: nat)

  predicate SwappedEnabled(z: Swapped, a: SwappedAction) {
    match a
    case Same(b) => Enabled(z.s, b) && !b.ReadStop? && !b.ReadSize?
    case SizeFirst(i) => i < |z.s.workers| && z.s.workers[i].AtTop? && i !in z.sawEmpty
    case StopSecond(i) => i < |z.s.workers| && z.s.workers[i].AtTop? && i in z.sawEmpty
  }

  function Moved(s: State, i: nat, w: Phase): State
    requires i < |s.workers|
  {
    s.(workers := s.workers[i := w])
  }

  function SwappedApply(z: Swapped, a: SwappedAction): Swapped
    requires Shape(z.s) && SwappedEnabled(z, a)
  {
    match a
    case Same(b) => z.(s := Apply(z.s, b))
    case SizeFirst(i) =>
      if z.s.queues[i] == [] then z.(sawEmpty := z.sawEmpty + {i}) else z.(s := Moved(z.s, i, TryDeq(false)))
    case StopSecond(i) =>
      Swapped(Moved(z.s, i, if z.s.stop then Exited else TryDeq(false)), z.sawEmpty - {i})
  }

  lemma {:induction false} ShapeKept(z: Swapped, a: SwappedAction)
    requires Shape(z.s) && SwappedEnabled(z, a)
    ensures Shape(SwappedApply(z, a).s)
  {
    match a
    case Same(Enqueue(p, ok)) => if ok { PutShape(z.s, p); }
    case Same(TryDequeue(i)) => if z.s.queues[i] != [] { TakeShape(z.s, i); }
    case Same(WaitDequeue(i)) => TakeShape(z.s, i);
    case Same(Begin(p)) => BeginShape(z.s, p);
    case Same(PlaceNext(p)) => PlaceShape(z.s, p, NextQueue(z.s.counter, |z.s.queues|));
    case Same(PlaceAt(p, i)) => PlaceShape(z.s, p, i);
    case _ => OtherShape(z, a);
  }

  lemma PutShape(s: State, p: nat)
    requires Shape(s) && p < |s.hands| && s.hands[p].Placed?
    ensures Shape(Put(s, p))
  {
  }

  lemma TakeShape(s: State, i: nat)
    requires Shape(s) && i < |s.workers| && s.queues[i] != []
    ensures Shape(Take(s, i))
  {
  }

  lemma {:induction false} BeginShape(s: State, p: nat)
    requires Shape(s) && Enabled(s, Begin(p))
    ensures Shape(Apply(s, Begin(p)))
  {
  }

  lemma PlaceShape(s: State, p: nat, i: nat)
    requires Shape(s) && p < |s.hands| && s.hands[p].Passed? && i < |s.queues|
    ensures Shape(s.(hands := s.hands[p := Placed(s.hands[p].task, i)]))
  {
  }

  lemma {:induction false} OtherShape(z: Swapped, a: SwappedAction)
    requires Shape(z.s) && SwappedEnabled(z, a)
    requires a.Same? ==> a.a.SetStop? || a.a.Join? || (WorkerAction(a.a) && !a.a.TryDequeue? && !a.a.WaitDequeue?)
    ensures Shape(SwappedApply(z, a).s)
  {
  }

  predicate SwappedPossible(z: Swapped, acts: seq<SwappedAction>)
    requires Shape(z.s)
    decreases |acts|
  {
    acts == [] ||
    (SwappedEnabled(z, acts[0]) && (ShapeKept(z, acts[0]); SwappedPossible(SwappedApply(z, acts[0]), acts[1..])))
  }

  function SwappedFinal(z: Swapped, acts: seq<SwappedAction>): (r: Swapped)
    requires Shape(z.s) && SwappedPossible(z, acts)
    ensures Shape(r.s)
    decreases |acts|
  {
    if acts == [] then z else (ShapeKept(z, acts[0]); SwappedFinal(SwappedApply(z, acts[0]), acts[1..]))
  }

  lemma {:induction false} SwappedMore(z: Swapped, a: SwappedAction, acts: seq<SwappedAction>)
    requires Shape(z.s) && SwappedEnabled(z, a)
    ensures Shape(SwappedApply(z, a).s)
    ensures SwappedPossible(z, [a] + acts) == SwappedPossible(SwappedApply(z, a), acts)
    ensures SwappedPossible(SwappedApply(z, a), acts) ==>
              SwappedFinal(z, [a] + acts) == SwappedFinal(SwappedApply(z, a), acts)
  {
    ShapeKept(z, a);
    assert ([a] + acts)[1..] == acts;
  }

  // The worker reads the size, a producer gets a task in, `stop_` is set, the worker reads it.
  function Overtaking(i: nat, p: nat): seq<SwappedAction> {
    [SizeFirst(i)] + ([Same(Begin(p))] + ([Same(PlaceAt(p, i))] + ([Same(Enqueue(p, true))]
      + ([Same(SetStop)] + ([StopSecond(i)] + [])))))
  }

  // Nobody but worker i can get at task t.
  predicate OnlyThere(s: State, i: nat, t: nat) {
    && t < |s.places|
    && (forall j :: 0 <= j < |s.queues| && j != i ==> t !in s.queues[j])
    && (forall j :: 0 <= j < |s.workers| ==> s.workers[j] != Running(t))
    && (forall p :: 0 <= p < |s.hands| && !s.hands[p].Idle? ==> s.hands[p].task != t)
  }

  // Worker i has returned, and task t, not run, still stands in its queue.
  predicate Stranded(s: State, i: nat, t: nat) {
    && i < |s.workers| == |s.queues| && s.workers[i].Exited? && !s.stopper.Before?
    && t in s.queues[i] && t !in s.ran && OnlyThere(s, i, t)
  }

  // The state after the task got in.
  function Inserted(s: State, i: nat, p: nat): State
    requires Shape(s) && i < |s.workers| && p < |s.hands| && s.hands[p].Idle? && !s.workers[i].Exited?
  {
    s.(queues := s.queues[i := s.queues[i] + [|s.places|]], hands := s.hands[p := Idle],
       places := s.places + [Queued(i)])
  }

  lemma {:induction false} InsertSteps(z: Swapped, i: nat, p: nat, more: seq<SwappedAction>)
    requires Shape(z.s) && !z.s.stop && i < |z.s.workers| && p < |z.s.hands| && z.s.hands[p].Idle?
    requires !z.s.workers[i].Exited?
    ensures var r := z.(s := Inserted(z.s, i, p));
            var acts := [Same(Begin(p))] + ([Same(PlaceAt(p, i))] + ([Same(Enqueue(p, true))] + more));
            Shape(r.s) && (SwappedPossible(r, more) ==>
              SwappedPossible(z, acts) && SwappedFinal(z, acts) == SwappedFinal(r, more))
  {
    SwappedMore(z, Same(Begin(p)), [Same(PlaceAt(p, i))] + ([Same(Enqueue(p, true))] + more));
    var z1 := SwappedApply(z, Same(Begin(p)));
    SwappedMore(z1, Same(PlaceAt(p, i)), [Same(Enqueue(p, true))] + more);
    var z2 := SwappedApply(z1, Same(PlaceAt(p, i)));
    SwappedMore(z2, Same(Enqueue(p, true)), more);
    assert SwappedApply(z2, Same(Enqueue(p, true))) == z.(s := Inserted(z.s, i, p));
  }

  lemma {:induction false} StopSteps(z: Swapped, i: nat)
    requires Shape(z.s) && z.s.stopper.Before? && i < |z.s.workers| && z.s.workers[i].AtTop? && i in z.sawEmpty
    ensures var acts := [Same(SetStop)] + ([StopSecond(i)] + []);
            SwappedPossible(z, acts) &&
            SwappedFinal(z, acts) == Swapped(Moved(Apply(z.s, SetStop), i, Exited), z.sawEmpty - {i})
  {
    var z1 := z.(s := Apply(z.s, SetStop));
    SwappedMore(z, Same(SetStop), [StopSecond(i)] + []);
    SwappedMore(z1, StopSecond(i), []);
  }

  /** The order of the two reads matters.  In a pool whose workers read the size first and `stop_` after
      it, the drain promised above fails in every pool and for every worker: there is a run at whose
      end the worker has returned with a task in its queue that was there before `stop_` was set. */
  lemma {:induction false} SizeReadFirstStrands(workers: nat, producers: nat, i: nat, p: nat)
    requires i < workers && p < producers
    ensures var z := Swapped(Start(workers, producers), {});
            && Shape(z.s) && SwappedPossible(z, Overtaking(i, p))
            && Stranded(SwappedFinal(z, Overtaking(i, p)).s, i, 0)
  {
    var z := Swapped(Start(workers, producers), {});
    StartInvariant(workers, producers);
    var z1 := z.(sawEmpty := {i});
    var z2 := z1.(s := Inserted(z1.s, i, p));
    var ending := [Same(SetStop)] + ([StopSecond(i)] + []);
    InsertSteps(z1, i, p, ending);
    StopSteps(z2, i);
    SwappedMore(z, SizeFirst(i), [Same(Begin(p))] + ([Same(PlaceAt(p, i))] + ([Same(Enqueue(p, true))] + ending)));
    assert SwappedApply(z, SizeFirst(i)) == z1;
    assert z2.s.queues[i] == [0] && z2.s.places == [Queued(i)];
  }

  /** And there the task stays: no further step of any thread runs it. */
  lemma {:induction false} StrandedForGood(z: Swapped, acts: seq<SwappedAction>, i: nat, t: nat)
    requires Shape(z.s) && Stranded(z.s, i, t) && SwappedPossible(z, acts)
    ensures Stranded(SwappedFinal(z, acts).s, i, t)
    decreases |acts|
  {
    if acts != [] {
      hide Stranded;
      ShapeKept(z, acts[0]);
      StrandedStays(z, acts[0], i, t);
      StrandedForGood(SwappedApply(z, acts[0]), acts[1..], i, t);
    }
  }

  lemma {:induction false} StrandedStays(z: Swapped, a: SwappedAction, i: nat, t: nat)
    requires Shape(z.s) && Stranded(z.s, i, t) && SwappedEnabled(z, a)
    ensures Stranded(SwappedApply(z, a).s, i, t)
  {
    match a
    case Same(Enqueue(p, ok)) => if ok { PutElsewhere(z.s, p, i, t); }
    case Same(TryDequeue(j)) => if z.s.queues[j] != [] { TakeElsewhere(z.s, j, i, t); }
    case Same(WaitDequeue(j)) => TakeElsewhere(z.s, j, i, t);
    case Same(Begin(p)) => BeginElsewhere(z.s, p, i, t);
    case Same(PlaceNext(p)) => PlaceElsewhere(z.s, p, NextQueue(z.s.counter, |z.s.queues|), i, t);
    case Same(PlaceAt(p, j)) => PlaceElsewhere(z.s, p, j, i, t);
    case _ => OtherElsewhere(z, a, i, t);
  }

  lemma PutElsewhere(s: State, p: nat, i: nat, t: nat)
    requires Shape(s) && Stranded(s, i, t) && p < |s.hands| && s.hands[p].Placed?
    ensures Stranded(Put(s, p), i, t)
  {
    var j := s.hands[p].queue;
    assert t in s.queues[j] <==> t in s.queues[j] + [s.hands[p].task];
  }

  lemma TakeElsewhere(s: State, j: nat, i: nat, t: nat)
    requires Shape(s) && Stranded(s, i, t) && j < |s.workers| && s.queues[j] != [] && j != i
    ensures Stranded(Take(s, j), i, t)
  {
    assert s.queues[j][0] in s.queues[j];
  }

  lemma {:induction false} BeginElsewhere(s: State, p: nat, i: nat, t: nat)
    requires Shape(s) && Stranded(s, i, t) && Enabled(s, Begin(p))
    ensures Stranded(Apply(s, Begin(p)), i, t)
  {
  }

  lemma PlaceElsewhere(s: State, p: nat, j: nat, i: nat, t: nat)
    requires Shape(s) && Stranded(s, i, t) && p < |s.hands| && s.hands[p].Passed? && j < |s.queues|
    ensures Stranded(s.(hands := s.hands[p := Placed(s.hands[p].task, j)]), i, t)
  {
  }

  lemma {:induction false} OtherElsewhere(z: Swapped, a: SwappedAction, i: nat, t: nat)
    requires Shape(z.s) && Stranded(z.s, i, t) && SwappedEnabled(z, a)
    requires a.Same? ==> !a.a.Begin? && !a.a.PlaceNext? && !a.a.PlaceAt?
    requires a.Same? ==> !a.a.TryDequeue? && !a.a.WaitDequeue? && (a.a.Enqueue? ==> !a.a.ok)
    ensures Stranded(SwappedApply(z, a).s, i, t)
  {
  }

  /******* Shutdown terminates *******/

  function Total<T>(rank: T -> int, xs: seq<T>): int {
    if xs == [] then 0 else rank(xs[0]) + Total(rank, xs[1..])
  }

  lemma {:induction false} TotalUpdate<T>(rank: T -> int, xs: seq<T>, i: nat, x: T)
    requires i < |xs|
    ensures Total(rank, xs[i := x]) == Total(rank, xs) - rank(xs[i]) + rank(x)
  {
    if i == 0 {
      assert xs[0 := x][1..] == xs[1..];
    } else {
      assert xs[i := x][1..] == xs[1..][i - 1 := x];
      TotalUpdate(rank, xs[1..], i - 1, x);
    }
  }

  lemma {:induction false} TotalPositive<T>(rank: T -> int, xs: seq<T>)
    requires forall i :: 0 <= i < |xs| ==> rank(xs[i]) >= 0
    ensures Total(rank, xs) >= 0
  {
    if xs != [] { TotalPositive(rank, xs[1..]); }
  }

  function PhaseRank(w: Phase): int {
    match w
    case TryDeq(sawStop) => if sawStop then 2 else 6
    case Waiting => 5
    case Running(_) => 5
    case AtTop => 4
    case SawStop => 3
    case Exited => 0
  }

  function HandRank(h: Hand): int {
    if h.Passed? then 7 else if h.Placed? then 6 else 0
  }

  function QueueRank(q: seq<nat>): int { 5 * |q| }

  /** Work left after `stop_` was set: in the worker loops, the queues, calls in flight and joins. */
  function Rank(s: State): int {
    Total(PhaseRank, s.workers) + Total(QueueRank, s.queues) + Total(HandRank, s.hands)
    + (if s.stopper.Joining? then |s.workers| + 1 - s.stopper.k else 0)
  }

  lemma RankPositive(s: State)
    requires Invariant(s)
    ensures Rank(s) >= 0
  {
    TotalPositive(PhaseRank, s.workers);
    TotalPositive(QueueRank, s.queues);
    TotalPositive(HandRank, s.hands);
  }

  lemma TakeDescends(s: State, i: nat)
    requires Invariant(s) && i < |s.workers| && s.queues[i] != [] && (s.workers[i].TryDeq? || s.workers[i].Waiting?)
    ensures Rank(Take(s, i)) < Rank(s)
  {
    TotalUpdate(PhaseRank, s.workers, i, Running(s.queues[i][0]));
    TotalUpdate(QueueRank, s.queues, i, s.queues[i][1..]);
  }

  lemma PutDescends(s: State, p: nat)
    requires Invariant(s) && p < |s.hands| && s.hands[p].Placed?
    ensures Rank(Put(s, p)) < Rank(s)
  {
    var i := s.hands[p].queue;
    TotalUpdate(HandRank, s.hands, p, Idle);
    TotalUpdate(QueueRank, s.queues, i, s.queues[i] + [s.hands[p].task]);
  }

  lemma MoveDescends(s: State, i: nat, w: Phase)
    requires i < |s.workers| && PhaseRank(w) < PhaseRank(s.workers[i])
    ensures Total(PhaseRank, s.workers[i := w]) < Total(PhaseRank, s.workers)
  {
    TotalUpdate(PhaseRank, s.workers, i, w);
  }

  lemma HandDescends(s: State, p: nat, h: Hand)
    requires p < |s.hands| && HandRank(h) < HandRank(s.hands[p])
    ensures Total(HandRank, s.hands[p := h]) < Total(HandRank, s.hands)
  {
    TotalUpdate(HandRank, s.hands, p, h);
  }

  lemma {:induction false} WorkerDescends(s: State, a: Action)
    requires Invariant(s) && s.stop && Enabled(s, a)
    requires WorkerAction(a)
    ensures Rank(Apply(s, a)) < Rank(s)
  {
    match a
    case ReadStop(i) => MoveDescends(s, i, SawStop);
    case ReadSize(i) => MoveDescends(s, i, Apply(s, a).workers[i]);
    case TryDequeue(i) => if s.queues[i] != [] { TakeDescends(s, i); } else { MoveDescends(s, i, Waiting); }
    case WaitDequeue(i) => TakeDescends(s, i);
    case TimeOut(i) => MoveDescends(s, i, AtTop);
    case Finish(i) => MoveDescends(s, i, AtTop);
  }

  /** Once `stop_` is set every step of any thread lowers the rank. */
  lemma {:induction false} ShutdownDescends(s: State, a: Action)
    requires Invariant(s) && s.stop && Enabled(s, a)
    ensures Rank(Apply(s, a)) < Rank(s)
  {
    match a
    case Join =>
    case PlaceNext(p) => HandDescends(s, p, Apply(s, a).hands[p]);
    case PlaceAt(p, i) => HandDescends(s, p, Apply(s, a).hands[p]);
    case Enqueue(p, ok) => if ok { PutDescends(s, p); } else { HandDescends(s, p, Idle); }
    case _ => WorkerDescends(s, a);
  }

  // A step for the worker at this point of its loop.
  function Turn(w: Phase, i: nat): Action
    requires !w.Exited?
  {
    match w
    case AtTop => ReadStop(i)
    case SawStop => ReadSize(i)
    case TryDeq(_) => TryDequeue(i)
    case Waiting => TimeOut(i)
    case Running(_) => Finish(i)
  }

  // A step that is possible as long as `stop` has not returned.
  function NextStep(s: State): Action
    requires Invariant(s) && s.stop && !s.stopper.Returned?
  {
    var k := s.stopper.k;
    if k < |s.workers| && !s.workers[k].Exited? then Turn(s.workers[k], k) else Join
  }

  lemma NoDeadlock(s: State)
    requires Invariant(s) && s.stop && !s.stopper.Returned?
    ensures Enabled(s, NextStep(s))
  {
  }

  lemma {:induction false} RunsAreBounded(s: State, acts: seq<Action>)
    requires Invariant(s) && s.stop && Possible(s, acts)
    ensures |acts| <= Rank(s) && Final(s, acts).stop
    decreases |acts|
  {
    if acts == [] {
      RankPositive(s);
    } else {
      ShutdownDescends(s, acts[0]);
      StepKeeps(s, acts[0]);
      RunsAreBounded(Apply(s, acts[0]), acts[1..]);
    }
  }

  /** Shutdown terminates: once `stop_` is set no run is longer than the rank, and a run that cannot go
      on has `stop` returned, all workers gone, and in each queue only what came after its worker
      had left. */
  lemma {:induction false} ShutdownTerminates(s: State, acts: seq<Action>)
    requires Invariant(s) && s.stop && Possible(s, acts)
    ensures |acts| <= Rank(s)
    ensures var r := Final(s, acts);
      (forall a :: !Enabled(r, a)) ==>
        && r.stopper.Returned?
        && forall i :: 0 <= i < |r.workers| ==> r.workers[i].Exited? && r.queues[i] == r.late[i]
  {
    RunsAreBounded(s, acts);
    var r := Final(s, acts);
    if !r.stopper.Returned? { NoDeadlock(r); }
  }

  /******* Round robin *******/

  predicate FallsOn(m: nat, n: nat, i: nat)
    requires n > 0
  {
    m % n == i
  }

  // How many of the numbers 1 to m fall on queue i of n.
  function PlacedOn(m: nat, n: nat, i: nat): nat
    requires n > 0
  {
    if m == 0 then 0 else PlacedOn(m - 1, n, i) + (if m % n == i then 1 else 0)
  }

  lemma RemainderIs(q: nat, r: nat, n: nat)
    requires r < n
    ensures (q * n + r) % n == r
  {
    var m := q * n + r;
    OneQuotient(m / n, m % n, q, r, n);
    OneQuotient(q, r, m / n, m % n, n);
  }

  lemma OneQuotient(a: nat, b: nat, q: nat, r: nat, n: nat)
    requires b < n && r < n && a * n + b == q * n + r
    ensures a <= q
  {
    if a > q { Grows(a, q, n); }
  }

  lemma {:induction false} Grows(a: nat, q: nat, n: nat)
    requires a > q
    ensures a * n >= q * n + n
  {
    Distribute(a - 1, n);
    if a > q + 1 { Grows(a - 1, q, n); }
  }

  lemma Distribute(a: int, n: int)
    ensures (a + 1) * n == a * n + n
  {
  }

  lemma {:induction false} PlacedOnIs(q: nat, r: nat, n: nat, i: nat)
    requires r < n && i < n
    ensures PlacedOn(q * n + r, n, i) == q + (if 1 <= i <= r then 1 else 0)
    decreases q, r
  {
    if r > 0 {
      PlacedOnIs(q, r - 1, n, i);
      RemainderIs(q, r, n);
    } else if q > 0 {
      PlacedOnIs(q - 1, n - 1, n, i);
      RemainderIs(q, 0, n);
      assert (q - 1) * n + (n - 1) == q * n - 1;
    }
  }

  lemma {:induction false} Balanced(m: nat, n: nat, i: nat, j: nat)
    requires i < n && j < n
    ensures PlacedOn(m, n, i) <= PlacedOn(m, n, j) + 1
  {
    var q, r := m / n, m % n;
    assert m == q * n + r;
    PlacedOnIs(q, r, n, i);
    PlacedOnIs(q, r, n, j);
  }

  /******* Where tasks go *******/

  // The queue a task was placed on, wherever it is by now.
  function Destination(s: State, t: nat): Option<nat> {
    if t >= |s.places| then None
    else
      match s.places[t]
      case InHand(p) => if p < |s.hands| && s.hands[p].Placed? && s.hands[p].task == t then Some(s.hands[p].queue) else None
      case Queued(i) => Some(i)
      case RunningOn(i) => Some(i)
      case Done(i) => Some(i)
      case Refused(i) => Some(i)
  }

  lemma DestinationStays(s: State, a: Action, t: nat)
    requires Invariant(s) && Enabled(s, a) && Destination(s, t).Some?
    ensures Destination(Apply(s, a), t) == Destination(s, t)
  {
    hide RanAgrees, StopAgrees;
    if t < |s.places| && s.places[t].InHand? {
      assert s.hands[s.places[t].p].task == t;
    }
  }

  // After the first k actions task t is on its way to queue d, or has been there.
  ghost predicate DestinedAt(s: State, acts: seq<Action>, k: nat, t: nat, d: nat)
    requires Invariant(s) && Possible(s, acts) && k <= |acts|
  {
    Destination(StateAt(s, acts, k), t) == Some(d)
  }

  lemma {:induction false} DestinedUntil(s: State, acts: seq<Action>, j: nat, k: nat, t: nat, d: nat)
    requires Invariant(s) && Possible(s, acts) && j <= k <= |acts| && DestinedAt(s, acts, j, t, d)
    ensures DestinedAt(s, acts, k, t, d)
    decreases k
  {
    if j < k {
      hide Possible, Invariant, DestinedAt, Final, StateAt;
      DestinedUntil(s, acts, j, k - 1, t, d);
      DestinedStep(s, acts, k - 1, t, d);
    }
  }

  lemma DestinedStep(s: State, acts: seq<Action>, k: nat, t: nat, d: nat)
    requires Invariant(s) && Possible(s, acts) && k < |acts| && DestinedAt(s, acts, k, t, d)
    ensures DestinedAt(s, acts, k + 1, t, d)
  {
    hide Possible, Invariant, StateAt, Destination, Apply, Enabled;
    StepAt(s, acts, k);
    DestinationStays(StateAt(s, acts, k), acts[k], t);
  }

  // How many of the first k actions place by the counter.
  function Placements(acts: seq<Action>, k: nat): nat
    requires k <= |acts|
  {
    if k == 0 then 0 else Placements(acts, k - 1) + (if acts[k - 1].PlaceNext? then 1 else 0)
  }

  lemma {:induction false} CounterIs(s: State, acts: seq<Action>, k: nat)
    requires Invariant(s) && Possible(s, acts) && k <= |acts| && s.counter == 0
    ensures StateAt(s, acts, k).counter == Placements(acts, k)
  {
    if k > 0 {
      hide Possible, Invariant, StateAt, Apply, Enabled;
      StepAt(s, acts, k - 1);
      CounterIs(s, acts, k - 1);
      CounterStep(StateAt(s, acts, k - 1), acts[k - 1]);
    }
  }

  lemma CounterStep(s: State, a: Action)
    requires Invariant(s) && Enabled(s, a)
    ensures Apply(s, a).counter == s.counter + (if a.PlaceNext? then 1 else 0)
  {
    hide QueuesAgree, WorkersAgree, HandsAgree, RanAgrees, StopAgrees;
  }

  // The task that the j-th action places.
  ghost function TaskAt(s: State, acts: seq<Action>, j: nat): nat
    requires Invariant(s) && Possible(s, acts) && j < |acts| && (acts[j].PlaceNext? || acts[j].PlaceAt?)
  {
    StepAt(s, acts, j);
    StateAt(s, acts, j).hands[acts[j].p].task
  }

  /** A task goes where it is placed: the k-th task placed by the counter to queue k % n, any other to the
      queue asked for; and there it is queued, run and done. */
  lemma PlacedTask(workers: nat, producers: nat, acts: seq<Action>, j: nat)
    requires Invariant(Start(workers, producers)) && Possible(Start(workers, producers), acts) && j < |acts|
    requires acts[j].PlaceNext? || acts[j].PlaceAt?
    ensures var s0 := Start(workers, producers);
      && workers > 0
      && Destination(Final(s0, acts), TaskAt(s0, acts, j))
         == Some(if acts[j].PlaceAt? then acts[j].i else Placements(acts, j + 1) % workers)
  {
    var s0 := Start(workers, producers);
    StartEmpty(workers, producers);
    hide Possible, Invariant, Destination, StateAt, Apply, Enabled, Start, Final;
    StateAtEnd(s0, acts);
    PlacedAt(s0, acts, j);
    DestinedUntil(s0, acts, j + 1, |acts|, TaskAt(s0, acts, j),
                  if acts[j].PlaceAt? then acts[j].i else Placements(acts, j + 1) % workers);
  }

  lemma StartEmpty(workers: nat, producers: nat)
    ensures Start(workers, producers).counter == 0 && |Start(workers, producers).queues| == workers
  {
  }

  lemma PlacedAt(s: State, acts: seq<Action>, j: nat)
    requires Invariant(s) && Possible(s, acts) && s.counter == 0 && j < |acts|
    requires acts[j].PlaceNext? || acts[j].PlaceAt?
    ensures |s.queues| > 0
    ensures Destination(StateAt(s, acts, j + 1), TaskAt(s, acts, j))
            == Some(if acts[j].PlaceAt? then acts[j].i else Placements(acts, j + 1) % |s.queues|)
  {
    hide Possible, Invariant, Destination, StateAt, Apply, Enabled;
    CounterIs(s, acts, j);
    StepAt(s, acts, j);
    JustPlaced(StateAt(s, acts, j), acts[j]);
  }

  lemma JustPlaced(s: State, a: Action)
    requires Invariant(s) && Enabled(s, a) && (a.PlaceNext? || a.PlaceAt?)
    ensures |s.queues| > 0
    ensures Destination(Apply(s, a), s.hands[a.p].task)
            == Some(if a.PlaceAt? then a.i else (s.counter + 1) % |s.queues|)
  {
    hide QueuesAgree, WorkersAgree, RanAgrees, StopAgrees;
    assert s.places[s.hands[a.p].task] == InHand(a.p);
  }

  // The k-th action places by the counter a task that goes to queue i.
  ghost predicate SendsTo(s: State, acts: seq<Action>, k: nat, i: nat)
    requires Invariant(s) && Possible(s, acts) && k < |acts|
  {
    acts[k].PlaceNext? && Destination(Final(s, acts), TaskAt(s, acts, k)) == Some(i)
  }

  // How many of the first k actions do.
  ghost function SentTo(s: State, acts: seq<Action>, k: nat, i: nat): nat
    requires Invariant(s) && Possible(s, acts) && k <= |acts|
  {
    if k == 0 then 0 else SentTo(s, acts, k - 1, i) + (if SendsTo(s, acts, k - 1, i) then 1 else 0)
  }

  lemma SendsToIff(workers: nat, producers: nat, acts: seq<Action>, k: nat, i: nat)
    requires Invariant(Start(workers, producers)) && Possible(Start(workers, producers), acts)
    requires k < |acts| && i < workers
    ensures SendsTo(Start(workers, producers), acts, k, i) <==> acts[k].PlaceNext? && FallsOn(Placements(acts, k + 1), workers, i)
  {
    hide Possible, Invariant, Destination, Start, StateAt, TaskAt, Final, Placements;
    if acts[k].PlaceNext? { PlacedTask(workers, producers, acts, k); }
  }

  lemma {:induction false} SentToIs(workers: nat, producers: nat, acts: seq<Action>, k: nat, i: nat)
    requires Invariant(Start(workers, producers)) && Possible(Start(workers, producers), acts)
    requires k <= |acts| && i < workers
    ensures SentTo(Start(workers, producers), acts, k, i) == PlacedOn(Placements(acts, k), workers, i)
  {
    if k > 0 {
      hide Possible, Invariant, Start, SendsTo, PlacedOn, FallsOn;
      SentToIs(workers, producers, acts, k - 1, i);
      SendsToIff(workers, producers, acts, k - 1, i);
      PlacedOnNext(Placements(acts, k - 1), workers, i);
    } else {
      assert PlacedOn(0, workers, i) == 0;
    }
  }

  lemma PlacedOnNext(m: nat, n: nat, i: nat)
    requires n > 0
    ensures PlacedOn(m + 1, n, i) == PlacedOn(m, n, i) + (if FallsOn(m + 1, n, i) then 1 else 0)
  {
  }

  /** Under any interleaving of fewer than 2^31 placements by `insert` and `submit`, the numbers of
      tasks that go to any two queues differ by at most one. (Take i and j both ways.) */
  lemma RoundRobinBalance(workers: nat, producers: nat, acts: seq<Action>, i: nat, j: nat)
    requires Invariant(Start(workers, producers)) && Possible(Start(workers, producers), acts)
    requires i < workers && j < workers
    ensures SentTo(Start(workers, producers), acts, |acts|, i) <= SentTo(Start(workers, producers), acts, |acts|, j) + 1
  {
    SentToIs(workers, producers, acts, |acts|, i);
    SentToIs(workers, producers, acts, |acts|, j);
    Balanced(Placements(acts, |acts|), workers, i, j);
  }

  lemma RunMore(s: State, a: Action, r: State, acts: seq<Action>)
    requires Invariant(s) && Enabled(s, a) && Apply(s, a) == r
    ensures Invariant(r) && Possible(s, [a] + acts) == Possible(r, acts)
    ensures Possible(r, acts) ==> Final(s, [a] + acts) == Final(r, acts)
  {
    StepKeeps(s, a);
    assert ([a] + acts)[1..] == acts;
  }

  // `insert` by the counter, undisturbed.
  function Inserting(p: nat): seq<Action> { [Begin(p)] + ([PlaceNext(p)] + ([Enqueue(p, true)] + [])) }

  function Begun(s: State, p: nat, h: Hand, c: nat): State
    requires p < |s.hands|
  {
    s.(hands := s.hands[p := h], places := s.places + [InHand(p)], counter := c)
  }

  function Queueing(s: State, i: nat, c: nat): State
    requires i < |s.queues|
  {
    s.(queues := s.queues[i := s.queues[i] + [|s.places|]], places := s.places + [Queued(i)], counter := c)
  }

  /** An insertion by the counter is a run, until `stop_` is set: the new task ends the next queue. */
  lemma InsertByCounter(s: State, p: nat)
    requires Invariant(s) && !s.stop && p < |s.hands| && s.hands[p].Idle? && |s.queues| > 0 && s.counter + 1 < INT32_LIMIT
    ensures Possible(s, Inserting(p))
    ensures Final(s, Inserting(p)) == Queueing(s, (s.counter + 1) % |s.queues|, s.counter + 1)
  {
    hide Possible, Final, Begun, Queueing, Apply, Enabled, NextQueue;
    var t, i := |s.places|, NextQueue(s.counter, |s.queues|);
    var s1, s2 := Begun(s, p, Passed(t), s.counter), Begun(s, p, Placed(t, i), s.counter + 1);
    var s3 := Queueing(s, i, s.counter + 1);
    BeginsPlaces(s, p);
    RunMore(s, Begin(p), s1, [PlaceNext(p)] + ([Enqueue(p, true)] + []));
    RunMore(s1, PlaceNext(p), s2, [Enqueue(p, true)] + []);
    NobodyLeft(s, i);
    PutsLast(s, p, i);
    RunMore(s2, Enqueue(p, true), s3, []);
    NoMore(s3);
  }

  lemma BeginsPlaces(s: State, p: nat)
    requires Shape(s) && !s.stop && p < |s.hands| && s.hands[p].Idle? && |s.queues| > 0 && s.counter + 1 < INT32_LIMIT
    ensures var s1 := Begun(s, p, Passed(|s.places|), s.counter);
      && Enabled(s, Begin(p)) && Apply(s, Begin(p)) == s1
      && Shape(s1) && Enabled(s1, PlaceNext(p))
      && Apply(s1, PlaceNext(p)) == Begun(s, p, Placed(|s.places|, NextQueue(s.counter, |s.queues|)), s.counter + 1)
  {
    hide NextQueue;
  }

  lemma PutsLast(s: State, p: nat, i: nat)
    requires Shape(s) && p < |s.hands| && s.hands[p].Idle? && i < |s.queues| && !s.workers[i].Exited?
    ensures var r := Begun(s, p, Placed(|s.places|, i), s.counter + 1);
      && Shape(r) && Enabled(r, Enqueue(p, true))
      && Apply(r, Enqueue(p, true)) == Queueing(s, i, s.counter + 1)
  {
  }

  lemma NoMore(s: State)
    requires Invariant(s)
    ensures Possible(s, []) && Final(s, []) == s
  {
  }

  lemma NobodyLeft(s: State, i: nat)
    requires Invariant(s) && !s.stop && i < |s.workers|
    ensures !s.workers[i].Exited?
  {
  }

  // The steps by which a worker comes to the head of its queue.
  function Serving(w: Phase, i: nat, stop: bool): seq<Action> {
    match w
    case AtTop => if stop then [ReadStop(i)] + ([ReadSize(i)] + ([TryDequeue(i)] + [])) else [ReadStop(i)] + ([TryDequeue(i)] + [])
    case SawStop => [ReadSize(i)] + ([TryDequeue(i)] + [])
    case TryDeq(_) => [TryDequeue(i)] + []
    case Waiting => [WaitDequeue(i)] + []
    case Running(_) => []
    case Exited => []
  }

  /** A worker that neither runs a task nor has returned takes the first task of its queue by its own next
      steps, before and after `stop_` is set; one that waits takes it at once. */
  lemma HeadIsServed(s: State, i: nat)
    requires Invariant(s) && i < |s.workers| && !s.workers[i].Running? && !s.workers[i].Exited? && s.queues[i] != []
    ensures Possible(s, Serving(s.workers[i], i, s.stop))
    ensures var r := Final(s, Serving(s.workers[i], i, s.stop)); i < |r.workers| && r.workers[i] == Running(s.queues[i][0])
    decreases if s.workers[i].AtTop? then 2 else if s.workers[i].SawStop? then 1 else 0
  {
    hide QueuesAgree, WorkersAgree, HandsAgree, RanAgrees;
    var acts := Serving(s.workers[i], i, s.stop);
    var rest := if s.workers[i].AtTop? || s.workers[i].SawStop? then acts[1..] else [];
    var s1 := Apply(s, acts[0]);
    RunMore(s, acts[0], s1, rest);
    assert [acts[0]] + rest == acts;
    if rest != [] { HeadIsServed(s1, i); } else { NoMore(s1); }
  }

  // `insert(num, ...)`: the guard that comes before the vector is indexed.
  predicate NumberAdmitted(num: nat, size: nat) { !(num > size) }

  /** Every admitted number but one is a queue: the guard lets `num == size` through. */
  lemma NumberedIndex(num: nat, size: nat)
    ensures NumberAdmitted(num, size) && !(num < size) <==> num == size
  {
  }
}

/**
 * The build queue (worker_build_queue.go) as a monitor: every step is what one client or worker
 * does between taking the lock and giving it up, be it by returning, by waiting on a condition
 * variable or to run a job. Any step that can happen may happen next.
 */
module Scheduler {
  import opened Wrappers

  type Id = nat
  type Key = nat
  type Name = nat

  datatype Stage = Queued | Executing | Completed

  function Rank(s: Stage): nat {
    match s
    case Queued => 0
    case Executing => 1
    case Completed => 2
  }

  /** Jobs are numbered by insertion order; `runs` counts how often a worker was given the job. */
  datatype Job = Job(key: Key, priority: int, stage: Stage, runs: nat)

  datatype Message = Message(stage: Stage, done: bool)

  /** Where a client is: in Wait(), woken but without the lock, or returned (without error or not). */
  datatype ClientPc = Sleeping | Roused | Ended(ok: bool)

  /** A client that waits for a job, with all it was sent. */
  datatype Client = Client(job: nat, pc: ClientPc, sent: seq<Message>)

  /** Where a worker is: in Wait(), woken but without the lock, running a job, or returned. */
  datatype WorkerPc = Waiting | Signalled | Running(job: nat) | Left

  datatype Queue = Queue(
    jobs: seq<Job>,
    byName: map<Name, nat>,
    byKey: map<Key, nat>,
    pending: set<nat>,
    workers: map<Id, WorkerPc>,
    dead: set<Id>,
    clients: map<Id, Client>)

  /**
   * `wake` is the worker that a Signal() wakes up, `next` the job that is taken from the heap, and
   * `sent` tells whether the first message to a client goes through.
   */
  datatype Event =
    | Execute(c: Id, key: Key, priority: int, name: Name, wake: Option<Id>, sent: bool)
    | WaitExecution(c: Id, name: Name, sent: bool)
    | Resume(c: Id, sent: bool)
    | Arrive(w: Id, next: nat, wake: Option<Id>)
    | Retry(w: Id, next: nat, wake: Option<Id>)
    | Finish(w: Id, next: nat, wake: Option<Id>)
    | Disconnect(w: Id)

  // ---------------------------------------------------------------------------------------------
  // Steps
  // ---------------------------------------------------------------------------------------------

  predicate IsWaiting(q: Queue, w: Id) {
    w in q.workers && q.workers[w] == Waiting
  }

  /** Signal() wakes one waiting worker if there is any. */
  predicate CanSignal(q: Queue, wake: Option<Id>) {
    if wake.Some? then IsWaiting(q, wake.value) else forall w | w in q.workers :: !IsWaiting(q, w)
  }

  function Signal(q: Queue, wake: Option<Id>): Queue {
    if wake.None? then q else q.(workers := q.workers[wake.value := Signalled])
  }

  /** One turn of waitExecution: send the current state, then return or wait. */
  function Notify(q: Queue, c: Id, j: nat, before: seq<Message>, sent: bool): Queue
    requires j < |q.jobs|
  {
    var done := q.jobs[j].stage == Completed;
    var client := if !sent then Client(j, Ended(false), before)
                  else Client(j, if done then Ended(true) else Sleeping, before + [Message(q.jobs[j].stage, done)]);
    q.(clients := q.clients[c := client])
  }

  /** The order of the heap: priority first, then insertion order. */
  predicate Before(q: Queue, a: nat, b: nat)
    requires a < |q.jobs| && b < |q.jobs|
  {
    q.jobs[a].priority < q.jobs[b].priority || (q.jobs[a].priority == q.jobs[b].priority && a < b)
  }

  predicate IsLeast(q: Queue, j: nat) {
    j in q.pending && j < |q.jobs| && forall i | i in q.pending && i < |q.jobs| :: !Before(q, i, j)
  }

  /** The job goes to this worker. */
  function Dispatch(q: Queue, w: Id, next: nat): Queue
    requires next < |q.jobs|
  {
    q.(pending := q.pending - {next},
       jobs := q.jobs[next := q.jobs[next].(stage := Executing, runs := q.jobs[next].runs + 1)],
       workers := q.workers[w := Running(next)])
  }

  /** A worker at the top of its loop, holding the lock. */
  function Loop(q: Queue, w: Id, next: nat, wake: Option<Id>): Queue
    requires next in q.pending && w !in q.dead ==> next < |q.jobs|
  {
    if q.pending == {} then
      q.(workers := q.workers[w := Waiting])
    else if w in q.dead then
      Signal(q.(workers := q.workers[w := Left]), wake)
    else if next in q.pending then
      Dispatch(q, w, next)
    else q
  }

  predicate CanLoop(q: Queue, w: Id, next: nat, wake: Option<Id>) {
    q.pending != {} ==>
      if w in q.dead then CanSignal(q.(workers := q.workers[w := Left]), wake) else IsLeast(q, next)
  }

  /** Completion: the job leaves the deduplication map, and everyone waiting for it is woken. */
  function Complete(q: Queue, w: Id): Queue
    requires w in q.workers && q.workers[w].Running? && q.workers[w].job < |q.jobs|
  {
    var j := q.workers[w].job;
    q.(jobs := q.jobs[j := q.jobs[j].(stage := Completed)],
       byKey := q.byKey - {q.jobs[j].key},
       workers := q.workers[w := Signalled],
       clients := map c | c in q.clients ::
         if q.clients[c].job == j && q.clients[c].pc == Sleeping then q.clients[c].(pc := Roused) else q.clients[c])
  }

  /** A new job at the end of the queue. */
  function Enqueue(q: Queue, key: Key, priority: int, name: Name): Queue {
    var j := |q.jobs|;
    q.(jobs := q.jobs + [Job(key, priority, Queued, 0)],
       byName := q.byName[name := j],
       byKey := q.byKey[key := j],
       pending := q.pending + {j})
  }

  predicate Enabled(q: Queue, max: nat, e: Event) {
    match e
    case Execute(c, key, priority, name, wake, _) =>
      c !in q.clients &&
      (if key in q.byKey then q.byKey[key] < |q.jobs|
       else |q.pending| < max ==> name !in q.byName && CanSignal(Enqueue(q, key, priority, name), wake))
    case WaitExecution(c, name, _) => c !in q.clients && (name in q.byName ==> q.byName[name] < |q.jobs|)
    case Resume(c, _) => c in q.clients && q.clients[c].pc == Roused && q.clients[c].job < |q.jobs|
    case Arrive(w, next, wake) => w !in q.workers && CanLoop(q, w, next, wake)
    case Retry(w, next, wake) => w in q.workers && q.workers[w] == Signalled && CanLoop(q, w, next, wake)
    case Finish(w, next, wake) =>
      w in q.workers && q.workers[w].Running? && q.workers[w].job < |q.jobs| && CanLoop(Complete(q, w), w, next, wake)
    case Disconnect(_) => true
  }

  /** A call that is refused, for want of space or for an unknown name, leaves no trace. */
  function Step(q: Queue, max: nat, e: Event): Queue
    requires Enabled(q, max, e)
  {
    match e
    case Execute(c, key, priority, name, wake, sent) =>
      if key in q.byKey then Notify(q, c, q.byKey[key], [], sent)
      else if |q.pending| >= max then q
      else Notify(Signal(Enqueue(q, key, priority, name), wake), c, |q.jobs|, [], sent)
    case WaitExecution(c, name, sent) =>
      if name in q.byName then Notify(q, c, q.byName[name], [], sent) else q
    case Resume(c, sent) => Notify(q, c, q.clients[c].job, q.clients[c].sent, sent)
    case Arrive(w, next, wake) => Loop(q, w, next, wake)
    case Retry(w, next, wake) => Loop(q, w, next, wake)
    case Finish(w, next, wake) => Loop(Complete(q, w), w, next, wake)
    case Disconnect(w) => q.(dead := q.dead + {w})
  }

  // ---------------------------------------------------------------------------------------------
  // Invariant
  // ---------------------------------------------------------------------------------------------

  /** The heap holds exactly the queued jobs; a job ran once exactly if it is not queued. */
  ghost predicate JobsOk(q: Queue) {
    (forall j | j in q.pending :: j < |q.jobs|) &&
    (forall j: nat | j < |q.jobs| :: (j in q.pending <==> q.jobs[j].stage == Queued)) &&
    (forall j: nat | j < |q.jobs| :: q.jobs[j].runs == (if q.jobs[j].stage == Queued then 0 else 1))
  }

  /** The maps: every job that is not completed is the one under its key, and no other is there. */
  ghost predicate MapsOk(q: Queue) {
    (forall n | n in q.byName :: q.byName[n] < |q.jobs|) &&
    (forall k | k in q.byKey ::
       q.byKey[k] < |q.jobs| && q.jobs[q.byKey[k]].key == k && q.jobs[q.byKey[k]].stage != Completed) &&
    (forall j: nat | j < |q.jobs| && q.jobs[j].stage != Completed ::
       q.jobs[j].key in q.byKey && q.byKey[q.jobs[j].key] == j)
  }

  predicate Runs(q: Queue, w: Id, j: nat) {
    w in q.workers && q.workers[w] == Running(j)
  }

  /** The executing jobs are those that some worker runs, and only one does. */
  ghost predicate WorkersOk(q: Queue) {
    (forall w, j: nat | Runs(q, w, j) :: j < |q.jobs| && q.jobs[j].stage == Executing) &&
    (forall w, v, j: nat | Runs(q, w, j) && Runs(q, v, j) :: w == v) &&
    (forall j: nat | j < |q.jobs| && q.jobs[j].stage == Executing :: exists w :: Runs(q, w, j))
  }

  /** Stages never go back, and Done is said once, at the end, exactly to streams that end well. */
  predicate ClientOk(q: Queue, c: Client) {
    c.job < |q.jobs| &&
    (forall i | 0 <= i < |c.sent| :: Rank(c.sent[i].stage) <= Rank(q.jobs[c.job].stage)) &&
    (forall i, k | 0 <= i < k < |c.sent| :: Rank(c.sent[i].stage) <= Rank(c.sent[k].stage) && !c.sent[i].done) &&
    (forall i | 0 <= i < |c.sent| :: c.sent[i].done <==> c.sent[i].stage == Completed) &&
    (match c.pc
     case Sleeping => q.jobs[c.job].stage != Completed
     case Roused => q.jobs[c.job].stage == Completed && forall i | 0 <= i < |c.sent| :: !c.sent[i].done
     case Ended(ok) =>
       if ok then c.sent != [] && c.sent[|c.sent| - 1].done else forall i | 0 <= i < |c.sent| :: !c.sent[i].done)
  }

  ghost predicate ClientsOk(q: Queue) {
    forall c | c in q.clients :: ClientOk(q, q.clients[c])
  }

  /** Jobs of equal priority leave the queue in the order in which they were inserted. */
  ghost predicate FirstInFirstOut(q: Queue) {
    forall a: nat, b: nat | a < b < |q.jobs| && q.jobs[a].priority == q.jobs[b].priority && q.jobs[b].stage != Queued ::
      q.jobs[a].stage != Queued
  }

  function Woken(workers: map<Id, WorkerPc>): set<Id> {
    set w | w in workers && workers[w] == Signalled
  }

  /** No wakeup is lost: while a worker waits, every pending job has a woken worker of its own. */
  ghost predicate NoLostWakeup(q: Queue) {
    (exists w :: IsWaiting(q, w)) ==> |q.pending| <= |Woken(q.workers)|
  }

  ghost predicate Core(q: Queue) {
    JobsOk(q) && MapsOk(q) && WorkersOk(q) && ClientsOk(q) && FirstInFirstOut(q)
  }

  ghost predicate Inv(q: Queue, max: nat) {
    Core(q) && NoLostWakeup(q) && |q.pending| <= max
  }

  predicate Empty(q: Queue) {
    q.jobs == [] && q.byName == map[] && q.byKey == map[] && q.pending == {} && q.workers == map[] && q.clients == map[]
  }

  // ---------------------------------------------------------------------------------------------
  // Preservation
  // ---------------------------------------------------------------------------------------------

  ghost predicate IsExecuting(q: Queue, j: nat) {
    j < |q.jobs| && q.jobs[j].stage == Executing
  }

  /** Neither what workers run nor which jobs are executing has changed. */
  lemma WorkersStayOk(q: Queue, q': Queue)
    requires WorkersOk(q)
    requires forall w, j: nat :: Runs(q', w, j) <==> Runs(q, w, j)
    requires forall j: nat :: IsExecuting(q', j) <==> IsExecuting(q, j)
    ensures WorkersOk(q')
  {
    forall j: nat | j < |q'.jobs| && q'.jobs[j].stage == Executing ensures exists w :: Runs(q', w, j) {
      assert IsExecuting(q', j) && IsExecuting(q, j);
      var w :| Runs(q, w, j);
      assert Runs(q', w, j);
    }
    forall w, j: nat | Runs(q', w, j) ensures j < |q'.jobs| && q'.jobs[j].stage == Executing {
      assert Runs(q, w, j);
      assert IsExecuting(q, j) && IsExecuting(q', j);
    }
  }

  /** Jobs may only be added, or move to a later stage unless a client sleeps on them. */
  lemma ClientsStayOk(q: Queue, q': Queue)
    requires ClientsOk(q) && q'.clients == q.clients && |q.jobs| <= |q'.jobs|
    requires forall j: nat | j < |q.jobs| ::
               Rank(q.jobs[j].stage) <= Rank(q'.jobs[j].stage) &&
               (q'.jobs[j].stage == Completed <==> q.jobs[j].stage == Completed)
    ensures ClientsOk(q')
  {
    forall c | c in q'.clients ensures ClientOk(q', q'.clients[c]) {
      assert ClientOk(q, q.clients[c]);
    }
  }

  lemma NotifyKeepsClients(q: Queue, c: Id, j: nat, before: seq<Message>, sent: bool)
    requires ClientsOk(q) && j < |q.jobs|
    requires before != [] ==> c in q.clients && q.clients[c] == Client(j, Roused, before)
    ensures ClientsOk(Notify(q, c, j, before, sent))
  {
    var q' := Notify(q, c, j, before, sent);
    assert ClientOk(q', q'.clients[c]) by {
      if before != [] {
        assert ClientOk(q, q.clients[c]);
      }
    }
    forall d | d in q'.clients ensures ClientOk(q', q'.clients[d]) {
      if d != c {
        assert ClientOk(q, q.clients[d]);
      }
    }
  }

  lemma NotifyKeepsCore(q: Queue, c: Id, j: nat, before: seq<Message>, sent: bool)
    requires Core(q) && j < |q.jobs|
    requires before != [] ==> c in q.clients && q.clients[c] == Client(j, Roused, before)
    ensures Core(Notify(q, c, j, before, sent))
  {
    hide ClientsOk, WorkersOk;
    NotifyKeepsClients(q, c, j, before, sent);
    WorkersStayOk(q, Notify(q, c, j, before, sent));
  }

  /** Changing where workers are that run nothing does not concern the jobs. */
  lemma IdleWorkersKeepCore(q: Queue, workers: map<Id, WorkerPc>)
    requires Core(q)
    requires forall w, j: nat :: Runs(q.(workers := workers), w, j) <==> Runs(q, w, j)
    ensures Core(q.(workers := workers))
  {
    WorkersStayOk(q, q.(workers := workers));
    ClientsStayOk(q, q.(workers := workers));
  }

  lemma EnqueueKeepsCore(q: Queue, key: Key, priority: int, name: Name)
    requires Core(q) && key !in q.byKey
    ensures Core(Enqueue(q, key, priority, name))
  {
    hide ClientsOk, WorkersOk;
    var q' := Enqueue(q, key, priority, name);
    ClientsStayOk(q, q');
    assert forall w, j: nat :: Runs(q', w, j) <==> Runs(q, w, j);
    WorkersStayOk(q, q');
  }

  lemma DispatchKeepsWorkers(q: Queue, w: Id, next: nat)
    requires JobsOk(q) && WorkersOk(q) && next in q.pending && (w in q.workers ==> !q.workers[w].Running?)
    ensures WorkersOk(Dispatch(q, w, next))
  {
    var q' := Dispatch(q, w, next);
    forall j: nat | j < |q'.jobs| && q'.jobs[j].stage == Executing ensures exists v :: Runs(q', v, j) {
      if j == next {
        assert Runs(q', w, j);
      } else {
        var v :| Runs(q, v, j);
        assert Runs(q', v, j);
      }
    }
    forall v, j: nat | Runs(q', v, j) ensures v == w || Runs(q, v, j) {
    }
  }

  lemma DispatchKeepsCore(q: Queue, w: Id, next: nat)
    requires Core(q) && IsLeast(q, next) && (w in q.workers ==> !q.workers[w].Running?)
    ensures Core(Dispatch(q, w, next))
  {
    var q' := Dispatch(q, w, next);
    ClientsStayOk(q, q');
    DispatchKeepsWorkers(q, w, next);
    forall a: nat, b: nat |
      a < b < |q'.jobs| && q'.jobs[a].priority == q'.jobs[b].priority && q'.jobs[b].stage != Queued
      ensures q'.jobs[a].stage != Queued
    {
      assert a in q.pending ==> !Before(q, a, next);
    }
  }

  lemma CompleteKeepsWorkers(q: Queue, w: Id)
    requires WorkersOk(q) && w in q.workers && q.workers[w].Running?
    ensures q.workers[w].job < |q.jobs| && q.jobs[q.workers[w].job].stage == Executing && WorkersOk(Complete(q, w))
  {
    assert Runs(q, w, q.workers[w].job);
    var q' := Complete(q, w);
    forall i: nat | i < |q'.jobs| && q'.jobs[i].stage == Executing ensures exists v :: Runs(q', v, i) {
      var v :| Runs(q, v, i);
      assert Runs(q', v, i);
    }
    forall v, i: nat | Runs(q', v, i) ensures Runs(q, v, i) && v != w {
    }
  }

  lemma CompleteKeepsClients(q: Queue, w: Id)
    requires ClientsOk(q) && w in q.workers && q.workers[w].Running? && q.workers[w].job < |q.jobs|
    requires q.jobs[q.workers[w].job].stage == Executing
    ensures ClientsOk(Complete(q, w))
  {
    var q' := Complete(q, w);
    forall c | c in q'.clients ensures ClientOk(q', q'.clients[c]) {
      assert ClientOk(q, q.clients[c]);
    }
  }

  lemma CompleteKeepsCore(q: Queue, w: Id)
    requires Core(q) && w in q.workers && q.workers[w].Running?
    ensures q.workers[w].job < |q.jobs| && Core(Complete(q, w))
  {
    CompleteKeepsWorkers(q, w);
    CompleteKeepsClients(q, w);
    CompleteKeepsMaps(q, w);
  }

  lemma CompleteKeepsMaps(q: Queue, w: Id)
    requires JobsOk(q) && MapsOk(q) && FirstInFirstOut(q)
    requires w in q.workers && q.workers[w].Running? && q.workers[w].job < |q.jobs|
    requires q.jobs[q.workers[w].job].stage == Executing
    ensures var q' := Complete(q, w); JobsOk(q') && MapsOk(q') && FirstInFirstOut(q')
  {
  }

  // ---------------------------------------------------------------------------------------------
  // Wakeups
  // ---------------------------------------------------------------------------------------------

  /** The worker w has the lock. Not counting it, at most one pending job has no woken worker. */
  ghost predicate AllButOneAwake(q: Queue, w: Id) {
    (exists v :: v != w && IsWaiting(q, v)) ==> |q.pending| <= |Woken(q.workers) - {w}| + 1
  }

  lemma LeaveLosesNoWakeup(q: Queue, w: Id, wake: Option<Id>)
    requires AllButOneAwake(q, w) && CanSignal(q.(workers := q.workers[w := Left]), wake)
    ensures NoLostWakeup(Signal(q.(workers := q.workers[w := Left]), wake))
  {
    var q1 := q.(workers := q.workers[w := Left]);
    var q' := Signal(q1, wake);
    if wake.Some? {
      assert wake.value != w && IsWaiting(q, wake.value);
      assert wake.value !in Woken(q.workers);
      assert Woken(q'.workers) == (Woken(q.workers) - {w}) + {wake.value};
    } else {
      assert forall v :: !IsWaiting(q', v);
    }
  }

  lemma DispatchLosesNoWakeup(q: Queue, w: Id, next: nat)
    requires AllButOneAwake(q, w) && next in q.pending && next < |q.jobs|
    ensures NoLostWakeup(Dispatch(q, w, next))
  {
    var q' := Dispatch(q, w, next);
    assert Woken(q'.workers) == Woken(q.workers) - {w};
    assert |q'.pending| == |q.pending| - 1;
    assert forall v | IsWaiting(q', v) :: v != w && IsWaiting(q, v);
  }

  lemma LoopLosesNoWakeup(q: Queue, w: Id, next: nat, wake: Option<Id>)
    requires AllButOneAwake(q, w) && CanLoop(q, w, next, wake)
    ensures NoLostWakeup(Loop(q, w, next, wake))
  {
    hide AllButOneAwake;
    if q.pending != {} {
      if w in q.dead {
        LeaveLosesNoWakeup(q, w, wake);
      } else {
        DispatchLosesNoWakeup(q, w, next);
      }
    }
  }

  lemma SignalLosesNoWakeup(q: Queue, n: nat, wake: Option<Id>)
    requires NoLostWakeup(q.(pending := q.pending - {n})) && CanSignal(q, wake)
    ensures NoLostWakeup(Signal(q, wake))
  {
    var q0, q' := q.(pending := q.pending - {n}), Signal(q, wake);
    assert |q.pending| <= |q0.pending| + 1 by {
      assert q.pending <= q0.pending + {n};
      SubsetSize(q.pending, q0.pending + {n});
    }
    if wake.Some? {
      assert IsWaiting(q0, wake.value);
      assert Woken(q'.workers) == Woken(q.workers) + {wake.value};
    } else {
      assert forall v :: !IsWaiting(q', v);
    }
  }

  lemma {:induction false} SubsetSize(a: set<nat>, b: set<nat>)
    requires a <= b
    ensures |a| <= |b|
    decreases |a|
  {
    if a != {} {
      var x :| x in a;
      SubsetSize(a - {x}, b - {x});
    }
  }

  // ---------------------------------------------------------------------------------------------
  // Every step keeps the invariant
  // ---------------------------------------------------------------------------------------------

  lemma LoopKeepsInv(q: Queue, max: nat, w: Id, next: nat, wake: Option<Id>)
    requires Core(q) && |q.pending| <= max && AllButOneAwake(q, w) && CanLoop(q, w, next, wake)
    requires w in q.workers ==> q.workers[w] == Signalled
    ensures Inv(Loop(q, w, next, wake), max)
  {
    LoopLosesNoWakeup(q, w, next, wake);
    LoopKeepsCore(q, w, next, wake);
    LoopDoesNotGrow(q, w, next, wake);
  }

  lemma LoopDoesNotGrow(q: Queue, w: Id, next: nat, wake: Option<Id>)
    requires CanLoop(q, w, next, wake)
    ensures |Loop(q, w, next, wake).pending| <= |q.pending|
  {
  }

  lemma LoopKeepsCore(q: Queue, w: Id, next: nat, wake: Option<Id>)
    requires Core(q) && CanLoop(q, w, next, wake) && (w in q.workers ==> q.workers[w] == Signalled)
    ensures Core(Loop(q, w, next, wake))
  {
    hide Core;
    if q.pending == {} {
      IdleWorkersKeepCore(q, q.workers[w := Waiting]);
    } else if w in q.dead {
      IdleWorkersKeepCore(q, Signal(q.(workers := q.workers[w := Left]), wake).workers);
    } else {
      DispatchKeepsCore(q, w, next);
    }
  }

  lemma EnqueueKeepsInv(q: Queue, max: nat, key: Key, priority: int, name: Name, wake: Option<Id>)
    requires Inv(q, max) && key !in q.byKey && |q.pending| < max
    requires CanSignal(Enqueue(q, key, priority, name), wake)
    ensures Inv(Signal(Enqueue(q, key, priority, name), wake), max)
  {
    hide MapsOk, WorkersOk, ClientsOk, FirstInFirstOut;
    var q1 := Enqueue(q, key, priority, name);
    EnqueueKeepsCore(q, key, priority, name);
    SignalKeepsCore(q1, wake);
    assert |q.jobs| !in q.pending;
    assert q1.pending - {|q.jobs|} == q.pending;
    QueueWithoutNew(q, q1);
    SignalLosesNoWakeup(q1, |q.jobs|, wake);
  }

  lemma SignalKeepsCore(q: Queue, wake: Option<Id>)
    requires Core(q) && CanSignal(q, wake)
    ensures Core(Signal(q, wake))
  {
    IdleWorkersKeepCore(q, Signal(q, wake).workers);
  }

  lemma ExecuteKeepsInv(q: Queue, max: nat, e: Event)
    requires Inv(q, max) && e.Execute? && Enabled(q, max, e)
    ensures Inv(Step(q, max, e), max)
  {
    if e.key in q.byKey {
      NotifyKeepsInv(q, max, e.c, q.byKey[e.key], [], e.sent);
    } else if |q.pending| < max {
      EnqueueKeepsInv(q, max, e.key, e.priority, e.name, e.wake);
      hide Core, Notify;
      NotifyKeepsInv(Signal(Enqueue(q, e.key, e.priority, e.name), e.wake), max, e.c, |q.jobs|, [], e.sent);
    }
  }

  lemma QueueWithoutNew(q: Queue, q1: Queue)
    requires NoLostWakeup(q) && q1.workers == q.workers && q1.pending - {|q.jobs|} == q.pending
    ensures NoLostWakeup(q1.(pending := q1.pending - {|q.jobs|}))
  {
    assert forall v :: IsWaiting(q1.(pending := q.pending), v) == IsWaiting(q, v);
  }

  lemma NotifyKeepsAwake(q: Queue, c: Id, j: nat, before: seq<Message>, sent: bool)
    requires j < |q.jobs| && NoLostWakeup(q)
    ensures NoLostWakeup(Notify(q, c, j, before, sent))
  {
    assert forall v :: IsWaiting(Notify(q, c, j, before, sent), v) == IsWaiting(q, v);
  }

  lemma CompleteKeepsAwake(q: Queue, w: Id)
    requires NoLostWakeup(q) && w in q.workers && q.workers[w].Running? && q.workers[w].job < |q.jobs|
    ensures AllButOneAwake(Complete(q, w), w)
  {
    var q1 := Complete(q, w);
    assert Woken(q1.workers) - {w} == Woken(q.workers);
    assert forall v :: v != w && IsWaiting(q1, v) ==> IsWaiting(q, v);
  }

  lemma FinishKeepsInv(q: Queue, max: nat, w: Id, next: nat, wake: Option<Id>)
    requires Inv(q, max) && Enabled(q, max, Finish(w, next, wake))
    ensures Inv(Step(q, max, Finish(w, next, wake)), max)
  {
    hide Core, Loop, CanLoop, NoLostWakeup, AllButOneAwake;
    CompleteKeepsCore(q, w);
    CompleteKeepsAwake(q, w);
    LoopKeepsInv(Complete(q, w), max, w, next, wake);
  }

  lemma NotifyKeepsInv(q: Queue, max: nat, c: Id, j: nat, before: seq<Message>, sent: bool)
    requires Inv(q, max) && j < |q.jobs|
    requires before != [] ==> c in q.clients && q.clients[c] == Client(j, Roused, before)
    ensures Inv(Notify(q, c, j, before, sent), max)
  {
    hide Core;
    NotifyKeepsCore(q, c, j, before, sent);
    NotifyKeepsAwake(q, c, j, before, sent);
  }

  /** A worker that arrives, or was woken, and now has the lock. */
  lemma EnterKeepsInv(q: Queue, max: nat, w: Id, next: nat, wake: Option<Id>)
    requires Inv(q, max) && CanLoop(q, w, next, wake) && (w in q.workers ==> q.workers[w] == Signalled)
    ensures Inv(Loop(q, w, next, wake), max)
  {
    hide Core;
    if w in q.workers {
      assert w in Woken(q.workers);
    } else {
      assert Woken(q.workers) - {w} == Woken(q.workers);
    }
    LoopKeepsInv(q, max, w, next, wake);
  }

  lemma DisconnectKeepsInv(q: Queue, max: nat, w: Id)
    requires Inv(q, max)
    ensures Inv(q.(dead := q.dead + {w}), max)
  {
    var q' := q.(dead := q.dead + {w});
    WorkersStayOk(q, q');
    ClientsStayOk(q, q');
    assert forall v :: IsWaiting(q', v) == IsWaiting(q, v);
  }

  lemma StepKeepsInv(q: Queue, max: nat, e: Event)
    requires Inv(q, max) && Enabled(q, max, e)
    ensures Inv(Step(q, max, e), max)
  {
    hide Inv, Loop, CanLoop, Notify, Complete;
    match e
    case Execute(_, _, _, _, _, _) => ExecuteKeepsInv(q, max, e);
    case WaitExecution(c, name, sent) =>
      if name in q.byName {
        NotifyKeepsInv(q, max, c, q.byName[name], [], sent);
      }
    case Resume(c, sent) => NotifyKeepsInv(q, max, c, q.clients[c].job, q.clients[c].sent, sent);
    case Arrive(w, next, wake) => EnterKeepsInv(q, max, w, next, wake);
    case Retry(w, next, wake) => EnterKeepsInv(q, max, w, next, wake);
    case Finish(w, next, wake) => FinishKeepsInv(q, max, w, next, wake);
    case Disconnect(w) => DisconnectKeepsInv(q, max, w);
  }

  // ---------------------------------------------------------------------------------------------
  // Runs
  // ---------------------------------------------------------------------------------------------

  predicate CanRun(q: Queue, max: nat, events: seq<Event>)
    decreases |events|
  {
    events == [] || (Enabled(q, max, events[0]) && CanRun(Step(q, max, events[0]), max, events[1..]))
  }

  function Run(q: Queue, max: nat, events: seq<Event>): Queue
    requires CanRun(q, max, events)
    decreases |events|
  {
    if events == [] then q else Run(Step(q, max, events[0]), max, events[1..])
  }

  /** Job by job, stages move forward only, and nothing else about a job changes but its run count. */
  predicate Later(q: Queue, q': Queue) {
    |q.jobs| <= |q'.jobs| &&
    forall j: nat | j < |q.jobs| ::
      Rank(q.jobs[j].stage) <= Rank(q'.jobs[j].stage) && q.jobs[j].runs <= q'.jobs[j].runs &&
      q'.jobs[j].key == q.jobs[j].key && q'.jobs[j].priority == q.jobs[j].priority
  }

  lemma LoopIsLater(q: Queue, w: Id, next: nat, wake: Option<Id>)
    requires JobsOk(q) && CanLoop(q, w, next, wake)
    ensures Later(q, Loop(q, w, next, wake))
  {
  }

  lemma CompleteIsLater(q: Queue, w: Id)
    requires w in q.workers && q.workers[w].Running? && q.workers[w].job < |q.jobs|
    ensures Later(q, Complete(q, w))
  {
  }

  lemma LaterTransitive(q: Queue, q1: Queue, q2: Queue)
    requires Later(q, q1) && Later(q1, q2)
    ensures Later(q, q2)
  {
    forall j: nat | j < |q.jobs|
      ensures Rank(q.jobs[j].stage) <= Rank(q2.jobs[j].stage) && q.jobs[j].runs <= q2.jobs[j].runs &&
              q2.jobs[j].key == q.jobs[j].key && q2.jobs[j].priority == q.jobs[j].priority
    {
      assert q1.jobs[j].key == q.jobs[j].key;
    }
  }

  /** Jobs were only added. */
  lemma MoreIsLater(q: Queue, q': Queue)
    requires q.jobs <= q'.jobs
    ensures Later(q, q')
  {
  }

  lemma StepIsLater(q: Queue, max: nat, e: Event)
    requires Core(q) && Enabled(q, max, e)
    ensures Later(q, Step(q, max, e))
  {
    hide MapsOk, WorkersOk, ClientsOk, FirstInFirstOut, JobsOk, Loop, CanLoop, Complete, CanSignal, Later;
    match e
    case Arrive(w, next, wake) => LoopIsLater(q, w, next, wake);
    case Retry(w, next, wake) => LoopIsLater(q, w, next, wake);
    case Finish(w, next, wake) =>
      CompleteKeepsCore(q, w);
      CompleteIsLater(q, w);
      LoopIsLater(Complete(q, w), w, next, wake);
      LaterTransitive(q, Complete(q, w), Step(q, max, e));
    case _ => MoreIsLater(q, Step(q, max, e));
  }

  /**
   * In every interleaving the invariant holds, and stages only move forward; together with the run
   * counts of the invariant, no job is ever given to two workers.
   */
  lemma {:induction false} RunKeepsInv(q: Queue, max: nat, events: seq<Event>)
    requires Inv(q, max) && CanRun(q, max, events)
    ensures Inv(Run(q, max, events), max) && Later(q, Run(q, max, events))
    decreases |events|
  {
    hide Core, Enabled, Step;
    if events != [] {
      StepKeepsInv(q, max, events[0]);
      StepIsLater(q, max, events[0]);
      RunKeepsInv(Step(q, max, events[0]), max, events[1..]);
    }
  }

  lemma EmptyIsFine(q: Queue, max: nat)
    requires Empty(q)
    ensures Inv(q, max)
  {
    assert forall w :: !IsWaiting(q, w);
    assert forall w, j: nat :: !Runs(q, w, j);
  }

  /**
   * What holds in every reachable state, in the terms of the program: one map entry for every
   * unfinished job and a job that runs at most once, the bound on the queue, no client asleep on a
   * completed job, one Done for every stream that ended well, and first-in-first-out dispatch
   * among equal priorities.
   */
  lemma SchedulerIsSafe(q: Queue, max: nat, events: seq<Event>)
    requires Empty(q) && CanRun(q, max, events)
    ensures var y := Run(q, max, events);
            JobsOk(y) && MapsOk(y) && WorkersOk(y) && ClientsOk(y) && FirstInFirstOut(y) && |y.pending| <= max
  {
    EmptyIsFine(q, max);
    RunKeepsInv(q, max, events);
  }

  /**
   * No wakeup is lost: in every reachable state either no worker waits or there are at least as
   * many woken workers as pending jobs. So while a worker waits and a job is pending, one that was
   * woken can go on. It may turn out to be dead and wake another; see RetriesMakeProgress.
   */
  lemma NoWakeupIsLost(q: Queue, max: nat, events: seq<Event>)
    requires Empty(q) && CanRun(q, max, events)
    ensures var y := Run(q, max, events);
            NoLostWakeup(y) &&
            ((exists w :: IsWaiting(y, w)) && y.pending != {} ==>
               exists w, next, wake :: Enabled(y, max, Retry(w, next, wake)))
  {
    hide Empty;
    EmptyIsFine(q, max);
    RunKeepsInv(q, max, events);
    var y := Run(q, max, events);
    if (exists w :: IsWaiting(y, w)) && y.pending != {} {
      SomeoneCanGoOn(y, max);
    }
  }

  lemma SomeoneCanGoOn(q: Queue, max: nat)
    requires JobsOk(q) && NoLostWakeup(q) && (exists w :: IsWaiting(q, w)) && q.pending != {}
    ensures exists w, next, wake :: Enabled(q, max, Retry(w, next, wake))
  {
    assert Woken(q.workers) != {};
    var w :| w in Woken(q.workers);
    var v :| IsWaiting(q, v);
    var next := LeastExists(q, q.pending);
    assert IsLeast(q, next);
    assert Enabled(q, max, Retry(w, next, Some(v)));
  }

  lemma {:induction false} LeastExists(q: Queue, s: set<nat>) returns (j: nat)
    requires s != {} && s <= q.pending && forall i | i in q.pending :: i < |q.jobs|
    ensures j in s && forall i | i in s :: i < |q.jobs| && !Before(q, i, j)
    decreases |s|
  {
    j :| j in s;
    if s != {j} {
      var first := j;
      var k := LeastExists(q, s - {first});
      if Before(q, k, first) {
        j := k;
      }
      forall i | i in s ensures i < |q.jobs| && !Before(q, i, j) {
        assert i == first || i in s - {first};
      }
    }
  }

  // ---------------------------------------------------------------------------------------------
  // What each step is for
  // ---------------------------------------------------------------------------------------------

  /** The client was told the state of its job, or that failed; it sleeps as long as the job is not completed. */
  predicate IsTold(q: Queue, c: Id, j: nat, before: seq<Message>, sent: bool) {
    c in q.clients && j < |q.jobs| &&
    var client, stage := q.clients[c], q.jobs[j].stage;
    client.job == j &&
    if sent then
      client.sent == before + [Message(stage, stage == Completed)] &&
      client.pc == (if stage == Completed then Ended(true) else Sleeping)
    else client.sent == before && client.pc == Ended(false)
  }

  /**
   * Whose job a client of Execute gets: one with the key it asked for that is not completed, the one that
   * there was if there was one, and otherwise a new pending one under the name and priority it gave. It gets
   * none exactly if a new one is needed and too many are pending.
   */
  lemma ExecuteGivesItsJob(q: Queue, max: nat, e: Event)
    requires Inv(q, max) && e.Execute? && Enabled(q, max, e)
    ensures var q' := Step(q, max, e);
            (e.c in q'.clients <==> e.key in q.byKey || |q.pending| < max) &&
            (e.c !in q'.clients ==> q' == q) &&
            (e.c in q'.clients ==>
              var j := q'.clients[e.c].job;
              IsTold(q', e.c, j, [], e.sent) && q'.jobs[j].key == e.key && q'.jobs[j].stage != Completed &&
              if e.key in q.byKey then j == q.byKey[e.key] && q'.jobs == q.jobs && q'.byName == q.byName
              else
                q'.jobs == q.jobs + [Job(e.key, e.priority, Queued, 0)] && j == |q.jobs| && j in q'.pending &&
                q'.byName == q.byName[e.name := j])
  {
    hide WorkersOk, ClientsOk, FirstInFirstOut, NoLostWakeup, IsTold, Notify, Signal, CanSignal;
    if e.key in q.byKey {
      NotifyTells(q, e.c, q.byKey[e.key], [], e.sent);
    } else if |q.pending| < max {
      var q1 := Enqueue(q, e.key, e.priority, e.name);
      SignalKeepsAllElse(q1, e.wake);
      NotifyTells(Signal(q1, e.wake), e.c, |q.jobs|, [], e.sent);
    }
  }

  lemma NotifyTells(q: Queue, c: Id, j: nat, before: seq<Message>, sent: bool)
    requires j < |q.jobs|
    ensures var q' := Notify(q, c, j, before, sent);
            IsTold(q', c, j, before, sent) && q' == q.(clients := q'.clients) && c in q'.clients &&
            q'.clients[c].job == j && before <= q'.clients[c].sent &&
            forall d | d in q.clients && d != c :: d in q'.clients && q'.clients[d] == q.clients[d]
  {
  }

  lemma SignalKeepsAllElse(q: Queue, wake: Option<Id>)
    requires CanSignal(q, wake)
    ensures Signal(q, wake) == q.(workers := Signal(q, wake).workers)
  {
  }

  /** And of WaitExecution: the one with that name, if there is one. */
  lemma WaitExecutionGivesItsJob(q: Queue, max: nat, e: Event)
    requires Inv(q, max) && e.WaitExecution? && Enabled(q, max, e)
    ensures var q' := Step(q, max, e);
            if e.name in q.byName then IsTold(q', e.c, q.byName[e.name], [], e.sent) && q' == q.(clients := q'.clients)
            else q' == q
  {
  }

  /** A woken client is told that its job is completed, and its stream ends, well unless that failed. */
  lemma ResumeEnds(q: Queue, max: nat, e: Event)
    requires Inv(q, max) && e.Resume? && Enabled(q, max, e)
    ensures var q', client := Step(q, max, e), q.clients[e.c];
            q.jobs[client.job].stage == Completed && IsTold(q', e.c, client.job, client.sent, e.sent) &&
            q'.clients[e.c].pc == Ended(e.sent) && q' == q.(clients := q'.clients)
  {
    hide WorkersOk, MapsOk, JobsOk, FirstInFirstOut, NoLostWakeup;
    assert ClientOk(q, q.clients[e.c]);
  }

  /** Lower priority numbers go first, and among equal ones earlier insertions. */
  predicate GoesFirst(q: Queue, j: nat) {
    j in q.pending && j < |q.jobs| &&
    forall i | i in q.pending && i < |q.jobs| && i != j ::
      q.jobs[j].priority < q.jobs[i].priority || (q.jobs[j].priority == q.jobs[i].priority && j < i)
  }

  /**
   * A worker that has the lock waits exactly if no job is pending, leaves exactly if one is and its stream is
   * dead, and otherwise is given the one that goes first, which is then executing and not pending any more.
   */
  predicate TakesTurn(q: Queue, q': Queue, w: Id) {
    w in q'.workers &&
    if q.pending == {} then q'.workers[w] == Waiting && q'.jobs == q.jobs && q'.pending == {}
    else if w in q.dead then q'.workers[w] == Left && q'.jobs == q.jobs && q'.pending == q.pending
    else
      q'.workers[w].Running? &&
      var j := q'.workers[w].job;
      GoesFirst(q, j) && q'.pending == q.pending - {j} && |q'.jobs| == |q.jobs| && q'.jobs[j].stage == Executing &&
      forall i: nat | i < |q.jobs| && i != j :: q'.jobs[i] == q.jobs[i]
  }

  lemma LoopTakesTurn(q: Queue, w: Id, next: nat, wake: Option<Id>)
    requires JobsOk(q) && !IsWaiting(q, w) && CanLoop(q, w, next, wake)
    ensures TakesTurn(q, Loop(q, w, next, wake), w)
  {
  }

  /** Every turn of every worker. One that finishes completes its own job first, and wakes those who sleep on it. */
  lemma WorkersTakeTurns(q: Queue, max: nat, e: Event)
    requires Inv(q, max) && Enabled(q, max, e)
    ensures e.Arrive? || e.Retry? ==> TakesTurn(q, Step(q, max, e), e.w)
    ensures e.Finish? ==>
              var q1, j := Complete(q, e.w), q.workers[e.w].job;
              TakesTurn(q1, Step(q, max, e), e.w) && q1.pending == q.pending &&
              q1.jobs == q.jobs[j := q.jobs[j].(stage := Completed)] && q1.byKey == q.byKey - {q.jobs[j].key} &&
              q1.clients.Keys == q.clients.Keys && Step(q, max, e).clients == q1.clients &&
              forall c | c in q.clients ::
                var k := q.clients[c];
                q1.clients[c] == if k.job == j && k.pc == Sleeping then k.(pc := Roused) else k
  {
    hide WorkersOk, ClientsOk, MapsOk, FirstInFirstOut, NoLostWakeup, Loop, CanLoop, TakesTurn;
    match e
    case Arrive(w, next, wake) => LoopTakesTurn(q, w, next, wake);
    case Retry(w, next, wake) => LoopTakesTurn(q, w, next, wake);
    case Finish(w, next, wake) =>
      CompleteKeepsCore(q, w);
      CompleteKeepsPending(q, w);
      LoopTakesTurn(Complete(q, w), w, next, wake);
      LoopKeepsClients(Complete(q, w), w, next, wake);
    case _ =>
  }

  lemma LoopKeepsClients(q: Queue, w: Id, next: nat, wake: Option<Id>)
    requires JobsOk(q) && CanLoop(q, w, next, wake)
    ensures Loop(q, w, next, wake).clients == q.clients && Loop(q, w, next, wake).byName == q.byName
  {
  }

  /** Clients keep their job and what they were sent, and names keep theirs. */
  predicate Remembers(q: Queue, q': Queue) {
    (forall c | c in q.clients ::
       c in q'.clients && q'.clients[c].job == q.clients[c].job && q.clients[c].sent <= q'.clients[c].sent) &&
    (forall n | n in q.byName :: n in q'.byName && q'.byName[n] == q.byName[n])
  }

  lemma CompleteRemembers(q: Queue, w: Id)
    requires w in q.workers && q.workers[w].Running? && q.workers[w].job < |q.jobs|
    ensures Remembers(q, Complete(q, w))
  {
  }

  lemma StepRemembers(q: Queue, max: nat, e: Event)
    requires Inv(q, max) && Enabled(q, max, e)
    ensures Remembers(q, Step(q, max, e))
  {
    hide WorkersOk, ClientsOk, MapsOk, FirstInFirstOut, NoLostWakeup, Loop, CanLoop, Complete, Notify, Signal,
         CanSignal, IsTold;
    match e
    case Execute(c, key, priority, name, wake, sent) =>
      if key in q.byKey {
        NotifyTells(q, c, q.byKey[key], [], sent);
      } else if |q.pending| < max {
        var q1 := Enqueue(q, key, priority, name);
        SignalKeepsAllElse(q1, wake);
        NotifyTells(Signal(q1, wake), c, |q.jobs|, [], sent);
      }
    case WaitExecution(c, name, sent) =>
      if name in q.byName {
        NotifyTells(q, c, q.byName[name], [], sent);
      }
    case Resume(c, sent) => NotifyTells(q, c, q.clients[c].job, q.clients[c].sent, sent);
    case Arrive(w, next, wake) => LoopKeepsClients(q, w, next, wake);
    case Retry(w, next, wake) => LoopKeepsClients(q, w, next, wake);
    case Finish(w, next, wake) =>
      CompleteKeepsCore(q, w);
      CompleteRemembers(q, w);
      LoopKeepsClients(Complete(q, w), w, next, wake);
    case Disconnect(_) =>
  }

  /** In every run a client's job never changes, what it was sent only grows, and a name leads to one job for ever. */
  lemma {:induction false} RunRemembers(q: Queue, max: nat, events: seq<Event>)
    requires Inv(q, max) && CanRun(q, max, events)
    ensures Remembers(q, Run(q, max, events))
    decreases |events|
  {
    hide Inv, Enabled, Step;
    if events != [] {
      StepKeepsInv(q, max, events[0]);
      StepRemembers(q, max, events[0]);
      RunRemembers(Step(q, max, events[0]), max, events[1..]);
    }
  }

  /**
   * A client that asks for the name under which a job was accepted, at any later time, is told about that
   * very job.
   */
  lemma NamesLeadToTheirJobs(q: Queue, max: nat, e: Event, events: seq<Event>, later: Event)
    requires Inv(q, max) && e.Execute? && Enabled(q, max, e) && e.key !in q.byKey && |q.pending| < max
    requires CanRun(Step(q, max, e), max, events) && later.WaitExecution? && later.name == e.name
    requires Enabled(Run(Step(q, max, e), max, events), max, later)
    ensures var y := Run(Step(q, max, e), max, events);
            IsTold(Step(y, max, later), later.c, Step(q, max, e).clients[e.c].job, [], later.sent)
  {
    hide Inv, Enabled, Step, IsTold;
    ExecuteGivesItsJob(q, max, e);
    StepKeepsInv(q, max, e);
    var q1 := Step(q, max, e);
    RunKeepsInv(q1, max, events);
    RunRemembers(q1, max, events);
    WaitExecutionGivesItsJob(Run(q1, max, events), max, later);
  }

  // ---------------------------------------------------------------------------------------------
  // Progress
  // ---------------------------------------------------------------------------------------------

  function WaitingIn(workers: map<Id, WorkerPc>): set<Id> {
    set w | w in workers && workers[w] == Waiting
  }

  /** How often workers in Wait() can still come out of it, or find themselves woken up. */
  function Idle(q: Queue): nat {
    |Woken(q.workers)| + 2 * |WaitingIn(q.workers)|
  }

  /** Some step of the run hands out a job. */
  predicate HandsOut(q: Queue, max: nat, events: seq<Event>)
    requires CanRun(q, max, events)
    decreases |events|
  {
    events != [] &&
    var q' := Step(q, max, events[0]);
    |q'.pending| < |q.pending| || HandsOut(q', max, events[1..])
  }

  function Retries(events: seq<Event>): nat
    decreases |events|
  {
    if events == [] then 0 else (if events[0].Retry? then 1 else 0) + Retries(events[1..])
  }

  lemma SignalUsesUp(q: Queue, wake: Option<Id>)
    requires CanSignal(q, wake)
    ensures Idle(Signal(q, wake)) <= Idle(q)
  {
    if wake.Some? {
      var w, q' := wake.value, Signal(q, wake);
      assert Woken(q'.workers) == Woken(q.workers) + {w} && w !in Woken(q.workers);
      assert WaitingIn(q'.workers) == WaitingIn(q.workers) - {w} && w in WaitingIn(q.workers);
    }
  }

  lemma LeaveUsesUp(q: Queue, w: Id, wake: Option<Id>)
    requires !IsWaiting(q, w) && CanSignal(q.(workers := q.workers[w := Left]), wake)
    ensures var q' := Signal(q.(workers := q.workers[w := Left]), wake);
            Idle(q') + (if w in Woken(q.workers) then 1 else 0) <= Idle(q)
  {
    hide Signal, CanSignal;
    var q1 := q.(workers := q.workers[w := Left]);
    assert Woken(q1.workers) == Woken(q.workers) - {w};
    assert WaitingIn(q1.workers) == WaitingIn(q.workers);
    hide Woken, WaitingIn;
    SignalUsesUp(q1, wake);
  }

  lemma CompleteWakesOne(q: Queue, w: Id)
    requires w in q.workers && q.workers[w].Running? && q.workers[w].job < |q.jobs|
    ensures Idle(Complete(q, w)) == Idle(q) + 1 && w in Woken(Complete(q, w).workers)
  {
    var q' := Complete(q, w);
    assert w !in Woken(q.workers);
    assert Woken(q'.workers) == Woken(q.workers) + {w};
    assert WaitingIn(q'.workers) == WaitingIn(q.workers);
  }

  /** A worker at the top of its loop that is not given a job although there are some. */
  lemma LoopUsesUp(q: Queue, w: Id, next: nat, wake: Option<Id>)
    requires q.pending != {} && !IsWaiting(q, w) && CanLoop(q, w, next, wake)
    requires |Loop(q, w, next, wake).pending| >= |q.pending|
    ensures var q' := Loop(q, w, next, wake);
            q'.pending == q.pending && Idle(q') + (if w in Woken(q.workers) then 1 else 0) <= Idle(q)
  {
    hide Idle;
    if w in q.dead {
      LeaveUsesUp(q, w, wake);
    }
  }

  /** While jobs are pending, every step that hands out none keeps the measure, and every Retry lowers it. */
  lemma StepUsesUp(q: Queue, max: nat, e: Event)
    requires Enabled(q, max, e) && q.pending != {} && |Step(q, max, e).pending| >= |q.pending|
    ensures Step(q, max, e).pending != {}
    ensures Idle(Step(q, max, e)) + (if e.Retry? then 1 else 0) <= Idle(q)
  {
    hide Loop, CanLoop, Complete, Signal, CanSignal;
    match e
    case Execute(_, key, priority, name, wake, _) =>
      if key !in q.byKey && |q.pending| < max {
        SignalUsesUp(Enqueue(q, key, priority, name), wake);
        SignalKeepsPending(Enqueue(q, key, priority, name), wake);
      }
    case Arrive(w, next, wake) => LoopUsesUp(q, w, next, wake);
    case Retry(w, next, wake) => LoopUsesUp(q, w, next, wake);
    case Finish(w, next, wake) =>
      CompleteWakesOne(q, w);
      CompleteKeepsPending(q, w);
      LoopUsesUp(Complete(q, w), w, next, wake);
    case _ =>
  }

  lemma SignalKeepsPending(q: Queue, wake: Option<Id>)
    requires CanSignal(q, wake)
    ensures Signal(q, wake).pending == q.pending
  {
  }

  lemma CompleteKeepsPending(q: Queue, w: Id)
    requires w in q.workers && q.workers[w].Running? && q.workers[w].job < |q.jobs|
    ensures Complete(q, w).pending == q.pending && !IsWaiting(Complete(q, w), w)
  {
  }

  /**
   * Progress: in every interleaving, whatever clients and workers arrive or die in it, woken workers go
   * on at most |woken| + 2 * |waiting| times before one of the pending jobs is handed out.
   */
  lemma {:induction false} RetriesMakeProgress(q: Queue, max: nat, events: seq<Event>)
    requires CanRun(q, max, events) && q.pending != {}
    requires Retries(events) > |Woken(q.workers)| + 2 * |WaitingIn(q.workers)|
    ensures HandsOut(q, max, events)
    decreases |events|
  {
    hide Enabled, Step, Woken, WaitingIn;
    if |Step(q, max, events[0]).pending| >= |q.pending| {
      StepUsesUp(q, max, events[0]);
      RetriesMakeProgress(Step(q, max, events[0]), max, events[1..]);
    }
  }

  /**
   * It depends on the Signal() of a worker that finds its stream dead: if it just left, a state that
   * meets the invariant would be followed by one with a waiting worker, a pending job, and no one
   * on the way to take it.
   */
  lemma LeavingSilentlyLosesWakeup()
    ensures exists q: Queue, max: nat, w: Id ::
              Inv(q, max) && w in q.dead && w in q.workers && q.workers[w] == Signalled && q.pending != {} &&
              !NoLostWakeup(q.(workers := q.workers[w := Left]))
  {
    var workers := map[1 := Signalled, 2 := Waiting];
    var q := Queue([Job(0, 0, Queued, 0)], map[0 := 0], map[0 := 0], {0}, workers, {1}, map[]);
    assert Woken(q.workers) == {1};
    assert forall w, j: nat :: !Runs(q, w, j);
    assert Inv(q, 1);
    var q' := q.(workers := q.workers[1 := Left]);
    assert Woken(q'.workers) == {} && IsWaiting(q', 2);
    assert 1 in q.dead && !NoLostWakeup(q.(workers := q.workers[1 := Left]));
  }
}

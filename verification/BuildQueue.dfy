/**
 * The build queue itself (worker_build_queue.go): its maps and its heap, changed by the code that
 * clients and workers run while they hold the lock. Where workers are is ghost state.
 */
module BuildQueue {
  import opened Wrappers
  import opened Scheduler
  import H = JobHeap

  /** The jobs in the heap. */
  function PendingIn(m: multiset<H.Entry>): set<nat> {
    set e | e in m :: e.order
  }

  /** The entries describe these jobs, and none is there twice. */
  predicate Describes(m: multiset<H.Entry>, jobs: seq<Job>) {
    forall e | e in m :: m[e] == 1 && e.order < |jobs| && e.priority == jobs[e.order].priority
  }

  lemma {:induction false} PendingSize(m: multiset<H.Entry>, jobs: seq<Job>)
    requires Describes(m, jobs)
    ensures |PendingIn(m)| == |m|
    decreases |m|
  {
    if |m| != 0 {
      var e :| e in m;
      var rest := m - multiset{e};
      PendingSize(rest, jobs);
      PendingWithout(m, jobs, e);
    }
  }

  lemma PendingWithout(m: multiset<H.Entry>, jobs: seq<Job>, e: H.Entry)
    requires Describes(m, jobs) && e in m
    ensures Describes(m - multiset{e}, jobs) && e.order !in PendingIn(m - multiset{e})
    ensures PendingIn(m) == PendingIn(m - multiset{e}) + {e.order}
    ensures |m| == |m - multiset{e}| + 1
  {
    var rest := m - multiset{e};
    forall f | f in rest ensures f.order != e.order {
      assert f in m && f != e;
    }
    forall f | f in m ensures f == e || f in rest {
    }
  }

  lemma PendingWith(m: multiset<H.Entry>, jobs: seq<Job>, e: H.Entry)
    requires Describes(m, jobs) && e.order < |jobs| && e.priority == jobs[e.order].priority && e.order !in PendingIn(m)
    ensures Describes(m + multiset{e}, jobs)
    ensures PendingIn(m + multiset{e}) == PendingIn(m) + {e.order}
  {
    assert e !in m;
    var more := m + multiset{e};
    forall f | f in more ensures f == e || f in m {
    }
    assert e in more;
    forall f | f in m ensures f in more {
    }
  }

  class WorkerBuildQueue {
    const jobsPendingMax: nat
    const jobsPending: H.Heap
    var jobs: seq<Job>
    var jobsNameMap: map<Name, nat>
    var jobsDeduplicationMap: map<Key, nat>
    ghost var workers: map<Id, WorkerPc>
    /** The streams whose context reports an error. */
    var dead: set<Id>
    /** The streams of waitExecution, with what went over them. */
    var clients: map<Id, Client>

    ghost function Value(): Queue
      reads this, jobsPending
    {
      Queue(jobs, jobsNameMap, jobsDeduplicationMap, PendingIn(multiset(jobsPending.h)), workers, dead, clients)
    }

    ghost predicate Valid()
      reads this, jobsPending
    {
      H.Ordered(jobsPending.h) && Describes(multiset(jobsPending.h), jobs) && Inv(Value(), jobsPendingMax)
    }

    constructor (jobsPendingMax: nat)
      ensures Valid() && Empty(Value()) && fresh(jobsPending) && this.jobsPendingMax == jobsPendingMax
    {
      this.jobsPendingMax := jobsPendingMax;
      var heap := new H.Heap();
      jobsPending := heap;
      jobs, jobsNameMap, jobsDeduplicationMap := [], map[], map[];
      workers, dead, clients := map[], {}, map[];
      new;
      EmptyIsFine(Value(), jobsPendingMax);
    }

    /** One turn of waitExecution: send the state of the job, and return or wait for the next. */
    method Wait(c: Id, j: nat, before: seq<Message>, sent: bool)
      requires j < |jobs|
      modifies this`clients
      ensures Value() == Notify(old(Value()), c, j, before, sent)
    {
      var operation := Message(jobs[j].stage, jobs[j].stage == Completed);
      if !sent {
        clients := clients[c := Client(j, Ended(false), before)];
        return;
      }
      var messages := before + [operation];
      if operation.done {
        clients := clients[c := Client(j, Ended(true), messages)];
        return;
      }
      clients := clients[c := Client(j, Sleeping, messages)];
    }

    /** The job's condition variable: everyone who sleeps on it is woken. */
    method Broadcast(j: nat)
      modifies this`clients
      ensures clients.Keys == old(clients).Keys
      ensures forall c | c in clients ::
                clients[c] == if old(clients)[c].job == j && old(clients)[c].pc == Sleeping
                              then old(clients)[c].(pc := Roused) else old(clients)[c]
    {
      clients := map c | c in clients ::
        if clients[c].job == j && clients[c].pc == Sleeping then clients[c].(pc := Roused) else clients[c];
    }

    method PushJob(key: Key, priority: int, name: Name) returns (j: nat)
      requires H.Ordered(jobsPending.h) && Describes(multiset(jobsPending.h), jobs)
      modifies this, jobsPending
      ensures H.Ordered(jobsPending.h) && Describes(multiset(jobsPending.h), jobs)
      ensures j == |old(jobs)| && Value() == Enqueue(old(Value()), key, priority, name)
    {
      j := |jobs|;
      PendingIsOld();
      jobs := jobs + [Job(key, priority, Queued, 0)];
      jobsNameMap := jobsNameMap[name := j];
      jobsDeduplicationMap := jobsDeduplicationMap[key := j];
      PendingWith(multiset(jobsPending.h), jobs, H.Entry(priority, j));
      jobsPending.Push(H.Entry(priority, j));
    }

    /** Whether the request was accepted; if not, too many jobs are pending. */
    method Execute(c: Id, key: Key, priority: int, name: Name, sent: bool, ghost wake: Option<Id>)
      returns (accepted: bool)
      requires Valid() && Enabled(Value(), jobsPendingMax, Event.Execute(c, key, priority, name, wake, sent))
      modifies this, jobsPending
      ensures Valid()
      ensures Value() == Step(old(Value()), jobsPendingMax, Event.Execute(c, key, priority, name, wake, sent))
      ensures accepted <==> c in clients
    {
      hide Inv;
      StepKeepsInv(Value(), jobsPendingMax, Event.Execute(c, key, priority, name, wake, sent));
      PendingSize(multiset(jobsPending.h), jobs);
      var j: nat;
      if key in jobsDeduplicationMap {
        j := jobsDeduplicationMap[key];
      } else {
        if |jobsPending.h| >= jobsPendingMax {
          return false;
        }
        j := PushJob(key, priority, name);
        workers := Signal(Value(), wake).workers;
      }
      Wait(c, j, [], sent);
      accepted := true;
    }

    lemma PendingIsOld()
      requires Describes(multiset(jobsPending.h), jobs)
      ensures |jobs| !in PendingIn(multiset(jobsPending.h))
    {
    }

    /** Whether the job is known. */
    method WaitExecution(c: Id, name: Name, sent: bool) returns (found: bool)
      requires Valid() && Enabled(Value(), jobsPendingMax, Event.WaitExecution(c, name, sent))
      modifies this`clients
      ensures Valid() && (found <==> name in jobsNameMap)
      ensures Value() == Step(old(Value()), jobsPendingMax, Event.WaitExecution(c, name, sent))
    {
      hide Inv;
      StepKeepsInv(Value(), jobsPendingMax, Event.WaitExecution(c, name, sent));
      if name !in jobsNameMap {
        return false;
      }
      Wait(c, jobsNameMap[name], [], sent);
      found := true;
    }

    /** The least pending job is handed to a worker. */
    method PopJob(w: Id) returns (j: nat)
      requires H.Ordered(jobsPending.h) && Describes(multiset(jobsPending.h), jobs) && jobsPending.h != []
      modifies this, jobsPending
      ensures H.Ordered(jobsPending.h) && Describes(multiset(jobsPending.h), jobs)
      ensures IsLeast(old(Value()), j) && j < |old(jobs)| && Value() == Dispatch(old(Value()), w, j)
    {
      ghost var m := multiset(jobsPending.h);
      var e := jobsPending.Pop();
      j := e.order;
      TakesLeast(old(Value()), m, e);
      PendingWithout(m, jobs, e);
      assert m - multiset{e} == multiset(jobsPending.h);
      jobs := jobs[j := jobs[j].(stage := Executing, runs := jobs[j].runs + 1)];
      workers := workers[w := Running(j)];
    }

    lemma EmptyHeap()
      requires Describes(multiset(jobsPending.h), jobs)
      ensures jobsPending.h == [] <==> PendingIn(multiset(jobsPending.h)) == {}
    {
      PendingSize(multiset(jobsPending.h), jobs);
    }

    /** The top of the loop of GetWork: the job to run, if the worker does not wait or leave. */
    method TakeJob(w: Id, ghost wake: Option<Id>) returns (job: Option<nat>, ghost next: nat)
      requires H.Ordered(jobsPending.h) && Describes(multiset(jobsPending.h), jobs)
      requires Value().pending != {} && w in dead ==> CanSignal(Value().(workers := workers[w := Left]), wake)
      modifies this, jobsPending
      ensures H.Ordered(jobsPending.h) && Describes(multiset(jobsPending.h), jobs)
      ensures CanLoop(old(Value()), w, next, wake) && Value() == Loop(old(Value()), w, next, wake)
      ensures job.Some? <==> Runs(Value(), w, next)
    {
      EmptyHeap();
      job, next := None, 0;
      if |jobsPending.h| == 0 {
        workers := workers[w := Waiting];
      } else if w in dead {
        workers := Signal(Value().(workers := workers[w := Left]), wake).workers;
      } else {
        hide Dispatch;
        var j := PopJob(w);
        job, next := Some(j), j;
        assert Runs(Value(), w, next) by { Dispatched(old(Value()), w, j); }
      }
    }

    lemma Dispatched(q: Queue, w: Id, j: nat)
      requires j < |q.jobs|
      ensures Runs(Dispatch(q, w, j), w, j)
    {
    }

    lemma TakesLeast(q: Queue, m: multiset<H.Entry>, e: H.Entry)
      requires Describes(m, q.jobs) && q.pending == PendingIn(m) && e in m
      requires forall x | x in m :: !H.Less(x, e)
      ensures IsLeast(q, e.order)
    {
    }

    /** A worker calls GetWork, or has been woken in it. */
    method GetWork(w: Id, ghost wake: Option<Id>) returns (job: Option<nat>, ghost next: nat)
      requires Valid() && (w in workers ==> workers[w] == Signalled)
      requires Value().pending != {} && w in dead ==> CanSignal(Value().(workers := workers[w := Left]), wake)
      modifies this, jobsPending
      ensures Valid()
      ensures var e := if old(w in workers) then Retry(w, next, wake) else Arrive(w, next, wake);
              Enabled(old(Value()), jobsPendingMax, e) && Value() == Step(old(Value()), jobsPendingMax, e)
      ensures job.Some? <==> Runs(Value(), w, next)
    {
      hide Inv;
      job, next := TakeJob(w, wake);
      EnterKeepsInv(old(Value()), jobsPendingMax, w, next, wake);
    }

    /** Mark completion, and wake the clients. */
    method CompleteJob(w: Id, j: nat)
      requires j < |jobs| && w in workers && workers[w] == Running(j)
      modifies this`jobs, this`jobsDeduplicationMap, this`clients, this`workers
      ensures Value() == Complete(old(Value()), w)
    {
      jobsDeduplicationMap := jobsDeduplicationMap - {jobs[j].key};
      jobs := jobs[j := jobs[j].(stage := Completed)];
      Broadcast(j);
      workers := workers[w := Signalled];
      assert clients == Complete(old(Value()), w).clients;
    }

    /** The worker's job is done, and it goes on with the next turn of its loop. */
    method FinishWork(w: Id, j: nat, ghost wake: Option<Id>) returns (job: Option<nat>, ghost next: nat)
      requires Valid() && Runs(Value(), w, j) && j < |jobs|
      requires Value().pending != {} && w in dead ==> CanSignal(Value().(workers := workers[w := Left]), wake)
      modifies this, jobsPending
      ensures Valid()
      ensures Enabled(old(Value()), jobsPendingMax, Finish(w, next, wake))
      ensures Value() == Step(old(Value()), jobsPendingMax, Finish(w, next, wake))
      ensures job.Some? <==> Runs(Value(), w, next)
    {
      hide Inv, Loop, CanLoop, PendingIn;
      CompleteJob(w, j);
      DescribesStays(multiset(jobsPending.h), old(jobs), jobs);
      assert workers[w := Left] == old(workers)[w := Left];
      job, next := TakeJob(w, wake);
      FinishKeepsInv(old(Value()), jobsPendingMax, w, next, wake);
    }

    /** Stages do not matter to the heap. */
    lemma DescribesStays(m: multiset<H.Entry>, before: seq<Job>, after: seq<Job>)
      requires Describes(m, before) && |before| == |after|
      requires forall j | 0 <= j < |before| :: before[j].priority == after[j].priority
      ensures Describes(m, after)
    {
    }

    /** A woken client reports the state of its job. */
    method ResumeWait(c: Id, sent: bool)
      requires Valid() && Enabled(Value(), jobsPendingMax, Resume(c, sent))
      modifies this`clients
      ensures Valid() && Value() == Step(old(Value()), jobsPendingMax, Resume(c, sent))
    {
      hide Inv;
      StepKeepsInv(Value(), jobsPendingMax, Resume(c, sent));
      Wait(c, clients[c].job, clients[c].sent, sent);
    }
  }
}

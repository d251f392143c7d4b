/** What holds in every reachable state of the pool, for any number of workers,
    callers of thpool_wait and pushes. */
module ThreadPoolSafety {
  import opened Sums
  import opened ThreadPool

  ghost predicate Reachable(n: nat, w: nat, t: State) {
    exists actions :: Runs(Init(n, w), actions, t)
  }

  lemma ReachableInv(n: nat, w: nat, t: State)
    requires Reachable(n, w, t)
    ensures Inv(t)
  {
    var actions :| Runs(Init(n, w), actions, t);
    InitKeeps(n, w);
    RunKeeps(Init(n, w), actions, t);
  }

  /** No lost wake-up: a queued job always has a set bit, a post about to happen, or a
      worker that took the bit and has not pulled yet; and a set bit with sleepers
      always has a worker that was woken and will test it. */
  lemma NoLostWakeup(n: nat, w: nat, t: State)
    requires Reachable(n, w, t) && t.keepalive
    ensures t.queue != [] ==>
              t.token || !t.rw.RwFree? || exists v :: 0 <= v < |t.workers| && OnTheWay(t.workers[v])
    ensures t.token && Asleep in t.workers ==> Woken in t.workers
  {
    ReachableInv(n, w, t);
  }

  /** Conservation: every pushed job is queued, in flight, finished or discarded, each as
      often as it was pushed, and jobs are pulled in push order. */
  lemma JobsConserved(n: nat, w: nat, t: State)
    requires Reachable(n, w, t)
    ensures t.pulled <= t.pushed
    ensures multiset(t.pushed) == multiset(t.queue) + Held(t.workers) + t.finished + multiset(t.discarded)
    ensures t.discarded != [] ==> t.destroyer.Cleared?
    ensures t.working == Sum(t.workers, Counted) && t.alive == Sum(t.workers, Living)
  {
    ReachableInv(n, w, t);
    assert t.pushed == t.pulled + (t.queue + t.discarded);
    assert multiset(t.pushed) == multiset(t.pulled) + multiset(t.queue + t.discarded);
    assert multiset(t.queue + t.discarded) == multiset(t.queue) + multiset(t.discarded);
  }

  // ---------------------------------------------------------------- calls are taken

  /** A step that ends the pending post of a push or a pull. */
  predicate Posts(s: State, a: Action) {
    a.PostPush? || (a.Worker? && a.w < |s.workers| && s.workers[a.w].AtPost?)
  }

  lemma RwFreed(n: nat, w: nat, s: State) returns (a: Action)
    requires Reachable(n, w, s) && !s.destroyer.Cleared? && !s.rw.RwFree?
    ensures Posts(s, a) && Enabled(s, a)
    ensures var t := Do(s, a); t.rw.RwFree? && t.queue == s.queue && t.pushed == s.pushed && t.destroyer == s.destroyer
  {
    ReachableInv(n, w, s);
    var k := SomeSignal(s.workers);
    a := if s.rw.RwPush? then PostPush(k) else Worker(s.rw.w, k);
  }

  /** thpool_add_work is always taken, whatever is queued already: after at most one pending
      post the job stands behind all others. */
  lemma PushIsTaken(n: nat, w: nat, s: State, j: Job) returns (actions: seq<Action>, t: State)
    requires Reachable(n, w, s) && !s.destroyer.Cleared?
    ensures Runs(s, actions, t) && t.pushed == s.pushed + [j] && t.queue == s.queue + [j]
    ensures actions == [Enqueue(j)] || (|actions| == 2 && Posts(s, actions[0]) && actions[1] == Enqueue(j))
  {
    actions := [];
    var u := s;
    if !s.rw.RwFree? {
      var a := RwFreed(n, w, s);
      actions, u := [a], Do(s, a);
      assert actions[1..] == [];
    }
    assert Runs(s, actions, u);
    t := Do(u, Enqueue(j));
    RunThen(s, actions, u, Enqueue(j));
    actions := actions + [Enqueue(j)];
  }

  /** Every backlog can build up before any worker moves. */
  lemma {:induction false} EveryBacklog(n: nat, w: nat, js: seq<Job>) returns (t: State)
    ensures Reachable(n, w, t) && t.queue == t.pushed == js
    ensures t.rw.RwFree? && t.workers == Init(n, w).workers && t.destroyer.NotCalled?
  {
    if js == [] {
      t := Init(n, w);
      assert Runs(t, [], t);
    } else {
      var m := |js| - 1;
      var s := EveryBacklog(n, w, js[..m]);
      ReachableThen(n, w, s, Enqueue(js[m]));
      var u := Do(s, Enqueue(js[m]));
      ReachableThen(n, w, u, PostPush(0));
      t := Do(u, PostPush(0));
      assert js == js[..m] + [js[m]];
    }
  }

  lemma SomeSignal(ws: seq<WorkerPc>) returns (k: nat)
    ensures CanSignal(ws, k)
  {
    k := 0;
    if Asleep in ws {
      k :| 0 <= k < |ws| && ws[k] == Asleep;
    }
  }

  /** Steps of the caller that holds thcount_lock until it lets go of it. */
  lemma {:induction false} CountLockFreed(n: nat, w: nat, s: State, i: nat) returns (actions: seq<Action>, t: State)
    requires Reachable(n, w, s) && !s.destroyer.Cleared? && s.countLock == HeldBy(i)
    ensures Runs(s, actions, t) && t.countLock.Open? && !t.destroyer.Cleared?
    ensures 0 < |actions| <= 3 && forall k :: 0 <= k < |actions| ==> actions[k] == Waiter(i)
    ensures |t.waiters| == |s.waiters| && forall v :: 0 <= v < |s.waiters| && v != i ==> t.waiters[v] == s.waiters[v]
    ensures |actions| <= LockRank(s, i)
    decreases LockRank(s, i)
  {
    ReachableInv(n, w, s);
    ReachableThen(n, w, s, Waiter(i));
    var u := Do(s, Waiter(i));
    if u.countLock.Open? {
      actions, t := [Waiter(i)], u;
      assert actions[1..] == [];
      assert Runs(u, [], u);
    } else {
      var rest;
      rest, t := CountLockFreed(n, w, u, i);
      actions := [Waiter(i)] + rest;
      assert actions[1..] == rest;
    }
  }

  function LockRank(s: State, i: nat): nat {
    if i >= |s.waiters| then 0
    else match s.waiters[i]
      case Reading(_) => 3
      case SawNoJobs(_) => 2
      case Parking(_) => 1
      case _ => 0
  }

  /** thpool_wait can be called at any time: once the caller that holds thcount_lock has let
      go of it, which takes it at most three steps, the call is in and remembers the jobs
      pushed by then. */
  lemma WaitIsTaken(n: nat, w: nat, s: State, i: nat) returns (actions: seq<Action>, t: State)
    requires Reachable(n, w, s) && !s.destroyer.Cleared?
    requires i < |s.waiters| && (s.waiters[i].Outside? || s.waiters[i].Returned?)
    ensures Runs(s, actions, t) && i < |t.waiters| && t.waiters[i] == Reading(|s.pushed|)
    ensures 0 < |actions| <= 4 && actions[|actions| - 1] == Call(i)
    ensures forall k :: 0 <= k < |actions| - 1 ==> actions[k].Waiter? && actions[k].i != i
  {
    ReachableInv(n, w, s);
    actions := [];
    var u := s;
    if s.countLock.HeldBy? {
      assert InSection(s.waiters[s.countLock.waiter]);
      actions, u := CountLockFreed(n, w, s, s.countLock.waiter);
      WaitersPushNothing(s, actions, u);
    }
    assert Runs(s, actions, u);
    t := Do(u, Call(i));
    RunThen(s, actions, u, Call(i));
    actions := actions + [Call(i)];
  }

  lemma {:induction false} WaitersPushNothing(s: State, actions: seq<Action>, t: State)
    requires Runs(s, actions, t) && forall k :: 0 <= k < |actions| ==> actions[k].Waiter?
    ensures t.pushed == s.pushed
    decreases |actions|
  {
    if actions != [] {
      assert actions[0].Waiter?;
      WaitersPushNothing(Do(s, actions[0]), actions[1..], t);
    }
  }

  /** Only the locks and the condition variables hold a worker up, and any sleeper may wake
      without a signal. */
  lemma EveryWorkerGoesOn(n: nat, w: nat, s: State, v: nat) returns (k: nat)
    requires Reachable(n, w, s) && !s.destroyer.Cleared? && v < |s.workers|
    ensures var pc := s.workers[v];
            && (Enabled(s, Worker(v, k)) <==>
                  && !pc.Asleep? && !pc.Gone?
                  && (pc in {CountIn, CountOut, Exiting} ==> s.countLock.Open?)
                  && (pc == AtPull ==> s.rw.RwFree?))
            && (Enabled(s, SpuriousWorker(v)) <==> pc == Asleep)
    ensures forall i :: 0 <= i < |s.waiters| ==> (Enabled(s, SpuriousWaiter(i)) <==> s.waiters[i].Parked?)
    ensures Enabled(s, Destroy) <==> !s.destroyer.Clearing? || s.rw.RwFree?
  {
    if s.workers[v].AtPost? {
      k := SomeSignal(s.workers);
    } else {
      k := SomeRouse(s.waiters);
    }
  }

  lemma SomeRouse(ps: seq<WaiterPc>) returns (k: nat)
    ensures CanRouse(ps, k)
  {
    k := 0;
    if v :| 0 <= v < |ps| && ps[v].Parked? {
      k := v;
    }
  }

  /** The last worker to finish signals one parked caller if there is one, and no worker
      signals a caller otherwise. */
  lemma IdleSignalsOne(s: State, v: nat, k: nat)
    requires WorkerEnabled(s, v, k)
    ensures var t := WorkerStep(s, v, k);
            && (t.waiters != s.waiters ==>
                  && t.working == 0 && s.workers[v] == CountOut
                  && k < |s.waiters| && s.waiters[k].Parked?
                  && t.waiters == s.waiters[k := Roused(s.waiters[k].mark)])
            && (s.workers[v] == CountOut && t.working == 0 && t.waiters == s.waiters ==>
                  forall i :: 0 <= i < |s.waiters| ==> !s.waiters[i].Parked?)
  {
  }

  /** No worker passes the semaphore before the first push. */
  ghost predicate Unstarted(s: State) {
    s.pushed == [] && s.keepalive ==>
      !s.token && s.rw.RwFree? && forall v :: 0 <= v < |s.workers| ==> s.workers[v] in {AtLoop, AtSem, Asleep, Woken}
  }

  lemma StepKeepsUnstarted(s: State, a: Action)
    requires Enabled(s, a) && Unstarted(s) && (s.keepalive <==> s.destroyer.NotCalled?)
    ensures Unstarted(Do(s, a))
  {
  }

  lemma {:induction false} RunKeepsUnstarted(s: State, actions: seq<Action>, t: State)
    requires Inv(s) && Runs(s, actions, t) && Unstarted(s)
    ensures Unstarted(t)
    decreases |actions|
  {
    if actions != [] {
      StepKeepsUnstarted(s, actions[0]);
      StepKeeps(s, actions[0]);
      RunKeepsUnstarted(Do(s, actions[0]), actions[1..], t);
    }
  }

  /** A pool that was given no job runs nothing: the semaphore starts at 0. */
  lemma NothingRunsUnpushed(n: nat, w: nat, t: State)
    requires Reachable(n, w, t) && t.pushed == [] && t.keepalive
    ensures !t.token && t.working == 0
    ensures forall v :: 0 <= v < |t.workers| ==> t.workers[v] in {AtLoop, AtSem, Asleep, Woken}
  {
    var actions :| Runs(Init(n, w), actions, t);
    InitKeeps(n, w);
    RunKeepsUnstarted(Init(n, w), actions, t);
    ReachableInv(n, w, t);
    SumZero(t.workers, Counted);
  }

  // ---------------------------------------------------------------- the barrier

  lemma StepGrows(s: State, a: Action, i: nat)
    requires Enabled(s, a) && i < |s.waiters| && a != Call(i) && !s.waiters[i].Outside?
    ensures s.pushed <= Do(s, a).pushed && |Do(s, a).waiters| == |s.waiters|
    ensures !Do(s, a).waiters[i].Outside? && Do(s, a).waiters[i].mark == s.waiters[i].mark
  {
  }

  lemma {:induction false} RunGrows(s: State, actions: seq<Action>, t: State, i: nat)
    requires Runs(s, actions, t) && i < |s.waiters| && Call(i) !in actions && !s.waiters[i].Outside?
    ensures s.pushed <= t.pushed && |t.waiters| == |s.waiters|
    ensures !t.waiters[i].Outside? && t.waiters[i].mark == s.waiters[i].mark
    decreases |actions|
  {
    if actions != [] {
      StepGrows(s, actions[0], i);
      RunGrows(Do(s, actions[0]), actions[1..], t, i);
    }
  }

  /** The barrier: when a call of thpool_wait returns, every job pushed before the call
      has finished, although len is read without rwmutex. */
  lemma BarrierHolds(n: nat, w: nat, s: State, i: nat, actions: seq<Action>, t: State)
    requires Reachable(n, w, s) && Enabled(s, Call(i))
    requires Runs(Do(s, Call(i)), actions, t) && Call(i) !in actions
    requires i < |t.waiters| && t.waiters[i].Returned?
    ensures multiset(s.pushed) <= t.finished
  {
    ReachableInv(n, w, s);
    var c := Do(s, Call(i));
    StepKeeps(s, Call(i));
    RunKeeps(c, actions, t);
    RunGrows(c, actions, t, i);
    assert t.pushed[..|s.pushed|] == s.pushed;
  }

  // ---------------------------------------------------------------- stranded waiters

  lemma WorkerKeepsUnstranded(s: State, w: nat, k: nat)
    requires LocksOk(s) && CountsOk(s) && WorkerEnabled(s, w, k) && |s.waiters| <= 1 && NoneStranded(s)
    ensures |WorkerStep(s, w, k).waiters| == |s.waiters| && NoneStranded(WorkerStep(s, w, k))
  {
    SumAtLeast(s.workers, w, Counted);
  }

  lemma WaiterKeepsUnstranded(s: State, i: nat)
    requires LocksOk(s) && CountsOk(s) && WaiterEnabled(s, i) && |s.waiters| <= 1 && NoneStranded(s)
    ensures |WaiterStep(s, i).waiters| == |s.waiters| && NoneStranded(WaiterStep(s, i))
  {
  }

  lemma StepKeepsUnstranded(s: State, a: Action)
    requires Inv(s) && Enabled(s, a) && |s.waiters| <= 1 && NoneStranded(s)
    ensures |Do(s, a).waiters| == |s.waiters| && NoneStranded(Do(s, a))
  {
    match a {
      case Worker(w, k) => WorkerKeepsUnstranded(s, w, k);
      case Waiter(i) => WaiterKeepsUnstranded(s, i);
      case _ => OtherKeepsUnstranded(s, a);
    }
  }

  lemma OtherKeepsUnstranded(s: State, a: Action)
    requires Enabled(s, a) && !a.Worker? && !a.Waiter? && NoneStranded(s)
    ensures |Do(s, a).waiters| == |s.waiters| && NoneStranded(Do(s, a))
  {
  }

  lemma {:induction false} RunKeepsUnstranded(s: State, actions: seq<Action>, t: State)
    requires Inv(s) && Runs(s, actions, t) && |s.waiters| <= 1 && NoneStranded(s)
    ensures |t.waiters| == |s.waiters| && NoneStranded(t)
    decreases |actions|
  {
    if actions != [] {
      StepKeeps(s, actions[0]);
      StepKeepsUnstranded(s, actions[0]);
      RunKeepsUnstranded(Do(s, actions[0]), actions[1..], t);
    }
  }

  lemma {:induction false} RunThen(s: State, actions: seq<Action>, t: State, a: Action)
    requires Runs(s, actions, t) && Enabled(t, a)
    ensures Runs(s, actions + [a], Do(t, a))
    decreases |actions|
  {
    if actions == [] {
      assert [a][1..] == [];
      assert Runs(Do(s, a), [a][1..], Do(t, a));
    } else {
      RunThen(Do(s, actions[0]), actions[1..], t, a);
      assert (actions + [a])[1..] == actions[1..] + [a];
    }
  }

  lemma ReachableThen(n: nat, w: nat, t: State, a: Action)
    requires Reachable(n, w, t) && Enabled(t, a)
    ensures Reachable(n, w, Do(t, a))
  {
    var actions :| Runs(Init(n, w), actions, t);
    RunThen(Init(n, w), actions, t, a);
  }

  /** Two callers park while one job is queued. */
  lemma TwoPark(n: nat, w: nat, j: Job) returns (t: State)
    requires n >= 1 && w >= 2
    ensures Reachable(n, w, t)
    ensures t == Init(n, w).(queue := [j], pushed := [j], token := true, waiters := t.waiters)
    ensures t.waiters == Init(n, w).waiters[0 := Parked(1)][1 := Parked(1)]
  {
    t := Init(n, w);
    assert Runs(t, [], t);
    var ps := t.waiters;
    ReachableThen(n, w, t, Enqueue(j));
    t := Do(t, Enqueue(j));
    ReachableThen(n, w, t, PostPush(0));
    t := Do(t, PostPush(0));
    t := Park(n, w, t, 0);
    t := Park(n, w, t, 1);
    assert t.pushed == [j] && t.queue == [j];
  }

  lemma Park(n: nat, w: nat, s: State, i: nat) returns (t: State)
    requires Reachable(n, w, s) && Enabled(s, Call(i)) && |s.queue| > 0
    ensures Reachable(n, w, t)
    ensures t == s.(waiters := s.waiters[i := Parked(|s.pushed|)])
  {
    ReachableThen(n, w, s, Call(i));
    t := Do(s, Call(i));
    ReachableThen(n, w, t, Waiter(i));
    t := Do(t, Waiter(i));
    ReachableThen(n, w, t, Waiter(i));
    t := Do(t, Waiter(i));
    assert t.waiters == s.waiters[i := Parked(|s.pushed|)];
  }

  /** A lone worker takes the only job and runs it up to the final count. */
  lemma WorkOff(n: nat, w: nat, s: State, j: Job) returns (t: State)
    requires Reachable(n, w, s) && s.keepalive && s.token && s.rw.RwFree? && s.countLock.Open?
    requires s.destroyer.NotCalled? && s.queue == [j] && |s.workers| > 0 && s.workers[0] == AtLoop
    ensures Reachable(n, w, t)
    ensures t == s.(token := false, queue := [], pulled := s.pulled + [j], working := s.working + 1,
                    finished := s.finished + multiset{j}, workers := s.workers[0 := CountOut])
  {
    t := s;
    for i := 0 to 6
      invariant Reachable(n, w, t)
      invariant i == 0 ==> t == s
      invariant i == 1 ==> t == s.(workers := s.workers[0 := AtSem])
      invariant i == 2 ==> t == s.(token := false, workers := s.workers[0 := HasToken])
      invariant i == 3 ==> t == s.(token := false, workers := s.workers[0 := CountIn])
      invariant i == 4 ==> t == s.(token := false, working := s.working + 1, workers := s.workers[0 := AtPull])
      invariant i == 5 ==> t == s.(token := false, queue := [], pulled := s.pulled + [j],
                                   working := s.working + 1, workers := s.workers[0 := Executing(j)])
      invariant i == 6 ==> t == s.(token := false, queue := [], pulled := s.pulled + [j],
                                   working := s.working + 1, finished := s.finished + multiset{j},
                                   workers := s.workers[0 := CountOut])
    {
      ReachableThen(n, w, t, Worker(0, 0));
      t := Do(t, Worker(0, 0));
    }
  }

  /** With two callers of thpool_wait, the one signal of the last worker can leave the
      second caller parked although nothing is queued or running. */
  lemma SecondWaiterStranded(n: nat, w: nat) returns (t: State)
    requires n >= 1 && w >= 2
    ensures Reachable(n, w, t) && t.keepalive && t.destroyer.NotCalled? && |t.waiters| == w
    ensures t.waiters[0].Returned? && t.waiters[1].Parked?
    ensures t.queue == [] && t.working == 0 && multiset(t.pushed) == t.finished
  {
    t := TwoPark(n, w, 0);
    t := WorkOff(n, w, t, 0);
    ReachableThen(n, w, t, Worker(0, 0));
    t := Do(t, Worker(0, 0));
    assert t.waiters[0] == Roused(1) && t.waiters[1] == Parked(1) && t.working == 0;
    for i := 0 to 3
      invariant Reachable(n, w, t) && t.keepalive && t.queue == [] && t.working == 0
      invariant t.destroyer.NotCalled? && multiset(t.pushed) == t.finished
      invariant |t.waiters| == w && t.waiters[1] == Parked(1)
      invariant i == 0 ==> t.waiters[0] == Roused(1) && t.countLock.Open?
      invariant i == 1 ==> t.waiters[0] == Reading(1) && t.countLock == HeldBy(0)
      invariant i == 2 ==> t.waiters[0] == SawNoJobs(1) && t.countLock == HeldBy(0)
      invariant i == 3 ==> t.waiters[0] == Returned(1)
    {
      ReachableThen(n, w, t, Waiter(0));
      t := Do(t, Waiter(0));
    }
  }

  /** Whoever is parked has a job queued or running to be woken by, in every run, exactly
      when at most one thread calls thpool_wait. */
  lemma StrandsNobodyIff(n: nat, w: nat)
    requires n >= 1
    ensures (forall t :: Reachable(n, w, t) ==> NoneStranded(t)) <==> w <= 1
  {
    if w <= 1 {
      forall t | Reachable(n, w, t) ensures NoneStranded(t) {
        var actions :| Runs(Init(n, w), actions, t);
        InitKeeps(n, w);
        RunKeepsUnstranded(Init(n, w), actions, t);
      }
    } else {
      var t := SecondWaiterStranded(n, w);
      assert !NoneStranded(t);
    }
  }
}

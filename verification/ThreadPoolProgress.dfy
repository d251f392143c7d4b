/** What the pool reaches: left alone it comes to rest with all work done, and once
    thpool_destroy has cleared threads_keepalive its polling rounds drain the workers. */
module ThreadPoolProgress {
  import opened Sums
  import opened ThreadPool
  import opened ThreadPoolSafety

  // ---------------------------------------------------------------- a measure of the work left

  /** A bound on the steps a worker can take without a new post. */
  function Rank(pc: WorkerPc): nat {
    match pc
    case Asleep | Gone => 0
    case AtSem | Woken | Exiting => 1
    case AtLoop => 2
    case CountOut => 7
    case Executing(_) => 8
    case AtPull => 9
    case CountIn => 10
    case HasToken => 11
    case AtPost(_) => 21
  }

  function WaitRank(p: WaiterPc): nat {
    match p
    case Outside | Parked(_) | Returned(_) => 0
    case Parking(_) => 1
    case SawNoJobs(_) => 2
    case Reading(_) => 3
    case Roused(_) => 4
  }

  function Measure(s: State): nat {
    13 * |s.queue| + (if s.token then 11 else 0) + (if s.rw.RwPush? then 13 else 0)
    + Sum(s.workers, Rank) + Sum(s.waiters, WaitRank)
  }

  /** Steps the pool takes by itself: no new job, no new call, no spurious wake-up. */
  predicate Internal(a: Action) {
    a.PostPush? || a.Worker? || a.Waiter?
  }

  lemma SignalRank(ws: seq<WorkerPc>, k: nat)
    ensures Sum(Signal(ws, k), Rank) <= Sum(ws, Rank) + 1
  {
    if k < |ws| && ws[k] == Asleep {
      SumUpdate(ws, k, Woken, Rank);
    }
  }

  lemma RouseRank(ps: seq<WaiterPc>, k: nat)
    ensures Sum(Rouse(ps, k), WaitRank) <= Sum(ps, WaitRank) + 4
  {
    if k < |ps| && ps[k].Parked? {
      SumUpdate(ps, k, Roused(ps[k].mark), WaitRank);
    }
  }

  lemma WorkerProgress(s: State, w: nat, k: nat)
    requires WorkerEnabled(s, w, k)
    requires s.workers[w].AtPost? ==> s.rw == RwPull(w)
    ensures Measure(WorkerStep(s, w, k)) < Measure(s)
  {
    hide Sum;
    var t := WorkerStep(s, w, k);
    var pc, pc' := s.workers[w], NextPc(s, w);
    var moved := s.workers[w := pc'];
    SumUpdate(s.workers, w, pc', Rank);
    SignalRank(moved, k);
    RouseRank(s.waiters, k);
    var before, after := Sum(s.workers, Rank), Sum(t.workers, Rank);
    assert after <= before - Rank(pc) + Rank(pc') + (if pc.AtPost? then 1 else 0);
  }

  lemma StepProgress(s: State, a: Action)
    requires LocksOk(s) && Enabled(s, a) && Internal(a)
    ensures Measure(Do(s, a)) < Measure(s)
  {
    match a {
      case Worker(w, k) => WorkerProgress(s, w, k);
      case PostPush(k) => PostProgress(s, k);
      case Waiter(i) => WaiterProgress(s, i);
    }
  }

  lemma PostProgress(s: State, k: nat)
    requires Enabled(s, PostPush(k))
    ensures Measure(Do(s, PostPush(k))) < Measure(s)
  {
    SignalRank(s.workers, k);
  }

  lemma WaiterProgress(s: State, i: nat)
    requires WaiterEnabled(s, i)
    ensures Measure(WaiterStep(s, i)) < Measure(s)
  {
    hide Sum, Rank;
    var t := WaiterStep(s, i);
    SumUpdate(s.waiters, i, t.waiters[i], WaitRank);
    assert t.waiters == s.waiters[i := t.waiters[i]];
  }

  ghost predicate AllInternal(actions: seq<Action>) {
    forall i :: 0 <= i < |actions| ==> Internal(actions[i])
  }

  /** Left alone, the pool takes a bounded number of steps. */
  lemma {:induction false} InternalRunBounded(s: State, actions: seq<Action>, t: State)
    requires Inv(s) && Runs(s, actions, t) && AllInternal(actions)
    ensures |actions| + Measure(t) <= Measure(s)
    decreases |actions|
  {
    if actions != [] {
      assert Internal(actions[0]);
      StepProgress(s, actions[0]);
      StepKeeps(s, actions[0]);
      InternalRunBounded(Do(s, actions[0]), actions[1..], t);
    }
  }

  /** The pool can take no step by itself. */
  ghost predicate Quiescent(s: State) {
    forall a :: Internal(a) ==> !Enabled(s, a)
  }

  /** In a pool at rest both locks are free and every worker sleeps or is gone. */
  lemma RestingWorkers(s: State)
    requires LocksOk(s) && Quiescent(s) && !s.destroyer.Cleared?
    ensures s.rw.RwFree? && s.countLock.Open?
    ensures forall w :: 0 <= w < |s.workers| ==> s.workers[w].Asleep? || s.workers[w].Gone?
  {
    var k := SomeSignal(s.workers);
    var r := SomeRouse(s.waiters);
    assert !Enabled(s, PostPush(k));
    assert s.rw.RwPull? ==> Enabled(s, Worker(s.rw.w, k));
    assert s.countLock.HeldBy? ==> Enabled(s, Waiter(s.countLock.waiter));
    forall w | 0 <= w < |s.workers|
      ensures s.workers[w].Asleep? || s.workers[w].Gone?
    {
      assert !Enabled(s, Worker(w, k)) && !Enabled(s, Worker(w, r));
    }
  }

  lemma RestingCounts(s: State)
    requires CountsOk(s)
    requires forall w :: 0 <= w < |s.workers| ==> s.workers[w].Asleep? || s.workers[w].Gone?
    ensures s.working == 0
    ensures Asleep !in s.workers ==> s.alive == 0
  {
    SumZero(s.workers, Counted);
    SumZero(s.workers, Living);
    forall w | 0 <= w < |s.workers| && Asleep !in s.workers ensures s.workers[w].Gone? {
      assert s.workers[w] in s.workers;
    }
  }

  /** The caller is between its call of thpool_wait and its return. */
  predicate Inside(p: WaiterPc) {
    !p.Outside? && !p.Returned?
  }

  /** A pool at rest runs nothing. Jobs are left queued only after threads_keepalive was
      cleared; without any, every pushed job has finished. A single caller still inside
      thpool_wait is parked over such left-over jobs. */
  lemma RestMeansDone(n: nat, w: nat, t: State)
    requires n >= 1 && Reachable(n, w, t) && Quiescent(t) && !t.destroyer.Cleared?
    ensures t.working == 0
    ensures t.queue != [] ==> !t.keepalive
    ensures t.queue == [] ==> multiset(t.pushed) == t.finished
    ensures w <= 1 ==> forall i :: 0 <= i < |t.waiters| && Inside(t.waiters[i]) ==>
                         t.waiters[i].Parked? && t.queue != []
  {
    ReachableInv(n, w, t);
    WorkersStay(n, w, t);
    RestingWorkers(t);
    RestingCounts(t);
    RestingQueue(t);
    if t.queue == [] { QuietMeansDone(t, 0); }
    if w <= 1 {
      StrandsNobodyIff(n, w);
      RestingCallers(t);
    }
  }

  lemma RestingQueue(s: State)
    requires Fed(s) && Attended(s) && ShutdownOk(s) && s.rw.RwFree? && s.workers != []
    requires forall w :: 0 <= w < |s.workers| ==> s.workers[w].Asleep? || s.workers[w].Gone?
    ensures s.queue != [] ==> !s.keepalive
  {
    assert s.workers[0] in s.workers;
    assert Woken !in s.workers;
  }

  lemma RestingCallers(s: State)
    requires Quiescent(s) && NoneStranded(s) && !s.destroyer.Cleared? && s.countLock.Open? && s.working == 0
    requires LocksOk(s)
    ensures forall i :: 0 <= i < |s.waiters| && Inside(s.waiters[i]) ==>
              s.waiters[i].Parked? && s.queue != []
  {
    forall i | 0 <= i < |s.waiters| && Inside(s.waiters[i])
      ensures s.waiters[i].Parked? && s.queue != []
    {
      assert !Enabled(s, Waiter(i));
    }
  }

  // ---------------------------------------------------------------- one call of thpool_wait

  /** The caller left or is about to leave only after it saw an empty queue. */
  predicate Met(s: State, i: nat) {
    && i < |s.waiters| && !s.waiters[i].Outside?
    && (s.waiters[i].SawNoJobs? || s.waiters[i].Returned? ==> s.queue == [])
  }

  /** No new job and no new call; thpool_destroy may interfere. */
  predicate Unfed(a: Action) {
    !a.Enqueue? && !a.Call?
  }

  lemma WorkerKeepsMet(s: State, w: nat, k: nat, i: nat)
    requires WorkerEnabled(s, w, k) && Met(s, i)
    ensures Met(WorkerStep(s, w, k), i)
  {
  }

  lemma WaiterKeepsMet(s: State, v: nat, i: nat)
    requires WaiterEnabled(s, v) && Met(s, i)
    ensures Met(WaiterStep(s, v), i)
  {
  }

  lemma StepKeepsMet(s: State, a: Action, i: nat)
    requires Enabled(s, a) && Unfed(a) && Met(s, i)
    ensures Met(Do(s, a), i)
  {
    match a {
      case Worker(w, k) => WorkerKeepsMet(s, w, k, i);
      case Waiter(v) => WaiterKeepsMet(s, v, i);
      case PostPush(_) =>
      case SpuriousWorker(_) =>
      case SpuriousWaiter(_) =>
      case Destroy =>
    }
  }

  lemma {:induction false} RunKeepsMet(s: State, actions: seq<Action>, t: State, i: nat)
    requires Runs(s, actions, t) && Met(s, i) && forall k :: 0 <= k < |actions| ==> Unfed(actions[k])
    ensures Met(t, i)
    decreases |actions|
  {
    if actions != [] {
      assert Unfed(actions[0]);
      StepKeepsMet(s, actions[0], i);
      RunKeepsMet(Do(s, actions[0]), actions[1..], t, i);
    }
  }

  /** A single caller, no further pushes: when the pool comes to rest the call has returned if
      and only if the queue was worked off; it is still parked if and only if jobs are left,
      and that takes a thpool_destroy. */
  lemma WaitReturnsIff(n: nat, s: State, actions: seq<Action>, t: State)
    requires n >= 1 && Reachable(n, 1, s) && Enabled(s, Call(0))
    requires Runs(Do(s, Call(0)), actions, t) && forall k :: 0 <= k < |actions| ==> Unfed(actions[k])
    requires Quiescent(t) && !t.destroyer.Cleared?
    ensures |t.waiters| == 1
    ensures t.waiters[0].Returned? <==> t.queue == []
    ensures t.waiters[0].Parked? <==> t.queue != []
    ensures t.queue != [] ==> !t.keepalive
  {
    ReachableThen(n, 1, s, Call(0));
    var c := Do(s, Call(0));
    RunKeepsMet(c, actions, t, 0);
    ReachableAfter(n, 1, c, actions, t);
    WaitersStay(n, 1, t);
    RestMeansDone(n, 1, t);
  }

  lemma {:induction false} ReachableAfter(n: nat, w: nat, s: State, actions: seq<Action>, t: State)
    requires Reachable(n, w, s) && Runs(s, actions, t)
    ensures Reachable(n, w, t)
    decreases |actions|
  {
    if actions != [] {
      ReachableThen(n, w, s, actions[0]);
      ReachableAfter(n, w, Do(s, actions[0]), actions[1..], t);
    }
  }

  predicate AllGone(s: State) {
    forall v :: 0 <= v < |s.workers| ==> s.workers[v].Gone?
  }

  /** A single caller parks over a queued job and thpool_destroy follows. */
  lemma DestroyOverParked(n: nat) returns (t: State)
    requires n >= 1
    ensures Reachable(n, 1, t)
    ensures t == Init(n, 1).(queue := [0], pushed := [0], token := true, waiters := [Parked(1)],
                             keepalive := false, destroyer := Testing)
  {
    t := Init(n, 1);
    assert Runs(t, [], t);
    ReachableThen(n, 1, t, Enqueue(0));
    t := Do(t, Enqueue(0));
    ReachableThen(n, 1, t, PostPush(0));
    t := Do(t, PostPush(0));
    t := Park(n, 1, t, 0);
    ReachableThen(n, 1, t, Destroy);
    t := Do(t, Destroy);
    assert t.queue == [0] && t.pushed == [0] && t.waiters == [Parked(1)];
  }

  lemma WorkerLeaves(n: nat, w: nat, s: State, v: nat) returns (t: State)
    requires Reachable(n, w, s) && !s.keepalive && s.countLock.Open? && !s.destroyer.Cleared?
    requires v < |s.workers| && s.workers[v] == AtLoop
    ensures Reachable(n, w, t) && t == s.(workers := s.workers[v := Gone], alive := s.alive - 1)
  {
    ReachableThen(n, w, s, Worker(v, 0));
    t := Do(s, Worker(v, 0));
    ReachableThen(n, w, t, Worker(v, 0));
    t := Do(t, Worker(v, 0));
    assert t.workers == s.workers[v := Gone];
  }

  /** Then every worker leaves before it pulls: the caller is left behind. */
  lemma DestroyStrandsWaiter(n: nat) returns (t: State)
    requires n >= 1
    ensures Reachable(n, 1, t) && AllGone(t) && t.queue == [0] && t.waiters == [Parked(1)]
  {
    hide Reachable;
    t := DestroyOverParked(n);
    for v := 0 to n
      invariant Reachable(n, 1, t) && t.queue == [0] && t.waiters == [Parked(1)] && |t.workers| == n
      invariant !t.keepalive && t.countLock.Open? && !t.destroyer.Cleared?
      invariant forall i :: 0 <= i < n ==> t.workers[i] == if i < v then Gone else AtLoop
    {
      t := WorkerLeaves(n, 1, t, v);
    }
  }

  /** Nothing lets a caller out once all workers are gone and jobs are left, not even a
      spurious wake-up or a further push. */
  predicate LeftBehind(s: State, i: nat) {
    && AllGone(s) && (s.queue != [] || s.destroyer.Cleared?)
    && i < |s.waiters| && Inside(s.waiters[i]) && !s.waiters[i].SawNoJobs?
  }

  lemma {:induction false} LeftBehindForever(s: State, actions: seq<Action>, t: State, i: nat)
    requires LeftBehind(s, i) && Runs(s, actions, t)
    ensures LeftBehind(t, i)
    decreases |actions|
  {
    if actions != [] {
      assert LeftBehind(Do(s, actions[0]), i);
      LeftBehindForever(Do(s, actions[0]), actions[1..], t, i);
    }
  }

  lemma {:induction false} RunKeepsSize(s: State, actions: seq<Action>, t: State)
    requires Runs(s, actions, t)
    ensures |t.workers| == |s.workers| && |t.waiters| == |s.waiters|
    decreases |actions|
  {
    if actions != [] {
      assert |Do(s, actions[0]).workers| == |s.workers| && |Do(s, actions[0]).waiters| == |s.waiters|;
      RunKeepsSize(Do(s, actions[0]), actions[1..], t);
    }
  }

  lemma WorkersStay(n: nat, w: nat, t: State)
    requires Reachable(n, w, t)
    ensures |t.workers| == n
  {
    var actions :| Runs(Init(n, w), actions, t);
    RunKeepsSize(Init(n, w), actions, t);
  }

  lemma WaitersStay(n: nat, w: nat, t: State)
    requires Reachable(n, w, t)
    ensures |t.waiters| == w
  {
    var actions :| Runs(Init(n, w), actions, t);
    RunKeepsSize(Init(n, w), actions, t);
  }

  // ---------------------------------------------------------------- shutdown

  /** Positions from which a worker reads threads_keepalive before it can pull. */
  predicate Retired(pc: WorkerPc) {
    pc.AtLoop? || pc.AtSem? || pc.Asleep? || pc.Woken? || pc.HasToken? || pc.Exiting? || pc.Gone?
  }

  function MayPull(pc: WorkerPc): nat {
    if pc.CountIn? || pc.AtPull? then 1 else 0
  }

  lemma StepRetires(s: State, a: Action)
    requires Enabled(s, a) && !s.keepalive
    ensures !Do(s, a).keepalive && |Do(s, a).workers| == |s.workers|
    ensures forall w :: 0 <= w < |s.workers| && Retired(s.workers[w]) ==> Retired(Do(s, a).workers[w])
  {
  }

  lemma StepPulls(s: State, a: Action)
    requires Enabled(s, a) && !s.keepalive
    ensures |Do(s, a).pulled| + Sum(Do(s, a).workers, MayPull) <= |s.pulled| + Sum(s.workers, MayPull)
  {
    var t := Do(s, a);
    match a {
      case Worker(w, k) =>
        SumUpdate(s.workers, w, NextPc(s, w), MayPull);
        SumSame(Signal(s.workers[w := NextPc(s, w)], k), s.workers[w := NextPc(s, w)], MayPull);
      case PostPush(k) => SumSame(t.workers, s.workers, MayPull);
      case SpuriousWorker(_) => SumSame(t.workers, s.workers, MayPull);
      case Destroy => SumSame(t.workers, s.workers, MayPull);
      case _ =>
    }
  }

  /** Once threads_keepalive is 0 a worker that is not already counting in never pulls
      again, and only those that are can still take a job, one each. */
  lemma {:induction false} ShutdownPullsNoMore(s: State, actions: seq<Action>, t: State)
    requires Runs(s, actions, t) && !s.keepalive
    ensures !t.keepalive && |t.workers| == |s.workers|
    ensures forall w :: 0 <= w < |s.workers| && Retired(s.workers[w]) ==> Retired(t.workers[w])
    ensures |t.pulled| + Sum(t.workers, MayPull) <= |s.pulled| + Sum(s.workers, MayPull)
    decreases |actions|
  {
    if actions != [] {
      StepRetires(s, actions[0]);
      StepPulls(s, actions[0]);
      ShutdownPullsNoMore(Do(s, actions[0]), actions[1..], t);
    }
  }

  /** A worker that will leave without needing the semaphore again. */
  predicate Leaving(pc: WorkerPc) {
    !pc.AtSem? && !pc.Asleep? && !pc.Woken? && !pc.Gone?
  }

  /** The bit of a polling round is unspent, spent by a worker still on its way out, or
      has already let a worker out. */
  ghost predicate RoundPending(s: State, a0: int) {
    s.alive <= a0 && (s.alive < a0 || s.token || exists w :: 0 <= w < |s.workers| && Leaving(s.workers[w]))
  }

  lemma StepKeepsRound(s: State, a: Action, a0: int)
    requires Enabled(s, a) && !s.keepalive && RoundPending(s, a0) && a0 > 0
    requires s.destroyer.Clearing? ==> s.alive == 0
    ensures RoundPending(Do(s, a), a0) && !Do(s, a).keepalive
  {
    var t := Do(s, a);
    if a.Worker? && t.alive == a0 && !t.token {
      if Leaving(NextPc(s, a.w)) {
        assert t.workers[a.w] == NextPc(s, a.w);
      } else {
        var v :| 0 <= v < |s.workers| && Leaving(s.workers[v]);
        assert t.workers[v] == s.workers[v];
      }
    } else if v :| 0 <= v < |s.workers| && Leaving(s.workers[v]) {
      if !a.Worker? {
        assert t.workers[v] == s.workers[v];
      }
    }
  }

  lemma ClearingIsEmpty(s: State)
    requires CountsOk(s) && ShutdownOk(s) && (s.destroyer.Clearing? || s.destroyer.Cleared?)
    ensures s.alive == 0
  {
    SumZero(s.workers, Living);
  }

  lemma {:induction false} RunKeepsRound(s: State, actions: seq<Action>, t: State, a0: int)
    requires Inv(s) && Runs(s, actions, t) && !s.keepalive
    requires RoundPending(s, a0) && a0 > 0
    ensures RoundPending(t, a0)
    decreases |actions|
  {
    if actions != [] {
      if s.destroyer.Clearing? { ClearingIsEmpty(s); }
      StepKeepsRound(s, actions[0], a0);
      StepKeeps(s, actions[0]);
      RunKeepsRound(Do(s, actions[0]), actions[1..], t, a0);
    }
  }

  /** Polling lets workers out: whatever happens after a bsem_post_all, further rounds of
      thpool_destroy included, by the next time the pool is at rest one more worker has
      left. */
  lemma RoundLetsOneOut(n: nat, w: nat, s: State, actions: seq<Action>, t: State)
    requires Reachable(n, w, s) && s.destroyer.PostingAll? && s.alive > 0
    requires Runs(DestroyStep(s), actions, t) && Quiescent(t)
    ensures t.alive < s.alive
  {
    ReachableInv(n, w, s);
    StepKeeps(s, Destroy);
    var posted := DestroyStep(s);
    assert posted == Do(s, Destroy) && RoundPending(posted, s.alive);
    RunKeeps(posted, actions, t);
    RunKeepsRound(posted, actions, t, s.alive);
    if t.destroyer.Cleared? {
      ClearingIsEmpty(t);
    } else {
      RestingWorkers(t);
      RestingCounts(t);
      if t.token {
        assert Woken !in t.workers;
      }
    }
  }

  lemma StepKeepsOut(s: State, a: Action)
    requires CountsOk(s) && Enabled(s, a)
    ensures Do(s, a).alive <= s.alive
  {
  }

  /** Rounds of thpool_destroy, each from a bsem_post_all to a moment at which the pool rests;
      whatever else happens in between. */
  ghost predicate Rounds(s: State, rounds: seq<seq<Action>>, t: State)
    decreases |rounds|
  {
    if rounds == [] then s == t
    else
      && s.destroyer.PostingAll?
      && exists u :: Runs(DestroyStep(s), rounds[0], u) && Quiescent(u) && Rounds(u, rounds[1..], t)
  }

  lemma RoundKeeps(n: nat, w: nat, s: State, actions: seq<Action>, u: State)
    requires Reachable(n, w, s) && s.destroyer.PostingAll? && Runs(DestroyStep(s), actions, u) && Quiescent(u)
    ensures Reachable(n, w, u)
    ensures u.alive == 0 || u.alive <= s.alive - 1
  {
    ReachableInv(n, w, s);
    assert DestroyStep(s) == Do(s, Destroy);
    ReachableThen(n, w, s, Destroy);
    ReachableAfter(n, w, DestroyStep(s), actions, u);
    if s.alive > 0 {
      RoundLetsOneOut(n, w, s, actions, u);
    } else {
      StepKeeps(s, Destroy);
      RunKeepsOut(DestroyStep(s), actions, u);
      ReachableInv(n, w, u);
      SumZero(u.workers, Living);
    }
  }

  lemma {:induction false} RunKeepsOut(s: State, actions: seq<Action>, t: State)
    requires Inv(s) && Runs(s, actions, t)
    ensures t.alive <= s.alive
    decreases |actions|
  {
    if actions != [] {
      StepKeepsOut(s, actions[0]);
      StepKeeps(s, actions[0]);
      RunKeepsOut(Do(s, actions[0]), actions[1..], t);
    }
  }

  /** After as many rounds as workers were alive, none is: with n workers the polling of
      thpool_destroy is over after at most n rounds. */
  lemma {:induction false} RoundsDrain(n: nat, w: nat, s: State, rounds: seq<seq<Action>>, t: State)
    requires Reachable(n, w, s) && Rounds(s, rounds, t)
    ensures Reachable(n, w, t) && 0 <= s.alive <= n
    ensures t.alive <= s.alive && (t.alive == 0 || t.alive <= s.alive - |rounds|)
    ensures |rounds| >= n && rounds != [] ==> t.alive == 0
    decreases |rounds|
  {
    AliveBound(n, w, s);
    if rounds != [] {
      var u :| Runs(DestroyStep(s), rounds[0], u) && Quiescent(u) && Rounds(u, rounds[1..], t);
      RoundKeeps(n, w, s, rounds[0], u);
      RoundsDrain(n, w, u, rounds[1..], t);
      AliveBound(n, w, t);
    }
  }

  lemma {:induction false} LivingAtMost(ws: seq<WorkerPc>)
    ensures Sum(ws, Living) <= |ws|
  {
    if ws != [] { LivingAtMost(ws[1..]); }
  }

  lemma AliveBound(n: nat, w: nat, s: State)
    requires Reachable(n, w, s)
    ensures 0 <= s.alive <= n
  {
    ReachableInv(n, w, s);
    WorkersStay(n, w, s);
    LivingAtMost(s.workers);
  }

  // ---------------------------------------------------------------- thpool_destroy can finish

  lemma StepKeepsDestroyer(s: State, a: Action)
    requires Enabled(s, a) && Internal(a)
    ensures Do(s, a).destroyer == s.destroyer && Do(s, a).keepalive == s.keepalive
  {
  }

  /** Left alone, the pool comes to rest. */
  lemma {:induction false} ComeToRest(n: nat, w: nat, s: State) returns (t: State)
    requires Reachable(n, w, s) && !s.destroyer.Cleared?
    ensures Reachable(n, w, t) && Quiescent(t) && t.destroyer == s.destroyer && Leads(s, t)
    ensures t.alive <= s.alive
    decreases Measure(s)
  {
    t := s;
    if Quiescent(s) {
      assert Runs(s, [], s);
    } else {
      var a :| Internal(a) && Enabled(s, a);
      ReachableInv(n, w, s);
      StepProgress(s, a);
      StepKeepsDestroyer(s, a);
      StepKeepsOut(s, a);
      ReachableThen(n, w, s, a);
      t := ComeToRest(n, w, Do(s, a));
      LeadsStep(s, a, t);
    }
  }

  ghost predicate Leads(s: State, t: State) {
    exists actions :: Runs(s, actions, t)
  }

  lemma LeadsStep(s: State, a: Action, t: State)
    requires Enabled(s, a) && Leads(Do(s, a), t)
    ensures Leads(s, t)
  {
    var actions :| Runs(Do(s, a), actions, t);
    assert ([a] + actions)[1..] == actions;
    assert Runs(s, [a] + actions, t);
  }

  lemma {:induction false} LeadsOn(s: State, actions: seq<Action>, u: State, t: State)
    requires Runs(s, actions, u) && Leads(u, t)
    ensures Leads(s, t)
    decreases |actions|
  {
    if actions != [] {
      LeadsOn(Do(s, actions[0]), actions[1..], u, t);
      LeadsStep(s, actions[0], t);
    }
  }

  lemma LeadsVia(s: State, u: State, t: State)
    requires Leads(s, u) && Leads(u, t)
    ensures Leads(s, t)
  {
    var actions :| Runs(s, actions, u);
    LeadsOn(s, actions, u, t);
  }

  /** One step of thpool_destroy. */
  lemma DestroyOn(n: nat, w: nat, s: State) returns (t: State)
    requires Reachable(n, w, s) && Enabled(s, Destroy)
    ensures Reachable(n, w, t) && t == DestroyStep(s) && Leads(s, t)
  {
    t := Do(s, Destroy);
    ReachableThen(n, w, s, Destroy);
    assert Runs(t, [], t);
    LeadsStep(s, Destroy, t);
  }

  /** From a rested pool under thpool_destroy, round by round, to the cleared queue. */
  lemma {:induction false} Drain(n: nat, w: nat, s: State) returns (t: State)
    requires Reachable(n, w, s) && s.destroyer.Testing? && Quiescent(s)
    ensures Reachable(n, w, t) && Leads(s, t) && t.destroyer.Cleared?
    decreases if s.alive > 0 then s.alive else 0
  {
    ReachableInv(n, w, s);
    var v := DestroyOn(n, w, s);
    if s.alive == 0 {
      RestingWorkers(s);
      t := DestroyOn(n, w, v);
      LeadsVia(s, v, t);
    } else {
      AliveBound(n, w, s);
      var p := DestroyOn(n, w, v);
      var u := ComeToRest(n, w, p);
      var actions :| Runs(p, actions, u);
      RoundLetsOneOut(n, w, v, actions, u);
      AliveBound(n, w, u);
      t := Drain(n, w, u);
      LeadsVia(p, u, t);
      LeadsVia(v, p, t);
      LeadsVia(s, v, t);
    }
  }

  /** From every reachable state some run ends with the queue cleared: thpool_destroy,
      called or about to be, never gets stuck, however workers, waiters and pushes stand. */
  lemma DestroyCanFinish(n: nat, w: nat, s: State) returns (t: State)
    requires Reachable(n, w, s)
    ensures Leads(s, t) && t.destroyer.Cleared? && t.queue == []
  {
    t := s;
    if s.destroyer.Cleared? {
      assert Runs(s, [], s);
    } else {
      ReachableInv(n, w, s);
      var u := ComeToRest(n, w, s);
      t := FinishFromRest(n, w, u);
      LeadsVia(s, u, t);
    }
    ClearedIsEmpty(n, w, t);
  }

  lemma FinishFromRest(n: nat, w: nat, s: State) returns (t: State)
    requires Reachable(n, w, s) && Quiescent(s) && !s.destroyer.Cleared?
    ensures Reachable(n, w, t) && Leads(s, t) && t.destroyer.Cleared?
  {
    if s.destroyer.Testing? {
      t := Drain(n, w, s);
    } else {
      ReachableInv(n, w, s);
      RestingWorkers(s);
      var v := DestroyOn(n, w, s);
      if v.destroyer.Cleared? {
        t := v;
      } else {
        var u := ComeToRest(n, w, v);
        t := Drain(n, w, u);
        LeadsVia(v, u, t);
        LeadsVia(s, v, t);
      }
    }
  }

  /** When the polling loops end no worker is left that could touch the job queue, and
      nothing but the clearing can change it except a caller still pushing. */
  lemma ClearingIsAlone(n: nat, w: nat, t: State, a: Action)
    requires Reachable(n, w, t) && (t.destroyer.Clearing? || t.destroyer.Cleared?)
    ensures forall v :: 0 <= v < |t.workers| ==> t.workers[v].Gone?
    ensures Enabled(t, a) && !a.Destroy? && !a.Enqueue? ==> Do(t, a).queue == t.queue && Do(t, a).pulled == t.pulled
    ensures t.destroyer.Cleared? ==> t.queue == [] && !t.token
  {
    ReachableInv(n, w, t);
    if t.destroyer.Cleared? {
      ClearedIsEmpty(n, w, t);
    }
  }

  lemma ClearedIsEmpty(n: nat, w: nat, t: State)
    requires Reachable(n, w, t) && t.destroyer.Cleared?
    ensures t.queue == [] && !t.token
  {
    var actions :| Runs(Init(n, w), actions, t);
    RunToCleared(Init(n, w), actions, t);
  }

  lemma {:induction false} RunToCleared(s: State, actions: seq<Action>, t: State)
    requires Runs(s, actions, t) && (s.destroyer.Cleared? ==> s.queue == [] && !s.token)
    ensures t.destroyer.Cleared? ==> t.queue == [] && !t.token
    decreases |actions|
  {
    if actions != [] {
      RunToCleared(Do(s, actions[0]), actions[1..], t);
    }
  }
}

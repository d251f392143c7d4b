/** The worker pool as an interleaving step relation. Every critical section is one
    step; the reads that take no lock (`threads_keepalive`, `len` in thpool_wait,
    `num_threads_alive` in thpool_destroy) are steps of their own, and so is the
    semaphore post that a push or a pull makes after it has changed `len`. */
module ThreadPool {
  import opened Sums
  import opened JobQueueSpec

  /** The tag stands for the function and the argument a job carries. */
  type Job = nat

  /** Where a worker stands in thread_do. */
  datatype WorkerPc =
    | AtLoop                 // about to read threads_keepalive in the loop head
    | AtSem                  // about to enter bsem_wait
    | Asleep                 // in pthread_cond_wait, not signalled
    | Woken                  // signalled, about to test the semaphore again
    | HasToken               // took the bit, about to read threads_keepalive
    | CountIn                // about to increment num_threads_working
    | AtPull                 // about to enter jobqueue_pull
    | AtPost(job: Job)       // pulled, still holds rwmutex, about to post
    | Executing(job: Job)
    | CountOut               // about to decrement num_threads_working
    | Exiting                // about to decrement num_threads_alive
    | Gone

  /** Where a caller of thpool_wait stands; `mark` is the number of jobs pushed when
      the call took thcount_lock. */
  datatype WaiterPc =
    | Outside
    | Reading(mark: nat)     // holds thcount_lock, about to read len
    | SawNoJobs(mark: nat)   // read len == 0, about to read num_threads_working
    | Parking(mark: nat)     // read a non-zero counter, about to wait
    | Parked(mark: nat)      // in pthread_cond_wait, not signalled
    | Roused(mark: nat)      // signalled, about to take the lock again
    | Returned(mark: nat)

  datatype DestroyPc = NotCalled | Testing | PostingAll | Clearing | Cleared

  /** Owner of rwmutex between the update of len and the post. */
  datatype RwLock = RwFree | RwPush | RwPull(w: nat)

  datatype CountLock = Open | HeldBy(waiter: nat)

  datatype State = State(
    keepalive: bool,
    queue: seq<Job>,
    token: bool,
    rw: RwLock,
    working: int,
    alive: int,
    countLock: CountLock,
    workers: seq<WorkerPc>,
    waiters: seq<WaiterPc>,
    destroyer: DestroyPc,
    pushed: seq<Job>,
    pulled: seq<Job>,
    discarded: seq<Job>,
    finished: multiset<Job>)

  datatype Action =
    | Enqueue(job: Job)
    | PostPush(sleeper: nat)
    | Worker(w: nat, choice: nat)
    | SpuriousWorker(w: nat)
    | Call(i: nat)
    | Waiter(i: nat)
    | SpuriousWaiter(i: nat)
    | Destroy

  /** The state thpool_init returns: n workers alive, and w threads that may wait. */
  function Init(n: nat, w: nat): State {
    State(true, [], false, RwFree, 0, n, Open,
          seq(n, _ => AtLoop), seq(w, _ => Outside), NotCalled, [], [], [], multiset{})
  }

  // ---------------------------------------------------------------- steps

  /** pthread_cond_signal wakes some sleeper, if there is one. */
  predicate CanSignal(ws: seq<WorkerPc>, k: nat) {
    (k < |ws| && ws[k] == Asleep) || Asleep !in ws
  }

  function Signal(ws: seq<WorkerPc>, k: nat): seq<WorkerPc> {
    if k < |ws| && ws[k] == Asleep then ws[k := Woken] else ws
  }

  function WakeAll(ws: seq<WorkerPc>): seq<WorkerPc> {
    seq(|ws|, i requires 0 <= i < |ws| => if ws[i] == Asleep then Woken else ws[i])
  }

  predicate CanRouse(ps: seq<WaiterPc>, k: nat) {
    (k < |ps| && ps[k].Parked?) || forall i :: 0 <= i < |ps| ==> !ps[i].Parked?
  }

  function Rouse(ps: seq<WaiterPc>, k: nat): seq<WaiterPc> {
    if k < |ps| && ps[k].Parked? then ps[k := Roused(ps[k].mark)] else ps
  }

  predicate WorkerEnabled(s: State, w: nat, k: nat) {
    w < |s.workers| &&
    match s.workers[w]
    case AtLoop | AtSem | Woken | HasToken | Executing(_) => true
    case Asleep | Gone => false
    case CountIn | Exiting => s.countLock.Open?
    case AtPull => s.rw.RwFree?
    case AtPost(_) => CanSignal(s.workers, k)
    case CountOut => s.countLock.Open? && (s.working <= 1 ==> CanRouse(s.waiters, k))
  }

  /** Where worker w goes next. */
  function NextPc(s: State, w: nat): WorkerPc
    requires w < |s.workers|
  {
    match s.workers[w]
    case AtLoop => if s.keepalive then AtSem else Exiting
    case AtSem | Woken => if s.token then HasToken else Asleep
    case HasToken => if s.keepalive then CountIn else AtLoop
    case CountIn => AtPull
    case AtPull =>
      (match Pull(s.queue)
       case Nothing => CountOut
       case Pulled(j, _, post) => if post then AtPost(j) else Executing(j))
    case AtPost(j) => Executing(j)
    case Executing(_) => CountOut
    case CountOut => AtLoop
    case Exiting | Gone => Gone
    case Asleep => Asleep
  }

  /** The step of worker w, one shared variable at a time; k is whom a signal wakes. */
  function WorkerStep(s: State, w: nat, k: nat): State
    requires WorkerEnabled(s, w, k)
  {
    var pc := s.workers[w];
    var took := if pc.AtPull? then Pull(s.queue) else Nothing;
    var moved := s.workers[w := NextPc(s, w)];
    var working := if pc.CountIn? then s.working + 1 else if pc.CountOut? then s.working - 1 else s.working;
    s.(token := if pc.AtSem? || pc.Woken? then false else pc.AtPost? || s.token,
       queue := if took.Pulled? then took.rest else s.queue,
       pulled := if took.Pulled? then s.pulled + [took.job] else s.pulled,
       rw := if took.Pulled? && took.post then RwPull(w) else if pc.AtPost? then RwFree else s.rw,
       finished := if pc.Executing? then s.finished + multiset{pc.job} else s.finished,
       working := working,
       alive := if pc.Exiting? then s.alive - 1 else s.alive,
       waiters := if pc.CountOut? && working == 0 then Rouse(s.waiters, k) else s.waiters,
       workers := if pc.AtPost? then Signal(moved, k) else moved)
  }

  predicate WaiterEnabled(s: State, i: nat) {
    i < |s.waiters| &&
    match s.waiters[i]
    case Reading(_) | SawNoJobs(_) | Parking(_) => s.countLock == HeldBy(i)
    case Roused(_) => s.countLock.Open?
    case _ => false
  }

  function WaiterStep(s: State, i: nat): State
    requires WaiterEnabled(s, i)
  {
    match s.waiters[i]
    case Reading(m) =>
      s.(waiters := s.waiters[i := if |s.queue| == 0 then SawNoJobs(m) else Parking(m)])
    case SawNoJobs(m) =>
      if s.working == 0
      then s.(waiters := s.waiters[i := Returned(m)], countLock := Open)
      else s.(waiters := s.waiters[i := Parking(m)])
    case Parking(m) => s.(waiters := s.waiters[i := Parked(m)], countLock := Open)
    case Roused(m) => s.(waiters := s.waiters[i := Reading(m)], countLock := HeldBy(i))
    case _ => s
  }

  predicate DestroyEnabled(s: State) {
    s.destroyer.Clearing? ==> s.rw.RwFree?
  }

  function DestroyStep(s: State): State {
    match s.destroyer
    case NotCalled => s.(keepalive := false, destroyer := Testing)
    case Testing => s.(destroyer := if s.alive != 0 then PostingAll else Clearing)
    case PostingAll => s.(token := true, workers := WakeAll(s.workers), destroyer := Testing)
    case Clearing => s.(queue := [], discarded := s.queue, token := false, destroyer := Cleared)
    case Cleared => s
  }

  predicate Enabled(s: State, a: Action) {
    !s.destroyer.Cleared? &&
    match a
    case Enqueue(_) => s.rw.RwFree?
    case PostPush(k) => s.rw.RwPush? && CanSignal(s.workers, k)
    case Worker(w, k) => WorkerEnabled(s, w, k)
    case SpuriousWorker(w) => w < |s.workers| && s.workers[w] == Asleep
    case Call(i) => i < |s.waiters| && s.countLock.Open? && (s.waiters[i].Outside? || s.waiters[i].Returned?)
    case Waiter(i) => WaiterEnabled(s, i)
    case SpuriousWaiter(i) => i < |s.waiters| && s.waiters[i].Parked?
    case Destroy => DestroyEnabled(s)
  }

  function Do(s: State, a: Action): State
    requires Enabled(s, a)
  {
    match a
    case Enqueue(j) => s.(queue := Push(s.queue, j), pushed := s.pushed + [j], rw := RwPush)
    case PostPush(k) => s.(token := true, workers := Signal(s.workers, k), rw := RwFree)
    case Worker(w, k) => WorkerStep(s, w, k)
    case SpuriousWorker(w) => s.(workers := s.workers[w := Woken])
    case Call(i) => s.(waiters := s.waiters[i := Reading(|s.pushed|)], countLock := HeldBy(i))
    case Waiter(i) => WaiterStep(s, i)
    case SpuriousWaiter(i) => s.(waiters := Rouse(s.waiters, i))
    case Destroy => DestroyStep(s)
  }

  /** t is reached from s by the actions. */
  predicate Runs(s: State, actions: seq<Action>, t: State)
    decreases |actions|
  {
    if actions == [] then s == t
    else Enabled(s, actions[0]) && Runs(Do(s, actions[0]), actions[1..], t)
  }

  // ---------------------------------------------------------------- measures

  function Counted(pc: WorkerPc): nat {
    if pc.AtPull? || pc.AtPost? || pc.Executing? || pc.CountOut? then 1 else 0
  }

  function Living(pc: WorkerPc): nat {
    if pc.Gone? then 0 else 1
  }

  function Carried(pc: WorkerPc): multiset<Job> {
    if pc.AtPost? || pc.Executing? then multiset{pc.job} else multiset{}
  }

  /** The jobs pulled and not yet finished. */
  function Held(ws: seq<WorkerPc>): multiset<Job> {
    if ws == [] then multiset{} else Carried(ws[0]) + Held(ws[1..])
  }

  lemma {:induction false} HeldUpdate(ws: seq<WorkerPc>, i: nat, pc: WorkerPc)
    requires i < |ws|
    ensures Held(ws[i := pc]) + Carried(ws[i]) == Held(ws) + Carried(pc)
  {
    var vs := ws[i := pc];
    if i == 0 {
      assert vs[1..] == ws[1..];
    } else {
      assert vs[1..] == ws[1..][i - 1 := pc];
      HeldUpdate(ws[1..], i - 1, pc);
      MultisetShift(Carried(ws[0]), Held(vs[1..]), Carried(ws[i]), Held(ws[1..]), Carried(pc));
    }
  }

  lemma MultisetShift(a: multiset<Job>, x: multiset<Job>, p: multiset<Job>, y: multiset<Job>, q: multiset<Job>)
    requires x + p == y + q
    ensures (a + x) + p == (a + y) + q
  {
    assert (a + x) + p == a + (x + p);
    assert (a + y) + q == a + (y + q);
  }

  lemma {:induction false} HeldSame(ws: seq<WorkerPc>, vs: seq<WorkerPc>)
    requires |ws| == |vs|
    requires forall i :: 0 <= i < |ws| ==> Carried(ws[i]) == Carried(vs[i])
    ensures Held(ws) == Held(vs)
  {
    if ws != [] {
      assert Carried(ws[0]) == Carried(vs[0]);
      HeldSame(ws[1..], vs[1..]);
    }
  }

  /** When no worker is counted, no job is in flight. */
  lemma {:induction false} HeldIdle(ws: seq<WorkerPc>)
    requires Sum(ws, Counted) == 0
    ensures Held(ws) == multiset{}
  {
    if ws != [] {
      HeldIdle(ws[1..]);
    }
  }

  // ---------------------------------------------------------------- invariants

  /** Each lock is held by exactly the thread whose position says so. */
  ghost predicate LocksOk(s: State) {
    && (forall w :: 0 <= w < |s.workers| ==> (s.workers[w].AtPost? <==> s.rw == RwPull(w)))
    && (s.rw.RwPull? ==> s.rw.w < |s.workers|)
    && (forall i :: 0 <= i < |s.waiters| ==> (InSection(s.waiters[i]) <==> s.countLock == HeldBy(i)))
    && (s.countLock.HeldBy? ==> s.countLock.waiter < |s.waiters|)
  }

  predicate InSection(p: WaiterPc) {
    p.Reading? || p.SawNoJobs? || p.Parking?
  }

  /** num_threads_working and num_threads_alive count what they should. */
  ghost predicate CountsOk(s: State) {
    s.working == Sum(s.workers, Counted) && s.alive == Sum(s.workers, Living)
  }

  /** Conservation: pushed jobs are pulled, queued or (after a destroy) discarded, in push
      order; pulled jobs are in flight or finished. */
  ghost predicate HistoryOk(s: State) {
    && s.pushed == s.pulled + s.queue + s.discarded
    && multiset(s.pulled) == Held(s.workers) + s.finished
    && (s.discarded != [] ==> s.destroyer.Cleared?)
  }

  predicate OnTheWay(pc: WorkerPc) {
    pc.HasToken? || pc.CountIn? || pc.AtPull?
  }

  /** No job is left behind the one-bit semaphore. */
  ghost predicate Fed(s: State) {
    s.keepalive && s.queue != [] ==>
      s.token || !s.rw.RwFree? || exists w :: 0 <= w < |s.workers| && OnTheWay(s.workers[w])
  }

  /** A set bit never faces sleepers only. */
  ghost predicate Attended(s: State) {
    s.token && Asleep in s.workers ==> Woken in s.workers
  }

  ghost predicate AllDone(s: State, mark: nat)
    requires mark <= |s.pushed|
  {
    multiset(s.pushed[..mark]) <= s.finished
  }

  ghost predicate BarrierOk(s: State) {
    forall i :: 0 <= i < |s.waiters| && !s.waiters[i].Outside? ==>
      && s.waiters[i].mark <= |s.pushed|
      && (s.waiters[i].Returned? ==> AllDone(s, s.waiters[i].mark))
      && (s.waiters[i].SawNoJobs? && s.working == 0 ==> AllDone(s, s.waiters[i].mark))
  }

  ghost predicate ShutdownOk(s: State) {
    && (s.keepalive <==> s.destroyer.NotCalled?)
    && (s.keepalive ==> Gone !in s.workers && Exiting !in s.workers)
    && (s.destroyer.Clearing? || s.destroyer.Cleared? ==>
          forall w :: 0 <= w < |s.workers| ==> s.workers[w] == Gone)
  }

  ghost predicate Inv(s: State) {
    LocksOk(s) && CountsOk(s) && HistoryOk(s) && Fed(s) && Attended(s) && BarrierOk(s) && ShutdownOk(s)
  }

  /** No parked caller of thpool_wait without a job queued or running. */
  ghost predicate NoneStranded(s: State) {
    !s.destroyer.Cleared? ==>
      forall i :: 0 <= i < |s.waiters| && (s.waiters[i].Parked? || s.waiters[i].Parking?) ==>
        s.queue != [] || s.working > 0
  }

  // ---------------------------------------------------------------- every step keeps the invariants

  /** Some sleepers became awake and nothing else changed. */
  ghost predicate OnlyWakes(ws: seq<WorkerPc>, vs: seq<WorkerPc>) {
    |ws| == |vs| && forall i :: 0 <= i < |ws| ==> vs[i] == ws[i] || (ws[i] == Asleep && vs[i] == Woken)
  }

  lemma WakesKeepMeasures(ws: seq<WorkerPc>, vs: seq<WorkerPc>)
    requires OnlyWakes(ws, vs)
    ensures Sum(vs, Counted) == Sum(ws, Counted)
    ensures Sum(vs, Living) == Sum(ws, Living)
    ensures Held(vs) == Held(ws)
  {
    SumSame(vs, ws, Counted);
    SumSame(vs, ws, Living);
    HeldSame(vs, ws);
  }

  lemma SignalAt(ws: seq<WorkerPc>, k: nat)
    ensures OnlyWakes(ws, Signal(ws, k))
    ensures CanSignal(ws, k) && Asleep in Signal(ws, k) ==> Woken in Signal(ws, k)
  {
    if k < |ws| && ws[k] == Asleep {
      assert Signal(ws, k)[k] == Woken;
    }
  }

  lemma GoAt(ws: seq<WorkerPc>, w: nat, pc: WorkerPc)
    requires w < |ws|
    ensures Sum(ws[w := pc], Counted) + Counted(ws[w]) == Sum(ws, Counted) + Counted(pc)
    ensures Sum(ws[w := pc], Living) + Living(ws[w]) == Sum(ws, Living) + Living(pc)
    ensures Held(ws[w := pc]) + Carried(ws[w]) == Held(ws) + Carried(pc)
    ensures Counted(ws[w]) <= Sum(ws, Counted) && Living(ws[w]) <= Sum(ws, Living)
  {
    SumUpdate(ws, w, pc, Counted);
    SumUpdate(ws, w, pc, Living);
    HeldUpdate(ws, w, pc);
    SumAtLeast(ws, w, Counted);
    SumAtLeast(ws, w, Living);
  }

  lemma WakesAfterMove(s: State, w: nat, k: nat)
    requires WorkerEnabled(s, w, k)
    ensures OnlyWakes(s.workers[w := NextPc(s, w)], WorkerStep(s, w, k).workers)
    ensures Sum(WorkerStep(s, w, k).workers, Counted) == Sum(s.workers[w := NextPc(s, w)], Counted)
    ensures Sum(WorkerStep(s, w, k).workers, Living) == Sum(s.workers[w := NextPc(s, w)], Living)
    ensures Held(WorkerStep(s, w, k).workers) == Held(s.workers[w := NextPc(s, w)])
  {
    SignalAt(s.workers[w := NextPc(s, w)], k);
    WakesKeepMeasures(s.workers[w := NextPc(s, w)], WorkerStep(s, w, k).workers);
  }

  lemma WorkerKeepsLocks(s: State, w: nat, k: nat)
    requires LocksOk(s) && WorkerEnabled(s, w, k)
    ensures LocksOk(WorkerStep(s, w, k))
  {
    assert s.workers[w].AtPost? <==> s.rw == RwPull(w);
  }

  lemma WorkerKeepsCounts(s: State, w: nat, k: nat)
    requires CountsOk(s) && WorkerEnabled(s, w, k)
    ensures CountsOk(WorkerStep(s, w, k))
  {
    GoAt(s.workers, w, NextPc(s, w));
    WakesAfterMove(s, w, k);
  }

  lemma WorkerKeepsOrder(s: State, w: nat, k: nat)
    requires s.pushed == s.pulled + s.queue + s.discarded && WorkerEnabled(s, w, k)
    ensures var t := WorkerStep(s, w, k); t.pushed == t.pulled + t.queue + t.discarded
  {
    if s.workers[w].AtPull? && s.queue != [] {
      assert s.queue == [s.queue[0]] + s.queue[1..];
    }
  }

  lemma WorkerKeepsJobs(s: State, w: nat, k: nat)
    requires multiset(s.pulled) == Held(s.workers) + s.finished && WorkerEnabled(s, w, k)
    ensures var t := WorkerStep(s, w, k); multiset(t.pulled) == Held(t.workers) + t.finished
  {
    var t := WorkerStep(s, w, k);
    var pc, pc' := s.workers[w], NextPc(s, w);
    GoAt(s.workers, w, pc');
    WakesAfterMove(s, w, k);
    Balance(multiset(s.pulled), multiset(t.pulled), Held(s.workers), Held(t.workers),
            s.finished, t.finished, Carried(pc), Carried(pc'));
  }

  /** What leaves one multiset enters another. */
  lemma Balance(p: multiset<Job>, p': multiset<Job>, was: multiset<Job>, now: multiset<Job>,
                f: multiset<Job>, f': multiset<Job>, c: multiset<Job>, c': multiset<Job>)
    requires p == was + f && now + c == was + c' && p' + c + f == p + c' + f'
    ensures p' == now + f'
  {
    forall x ensures p'[x] == (now + f')[x] {
      assert p[x] == (was + f)[x] && (now + c)[x] == (was + c')[x];
      assert (p' + c + f)[x] == (p + c' + f')[x];
    }
  }

  lemma WorkerKeepsFed(s: State, w: nat, k: nat)
    requires LocksOk(s) && Fed(s) && WorkerEnabled(s, w, k)
    ensures Fed(WorkerStep(s, w, k))
  {
    var t := WorkerStep(s, w, k);
    if t.keepalive && t.queue != [] && !t.token && t.rw.RwFree? {
      assert s.workers[w].AtPost? <==> s.rw == RwPull(w);
      assert t.workers == s.workers[w := NextPc(s, w)];
      if OnTheWay(NextPc(s, w)) {
        assert OnTheWay(t.workers[w]);
      } else {
        var v :| 0 <= v < |s.workers| && OnTheWay(s.workers[v]);
        assert OnTheWay(t.workers[v]);
      }
    }
  }

  lemma WorkerKeepsAttended(s: State, w: nat, k: nat)
    requires Attended(s) && WorkerEnabled(s, w, k)
    ensures Attended(WorkerStep(s, w, k))
  {
    var t := WorkerStep(s, w, k);
    var moved := s.workers[w := NextPc(s, w)];
    SignalAt(moved, k);
    if t.token && Asleep in t.workers && !s.workers[w].AtPost? {
      var v :| 0 <= v < |s.workers| && t.workers[v] == Asleep;
      assert s.workers[v] == Asleep;
      var u :| 0 <= u < |s.workers| && s.workers[u] == Woken;
      assert t.workers[u] == Woken;
    }
  }

  lemma AllDoneKept(s: State, t: State, mark: nat)
    requires mark <= |s.pushed| && s.pushed <= t.pushed && s.finished <= t.finished
    requires AllDone(s, mark)
    ensures mark <= |t.pushed| && AllDone(t, mark)
  {
    assert s.pushed[..mark] == t.pushed[..mark];
  }

  /** A quiet pool has finished every job pushed so far. */
  lemma QuietMeansDone(s: State, mark: nat)
    requires CountsOk(s) && HistoryOk(s) && !s.destroyer.Cleared?
    requires s.queue == [] && s.working == 0 && mark <= |s.pushed|
    ensures AllDone(s, mark) && multiset(s.pushed) == s.finished
  {
    HeldIdle(s.workers);
    assert s.pushed == s.pulled && s.finished == multiset(s.pulled);
    assert s.pushed == s.pushed[..mark] + s.pushed[mark..];
    assert multiset(s.pushed) == multiset(s.pushed[..mark]) + multiset(s.pushed[mark..]);
  }

  lemma WorkerKeepsBarrier(s: State, w: nat, k: nat)
    requires LocksOk(s) && BarrierOk(s) && WorkerEnabled(s, w, k)
    ensures BarrierOk(WorkerStep(s, w, k))
  {
    var t := WorkerStep(s, w, k);
    forall i | 0 <= i < |t.waiters| && !t.waiters[i].Outside?
      ensures t.waiters[i].mark <= |t.pushed|
      ensures t.waiters[i].Returned? ==> AllDone(t, t.waiters[i].mark)
      ensures t.waiters[i].SawNoJobs? && t.working == 0 ==> AllDone(t, t.waiters[i].mark)
    {
      assert !s.waiters[i].Outside? && s.waiters[i].mark == t.waiters[i].mark;
      if AllDone(s, s.waiters[i].mark) {
        AllDoneKept(s, t, s.waiters[i].mark);
      }
    }
  }

  lemma WorkerKeepsShutdown(s: State, w: nat, k: nat)
    requires ShutdownOk(s) && WorkerEnabled(s, w, k)
    ensures ShutdownOk(WorkerStep(s, w, k))
  {
    var t := WorkerStep(s, w, k);
    var moved := s.workers[w := NextPc(s, w)];
    SignalAt(moved, k);
    assert s.workers[w] in s.workers;
    if s.keepalive {
      forall v | 0 <= v < |t.workers| ensures !t.workers[v].Gone? && !t.workers[v].Exiting? {
        assert t.workers[v] == moved[v] || t.workers[v] == Woken;
        assert v != w ==> moved[v] in s.workers;
      }
    }
  }

  lemma WorkerKeeps(s: State, w: nat, k: nat)
    requires Inv(s) && Enabled(s, Worker(w, k))
    ensures Inv(Do(s, Worker(w, k)))
  {
    WorkerKeepsLocks(s, w, k);
    WorkerKeepsCounts(s, w, k);
    WorkerKeepsOrder(s, w, k);
    WorkerKeepsJobs(s, w, k);
    WorkerKeepsFed(s, w, k);
    WorkerKeepsAttended(s, w, k);
    WorkerKeepsBarrier(s, w, k);
    WorkerKeepsShutdown(s, w, k);
  }

  lemma BarrierFrame(s: State, t: State)
    requires BarrierOk(s) && s.pushed <= t.pushed
    requires t.waiters == s.waiters && t.finished == s.finished && t.working == s.working
    ensures BarrierOk(t)
  {
    forall i | 0 <= i < |t.waiters| && !t.waiters[i].Outside? && AllDone(s, t.waiters[i].mark)
      ensures AllDone(t, t.waiters[i].mark)
    {
      AllDoneKept(s, t, s.waiters[i].mark);
    }
  }

  lemma PushKeeps(s: State, j: Job)
    requires Inv(s) && Enabled(s, Enqueue(j))
    ensures Inv(Do(s, Enqueue(j)))
  {
    var t := Do(s, Enqueue(j));
    BarrierFrame(s, t);
    assert t.pushed == t.pulled + t.queue + t.discarded;
  }

  /** Waking sleepers, with a possible change of the bit, the lock and the destroyer. */
  ghost predicate WakeStep(s: State, t: State) {
    && OnlyWakes(s.workers, t.workers)
    && t == s.(workers := t.workers, token := t.token, rw := t.rw, destroyer := t.destroyer)
    && (s.rw == t.rw || (s.rw.RwPush? && t.rw.RwFree?))
    && (s.destroyer == t.destroyer || (s.destroyer.PostingAll? && t.destroyer.Testing?))
    && (s.token ==> t.token)
    && (t.rw == s.rw || t.token)
    && (t.token && Asleep in t.workers ==> Woken in t.workers)
  }

  lemma WakeKeepsLocks(s: State, t: State)
    requires LocksOk(s) && WakeStep(s, t)
    ensures LocksOk(t)
  {
  }

  lemma WakeKeepsShutdown(s: State, t: State)
    requires ShutdownOk(s) && WakeStep(s, t)
    ensures ShutdownOk(t)
  {
    forall v | 0 <= v < |t.workers| && t.workers[v] != Woken ensures t.workers[v] in s.workers {
      assert t.workers[v] == s.workers[v];
    }
  }

  lemma WakeKeepsFed(s: State, t: State)
    requires Fed(s) && WakeStep(s, t)
    ensures Fed(t)
  {
    if v :| 0 <= v < |s.workers| && OnTheWay(s.workers[v]) {
      assert OnTheWay(t.workers[v]);
    }
  }

  lemma WakeKeeps(s: State, t: State)
    requires Inv(s) && WakeStep(s, t)
    ensures Inv(t)
  {
    hide LocksOk, Fed, ShutdownOk, BarrierOk;
    WakesKeepMeasures(s.workers, t.workers);
    WakeKeepsLocks(s, t);
    WakeKeepsShutdown(s, t);
    WakeKeepsFed(s, t);
    BarrierFrame(s, t);
  }

  lemma PostKeeps(s: State, k: nat)
    requires Inv(s) && Enabled(s, PostPush(k))
    ensures Inv(Do(s, PostPush(k)))
  {
    SignalAt(s.workers, k);
    WakeKeeps(s, Do(s, PostPush(k)));
  }

  lemma SpuriousKeeps(s: State, w: nat)
    requires Inv(s) && Enabled(s, SpuriousWorker(w))
    ensures Inv(Do(s, SpuriousWorker(w)))
  {
    var t := Do(s, SpuriousWorker(w));
    assert t.workers[w] == Woken;
    WakeKeeps(s, t);
  }

  lemma CallKeeps(s: State, i: nat)
    requires Inv(s) && Enabled(s, Call(i))
    ensures Inv(Do(s, Call(i)))
  {
  }

  lemma WaiterKeepsBarrier(s: State, i: nat)
    requires CountsOk(s) && HistoryOk(s) && BarrierOk(s) && Enabled(s, Waiter(i))
    ensures BarrierOk(Do(s, Waiter(i)))
  {
    hide CountsOk, HistoryOk, AllDone;
    var t := Do(s, Waiter(i));
    var m := s.waiters[i].mark;
    if s.queue == [] && s.working == 0 {
      QuietMeansDone(s, m);
    }
    forall v | 0 <= v < |t.waiters| && !t.waiters[v].Outside?
      ensures t.waiters[v].mark <= |t.pushed|
      ensures t.waiters[v].Returned? ==> AllDone(t, t.waiters[v].mark)
      ensures t.waiters[v].SawNoJobs? && t.working == 0 ==> AllDone(t, t.waiters[v].mark)
    {
      assert !s.waiters[v].Outside? && s.waiters[v].mark == t.waiters[v].mark;
      if AllDone(s, s.waiters[v].mark) {
        AllDoneKept(s, t, s.waiters[v].mark);
      }
      assert v != i ==> t.waiters[v] == s.waiters[v];
    }
  }

  lemma WaiterKeepsLocks(s: State, i: nat)
    requires LocksOk(s) && WaiterEnabled(s, i)
    ensures LocksOk(WaiterStep(s, i))
  {
  }

  /** What does not depend on the callers of thpool_wait. */
  lemma CallersAside(s: State, t: State)
    requires Inv(s) && t == s.(waiters := t.waiters, countLock := t.countLock)
    ensures CountsOk(t) && HistoryOk(t) && Fed(t) && Attended(t) && ShutdownOk(t)
  {
  }

  lemma WaiterKeeps(s: State, i: nat)
    requires Inv(s) && Enabled(s, Waiter(i))
    ensures Inv(Do(s, Waiter(i)))
  {
    hide LocksOk, CountsOk, HistoryOk, Fed, Attended, ShutdownOk, BarrierOk;
    var t := Do(s, Waiter(i));
    WaiterKeepsBarrier(s, i);
    WaiterKeepsLocks(s, i);
    assert t == s.(waiters := t.waiters, countLock := t.countLock);
    CallersAside(s, t);
  }

  lemma SpuriousWaiterKeeps(s: State, i: nat)
    requires Inv(s) && Enabled(s, SpuriousWaiter(i))
    ensures Inv(Do(s, SpuriousWaiter(i)))
  {
  }

  lemma DestroyKeeps(s: State)
    requires Inv(s) && Enabled(s, Destroy)
    ensures Inv(Do(s, Destroy))
  {
    var t := Do(s, Destroy);
    match s.destroyer {
      case PostingAll => 
        assert forall i :: 0 <= i < |t.workers| ==> t.workers[i] != Asleep;
        WakeKeeps(s, t);
      case Testing => SumZero(s.workers, Living);
      case Clearing =>
      case _ =>
    }
  }

  lemma StepKeeps(s: State, a: Action)
    requires Inv(s) && Enabled(s, a)
    ensures Inv(Do(s, a))
  {
    match a {
      case Enqueue(j) => PushKeeps(s, j);
      case PostPush(k) => PostKeeps(s, k);
      case Worker(w, k) => WorkerKeeps(s, w, k);
      case SpuriousWorker(w) => SpuriousKeeps(s, w);
      case Call(i) => CallKeeps(s, i);
      case Waiter(i) => WaiterKeeps(s, i);
      case SpuriousWaiter(i) => SpuriousWaiterKeeps(s, i);
      case Destroy => DestroyKeeps(s);
    }
  }

  lemma {:induction false} RunKeeps(s: State, actions: seq<Action>, t: State)
    requires Inv(s) && Runs(s, actions, t)
    ensures Inv(t)
    decreases |actions|
  {
    if actions != [] {
      StepKeeps(s, actions[0]);
      RunKeeps(Do(s, actions[0]), actions[1..], t);
    }
  }

  lemma {:induction false} AllStarting(n: nat)
    ensures Sum(seq(n, _ => AtLoop), Counted) == 0
    ensures Sum(seq(n, _ => AtLoop), Living) == n
    ensures Held(seq(n, _ => AtLoop)) == multiset{}
  {
    if n > 0 {
      assert seq(n, _ => AtLoop)[1..] == seq(n - 1, _ => AtLoop);
      AllStarting(n - 1);
    }
  }

  lemma InitKeeps(n: nat, w: nat)
    ensures Inv(Init(n, w))
  {
    AllStarting(n);
  }
}

/** The blocking queue as a monitor shared by any number of threads: every section under
    the mutex is one step, pthread_cond_wait parks a thread between two sections, and
    closing the queue takes four steps because its broadcasts come after the unlock. */
module QueueMonitor {
  import opened Sums
  import opened QueueSpec

  type Elem = int

  datatype Config = Config(maxEls: nat, sort: bool, asc: bool, cmp: Comparator<Elem>)

  /** GotNothing is Q_ERR_INVALID_ELEMENT: num_els is not 0, yet the chain is empty. */
  datatype GetterPc = GetIdle | GetAsleep | GetWoken | GotElement(e: Elem) | GotNoNewData | GotNothing

  datatype PutterPc = PutIdle | PutAsleep(el: Elem) | PutWoken(el: Elem) | PutOk | PutNoNewData

  /** queue_set_new_data: the flag is set, read again without the lock, then broadcast. */
  datatype CloserPc = CloseIdle | FlagSet | WakingGetters | WakingPutters

  /** The chain, num_els, whether last_el was taken out of the chain, the threads, and the
      history; `lost` are the elements that a put hung off a stale last_el. */
  datatype State = State(
    els: seq<Elem>,
    num: nat,
    stale: bool,
    newData: bool,
    getters: seq<GetterPc>,
    putters: seq<PutterPc>,
    closers: seq<CloserPc>,
    accepted: seq<Elem>,
    delivered: seq<Elem>,
    flushed: multiset<Elem>,
    lost: multiset<Elem>)

  datatype Action =
    | GetWait(i: nat, signal: nat)     // queue_get_wait, up to its return or its wait
    | ResumeGet(i: nat, signal: nat)   // a woken getter has the mutex again
    | GetNow(k: nat, signal: nat)      // queue_get or queue_get_filtered, taking element k
    | PutWait(i: nat, el: Elem, signal: nat)
    | ResumePut(i: nat, signal: nat)
    | PutNow(el: Elem, signal: nat)    // queue_put
    | Flush
    | FlushPut(el: Elem, signal: nat)
    | SetFlag(c: nat, v: bool)
    | Close(c: nat)                    // the next unlocked step of queue_set_new_data
    | SpuriousGet(i: nat)
    | SpuriousPut(i: nat)

  function Init(g: nat, p: nat, c: nat): State {
    State([], 0, false, true, seq(g, _ => GetIdle), seq(p, _ => PutIdle), seq(c, _ => CloseIdle),
          [], [], multiset{}, multiset{})
  }

  function Cap(cfg: Config): nat {
    if cfg.maxEls == 0 || cfg.maxEls > 65534 then 65534 else cfg.maxEls
  }

  /** The test of queue_put_internal. */
  predicate Full(cfg: Config, n: nat) {
    n == 65534 || (cfg.maxEls != 0 && n == cfg.maxEls)
  }

  // ---------------------------------------------------------------- signals

  predicate CanSignalGet(gs: seq<GetterPc>, k: nat) {
    (k < |gs| && gs[k].GetAsleep?) || GetAsleep !in gs
  }

  function SignalGet(gs: seq<GetterPc>, k: nat): seq<GetterPc> {
    if k < |gs| && gs[k].GetAsleep? then gs[k := GetWoken] else gs
  }

  function WakeGetters(gs: seq<GetterPc>): seq<GetterPc> {
    seq(|gs|, i requires 0 <= i < |gs| => if gs[i].GetAsleep? then GetWoken else gs[i])
  }

  predicate CanSignalPut(ps: seq<PutterPc>, k: nat) {
    (k < |ps| && ps[k].PutAsleep?) || NoPutterAsleep(ps)
  }

  predicate NoPutterAsleep(ps: seq<PutterPc>) {
    forall i :: 0 <= i < |ps| ==> !ps[i].PutAsleep?
  }

  function SignalPut(ps: seq<PutterPc>, k: nat): seq<PutterPc> {
    if k < |ps| && ps[k].PutAsleep? then ps[k := PutWoken(ps[k].el)] else ps
  }

  function WakePutters(ps: seq<PutterPc>): seq<PutterPc> {
    seq(|ps|, i requires 0 <= i < |ps| => if ps[i].PutAsleep? then PutWoken(ps[i].el) else ps[i])
  }

  // ---------------------------------------------------------------- sections under the mutex

  /** The insertion of a put and its signal. Only an unsorted put goes through last_el; a
      sorted one that lands at the end sets it. */
  function Accept(cfg: Config, s: State, el: Elem, k: nat): State {
    var kept := cfg.sort || !s.stale;
    s.(els := if kept then Inserted(s.els, el, cfg.sort, cfg.asc, cfg.cmp) else s.els,
       num := s.num + 1,
       stale := s.stale && !(cfg.sort && Place(s.els, el, cfg.asc, cfg.cmp) == |s.els|),
       accepted := s.accepted + [el],
       lost := if kept then s.lost else s.lost + multiset{el},
       getters := SignalGet(s.getters, k))
  }

  /** The removal of element k by a get and its signal. */
  function Deliver(s: State, k: nat, signal: nat): State
    requires k < |s.els| <= s.num
  {
    s.(els := RemoveAt(s.els, k), num := s.num - 1,
       stale := |s.els| > 1 && (s.stale || k == |s.els| - 1),
       delivered := s.delivered + [s.els[k]], putters := SignalPut(s.putters, signal))
  }

  /** A waiting get from its first test, or from the test after a wake-up. */
  function GetSection(s: State, i: nat, signal: nat): State
    requires i < |s.getters| && |s.els| <= s.num
  {
    if s.num == 0 then s.(getters := s.getters[i := if s.newData then GetAsleep else GotNoNewData])
    else if s.els == [] then s.(getters := s.getters[i := GotNothing])
    else Deliver(s, 0, signal).(getters := s.getters[i := GotElement(s.els[0])])
  }

  /** A waiting put, likewise. */
  function PutSection(cfg: Config, s: State, i: nat, el: Elem, signal: nat): State
    requires i < |s.putters|
  {
    if !s.newData then s.(putters := s.putters[i := PutNoNewData])
    else if Full(cfg, s.num) then s.(putters := s.putters[i := PutAsleep(el)])
    else Accept(cfg, s, el, signal).(putters := s.putters[i := PutOk])
  }

  function Emptied(s: State): State {
    s.(els := [], num := 0, stale := false, flushed := s.flushed + multiset(s.els))
  }

  function CloseStep(s: State, c: nat): State
    requires c < |s.closers|
  {
    match s.closers[c]
    case FlagSet => s.(closers := s.closers[c := if s.newData then CloseIdle else WakingGetters])
    case WakingGetters => s.(getters := WakeGetters(s.getters), closers := s.closers[c := WakingPutters])
    case WakingPutters => s.(putters := WakePutters(s.putters), closers := s.closers[c := CloseIdle])
    case CloseIdle => s
  }

  predicate Enabled(cfg: Config, s: State, a: Action) {
    |s.els| <= s.num &&
    match a
    case GetWait(i, k) =>
      i < |s.getters| && !s.getters[i].GetAsleep? && !s.getters[i].GetWoken? && CanSignalPut(s.putters, k)
    case ResumeGet(i, k) => i < |s.getters| && s.getters[i].GetWoken? && CanSignalPut(s.putters, k)
    case GetNow(n, k) => n < |s.els| && CanSignalPut(s.putters, k)
    case PutWait(i, _, k) =>
      i < |s.putters| && !s.putters[i].PutAsleep? && !s.putters[i].PutWoken? && CanSignalGet(s.getters, k)
    case ResumePut(i, k) => i < |s.putters| && s.putters[i].PutWoken? && CanSignalGet(s.getters, k)
    case PutNow(_, k) => s.newData && !Full(cfg, s.num) && CanSignalGet(s.getters, k)
    case Flush => true
    case FlushPut(_, k) => CanSignalGet(s.getters, k)
    case SetFlag(c, _) => c < |s.closers| && s.closers[c].CloseIdle?
    case Close(c) => c < |s.closers| && !s.closers[c].CloseIdle?
    case SpuriousGet(i) => i < |s.getters| && s.getters[i].GetAsleep?
    case SpuriousPut(i) => i < |s.putters| && s.putters[i].PutAsleep?
  }

  function Do(cfg: Config, s: State, a: Action): State
    requires Enabled(cfg, s, a)
  {
    match a
    case GetWait(i, k) => GetSection(s, i, k)
    case ResumeGet(i, k) => GetSection(s, i, k)
    case GetNow(n, k) => Deliver(s, n, k)
    case PutWait(i, el, k) => PutSection(cfg, s, i, el, k)
    case ResumePut(i, k) => PutSection(cfg, s, i, s.putters[i].el, k)
    case PutNow(el, k) => Accept(cfg, s, el, k)
    case Flush => Emptied(s)
    case FlushPut(el, k) => if s.newData then Accept(cfg, Emptied(s), el, k) else Emptied(s)
    case SetFlag(c, v) => s.(newData := v, closers := s.closers[c := FlagSet])
    case Close(c) => CloseStep(s, c)
    case SpuriousGet(i) => s.(getters := SignalGet(s.getters, i))
    case SpuriousPut(i) => s.(putters := SignalPut(s.putters, i))
  }

  /** What a run may contain: flushes, flushes followed by a put, and reopening. */
  datatype Scope = Scope(flush: bool, flushPut: bool, reopen: bool)

  const ALL := Scope(true, true, true)

  predicate Within(m: Scope, s: State, a: Action) {
    && (a.Flush? ==> m.flush)
    && (a.FlushPut? ==> m.flushPut)
    && (a.SetFlag? && a.v && !s.newData ==> m.reopen)
  }

  predicate Runs(cfg: Config, m: Scope, s: State, actions: seq<Action>, t: State)
    decreases |actions|
  {
    if actions == [] then s == t
    else
      && Enabled(cfg, s, actions[0]) && Within(m, s, actions[0])
      && Runs(cfg, m, Do(cfg, s, actions[0]), actions[1..], t)
  }

  ghost predicate Reachable(cfg: Config, m: Scope, g: nat, p: nat, c: nat, t: State) {
    exists actions :: Runs(cfg, m, Init(g, p, c), actions, t)
  }

  // ---------------------------------------------------------------- invariants

  function GetterRoused(g: GetterPc): nat { if g.GetWoken? then 1 else 0 }

  function PutterRoused(p: PutterPc): nat { if p.PutWoken? then 1 else 0 }

  /** Sleeping getters leave no element to anyone but the getters already signalled. */
  ghost predicate GettersServed(s: State) {
    GetAsleep in s.getters ==> |s.els| <= Sum(s.getters, GetterRoused)
  }

  /** While the queue is open, sleeping putters leave no free slot to anyone but the
      putters already signalled. */
  ghost predicate PuttersServed(cfg: Config, s: State) {
    s.newData ==> NoPutterAsleep(s.putters) || Cap(cfg) - s.num <= Sum(s.putters, PutterRoused)
  }

  /** While the flag is 0 a sleeper has a broadcast coming. */
  ghost predicate ClosersOk(s: State) {
    && (!s.newData && GetAsleep in s.getters ==> FlagSet in s.closers || WakingGetters in s.closers)
    && (!s.newData && !NoPutterAsleep(s.putters) ==>
          FlagSet in s.closers || WakingGetters in s.closers || WakingPutters in s.closers)
  }

  /** Nothing is made up, the limit holds, and num_els is off by no more than was lost. */
  ghost predicate ContentsOk(cfg: Config, s: State) {
    && |s.els| <= s.num <= |s.els| + |s.lost|
    && s.num <= Cap(cfg)
    && (s.stale ==> s.els != [])
    && multiset(s.accepted) == multiset(s.delivered) + multiset(s.els) + s.flushed + s.lost
  }

  lemma InsertedSize(cfg: Config, xs: seq<Elem>, el: Elem)
    ensures |Inserted(xs, el, cfg.sort, cfg.asc, cfg.cmp)| == |xs| + 1
    ensures multiset(Inserted(xs, el, cfg.sort, cfg.asc, cfg.cmp)) == multiset(xs) + multiset{el}
  {
    InsertionAdds(xs, if cfg.sort then Place(xs, el, cfg.asc, cfg.cmp) else |xs|, el);
  }

  lemma RemovedSize(xs: seq<Elem>, k: nat)
    requires k < |xs|
    ensures |RemoveAt(xs, k)| == |xs| - 1
    ensures multiset(xs) == multiset(RemoveAt(xs, k)) + multiset{xs[k]}
  {
    assert xs == xs[..k] + [xs[k]] + xs[k + 1..];
  }

  lemma SignalGetAt(gs: seq<GetterPc>, k: nat)
    ensures |SignalGet(gs, k)| == |gs|
    ensures Sum(SignalGet(gs, k), GetterRoused) ==
            Sum(gs, GetterRoused) + if k < |gs| && gs[k].GetAsleep? then 1 else 0
    ensures GetAsleep in SignalGet(gs, k) ==> GetAsleep in gs
  {
    if k < |gs| && gs[k].GetAsleep? {
      SumUpdate(gs, k, GetWoken, GetterRoused);
      assert gs[k] in gs;
    }
  }

  lemma SignalPutAt(ps: seq<PutterPc>, k: nat)
    ensures |SignalPut(ps, k)| == |ps|
    ensures Sum(SignalPut(ps, k), PutterRoused) ==
            Sum(ps, PutterRoused) + if k < |ps| && ps[k].PutAsleep? then 1 else 0
    ensures NoPutterAsleep(ps) ==> NoPutterAsleep(SignalPut(ps, k))
  {
    if k < |ps| && ps[k].PutAsleep? {
      SumUpdate(ps, k, PutWoken(ps[k].el), PutterRoused);
    }
  }

  ghost predicate Inv(cfg: Config, s: State) {
    ContentsOk(cfg, s) && GettersServed(s) && ClosersOk(s)
  }

  lemma AcceptKeepsContents(cfg: Config, s: State, el: Elem, k: nat)
    requires ContentsOk(cfg, s) && !Full(cfg, s.num)
    ensures ContentsOk(cfg, Accept(cfg, s, el, k))
    ensures |Accept(cfg, s, el, k).els| <= |s.els| + 1
  {
    InsertedSize(cfg, s.els, el);
  }

  lemma DeliverKeepsContents(cfg: Config, s: State, k: nat, signal: nat)
    requires ContentsOk(cfg, s) && k < |s.els|
    ensures ContentsOk(cfg, Deliver(s, k, signal)) && |Deliver(s, k, signal).els| == |s.els| - 1
  {
    RemovedSize(s.els, k);
  }

  lemma GetterMoves(gs: seq<GetterPc>, i: nat, g: GetterPc)
    requires i < |gs|
    ensures Sum(gs[i := g], GetterRoused) + GetterRoused(gs[i]) == Sum(gs, GetterRoused) + GetterRoused(g)
    ensures g != GetAsleep && GetAsleep in gs[i := g] ==> GetAsleep in gs
  {
    SumUpdate(gs, i, g, GetterRoused);
  }

  lemma PutterMoves(ps: seq<PutterPc>, i: nat, p: PutterPc)
    requires i < |ps|
    ensures Sum(ps[i := p], PutterRoused) + PutterRoused(ps[i]) == Sum(ps, PutterRoused) + PutterRoused(p)
    ensures !p.PutAsleep? && NoPutterAsleep(ps) ==> NoPutterAsleep(ps[i := p])
    ensures !ps[i].PutAsleep? && NoPutterAsleep(ps[i := p]) ==> NoPutterAsleep(ps)
  {
    SumUpdate(ps, i, p, PutterRoused);
    assert forall j :: 0 <= j < |ps| && j != i ==> ps[i := p][j] == ps[j];
  }

  lemma GetSectionKeeps(cfg: Config, s: State, i: nat, k: nat)
    requires Inv(cfg, s) && i < |s.getters| && !s.getters[i].GetAsleep? && CanSignalPut(s.putters, k)
    ensures Inv(cfg, GetSection(s, i, k))
    ensures PuttersServed(cfg, s) ==> PuttersServed(cfg, GetSection(s, i, k))
  {
    var t := GetSection(s, i, k);
    GetterMoves(s.getters, i, t.getters[i]);
    SignalPutAt(s.putters, k);
    if s.els != [] {
      DeliverKeepsContents(cfg, s, 0, k);
    }
  }

  lemma GetNowKeeps(cfg: Config, s: State, n: nat, k: nat)
    requires Inv(cfg, s) && n < |s.els| && CanSignalPut(s.putters, k)
    ensures Inv(cfg, Deliver(s, n, k))
    ensures PuttersServed(cfg, s) ==> PuttersServed(cfg, Deliver(s, n, k))
  {
    DeliverKeepsContents(cfg, s, n, k);
    SignalPutAt(s.putters, k);
  }

  lemma AcceptKeeps(cfg: Config, s: State, el: Elem, k: nat)
    requires Inv(cfg, s) && !Full(cfg, s.num) && CanSignalGet(s.getters, k)
    ensures Inv(cfg, Accept(cfg, s, el, k))
    ensures PuttersServed(cfg, s) ==> PuttersServed(cfg, Accept(cfg, s, el, k))
  {
    AcceptKeepsContents(cfg, s, el, k);
    SignalGetAt(s.getters, k);
  }

  lemma PutSectionKeeps(cfg: Config, s: State, i: nat, el: Elem, k: nat)
    requires Inv(cfg, s) && i < |s.putters| && !s.putters[i].PutAsleep? && CanSignalGet(s.getters, k)
    ensures Inv(cfg, PutSection(cfg, s, i, el, k))
    ensures PuttersServed(cfg, s) ==> PuttersServed(cfg, PutSection(cfg, s, i, el, k))
  {
    var t := PutSection(cfg, s, i, el, k);
    PutterMoves(s.putters, i, t.putters[i]);
    if s.newData && !Full(cfg, s.num) {
      AcceptKeeps(cfg, s, el, k);
    }
  }

  lemma EmptiedKeeps(cfg: Config, s: State)
    requires Inv(cfg, s)
    ensures Inv(cfg, Emptied(s))
  {
  }

  lemma ClosersMove(cs: seq<CloserPc>, c: nat, p: CloserPc, q: CloserPc)
    requires c < |cs|
    ensures p in cs[c := p]
    ensures q in cs && q != cs[c] ==> q in cs[c := p]
  {
    assert cs[c := p][c] == p;
    if q in cs && q != cs[c] {
      var j :| 0 <= j < |cs| && cs[j] == q;
      assert cs[c := p][j] == q;
    }
  }

  lemma NobodySleepsOn(gs: seq<GetterPc>, ps: seq<PutterPc>)
    ensures GetAsleep !in WakeGetters(gs) && NoPutterAsleep(WakePutters(ps))
  {
  }

  lemma CloseKeepsClosers(s: State, c: nat)
    requires ClosersOk(s) && c < |s.closers| && !s.closers[c].CloseIdle?
    ensures ClosersOk(CloseStep(s, c))
  {
    hide WakeGetters, WakePutters, NoPutterAsleep;
    var t := CloseStep(s, c);
    NobodySleepsOn(s.getters, s.putters);
    ClosersMove(s.closers, c, t.closers[c], FlagSet);
    ClosersMove(s.closers, c, t.closers[c], WakingGetters);
    ClosersMove(s.closers, c, t.closers[c], WakingPutters);
  }

  lemma CloseKeeps(cfg: Config, s: State, c: nat)
    requires Inv(cfg, s) && c < |s.closers| && !s.closers[c].CloseIdle?
    ensures Inv(cfg, CloseStep(s, c))
    ensures PuttersServed(cfg, s) ==> PuttersServed(cfg, CloseStep(s, c))
  {
    hide ClosersOk, WakeGetters, WakePutters, NoPutterAsleep;
    CloseKeepsClosers(s, c);
    NobodySleepsOn(s.getters, s.putters);
  }

  lemma SetFlagKeeps(cfg: Config, s: State, c: nat, v: bool)
    requires Inv(cfg, s) && Enabled(cfg, s, SetFlag(c, v))
    ensures Inv(cfg, Do(cfg, s, SetFlag(c, v)))
  {
    ClosersMove(s.closers, c, FlagSet, FlagSet);
  }

  lemma SpuriousKeeps(cfg: Config, s: State, i: nat)
    requires Inv(cfg, s)
    ensures Inv(cfg, s.(getters := SignalGet(s.getters, i))) && Inv(cfg, s.(putters := SignalPut(s.putters, i)))
    ensures PuttersServed(cfg, s) ==> PuttersServed(cfg, s.(putters := SignalPut(s.putters, i)))
  {
    SignalGetAt(s.getters, i);
    SignalPutAt(s.putters, i);
  }

  lemma FlushPutKeeps(cfg: Config, s: State, el: Elem, k: nat)
    requires Inv(cfg, s) && CanSignalGet(s.getters, k)
    ensures Inv(cfg, Do(cfg, s, FlushPut(el, k)))
    ensures Cap(cfg) == 1 ==> PuttersServed(cfg, Do(cfg, s, FlushPut(el, k)))
  {
    EmptiedKeeps(cfg, s);
    if s.newData {
      AcceptKeeps(cfg, Emptied(s), el, k);
    }
  }

  lemma StepKeeps(cfg: Config, s: State, a: Action)
    requires Inv(cfg, s) && Enabled(cfg, s, a)
    ensures Inv(cfg, Do(cfg, s, a))
    ensures PuttersServed(cfg, s) && Within(Scope(false, false, false), s, a) ==> PuttersServed(cfg, Do(cfg, s, a))
  {
    match a {
      case GetWait(i, k) => GetSectionKeeps(cfg, s, i, k);
      case ResumeGet(i, k) => GetSectionKeeps(cfg, s, i, k);
      case GetNow(n, k) => GetNowKeeps(cfg, s, n, k);
      case PutWait(i, el, k) => PutSectionKeeps(cfg, s, i, el, k);
      case ResumePut(i, k) => PutSectionKeeps(cfg, s, i, s.putters[i].el, k);
      case PutNow(el, k) => AcceptKeeps(cfg, s, el, k);
      case Flush => EmptiedKeeps(cfg, s);
      case FlushPut(el, k) => FlushPutKeeps(cfg, s, el, k);
      case SetFlag(c, v) => SetFlagKeeps(cfg, s, c, v);
      case Close(c) => CloseKeeps(cfg, s, c);
      case SpuriousGet(i) => SpuriousKeeps(cfg, s, i);
      case SpuriousPut(i) => SpuriousKeeps(cfg, s, i);
    }
  }

  lemma {:induction false} RunKeeps(cfg: Config, m: Scope, s: State, actions: seq<Action>, t: State)
    requires Inv(cfg, s) && Runs(cfg, m, s, actions, t)
    ensures Inv(cfg, t)
    ensures |t.getters| == |s.getters| && |t.putters| == |s.putters| && |t.closers| == |s.closers|
    decreases |actions|
  {
    if actions != [] {
      StepKeeps(cfg, s, actions[0]);
      StepKeepsThreads(cfg, s, actions[0]);
      RunKeeps(cfg, m, Do(cfg, s, actions[0]), actions[1..], t);
    }
  }

  /** No thread comes or goes. */
  ghost predicate SameThreads(s: State, t: State) {
    |t.getters| == |s.getters| && |t.putters| == |s.putters| && |t.closers| == |s.closers|
  }

  lemma GetKeepsThreads(s: State, i: nat, k: nat)
    requires i < |s.getters| && |s.els| <= s.num
    ensures SameThreads(s, GetSection(s, i, k))
  {
  }

  lemma PutKeepsThreads(cfg: Config, s: State, i: nat, el: Elem, k: nat)
    requires i < |s.putters|
    ensures SameThreads(s, PutSection(cfg, s, i, el, k))
  {
  }

  lemma CloseKeepsThreads(s: State, c: nat)
    requires c < |s.closers|
    ensures SameThreads(s, CloseStep(s, c))
  {
  }

  lemma StepKeepsThreads(cfg: Config, s: State, a: Action)
    requires Enabled(cfg, s, a)
    ensures SameThreads(s, Do(cfg, s, a))
  {
    match a {
      case GetWait(i, k) => GetKeepsThreads(s, i, k);
      case ResumeGet(i, k) => GetKeepsThreads(s, i, k);
      case PutWait(i, el, k) => PutKeepsThreads(cfg, s, i, el, k);
      case ResumePut(i, k) => PutKeepsThreads(cfg, s, i, s.putters[i].el, k);
      case Close(c) => CloseKeepsThreads(s, c);
      case _ => OthersKeepThreads(cfg, s, a);
    }
  }

  lemma OthersKeepThreads(cfg: Config, s: State, a: Action)
    requires Enabled(cfg, s, a)
    requires !a.GetWait? && !a.ResumeGet? && !a.PutWait? && !a.ResumePut? && !a.Close?
    ensures SameThreads(s, Do(cfg, s, a))
  {
  }

  lemma {:induction false} NobodyRoused(n: nat)
    ensures Sum(seq(n, _ => GetIdle), GetterRoused) == 0
    ensures Sum(seq(n, _ => PutIdle), PutterRoused) == 0
  {
    SumZero(seq(n, _ => GetIdle), GetterRoused);
    SumZero(seq(n, _ => PutIdle), PutterRoused);
  }

  lemma InitKeeps(cfg: Config, g: nat, p: nat, c: nat)
    ensures Inv(cfg, Init(g, p, c)) && PuttersServed(cfg, Init(g, p, c))
  {
    NobodyRoused(g);
    NobodyRoused(p);
  }

  lemma ReachableInv(cfg: Config, m: Scope, g: nat, p: nat, c: nat, t: State)
    requires Reachable(cfg, m, g, p, c, t)
    ensures Inv(cfg, t) && |t.getters| == g && |t.putters| == p && |t.closers| == c
  {
    var actions :| Runs(cfg, m, Init(g, p, c), actions, t);
    InitKeeps(cfg, g, p, c);
    RunKeeps(cfg, m, Init(g, p, c), actions, t);
  }

  lemma {:induction false} RunThen(cfg: Config, m: Scope, s: State, actions: seq<Action>, t: State, a: Action)
    requires Runs(cfg, m, s, actions, t) && Enabled(cfg, t, a) && Within(m, t, a)
    ensures Runs(cfg, m, s, actions + [a], Do(cfg, t, a))
    decreases |actions|
  {
    if actions == [] {
      assert [a][1..] == [];
      assert Runs(cfg, m, Do(cfg, s, a), [a][1..], Do(cfg, t, a));
    } else {
      RunThen(cfg, m, Do(cfg, s, actions[0]), actions[1..], t, a);
      assert (actions + [a])[1..] == actions[1..] + [a];
    }
  }

  lemma Then(cfg: Config, m: Scope, g: nat, p: nat, c: nat, s: State, a: Action) returns (t: State)
    requires Reachable(cfg, m, g, p, c, s) && Enabled(cfg, s, a) && Within(m, s, a)
    ensures Reachable(cfg, m, g, p, c, t) && t == Do(cfg, s, a)
  {
    var actions :| Runs(cfg, m, Init(g, p, c), actions, s);
    RunThen(cfg, m, Init(g, p, c), actions, s, a);
    t := Do(cfg, s, a);
  }

  // ---------------------------------------------------------------- what every call meets

  /** A waiting get that has the mutex, called just now or woken, falls asleep if and only if
      it finds the queue open and num_els 0; it gives up if and only if it finds the queue
      closed and num_els 0; otherwise it returns the first element of the chain, which is
      missing only after a loss. */
  lemma GetMeets(cfg: Config, m: Scope, g: nat, p: nat, c: nat, s: State, a: Action, i: nat)
    requires Reachable(cfg, m, g, p, c, s) && Enabled(cfg, s, a) && GetsOf(a, i)
    ensures i < g
    ensures var r := Do(cfg, s, a).getters[i];
            && (r == GetAsleep <==> s.num == 0 && s.newData)
            && (r == GotNoNewData <==> s.num == 0 && !s.newData)
            && (r == GotNothing <==> s.num > 0 && s.els == [])
            && (forall e :: r == GotElement(e) <==> s.els != [] && e == s.els[0])
            && r in [GetAsleep, GotNoNewData, GotNothing] + if s.els == [] then [] else [GotElement(s.els[0])]
  {
    ReachableInv(cfg, m, g, p, c, s);
  }

  /** There is room below 65534 elements and below the limit of the queue, if it has one. A
      waiting put falls asleep if and only if it finds the queue open and without room, gives
      up if and only if it finds it closed, and is accepted if and only if it finds it open and
      with room; only then it changes the queue. */
  lemma PutMeets(cfg: Config, m: Scope, g: nat, p: nat, c: nat, s: State, a: Action, i: nat, el: Elem)
    requires Reachable(cfg, m, g, p, c, s) && Enabled(cfg, s, a) && PutsOf(s, a, i, el)
    ensures i < p
    ensures var r, t := Do(cfg, s, a).putters[i], Do(cfg, s, a);
            var room := s.num < 65534 && (cfg.maxEls == 0 || s.num < cfg.maxEls);
            && (r == PutAsleep(el) <==> s.newData && !room)
            && (r == PutNoNewData <==> !s.newData)
            && (r == PutOk <==> s.newData && room)
            && r in [PutAsleep(el), PutNoNewData, PutOk]
            && t.num == (if r == PutOk then s.num + 1 else s.num)
            && t.accepted == (if r == PutOk then s.accepted + [el] else s.accepted)
            && (r != PutOk ==> t.els == s.els && t.lost == s.lost)
  {
    ReachableInv(cfg, m, g, p, c, s);
  }

  /** The action is a section of putter i in queue_put_wait for the element. */
  predicate PutsOf(s: State, a: Action, i: nat, el: Elem) {
    || (a.PutWait? && a.i == i && a.el == el)
    || (a.ResumePut? && a.i == i && i < |s.putters| && s.putters[i] == PutWoken(el))
  }

  /** Nothing but the mutex keeps a thread from its call: a thread that is not inside one can
      start any waiting get or put, whatever the state of the queue; a woken one can go on; a
      sleeper may wake without a signal;
      queue_put succeeds if and only if the queue is open and has room, and queue_get takes
      any element it is asked for. */
  lemma EveryCallIsTaken(cfg: Config, m: Scope, g: nat, p: nat, c: nat, s: State) returns (gs: nat, ps: nat)
    requires Reachable(cfg, m, g, p, c, s)
    ensures |s.getters| == g && |s.putters| == p && |s.closers| == c
    ensures forall i :: 0 <= i < g && !s.getters[i].GetAsleep? && !s.getters[i].GetWoken? ==> Enabled(cfg, s, GetWait(i, ps))
    ensures forall i :: 0 <= i < g && s.getters[i].GetWoken? ==> Enabled(cfg, s, ResumeGet(i, ps))
    ensures forall i, el :: 0 <= i < p && !s.putters[i].PutAsleep? && !s.putters[i].PutWoken? ==> Enabled(cfg, s, PutWait(i, el, gs))
    ensures forall i :: 0 <= i < p && s.putters[i].PutWoken? ==> Enabled(cfg, s, ResumePut(i, gs))
    ensures forall el :: Enabled(cfg, s, PutNow(el, gs)) <==>
              s.newData && s.num < 65534 && (cfg.maxEls == 0 || s.num < cfg.maxEls)
    ensures forall n :: 0 <= n < |s.els| ==> Enabled(cfg, s, GetNow(n, ps))
    ensures Enabled(cfg, s, Flush) && forall el :: Enabled(cfg, s, FlushPut(el, gs))
    ensures forall k, v :: 0 <= k < c ==> (Enabled(cfg, s, SetFlag(k, v)) <==> s.closers[k].CloseIdle?)
    ensures forall k :: 0 <= k < c ==> (Enabled(cfg, s, Close(k)) <==> !s.closers[k].CloseIdle?)
    ensures forall i :: 0 <= i < g ==> (Enabled(cfg, s, SpuriousGet(i)) <==> s.getters[i].GetAsleep?)
    ensures forall i :: 0 <= i < p ==> (Enabled(cfg, s, SpuriousPut(i)) <==> s.putters[i].PutAsleep?)
  {
    ReachableInv(cfg, m, g, p, c, s);
    gs, ps := SomeSignals(s);
  }

  lemma SomeSignals(s: State) returns (g: nat, p: nat)
    ensures CanSignalGet(s.getters, g) && CanSignalPut(s.putters, p)
  {
    g, p := 0, 0;
    if GetAsleep in s.getters {
      g :| 0 <= g < |s.getters| && s.getters[g] == GetAsleep;
    }
    if v :| 0 <= v < |s.putters| && s.putters[v].PutAsleep? {
      p := v;
    }
  }

  /** What queue_put, queue_get, the two flushes and queue_set_new_data do to the state. */
  lemma CallsChange(cfg: Config, s: State, a: Action)
    requires Enabled(cfg, s, a)
    ensures var t := Do(cfg, s, a);
            && (a.PutNow? ==> t.num == s.num + 1 && t.accepted == s.accepted + [a.el])
            && (a.GetNow? ==> t.num == s.num - 1 && t.delivered == s.delivered + [s.els[a.k]])
            && (a.Flush? ==> t.num == 0 && t.els == [] && t.flushed == s.flushed + multiset(s.els))
            && (a.FlushPut? ==> t.els == (if s.newData then [a.el] else []) && t.num == |t.els|)
            && (a.SetFlag? ==> t.newData == a.v && t.els == s.els && t.num == s.num)
  {
    hide Place, Inserted, Full, CanSignalGet, CanSignalPut;
    match a {
      case FlushPut(el, _) => InsertedEmpty(cfg, el);
      case _ =>
    }
  }

  lemma InsertedEmpty(cfg: Config, el: Elem)
    ensures Inserted([], el, cfg.sort, cfg.asc, cfg.cmp) == [el]
  {
  }

  /** last_el turns stale when a get takes the last of several elements and stays so, sections
      of waiting calls included, until the chain is empty, a flush empties it, or a sorted put
      lands at its end. In between a put reaches the chain if and only if the queue is sorted. */
  lemma StaleChanges(cfg: Config, m: Scope, g: nat, p: nat, c: nat, s: State, a: Action)
    requires Reachable(cfg, m, g, p, c, s) && Enabled(cfg, s, a) && !a.Flush? && !a.FlushPut?
    ensures var t := Do(cfg, s, a);
            && (t.num > s.num ==>
                  && (t.els == s.els <==> s.stale && !cfg.sort)
                  && |t.accepted| == |s.accepted| + 1
                  && (t.stale <==>
                        s.stale && (cfg.sort ==> Place(s.els, t.accepted[|s.accepted|], cfg.asc, cfg.cmp) < |s.els|)))
            && (t.num < s.num ==>
                  (t.stale <==> t.els != [] && (s.stale || (a.GetNow? && a.k == |s.els| - 1))))
            && (t.num == s.num ==> t.stale == s.stale && t.els == s.els)
  {
    ReachableInv(cfg, m, g, p, c, s);
    hide Place, Inserted, Reachable;
    InsertedSizes(cfg, s.els);
    match a {
      case GetWait(i, k) => StaleAfterGet(s, i, k);
      case ResumeGet(i, k) => StaleAfterGet(s, i, k);
      case _ =>
    }
  }

  lemma InsertedSizes(cfg: Config, xs: seq<Elem>)
    ensures forall el :: |Inserted(xs, el, cfg.sort, cfg.asc, cfg.cmp)| == |xs| + 1
  {
  }

  lemma StaleAfterGet(s: State, i: nat, k: nat)
    requires i < |s.getters| && |s.els| <= s.num && (s.stale ==> s.els != [])
    ensures var t := GetSection(s, i, k);
            && (t.num < s.num ==> (t.stale <==> t.els != [] && s.stale))
            && (t.num == s.num ==> t.stale == s.stale && t.els == s.els)
            && t.num <= s.num
  {
  }

  // ---------------------------------------------------------------- elements

  /** In every run sleeping getters see at most as many elements as there are signalled
      getters on their way; elements are delivered, queued, flushed or lost, and the limit of
      the queue holds. Without a loss num_els is the number of elements. */
  lemma GettersNeverMissElements(cfg: Config, m: Scope, g: nat, p: nat, c: nat, t: State)
    requires Reachable(cfg, m, g, p, c, t)
    ensures GetAsleep in t.getters ==> |t.els| <= Sum(t.getters, GetterRoused)
    ensures |t.els| <= t.num <= 65534 && (cfg.maxEls != 0 ==> t.num <= cfg.maxEls)
    ensures multiset(t.accepted) == multiset(t.delivered) + multiset(t.els) + t.flushed + t.lost
    ensures t.lost == multiset{} ==> t.num == |t.els|
  {
    ReachableInv(cfg, m, g, p, c, t);
  }

  ghost predicate NoneLost(cfg: Config, s: State) {
    s.lost == multiset{} && (cfg.sort || (Cap(cfg) == 1 && !s.stale))
  }

  lemma {:induction false} RunKeepsNoneLost(cfg: Config, m: Scope, s: State, actions: seq<Action>, t: State)
    requires Inv(cfg, s) && Runs(cfg, m, s, actions, t) && NoneLost(cfg, s)
    ensures NoneLost(cfg, t)
    decreases |actions|
  {
    if actions != [] {
      StepKeeps(cfg, s, actions[0]);
      assert NoneLost(cfg, Do(cfg, s, actions[0]));
      RunKeepsNoneLost(cfg, m, Do(cfg, s, actions[0]), actions[1..], t);
    }
  }

  lemma TwoQueued(cfg: Config, m: Scope, g: nat, p: nat, c: nat) returns (t: State)
    requires !cfg.sort && Cap(cfg) >= 2
    ensures Reachable(cfg, m, g, p, c, t)
    ensures t == Init(g, p, c).(els := [1, 2], num := 2, accepted := [1, 2])
  {
    t := Init(g, p, c);
    assert Runs(cfg, m, t, [], t);
    t := Then(cfg, m, g, p, c, t, PutNow(1, 0));
    assert t.els == [1];
    t := Then(cfg, m, g, p, c, t, PutNow(2, 0));
    assert t.els == [1, 2] && t.accepted == [1, 2];
  }

  /** A filtered get takes the second of two elements, and the next put is lost. */
  lemma FilteredGetLosesAPut(cfg: Config, m: Scope, g: nat, p: nat, c: nat) returns (t: State)
    requires !cfg.sort && Cap(cfg) >= 2
    ensures Reachable(cfg, m, g, p, c, t) && t.accepted == [1, 2, 3] && t.delivered == [2]
    ensures t.els == [1] && t.num == 2 && t.lost == multiset{3}
  {
    t := TwoQueued(cfg, m, g, p, c);
    t := Then(cfg, m, g, p, c, t, GetNow(1, 0));
    assert t.els == [1] && t.stale;
    t := Then(cfg, m, g, p, c, t, PutNow(3, 0));
  }

  /** No run of any threads loses an accepted element exactly when the queue is sorted or
      holds one element only. */
  lemma NothingLostIff(cfg: Config, g: nat, p: nat, c: nat)
    ensures (forall t :: Reachable(cfg, ALL, g, p, c, t) ==> t.lost == multiset{}) <==>
            cfg.sort || Cap(cfg) == 1
  {
    if cfg.sort || Cap(cfg) == 1 {
      forall t | Reachable(cfg, ALL, g, p, c, t) ensures t.lost == multiset{} {
        var actions :| Runs(cfg, ALL, Init(g, p, c), actions, t);
        InitKeeps(cfg, g, p, c);
        RunKeepsNoneLost(cfg, ALL, Init(g, p, c), actions, t);
      }
    } else {
      var t := FilteredGetLosesAPut(cfg, ALL, g, p, c);
      assert 3 in t.lost;
    }
  }

  // ---------------------------------------------------------------- slots

  /** A sleeping putter faces a full queue. */
  ghost predicate FullOrAwake(cfg: Config, s: State) {
    NoPutterAsleep(s.putters) || s.num == Cap(cfg)
  }

  lemma StepKeepsServed(cfg: Config, m: Scope, s: State, a: Action)
    requires Inv(cfg, s) && Enabled(cfg, s, a) && Within(m, s, a) && PuttersServed(cfg, s)
    requires !m.flush && (m.flushPut ==> Cap(cfg) == 1) && (m.reopen ==> |s.closers| <= 1)
    ensures PuttersServed(cfg, Do(cfg, s, a))
  {
    match a {
      case FlushPut(el, k) => FlushPutKeeps(cfg, s, el, k);
      case SetFlag(c, v) =>
        if v && !s.newData {
          assert s.closers == [s.closers[0]];
        }
      case _ => StepKeeps(cfg, s, a);
    }
  }

  lemma {:induction false} RunKeepsServed(cfg: Config, m: Scope, s: State, actions: seq<Action>, t: State)
    requires Inv(cfg, s) && PuttersServed(cfg, s) && Runs(cfg, m, s, actions, t)
    requires !m.flush && (m.flushPut ==> Cap(cfg) == 1) && (m.reopen ==> |s.closers| <= 1)
    ensures PuttersServed(cfg, t)
    decreases |actions|
  {
    if actions != [] {
      StepKeeps(cfg, s, actions[0]);
      StepKeepsThreads(cfg, s, actions[0]);
      StepKeepsServed(cfg, m, s, actions[0]);
      RunKeepsServed(cfg, m, Do(cfg, s, actions[0]), actions[1..], t);
    }
  }

  lemma StepKeepsFullOrAwake(cfg: Config, s: State, a: Action)
    requires Inv(cfg, s) && Enabled(cfg, s, a) && !a.Flush? && !a.FlushPut?
    requires FullOrAwake(cfg, s) && |s.putters| <= 1
    ensures FullOrAwake(cfg, Do(cfg, s, a))
  {
  }

  lemma {:induction false} RunKeepsFullOrAwake(cfg: Config, m: Scope, s: State, actions: seq<Action>, t: State)
    requires Inv(cfg, s) && Runs(cfg, m, s, actions, t) && !m.flush && !m.flushPut
    requires FullOrAwake(cfg, s) && |s.putters| <= 1
    ensures FullOrAwake(cfg, t)
    decreases |actions|
  {
    if actions != [] {
      StepKeeps(cfg, s, actions[0]);
      StepKeepsThreads(cfg, s, actions[0]);
      StepKeepsFullOrAwake(cfg, s, actions[0]);
      RunKeepsFullOrAwake(cfg, m, Do(cfg, s, actions[0]), actions[1..], t);
    }
  }

  /** When nothing in the scope can leave a putter asleep in front of a free slot. */
  predicate Harmless(cfg: Config, m: Scope, p: nat, c: nat) {
    || p == 0
    || (&& !m.flush
        && (m.flushPut ==> Cap(cfg) == 1)
        && (m.reopen ==> c <= 1 || (p == 1 && !m.flushPut)))
  }

  /** The dual for putters and free slots. */
  lemma PuttersNeverMissSlots(cfg: Config, m: Scope, g: nat, p: nat, c: nat, t: State)
    requires Harmless(cfg, m, p, c) && Reachable(cfg, m, g, p, c, t)
    ensures PuttersServed(cfg, t)
  {
    ReachableInv(cfg, m, g, p, c, t);
    var actions :| Runs(cfg, m, Init(g, p, c), actions, t);
    InitKeeps(cfg, g, p, c);
    if p > 0 {
      if m.reopen && c > 1 {
        RunKeepsFullOrAwake(cfg, m, Init(g, p, c), actions, t);
      } else {
        RunKeepsServed(cfg, m, Init(g, p, c), actions, t);
      }
    }
  }

  /** An open queue with n elements that nobody waits for. */
  lemma {:induction false} Fill(cfg: Config, m: Scope, g: nat, p: nat, c: nat, n: nat) returns (t: State)
    requires n <= Cap(cfg)
    ensures Reachable(cfg, m, g, p, c, t)
    ensures t.num == n && t.newData && !t.stale && t.lost == t.flushed == multiset{}
    ensures t.getters == Init(g, p, c).getters && t.putters == Init(g, p, c).putters
    ensures t.closers == Init(g, p, c).closers
  {
    if n == 0 {
      t := Init(g, p, c);
      assert Runs(cfg, m, t, [], t);
    } else {
      var s := Fill(cfg, m, g, p, c, n - 1);
      ReachableInv(cfg, m, g, p, c, s);
      t := Then(cfg, m, g, p, c, s, PutNow(0, 0));
    }
  }

  /** The first `asleep` putters sleep, nobody else has called. */
  ghost predicate Sleepers(s: State, g: nat, p: nat, c: nat, asleep: nat) {
    && asleep <= p == |s.putters|
    && (forall i :: 0 <= i < p ==> s.putters[i] == if i < asleep then PutAsleep(0) else PutIdle)
    && s.getters == Init(g, p, c).getters
  }

  lemma {:induction false} FullWithSleepers(cfg: Config, m: Scope, g: nat, p: nat, c: nat, asleep: nat) returns (t: State)
    requires asleep <= p
    ensures Reachable(cfg, m, g, p, c, t)
    ensures t.num == Cap(cfg) && t.newData && !t.stale && t.lost == t.flushed == multiset{}
    ensures Sleepers(t, g, p, c, asleep)
    ensures t.closers == Init(g, p, c).closers
  {
    if asleep == 0 {
      t := Fill(cfg, m, g, p, c, Cap(cfg));
    } else {
      var s := FullWithSleepers(cfg, m, g, p, c, asleep - 1);
      ReachableInv(cfg, m, g, p, c, s);
      t := Then(cfg, m, g, p, c, s, PutWait(asleep - 1, 0, 0));
    }
  }

  /** A putter sleeps in front of a free slot of an open queue, and nobody is on the way. */
  ghost predicate Strands(cfg: Config, s: State) {
    && s.newData && s.num < Cap(cfg) && !NoPutterAsleep(s.putters)
    && forall i :: 0 <= i < |s.putters| ==> !s.putters[i].PutWoken?
  }

  lemma StrandedIsUnserved(cfg: Config, s: State)
    requires Strands(cfg, s)
    ensures !PuttersServed(cfg, s)
  {
    forall i | 0 <= i < |s.putters| ensures PutterRoused(s.putters[i]) == 0 {
      assert !s.putters[i].PutWoken?;
    }
    SumZero(s.putters, PutterRoused);
  }

  /** A flush leaves a sleeping putter in front of an empty open queue. */
  lemma FlushStrandsPutter(cfg: Config, m: Scope, g: nat, p: nat, c: nat) returns (t: State)
    requires p >= 1 && m.flush
    ensures Reachable(cfg, m, g, p, c, t) && Strands(cfg, t) && t.num == 0
  {
    t := FullWithSleepers(cfg, m, g, p, c, 1);
    ReachableInv(cfg, m, g, p, c, t);
    assert t.putters[0].PutAsleep?;
    t := Then(cfg, m, g, p, c, t, Flush);
  }

  /** A flush followed by a put leaves slots free unless the capacity is 1. */
  lemma FlushPutStrandsPutter(cfg: Config, m: Scope, g: nat, p: nat, c: nat) returns (t: State)
    requires p >= 1 && m.flushPut && Cap(cfg) > 1
    ensures Reachable(cfg, m, g, p, c, t) && Strands(cfg, t) && t.num == 1
  {
    t := FullWithSleepers(cfg, m, g, p, c, 1);
    ReachableInv(cfg, m, g, p, c, t);
    assert t.putters[0].PutAsleep?;
    t := Then(cfg, m, g, p, c, t, FlushPut(0, 0));
  }

  /** Two sleepers, a get that signals one of them, and a close: the signalled one gives up. */
  lemma SignalWasted(cfg: Config, m: Scope, g: nat, p: nat, c: nat) returns (t: State)
    requires p >= 2 && c >= 2
    ensures Reachable(cfg, m, g, p, c, t) && !t.newData && t.num == Cap(cfg) - 1 && t.flushed == multiset{}
    ensures t.putters == FullSleepers(p, 2)[0 := PutNoNewData]
    ensures t.closers == Init(g, p, c).closers[0 := FlagSet]
  {
    t := FullWithSleepers(cfg, m, g, p, c, 2);
    ReachableInv(cfg, m, g, p, c, t);
    assert t.putters == FullSleepers(p, 2);
    t := Then(cfg, m, g, p, c, t, GetNow(0, 0));
    t := Then(cfg, m, g, p, c, t, SetFlag(0, false));
    t := Then(cfg, m, g, p, c, t, ResumePut(0, 0));
    assert t.putters == FullSleepers(p, 2)[0 := PutNoNewData];
  }

  function FullSleepers(p: nat, asleep: nat): seq<PutterPc> {
    seq(p, i => if i < asleep then PutAsleep(0) else PutIdle)
  }

  /** Closing and reopening within one broadcast does so without any flush: the signalled
      putter gives up, and both closers find the flag set again. */
  lemma ReopenStrandsPutter(cfg: Config, m: Scope, g: nat, p: nat, c: nat) returns (t: State)
    requires p >= 2 && c >= 2 && m.reopen
    ensures Reachable(cfg, m, g, p, c, t) && Strands(cfg, t)
    ensures forall i :: 0 <= i < |t.closers| ==> t.closers[i] == CloseIdle
    ensures t.flushed == multiset{}
  {
    t := SignalWasted(cfg, m, g, p, c);
    ReachableInv(cfg, m, g, p, c, t);
    t := Then(cfg, m, g, p, c, t, SetFlag(1, true));
    t := Then(cfg, m, g, p, c, t, Close(0));
    t := Then(cfg, m, g, p, c, t, Close(1));
    assert t.putters[1].PutAsleep?;
  }

  /** A flush of the closed queue and a reopening do so with a single putter. */
  lemma FlushAndReopenStrandPutter(cfg: Config, m: Scope, g: nat, p: nat, c: nat) returns (t: State)
    requires p >= 1 && c >= 2 && m.flushPut && m.reopen
    ensures Reachable(cfg, m, g, p, c, t) && Strands(cfg, t)
  {
    t := FullWithSleepers(cfg, m, g, p, c, 1);
    ReachableInv(cfg, m, g, p, c, t);
    t := Then(cfg, m, g, p, c, t, SetFlag(0, false));
    t := Then(cfg, m, g, p, c, t, FlushPut(0, 0));
    t := Then(cfg, m, g, p, c, t, SetFlag(1, true));
    assert t.putters[0].PutAsleep?;
  }

  lemma HarmfulStrands(cfg: Config, m: Scope, g: nat, p: nat, c: nat) returns (t: State)
    requires !Harmless(cfg, m, p, c)
    ensures Reachable(cfg, m, g, p, c, t) && Strands(cfg, t)
  {
    if m.flush {
      t := FlushStrandsPutter(cfg, m, g, p, c);
    } else if m.flushPut && Cap(cfg) > 1 {
      t := FlushPutStrandsPutter(cfg, m, g, p, c);
    } else if p >= 2 {
      t := ReopenStrandsPutter(cfg, m, g, p, c);
    } else {
      t := FlushAndReopenStrandPutter(cfg, m, g, p, c);
    }
  }

  /** For every queue, every number of threads and every scope: no run leaves a putter
      asleep in front of a slot that no signalled putter is coming for, exactly when the
      scope is harmless. */
  lemma PuttersServedIff(cfg: Config, m: Scope, g: nat, p: nat, c: nat)
    ensures (forall t :: Reachable(cfg, m, g, p, c, t) ==> PuttersServed(cfg, t)) <==> Harmless(cfg, m, p, c)
  {
    if Harmless(cfg, m, p, c) {
      forall t | Reachable(cfg, m, g, p, c, t) ensures PuttersServed(cfg, t) {
        PuttersNeverMissSlots(cfg, m, g, p, c, t);
      }
    } else {
      var t := HarmfulStrands(cfg, m, g, p, c);
      StrandedIsUnserved(cfg, t);
    }
  }

  /** Flushing is harmless only if nobody waits to put. */
  lemma FlushServesIff(cfg: Config, g: nat, p: nat, c: nat)
    ensures (forall t :: Reachable(cfg, Scope(true, false, false), g, p, c, t) ==> PuttersServed(cfg, t)) <==>
            p == 0
  {
    PuttersServedIff(cfg, Scope(true, false, false), g, p, c);
  }

  /** A flush that puts an element is harmless also when that element fills the queue. */
  lemma FlushPutServesIff(cfg: Config, g: nat, p: nat, c: nat)
    ensures (forall t :: Reachable(cfg, Scope(false, true, false), g, p, c, t) ==> PuttersServed(cfg, t)) <==>
            p == 0 || Cap(cfg) == 1
  {
    PuttersServedIff(cfg, Scope(false, true, false), g, p, c);
  }

  /** Reopening is harmless with a single putter or a single closer. */
  lemma ReopenServesIff(cfg: Config, g: nat, p: nat, c: nat)
    ensures (forall t :: Reachable(cfg, Scope(false, false, true), g, p, c, t) ==> PuttersServed(cfg, t)) <==>
            p <= 1 || c <= 1
  {
    PuttersServedIff(cfg, Scope(false, false, true), g, p, c);
  }

  // ---------------------------------------------------------------- rest

  /** Steps the monitor takes without a new call. */
  predicate Internal(a: Action) {
    a.ResumeGet? || a.ResumePut? || a.Close?
  }

  function GetterRank(g: GetterPc): nat {
    if g.GetWoken? then 2 else if g.GetAsleep? then 1 else 0
  }

  function PutterRank(p: PutterPc): nat {
    if p.PutWoken? then 2 else if p.PutAsleep? then 1 else 0
  }

  /** A broadcast can raise every sleeper by one; g and p are the numbers of threads. */
  function CloserRank(g: nat, p: nat): CloserPc -> nat {
    (c: CloserPc) =>
      match c
      case CloseIdle => 0
      case WakingPutters => p + 1
      case WakingGetters => p + g + 2
      case FlagSet => p + g + 3
  }

  function Measure(s: State): nat {
    Sum(s.getters, GetterRank) + Sum(s.putters, PutterRank) + Sum(s.closers, CloserRank(|s.getters|, |s.putters|))
  }

  lemma SignalRanks(s: State, k: nat)
    ensures Sum(SignalGet(s.getters, k), GetterRank) <= Sum(s.getters, GetterRank) + 1
    ensures Sum(SignalPut(s.putters, k), PutterRank) <= Sum(s.putters, PutterRank) + 1
  {
    if k < |s.getters| && s.getters[k].GetAsleep? { SumUpdate(s.getters, k, GetWoken, GetterRank); }
    if k < |s.putters| && s.putters[k].PutAsleep? {
      SumUpdate(s.putters, k, PutWoken(s.putters[k].el), PutterRank);
    }
  }

  lemma {:induction false} WakeRanks(gs: seq<GetterPc>, ps: seq<PutterPc>)
    ensures Sum(WakeGetters(gs), GetterRank) <= Sum(gs, GetterRank) + |gs|
    ensures Sum(WakePutters(ps), PutterRank) <= Sum(ps, PutterRank) + |ps|
    decreases |gs| + |ps|
  {
    if gs != [] {
      assert WakeGetters(gs)[1..] == WakeGetters(gs[1..]);
      WakeRanks(gs[1..], ps);
    } else if ps != [] {
      assert WakePutters(ps)[1..] == WakePutters(ps[1..]);
      WakeRanks(gs, ps[1..]);
    }
  }

  lemma GetProgress(s: State, i: nat, k: nat)
    requires i < |s.getters| && s.getters[i].GetWoken? && |s.els| <= s.num
    ensures Measure(GetSection(s, i, k)) < Measure(s)
  {
    SumUpdate(s.getters, i, GetSection(s, i, k).getters[i], GetterRank);
    SignalRanks(s, k);
  }

  lemma PutProgress(cfg: Config, s: State, i: nat, k: nat)
    requires i < |s.putters| && s.putters[i].PutWoken?
    ensures Measure(PutSection(cfg, s, i, s.putters[i].el, k)) < Measure(s)
  {
    SumUpdate(s.putters, i, PutSection(cfg, s, i, s.putters[i].el, k).putters[i], PutterRank);
    SignalRanks(s, k);
  }

  lemma CloseProgress(s: State, c: nat)
    requires c < |s.closers| && !s.closers[c].CloseIdle?
    ensures Measure(CloseStep(s, c)) < Measure(s)
  {
    hide WakeGetters, WakePutters;
    CloseKeepsThreads(s, c);
    SumUpdate(s.closers, c, CloseStep(s, c).closers[c], CloserRank(|s.getters|, |s.putters|));
    WakeRanks(s.getters, s.putters);
  }

  /** Every resumed get, resumed put and broadcast lowers the measure. */
  lemma StepProgress(cfg: Config, s: State, a: Action)
    requires Enabled(cfg, s, a) && Internal(a)
    ensures Measure(Do(cfg, s, a)) < Measure(s)
  {
    match a {
      case ResumeGet(i, k) => GetProgress(s, i, k);
      case ResumePut(i, k) => PutProgress(cfg, s, i, k);
      case Close(c) => CloseProgress(s, c);
    }
  }

  /** Left alone, the monitor comes to rest within a bounded number of steps. */
  lemma {:induction false} InternalRunBounded(cfg: Config, m: Scope, s: State, actions: seq<Action>, t: State)
    requires Runs(cfg, m, s, actions, t) && forall i :: 0 <= i < |actions| ==> Internal(actions[i])
    ensures |actions| + Measure(t) <= Measure(s)
    decreases |actions|
  {
    if actions != [] {
      assert Internal(actions[0]);
      StepProgress(cfg, s, actions[0]);
      InternalRunBounded(cfg, m, Do(cfg, s, actions[0]), actions[1..], t);
    }
  }

  ghost predicate Quiescent(cfg: Config, s: State) {
    forall a :: Internal(a) ==> !Enabled(cfg, s, a)
  }

  /** At rest a getter sleeps only in front of an empty open queue, a putter only in front
      of a full open one: no waiter sleeps on after a close and its broadcasts. */
  lemma RestingWaiters(cfg: Config, s: State)
    requires Inv(cfg, s) && Quiescent(cfg, s)
    ensures GetAsleep in s.getters ==> s.els == [] && s.newData
    ensures !NoPutterAsleep(s.putters) ==> s.newData
    ensures !NoPutterAsleep(s.putters) && PuttersServed(cfg, s) ==> Full(cfg, s.num)
  {
    var g, p := SomeSignals(s);
    forall i | 0 <= i < |s.getters| ensures GetterRoused(s.getters[i]) == 0 {
      assert !Enabled(cfg, s, ResumeGet(i, p));
    }
    forall i | 0 <= i < |s.putters| ensures PutterRoused(s.putters[i]) == 0 {
      assert !Enabled(cfg, s, ResumePut(i, g));
    }
    SumZero(s.getters, GetterRoused);
    SumZero(s.putters, PutterRoused);
    forall i | 0 <= i < |s.closers| ensures s.closers[i].CloseIdle? {
      assert !Enabled(cfg, s, Close(i));
    }
  }

  // ---------------------------------------------------------------- close and drain

  /** No flush, no filtered removal past the head and no reopening. */
  predicate Draining(a: Action) {
    !a.Flush? && !a.FlushPut? && (a.GetNow? ==> a.k == 0) && (a.SetFlag? ==> !a.v)
  }

  /** What the gets of a run report, in the order of their sections under the mutex; a
      section that ends in a wait reports GetAsleep. */
  function Answers(cfg: Config, m: Scope, s: State, actions: seq<Action>, t: State): seq<GetterPc>
    requires Runs(cfg, m, s, actions, t)
    decreases |actions|
  {
    if actions == [] then []
    else Answer(cfg, s, actions[0]) + Answers(cfg, m, Do(cfg, s, actions[0]), actions[1..], t)
  }

  function Answer(cfg: Config, s: State, a: Action): seq<GetterPc>
    requires Enabled(cfg, s, a)
  {
    match a
    case GetWait(i, _) => [Do(cfg, s, a).getters[i]]
    case ResumeGet(i, _) => [Do(cfg, s, a).getters[i]]
    case GetNow(n, _) => [GotElement(s.els[n])]
    case _ => []
  }

  /** The j-th answer from a closed queue: the elements in order, then Q_ERR_NONEWDATA; after a
      loss Q_ERR_INVALID_ELEMENT, since num_els never gets back to 0. */
  function Drained(s: State, j: nat): GetterPc {
    if j < |s.els| then GotElement(s.els[j])
    else if s.num > |s.els| then GotNothing
    else GotNoNewData
  }

  lemma DrainStep(cfg: Config, s: State, a: Action)
    requires !s.newData && Enabled(cfg, s, a) && Draining(a)
    ensures var u := Do(cfg, s, a);
            && !u.newData && u.accepted == s.accepted && |s.els| <= s.num
            && s.delivered <= u.delivered && s.delivered + s.els == u.delivered + u.els
            && (Answer(cfg, s, a) == [] ==> u.els == s.els && u.num == s.num && u.delivered == s.delivered)
            && (Answer(cfg, s, a) != [] ==>
                  && Answer(cfg, s, a) == [Drained(s, 0)]
                  && u.els == (if s.els == [] then [] else s.els[1..])
                  && u.num - |u.els| == s.num - |s.els|
                  && u.delivered == s.delivered + if s.els == [] then [] else [s.els[0]])
  {
  }

  lemma DrainedNext(s: State, u: State, j: nat)
    requires |s.els| <= s.num
    ensures u.els == s.els && u.num == s.num ==> Drained(u, j) == Drained(s, j)
    ensures u.els == (if s.els == [] then [] else s.els[1..]) && u.num - |u.els| == s.num - |s.els| ==>
              Drained(u, j) == Drained(s, j + 1)
  {
  }

  /** While the queue stays closed no get waits: the first ones receive the remaining elements
      in queue order, every later one reports Q_ERR_NONEWDATA, provided num_els still counted
      the elements when the queue was closed. */
  lemma {:induction false} ClosedQueueAnswers(cfg: Config, m: Scope, s: State, actions: seq<Action>, t: State)
    requires !s.newData && Runs(cfg, m, s, actions, t) && forall i :: 0 <= i < |actions| ==> Draining(actions[i])
    ensures forall j :: 0 <= j < |Answers(cfg, m, s, actions, t)| ==>
              Answers(cfg, m, s, actions, t)[j] == Drained(s, j)
    decreases |actions|
  {
    hide Do, Enabled, Answer, Drained;
    if actions != [] {
      assert Draining(actions[0]);
      var u := Do(cfg, s, actions[0]);
      DrainStep(cfg, s, actions[0]);
      ClosedQueueAnswers(cfg, m, u, actions[1..], t);
      var now, rest := Answer(cfg, s, actions[0]), Answers(cfg, m, u, actions[1..], t);
      forall j | 0 <= j < |now + rest| ensures (now + rest)[j] == Drained(s, j) {
        if j >= |now| {
          assert rest[j - |now|] == Drained(u, j - |now|);
        }
        DrainedNext(s, u, if j >= |now| then j - |now| else 0);
      }
    }
  }

  /** A waiting get reports Q_ERR_NONEWDATA only from a section of its own at whose start the
      queue was closed and num_els 0. */
  lemma {:induction false} NoNewDataOnlyWhenDrained(cfg: Config, m: Scope, s: State, actions: seq<Action>, t: State, i: nat)
    requires Runs(cfg, m, s, actions, t) && i < |s.getters| && !s.getters[i].GotNoNewData?
    requires i < |t.getters| && t.getters[i].GotNoNewData?
    ensures exists k :: 0 <= k < |actions| && DrainedAt(cfg, m, s, actions, t, k, i)
    decreases |actions|
  {
    var u := Do(cfg, s, actions[0]);
    StepKeepsThreads(cfg, s, actions[0]);
    ReportsDrained(cfg, s, actions[0], i);
    if u.getters[i].GotNoNewData? {
      assert DrainedAt(cfg, m, s, actions, t, 0, i);
    } else {
      NoNewDataOnlyWhenDrained(cfg, m, u, actions[1..], t, i);
      var k :| 0 <= k < |actions| - 1 && DrainedAt(cfg, m, u, actions[1..], t, k, i);
      assert DrainedAt(cfg, m, s, actions, t, k + 1, i);
    }
  }

  lemma ReportsDrained(cfg: Config, s: State, a: Action, i: nat)
    requires Enabled(cfg, s, a) && i < |s.getters| && !s.getters[i].GotNoNewData?
    ensures Do(cfg, s, a).getters[i].GotNoNewData? ==> GetsOf(a, i) && s.num == 0 && !s.newData
  {
  }

  /** The action is a section of getter i in queue_get_wait. */
  predicate GetsOf(a: Action, i: nat) {
    (a.GetWait? || a.ResumeGet?) && a.i == i
  }

  /** Step k of the run is a section of getter i, and before it the queue is closed and
      num_els is 0. */
  predicate DrainedAt(cfg: Config, m: Scope, s: State, actions: seq<Action>, t: State, k: nat, i: nat)
    requires Runs(cfg, m, s, actions, t) && k < |actions|
    decreases |actions|
  {
    if k == 0 then GetsOf(actions[0], i) && s.num == 0 && !s.newData
    else DrainedAt(cfg, m, Do(cfg, s, actions[0]), actions[1..], t, k - 1, i)
  }

  /** Once every close has made its broadcasts, nobody sleeps on a closed queue. */
  lemma ClosedQueueWakesAll(cfg: Config, m: Scope, g: nat, p: nat, c: nat, t: State)
    requires Reachable(cfg, m, g, p, c, t) && !t.newData
    requires forall i :: 0 <= i < |t.closers| ==> t.closers[i].CloseIdle?
    ensures GetAsleep !in t.getters && NoPutterAsleep(t.putters)
  {
    ReachableInv(cfg, m, g, p, c, t);
  }

  lemma StepKeepsLost(cfg: Config, s: State, a: Action)
    requires Enabled(cfg, s, a)
    ensures s.lost <= Do(cfg, s, a).lost
  {
  }

  lemma {:induction false} LostGrows(cfg: Config, m: Scope, s: State, actions: seq<Action>, t: State)
    requires Runs(cfg, m, s, actions, t)
    ensures s.lost <= t.lost
    decreases |actions|
  {
    if actions != [] {
      StepKeepsLost(cfg, s, actions[0]);
      LostGrows(cfg, m, Do(cfg, s, actions[0]), actions[1..], t);
    }
  }

  lemma GetFindsSomething(cfg: Config, s: State, i: nat, k: nat)
    requires Inv(cfg, s) && s.lost == multiset{} && i < |s.getters| && GotNothing !in s.getters
    ensures GotNothing !in GetSection(s, i, k).getters
  {
    var t := GetSection(s, i, k);
    forall j | 0 <= j < |t.getters| ensures t.getters[j] != GotNothing {
      assert j != i ==> t.getters[j] == s.getters[j] && s.getters[j] in s.getters;
    }
  }

  lemma OnlyWaking(gs: seq<GetterPc>, k: nat)
    requires GotNothing !in gs
    ensures GotNothing !in SignalGet(gs, k) && GotNothing !in WakeGetters(gs)
  {
    assert forall j :: 0 <= j < |gs| ==> gs[j] in gs;
  }

  lemma StepFindsSomething(cfg: Config, s: State, a: Action)
    requires Inv(cfg, s) && s.lost == multiset{} && Enabled(cfg, s, a) && GotNothing !in s.getters
    ensures GotNothing !in Do(cfg, s, a).getters && GotNothing !in Answer(cfg, s, a)
  {
    hide Inserted, Inv;
    match a {
      case GetWait(i, k) => GetFindsSomething(cfg, s, i, k);
      case ResumeGet(i, k) => GetFindsSomething(cfg, s, i, k);
      case PutWait(_, _, k) => OnlyWaking(s.getters, k);
      case ResumePut(_, k) => OnlyWaking(s.getters, k);
      case PutNow(_, k) => OnlyWaking(s.getters, k);
      case FlushPut(_, k) => OnlyWaking(s.getters, k);
      case SpuriousGet(i) => OnlyWaking(s.getters, i);
      case Close(_) => OnlyWaking(s.getters, 0);
      case _ =>
    }
  }

  /** In a run without a loss no get, waiting or not, on an open queue or a closed one, ever
      reports Q_ERR_INVALID_ELEMENT for a chain that is empty while num_els is not. */
  lemma {:induction false} NothingOnlyAfterLoss(cfg: Config, m: Scope, s: State, actions: seq<Action>, t: State)
    requires Inv(cfg, s) && GotNothing !in s.getters && Runs(cfg, m, s, actions, t) && t.lost == multiset{}
    ensures GotNothing !in t.getters && GotNothing !in Answers(cfg, m, s, actions, t)
    decreases |actions|
  {
    LostGrows(cfg, m, s, actions, t);
    if actions != [] {
      var u := Do(cfg, s, actions[0]);
      StepFindsSomething(cfg, s, actions[0]);
      StepKeeps(cfg, s, actions[0]);
      NothingOnlyAfterLoss(cfg, m, u, actions[1..], t);
    }
  }

  /** From the start: a getter asks an empty open queue, sleeps, and is woken by a put to
      receive that element; for every queue. */
  lemma WaitingGetServed(cfg: Config, m: Scope, g: nat, p: nat, c: nat, el: Elem) returns (s: State, t: State)
    requires g >= 1
    ensures Reachable(cfg, m, g, p, c, s) && s.getters == Init(g, p, c).getters[0 := GetAsleep]
    ensures Reachable(cfg, m, g, p, c, t) && t.getters == Init(g, p, c).getters[0 := GotElement(el)]
    ensures t.els == [] && t.delivered == [el]
  {
    s := Init(g, p, c);
    assert Runs(cfg, m, s, [], s);
    s := Then(cfg, m, g, p, c, s, GetWait(0, 0));
    t := Then(cfg, m, g, p, c, s, PutNow(el, 0));
    assert t.els == [el];
    t := Then(cfg, m, g, p, c, t, ResumeGet(0, 0));
  }

  /** While the queue stays closed no put succeeds, and what the getters receive, in the
      order they receive it, is what was queued. */
  lemma {:induction false} ClosedQueueDrains(cfg: Config, m: Scope, s: State, actions: seq<Action>, t: State)
    requires !s.newData && Runs(cfg, m, s, actions, t) && forall i :: 0 <= i < |actions| ==> Draining(actions[i])
    ensures !t.newData && t.accepted == s.accepted
    ensures s.delivered <= t.delivered && s.delivered + s.els == t.delivered + t.els
    decreases |actions|
  {
    hide Do, Enabled, Answer, Drained;
    if actions != [] {
      assert Draining(actions[0]);
      var u := Do(cfg, s, actions[0]);
      DrainStep(cfg, s, actions[0]);
      ClosedQueueDrains(cfg, m, u, actions[1..], t);
    }
  }

  // ---------------------------------------------------------------- order

  lemma RemovalSorted(xs: seq<Elem>, k: nat, asc: bool, cmp: Comparator<Elem>)
    requires k < |xs| && Sorted(xs, asc, cmp)
    ensures Sorted(RemoveAt(xs, k), asc, cmp)
  {
    var ys := RemoveAt(xs, k);
    forall i, j | 0 <= i <= j < |ys| ensures Compare(asc, cmp, ys[i], ys[j]) <= 0 {
      assert ys[i] == xs[if i < k then i else i + 1] && ys[j] == xs[if j < k then j else j + 1];
    }
  }

  lemma StepKeepsSorted(cfg: Config, s: State, a: Action)
    requires cfg.sort && TotalPreorder(cfg.cmp) && Enabled(cfg, s, a) && Sorted(s.els, cfg.asc, cfg.cmp)
    ensures Sorted(Do(cfg, s, a).els, cfg.asc, cfg.cmp)
  {
    hide Sorted, Inserted;
    EmptySorted(cfg);
    match a {
      case PutWait(_, el, _) => SortedInsertion(s.els, el, cfg.asc, cfg.cmp);
      case ResumePut(i, _) => SortedInsertion(s.els, s.putters[i].el, cfg.asc, cfg.cmp);
      case PutNow(el, _) => SortedInsertion(s.els, el, cfg.asc, cfg.cmp);
      case FlushPut(el, _) => SortedInsertion([], el, cfg.asc, cfg.cmp);
      case GetNow(k, _) => RemovalSorted(s.els, k, cfg.asc, cfg.cmp);
      case GetWait(_, _) => if s.els != [] { RemovalSorted(s.els, 0, cfg.asc, cfg.cmp); }
      case ResumeGet(_, _) => if s.els != [] { RemovalSorted(s.els, 0, cfg.asc, cfg.cmp); }
      case _ =>
    }
  }

  lemma EmptySorted(cfg: Config)
    ensures Sorted([], cfg.asc, cfg.cmp)
  {
  }

  lemma {:induction false} RunKeepsSorted(cfg: Config, m: Scope, s: State, actions: seq<Action>, t: State)
    requires cfg.sort && TotalPreorder(cfg.cmp) && Runs(cfg, m, s, actions, t) && Sorted(s.els, cfg.asc, cfg.cmp)
    ensures Sorted(t.els, cfg.asc, cfg.cmp)
    decreases |actions|
  {
    if actions != [] {
      StepKeepsSorted(cfg, s, actions[0]);
      RunKeepsSorted(cfg, m, Do(cfg, s, actions[0]), actions[1..], t);
    }
  }

  /** A sorted queue is sorted in every reachable state, flushes, reopening, filtered
      removals and a stale last_el included: whatever a get of the head delivers, no queued
      element sorts strictly before it. */
  lemma SortedDeliversLeast(cfg: Config, m: Scope, g: nat, p: nat, c: nat, t: State, a: Action)
    requires cfg.sort && TotalPreorder(cfg.cmp) && Reachable(cfg, m, g, p, c, t)
    ensures Sorted(t.els, cfg.asc, cfg.cmp)
    ensures Enabled(cfg, t, a) && (a.GetNow? ==> a.k == 0) ==>
              forall e, x :: GotElement(e) in Answer(cfg, t, a) && x in t.els ==>
                if cfg.asc then cfg.cmp(e, x) <= 0 else cfg.cmp(e, x) >= 0
  {
    var actions :| Runs(cfg, m, Init(g, p, c), actions, t);
    EmptySorted(cfg);
    RunKeepsSorted(cfg, m, Init(g, p, c), actions, t);
    if Enabled(cfg, t, a) && (a.GetNow? ==> a.k == 0) {
      forall e, x | GotElement(e) in Answer(cfg, t, a) && x in t.els
        ensures if cfg.asc then cfg.cmp(e, x) <= 0 else cfg.cmp(e, x) >= 0
      {
        HeadAnswers(cfg, t, a, e);
        var j :| 0 <= j < |t.els| && t.els[j] == x;
      }
    }
  }

  lemma HeadAnswers(cfg: Config, s: State, a: Action, e: Elem)
    requires Enabled(cfg, s, a) && (a.GetNow? ==> a.k == 0) && GotElement(e) in Answer(cfg, s, a)
    ensures s.els != [] && e == s.els[0]
  {
  }

  /** An unsorted queue that is not flushed or filtered delivers in the order it accepted. */
  lemma {:induction false} UnsortedIsFifo(cfg: Config, m: Scope, s: State, actions: seq<Action>, t: State)
    requires !cfg.sort && !s.stale && s.accepted == s.delivered + s.els && Runs(cfg, m, s, actions, t)
    requires forall i :: 0 <= i < |actions| ==> !actions[i].Flush? && !actions[i].FlushPut? && (actions[i].GetNow? ==> actions[i].k == 0)
    ensures t.accepted == t.delivered + t.els
    decreases |actions|
  {
    if actions != [] {
      var u := Do(cfg, s, actions[0]);
      FifoStep(cfg, s, actions[0]);
      UnsortedIsFifo(cfg, m, u, actions[1..], t);
    }
  }

  lemma FifoStep(cfg: Config, s: State, a: Action)
    requires !cfg.sort && !s.stale && s.accepted == s.delivered + s.els && Enabled(cfg, s, a)
    requires !a.Flush? && !a.FlushPut? && (a.GetNow? ==> a.k == 0)
    ensures var u := Do(cfg, s, a); !u.stale && u.accepted == u.delivered + u.els
  {
    match a {
      case GetWait(i, k) => FifoGet(s, i, k);
      case ResumeGet(i, k) => FifoGet(s, i, k);
      case PutWait(i, el, k) => FifoPut(cfg, s, i, el, k);
      case ResumePut(i, k) => FifoPut(cfg, s, i, s.putters[i].el, k);
      case GetNow(_, k) => FifoDeliver(s, k);
      case PutNow(el, k) => FifoAccept(cfg, s, el, k);
      case _ =>
    }
  }

  ghost predicate Fifo(s: State) {
    !s.stale && s.accepted == s.delivered + s.els
  }

  lemma FifoAccept(cfg: Config, s: State, el: Elem, k: nat)
    requires !cfg.sort && Fifo(s)
    ensures Fifo(Accept(cfg, s, el, k))
  {
  }

  lemma FifoDeliver(s: State, k: nat)
    requires 0 < |s.els| <= s.num && Fifo(s)
    ensures Fifo(Deliver(s, 0, k))
  {
  }

  lemma FifoGet(s: State, i: nat, k: nat)
    requires i < |s.getters| && |s.els| <= s.num && Fifo(s)
    ensures Fifo(GetSection(s, i, k))
  {
    if s.els != [] { FifoDeliver(s, k); }
  }

  lemma FifoPut(cfg: Config, s: State, i: nat, el: Elem, k: nat)
    requires !cfg.sort && i < |s.putters| && Fifo(s)
    ensures Fifo(PutSection(cfg, s, i, el, k))
  {
    FifoAccept(cfg, s, el, k);
  }
}

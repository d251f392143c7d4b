/** One half-duplex serial port: any number of threads and devices share its mutex. SerialOpen
    takes the mutex and the last step of a transaction gives it back, in the caller itself or
    in the receiver that the caller queued on the thread pool. Every step below touches the
    shared fields of one device at most once. */
module PortLock {
  datatype Kind = Write | Health | Sync | Receiver

  datatype Pc =
    | Idle          // a caller between transactions
    | Locking       // SerialOpen, before pthread_mutex_lock
    | Opening       // SerialOpen, before open
    | Configuring   // SerialOpen, before tcsetattr
    | Registering   // SerialOpen, before epoll_ctl
    | Failing       // SerialOpen, before the unlock of a failed open
    | Building      // ModbusDevWrite, before the message is built
    | Sending
    | Queueing      // SerialRead, before thpool_add_work
    | Resting       // the sleep of a caller without feedback
    | Queued        // a receiver in the pool's queue
    | Polling       // a receiver in its loop
    | Closing       // SerialClose, before the descriptor is closed
    | Unlocking     // SerialClose, before the unlock
    | Finished      // a receiver that returned

  /** `ticket` is the number of the successful open that a party answers for. */
  datatype Party = Party(pc: Pc, kind: Kind, dev: nat, ticket: nat, start: int)

  /** The fields of a device: sfd != -1, bRcvRun, bFeedback and delay. */
  datatype Device = Device(open: bool, running: bool, feedback: bool, delay: nat)

  datatype State = State(
    locked: bool,
    devs: seq<Device>,
    parties: seq<Party>,
    opens: nat,          // successful calls of SerialOpen
    closed: seq<nat>,    // tickets in the order in which they were unlocked
    lost: nat)           // receivers that thpool_add_work refused

  /** What the environment decides in a step: who opens what, whether a call succeeds, whether
      a poll stays empty and what the clock reads in microseconds. */
  datatype Choice = Choice(kind: Kind, dev: nat, ok: bool, silent: bool, clock: int)

  // ---------------------------------------------------------------- the steps

  function Wrap32(n: int): (r: nat) {
    n % 0x1_0000_0000
  }

  function Budget(delay: nat): nat {
    500000 + delay * 1000
  }

  /** The difference of two clock readings is kept in 32 unsigned bits. */
  predicate Spent(start: int, clock: int, delay: nat) {
    Wrap32(clock - start) >= Budget(delay)
  }

  function Gone(kind: Kind): Pc {
    if kind == Receiver then Finished else Idle
  }

  function NextPc(p: Party, d: Device, c: Choice): Pc {
    match p.pc
    case Idle => Locking
    case Locking => Opening
    case Opening => if c.ok then Configuring else Failing
    case Configuring => if c.ok then Registering else Failing
    case Registering =>
      if !c.ok then Failing else if p.kind == Write then Building else Sending
    case Failing => Idle
    case Building => if c.ok then Sending else Closing
    case Sending => if p.kind == Health || d.feedback then Queueing else Resting
    case Queueing => Idle
    case Resting => Closing
    case Queued => Polling
    case Polling =>
      if !d.running || Spent(p.start, c.clock, d.delay) || !c.silent then Closing else Polling
    case Closing => if d.open then Unlocking else Gone(p.kind)
    case Unlocking => Gone(p.kind)
    case Finished => Finished
  }

  function NextParty(s: State, p: Party, c: Choice): Party
    requires p.dev < |s.devs|
  {
    var q := p.(pc := NextPc(p, s.devs[p.dev], c));
    match p.pc
    case Idle => q.(kind := c.kind, dev := c.dev)
    case Registering => if c.ok then q.(ticket := s.opens) else q
    case Queued => q.(start := c.clock)
    case _ => q
  }

  function NextDevice(pc: Pc, d: Device, c: Choice): Device {
    match pc
    case Opening => d.(open := c.ok)
    case Configuring => if c.ok then d else d.(open := false)
    case Registering => if c.ok then d else d.(open := false)
    case Queued => d.(running := true)
    case Closing => if d.open then d.(open := false, running := false) else d
    case _ => d
  }

  predicate Ready(s: State, i: nat, c: Choice) {
    i < |s.parties| && s.parties[i].dev < |s.devs| &&
    match s.parties[i].pc
    case Idle => c.kind != Receiver && c.dev < |s.devs|
    case Locking => !s.locked
    case Finished => false
    case _ => true
  }

  function Next(s: State, i: nat, c: Choice): State
    requires Ready(s, i, c)
  {
    var p := s.parties[i];
    var moved := s.parties[i := NextParty(s, p, c)];
    State(
      if p.pc == Locking then true
      else if p.pc == Failing || p.pc == Unlocking then false else s.locked,
      s.devs[p.dev := NextDevice(p.pc, s.devs[p.dev], c)],
      if p.pc == Queueing && c.ok then moved + [Party(Queued, Receiver, p.dev, p.ticket, 0)]
      else moved,
      if p.pc == Registering && c.ok then s.opens + 1 else s.opens,
      if p.pc == Unlocking then s.closed + [p.ticket] else s.closed,
      if p.pc == Queueing && !c.ok then s.lost + 1 else s.lost)
  }

  predicate Init(s: State) {
    !s.locked && s.opens == 0 && s.closed == [] && s.lost == 0 &&
    (forall i :: 0 <= i < |s.parties| ==>
       s.parties[i].pc == Idle && s.parties[i].kind != Receiver && s.parties[i].dev < |s.devs|) &&
    (forall d :: 0 <= d < |s.devs| ==> !s.devs[d].open && s.devs[d].delay < 0x1_0000)
  }

  /** A run of the port, step by step. */
  datatype Move = Move(i: nat, c: Choice)

  predicate Runs(s: State, moves: seq<Move>, t: State)
    decreases |moves|
  {
    if moves == [] then s == t
    else Ready(s, moves[0].i, moves[0].c) && Runs(Next(s, moves[0].i, moves[0].c), moves[1..], t)
  }

  ghost predicate Reachable(s: State) {
    exists s0, moves :: Init(s0) && Runs(s0, moves, s)
  }

  // ---------------------------------------------------------------- what every step keeps

  /** The party lies between its lock and its unlock. */
  predicate Holds(pc: Pc) {
    pc !in {Idle, Locking, Finished}
  }

  /** SerialOpen returned 0 and the mutex is not yet given back. */
  predicate Answers(pc: Pc) {
    pc in {Building, Sending, Queueing, Resting, Queued, Polling, Closing, Unlocking}
  }

  predicate Connected(pc: Pc) {
    pc in {Configuring, Registering, Building, Sending, Queueing, Resting, Queued, Polling, Closing}
  }

  predicate PartyOk(s: State, p: Party) {
    && p.dev < |s.devs|
    && (p.kind == Receiver ==> p.pc in {Queued, Polling, Closing, Unlocking, Finished})
    && (p.kind != Receiver ==> p.pc !in {Queued, Polling, Finished})
    && (Holds(p.pc) ==> s.locked && s.lost == 0)
    && (Connected(p.pc) ==> s.devs[p.dev].open)
    && (p.pc == Polling ==> s.devs[p.dev].running)
    && (Answers(p.pc) ==> p.ticket == |s.closed| && s.opens == |s.closed| + 1)
    && (Holds(p.pc) && !Answers(p.pc) ==> s.opens == |s.closed|)
  }

  predicate Alone(s: State) {
    forall i, j :: 0 <= i < j < |s.parties| ==>
      !(Holds(s.parties[i].pc) && Holds(s.parties[j].pc))
  }

  predicate Held(s: State) {
    exists i :: 0 <= i < |s.parties| && Holds(s.parties[i].pc)
  }

  predicate ConnectedTo(s: State, d: nat) {
    exists i :: 0 <= i < |s.parties| && Connected(s.parties[i].pc) && s.parties[i].dev == d
  }

  predicate Counts(s: State) {
    && s.lost <= 1
    && (s.lost == 1 ==> s.locked && s.opens == |s.closed| + 1)
    && (!s.locked ==> s.opens == |s.closed|)
    && (forall k :: 0 <= k < |s.closed| ==> s.closed[k] == k)
  }

  predicate Inv(s: State) {
    && (forall i :: 0 <= i < |s.parties| ==> PartyOk(s, s.parties[i]))
    && Alone(s)
    && Counts(s)
    && (s.locked && s.lost == 0 ==> Held(s))
    && (forall d :: 0 <= d < |s.devs| && s.devs[d].open && s.lost == 0 ==> ConnectedTo(s, d))
    && (forall d :: 0 <= d < |s.devs| ==> s.devs[d].delay < 0x1_0000)
  }

  lemma OthersIdle(s: State, i: nat, j: nat)
    requires Inv(s) && i < |s.parties| && j < |s.parties| && i != j
    ensures !(Holds(s.parties[i].pc) && Holds(s.parties[j].pc))
  {
    var low, high := if i < j then i else j, if i < j then j else i;
    assert !(Holds(s.parties[low].pc) && Holds(s.parties[high].pc));
  }

  lemma OthersRest(s: State, i: nat, c: Choice, j: nat)
    requires Inv(s) && Ready(s, i, c) && j < |s.parties| && i != j
    requires s.parties[i].pc != Idle
    ensures !Holds(s.parties[j].pc)
  {
    if Holds(s.parties[i].pc) {
      OthersIdle(s, i, j);
    } else {
      assert PartyOk(s, s.parties[j]);
    }
  }

  lemma MoverOk(s: State, i: nat, c: Choice)
    requires Inv(s) && Ready(s, i, c)
    ensures PartyOk(Next(s, i, c), Next(s, i, c).parties[i])
  {
    assert PartyOk(s, s.parties[i]);
  }

  lemma OtherOk(s: State, i: nat, c: Choice, j: nat)
    requires Inv(s) && Ready(s, i, c) && j < |s.parties| && i != j
    ensures PartyOk(Next(s, i, c), s.parties[j])
  {
    assert PartyOk(s, s.parties[j]);
    if s.parties[i].pc != Idle { OthersRest(s, i, c, j); }
  }

  lemma PartiesKept(s: State, i: nat, c: Choice)
    requires Inv(s) && Ready(s, i, c)
    ensures forall j :: 0 <= j < |Next(s, i, c).parties| ==>
              PartyOk(Next(s, i, c), Next(s, i, c).parties[j])
  {
    hide PartyOk;
    var t := Next(s, i, c);
    forall j | 0 <= j < |t.parties| ensures PartyOk(t, t.parties[j]) {
      if j == i {
        MoverOk(s, i, c);
      } else if j < |s.parties| {
        OtherOk(s, i, c, j);
      } else {
        ReceiverOk(s, i, c);
      }
    }
  }

  lemma ReceiverOk(s: State, i: nat, c: Choice)
    requires Inv(s) && Ready(s, i, c) && |Next(s, i, c).parties| > |s.parties|
    ensures PartyOk(Next(s, i, c), Next(s, i, c).parties[|s.parties|])
  {
    assert PartyOk(s, s.parties[i]);
  }

  lemma AloneKept(s: State, i: nat, c: Choice)
    requires Inv(s) && Ready(s, i, c)
    ensures Alone(Next(s, i, c))
  {
    var t := Next(s, i, c);
    forall j, k | 0 <= j < k < |t.parties|
      ensures !(Holds(t.parties[j].pc) && Holds(t.parties[k].pc))
    {
      if s.parties[i].pc != Idle {
        if j != i && j < |s.parties| { OthersRest(s, i, c, j); }
        if k != i && k < |s.parties| { OthersRest(s, i, c, k); }
      } else {
        assert !(Holds(s.parties[j].pc) && Holds(s.parties[k].pc));
      }
    }
  }

  lemma CountsKept(s: State, i: nat, c: Choice)
    requires Inv(s) && Ready(s, i, c)
    ensures Counts(Next(s, i, c))
  {
    assert PartyOk(s, s.parties[i]);
  }

  lemma HeldKept(s: State, i: nat, c: Choice)
    requires Inv(s) && Ready(s, i, c)
    requires Next(s, i, c).locked && Next(s, i, c).lost == 0
    ensures Held(Next(s, i, c))
  {
    var t := Next(s, i, c);
    var p := s.parties[i];
    assert PartyOk(s, p);
    if p.pc == Idle {
      var h :| 0 <= h < |s.parties| && Holds(s.parties[h].pc);
      assert Holds(t.parties[h].pc);
    } else if p.pc == Queueing {
      assert Holds(t.parties[|s.parties|].pc);
    } else {
      assert Holds(t.parties[i].pc);
    }
  }

  lemma ConnectedKept(s: State, i: nat, c: Choice, d: nat)
    requires Inv(s) && Ready(s, i, c) && d < |s.devs|
    requires Next(s, i, c).devs[d].open && Next(s, i, c).lost == 0
    ensures ConnectedTo(Next(s, i, c), d)
  {
    var t := Next(s, i, c);
    var p := s.parties[i];
    assert PartyOk(s, p);
    if p.pc == Opening && p.dev == d {
      assert Connected(t.parties[i].pc);
    } else {
      var h :| 0 <= h < |s.parties| && Connected(s.parties[h].pc) && s.parties[h].dev == d;
      if h != i {
        assert Connected(t.parties[h].pc) && t.parties[h].dev == d;
      } else if p.pc == Queueing {
        assert Connected(t.parties[|s.parties|].pc) && t.parties[|s.parties|].dev == d;
      } else {
        assert Connected(t.parties[i].pc) && t.parties[i].dev == d;
      }
    }
  }

  lemma StepKeeps(s: State, i: nat, c: Choice)
    requires Inv(s) && Ready(s, i, c)
    ensures Inv(Next(s, i, c))
  {
    PartiesKept(s, i, c);
    AloneKept(s, i, c);
    CountsKept(s, i, c);
    var t := Next(s, i, c);
    if t.locked && t.lost == 0 { HeldKept(s, i, c); }
    forall d | 0 <= d < |t.devs| && t.devs[d].open && t.lost == 0 ensures ConnectedTo(t, d) {
      ConnectedKept(s, i, c, d);
    }
  }

  lemma {:induction false} RunKeeps(s: State, moves: seq<Move>, t: State)
    requires Inv(s) && Runs(s, moves, t)
    ensures Inv(t)
    decreases |moves|
  {
    if moves != [] {
      StepKeeps(s, moves[0].i, moves[0].c);
      RunKeeps(Next(s, moves[0].i, moves[0].c), moves[1..], t);
    }
  }

  lemma InitHolds(s: State)
    requires Init(s)
    ensures Inv(s)
  {
    assert forall i :: 0 <= i < |s.parties| ==> s.parties[i].pc == Idle;
  }

  lemma ReachableInv(s: State)
    requires Reachable(s)
    ensures Inv(s)
  {
    hide Inv, Init;
    var s0, moves :| Init(s0) && Runs(s0, moves, s);
    InitHolds(s0);
    RunKeeps(s0, moves, s);
  }

  lemma ConnectionLocks(s: State, d: nat)
    requires Inv(s) && ConnectedTo(s, d)
    ensures s.locked
  {
    var h :| 0 <= h < |s.parties| && Connected(s.parties[h].pc) && s.parties[h].dev == d;
    assert PartyOk(s, s.parties[h]);
  }

  // ---------------------------------------------------------------- the hand-off

  /** At most one transaction lies between its lock and its unlock, whoever carries it, and no
      descriptor of the port is open outside of it: a free port has every device closed. */
  lemma OneTransaction(s: State, i: nat, j: nat)
    requires Reachable(s) && i < |s.parties| && j < |s.parties|
    ensures Holds(s.parties[i].pc) && Holds(s.parties[j].pc) ==> i == j
    ensures Holds(s.parties[i].pc) ==> s.locked
    ensures !s.locked ==> forall d :: 0 <= d < |s.devs| ==> !s.devs[d].open
  {
    ReachableInv(s);
    if i != j { OthersIdle(s, i, j); }
    assert PartyOk(s, s.parties[i]);
    forall d | 0 <= d < |s.devs| ensures s.devs[d].open ==> s.locked {
      if s.devs[d].open && s.lost == 0 { ConnectionLocks(s, d); }
    }
  }

  /** SerialClose returns without unlocking when sfd is -1. No transaction of this port ever
      meets that branch, and a receiver in its loop never finds bRcvRun cleared. */
  lemma CloseAlwaysUnlocks(s: State, i: nat, c: Choice)
    requires Reachable(s) && Ready(s, i, c)
    ensures s.parties[i].pc == Closing ==> Next(s, i, c).parties[i].pc == Unlocking
    ensures s.parties[i].pc == Polling ==> s.devs[s.parties[i].dev].running
  {
    ReachableInv(s);
    assert PartyOk(s, s.parties[i]);
  }

  /** As long as every receiver was queued, the successful opens are given back exactly once
      each, in the order in which they were made; the one that is not yet given back, if any, is
      in the hands of a party that answers for it. */
  lemma EveryOpenReleasedOnce(s: State)
    requires Reachable(s)
    ensures forall k :: 0 <= k < |s.closed| ==> s.closed[k] == k
    ensures |s.closed| <= s.opens <= |s.closed| + 1
    ensures s.lost == 0 ==>
              (s.opens == |s.closed| + 1 <==>
               exists i :: 0 <= i < |s.parties| && Answers(s.parties[i].pc)
                           && s.parties[i].ticket == |s.closed|)
  {
    ReachableInv(s);
    if s.lost == 0 && s.locked {
      var h :| 0 <= h < |s.parties| && Holds(s.parties[h].pc);
      assert PartyOk(s, s.parties[h]);
    }
    forall i | 0 <= i < |s.parties| && Answers(s.parties[i].pc) && s.parties[i].ticket == |s.closed|
      ensures s.opens == |s.closed| + 1
    {
      assert PartyOk(s, s.parties[i]);
    }
  }

  /** How far a party is from its unlock. */
  function Rank(pc: Pc): nat {
    match pc
    case Opening => 11 case Configuring => 10 case Registering => 9 case Failing => 1
    case Building => 8 case Sending => 7 case Queueing => 6 case Resting => 4
    case Queued => 5 case Polling => 4 case Closing => 3 case Unlocking => 2
    case _ => 0
  }

  /** Every step of the party that holds the port either gives it back, brings it closer to its
      unlock, hands it to a queued receiver that is closer, or is an empty poll in time; only a
      refused receiver does none of these. */
  lemma HolderProgress(s: State, i: nat, c: Choice)
    requires Reachable(s) && Ready(s, i, c) && Holds(s.parties[i].pc)
    ensures Next(s, i, c).locked <==> s.parties[i].pc !in {Failing, Unlocking}
    ensures var p, t := s.parties[i], Next(s, i, c);
            || !t.locked
            || Nearer(p, t.parties[i])
            || (p.pc == Queueing && c.ok && Nearer(p, t.parties[|s.parties|]))
            || (t == s && p.pc == Polling && !Leaves(p.start, s.devs[p.dev].delay, c))
            || (t.lost == 1 && p.pc == Queueing && !c.ok)
  {
    ReachableInv(s);
    var p := s.parties[i];
    assert PartyOk(s, p);
    hide Inv;
    if p.pc == Polling && !Leaves(p.start, s.devs[p.dev].delay, c) {
      assert s.parties[i := p] == s.parties;
      assert s.devs[p.dev := s.devs[p.dev]] == s.devs;
    } else if p.pc !in {Failing, Unlocking, Queueing} {
      HolderMoves(s, p, c);
    }
  }

  predicate Nearer(p: Party, q: Party) {
    Holds(q.pc) && Rank(q.pc) < Rank(p.pc)
  }

  predicate Leaves(start: int, delay: nat, c: Choice) {
    Spent(start, c.clock, delay) || !c.silent
  }

  lemma HolderMoves(s: State, p: Party, c: Choice)
    requires PartyOk(s, p) && Holds(p.pc) && p.pc !in {Failing, Unlocking, Queueing}
    ensures if p.pc == Polling && !Leaves(p.start, s.devs[p.dev].delay, c)
            then NextParty(s, p, c) == p else Nearer(p, NextParty(s, p, c))
  {
  }

  // ---------------------------------------------------------------- what every step meets

  /** Only the mutex keeps a party from its next step: a caller can start any transaction with
      any device of the port, waits exactly while the port is locked, and every other party
      but a receiver that returned can go on. */
  lemma EveryStepIsTaken(s: State, i: nat, c: Choice)
    requires Reachable(s) && i < |s.parties|
    ensures s.parties[i].dev < |s.devs|
    ensures s.parties[i].pc == Idle ==> (Ready(s, i, c) <==> c.kind != Receiver && c.dev < |s.devs|)
    ensures s.parties[i].pc == Locking ==> (Ready(s, i, c) <==> !s.locked)
    ensures s.parties[i].pc !in {Idle, Locking} ==> (Ready(s, i, c) <==> s.parties[i].pc != Finished)
  {
    ReachableInv(s);
    assert PartyOk(s, s.parties[i]);
  }

  lemma PollOf(p: Party, d: Device, c: Choice)
    requires p.pc == Polling && d.running
    ensures NextPc(p, d, c) == Polling <==>
              c.silent && (c.clock - p.start) % 0x1_0000_0000 < 500_000 + 1000 * d.delay
    ensures NextPc(p, d, c) in {Polling, Closing}
  {
  }

  /** A receiver stays in its loop exactly as long as its polls stay empty within 500 ms plus
      the delay of its device. */
  lemma PollStaysIff(s: State, i: nat, c: Choice)
    requires Reachable(s) && Ready(s, i, c) && s.parties[i].pc == Polling
    ensures Next(s, i, c).parties[i].pc == Polling <==>
              c.silent && (c.clock - s.parties[i].start) % 0x1_0000_0000 < 500_000 + 1000 * s.devs[s.parties[i].dev].delay
    ensures Next(s, i, c).parties[i].pc in {Polling, Closing}
  {
    ReachableInv(s);
    assert PartyOk(s, s.parties[i]);
    hide Inv, Reachable;
    PollOf(s.parties[i], s.devs[s.parties[i].dev], c);
  }

  // ---------------------------------------------------------------- a refused receiver

  lemma WedgedStep(s: State, i: nat, c: Choice)
    requires Inv(s) && s.lost == 1 && Ready(s, i, c)
    ensures var t := Next(s, i, c);
            t.lost == 1 && t.locked && t.opens == s.opens && t.closed == s.closed
  {
    assert PartyOk(s, s.parties[i]);
  }

  /** SerialRead reports success although thpool_add_work refused the receiver. From then on
      nobody ever opens or unlocks this port again. */
  lemma {:induction false} WedgedForever(s: State, moves: seq<Move>, t: State)
    requires s.lost == 1 && Reachable(s) && Runs(s, moves, t)
    ensures t.lost == 1 && t.locked && t.opens == s.opens && t.closed == s.closed
    decreases |moves|
  {
    ReachableInv(s);
    if moves != [] {
      WedgedStep(s, moves[0].i, moves[0].c);
      ReachableThen(s, moves[0].i, moves[0].c);
      WedgedForever(Next(s, moves[0].i, moves[0].c), moves[1..], t);
    }
  }

  lemma {:induction false} RunThen(s: State, moves: seq<Move>, t: State, i: nat, c: Choice)
    requires Runs(s, moves, t) && Ready(t, i, c)
    ensures Runs(s, moves + [Move(i, c)], Next(t, i, c))
    decreases |moves|
  {
    var last := [Move(i, c)];
    if moves == [] {
      assert Runs(Next(s, i, c), last[1..], Next(t, i, c));
    } else {
      RunThen(Next(s, moves[0].i, moves[0].c), moves[1..], t, i, c);
      assert (moves + last)[1..] == moves[1..] + last;
    }
  }

  lemma ReachableThen(s: State, i: nat, c: Choice)
    requires Reachable(s) && Ready(s, i, c)
    ensures Reachable(Next(s, i, c))
  {
    var s0, moves :| Init(s0) && Runs(s0, moves, s);
    RunThen(s0, moves, s, i, c);
  }

  /** One device and one thread in a heartbeat. */
  function Lone(pc: Pc, locked: bool, open: bool, opens: nat, lost: nat): State {
    State(locked, [Device(open, false, true, 0)], [Party(pc, Health, 0, 0, 0)], opens, [], lost)
  }

  lemma LoneStep(s: State, ok: bool, t: State)
    requires Reachable(s) && |s.parties| == 1 && Ready(s, 0, Choice(Health, 0, ok, true, 0))
    requires Next(s, 0, Choice(Health, 0, ok, true, 0)) == t
    ensures Reachable(t)
  {
    ReachableThen(s, 0, Choice(Health, 0, ok, true, 0));
  }

  lemma HeartbeatStarts()
    ensures Reachable(Lone(Locking, false, false, 0, 0))
  {
    var s := Lone(Idle, false, false, 0, 0);
    assert Init(s) && Runs(s, [], s);
    LoneStep(s, true, Lone(Locking, false, false, 0, 0));
  }

  lemma HeartbeatLocks()
    ensures Reachable(Lone(Configuring, true, true, 0, 0))
  {
    hide Reachable;
    HeartbeatStarts();
    LoneStep(Lone(Locking, false, false, 0, 0), true, Lone(Opening, true, false, 0, 0));
    LoneStep(Lone(Opening, true, false, 0, 0), true, Lone(Configuring, true, true, 0, 0));
  }

  lemma HeartbeatOpens()
    ensures Reachable(Lone(Sending, true, true, 1, 0))
  {
    hide Reachable;
    HeartbeatLocks();
    LoneStep(Lone(Configuring, true, true, 0, 0), true, Lone(Registering, true, true, 0, 0));
    LoneStep(Lone(Registering, true, true, 0, 0), true, Lone(Sending, true, true, 1, 0));
  }

  /** A heartbeat whose receiver the pool refuses: its thread is done, the port is not. */
  lemma RefusedReceiver() returns (s: State)
    ensures Reachable(s) && s.lost == 1 && s.locked && s.parties == [Party(Idle, Health, 0, 0, 0)]
  {
    hide Reachable;
    HeartbeatOpens();
    LoneStep(Lone(Sending, true, true, 1, 0), true, Lone(Queueing, true, true, 1, 0));
    s := Lone(Idle, true, true, 1, 1);
    LoneStep(Lone(Queueing, true, true, 1, 0), false, s);
  }

  ghost predicate CanBeFreed(s: State) {
    exists moves, t :: Runs(s, moves, t) && !t.locked
  }

  /** t is reached from s. */
  ghost predicate Leads(s: State, t: State) {
    exists moves :: Runs(s, moves, t)
  }

  lemma LeadsStep(s: State, i: nat, c: Choice, t: State)
    requires Ready(s, i, c) && Leads(Next(s, i, c), t)
    ensures Leads(s, t)
  {
    var moves :| Runs(Next(s, i, c), moves, t);
    var all := [Move(i, c)] + moves;
    assert all[1..] == moves;
    assert Runs(s, all, t);
  }

  lemma {:induction false} LeadsOn(s: State, moves: seq<Move>, u: State, t: State)
    requires Runs(s, moves, u) && Leads(u, t)
    ensures Leads(s, t)
    decreases |moves|
  {
    if moves != [] {
      LeadsOn(Next(s, moves[0].i, moves[0].c), moves[1..], u, t);
      LeadsStep(s, moves[0].i, moves[0].c, t);
    }
  }

  /** What one step does to the parties. */
  lemma StepMoves(s: State, i: nat, c: Choice)
    requires Inv(s) && Ready(s, i, c)
    ensures var p, t := s.parties[i], Next(s, i, c);
            && (forall j :: 0 <= j < |s.parties| && j != i ==> t.parties[j] == s.parties[j])
            && (forall d :: 0 <= d < |s.devs| && d != p.dev ==> t.devs[d] == s.devs[d])
            && (p.pc == Idle ==> t.parties[i] == p.(pc := Locking, kind := c.kind, dev := c.dev))
            && (p.pc == Queued ==> t.parties[i] == p.(pc := Polling, start := c.clock))
            && (p.pc in {Failing, Queueing, Unlocking} ==>
                  t.parties[i].pc == if p.kind == Receiver then Finished else Idle)
  {
    assert PartyOk(s, s.parties[i]);
  }

  /** The holder of a port can finish its turn: the port is free, a caller is back where it
      can start again, a receiver has returned, and the others stand where they stood. */
  lemma {:induction false} HolderFrees(s: State, h: nat) returns (t: State)
    requires Inv(s) && h < |s.parties| && Holds(s.parties[h].pc)
    ensures Leads(s, t) && Inv(t) && !t.locked && t.lost == 0 && |t.parties| >= |s.parties|
    ensures t.parties[h].pc == if s.parties[h].kind == Receiver then Finished else Idle
    ensures forall j :: 0 <= j < |s.parties| && j != h ==> t.parties[j] == s.parties[j]
    decreases Rank(s.parties[h].pc)
  {
    var p := s.parties[h];
    assert PartyOk(s, p);
    var c := Choice(Write, 0, true, false, 0);
    var u := Next(s, h, c);
    StepKeeps(s, h, c);
    StepMoves(s, h, c);
    HolderStep(s, h, c);
    hide Inv;
    if !u.locked {
      t := u;
      assert Runs(t, [], t);
    } else {
      t := HolderFrees(u, if p.pc == Queueing then |s.parties| else h);
    }
    LeadsStep(s, h, c, t);
  }

  /** A step of the holder in which every call succeeds and every poll brings something. */
  lemma HolderStep(s: State, h: nat, c: Choice)
    requires Inv(s) && Ready(s, h, c) && Holds(s.parties[h].pc) && c.ok && !c.silent
    ensures var p, u := s.parties[h], Next(s, h, c);
            && u.lost == 0
            && (u.locked <==> p.pc !in {Failing, Unlocking})
            && (p.pc == Queueing ==>
                  && p.kind != Receiver && |u.parties| == |s.parties| + 1
                  && u.parties[|s.parties|].pc == Queued)
            && (p.pc !in {Failing, Unlocking, Queueing} ==>
                  && Holds(u.parties[h].pc) && Rank(u.parties[h].pc) < Rank(p.pc)
                  && u.parties[h].kind == p.kind)
  {
    assert PartyOk(s, s.parties[h]);
  }

  /** As long as no receiver was refused, every caller gets through its transaction, the wait
      for the port included, and can start the next one. */
  lemma CallerComesBack(s: State, i: nat) returns (t: State)
    requires Reachable(s) && s.lost == 0 && i < |s.parties| && s.parties[i].kind != Receiver
    ensures Leads(s, t) && t.lost == 0 && |t.parties| >= |s.parties| && t.parties[i].pc == Idle
  {
    ReachableInv(s);
    assert PartyOk(s, s.parties[i]);
    assert s.locked ==> Held(s);
    hide Inv;
    t := s;
    if s.parties[i].pc == Idle {
      assert Runs(s, [], s);
    } else if s.parties[i].pc != Locking {
      t := HolderFrees(s, i);
    } else {
      var u := s;
      assert Runs(s, [], s);
      if s.locked {
        var h :| 0 <= h < |s.parties| && Holds(s.parties[h].pc);
        u := HolderFrees(s, h);
      }
      t := LockAndFree(u, i);
      var moves :| Runs(s, moves, u);
      LeadsOn(s, moves, u, t);
    }
  }

  lemma LockAndFree(s: State, i: nat) returns (t: State)
    requires Inv(s) && !s.locked && s.lost == 0 && i < |s.parties|
    requires s.parties[i].pc == Locking && s.parties[i].kind != Receiver
    ensures Leads(s, t) && t.lost == 0 && |t.parties| >= |s.parties| && t.parties[i].pc == Idle
  {
    assert PartyOk(s, s.parties[i]);
    var c := Choice(Write, 0, true, false, 0);
    StepKeeps(s, i, c);
    t := HolderFrees(Next(s, i, c), i);
    LeadsStep(s, i, c, t);
  }

  /** A reachable port can become free again if and only if no receiver was ever refused. */
  lemma PortFreeableIff(s: State)
    requires Reachable(s)
    ensures CanBeFreed(s) <==> s.lost == 0
  {
    ReachableInv(s);
    if s.lost == 0 {
      if s.locked {
        var h :| 0 <= h < |s.parties| && Holds(s.parties[h].pc);
        var t := HolderFrees(s, h);
        var moves :| Runs(s, moves, t);
      } else {
        assert Runs(s, [], s);
      }
    } else {
      forall moves, t | Runs(s, moves, t) ensures t.locked {
        WedgedForever(s, moves, t);
      }
    }
  }

  // ---------------------------------------------------------------- the receiver's loop

  /** One round of the loop: the clock at its top and what epoll and the parser make of it. */
  datatype Outcome = Empty | Failed | Unparsable | Parsed(replies: nat)
  datatype Round = Round(clock: int, outcome: Outcome)

  predicate Last(start: int, delay: nat, r: Round) {
    Spent(start, r.clock, delay) || r.outcome != Empty
  }

  /** SerialRcvEntry of a half-duplex device over the rounds its environment offers: it stops
      at the first round that leaves the loop, and hands on replies at most once. */
  method Receive(start: int, delay: nat, rounds: seq<Round>) returns (at: nat, delivered: nat)
    ensures at <= |rounds|
    ensures forall k :: 0 <= k < at ==>
              rounds[k].outcome == Empty && (rounds[k].clock - start) % 0x1_0000_0000 < 500_000 + 1000 * delay
    ensures at < |rounds| ==>
              rounds[at].outcome != Empty || (rounds[at].clock - start) % 0x1_0000_0000 >= 500_000 + 1000 * delay
    ensures delivered ==
            if at < |rounds| && rounds[at].outcome.Parsed? &&
               (rounds[at].clock - start) % 0x1_0000_0000 < 500_000 + 1000 * delay
            then rounds[at].outcome.replies else 0
  {
    at, delivered := 0, 0;
    while at < |rounds|
      invariant at <= |rounds| && delivered == 0
      invariant forall k :: 0 <= k < at ==>
                  rounds[k].outcome == Empty && (rounds[k].clock - start) % 0x1_0000_0000 < 500_000 + 1000 * delay
    {
      var r := rounds[at];
      if Spent(start, r.clock, delay) { break; }
      match r.outcome
      case Empty => at := at + 1;
      case Failed => break;
      case Unparsable => break;
      case Parsed(replies) =>
        delivered := replies;
        break;
    }
  }

  /** The clock never runs back and two rounds are at most `gap` apart. */
  predicate Ticks(start: int, rounds: seq<Round>, gap: nat) {
    forall k :: 0 <= k < |rounds| ==>
      Before(start, rounds, k) <= rounds[k].clock <= Before(start, rounds, k) + gap
  }

  function Before(start: int, rounds: seq<Round>, k: nat): int
    requires k < |rounds|
  {
    if k == 0 then start else rounds[k - 1].clock
  }

  lemma ExactDifference(start: int, clock: int, delay: nat)
    requires start <= clock < start + 0x1_0000_0000
    ensures Spent(start, clock, delay) <==> clock >= start + Budget(delay)
  {
    var e := clock - start;
    assert Wrap32(e) == e;
  }

  /** The budget is at most 66 035 000 microseconds, so with rounds at most an hour apart the
      32-bit difference is exact whenever it matters: a loop still running after a round is
      within its time budget there, and the first round at or past the budget ends it. */
  lemma {:induction false} RunsWithinBudget(start: int, delay: nat, rounds: seq<Round>, gap: nat, k: nat)
    requires delay < 0x1_0000 && gap <= 3_600_000_000
    requires Ticks(start, rounds, gap) && k < |rounds|
    requires forall j :: 0 <= j <= k ==> !Last(start, delay, rounds[j])
    ensures start <= rounds[k].clock < start + 500_000 + 1000 * delay
    decreases k
  {
    hide Spent;
    if k > 0 { RunsWithinBudget(start, delay, rounds, gap, k - 1); }
    assert rounds[k].clock <= Before(start, rounds, k) + gap;
    assert !Last(start, delay, rounds[k]);
    ExactDifference(start, rounds[k].clock, delay);
  }

  /** A clock set back makes the unsigned difference huge: the loop ends at once, unless the
      jump exceeds what is left above the budget. */
  lemma SetBackEndsTheLoop(start: int, clock: int, delay: nat)
    requires delay < 0x1_0000 && start - 0x1_0000_0000 <= clock < start
    ensures Spent(start, clock, delay) <==> start - clock <= 0x1_0000_0000 - 500_000 - 1000 * delay
  {
    var e := clock - start + 0x1_0000_0000;
    assert Wrap32(clock - start) == e;
  }
}

/** The functions of one half-duplex device on the heap, each run by one thread while it has
    the port: their effect on the device and the shared mutex is that of the steps in PortLock. */
module SerialPort {
  import opened PortLock

  class Mutex {
    var locked: bool

    constructor ()
      ensures !locked
    {
      locked := false;
    }
  }

  predicate OpeningStep(pc: Pc) {
    pc in {Opening, Configuring, Registering, Failing}
  }

  /** The steps of SerialOpen from `pc` to its return, when `ok` says which calls succeed. */
  function Along(pc: Pc, kind: Kind, d: Device, ok: Pc -> bool): (Pc, Device)
    decreases Rank(pc)
  {
    if !OpeningStep(pc) then (pc, d)
    else
      var c := Choice(kind, 0, ok(pc), true, 0);
      Along(NextPc(Party(pc, kind, 0, 0, 0), d, c), kind, NextDevice(pc, d, c), ok)
  }

  predicate AllSucceed(ok: Pc -> bool) {
    ok(Opening) && ok(Configuring) && ok(Registering)
  }

  /** Success leads to the caller's next step with the descriptor open, failure at any of the
      three calls to no transaction and no descriptor; the other fields stay. */
  lemma AlongOutcome(kind: Kind, d: Device, ok: Pc -> bool)
    ensures Along(Opening, kind, d, ok) ==
            if AllSucceed(ok) then (if kind == Write then Building else Sending, d.(open := true))
            else (Idle, d.(open := false))
  {
    var a := d.(open := true);
    if ok(Opening) {
      assert Along(Opening, kind, d, ok) == Along(Configuring, kind, a, ok);
      if ok(Configuring) {
        assert Along(Configuring, kind, a, ok) == Along(Registering, kind, a, ok);
      }
    }
  }

  /** The steps of a whole transaction of one caller from `pc` on, when `ok` says which calls
      succeed: whether it ends handed off to an accepted receiver, and the device then. */
  function Course(pc: Pc, kind: Kind, d: Device, ok: Pc -> bool): (bool, Device)
    decreases Rank(pc)
  {
    if pc == Queueing then (ok(pc), d)
    else if pc in {Idle, Locking, Queued, Polling, Finished} then (false, d)
    else
      var c := Choice(kind, 0, ok(pc), true, 0);
      Course(NextPc(Party(pc, kind, 0, 0, 0), d, c), kind, NextDevice(pc, d, c), ok)
  }

  lemma {:induction false} AlongThenCourse(pc: Pc, kind: Kind, d: Device, ok: Pc -> bool)
    requires OpeningStep(pc)
    ensures var (q, e) := Along(pc, kind, d, ok); Course(pc, kind, d, ok) == Course(q, kind, e, ok)
    decreases Rank(pc)
  {
    var c := Choice(kind, 0, ok(pc), true, 0);
    var q, e := NextPc(Party(pc, kind, 0, 0, 0), d, c), NextDevice(pc, d, c);
    if OpeningStep(q) { AlongThenCourse(q, kind, e, ok); }
  }

  lemma SendingCourse(kind: Kind, d: Device, ok: Pc -> bool)
    requires d.open && kind != Receiver
    ensures Course(Sending, kind, d, ok) ==
            if kind == Health || d.feedback then (ok(Queueing), d)
            else (false, d.(open := false, running := false))
    ensures Course(Building, kind, d, ok) ==
            if ok(Building) then Course(Sending, kind, d, ok) else (false, d.(open := false, running := false))
  {
    var closed := d.(open := false, running := false);
    assert Course(Unlocking, kind, closed, ok) == Course(Idle, kind, closed, ok);
    assert Course(Closing, kind, d, ok) == Course(Unlocking, kind, closed, ok);
    assert Course(Resting, kind, d, ok) == Course(Closing, kind, d, ok);
  }

  /** A transaction is handed off if and only if the device opens, a written message can be
      built, the caller expects an answer (always for a heartbeat) and the pool takes the
      receiver. The descriptor stays open exactly when the hand-off was reached. */
  lemma CourseOutcome(kind: Kind, d: Device, ok: Pc -> bool)
    requires kind != Receiver
    ensures var (handed, e) := Course(Opening, kind, d, ok);
            var connected := ok(Opening) && ok(Configuring) && ok(Registering);
            var reached := connected && (kind == Write ==> ok(Building)) && (kind == Health || d.feedback);
            && handed == (reached && ok(Queueing))
            && e.open == reached
            && e.running == (if connected && !reached then false else d.running)
            && e.feedback == d.feedback && e.delay == d.delay
  {
    AlongThenCourse(Opening, kind, d, ok);
    AlongOutcome(kind, d, ok);
    SendingCourse(kind, d.(open := true), ok);
  }

  class Serial {
    const mutex: Mutex
    var open: bool       // sfd != -1
    var running: bool    // bRcvRun
    const feedback: bool
    const delay: nat

    function State(): Device
      reads this
    {
      Device(open, running, feedback, delay)
    }

    constructor (mutex: Mutex, feedback: bool, delay: nat)
      ensures this.mutex == mutex && State() == Device(false, false, feedback, delay)
    {
      this.mutex, this.feedback, this.delay := mutex, feedback, delay;
      open, running := false, false;
    }

    /** SerialOpen at the moment the mutex is free. */
    method Open(kind: Kind, ok: Pc -> bool) returns (ret: int)
      requires !mutex.locked
      modifies this, mutex
      ensures ret == if ok(Opening) && ok(Configuring) && ok(Registering) then 0 else -1
      ensures mutex.locked == (Along(Opening, kind, old(State()), ok).0 != Idle) == (ret == 0)
      ensures State() == Along(Opening, kind, old(State()), ok).1
    {
      AlongOutcome(kind, State(), ok);
      mutex.locked := true;
      open := ok(Opening);
      if !open {
        mutex.locked := false;
        return -1;
      }
      if !ok(Configuring) {
        open := false;
        mutex.locked := false;
        return -1;
      }
      if !ok(Registering) {
        open := false;
        mutex.locked := false;
        return -1;
      }
      return 0;
    }

    /** SerialClose: without a descriptor it returns and leaves the mutex as it is. */
    method Close()
      modifies this, mutex
      ensures State() == NextDevice(Closing, old(State()), Choice(Receiver, 0, true, true, 0))
      ensures mutex.locked == (old(mutex.locked) && !old(open))
    {
      if !open {
        return;
      }
      open := false;
      running := false;
      mutex.locked := false;
    }

    /** The calls of one transaction of ModbusDevWrite, Modbus_DevHealth or the status sync:
        `built` says whether the message is usable, `accepts` whether the pool takes the
        receiver. The port stays locked exactly when the transaction got as far as the hand-off,
        and then only a receiver can unlock it: if the pool refused, nobody can. */
    method Transact(kind: Kind, ok: Pc -> bool, built: bool, accepts: bool) returns (receiver: bool)
      requires !mutex.locked && kind != Receiver
      modifies this, mutex
      ensures var handed := AllSucceed(ok) && (kind == Write ==> built) && (kind == Health || feedback);
              && mutex.locked == open == handed
              && receiver == (handed && accepts)
      ensures !mutex.locked && AllSucceed(ok) ==> !running
      ensures ok(Building) == built && ok(Queueing) == accepts ==>
                (receiver, State()) == Course(Opening, kind, old(State()), ok)
    {
      hide Course, Along;
      CourseOutcome(kind, State(), ok);
      receiver := false;
      AlongOutcome(kind, State(), ok);
      var ret := Open(kind, ok);
      if ret != 0 {
        return;
      }
      if kind == Write && !built {
        Close();
        return;
      }
      if kind == Health || feedback {
        receiver := accepts;
      } else {
        Close();
      }
    }

    /** SerialRcvEntry over rounds that bring it out of its loop: it gives the port back. */
    method ReceiverEntry(start: int, rounds: seq<Round>) returns (delivered: nat)
      requires open && mutex.locked
      requires exists k :: 0 <= k < |rounds| && Last(start, delay, rounds[k])
      modifies this, mutex
      ensures !mutex.locked && State() == Device(false, false, feedback, delay)
    {
      running := true;
      var at;
      at, delivered := Receive(start, delay, rounds);
      assert at < |rounds|;
      Close();
    }
  }

  /** A transaction whose receiver was accepted, and that receiver, leave the port free with
      no descriptor open, as does every transaction that is not handed off. */
  method TransactAndReceive(s: Serial, kind: Kind, ok: Pc -> bool, built: bool, accepts: bool, start: int, rounds: seq<Round>)
    requires !s.mutex.locked && kind != Receiver
    requires exists k :: 0 <= k < |rounds| && Last(start, s.delay, rounds[k])
    modifies s, s.mutex
    ensures s.mutex.locked <==>
            AllSucceed(ok) && (kind == Write ==> built) && (kind == Health || s.feedback) && !accepts
    ensures s.open == s.mutex.locked
  {
    var receiver := s.Transact(kind, ok, built, accepts);
    if receiver {
      var delivered := s.ReceiverEntry(start, rounds);
    }
  }
}

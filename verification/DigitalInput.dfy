/** A digital input is sampled once a second; a counter with hysteresis decides when the
    samples have been steady for long enough to report a level. */
module DigitalInputSpec {
  datatype Level = Unset | Low | High

  datatype Counter = Counter(count: int, level: Level)

  const START := Counter(0, Unset)

  /** One sample, `active` when it equals the effective level; n is retryNum. */
  function Sampled(c: Counter, active: bool, n: nat): Counter {
    if active then
      if c.count < n then c.(count := n)
      else if c.count < n * 2 then c.(count := c.count + 1)
      else c.(level := Low)
    else
      if c.count > n then c.(count := n)
      else if c.count != 0 then c.(count := c.count - 1)
      else c.(level := High)
  }

  function After(samples: seq<bool>, n: nat): Counter {
    if samples == [] then START
    else Sampled(After(samples[..|samples| - 1], n), samples[|samples| - 1], n)
  }

  /** The number of samples at the end of the history that equal `active`. */
  function Trail(samples: seq<bool>, active: bool): (r: nat)
    ensures r <= |samples|
    ensures forall k :: |samples| - r <= k < |samples| ==> samples[k] == active
    ensures r < |samples| ==> samples[|samples| - 1 - r] != active
  {
    if samples == [] || samples[|samples| - 1] != active then 0
    else 1 + Trail(samples[..|samples| - 1], active)
  }

  function Min(a: int, b: int): int { if a < b then a else b }
  function Max(a: int, b: int): int { if a < b then b else a }

  // ---------------------------------------------------------------- one steady run

  function Repeat(c: Counter, active: bool, n: nat, m: nat): Counter {
    if m == 0 then c else Sampled(Repeat(c, active, n, m - 1), active, n)
  }

  /** How many agreeing samples decide the level from count c: at most n + 2, and fewer the
      closer the counter already is to the end it moves to. */
  function Needed(count: int, active: bool, n: nat): int {
    if active then if count < n then n + 2 else 2 * n - count + 1
    else if count > n then n + 2 else count + 1
  }

  /** m agreeing samples from any state in range: the counter in closed form, and the level
      is decided exactly when m reaches Needed. */
  lemma {:induction false} SteadyRun(c: Counter, active: bool, n: nat, m: nat)
    requires 0 <= c.count <= 2 * n && m > 0
    ensures var r := Repeat(c, active, n, m);
            && r.level == (if m >= Needed(c.count, active, n) then (if active then Low else High) else c.level)
            && r.count == (if active
                           then Min(2 * n, if c.count < n then n + m - 1 else c.count + m)
                           else Max(0, if c.count > n then n - m + 1 else c.count - m))
  {
    var once := Repeat(c, active, n, 0);
    if m > 1 { SteadyRun(c, active, n, m - 1); }
  }

  lemma NeededRange(count: int, active: bool, n: nat)
    requires 0 <= count <= 2 * n
    ensures 1 <= Needed(count, active, n) <= n + 2
  {
  }

  // ---------------------------------------------------------------- every history

  /** The counter stays in its range, and lags behind the middle by no more than the number of
      agreeing samples at the end; before any active sample it stays at zero. */
  lemma {:induction false} CounterRange(samples: seq<bool>, n: nat)
    ensures var c := After(samples, n);
            && 0 <= c.count <= 2 * n
            && c.count <= n + Trail(samples, true)
            && (Trail(samples, false) < |samples| ==> c.count >= n - Trail(samples, false))
            && (Trail(samples, false) == |samples| ==>
                  c == if samples == [] then START else Counter(0, High))
  {
    if samples != [] { CounterRange(samples[..|samples| - 1], n); }
  }

  /** The last sample of the history changed the level. */
  predicate Changes(samples: seq<bool>, n: nat)
    requires samples != []
  {
    After(samples, n).level != After(samples[..|samples| - 1], n).level
  }

  /** Whatever the history, a change to a level ends a run of at least n + 1 agreeing samples;
      the one exception is an inactive first sample, which decides at once. */
  lemma ChangeEndsARun(samples: seq<bool>, n: nat)
    requires samples != [] && Changes(samples, n)
    ensures var active := samples[|samples| - 1];
            && After(samples, n).level == (if active then Low else High)
            && (Trail(samples, active) >= n + 1 || samples == [false])
  {
    CounterRange(samples[..|samples| - 1], n);
  }

  /** When a change comes early: exactly for an inactive first sample and n > 0, which does
      decide the level at once. */
  lemma EarlyChangeIff(samples: seq<bool>, n: nat)
    requires samples != []
    ensures Changes(samples, n) && Trail(samples, samples[|samples| - 1]) < n + 1 <==>
            samples == [false] && n > 0
    ensures samples == [false] ==> After(samples, n) == Counter(0, High) && Changes(samples, n)
  {
    if Changes(samples, n) { ChangeEndsARun(samples, n); }
    UnsetAtStart(samples[..|samples| - 1], n);
    if samples == [false] { assert samples[..0] == []; }
  }

  lemma UnsetAtStart(samples: seq<bool>, n: nat)
    ensures |samples| == 0 ==> After(samples, n) == START
  {
  }

  /** So once a level is known, no change comes early. */
  lemma FlipEndsARun(samples: seq<bool>, n: nat)
    requires samples != [] && Changes(samples, n)
    requires After(samples[..|samples| - 1], n).level != Unset
    ensures Trail(samples, samples[|samples| - 1]) >= n + 1
  {
    UnsetAtStart(samples[..|samples| - 1], n);
    ChangeEndsARun(samples, n);
  }

  lemma {:induction false} TrailIsARun(samples: seq<bool>, active: bool, n: nat, m: nat)
    requires m <= Trail(samples, active)
    ensures After(samples, n) == Repeat(After(samples[..|samples| - m], n), active, n, m)
    decreases m
  {
    if m == 0 {
      assert samples[..|samples|] == samples;
    } else {
      var before := samples[..|samples| - 1];
      TrailIsARun(before, active, n, m - 1);
      assert before[..|before| - (m - 1)] == samples[..|samples| - m];
    }
  }

  /** n + 2 agreeing samples always decide the level. */
  lemma SteadyDecides(samples: seq<bool>, active: bool, n: nat)
    requires Trail(samples, active) >= n + 2
    ensures After(samples, n).level == (if active then Low else High)
  {
    var before := samples[..|samples| - (n + 2)];
    CounterRange(before, n);
    TrailIsARun(samples, active, n, n + 2);
    NeededRange(After(before, n).count, active, n);
    SteadyRun(After(before, n), active, n, n + 2);
  }

  lemma AfterOneMore(samples: seq<bool>, active: bool, n: nat)
    ensures var now := samples + [active];
            && After(now, n) == Sampled(After(samples, n), active, n)
            && (Changes(now, n) <==> After(now, n).level != After(samples, n).level)
  {
    var now := samples + [active];
    assert now[..|now| - 1] == samples;
  }

  lemma OneMore(samples: seq<bool>, active: bool, n: nat)
    ensures var now := samples + [active];
            && After(now, n) == Sampled(After(samples, n), active, n)
            && (Changes(now, n) <==> After(now, n).level != After(samples, n).level)
            && (Changes(now, n) ==> Trail(now, active) >= n + 1 || now == [false])
            && (Trail(now, active) >= n + 2 ==> After(now, n).level == if active then Low else High)
  {
    hide *;
    var now := samples + [active];
    AfterOneMore(samples, active, n);
    if Changes(now, n) { ChangeEndsARun(now, n); }
    if Trail(now, active) >= n + 2 { SteadyDecides(now, active, n); }
  }
}

module DigitalInput {
  import opened DigitalInputSpec

  class Input {
    const retryNum: nat
    var retryCnt: int
    var status: Level
    ghost var history: seq<bool>

    ghost predicate Valid()
      reads this
    {
      Counter(retryCnt, status) == After(history, retryNum)
    }

    constructor (n: nat)
      ensures Valid() && retryNum == n && history == []
    {
      retryNum, retryCnt, status, history := n, 0, Unset, [];
    }

    /** One sample of di_scan; a change of level is what it reports to the cloud. */
    method Sample(active: bool) returns (report: bool)
      requires Valid()
      modifies this
      ensures Valid() && history == old(history) + [active]
      ensures report == Changes(history, retryNum)
      ensures report ==> Trail(history, active) >= retryNum + 1 || history == [false]
      ensures Trail(history, active) >= retryNum + 2 ==> status == if active then Low else High
    {
      hide After, Trail, Changes;
      report := false;
      if active {
        if retryCnt < retryNum {
          retryCnt := retryNum;
        } else if retryCnt < retryNum * 2 {
          retryCnt := retryCnt + 1;
        } else if status != Low {
          status, report := Low, true;
        }
      } else {
        if retryCnt > retryNum {
          retryCnt := retryNum;
        } else if retryCnt != 0 {
          retryCnt := retryCnt - 1;
        } else if status != High {
          status, report := High, true;
        }
      }
      history := history + [active];
      OneMore(old(history), active, retryNum);
    }
  }
}

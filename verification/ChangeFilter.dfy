/** The change filter of a Modbus point: a reading equal to the last one is not passed on to
    the KNX side, except for every fourth repetition. */
module ChangeFilterSpec {
  newtype UInt32 = n: int | 0 <= n <= 0xFFFF_FFFF

  /** The initial valueOld, (uint32_t) -1. */
  const SENTINEL: UInt32 := 0xFFFF_FFFF
  const FORCE_SYNC_NUM := 3

  datatype Point = Point(valueOld: UInt32, forceSync: int)

  const START := Point(SENTINEL, 0)

  predicate Suppresses(p: Point, v: UInt32) {
    p.valueOld == v && p.forceSync < FORCE_SYNC_NUM
  }

  function Taken(p: Point, v: UInt32): Point {
    if Suppresses(p, v) then p.(forceSync := p.forceSync + 1) else Point(v, 0)
  }

  function After(readings: seq<UInt32>, n: nat): Point
    requires n <= |readings|
  {
    if n == 0 then START else Taken(After(readings, n - 1), readings[n - 1])
  }

  predicate Forwarded(readings: seq<UInt32>, k: nat)
    requires k < |readings|
  {
    !Suppresses(After(readings, k), readings[k])
  }

  /** How many readings directly before reading k equal it. */
  function Position(readings: seq<UInt32>, k: nat): (r: nat)
    requires k < |readings|
    ensures r <= k
    ensures forall j :: k - r <= j <= k ==> readings[j] == readings[k]
    ensures r < k ==> readings[k - r - 1] != readings[k]
  {
    if k == 0 || readings[k - 1] != readings[k] then 0 else 1 + Position(readings, k - 1)
  }

  /** Reading k continues a run of sentinels that began with the first reading: the point
      takes even the first of them for a repetition. */
  predicate Masked(readings: seq<UInt32>, k: nat)
    requires k < |readings|
  {
    readings[k] == SENTINEL && Position(readings, k) == k
  }

  lemma {:induction false} StateAfter(readings: seq<UInt32>, k: nat)
    requires k < |readings|
    ensures After(readings, k + 1).valueOld == readings[k]
    ensures After(readings, k + 1).forceSync ==
            (Position(readings, k) + if Masked(readings, k) then 1 else 0) % 4
  {
    if k > 0 {
      StateAfter(readings, k - 1);
      NextMod4(Position(readings, k - 1) + if Masked(readings, k - 1) then 1 else 0);
    }
  }

  lemma NextMod4(p: nat)
    ensures (p + 1) % 4 == if p % 4 == 3 then 0 else p % 4 + 1
  {
  }

  lemma ForwardedByPlace(readings: seq<UInt32>, k: nat)
    requires k < |readings|
    ensures Forwarded(readings, k) <==>
            Position(readings, k) % 4 == if Masked(readings, k) then 3 else 0
    ensures 0 <= After(readings, k).forceSync <= 3
  {
    StateAfter(readings, k);
    if k > 0 {
      StateAfter(readings, k - 1);
      NextMod4(Position(readings, k - 1) + if Masked(readings, k - 1) then 1 else 0);
      NextMod4(Position(readings, k - 1));
    }
  }

  /** Which readings go through depends only on their place in their run of equal readings:
      the first and then every fourth one; in an opening run of sentinels the fourth, the
      eighth and so on. */
  lemma ForwardedIff(readings: seq<UInt32>, k: nat)
    requires k < |readings|
    ensures Forwarded(readings, k) <==>
            Position(readings, k) % 4 == if readings[k] == 0xFFFF_FFFF && Position(readings, k) == k then 3 else 0
    ensures 0 <= After(readings, k).forceSync <= 3
  {
    hide Forwarded, Position;
    ForwardedByPlace(readings, k);
  }

  /** Among any four consecutive readings at least one is passed on. */
  lemma AtMostThreeSuppressed(readings: seq<UInt32>, k: nat)
    requires k + 3 < |readings|
    ensures Forwarded(readings, k) || Forwarded(readings, k + 1) ||
            Forwarded(readings, k + 2) || Forwarded(readings, k + 3)
  {
    ForwardedIff(readings, k);
  }

  /** What the KNX side was told last, if anything. */
  function LastForwarded(readings: seq<UInt32>, n: nat): (r: int)
    requires n <= |readings|
  {
    if n == 0 then -1
    else if Forwarded(readings, n - 1) then readings[n - 1] as int
    else LastForwarded(readings, n - 1)
  }

  /** After every reading the KNX side holds the latest reading, unless the history consists
      of at most three sentinels and nothing else: then it was told nothing. */
  lemma {:induction false} LatestForwardedIff(readings: seq<UInt32>, n: nat)
    requires 0 < n <= |readings|
    ensures LastForwarded(readings, n) == readings[n - 1] as int <==>
            !(n <= 3 && forall j :: 0 <= j < n ==> readings[j] == 0xFFFF_FFFF)
    ensures LastForwarded(readings, n) in {-1, readings[n - 1] as int}
  {
    ForwardedIff(readings, n - 1);
    if n > 1 { LatestForwardedIff(readings, n - 1); }
  }
}

module ChangeFilter {
  import opened ChangeFilterSpec

  class MonitoredPoint {
    var value: UInt32
    var valueOld: UInt32
    var forceSync: int
    ghost var readings: seq<UInt32>

    ghost predicate Valid()
      reads this
    {
      Point(valueOld, forceSync) == After(readings, |readings|)
    }

    constructor ()
      ensures Valid() && readings == []
    {
      value, valueOld, forceSync, readings := 0, SENTINEL, 0, [];
    }

    /** One reading of the point. The counter moves even when the comparison with the limit
        fails, and is then cleared. */
    method Take(v: UInt32) returns (forwarded: bool)
      requires Valid()
      modifies this
      ensures Valid() && readings == old(readings) + [v] && value == v
      ensures forwarded == Forwarded(readings, |readings| - 1)
      ensures v != old(valueOld) ==> forwarded
      ensures 0 <= forceSync <= 3 && valueOld == v
    {
      value := v;
      var limit := FORCE_SYNC_NUM;
      forwarded := true;
      if valueOld == value {
        forwarded := forceSync >= limit;
        forceSync := forceSync + 1;
      }
      if forwarded {
        forceSync := 0;
        valueOld := value;
      }
      readings := readings + [v];
      PrefixAfter(old(readings), v, |old(readings)|);
      StateAfter(readings, |readings| - 1);
    }
  }

  lemma {:induction false} PrefixAfter(readings: seq<UInt32>, v: UInt32, n: nat)
    requires n <= |readings|
    ensures After(readings + [v], n) == After(readings, n)
  {
    if n > 0 { PrefixAfter(readings, v, n - 1); }
  }
}

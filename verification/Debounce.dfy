/** The debounce table of the KNX bus: a telegram of a registered group is held back until
    the group has been quiet for its expiry time, and only the last one is passed on. */
module DebounceSpec {
  /** The text of a group address, the key of the table. */
  datatype Group = Group(text: string)

  /** KnxDataType_t: the destination group and the value. */
  datatype Reading = Reading(group: Group, value: int)

  const BLANK := Reading(Group(""), 0)

  /** kv_item_t; times are milliseconds of the monotonic clock. */
  datatype Item = Item(value: Reading, stamp: nat, expire: nat, done: bool)

  /** The hash table: its items, and its keys in the order of insertion. */
  datatype Table = Table(items: map<Group, Item>, order: seq<Group>)

  const EMPTY := Table(map[], [])

  datatype Event =
    | Register(group: Group, expire: nat, now: nat)     // kv_set
    | Arrive(group: Group, reading: Reading, now: nat)  // kv_update
    | Poll(now: nat)                                     // one pass of KNX_DevDebounce

  // ---------------------------------------------------------------- the table

  predicate Due(item: Item, now: nat) {
    !item.done && now > item.stamp + item.expire
  }

  function Polled(item: Item, now: nat): Item {
    if Due(item, now) then item.(done := true) else item
  }

  function Apply(t: Table, e: Event): Table {
    match e
    case Register(g, expire, now) =>
      if g in t.items then t.(items := t.items[g := t.items[g].(stamp := now, expire := expire)])
      else Table(t.items[g := Item(BLANK, now, expire, false)], t.order + [g])
    case Arrive(g, r, now) =>
      if g in t.items then t.(items := t.items[g := t.items[g].(value := r, stamp := now, done := false)])
      else t
    case Poll(now) =>
      t.(items := map g | g in t.items :: Polled(t.items[g], now))
  }

  predicate Distinct(groups: seq<Group>) {
    forall i, j :: 0 <= i < j < |groups| ==> groups[i] != groups[j]
  }

  ghost predicate Proper(t: Table) {
    && Distinct(t.order)
    && (forall g :: g in t.items <==> g in t.order)
  }

  /** The groups that a pass emits, in the order of the table. */
  function Firing(items: map<Group, Item>, order: seq<Group>, now: nat): (r: seq<Group>)
    ensures forall g :: g in r <==>
              g in order && g in items && Due(items[g], now) && items[g].value.group.text != ""
  {
    if order == [] then []
    else
      var g := order[|order| - 1];
      var rest := Firing(items, order[..|order| - 1], now);
      assert order == order[..|order| - 1] + [g];
      if g in items && Due(items[g], now) && items[g].value.group.text != "" then rest + [g] else rest
  }

  function Values(items: map<Group, Item>, groups: seq<Group>): (r: seq<Reading>)
    requires forall g :: g in groups ==> g in items
    ensures |r| == |groups|
    ensures forall k :: 0 <= k < |r| ==> r[k] == items[groups[k]].value
  {
    seq(|groups|, k requires 0 <= k < |groups| => items[groups[k]].value)
  }

  lemma {:induction false} FiringOnce(items: map<Group, Item>, order: seq<Group>, now: nat)
    requires Distinct(order)
    ensures Distinct(Firing(items, order, now))
  {
    if order != [] {
      var before, g := order[..|order| - 1], order[|order| - 1];
      FiringOnce(items, before, now);
      assert g !in before;
      DistinctSnoc(Firing(items, before, now), g);
    }
  }

  lemma DistinctSnoc(groups: seq<Group>, g: Group)
    requires Distinct(groups) && g !in groups
    ensures Distinct(groups + [g])
  {
    forall i | 0 <= i < |groups| ensures groups[i] != g {
      assert groups[i] in groups;
    }
  }

  /** What a pass has emitted after the first i items. */
  function Emitted(items: map<Group, Item>, order: seq<Group>, i: nat, now: nat): seq<Reading>
    requires i <= |order|
  {
    Values(items, Firing(items, order[..i], now))
  }

  lemma PassDone(t: Table, items: map<Group, Item>, now: nat)
    requires Proper(t) && items.Keys == t.items.Keys
    requires forall k :: 0 <= k < |t.order| ==> items[t.order[k]] == Polled(t.items[t.order[k]], now)
    ensures Table(items, t.order) == Apply(t, Poll(now))
  {
    forall g | g in items ensures items[g] == Polled(t.items[g], now) {
      var k :| 0 <= k < |t.order| && t.order[k] == g;
    }
  }

  function EmittedBy(item: Item, now: nat): seq<Reading> {
    if Due(item, now) && item.value.group.text != "" then [item.value] else []
  }

  lemma EmittedStep(items: map<Group, Item>, order: seq<Group>, i: nat, now: nat)
    requires i < |order| && order[i] in items
    ensures Emitted(items, order, i + 1, now) ==
            Emitted(items, order, i, now) + EmittedBy(items[order[i]], now)
  {
    assert order[..i + 1][..i] == order[..i];
  }

  lemma EmittedNone(items: map<Group, Item>, order: seq<Group>, now: nat)
    ensures Emitted(items, order, 0, now) == []
    ensures Emitted(items, order, |order|, now) == Values(items, Firing(items, order, now))
  {
    assert order[..|order|] == order;
  }

  function Replay(log: seq<Event>, n: nat): Table
    requires n <= |log|
  {
    if n == 0 then EMPTY else Apply(Replay(log, n - 1), log[n - 1])
  }

  lemma {:induction false} ReplayProper(log: seq<Event>, n: nat)
    requires n <= |log|
    ensures Proper(Replay(log, n))
  {
    if n > 0 { ReplayProper(log, n - 1); }
  }

  // ---------------------------------------------------------------- what the log says

  predicate Known(log: seq<Event>, n: nat, g: Group)
    requires n <= |log|
  {
    exists j :: 0 <= j < n && log[j].Register? && log[j].group == g
  }

  /** The event takes the place of the group's reading: registered groups only. */
  predicate Arrives(log: seq<Event>, u: nat, g: Group)
    requires u < |log|
  {
    log[u].Arrive? && log[u].group == g && Known(log, u, g)
  }

  /** When the group was last registered or updated before event n. */
  function Stamp(log: seq<Event>, n: nat, g: Group): nat
    requires n <= |log|
  {
    if n == 0 then 0
    else if Arrives(log, n - 1, g) || (log[n - 1].Register? && log[n - 1].group == g) then log[n - 1].now
    else Stamp(log, n - 1, g)
  }

  function Expire(log: seq<Event>, n: nat, g: Group): nat
    requires n <= |log|
  {
    if n == 0 then 0
    else if log[n - 1].Register? && log[n - 1].group == g then log[n - 1].expire
    else Expire(log, n - 1, g)
  }

  /** Event j is a pass that comes after the deadline of the registered group. */
  predicate Past(log: seq<Event>, j: nat, g: Group)
    requires j < |log|
  {
    log[j].Poll? && Known(log, j, g) && log[j].now > Stamp(log, j, g) + Expire(log, j, g)
  }

  /** Pass k is the first one after a deadline since arrival u, and u is the latest arrival. */
  predicate Matures(log: seq<Event>, u: nat, k: nat, g: Group)
    requires k < |log|
  {
    && u < k && Arrives(log, u, g) && Past(log, k, g)
    && (forall j :: u < j < k ==> !Arrives(log, j, g) && !Past(log, j, g))
  }

  predicate LatestArrival(log: seq<Event>, n: nat, u: int, g: Group)
    requires n <= |log|
  {
    && -1 <= u < n
    && (u >= 0 ==> Arrives(log, u, g))
    && (forall j :: u < j < n ==> !Arrives(log, j, g))
  }

  predicate FiredSince(log: seq<Event>, n: nat, u: int, g: Group)
    requires n <= |log| && -1 <= u
  {
    exists j :: u < j < n && Past(log, j, g)
  }

  ghost predicate Agrees(t: Table, log: seq<Event>, n: nat, u: int, g: Group)
    requires n <= |log|
  {
    && LatestArrival(log, n, u, g)
    && (g in t.items <==> Known(log, n, g))
    && (g !in t.items ==> u == -1)
    && (g in t.items ==>
          var item := t.items[g];
          && item.stamp == Stamp(log, n, g)
          && item.expire == Expire(log, n, g)
          && item.value == (if u >= 0 then log[u].reading else BLANK)
          && item.done == FiredSince(log, n, u, g))
  }

  lemma KnownStep(log: seq<Event>, n: nat, g: Group)
    requires n < |log|
    ensures Known(log, n + 1, g) <==>
            Known(log, n, g) || (log[n].Register? && log[n].group == g)
  {
  }

  lemma KnownEarlier(log: seq<Event>, j: nat, n: nat, g: Group)
    requires j <= n <= |log| && Known(log, j, g)
    ensures Known(log, n, g)
  {
  }

  lemma FiredStep(log: seq<Event>, n: nat, u: int, g: Group)
    requires n < |log| && -1 <= u < n
    ensures FiredSince(log, n + 1, u, g) <==> FiredSince(log, n, u, g) || Past(log, n, g)
  {
  }

  lemma FiredIsKnown(log: seq<Event>, n: nat, u: int, g: Group)
    requires n <= |log| && -1 <= u
    ensures FiredSince(log, n, u, g) ==> Known(log, n, g)
  {
    if FiredSince(log, n, u, g) {
      var j :| u < j < n && Past(log, j, g);
      KnownEarlier(log, j, n, g);
    }
  }

  lemma AgreesStep(t: Table, log: seq<Event>, n: nat, u: int, g: Group) returns (v: int)
    requires n < |log| && Agrees(t, log, n, u, g)
    ensures Agrees(Apply(t, log[n]), log, n + 1, v, g)
  {
    KnownStep(log, n, g);
    FiredStep(log, n, u, g);
    FiredIsKnown(log, n, u, g);
    v := if Arrives(log, n, g) then n else u;
  }

  /** The table is what the log says of every group, for every log. */
  lemma {:induction false} TableMeetsLog(log: seq<Event>, n: nat, g: Group) returns (u: int)
    requires n <= |log|
    ensures Agrees(Replay(log, n), log, n, u, g)
  {
    if n == 0 {
      u := -1;
    } else {
      u := TableMeetsLog(log, n - 1, g);
      u := AgreesStep(Replay(log, n - 1), log, n - 1, u, g);
    }
  }

  lemma LatestIsOne(log: seq<Event>, n: nat, u: int, v: int, g: Group)
    requires n <= |log| && LatestArrival(log, n, u, g) && LatestArrival(log, n, v, g)
    ensures u == v
  {
  }

  predicate Fires(log: seq<Event>, k: nat, g: Group)
    requires k < |log| && log[k].Poll?
  {
    g in Firing(Replay(log, k).items, Replay(log, k).order, log[k].now)
  }

  /** A pass emits a group exactly when it is the first one past the deadline since the
      group's latest arrival (and that telegram names a group), and what it emits is that
      arrival. A group that was only registered is never emitted. */
  lemma EmissionIff(log: seq<Event>, k: nat, g: Group)
    requires k < |log| && log[k].Poll?
    ensures Fires(log, k, g) <==>
            exists u :: 0 <= u < k && Matures(log, u, k, g) && log[u].reading.group.text != ""
    ensures forall u :: 0 <= u < k && Matures(log, u, k, g) ==>
              g in Replay(log, k).items && Replay(log, k).items[g].value == log[u].reading
  {
    var t := Replay(log, k);
    var u := TableMeetsLog(log, k, g);
    ReplayProper(log, k);
    forall v | 0 <= v < k && Matures(log, v, k, g) ensures v == u {
      LatestIsOne(log, k, u, v, g);
    }
    if u >= 0 {
      assert Matures(log, u, k, g) <==> Past(log, k, g) && !FiredSince(log, k, u, g);
    }
  }

  /** An arrival is emitted by at most one pass, and a pass emits at most one arrival a group. */
  lemma OncePerArrival(log: seq<Event>, u: nat, k: nat, v: nat, l: nat, g: Group)
    requires k <= l < |log| && Matures(log, u, k, g) && Matures(log, v, l, g)
    ensures u == v <==> k == l
  {
    if k == l {
      LatestIsOne(log, k, u, v, g);
    }
  }

  predicate Undisturbed(log: seq<Event>, u: nat, k: nat, g: Group)
    requires k < |log|
  {
    forall j :: u < j < k ==> !(log[j].Register? && log[j].group == g) && !Arrives(log, j, g)
  }

  lemma {:induction false} DeadlineStays(log: seq<Event>, u: nat, k: nat, g: Group)
    requires u < k < |log| && Arrives(log, u, g) && Undisturbed(log, u, k, g)
    ensures Known(log, k, g)
    ensures Stamp(log, k, g) == log[u].now && Expire(log, k, g) == Expire(log, u, g)
    decreases k
  {
    KnownEarlier(log, u, k, g);
    if k > u + 1 {
      assert !(log[k - 1].Register? && log[k - 1].group == g) && !Arrives(log, k - 1, g);
      DeadlineStays(log, u, k - 1, g);
    }
  }

  /** While a group is not registered anew, an arrival is passed on if and only if some pass
      before the next arrival comes later than its time plus the expiry time. */
  lemma {:induction false} MaturesIff(log: seq<Event>, u: nat, n: nat, g: Group)
    requires u < n < |log| && Arrives(log, u, g) && Undisturbed(log, u, n, g)
    ensures (exists k :: u < k <= n && Matures(log, u, k, g)) <==>
            (exists k :: u < k <= n && log[k].Poll? && log[k].now > log[u].now + Expire(log, u, g))
    decreases n
  {
    forall k | u < k <= n
      ensures Past(log, k, g) <==> log[k].Poll? && log[k].now > log[u].now + Expire(log, u, g)
    {
      DeadlineStays(log, u, k, g);
    }
    if n > u + 1 {
      MaturesIff(log, u, n - 1, g);
    }
    if Past(log, n, g) && forall j :: u < j < n ==> !Past(log, j, g) {
      assert Matures(log, u, n, g);
    }
  }
}

module Debounce {
  import opened DebounceSpec

  class Debouncer {
    var items: map<Group, Item>
    var order: seq<Group>

    ghost predicate Valid()
      reads this
    {
      Proper(Contents())
    }

    ghost function Contents(): Table
      reads this
    {
      Table(items, order)
    }

    constructor ()
      ensures Valid() && Contents() == EMPTY
    {
      items, order := map[], [];
    }

    /** kv_set: registers the group, or restarts its time; a new item holds no reading. */
    method Set(group: Group, expire: nat, now: nat)
      requires Valid()
      modifies this
      ensures Valid() && Contents() == Apply(old(Contents()), Register(group, expire, now))
    {
      if group !in items {
        items := items[group := Item(BLANK, 0, 0, false)];
        order := order + [group];
      }
      items := items[group := items[group].(stamp := now, expire := expire)];
    }

    method Update(group: Group, reading: Reading, now: nat) returns (ret: int)
      requires Valid()
      modifies this
      ensures Valid() && Contents() == Apply(old(Contents()), Arrive(group, reading, now))
      ensures ret == if group in old(items) then 0 else -1
    {
      ret := -1;
      if group in items {
        items := items[group := items[group].(value := reading, stamp := now, done := false)];
        ret := 0;
      }
    }

    method Find(group: Group) returns (found: bool)
      requires Valid()
      ensures found <==> group in Contents().order
    {
      found := group in items;
    }

    /** The bus monitor: readings of registered groups go to the table, all others are passed
        on at once. */
    method Route(reading: Reading, now: nat) returns (direct: bool)
      requires Valid()
      modifies this
      ensures Valid() && direct == (reading.group !in old(items))
      ensures Contents() == Apply(old(Contents()), Arrive(reading.group, reading, now))
    {
      var found := Find(reading.group);
      if found {
        var ret := Update(reading.group, reading, now);
      }
      direct := !found;
    }

    method Visit(g: Group, now: nat) returns (emitted: seq<Reading>)
      requires g in items
      modifies this`items
      ensures items == old(items)[g := Polled(old(items)[g], now)]
      ensures emitted == EmittedBy(old(items)[g], now)
    {
      emitted := [];
      var item := items[g];
      if !item.done && now > item.stamp + item.expire {
        items := items[g := item.(done := true)];
        if item.value.group.text != "" {
          emitted := [item.value];
        }
      }
    }

    /** One pass of KNX_DevDebounce over the table. */
    method Tick(now: nat) returns (emitted: seq<Reading>)
      requires Valid()
      modifies this
      ensures Valid() && Contents() == Apply(old(Contents()), Poll(now))
      ensures emitted == Values(old(items), Firing(old(items), old(order), now))
    {
      hide Emitted, EmittedBy, Polled, Values, Firing;
      emitted := [];
      var i := 0;
      EmittedNone(items, order, now);
      while i < |order|
        invariant 0 <= i <= |order| && order == old(order) && items.Keys == old(items).Keys
        invariant forall k :: 0 <= k < i ==> items[order[k]] == Polled(old(items)[order[k]], now)
        invariant forall k :: i <= k < |order| ==> items[order[k]] == old(items)[order[k]]
        invariant emitted == Emitted(old(items), order, i, now)
      {
        EmittedStep(old(items), order, i, now);
        var out := Visit(order[i], now);
        emitted := emitted + out;
        i := i + 1;
      }
      PassDone(Table(old(items), order), items, now);
    }
  }
}

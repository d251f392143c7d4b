/** Ordered insertion as a function on sequences, and what it means for a comparator
    that is a total preorder. */
module QueueSpec {
  type Comparator<!T> = (T, T) -> int

  /** The comparison in the direction the queue sorts. */
  function Compare<T>(asc: bool, cmp: Comparator<T>, a: T, b: T): int {
    if asc then cmp(a, b) else -cmp(a, b)
  }

  /** The first position from i on whose neighbours enclose the element, else the end. */
  function Scan<T>(xs: seq<T>, el: T, asc: bool, cmp: Comparator<T>, i: nat): (k: nat)
    requires 0 < i <= |xs|
    ensures i <= k <= |xs|
    decreases |xs| - i
  {
    if i == |xs| then i
    else if Compare(asc, cmp, xs[i - 1], el) <= 0 && Compare(asc, cmp, el, xs[i]) <= 0 then i
    else Scan(xs, el, asc, cmp, i + 1)
  }

  /** Where a sorted queue puts a new element. */
  function Place<T>(xs: seq<T>, el: T, asc: bool, cmp: Comparator<T>): (k: nat)
    ensures k <= |xs|
  {
    if xs == [] || Compare(asc, cmp, xs[0], el) >= 0 then 0 else Scan(xs, el, asc, cmp, 1)
  }

  function InsertAt<T>(xs: seq<T>, k: nat, el: T): seq<T>
    requires k <= |xs|
  {
    xs[..k] + [el] + xs[k..]
  }

  function RemoveAt<T>(xs: seq<T>, k: nat): seq<T>
    requires k < |xs|
  {
    xs[..k] + xs[k + 1..]
  }

  /** The contents after a successful put. */
  function Inserted<T>(xs: seq<T>, el: T, sort: bool, asc: bool, cmp: Comparator<T>): seq<T> {
    InsertAt(xs, if sort then Place(xs, el, asc, cmp) else |xs|, el)
  }

  ghost predicate TotalPreorder<T(!new)>(cmp: Comparator<T>) {
    && (forall a, b :: cmp(a, b) < 0 <==> cmp(b, a) > 0)
    && (forall a, b, c :: cmp(a, b) <= 0 && cmp(b, c) <= 0 ==> cmp(a, c) <= 0)
  }

  ghost predicate Sorted<T>(xs: seq<T>, asc: bool, cmp: Comparator<T>) {
    forall i, j :: 0 <= i <= j < |xs| ==> Compare(asc, cmp, xs[i], xs[j]) <= 0
  }

  /** The new element stands behind exactly the elements that sort strictly before it. */
  ghost predicate SplitsAt<T>(xs: seq<T>, el: T, asc: bool, cmp: Comparator<T>, k: nat)
    requires k <= |xs|
  {
    && (forall i :: 0 <= i < k ==> Compare(asc, cmp, xs[i], el) < 0)
    && (forall i :: k <= i < |xs| ==> Compare(asc, cmp, xs[i], el) >= 0)
  }

  lemma {:induction false} ScanSplits<T(!new)>(xs: seq<T>, el: T, asc: bool, cmp: Comparator<T>, i: nat)
    requires TotalPreorder(cmp) && Sorted(xs, asc, cmp) && 0 < i <= |xs|
    requires forall j :: 0 <= j < i ==> Compare(asc, cmp, xs[j], el) < 0
    ensures SplitsAt(xs, el, asc, cmp, Scan(xs, el, asc, cmp, i))
    decreases |xs| - i
  {
    if i < |xs| {
      if Compare(asc, cmp, el, xs[i]) <= 0 {
        forall j | i <= j < |xs| ensures Compare(asc, cmp, xs[j], el) >= 0 {
          assert Compare(asc, cmp, xs[i], xs[j]) <= 0;
        }
      } else {
        ScanSplits(xs, el, asc, cmp, i + 1);
      }
    }
  }

  lemma PlaceSplits<T(!new)>(xs: seq<T>, el: T, asc: bool, cmp: Comparator<T>)
    requires TotalPreorder(cmp) && Sorted(xs, asc, cmp)
    ensures SplitsAt(xs, el, asc, cmp, Place(xs, el, asc, cmp))
  {
    if xs != [] {
      if Compare(asc, cmp, xs[0], el) >= 0 {
        forall j | 0 <= j < |xs| ensures Compare(asc, cmp, xs[j], el) >= 0 {
          assert Compare(asc, cmp, xs[0], xs[j]) <= 0;
        }
      } else {
        ScanSplits(xs, el, asc, cmp, 1);
      }
    }
  }

  /** Sorted insertion: for a total preorder and a sorted queue the new element goes between
      the elements strictly before it and the others, so it precedes its equals, and the
      queue stays sorted. */
  lemma SortedInsertion<T(!new)>(xs: seq<T>, el: T, asc: bool, cmp: Comparator<T>)
    requires TotalPreorder(cmp) && Sorted(xs, asc, cmp)
    ensures SplitsAt(xs, el, asc, cmp, Place(xs, el, asc, cmp))
    ensures Sorted(Inserted(xs, el, true, asc, cmp), asc, cmp)
    ensures multiset(Inserted(xs, el, true, asc, cmp)) == multiset(xs) + multiset{el}
    ensures var k, ys := Place(xs, el, asc, cmp), Inserted(xs, el, true, asc, cmp);
            && ys == xs[..k] + [el] + xs[k..]
            && (forall i :: 0 <= i < k ==> if asc then cmp(xs[i], el) < 0 else cmp(xs[i], el) > 0)
            && (forall i :: k <= i < |xs| ==> if asc then cmp(xs[i], el) >= 0 else cmp(xs[i], el) <= 0)
            && (forall i, j :: 0 <= i <= j < |ys| ==> if asc then cmp(ys[i], ys[j]) <= 0 else cmp(ys[i], ys[j]) >= 0)
  {
    PlaceSplits(xs, el, asc, cmp);
    InsertionSorted(xs, el, asc, cmp, Place(xs, el, asc, cmp));
    InsertionAdds(xs, Place(xs, el, asc, cmp), el);
    SplitMeans(xs, el, asc, cmp, Place(xs, el, asc, cmp));
    SortedMeans(Inserted(xs, el, true, asc, cmp), asc, cmp);
  }

  lemma SplitMeans<T(!new)>(xs: seq<T>, el: T, asc: bool, cmp: Comparator<T>, k: nat)
    requires k <= |xs| && SplitsAt(xs, el, asc, cmp, k)
    ensures forall i :: 0 <= i < k ==> if asc then cmp(xs[i], el) < 0 else cmp(xs[i], el) > 0
    ensures forall i :: k <= i < |xs| ==> if asc then cmp(xs[i], el) >= 0 else cmp(xs[i], el) <= 0
  {
  }

  /** Sorted in the direction of the queue, in terms of its comparator. */
  lemma SortedMeans<T(!new)>(xs: seq<T>, asc: bool, cmp: Comparator<T>)
    ensures Sorted(xs, asc, cmp) <==>
            forall i, j :: 0 <= i <= j < |xs| ==> if asc then cmp(xs[i], xs[j]) <= 0 else cmp(xs[i], xs[j]) >= 0
  {
  }

  lemma InsertionAdds<T>(xs: seq<T>, k: nat, el: T)
    requires k <= |xs|
    ensures multiset(InsertAt(xs, k, el)) == multiset(xs) + multiset{el}
  {
    assert xs == xs[..k] + xs[k..];
    assert multiset(xs) == multiset(xs[..k]) + multiset(xs[k..]);
  }

  lemma InsertionSorted<T(!new)>(xs: seq<T>, el: T, asc: bool, cmp: Comparator<T>, k: nat)
    requires TotalPreorder(cmp) && Sorted(xs, asc, cmp) && k <= |xs| && SplitsAt(xs, el, asc, cmp, k)
    ensures Sorted(InsertAt(xs, k, el), asc, cmp)
  {
    var ys := InsertAt(xs, k, el);
    assert cmp(el, el) == 0;
    forall i, j | 0 <= i <= j < |ys| ensures Compare(asc, cmp, ys[i], ys[j]) <= 0 {
      assert ys[i] == if i < k then xs[i] else if i == k then el else xs[i - 1];
      assert ys[j] == if j < k then xs[j] else if j == k then el else xs[j - 1];
    }
  }
}

/** The queue on the heap, one operation at a time: what happens between taking the
    queue's mutex and giving it back, apart from waiting. */
module BlockingQueue {
  import opened QueueSpec

  datatype Option<+T> = None | Some(value: T)

  datatype Code = Ok | NoNewData | InvalidElement | NumElements

  type UIntX = n: int | 0 <= n <= 65535

  const MAX_ELEMENTS: int := 65534  // UINTX_MAX - 1

  class Cell<T> {
    var next: Cell?<T>
    const data: T

    constructor (data: T)
      ensures this.data == data && next == null
    {
      this.data := data;
      next := null;
    }
  }

  ghost function Data<T>(cells: seq<Cell<T>>): (data: seq<T>)
    ensures |data| == |cells|
    ensures forall i :: 0 <= i < |cells| ==> data[i] == cells[i].data
  {
    seq(|cells|, i requires 0 <= i < |cells| => cells[i].data)
  }

  lemma DataInsert<T>(cells: seq<Cell<T>>, k: nat, cell: Cell<T>)
    requires k <= |cells|
    ensures Data(InsertAt(cells, k, cell)) == InsertAt(Data(cells), k, cell.data)
    ensures InsertAt(cells, |cells|, cell) == cells + [cell]
  {
  }

  /** A chain without repetition that ends in null. */
  ghost predicate Chain<T>(cells: seq<Cell<T>>)
    reads cells
  {
    && (forall i, j :: 0 <= i < j < |cells| ==>
          cells[i] != cells[j] && (j == i + 1 ==> cells[i].next == cells[j]))
    && (cells != [] ==> cells[|cells| - 1].next == null)
  }

  ghost function At<T>(cells: seq<Cell<T>>, i: int): Cell?<T> {
    if 0 <= i < |cells| then cells[i] else null
  }

  /** A filtered get compares cells; no comparator means the first cell will do. */
  predicate Matches<T>(filter: Option<Cell<T> -> int>, cell: Cell<T>) {
    filter.None? || filter.value(cell) == 0
  }

  /** The index of the first match from i on, or the length without one. */
  ghost function FirstMatch<T>(cells: seq<Cell<T>>, filter: Option<Cell<T> -> int>, i: nat): (k: nat)
    requires i <= |cells|
    ensures i <= k <= |cells|
    ensures k < |cells| ==> Matches(filter, cells[k])
    ensures forall j :: i <= j < k ==> !Matches(filter, cells[j])
    decreases |cells| - i
  {
    if i == |cells| || Matches(filter, cells[i]) then i else FirstMatch(cells, filter, i + 1)
  }

  class Queue<T> {
    var first: Cell?<T>
    var last: Cell?<T>
    var numEls: int
    const maxEls: UIntX
    var newData: bool
    const sort: bool
    const asc: bool
    const cmp: Comparator<T>
    ghost var cells: seq<Cell<T>>

    /** The chain hangs off first_el. */
    ghost predicate Chained()
      reads this, cells
    {
      Chain(cells) && first == At(cells, 0) && numEls >= |cells|
    }

    /** last_el is the end of the chain. */
    ghost predicate LastOk()
      reads this
    {
      last == At(cells, |cells| - 1)
    }

    /** last_el was taken out of the chain. */
    ghost predicate Stale()
      reads this
    {
      cells != [] && last != null && last !in cells
    }

    /** What every operation keeps: the chain is exact, last_el is its end or stale. */
    ghost predicate Sound()
      reads this, cells
    {
      Chained() && (LastOk() || Stale())
    }

    ghost predicate Valid()
      reads this, cells
    {
      && Chained() && LastOk()
      && numEls == |cells| <= MAX_ELEMENTS
      && (maxEls != 0 ==> numEls <= maxEls)
    }

    constructor (maxEls: UIntX, sort: bool, asc: bool, cmp: Comparator<T>)
      ensures Valid() && cells == [] && newData
      ensures this.maxEls == maxEls && this.sort == sort && this.asc == asc && this.cmp == cmp
    {
      first, last, numEls, newData, cells := null, null, 0, true, [];
      this.maxEls, this.sort, this.asc, this.cmp := maxEls, sort, asc, cmp;
    }

    predicate Full()
      reads this
    {
      numEls == MAX_ELEMENTS || (maxEls != 0 && numEls == maxEls)
    }

    /** The unsorted branch: the cell goes behind last_el, which need not be in the chain. */
    method Append(cell: Cell<T>)
      requires Sound() && cell !in cells && cell.next == null
      modifies `first, `last, `cells, cells, last
      ensures Chain(cells) && first == At(cells, 0) && last == cell
      ensures cells == if old(LastOk()) then old(cells) + [cell] else old(cells)
    {
      ghost var ok := LastOk();
      if last == null {
        first := cell;
      } else {
        last.next := cell;
      }
      last := cell;
      if ok {
        cells := cells + [cell];
      }
    }

    /** The cell goes between s and t, the neighbours at k - 1 and k. */
    method LinkBetween(s: Cell<T>, cell: Cell<T>, t: Cell?<T>, ghost k: nat)
      requires Sound() && 0 < k <= |cells| && cell !in cells && last != cell
      requires s == cells[k - 1] && t == At(cells, k)
      modifies `last, `cells, s`next, cell`next
      ensures cells == InsertAt(old(cells), k, cell)
      ensures Chain(cells) && first == At(cells, 0) && (LastOk() || Stale())
      ensures LastOk() <==> old(LastOk()) || k == |old(cells)|
    {
      s.next := cell;
      cell.next := t;
      if t == null {
        last := cell;
      }
      ghost var was := cells;
      cells := was[..k] + [cell] + was[k..];
      forall i, j | 0 <= i < j < |cells|
        ensures cells[i] != cells[j] && (j == i + 1 ==> cells[i].next == cells[j])
      {
        assert cells[i] == if i < k then was[i] else if i == k then cell else was[i - 1];
        assert cells[j] == if j < k then was[j] else if j == k then cell else was[j - 1];
      }
    }

    /** The search of the sorted branch: the neighbours of the new element. */
    method FindPlace(el: T) returns (s: Cell<T>, t: Cell?<T>)
      requires Chained() && cells != [] && Compare(asc, cmp, cells[0].data, el) < 0
      ensures var k := Place(Data(cells), el, asc, cmp);
              0 < k && s == cells[k - 1] && t == At(cells, k)
    {
      s, t := first, first.next;
      ghost var k := 1;
      ghost var data := Data(cells);
      assert |cells| > 1 ==> cells[0].next == cells[1];
      while t != null
        invariant 1 <= k <= |cells| && s == cells[k - 1] && t == At(cells, k)
        invariant Scan(data, el, asc, cmp, 1) == Scan(data, el, asc, cmp, k)
        decreases |cells| - k
      {
        if asc && cmp(s.data, el) <= 0 && cmp(el, t.data) <= 0 {
          break;
        } else if !asc && cmp(s.data, el) >= 0 && cmp(el, t.data) >= 0 {
          break;
        }
        assert k + 1 < |cells| ==> cells[k].next == cells[k + 1];
        s, t := t, t.next;
        k := k + 1;
      }
    }

    /** The sorted branch, for a queue that is not empty. */
    method InsertSorted(cell: Cell<T>)
      requires Sound() && cell !in cells && cells != [] && last != cell
      modifies `first, `last, `cells, cells, cell
      ensures cells == InsertAt(old(cells), Place(Data(old(cells)), cell.data, asc, cmp), cell)
      ensures Chain(cells) && first == At(cells, 0) && (LastOk() || Stale())
      ensures LastOk() <==> old(LastOk()) || Place(Data(old(cells)), cell.data, asc, cmp) == |old(cells)|
    {
      var el := cell.data;
      var ascFirst := asc && cmp(first.data, el) >= 0;
      var descFirst := !asc && cmp(first.data, el) <= 0;
      if !ascFirst && !descFirst {
        var s, t := FindPlace(el);
        LinkBetween(s, cell, t, Place(Data(cells), el, asc, cmp));
      } else {
        cell.next := first;
        first := cell;
        cells := [cell] + cells;
      }
    }

    /** Where a put places its element. */
    ghost function Slot(el: T): (k: nat)
      reads this
      ensures k <= |cells|
    {
      if sort then Place(Data(cells), el, asc, cmp) else |cells|
    }

    /** The insertion of a put, past its checks. */
    method Insert(el: T) returns (ghost cell: Cell<T>)
      requires Sound()
      modifies `first, `last, `numEls, `cells, cells, last
      ensures Sound() && numEls == old(numEls) + 1 && fresh(cell) && cell.data == el
      ensures cells == if old(LastOk()) || sort then InsertAt(old(cells), old(Slot(el)), cell) else old(cells)
      ensures LastOk() <==> old(LastOk()) || (sort && old(Slot(el)) == |old(cells)|)
    {
      var c := new Cell(el);
      cell := c;
      if !sort || first == null {
        Append(c);
      } else {
        InsertSorted(c);
      }
      numEls := numEls + 1;
    }

    /** queue_put_internal without waiting; the ghost result is the new cell, if any. A put
        that reports success is lost exactly when the queue is unsorted and last_el stale; in
        a sorted queue it even repairs a stale last_el when it lands at the end. */
    method Put(el: T) returns (r: Code, ghost cell: Cell?<T>)
      requires Sound()
      modifies `first, `last, `numEls, `cells, cells, last
      ensures r == NoNewData <==> !newData
      ensures r == NumElements <==>
              newData && (old(numEls) == 65534 || (maxEls != 0 && old(numEls) == maxEls))
      ensures r in {Ok, NoNewData, NumElements}
      ensures !r.Ok? ==> unchanged(this) && unchanged(cells)
      ensures Sound()
      ensures r.Ok? ==> cell != null && fresh(cell) && cell.data == el && numEls == old(numEls) + 1
      ensures r.Ok? ==> (cell in cells <==> old(LastOk()) || sort)
      ensures r.Ok? && (old(LastOk()) || sort) ==> cells == InsertAt(old(cells), old(Slot(el)), cell)
      ensures r.Ok? && (old(LastOk()) || sort) ==> Data(cells) == Inserted(old(Data(cells)), el, sort, asc, cmp)
      ensures r.Ok? && !old(LastOk()) && !sort ==> cells == old(cells)
      ensures r.Ok? ==> (LastOk() <==> old(LastOk()) || (sort && old(Slot(el)) == |old(cells)|))
      ensures r.Ok? && old(Valid()) ==> Valid()
    {
      cell := null;
      if !newData {
        return NoNewData, null;
      }
      if Full() {
        return NumElements, null;
      }
      ghost var k, was := Slot(el), cells;
      cell := Insert(el);
      DataInsert(was, k, cell);
      r := Ok;
    }

    /** A put on an open queue in order, by its contents. */
    method PutNext(el: T) returns (r: Code)
      requires Valid() && newData
      modifies `first, `last, `numEls, `cells, cells
      ensures Valid() && numEls == |Data(cells)|
      ensures fresh(set c | c in cells && c !in old(cells))
      ensures r == if old(numEls) == 65534 || (maxEls != 0 && old(numEls) == maxEls) then NumElements else Ok
      ensures numEls == if r.Ok? then old(numEls) + 1 else old(numEls)
      ensures !sort ==> Data(cells) == old(Data(cells)) + if r.Ok? then [el] else []
    {
      ghost var cell;
      r, cell := Put(el);
    }

    /** The search of a get: the first match and the cell before it. */
    method Find(filter: Option<Cell<T> -> int>) returns (prev: Cell?<T>, el: Cell?<T>)
      requires Chained()
      ensures el == At(cells, FirstMatch(cells, filter, 0)) && prev == At(cells, FirstMatch(cells, filter, 0) - 1)
    {
      prev, el := null, first;
      ghost var k := 0;
      while filter.Some? && el != null && filter.value(el) != 0
        invariant 0 <= k <= |cells| && el == At(cells, k) && prev == At(cells, k - 1)
        invariant FirstMatch(cells, filter, 0) == FirstMatch(cells, filter, k)
        decreases |cells| - k
      {
        assert k + 1 < |cells| ==> cells[k].next == cells[k + 1];
        prev := el;
        el := el.next;
        k := k + 1;
      }
    }

    /** queue_get_internal without waiting. */
    method Get(filter: Option<Cell<T> -> int>) returns (r: Code, e: Option<T>)
      requires Chained()
      modifies `first, `last, `numEls, `cells, cells
      ensures Chained() && (old(Sound()) ==> Sound())
      ensures r == if old(numEls) == 0 then NumElements
                   else if FirstMatch(old(cells), filter, 0) == |old(cells)| then InvalidElement else Ok
      ensures !r.Ok? ==> e == None && unchanged(this)
      ensures r.Ok? ==> var k := FirstMatch(old(cells), filter, 0);
                        && e == Some(old(cells)[k].data) && numEls == old(numEls) - 1
                        && cells == RemoveAt(old(cells), k)
                        && last == if |old(cells)| == 1 then null else old(last)
    {
      if numEls == 0 {
        return NumElements, None;
      }
      var prev, el := Find(filter);
      ghost var k := FirstMatch(cells, filter, 0);
      if el != null && prev == null {
        RemoveFirst(el);
        return Ok, Some(el.data);
      } else if el != null && prev != null {
        Unlink(prev, el, k);
        numEls := numEls - 1;
        return Ok, Some(el.data);
      } else {
        return InvalidElement, None;
      }
    }

    /** A get keeps the representation unless it takes the end of the chain from behind
        another cell: exactly then last_el is left pointing at the cell taken out. */
    twostate lemma GetKeepsUnlessTail(k: nat)
      requires old(Valid()) && k < |old(cells)| && Chained()
      requires cells == RemoveAt(old(cells), k) && numEls == old(numEls) - 1
      requires last == if |old(cells)| == 1 then null else old(last)
      ensures Valid() <==> !(0 < k == |old(cells)| - 1)
      ensures !Valid() ==> Stale()
    {
      var was := old(cells);
      var n := |was|;
      assert forall i, j :: 0 <= i < j < n ==> was[i] != was[j];
      if n > 1 {
        assert last == was[n - 1];
        assert cells[n - 2] == if k < n - 1 then was[n - 1] else was[n - 2];
      }
    }

    /** The first branch of a get. */
    method RemoveFirst(el: Cell<T>)
      requires Chained() && cells != [] && el == cells[0]
      modifies `first, `last, `numEls, `cells
      ensures Chained() && cells == RemoveAt(old(cells), 0) && numEls == old(numEls) - 1
      ensures last == if |old(cells)| == 1 then null else old(last)
      ensures old(Sound()) ==> Sound()
    {
      assert |cells| > 1 ==> el.next == cells[1];
      first := el.next;
      if first == null {
        last := null;
      }
      numEls := numEls - 1;
      cells := cells[1..];
    }

    /** The middle branch of a get: the cell at k > 0 leaves the chain, last_el stays. */
    method Unlink(prev: Cell<T>, el: Cell<T>, ghost k: nat)
      requires Chain(cells) && 0 < k < |cells| && prev == cells[k - 1] && el == cells[k]
      modifies `cells, prev
      ensures Chain(cells) && cells == RemoveAt(old(cells), k) && cells[0] == old(cells)[0]
      ensures old(LastOk() || Stale()) ==> LastOk() || Stale()
    {
      ghost var was := cells;
      assert k + 1 < |was| ==> el.next == was[k + 1];
      prev.next := el.next;
      cells := was[..k] + was[k + 1..];
      forall i, j | 0 <= i < j < |cells|
        ensures cells[i] != cells[j] && (j == i + 1 ==> cells[i].next == cells[j])
      {
        assert cells[i] == was[if i < k then i else i + 1];
        assert cells[j] == was[if j < k then j else j + 1];
      }
    }

    /** queue_flush_internal; the result lists the data handed to the free function. */
    method Flush() returns (freed: seq<T>)
      requires Chained()
      modifies `first, `last, `numEls, `cells
      ensures Valid() && cells == [] && freed == old(Data(cells))
    {
      freed := [];
      var qe := first;
      while qe != null
        invariant |freed| <= |cells| && qe == At(cells, |freed|)
        invariant freed == Data(cells)[..|freed|]
        decreases |cells| - |freed|
      {
        ghost var k := |freed|;
        assert k + 1 < |cells| ==> cells[k].next == cells[k + 1];
        freed := freed + [qe.data];
        qe := qe.next;
      }
      first, last, numEls := null, null, 0;
      cells := [];
    }

    /** queue_flush_put: one critical section that empties the queue and puts one element. */
    method FlushPut(el: T) returns (r: Code)
      requires Chained()
      modifies `first, `last, `numEls, `cells, cells
      ensures r == if newData then Ok else NoNewData
      ensures Valid() && Data(cells) == if newData then [el] else []
    {
      var freed := Flush();
      ghost var cell;
      r, cell := Put(el);
    }

    method SetNewData(v: bool)
      modifies `newData
      ensures newData == v
    {
      newData := v;
    }
  }

  /** How many of n puts in a row fit. */
  function Fitting(n: nat, maxEls: int): int {
    if n > 65534 && (maxEls == 0 || maxEls > 65534) then 65534
    else if maxEls != 0 && n > maxEls then maxEls
    else n
  }

  /** Puts in a row on an empty open queue: exactly as many succeed as the limit says, 65534
      without one, and all further ones are refused. */
  method PutAll<T>(q: Queue<T>, xs: seq<T>) returns (codes: seq<Code>)
    requires q.Valid() && q.newData && q.cells == []
    modifies q
    ensures q.Valid() && |codes| == |xs|
    ensures forall i :: 0 <= i < |xs| ==>
              codes[i] == if i < 65534 && (q.maxEls == 0 || i < q.maxEls) then Ok else NumElements
    ensures !q.sort ==> Data(q.cells) == xs[..Fitting(|xs|, q.maxEls)]
  {
    codes := [];
    assert q.numEls == 0;
    hide Queue.Valid, Data;
    while |codes| < |xs|
      invariant q.Valid() && q.newData && |codes| <= |xs| && fresh(set c | c in q.cells)
      invariant forall i :: 0 <= i < |codes| ==>
                  codes[i] == if i < 65534 && (q.maxEls == 0 || i < q.maxEls) then Ok else NumElements
      invariant q.numEls == Fitting(|codes|, q.maxEls)
      invariant !q.sort ==> Data(q.cells) == xs[..Fitting(|codes|, q.maxEls)]
    {
      var r := q.PutNext(xs[|codes|]);
      codes := codes + [r];
    }
  }

  method QueueOfTwo<T>(a: T, b: T) returns (q: Queue<T>)
    ensures fresh(q) && fresh(q.cells) && q.Valid()
    ensures !q.sort && q.newData && q.maxEls == 0 && Data(q.cells) == [a, b]
  {
    q := new Queue(0, false, true, (x: T, y: T) => 0);
    var r, cell := q.Put(a);
    assert Data(q.cells) == [a];
    r, cell := q.Put(b);
  }

  /** Taking the tail from behind another cell with a filtered get loses the next put: it
      reports success, yet its element hangs off the cell that was taken out, and no get
      returns it. */
  method TailRemovalLosesAPut<T(==)>(a: T, b: T, c: T) returns (removed: Option<T>, put: Code, got: Option<T>, end: Code, left: int)
    requires a != b
    ensures removed == Some(b) && put == Ok && got == Some(a)
    ensures end == InvalidElement && left == 1
  {
    var none;
    var q := QueueOfTwo(a, b);
    var r;
    ghost var cell;
    var filter := (x: Cell<T>) => if x.data == b then 0 else 1;
    assert FirstMatch(q.cells, Some(filter), 0) == FirstMatch(q.cells, Some(filter), 1) == 1;
    r, removed := q.Get(Some(filter));
    put, cell := q.Put(c);
    r, got := q.Get(None);
    end, none := q.Get(None);
    left := q.numEls;
  }
}

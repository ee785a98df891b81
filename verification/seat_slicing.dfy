/** Test-start seat distribution (load_testing/locustfile.py, `on_test_start`).

    The whole seat space `[0, total_capacity)` is cut into contiguous slices
    of at most `SEATS_PER_USER` seats, in index order, and every slice is put
    on the shared queue exactly once; each simulated user later takes one. */
module SeatSlicing {
  import opened Common
  import opened SeatSpace

  /** Unique seats handed to each simulated user. */
  const SEATS_PER_USER: nat := 78

  /** The seats one user owns. */
  type Slice = seq<Seat>

  /** The capacity is zero exactly when some dimension is zero. So a
      positive capacity can only come from non-zero row and column counts,
      and `IdxToSeat` never divides by zero on `[0, capacity)`. */
  lemma CapacityNeedsDims(l: Layout)
    ensures l.Capacity() == 0 <==> l.zoneCount == 0 || l.rowCount == 0 || l.colCount == 0
  {
    if l.zoneCount != 0 && l.rowCount != 0 && l.colCount != 0 {
      NonZeroProduct(l.zoneCount, l.rowCount);
      NonZeroProduct(l.zoneCount * l.rowCount, l.colCount);
    } else if l.rowCount == 0 {
      assert l.zoneCount * l.rowCount == 0;
    }
  }

  /** The seats of indices `lo, lo+1, ..., hi-1`, in index order. */
  function SeatRange(l: Layout, lo: int, hi: int): (s: seq<Seat>)
    requires lo < hi ==> l.rowCount != 0 && l.colCount != 0
    ensures |s| == Max(0, hi - lo)
    ensures forall k :: 0 <= k < |s| ==> s[k] == IdxToSeat(l, lo + k)
    decreases hi - lo
  {
    if hi <= lo then [] else SeatRange(l, lo, hi - 1) + [IdxToSeat(l, hi - 1)]
  }

  /** `idx_to_seat(0), ..., idx_to_seat(total_capacity - 1)`. */
  function AllSeats(l: Layout): seq<Seat> {
    if l.Capacity() <= 0 then []
    else
      CapacityNeedsDims(l);
      SeatRange(l, 0, l.Capacity())
  }

  /** Concatenation of slices in queue order. */
  function Concat(q: seq<Slice>): seq<Seat> {
    if q == [] then [] else Concat(q[..|q| - 1]) + q[|q| - 1]
  }

  /** How many slices the loop `range(0, total_capacity, per)` produces. */
  function SliceCount(l: Layout, per: nat): nat
    requires per > 0
  {
    if l.Capacity() <= 0 then 0 else CeilDiv(l.Capacity(), per)
  }

  /** The `k`-th slice: indices `[k·per, min((k+1)·per, total_capacity))`. */
  function SliceAt(l: Layout, per: nat, k: nat): Slice
    requires per > 0
    requires k * per < l.Capacity()
  {
    CapacityNeedsDims(l);
    SeatRange(l, k * per, Min(k * per + per, l.Capacity()))
  }

  /** Every slice in `q` is the slice its position calls for. */
  predicate SlicesInOrder(l: Layout, per: nat, q: seq<Slice>)
    requires per > 0
  {
    forall k :: 0 <= k < |q| ==> SliceInPlace(l, per, q, k)
  }

  /** Position `k` of `q` holds the `k`-th slice. */
  predicate SliceInPlace(l: Layout, per: nat, q: seq<Slice>, k: nat)
    requires per > 0
    requires k < |q|
  {
    k * per < l.Capacity() && q[k] == SliceAt(l, per, k)
  }

  /** The queue content `on_test_start` is meant to leave behind. */
  predicate SlicedQueue(l: Layout, per: nat, q: seq<Slice>)
    requires per > 0
  {
    |q| == SliceCount(l, per) && SlicesInOrder(l, per, q)
  }

  lemma SlicesInOrderExtend(l: Layout, per: nat, q: seq<Slice>, next: Slice)
    requires per > 0
    requires SlicesInOrder(l, per, q)
    requires |q| * per < l.Capacity()
    requires next == SeatRange(l, |q| * per, Min(|q| * per + per, l.Capacity()))
    ensures SlicesInOrder(l, per, q + [next])
  {
    var q' := q + [next];
    forall k | 0 <= k < |q'|
      ensures SliceInPlace(l, per, q', k)
    {
      if k < |q| {
        assert q'[k] == q[k];
        assert SliceInPlace(l, per, q, k);
      } else {
        assert q'[k] == next;
      }
    }
  }

  lemma SeatRangeSplit(l: Layout, lo: int, mid: int, hi: int)
    requires lo <= mid <= hi
    requires lo < hi ==> l.rowCount != 0 && l.colCount != 0
    ensures SeatRange(l, lo, mid) + SeatRange(l, mid, hi) == SeatRange(l, lo, hi)
  {
    var a, b, c := SeatRange(l, lo, mid), SeatRange(l, mid, hi), SeatRange(l, lo, hi);
    assert |a + b| == |c|;
    forall k | 0 <= k < |c|
      ensures (a + b)[k] == c[k]
    {
      if k < |a| {
        assert (a + b)[k] == a[k];
      } else {
        assert (a + b)[k] == b[k - |a|];
      }
    }
  }

  /** The inner loop of `on_test_start`: the seats of
      `range(start, stop)`, appended one index at a time. */
  method CollectSlice(l: Layout, start: int, stop: int) returns (sliceSeats: Slice)
    requires l.rowCount != 0 && l.colCount != 0
    requires start <= stop
    ensures sliceSeats == SeatRange(l, start, stop)
  {
    sliceSeats := [];
    var idx := start;
    while idx < stop
      invariant idx == start + |sliceSeats| <= stop
      invariant forall k :: 0 <= k < |sliceSeats| ==> sliceSeats[k] == IdxToSeat(l, start + k)
    {
      sliceSeats := sliceSeats + [IdxToSeat(l, idx)];
      idx := idx + 1;
    }
    SeatRangeByElements(l, start, stop, sliceSeats);
  }

  /** A sequence with the elements of a seat range is that range. */
  lemma SeatRangeByElements(l: Layout, lo: int, hi: int, s: seq<Seat>)
    requires lo <= hi && l.rowCount != 0 && l.colCount != 0
    requires |s| == hi - lo
    requires forall k :: 0 <= k < |s| ==> s[k] == IdxToSeat(l, lo + k)
    ensures s == SeatRange(l, lo, hi)
  {
  }

  lemma ConcatAppend(q: seq<Slice>, next: Slice)
    ensures Concat(q + [next]) == Concat(q) + next
  {
    assert (q + [next])[..|q|] == q;
  }

  /** One round of the outer loop keeps the queue equal to the first
      `|q|` slices and its concatenation equal to the first seats. The
      collected slice is never empty, so the `continue` is never taken. */
  lemma EnqueueStep(l: Layout, per: nat, q: seq<Slice>, start: int, next: Slice)
    requires per > 0
    requires start == |q| * per && 0 <= start < l.Capacity()
    requires SlicesInOrder(l, per, q)
    requires Concat(q) == SeatRange(l, 0, Min(start, l.Capacity()))
    requires next == SeatRange(l, start, Min(start + per, l.Capacity()))
    ensures |next| > 0
    ensures SlicesInOrder(l, per, q + [next])
    ensures Concat(q + [next]) == SeatRange(l, 0, Min(start + per, l.Capacity()))
    ensures start + per == |q + [next]| * per
    ensures start < Max(l.Capacity(), 1)
  {
    CapacityNeedsDims(l);
    var stop := Min(start + per, l.Capacity());
    ConcatStep(l, q, start, stop, next);
    SlicesInOrderExtend(l, per, q, next);
    MulSucc(|q|, per);
    assert |q + [next]| == |q| + 1;
  }

  lemma ConcatStep(l: Layout, q: seq<Slice>, start: int, stop: int, next: Slice)
    requires 0 <= start <= stop
    requires l.rowCount != 0 && l.colCount != 0
    requires Concat(q) == SeatRange(l, 0, start)
    requires next == SeatRange(l, start, stop)
    ensures Concat(q + [next]) == SeatRange(l, 0, stop)
  {
    SeatRangeSplit(l, 0, start, stop);
    ConcatAppend(q, next);
  }

  /** The slice-building loop of `on_test_start`: for every start in
      `range(0, total_capacity, per)` it collects the seats of
      `range(start, min(start + per, total_capacity))` and enqueues the
      collected slice unless it is empty. */
  method BuildSlices(l: Layout, per: nat) returns (slices: seq<Slice>)
    requires per > 0
    ensures SlicedQueue(l, per, slices)
    ensures Concat(slices) == AllSeats(l)
  {
    var total := l.Capacity();
    slices := [];
    var start := 0;
    while start < total
      invariant start == |slices| * per
      invariant start - per < Max(total, 1)
      invariant SlicesInOrder(l, per, slices)
      invariant Concat(slices) == SeatRange(l, 0, Min(start, total))
    {
      CapacityNeedsDims(l);
      var stop := Min(start + per, total);
      var sliceSeats := CollectSlice(l, start, stop);
      EnqueueStep(l, per, slices, start, sliceSeats);
      if |sliceSeats| == 0 {
        // the source's `continue` on an empty slice: never taken
        assert false;
      }
      slices := slices + [sliceSeats];
      start := start + per;
    }
    FinishSlices(l, per, slices, start);
  }

  /** When the outer loop ends, the queue holds exactly the slices the
      capacity calls for, and they cover every seat. */
  lemma FinishSlices(l: Layout, per: nat, slices: seq<Slice>, start: int)
    requires per > 0
    requires start == |slices| * per
    requires start >= l.Capacity()
    requires start - per < Max(l.Capacity(), 1)
    requires SlicesInOrder(l, per, slices)
    requires Concat(slices) == SeatRange(l, 0, Min(start, l.Capacity()))
    ensures SlicedQueue(l, per, slices)
    ensures Concat(slices) == AllSeats(l)
  {
    var total := l.Capacity();
    if total > 0 {
      SliceInQueue(l, per, slices, |slices| - 1);
      MulSucc(|slices| - 1, per);
      CeilDivUnique(total, per, |slices|);
    } else if slices != [] {
      SliceInQueue(l, per, slices, 0);
      assert false;
    }
  }

  /** What the test-start listener leaves behind: either it stopped the
      whole run, or it filled the shared queue. */
  datatype StartOutcome = RunnerQuit | Populated(queue: seq<Slice>)

  /** `on_test_start`. `layout` is `None` when loading the venue layout
      raised; both that and a layout with zero zones stop the runner
      before anything is enqueued. */
  method OnTestStart(layout: Option<Layout>) returns (o: StartOutcome)
    ensures layout.None? ==> o == RunnerQuit
    ensures layout.Some? ==> (o.RunnerQuit? <==> layout.value.zoneCount == 0)
    ensures o.Populated? ==> layout.Some?
    ensures o.Populated? ==> SlicedQueue(layout.value, SEATS_PER_USER, o.queue)
    ensures o.Populated? ==> Concat(o.queue) == AllSeats(layout.value)
  {
    if layout.None? {
      return RunnerQuit;
    }
    var l := layout.value;
    if l.zoneCount == 0 {
      return RunnerQuit;
    }
    var slices := BuildSlices(l, SEATS_PER_USER);
    return Populated(slices);
  }

  /** Every slice is non-empty and holds at most `per` seats, and every
      slice but the last holds exactly `per`. */
  lemma SliceSizes(l: Layout, per: nat, q: seq<Slice>, k: nat)
    requires per > 0
    requires SlicedQueue(l, per, q)
    requires k < |q|
    ensures 0 < |q[k]| <= per
    ensures k < |q| - 1 ==> |q[k]| == per
  {
    var cap := l.Capacity();
    SliceInQueue(l, per, q, k);
    if k < |q| - 1 {
      SliceInQueue(l, per, q, |q| - 1);
      MulSucc(k, per);
      MulMonotone(k + 1, |q| - 1, per);
    }
  }

  /** What `SlicesInOrder` says about one position. */
  lemma SliceInQueue(l: Layout, per: nat, q: seq<Slice>, k: nat)
    requires per > 0
    requires SlicesInOrder(l, per, q)
    requires k < |q|
    ensures k * per < l.Capacity()
    ensures |q[k]| == Min(k * per + per, l.Capacity()) - k * per
    ensures l.rowCount != 0 && l.colCount != 0
    ensures forall a :: 0 <= a < |q[k]| ==> q[k][a] == IdxToSeat(l, k * per + a)
  {
    assert SliceInPlace(l, per, q, k);
    CapacityNeedsDims(l);
  }

  /** Slices handed to different users share no seat. */
  lemma SlicesDisjoint(l: Layout, per: nat, q: seq<Slice>, i: nat, j: nat, a: nat, b: nat)
    requires per > 0
    requires SlicedQueue(l, per, q)
    requires i < |q| && j < |q| && a < |q[i]| && b < |q[j]|
    requires q[i][a] == q[j][b]
    ensures i == j && a == b
  {
    SliceInQueue(l, per, q, i);
    SliceInQueue(l, per, q, j);
    IdxToSeatInjective(l, i * per + a, j * per + b);
    SliceSizes(l, per, q, i);
    SliceSizes(l, per, q, j);
    BlockIndexUnique(per, i, a, j, b);
  }

  /** For a layout with positive dimensions, the concatenated slices list
      every seat of the venue exactly once: each position holds an existing
      seat, no seat occurs twice, and every existing seat occurs. */
  lemma AllSeatsEnumeratesVenue(l: Layout)
    requires l.Positive()
    ensures |AllSeats(l)| == l.Capacity()
    ensures forall i, j :: 0 <= i < j < |AllSeats(l)| ==> AllSeats(l)[i] != AllSeats(l)[j]
    ensures forall s :: s in AllSeats(l) <==> ValidSeat(l, s)
  {
    var all := AllSeats(l);
    NonNegProduct(l.zoneCount - 1, l.rowCount);
    NonNegProduct(l.zoneCount * l.rowCount - 1, l.colCount);
    assert l.Capacity() > 0;
    forall i, j | 0 <= i < j < |all|
      ensures all[i] != all[j]
    {
      if all[i] == all[j] {
        IdxToSeatInjective(l, i, j);
      }
    }
    forall s
      ensures s in all <==> ValidSeat(l, s)
    {
      if s in all {
        var i :| 0 <= i < |all| && all[i] == s;
        IdxToSeatInRange(l, i);
      }
      if ValidSeat(l, s) {
        SeatToIdxInverse(l, s);
        assert all[SeatToIdx(l, s)] == s;
      }
    }
  }

  /** With no rows or no columns the capacity is zero: nothing is
      enqueued, so `idx_to_seat` is never evaluated. */
  lemma EmptyLayoutNoSlices(l: Layout, per: nat, q: seq<Slice>)
    requires per > 0
    requires l.rowCount == 0 || l.colCount == 0
    requires SlicedQueue(l, per, q)
    ensures q == []
  {
    CapacityNeedsDims(l);
  }

  /** A venue of 2 zones × 2 rows × 3 columns (12 seats) cut into slices
      of 5 gives slices of sizes 5, 5 and 2. */
  lemma TwelveSeatsInFives(q: seq<Slice>)
    requires SlicedQueue(Layout(2, 2, 3), 5, q)
    ensures |q| == 3
    ensures |q[0]| == 5 && |q[1]| == 5 && |q[2]| == 2
  {
    var l := Layout(2, 2, 3);
    assert l.Capacity() == 12;
    DivModUnique(12 + 5 - 1, 5, 3, 1);
    assert |q| == 3;
    SliceSizes(l, 5, q, 0);
    SliceSizes(l, 5, q, 1);
    SliceInQueue(l, 5, q, 2);
  }

  /** Index 7 of a 2-row × 3-column venue is zone 2, row A, column 2. */
  lemma SeatSevenOfTwoByThree(zones: int)
    ensures IdxToSeat(Layout(zones, 2, 3), 7) == Seat(2, 0, 2)
  {
    var l := Layout(zones, 2, 3);
    assert l.SeatsPerZone() == 6;
    DivModUnique(7, 6, 1, 1);
    DivModUnique(1, 3, 0, 1);
  }
}

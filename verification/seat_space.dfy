/** The linear seat space of a venue (load_testing/locustfile.py, `idx_to_seat`).

    A venue layout has `zoneCount` zones, each of `rowCount` rows of
    `colCount` seats. Seats are numbered zone-major, then row-major, then by
    column; `IdxToSeat` turns a linear index back into a seat. Rows are kept
    as 0-based indices (the source prints them as letters `A`, `B`, ...) and
    columns as 1-based integers (the source prints them with `str`). */
module SeatSpace {
  import opened Common

  /** Zone/row/column counts as read from the venue configuration. They are
      plain integers there, so nothing forces them to be positive. */
  datatype Layout = Layout(zoneCount: int, rowCount: int, colCount: int) {
    /** `total_capacity = zone_count * row_count * col_count` */
    function Capacity(): int {
      zoneCount * rowCount * colCount
    }

    /** `seats_per_zone = row_count * col_count` */
    function SeatsPerZone(): int {
      rowCount * colCount
    }

    predicate Positive() {
      zoneCount > 0 && rowCount > 0 && colCount > 0
    }
  }

  /** One addressable seat: 1-based zone, 0-based row, 1-based column. */
  datatype Seat = Seat(zoneId: int, rowIdx: int, column: int)

  /** Python's floor division `a // d`. Dafny's `/` rounds so that the
      remainder is non-negative, which differs when `d < 0`. */
  function FloorDiv(a: int, d: int): (q: int)
    requires d != 0
    ensures d > 0 ==> q * d <= a < q * d + d
    ensures d < 0 ==> q * d >= a > q * d + d
  {
    if d > 0 then
      DivModUnique(a, d, a / d, a % d);
      a / d
    else
      var q := (-a) / (-d);
      assert -a == q * (-d) + (-a) % (-d);
      q
  }

  /** Python's `a % d`: the remainder takes the sign of the divisor. */
  function FloorMod(a: int, d: int): (m: int)
    requires d != 0
    ensures d > 0 ==> 0 <= m < d
    ensures d < 0 ==> d < m <= 0
    ensures FloorDiv(a, d) * d + m == a
  {
    a - FloorDiv(a, d) * d
  }

  /** `idx_to_seat`. The source computes it only while `idx < total_capacity`,
      so both divisors are non-zero whenever it runs. */
  function IdxToSeat(l: Layout, idx: int): (s: Seat)
    requires l.rowCount != 0 && l.colCount != 0
    ensures (s.zoneId - 1) * l.SeatsPerZone() + s.rowIdx * l.colCount + (s.column - 1) == idx
    ensures l.colCount > 0 ==> 1 <= s.column <= l.colCount
    ensures l.colCount < 0 ==> l.colCount + 1 < s.column <= 1
  {
    var spz := l.SeatsPerZone();
    assert spz != 0;
    var rem := FloorMod(idx, spz);
    var r := Seat(FloorDiv(idx, spz) + 1, FloorDiv(rem, l.colCount), FloorMod(rem, l.colCount) + 1);
    assert r.rowIdx * l.colCount + (r.column - 1) == rem;
    r
  }

  /** The inverse numbering: `(zoneId-1)·rows·cols + rowIdx·cols + (column-1)`. */
  function SeatToIdx(l: Layout, s: Seat): int {
    (s.zoneId - 1) * l.SeatsPerZone() + s.rowIdx * l.colCount + (s.column - 1)
  }

  /** A seat that exists in the venue. */
  predicate ValidSeat(l: Layout, s: Seat) {
    && 1 <= s.zoneId <= l.zoneCount
    && 0 <= s.rowIdx < l.rowCount
    && 1 <= s.column <= l.colCount
  }

  /** Whenever the divisions are defined, numbering a seat recovers its
      index: the map from indices to seats is injective on every input. */
  lemma SeatToIdxRecoversIndex(l: Layout, idx: int)
    requires l.rowCount != 0 && l.colCount != 0
    ensures SeatToIdx(l, IdxToSeat(l, idx)) == idx
  {
    var spz := l.SeatsPerZone();
    var s := IdxToSeat(l, idx);
    var rem := FloorMod(idx, spz);
    assert s.rowIdx * l.colCount + (s.column - 1) == rem;
    assert (s.zoneId - 1) * spz + rem == idx;
  }

  lemma IdxToSeatInjective(l: Layout, i: int, j: int)
    requires l.rowCount != 0 && l.colCount != 0
    requires IdxToSeat(l, i) == IdxToSeat(l, j)
    ensures i == j
  {
    SeatToIdxRecoversIndex(l, i);
    SeatToIdxRecoversIndex(l, j);
  }

  /** A quotient of an index in `[0, n·d)` lies in `[0, n)`. */
  lemma QuotientBelow(a: int, d: int, n: int)
    requires d > 0
    requires 0 <= a < n * d
    ensures 0 <= FloorDiv(a, d) < n
  {
    var q := FloorDiv(a, d);
    if q < 0 {
      NonNegProduct(-q - 1, d);
      assert false;
    }
    if q >= n {
      NonNegProduct(q - n, d);
      assert false;
    }
  }

  /** Every index in `[0, total_capacity)` of a layout with positive
      dimensions names an existing seat: zone in 1..zones, row index in
      0..rows-1, column in 1..cols. */
  lemma IdxToSeatInRange(l: Layout, idx: int)
    requires l.Positive()
    requires 0 <= idx < l.Capacity()
    ensures ValidSeat(l, IdxToSeat(l, idx))
  {
    var spz := l.SeatsPerZone();
    NonNegProduct(l.rowCount - 1, l.colCount);
    assert spz > 0;
    assert l.Capacity() == l.zoneCount * spz;
    QuotientBelow(idx, spz, l.zoneCount);
    var rem := FloorMod(idx, spz);
    QuotientBelow(rem, l.colCount, l.rowCount);
  }

  /** Within its zone, an existing seat has an offset in `[0, rows·cols)`. */
  lemma OffsetInZone(l: Layout, s: Seat)
    requires l.Positive()
    requires ValidSeat(l, s)
    ensures 0 <= s.rowIdx * l.colCount + (s.column - 1) < l.SeatsPerZone()
  {
    var cc := l.colCount;
    NonNegProduct(s.rowIdx, cc);
    NonNegProduct(l.rowCount - 1 - s.rowIdx, cc);
    assert (l.rowCount - 1 - s.rowIdx) * cc + s.rowIdx * cc == (l.rowCount - 1) * cc;
    assert l.SeatsPerZone() == (l.rowCount - 1) * cc + cc;
  }

  /** An existing seat has an index in `[0, total_capacity)`. */
  lemma IndexBelowCapacity(l: Layout, s: Seat)
    requires l.Positive()
    requires ValidSeat(l, s)
    ensures 0 <= SeatToIdx(l, s) < l.Capacity()
  {
    var spz := l.SeatsPerZone();
    OffsetInZone(l, s);
    NonNegProduct(s.zoneId - 1, spz);
    NonNegProduct(l.zoneCount - s.zoneId, spz);
    assert l.Capacity() == l.zoneCount * spz;
    assert l.zoneCount * spz == (s.zoneId - 1) * spz + (l.zoneCount - s.zoneId) * spz + spz;
  }

  /** Every existing seat is reached by exactly the index `SeatToIdx`
      gives it, and that index lies in `[0, total_capacity)`. */
  lemma SeatToIdxInverse(l: Layout, s: Seat)
    requires l.Positive()
    requires ValidSeat(l, s)
    ensures 0 <= SeatToIdx(l, s) < l.Capacity()
    ensures IdxToSeat(l, SeatToIdx(l, s)) == s
  {
    IndexBelowCapacity(l, s);
    OffsetInZone(l, s);
    var spz := l.SeatsPerZone();
    var rem := s.rowIdx * l.colCount + (s.column - 1);
    var idx := SeatToIdx(l, s);
    assert idx == (s.zoneId - 1) * spz + rem;
    DivModUnique(idx, spz, s.zoneId - 1, rem);
    DivModUnique(rem, l.colCount, s.rowIdx, s.column - 1);
    assert FloorDiv(idx, spz) == s.zoneId - 1 && FloorMod(idx, spz) == rem;
  }

  /** `chr(ord('A') + row_idx)` is defined only for code points in
      `[0, 0x10FFFF]`; outside it the source raises `ValueError`. */
  predicate RowLabelDefined(rowIdx: int) {
    0 <= 'A' as int + rowIdx <= 0x10FFFF
  }

  /** On a layout with positive dimensions and at most 1114047 rows every
      index below the capacity gets a row label. */
  lemma RowLabelsDefined(l: Layout, idx: int)
    requires l.Positive() && l.rowCount <= 0x10FFFF - 'A' as int + 1
    requires 0 <= idx < l.Capacity()
    ensures RowLabelDefined(IdxToSeat(l, idx).rowIdx)
  {
    IdxToSeatInRange(l, idx);
  }

  /** With negative dimensions the capacity can be positive while the row
      index falls below -65: on 1 zone × -67 rows × -1 columns (capacity
      67), index 66 lands on row index -66, whose label `chr(-1)` raises. */
  lemma NegativeDimensionsBreakLabel()
    ensures Layout(1, -67, -1).Capacity() == 67
    ensures IdxToSeat(Layout(1, -67, -1), 66).rowIdx == -66
    ensures !RowLabelDefined(IdxToSeat(Layout(1, -67, -1), 66).rowIdx)
  {
    var l := Layout(1, -67, -1);
    assert l.SeatsPerZone() == 67;
    assert FloorDiv(66, 67) == 0 && FloorMod(66, 67) == 66;
    assert FloorDiv(66, -1) == -66;
  }
}

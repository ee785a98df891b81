/** The deterministic seat queue of load_testing/locustfile_event1_5requests.py
    (`_build_seat_queue`).

    Starting at zone 1, row A, column `START_COL`, seats are generated column
    by column; when the column passes the row width the walk wraps to
    column 1 of the next row, and it stops early once the row index reaches
    the row count. At most `TOTAL_SEATS` seats are generated. The layout is
    not validated here (that happens later, per user), so the model accepts
    any integer row and column counts. */
module FixedSeatQueue {
  import opened Common
  import opened SeatSpace

  const FIXED_ZONE_ID: int := 1
  const START_COL: int := 6
  const TOTAL_SEATS: nat := 100

  /** Row-major position `row·cols + (column-1)` of the first generated
      seat: column `START_COL` of row A when row A is that wide, otherwise
      the first column of row B. */
  function FirstPosition(colCount: int): int
    requires colCount >= 1
  {
    if START_COL <= colCount then START_COL - 1 else colCount
  }

  /** The seat at a row-major position of a zone with `colCount` columns. */
  function PositionSeat(colCount: int, pos: nat): Seat
    requires colCount >= 1
  {
    Seat(FIXED_ZONE_ID, pos / colCount, pos % colCount + 1)
  }

  /** Reference description of the queue, independent of the loop: how
      many seats it holds ... */
  function ExpectedCount(rowCount: int, colCount: int): nat {
    if colCount >= 1 then Min(TOTAL_SEATS, Max(0, rowCount * colCount - FirstPosition(colCount)))
    else Min(TOTAL_SEATS, Max(0, rowCount - 1))
  }

  /** ... and which seat sits at place `k`: consecutive row-major positions
      from the first one. With no positive column count every step wraps,
      so each row from B on contributes its column 1. */
  function ExpectedSeat(rowCount: int, colCount: int, k: nat): Seat {
    if colCount >= 1 then PositionSeat(colCount, FirstPosition(colCount) + k)
    else Seat(FIXED_ZONE_ID, k + 1, 1)
  }

  /** Appending the seat at `(row, col)` with `1 <= col <= cols` appends
      the seat at its row-major position. */
  lemma PositionOfSeat(colCount: int, row: nat, col: int)
    requires 1 <= col <= colCount
    ensures PositionSeat(colCount, row * colCount + col - 1) == Seat(FIXED_ZONE_ID, row, col)
  {
    DivModUnique(row * colCount + col - 1, colCount, row, col - 1);
  }

  /** A seat in a row below `rows` has a position below `rows·cols`. */
  lemma PositionBelowCapacity(colCount: int, rowCount: int, row: nat, col: int)
    requires 1 <= col <= colCount
    requires row < rowCount
    ensures row * colCount + col - 1 < rowCount * colCount
  {
    NonNegProduct(rowCount - 1 - row, colCount);
    assert rowCount * colCount == (rowCount - 1 - row) * colCount + row * colCount + colCount;
  }

  /** A seat in a row at or past `rows` has a position at or past `rows·cols`. */
  lemma PositionAtOrPastCapacity(colCount: int, rowCount: int, row: nat, col: int)
    requires 1 <= col <= colCount
    requires row >= rowCount
    ensures row * colCount + col - 1 >= rowCount * colCount
  {
    NonNegProduct(row - rowCount, colCount);
    assert row * colCount == (row - rowCount) * colCount + rowCount * colCount;
  }

  /** `_build_seat_queue`: the loop of the source, verified against the
      reference description. */
  method BuildSeatQueue(rowCount: int, colCount: int) returns (seats: seq<Seat>)
    ensures |seats| == ExpectedCount(rowCount, colCount)
    ensures forall k :: 0 <= k < |seats| ==> seats[k] == ExpectedSeat(rowCount, colCount, k)
  {
    seats := [];
    var rowIdx: nat := 0;
    var col := START_COL;
    var i := 0;
    while i < TOTAL_SEATS
      invariant 0 <= i <= TOTAL_SEATS && |seats| == i
      invariant forall k :: 0 <= k < i ==> seats[k] == ExpectedSeat(rowCount, colCount, k)
      invariant i == 0 ==> rowIdx == 0 && col == START_COL
      invariant colCount >= 1 && i > 0 ==> 1 <= col <= colCount + 1
      invariant colCount >= 1 && i > 0 ==> rowIdx * colCount + col - 1 == FirstPosition(colCount) + i
      invariant colCount >= 1 && i > 0 ==> FirstPosition(colCount) + i <= rowCount * colCount
      invariant colCount < 1 && i > 0 ==> rowIdx == i && col == 2 && i < rowCount
    {
      if col > colCount {
        if colCount >= 1 {
          assert rowIdx * colCount + colCount == (rowIdx + 1) * colCount;
        }
        col := 1;
        rowIdx := rowIdx + 1;
      }
      if colCount >= 1 {
        assert rowIdx * colCount + col - 1 == FirstPosition(colCount) + i;
      }
      if rowIdx >= rowCount {
        if colCount >= 1 {
          PositionAtOrPastCapacity(colCount, rowCount, rowIdx, col);
        }
        break;
      }
      if colCount >= 1 {
        PositionOfSeat(colCount, rowIdx, col);
        PositionBelowCapacity(colCount, rowCount, rowIdx, col);
      }
      seats := seats + [Seat(FIXED_ZONE_ID, rowIdx, col)];
      col := col + 1;
      i := i + 1;
    }
  }

  /** `a` comes strictly before `b` in row-major order. */
  predicate RowMajorBefore(a: Seat, b: Seat) {
    a.rowIdx < b.rowIdx || (a.rowIdx == b.rowIdx && a.column < b.column)
  }

  /** Every queued seat is in zone `FIXED_ZONE_ID`, in a row below the row
      count and a column within the row width; on row A the columns start at
      `START_COL`. */
  lemma QueueSeatsInRange(rowCount: int, colCount: int, k: nat)
    requires colCount >= 1
    requires k < ExpectedCount(rowCount, colCount)
    ensures var s := ExpectedSeat(rowCount, colCount, k);
      && s.zoneId == FIXED_ZONE_ID
      && 0 <= s.rowIdx < rowCount
      && 1 <= s.column <= colCount
      && (s.rowIdx == 0 ==> START_COL <= s.column)
  {
    var p := FirstPosition(colCount) + k;
    assert p < rowCount * colCount;
    PositionBelowRows(colCount, rowCount, p);
    FirstRowColumns(colCount, p);
    assert ExpectedSeat(rowCount, colCount, k) == Seat(FIXED_ZONE_ID, p / colCount, p % colCount + 1);
  }

  /** A position below `rows·cols` lies in a row below `rows`. */
  lemma PositionBelowRows(colCount: int, rowCount: int, p: nat)
    requires colCount >= 1
    requires p < rowCount * colCount
    ensures 0 <= p / colCount < rowCount
    ensures 0 <= p % colCount < colCount
  {
    if p / colCount >= rowCount {
      PositionAtOrPastCapacity(colCount, rowCount, p / colCount, p % colCount + 1);
      assert false;
    }
  }

  /** A position from the first one on that falls in row A has a column
      of at least `START_COL`. */
  lemma FirstRowColumns(colCount: int, p: nat)
    requires colCount >= 1
    requires p >= FirstPosition(colCount)
    ensures p / colCount == 0 ==> p % colCount + 1 >= START_COL
  {
    if p / colCount == 0 {
      assert p == p % colCount;
    }
  }

  /** With no positive column count every generated seat sits in column 1,
      outside the layout; such a layout is refused later by every user's
      `on_start`, so none of these seats is ever requested. */
  lemma QueueWithoutColumns(rowCount: int, colCount: int, k: nat)
    requires colCount < 1
    requires k < ExpectedCount(rowCount, colCount)
    ensures ExpectedSeat(rowCount, colCount, k) == Seat(FIXED_ZONE_ID, k + 1, 1)
    ensures k + 1 < rowCount
  {
  }

  /** Later row-major positions give later seats. */
  lemma PositionOrder(colCount: int, pa: nat, pb: nat)
    requires colCount >= 1
    requires pa < pb
    ensures RowMajorBefore(PositionSeat(colCount, pa), PositionSeat(colCount, pb))
  {
    var ra, rb := pa / colCount, pb / colCount;
    assert pa == ra * colCount + pa % colCount;
    assert pb == rb * colCount + pb % colCount;
    if ra > rb {
      NonNegProduct(ra - rb - 1, colCount);
      assert false;
    }
  }

  /** Seats are generated in strictly increasing row-major order. */
  lemma QueueStrictlyIncreasing(rowCount: int, colCount: int, j: nat, k: nat)
    requires j < k < ExpectedCount(rowCount, colCount)
    ensures RowMajorBefore(ExpectedSeat(rowCount, colCount, j), ExpectedSeat(rowCount, colCount, k))
  {
    if colCount >= 1 {
      PositionOrder(colCount, FirstPosition(colCount) + j, FirstPosition(colCount) + k);
    }
  }

  /** No seat is queued twice. */
  lemma QueueDistinct(rowCount: int, colCount: int, j: nat, k: nat)
    requires j < ExpectedCount(rowCount, colCount) && k < ExpectedCount(rowCount, colCount)
    requires j != k
    ensures ExpectedSeat(rowCount, colCount, j) != ExpectedSeat(rowCount, colCount, k)
  {
    if j < k {
      QueueStrictlyIncreasing(rowCount, colCount, j, k);
    } else {
      QueueStrictlyIncreasing(rowCount, colCount, k, j);
    }
  }

  /** The queue falls short of `TOTAL_SEATS` only because the walk ran out
      of rows: the seat that would come next lies in a row at or past the
      row count. */
  lemma ShortQueueOnlyAtLastRow(rowCount: int, colCount: int)
    requires ExpectedCount(rowCount, colCount) < TOTAL_SEATS
    ensures ExpectedSeat(rowCount, colCount, ExpectedCount(rowCount, colCount)).rowIdx >= rowCount
  {
    if colCount >= 1 {
      var n := ExpectedCount(rowCount, colCount);
      assert FirstPosition(colCount) + n >= rowCount * colCount;
      RowOfLatePosition(colCount, rowCount, FirstPosition(colCount) + n);
    }
  }

  /** A position at or past `rows·cols` lies in a row at or past `rows`. */
  lemma RowOfLatePosition(colCount: int, rowCount: int, p: nat)
    requires colCount >= 1
    requires p >= rowCount * colCount
    ensures PositionSeat(colCount, p).rowIdx >= rowCount
  {
    var r := p / colCount;
    if r < rowCount {
      PositionBelowCapacity(colCount, rowCount, r, p % colCount + 1);
      assert false;
    }
  }
}

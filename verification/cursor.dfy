/** The subplot cursor of `add_subplot` and the cursor reset at the end of
    `add_page`: where the next implicit subplot goes on an nrows x ncols
    grid, when a request rolls over onto a new page, and how explicit
    positions and pre-built regions move the cursor. */
module Cursor {
  import opened Results

  /** A grid position as [row, column]. */
  datatype Cell = Cell(row: int, col: int)

  const LeftToRight: string := "left-to-right"
  const TopToBottom: string := "top-to-bottom"

  /** `subplotstartindex`, `currentsubplotindex` and `direction`. */
  datatype CursorState = CursorState(start: Option<Cell>, current: Option<Cell>, direction: string)

  /** One `add_subplot` call: a direction ("" for a falsy one, which keeps
      the current direction), an explicit position, and the geometry
      (rows, cols) of the grid a pre-built region belongs to. */
  datatype Request = Request(direction: string, pos: Option<Cell>, region: Option<Cell>)

  /** `add_subplot()` with no arguments. Its default direction is the
      truthy "left-to-right", so a plain call switches the cursor back to
      row-major order whatever direction the pager was given. */
  const PlainRequest: Request := Request(LeftToRight, None, None)

  /** The cell a request places its subplot at, the cursor it leaves, and
      whether it turned the page first. */
  datatype Placement = Placement(cell: Option<Cell>, cursor: CursorState, rollover: bool)

  predicate InGrid(c: Cell, nrows: int, ncols: int)
  {
    0 <= c.row < nrows && 0 <= c.col < ncols
  }

  /** The position of a cell in row-major reading order. */
  function RowMajorIndex(c: Cell, ncols: int): int
  {
    c.row * ncols + c.col
  }

  function Transpose(c: Cell): Cell
  {
    Cell(c.col, c.row)
  }

  /** The next cell on the same page in the given scan order, or None when
      the scan has passed the last cell (or the direction is not a scan). */
  function Advance(direction: string, c: Cell, nrows: int, ncols: int): (r: Option<Cell>)
    ensures direction == LeftToRight ==>
      && (c.col < ncols - 1 ==> r == Some(Cell(c.row, c.col + 1)))
      && (c.col >= ncols - 1 && c.row < nrows - 1 ==> r == Some(Cell(c.row + 1, 0)))
      && (c.col >= ncols - 1 && c.row >= nrows - 1 ==> r.None?)
    ensures direction == TopToBottom ==>
      && (c.row < nrows - 1 ==> r == Some(Cell(c.row + 1, c.col)))
      && (c.row >= nrows - 1 && c.col < ncols - 1 ==> r == Some(Cell(0, c.col + 1)))
      && (c.row >= nrows - 1 && c.col >= ncols - 1 ==> r.None?)
    ensures direction != LeftToRight && direction != TopToBottom ==> r.None?
  {
    if direction == LeftToRight then
      if c.col < ncols - 1 then Some(Cell(c.row, c.col + 1))
      else if c.row < nrows - 1 then Some(Cell(c.row + 1, 0))
      else None
    else if direction == TopToBottom then
      if c.row < nrows - 1 then Some(Cell(c.row + 1, c.col))
      else if c.col < ncols - 1 then Some(Cell(0, c.col + 1))
      else None
    else None
  }

  /** The cursor reset at the end of `add_page`: a start index of [0, 0]
      (or none) is forgotten, any other is kept; the direction is set. */
  function NewPage(c: CursorState, startIndex: Option<Cell>, direction: string): (r: CursorState)
    ensures r.current == c.current && r.direction == direction
    ensures r.start.None? <==> startIndex == None || startIndex == Some(Cell(0, 0))
    ensures r.start.Some? ==> r.start == startIndex
  {
    CursorState(if startIndex == Some(Cell(0, 0)) then None else startIndex, c.current, direction)
  }

  predicate Scans(direction: string)
  {
    direction == LeftToRight || direction == TopToBottom
  }

  /** An `add_subplot` call without a position, once the direction is set.
      With no start index the subplot goes to [0, 0], which becomes the
      start index. Otherwise the cursor advances in its scan order; past the
      last cell the page turns (with the start index passed to `add_page`,
      which resets the direction to left-to-right) and the subplot goes to
      the stored start index. An unknown direction reuses the current cell. */
  function Implicit(c: CursorState, nrows: int, ncols: int): (r: Result<Placement>)
    ensures Scans(c.direction) && c.start.None? ==>
      r == Ok(Placement(Some(Cell(0, 0)), CursorState(Some(Cell(0, 0)), Some(Cell(0, 0)), c.direction), false))
    ensures Scans(c.direction) && c.start.Some? ==> (r.Ok? <==> c.current.Some?)
    ensures r.Ok? && Scans(c.direction) && c.start.Some? ==>
      match Advance(c.direction, c.current.value, nrows, ncols)
      case Some(n) => r.value == Placement(Some(n), c.(current := Some(n)), false)
      case None =>
        && r.value.rollover
        && r.value.cell == c.start
        && r.value.cursor == NewPage(c, c.start, LeftToRight).(current := c.start)
    ensures !Scans(c.direction) ==> r == Ok(Placement(c.current, c, false))
  {
    if !Scans(c.direction) then Ok(Placement(c.current, c, false))
    else if c.start.None? then
      Ok(Placement(Some(Cell(0, 0)), CursorState(Some(Cell(0, 0)), Some(Cell(0, 0)), c.direction), false))
    else if c.current.None? then Err(NoCurrentSubplot)
    else
      match Advance(c.direction, c.current.value, nrows, ncols)
      case Some(n) => Ok(Placement(Some(n), c.(current := Some(n)), false))
      case None => Ok(Placement(c.start, NewPage(c, c.start, LeftToRight).(current := c.start), true))
  }

  /** `add_subplot`. An explicit position becomes both the cursor and the
      start index, with no bounds check; otherwise the cursor moves as
      `Implicit` says. A region then overrides the cursor with the geometry
      of its grid. Without a region the subplot needs a cell. */
  function AddSubplot(c: CursorState, req: Request, nrows: int, ncols: int): (r: Result<Placement>)
    ensures var c1 := if req.direction != "" then c.(direction := req.direction) else c;
      && (req.pos.Some? ==>
            && r.Ok?
            && r.value.cursor.start == req.pos
            && r.value.cursor.current == (if req.region.Some? then req.region else req.pos)
            && r.value.cursor.direction == c1.direction
            && !r.value.rollover)
      && (req.pos.None? && req.region.None? ==>
            && (r.Ok? <==> Implicit(c1, nrows, ncols).Ok? && Implicit(c1, nrows, ncols).value.cell.Some?)
            && (r.Ok? ==> r.value == Implicit(c1, nrows, ncols).value))
      && (req.pos.None? && req.region.Some? && Implicit(c1, nrows, ncols).Ok? ==>
            && r.Ok?
            && r.value.cursor == Implicit(c1, nrows, ncols).value.cursor.(current := req.region)
            && r.value.rollover == Implicit(c1, nrows, ncols).value.rollover)
    ensures r.Ok? ==> r.value.cell.Some? && r.value.cursor.current == r.value.cell
  {
    var c1 := if req.direction != "" then c.(direction := req.direction) else c;
    var p :- if req.pos.Some? then Ok(Placement(req.pos, c1.(start := req.pos, current := req.pos), false))
             else Implicit(c1, nrows, ncols);
    if req.region.Some? then Ok(Placement(req.region, p.cursor.(current := req.region), p.rollover))
    else if p.cell.None? then Err(NoCurrentSubplot)
    else Ok(p)
  }

  /** Column-major scanning is row-major scanning of the transposed grid. */
  lemma ColumnMajorIsTransposed(c: Cell, nrows: int, ncols: int)
    ensures Advance(TopToBottom, c, nrows, ncols) ==
      match Advance(LeftToRight, Transpose(c), ncols, nrows)
      case None => None
      case Some(n) => Some(Transpose(n))
  {
  }

  lemma MulMonotone(a: int, b: int, k: int)
    requires a <= b && k >= 0
    ensures a * k <= b * k
  {
  }

  /** Within a grid, a cell's row-major index determines the cell. */
  lemma RowMajorIndexInjective(a: Cell, b: Cell, nrows: int, ncols: int)
    requires InGrid(a, nrows, ncols) && InGrid(b, nrows, ncols)
    requires RowMajorIndex(a, ncols) == RowMajorIndex(b, ncols)
    ensures a == b
  {
    if a.row < b.row {
      MulMonotone(a.row + 1, b.row, ncols);
      assert false;
    } else if b.row < a.row {
      MulMonotone(b.row + 1, a.row, ncols);
      assert false;
    }
  }

  /** Row-major indices of a grid run from 0 to nrows * ncols - 1. */
  lemma RowMajorIndexBounds(c: Cell, nrows: int, ncols: int)
    requires InGrid(c, nrows, ncols)
    ensures 0 <= RowMajorIndex(c, ncols) <= nrows * ncols - 1
    ensures RowMajorIndex(c, ncols) == nrows * ncols - 1 <==> c == Cell(nrows - 1, ncols - 1)
  {
    MulMonotone(0, c.row, ncols);
    MulMonotone(c.row, nrows - 1, ncols);
    if c.row < nrows - 1 {
      MulMonotone(c.row + 1, nrows - 1, ncols);
    }
  }

  /** A left-to-right step inside a grid moves to the next row-major index,
      and there is a next cell exactly when the index is not the last. */
  lemma AdvanceRowMajor(c: Cell, nrows: int, ncols: int)
    requires InGrid(c, nrows, ncols)
    ensures var n := Advance(LeftToRight, c, nrows, ncols);
      && (n.Some? <==> RowMajorIndex(c, ncols) < nrows * ncols - 1)
      && (n.Some? ==> InGrid(n.value, nrows, ncols)
                      && RowMajorIndex(n.value, ncols) == RowMajorIndex(c, ncols) + 1)
  {
    RowMajorIndexBounds(c, nrows, ncols);
    if c.col == ncols - 1 && c.row < nrows - 1 {
      assert (c.row + 1) * ncols == c.row * ncols + ncols;
    }
  }

  /** Starting from an in-grid cursor whose start index is in the grid,
      every scan request lands in the grid. */
  lemma StaysInGrid(c: CursorState, nrows: int, ncols: int)
    requires nrows >= 1 && ncols >= 1 && Scans(c.direction)
    requires c.current.Some? && InGrid(c.current.value, nrows, ncols)
    requires c.start.Some? ==> InGrid(c.start.value, nrows, ncols)
    requires Implicit(c, nrows, ncols).Ok?
    ensures var p := Implicit(c, nrows, ncols).value;
      && p.cell.Some? && InGrid(p.cell.value, nrows, ncols)
      && p.cursor.current == p.cell
      && (p.cursor.start.Some? ==> InGrid(p.cursor.start.value, nrows, ncols))
  {
  }

  /** `n` implicit requests in a row: the placements, in order. */
  function Run(c: CursorState, n: nat, nrows: int, ncols: int): (r: Result<seq<Placement>>)
    ensures r.Ok? ==> |r.value| == n
    ensures r.Ok? && n > 0 ==> Implicit(c, nrows, ncols).Ok? && r.value[0] == Implicit(c, nrows, ncols).value
    decreases n
  {
    if n == 0 then Ok([])
    else
      var p :- Implicit(c, nrows, ncols);
      var rest :- Run(p.cursor, n - 1, nrows, ncols);
      Ok([p] + rest)
  }

  function Last(c: CursorState, ps: seq<Placement>): CursorState
  {
    if ps == [] then c else ps[|ps| - 1].cursor
  }

  /** Left-to-right requests from an in-grid cell visit the following
      row-major indices one by one, without turning the page, until the
      last cell of the grid. */
  lemma {:induction false} RowMajorScan(c: CursorState, n: nat, nrows: int, ncols: int)
    requires c.direction == LeftToRight && c.start.Some? && c.current.Some?
    requires InGrid(c.current.value, nrows, ncols)
    requires RowMajorIndex(c.current.value, ncols) + n <= nrows * ncols - 1
    ensures Run(c, n, nrows, ncols).Ok?
    ensures var ps := Run(c, n, nrows, ncols).value;
      && (forall i :: 0 <= i < n ==>
            && !ps[i].rollover && ps[i].cell.Some? && InGrid(ps[i].cell.value, nrows, ncols)
            && RowMajorIndex(ps[i].cell.value, ncols) == RowMajorIndex(c.current.value, ncols) + i + 1)
      && Last(c, ps) == c.(current := Last(c, ps).current)
      && Last(c, ps).current.Some? && InGrid(Last(c, ps).current.value, nrows, ncols)
      && RowMajorIndex(Last(c, ps).current.value, ncols) == RowMajorIndex(c.current.value, ncols) + n
    decreases n
  {
    if n > 0 {
      AdvanceRowMajor(c.current.value, nrows, ncols);
      var next := Advance(LeftToRight, c.current.value, nrows, ncols).value;
      var p := Implicit(c, nrows, ncols).value;
      assert p == Placement(Some(next), c.(current := Some(next)), false);
      RowMajorScan(p.cursor, n - 1, nrows, ncols);
      var rest := Run(p.cursor, n - 1, nrows, ncols).value;
      var ps := Run(c, n, nrows, ncols).value;
      assert ps == [p] + rest;
      forall i | 1 <= i < n
        ensures ps[i] == rest[i - 1]
      {
      }
      if n > 1 {
        assert Last(c, ps) == Last(p.cursor, rest);
      }
    }
  }

  /** Distinct row-major indices mean distinct cells. */
  lemma DistinctCells(ps: seq<Placement>, k: int, ncols: int)
    requires 0 <= k <= |ps|
    requires forall i :: 0 <= i < k ==> ps[i].cell.Some? && RowMajorIndex(ps[i].cell.value, ncols) == i
    ensures forall i, j :: 0 <= i < j < k ==> ps[i].cell != ps[j].cell
  {
  }

  /** A full page of nrows * ncols left-to-right requests from a fresh
      cursor fills every cell exactly once, in row-major order; the next
      request turns the page and restarts at [0, 0]. */
  lemma FreshPageFills(nrows: int, ncols: int)
    requires nrows >= 1 && ncols >= 1
    ensures var c := CursorState(None, None, LeftToRight);
      && Run(c, nrows * ncols + 1, nrows, ncols).Ok?
      && var ps := Run(c, nrows * ncols + 1, nrows, ncols).value;
         && (forall i :: 0 <= i < nrows * ncols ==>
               !ps[i].rollover && ps[i].cell.Some? && InGrid(ps[i].cell.value, nrows, ncols)
               && RowMajorIndex(ps[i].cell.value, ncols) == i)
         && (forall i, j :: 0 <= i < j < nrows * ncols ==> ps[i].cell != ps[j].cell)
         && ps[nrows * ncols].rollover && ps[nrows * ncols].cell == Some(Cell(0, 0))
  {
    var k := nrows * ncols;
    MulMonotone(1, nrows, ncols);
    var c := CursorState(None, None, LeftToRight);
    var ps := FillPage(nrows, ncols, k);
    DistinctCells(ps, k, ncols);
  }

  /** The first request of a fresh cursor claims [0, 0] as the start. */
  lemma FreshStart(nrows: int, ncols: int)
    ensures Implicit(CursorState(None, None, LeftToRight), nrows, ncols)
      == Ok(Placement(Some(Cell(0, 0)), CursorState(Some(Cell(0, 0)), Some(Cell(0, 0)), LeftToRight), false))
  {
  }

  /** After the first cell, k - 1 more requests reach the last cell. */
  lemma ScanToLast(nrows: int, ncols: int, k: int) returns (mid: seq<Placement>)
    requires nrows >= 1 && ncols >= 1 && k == nrows * ncols && k >= 1
    ensures var c0 := CursorState(Some(Cell(0, 0)), Some(Cell(0, 0)), LeftToRight);
      && Run(c0, k - 1, nrows, ncols) == Ok(mid)
      && Last(c0, mid) == CursorState(Some(Cell(0, 0)), Some(Cell(nrows - 1, ncols - 1)), LeftToRight)
      && forall i :: 0 <= i < k - 1 ==>
           !mid[i].rollover && mid[i].cell.Some? && InGrid(mid[i].cell.value, nrows, ncols)
           && RowMajorIndex(mid[i].cell.value, ncols) == i + 1
  {
    var c0 := CursorState(Some(Cell(0, 0)), Some(Cell(0, 0)), LeftToRight);
    assert RowMajorIndex(Cell(0, 0), ncols) == 0;
    RowMajorScan(c0, k - 1, nrows, ncols);
    mid := Run(c0, k - 1, nrows, ncols).value;
    var last := Last(c0, mid);
    RowMajorIndexBounds(last.current.value, nrows, ncols);
  }

  /** The run behind `FreshPageFills`, with the page size named `k`. */
  lemma FillPage(nrows: int, ncols: int, k: int) returns (ps: seq<Placement>)
    requires nrows >= 1 && ncols >= 1 && k == nrows * ncols && k >= 1
    ensures Run(CursorState(None, None, LeftToRight), k + 1, nrows, ncols) == Ok(ps)
    ensures forall i :: 0 <= i < k ==>
      !ps[i].rollover && ps[i].cell.Some? && InGrid(ps[i].cell.value, nrows, ncols)
      && RowMajorIndex(ps[i].cell.value, ncols) == i
    ensures ps[k].rollover && ps[k].cell == Some(Cell(0, 0))
  {
    var c := CursorState(None, None, LeftToRight);
    FreshStart(nrows, ncols);
    var p0 := Implicit(c, nrows, ncols).value;
    var c0 := p0.cursor;
    var mid := ScanToLast(nrows, ncols, k);
    var last := Last(c0, mid);
    var pk := Implicit(last, nrows, ncols).value;
    assert pk.rollover && pk.cell == Some(Cell(0, 0));
    RunAppend(c0, k - 1, nrows, ncols);
    ps := [p0] + (mid + [pk]);
    assert Run(c, k + 1, nrows, ncols) == Ok(ps);
    forall i | 0 <= i < k
      ensures !ps[i].rollover && ps[i].cell.Some? && InGrid(ps[i].cell.value, nrows, ncols)
      ensures RowMajorIndex(ps[i].cell.value, ncols) == i
    {
      if i > 0 {
        assert ps[i] == mid[i - 1];
      }
    }
    assert ps[k] == pk;
  }

  /** One more request after a successful run is the run one longer. */
  lemma {:induction false} RunAppend(c: CursorState, n: nat, nrows: int, ncols: int)
    requires Run(c, n, nrows, ncols).Ok?
    requires Implicit(Last(c, Run(c, n, nrows, ncols).value), nrows, ncols).Ok?
    ensures Run(c, n + 1, nrows, ncols)
      == Ok(Run(c, n, nrows, ncols).value + [Implicit(Last(c, Run(c, n, nrows, ncols).value), nrows, ncols).value])
    decreases n
  {
    var p := Implicit(c, nrows, ncols).value;
    if n == 0 {
      assert Run(p.cursor, 0, nrows, ncols) == Ok([]);
      assert Run(c, 1, nrows, ncols) == Ok([p] + []);
      assert Last(c, []) == c;
      assert [] + [p] == [p] + [];
    } else {
      var rest := Run(p.cursor, n - 1, nrows, ncols).value;
      assert Run(c, n, nrows, ncols).value == [p] + rest;
      if n > 1 {
        assert Last(c, [p] + rest) == Last(p.cursor, rest);
      }
      var q := Implicit(Last(p.cursor, rest), nrows, ncols).value;
      RunAppend(p.cursor, n - 1, nrows, ncols);
      assert Run(p.cursor, n, nrows, ncols) == Ok(rest + [q]);
      assert Run(c, n + 1, nrows, ncols) == Ok([p] + (rest + [q]));
      assert [p] + (rest + [q]) == ([p] + rest) + [q];
    }
  }

  /** The page turn from a start index of [0, 0] forgets the start index,
      so the request after the turn claims [0, 0] a second time. */
  lemma RolloverFromOriginReusesOrigin(c: CursorState, nrows: int, ncols: int)
    requires Scans(c.direction) && c.start == Some(Cell(0, 0))
    requires c.current.Some? && Advance(c.direction, c.current.value, nrows, ncols).None?
    ensures var p1 := Implicit(c, nrows, ncols);
      && p1.Ok? && p1.value.rollover && p1.value.cell == Some(Cell(0, 0))
      && p1.value.cursor.start.None?
      && var p2 := Implicit(p1.value.cursor, nrows, ncols);
         p2.Ok? && !p2.value.rollover && p2.value.cell == Some(Cell(0, 0))
  {
  }

  /** A page turn from any other start index keeps it, and the request
      after the turn continues the scan from there. */
  lemma RolloverFromOtherStart(c: CursorState, s: Cell, nrows: int, ncols: int)
    requires Scans(c.direction) && c.start == Some(s) && s != Cell(0, 0)
    requires c.current.Some? && Advance(c.direction, c.current.value, nrows, ncols).None?
    ensures var p1 := Implicit(c, nrows, ncols);
      && p1.Ok? && p1.value.rollover && p1.value.cell == Some(s)
      && p1.value.cursor == CursorState(Some(s), Some(s), LeftToRight)
  {
  }

  /** An explicit position at the last cell of the grid makes every later
      left-to-right request turn the page and land on that cell again: the
      cursor it leaves is a fixed point of the implicit request. */
  lemma ExplicitLastCellRepeats(c: CursorState, nrows: int, ncols: int)
    ensures var last := Cell(nrows - 1, ncols - 1);
      var q := AddSubplot(c, Request(LeftToRight, Some(last), None), nrows, ncols);
      && q.Ok? && q.value.cell == Some(last)
      && (last != Cell(0, 0) ==> Implicit(q.value.cursor, nrows, ncols) == Ok(Placement(Some(last), q.value.cursor, true)))
  {
  }

  /** A region placed with a grid's geometry (rows, cols) leaves the cursor
      past the last cell, so the next scan request turns the page. */
  lemma RegionForcesRollover(c: CursorState, nrows: int, ncols: int)
    requires Scans(c.direction) && c.start.Some? && c.current == Some(Cell(nrows, ncols))
    ensures Implicit(c, nrows, ncols).Ok?
    ensures Implicit(c, nrows, ncols).value.rollover
    ensures Implicit(c, nrows, ncols).value.cell == c.start
  {
  }

  /** Four subplots on a 3 x 2 grid, a region spanning the bottom row, then
      two more subplots: the region turns the page, and both subplots after
      it land on [0, 0]. */
  lemma RegionScenario()
    ensures var blank := CursorState(None, None, "");
      var step := Request(LeftToRight, None, None);
      var p0 := AddSubplot(blank, step, 3, 2);
      && p0.Ok? && p0.value.cell == Some(Cell(0, 0))
      && var p1 := AddSubplot(p0.value.cursor, step, 3, 2);
      && p1.Ok? && p1.value.cell == Some(Cell(0, 1))
      && var p2 := AddSubplot(p1.value.cursor, step, 3, 2);
      && p2.Ok? && p2.value.cell == Some(Cell(1, 0))
      && var p3 := AddSubplot(p2.value.cursor, step, 3, 2);
      && p3.Ok? && p3.value.cell == Some(Cell(1, 1))
      && var p4 := AddSubplot(p3.value.cursor, Request(LeftToRight, None, Some(Cell(3, 2))), 3, 2);
      && p4.Ok? && !p4.value.rollover && p4.value.cursor.current == Some(Cell(3, 2))
      && var p5 := AddSubplot(p4.value.cursor, step, 3, 2);
      && p5.Ok? && p5.value.rollover && p5.value.cell == Some(Cell(0, 0))
      && var p6 := AddSubplot(p5.value.cursor, step, 3, 2);
      && p6.Ok? && !p6.value.rollover && p6.value.cell == Some(Cell(0, 0))
  {
  }

  /** Column-major scanning of a 2 x 2 grid: down the first column, then
      down the second, then a page turn. */
  lemma ColumnMajorScenario()
    ensures var step := Request(TopToBottom, None, None);
      var p0 := AddSubplot(CursorState(None, None, LeftToRight), step, 2, 2);
      && p0.Ok? && p0.value.cell == Some(Cell(0, 0))
      && var p1 := AddSubplot(p0.value.cursor, step, 2, 2);
      && p1.Ok? && p1.value.cell == Some(Cell(1, 0))
      && var p2 := AddSubplot(p1.value.cursor, step, 2, 2);
      && p2.Ok? && p2.value.cell == Some(Cell(0, 1))
      && var p3 := AddSubplot(p2.value.cursor, step, 2, 2);
      && p3.Ok? && p3.value.cell == Some(Cell(1, 1))
      && var p4 := AddSubplot(p3.value.cursor, step, 2, 2);
      && p4.Ok? && p4.value.rollover && p4.value.cell == Some(Cell(0, 0))
      && p4.value.cursor.direction == LeftToRight
  {
  }

  /** A plain `add_subplot()` continues in row-major order, whatever
      direction the cursor had. */
  lemma PlainRequestScansRowMajor(c: CursorState, nrows: int, ncols: int)
    requires c.start.Some? && c.current.Some?
    requires Advance(LeftToRight, c.current.value, nrows, ncols).Some?
    ensures var r := AddSubplot(c, PlainRequest, nrows, ncols);
      && r.Ok? && !r.value.rollover
      && r.value.cell == Advance(LeftToRight, c.current.value, nrows, ncols)
      && r.value.cursor.direction == LeftToRight
  {
  }

  /** A top-to-bottom pager at (0,0) of a 2 x 2 grid: a call with a falsy
      direction goes down to (1,0), a plain `add_subplot()` goes right to
      (0,1) and leaves the cursor scanning row-major. */
  lemma PlainRequestUndoesColumnMajor()
    ensures var c := CursorState(Some(Cell(0, 0)), Some(Cell(0, 0)), TopToBottom);
      var keep := AddSubplot(c, Request("", None, None), 2, 2);
      var plain := AddSubplot(c, PlainRequest, 2, 2);
      && keep.Ok? && keep.value.cell == Some(Cell(1, 0)) && keep.value.cursor.direction == TopToBottom
      && plain.Ok? && plain.value.cell == Some(Cell(0, 1)) && plain.value.cursor.direction == LeftToRight
  {
  }
}

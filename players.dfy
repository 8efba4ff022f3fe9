/** A player with a fleet board and a target board: ship placement, the fleet
    randomiser and the per-turn operations (pkg/player/player.go; duplicated
    in cmd/game/main.go). */
module Players {
  import opened Cells
  import opened Boards

  // ---------------------------------------------------------------------------
  // Placement, as functions of the fleet board's value

  /** Distance in the flat board between consecutive parts of a ship. */
  function Step(orientation: Orientation): (step: int)
    requires orientation.IsKnown()
    ensures step > 0
    ensures orientation == Horizontal ==> step == 1
    ensures orientation == Vertical ==> step == BoardWidth
  {
    if orientation == Horizontal then 1 else BoardWidth
  }

  /** The board indices a ship covers, in the order the source visits them:
      idx + i for a horizontal ship, idx + i * BoardWidth for a vertical one. */
  function ShipCells(size: int, orientation: Orientation, coord: Coordinate): (cells: seq<int>)
    requires orientation.IsKnown()
    ensures |cells| == if size > 0 then size else 0
    ensures forall k :: 0 <= k < |cells| ==> cells[k] == coord.ToIndex() + k * Step(orientation)
  {
    seq(if size > 0 then size else 0, k => coord.ToIndex() + k * Step(orientation))
  }

  /** The scan that precedes any write: the first cell that is past the end of
      the board (a panic in the source) or already occupied decides the error. */
  function FirstBlocked(board: seq<Cell>, cells: seq<int>): (r: Outcome)
    ensures r.Fail? ==> r.error in {IndexOutOfRange, CellOccupied}
  {
    if cells == [] then Pass
    else if !(0 <= cells[0] < |board|) then Fail(IndexOutOfRange)
    else if board[cells[0]].occupied then Fail(CellOccupied)
    else FirstBlocked(board, cells[1..])
  }

  /** Every cell is on the board and free. */
  ghost predicate AllFree(board: seq<Cell>, cells: seq<int>)
  {
    forall k :: 0 <= k < |cells| ==> 0 <= cells[k] < |board| && !board[cells[k]].occupied
  }

  lemma {:induction false} FirstBlockedPass(board: seq<Cell>, cells: seq<int>)
    ensures FirstBlocked(board, cells).Pass? <==> AllFree(board, cells)
  {
    if cells != [] {
      FirstBlockedPass(board, cells[1..]);
      assert forall k :: 1 <= k < |cells| ==> cells[k] == cells[1..][k - 1];
    }
  }

  /** One step of the scan, from position i of the run. */
  lemma FirstBlockedAt(board: seq<Cell>, cells: seq<int>, i: int)
    requires 0 <= i < |cells|
    ensures FirstBlocked(board, cells[i..]) ==
      if !(0 <= cells[i] < |board|) then Fail(IndexOutOfRange)
      else if board[cells[i]].occupied then Fail(CellOccupied)
      else FirstBlocked(board, cells[i + 1..])
  {
    assert cells[i..][1..] == cells[i + 1..];
  }

  /** When every cell is on the board, a failing scan can only mean overlap. */
  lemma {:induction false} FirstBlockedOverlap(board: seq<Cell>, cells: seq<int>)
    requires forall k :: 0 <= k < |cells| ==> 0 <= cells[k] < |board|
    ensures FirstBlocked(board, cells).Fail? ==> FirstBlocked(board, cells).error == CellOccupied
  {
    if cells != [] {
      assert forall k :: 0 <= k < |cells| - 1 ==> cells[1..][k] == cells[k + 1];
      FirstBlockedOverlap(board, cells[1..]);
    }
  }

  /** What place_ship returns for a board value: validation, then the
      orientation switch, then the scan. */
  function Placement(board: seq<Cell>, size: int, orientation: Orientation, coord: Coordinate): (r: Outcome)
    ensures r.Pass? ==> orientation.IsKnown() && VerifyCoordinate(size, orientation, coord).Pass?
    ensures r.Fail? ==> r.error in {OffBoard, UnknownOrientation, IndexOutOfRange, CellOccupied}
  {
    var verified := VerifyCoordinate(size, orientation, coord);
    if verified.Fail? then verified
    else if !orientation.IsKnown() then Fail(UnknownOrientation)
    else FirstBlocked(board, ShipCells(size, orientation, coord))
  }

  /** The cells set occupied, one after another; nothing else changes. */
  function Occupy(board: seq<Cell>, cells: seq<int>): (r: seq<Cell>)
    requires forall k :: 0 <= k < |cells| ==> 0 <= cells[k] < |board|
    ensures |r| == |board|
    ensures forall j :: 0 <= j < |board| ==>
      r[j].occupied == (board[j].occupied || j in cells) && r[j].chosen == board[j].chosen
  {
    if cells == [] then board
    else
      var before := Occupy(board, cells[..|cells| - 1]);
      var j := cells[|cells| - 1];
      before[j := before[j].(occupied := true)]
  }

  /** Occupying one more cell of the run is one more write. */
  lemma OccupyNext(board: seq<Cell>, cells: seq<int>, i: int)
    requires AllFree(board, cells) && 0 <= i < |cells|
    ensures 0 <= cells[i] < |board|
    ensures Occupy(board, cells[..i + 1]) ==
      Occupy(board, cells[..i])[cells[i] := Occupy(board, cells[..i])[cells[i]].(occupied := true)]
  {
    assert cells[..i + 1][..i] == cells[..i];
  }

  /** What the board becomes after place_ship. */
  function Placed(board: seq<Cell>, size: int, orientation: Orientation, coord: Coordinate): (r: seq<Cell>)
    ensures Grows(board, r)
  {
    if Placement(board, size, orientation, coord).Pass? then
      FirstBlockedPass(board, ShipCells(size, orientation, coord));
      Occupy(board, ShipCells(size, orientation, coord))
    else board
  }

  /** A successful placement sets `occupied` on exactly the run's cells. */
  lemma PlacedCells(board: seq<Cell>, size: int, orientation: Orientation, coord: Coordinate)
    requires Placement(board, size, orientation, coord).Pass?
    ensures orientation.IsKnown()
    ensures |Placed(board, size, orientation, coord)| == |board|
    ensures forall j :: 0 <= j < |board| ==>
      Placed(board, size, orientation, coord)[j].occupied ==
        (board[j].occupied || j in ShipCells(size, orientation, coord)) &&
      Placed(board, size, orientation, coord)[j].chosen == board[j].chosen
  {
    FirstBlockedPass(board, ShipCells(size, orientation, coord));
  }

  /** place_ship succeeds exactly when the anchor validates, the orientation is
      known and every cell of the run is on the board and free. */
  lemma PlacementPass(board: seq<Cell>, size: int, orientation: Orientation, coord: Coordinate)
    ensures Placement(board, size, orientation, coord).Pass? <==>
      VerifyCoordinate(size, orientation, coord).Pass? && orientation.IsKnown() &&
      AllFree(board, ShipCells(size, orientation, coord))
  {
    if VerifyCoordinate(size, orientation, coord).Pass? && orientation.IsKnown() {
      FirstBlockedPass(board, ShipCells(size, orientation, coord));
    }
  }

  /** The error kinds, in the order the source checks them. */
  lemma PlacementErrors(board: seq<Cell>, size: int, orientation: Orientation, coord: Coordinate)
    ensures VerifyCoordinate(size, orientation, coord).Fail? ==>
      Placement(board, size, orientation, coord) == Fail(OffBoard)
    ensures VerifyCoordinate(size, orientation, coord).Pass? && !orientation.IsKnown() ==>
      Placement(board, size, orientation, coord) == Fail(UnknownOrientation)
    ensures (VerifyCoordinate(size, orientation, coord).Pass? && orientation.IsKnown() &&
             Placement(board, size, orientation, coord).Fail?) ==>
      Placement(board, size, orientation, coord).error in {IndexOutOfRange, CellOccupied}
  {
    if VerifyCoordinate(size, orientation, coord).Pass? && orientation.IsKnown() {
      FirstBlockedPass(board, ShipCells(size, orientation, coord));
    }
  }

  /** An anchor on the grid that validates yields a run of cells that stays in
      the anchor's row (horizontal) or column (vertical), inside the board. */
  lemma ShipCellsInGrid(size: int, orientation: Orientation, coord: Coordinate, k: int)
    requires orientation.IsKnown() && coord.InGrid()
    requires VerifyCoordinate(size, orientation, coord).Pass?
    requires 0 <= k < |ShipCells(size, orientation, coord)|
    ensures orientation == Horizontal ==>
      Coordinate(coord.x + k, coord.y).InGrid() &&
      ShipCells(size, orientation, coord)[k] == Coordinate(coord.x + k, coord.y).ToIndex()
    ensures orientation == Vertical ==>
      Coordinate(coord.x, coord.y + k).InGrid() &&
      ShipCells(size, orientation, coord)[k] == Coordinate(coord.x, coord.y + k).ToIndex()
    ensures 0 <= ShipCells(size, orientation, coord)[k] < BoardSize
  {
  }

  /** So on a 100-cell board, an on-grid anchor never reaches the panic. */
  lemma PlacementOnGridNeverPanics(board: seq<Cell>, size: int, orientation: Orientation, coord: Coordinate)
    requires |board| == BoardSize && coord.InGrid()
    ensures Placement(board, size, orientation, coord) != Fail(IndexOutOfRange)
  {
    if VerifyCoordinate(size, orientation, coord).Pass? && orientation.IsKnown() {
      var cells := ShipCells(size, orientation, coord);
      forall k | 0 <= k < |cells| ensures 0 <= cells[k] < |board| {
        ShipCellsInGrid(size, orientation, coord, k);
      }
      FirstBlockedOverlap(board, cells);
    }
  }

  /** A vertical carrier anchored one column past the grid validates, and its
      cells wrap to column 0 of the next five rows. */
  lemma VerticalEdgeAnchorWraps()
    ensures VerifyCoordinate(5, Vertical, Coordinate(BoardWidth, 0)).Pass?
    ensures ShipCells(5, Vertical, Coordinate(BoardWidth, 0)) == [10, 20, 30, 40, 50]
    ensures Placement(EmptyBoard(), 5, Vertical, Coordinate(BoardWidth, 0)).Pass?
    ensures forall k :: 1 <= k <= 5 ==> CoordinateAt(k * BoardWidth) == Coordinate(0, k)
  {
    PlacementPass(EmptyBoard(), 5, Vertical, Coordinate(BoardWidth, 0));
  }

  /** A vertical destroyer at (10, 8) validates but reaches index 100. */
  lemma VerticalEdgeAnchorOverruns()
    ensures VerifyCoordinate(2, Vertical, Coordinate(BoardWidth, 8)).Pass?
    ensures ShipCells(2, Vertical, Coordinate(BoardWidth, 8)) == [90, 100]
    ensures Placement(EmptyBoard(), 2, Vertical, Coordinate(BoardWidth, 8)) == Fail(IndexOutOfRange)
  {
    var cells := ShipCells(2, Vertical, Coordinate(BoardWidth, 8));
    assert cells == [90, 100];
    assert cells[1..] == [100];
  }

  /** A horizontal ship anchored in row 10 validates but starts at index 100 or beyond. */
  lemma HorizontalEdgeAnchorOverruns(size: int, x: int)
    requires 1 <= size <= BoardWidth && 0 <= x <= BoardWidth - size
    ensures VerifyCoordinate(size, Horizontal, Coordinate(x, BoardHeight)).Pass?
    ensures ShipCells(size, Horizontal, Coordinate(x, BoardHeight))[0] >= BoardSize
    ensures Placement(EmptyBoard(), size, Horizontal, Coordinate(x, BoardHeight)) == Fail(IndexOutOfRange)
  {
  }

  /** The run of a ship is strictly increasing, hence free of repeats. */
  lemma ShipCellsIncreasing(size: int, orientation: Orientation, coord: Coordinate)
    requires orientation.IsKnown()
    ensures forall k, l :: 0 <= k < l < |ShipCells(size, orientation, coord)| ==>
      ShipCells(size, orientation, coord)[k] < ShipCells(size, orientation, coord)[l]
  {
    var cells := ShipCells(size, orientation, coord);
    var step := Step(orientation);
    forall k, l | 0 <= k < l < |cells| ensures cells[k] < cells[l] {
      assert cells[l] - cells[k] == (l - k) * step;
      assert (l - k) * step > 0;
    }
  }

  /** Occupying distinct free cells adds one to the count per cell. */
  lemma {:induction false} OccupyCount(board: seq<Cell>, cells: seq<int>)
    requires AllFree(board, cells)
    requires forall k, l :: 0 <= k < l < |cells| ==> cells[k] < cells[l]
    ensures CountOccupied(Occupy(board, cells)) == CountOccupied(board) + |cells|
  {
    if cells != [] {
      var init := cells[..|cells| - 1];
      var j := cells[|cells| - 1];
      assert AllFree(board, init);
      OccupyCount(board, init);
      assert j !in init;
      CountOccupiedSet(Occupy(board, init), j);
    }
  }

  /** A successful placement adds exactly `size` ship parts: it never overlaps. */
  lemma PlacedCount(board: seq<Cell>, size: int, orientation: Orientation, coord: Coordinate)
    requires Placement(board, size, orientation, coord).Pass?
    ensures CountOccupied(Placed(board, size, orientation, coord)) ==
      CountOccupied(board) + (if size > 0 then size else 0)
  {
    PlacementPass(board, size, orientation, coord);
    ShipCellsIncreasing(size, orientation, coord);
    OccupyCount(board, ShipCells(size, orientation, coord));
  }

  /** After a placement, cells occupied before still are and no `chosen` flag moved. */
  ghost predicate Grows(before: seq<Cell>, after: seq<Cell>)
  {
    |after| == |before| &&
    forall j :: 0 <= j < |before| ==>
      (before[j].occupied ==> after[j].occupied) && after[j].chosen == before[j].chosen
  }

  lemma GrowsTransitive(a: seq<Cell>, b: seq<Cell>, c: seq<Cell>)
    requires Grows(a, b) && Grows(b, c)
    ensures Grows(a, c)
  {
  }

  // ---------------------------------------------------------------------------
  // The fleet randomiser, as predicates over the draws it made

  predicate IsShipSize(size: int) { 2 <= size <= 5 }

  /** One random orientation and anchor. */
  datatype Draw = Draw(orientation: Orientation, anchor: Coordinate)

  predicate IsDraw(size: int, d: Draw)
  {
    d.orientation.IsKnown() && IsDrawnAnchor(size, d.anchor)
  }

  /** No drawable placement of the ship fits the board. */
  ghost predicate NoFit(board: seq<Cell>, size: int)
  {
    forall o: Orientation, x: int, y: int ::
      o.IsKnown() && IsDrawnAnchor(size, Coordinate(x, y)) ==>
        Placement(board, size, o, Coordinate(x, y)).Fail?
  }

  /** The draws of one call of RandomizeShipPlacement for a real ship size: at
      least one and at most 1 + (MaxRandomLimit + 1), every draw in range, and
      every draw but the last one failed (on the unchanged board). */
  ghost predicate Retried(board: seq<Cell>, size: int, draws: seq<Draw>)
  {
    1 <= |draws| <= MaxRandomLimit + 2 &&
    (forall k :: 0 <= k < |draws| ==> IsDraw(size, draws[k])) &&
    (forall k :: 0 <= k < |draws| - 1 ==> !DrawFits(board, size, draws[k]))
  }

  /** The ship can be placed with this draw. */
  ghost predicate DrawFits(board: seq<Cell>, size: int, d: Draw)
  {
    Placement(board, size, d.orientation, d.anchor).Pass?
  }

  /** The last draw placed the ship. */
  ghost predicate Committed(board: seq<Cell>, size: int, draws: seq<Draw>)
  {
    |draws| > 0 && DrawFits(board, size, draws[|draws| - 1])
  }

  /** The board after the last draw: placed if it fit, unchanged otherwise. */
  ghost function AfterDraws(board: seq<Cell>, size: int, draws: seq<Draw>): (r: seq<Cell>)
    ensures Grows(board, r)
    ensures r != board ==> Committed(board, size, draws)
  {
    if |draws| == 0 then board
    else Placed(board, size, draws[|draws| - 1].orientation, draws[|draws| - 1].anchor)
  }

  /** What one call of the randomiser returns: the limit error exactly when it
      used every attempt, MaxRandomLimit + 1 retries after the first draw. */
  function CallOutcome(draws: seq<Draw>): (r: Outcome)
    ensures r.Fail? ==> r.error == RandomLimitReached
  {
    if |draws| == MaxRandomLimit + 2 then Fail(RandomLimitReached) else Pass
  }

  /** The ship sizes randomize_placement places, in its order: carrier,
      battleship, cruiser, submarine, destroyer. */
  function FleetSizes(): (sizes: seq<int>)
    ensures |sizes| == 5 && forall k :: 0 <= k < |sizes| ==> IsShipSize(sizes[k])
  {
    [5, 4, 3, 3, 2]
  }

  /** The calls randomize_placement made: call k drew `draws[k]` for ship
      FleetSizes()[k] on `boards[k]` and left `boards[k + 1]` (written
      `boards[1..][k]`); every call before the last one succeeded. */
  ghost predicate FleetRun(boards: seq<seq<Cell>>, draws: seq<seq<Draw>>)
  {
    |draws| <= |FleetSizes()| && |boards| == |draws| + 1 &&
    (forall k {:trigger CallMade(boards[k], FleetSizes()[k], draws[k], boards[1..][k])} ::
      0 <= k < |draws| ==> CallMade(boards[k], FleetSizes()[k], draws[k], boards[1..][k])) &&
    (forall k :: 0 <= k < |draws| - 1 ==> CallOutcome(draws[k]) == Pass)
  }

  /** A finished run of randomize_placement: at least one call was made, and
      the run stopped either at a failing call or after all five ships. */
  ghost predicate FleetPlaced(boards: seq<seq<Cell>>, draws: seq<seq<Draw>>)
  {
    FleetRun(boards, draws) && |draws| >= 1 &&
    (CallOutcome(draws[|draws| - 1]) == Pass ==> |draws| == |FleetSizes()|)
  }

  /** Call k of a run. */
  lemma FleetRunAt(boards: seq<seq<Cell>>, draws: seq<seq<Draw>>, k: int)
    requires FleetRun(boards, draws) && 0 <= k < |draws|
    ensures CallMade(boards[k], FleetSizes()[k], draws[k], boards[k + 1])
  {
    assert boards[1..][k] == boards[k + 1];
    assert CallMade(boards[k], FleetSizes()[k], draws[k], boards[1..][k]);
  }

  /** One call of the randomiser for ship `size`: its draws on `board`, the
      board it left, and a placement whenever it reported success. */
  ghost predicate CallMade(board: seq<Cell>, size: int, draws: seq<Draw>, after: seq<Cell>)
  {
    Retried(board, size, draws) && after == AfterDraws(board, size, draws) &&
    (CallOutcome(draws) == Pass ==> Committed(board, size, draws))
  }

  /** The sum of a sequence of ship sizes. */
  function Total(sizes: seq<int>): (sum: int)
  {
    if sizes == [] then 0 else Total(sizes[..|sizes| - 1]) + sizes[|sizes| - 1]
  }

  /** The fleet has 17 ship parts, and every prefix of it at most that. */
  lemma FleetPrefixTotal(n: int)
    requires 0 <= n <= |FleetSizes()|
    ensures Total(FleetSizes()[..n]) <= Total(FleetSizes()) == 17
  {
    var f := FleetSizes();
    assert Total(f[..1]) == 5 by { assert f[..1][..0] == []; }
    assert Total(f[..2]) == 9 by { assert f[..2][..1] == f[..1]; }
    assert Total(f[..3]) == 12 by { assert f[..3][..2] == f[..2]; }
    assert Total(f[..4]) == 15 by { assert f[..4][..3] == f[..3]; }
    assert Total(f) == 17 by { assert f[..4] == f[..|f| - 1]; }
    assert f[..5] == f;
  }

  /** What the first n calls of a run did: the board only grew, by at most
      the sizes of those ships, and by exactly that when every one of those
      calls succeeded. */
  lemma {:induction false} FleetRunEffect(boards: seq<seq<Cell>>, draws: seq<seq<Draw>>, n: int)
    requires FleetRun(boards, draws) && 0 <= n <= |draws|
    ensures Grows(boards[0], boards[n])
    ensures CountOccupied(boards[n]) <= CountOccupied(boards[0]) + Total(FleetSizes()[..n])
    ensures (n < |draws| || (n > 0 && CallOutcome(draws[n - 1]) == Pass)) ==>
      CountOccupied(boards[n]) == CountOccupied(boards[0]) + Total(FleetSizes()[..n])
  {
    if n > 0 {
      var m := n - 1;
      FleetRunEffect(boards, draws, m);
      FleetRunAt(boards, draws, m);
      RetryEffect(boards[m], FleetSizes()[m], draws[m]);
      GrowsTransitive(boards[0], boards[m], boards[n]);
      assert FleetSizes()[..n][..m] == FleetSizes()[..m];
    }
  }

  /** Where no carrier fits, the first call fails and leaves the board as it was. */
  lemma FleetRunNoFit(boards: seq<seq<Cell>>, draws: seq<seq<Draw>>)
    requires FleetRun(boards, draws) && |draws| > 0 && NoFit(boards[0], FleetSizes()[0])
    ensures CallOutcome(draws[0]).Fail? && boards[1] == boards[0]
  {
    FleetRunAt(boards, draws, 0);
    NoFitMeansNoCommit(boards[0], FleetSizes()[0], draws[0]);
  }

  /** The whole run: at most 17 new ship parts, exactly 17 when all five
      calls succeeded. */
  lemma FleetRunTotal(boards: seq<seq<Cell>>, draws: seq<seq<Draw>>)
    requires FleetRun(boards, draws)
    ensures Grows(boards[0], boards[|draws|])
    ensures CountOccupied(boards[|draws|]) <= CountOccupied(boards[0]) + 17
    ensures |draws| == |FleetSizes()| && CallOutcome(draws[|draws| - 1]) == Pass ==>
      CountOccupied(boards[|draws|]) == CountOccupied(boards[0]) + 17
  {
    FleetRunEffect(boards, draws, |draws|);
    FleetPrefixTotal(|draws|);
    assert FleetSizes()[..|FleetSizes()|] == FleetSizes();
  }

  /** A first call, or a call made after a successful one, extends the run. */
  lemma FleetRunNext(boards: seq<seq<Cell>>, draws: seq<seq<Draw>>, board: seq<Cell>, size: int, d: seq<Draw>, after: seq<Cell>)
    requires FleetRun(boards, draws) && |draws| < |FleetSizes()|
    requires draws != [] ==> CallOutcome(draws[|draws| - 1]) == Pass
    requires board == boards[|draws|] && size == FleetSizes()[|draws|]
    requires CallMade(board, size, d, after)
    ensures FleetRun(boards + [after], draws + [d])
  {
    var bs, ds := boards + [after], draws + [d];
    forall k | 0 <= k < |ds|
      ensures CallMade(bs[k], FleetSizes()[k], ds[k], bs[1..][k])
    {
      if k < |draws| {
        FleetRunAt(boards, draws, k);
        assert bs[k] == boards[k] && bs[1..][k] == boards[k + 1] && ds[k] == draws[k];
      } else {
        assert bs[k] == board && bs[1..][k] == after && ds[k] == d;
      }
    }
    assert forall k :: 0 <= k < |ds| - 1 ==> ds[k] == draws[k];
  }


  /** On a board where nothing fits, every retry fails and the limit is the outcome. */
  lemma NoFitMeansNoCommit(board: seq<Cell>, size: int, draws: seq<Draw>)
    requires NoFit(board, size) && Retried(board, size, draws)
    ensures !Committed(board, size, draws)
    ensures AfterDraws(board, size, draws) == board
  {
    var d := draws[|draws| - 1];
    assert IsDraw(size, d);
    assert Placement(board, size, d.orientation, Coordinate(d.anchor.x, d.anchor.y)).Fail?;
  }

  /** What one call of the randomiser did to the board: a placement keeps
      Grows and adds `size` parts, a failure changes nothing, and where nothing
      fits nothing is placed. */
  lemma RetryEffect(board: seq<Cell>, size: int, draws: seq<Draw>)
    requires IsShipSize(size) && Retried(board, size, draws)
    ensures Grows(board, AfterDraws(board, size, draws))
    ensures CountOccupied(AfterDraws(board, size, draws)) ==
      CountOccupied(board) + (if Committed(board, size, draws) then size else 0)
    ensures NoFit(board, size) ==> !Committed(board, size, draws) && AfterDraws(board, size, draws) == board
  {
    var d := draws[|draws| - 1];
    if Placement(board, size, d.orientation, d.anchor).Pass? {
      PlacedCount(board, size, d.orientation, d.anchor);
    }
    if NoFit(board, size) {
      NoFitMeansNoCommit(board, size, draws);
    }
  }

  /** The board of the randomiser's test for the attempt limit: in even rows
      columns 2, 4, 6 and 8 are occupied, in odd rows the other six. */
  function PrefilledBoard(): (b: seq<Cell>)
    ensures |b| == BoardSize
    ensures forall i :: 0 <= i < BoardSize ==> b[i] == Cell(Painted(i), false)
  {
    seq(BoardSize, i => Cell(Painted(i), false))
  }

  /** Whether the limit test paints cell i. */
  predicate Painted(i: int)
  {
    (i / BoardWidth) % 2 == 0 <==> i % BoardWidth in {2, 4, 6, 8}
  }

  /** No carrier fits that board anywhere the randomiser can draw. */
  lemma PrefilledBoardFitsNoCarrier()
    ensures NoFit(PrefilledBoard(), 5)
  {
    var b := PrefilledBoard();
    forall o: Orientation, x: int, y: int | o.IsKnown() && IsDrawnAnchor(5, Coordinate(x, y))
      ensures Placement(b, 5, o, Coordinate(x, y)).Fail?
    {
      var c := Coordinate(x, y);
      var cells := ShipCells(5, o, c);
      // a blocking part of the run
      var k: int;
      if o == Horizontal {
        k := if y % 2 == 0 then (if x <= 2 then 2 - x else 4 - x) else (if x % 2 == 1 then 0 else 1);
        assert cells[k] == y * BoardWidth + (x + k);
        assert cells[k] / BoardWidth == y && cells[k] % BoardWidth == x + k;
      } else {
        var even := x in {2, 4, 6, 8};
        k := if (y % 2 == 0) == even then 0 else 1;
        assert cells[k] == (y + k) * BoardWidth + x;
        assert cells[k] / BoardWidth == y + k && cells[k] % BoardWidth == x;
      }
      assert b[cells[k]].occupied;
      PlacementPass(b, 5, o, c);
    }
  }

  // ---------------------------------------------------------------------------
  // The player

  class Player {
    const name: string

    /** Ships and incoming shots. */
    var playerBoard: array<Cell>

    /** This player's own shots against the opponent. */
    var targetBoard: array<Cell>

    ghost predicate Valid()
      reads this
    {
      playerBoard.Length == BoardSize && targetBoard.Length == BoardSize &&
      playerBoard != targetBoard
    }

    /** NewPlayer: two independent fresh boards. */
    constructor (name: string)
      ensures Valid() && this.name == name
      ensures fresh(playerBoard) && fresh(targetBoard)
      ensures playerBoard[..] == EmptyBoard() && targetBoard[..] == EmptyBoard()
    {
      this.name := name;
      var fleet := NewBoard();
      var target := NewBoard();
      playerBoard := fleet;
      targetBoard := target;
    }

    /** Validates, scans every cell of the run, and only then writes them all. */
    method PlaceShip(size: int, orientation: Orientation, coord: Coordinate) returns (result: Outcome)
      requires Valid()
      modifies playerBoard
      ensures result == Placement(old(playerBoard[..]), size, orientation, coord)
      ensures playerBoard[..] == Placed(old(playerBoard[..]), size, orientation, coord)
    {
      result := VerifyCoordinate(size, orientation, coord);
      if result.Fail? {
        return;
      }
      if !orientation.IsKnown() {
        return Fail(UnknownOrientation);
      }
      result := ScanShip(size, orientation, coord);
      if result.Fail? {
        return;
      }
      FirstBlockedPass(playerBoard[..], ShipCells(size, orientation, coord));
      OccupyShip(size, orientation, coord);
    }

    /** The first loop of place_ship: visits the run in order and stops at the
        first cell past the end of the board or already occupied. Reads only. */
    method ScanShip(size: int, orientation: Orientation, coord: Coordinate) returns (result: Outcome)
      requires Valid() && orientation.IsKnown()
      ensures result == FirstBlocked(playerBoard[..], ShipCells(size, orientation, coord))
    {
      ghost var board := playerBoard[..];
      ghost var cells := ShipCells(size, orientation, coord);
      var idx := coord.ToIndex();
      var step := Step(orientation);
      var i := 0;
      while i < size
        invariant 0 <= i <= |cells|
        invariant FirstBlocked(board, cells) == FirstBlocked(board, cells[i..])
      {
        var j := idx + i * step;
        FirstBlockedAt(board, cells, i);
        if j < 0 || j >= playerBoard.Length {
          return Fail(IndexOutOfRange);
        }
        if playerBoard[j].occupied {
          return Fail(CellOccupied);
        }
        i := i + 1;
      }
      assert cells[i..] == [];
      return Pass;
    }

    /** The second loop of place_ship: sets `occupied` on every cell of the run. */
    method OccupyShip(size: int, orientation: Orientation, coord: Coordinate)
      requires Valid() && orientation.IsKnown()
      requires AllFree(playerBoard[..], ShipCells(size, orientation, coord))
      modifies playerBoard
      ensures playerBoard[..] == Occupy(old(playerBoard[..]), ShipCells(size, orientation, coord))
    {
      ghost var board := playerBoard[..];
      ghost var cells := ShipCells(size, orientation, coord);
      var idx := coord.ToIndex();
      var step := Step(orientation);
      var i := 0;
      while i < size
        invariant 0 <= i <= |cells|
        invariant playerBoard[..] == Occupy(board, cells[..i])
      {
        var j := idx + i * step;
        assert j == cells[i];
        OccupyNext(board, cells, i);
        ghost var before := playerBoard[..];
        playerBoard[j] := playerBoard[j].(occupied := true);
        assert playerBoard[..] == before[j := before[j].(occupied := true)];
        i := i + 1;
      }
      assert cells[..i] == cells;
    }

    method PlaceCarrier(orientation: Orientation, coord: Coordinate) returns (result: Outcome)
      requires Valid()
      modifies playerBoard
      ensures result == Placement(old(playerBoard[..]), 5, orientation, coord)
      ensures playerBoard[..] == Placed(old(playerBoard[..]), 5, orientation, coord)
    {
      result := PlaceShip(5, orientation, coord);
    }

    method PlaceBattleship(orientation: Orientation, coord: Coordinate) returns (result: Outcome)
      requires Valid()
      modifies playerBoard
      ensures result == Placement(old(playerBoard[..]), 4, orientation, coord)
      ensures playerBoard[..] == Placed(old(playerBoard[..]), 4, orientation, coord)
    {
      result := PlaceShip(4, orientation, coord);
    }

    method PlaceCruiserOrSubmarine(orientation: Orientation, coord: Coordinate) returns (result: Outcome)
      requires Valid()
      modifies playerBoard
      ensures result == Placement(old(playerBoard[..]), 3, orientation, coord)
      ensures playerBoard[..] == Placed(old(playerBoard[..]), 3, orientation, coord)
    {
      result := PlaceShip(3, orientation, coord);
    }

    method PlaceDestroyer(orientation: Orientation, coord: Coordinate) returns (result: Outcome)
      requires Valid()
      modifies playerBoard
      ensures result == Placement(old(playerBoard[..]), 2, orientation, coord)
      ensures playerBoard[..] == Placed(old(playerBoard[..]), 2, orientation, coord)
    {
      result := PlaceShip(2, orientation, coord);
    }

    /** The switch on the ship size that picks the placement wrapper. */
    method PlaceBySize(size: int, orientation: Orientation, coord: Coordinate) returns (result: Outcome)
      requires Valid() && IsShipSize(size)
      modifies playerBoard
      ensures result == Placement(old(playerBoard[..]), size, orientation, coord)
      ensures playerBoard[..] == Placed(old(playerBoard[..]), size, orientation, coord)
    {
      if size == 2 {
        result := PlaceDestroyer(orientation, coord);
      } else if size == 3 {
        result := PlaceCruiserOrSubmarine(orientation, coord);
      } else if size == 4 {
        result := PlaceBattleship(orientation, coord);
      } else {
        result := PlaceCarrier(orientation, coord);
      }
    }

    /** Draws and places one ship, retrying on failure. The attempt limit is
        checked after each retry whatever that retry returned, so the last
        retry can place the ship and still report the limit. */
    method RandomizeShipPlacement(size: int) returns (err: Outcome, ghost draws: seq<Draw>)
      requires Valid() && size < BoardWidth
      modifies playerBoard
      ensures !IsShipSize(size) ==>
        err == Fail(UnknownShipSize) && playerBoard[..] == old(playerBoard[..])
      ensures IsShipSize(size) ==> CallMade(old(playerBoard[..]), size, draws, playerBoard[..])
      ensures IsShipSize(size) ==> err == CallOutcome(draws)
      ensures err.Pass? ==> Committed(old(playerBoard[..]), size, draws)
      ensures Grows(old(playerBoard[..]), playerBoard[..])
      ensures CountOccupied(playerBoard[..]) == CountOccupied(old(playerBoard[..])) +
        (if IsShipSize(size) && Committed(old(playerBoard[..]), size, draws) then size else 0)
      ensures IsShipSize(size) && NoFit(old(playerBoard[..]), size) ==>
        err == Fail(RandomLimitReached) && playerBoard[..] == old(playerBoard[..])
    {
      ghost var board := playerBoard[..];
      var orientation := GetRandomOrientation();
      var coord := GetRandomCoord(size);
      draws := [Draw(orientation, coord)];
      if !IsShipSize(size) {
        return Fail(UnknownShipSize), draws;
      }
      var result := PlaceBySize(size, orientation, coord);

      var attempt := 0;
      while result.Fail?
        invariant 0 <= attempt <= MaxRandomLimit
        invariant |draws| == attempt + 1
        invariant forall k :: 0 <= k < |draws| ==> IsDraw(size, draws[k])
        invariant forall k :: 0 <= k < |draws| - 1 ==> !DrawFits(board, size, draws[k])
        invariant result == Placement(board, size, draws[attempt].orientation, draws[attempt].anchor)
        invariant playerBoard[..] == AfterDraws(board, size, draws)
        decreases MaxRandomLimit - attempt
      {
        orientation := GetRandomOrientation();
        coord := GetRandomCoord(size);
        draws := draws + [Draw(orientation, coord)];
        result := PlaceBySize(size, orientation, coord);
        if attempt == MaxRandomLimit {
          err := Fail(RandomLimitReached);
          RetryEffect(board, size, draws);
          return;
        }
        attempt := attempt + 1;
      }
      err := Pass;
      RetryEffect(board, size, draws);
    }

    /** One `if err := randomize_ship_placement(size); err != nil` step of
        randomize_placement, with the calls so far as ghost state. */
    method PlaceFleetShip(size: int, ghost boards: seq<seq<Cell>>, ghost shipDraws: seq<seq<Draw>>)
      returns (err: Outcome, ghost boards': seq<seq<Cell>>, ghost shipDraws': seq<seq<Draw>>)
      requires Valid() && FleetRun(boards, shipDraws) && |shipDraws| < |FleetSizes()|
      requires size == FleetSizes()[|shipDraws|] && playerBoard[..] == boards[|shipDraws|]
      requires shipDraws != [] ==> CallOutcome(shipDraws[|shipDraws| - 1]) == Pass
      modifies playerBoard
      ensures FleetRun(boards', shipDraws') && boards' == boards + [playerBoard[..]]
      ensures |shipDraws'| == |shipDraws| + 1 && shipDraws'[..|shipDraws|] == shipDraws
      ensures err == CallOutcome(shipDraws'[|shipDraws|])
    {
      ghost var draws;
      err, draws := RandomizeShipPlacement(size);
      FleetRunNext(boards, shipDraws, old(playerBoard[..]), size, draws, playerBoard[..]);
      boards', shipDraws' := boards + [playerBoard[..]], shipDraws + [draws];
      assert shipDraws'[..|shipDraws|] == shipDraws;
    }

    /** Places the fleet 5, 4, 3, 3, 2, stopping at the first error. The
        ghost `boards` and `shipDraws` record each call made: its board, its
        draws and the board it left. */
    method RandomizePlacement() returns (err: Outcome, ghost boards: seq<seq<Cell>>, ghost shipDraws: seq<seq<Draw>>)
      requires Valid()
      modifies playerBoard
      ensures FleetPlaced(boards, shipDraws)
      ensures boards[0] == old(playerBoard[..]) && playerBoard[..] == boards[|boards| - 1]
      ensures err == CallOutcome(shipDraws[|shipDraws| - 1])
      ensures err.Pass? ==> |shipDraws| == |FleetSizes()|
      ensures err.Fail? ==> err.error == RandomLimitReached
      ensures err.Pass? ==> CountOccupied(playerBoard[..]) == CountOccupied(old(playerBoard[..])) + 17
      ensures CountOccupied(playerBoard[..]) <= CountOccupied(old(playerBoard[..])) + 17
      ensures Grows(old(playerBoard[..]), playerBoard[..])
      ensures NoFit(old(playerBoard[..]), 5) ==>
        err == Fail(RandomLimitReached) && playerBoard[..] == old(playerBoard[..])
    {
      boards, shipDraws := [playerBoard[..]], [];
      err, boards, shipDraws := PlaceFleetShip(5, boards, shipDraws);
      if NoFit(boards[0], 5) {
        FleetRunNoFit(boards, shipDraws);
      }
      if err.Fail? {
        FleetRunTotal(boards, shipDraws);
        return;
      }
      err, boards, shipDraws := PlaceFleetShip(4, boards, shipDraws);
      if err.Fail? {
        FleetRunTotal(boards, shipDraws);
        return;
      }
      err, boards, shipDraws := PlaceFleetShip(3, boards, shipDraws);
      if err.Fail? {
        FleetRunTotal(boards, shipDraws);
        return;
      }
      err, boards, shipDraws := PlaceFleetShip(3, boards, shipDraws);
      if err.Fail? {
        FleetRunTotal(boards, shipDraws);
        return;
      }
      err, boards, shipDraws := PlaceFleetShip(2, boards, shipDraws);
      FleetRunTotal(boards, shipDraws);
    }

    /** A guess anywhere on the grid; previous guesses are not consulted. */
    method GetGuess() returns (coord: Coordinate)
      ensures coord.InGrid()
    {
      coord := GetRandomCoord(0);
    }

    /** Whether a ship part sits at the coordinate; reads only. */
    method CheckHit(coord: Coordinate) returns (hit: bool)
      requires Valid() && 0 <= coord.ToIndex() < BoardSize
      ensures hit == playerBoard[coord.ToIndex()].occupied
    {
      hit := playerBoard[coord.ToIndex()].occupied;
    }

    /** Records this player's shot and its result on the target board. */
    method MarkTargetAttempt(coord: Coordinate, hit: bool)
      requires Valid() && 0 <= coord.ToIndex() < BoardSize
      modifies targetBoard
      ensures targetBoard[..] == MarkChosen(old(targetBoard[..]), coord.ToIndex(), hit)
    {
      targetBoard[coord.ToIndex()] := targetBoard[coord.ToIndex()].(chosen := hit);
    }

    /** Records the opponent's shot and its result on the fleet board. */
    method MarkPlayerAttempt(coord: Coordinate, hit: bool)
      requires Valid() && 0 <= coord.ToIndex() < BoardSize
      modifies playerBoard
      ensures playerBoard[..] == MarkChosen(old(playerBoard[..]), coord.ToIndex(), hit)
    {
      playerBoard[coord.ToIndex()] := playerBoard[coord.ToIndex()].(chosen := hit);
    }
  }
}

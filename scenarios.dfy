/** The fleet and shot scenarios of the player tests
    (pkg/player/player_test.go), stated over board values. */
module PlayerScenarios {
  import opened Cells
  import opened Boards
  import opened Players

  /** A run of MarkTargetAttempt(_, true) calls, one per index, in order. */
  function MarkAllHit(b: seq<Cell>, indices: seq<int>): (r: seq<Cell>)
    requires forall k :: 0 <= k < |indices| ==> 0 <= indices[k] < |b|
    ensures |r| == |b|
    ensures forall j :: 0 <= j < |b| ==>
      r[j].chosen == (b[j].chosen || j in indices) && r[j].occupied == b[j].occupied
  {
    if indices == [] then b
    else MarkChosen(MarkAllHit(b, indices[..|indices| - 1]), indices[|indices| - 1], true)
  }

  /** Carrier horizontal at (0, 0) and battleship vertical at (0, 1). */
  function TestFleet(): (b: seq<Cell>)
  {
    Placed(Placed(EmptyBoard(), 5, Horizontal, Coordinate(0, 0)), 4, Vertical, Coordinate(0, 1))
  }

  /** Carrier horizontal at (0, 1) and battleship vertical at (3, 4). */
  function OtherFleet(): (b: seq<Cell>)
  {
    Placed(Placed(EmptyBoard(), 5, Horizontal, Coordinate(0, 1)), 4, Vertical, Coordinate(3, 4))
  }

  /** The nine shots of the win test: (0,0)..(4,0) and (0,1)..(0,4). */
  function TestShots(): (shots: seq<int>)
  {
    [0, 1, 2, 3, 4, 10, 20, 30, 40]
  }

  /** Two ships placed one after the other on an empty board. */
  lemma TwoShips(size1: int, o1: Orientation, c1: Coordinate, cells1: seq<int>,
                 size2: int, o2: Orientation, c2: Coordinate, cells2: seq<int>)
    requires o1.IsKnown() && o2.IsKnown()
    requires VerifyCoordinate(size1, o1, c1).Pass? && VerifyCoordinate(size2, o2, c2).Pass?
    requires ShipCells(size1, o1, c1) == cells1 && ShipCells(size2, o2, c2) == cells2
    requires forall k :: 0 <= k < |cells1| ==> 0 <= cells1[k] < BoardSize
    requires forall k :: 0 <= k < |cells2| ==> 0 <= cells2[k] < BoardSize && cells2[k] !in cells1
    ensures Placement(EmptyBoard(), size1, o1, c1) == Pass
    ensures Placement(Placed(EmptyBoard(), size1, o1, c1), size2, o2, c2) == Pass
    ensures |Placed(Placed(EmptyBoard(), size1, o1, c1), size2, o2, c2)| == BoardSize
    ensures forall j :: 0 <= j < BoardSize ==>
      (Placed(Placed(EmptyBoard(), size1, o1, c1), size2, o2, c2)[j].occupied <==> j in cells1 || j in cells2)
  {
    var e := EmptyBoard();
    assert AllFree(e, cells1);
    PlacementPass(e, size1, o1, c1);
    PlacedCells(e, size1, o1, c1);
    var b1 := Placed(e, size1, o1, c1);
    assert AllFree(b1, cells2);
    PlacementPass(b1, size2, o2, c2);
    PlacedCells(b1, size2, o2, c2);
  }

  /** Both placements of the test fleet succeed, and a cell is a ship part
      exactly when it is one of the nine cells (every probed miss is open water). */
  lemma TestFleetCheckHit()
    ensures Placement(EmptyBoard(), 5, Horizontal, Coordinate(0, 0)) == Pass
    ensures Placement(Placed(EmptyBoard(), 5, Horizontal, Coordinate(0, 0)), 4, Vertical, Coordinate(0, 1)) == Pass
    ensures |TestFleet()| == BoardSize
    ensures forall j :: 0 <= j < BoardSize ==> (TestFleet()[j].occupied <==> j in TestShots())
  {
    assert ShipCells(5, Horizontal, Coordinate(0, 0)) == [0, 1, 2, 3, 4];
    assert ShipCells(4, Vertical, Coordinate(0, 1)) == [10, 20, 30, 40];
    TwoShips(5, Horizontal, Coordinate(0, 0), [0, 1, 2, 3, 4], 4, Vertical, Coordinate(0, 1), [10, 20, 30, 40]);
  }

  /** Nine hits on exactly the test fleet's cells win. */
  lemma TestFleetWon()
    ensures Won(MarkAllHit(EmptyBoard(), TestShots()), TestFleet())
  {
    assert forall k :: 0 <= k < |TestShots()| ==> 0 <= TestShots()[k] < BoardSize;
    TestFleetCheckHit();
    ShotsOnFleetWin(TestFleet(), TestShots());
  }

  /** Shooting exactly an enemy fleet's ship parts on a fresh target board wins. */
  lemma ShotsOnFleetWin(enemy: seq<Cell>, shots: seq<int>)
    requires |enemy| == BoardSize
    requires forall k :: 0 <= k < |shots| ==> 0 <= shots[k] < BoardSize
    requires forall j :: 0 <= j < BoardSize ==> (enemy[j].occupied <==> j in shots)
    ensures Won(MarkAllHit(EmptyBoard(), shots), enemy)
  {
  }

  /** Both placements of the other fleet succeed and leave (0, 0) open water. */
  lemma OtherFleetPlaced()
    ensures Placement(EmptyBoard(), 5, Horizontal, Coordinate(0, 1)) == Pass
    ensures Placement(Placed(EmptyBoard(), 5, Horizontal, Coordinate(0, 1)), 4, Vertical, Coordinate(3, 4)) == Pass
    ensures |OtherFleet()| == BoardSize
    ensures !OtherFleet()[0].occupied
  {
    assert ShipCells(5, Horizontal, Coordinate(0, 1)) == [10, 11, 12, 13, 14];
    assert ShipCells(4, Vertical, Coordinate(3, 4)) == [43, 53, 63, 73];
    TwoShips(5, Horizontal, Coordinate(0, 1), [10, 11, 12, 13, 14], 4, Vertical, Coordinate(3, 4), [43, 53, 63, 73]);
  }

  /** The other fleet leaves (0, 0) open water, so no target board with a hit
      recorded there wins against it, among them the one the nine test shots
      (the first of which is (0, 0)) produce. */
  lemma OtherFleetNotWon(target: seq<Cell>)
    requires |target| >= BoardSize && target[0].chosen
    ensures !Won(target, OtherFleet())
  {
    OtherFleetPlaced();
    MismatchIsNoWin(target, OtherFleet(), 0);
  }

  /** A horizontal ship of any real size anchored on a fresh board where it
      fits is placed, and the occupied cells are exactly the `size` cells from
      the anchor rightwards. */
  lemma FreshHorizontalPlacement(size: int, c: Coordinate)
    requires IsShipSize(size) && c.InGrid() && c.x <= BoardWidth - size
    ensures Placement(EmptyBoard(), size, Horizontal, c) == Pass
    ensures |Placed(EmptyBoard(), size, Horizontal, c)| == BoardSize
    ensures forall j :: 0 <= j < BoardSize ==>
      (Placed(EmptyBoard(), size, Horizontal, c)[j].occupied <==> c.ToIndex() <= j < c.ToIndex() + size)
  {
    var cells := ShipCells(size, Horizontal, c);
    forall k | 0 <= k < |cells| ensures 0 <= cells[k] < BoardSize {
      ShipCellsInGrid(size, Horizontal, c, k);
    }
    assert AllFree(EmptyBoard(), cells);
    PlacementPass(EmptyBoard(), size, Horizontal, c);
    PlacedCells(EmptyBoard(), size, Horizontal, c);
    forall j | 0 <= j < BoardSize ensures j in cells <==> c.ToIndex() <= j < c.ToIndex() + size {
      if c.ToIndex() <= j < c.ToIndex() + size {
        assert cells[j - c.ToIndex()] == j;
      }
    }
  }

  /** The carrier failure table: with cells 10 to 14 occupied, every listed
      anchor is off the board or overlaps. */
  lemma CarrierFailures(b: seq<Cell>)
    requires |b| == BoardSize && forall k :: 10 <= k < 15 ==> b[k].occupied
    ensures Placement(b, 5, Horizontal, Coordinate(BoardWidth + 2, 2)) == Fail(OffBoard)
    ensures Placement(b, 5, Horizontal, Coordinate(BoardWidth - 3, 5)) == Fail(OffBoard)
    ensures Placement(b, 5, Horizontal, Coordinate(-2, 4)) == Fail(OffBoard)
    ensures Placement(b, 5, Vertical, Coordinate(2, BoardHeight + 2)) == Fail(OffBoard)
    ensures Placement(b, 5, Vertical, Coordinate(5, BoardHeight - 3)) == Fail(OffBoard)
    ensures Placement(b, 5, Vertical, Coordinate(-2, 8)) == Fail(OffBoard)
    ensures Placement(b, 5, Vertical, Coordinate(0, 0)) == Fail(CellOccupied)
    ensures Placement(b, 5, Vertical, Coordinate(3, 1)) == Fail(CellOccupied)
    ensures Placement(b, 5, Horizontal, Coordinate(1, 1)) == Fail(CellOccupied)
    ensures Placement(b, 5, Horizontal, Coordinate(4, 1)) == Fail(CellOccupied)
  {
    BlockedAt(b, 5, Vertical, Coordinate(0, 0), 1);
    BlockedAt(b, 5, Vertical, Coordinate(3, 1), 0);
    BlockedAt(b, 5, Horizontal, Coordinate(1, 1), 0);
    BlockedAt(b, 5, Horizontal, Coordinate(4, 1), 0);
  }

  /** The battleship failure table, on the same set-up. */
  lemma BattleshipFailures(b: seq<Cell>)
    requires |b| == BoardSize && forall k :: 10 <= k < 15 ==> b[k].occupied
    ensures Placement(b, 4, Horizontal, Coordinate(BoardWidth + 2, 2)) == Fail(OffBoard)
    ensures Placement(b, 4, Horizontal, Coordinate(BoardWidth - 2, 5)) == Fail(OffBoard)
    ensures Placement(b, 4, Horizontal, Coordinate(-2, 4)) == Fail(OffBoard)
    ensures Placement(b, 4, Vertical, Coordinate(2, BoardHeight + 2)) == Fail(OffBoard)
    ensures Placement(b, 4, Vertical, Coordinate(5, BoardHeight - 2)) == Fail(OffBoard)
    ensures Placement(b, 4, Vertical, Coordinate(-2, 8)) == Fail(OffBoard)
    ensures Placement(b, 4, Vertical, Coordinate(0, 0)) == Fail(CellOccupied)
    ensures Placement(b, 4, Vertical, Coordinate(3, 1)) == Fail(CellOccupied)
    ensures Placement(b, 4, Horizontal, Coordinate(1, 1)) == Fail(CellOccupied)
    ensures Placement(b, 4, Horizontal, Coordinate(3, 1)) == Fail(CellOccupied)
  {
    BlockedAt(b, 4, Vertical, Coordinate(0, 0), 1);
    BlockedAt(b, 4, Vertical, Coordinate(3, 1), 0);
    BlockedAt(b, 4, Horizontal, Coordinate(1, 1), 0);
    BlockedAt(b, 4, Horizontal, Coordinate(3, 1), 0);
  }

  /** The submarine failure table: a size-3 ship set up on cells 10 to 12. */
  lemma SubmarineFailures(b: seq<Cell>)
    requires |b| == BoardSize && forall k :: 10 <= k < 13 ==> b[k].occupied
    ensures Placement(b, 3, Horizontal, Coordinate(BoardWidth + 2, 2)) == Fail(OffBoard)
    ensures Placement(b, 3, Horizontal, Coordinate(BoardWidth - 1, 5)) == Fail(OffBoard)
    ensures Placement(b, 3, Horizontal, Coordinate(-2, 4)) == Fail(OffBoard)
    ensures Placement(b, 3, Vertical, Coordinate(2, BoardHeight + 2)) == Fail(OffBoard)
    ensures Placement(b, 3, Vertical, Coordinate(5, BoardHeight - 1)) == Fail(OffBoard)
    ensures Placement(b, 3, Vertical, Coordinate(-2, 8)) == Fail(OffBoard)
    ensures Placement(b, 3, Vertical, Coordinate(0, 0)) == Fail(CellOccupied)
    ensures Placement(b, 3, Vertical, Coordinate(2, 1)) == Fail(CellOccupied)
    ensures Placement(b, 3, Horizontal, Coordinate(1, 1)) == Fail(CellOccupied)
    ensures Placement(b, 3, Horizontal, Coordinate(2, 1)) == Fail(CellOccupied)
  {
    BlockedAt(b, 3, Vertical, Coordinate(0, 0), 1);
    BlockedAt(b, 3, Vertical, Coordinate(2, 1), 0);
    BlockedAt(b, 3, Horizontal, Coordinate(1, 1), 0);
    BlockedAt(b, 3, Horizontal, Coordinate(2, 1), 0);
  }

  /** The destroyer failure table: a size-2 ship set up on cells 10 and 11.
      Its off-the-edge anchors are x = 10 and y = 10 along the ship's axis. */
  lemma DestroyerFailures(b: seq<Cell>)
    requires |b| == BoardSize && forall k :: 10 <= k < 12 ==> b[k].occupied
    ensures Placement(b, 2, Horizontal, Coordinate(BoardWidth + 2, 2)) == Fail(OffBoard)
    ensures Placement(b, 2, Horizontal, Coordinate(BoardWidth, 5)) == Fail(OffBoard)
    ensures Placement(b, 2, Horizontal, Coordinate(-2, 4)) == Fail(OffBoard)
    ensures Placement(b, 2, Vertical, Coordinate(2, BoardHeight + 2)) == Fail(OffBoard)
    ensures Placement(b, 2, Vertical, Coordinate(5, BoardHeight)) == Fail(OffBoard)
    ensures Placement(b, 2, Vertical, Coordinate(-2, 8)) == Fail(OffBoard)
    ensures Placement(b, 2, Vertical, Coordinate(0, 0)) == Fail(CellOccupied)
    ensures Placement(b, 2, Vertical, Coordinate(1, 1)) == Fail(CellOccupied)
    ensures Placement(b, 2, Horizontal, Coordinate(1, 1)) == Fail(CellOccupied)
  {
    BlockedAt(b, 2, Vertical, Coordinate(0, 0), 1);
    BlockedAt(b, 2, Vertical, Coordinate(1, 1), 0);
    BlockedAt(b, 2, Horizontal, Coordinate(1, 1), 0);
  }

  /** An anchor on the grid that validates, whose k-th cell is occupied, fails
      with an overlap. */
  lemma BlockedAt(b: seq<Cell>, size: int, o: Orientation, c: Coordinate, k: int)
    requires |b| == BoardSize && o.IsKnown() && c.InGrid()
    requires VerifyCoordinate(size, o, c).Pass? && 0 <= k < size
    requires b[c.ToIndex() + k * Step(o)].occupied
    ensures Placement(b, size, o, c) == Fail(CellOccupied)
  {
    var cells := ShipCells(size, o, c);
    PlacementOnGridNeverPanics(b, size, o, c);
    PlacementPass(b, size, o, c);
    assert !AllFree(b, cells) by {
      assert cells[k] == c.ToIndex() + k * Step(o);
      ShipCellsInGrid(size, o, c, k);
    }
    PlacementErrors(b, size, o, c);
  }

  /** The randomiser can place the ship on its last attempt and still report
      the limit: on a board where only cells 0 to 4 are free, MaxRandomLimit + 1
      draws of a carrier at (1, 0) fail and the final draw at (0, 0) fits. */
  lemma LimitAfterCommit(board: seq<Cell>, draws: seq<Draw>)
    requires board == seq(BoardSize, i => Cell(i >= 5, false))
    requires draws == seq(MaxRandomLimit + 1, k => Draw(Horizontal, Coordinate(1, 0))) +
                      [Draw(Horizontal, Coordinate(0, 0))]
    ensures Retried(board, 5, draws) && Committed(board, 5, draws)
    ensures CallOutcome(draws) == Fail(RandomLimitReached)
    ensures AfterDraws(board, 5, draws) != board
  {
    var bad, good := Draw(Horizontal, Coordinate(1, 0)), Draw(Horizontal, Coordinate(0, 0));
    BlockedAt(board, 5, Horizontal, bad.anchor, 4);
    var cells := ShipCells(5, Horizontal, good.anchor);
    assert AllFree(board, cells);
    PlacementPass(board, 5, Horizontal, good.anchor);
    PlacedCells(board, 5, Horizontal, good.anchor);
    assert cells[0] == 0;
    assert forall k :: 0 <= k < |draws| - 1 ==> draws[k] == bad;
    assert draws[|draws| - 1] == good;
  }

  /** The test's painting loop flips its flag on every cell and once more at
      column 1, so each cell is painted exactly when Painted says. */
  lemma PaintStep(i: int)
    requires 0 < i < BoardSize
    ensures Painted(i) == if i % BoardWidth - 1 == 0 then Painted(i - 1) else !Painted(i - 1)
  {
  }

  /** The set-up loop of the limit test, run on a fresh fleet board. */
  method PaintAlternating(p: Player)
    requires p.Valid() && p.playerBoard[..] == EmptyBoard()
    modifies p.playerBoard
    ensures p.playerBoard[..] == PrefilledBoard()
  {
    var paintRow := true;
    var i := 0;
    while i < p.playerBoard.Length
      invariant 0 <= i <= BoardSize
      invariant forall k :: 0 <= k < i ==> p.playerBoard[k] == Cell(Painted(k), false)
      invariant forall k :: i <= k < BoardSize ==> p.playerBoard[k] == EmptyCell
      invariant paintRow == if i == 0 then true else Painted(i - 1)
    {
      if i % BoardWidth - 1 == 0 {
        paintRow := !paintRow;
      }
      paintRow := !paintRow;
      if i > 0 {
        PaintStep(i);
      }
      if paintRow {
        p.playerBoard[i] := p.playerBoard[i].(occupied := true);
      }
      i := i + 1;
    }
  }

  /** The limit test: on the painted board no carrier fits, so the randomiser
      gives up with the limit error and leaves the board as painted. */
  method PrefilledFleetFails() returns (err: Outcome)
    ensures err == Fail(RandomLimitReached)
  {
    var p := new Player("test_player");
    PaintAlternating(p);
    PrefilledBoardFitsNoCarrier();
    ghost var boards, shipDraws;
    err, boards, shipDraws := p.RandomizePlacement();
  }

  /** The success test: a fresh player whose randomised placement succeeds has
      17 ship parts on its fleet board. */
  method FreshFleet() returns (p: Player, err: Outcome)
    ensures p.Valid()
    ensures err.Pass? ==> CountOccupied(p.playerBoard[..]) == 17
    ensures err.Fail? ==> err.error == RandomLimitReached
  {
    p := new Player("test_player");
    CountOccupiedEmpty(p.playerBoard[..]);
    ghost var boards, shipDraws;
    err, boards, shipDraws := p.RandomizePlacement();
  }

  /** The mark tests: a fresh cell, marked true, then false, ends unchosen. */
  lemma MarkTrueThenFalse(i: int)
    requires 0 <= i < BoardSize
    ensures !EmptyBoard()[i].chosen
    ensures MarkChosen(EmptyBoard(), i, true)[i].chosen
    ensures MarkChosen(MarkChosen(EmptyBoard(), i, true), i, false) == EmptyBoard()
  {
    MarkLastWins(EmptyBoard(), i, true, false);
  }
}

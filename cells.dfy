/** Grid addressing, orientations, placement validation and the random draws
    of the Battleship core (pkg/cell/cell.go; duplicated in cmd/game/main.go). */
module Cells {

  const BoardWidth := 10
  const BoardHeight := 10
  const BoardSize := BoardWidth * BoardHeight

  /** Number of extra placement attempts the fleet randomiser allows. */
  const MaxRandomLimit := 1000

  /** The source's orientation is a string type with two named values. Any
      other text can reach the placement code, which rejects it. */
  datatype OrientationValue = Horizontal | Vertical | Unknown(name: string)
  {
    predicate IsKnown() { Horizontal? || Vertical? }
  }

  /** Each string is one orientation: `Unknown` never carries the text of a
      named value, so `Unknown("HORIZONTAL")` is not an orientation. */
  type Orientation = o: OrientationValue | !o.Unknown? || o.name !in {"HORIZONTAL", "VERTICAL"}
    witness Horizontal

  /** The orientation's text in the source. */
  function OrientationName(o: Orientation): (s: string)
    ensures o.IsKnown() <==> s in {"HORIZONTAL", "VERTICAL"}
  {
    match o
    case Horizontal => "HORIZONTAL"
    case Vertical => "VERTICAL"
    case Unknown(name) => name
  }

  /** The orientation a string denotes. */
  function ParseOrientation(s: string): (o: Orientation)
    ensures OrientationName(o) == s
  {
    if s == "HORIZONTAL" then Horizontal
    else if s == "VERTICAL" then Vertical
    else Unknown(s)
  }

  /** Orientations and strings correspond one to one. */
  lemma OrientationNameRoundTrip(o: Orientation)
    ensures ParseOrientation(OrientationName(o)) == o
  {
  }

  /** The error values of the core, one variant per kind of failure. */
  datatype Error =
    | OutOfBounds(value: int)   // a coordinate outside the grid
    | OffBoard                  // a ship anchor rejected by VerifyCoordinate
    | CellOccupied              // a ship would overlap an occupied cell
    | UnknownOrientation        // neither HORIZONTAL nor VERTICAL
    | IndexOutOfRange           // a board index past the end: a runtime panic in the source
    | UnknownShipSize           // a size other than 2, 3, 4 or 5
    | RandomLimitReached        // the randomiser ran out of attempts

  /** A nil-or-error return. */
  datatype Outcome = Pass | Fail(error: Error)

  datatype Result<T> = Ok(value: T) | Err(error: Error)

  /** A coordinate holds any two integers; only the constructor function checks them. */
  datatype Coordinate = Coordinate(x: int, y: int)
  {
    predicate InGrid() { 0 <= x < BoardWidth && 0 <= y < BoardHeight }

    /** Row-major index of the coordinate in a flat board. */
    function ToIndex(): (i: int)
      ensures InGrid() ==> 0 <= i < BoardSize
      ensures InGrid() ==> i % BoardWidth == x && i / BoardWidth == y
    {
      y * BoardWidth + x
    }
  }

  /** The coordinate of a board index: the inverse of ToIndex on the grid. */
  function CoordinateAt(i: int): (c: Coordinate)
    requires 0 <= i < BoardSize
    ensures c.InGrid() && c.ToIndex() == i
  {
    Coordinate(i % BoardWidth, i / BoardWidth)
  }

  /** ToIndex is one-to-one on the grid: CoordinateAt undoes it. */
  lemma ToIndexRoundTrip(c: Coordinate)
    requires c.InGrid()
    ensures CoordinateAt(c.ToIndex()) == c
  {
  }

  lemma ToIndexInjective(c: Coordinate, d: Coordinate)
    requires c.InGrid() && d.InGrid()
    ensures c.ToIndex() == d.ToIndex() <==> c == d
  {
    ToIndexRoundTrip(c);
    ToIndexRoundTrip(d);
  }

  /** Checked construction: x is checked before y. */
  function NewCoordinate(x: int, y: int): (r: Result<Coordinate>)
    ensures r.Ok? <==> 0 <= x < BoardWidth && 0 <= y < BoardHeight
    ensures r.Ok? ==> r.value == Coordinate(x, y) && r.value.InGrid()
    ensures r.Err? ==> r.error == OutOfBounds(if 0 <= x < BoardWidth then y else x)
  {
    if x < 0 || x >= BoardWidth then Err(OutOfBounds(x))
    else if y < 0 || y >= BoardHeight then Err(OutOfBounds(y))
    else Ok(Coordinate(x, y))
  }

  /** Decides whether a ship of `size` may be anchored at `coord`. The cross
      axis is bounded with `>` against the board width and height, so an anchor
      one past the last row or column passes on that axis. Overlap is not
      checked here. */
  function VerifyCoordinate(size: int, orientation: Orientation, coord: Coordinate): (r: Outcome)
    ensures r.Fail? ==> r.error == OffBoard
    ensures r.Pass? <==>
      0 <= coord.x <= BoardWidth && 0 <= coord.y <= BoardHeight &&
      (orientation == Horizontal ==> coord.x <= BoardWidth - size) &&
      (orientation == Vertical ==> coord.y <= BoardHeight - size)
  {
    if coord.x < 0 || coord.y < 0 then Fail(OffBoard)
    else if coord.x > BoardWidth || coord.y > BoardHeight then Fail(OffBoard)
    else if orientation == Horizontal && coord.x > BoardWidth - size then Fail(OffBoard)
    else if orientation == Vertical && coord.y > BoardHeight - size then Fail(OffBoard)
    else Pass
  }

  lemma VerifyRejectsNegative(size: int, orientation: Orientation, coord: Coordinate)
    requires coord.x < 0 || coord.y < 0
    ensures VerifyCoordinate(size, orientation, coord) == Fail(OffBoard)
  {
  }

  /** The last accepted anchor along the ship's axis is width - size (height - size);
      one further is rejected. */
  lemma VerifyAlongAxisBoundary(size: int, k: int)
    requires 1 <= size <= BoardWidth && 0 <= k < BoardHeight
    ensures VerifyCoordinate(size, Horizontal, Coordinate(BoardWidth - size, k)).Pass?
    ensures VerifyCoordinate(size, Horizontal, Coordinate(BoardWidth - size + 1, k)) == Fail(OffBoard)
    ensures VerifyCoordinate(size, Vertical, Coordinate(k, BoardHeight - size)).Pass?
    ensures VerifyCoordinate(size, Vertical, Coordinate(k, BoardHeight - size + 1)) == Fail(OffBoard)
  {
  }

  /** The cross axis is only bounded by the board dimension itself: a vertical
      ship may be anchored in column 10 and a horizontal one in row 10, neither
      of which is a coordinate of the grid. */
  lemma VerifyCrossAxisAcceptsEdge(size: int, k: int)
    requires 1 <= size <= BoardWidth && 0 <= k <= BoardHeight - size
    ensures VerifyCoordinate(size, Vertical, Coordinate(BoardWidth, k)).Pass?
    ensures VerifyCoordinate(size, Horizontal, Coordinate(k, BoardHeight)).Pass?
    ensures !Coordinate(BoardWidth, k).InGrid() && !Coordinate(k, BoardHeight).InGrid()
  {
  }

  /** An anchor drawn for a ship of `size`: both axes in [0, 10 - size). */
  predicate IsDrawnAnchor(size: int, coord: Coordinate)
  {
    0 <= coord.x < BoardWidth - size && 0 <= coord.y < BoardHeight - size
  }

  /** Every drawn anchor of a real ship lies on the grid and passes validation
      in both orientations, so the randomiser never fails on bounds. */
  lemma DrawnAnchorVerifies(size: int, coord: Coordinate)
    requires 1 <= size < BoardWidth && IsDrawnAnchor(size, coord)
    ensures coord.InGrid()
    ensures VerifyCoordinate(size, Horizontal, coord).Pass?
    ensures VerifyCoordinate(size, Vertical, coord).Pass?
  {
  }

  /** A fair coin in the source; here any known orientation. */
  method GetRandomOrientation() returns (orientation: Orientation)
    ensures orientation.IsKnown()
  {
    var coin :| 0 <= coin < 2;
    if coin == 0 {
      orientation := Horizontal;
    } else {
      orientation := Vertical;
    }
  }

  /** Two independent uniform draws in the source; here any values in range.
      The source panics when the range is empty, hence the precondition. */
  method GetRandomCoord(size: int) returns (coord: Coordinate)
    requires size < BoardWidth && size < BoardHeight
    ensures IsDrawnAnchor(size, coord)
  {
    var x :| 0 <= x < BoardWidth - size;
    var y :| 0 <= y < BoardHeight - size;
    coord := Coordinate(x, y);
  }
}

/** Cells, boards, the win check and the text rendering of a board
    (pkg/board/board.go and the Cell type of pkg/cell/cell.go;
    duplicated in cmd/game/main.go). */
module Boards {
  import opened Cells

  /** On a fleet board `occupied` marks a ship part and `chosen` an incoming
      shot; on a target board only `chosen` is used, for this player's shots. */
  datatype Cell = Cell(occupied: bool, chosen: bool)

  const EmptyCell := Cell(false, false)

  /** The value of a freshly made board. */
  function EmptyBoard(): (b: seq<Cell>)
    ensures |b| == BoardSize
    ensures forall i :: 0 <= i < |b| ==> b[i] == EmptyCell
  {
    seq(BoardSize, _ => EmptyCell)
  }

  /** Allocates a board of 100 cells and clears every cell. */
  method NewBoard() returns (board: array<Cell>)
    ensures fresh(board)
    ensures board[..] == EmptyBoard()
  {
    board := new Cell[BoardSize];
    var i := 0;
    while i < board.Length
      invariant 0 <= i <= board.Length
      invariant forall k :: 0 <= k < i ==> board[k] == EmptyCell
    {
      board[i] := board[i].(chosen := false);
      board[i] := board[i].(occupied := false);
      i := i + 1;
    }
  }

  /** Number of occupied cells: the tally the placement tests take. */
  function CountOccupied(b: seq<Cell>): (n: nat)
    ensures n <= |b|
  {
    if b == [] then 0
    else CountOccupied(b[..|b| - 1]) + (if b[|b| - 1].occupied then 1 else 0)
  }

  lemma {:induction false} CountOccupiedEmpty(b: seq<Cell>)
    requires forall i :: 0 <= i < |b| ==> !b[i].occupied
    ensures CountOccupied(b) == 0
  {
    if b != [] {
      CountOccupiedEmpty(b[..|b| - 1]);
    }
  }

  /** Setting `occupied` on a free cell adds exactly one to the count. */
  lemma {:induction false} CountOccupiedSet(b: seq<Cell>, j: int)
    requires 0 <= j < |b| && !b[j].occupied
    ensures CountOccupied(b[j := b[j].(occupied := true)]) == CountOccupied(b) + 1
  {
    var b' := b[j := b[j].(occupied := true)];
    var n := |b| - 1;
    assert b'[..n] == if j < n then b[..n][j := b[j].(occupied := true)] else b[..n];
    if j < n {
      CountOccupiedSet(b[..n], j);
    }
  }

  /** The write done by MarkTargetAttempt and MarkPlayerAttempt. */
  function MarkChosen(b: seq<Cell>, i: int, hit: bool): (r: seq<Cell>)
    requires 0 <= i < |b|
    ensures |r| == |b|
    ensures r[i].chosen == hit
    ensures forall j :: 0 <= j < |b| ==> r[j].occupied == b[j].occupied
    ensures forall j :: 0 <= j < |b| && j != i ==> r[j] == b[j]
  {
    b[i := b[i].(chosen := hit)]
  }

  /** Marking the same cell twice keeps only the second value. */
  lemma MarkLastWins(b: seq<Cell>, i: int, first: bool, second: bool)
    requires 0 <= i < |b|
    ensures MarkChosen(MarkChosen(b, i, first), i, second) == MarkChosen(b, i, second)
  {
  }

  /** Marking never changes the number of ship parts. */
  lemma {:induction false} MarkKeepsCount(b: seq<Cell>, i: int, hit: bool)
    requires 0 <= i < |b|
    ensures CountOccupied(MarkChosen(b, i, hit)) == CountOccupied(b)
  {
    var r := MarkChosen(b, i, hit);
    var n := |b| - 1;
    if i < n {
      assert r[..n] == MarkChosen(b[..n], i, hit);
      MarkKeepsCount(b[..n], i, hit);
    } else {
      assert r[..n] == b[..n];
    }
  }

  /** The win condition: on every index of the enemy board, a ship part there
      exactly when this player's target board records a hit there. */
  ghost predicate Won(target: seq<Cell>, enemy: seq<Cell>)
    requires |target| >= |enemy|
  {
    forall i :: 0 <= i < |enemy| ==> enemy[i].occupied == target[i].chosen
  }

  /** A win means every ship part of the enemy has been hit... */
  lemma WonMeansAllPartsHit(target: seq<Cell>, enemy: seq<Cell>, i: int)
    requires |target| >= |enemy| && Won(target, enemy) && 0 <= i < |enemy|
    ensures enemy[i].occupied ==> target[i].chosen
    ensures target[i].chosen ==> enemy[i].occupied
  {
  }

  /** ...and one ship part left unhit, or one hit recorded on open water,
      is no win. */
  lemma MismatchIsNoWin(target: seq<Cell>, enemy: seq<Cell>, i: int)
    requires |target| >= |enemy| && 0 <= i < |enemy|
    requires enemy[i].occupied != target[i].chosen
    ensures !Won(target, enemy)
  {
  }

  /** Scans the enemy board and stops at the first mismatch; reads only. */
  method CheckWinner(target: array<Cell>, enemy: array<Cell>) returns (won: bool)
    requires target.Length >= enemy.Length
    ensures won <==> Won(target[..], enemy[..])
  {
    var i := 0;
    while i < enemy.Length
      invariant 0 <= i <= enemy.Length
      invariant forall k :: 0 <= k < i ==> enemy[k].occupied == target[k].chosen
    {
      if enemy[i].occupied != target[i].chosen {
        return false;
      }
      i := i + 1;
    }
    return true;
  }

  /** Text of one cell: ship part or open water. */
  function Marker(c: Cell): (m: string)
    ensures |m| == 3 && m[0] == ' ' && m[2] == ' '
    ensures m[1] == (if c.occupied then 'X' else 'O')
  {
    if c.occupied then " X " else " O "
  }

  /** The rows of the rendering: every cell's marker, with a newline after
      each full row of BoardWidth cells. */
  function Rows(b: seq<Cell>): (r: string)
    ensures |r| == 3 * |b| + |b| / BoardWidth
  {
    if b == [] then ""
    else Rows(b[..|b| - 1]) + Marker(b[|b| - 1]) + (if |b| % BoardWidth == 0 then "\n" else "")
  }

  /** The text Board.String produces. */
  function Rendered(b: seq<Cell>): (r: string)
    ensures |r| == 1 + |Rows(b)| && r[0] == '\n'
  {
    "\n" + Rows(b)
  }

  /** A rendered 100-cell board is the leading newline, 300 marker characters
      and 10 row breaks. */
  lemma RenderedLength(b: seq<Cell>)
    requires |b| == BoardSize
    ensures |Rendered(b)| == 1 + 3 * BoardSize + BoardHeight
    ensures Rendered(b)[0] == '\n'
  {
  }

  /** The marker of cell i sits right after the markers and row breaks of the
      cells before it. */
  lemma {:induction false} RowsMarkerAt(b: seq<Cell>, i: int)
    requires 0 <= i < |b|
    ensures |Rows(b)| == 3 * |b| + |b| / BoardWidth
    ensures Rows(b)[3 * i + i / BoardWidth .. 3 * i + i / BoardWidth + 3] == Marker(b[i])
  {
    if i < |b| - 1 {
      RowsMarkerAt(b[..|b| - 1], i);
      MarkerInPrefix(b, i);
    } else {
      MarkerOfLast(b);
    }
  }

  /** Appending a cell keeps every earlier marker where it was. */
  lemma MarkerInPrefix(b: seq<Cell>, i: int)
    requires 0 <= i < |b| - 1
    requires |Rows(b[..|b| - 1])| == 3 * (|b| - 1) + (|b| - 1) / BoardWidth
    requires Rows(b[..|b| - 1])[3 * i + i / BoardWidth .. 3 * i + i / BoardWidth + 3] == Marker(b[..|b| - 1][i])
    ensures 3 * i + i / BoardWidth + 3 <= |Rows(b)|
    ensures Rows(b)[3 * i + i / BoardWidth .. 3 * i + i / BoardWidth + 3] == Marker(b[i])
  {
    var n := |b| - 1;
    var pre := Rows(b[..n]);
    var tail := Marker(b[n]) + (if |b| % BoardWidth == 0 then "\n" else "");
    assert Rows(b) == pre + tail;
    var o := 3 * i + i / BoardWidth;
    DivMonotone(i, n);
    SliceOfPrefix(pre, tail, o, o + 3);
  }

  /** The last cell's marker follows the rows of the cells before it. */
  lemma MarkerOfLast(b: seq<Cell>)
    requires b != []
    ensures 3 * (|b| - 1) + (|b| - 1) / BoardWidth + 3 <= |Rows(b)|
    ensures Rows(b)[3 * (|b| - 1) + (|b| - 1) / BoardWidth .. 3 * (|b| - 1) + (|b| - 1) / BoardWidth + 3] == Marker(b[|b| - 1])
  {
    var n := |b| - 1;
    var pre := Rows(b[..n]);
    var m := Marker(b[n]);
    var nl := if |b| % BoardWidth == 0 then "\n" else "";
    assert Rows(b) == pre + m + nl;
    assert |m| == 3;
    SliceOfMiddle(pre, m, nl);
  }

  lemma DivMonotone(i: int, n: int)
    requires 0 <= i <= n
    ensures i / BoardWidth <= n / BoardWidth
  {
  }

  lemma SliceOfMiddle(p: string, m: string, q: string)
    ensures (p + m + q)[|p|..|p| + |m|] == m
  {
  }

  lemma SliceOfPrefix(p: string, q: string, lo: int, hi: int)
    requires 0 <= lo <= hi <= |p|
    ensures (p + q)[lo..hi] == p[lo..hi]
  {
  }

  /** One iteration of the rendering loop extends the text by the next cell. */
  lemma RenderStep(b: seq<Cell>, i: int, before: string, marked: string, after: string)
    requires 0 <= i < |b|
    requires before == "\n" + Rows(b[..i])
    requires marked == before + Marker(b[i])
    requires after == marked + (if (i + 1) % BoardWidth == 0 then "\n" else "")
    ensures after == "\n" + Rows(b[..i + 1])
  {
    var c := b[..i + 1];
    var nl := if (i + 1) % BoardWidth == 0 then "\n" else "";
    assert c[..i] == b[..i] && c[i] == b[i] && |c| == i + 1;
    assert Rows(c) == Rows(b[..i]) + Marker(b[i]) + nl;
  }

  /** The row counter wraps from BoardWidth back to 1. */
  lemma NextRowCount(i: int)
    requires 0 <= i
    ensures (i + 1) % BoardWidth == 0 <==> i % BoardWidth + 1 == BoardWidth
    ensures (i + 1) % BoardWidth + 1 == if i % BoardWidth + 1 == BoardWidth then 1 else i % BoardWidth + 2
  {
  }

  /** Builds the rendering with a row counter, as the source does. */
  method String(b: array<Cell>) returns (s: string)
    ensures s == Rendered(b[..])
  {
    ghost var cells := b[..];
    s := "\n";
    var count := 1;
    var i := 0;
    while i < b.Length
      invariant 0 <= i <= b.Length
      invariant count == i % BoardWidth + 1
      invariant s == "\n" + Rows(cells[..i])
    {
      ghost var before := s;
      if b[i].occupied {
        s := s + " X ";
      } else {
        s := s + " O ";
      }
      ghost var marked := s;
      NextRowCount(i);
      if count == BoardWidth {
        s := s + "\n";
        count := 1;
      } else {
        count := count + 1;
      }
      RenderStep(cells, i, before, marked, s);
      i := i + 1;
    }
    assert cells[..i] == cells;
  }
}

/** The turn loop of the console game (cmd/game/main.go): the attacker guesses,
    the defender reports a hit, both boards record the shot, and the attacker
    wins when its target board matches the defender's fleet exactly. */
module Game {
  import opened Cells
  import opened Boards
  import opened Players

  /** The attacker's record of its shots agrees with the defender's board: a
      shot recorded as a hit is on a ship part, and both boards mark the same
      cells as hit. */
  ghost predicate Consistent(target: seq<Cell>, fleet: seq<Cell>)
  {
    |target| == |fleet| &&
    forall i :: 0 <= i < |fleet| ==>
      (target[i].chosen ==> fleet[i].occupied) && target[i].chosen == fleet[i].chosen
  }

  /** Before the first shot nothing is chosen on either board. */
  lemma FreshBoardsConsistent(target: seq<Cell>, fleet: seq<Cell>)
    requires |target| == |fleet|
    requires forall i :: 0 <= i < |target| ==> !target[i].chosen && !fleet[i].chosen
    ensures Consistent(target, fleet)
  {
  }

  /** One shot at index i, recorded with the defender's answer on both boards,
      keeps the two boards consistent and leaves every ship part where it was. */
  lemma ShotKeepsConsistent(target: seq<Cell>, fleet: seq<Cell>, i: int)
    requires Consistent(target, fleet) && 0 <= i < |fleet|
    ensures Consistent(MarkChosen(target, i, fleet[i].occupied), MarkChosen(fleet, i, fleet[i].occupied))
    ensures CountOccupied(MarkChosen(fleet, i, fleet[i].occupied)) == CountOccupied(fleet)
  {
    MarkKeepsCount(fleet, i, fleet[i].occupied);
  }

  /** Given consistent boards, the win check holds exactly when every ship
      part of the defender has been hit. */
  lemma WinMeansFleetSunk(target: seq<Cell>, fleet: seq<Cell>)
    requires Consistent(target, fleet)
    ensures Won(target, fleet) <==> forall i :: 0 <= i < |fleet| ==> (fleet[i].occupied ==> fleet[i].chosen)
  {
    if forall i :: 0 <= i < |fleet| ==> (fleet[i].occupied ==> fleet[i].chosen) {
      forall i | 0 <= i < |fleet| ensures fleet[i].occupied == target[i].chosen {
      }
    }
  }

  /** The boards of two distinct players are four distinct arrays. */
  ghost predicate Separate(p: Player, q: Player)
    reads p, q
  {
    p.Valid() && q.Valid() &&
    p.playerBoard != q.playerBoard && p.playerBoard != q.targetBoard &&
    p.targetBoard != q.playerBoard && p.targetBoard != q.targetBoard
  }

  /** Both directions of play are consistent. */
  ghost predicate GameInvariant(p: Player, q: Player)
    reads p, q, p.playerBoard, p.targetBoard, q.playerBoard, q.targetBoard
  {
    Separate(p, q) &&
    Consistent(p.targetBoard[..], q.playerBoard[..]) &&
    Consistent(q.targetBoard[..], p.playerBoard[..])
  }

  /** The ship parts of a board, ignoring shots. */
  ghost function Fleet(b: seq<Cell>): (parts: seq<bool>)
  {
    seq(|b|, i requires 0 <= i < |b| => b[i].occupied)
  }

  /** The four boards of a game: each player's record of its shots and its
      fleet board. */
  datatype Position = Position(target1: seq<Cell>, fleet1: seq<Cell>, target2: seq<Cell>, fleet2: seq<Cell>)

  ghost function PositionOf(p1: Player, p2: Player): (s: Position)
    reads p1, p2, p1.targetBoard, p1.playerBoard, p2.targetBoard, p2.playerBoard
  {
    Position(p1.targetBoard[..], p1.playerBoard[..], p2.targetBoard[..], p2.playerBoard[..])
  }

  /** One turn: the attacker (player 1 when `p1Attacks`) shoots at on-grid
      index i and the defender's answer is recorded on the attacker's target
      board and the defender's fleet board; the other two boards stay. */
  ghost predicate Shot(s: Position, s': Position, p1Attacks: bool, i: int)
  {
    0 <= i < BoardSize &&
    if p1Attacks then
      i < |s.target1| && i < |s.fleet2| &&
      s' == Position(MarkChosen(s.target1, i, s.fleet2[i].occupied), s.fleet1,
                     s.target2, MarkChosen(s.fleet2, i, s.fleet2[i].occupied))
    else
      i < |s.target2| && i < |s.fleet1| &&
      s' == Position(s.target1, MarkChosen(s.fleet1, i, s.fleet1[i].occupied),
                     MarkChosen(s.target2, i, s.fleet1[i].occupied), s.fleet2)
  }

  /** The win check after a turn of player 1 (`p1Attacks`) or of player 2. */
  ghost predicate AttackerWins(s: Position, p1Attacks: bool)
  {
    if p1Attacks then |s.target1| >= |s.fleet2| && Won(s.target1, s.fleet2)
    else |s.target2| >= |s.fleet1| && Won(s.target2, s.fleet1)
  }

  /** The turns played, as positions and shots: player 1 takes the even turns
      and player 2 the odd ones, each turn is a Shot, and the win check fails
      after every turn except a winning last one. Without a win, the run is
      cut off after `maxTurns` turns. */
  ghost predicate Played(states: seq<Position>, shots: seq<int>, maxTurns: nat, won: bool)
  {
    |states| == |shots| + 1 && |shots| <= maxTurns &&
    (forall k {:trigger shots[k]} :: 0 <= k < |shots| ==>
      Shot(states[k], states[k + 1], k % 2 == 0, shots[k]) &&
      (AttackerWins(states[k + 1], k % 2 == 0) <==> won && k == |shots| - 1)) &&
    (won ==> |shots| >= 1) && (!won ==> |shots| == maxTurns)
  }

  /** One iteration of the loop body: guess, check, record on both sides, test
      for the win. The ghost `shot` is the index guessed. */
  method Turn(attacker: Player, defender: Player) returns (won: bool, ghost shot: int)
    requires GameInvariant(attacker, defender)
    modifies attacker.targetBoard, defender.playerBoard
    ensures GameInvariant(attacker, defender)
    ensures 0 <= shot < BoardSize
    ensures attacker.targetBoard[..] == MarkChosen(old(attacker.targetBoard[..]), shot, old(defender.playerBoard[shot]).occupied)
    ensures defender.playerBoard[..] == MarkChosen(old(defender.playerBoard[..]), shot, old(defender.playerBoard[shot]).occupied)
    ensures Fleet(defender.playerBoard[..]) == Fleet(old(defender.playerBoard[..]))
    ensures won <==> Won(attacker.targetBoard[..], defender.playerBoard[..])
  {
    var coord := attacker.GetGuess();
    var hit := defender.CheckHit(coord);
    shot := coord.ToIndex();
    ShotKeepsConsistent(attacker.targetBoard[..], defender.playerBoard[..], shot);
    attacker.MarkTargetAttempt(coord, hit);
    defender.MarkPlayerAttempt(coord, hit);
    won := CheckWinner(attacker.targetBoard, defender.playerBoard);
  }

  /** The loop of main, cut off after `maxTurns` turns. Player 1 attacks first
      and the players swap after every turn without a win; the loop stops with
      the attacker as winner at the first turn whose win check holds. The
      ghost `states` and `shots` record the turns played. The winner's
      opponent then has every ship part hit. */
  method PlayTurns(p1: Player, p2: Player, maxTurns: nat)
    returns (winner: Player?, ghost states: seq<Position>, ghost shots: seq<int>)
    requires GameInvariant(p1, p2)
    modifies p1.playerBoard, p1.targetBoard, p2.playerBoard, p2.targetBoard
    ensures GameInvariant(p1, p2)
    ensures Played(states, shots, maxTurns, winner != null)
    ensures states[0] == old(PositionOf(p1, p2)) && states[|shots|] == PositionOf(p1, p2)
    ensures winner != null ==> winner == (if |shots| % 2 == 1 then p1 else p2)
    ensures Fleet(p1.playerBoard[..]) == Fleet(old(p1.playerBoard[..]))
    ensures Fleet(p2.playerBoard[..]) == Fleet(old(p2.playerBoard[..]))
    ensures winner == p1 ==> Won(p1.targetBoard[..], p2.playerBoard[..])
    ensures winner == p2 ==> Won(p2.targetBoard[..], p1.playerBoard[..])
    ensures winner != null ==>
      var loser := if winner == p1 then p2 else p1;
      forall i :: 0 <= i < BoardSize ==>
        (loser.playerBoard[i].occupied ==> loser.playerBoard[i].chosen)
  {
    var turnPlayer, enemyPlayer := p1, p2;
    var turns := 0;
    states, shots := [PositionOf(p1, p2)], [];
    winner := null;
    while turns < maxTurns
      invariant turns == |shots| <= maxTurns && |states| == turns + 1
      invariant turnPlayer == (if turns % 2 == 0 then p1 else p2)
      invariant enemyPlayer == (if turns % 2 == 0 then p2 else p1)
      invariant GameInvariant(p1, p2)
      invariant Fleet(p1.playerBoard[..]) == Fleet(old(p1.playerBoard[..]))
      invariant Fleet(p2.playerBoard[..]) == Fleet(old(p2.playerBoard[..]))
      invariant states[0] == old(PositionOf(p1, p2)) && states[turns] == PositionOf(p1, p2)
      invariant forall k {:trigger shots[k]} :: 0 <= k < turns ==>
        Shot(states[k], states[k + 1], k % 2 == 0, shots[k]) && !AttackerWins(states[k + 1], k % 2 == 0)
      invariant winner == null
    {
      ghost var before := PositionOf(p1, p2);
      var won;
      ghost var i;
      won, i := Turn(turnPlayer, enemyPlayer);
      ghost var after := PositionOf(p1, p2);
      if turns % 2 == 0 {
        assert after == Position(MarkChosen(before.target1, i, before.fleet2[i].occupied), before.fleet1,
                                 before.target2, MarkChosen(before.fleet2, i, before.fleet2[i].occupied));
      } else {
        assert after == Position(before.target1, MarkChosen(before.fleet1, i, before.fleet1[i].occupied),
                                 MarkChosen(before.target2, i, before.fleet1[i].occupied), before.fleet2);
      }
      assert Shot(before, after, turns % 2 == 0, i);
      assert won <==> AttackerWins(after, turns % 2 == 0);
      states, shots := states + [after], shots + [i];
      turns := turns + 1;
      if won {
        winner := turnPlayer;
        WinMeansFleetSunk(turnPlayer.targetBoard[..], enemyPlayer.playerBoard[..]);
        return;
      }
      turnPlayer, enemyPlayer := enemyPlayer, turnPlayer;
    }
  }

  /** main: two players with randomised fleets, then the turn loop. Errors of
      the randomiser are ignored, as in the source. The ghost `boards1`,
      `draws1`, `boards2` and `draws2` record the fleet placer's calls for each
      player, starting from an empty fleet board; the ghost `loser` names the
      other player; `states` and `shots` are the turns played, with player 1
      ("player 1") attacking first on two fresh target boards and the fleet
      boards the placer left. */
  method RunGame(maxTurns: nat)
    returns (winner: Player?, ghost loser: Player?,
             ghost boards1: seq<seq<Cell>>, ghost draws1: seq<seq<Draw>>,
             ghost boards2: seq<seq<Cell>>, ghost draws2: seq<seq<Draw>>,
             ghost states: seq<Position>, ghost shots: seq<int>)
    ensures FleetPlaced(boards1, draws1) && boards1[0] == EmptyBoard()
    ensures FleetPlaced(boards2, draws2) && boards2[0] == EmptyBoard()
    ensures Played(states, shots, maxTurns, winner != null)
    ensures states[0].target1 == EmptyBoard() && states[0].target2 == EmptyBoard()
    ensures states[0].fleet1 == boards1[|boards1| - 1] && states[0].fleet2 == boards2[|boards2| - 1]
    ensures winner != null ==> winner.name == (if |shots| % 2 == 1 then "player 1" else "player 2")
    ensures winner != null ==> loser != null && loser != winner && loser.Valid()
    ensures winner != null ==> winner.Valid() && Won(winner.targetBoard[..], loser.playerBoard[..])
    ensures winner != null ==> forall i :: 0 <= i < BoardSize ==>
      (loser.playerBoard[i].occupied ==> loser.playerBoard[i].chosen)
  {
    var p1 := new Player("player 1");
    var ignored;
    ignored, boards1, draws1 := p1.RandomizePlacement();
    var p2 := new Player("player 2");
    ignored, boards2, draws2 := p2.RandomizePlacement();
    FreshBoardsConsistent(p1.targetBoard[..], p2.playerBoard[..]);
    FreshBoardsConsistent(p2.targetBoard[..], p1.playerBoard[..]);
    winner, states, shots := PlayTurns(p1, p2, maxTurns);
    loser := if winner == p1 then p2 else p1;
  }
}

/** The movement rule of update_coord (package/agent.py) as a function of the layout: walls and
    the border block a move, any portal sends the agent to (11, 0), traps and the goal end the
    episode with reward 0 and 1. Cells 'A' and a dormant 'LP' behave as free cells. */
module Movement {
  import opened GridWorld
  import opened States

  /** Action 0 is up (row - 1), 1 right (col + 1), 2 down (row + 1), 3 left (col - 1). */
  function Offset(c: Coord, action: int): Coord
    requires 0 <= action < 4
  {
    if action == 0 then (c.0, c.1 - 1)
    else if action == 1 then (c.0 + 1, c.1)
    else if action == 2 then (c.0, c.1 + 1)
    else (c.0 - 1, c.1)
  }

  /** Where every portal leads, in (x, y) order: the cell (row 0, col 11), itself a portal. */
  const TeleportTarget: Coord := (11, 0)

  /** Whether entering the destination ends the episode, and the reward appended if so. */
  datatype Outcome = Continue | Terminal(reward: int)

  datatype Move = Move(dest: Coord, outcome: Outcome)

  /** The content of the grid at an (x, y) coordinate. */
  function CellAt(c: Coord, latePortalActive: bool): Cell {
    LayoutCell(c.1, c.0, latePortalActive)
  }

  /** update_coord's rule: the agent stays, enters the neighbouring cell, or is teleported;
      only entering a trap or the goal ends the episode, and a move never leaves the grid. */
  function Resolve(coord: Coord, action: int, latePortalActive: bool): (m: Move)
    requires 0 <= action < 4
    ensures m.dest == coord || m.dest == Offset(coord, action) || m.dest == TeleportTarget
    ensures m.outcome.Terminal? ==> m.dest == Offset(coord, action) && OnGrid(m.dest)
    ensures OnGrid(coord) ==> OnGrid(m.dest)
  {
    var t := Offset(coord, action);
    if !OnGrid(t) then Move(coord, Continue)
    else
      match CellAt(t, latePortalActive)
      case Wall => Move(coord, Continue)
      case Portal => Move(TeleportTarget, Continue)
      case Trap => Move(t, Terminal(0))
      case Goal => Move(t, Terminal(1))
      case _ => Move(t, Continue)
  }

  /** The rewards update_coord appends: one entry exactly when the move ends the episode. */
  function Emitted(m: Move): (appended: seq<int>)
    ensures |appended| == (if m.outcome.Terminal? then 1 else 0)
  {
    if m.outcome.Terminal? then [m.outcome.reward] else []
  }

  /** update_state's move at the level of states. */
  function Landing(state: int, action: int, latePortalActive: bool): Move
    requires 0 <= action < 4
  {
    Resolve(StateToCoord(state), action, latePortalActive)
  }

  function NextState(state: int, action: int, latePortalActive: bool): (next: int)
    requires 0 <= action < 4
    ensures ValidState(state) ==> ValidState(next)
  {
    CoordToState(Landing(state, action, latePortalActive).dest)
  }

  /** A move off the grid or into a wall leaves the agent where it was and ends nothing. */
  lemma BlockedMoveStays(coord: Coord, action: int, latePortalActive: bool)
    requires 0 <= action < 4
    requires !OnGrid(Offset(coord, action)) || CellAt(Offset(coord, action), latePortalActive) == Wall
    ensures Resolve(coord, action, latePortalActive) == Move(coord, Continue)
  {
  }

  /** Entering any portal, the late one once active included, lands on (11, 0), i.e. state 110,
      without ending the episode. */
  lemma PortalTeleports(coord: Coord, action: int, latePortalActive: bool)
    requires 0 <= action < 4
    requires OnGrid(Offset(coord, action)) && CellAt(Offset(coord, action), latePortalActive) == Portal
    ensures Resolve(coord, action, latePortalActive) == Move(TeleportTarget, Continue)
    ensures CoordToState(TeleportTarget) == 110
  {
  }

  /** The move ends the episode exactly when it enters a trap or the goal, with reward 1 exactly
      at the goal; the agent then occupies that cell. */
  lemma {:induction false} TerminalExactlyAtTrapOrGoal(coord: Coord, action: int, latePortalActive: bool)
    requires 0 <= action < 4
    ensures var m := Resolve(coord, action, latePortalActive);
      var t := Offset(coord, action);
      && (m.outcome.Terminal? <==> OnGrid(t) && CellAt(t, latePortalActive) in {Trap, Goal})
      && (m.outcome == Terminal(1) <==> OnGrid(t) && CellAt(t, latePortalActive) == Goal)
      && (m.outcome.Terminal? ==> m.dest == t && (m.outcome.reward == 0 || m.outcome.reward == 1))
  {
    var t := Offset(coord, action);
    if OnGrid(t) {
      match CellAt(t, latePortalActive)
      case Trap =>
      case Goal =>
      case _ =>
    }
  }

  /** The teleport target is itself a portal cell, so the agent can stand on a portal. */
  lemma TeleportTargetIsPortal(latePortalActive: bool)
    ensures OnGrid(TeleportTarget) && CellAt(TeleportTarget, latePortalActive) == Portal
  {
  }

  /** A cell the agent can occupy: on the grid, not a wall, and a portal only at (11, 0). */
  predicate Occupiable(c: Coord, latePortalActive: bool) {
    OnGrid(c) && CellAt(c, latePortalActive) != Wall
    && (CellAt(c, latePortalActive) == Portal ==> c == TeleportTarget)
  }

  /** Every move keeps the agent on an occupiable cell. */
  lemma {:induction false} ResolveKeepsOccupiable(coord: Coord, action: int, latePortalActive: bool)
    requires 0 <= action < 4
    requires Occupiable(coord, latePortalActive)
    ensures Occupiable(Resolve(coord, action, latePortalActive).dest, latePortalActive)
  {
    var t := Offset(coord, action);
    if OnGrid(t) {
      TeleportTargetIsPortal(latePortalActive);
    }
  }

  /** Moving from a table key always lands on a table key. */
  lemma {:induction false} NextStateValid(state: int, action: int, latePortalActive: bool)
    requires ValidState(state) && 0 <= action < 4
    ensures OnGrid(Landing(state, action, latePortalActive).dest)
    ensures ValidState(NextState(state, action, latePortalActive))
  {
    var m := Landing(state, action, latePortalActive);
    assert OnGrid(m.dest);
    CoordRoundTrip(m.dest);
  }

  /** The moves of an episode from `start`, as (state, action) pairs: every action is one of the
      four, and each move begins where the one before it landed. */
  ghost predicate Walk(moves: seq<(int, int)>, start: int, latePortalActive: bool) {
    && |moves| > 0 && moves[0].0 == start
    && (forall i :: 0 <= i < |moves| ==> 0 <= moves[i].1 < 4)
    && (forall i :: 0 <= i < |moves| - 1 ==>
          0 <= moves[i].1 < 4 && moves[i + 1].0 == NextState(moves[i].0, moves[i].1, latePortalActive))
  }

  /** The move enters a trap or the goal. */
  ghost predicate Ends(move: (int, int), latePortalActive: bool) {
    0 <= move.1 < 4 && Landing(move.0, move.1, latePortalActive).outcome.Terminal?
  }

  /** No move before the last one ended the episode. */
  ghost predicate NoEarlierEnd(moves: seq<(int, int)>, latePortalActive: bool) {
    forall i :: 0 <= i < |moves| - 1 ==> !Ends(moves[i], latePortalActive)
  }

  /** A walk extended by a move from where its last move landed is a walk. */
  lemma WalkSnoc(moves: seq<(int, int)>, start: int, latePortalActive: bool, action: int)
    requires Walk(moves, start, latePortalActive) && 0 <= action < 4
    ensures var last := moves[|moves| - 1];
      Walk(moves + [(NextState(last.0, last.1, latePortalActive), action)], start, latePortalActive)
  {
    var last := moves[|moves| - 1];
    var moves' := moves + [(NextState(last.0, last.1, latePortalActive), action)];
    assert forall i :: 0 <= i < |moves| ==> moves'[i] == moves[i];
  }

  /** Extending an episode none of whose moves ended it keeps the last move the only one that
      may end it. */
  lemma NoEarlierEndSnoc(moves: seq<(int, int)>, move: (int, int), latePortalActive: bool)
    requires NoEarlierEnd(moves, latePortalActive) && |moves| > 0 && !Ends(moves[|moves| - 1], latePortalActive)
    ensures NoEarlierEnd(moves + [move], latePortalActive)
  {
    assert forall i :: 0 <= i < |moves| ==> (moves + [move])[i] == moves[i];
  }

  /** The moves of the repository's movement test on the open grid: the corners and free moves
      in the middle. */
  lemma MovementTestMoves()
    // leaving the grid from the bottom-left and top-right corners
    ensures NextState(7, 3, false) == 7 && NextState(7, 2, false) == 7
    ensures NextState(110, 0, false) == 110 && NextState(110, 1, false) == 110
    // free moves in the middle of the grid
    ensures NextState(53, 0, false) == 52 && NextState(53, 1, false) == 63
    ensures NextState(45, 2, false) == 46 && NextState(64, 3, false) == 54
  {
  }

  /** The wall moves of the repository's movement test: the agent stays in place. */
  lemma WallTestMoves()
    ensures NextState(24, 0, false) == 24 && NextState(26, 1, false) == 26
    ensures NextState(34, 2, false) == 34 && NextState(46, 3, false) == 46
  {
  }

  /** The last moves of the repository's movement test: the goal and a trap end the episode. */
  lemma TerminalTestMoves()
    ensures Landing(91, 2, false).outcome == Terminal(1)
    ensures Landing(72, 1, false).outcome == Terminal(0)
  {
  }

  /** The moves of the repository's portal test: the portal entered from all four sides. */
  lemma PortalTestMoves()
    ensures NextState(107, 0, false) == 110 && NextState(96, 1, false) == 110
    ensures NextState(105, 2, false) == 110 && NextState(116, 3, false) == 110
  {
  }

  /** The moves of the repository's start/step/end test: three moves from the start state, and
      the final move onto the goal. */
  lemma EpisodeTestMoves()
    ensures NextState(16, 3, false) == 6 && NextState(6, 1, false) == 16
    ensures NextState(16, 0, false) == 15 && NextState(15, 2, false) == 16
    ensures Landing(102, 3, false) == Move((9, 2), Terminal(1))
  {
  }
}

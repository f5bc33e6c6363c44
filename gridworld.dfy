/** The fixed 8 x 12 grid world (package/env.py): its layout, the reward map and the
    late-portal switch. Coordinates inside the grid are (row, col), as in the source. */
module GridWorld {

  const Rows: int := 8
  const Cols: int := 12

  /** The content of one grid cell; `Free` is the 0 the source leaves in unlisted cells. */
  datatype Cell = Free | Start | Wall | Trap | Portal | LatePortal | Goal

  const StartCell: (int, int) := (6, 1)
  const LatePortalCell: (int, int) := (1, 2)
  const GoalCell: (int, int) := (2, 9)

  predicate InGrid(r: int, c: int) {
    0 <= r < Rows && 0 <= c < Cols
  }

  /** The reference layout, written out cell class by cell class. */
  function LayoutCell(r: int, c: int, latePortalActive: bool): Cell {
    if (r, c) == StartCell then Start
    else if (r == 3 && 0 <= c < 3) || (5 <= r < 8 && c == 3) then Wall
    else if (0 <= r < 3 && c == 8) || (r == 3 && 8 <= c < 12) then Trap
    else if (r, c) == (6, 10) || (r, c) == (0, 11) then Portal
    else if (r, c) == LatePortalCell then (if latePortalActive then Portal else LatePortal)
    else if (r, c) == GoalCell then Goal
    else Free
  }

  /** One entry of the source's coordinate table: a key written into a block of rows and
      columns (half-open ranges), as numpy writes `grid[rows, cols] = key`. */
  datatype Placement = Placement(key: Cell, rowLo: int, rowHi: int, colLo: int, colHi: int)

  /** The coordinate table in the order the source iterates it: A, W, T, P, LP, G. */
  const Placements: seq<Placement> := [
    Placement(Start, 6, 7, 1, 2),
    Placement(Wall, 3, 4, 0, 3),
    Placement(Wall, 5, 8, 3, 4),
    Placement(Trap, 0, 3, 8, 9),
    Placement(Trap, 3, 4, 8, 12),
    Placement(Portal, 6, 7, 10, 11),
    Placement(Portal, 0, 1, 11, 12),
    Placement(LatePortal, 1, 2, 2, 3),
    Placement(Goal, 2, 3, 9, 10)
  ]

  predicate Covers(p: Placement, r: int, c: int) {
    p.rowLo <= r < p.rowHi && p.colLo <= c < p.colHi
  }

  /** The cell content after the first `k` placements were written: the last one to cover
      the cell wins, the untouched cells keep the initial 0. */
  function Painted(k: nat, r: int, c: int): Cell
    requires k <= |Placements|
  {
    if k == 0 then Free
    else if Covers(Placements[k - 1], r, c) then Placements[k - 1].key
    else Painted(k - 1, r, c)
  }

  /** Writing the coordinate table produces the reference layout with the late portal dormant. */
  lemma PaintedIsLayout(r: int, c: int)
    requires InGrid(r, c)
    ensures Painted(|Placements|, r, c) == LayoutCell(r, c, false)
  {
    // the last two writes, the goal and the late portal, settle their cells; every other cell
    // is settled by the earlier ones
    if Covers(Placements[8], r, c) {
    } else if Covers(Placements[7], r, c) {
    } else {
    }
  }

  /** generate_grid: start from an all-free grid and write every placement in turn. */
  method GenerateGrid() returns (grid: array2<Cell>)
    ensures grid.Length0 == Rows && grid.Length1 == Cols
    ensures forall r, c :: InGrid(r, c) ==> grid[r, c] == LayoutCell(r, c, false)
  {
    grid := new Cell[Rows, Cols]((r, c) => Free);
    for i := 0 to |Placements|
      invariant forall r, c :: InGrid(r, c) ==> grid[r, c] == Painted(i, r, c)
    {
      var p := Placements[i];
      for r := p.rowLo to p.rowHi
        invariant forall r', c :: InGrid(r', c) ==>
          grid[r', c] == if Covers(p, r', c) && r' < r then p.key else Painted(i, r', c)
      {
        for c := p.colLo to p.colHi
          invariant forall r', c' :: InGrid(r', c') ==>
            grid[r', c'] == if Covers(p, r', c') && (r' < r || (r' == r && c' < c)) then p.key else Painted(i, r', c')
        {
          grid[r, c] := p.key;
        }
      }
    }
    forall r, c | InGrid(r, c) ensures grid[r, c] == LayoutCell(r, c, false) {
      PaintedIsLayout(r, c);
    }
  }

  /** generate_reward_map: zeros everywhere, 1 at the goal. */
  method GenerateRewardMap() returns (rewardMap: array2<real>)
    ensures rewardMap.Length0 == Rows && rewardMap.Length1 == Cols
    ensures forall r, c :: InGrid(r, c) ==> rewardMap[r, c] == (if (r, c) == GoalCell then 1.0 else 0.0)
  {
    rewardMap := new real[Rows, Cols]((r, c) => 0.0);
    rewardMap[GoalCell.0, GoalCell.1] := 1.0;
  }

  class Env {
    const grid: array2<Cell>
    const rewardMap: array2<real>
    /** How many times the late portal was switched on; only the proofs read it. */
    ghost var activations: nat

    ghost predicate Valid()
      reads grid, rewardMap
    {
      && grid.Length0 == Rows && grid.Length1 == Cols
      && rewardMap.Length0 == Rows && rewardMap.Length1 == Cols
      && (forall r, c {:trigger grid[r, c]} :: InGrid(r, c) ==> grid[r, c] == LayoutCell(r, c, grid[1, 2] == Portal))
      && (forall r, c {:trigger rewardMap[r, c]} :: InGrid(r, c) ==> rewardMap[r, c] == (if (r, c) == GoalCell then 1.0 else 0.0))
    }

    /** Whether the dormant cell has been turned into a portal. */
    predicate LatePortalActive()
      reads grid, rewardMap
      requires Valid()
    {
      grid[LatePortalCell.0, LatePortalCell.1] == Portal
    }

    constructor ()
      ensures Valid() && !LatePortalActive() && activations == 0
      ensures forall r, c :: InGrid(r, c) ==> grid[r, c] == LayoutCell(r, c, false)
    {
      var g := GenerateGrid();
      var m := GenerateRewardMap();
      grid := g;
      rewardMap := m;
      activations := 0;
    }

    /** activate_late_portal: one in-place write of 'P' into the dormant cell. The result does
        not depend on the previous state of that cell, so a second call changes nothing. */
    method ActivateLatePortal()
      requires Valid()
      modifies this, grid
      ensures Valid() && LatePortalActive()
      ensures activations == old(activations) + 1
      ensures forall r, c :: InGrid(r, c) ==> grid[r, c] == LayoutCell(r, c, true)
      ensures forall r, c :: InGrid(r, c) && (r, c) != LatePortalCell ==> grid[r, c] == old(grid[r, c])
    {
      grid[LatePortalCell.0, LatePortalCell.1] := Portal;
      activations := activations + 1;
    }

    /** get_reward: with `reverse` the coordinates are (col, row) and are swapped before the
        lookup; without it they are (row, col). The reward is 1 at the goal and 0 elsewhere. */
    function GetReward(coordinates: (int, int), reverse: bool): (reward: real)
      reads grid, rewardMap
      requires Valid()
      requires reverse ==> InGrid(coordinates.1, coordinates.0)
      requires !reverse ==> InGrid(coordinates.0, coordinates.1)
      ensures reward == 1.0 || reward == 0.0
      ensures reward == 1.0 <==> (if reverse then (coordinates.1, coordinates.0) else coordinates) == GoalCell
    {
      if reverse then rewardMap[coordinates.1, coordinates.0]
      else rewardMap[coordinates.0, coordinates.1]
    }

    /** Querying with swapped coordinates and `reverse` gives the same reward. */
    lemma GetRewardReverse(x: int, y: int)
      requires Valid() && InGrid(y, x)
      ensures GetReward((x, y), true) == GetReward((y, x), false)
    {
    }

    /** The rewards of the repository's environment test: 1 at the goal's (row, col), 0 at
        every other cell of the grid. */
    lemma RewardTestValues()
      requires Valid()
      ensures GetReward(GoalCell, false) == 1.0
      ensures forall r, c :: InGrid(r, c) && (r, c) != GoalCell ==> GetReward((r, c), false) == 0.0
    {
    }
  }

  /** Before activation the dormant cell is 'LP', afterwards 'P'; no other cell differs. */
  lemma LatePortalOnlyChangesOneCell(r: int, c: int)
    requires InGrid(r, c)
    ensures (r, c) != LatePortalCell ==> LayoutCell(r, c, true) == LayoutCell(r, c, false)
    ensures LayoutCell(LatePortalCell.0, LatePortalCell.1, false) == LatePortal
    ensures LayoutCell(LatePortalCell.0, LatePortalCell.1, true) == Portal
  {
  }
}

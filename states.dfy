/** The agent's state encoding (package/agent.py): a coordinate (x, y) = (col, row) is the
    integer 10*x + y, and the tables are dictionaries keyed by the states of the grid. */
module States {
  import opened GridWorld

  /** (x, y) = (col, row), the agent's order; the grid itself is indexed (row, col). */
  type Coord = (int, int)

  predicate OnGrid(c: Coord) {
    InGrid(c.1, c.0)
  }

  /** coord_to_state; on the grid its digits are the column and the row. */
  function CoordToState(c: Coord): (s: int)
    ensures OnGrid(c) ==> ValidState(s) && s / 10 == c.0 && s % 10 == c.1
  {
    c.0 * 10 + c.1
  }

  /** Python's `//` and `%` floor; for the divisor 10 that is what Dafny's `/` and `%` do for
      every integer, negative ones included. */
  function StateToCoord(s: int): (c: Coord)
    ensures ValidState(s) ==> OnGrid(c) && 10 * c.0 + c.1 == s
  {
    (s / 10, s % 10)
  }

  /** The states that are keys of the agent's tables: 10 * x + y with x a column and y a row
      (ValidStateOnGrid shows these are the encodings of the grid's cells). */
  predicate ValidState(s: int) {
    0 <= s < 10 * Cols && s % 10 < Rows
  }

  const StartState: int := CoordToState((StartCell.1, StartCell.0))

  lemma StartStateValue()
    ensures StartState == 16 && ValidState(StartState)
  {
  }

  /** Decoding an encoded grid coordinate gives it back, and its encoding is a table key. */
  lemma {:induction false} CoordRoundTrip(c: Coord)
    requires OnGrid(c)
    ensures StateToCoord(CoordToState(c)) == c
    ensures ValidState(CoordToState(c))
  {
    var s := c.0 * 10 + c.1;
    assert s == 10 * c.0 + c.1;
    assert s / 10 == c.0 && s % 10 == c.1;
  }

  /** Encoding a decoded table key gives it back: the encoding is a bijection between the
      grid's coordinates and the table keys. */
  lemma {:induction false} StateRoundTrip(s: int)
    requires ValidState(s)
    ensures OnGrid(StateToCoord(s))
    ensures CoordToState(StateToCoord(s)) == s
  {
    assert s == (s / 10) * 10 + s % 10;
  }

  /** The table keys are exactly the states whose decoded coordinate lies on the grid. */
  lemma ValidStateOnGrid(s: int)
    ensures ValidState(s) <==> OnGrid(StateToCoord(s))
  {
  }

  /** The keys in the order the source's nested loops insert them (col outer, row inner). */
  function StateAt(i: int): int {
    10 * (i / Rows) + i % Rows
  }

  function AllStates(): seq<int> {
    seq(Rows * Cols, i => StateAt(i))
  }

  lemma {:induction false} StateAtValid(i: int)
    requires 0 <= i < Rows * Cols
    ensures ValidState(StateAt(i))
    ensures StateToCoord(StateAt(i)) == (i / Rows, i % Rows)
  {
    CoordRoundTrip((i / Rows, i % Rows));
  }

  /** The listed keys are exactly the valid states, each listed once. */
  lemma {:induction false} AllStatesAreTheStates()
    ensures |AllStates()| == Rows * Cols
    ensures forall s :: s in AllStates() <==> ValidState(s)
    ensures forall i, j :: 0 <= i < j < |AllStates()| ==> AllStates()[i] < AllStates()[j]
  {
    forall s | ValidState(s) ensures s in AllStates() {
      var i := Rows * (s / 10) + s % 10;
      assert i / Rows == s / 10 && i % Rows == s % 10;
      StateRoundTrip(s);
      assert AllStates()[i] == s;
    }
    forall s | s in AllStates() ensures ValidState(s) {
      var i :| 0 <= i < |AllStates()| && AllStates()[i] == s;
      StateAtValid(i);
    }
    forall i, j | 0 <= i < j < |AllStates()| ensures AllStates()[i] < AllStates()[j] {
      StateAtValid(i);
      StateAtValid(j);
    }
  }

  /** A non-empty set has an element (the step `var k :| k in x` relies on). */
  lemma HasElement(x: set<int>)
    requires x != {}
    ensures exists k :: k in x
  {
    if forall k :: k !in x {
      assert false;
    }
  }

  /** A table with one entry per valid state. */
  ghost predicate StateTable<V>(m: map<int, V>) {
    forall s {:trigger s in m} :: s in m <==> ValidState(s)
  }

  /** init_state_dict: one entry per grid cell, filled in nested loops over columns and rows. */
  method InitStateDict<V>(initialValue: V) returns (table: map<int, V>)
    ensures StateTable(table)
    ensures forall s :: s in table ==> table[s] == initialValue
  {
    table := map[];
    for col := 0 to Cols
      invariant forall s :: s in table <==> ValidState(s) && s / 10 < col
      invariant forall s :: s in table ==> table[s] == initialValue
    {
      for row := 0 to Rows
        invariant forall s :: s in table <==> ValidState(s) && (s / 10 < col || (s / 10 == col && s % 10 < row))
        invariant forall s :: s in table ==> table[s] == initialValue
      {
        CoordRoundTrip((col, row));
        table := table[CoordToState((col, row)) := initialValue];
      }
    }
  }

  /** init_state_action_dict: a fresh all-zero 4-vector for every grid cell. */
  method InitStateActionDict<N>(zero: N) returns (table: map<int, seq<N>>)
    ensures StateTable(table)
    ensures forall s :: s in table ==> table[s] == [zero, zero, zero, zero]
  {
    table := InitStateDict([zero, zero, zero, zero]);
  }
}

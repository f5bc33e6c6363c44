/** The greedy part of action selection (package/agent.py, argmax): the maximum of a value
    vector and the indices that attain it, among which the agent picks at random. */
module Greedy {

  /** np.max of a non-empty vector. */
  function MaxOf(values: seq<real>): (m: real)
    requires |values| > 0
    ensures m in values
    ensures forall i :: 0 <= i < |values| ==> values[i] <= m
  {
    if |values| == 1 then values[0]
    else
      var rest := MaxOf(values[1..]);
      assert forall i :: 1 <= i < |values| ==> values[i] == values[1..][i - 1];
      if values[0] >= rest then values[0] else rest
  }

  /** np.flatnonzero(values == x) from index `from` on: the increasing list of the positions
      holding `x`. */
  function IndicesOf(values: seq<real>, x: real, from: nat): (r: seq<int>)
    requires from <= |values|
    ensures forall i :: i in r <==> from <= i < |values| && values[i] == x
    ensures forall k :: 0 <= k < |r| ==> from <= r[k] < |values|
    ensures forall k, l :: 0 <= k < l < |r| ==> r[k] < r[l]
    decreases |values| - from
  {
    if from == |values| then []
    else (if values[from] == x then [from] else []) + IndicesOf(values, x, from + 1)
  }

  /** The candidates argmax draws from: every index attaining the maximum, and no other. */
  function Ties(values: seq<real>): (r: seq<int>)
    requires |values| > 0
    ensures |r| > 0
    ensures forall i :: i in r <==> 0 <= i < |values| && values[i] == MaxOf(values)
  {
    IndicesOf(values, MaxOf(values), 0)
  }

  /** The candidates for the repository's argmax test vector are the indices 3, 6, 7 and 9. */
  lemma TiesExample(v: seq<real>)
    requires v == [0.0, 2.0, 3.0, 4.0, 1.0, 2.0, 4.0, 4.0, 3.0, 4.0]
    ensures forall i :: i in Ties(v) <==> i in {3, 6, 7, 9}
  {
    var m := MaxOf(v);
    assert forall i :: 0 <= i < |v| ==> v[i] <= 4.0;
    assert m <= 4.0 by {
      var i :| 0 <= i < |v| && v[i] == m;
    }
    assert v[3] <= m;
  }
}

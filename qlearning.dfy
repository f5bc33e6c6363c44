/** The value-table updates of package/q_learning_agent.py: the one-step Q-learning update of
    section 6.5 of Sutton and Barto, Reinforcement Learning: An Introduction (2nd ed.), and its
    terminal form without the bootstrap term. */
module QLearning {
  import opened States
  import opened Greedy

  /** The value table: a 4-vector of action values for every grid state. */
  type QTable = map<int, seq<real>>

  ghost predicate QTableOk(q: QTable) {
    StateTable(q) && forall s :: s in q ==> |q[s]| == 4
  }

  ghost predicate AllZero(q: QTable) {
    forall s, a :: s in q && 0 <= a < |q[s]| ==> q[s][a] == 0.0
  }

  /** An estimate moved a step of size `alpha` towards `target`. */
  function StepToward(value: real, target: real, alpha: real): real
  {
    value + alpha * (target - value)
  }

  /** `Q[s][a] += alpha * (target - Q[s][a])`, written back into the table. */
  function Updated(q: QTable, s: int, a: int, target: real, alpha: real): (q': QTable)
    requires s in q && 0 <= a < |q[s]|
    ensures q'.Keys == q.Keys
    ensures forall t :: t in q ==> |q'[t]| == |q[t]|
    ensures forall t, b :: t in q && 0 <= b < |q[t]| && (t, b) != (s, a) ==> q'[t][b] == q[t][b]
    ensures q'[s][a] == StepToward(q[s][a], target, alpha)
  {
    q[s := q[s][a := StepToward(q[s][a], target, alpha)]]
  }

  /** The update of step: the target bootstraps from the best value of the state reached. */
  function DirectUpdate(q: QTable, s: int, a: int, reward: real, gamma: real, next: int, alpha: real): (q': QTable)
    requires s in q && 0 <= a < |q[s]|
    requires next in q && |q[next]| > 0
    ensures q'.Keys == q.Keys && forall t :: t in q ==> |q'[t]| == |q[t]|
    ensures QTableOk(q) ==> QTableOk(q')
    ensures forall t, b :: t in q && 0 <= b < |q[t]| && (t, b) != (s, a) ==> q'[t][b] == q[t][b]
    ensures q'[s][a] == StepToward(q[s][a], reward + gamma * MaxOf(q[next]), alpha)
  {
    var target := reward + gamma * MaxOf(q[next]);
    // naming the target makes it a term the solver can substitute into StepToward
    assert target == reward + gamma * MaxOf(q[next]);
    Updated(q, s, a, target, alpha)
  }

  /** The update of agent_end: the target is the reward alone. */
  function TerminalUpdate(q: QTable, s: int, a: int, reward: real, alpha: real): (q': QTable)
    requires s in q && 0 <= a < |q[s]|
    ensures q'.Keys == q.Keys && forall t :: t in q ==> |q'[t]| == |q[t]|
    ensures QTableOk(q) ==> QTableOk(q')
    ensures forall t, b :: t in q && 0 <= b < |q[t]| && (t, b) != (s, a) ==> q'[t][b] == q[t][b]
    ensures q'[s][a] == StepToward(q[s][a], reward, alpha)
  {
    Updated(q, s, a, reward, alpha)
  }

  /** An update keeps the shape of a value table. */
  lemma UpdatedKeepsTable(q: QTable, s: int, a: int, target: real, alpha: real)
    requires QTableOk(q) && s in q && 0 <= a < |q[s]|
    ensures QTableOk(Updated(q, s, a, target, alpha))
  {
  }

  lemma ProductNonNegative(x: real, y: real)
    requires 0.0 <= x && 0.0 <= y
    ensures 0.0 <= x * y
  {
  }

  /** With a step size in [0, 1] the new value lies between the old value and the target:
      the update moves the estimate towards its target and never overshoots. */
  lemma {:induction false} UpdatedMovesTowardTarget(q: QTable, s: int, a: int, target: real, alpha: real)
    requires s in q && 0 <= a < |q[s]|
    requires 0.0 <= alpha <= 1.0
    ensures var before := q[s][a]; var after := Updated(q, s, a, target, alpha)[s][a];
      (before <= target ==> before <= after <= target) && (target <= before ==> target <= after <= before)
  {
    var before := q[s][a];
    var after := Updated(q, s, a, target, alpha)[s][a];
    var d := target - before;
    assert after - before == alpha * d;
    if d >= 0.0 {
      ProductNonNegative(alpha, d);
      ProductNonNegative(1.0 - alpha, d);
      assert (1.0 - alpha) * d == d - alpha * d;
    } else {
      ProductNonNegative(alpha, -d);
      ProductNonNegative(1.0 - alpha, -d);
      assert alpha * (-d) == -(alpha * d);
      assert (1.0 - alpha) * (-d) == alpha * d - d;
    }
  }

  /** A step size of 1 replaces the estimate by the target. */
  lemma UpdatedFullStep(q: QTable, s: int, a: int, target: real)
    requires s in q && 0 <= a < |q[s]|
    ensures Updated(q, s, a, target, 1.0)[s][a] == target
  {
  }

  /** The terminal update is the bootstrapped update with the discount set to zero, whatever
      the next state: its result does not depend on the discount. */
  lemma TerminalIgnoresDiscount(q: QTable, s: int, a: int, reward: real, alpha: real, next: int)
    requires s in q && 0 <= a < |q[s]|
    requires next in q && |q[next]| > 0
    ensures TerminalUpdate(q, s, a, reward, alpha) == DirectUpdate(q, s, a, reward, 0.0, next, alpha)
  {
  }

  /** With every value 0 and a zero reward, the bootstrapped update leaves every value 0. */
  lemma {:induction false} DirectUpdateKeepsZero(q: QTable, s: int, a: int, gamma: real, next: int, alpha: real)
    requires AllZero(q)
    requires s in q && 0 <= a < |q[s]|
    requires next in q && |q[next]| > 0
    ensures AllZero(DirectUpdate(q, s, a, 0.0, gamma, next, alpha))
  {
    var m := MaxOf(q[next]);
    assert m == 0.0 by {
      var i :| 0 <= i < |q[next]| && q[next][i] == m;
    }
  }
}

/** The learned transition model of package/dyna_q_agent.py and the replay updates that
    planning draws from it (the Dyna-Q scheme of section 8.2 of Sutton and Barto). */
module DynaQModel {
  import opened States
  import opened Greedy
  import opened QLearning

  /** The next state the model records for a transition that ends the episode. */
  const TerminalState: int := -1

  /** model[state][action] = (next state, reward). */
  type Model = map<int, map<int, (int, real)>>

  /** What the agent's model holds: grid states, each with at least one recorded action among
      0..3, each leading to a grid state or to the terminal marker. */
  ghost predicate ModelOk(m: Model) {
    forall s :: s in m ==>
      && ValidState(s)
      && m[s] != map[]
      && forall a :: a in m[s] ==> 0 <= a < 4 && (ValidState(m[s][a].0) || m[s][a].0 == TerminalState)
  }

  /** Dyna-Q's update_model on the model: record (next, reward) for (s, a), creating the entry
      of `s` on its first visit. */
  function Record(m: Model, s: int, a: int, next: int, reward: real): (m': Model)
    ensures m'.Keys == m.Keys + {s}
    ensures a in m'[s] && m'[s][a] == (next, reward)
    ensures forall t :: t in m && t != s ==> m'[t] == m[t]
    ensures s in m ==> m'[s].Keys == m[s].Keys + {a}
    ensures s !in m ==> m'[s].Keys == {a}
    ensures forall b :: s in m && b in m[s] && b != a ==> m'[s][b] == m[s][b]
  {
    if s in m then m[s := m[s][a := (next, reward)]] else m[s := map[a := (next, reward)]]
  }

  /** Recording an observation keeps a well-formed model well-formed. */
  lemma RecordKeepsModel(m: Model, s: int, a: int, next: int, reward: real)
    requires ModelOk(m) && ValidState(s) && 0 <= a < 4
    requires ValidState(next) || next == TerminalState
    ensures ModelOk(Record(m, s, a, next, reward))
  {
  }

  /** Recording the same observation twice gives the model recorded once. */
  lemma RecordIdempotent(m: Model, s: int, a: int, next: int, reward: real)
    ensures Record(Record(m, s, a, next, reward), s, a, next, reward) == Record(m, s, a, next, reward)
  {
    var m1 := Record(m, s, a, next, reward);
    assert m1[s][a := (next, reward)] == m1[s];
  }

  ghost predicate RewardsZero(m: Model) {
    forall s, a :: s in m && a in m[s] ==> m[s][a].1 == 0.0
  }

  /** Recording a zero reward keeps every recorded reward 0. */
  lemma RecordKeepsRewardsZero(m: Model, s: int, a: int, next: int, reward: real)
    requires RewardsZero(m) && reward == 0.0
    ensures RewardsZero(Record(m, s, a, next, reward))
  {
  }

  /** One observed transition: update_model's four arguments. */
  datatype Observation = Observation(from: int, action: int, next: int, reward: real)

  /** The model after a run of observations, oldest first. */
  function RecordAll(m: Model, obs: seq<Observation>): (m': Model)
    ensures m.Keys <= m'.Keys
    ensures forall i :: 0 <= i < |obs| ==> obs[i].from in m'
    decreases |obs|
  {
    if obs == [] then m
    else
      var init, o := obs[..|obs| - 1], obs[|obs| - 1];
      assert forall i :: 0 <= i < |init| ==> init[i] == obs[i];
      Record(RecordAll(m, init), o.from, o.action, o.next, o.reward)
  }

  /** obs[i] is the last observation of (s, a), and the model holds its outcome. */
  ghost predicate LatestAt(obs: seq<Observation>, m: Model, s: int, a: int, i: int)
    requires s in m && a in m[s]
  {
    && 0 <= i < |obs| && obs[i].from == s && obs[i].action == a
    && m[s][a] == (obs[i].next, obs[i].reward)
    && forall j :: i < j < |obs| ==> (obs[j].from, obs[j].action) != (s, a)
  }

  ghost predicate LatestOf(obs: seq<Observation>, m: Model, s: int, a: int)
    requires s in m && a in m[s]
  {
    exists i :: LatestAt(obs, m, s, a, i)
  }

  /** Some observation took `action` in `state`. */
  ghost predicate Observed(obs: seq<Observation>, state: int, action: int) {
    exists o :: o in obs && o.from == state && o.action == action
  }

  /** Starting from the empty model, the model holds an entry for (s, a) exactly when some
      observation took a in s, and no state is recorded without an action. */
  lemma {:induction false} RecordAllEntries(obs: seq<Observation>)
    ensures forall s, a :: s in RecordAll(map[], obs) && a in RecordAll(map[], obs)[s] <==> Observed(obs, s, a)
    ensures forall s :: s in RecordAll(map[], obs) ==> exists a :: a in RecordAll(map[], obs)[s]
    decreases |obs|
  {
    if obs != [] {
      var init := obs[..|obs| - 1];
      var o := obs[|obs| - 1];
      RecordAllEntries(init);
      var m := RecordAll(map[], obs);
      assert obs == init + [o];
      forall s, a | Observed(obs, s, a) ensures s in m && a in m[s] {
        var o' :| o' in obs && o'.from == s && o'.action == a;
        if o' != o {
          assert o' in init;
          assert Observed(init, s, a);
        }
      }
      forall s, a | s in m && a in m[s] ensures Observed(obs, s, a) {
        if (s, a) != (o.from, o.action) {
          var m0 := RecordAll(map[], init);
          assert s in m0 && a in m0[s];
          assert Observed(init, s, a);
          var o' :| o' in init && o'.from == s && o'.action == a;
          assert o' in obs;
        }
      }
    }
  }

  /** Starting from the empty model, the model's states are exactly the states observations
      came from. */
  lemma {:induction false} RecordAllStates(obs: seq<Observation>)
    ensures RecordAll(map[], obs).Keys == (set o | o in obs :: o.from)
  {
    var m := RecordAll(map[], obs);
    RecordAllEntries(obs);
    forall s | s in m ensures s in (set o | o in obs :: o.from) {
      var a :| a in m[s];
      var o :| o in obs && o.from == s && o.action == a;
    }
    forall o | o in obs ensures o.from in m {
      assert Observed(obs, o.from, o.action);
    }
  }

  /** Every entry of the model is the outcome of the latest observation of its (state, action)
      pair: a later observation overwrites an earlier one. */
  lemma {:induction false} RecordAllLatest(obs: seq<Observation>)
    ensures forall s, a :: s in RecordAll(map[], obs) && a in RecordAll(map[], obs)[s] ==>
      LatestOf(obs, RecordAll(map[], obs), s, a)
    decreases |obs|
  {
    if obs != [] {
      var init := obs[..|obs| - 1];
      var o := obs[|obs| - 1];
      RecordAllLatest(init);
      var m0 := RecordAll(map[], init);
      var m := RecordAll(map[], obs);
      forall s, a | s in m && a in m[s]
        ensures LatestOf(obs, m, s, a)
      {
        if (s, a) == (o.from, o.action) {
          assert LatestAt(obs, m, s, a, |obs| - 1);
        } else {
          assert s in m0 && a in m0[s];
          assert LatestOf(init, m0, s, a);
          var i :| LatestAt(init, m0, s, a, i);
          assert obs[i] == init[i];
          assert m[s][a] == m0[s][a];
          assert LatestAt(obs, m, s, a, i);
        }
      }
    }
  }

  /** One more observation is one more Record on the model so far. */
  lemma RecordAllSnoc(m: Model, obs: seq<Observation>, o: Observation)
    ensures RecordAll(m, obs + [o]) == Record(RecordAll(m, obs), o.from, o.action, o.next, o.reward)
  {
    assert (obs + [o])[..|obs|] == obs;
  }

  /** The model the repository's update_model test expects: three first visits. */
  lemma UpdateModelTestModel()
    ensures RecordAll(map[], [Observation(6, 1, 7, 0.0), Observation(11, 3, 10, 0.0), Observation(111, 0, 110, 1.0)])
      == map[6 := map[1 := (7, 0.0)], 11 := map[3 := (10, 0.0)], 111 := map[0 := (110, 1.0)]]
  {
    var a1, a2, a3 := Observation(6, 1, 7, 0.0), Observation(11, 3, 10, 0.0), Observation(111, 0, 110, 1.0);
    RecordAllSnoc(map[], [], a1);
    RecordAllSnoc(map[], [a1], a2);
    RecordAllSnoc(map[], [a1, a2], a3);
    assert [] + [a1] == [a1] && [a1] + [a2] == [a1, a2] && [a1, a2] + [a3] == [a1, a2, a3];
  }

  /** The model the repository's planning test expects: state 0 collects two actions, and the
      transition of state 1 ends the episode. */
  lemma PlanningTestModel()
    ensures RecordAll(map[], [Observation(0, 2, 1, 1.0), Observation(2, 0, 1, 1.0), Observation(0, 3, 0, 1.0), Observation(1, 1, -1, 1.0)])
      == map[0 := map[2 := (1, 1.0), 3 := (0, 1.0)], 1 := map[1 := (-1, 1.0)], 2 := map[0 := (1, 1.0)]]
  {
    var b1, b2, b3, b4 := Observation(0, 2, 1, 1.0), Observation(2, 0, 1, 1.0), Observation(0, 3, 0, 1.0), Observation(1, 1, -1, 1.0);
    RecordAllSnoc(map[], [], b1);
    assert [] + [b1] == [b1];
    var m1 := map[0 := map[2 := (1, 1.0)]];
    assert RecordAll(map[], [b1]) == m1;
    RecordAllSnoc(map[], [b1], b2);
    assert [b1] + [b2] == [b1, b2];
    var m2 := m1[2 := map[0 := (1, 1.0)]];
    assert RecordAll(map[], [b1, b2]) == m2;
    RecordAllSnoc(map[], [b1, b2], b3);
    assert [b1, b2] + [b3] == [b1, b2, b3];
    var m3 := m2[0 := map[2 := (1, 1.0), 3 := (0, 1.0)]];
    assert RecordAll(map[], [b1, b2, b3]) == m3;
    RecordAllSnoc(map[], [b1, b2, b3], b4);
    assert [b1, b2, b3] + [b4] == [b1, b2, b3, b4];
  }

  /** The model the repository's start/step test expects after three steps from the start. */
  lemma StartStepTestModel()
    ensures RecordAll(map[], [Observation(16, 3, 6, 0.0), Observation(6, 1, 16, 0.0), Observation(16, 0, 15, 0.0)])
      == map[16 := map[3 := (6, 0.0), 0 := (15, 0.0)], 6 := map[1 := (16, 0.0)]]
  {
    var c1, c2, c3 := Observation(16, 3, 6, 0.0), Observation(6, 1, 16, 0.0), Observation(16, 0, 15, 0.0);
    RecordAllSnoc(map[], [], c1);
    assert [] + [c1] == [c1];
    var m1 := map[16 := map[3 := (6, 0.0)]];
    assert RecordAll(map[], [c1]) == m1;
    RecordAllSnoc(map[], [c1], c2);
    assert [c1] + [c2] == [c1, c2];
    var m2 := m1[6 := map[1 := (16, 0.0)]];
    assert RecordAll(map[], [c1, c2]) == m2;
    RecordAllSnoc(map[], [c1, c2], c3);
    assert [c1, c2] + [c3] == [c1, c2, c3];
  }

  /** A replay draw: the sampled (state, action) pair. */
  type Draw = (int, int)

  /** Every draw names a (state, action) pair present in the model. */
  ghost predicate Drawn(draws: seq<Draw>, m: Model) {
    forall i :: 0 <= i < |draws| ==> draws[i].0 in m && draws[i].1 in m[draws[i].0]
  }

  /** One planning update of the pair (s, a): the recorded reward plus `extra` (the pair's
      exploration bonus), with the bootstrap term unless the recorded next state is the terminal
      marker. */
  function ReplayOne(q: QTable, m: Model, s: int, a: int, extra: real, alpha: real, gamma: real): (q': QTable)
    requires QTableOk(q) && ModelOk(m)
    requires s in m && a in m[s]
    ensures QTableOk(q')
    ensures forall t, b :: t in q && 0 <= b < |q[t]| && (t != s || b != a) ==> q'[t][b] == q[t][b]
  {
    var next := m[s][a].0;
    var reward := m[s][a].1 + extra;
    if next == TerminalState then TerminalUpdate(q, s, a, reward, alpha)
    else DirectUpdate(q, s, a, reward, gamma, next, alpha)
  }

  /** The value table after the planning updates for `draws`, in order. */
  function Planned(q: QTable, m: Model, draws: seq<Draw>, bonus: (int, int) -> real, alpha: real, gamma: real): (q': QTable)
    requires QTableOk(q) && ModelOk(m) && Drawn(draws, m)
    ensures QTableOk(q')
    decreases |draws|
  {
    if draws == [] then q
    else
      var s, a := draws[|draws| - 1].0, draws[|draws| - 1].1;
      ReplayOne(Planned(q, m, draws[..|draws| - 1], bonus, alpha, gamma), m, s, a, bonus(s, a), alpha, gamma)
  }

  /** A replay of a transition recorded as terminal is the terminal update. */
  lemma ReplayOneTerminal(q: QTable, m: Model, s: int, a: int, extra: real, alpha: real, gamma: real)
    requires QTableOk(q) && ModelOk(m) && s in m && a in m[s] && m[s][a].0 == TerminalState
    ensures s in q && 0 <= a < |q[s]|
    ensures ReplayOne(q, m, s, a, extra, alpha, gamma) == TerminalUpdate(q, s, a, m[s][a].1 + extra, alpha)
  {
  }

  /** Any other replay bootstraps from the recorded next state, which is a table state. */
  lemma ReplayOneBootstrap(q: QTable, m: Model, s: int, a: int, extra: real, alpha: real, gamma: real)
    requires QTableOk(q) && ModelOk(m) && s in m && a in m[s] && m[s][a].0 != TerminalState
    ensures s in q && 0 <= a < |q[s]| && m[s][a].0 in q && |q[m[s][a].0]| == 4
    ensures ReplayOne(q, m, s, a, extra, alpha, gamma) == DirectUpdate(q, s, a, m[s][a].1 + extra, gamma, m[s][a].0, alpha)
  {
  }

  /** One more draw is one more replay update on the table planned so far. */
  lemma PlannedSnoc(q: QTable, m: Model, draws: seq<Draw>, s: int, a: int, bonus: (int, int) -> real, alpha: real, gamma: real)
    requires QTableOk(q) && ModelOk(m) && Drawn(draws, m) && s in m && a in m[s]
    ensures Drawn(draws + [(s, a)], m)
    ensures Planned(q, m, draws + [(s, a)], bonus, alpha, gamma) == ReplayOne(Planned(q, m, draws, bonus, alpha, gamma), m, s, a, bonus(s, a), alpha, gamma)
  {
    assert (draws + [(s, a)])[..|draws|] == draws;
  }

  /** Planning changes only the values of the drawn pairs. */
  lemma {:induction false} PlannedTouchesOnlyDraws(q: QTable, m: Model, draws: seq<Draw>, bonus: (int, int) -> real, alpha: real, gamma: real, s: int, a: int)
    requires QTableOk(q) && ModelOk(m) && Drawn(draws, m)
    requires s in q && 0 <= a < 4 && (s, a) !in draws
    ensures Planned(q, m, draws, bonus, alpha, gamma)[s][a] == q[s][a]
    decreases |draws|
  {
    if draws != [] {
      var init := draws[..|draws| - 1];
      assert forall i :: 0 <= i < |init| ==> init[i] == draws[i];
      assert draws[|draws| - 1] in draws;
      PlannedTouchesOnlyDraws(q, m, init, bonus, alpha, gamma, s, a);
    }
  }

  lemma RewardZeroAt(m: Model, s: int, a: int)
    requires RewardsZero(m) && s in m && a in m[s]
    ensures m[s][a].1 == 0.0
  {
  }

  /** With every value and every recorded reward 0 and no bonus on the pair, a replay update
      leaves every value 0. */
  lemma {:induction false} ReplayOneKeepsZero(q: QTable, m: Model, s: int, a: int, alpha: real, gamma: real)
    requires QTableOk(q) && ModelOk(m)
    requires s in m && a in m[s]
    requires AllZero(q) && RewardsZero(m)
    ensures AllZero(ReplayOne(q, m, s, a, 0.0, alpha, gamma))
  {
    RewardZeroAt(m, s, a);
    var next := m[s][a].0;
    if next != TerminalState {
      DirectUpdateKeepsZero(q, s, a, gamma, next, alpha);
    }
  }

  /** With every value and every recorded reward 0, and no bonus on the drawn pairs, planning
      leaves every value 0. */
  lemma {:induction false} PlannedKeepsZero(q: QTable, m: Model, draws: seq<Draw>, bonus: (int, int) -> real, alpha: real, gamma: real)
    requires QTableOk(q) && ModelOk(m) && Drawn(draws, m)
    requires AllZero(q) && RewardsZero(m)
    requires forall i :: 0 <= i < |draws| ==> bonus(draws[i].0, draws[i].1) == 0.0
    ensures AllZero(Planned(q, m, draws, bonus, alpha, gamma))
    decreases |draws|
  {
    if draws != [] {
      var init := draws[..|draws| - 1];
      var s, a := draws[|draws| - 1].0, draws[|draws| - 1].1;
      assert forall i :: 0 <= i < |init| ==> init[i] == draws[i];
      PlannedKeepsZero(q, m, init, bonus, alpha, gamma);
      ReplayOneKeepsZero(Planned(q, m, init, bonus, alpha, gamma), m, s, a, alpha, gamma);
    }
  }

  /** A Dyna-Q step on an all-zero table and model that sees reward 0 (the direct update, the
      recorded transition and the planning that follows) leaves every value 0: values only
      become non-zero once the goal has been reached. */
  lemma LearningKeepsZero(q: QTable, m: Model, s: int, a: int, gamma: real, next: int, alpha: real, draws: seq<Draw>)
    requires QTableOk(q) && ModelOk(m) && AllZero(q) && RewardsZero(m)
    requires ValidState(s) && 0 <= a < 4 && ValidState(next)
    requires Drawn(draws, Record(m, s, a, next, 0.0))
    ensures QTableOk(DirectUpdate(q, s, a, 0.0, gamma, next, alpha)) && ModelOk(Record(m, s, a, next, 0.0))
    ensures AllZero(Planned(DirectUpdate(q, s, a, 0.0, gamma, next, alpha), Record(m, s, a, next, 0.0), draws, NoBonus, alpha, gamma))
  {
    var direct := DirectUpdate(q, s, a, 0.0, gamma, next, alpha);
    UpdatedKeepsTable(q, s, a, 0.0 + gamma * MaxOf(q[next]), alpha);
    RecordKeepsModel(m, s, a, next, 0.0);
    DirectUpdateKeepsZero(q, s, a, gamma, next, alpha);
    RecordKeepsRewardsZero(m, s, a, next, 0.0);
    PlannedKeepsZero(direct, Record(m, s, a, next, 0.0), draws, NoBonus, alpha, gamma);
  }

  /** Dyna-Q plans without a bonus. */
  function NoBonus(s: int, a: int): real {
    0.0
  }

  /** The model states as a list, which is what planning draws from. */
  function Filter(xs: seq<int>, keep: set<int>): (r: seq<int>)
    ensures forall x :: x in r <==> x in xs && x in keep
  {
    if xs == [] then []
    else (if xs[0] in keep then [xs[0]] else []) + Filter(xs[1..], keep)
  }

  function ModelStates(m: Model): (r: seq<int>)
    requires ModelOk(m)
    ensures forall s :: s in r <==> s in m
  {
    AllStatesAreTheStates();
    Filter(AllStates(), m.Keys)
  }

  /** planning_step draws its state from a non-empty list when the model is non-empty. */
  lemma ModelStatesNonEmpty(m: Model)
    requires ModelOk(m) && m != map[]
    ensures |ModelStates(m)| > 0
  {
    assert m.Keys != {};
    HasElement(m.Keys);
    var s :| s in m;
    assert s in ModelStates(m);
  }

  /** ... and its action from a non-empty list, as every recorded state has an action. */
  lemma RecordedActionsNonEmpty(m: Model, s: int)
    requires ModelOk(m) && s in m
    ensures |RecordedActions(m[s])| > 0
  {
    assert m[s].Keys != {};
    HasElement(m[s].Keys);
    var a :| a in m[s];
    assert a in RecordedActions(m[s]);
  }

  function RecordedActions(actions: map<int, (int, real)>): (r: seq<int>)
    requires forall a :: a in actions ==> 0 <= a < 4
    ensures forall a :: a in r <==> a in actions
  {
    Filter([0, 1, 2, 3], actions.Keys)
  }
}

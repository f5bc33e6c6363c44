/** The learning agents of package/agent.py, package/q_learning_agent.py,
    package/dyna_q_agent.py and package/dyna_q_plus_agent.py as one class. The source's
    subclass chain (Agent, then Q-learning, then Dyna-Q, then Dyna-Q+) becomes a `Variant`
    fixed at construction; every overriding method is a method of its own, and `Step` and
    `AgentEnd` dispatch on the variant as the source's method lookup does. */
module Agents {
  import opened GridWorld
  import opened States
  import opened Movement
  import opened Greedy
  import opened QLearning
  import opened DynaQModel
  import opened DynaQPlusModel
  import opened Random

  /** Which learner the agent is, with the parameters its subclass adds. `sqrt` is np.sqrt on
      the staleness counts. */
  datatype Variant =
    | QLearner
    | DynaQ(planningSteps: nat)
    | DynaQPlus(planningSteps: nat, kappa: real, sqrt: int -> real)

  /** self.actions */
  const Actions: seq<int> := [0, 1, 2, 3]

  /** `visits[s] += 1`. */
  function Bump(visits: map<int, int>, s: int): (v: map<int, int>)
    requires s in visits
    ensures v.Keys == visits.Keys
    ensures v[s] == visits[s] + 1
    ensures forall t :: t in visits && t != s ==> v[t] == visits[t]
  {
    visits[s := visits[s] + 1]
  }

  /** The visit counting of Dyna-Q's update_model: only a state already in the model (and a
      key of the counters) is counted. */
  function RecordVisit(visits: map<int, int>, m: Model, s: int): (v: map<int, int>)
    ensures s in m && s in visits ==> v == Bump(visits, s)
    ensures !(s in m && s in visits) ==> v == visits
  {
    if s in m && s in visits then Bump(visits, s) else visits
  }

  /** The loop of planning_step: `n` times, draw a recorded state and one of its recorded
      actions and apply the replay update, with `bonus` added to the recorded reward. */
  method Replay(q0: QTable, m: Model, n: nat, bonus: (int, int) -> real, alpha: real, gamma: real, rng: Rng)
    returns (q: QTable, ghost draws: seq<Draw>)
    requires QTableOk(q0) && ModelOk(m) && rng.Valid() && (n > 0 ==> m != map[])
    modifies rng
    ensures rng.Valid()
    ensures |draws| == n && Drawn(draws, m)
    ensures q == Planned(q0, m, draws, bonus, alpha, gamma)
  {
    q := q0;
    draws := [];
    for i := 0 to n
      invariant rng.Valid()
      invariant |draws| == i && Drawn(draws, m)
      invariant q == Planned(q0, m, draws, bonus, alpha, gamma)
    {
      ModelStatesNonEmpty(m);
      var s := rng.Choice(ModelStates(m));
      RecordedActionsNonEmpty(m, s);
      var a := rng.Choice(RecordedActions(m[s]));
      PlannedSnoc(q0, m, draws, s, a, bonus, alpha, gamma);
      // the recorded (next, reward) of the pair, the reward with the bonus added
      if m[s][a].0 == TerminalState {
        ReplayOneTerminal(q, m, s, a, bonus(s, a), alpha, gamma);
        q := TerminalUpdate(q, s, a, m[s][a].1 + bonus(s, a), alpha);
      } else {
        ReplayOneBootstrap(q, m, s, a, bonus(s, a), alpha, gamma);
        q := DirectUpdate(q, s, a, m[s][a].1 + bonus(s, a), gamma, m[s][a].0, alpha);
      }
      draws := draws + [(s, a)];
    }
  }

  class Agent {
    const variant: Variant
    const env: Env
    const rng: Rng
    const gamma: real
    const stepSize: real
    const epsilon: real
    const startPosition: int

    var lastAction: int
    var lastState: int
    /** The state and action of the previous move; the source creates them in agent_start. */
    var pastState: int
    var pastAction: int
    var position: int
    var q: QTable
    var stateVisits: map<int, int>
    var done: bool
    var nSteps: seq<int>
    var rewards: seq<int>
    var episodePlayed: int
    var model: Model
    var tau: Tau

    ghost predicate Valid()
      reads this`position, this`q, this`stateVisits, this`model, this`tau, env.grid, env.rewardMap, rng
    {
      && env.Valid() && rng.Valid()
      && startPosition == StartState
      && ValidState(position)
      && QTableOk(q)
      && StateTable(stateVisits)
      && ModelOk(model)
      && TauOk(tau)
    }

    /** An agent has started an episode: its previous state and action are a table key and an
        action. */
    predicate Started()
      reads this`pastState, this`pastAction
    {
      ValidState(pastState) && 0 <= pastAction < 4
    }

    /** The planning steps of the Dyna variants. */
    function PlanningSteps(): nat
    {
      match variant
      case QLearner => 0
      case DynaQ(n) => n
      case DynaQPlus(n, _, _) => n
    }

    /** The bonus planning adds to a recorded reward: none for Dyna-Q, kappa * sqrt(tau) for
        Dyna-Q+. */
    function PlanningBonus(): (int, int) -> real
      reads this`tau
    {
      if variant.DynaQPlus? then StalenessBonus(variant.kappa, variant.sqrt, tau) else NoBonus
    }

    /** The reward at the agent's position, as the episode loop and agent_end query it. */
    function RewardHere(): (r: real)
      reads this`position, env.grid, env.rewardMap
      requires env.Valid() && ValidState(position)
      ensures r == 1.0 <==> StateToCoord(position) == (GoalCell.1, GoalCell.0)
    {
      env.GetReward(StateToCoord(position), true)
    }

    /** What a move did besides the visit counter: the agent stands where the movement rule
        puts it, and a reward was appended and `done` raised exactly when the move ended the
        episode. */
    ghost predicate Landed(rewards0: seq<int>, done0: bool, state: int, action: int)
      reads this`position, this`rewards, this`done, env.grid, env.rewardMap
      requires env.Valid() && 0 <= action < 4
    {
      var m := Landing(state, action, env.LatePortalActive());
      && position == CoordToState(m.dest)
      && rewards == rewards0 + Emitted(m)
      && done == (done0 || m.outcome.Terminal?)
    }

    constructor (variant: Variant, gamma: real, stepSize: real, epsilon: real)
      ensures Valid()
      ensures this.variant == variant && this.gamma == gamma
      ensures this.stepSize == stepSize && this.epsilon == epsilon
      ensures position == startPosition == 16 && !done
      ensures lastAction == -1 && lastState == -1
      ensures nSteps == [] && rewards == [] && model == map[]
      ensures AllZero(q)
      ensures forall s :: s in stateVisits ==> stateVisits[s] == 0
      ensures forall s, a :: s in tau && 0 <= a < 4 ==> tau[s][a] == 0
      ensures !env.LatePortalActive() && env.activations == 0
      ensures fresh(env) && fresh(rng)
    {
      this.variant := variant;
      this.gamma := gamma;
      this.stepSize := stepSize;
      this.epsilon := epsilon;
      env := new Env();
      rng := new Rng(17);
      StartStateValue();
      startPosition := StartState;
      position := StartState;
      lastAction := -1;
      lastState := -1;
      pastState := -1;
      pastAction := -1;
      var values := InitStateActionDict(0.0);
      var visits := InitStateDict(0);
      var staleness := InitStateActionDict(0);
      q := values;
      stateVisits := visits;
      tau := staleness;
      done := false;
      nSteps := [];
      rewards := [];
      episodePlayed := 0;
      model := map[];
    }

    /** reset: a new episode starts at the start cell; tables and the previous state and action
        are kept. */
    method Reset()
      requires Valid()
      modifies this`done, this`position, this`lastAction, this`lastState
      ensures Valid()
      ensures !done && position == startPosition
      ensures lastAction == -1 && lastState == -1
    {
      done := false;
      position := startPosition;
      lastAction := -1;
      lastState := -1;
    }

    /** update_coord: the movement rule on an (x, y) coordinate. */
    method UpdateCoord(coord: Coord, action: int) returns (moved: Coord)
      requires env.Valid() && 0 <= action < 4
      modifies this`rewards, this`done
      ensures var m := Resolve(coord, action, env.LatePortalActive());
        && moved == m.dest
        && rewards == old(rewards) + Emitted(m)
        && done == (old(done) || m.outcome.Terminal?)
    {
      var x, y := coord.0, coord.1;
      if action == 0 {
        y := y - 1;
      } else if action == 1 {
        x := x + 1;
      } else if action == 2 {
        y := y + 1;
      } else {
        x := x - 1;
      }
      if !(0 <= x < env.grid.Length1) || !(0 <= y < env.grid.Length0) {
        return coord;
      }
      // the grid is indexed (row, col) = (y, x)
      var cell := env.grid[y, x];
      if cell == Wall {
        return coord;
      }
      if cell == Portal {
        return TeleportTarget;
      }
      if cell == Trap {
        rewards := rewards + [0];
        done := true;
      }
      if cell == Goal {
        rewards := rewards + [1];
        done := true;
      }
      // the position is not written here: the source compares it with (x, y) and drops the result
      return (x, y);
    }

    /** update_state: move from `state`, stand on the resulting state and count a visit to it.
        The counter must exist, as the source indexes it. */
    method UpdateState(state: int, action: int) returns (updated: int)
      requires env.Valid() && 0 <= action < 4
      requires NextState(state, action, env.LatePortalActive()) in stateVisits
      modifies this`position, this`stateVisits, this`rewards, this`done
      ensures updated == position == NextState(state, action, env.LatePortalActive())
      ensures stateVisits == Bump(old(stateVisits), updated)
      ensures Landed(old(rewards), old(done), state, action)
    {
      var coord := StateToCoord(state);
      var updatedCoord := UpdateCoord(coord, action);
      updated := CoordToState(updatedCoord);
      position := updated;
      stateVisits := stateVisits[position := stateVisits[position] + 1];
    }

    /** argmax: a uniformly drawn index among those attaining the maximum. */
    method Argmax(values: seq<real>) returns (index: int)
      requires rng.Valid() && |values| > 0
      modifies rng
      ensures rng.Valid()
      ensures 0 <= index < |values| && values[index] == MaxOf(values)
    {
      index := rng.Choice(Ties(values));
    }

    /** epsilon_greedy: with probability epsilon a uniformly drawn action, otherwise a greedy
        one. `explored` tells which branch was taken. */
    method EpsilonGreedy(state: int) returns (action: int, ghost explored: bool)
      requires Valid() && ValidState(state)
      modifies rng
      ensures Valid()
      ensures 0 <= action < 4
      ensures !explored ==> q[state][action] == MaxOf(q[state])
      ensures epsilon <= 0.0 ==> !explored
    {
      var u := rng.Rand();
      if u < epsilon {
        action := rng.Choice(Actions);
        explored := true;
      } else {
        action := Argmax(q[state]);
        explored := false;
      }
    }

    /** Moving from a table key lands on a counter that exists. */
    lemma MoveStaysOnTable(state: int, action: int)
      requires Valid() && ValidState(state) && 0 <= action < 4
      ensures NextState(state, action, env.LatePortalActive()) in stateVisits
      ensures ValidState(NextState(state, action, env.LatePortalActive()))
    {
      NextStateValid(state, action, env.LatePortalActive());
    }

    /** The direct RL update of every step: the previous pair moves towards
        reward + gamma * max Q[state], the one-step Q-learning target. */
    method DirectRLUpdate(state: int, reward: real)
      requires Valid() && Started() && ValidState(state)
      modifies this`q
      ensures Valid()
      ensures q == DirectUpdate(old(q), pastState, pastAction, reward, gamma, state, stepSize)
    {
      UpdatedKeepsTable(q, pastState, pastAction, reward + gamma * MaxOf(q[state]), stepSize);
      q := DirectUpdate(q, pastState, pastAction, reward, gamma, state, stepSize);
    }

    /** The end of every step and of agent_start: update_state with the chosen action, which
        becomes the previous pair together with `state`. */
    method TakeAction(state: int, action: int)
      requires Valid() && ValidState(state) && 0 <= action < 4
      modifies this`pastState, this`pastAction, this`position, this`stateVisits, this`rewards, this`done
      ensures Valid() && Started()
      ensures pastState == state && pastAction == action
      ensures stateVisits == Bump(old(stateVisits), position)
      ensures Landed(old(rewards), old(done), state, action)
    {
      MoveStaysOnTable(state, action);
      var _ := UpdateState(state, action);
      assert ValidState(position) && stateVisits.Keys == old(stateVisits).Keys;
      pastState := state;
      pastAction := action;
    }

    /** agent_start: choose the first action in `state` and take it. */
    method AgentStart(state: int) returns (action: int)
      requires Valid() && ValidState(state)
      modifies this`pastState, this`pastAction, this`position, this`stateVisits, this`rewards, this`done, rng
      ensures Valid() && Started()
      ensures pastState == state && pastAction == action
      ensures epsilon <= 0.0 ==> q[state][action] == MaxOf(q[state])
      ensures stateVisits == Bump(old(stateVisits), position)
      ensures Landed(old(rewards), old(done), state, action)
    {
      ghost var explored;
      action, explored := EpsilonGreedy(state);
      TakeAction(state, action);
    }

    /** step of Q-learning: the direct update, then an epsilon-greedy move from `state`. */
    method QLearningStep(state: int, reward: real) returns (action: int)
      requires Valid() && Started() && ValidState(state)
      modifies this`q, this`pastState, this`pastAction, this`position, this`stateVisits, this`rewards, this`done, rng
      ensures Valid() && Started()
      ensures q == DirectUpdate(old(q), old(pastState), old(pastAction), reward, gamma, state, stepSize)
      ensures pastState == state && pastAction == action
      ensures epsilon <= 0.0 ==> q[state][action] == MaxOf(q[state])
      ensures stateVisits == Bump(old(stateVisits), position)
      ensures Landed(old(rewards), old(done), state, action)
    {
      DirectRLUpdate(state, reward);
      ghost var explored;
      action, explored := EpsilonGreedy(state);
      TakeAction(state, action);
    }

    /** The terminal update of agent_end: the previous pair moves towards the reward at the
        agent's position, without a bootstrap term. */
    method TerminalRLUpdate() returns (reward: real)
      requires Valid() && Started()
      modifies this`q
      ensures Valid()
      ensures reward == RewardHere()
      ensures q == TerminalUpdate(old(q), pastState, pastAction, reward, stepSize)
    {
      reward := env.GetReward(StateToCoord(position), true);
      UpdatedKeepsTable(q, pastState, pastAction, reward, stepSize);
      q := TerminalUpdate(q, pastState, pastAction, reward, stepSize);
    }

    /** `state_visits[s] += 1` on a table key. */
    method CountVisit(s: int)
      requires Valid() && ValidState(s)
      modifies this`stateVisits
      ensures Valid()
      ensures stateVisits == Bump(old(stateVisits), s)
    {
      stateVisits := stateVisits[s := stateVisits[s] + 1];
    }

    /** agent_end of Q-learning: the terminal update, and one more visit counted for the
        previous state. */
    method QLearningEnd()
      requires Valid() && Started()
      modifies this`q, this`stateVisits
      ensures Valid()
      ensures q == TerminalUpdate(old(q), pastState, pastAction, RewardHere(), stepSize)
      ensures stateVisits == Bump(old(stateVisits), pastState)
    {
      var _ := TerminalRLUpdate();
      CountVisit(pastState);
    }

    /** update_model of Dyna-Q, try/except included: an existing entry of `from` gets the new
        outcome and a visit is counted; a first visit creates the entry without counting.
        When the counter is missing the except branch also runs and recreates the entry. */
    method DynaQUpdateModel(from: int, action: int, to: int, reward: real)
      modifies this`model, this`stateVisits
      ensures stateVisits == RecordVisit(old(stateVisits), old(model), from)
      ensures model == if from in old(model) && from !in old(stateVisits)
        then old(model)[from := map[action := (to, reward)]]
        else Record(old(model), from, action, to, reward)
    {
      if from in model {
        model := model[from := model[from][action := (to, reward)]];
        if from in stateVisits {
          stateVisits := stateVisits[from := stateVisits[from] + 1];
          return;
        }
      }
      // the except branch
      model := model[from := map[]];
      model := model[from := model[from][action := (to, reward)]];
    }

    /** update_model of Dyna-Q+: the loop over the actions writes the placeholder (from, 0) for
        every other action, and the loop's `else` then records the outcome of the action taken. */
    method DynaQPlusUpdateModel(from: int, action: int, to: int, reward: real)
      modifies this`model
      ensures model == PlusRecord(old(model), from, action, to, reward)
    {
      // the entry of `from`, created with the outcome if missing; the loop updates it in place
      var row := if from in model then model[from] else map[action := (to, reward)];
      ghost var base := row;
      for b := 0 to 4
        invariant model == old(model)
        invariant row == base + StaleActions(from, action, b)
      {
        StaleActionsStep(base, from, action, b);
        if b != action {
          row := row[b := (from, 0.0)];
        }
      }
      model := model[from := row[action := (to, reward)]];
    }

    /** The model after update_model for this agent's variant. */
    function Recorded(m: Model, s: int, a: int, next: int, reward: real): Model
    {
      if variant.DynaQPlus? then PlusRecord(m, s, a, next, reward) else Record(m, s, a, next, reward)
    }

    /** The visit counters after update_model for this agent's variant. */
    function VisitsAfterRecord(visits: map<int, int>, m: Model, s: int): map<int, int>
    {
      if variant.DynaQPlus? then visits else RecordVisit(visits, m, s)
    }

    /** self.update_model as the Dyna agents' methods call it: the override of the agent's class. */
    method UpdateModel(from: int, action: int, to: int, reward: real)
      requires Valid() && !variant.QLearner? && ValidState(from) && 0 <= action < 4
      requires ValidState(to) || to == TerminalState
      modifies this`model, this`stateVisits
      ensures Valid()
      ensures model == Recorded(old(model), from, action, to, reward)
      ensures stateVisits == VisitsAfterRecord(old(stateVisits), old(model), from)
    {
      if variant.DynaQPlus? {
        PlusRecordKeepsModel(model, from, action, to, reward);
        DynaQPlusUpdateModel(from, action, to, reward);
      } else {
        RecordKeepsModel(model, from, action, to, reward);
        DynaQUpdateModel(from, action, to, reward);
      }
    }

    /** update_tau: every staleness count goes up by one, key by key (the order does not
        matter, each row is bumped once), then the count of (state, action) is reset to 0. */
    method UpdateTau(state: int, action: int)
      requires Valid() && ValidState(state) && 0 <= action < 4
      modifies this`tau
      ensures Valid()
      ensures tau == TauAfter(old(tau), state, action)
    {
      ghost var t0 := tau;
      var remaining := tau.Keys;
      while remaining != {}
        invariant remaining <= t0.Keys
        invariant tau.Keys == t0.Keys
        invariant forall s :: s in t0 ==> tau[s] == if s in remaining then t0[s] else Incremented(t0[s])
        decreases remaining
      {
        HasElement(remaining);
        var key :| key in remaining;
        tau := tau[key := Incremented(tau[key])];
        remaining := remaining - {key};
      }
      tau := tau[state := tau[state][action := 0]];
      TauAfterFromRows(t0, tau, state, action);
      TauAfterKeepsTable(t0, state, action);
    }

    /** planning_step of Dyna-Q: replay with the recorded rewards as they are. */
    method DynaQPlanningStep() returns (ghost draws: seq<Draw>)
      requires Valid() && variant.DynaQ? && (PlanningSteps() > 0 ==> model != map[])
      modifies this`q, rng
      ensures Valid()
      ensures |draws| == PlanningSteps() && Drawn(draws, model)
      ensures q == Planned(old(q), model, draws, NoBonus, stepSize, gamma)
    {
      var planned;
      planned, draws := Replay(q, model, PlanningSteps(), NoBonus, stepSize, gamma, rng);
      q := planned;
    }

    /** planning_step of Dyna-Q+: replay with kappa * sqrt(tau) added to every recorded reward. */
    method DynaQPlusPlanningStep() returns (ghost draws: seq<Draw>)
      requires Valid() && variant.DynaQPlus? && (PlanningSteps() > 0 ==> model != map[])
      modifies this`q, rng
      ensures Valid()
      ensures |draws| == PlanningSteps() && Drawn(draws, model)
      ensures q == Planned(old(q), model, draws, StalenessBonus(variant.kappa, variant.sqrt, tau), stepSize, gamma)
    {
      var planned;
      planned, draws := Replay(q, model, PlanningSteps(), StalenessBonus(variant.kappa, variant.sqrt, tau), stepSize, gamma, rng);
      q := planned;
    }

    /** The learning half of Dyna-Q's step: the direct update, the model update and planning. */
    method DynaQLearn(state: int, reward: real) returns (ghost draws: seq<Draw>)
      requires Valid() && Started() && ValidState(state) && variant.DynaQ?
      modifies this`q, this`model, this`stateVisits, rng
      ensures Valid()
      ensures model == Record(old(model), pastState, pastAction, state, reward)
      ensures stateVisits == RecordVisit(old(stateVisits), old(model), pastState)
      ensures |draws| == PlanningSteps() && Drawn(draws, model)
      ensures q == Planned(DirectUpdate(old(q), pastState, pastAction, reward, gamma, state, stepSize), model, draws, NoBonus, stepSize, gamma)
    {
      DirectRLUpdate(state, reward);
      UpdateModel(pastState, pastAction, state, reward);
      draws := DynaQPlanningStep();
    }

    /** step of Dyna-Q: learn from the transition, then make an epsilon-greedy move. */
    method DynaQStep(state: int, reward: real) returns (action: int, ghost draws: seq<Draw>)
      requires Valid() && Started() && ValidState(state) && variant.DynaQ?
      modifies this`q, this`model, this`pastState, this`pastAction, this`position, this`stateVisits, this`rewards, this`done, rng
      ensures Valid() && Started()
      ensures pastState == state && pastAction == action
      ensures epsilon <= 0.0 ==> q[state][action] == MaxOf(q[state])
      ensures model == Record(old(model), old(pastState), old(pastAction), state, reward)
      ensures |draws| == PlanningSteps() && Drawn(draws, model)
      ensures q == Planned(DirectUpdate(old(q), old(pastState), old(pastAction), reward, gamma, state, stepSize), model, draws, NoBonus, stepSize, gamma)
      ensures stateVisits == Bump(RecordVisit(old(stateVisits), old(model), old(pastState)), position)
      ensures Landed(old(rewards), old(done), state, action)
    {
      draws := DynaQLearn(state, reward);
      // the acting half of step is the body of agent_start
      action := AgentStart(state);
    }

    /** The learning half of Dyna-Q+'s step: as Dyna-Q's, with the Dyna-Q+ model update and the
        staleness bonus in planning. */
    method DynaQPlusLearn(state: int, reward: real) returns (ghost draws: seq<Draw>)
      requires Valid() && Started() && ValidState(state) && variant.DynaQPlus?
      modifies this`q, this`model, this`stateVisits, rng
      ensures Valid()
      ensures model == PlusRecord(old(model), pastState, pastAction, state, reward)
      ensures stateVisits == old(stateVisits)
      ensures |draws| == PlanningSteps() && Drawn(draws, model)
      ensures q == Planned(DirectUpdate(old(q), pastState, pastAction, reward, gamma, state, stepSize), model, draws, StalenessBonus(variant.kappa, variant.sqrt, tau), stepSize, gamma)
    {
      DirectRLUpdate(state, reward);
      UpdateModel(pastState, pastAction, state, reward);
      draws := DynaQPlusPlanningStep();
    }

    /** step of Dyna-Q+: learn, choose an action, run update_tau for it, then move. */
    method DynaQPlusStep(state: int, reward: real) returns (action: int, ghost draws: seq<Draw>)
      requires Valid() && Started() && ValidState(state) && variant.DynaQPlus?
      modifies this`q, this`model, this`tau, this`pastState, this`pastAction, this`position, this`stateVisits, this`rewards, this`done, rng
      ensures Valid() && Started()
      ensures pastState == state && pastAction == action
      ensures epsilon <= 0.0 ==> q[state][action] == MaxOf(q[state])
      ensures model == PlusRecord(old(model), old(pastState), old(pastAction), state, reward)
      ensures |draws| == PlanningSteps() && Drawn(draws, model)
      ensures q == Planned(DirectUpdate(old(q), old(pastState), old(pastAction), reward, gamma, state, stepSize), model, draws, StalenessBonus(variant.kappa, variant.sqrt, old(tau)), stepSize, gamma)
      ensures tau == TauAfter(old(tau), state, action)
      ensures stateVisits == Bump(old(stateVisits), position)
      ensures Landed(old(rewards), old(done), state, action)
    {
      draws := DynaQPlusLearn(state, reward);
      action := DynaQPlusAct(state);
    }

    /** The acting half of Dyna-Q+'s step: epsilon_greedy, then update_tau for the chosen pair,
        then the move. */
    method DynaQPlusAct(state: int) returns (action: int)
      requires Valid() && ValidState(state)
      modifies this`tau, this`pastState, this`pastAction, this`position, this`stateVisits, this`rewards, this`done, rng
      ensures Valid() && Started()
      ensures pastState == state && pastAction == action
      ensures epsilon <= 0.0 ==> q[state][action] == MaxOf(q[state])
      ensures tau == TauAfter(old(tau), state, action)
      ensures stateVisits == Bump(old(stateVisits), position)
      ensures Landed(old(rewards), old(done), state, action)
    {
      ghost var explored;
      action, explored := EpsilonGreedy(state);
      UpdateTau(state, action);
      TakeAction(state, action);
    }

    /** The bookkeeping of Dyna-Q's agent_end after the terminal update: the transition is
        recorded with the terminal marker through the agent's own update_model, and the previous
        state gets one more visit. */
    method RecordTerminal(reward: real)
      requires Valid() && Started() && !variant.QLearner?
      modifies this`model, this`stateVisits
      ensures Valid()
      ensures model == Recorded(old(model), pastState, pastAction, TerminalState, reward)
      ensures stateVisits == Bump(VisitsAfterRecord(old(stateVisits), old(model), pastState), pastState)
    {
      UpdateModel(pastState, pastAction, TerminalState, reward);
      CountVisit(pastState);
    }

    /** agent_end of Dyna-Q, inherited by Dyna-Q+: the terminal update, RecordTerminal, then the
        agent's own planning. */
    method DynaQEnd() returns (ghost draws: seq<Draw>)
      requires Valid() && Started() && !variant.QLearner?
      modifies this`q, this`model, this`stateVisits, rng
      ensures Valid()
      ensures model == Recorded(old(model), pastState, pastAction, TerminalState, old(RewardHere()))
      ensures stateVisits == Bump(VisitsAfterRecord(old(stateVisits), old(model), pastState), pastState)
      ensures |draws| == PlanningSteps() && Drawn(draws, model)
      ensures q == Planned(TerminalUpdate(old(q), pastState, pastAction, old(RewardHere()), stepSize), model, draws, PlanningBonus(), stepSize, gamma)
    {
      var reward := TerminalRLUpdate();
      RecordTerminal(reward);
      if variant.DynaQPlus? {
        draws := DynaQPlusPlanningStep();
      } else {
        draws := DynaQPlanningStep();
      }
    }

    /** self.step(state, reward) as play_episode calls it: the step of the agent's class. */
    method Step(state: int, reward: real) returns (action: int)
      requires Valid() && Started() && ValidState(state)
      modifies this`q, this`model, this`tau, this`pastState, this`pastAction, this`position, this`stateVisits, this`rewards, this`done, rng
      ensures Valid() && Started()
      ensures pastState == state && pastAction == action
      ensures Landed(old(rewards), old(done), state, action)
    {
      ghost var draws: seq<Draw>;
      match variant
      case QLearner =>
        action := QLearningStep(state, reward);
      case DynaQ(_) =>
        action, draws := DynaQStep(state, reward);
      case DynaQPlus(_, _, _) =>
        action, draws := DynaQPlusStep(state, reward);
    }

    /** What agent_end of the agent's class makes of the values `q0`, the model `m0` and the
        counters `v0`, the previous move (`s`, `a`) and the `reward` found at the final position,
        with `draws` replayed under `bonus`: Q-learning makes the terminal update and counts a
        visit, leaving (`q`, `m`, `v`); the Dyna variants also record the terminal transition
        through their own update_model and then plan. */
    ghost predicate AgentEnded(q0: QTable, m0: Model, v0: map<int, int>, s: int, a: int, reward: real,
                               draws: seq<Draw>, bonus: (int, int) -> real, q: QTable, m: Model, v: map<int, int>)
    {
      && QTableOk(q0) && s in q0 && 0 <= a < |q0[s]|
      && if variant.QLearner? then
        && m == m0
        && s in v0 && v == Bump(v0, s)
        && q == TerminalUpdate(q0, s, a, reward, stepSize)
      else
        && s in VisitsAfterRecord(v0, m0, s)
        && m == Recorded(m0, s, a, TerminalState, reward)
        && v == Bump(VisitsAfterRecord(v0, m0, s), s)
        && ModelOk(m) && |draws| == PlanningSteps() && Drawn(draws, m)
        && q == Planned(TerminalUpdate(q0, s, a, reward, stepSize), m, draws, bonus, stepSize, gamma)
    }

    /** self.agent_end() as play_episode calls it: the agent_end of the agent's class. */
    method AgentEnd() returns (ghost draws: seq<Draw>)
      requires Valid() && Started()
      modifies this`q, this`model, this`stateVisits, rng
      ensures Valid()
      ensures AgentEnded(old(q), old(model), old(stateVisits), pastState, pastAction, old(RewardHere()),
                         draws, PlanningBonus(), q, model, stateVisits)
    {
      if variant.QLearner? {
        QLearningEnd();
        draws := [];
      } else {
        draws := DynaQEnd();
      }
    }

    /** The rewards appended since `r0` by one episode that began with `done` false: none while
        it runs, then one reward, 0 (a trap) or 1 (the goal), when it ends. */
    ghost predicate EpisodeRewards(r0: seq<int>)
      reads this`done, this`rewards
    {
      if done then |rewards| == |r0| + 1 && rewards[..|r0|] == r0 && (rewards[|r0|] == 0 || rewards[|r0|] == 1)
      else rewards == r0
    }

    /** A move made while the episode was running keeps the episode's reward record. */
    lemma LandedKeepsEpisode(r0: seq<int>, state: int, action: int)
      requires env.Valid() && 0 <= action < 4
      requires Landed(r0, false, state, action)
      ensures EpisodeRewards(r0)
    {
      TerminalExactlyAtTrapOrGoal(StateToCoord(state), action, env.LatePortalActive());
    }

    /** The episode so far: `moves` is a walk from the start state that led to the agent's
        position, its last move is the agent's previous pair, and if the episode began with `done` false (`live`), its rewards since `r0`
        are those of EpisodeRewards, `done` says whether the last move ended it, no earlier
        move having done so, and the reward appended is the one that move emitted. */
    ghost predicate OnWalk(moves: seq<(int, int)>, r0: seq<int>, live: bool)
      reads this`position, this`done, this`rewards, this`pastState, this`pastAction, env.grid, env.rewardMap
      requires env.Valid()
    {
      var lp := env.LatePortalActive();
      && Walk(moves, startPosition, lp)
      && var last := moves[|moves| - 1];
      && pastState == last.0 && pastAction == last.1
      && position == NextState(last.0, last.1, lp)
      && (live ==> EpisodeRewards(r0) && (done <==> Ends(last, lp)) && NoEarlierEnd(moves, lp))
      && (live && done ==> rewards[|r0|] == Landing(last.0, last.1, lp).outcome.reward)
    }

    /** After a move that ended the episode, the reward at the agent's position is the reward the
        move appended: agent_end sees the reward the episode recorded. */
    lemma EndingRewardHere(state: int, action: int)
      requires env.Valid() && ValidState(position) && 0 <= action < 4
      requires Landing(state, action, env.LatePortalActive()).outcome.Terminal?
      requires position == NextState(state, action, env.LatePortalActive())
      ensures RewardHere() == Landing(state, action, env.LatePortalActive()).outcome.reward as real
    {
      TerminalExactlyAtTrapOrGoal(StateToCoord(state), action, env.LatePortalActive());
      CoordRoundTrip(Landing(state, action, env.LatePortalActive()).dest);
    }

    /** One turn of play_episode's loop: a step from the current position with the reward found
        there, which extends the episode's walk by one move. */
    method EpisodeStep(ghost moves: seq<(int, int)>, ghost r0: seq<int>, ghost live: bool) returns (ghost moves': seq<(int, int)>)
      requires Valid() && Started() && !done
      requires OnWalk(moves, r0, live)
      modifies this`q, this`model, this`tau, this`pastState, this`pastAction, this`position, this`stateVisits, this`rewards, this`done, rng
      ensures Valid() && Started()
      ensures |moves'| == |moves| + 1 && moves'[..|moves|] == moves
      ensures OnWalk(moves', r0, live)
    {
      ghost var lp := env.LatePortalActive();
      ghost var last := moves[|moves| - 1];
      var state := position;
      var reward := env.GetReward(StateToCoord(position), true);
      var action := Step(position, reward);
      WalkSnoc(moves, startPosition, lp, action);
      moves' := moves + [(state, action)];
      assert moves'[..|moves|] == moves;
      if live {
        NoEarlierEndSnoc(moves, (state, action), lp);
        LandedKeepsEpisode(r0, state, action);
      }
    }

    /** The start of play_episode: agent_start from the start state, the episode's first move. */
    method StartEpisode() returns (ghost moves: seq<(int, int)>)
      requires Valid()
      modifies this`pastState, this`pastAction, this`position, this`stateVisits, this`rewards, this`done, rng
      ensures Valid() && Started()
      ensures |moves| == 1 && OnWalk(moves, old(rewards), !old(done))
    {
      var action := AgentStart(startPosition);
      moves := [(startPosition, action)];
      if !old(done) {
        LandedKeepsEpisode(old(rewards), startPosition, action);
      }
    }

    /** The loop of play_episode: steps until the episode is done, at most `fuel` of them.
        `steps` counts agent_start's move and the steps taken. */
    method RunEpisode(fuel: nat, ghost moves0: seq<(int, int)>, ghost r0: seq<int>, ghost live: bool)
      returns (steps: int, ghost moves: seq<(int, int)>)
      requires Valid() && Started()
      requires |moves0| == 1 && OnWalk(moves0, r0, live)
      modifies this`q, this`model, this`tau, this`pastState, this`pastAction, this`position, this`stateVisits, this`rewards, this`done, rng
      ensures Valid() && Started()
      ensures 1 <= steps == |moves| <= fuel + 1 && moves[..1] == moves0
      ensures OnWalk(moves, r0, live)
      ensures done || steps == fuel + 1
    {
      moves := moves0;
      steps := 1;
      var fuelLeft := fuel;
      while !done && fuelLeft > 0
        invariant Valid() && Started()
        invariant 0 <= fuelLeft <= fuel && steps == 1 + (fuel - fuelLeft) == |moves|
        invariant moves[..1] == moves0
        invariant OnWalk(moves, r0, live)
        decreases fuelLeft
      {
        ghost var before := moves;
        moves := EpisodeStep(moves, r0, live);
        assert moves[..1] == before[..|before|][..1];
        steps := steps + 1;
        fuelLeft := fuelLeft - 1;
      }
    }

    /** play_episode: agent_start from the start state, steps with the reward at the current
        position until the episode is done, then the step count is recorded, agent_end runs and
        the agent is reset. The loop of the source need not end; `fuel` bounds it here, and
        `finished` is false when it ran out. `moves` are the (state, action) pairs the episode
        played: the step count is their number, and the episode ended with the last of them. */
    method PlayEpisode(fuel: nat)
      returns (finished: bool, steps: int, ghost moves: seq<(int, int)>,
               ghost q1: QTable, ghost m1: Model, ghost v1: map<int, int>, ghost reward: real, ghost draws: seq<Draw>)
      requires Valid()
      modifies this`q, this`model, this`tau, this`pastState, this`pastAction, this`position, this`stateVisits, this`rewards, this`done, this`nSteps, this`lastAction, this`lastState, rng
      ensures Valid()
      ensures steps == |moves| <= fuel + 1 && Walk(moves, startPosition, env.LatePortalActive())
      ensures finished ==> nSteps == old(nSteps) + [steps]
      ensures finished ==> !done && position == startPosition && lastAction == -1 && lastState == -1
      ensures finished && !old(done) ==>
        && Ends(moves[|moves| - 1], env.LatePortalActive()) && NoEarlierEnd(moves, env.LatePortalActive())
        && |rewards| == |old(rewards)| + 1 && rewards[..|old(rewards)|] == old(rewards)
        && rewards[|old(rewards)|] == Landing(moves[|moves| - 1].0, moves[|moves| - 1].1, env.LatePortalActive()).outcome.reward
        && reward == rewards[|old(rewards)|] as real
      ensures finished ==> AgentEnded(q1, m1, v1, pastState, pastAction, reward, draws, PlanningBonus(), q, model, stateVisits)
      ensures !finished ==> nSteps == old(nSteps) && !done && steps == fuel + 1
      ensures !finished ==> q == q1 && model == m1 && stateVisits == v1
      ensures !finished && !old(done) ==> forall i :: 0 <= i < |moves| ==> !Ends(moves[i], env.LatePortalActive())
    {
      ghost var live := !done;
      ghost var first := StartEpisode();
      finished, steps, moves, q1, m1, v1, reward, draws := PlayFrom(fuel, first, old(rewards), live);
    }

    /** play_episode after agent_start: the loop, then the end of the episode. */
    method PlayFrom(fuel: nat, ghost moves0: seq<(int, int)>, ghost r0: seq<int>, ghost live: bool)
      returns (finished: bool, steps: int, ghost moves: seq<(int, int)>,
               ghost q1: QTable, ghost m1: Model, ghost v1: map<int, int>, ghost reward: real, ghost draws: seq<Draw>)
      requires Valid() && Started()
      requires |moves0| == 1 && OnWalk(moves0, r0, live)
      modifies this`q, this`model, this`tau, this`pastState, this`pastAction, this`position, this`stateVisits, this`rewards, this`done, this`nSteps, this`lastAction, this`lastState, rng
      ensures Valid()
      ensures steps == |moves| <= fuel + 1 && Walk(moves, startPosition, env.LatePortalActive())
      ensures finished ==> nSteps == old(nSteps) + [steps]
      ensures finished ==> !done && position == startPosition && lastAction == -1 && lastState == -1
      ensures finished && live ==>
        && Ends(moves[|moves| - 1], env.LatePortalActive()) && NoEarlierEnd(moves, env.LatePortalActive())
        && |rewards| == |r0| + 1 && rewards[..|r0|] == r0
        && rewards[|r0|] == Landing(moves[|moves| - 1].0, moves[|moves| - 1].1, env.LatePortalActive()).outcome.reward
        && reward == rewards[|r0|] as real
      ensures finished ==> AgentEnded(q1, m1, v1, pastState, pastAction, reward, draws, PlanningBonus(), q, model, stateVisits)
      ensures !finished ==> nSteps == old(nSteps) && !done && steps == fuel + 1
      ensures !finished ==> q == q1 && model == m1 && stateVisits == v1
      ensures !finished && live ==> forall i :: 0 <= i < |moves| ==> !Ends(moves[i], env.LatePortalActive())
    {
      steps, moves := RunEpisode(fuel, moves0, r0, live);
      finished, q1, m1, v1, reward, draws := FinishEpisode(steps, moves, r0, live);
    }

    /** The end of play_episode once its loop has stopped: when the episode is done, the
        episode is closed. The walk played is the one that ended it. */
    method FinishEpisode(steps: int, ghost moves: seq<(int, int)>, ghost r0: seq<int>, ghost live: bool)
      returns (finished: bool, ghost q1: QTable, ghost m1: Model, ghost v1: map<int, int>, ghost reward: real,
               ghost draws: seq<Draw>)
      requires Valid() && Started() && OnWalk(moves, r0, live)
      modifies this`q, this`model, this`stateVisits, this`done, this`nSteps, this`position, this`lastAction, this`lastState, rng
      ensures Valid() && Walk(moves, startPosition, env.LatePortalActive())
      ensures finished == old(done)
      ensures q1 == old(q) && m1 == old(model) && v1 == old(stateVisits) && reward == old(RewardHere())
      ensures !finished ==> q == q1 && model == m1 && stateVisits == v1
      ensures finished ==> nSteps == old(nSteps) + [steps]
      ensures finished ==> !done && position == startPosition && lastAction == -1 && lastState == -1
      ensures finished && live ==>
        && Ends(moves[|moves| - 1], env.LatePortalActive()) && NoEarlierEnd(moves, env.LatePortalActive())
        && |rewards| == |r0| + 1 && rewards[..|r0|] == r0
        && rewards[|r0|] == Landing(moves[|moves| - 1].0, moves[|moves| - 1].1, env.LatePortalActive()).outcome.reward
        && reward == rewards[|r0|] as real
      ensures finished ==> AgentEnded(q1, m1, v1, pastState, pastAction, reward, draws, PlanningBonus(), q, model, stateVisits)
      ensures !finished ==> nSteps == old(nSteps) && !done
      ensures !finished && live ==> forall i :: 0 <= i < |moves| ==> !Ends(moves[i], env.LatePortalActive())
    {
      q1, m1, v1, reward := q, model, stateVisits, RewardHere();
      if !done {
        return false, q1, m1, v1, reward, [];
      }
      if live {
        EndingRewardHere(moves[|moves| - 1].0, moves[|moves| - 1].1);
      }
      draws := EndEpisode(steps);
      finished := true;
    }

    /** The end of play_episode before the reset: the step count is appended to n_steps and
        agent_end runs. */
    method CloseEpisode(steps: int) returns (ghost draws: seq<Draw>)
      requires Valid() && Started()
      modifies this`q, this`model, this`stateVisits, this`nSteps, rng
      ensures Valid()
      ensures nSteps == old(nSteps) + [steps]
      ensures AgentEnded(old(q), old(model), old(stateVisits), pastState, pastAction, old(RewardHere()),
                         draws, PlanningBonus(), q, model, stateVisits)
    {
      ghost var reward := RewardHere();
      nSteps := nSteps + [steps];
      assert reward == RewardHere();
      draws := AgentEnd();
    }

    /** The last lines of play_episode: the episode is closed and the agent reset for the
        next one. */
    method EndEpisode(steps: int) returns (ghost draws: seq<Draw>)
      requires Valid() && Started()
      modifies this`q, this`model, this`stateVisits, this`done, this`nSteps, this`position, this`lastAction, this`lastState, rng
      ensures Valid()
      ensures nSteps == old(nSteps) + [steps]
      ensures AgentEnded(old(q), old(model), old(stateVisits), pastState, pastAction, old(RewardHere()),
                         draws, PlanningBonus(), q, model, stateVisits)
      ensures !done && position == startPosition && lastAction == -1 && lastState == -1
    {
      ghost var n0 := nSteps;
      draws := CloseEpisode(steps);
      assert nSteps == n0 + [steps];
      Reset();
    }

    /** One turn of fit's loop: the late portal is switched on when 100 episodes have been
        played, then an episode is played and counted. `portalOpen` says whether the late portal
        was open during the episode. */
    method FitEpisode(fuel: nat) returns (ok: bool, ghost portalOpen: bool, ghost moves: seq<(int, int)>)
      requires Valid()
      modifies this`q, this`model, this`tau, this`pastState, this`pastAction, this`position, this`stateVisits, this`rewards, this`done, this`nSteps, this`lastAction, this`lastState, this`episodePlayed, rng, env, env.grid
      ensures Valid()
      ensures portalOpen <==> old(env.LatePortalActive()) || old(episodePlayed) == 100
      ensures env.LatePortalActive() == portalOpen
      ensures env.activations == old(env.activations) + (if old(episodePlayed) == 100 then 1 else 0)
      ensures episodePlayed == old(episodePlayed) + (if ok then 1 else 0)
      ensures ok ==> |nSteps| == |old(nSteps)| + 1
      ensures ok && !old(done) ==> !done && |rewards| == |old(rewards)| + 1
      ensures !ok ==> nSteps == old(nSteps) && !done && |moves| == fuel + 1
      ensures !ok && !old(done) ==> forall i :: 0 <= i < |moves| ==> !Ends(moves[i], env.LatePortalActive())
    {
      if episodePlayed == 100 {
        env.ActivateLatePortal();
      }
      portalOpen := env.LatePortalActive();
      ok, moves := PlayCounted(fuel);
    }

    /** The rest of a turn of fit's loop: an episode is played and, when it finished, counted in
        episode_played. An episode that did not finish made `fuel + 1` moves. */
    method PlayCounted(fuel: nat) returns (ok: bool, ghost moves: seq<(int, int)>)
      requires Valid()
      modifies this`q, this`model, this`tau, this`pastState, this`pastAction, this`position, this`stateVisits, this`rewards, this`done, this`nSteps, this`lastAction, this`lastState, this`episodePlayed, rng
      ensures Valid()
      ensures episodePlayed == old(episodePlayed) + (if ok then 1 else 0)
      ensures ok ==> |nSteps| == |old(nSteps)| + 1
      ensures ok && !old(done) ==> !done && |rewards| == |old(rewards)| + 1
      ensures !ok ==> nSteps == old(nSteps) && !done && |moves| == fuel + 1
      ensures !ok && !old(done) ==> forall i :: 0 <= i < |moves| ==> !Ends(moves[i], env.LatePortalActive())
    {
      var finished, _, played, _, _, _, _, _ := PlayEpisode(fuel);
      moves := played;
      ok := finished;
      episodePlayed := episodePlayed + if ok then 1 else 0;
    }

    /** fit: play `nEpisode` episodes, switching the late portal on just before the episode
        with index 100. `portalDuring[i]` records whether the late portal was open while
        episode i was played. When an episode runs out of fuel, fit stops there: that episode
        is the last of `portalDuring`, it is not counted, and `lastMoves` are its `fuel + 1`
        moves, none of which ended it. */
    method Fit(nEpisode: nat, fuel: nat) returns (finished: bool, ghost portalDuring: seq<bool>, ghost lastMoves: seq<(int, int)>)
      requires Valid()
      modifies this`q, this`model, this`tau, this`pastState, this`pastAction, this`position, this`stateVisits, this`rewards, this`done, this`nSteps, this`lastAction, this`lastState, this`episodePlayed, rng, env, env.grid
      ensures Valid()
      ensures finished ==> episodePlayed == nEpisode && |nSteps| == |old(nSteps)| + nEpisode
      ensures finished ==> |portalDuring| == nEpisode
      ensures forall i :: 0 <= i < |portalDuring| ==> (portalDuring[i] <==> old(env.LatePortalActive()) || i >= 100)
      ensures finished ==> env.activations == old(env.activations) + (if nEpisode > 100 then 1 else 0)
      ensures finished ==> (env.LatePortalActive() <==> old(env.LatePortalActive()) || nEpisode > 100)
      ensures finished && !old(done) ==> |rewards| == |old(rewards)| + nEpisode
      ensures !finished ==> 1 <= |portalDuring| <= nEpisode && episodePlayed == |portalDuring| - 1
      ensures !finished ==> |nSteps| == |old(nSteps)| + episodePlayed && |lastMoves| == fuel + 1
      ensures !finished && !old(done) ==> forall i :: 0 <= i < |lastMoves| ==> !Ends(lastMoves[i], env.LatePortalActive())
    {
      ghost var wasActive := env.LatePortalActive();
      portalDuring, lastMoves := [], [];
      episodePlayed := 0;
      for idx := 0 to nEpisode
        invariant Valid()
        invariant episodePlayed == idx == |portalDuring|
        invariant |nSteps| == |old(nSteps)| + idx
        invariant env.activations == old(env.activations) + (if idx > 100 then 1 else 0)
        invariant env.LatePortalActive() <==> wasActive || idx > 100
        invariant forall i :: 0 <= i < |portalDuring| ==> (portalDuring[i] <==> wasActive || i >= 100)
        invariant !old(done) ==> !done && |rewards| == |old(rewards)| + idx
      {
        var ok, open, moves := FitEpisode(fuel);
        portalDuring := portalDuring + [open];
        if !ok {
          return false, portalDuring, moves;
        }
      }
      finished := true;
    }
  }
}

# Grid-world reinforcement learning agents in Dafny

This project models the core of a small reinforcement-learning package. An agent learns to
cross a fixed 8 x 12 grid world from its start cell to a goal cell. The grid has walls, traps
that end the episode, portals that send the agent to the top-right corner, and a late portal
that opens after 100 episodes.

Three learners share one agent:

- Q-learning uses the one-step update of section 6.5 of Sutton and Barto, *Reinforcement
  Learning: An Introduction* (2nd ed.).
- Dyna-Q adds a learned transition model and planning updates replayed from it (section 8.2
  of the same book).
- Dyna-Q+ adds a staleness table `tau` and an exploration bonus `kappa * sqrt(tau)` on the
  replayed rewards.

The modules follow the package's files:

- `GridWorld` (`gridworld.dfy`): the environment of `package/env.py`, with the layout written
  by `generate_grid`, the reward map, `activate_late_portal` and `get_reward`.
- `States` (`states.dfy`): the state encoding `10 * x + y` of `package/agent.py` and the state
  tables built by its nested loops.
- `Movement` (`movement.dfy`) and `Greedy` (`greedy.dfy`): the movement rule of
  `update_coord` and the maximum and ties that `argmax` draws from, both as functions.
- `QLearning` (`qlearning.dfy`): the value-table updates of `package/q_learning_agent.py`.
- `DynaQModel` (`dynaq.dfy`) and `DynaQPlusModel` (`dynaqplus.dfy`): the model updates,
  `update_tau`, and the planning replay of `package/dyna_q_agent.py` and
  `package/dyna_q_plus_agent.py`, as functions on values.
- `Random` (`random.dfy`): the agent's random generator, promising only membership.
- `Agents` (`agent.dfy`): the agent as a class whose methods update its fields in place. Each
  method is proved against the functions above.

The three learner classes of the source form a subclass chain. Here they are one class
`Agents.Agent`, with a `Variant` fixed at construction. Each overriding method of the source
is a method of its own. `Step` and `AgentEnd` dispatch on the variant, as Python's method
lookup does inside `play_episode`.

The source's quirks are modelled as written:

- Every portal leads to (11, 0).
- Dyna-Q's `update_model` counts a visit only when the state is already in the model. When the
  counter is missing, its `except` branch also recreates the state's entry.
- The `else` of Dyna-Q+'s `update_model` belongs to its `for` loop, which never breaks. So
  every call, not only the first visit of a state, resets the other three actions to
  `(state, 0)`. The method's docstring describes a fill on the first visit only; the code
  is followed here.
- `update_coord` compares the position instead of assigning it, so the position is only set by
  `update_state`.

## Model

| member | source | states |
|---|---|---|
| GridWorld.PaintedIsLayout | package/env.py:7-23 | writing the coordinate table A, W, T, P, LP, G in order, the last write winning, produces the reference layout with the late portal dormant |
| GridWorld.GenerateGrid | package/env.py:18-23 | the grid is 8 x 12 and every cell holds the layout's content with the late portal dormant |
| GridWorld.GenerateRewardMap | package/env.py:29-32 | the reward map is 8 x 12, 1 at the goal (2, 9) and 0 everywhere else |
| GridWorld.Env.constructor | package/env.py:6-16 | a new environment is valid, its late portal is dormant, and every cell holds the layout's content |
| GridWorld.Env.ActivateLatePortal | package/env.py:25-27 | afterwards cell (1, 2) is a portal, every other cell is unchanged, and the grid is the layout with the late portal active |
| GridWorld.Env.GetReward | package/env.py:34-46 | the reward is 0 or 1, and it is 1 exactly at the goal; with `reverse` the (x, y) coordinates are swapped into (row, col) before the lookup |
| GridWorld.Env.GetRewardReverse | package/env.py:43-46 | a query with swapped coordinates and `reverse` gives the same reward as the direct (row, col) query |
| GridWorld.Env.RewardTestValues | tests/test_env.py:4-15 | the environment test's rewards: 1 at the goal's (row, col) and 0 at every other grid cell |
| GridWorld.LatePortalOnlyChangesOneCell | package/env.py:25-27 | switching on the late portal turns cell (1, 2) from 'LP' into 'P' and changes no other cell |
| States.StartStateValue | package/agent.py:20 | the start position, the reversed 'A' coordinate (6, 1) encoded, is state 16, a table key |
| States.CoordToState | package/agent.py:35-36 | an on-grid coordinate encodes to a table key whose tens digit is the column and whose units digit is the row |
| States.StateToCoord | package/agent.py:38-39 | a table key decodes to an on-grid coordinate that encodes back to it |
| States.CoordRoundTrip | package/agent.py:35-39 | decoding an encoded on-grid coordinate gives it back, and its encoding is a table key |
| States.StateRoundTrip | package/agent.py:35-39 | encoding a decoded table key gives it back: on the grid the encoding is a bijection |
| States.ValidStateOnGrid | package/agent.py:41-47 | the table keys are exactly the states whose decoded coordinate lies on the 8 x 12 grid |
| States.AllStatesAreTheStates | package/agent.py:41-47 | the keys in insertion order (columns outer, rows inner) are 96 strictly increasing states, exactly the table keys |
| States.InitStateDict | package/agent.py:49-55 | the nested loops give a table with exactly one entry per grid state, each holding the initial value |
| States.InitStateActionDict | package/agent.py:41-47 | the value table has exactly one entry per grid state, each the zero 4-vector |
| Movement.Resolve | package/agent.py:57-97 | a move stays put, reaches the neighbouring cell or lands on the teleport target (11, 0); it ends the episode only on reaching the neighbouring cell, which is then on the grid; from an on-grid cell it lands on the grid |
| Movement.NextState | package/agent.py:99-107 | moving from a table key gives a table key |
| Movement.BlockedMoveStays | package/agent.py:74-83 | a move off the grid or into a wall returns the original coordinate and ends nothing |
| Movement.PortalTeleports | package/agent.py:84-86 | entering any portal, the late one once active included, lands on (11, 0) (state 110) without ending the episode |
| Movement.TerminalExactlyAtTrapOrGoal | package/agent.py:87-94 | a move ends the episode if and only if it enters a trap or the goal, with reward 1 exactly at the goal and 0 at a trap; the agent then stands on that cell |
| Movement.TeleportTargetIsPortal | package/agent.py:84-86 | the teleport target (11, 0) is itself a portal cell on the grid |
| Movement.ResolveKeepsOccupiable | package/agent.py:57-97 | from a cell the agent can occupy, every move lands on one: on the grid, not a wall, and a portal only at (11, 0) |
| Movement.NextStateValid | package/agent.py:99-107 | moving from a table key always lands on a table key, so the visit counter it bumps exists |
| Movement.MovementTestMoves | tests/test_agent.py:44-56 | the movement test's moves at the bottom-left and top-right corners stay put, and its four free moves in the middle reach the expected neighbours |
| Movement.WallTestMoves | tests/test_agent.py:57-61 | the movement test's four moves into walls stay put |
| Movement.TerminalTestMoves | tests/test_agent.py:62-70 | the movement test's move onto the goal ends the episode with reward 1, its move into a trap with reward 0 |
| Movement.PortalTestMoves | tests/test_agent.py:151-161 | the portal test's moves into the portal from all four sides land on state 110 |
| Movement.EpisodeTestMoves | tests/test_agent.py:113-148 | the start/step/end test's moves reach the states it expects, and its final move reaches the goal and ends the episode with reward 1 |
| Movement.WalkSnoc | package/q_learning_agent.py:55-57 | a walk followed by a move from the state it reached is a longer walk |
| Movement.NoEarlierEndSnoc | package/q_learning_agent.py:55 | appending a move after a last move that did not end the episode keeps every move but the last non-ending |
| Movement.Emitted | package/agent.py:87-94 | a move appends exactly one reward when it ends the episode and none otherwise |
| Greedy.MaxOf | package/agent.py:114-115 | np.max: the result is an element of the vector and no element exceeds it |
| Greedy.IndicesOf | package/agent.py:114-115 | the positions holding the value, in increasing order as np.flatnonzero lists them: an index is listed exactly when it is in range and holds the value |
| Greedy.Ties | package/agent.py:109-115 | argmax's candidates are non-empty and are exactly the indices attaining the maximum |
| Greedy.TiesExample | tests/test_agent.py:17-25 | for the test vector [0, 2, 3, 4, 1, 2, 4, 4, 3, 4] the candidates are exactly 3, 6, 7 and 9 |
| QLearning.Updated | package/q_learning_agent.py:21-23 | the chosen value moves a step of size alpha towards the target (value + alpha * (target - value)); every other value, every key and every row length is unchanged |
| QLearning.DirectUpdate | package/q_learning_agent.py:21-23 | the previous pair moves a step of size alpha towards reward + gamma * max Q[next]; no other value changes, and the table keeps its keys, row lengths and shape |
| QLearning.TerminalUpdate | package/q_learning_agent.py:42-44 | the previous pair moves a step of size alpha towards the reward alone; no other value changes, and the table keeps its keys, row lengths and shape |
| QLearning.UpdatedKeepsTable | package/q_learning_agent.py:21-23 | an update keeps one 4-vector per grid state |
| QLearning.UpdatedMovesTowardTarget | package/q_learning_agent.py:21-23 | with a step size in [0, 1] the new value lies between the old value and the target |
| QLearning.UpdatedFullStep | package/q_learning_agent.py:42-44 | with step size 1 the estimate becomes the target |
| QLearning.TerminalIgnoresDiscount | package/q_learning_agent.py:42-44 | the terminal update is the bootstrapped update with discount 0, whatever the next state |
| QLearning.DirectUpdateKeepsZero | package/q_learning_agent.py:19-23 | on an all-zero table a zero-reward update leaves every value 0 |
| DynaQModel.Record | package/dyna_q_agent.py:21-26 | the model gains `s` if absent and records (next, reward) for (s, a); other states and other recorded actions of `s` are unchanged |
| DynaQModel.RecordKeepsModel | package/dyna_q_agent.py:16-26 | recording keeps every entry a grid state with recorded actions in 0..3 leading to a grid state or the terminal marker -1 |
| DynaQModel.RecordIdempotent | package/dyna_q_agent.py:21-22 | recording the same observation twice gives the model recorded once |
| DynaQModel.RecordKeepsRewardsZero | package/dyna_q_agent.py:21-22 | recording a zero reward keeps every recorded reward 0 |
| DynaQModel.RecordAll | package/dyna_q_agent.py:16-26 | update_model over a sequence of observations keeps every earlier state and has an entry for the state of every observation |
| DynaQModel.RecordAllEntries | package/dyna_q_agent.py:16-26 | from the empty model, (s, a) has an entry if and only if some observation took a in s, and no state is recorded without an action |
| DynaQModel.RecordAllStates | package/dyna_q_agent.py:16-26 | from the empty model, the model's states are exactly the states observations came from |
| DynaQModel.RecordAllLatest | package/dyna_q_agent.py:21-22 | every entry holds the outcome of the latest observation of its pair: later observations overwrite earlier ones |
| DynaQModel.UpdateModelTestModel | tests/test_agent.py:6-14 | three first visits give exactly the model the repository's update_model test expects |
| DynaQModel.PlanningTestModel | tests/test_agent.py:82-95 | the planning test's observations give its expected model: state 0 collects two actions, state 1 records the terminal marker |
| DynaQModel.StartStepTestModel | tests/test_agent.py:133-135 | the transitions of the start/step test's three steps give the model it expects |
| DynaQModel.RecordAllSnoc | package/dyna_q_agent.py:16-26 | one more observation is one more update_model on the model so far |
| DynaQModel.ReplayOne | package/dyna_q_agent.py:38-50 | one planning update keeps the table's shape and changes no value but that of the drawn pair |
| DynaQModel.ReplayOneTerminal | package/dyna_q_agent.py:41-44 | replaying a transition recorded with next state -1 is the terminal update with the recorded reward |
| DynaQModel.ReplayOneBootstrap | package/dyna_q_agent.py:46-50 | replaying any other transition is the bootstrapped update from its recorded next state, a table key |
| DynaQModel.Planned | package/dyna_q_agent.py:32-50 | the planned table keeps one 4-vector per grid state |
| DynaQModel.PlannedSnoc | package/dyna_q_agent.py:32-50 | one more draw is one more replay update applied to the table planned so far |
| DynaQModel.PlannedTouchesOnlyDraws | package/dyna_q_agent.py:32-50 | planning leaves the value of every pair it never drew unchanged |
| DynaQModel.ReplayOneKeepsZero | package/dyna_q_agent.py:38-50 | on an all-zero table and a model of zero rewards, a replay without bonus leaves every value 0 |
| DynaQModel.PlannedKeepsZero | package/dyna_q_agent.py:32-50 | on an all-zero table and a model of zero rewards, planning with no bonus on the drawn pairs leaves every value 0 |
| DynaQModel.LearningKeepsZero | package/dyna_q_agent.py:56-63 | a Dyna-Q step with reward 0 on an all-zero table and zero-reward model (direct update, recording, planning) leaves every value 0: values stay 0 until the goal is reached, as the repository's start/step test checks after three steps |
| DynaQModel.ModelStates | package/dyna_q_agent.py:34 | the list planning draws a state from holds exactly the model's states |
| DynaQModel.ModelStatesNonEmpty | package/dyna_q_agent.py:34 | after a model update the state list is non-empty, so the draw is defined |
| DynaQModel.RecordedActions | package/dyna_q_agent.py:36-37 | the list planning draws an action from holds exactly the actions recorded for the state |
| DynaQModel.RecordedActionsNonEmpty | package/dyna_q_agent.py:36-37 | every recorded state has an action to draw |
| DynaQPlusModel.StaleActions | package/dyna_q_plus_agent.py:34-36 | the loop's placeholders cover exactly the actions below the bound other than the one taken, each (s, 0) |
| DynaQPlusModel.PlusRecord | package/dyna_q_plus_agent.py:32-38 | the model gains `s` and holds (next, reward) for the action taken and (s, 0) for the other three actions, on every call; other states are unchanged |
| DynaQPlusModel.PlusRecordFourActions | package/dyna_q_plus_agent.py:32-38 | afterwards the state's entry holds exactly the four actions and does not depend on what it held before |
| DynaQPlusModel.PlusRecordKeepsModel | package/dyna_q_plus_agent.py:25-38 | recording keeps the model well formed |
| DynaQPlusModel.PlusRecordForgets | package/dyna_q_plus_agent.py:34-38 | taking another action in the same state later resets the outcome recorded for the first one to (s, 0) |
| DynaQPlusModel.PlusRecordAgreesWithRecord | package/dyna_q_plus_agent.py:25-38 | the Dyna-Q+ and Dyna-Q updates give the same states, the same entry for the pair taken and the same entries for every other state |
| DynaQPlusModel.Incremented | package/dyna_q_plus_agent.py:42 | `tau[key] += 1` adds one to every entry of the row and keeps its length |
| DynaQPlusModel.TauAfter | package/dyna_q_plus_agent.py:40-43 | update_tau resets the chosen pair to 0 and adds one to every other entry, keeping the keys and row lengths |
| DynaQPlusModel.TauAfterKeepsTable | package/dyna_q_plus_agent.py:40-43 | update_tau keeps one non-negative 4-vector per grid state |
| DynaQPlusModel.TauAfterAll | package/dyna_q_plus_agent.py:40-43 | a run of update_tau calls keeps the staleness table well formed |
| DynaQPlusModel.TauCountsStaleness | package/dyna_q_plus_agent.py:6-11 | from the all-zero table, tau[s][a] equals the number of choices since (s, a) was last chosen, or all of them if it never was |
| DynaQPlusModel.StalenessBonus | package/dyna_q_plus_agent.py:60 | the bonus of a table pair is kappa * sqrt(tau[s][a]) |
| DynaQPlusModel.FreshPairHasNoBonus | package/dyna_q_plus_agent.py:40-43 | with sqrt(0) = 0, the pair just chosen carries no bonus after update_tau |
| DynaQPlusModel.PlannedBonusOnDraws | package/dyna_q_plus_agent.py:51-71 | planning depends on the bonus only through the drawn pairs: two bonuses agreeing on them plan identically |
| DynaQPlusModel.ZeroKappaIsDynaQ | package/dyna_q_plus_agent.py:45-71 | with kappa = 0 Dyna-Q+ planning is exactly Dyna-Q planning |
| Random.Rng.Rand | package/agent.py:123 | rand() returns a sample in [0, 1) |
| Random.Rng.Choice | package/agent.py:124 | choice returns an element of the non-empty list it is given |
| Agents.Bump | package/agent.py:106 | `visits[s] += 1` adds one to the counter of `s` and changes no other counter |
| Agents.RecordVisit | package/dyna_q_agent.py:21-26 | update_model's visit count bumps the counter exactly when the state is already in the model and has a counter, and changes nothing otherwise |
| Agents.Replay | package/dyna_q_agent.py:32-50 | the planning loop draws `n` recorded pairs and returns the table the replay updates produce for exactly those draws, in order |
| Agents.Agent.RewardHere | package/q_learning_agent.py:38-40 | the reward at the agent's position is 1 exactly when it stands on the goal |
| Agents.Agent.constructor | package/agent.py:6-27 | a new agent stands on state 16 with all values 0, all counters 0, all staleness 0, an empty model, no rewards and a dormant late portal |
| Agents.Agent.Reset | package/agent.py:29-33 | reset puts the agent back on the start state, clears `done` and sets the last action and state to -1, keeping the tables |
| Agents.Agent.UpdateCoord | package/agent.py:57-97 | the move returns the destination of the movement rule, appends its reward and raises `done` exactly when it ends the episode |
| Agents.Agent.UpdateState | package/agent.py:99-107 | the agent stands on the state the movement rule gives, whose counter gains one visit, and the move's reward and `done` are recorded |
| Agents.Agent.Argmax | package/agent.py:109-115 | the index returned is in range and attains the maximum |
| Agents.Agent.EpsilonGreedy | package/agent.py:117-129 | the action is in 0..3, it is greedy when the random branch was not taken, and with epsilon <= 0 the random branch is never taken |
| Agents.Agent.MoveStaysOnTable | package/agent.py:99-107 | a move from a table key lands on a key of the visit counters |
| Agents.Agent.DirectRLUpdate | package/q_learning_agent.py:20-23 | the previous pair is updated towards reward + gamma * max Q[state] |
| Agents.Agent.TakeAction | package/q_learning_agent.py:26-30 | the move is made, its visit counted, and (state, action) becomes the previous pair |
| Agents.Agent.AgentStart | package/agent.py:131-140 | agent_start makes an epsilon-greedy move from `state` (greedy when epsilon <= 0), which becomes the previous pair |
| Agents.Agent.QLearningStep | package/q_learning_agent.py:19-32 | Q-learning's step is the bootstrapped update of the previous pair, then an epsilon-greedy move |
| Agents.Agent.TerminalRLUpdate | package/q_learning_agent.py:38-44 | agent_end's update moves the previous pair towards the reward at the position, without a bootstrap term |
| Agents.Agent.CountVisit | package/q_learning_agent.py:46 | one more visit of the previous state is counted |
| Agents.Agent.QLearningEnd | package/q_learning_agent.py:34-46 | Q-learning's agent_end is the terminal update plus one visit of the previous state |
| Agents.Agent.DynaQUpdateModel | package/dyna_q_agent.py:16-26 | the try/except of update_model: the model becomes Record's result and a visit is counted as RecordVisit says, except that a model state without a counter has its entry recreated |
| Agents.Agent.DynaQPlusUpdateModel | package/dyna_q_plus_agent.py:25-38 | the loop with its `else` leaves exactly PlusRecord's model |
| Agents.Agent.UpdateModel | package/dyna_q_agent.py:61 | the agent's own update_model runs: PlusRecord for Dyna-Q+, Record and RecordVisit for Dyna-Q |
| Agents.Agent.UpdateTau | package/dyna_q_plus_agent.py:40-43 | the key-by-key loop leaves exactly TauAfter's table |
| Agents.Agent.DynaQPlanningStep | package/dyna_q_agent.py:28-50 | planning replays PlanningSteps() pairs drawn from the model, without bonus |
| Agents.Agent.DynaQPlusPlanningStep | package/dyna_q_plus_agent.py:45-71 | planning replays PlanningSteps() pairs drawn from the model with the staleness bonus of the current tau |
| Agents.Agent.DynaQLearn | package/dyna_q_agent.py:56-63 | the direct update, then the model update, then planning on the updated table with the updated model |
| Agents.Agent.DynaQStep | package/dyna_q_agent.py:52-71 | Dyna-Q's step: DynaQLearn, then an epsilon-greedy move that becomes the previous pair; with epsilon <= 0 the action is greedy on the planned values |
| Agents.Agent.DynaQPlusLearn | package/dyna_q_plus_agent.py:79-86 | the direct update, the Dyna-Q+ model update and planning with the bonus of the current tau; the visit counters are unchanged |
| Agents.Agent.DynaQPlusAct | package/dyna_q_plus_agent.py:87-93 | an epsilon-greedy choice (greedy when epsilon <= 0), update_tau for it, then the move |
| Agents.Agent.DynaQPlusStep | package/dyna_q_plus_agent.py:73-95 | Dyna-Q+'s step: learning with the bonus of tau before update_tau, then update_tau for the chosen action (greedy on the planned values when epsilon <= 0), then the move |
| Agents.Agent.RecordTerminal | package/dyna_q_agent.py:84-86 | the transition is recorded with next state -1 through the agent's own update_model, then one more visit of the previous state is counted |
| Agents.Agent.DynaQEnd | package/dyna_q_agent.py:73-88 | Dyna-Q's agent_end, inherited by Dyna-Q+: the terminal update, the terminal transition recorded, a visit counted, then the agent's own planning |
| Agents.Agent.Step | package/q_learning_agent.py:55-57 | the step of the agent's class runs: the move made becomes the previous pair |
| Agents.Agent.AgentEnd | package/q_learning_agent.py:60 | the agent_end of the agent's class runs: for Q-learning the terminal update and one more visit of the previous state, the model unchanged; for the Dyna variants the terminal update, the terminal transition recorded through the variant's update_model with its visit counting, one more visit, then planning on the recorded model with the variant's bonus |
| Agents.Agent.LandedKeepsEpisode | package/q_learning_agent.py:55-58 | a move made while the episode runs leaves no reward unless it ends the episode, and then exactly one, 0 or 1 |
| Agents.Agent.EpisodeStep | package/q_learning_agent.py:55-58 | one turn of the episode loop: a step from the position with the reward found there, extending the walk by one move from the state reached; while the episode runs, `done` is raised exactly by the move that ends it |
| Agents.Agent.StartEpisode | package/q_learning_agent.py:53-54 | agent_start from the start state makes the walk's first move |
| Agents.Agent.RunEpisode | package/q_learning_agent.py:55-58 | the loop keeps the walk and the reward record in step with the moves made, the last move being the previous pair; the step count is the number of moves, and the loop stops only when the episode is done or the fuel is spent (`fuel + 1` moves) |
| Agents.Agent.FinishEpisode | package/q_learning_agent.py:59-61 | when the loop stopped on a finished episode the episode is closed: its last move ended it, no earlier one did, exactly one reward was appended and it is the reward that last move emitted (1 exactly when it reached the goal), which is also the reward agent_end found at the position; q, the model and the visit counters are then what agent_end (AgentEnded) makes of their values when the loop stopped, for the previous pair, which is the last move; an unfinished episode changes none of them |
| Agents.Agent.PlayFrom | package/q_learning_agent.py:54-61 | play_episode after agent_start: the loop and the end of the episode, with PlayEpisode's guarantees stated for the reward record `r0` the episode began with |
| Agents.Agent.EndingRewardHere | package/q_learning_agent.py:59-60 | after a move that ended the episode, the reward agent_end reads at the position (get_reward with its coordinates swapped) is the reward that move emitted: 1 on the goal, 0 on a trap |
| Agents.Agent.PlayEpisode | package/q_learning_agent.py:48-61 | the episode's moves form a walk from the start state under the movement rule and the step count is their number; a finished episode appends it to n_steps, leaves q, the model and the visit counters as agent_end (AgentEnded) makes them from the values `q1`, `m1`, `v1` the loop left, for the last move as previous pair, and leaves the agent reset; begun with `done` false, the episode ended exactly with its last move and appended one reward, the one that move emitted, which agent_end also used; an unfinished episode spent its fuel (`fuel + 1` moves, none ending it when begun with `done` false) and recorded nothing |
| Agents.Agent.CloseEpisode | package/q_learning_agent.py:59-60 | the step count is appended and agent_end of the agent's class runs, with the effects AgentEnd states |
| Agents.Agent.EndEpisode | package/q_learning_agent.py:59-61 | the step count is appended, agent_end of the agent's class runs with the effects AgentEnd states (AgentEnded on the reward at the final position), and the agent is reset on the start state |
| Agents.Agent.FitEpisode | package/q_learning_agent.py:73-78 | one turn of fit's loop: the late portal is switched on exactly when 100 episodes have been played, then one episode is played; episode_played grows by one exactly when it finished; an unfinished episode records no step count and made `fuel + 1` moves, none ending it when begun with `done` false |
| Agents.Agent.PlayCounted | package/q_learning_agent.py:75-78 | an episode is played; episode_played grows by one exactly when it finished, and then one step count and (begun with `done` false) one reward are recorded; otherwise no step count is recorded and the episode made `fuel + 1` moves, none ending it when begun with `done` false |
| Agents.Agent.Fit | package/q_learning_agent.py:63-80 | after n episodes, n step counts and (from a fresh episode state) n rewards are recorded; episode i was played with the late portal open exactly when i >= 100 (or it was open already), and it was switched on exactly once if more than 100 episodes were played; when an episode runs out of fuel, fit stops after it: the episodes before it are counted and recorded, and it made `fuel + 1` moves, none of which (from a fresh episode state) ended it |

## Left out

- Plotting, the matrix views of the tables (`state_dict_to_matrix`), the per-episode
  `value_estimates` and `paths` records of `fit`, progress bars, `main.py` and
  `package/plots.py`: they are presentation only.
- The Mersenne Twister of numpy's `RandomState(seed=17)`: `Random.Rng` is a linear
  congruential stand-in. Only the properties the agent relies on are promised, so the exact
  action sequences of the repository's tests are not reproduced.
- `float32` storage of the values and rewards: values are `real`. `np.sqrt` is a parameter
  (`Variant.DynaQPlus.sqrt`); only `sqrt(0) = 0` is assumed, where a lemma needs it.
- `float32` staleness counts: `tau` is filled with the `float32` zeros of
  `init_state_action_dict` (package/agent.py:41-47, package/dyna_q_plus_agent.py:23), so its
  `+= 1` stops changing a count once it reaches 2^24. The model counts with unbounded `int`.
- The `n_states` attribute and the agent names are never read by the core.
- `update_tau` iterates the keys in the dictionary's order; `Agents.Agent.UpdateTau` takes them
  in an unspecified order, which cannot change the result. `ModelStates` lists the model's
  states in the order of the grid's keys, not the order of first insertion.
- The source creates `past_state` and `past_action` in `agent_start`; here they exist from
  construction with -1, and the methods that read them require a started agent.
- The model and `tau` exist for every variant, not only for the subclasses that create them.
- `Agents.Agent.PlayEpisode`: the source's episode loop need not end. Here it runs at most
  `fuel` steps and reports whether the episode finished.
- `Agents.Agent.Fit`: it stops at the first episode that runs out of fuel, where the source would
  loop forever. Its rewards claim is stated only when no episode was running at the start.
- `Agents.Agent.Step`: the dispatcher states the move and the new previous pair; the value and
  model updates are stated by the three step methods it calls.
- `Agents.Agent.UpdateTau` requires the chosen action to be in 0..3, as epsilon_greedy
  guarantees; numpy would index from the end for a negative action.
- The planning loop is the module-level method `Agents.Replay`, working on the value table as
  a value. The agent's methods assign its result back to the table.
- Dyna-Q's `agent_end` is the method for both Dyna variants. For Dyna-Q+ it calls Dyna-Q+'s
  `update_model` and `planning_step`, as the source's method lookup does.
- `Agents.Agent.EpsilonGreedy` and `Agents.Agent.Argmax`: the probabilities of the branches
  and the uniformity of the draws are not stated, only which values a draw can take.
- The numeric value tables the planning and start/step/end tests expect depend on the exact
  random draws and on `float32` rounding. They are not reproduced; the models those tests
  expect are stated (`DynaQModel.PlanningTestModel`, `DynaQModel.StartStepTestModel`).

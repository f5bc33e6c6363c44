/** The Dyna-Q+ additions of package/dyna_q_plus_agent.py (section 8.3 of Sutton and Barto):
    the overriding update_model, the staleness table tau and the exploration bonus that
    planning adds to the recorded rewards. */
module DynaQPlusModel {
  import opened States
  import opened QLearning
  import opened DynaQModel

  /** The placeholder entries update_model writes for the actions in [0, upTo) other than the
      one taken: a self-loop with reward 0. */
  function StaleActions(s: int, a: int, upTo: int): (r: map<int, (int, real)>)
    ensures forall b :: b in r <==> 0 <= b < upTo && b != a
    ensures forall b :: b in r ==> r[b] == (s, 0.0)
    decreases upTo
  {
    if upTo <= 0 then map[]
    else if upTo - 1 == a then StaleActions(s, a, upTo - 1)
    else StaleActions(s, a, upTo - 1)[upTo - 1 := (s, 0.0)]
  }

  /** One more turn of update_model's loop over the actions: a placeholder for action `b` unless
      it is the action taken. */
  lemma StaleActionsStep(base: map<int, (int, real)>, s: int, a: int, b: nat)
    ensures b != a ==> base + StaleActions(s, a, b + 1) == (base + StaleActions(s, a, b))[b := (s, 0.0)]
    ensures b == a ==> base + StaleActions(s, a, b + 1) == base + StaleActions(s, a, b)
  {
  }

  /** update_model of Dyna-Q+. The `else` of its loop belongs to the `for`, which never breaks,
      so every call (not only the first visit of `s`) resets the other actions to
      (s, 0) and records (next, reward) for the action taken. */
  function PlusRecord(m: Model, s: int, a: int, next: int, reward: real): (m': Model)
    ensures m'.Keys == m.Keys + {s}
    ensures forall t :: t in m && t != s ==> m'[t] == m[t]
    ensures a in m'[s] && m'[s][a] == (next, reward)
    ensures forall b :: 0 <= b < 4 && b != a ==> b in m'[s] && m'[s][b] == (s, 0.0)
    ensures forall b :: b in m'[s] && b != a && !(0 <= b < 4) ==> s in m && b in m[s] && m'[s][b] == m[s][b]
  {
    var base := if s in m then m[s] else map[a := (next, reward)];
    m[s := (base + StaleActions(s, a, 4))[a := (next, reward)]]
  }

  /** For an action in 0..3, the entry of `s` afterwards holds exactly the four actions, and
      what the model held for `s` before is forgotten. */
  lemma {:induction false} PlusRecordFourActions(m: Model, s: int, a: int, next: int, reward: real)
    requires ModelOk(m) && 0 <= a < 4
    ensures PlusRecord(m, s, a, next, reward)[s].Keys == {0, 1, 2, 3}
    ensures PlusRecord(m, s, a, next, reward)[s] == PlusRecord(map[], s, a, next, reward)[s]
  {
    var m1 := PlusRecord(m, s, a, next, reward);
    var m2 := PlusRecord(map[], s, a, next, reward);
    forall b | b in m1[s] ensures 0 <= b < 4 {
    }
    forall b | b in m2[s] ensures 0 <= b < 4 {
    }
    assert m1[s].Keys == {0, 1, 2, 3};
    assert m2[s].Keys == {0, 1, 2, 3};
  }

  /** Recording keeps a well-formed model well-formed. */
  lemma {:induction false} PlusRecordKeepsModel(m: Model, s: int, a: int, next: int, reward: real)
    requires ModelOk(m) && ValidState(s) && 0 <= a < 4
    requires ValidState(next) || next == TerminalState
    ensures ModelOk(PlusRecord(m, s, a, next, reward))
  {
    var m1 := PlusRecord(m, s, a, next, reward);
    PlusRecordFourActions(m, s, a, next, reward);
    forall t | t in m1 ensures m1[t] != map[] {
      if t == s {
        assert a in m1[t];
      }
    }
  }

  /** Taking a different action in the same state afterwards erases the outcome recorded for
      the first one: it becomes the placeholder (s, 0) again. */
  lemma PlusRecordForgets(m: Model, s: int, a: int, next: int, reward: real, b: int, next': int, reward': real)
    requires 0 <= a < 4 && 0 <= b < 4 && a != b
    ensures PlusRecord(m, s, a, next, reward)[s][a] == (next, reward)
    ensures PlusRecord(PlusRecord(m, s, a, next, reward), s, b, next', reward')[s][a] == (s, 0.0)
  {
  }

  /** Dyna-Q keeps every earlier outcome of the state, Dyna-Q+ keeps none but the last: both
      agree on the action just taken and on every other state. */
  lemma {:induction false} PlusRecordAgreesWithRecord(m: Model, s: int, a: int, next: int, reward: real)
    ensures PlusRecord(m, s, a, next, reward).Keys == Record(m, s, a, next, reward).Keys
    ensures PlusRecord(m, s, a, next, reward)[s][a] == Record(m, s, a, next, reward)[s][a]
    ensures forall t :: t in m && t != s ==> PlusRecord(m, s, a, next, reward)[t] == Record(m, s, a, next, reward)[t]
  {
  }

  /** tau[s][a]: the number of update_tau calls since (s, a) was last chosen. */
  type Tau = map<int, seq<int>>

  ghost predicate TauOk(t: Tau) {
    StateTable(t) && forall s :: s in t ==> |t[s]| == 4 && forall b :: 0 <= b < 4 ==> t[s][b] >= 0
  }

  /** `tau[key] += 1` on one row. */
  function Incremented(v: seq<int>): (r: seq<int>)
    ensures |r| == |v|
    ensures forall i :: 0 <= i < |v| ==> r[i] == v[i] + 1
  {
    seq(|v|, i requires 0 <= i < |v| => v[i] + 1)
  }

  /** update_tau: every entry goes up by one, then the entry of the chosen pair is reset. */
  function TauAfter(t: Tau, s: int, a: int): (t': Tau)
    requires s in t && 0 <= a < |t[s]|
    ensures t'.Keys == t.Keys
    ensures forall u :: u in t ==> |t'[u]| == |t[u]|
    ensures t'[s][a] == 0
    ensures forall u, b :: u in t && 0 <= b < |t[u]| && (u, b) != (s, a) ==> t'[u][b] == t[u][b] + 1
  {
    var bumped := map u | u in t :: Incremented(t[u]);
    bumped[s := bumped[s][a := 0]]
  }

  /** A table that agrees with update_tau row by row is the table update_tau produces. */
  lemma TauAfterFromRows(t: Tau, t': Tau, s: int, a: int)
    requires s in t && 0 <= a < |t[s]|
    requires t'.Keys == t.Keys
    requires forall u :: u in t && u != s ==> t'[u] == Incremented(t[u])
    requires t'[s] == Incremented(t[s])[a := 0]
    ensures t' == TauAfter(t, s, a)
  {
    var r := TauAfter(t, s, a);
    forall u | u in t ensures t'[u] == r[u] {
      if u == s {
        assert t'[u] == r[u];
      } else {
        assert t'[u] == r[u];
      }
    }
  }

  /** update_tau keeps the table's shape, and its entries stay non-negative. */
  lemma TauAfterKeepsTable(t: Tau, s: int, a: int)
    requires TauOk(t) && s in t && 0 <= a < 4
    ensures TauOk(TauAfter(t, s, a))
  {
  }

  /** The table after update_tau for each chosen pair in turn. */
  function TauAfterAll(t: Tau, chosen: seq<Draw>): Tau
    requires TauOk(t)
    requires forall i :: 0 <= i < |chosen| ==> chosen[i].0 in t && 0 <= chosen[i].1 < 4
    ensures TauOk(TauAfterAll(t, chosen))
    decreases |chosen|
  {
    if chosen == [] then t
    else
      var last := chosen[|chosen| - 1];
      var before := TauAfterAll(t, chosen[..|chosen| - 1]);
      TauAfterKeepsTable(before, last.0, last.1);
      TauAfter(before, last.0, last.1)
  }

  /** The number of choices after the last occurrence of `p`, or all of them if `p` was never
      chosen. */
  function Since(chosen: seq<Draw>, p: Draw): (n: nat)
    ensures n <= |chosen|
    decreases |chosen|
  {
    if chosen == [] then 0
    else if chosen[|chosen| - 1] == p then 0
    else Since(chosen[..|chosen| - 1], p) + 1
  }

  /** Starting from the all-zero table of the constructor, tau[s][a] counts the time steps
      since (s, a) was last taken: the quantity the Dyna-Q+ bonus is built from. */
  lemma {:induction false} TauCountsStaleness(t: Tau, chosen: seq<Draw>, s: int, a: int)
    requires TauOk(t) && forall u, b :: u in t && 0 <= b < 4 ==> t[u][b] == 0
    requires forall i :: 0 <= i < |chosen| ==> chosen[i].0 in t && 0 <= chosen[i].1 < 4
    requires s in t && 0 <= a < 4
    ensures TauAfterAll(t, chosen)[s][a] == Since(chosen, (s, a))
    decreases |chosen|
  {
    if chosen != [] {
      var init := chosen[..|chosen| - 1];
      assert forall i :: 0 <= i < |init| ==> init[i] == chosen[i];
      TauCountsStaleness(t, init, s, a);
    }
  }

  /** The Dyna-Q+ bonus kappa * sqrt(tau[s][a]) for the table `t`; `sqrt` stands for np.sqrt. */
  function StalenessBonus(kappa: real, sqrt: int -> real, t: Tau): (bonus: (int, int) -> real)
    ensures forall s, a :: s in t && 0 <= a < |t[s]| ==> bonus(s, a) == kappa * sqrt(t[s][a])
  {
    (s: int, a: int) => if s in t && 0 <= a < |t[s]| then kappa * sqrt(t[s][a]) else 0.0
  }

  /** The pair just taken carries no bonus after update_tau, as sqrt(0) = 0. */
  lemma FreshPairHasNoBonus(kappa: real, sqrt: int -> real, t: Tau, s: int, a: int)
    requires sqrt(0) == 0.0
    requires s in t && 0 <= a < |t[s]|
    ensures StalenessBonus(kappa, sqrt, TauAfter(t, s, a))(s, a) == 0.0
  {
  }

  /** Planning only looks at the bonus of the pairs it draws. */
  lemma {:induction false} PlannedBonusOnDraws(q: QTable, m: Model, draws: seq<Draw>, bonus: (int, int) -> real, bonus': (int, int) -> real, alpha: real, gamma: real)
    requires QTableOk(q) && ModelOk(m) && Drawn(draws, m)
    requires forall i :: 0 <= i < |draws| ==> bonus(draws[i].0, draws[i].1) == bonus'(draws[i].0, draws[i].1)
    ensures Planned(q, m, draws, bonus, alpha, gamma) == Planned(q, m, draws, bonus', alpha, gamma)
    decreases |draws|
  {
    if draws != [] {
      var init := draws[..|draws| - 1];
      assert forall i :: 0 <= i < |init| ==> init[i] == draws[i];
      PlannedBonusOnDraws(q, m, init, bonus, bonus', alpha, gamma);
    }
  }

  /** With kappa = 0 (or sqrt = 0 on the drawn staleness), Dyna-Q+ planning is Dyna-Q planning. */
  lemma {:induction false} ZeroKappaIsDynaQ(q: QTable, m: Model, draws: seq<Draw>, sqrt: int -> real, t: Tau, alpha: real, gamma: real)
    requires QTableOk(q) && ModelOk(m) && Drawn(draws, m) && TauOk(t)
    requires forall i :: 0 <= i < |draws| ==> draws[i].0 in t
    ensures Planned(q, m, draws, StalenessBonus(0.0, sqrt, t), alpha, gamma) == Planned(q, m, draws, NoBonus, alpha, gamma)
  {
    var bonus := StalenessBonus(0.0, sqrt, t);
    forall i | 0 <= i < |draws| ensures bonus(draws[i].0, draws[i].1) == NoBonus(draws[i].0, draws[i].1) {
      var s, a := draws[i].0, draws[i].1;
      assert bonus(s, a) == 0.0;
    }
    PlannedBonusOnDraws(q, m, draws, bonus, NoBonus, alpha, gamma);
  }
}

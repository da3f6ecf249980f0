/**
 TabularQTrainer of src/verifierlab/attacks/rl.py over real numbers: how large a Q-value
 can get, what repeating one transition learns, and what freezing stops.
 */
module TabularQ {
  import opened Prelude

  /** A dict of action values in insertion order, without repeated keys. */
  type ActionValues = seq<(string, real)>

  type Table = map<string, ActionValues>

  datatype Transition = Transition(state: string, action: string, reward: real, next: string)

  /** An action of the trainer's list: its dict and the key its values are filed under. */
  datatype Action = Action(dict: string, key: string)

  const NOOP := Action("op=noop", "noop:")

  /** What initialize reads of its configuration; an empty list stands for a missing one. */
  datatype Config = Config(
    alpha: Option<real>, gamma: Option<real>, epsilon: Option<real>, ops: seq<string>, amounts: seq<int>)

  function OpsOf(c: Config): seq<string> {
    if c.ops == [] then ["noop", "refund"] else c.ops
  }

  function AmountsOf(c: Config): seq<int> {
    if c.amounts == [] then [0, 50, 100, 120, 200] else c.amounts
  }

  /** One operation with one amount; `show` prints integers. */
  function Priced(show: int -> string, op: string, amount: int): Action {
    Action("op=" + op + ",amount=" + show(amount), op + ":" + show(amount))
  }

  function ActionsFor(show: int -> string, op: string, amounts: seq<int>): seq<Action> {
    if op == "noop" then [NOOP] else seq(|amounts|, i requires 0 <= i < |amounts| => Priced(show, op, amounts[i]))
  }

  function ActionsOf(show: int -> string, ops: seq<string>, amounts: seq<int>): seq<Action> {
    if ops == [] then []
    else ActionsOf(show, ops[..|ops| - 1], amounts) + ActionsFor(show, ops[|ops| - 1], amounts)
  }

  /** So initialize always finds an action, and its last resort is never taken. */
  lemma SomeAction(show: int -> string, c: Config)
    ensures ActionsOf(show, OpsOf(c), AmountsOf(c)) != []
  {
    var ops := OpsOf(c);
    assert ActionsFor(show, ops[|ops| - 1], AmountsOf(c)) != [];
  }

  // ---------------------------------------------------------------- dict operations

  function ValueOf(row: ActionValues, action: string): real {
    if row == [] then 0.0 else if row[0].0 == action then row[0].1 else ValueOf(row[1..], action)
  }

  function WithValue(row: ActionValues, action: string, v: real): ActionValues {
    if row == [] then [(action, v)]
    else if row[0].0 == action then [(action, v)] + row[1..]
    else [row[0]] + WithValue(row[1..], action, v)
  }

  function RowOf(q: Table, state: string): ActionValues {
    if state in q then q[state] else []
  }

  function Larger(a: real, c: real): real {
    if c > a then c else a
  }

  /** max of the values, or 0 where there are none. */
  function MaxValue(row: ActionValues): (m: real)
    ensures row == [] ==> m == 0.0
    ensures row != [] ==> exists i :: 0 <= i < |row| && row[i].1 == m
    ensures forall i :: 0 <= i < |row| ==> row[i].1 <= m
  {
    if row == [] then 0.0
    else if |row| == 1 then row[0].1
    else
      assert row == row[..|row| - 1] + [row[|row| - 1]];
      Larger(MaxValue(row[..|row| - 1]), row[|row| - 1].1)
  }

  /** The first key with the largest value. */
  function BestKey(row: ActionValues): (k: string)
    requires row != []
    ensures exists i :: 0 <= i < |row| && row[i].0 == k && row[i].1 == MaxValue(row)
  {
    if |row| == 1 then row[0].0
    else
      var front := row[..|row| - 1];
      assert row == front + [row[|row| - 1]];
      if row[|row| - 1].1 > MaxValue(front) then row[|row| - 1].0 else BestKey(front)
  }

  /** The first listed action filed under a key. */
  function WithKey(actions: seq<Action>, key: string, otherwise: Action): (a: Action)
    ensures a == otherwise || (a in actions && a.key == key)
    ensures (exists x :: x in actions && x.key == key) ==> a in actions && a.key == key
  {
    if actions == [] then otherwise
    else if actions[0].key == key then actions[0]
    else
      assert forall x :: x in actions ==> x == actions[0] || x in actions[1..];
      WithKey(actions[1..], key, otherwise)
  }

  // ---------------------------------------------------------------- learning

  function Target(gamma: real, reward: real, nextMax: real): real {
    reward + gamma * nextMax
  }

  function Blend(alpha: real, old_: real, target: real): real {
    old_ + alpha * (target - old_)
  }

  function Updated(alpha: real, gamma: real, q: Table, t: Transition): Table {
    var q0 := if t.state in q then q else q[t.state := []];
    var row := q0[t.state];
    var v := Blend(alpha, ValueOf(row, t.action), Target(gamma, t.reward, MaxValue(RowOf(q0, t.next))));
    q0[t.state := WithValue(row, t.action, v)]
  }

  function Learned(alpha: real, gamma: real, q: Table, ts: seq<Transition>): Table
    decreases |ts|
  {
    if ts == [] then q else Learned(alpha, gamma, Updated(alpha, gamma, q, ts[0]), ts[1..])
  }

  // ---------------------------------------------------------------- the bound

  predicate Within(v: real, bound: real) {
    -bound <= v <= bound
  }

  ghost predicate RowWithin(row: ActionValues, bound: real) {
    forall i :: 0 <= i < |row| ==> Within(row[i].1, bound)
  }

  ghost predicate TableWithin(q: Table, bound: real) {
    forall s :: s in q ==> RowWithin(q[s], bound)
  }

  lemma {:induction false} ValueWithin(row: ActionValues, action: string, bound: real)
    requires RowWithin(row, bound) && bound >= 0.0
    ensures Within(ValueOf(row, action), bound)
  {
    if row != [] && row[0].0 != action {
      assert forall i :: 0 <= i < |row[1..]| ==> row[1..][i] == row[i + 1];
      ValueWithin(row[1..], action, bound);
    }
  }

  lemma {:induction false} WithValueWithin(row: ActionValues, action: string, v: real, bound: real)
    requires RowWithin(row, bound) && Within(v, bound)
    ensures RowWithin(WithValue(row, action, v), bound)
  {
    if row != [] && row[0].0 != action {
      assert forall i :: 0 <= i < |row[1..]| ==> row[1..][i] == row[i + 1];
      WithValueWithin(row[1..], action, v, bound);
    }
  }

  lemma ScaledWithin(c: real, v: real, bound: real)
    requires 0.0 <= c && Within(v, bound)
    ensures Within(c * v, c * bound)
  {
    assert c * (bound - v) >= 0.0 && c * (v + bound) >= 0.0;
  }

  /** A weighted mean of two values within a bound is within it. */
  lemma BlendWithin(alpha: real, old_: real, target: real, bound: real)
    requires 0.0 <= alpha <= 1.0 && Within(old_, bound) && Within(target, bound)
    ensures Within(Blend(alpha, old_, target), bound)
  {
    var keep := 1.0 - alpha;
    ScaledWithin(alpha, target, bound);
    ScaledWithin(keep, old_, bound);
    SumWithin(keep * old_, keep * bound, alpha * target, alpha * bound);
    BlendIsMean(alpha, old_, target);
    BlendIsMean(alpha, bound, bound);
    BlendOfSame(alpha, bound);
  }

  lemma BlendOfSame(alpha: real, a: real)
    ensures Blend(alpha, a, a) == a
  {
    assert a - a == 0.0;
  }

  lemma SumWithin(x: real, p: real, y: real, r: real)
    requires Within(x, p) && Within(y, r)
    ensures Within(x + y, p + r)
  {
  }

  lemma BlendIsMean(alpha: real, a: real, c: real)
    ensures Blend(alpha, a, c) == (1.0 - alpha) * a + alpha * c
  {
    assert alpha * (c - a) == alpha * c - alpha * a;
    assert (1.0 - alpha) * a == a - alpha * a;
  }

  /** The bound R / (1 - gamma) is the fixed point of R + gamma * bound. */
  lemma TargetWithin(gamma: real, reward: real, nextMax: real, limit: real, bound: real)
    requires 0.0 <= gamma < 1.0 && Within(reward, limit) && Within(nextMax, bound) && bound * (1.0 - gamma) == limit
    ensures Within(Target(gamma, reward, nextMax), bound)
  {
    ScaledWithin(gamma, nextMax, bound);
    assert bound * (1.0 - gamma) == bound - gamma * bound;
  }

  lemma UpdatedWithin(alpha: real, gamma: real, q: Table, t: Transition, limit: real, bound: real)
    requires 0.0 <= alpha <= 1.0 && 0.0 <= gamma < 1.0 && Within(t.reward, limit)
    requires bound >= 0.0 && bound * (1.0 - gamma) == limit && TableWithin(q, bound)
    ensures TableWithin(Updated(alpha, gamma, q, t), bound)
  {
    var q0 := if t.state in q then q else q[t.state := []];
    var row, next := q0[t.state], RowOf(q0, t.next);
    ValueWithin(row, t.action, bound);
    assert RowWithin(next, bound);
    TargetWithin(gamma, t.reward, MaxValue(next), limit, bound);
    BlendWithin(alpha, ValueOf(row, t.action), Target(gamma, t.reward, MaxValue(next)), bound);
    WithValueWithin(row, t.action, Blend(alpha, ValueOf(row, t.action), Target(gamma, t.reward, MaxValue(next))), bound);
  }

  /** Rewards within R keep every Q-value within R / (1 - gamma), over any training. */
  lemma {:induction false} LearnedWithin(alpha: real, gamma: real, q: Table, ts: seq<Transition>, limit: real)
    requires 0.0 <= alpha <= 1.0 && 0.0 <= gamma < 1.0 && limit >= 0.0
    requires forall t :: t in ts ==> Within(t.reward, limit)
    requires TableWithin(q, limit / (1.0 - gamma))
    ensures TableWithin(Learned(alpha, gamma, q, ts), limit / (1.0 - gamma))
    decreases |ts|
  {
    if ts != [] {
      Quotient(limit, 1.0 - gamma);
      assert ts[0] in ts;
      UpdatedWithin(alpha, gamma, q, ts[0], limit, limit / (1.0 - gamma));
      LearnedWithin(alpha, gamma, Updated(alpha, gamma, q, ts[0]), ts[1..], limit);
    }
  }

  lemma Quotient(a: real, c: real)
    requires a >= 0.0 && c > 0.0
    ensures a / c >= 0.0 && a / c * c == a
  {
  }

  // ---------------------------------------------------------------- one transition, many times

  function Power(x: real, k: nat): real {
    if k == 0 then 1.0 else x * Power(x, k - 1)
  }

  lemma {:induction false} ValueAfterSet(row: ActionValues, action: string, v: real)
    ensures ValueOf(WithValue(row, action, v), action) == v
  {
    if row != [] && row[0].0 != action {
      ValueAfterSet(row[1..], action, v);
      assert WithValue(row, action, v)[1..] == WithValue(row[1..], action, v);
    }
  }

  function Repeated(t: Transition, k: nat): seq<Transition> {
    if k == 0 then [] else Repeated(t, k - 1) + [t]
  }

  lemma {:induction false} LearnedAppend(alpha: real, gamma: real, q: Table, ts: seq<Transition>, t: Transition)
    ensures Learned(alpha, gamma, q, ts + [t]) == Updated(alpha, gamma, Learned(alpha, gamma, q, ts), t)
    decreases |ts|
  {
    if ts == [] {
      assert [] + [t] == [t];
      assert Learned(alpha, gamma, Updated(alpha, gamma, q, t), [t][1..]) == Updated(alpha, gamma, q, t);
    } else {
      assert (ts + [t])[1..] == ts[1..] + [t];
      LearnedAppend(alpha, gamma, Updated(alpha, gamma, q, ts[0]), ts[1..], t);
    }
  }

  function Closed(r: real, p: real): real {
    r * (1.0 - p)
  }

  lemma NoRepetition(alpha: real, gamma: real, q: Table, t: Transition)
    requires Reached(q, t, 0.0)
    ensures Reached(Learned(alpha, gamma, q, Repeated(t, 0)), t, Closed(t.reward, Power(1.0 - alpha, 0)))
  {
    assert Closed(t.reward, 1.0) == 0.0;
  }

  /** After k repetitions: the value learned, and a next state still without values. */
  ghost predicate Reached(q: Table, t: Transition, v: real) {
    ValueOf(RowOf(q, t.state), t.action) == v && RowOf(q, t.next) == []
  }

  lemma NextRepetition(alpha: real, gamma: real, q: Table, t: Transition, k: nat)
    requires k > 0 && t.next != t.state
    requires Reached(Learned(alpha, gamma, q, Repeated(t, k - 1)), t, Closed(t.reward, Power(1.0 - alpha, k - 1)))
    ensures Reached(Learned(alpha, gamma, q, Repeated(t, k)), t, Closed(t.reward, Power(1.0 - alpha, k)))
  {
    LearnedAppend(alpha, gamma, q, Repeated(t, k - 1), t);
    RepetitionStep(alpha, gamma, Learned(alpha, gamma, q, Repeated(t, k - 1)), t, Power(1.0 - alpha, k - 1),
                   Power(1.0 - alpha, k));
  }

  /** Starting from a value of zero, with a next state that is another one and has no
      values, k repetitions learn exactly r * (1 - (1 - alpha)^k). */
  lemma {:induction false} RepetitionLearns(alpha: real, gamma: real, q: Table, t: Transition, k: nat)
    requires t.next != t.state && Reached(q, t, 0.0)
    ensures Reached(Learned(alpha, gamma, q, Repeated(t, k)), t, Closed(t.reward, Power(1.0 - alpha, k)))
  {
    if k == 0 {
      NoRepetition(alpha, gamma, q, t);
    } else {
      RepetitionLearns(alpha, gamma, q, t, k - 1);
      NextRepetition(alpha, gamma, q, t, k);
    }
  }

  lemma OneRepetition(alpha: real, gamma: real, q: Table, t: Transition)
    requires t.next != t.state && RowOf(q, t.next) == []
    ensures var after := Updated(alpha, gamma, q, t);
      && ValueOf(RowOf(after, t.state), t.action) == Blend(alpha, ValueOf(RowOf(q, t.state), t.action), t.reward)
      && RowOf(after, t.next) == []
  {
    var row := RowOf(q, t.state);
    ValueAfterSet(row, t.action, Blend(alpha, ValueOf(row, t.action), Target(gamma, t.reward, 0.0)));
  }

  lemma RepetitionStep(alpha: real, gamma: real, q: Table, t: Transition, p: real, next: real)
    requires t.next != t.state && RowOf(q, t.next) == [] && next == (1.0 - alpha) * p
    requires ValueOf(RowOf(q, t.state), t.action) == Closed(t.reward, p)
    ensures Reached(Updated(alpha, gamma, q, t), t, Closed(t.reward, next))
  {
    OneRepetition(alpha, gamma, q, t);
    GeometricStep(alpha, t.reward, p);
  }

  lemma GeometricStep(alpha: real, r: real, p: real)
    ensures Blend(alpha, r * (1.0 - p), r) == r * (1.0 - (1.0 - alpha) * p)
  {
    assert r - r * (1.0 - p) == r * p;
    assert alpha * (r * p) == r * (alpha * p);
    assert (1.0 - alpha) * p == p - alpha * p;
  }

  // ---------------------------------------------------------------- freezing

  datatype State = State(
    q: Table, actions: seq<Action>, alpha: real, gamma: real, epsilon: real, frozen: bool)

  /** A checkpoint; the generator's state in it is not modelled. */
  datatype Saved = Saved(
    q: Table, actions: seq<Action>, alpha: Option<real>, gamma: Option<real>, epsilon: Option<real>, frozen: bool)

  datatype Call =
    | InitializeCall(config: Config, show: int -> string)
    | TrainCall(t: Transition)
    | RestoreCall(saved: Saved)
    | FreezeCall
    | CloseCall

  function Or<T>(x: Option<T>, otherwise: T): T {
    if x.Some? then x.value else otherwise
  }

  /** What a call leaves behind. `initialize` sets parameters and actions and thaws, but
      keeps the table; training a frozen trainer raises and changes nothing. */
  function Called(s: State, call: Call): State {
    match call
    case InitializeCall(c, show) =>
      State(s.q, ActionsOf(show, OpsOf(c), AmountsOf(c)), Or(c.alpha, 0.3), Or(c.gamma, 0.9), Or(c.epsilon, 0.2), false)
    case TrainCall(t) => if s.frozen then s else s.(q := Updated(s.alpha, s.gamma, s.q, t))
    case RestoreCall(c) =>
      State(c.q, if c.actions == [] then s.actions else c.actions,
            Or(c.alpha, s.alpha), Or(c.gamma, s.gamma), Or(c.epsilon, s.epsilon), c.frozen)
    case FreezeCall => s.(frozen := true, epsilon := 0.0)
    case CloseCall => s.(q := map[], frozen := false)
  }

  function After(s: State, calls: seq<Call>): State
    decreases |calls|
  {
    if calls == [] then s else After(Called(s, calls[0]), calls[1..])
  }

  lemma {:induction false} AfterAppend(s: State, calls: seq<Call>, call: Call)
    ensures After(s, calls + [call]) == Called(After(s, calls), call)
    decreases |calls|
  {
    if calls == [] {
      assert [] + [call] == [call];
      assert After(Called(s, call), [call][1..]) == Called(s, call);
    } else {
      assert (calls + [call])[1..] == calls[1..] + [call];
      AfterAppend(Called(s, calls[0]), calls[1..], call);
    }
  }

  lemma AfterNext(s: State, calls: seq<Call>, i: nat)
    requires i < |calls|
    ensures After(s, calls[..i + 1]) == Called(After(s, calls[..i]), calls[i])
  {
    assert calls[..i + 1] == calls[..i] + [calls[i]];
    AfterAppend(s, calls[..i], calls[i]);
  }

  /** The calls a frozen table q survives: not a close, not an initialize, and of the
      restores only those of a frozen checkpoint of that very table. */
  predicate Keeps(q: Table, call: Call) {
    match call
    case InitializeCall(_, _) => false
    case TrainCall(_) => true
    case RestoreCall(c) => c.frozen && c.q == q
    case FreezeCall => true
    case CloseCall => false
  }

  ghost predicate FrozenAt(s: State, q: Table) {
    s.frozen && s.q == q
  }

  lemma {:induction false} KeptTable(s: State, calls: seq<Call>, i: nat)
    requires s.frozen && i <= |calls|
    requires forall j :: 0 <= j < i ==> Keeps(s.q, calls[j])
    ensures FrozenAt(After(s, calls[..i]), s.q)
  {
    if i == 0 {
      assert calls[..0] == [];
    } else {
      KeptTable(s, calls, i - 1);
      AfterNext(s, calls, i - 1);
    }
  }

  /** From a freeze on, the trainer stays frozen at its table throughout a run of calls
      exactly when every call of the run is one the table survives. */
  lemma FreezeHoldsExactly(s: State, calls: seq<Call>)
    requires s.frozen
    ensures (forall i :: 0 <= i <= |calls| ==> FrozenAt(After(s, calls[..i]), s.q)) <==>
            (forall i :: 0 <= i < |calls| ==> Keeps(s.q, calls[i]))
  {
    if forall i :: 0 <= i < |calls| ==> Keeps(s.q, calls[i]) {
      forall i | 0 <= i <= |calls|
        ensures FrozenAt(After(s, calls[..i]), s.q)
      {
        KeptTable(s, calls, i);
      }
    } else {
      var k :| 0 <= k < |calls| && !Keeps(s.q, calls[k]);
      AfterNext(s, calls, k);
      assert !(FrozenAt(After(s, calls[..k]), s.q) && FrozenAt(After(s, calls[..k + 1]), s.q));
    }
  }

  /** No table has a row for every state. */
  lemma {:induction false} UnknownState(states: set<string>, n: nat) returns (state: string)
    ensures state !in states && |state| >= n
    decreases |states|
  {
    state := seq(n, i => 'a');
    if state in states {
      state := UnknownState(states - {state}, n + 1);
    }
  }

  /** The flag is what protects the table: training leaves it alone, whatever the
      transition, exactly when the trainer is frozen. */
  lemma TrainingRefusedExactly(s: State)
    ensures (forall t: Transition :: Called(s, TrainCall(t)).q == s.q) <==> s.frozen
  {
    if !s.frozen {
      var state := UnknownState(s.q.Keys, 0);
      var t := Transition(state, "", 0.0, state);
      assert state in Called(s, TrainCall(t)).q;
    }
  }

  // ---------------------------------------------------------------- the trainer

  class TabularQTrainer {
    var q: Table
    var actions: seq<Action>
    var alpha: real
    var gamma: real
    var epsilon: real
    var frozen: bool

    constructor ()
      ensures q == map[] && actions == [] && alpha == 0.3 && gamma == 0.9 && epsilon == 0.2 && !frozen
    {
      q, actions, frozen := map[], [], false;
      alpha, gamma, epsilon := 0.3, 0.9, 0.2;
    }

    function Now(): State
      reads this
    {
      State(q, actions, alpha, gamma, epsilon, frozen)
    }

    method Initialize(config: Config, show: int -> string)
      modifies `frozen, `alpha, `gamma, `epsilon, `actions
      ensures Now() == Called(old(Now()), InitializeCall(config, show))
      ensures actions != []
    {
      frozen := false;
      alpha := if config.alpha.Some? then config.alpha.value else 0.3;
      gamma := if config.gamma.Some? then config.gamma.value else 0.9;
      epsilon := if config.epsilon.Some? then config.epsilon.value else 0.2;
      var ops := if config.ops == [] then ["noop", "refund"] else config.ops;
      var amounts := if config.amounts == [] then [0, 50, 100, 120, 200] else config.amounts;
      ListActions(ops, amounts, show);
      if actions == [] {
        actions := [NOOP];
      }
      SomeAction(show, config);
    }

    /** Every operation with every amount, noop alone. */
    method ListActions(ops: seq<string>, amounts: seq<int>, show: int -> string)
      modifies `actions
      ensures actions == ActionsOf(show, ops, amounts)
    {
      actions := [];
      for i := 0 to |ops|
        invariant actions == ActionsOf(show, ops[..i], amounts)
      {
        assert ops[..i + 1][..i] == ops[..i];
        if ops[i] == "noop" {
          actions := actions + [NOOP];
        } else {
          ghost var before := actions;
          for j := 0 to |amounts|
            invariant actions == before + ActionsFor(show, ops[i], amounts)[..j]
          {
            actions := actions + [Priced(show, ops[i], amounts[j])];
          }
          assert ActionsFor(show, ops[i], amounts)[..|amounts|] == ActionsFor(show, ops[i], amounts);
        }
      }
      assert ops[..|ops|] == ops;
    }

    /** Restoring it into any trainer brings back this one's table, parameters and flag,
        and its actions if it has any. */
    method Checkpoint() returns (saved: Saved)
      ensures forall s: State :: var w := Called(s, RestoreCall(saved));
        w == Now().(actions := w.actions) && w.actions == (if actions == [] then s.actions else actions)
    {
      saved := Saved(q, actions, Some(alpha), Some(gamma), Some(epsilon), frozen);
    }

    method Restore(saved: Saved)
      modifies this
      ensures Now() == Called(old(Now()), RestoreCall(saved))
    {
      q := saved.q;
      if saved.actions != [] {
        actions := saved.actions;
      }
      if saved.alpha.Some? {
        alpha := saved.alpha.value;
      }
      if saved.gamma.Some? {
        gamma := saved.gamma.value;
      }
      if saved.epsilon.Some? {
        epsilon := saved.epsilon.value;
      }
      frozen := saved.frozen;
    }

    /** False stands for the RuntimeError of a frozen trainer. */
    method Train(t: Transition) returns (ok: bool)
      modifies `q
      ensures ok <==> !frozen
      ensures Now() == Called(old(Now()), TrainCall(t))
    {
      if frozen {
        return false;
      }
      if t.state !in q {
        q := q[t.state := []];
      }
      var before := ValueOf(q[t.state], t.action);
      var nextMax := if t.next in q && q[t.next] != [] then MaxValue(q[t.next]) else 0.0;
      var target := Target(gamma, t.reward, nextMax);
      assert nextMax == MaxValue(RowOf(q, t.next));
      assert before + alpha * (target - before) == Blend(alpha, before, target);
      assert q == if t.state in old(q) then old(q) else old(q)[t.state := []];
      q := q[t.state := WithValue(q[t.state], t.action, before + alpha * (target - before))];
      return true;
    }

    method Freeze()
      modifies `frozen, `epsilon
      ensures Now() == Called(old(Now()), FreezeCall)
    {
      frozen := true;
      epsilon := 0.0;
    }

    method Close()
      modifies `q, `frozen
      ensures Now() == Called(old(Now()), CloseCall)
    {
      q := map[];
      frozen := false;
    }

    /** The first listed action with the best known key, else the first action. */
    method Evaluate(state: string) returns (action: Action)
      ensures var row := RowOf(q, state);
        var first := if actions == [] then NOOP else actions[0];
        action == if row == [] then first else WithKey(actions, BestKey(row), first)
    {
      var first := if actions == [] then NOOP else actions[0];
      if state !in q || q[state] == [] {
        return first;
      }
      var best := BestKey(q[state]);
      action := Search(best, first);
    }

    method Search(key: string, otherwise: Action) returns (action: Action)
      ensures action == WithKey(actions, key, otherwise)
    {
      for i := 0 to |actions|
        invariant WithKey(actions, key, otherwise) == WithKey(actions[i..], key, otherwise)
      {
        if actions[i].key == key {
          return actions[i];
        }
        assert actions[i..][1..] == actions[i + 1..];
      }
      return otherwise;
    }

    /** The generator's draws come in as `explore` and `drawn`, an index into the actions;
        a frozen trainer uses neither. None stands for the exception of choosing from no
        actions, or of taking the best of a row without values. */
    method Act(state: string, explore: bool, drawn: nat) returns (action: Option<Action>)
      requires actions != [] ==> drawn < |actions|
      ensures var row := RowOf(q, state);
        if frozen then
          var first := if actions == [] then NOOP else actions[0];
          action == Some(if row == [] then first else WithKey(actions, BestKey(row), first))
        else if explore || state !in q then
          action == if actions == [] then None else Some(actions[drawn])
        else if row == [] then action == None
        else
          action == if actions == [] then None else Some(WithKey(actions, BestKey(row), actions[drawn]))
    {
      if frozen {
        var greedy := Evaluate(state);
        return Some(greedy);
      }
      if explore || state !in q {
        return if actions == [] then None else Some(actions[drawn]);
      }
      if q[state] == [] || actions == [] {
        return None;
      }
      var chosen := Search(BestKey(q[state]), actions[drawn]);
      return Some(chosen);
    }
  }
}

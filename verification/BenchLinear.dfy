/** The linear baseline: one pass over the catalog, every applicable action taken, no branching. */
module BenchLinear {
  import opened Wrappers
  import opened BenchModel
  import opened BenchAudit
  import opened BenchCharges

  /** What the pass selects when the budget never interferes, and the state it ends in. */
  datatype Pass = Pass(tokens: seq<Token>, state: State)

  function Scan(ch: Challenge, actions: seq<Action>, s: State): Pass
    decreases |actions|
  {
    if actions == [] then Pass([], s)
    else if !Applicable(actions[0], s) then Scan(ch, actions[1..], s)
    else
      var t := Apply(actions[0], s);
      if GoalReached(ch, t) then Pass([actions[0].token], t)
      else
        var rest := Scan(ch, actions[1..], t);
        Pass([actions[0].token] + rest.tokens, rest.state)
  }

  function PlanKey(s: State, t: Token): OpKey { OpKey(PLAN, [OfState(s), OfToken(t)]) }
  function ExecuteKey(t: Token): OpKey { OpKey(ACTION, [OfToken(t)]) }
  function WorldKey(t: Token): OpKey { OpKey(WORLD, [OfToken(t)]) }

  function LastPart(k: OpKey): Part { if k.parts == [] then OfToken(0) else k.parts[|k.parts| - 1] }

  /** Every operation key names, as its last part, the token of one of the first `i` actions. */
  ghost predicate KeysFrom(ch: Challenge, es: seq<Event>, i: nat)
    requires i <= |ch.actions|
  {
    forall k :: KeyUsed(es, k) ==> exists j :: 0 <= j < i && LastPart(k) == OfToken(ch.actions[j].token)
  }

  lemma KeysExtend(ch: Challenge, es: seq<Event>, more: seq<Event>, i: nat)
    requires i < |ch.actions| && KeysFrom(ch, es, i)
    requires forall k :: KeyUsed(more, k) ==> KeyUsed(es, k) || LastPart(k) == OfToken(ch.actions[i].token)
    ensures KeysFrom(ch, more, i + 1)
  {
    forall k | KeyUsed(more, k) ensures exists j :: 0 <= j < i + 1 && LastPart(k) == OfToken(ch.actions[j].token) {
      if KeyUsed(es, k) {
        var j :| 0 <= j < i && LastPart(k) == OfToken(ch.actions[j].token);
      } else {
        assert LastPart(k) == OfToken(ch.actions[i].token);
      }
    }
  }

  function TotalCost(actions: seq<Action>, i: nat): nat
    requires i <= |actions|
  {
    if i == 0 then 0 else TotalCost(actions, i - 1) + actions[i - 1].cost
  }

  /** What considering the first `i` actions can cost at most. */
  predicate Thrifty(ch: Challenge, u: Usage, i: nat)
    requires i <= |ch.actions|
  {
    u.action <= TotalCost(ch.actions, i) && u.world <= i && u.latency <= TotalCost(ch.actions, i) + 3 * i
  }

  /** A budget that pays for the whole catalog. */
  predicate Enough(ch: Challenge, budget: Limits) {
    var n := |ch.actions|;
    budget.action >= TotalCost(ch.actions, n) && budget.world >= n && budget.latency >= TotalCost(ch.actions, n) + 3 * n
  }

  lemma {:induction false} CostsGrow(actions: seq<Action>, i: nat, j: nat)
    requires i <= j <= |actions|
    ensures TotalCost(actions, i) <= TotalCost(actions, j)
    decreases j
  {
    if i < j { CostsGrow(actions, i, j - 1); }
  }

  /** A refusal means that the budget does not pay for the whole catalog. */
  lemma RefusalIsTight(ch: Challenge, budget: Limits, u: Usage, i: nat, x: Exhaustion, planned: bool)
    requires Priced(ch) && i < |ch.actions| && x.token == ch.actions[i].token
    requires ExhaustionHolds(ch, x, u, budget, true)
    requires if planned then x.kind != PlanAttempt && u.latency >= 1 && Thrifty(ch, u.(latency := u.latency - 1), i)
             else x.kind == PlanAttempt && Thrifty(ch, u, i)
    ensures !Enough(ch, budget)
  {
    FindFinds(ch.actions, ch.actions[i]);
    CostsGrow(ch.actions, i + 1, |ch.actions|);
  }

  /** The pass after the first `i` actions: sound ledger, fresh keys ahead, and a chain that
      replays to the state and was charged token by token. */
  ghost predicate Taken(ch: Challenge, budget: Limits, l: Ledger, selected: seq<Token>, s: State, i: nat)
    requires i <= |ch.actions|
  {
    && Sound(ch, true, l) && l.limits == budget && KeysFrom(ch, l.events, i)
    && Replay(ch, ch.initial, selected) == Some(s) && NoRepeats(selected)
    && (forall t :: t in selected <==> t in Executed(l.events))
    && (forall t :: t in selected ==> exists j :: 0 <= j < i && ch.actions[j].token == t)
    && Thrifty(ch, UsageOf(l.events), i) && GoalOnlyAtEnd(ch, selected)
  }

  ghost predicate Passing(ch: Challenge, budget: Limits, l: Ledger, selected: seq<Token>, s: State, i: nat)
    requires i <= |ch.actions|
  {
    Taken(ch, budget, l, selected, s, i) && !GoalReached(ch, s)
  }

  lemma TokenIsNew(ch: Challenge, budget: Limits, l: Ledger, selected: seq<Token>, s: State, i: nat)
    requires Priced(ch) && i < |ch.actions| && Passing(ch, budget, l, selected, s, i)
    ensures ch.actions[i].token !in selected
  {
  }

  /** What a finished linear run is. */
  ghost predicate LinearRun(ch: Challenge, budget: Limits, run: SystemRun) {
    && ValidLedger(run.ledger) && run.ledger.limits == budget && run.anchored
    && NoRepeats(run.submission) && GoalOnlyAtEnd(ch, run.submission)
    && Replay(ch, ch.initial, run.submission).Some?
    && (run.stop == GoalReachedStop <==> GoalReached(ch, Replay(ch, ch.initial, run.submission).value))
    && run.stop in {GoalReachedStop, NoProgress, BudgetExhausted}
    && (run.stop == BudgetExhausted <==> run.exhaustion.Some?)
    && (run.exhaustion.None? ==> run.submission == Scan(ch, ch.actions, ch.initial).tokens)
    && (Enough(ch, budget) ==> run.exhaustion.None?)
    && (Auditable(ch, run, budget, true) <==> run.submission != [] || run.stop == BudgetExhausted)
  }

  lemma FinishedRun(ch: Challenge, budget: Limits, l: Ledger, selected: seq<Token>, s: State, stop: Stop, x: Option<Exhaustion>)
    requires Sound(ch, true, l) && l.limits == budget
    requires Replay(ch, ch.initial, selected) == Some(s) && NoRepeats(selected) && GoalOnlyAtEnd(ch, selected)
    requires forall t :: t in selected <==> t in Executed(l.events)
    requires stop in {GoalReachedStop, NoProgress, BudgetExhausted} && (stop == GoalReachedStop <==> GoalReached(ch, s))
    requires (stop == BudgetExhausted <==> x.Some?) && (x.Some? ==> ExhaustionHolds(ch, x.value, UsageOf(l.events), budget, true))
    requires x.None? ==> selected == Scan(ch, ch.actions, ch.initial).tokens
    requires x.Some? ==> !Enough(ch, budget)
    ensures LinearRun(ch, budget, SystemRun(selected, l, true, stop, x))
  {
    LoopAcceptsSentences(ch, true, l.events);
    if selected != [] { assert selected[0] in Executed(l.events); }
    if Executed(l.events) != {} {
      var t :| t in Executed(l.events);
      assert t in selected;
    }
  }

  /** The remaining pass from here, glued to what has been selected, is the whole pass. */
  ghost predicate OnPass(ch: Challenge, selected: seq<Token>, s: State, i: nat)
    requires i <= |ch.actions|
  {
    Scan(ch, ch.actions, ch.initial).tokens == selected + Scan(ch, ch.actions[i..], s).tokens
  }

  lemma PassContinues(ch: Challenge, selected: seq<Token>, s: State, i: nat)
    requires i < |ch.actions| && OnPass(ch, selected, s, i)
    ensures var a := ch.actions[i];
            && (!Applicable(a, s) ==> OnPass(ch, selected, s, i + 1))
            && (Applicable(a, s) && !GoalReached(ch, Apply(a, s)) ==> OnPass(ch, selected + [a.token], Apply(a, s), i + 1))
            && (Applicable(a, s) && GoalReached(ch, Apply(a, s)) ==>
                  Scan(ch, ch.actions, ch.initial).tokens == selected + [a.token])
  {
    var a := ch.actions[i];
    assert ch.actions[i..][0] == a && ch.actions[i..][1..] == ch.actions[i + 1..];
    if Applicable(a, s) && !GoalReached(ch, Apply(a, s)) {
      var rest := Scan(ch, ch.actions[i + 1..], Apply(a, s)).tokens;
      assert selected + ([a.token] + rest) == (selected + [a.token]) + rest;
    }
  }

  lemma PassingAfterPlan(ch: Challenge, budget: Limits, l: Ledger, selected: seq<Token>, s: State, i: nat, m: Ledger)
    requires i < |ch.actions| && Passing(ch, budget, l, selected, s, i)
    requires PlanMeans(ch, true, l, PlanKey(s, ch.actions[i].token), ch.actions[i], Charged(m))
    ensures KeysFrom(ch, m.events, i + 1)
    ensures Passing(ch, budget, m, selected, s, i + 1)
    ensures forall k :: KeyUsed(m.events, k) && k.prefix != PLAN ==> KeyUsed(l.events, k)
  {
    KeysExtend(ch, l.events, m.events, i);
  }

  /** The state and selection after considering the action at `i`, if nothing is refused. */
  function NextState(ch: Challenge, s: State, i: nat): State
    requires i < |ch.actions|
  {
    if Applicable(ch.actions[i], s) then Apply(ch.actions[i], s) else s
  }

  function NextSelected(ch: Challenge, selected: seq<Token>, s: State, i: nat): seq<Token>
    requires i < |ch.actions|
  {
    if Applicable(ch.actions[i], s) then selected + [ch.actions[i].token] else selected
  }

  lemma RefusedRun(ch: Challenge, budget: Limits, l: Ledger, selected: seq<Token>, s: State, i: nat, x: Exhaustion)
    requires i <= |ch.actions| && Passing(ch, budget, l, selected, s, i)
    requires ExhaustionHolds(ch, x, UsageOf(l.events), budget, true) && !Enough(ch, budget)
    ensures LinearRun(ch, budget, SystemRun(selected, l, true, BudgetExhausted, Some(x)))
  {
    FinishedRun(ch, budget, l, selected, s, BudgetExhausted, Some(x));
  }

  /** The plan of action `i` has been charged and nothing else since. */
  ghost predicate JustPlanned(ch: Challenge, budget: Limits, l: Ledger, selected: seq<Token>, s: State, i: nat)
    requires i < |ch.actions|
  {
    var t := ch.actions[i].token;
    && Passing(ch, budget, l, selected, s, i + 1) && t in Planned(l.events) && t !in selected
    && !KeyUsed(l.events, ExecuteKey(t)) && !KeyUsed(l.events, WorldKey(t))
    && UsageOf(l.events).latency >= 1
    && Thrifty(ch, UsageOf(l.events).(latency := UsageOf(l.events).latency - 1), i)
  }

  lemma PlanLeadsOn(ch: Challenge, budget: Limits, l: Ledger, selected: seq<Token>, s: State, i: nat, m: Ledger)
    requires Priced(ch) && i < |ch.actions| && Passing(ch, budget, l, selected, s, i)
    requires PlanMeans(ch, true, l, PlanKey(s, ch.actions[i].token), ch.actions[i], Charged(m))
    ensures JustPlanned(ch, budget, m, selected, s, i)
  {
    PassingAfterPlan(ch, budget, l, selected, s, i, m);
    TokenIsNew(ch, budget, l, selected, s, i);
  }

  lemma TakeLeadsOn(ch: Challenge, budget: Limits, l: Ledger, selected: seq<Token>, s: State, i: nat, m: Ledger)
    requires Priced(ch) && i < |ch.actions| && JustPlanned(ch, budget, l, selected, s, i) && Applicable(ch.actions[i], s)
    requires var t := ch.actions[i].token;
             ChargeMeans(ch, true, l, ExecuteKey(t), WorldKey(t), ch.actions[i], Charged(m))
    ensures Taken(ch, budget, m, selected + [ch.actions[i].token], Apply(ch.actions[i], s), i + 1)
  {
    FindFinds(ch.actions, ch.actions[i]);
    ReplayAppend(ch, ch.initial, selected, ch.actions[i].token);
    assert (selected + [ch.actions[i].token])[..|selected|] == selected;
  }

  /** Considers the action at `i`: charges the plan and, where applicable, the action. */
  method Consider(ch: Challenge, budget: Limits, l: Ledger, ghost selected: seq<Token>, s: State, i: nat)
    returns (after: Ledger, refused: Option<Exhaustion>)
    requires Priced(ch) && i < |ch.actions| && Passing(ch, budget, l, selected, s, i)
    ensures refused.Some? ==> LinearRun(ch, budget, SystemRun(selected, after, true, BudgetExhausted, refused))
    ensures refused.None? ==> Taken(ch, budget, after, NextSelected(ch, selected, s, i), NextState(ch, s, i), i + 1)
  {
    var a := ch.actions[i];
    var plan := ChargePlan(ch, true, l, PlanKey(s, a.token), a);
    if plan.Refused? {
      RefusalIsTight(ch, budget, UsageOf(l.events), i, plan.exhaustion, false);
      RefusedRun(ch, budget, l, selected, s, i, plan.exhaustion);
      return l, Some(plan.exhaustion);
    }
    PlanLeadsOn(ch, budget, l, selected, s, i, plan.ledger);
    after, refused := TakePlanned(ch, budget, plan.ledger, selected, s, i);
  }

  method TakePlanned(ch: Challenge, budget: Limits, l: Ledger, ghost selected: seq<Token>, s: State, i: nat)
    returns (after: Ledger, refused: Option<Exhaustion>)
    requires Priced(ch) && i < |ch.actions| && JustPlanned(ch, budget, l, selected, s, i)
    ensures refused.Some? ==> LinearRun(ch, budget, SystemRun(selected, after, true, BudgetExhausted, refused))
    ensures refused.None? ==> Taken(ch, budget, after, NextSelected(ch, selected, s, i), NextState(ch, s, i), i + 1)
  {
    var a := ch.actions[i];
    if !Applicable(a, s) {
      return l, None;
    }
    var charge := ChargeAction(ch, true, l, ExecuteKey(a.token), WorldKey(a.token), a);
    if charge.Refused? {
      RefusalIsTight(ch, budget, UsageOf(l.events), i, charge.exhaustion, true);
      RefusedRun(ch, budget, l, selected, s, i + 1, charge.exhaustion);
      return l, Some(charge.exhaustion);
    }
    TakeLeadsOn(ch, budget, l, selected, s, i, charge.ledger);
    return charge.ledger, None;
  }

  method Solve(ch: Challenge, budget: Limits) returns (run: SystemRun)
    requires Priced(ch) && !GoalReached(ch, ch.initial)
    ensures LinearRun(ch, budget, run)
  {
    var l := Ledger(budget, []);
    var s := ch.initial;
    var selected: seq<Token> := [];
    assert ch.actions[0..] == ch.actions;
    for i := 0 to |ch.actions|
      invariant Passing(ch, budget, l, selected, s, i) && OnPass(ch, selected, s, i)
    {
      PassContinues(ch, selected, s, i);
      var after, refused := Consider(ch, budget, l, selected, s, i);
      if refused.Some? {
        return SystemRun(selected, after, true, BudgetExhausted, refused);
      }
      l, selected, s := after, NextSelected(ch, selected, s, i), NextState(ch, s, i);
      if GoalReached(ch, s) {
        FinishedRun(ch, budget, l, selected, s, GoalReachedStop, None);
        return SystemRun(selected, l, true, GoalReachedStop, None);
      }
    }
    assert ch.actions[|ch.actions|..] == [];
    assert selected + [] == selected;
    FinishedRun(ch, budget, l, selected, s, NoProgress, None);
    run := SystemRun(selected, l, true, NoProgress, None);
  }

}

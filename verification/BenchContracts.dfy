/** The linear baseline on the generated challenges: always auditable, in agreement with the
    hidden oracle, and successful exactly where the trap does not come first. */
module BenchContracts {
  import opened Wrappers
  import opened BenchModel
  import opened BenchAudit
  import opened BenchCharges
  import opened BenchLinear
  import opened BenchGenerator
  import opened BenchLanguage
  import opened BenchNames

  /** The generator draws every action cost from 1 and 2. */
  ghost predicate DrawnCosts(costs: nat -> nat) { forall i :: costs(i) == 1 || costs(i) == 2 }

  /** Every published challenge meets what the solvers demand of their input. */
  lemma PublishedArePriced(f: Family, variant: nat, costs: nat -> nat, names: Names)
    requires DrawnCosts(costs) && Injective(names)
    ensures var ch := Published(f, variant, costs, names); Priced(ch) && !GoalReached(ch, ch.initial)
  {
    var slotted := Generate(f, variant, costs);
    GeneratedChallenges(f, variant, costs);
    DistinctTokensRenamed(names, slotted.actions);
    assert forall i :: 0 <= i < |slotted.actions| ==> slotted.actions[i] in slotted.actions;
    assert forall a :: a in slotted.actions ==> a.cost == costs(a.token);
  }

  /** The published sizes of the four families. */
  lemma PublishedSizes(f: Family, variant: nat, costs: nat -> nat, names: Names)
    ensures var ch := Published(f, variant, costs, names);
            (|ch.actions|, ch.maxLength) == if f in {SessionCache, RequestOrdering} then (6, 5) else (7, 6)
  {
    var n := Stages(f);
    assert |CatalogRoles(f, variant)| == n + 3;
  }

  /** The selected tokens replay to the state the pass ends in. */
  lemma {:induction false} ScanReplays(ch: Challenge, actions: seq<Action>, s: State)
    requires DistinctTokens(ch.actions) && forall a :: a in actions ==> a in ch.actions
    ensures Replay(ch, s, Scan(ch, actions, s).tokens) == Some(Scan(ch, actions, s).state)
    decreases |actions|
  {
    if actions != [] {
      var a, rest := actions[0], actions[1..];
      assert a in actions;
      FindFinds(ch.actions, a);
      if Applicable(a, s) {
        var t := Apply(a, s);
        ScanReplays(ch, rest, t);
        var more := if GoalReached(ch, t) then [] else Scan(ch, rest, t).tokens;
        assert ([a.token] + more)[1..] == more;
      } else {
        ScanReplays(ch, rest, s);
      }
    }
  }

  /** From stage `k` on, a catalog that lists the rest of the solution next leads to the goal. */
  lemma {:induction false} ScanSolution(n: nat, costs: nat -> nat, ch: Challenge, actions: seq<Action>, k: nat, noise: bool)
    requires ch.goal == Cell(GoalKey(n), true) && k <= n < k + |actions|
    requires forall i :: 0 <= i <= n - k ==> actions[i] == Role(n, k + i, costs)
    ensures GoalReached(ch, Scan(ch, actions, Stand(n, k, false, noise, true)).state)
    ensures Scan(ch, actions, Stand(n, k, false, noise, true)).tokens != []
    decreases n - k
  {
    hide Scan, Stand, Role, GoalReached;
    if k == n {
      ScanTerminal(n, costs, ch, actions, noise);
    } else {
      assert forall i :: 0 <= i <= n - (k + 1) ==> actions[1..][i] == actions[i + 1];
      ScanSolution(n, costs, ch, actions[1..], k + 1, noise);
      ScanStage(n, costs, ch, actions, k, noise);
    }
  }

  lemma ScanTerminal(n: nat, costs: nat -> nat, ch: Challenge, actions: seq<Action>, noise: bool)
    requires ch.goal == Cell(GoalKey(n), true) && actions != [] && actions[0] == Role(n, n, costs)
    ensures Scan(ch, actions, Stand(n, n, false, noise, true)) == Pass([n], Stand(n, n, true, noise, true))
    ensures GoalReached(ch, Stand(n, n, true, noise, true))
  {
    TerminalInStand(n, costs, n, false, noise, true);
  }

  lemma ScanStage(n: nat, costs: nat -> nat, ch: Challenge, actions: seq<Action>, k: nat, noise: bool)
    requires ch.goal == Cell(GoalKey(n), true) && k < n && actions != [] && actions[0] == Role(n, k, costs)
    ensures var rest := Scan(ch, actions[1..], Stand(n, k + 1, false, noise, true));
            Scan(ch, actions, Stand(n, k, false, noise, true)) == Pass([k] + rest.tokens, rest.state)
  {
    StageInStand(n, k, costs, k, false, noise, true);
  }

  lemma RoleNeedsGuard(n: nat, t: Token, costs: nat -> nat, s: State)
    requires t <= n + 2 && CellHolds(Cell(GuardKey(n), false), s)
    ensures !Applicable(Role(n, t, costs), s)
  {
    assert Role(n, t, costs).pre[0] == Cell(GuardKey(n), true);
  }

  /** Once the guard is gone, nothing is applicable. */
  lemma {:induction false} ScanBlocked(n: nat, costs: nat -> nat, ch: Challenge, actions: seq<Action>, s: State)
    requires CellHolds(Cell(GuardKey(n), false), s)
    requires forall a :: a in actions ==> a.token <= n + 2 && a == Role(n, a.token, costs)
    ensures Scan(ch, actions, s) == Pass([], s)
    decreases |actions|
  {
    if actions != [] {
      assert actions[0] in actions;
      RoleNeedsGuard(n, actions[0].token, costs, s);
      ScanBlocked(n, costs, ch, actions[1..], s);
    }
  }

  lemma ScanOfTrapFirst(n: nat, costs: nat -> nat, ch: Challenge)
    requires Generated(n, costs, ch) && ch.actions != [] && ch.actions[0] == Role(n, Trap(n), costs)
    ensures Scan(ch, ch.actions, ch.initial).tokens != [] && !GoalReached(ch, Scan(ch, ch.actions, ch.initial).state)
  {
    TrapInStand(n, costs, 0, false, false, true);
    ScanBlocked(n, costs, ch, ch.actions[1..], Stand(n, 0, false, false, false));
  }

  lemma ScanOfNoiseFirst(n: nat, costs: nat -> nat, ch: Challenge)
    requires Generated(n, costs, ch) && |ch.actions| == n + 3 && ch.actions[0] == Role(n, Noise(n), costs)
    requires forall i :: 0 <= i <= n ==> ch.actions[1..][i] == Role(n, i, costs)
    ensures Scan(ch, ch.actions, ch.initial).tokens != [] && GoalReached(ch, Scan(ch, ch.actions, ch.initial).state)
  {
    NoiseInStand(n, costs, 0, false, false, true);
    ScanSolution(n, costs, ch, ch.actions[1..], 0, true);
  }

  lemma ScanOfStageFirst(n: nat, costs: nat -> nat, ch: Challenge)
    requires ch.goal == Cell(GoalKey(n), true) && ch.initial == Stand(n, 0, false, false, true) && |ch.actions| == n + 3
    requires forall i :: 0 <= i <= n ==> ch.actions[i] == Role(n, i, costs)
    ensures Scan(ch, ch.actions, ch.initial).tokens != [] && GoalReached(ch, Scan(ch, ch.actions, ch.initial).state)
  {
    ScanSolution(n, costs, ch, ch.actions, 0, false);
  }

  /** How a generated catalog starts. */
  predicate Leads(n: nat, costs: nat -> nat, ch: Challenge, lead: nat) {
    && |ch.actions| == n + 3 && lead <= 2
    && (lead == 2 ==> ch.actions[0] == Role(n, Trap(n), costs))
    && (lead == 1 ==> ch.actions[0] == Role(n, Noise(n), costs))
    && (lead == 1 ==> forall i :: 0 <= i <= n ==> ch.actions[1..][i] == Role(n, i, costs))
    && (lead == 0 ==> forall i :: 0 <= i <= n ==> ch.actions[i] == Role(n, i, costs))
  }

  lemma GeneratedLeads(f: Family, variant: nat, costs: nat -> nat)
    ensures Leads(Stages(f), costs, Generate(f, variant, costs),
                  if f == RequestOrdering then 2 else if f == VersionFlagSkew then 1 else 0)
  {
    var n, order, actions := Stages(f), CatalogRoles(f, variant), Catalog(f, variant, costs);
    assert |order| == n + 3;
    assert forall i :: 0 <= i < n + 3 ==> actions[i] == Role(n, order[i], costs);
    if f == VersionFlagSkew { assert forall i :: 0 <= i <= n ==> actions[1..][i] == actions[i + 1] && order[i + 1] == i; }
  }

  /** The unhindered pass selects something, and ends in the goal unless the trap comes first. */
  lemma ScanOfGenerated(n: nat, costs: nat -> nat, ch: Challenge, lead: nat)
    requires Generated(n, costs, ch) && Leads(n, costs, ch, lead)
    ensures var pass := Scan(ch, ch.actions, ch.initial);
            pass.tokens != [] && (GoalReached(ch, pass.state) <==> lead != 2)
  {
    if lead == 2 {
      ScanOfTrapFirst(n, costs, ch);
    } else if lead == 1 {
      ScanOfNoiseFirst(n, costs, ch);
    } else {
      ScanOfStageFirst(n, costs, ch);
    }
  }

  lemma {:induction false} ScanRenamed(names: Names, ch: Challenge, actions: seq<Action>, s: State)
    ensures var pass := Scan(ch, actions, s);
            Scan(Named(names, ch), RenamedAll(names, actions), s) == Pass(NamesOf(names, pass.tokens), pass.state)
    decreases |actions|
  {
    if actions != [] {
      var a := actions[0];
      assert RenamedAll(names, actions)[1..] == RenamedAll(names, actions[1..]);
      if Applicable(a, s) {
        var t := Apply(a, s);
        var rest := Scan(ch, actions[1..], t).tokens;
        ScanRenamed(names, ch, actions[1..], t);
        assert NamesOf(names, [a.token]) == [names(a.token)];
        assert NamesOf(names, [a.token] + rest) == [names(a.token)] + NamesOf(names, rest);
      } else {
        ScanRenamed(names, ch, actions[1..], s);
      }
    }
  }

  /** The unhindered pass over a published catalog. */
  lemma ScanOfPublished(f: Family, variant: nat, costs: nat -> nat, names: Names)
    requires Injective(names)
    ensures var ch := Published(f, variant, costs, names);
            var pass := Scan(ch, ch.actions, ch.initial);
            && pass.tokens != [] && (GoalReached(ch, pass.state) <==> f != RequestOrdering)
            && Replay(ch, ch.initial, pass.tokens) == Some(pass.state)
  {
    hide Generate, Scan, GoalReached, Replay, Leads;
    var n, slotted := Stages(f), Generate(f, variant, costs);
    GeneratedChallenges(f, variant, costs);
    GeneratedLeads(f, variant, costs);
    ScanOfGenerated(n, costs, slotted, if f == RequestOrdering then 2 else if f == VersionFlagSkew then 1 else 0);
    ScanRenamed(names, slotted, slotted.actions, slotted.initial);
    ScanReplays(slotted, slotted.actions, slotted.initial);
    ReplayRenamed(names, slotted, slotted.initial, Scan(slotted, slotted.actions, slotted.initial).tokens);
    SameGoal(names, slotted, Scan(slotted, slotted.actions, slotted.initial).state);
  }

  lemma SameGoal(names: Names, ch: Challenge, s: State)
    ensures GoalReached(Named(names, ch), s) <==> GoalReached(ch, s)
  {
  }

  /** The linear baseline on every published challenge and every budget: it passes both audits,
      and with enough budget it reaches the goal exactly where the trap does not come first. */
  lemma LinearContract(f: Family, variant: nat, costs: nat -> nat, names: Names, budget: Limits, run: SystemRun, v: Verdict)
    requires Injective(names) && LinearRun(Published(f, variant, costs, names), budget, run)
    requires VerdictMeans(Published(f, variant, costs, names), TerminalCells(Stages(f)), run.submission, v)
    ensures Auditable(Published(f, variant, costs, names), run, budget, true)
    ensures run.stop == GoalReachedStop <==> v.reason == Success
    ensures Enough(Published(f, variant, costs, names), budget) ==> (run.stop == GoalReachedStop <==> f != RequestOrdering)
  {
    hide Generate, Scan, Auditable, VerdictMeans, Enough, GoalOnlyAtEnd, NoRepeats, Succeeds, GoalReached;
    var ch := Published(f, variant, costs, names);
    ScanOfPublished(f, variant, costs, names);
    FirstGoalIsSuccess(f, variant, costs, names, run.submission);
    VerdictIsSuccess(ch, TerminalCells(Stages(f)), run.submission, v);
  }
}

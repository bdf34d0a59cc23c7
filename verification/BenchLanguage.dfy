/** The exact language the hidden oracle accepts on every generated challenge, told in slots. */
module BenchLanguage {
  import opened Wrappers
  import opened BenchModel
  import opened BenchGenerator

  function Without(tokens: seq<Token>, x: Token): seq<Token> {
    if tokens == [] then []
    else Without(tokens[..|tokens| - 1], x) + if tokens[|tokens| - 1] == x then [] else [tokens[|tokens| - 1]]
  }

  /** The stage actions in order followed by the terminal action, with the noise action inserted
      at most once, anywhere, and the trap absent. */
  predicate InLanguage(n: nat, tokens: seq<Token>) {
    NoRepeats(tokens) && Without(tokens, Noise(n)) == UpTo(n + 1)
  }

  /** A challenge with `n` stages, its catalog in any order. */
  predicate Generated(n: nat, costs: nat -> nat, ch: Challenge) {
    && IsCatalog(n, costs, ch.actions) && ch.initial == Stand(n, 0, false, false, true)
    && ch.goal == Cell(GoalKey(n), true) && ch.maxLength == n + 2
  }

  lemma GeneratedChallenges(f: Family, variant: nat, costs: nat -> nat)
    ensures Generated(Stages(f), costs, Generate(f, variant, costs))
  {
    CatalogHasEveryRole(f, variant, costs);
  }

  /** The stage and terminal tokens of a submission. */
  function Core(n: nat, tokens: seq<Token>): seq<Token> {
    if tokens == [] then []
    else Core(n, tokens[..|tokens| - 1]) + if tokens[|tokens| - 1] <= n then [tokens[|tokens| - 1]] else []
  }

  lemma {:induction false} CoreIsInside(n: nat, tokens: seq<Token>, t: Token)
    ensures t in Core(n, tokens) <==> t in tokens && t <= n
  {
    if tokens != [] {
      CoreIsInside(n, tokens[..|tokens| - 1], t);
      assert tokens == tokens[..|tokens| - 1] + [tokens[|tokens| - 1]];
    }
  }

  /** How far a replayed submission has come. */
  ghost predicate Progress(n: nat, tokens: seq<Token>, s: State, k: nat, goal: bool) {
    && k <= n && (goal ==> k == n)
    && s == Stand(n, k, goal, Noise(n) in tokens, Trap(n) !in tokens)
    && Core(n, tokens) == UpTo(if goal then n + 1 else k)
  }

  /** An applicable stage or terminal action not yet taken is the next one of the solution. */
  lemma NextOfSolution(n: nat, costs: nat -> nat, init: seq<Token>, t: Token, u: State, k: nat, goal: bool)
    requires Progress(n, init, u, k, goal) && t !in init && t <= n && Applicable(Role(n, t, costs), u)
    ensures !goal && t == k
  {
    var noise, guard, m := Noise(n) in init, Trap(n) !in init, if goal then n + 1 else k;
    if t < n { StageInStand(n, t, costs, k, goal, noise, guard); } else { TerminalInStand(n, costs, k, goal, noise, guard); }
    MembersOfUpTo(m, t);
    CoreIsInside(n, init, t);
  }

  lemma MembersOfUpTo(m: nat, t: Token)
    ensures t in UpTo(m) <==> t < m
  {
    if t < m { assert UpTo(m)[t] == t; }
  }

  lemma SolutionStep(n: nat, costs: nat -> nat, init: seq<Token>, u: State, k: nat)
    requires Progress(n, init, u, k, false) && k !in init && Applicable(Role(n, k, costs), u)
    ensures Progress(n, init + [k], Apply(Role(n, k, costs), u), if k < n then k + 1 else k, k == Terminal(n))
    ensures Trap(n) !in init
  {
    var noise, guard := Noise(n) in init, Trap(n) !in init;
    assert (init + [k])[..|init|] == init;
    if k < n { StageInStand(n, k, costs, k, false, noise, guard); } else { TerminalInStand(n, costs, k, false, noise, guard); }
    assert UpTo(k) + [k] == UpTo(k + 1);
  }

  lemma SideStep(n: nat, costs: nat -> nat, init: seq<Token>, t: Token, u: State, k: nat, goal: bool)
    requires Progress(n, init, u, k, goal) && t in {Noise(n), Trap(n)} && Applicable(Role(n, t, costs), u)
    ensures Progress(n, init + [t], Apply(Role(n, t, costs), u), k, goal)
    ensures Trap(n) !in init
  {
    var noise, guard := Noise(n) in init, Trap(n) !in init;
    assert (init + [t])[..|init|] == init;
    if t == Noise(n) { NoiseInStand(n, costs, k, goal, noise, guard); } else { TrapInStand(n, costs, k, goal, noise, guard); }
  }

  lemma StepShape(n: nat, costs: nat -> nat, init: seq<Token>, t: Token, u: State, k: nat, goal: bool)
    requires Progress(n, init, u, k, goal) && t !in init && t <= n + 2 && Applicable(Role(n, t, costs), u)
    ensures Progress(n, init + [t], Apply(Role(n, t, costs), u), if t < n then k + 1 else k, goal || t == Terminal(n))
    ensures Trap(n) !in init
  {
    if t <= n {
      NextOfSolution(n, costs, init, t, u, k, goal);
      SolutionStep(n, costs, init, u, k);
    } else {
      SideStep(n, costs, init, t, u, k, goal);
    }
  }

  lemma {:induction false} ReplayShape(n: nat, costs: nat -> nat, ch: Challenge, tokens: seq<Token>) returns (k: nat, goal: bool)
    requires Generated(n, costs, ch) && NoRepeats(tokens) && Replay(ch, ch.initial, tokens).Some?
    ensures Progress(n, tokens, Replay(ch, ch.initial, tokens).value, k, goal)
  {
    if tokens == [] {
      k, goal := 0, false;
    } else {
      var init, t := tokens[..|tokens| - 1], tokens[|tokens| - 1];
      assert tokens == init + [t];
      ReplayAppend(ch, ch.initial, init, t);
      var k0, goal0 := ReplayShape(n, costs, ch, init);
      StepShape(n, costs, init, t, Replay(ch, ch.initial, init).value, k0, goal0);
      k, goal := if t < n then k0 + 1 else k0, goal0 || t == Terminal(n);
    }
  }

  function Least(a: nat, b: nat): nat { if a <= b then a else b }

  /** Core tokens in order, at most one noise and no trap always replay. */
  lemma {:induction false} CoreReplays(n: nat, costs: nat -> nat, ch: Challenge, tokens: seq<Token>, m: nat)
    requires Generated(n, costs, ch) && NoRepeats(tokens) && m <= n + 1
    requires (forall t :: t in tokens ==> t <= n + 1) && Core(n, tokens) == UpTo(m)
    ensures Replay(ch, ch.initial, tokens) == Some(Stand(n, Least(m, n), m == n + 1, Noise(n) in tokens, true))
    decreases |tokens|
  {
    if tokens == [] {
      assert |UpTo(m)| == 0;
    } else {
      var init, t := tokens[..|tokens| - 1], tokens[|tokens| - 1];
      assert tokens == init + [t];
      assert t in tokens && forall u :: u in init ==> u in tokens;
      ReplayAppend(ch, ch.initial, init, t);
      var m0 := if t <= n then |Core(n, init)| else m;
      assert |Core(n, tokens)| == m;
      assert t <= n ==> t == UpTo(m)[m - 1] == m - 1 && Core(n, init) == UpTo(m)[..m - 1] == UpTo(m - 1);
      CoreReplays(n, costs, ch, init, m0);
      var k, goal, noise := Least(m0, n), m0 == n + 1, Noise(n) in init;
      if t < n { StageInStand(n, t, costs, k, goal, noise, true); }
      else if t == Terminal(n) { TerminalInStand(n, costs, k, goal, noise, true); }
      else { NoiseInStand(n, costs, k, goal, noise, true); }
    }
  }

  lemma TerminalHolds(n: nat, k: nat, goal: bool, noise: bool, guard: bool)
    requires k <= n
    ensures AllHold(TerminalCells(n), Stand(n, k, goal, noise, guard)) <==> guard && goal && k == n
  {
    var cells, s := TerminalCells(n), Stand(n, k, goal, noise, guard);
    assert cells[n] == Cell(GuardKey(n), true) && cells[n + 1] == Cell(GoalKey(n), true);
    assert k < n ==> cells[k] == Cell(k, true);
  }

  lemma {:induction false} CoreIsWithoutNoise(n: nat, tokens: seq<Token>)
    requires forall t :: t in tokens ==> t <= n + 1
    ensures Core(n, tokens) == Without(tokens, Noise(n))
  {
    if tokens != [] {
      var init := tokens[..|tokens| - 1];
      assert tokens[|tokens| - 1] in tokens && forall u :: u in init ==> u in tokens;
      CoreIsWithoutNoise(n, init);
    }
  }

  lemma {:induction false} WithoutIsInside(tokens: seq<Token>, x: Token, t: Token)
    ensures t in Without(tokens, x) <==> t in tokens && t != x
  {
    if tokens != [] {
      WithoutIsInside(tokens[..|tokens| - 1], x, t);
      assert tokens == tokens[..|tokens| - 1] + [tokens[|tokens| - 1]];
    }
  }

  lemma {:induction false} WithoutDropsAtMostOne(tokens: seq<Token>, x: Token)
    requires NoRepeats(tokens)
    ensures |tokens| <= |Without(tokens, x)| + if x in tokens then 1 else 0
  {
    if tokens != [] {
      WithoutDropsAtMostOne(tokens[..|tokens| - 1], x);
      assert tokens == tokens[..|tokens| - 1] + [tokens[|tokens| - 1]];
    }
  }

  /** Members of the language use only solution and noise tokens, and fit the length limit. */
  lemma LanguageTokens(n: nat, tokens: seq<Token>)
    requires InLanguage(n, tokens)
    ensures (forall t :: t in tokens ==> t <= n + 1) && |tokens| <= n + 2 && Core(n, tokens) == UpTo(n + 1)
  {
    forall t | t in tokens ensures t <= n + 1 {
      WithoutIsInside(tokens, Noise(n), t);
      if t != Noise(n) {
        var i :| 0 <= i < n + 1 && UpTo(n + 1)[i] == t;
      }
    }
    WithoutDropsAtMostOne(tokens, Noise(n));
    CoreIsWithoutNoise(n, tokens);
  }

  lemma ReplayedTokensAreKnown(n: nat, costs: nat -> nat, ch: Challenge, tokens: seq<Token>)
    requires Generated(n, costs, ch) && Replay(ch, ch.initial, tokens).Some?
    ensures forall t :: t in tokens ==> t <= n + 2
  {
    if tokens != [] {
      var init, t := tokens[..|tokens| - 1], tokens[|tokens| - 1];
      assert tokens == init + [t];
      ReplayAppend(ch, ch.initial, init, t);
      ReplayedTokensAreKnown(n, costs, ch, init);
    }
  }

  lemma SuccessIsInLanguage(n: nat, costs: nat -> nat, ch: Challenge, tokens: seq<Token>)
    requires Generated(n, costs, ch) && Succeeds(ch, TerminalCells(n), tokens)
    ensures InLanguage(n, tokens)
  {
    var k, goal := ReplayShape(n, costs, ch, tokens);
    TerminalHolds(n, k, goal, Noise(n) in tokens, Trap(n) !in tokens);
    ReplayedTokensAreKnown(n, costs, ch, tokens);
    CoreIsWithoutNoise(n, tokens);
  }

  lemma LanguageSucceeds(n: nat, costs: nat -> nat, ch: Challenge, tokens: seq<Token>)
    requires Generated(n, costs, ch) && InLanguage(n, tokens)
    ensures Succeeds(ch, TerminalCells(n), tokens)
  {
    LanguageTokens(n, tokens);
    CoreReplays(n, costs, ch, tokens, n + 1);
    TerminalHolds(n, n, true, Noise(n) in tokens, true);
  }

  /** The slot sequences that succeed on a generated challenge are exactly the language. */
  lemma SlotLanguage(f: Family, variant: nat, costs: nat -> nat, tokens: seq<Token>)
    ensures Succeeds(Generate(f, variant, costs), TerminalCells(Stages(f)), tokens) <==> InLanguage(Stages(f), tokens)
  {
    var n, ch := Stages(f), Generate(f, variant, costs);
    GeneratedChallenges(f, variant, costs);
    if Succeeds(ch, TerminalCells(n), tokens) { SuccessIsInLanguage(n, costs, ch, tokens); }
    if InLanguage(n, tokens) { LanguageSucceeds(n, costs, ch, tokens); }
  }

  /** The first state that meets the public goal meets the hidden constraints too, so a solver
      that stops there, or never gets there, agrees with the oracle. */
  lemma FirstSlotGoalIsSuccess(n: nat, costs: nat -> nat, ch: Challenge, tokens: seq<Token>)
    requires Generated(n, costs, ch) && NoRepeats(tokens) && Replay(ch, ch.initial, tokens).Some?
    requires GoalOnlyAtEnd(ch, tokens)
    ensures GoalReached(ch, Replay(ch, ch.initial, tokens).value) <==> Succeeds(ch, TerminalCells(n), tokens)
  {
    var k, goal := ReplayShape(n, costs, ch, tokens);
    TerminalHolds(n, k, goal, Noise(n) in tokens, Trap(n) !in tokens);
    if tokens != [] && goal {
      TrapFreeAtFirstGoal(n, costs, ch, tokens, k);
      ReplayedTokensAreKnown(n, costs, ch, tokens);
      CoreIsWithoutNoise(n, tokens);
      LanguageTokens(n, tokens);
    }
  }

  lemma TrapFreeAtFirstGoal(n: nat, costs: nat -> nat, ch: Challenge, tokens: seq<Token>, k: nat)
    requires Generated(n, costs, ch) && NoRepeats(tokens) && tokens != [] && Replay(ch, ch.initial, tokens).Some?
    requires Progress(n, tokens, Replay(ch, ch.initial, tokens).value, k, true)
    requires GoalOnlyAtEnd(ch, tokens)
    ensures Trap(n) !in tokens
  {
    var init, t := tokens[..|tokens| - 1], tokens[|tokens| - 1];
    assert tokens == init + [t];
    ReplayAppend(ch, ch.initial, init, t);
    var k0, goal0 := ReplayShape(n, costs, ch, init);
    StepShape(n, costs, init, t, Replay(ch, ch.initial, init).value, k0, goal0);
  }
}

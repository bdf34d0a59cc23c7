/** The tiered solver finds the solution of every published challenge, when the budget is ample and
    the promotion never drops all of the candidates nearest to the goal. */
module BenchCompleteness {
  import opened Wrappers
  import opened BenchModel
  import opened BenchAudit
  import opened BenchCharges
  import opened BenchBfs
  import opened BenchRanking
  import opened BenchAmple
  import opened BenchTiered
  import opened BenchTieredSolver
  import G = BenchGenerator
  import L = BenchLanguage
  import N = BenchNames

  type Names = nat -> Token

  // ---------- Move sequences are submissions ----------

  function TokensIn(acts: seq<Action>): seq<Token> { seq(|acts|, i requires 0 <= i < |acts| => acts[i].token) }

  /** A valid move sequence from the end of a chain extends the chain. */
  lemma {:induction false} MovesExtend(ch: Challenge, s0: State, c: seq<Token>, s: State, used: set<Token>, acts: seq<Action>)
    requires DistinctTokens(ch.actions) && NoRepeats(c) && Replay(ch, s0, c) == Some(s)
    requires (forall t :: t in c ==> t in used) && Valid(ch, Node(s, used), acts)
    ensures NoRepeats(c + TokensIn(acts))
    ensures Replay(ch, s0, c + TokensIn(acts)) == Some(End(Node(s, used), acts).state)
    decreases |acts|
  {
    if acts == [] {
      assert c + TokensIn(acts) == c;
    } else {
      var a := acts[0];
      FindFinds(ch.actions, a);
      ReplayAppend(ch, s0, c, a.token);
      assert NoRepeats(c + [a.token]);
      MovesExtend(ch, s0, c + [a.token], Apply(a, s), used + {a.token}, acts[1..]);
      assert c + TokensIn(acts) == (c + [a.token]) + TokensIn(acts[1..]);
    }
  }

  // ---------- The solution in slots ----------

  lemma {:induction false} CoreOfSolution(n: nat, d: nat)
    requires d <= n + 1
    ensures L.Core(n, G.UpTo(d)) == G.UpTo(d)
  {
    if d > 0 {
      CoreOfSolution(n, d - 1);
      assert G.UpTo(d)[..d - 1] == G.UpTo(d - 1);
      assert G.UpTo(d - 1) + [d - 1] == G.UpTo(d);
    }
  }

  lemma {:induction false} CoreIsNoLonger(n: nat, tokens: seq<Token>)
    ensures |L.Core(n, tokens)| <= |tokens|
    ensures |L.Core(n, tokens)| == |tokens| ==> L.Core(n, tokens) == tokens
  {
    if tokens != [] {
      CoreIsNoLonger(n, tokens[..|tokens| - 1]);
      assert tokens == tokens[..|tokens| - 1] + [tokens[|tokens| - 1]];
    }
  }

  function Along(n: nat, d: nat): State { G.Stand(n, L.Least(d, n), d == n + 1, false, true) }

  lemma SolutionReplays(n: nat, costs: nat -> nat, ch: Challenge, d: nat)
    requires L.Generated(n, costs, ch) && d <= n + 1
    ensures Replay(ch, ch.initial, G.UpTo(d)) == Some(Along(n, d))
  {
    CoreOfSolution(n, d);
    L.CoreReplays(n, costs, ch, G.UpTo(d), d);
  }

  lemma StageCell(n: nat, k: nat, goal: bool, noise: bool, guard: bool, c: nat)
    requires k <= n && c < n
    ensures c in G.Stand(n, k, goal, noise, guard) && G.Stand(n, k, goal, noise, guard)[c] == (c < k)
  {
  }

  lemma StandsDiffer(n: nat, k: nat, goal: bool, noise: bool, guard: bool, d: nat)
    requires k <= n && d <= n + 1 && G.Stand(n, k, goal, noise, guard) == Along(n, d)
    ensures k == L.Least(d, n) && (goal <==> d == n + 1)
  {
    var s, m := G.Stand(n, k, goal, noise, guard), L.Least(d, n);
    assert s[n + 1] == goal && Along(n, d)[n + 1] == (d == n + 1);
    if k < n {
      StageCell(n, k, goal, noise, guard, k);
      StageCell(n, m, d == n + 1, false, true, k);
    }
    if m < n {
      StageCell(n, k, goal, noise, guard, m);
      StageCell(n, m, d == n + 1, false, true, m);
    }
  }

  /** The state after `d` steps of the solution takes at least `d` tokens to reach. */
  lemma SlotsTakeTime(n: nat, costs: nat -> nat, ch: Challenge, slots: seq<nat>, d: nat)
    requires L.Generated(n, costs, ch) && d <= n + 1 && NoRepeats(slots)
    requires Replay(ch, ch.initial, slots) == Some(Along(n, d))
    ensures |slots| >= d
  {
    var k, goal := L.ReplayShape(n, costs, ch, slots);
    StandsDiffer(n, k, goal, G.Noise(n) in slots, G.Trap(n) !in slots, d);
    CoreIsNoLonger(n, slots);
  }

  /** No submission reaches the goal faster than the solution, and none other as fast. */
  lemma SlotsToGoal(n: nat, costs: nat -> nat, ch: Challenge, slots: seq<nat>)
    requires L.Generated(n, costs, ch) && NoRepeats(slots) && Replay(ch, ch.initial, slots).Some?
    requires GoalReached(ch, Replay(ch, ch.initial, slots).value)
    ensures |slots| >= n + 1 && (|slots| == n + 1 ==> slots == G.UpTo(n + 1))
  {
    var k, goal := L.ReplayShape(n, costs, ch, slots);
    assert G.Stand(n, k, goal, G.Noise(n) in slots, G.Trap(n) !in slots)[n + 1] == goal;
    CoreIsNoLonger(n, slots);
  }

  // ---------- The same under every naming ----------

  /** A generated challenge with `n` stages under the names of its seed. */
  ghost predicate NamedChallenge(n: nat, costs: nat -> nat, names: Names, slotted: Challenge, ch: Challenge) {
    L.Generated(n, costs, slotted) && N.Injective(names) && ch == N.Named(names, slotted)
  }

  function Prefix(names: Names, d: nat): seq<Token> { N.NamesOf(names, G.UpTo(d)) }

  lemma PrefixGrows(names: Names, d: nat)
    ensures |Prefix(names, d)| == d && Prefix(names, d + 1) == Prefix(names, d) + [names(d)]
    ensures N.Injective(names) ==> names(d) !in Prefix(names, d) && NoRepeats(Prefix(names, d))
  {
  }

  lemma PrefixReplays(n: nat, costs: nat -> nat, names: Names, slotted: Challenge, ch: Challenge, d: nat)
    requires NamedChallenge(n, costs, names, slotted, ch) && d <= n + 1
    ensures Replay(ch, ch.initial, Prefix(names, d)) == Some(Along(n, d))
  {
    SolutionReplays(n, costs, slotted, d);
    N.ReplayRenamed(names, slotted, slotted.initial, G.UpTo(d));
  }

  lemma TokensToGoal(n: nat, costs: nat -> nat, names: Names, slotted: Challenge, ch: Challenge, c: seq<Token>)
    requires NamedChallenge(n, costs, names, slotted, ch) && NoRepeats(c) && Replay(ch, ch.initial, c).Some?
    requires GoalReached(ch, Replay(ch, ch.initial, c).value)
    ensures |c| >= n + 1 && (|c| == n + 1 ==> c == Prefix(names, n + 1))
  {
    var slots := N.SlotsOf(names, slotted, slotted.initial, c);
    N.ReplayRenamed(names, slotted, slotted.initial, slots);
    N.NoRepeatsRenamed(names, slots);
    SlotsToGoal(n, costs, slotted, slots);
  }

  lemma TokensTakeTime(n: nat, costs: nat -> nat, names: Names, slotted: Challenge, ch: Challenge, c: seq<Token>, d: nat)
    requires NamedChallenge(n, costs, names, slotted, ch) && d <= n + 1 && NoRepeats(c)
    requires Replay(ch, ch.initial, c) == Some(Along(n, d))
    ensures |c| >= d
  {
    var slots := N.SlotsOf(names, slotted, slotted.initial, c);
    N.ReplayRenamed(names, slotted, slotted.initial, slots);
    N.NoRepeatsRenamed(names, slots);
    SlotsTakeTime(n, costs, slotted, slots, d);
  }

  /** The next action of the solution is in the catalog, applicable, and leads on. */
  lemma NextAction(n: nat, costs: nat -> nat, names: Names, slotted: Challenge, ch: Challenge, d: nat) returns (a: Action)
    requires NamedChallenge(n, costs, names, slotted, ch) && d <= n
    ensures a in ch.actions && a.token == names(d) && Applicable(a, Along(n, d)) && Apply(a, Along(n, d)) == Along(n, d + 1)
  {
    a := N.Renamed(names, G.Role(n, d, costs));
    var i :| 0 <= i < |slotted.actions| && slotted.actions[i] == G.Role(n, d, costs);
    assert ch.actions[i] == a;
    if d < n { G.StageInStand(n, d, costs, d, false, false, true); } else { G.TerminalInStand(n, costs, n, false, false, true); }
  }

  lemma SolutionReachesGoal(n: nat, costs: nat -> nat, names: Names, slotted: Challenge, ch: Challenge)
    requires NamedChallenge(n, costs, names, slotted, ch)
    ensures GoalReached(ch, Along(n, n + 1))
  {
    assert Along(n, n + 1)[n + 1] == true;
  }

  lemma OtherNames(n: nat, costs: nat -> nat, names: Names, slotted: Challenge, ch: Challenge, d: nat)
    requires NamedChallenge(n, costs, names, slotted, ch)
    ensures forall i: nat :: i > d ==> names(i) != names(d)
  {
  }

  lemma OneMoveMore(ch: Challenge, x: Node, a: Action, rest: seq<Action>)
    requires a in ch.actions && Usable(a, x) && Solves(ch, Follow(a, x), rest)
    ensures Solves(ch, x, [a] + rest)
  {
    assert ([a] + rest)[1..] == rest;
  }

  /** The rest of the solution is a move sequence to the goal. */
  lemma {:induction false} RestOfSolution(n: nat, costs: nat -> nat, names: Names, slotted: Challenge, ch: Challenge, d: nat, used: set<Token>)
    returns (acts: seq<Action>)
    requires NamedChallenge(n, costs, names, slotted, ch) && d <= n + 1
    requires forall i: nat :: d <= i <= n ==> names(i) !in used
    ensures |acts| == n + 1 - d && Solves(ch, Node(Along(n, d), used), acts)
    decreases n + 1 - d
  {
    hide NamedChallenge, Along;
    if d == n + 1 {
      acts := [];
      SolutionReachesGoal(n, costs, names, slotted, ch);
    } else {
      var a := NextAction(n, costs, names, slotted, ch, d);
      OtherNames(n, costs, names, slotted, ch, d);
      var rest := RestOfSolution(n, costs, names, slotted, ch, d + 1, used + {a.token});
      OneMoveMore(ch, Node(Along(n, d), used), a, rest);
      acts := [a] + rest;
    }
  }

  lemma RankOfDistance(ch: Challenge, p: Path, acts: seq<Action>)
    requires Solves(ch, NodeOf(p), acts) && |acts| <= ch.maxLength
    ensures Rank(ch, p) <= |acts|
  {
    var n := LeastSolution(ch, NodeOf(p), acts);
    assert Within(ch, p, n);
  }

  lemma LeastSolution(ch: Challenge, x: Node, acts: seq<Action>) returns (n: nat)
    requires Solves(ch, x, acts)
    ensures IsDistance(ch, x, n) && n <= |acts|
    decreases |acts|
  {
    if shorter :| Solves(ch, x, shorter) && |shorter| < |acts| {
      n := LeastSolution(ch, x, shorter);
    } else {
      n := |acts|;
    }
  }

  lemma RankOfPrefix(n: nat, costs: nat -> nat, names: Names, slotted: Challenge, ch: Challenge, d: nat)
    requires NamedChallenge(n, costs, names, slotted, ch) && d <= n + 1
    ensures Rank(ch, Path(Along(n, d), Prefix(names, d))) <= n + 1 - d
  {
    var p := Path(Along(n, d), Prefix(names, d));
    forall i: nat | d <= i <= n ensures names(i) !in NodeOf(p).used {
      assert forall j :: 0 <= j < d ==> Prefix(names, d)[j] == names(j);
    }
    var acts := RestOfSolution(n, costs, names, slotted, ch, d, NodeOf(p).used);
    RankOfDistance(ch, p, acts);
  }

  /** A chain of `d` tokens as near to the goal as the solution's first `d` is the solution's first `d`. */
  lemma NearestIsTheSolution(n: nat, costs: nat -> nat, names: Names, slotted: Challenge, ch: Challenge, c: seq<Token>)
    requires NamedChallenge(n, costs, names, slotted, ch) && n < 100 && |c| <= n + 1
    requires NoRepeats(c) && Replay(ch, ch.initial, c).Some? && Rank(ch, PathTo(ch, c)) <= n + 1 - |c|
    ensures c == Prefix(names, |c|)
  {
    var p := PathTo(ch, c);
    var r := Rank(ch, p);
    assert Within(ch, p, r);
    var acts :| Solves(ch, NodeOf(p), acts) && |acts| == r;
    N.DistinctTokensRenamed(names, slotted.actions);
    MovesExtend(ch, ch.initial, c, p.state, NodeOf(p).used, acts);
    TokensToGoal(n, costs, names, slotted, ch, c + TokensIn(acts));
    assert c == (c + TokensIn(acts))[..|c|] == Prefix(names, n + 1)[..|c|] == Prefix(names, |c|);
  }

  // ---------- The search walks along the solution ----------

  /** What the run leaves to argue from: a thorough search that kept a nearest candidate each round. */
  ghost predicate Searched(ch: Challenge, cfg: Config, es: seq<Event>, reach: nat) {
    && Thorough(ch, cfg, es, reach) && NearestKept(ch, es)
    && forall c :: ChargedChain(es, c) ==> Replay(ch, ch.initial, c).Some? && NoRepeats(c)
  }

  lemma SolutionIsPlanned(n: nat, costs: nat -> nat, names: Names, slotted: Challenge, ch: Challenge, cfg: Config, es: seq<Event>,
                          reach: nat, d: nat)
    requires NamedChallenge(n, costs, names, slotted, ch) && Searched(ch, cfg, es, reach)
    requires d < reach && d <= n && ChargedChain(es, Prefix(names, d))
    ensures KeyUsed(es, PlanKey(Prefix(names, d + 1)))
  {
    hide Searched, KeyUsed, Walks;
    var c := Prefix(names, d);
    PrefixReplays(n, costs, names, slotted, ch, d);
    PrefixGrows(names, d);
    var a := NextAction(n, costs, names, slotted, ch, d);
    SearchedStep(ch, cfg, es, reach, c, Along(n, d), a);
    forall x | ReachedBy(ch, es, x, Along(n, d + 1)) ensures |x| > d {
      SearchedChain(ch, cfg, es, reach, x);
      TokensTakeTime(n, costs, names, slotted, ch, x, d + 1);
    }
  }

  lemma SearchedStep(ch: Challenge, cfg: Config, es: seq<Event>, reach: nat, c: seq<Token>, s: State, a: Action)
    requires Searched(ch, cfg, es, reach) && ReachedBy(ch, es, c, s) && |c| < reach && a in ch.actions
    ensures Accounted(ch, cfg, es, Path(s, c), a)
  {
  }

  lemma SearchedChain(ch: Challenge, cfg: Config, es: seq<Event>, reach: nat, c: seq<Token>)
    requires Searched(ch, cfg, es, reach) && ChargedChain(es, c)
    ensures Replay(ch, ch.initial, c).Some? && NoRepeats(c)
  {
  }

  lemma {:induction false} SolutionIsCharged(n: nat, costs: nat -> nat, names: Names, slotted: Challenge, ch: Challenge, cfg: Config,
                                            es: seq<Event>, reach: nat, d: nat)
    requires NamedChallenge(n, costs, names, slotted, ch) && n < 100 && Searched(ch, cfg, es, reach)
    requires d <= reach && d <= n + 1
    ensures ChargedChain(es, Prefix(names, d))
  {
    if d == 0 {
      assert Prefix(names, 0) == [];
    } else {
      hide Searched, NamedChallenge, KeyUsed;
      SolutionIsCharged(n, costs, names, slotted, ch, cfg, es, reach, d - 1);
      SolutionIsPlanned(n, costs, names, slotted, ch, cfg, es, reach, d - 1);
      PrefixReplays(n, costs, names, slotted, ch, d);
      PrefixGrows(names, d);
      var c := NearestOf(ch, cfg, es, reach, Prefix(names, d));
      RankOfPrefix(n, costs, names, slotted, ch, d);
      NearestIsTheSolution(n, costs, names, slotted, ch, c);
    }
  }

  lemma NearestOf(ch: Challenge, cfg: Config, es: seq<Event>, reach: nat, t: seq<Token>) returns (c: seq<Token>)
    requires Searched(ch, cfg, es, reach) && KeyUsed(es, PlanKey(t)) && Replay(ch, ch.initial, t).Some?
    ensures |c| == |t| && ChargedChain(es, c) && NoFarther(ch, c, t) && NoRepeats(c)
  {
    assert KeptFor(ch, es, t);
    c :| |c| == |t| && ChargedChain(es, c) && NoFarther(ch, c, t);
  }

  /** Completeness: with an ample budget, and a promotion that keeps a nearest candidate of every
      round, the tiered solver reaches the goal of every published challenge, whatever the family,
      variant, costs and names, with or without world tiers and deduplication; and what it submits
      is the shortest solution there is. */
  lemma TieredIsComplete(f: G.Family, variant: nat, costs: nat -> nat, names: Names, cfg: Config, budget: Limits,
                         promote: Promotion, run: SystemRun)
    requires N.Injective(names) && SolveMeans(N.Published(f, variant, costs, names), cfg, budget, promote, run)
    requires Ample(N.Published(f, variant, costs, names), budget)
    requires !cfg.off.compiler && !cfg.off.scheduler && KeepsANearest(N.Published(f, variant, costs, names), promote)
    ensures run.stop == GoalReachedStop
    ensures run.submission == N.NamesOf(names, G.UpTo(G.Stages(f) + 1))
  {
    hide Ample, KeepsANearest, NoWorse, Rank, NamedChallenge, Searched, G.Generate, L.Generated, Along;
    var n, slotted, ch := G.Stages(f), G.Generate(f, variant, costs), N.Published(f, variant, costs, names);
    var es, reach := run.ledger.events, if run.stop == GoalReachedStop then |run.submission| else n + 2;
    PublishedIsNamed(f, variant, costs, names);
    RunSearched(ch, cfg, budget, promote, run, reach);
    if run.stop == GoalReachedStop { TokensToGoal(n, costs, names, slotted, ch, run.submission); }
    SolutionIsCharged(n, costs, names, slotted, ch, cfg, es, reach, n + 1);
    PrefixReplays(n, costs, names, slotted, ch, n + 1);
    SolutionReachesGoal(n, costs, names, slotted, ch);
    BestReachesGoal(ch, es, run.submission, Prefix(names, n + 1));
    PrefixGrows(names, n + 1);
    TokensToGoal(n, costs, names, slotted, ch, run.submission);
  }

  lemma PublishedIsNamed(f: G.Family, variant: nat, costs: nat -> nat, names: Names)
    requires N.Injective(names)
    ensures NamedChallenge(G.Stages(f), costs, names, G.Generate(f, variant, costs), N.Published(f, variant, costs, names))
    ensures N.Published(f, variant, costs, names).maxLength == G.Stages(f) + 2
  {
    L.GeneratedChallenges(f, variant, costs);
  }

  lemma RunSearched(ch: Challenge, cfg: Config, budget: Limits, promote: Promotion, run: SystemRun, reach: nat)
    requires SolveMeans(ch, cfg, budget, promote, run) && Ample(ch, budget)
    requires !cfg.off.compiler && !cfg.off.scheduler && KeepsANearest(ch, promote)
    requires reach == if run.stop == GoalReachedStop then |run.submission| else ch.maxLength
    ensures Searched(ch, cfg, run.ledger.events, reach)
  {
  }

  /** Where some charged chain reaches the goal, the submission does, and is no longer. */
  lemma BestReachesGoal(ch: Challenge, es: seq<Event>, best: seq<Token>, c: seq<Token>)
    requires Replay(ch, ch.initial, best).Some? && BestCharged(ch, es, best)
    requires ChargedChain(es, c) && Replay(ch, ch.initial, c).Some? && GoalReached(ch, Replay(ch, ch.initial, c).value)
    ensures GoalReached(ch, Replay(ch, ch.initial, best).value) && |best| <= |c|
  {
    GoalRank(ch, PathTo(ch, c));
    GoalRank(ch, PathTo(ch, best));
  }

  // ---------- The simplest such promotion ----------

  /** Promotes everything it is offered. */
  function PromoteAll(history: seq<Batch>): Batch { if history == [] then [] else history[|history| - 1] }

  lemma PromoteAllKeepsANearest(ch: Challenge)
    ensures Promotes(PromoteAll) && KeepsANearest(ch, PromoteAll)
  {
    forall history: seq<Batch> | history != [] && Proper(ch, history[|history| - 1])
      ensures KeepsOne(ch, PromoteAll(history), history[|history| - 1])
    {
      forall t | t in history[|history| - 1] ensures t in PromoteAll(history) && NoFarther(ch, t, t) {}
    }
  }

  // ---------- Promotion by quality ----------

  /** The quality of a candidate falls with its distance from the goal. */
  function QualityAt(distance: nat, limit: nat): real {
    if distance == FAR then 0.05
    else if distance == 0 then 1.0
    else
      var q := 1.0 - distance as real / (limit + 1) as real;
      if q >= 0.1 then q else 0.1
  }

  ghost function Quality(ch: Challenge, t: seq<Token>): real
    requires Replay(ch, ch.initial, t).Some?
  {
    QualityAt(Rank(ch, PathTo(ch, t)), ch.maxLength)
  }

  /** The promotion used without world tiers: the `width` candidates of highest quality, ties in any order. */
  ghost predicate PromotesBest(ch: Challenge, width: nat, promote: Promotion) {
    forall history: seq<Batch> :: history != [] && Proper(ch, history[|history| - 1]) ==>
      BestOfBatch(ch, width, promote(history), history[|history| - 1])
  }

  ghost predicate BestOfBatch(ch: Challenge, width: nat, chosen: Batch, offered: Batch)
    requires Proper(ch, offered)
  {
    && Selects(chosen, offered) && |chosen| == (if |offered| <= width then |offered| else width)
    && forall c, t :: c in chosen && t in offered && t !in chosen ==> Quality(ch, c) >= Quality(ch, t)
  }

  lemma RanksAreShortOrFar(ch: Challenge, p: Path)
    ensures Rank(ch, p) <= ch.maxLength || Rank(ch, p) == FAR
  {
  }

  /** Up to chains of eight, quality tells every distance apart. */
  lemma QualityFalls(r: nat, q: nat, limit: nat)
    requires limit <= 8 && (r <= limit || r == FAR) && (q <= limit || q == FAR)
    ensures QualityAt(r, limit) >= QualityAt(q, limit) <==> r <= q
  {
    hide Rank;
    if r != FAR { QualityOfDistance(r, limit); }
    if q != FAR { QualityOfDistance(q, limit); }
    if q < r { Shares(q, r, (limit + 1) as real); }
    if r < q { Shares(r, q, (limit + 1) as real); }
  }

  lemma QualityTellsDistance(ch: Challenge, c: seq<Token>, t: seq<Token>)
    requires ch.maxLength <= 8 && Replay(ch, ch.initial, c).Some? && Replay(ch, ch.initial, t).Some?
    ensures Quality(ch, c) >= Quality(ch, t) <==> NoFarther(ch, c, t)
  {
    hide Rank, QualityAt;
    RanksAreShortOrFar(ch, PathTo(ch, c));
    RanksAreShortOrFar(ch, PathTo(ch, t));
    QualityFalls(Rank(ch, PathTo(ch, c)), Rank(ch, PathTo(ch, t)), ch.maxLength);
  }

  lemma QualityOfDistance(r: nat, limit: nat)
    requires r <= limit <= 8
    ensures 1.0 - r as real / (limit + 1) as real >= 1.0 / 9.0
  {
    var m := (limit + 1) as real;
    ShareIsSmall(r as real, m, r as real / m);
  }

  lemma ShareIsSmall(r: real, m: real, share: real)
    requires 0.0 < m <= 9.0 && r <= m - 1.0 && share * m == r
    ensures 1.0 - share >= 1.0 / 9.0
  {
    var d := 9.0 * (1.0 - share) - 1.0;
    assert d * m == 9.0 * (m - r) - m;
    Sign(d, m);
  }

  lemma Sign(d: real, m: real)
    requires m > 0.0 && d * m >= 0.0
    ensures d >= 0.0
  {
  }

  lemma Shares(q: nat, r: nat, m: real)
    requires q < r && m > 0.0
    ensures q as real / m < r as real / m
  {
  }

  lemma BestKeepsANearest(ch: Challenge, width: nat, promote: Promotion)
    requires ch.maxLength <= 8 && width >= 1 && PromotesBest(ch, width, promote)
    ensures KeepsANearest(ch, promote)
  {
    hide Quality, NoFarther;
    forall history: seq<Batch> | history != [] && Proper(ch, history[|history| - 1])
      ensures KeepsOne(ch, promote(history), history[|history| - 1])
    {
      var chosen, offered := promote(history), history[|history| - 1];
      assert BestOfBatch(ch, width, chosen, offered);
      forall t | t in offered ensures exists c :: c in chosen && NoFarther(ch, c, t) {
        var c := if t in chosen then t else chosen[0];
        QualityTellsDistance(ch, c, t);
      }
    }
  }

  /** Without world tiers the promotion is by quality, so a beam of any positive width finds the
      shortest solution of every published challenge. */
  lemma BeamIsComplete(f: G.Family, variant: nat, costs: nat -> nat, names: Names, cfg: Config, budget: Limits,
                       promote: Promotion, run: SystemRun)
    requires N.Injective(names) && SolveMeans(N.Published(f, variant, costs, names), cfg, budget, promote, run)
    requires Ample(N.Published(f, variant, costs, names), budget) && !cfg.off.compiler && !cfg.off.scheduler
    requires cfg.beamWidth >= 1 && PromotesBest(N.Published(f, variant, costs, names), cfg.beamWidth, promote)
    ensures run.stop == GoalReachedStop
    ensures run.submission == N.NamesOf(names, G.UpTo(G.Stages(f) + 1))
  {
    hide SolveMeans, Ample, PromotesBest, KeepsANearest;
    PublishedIsNamed(f, variant, costs, names);
    BestKeepsANearest(N.Published(f, variant, costs, names), cfg.beamWidth, promote);
    TieredIsComplete(f, variant, costs, names, cfg, budget, promote, run);
  }
}

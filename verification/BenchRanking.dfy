/** The order in which the tiered solver prefers its paths: nearest to the goal first, then
    shortest, then first by tokens. */
module BenchRanking {
  import opened Wrappers
  import opened BenchModel
  import opened BenchBfs

  datatype Path = Path(state: State, tokens: seq<Token>)

  /** The rank of a path from which no goal is within reach. */
  const FAR: nat := 1_000_000

  function NodeOf(p: Path): Node { Node(p.state, set t | t in p.tokens) }

  ghost predicate Within(ch: Challenge, p: Path, n: nat) { n <= ch.maxLength && IsDistance(ch, NodeOf(p), n) }

  ghost function Rank(ch: Challenge, p: Path): nat {
    if exists n: nat :: Within(ch, p, n) then var n: nat :| Within(ch, p, n); n else FAR
  }

  method RankPath(ch: Challenge, p: Path) returns (r: nat)
    ensures r == Rank(ch, p)
  {
    var steps := MinimumRemainingSteps(ch, p.state, set t | t in p.tokens);
    if steps.Some? {
      assert Within(ch, p, steps.value);
      return steps.value;
    }
    assert forall n: nat :: !Within(ch, p, n);
    r := FAR;
  }

  /** Rank zero is the goal itself. */
  lemma GoalRank(ch: Challenge, p: Path)
    ensures Rank(ch, p) == 0 <==> GoalReached(ch, p.state)
  {
    if GoalReached(ch, p.state) {
      assert Within(ch, p, 0);
    }
  }

  // ---------- The order ----------

  predicate LexLe(a: seq<Token>, b: seq<Token>)
    requires |a| == |b|
    decreases |a|
  {
    a == [] || a[0] < b[0] || (a[0] == b[0] && LexLe(a[1..], b[1..]))
  }

  /** Equal, or smaller at the first token in which they differ. */
  ghost predicate FirstDifference(a: seq<Token>, b: seq<Token>, k: int)
    requires |a| == |b|
  {
    0 <= k < |a| && (forall i :: 0 <= i < k ==> a[i] == b[i]) && a[k] < b[k]
  }

  lemma {:induction false} LexLeIsAscending(a: seq<Token>, b: seq<Token>)
    requires |a| == |b|
    ensures LexLe(a, b) <==> a == b || exists k :: FirstDifference(a, b, k)
    decreases |a|
  {
    if a != [] {
      assert a == [a[0]] + a[1..] && b == [b[0]] + b[1..];
      LexLeIsAscending(a[1..], b[1..]);
      if a[0] < b[0] { assert FirstDifference(a, b, 0); }
      if k :| FirstDifference(a[1..], b[1..], k) && a[0] == b[0] {
        assert forall i :: 0 < i < k + 1 ==> a[i] == a[1..][i - 1] && b[i] == b[1..][i - 1];
        assert FirstDifference(a, b, k + 1);
      }
      if k :| FirstDifference(a, b, k) && k > 0 {
        assert FirstDifference(a[1..], b[1..], k - 1);
      }
    }
  }

  lemma {:induction false} LexTotal(a: seq<Token>, b: seq<Token>)
    requires |a| == |b|
    ensures LexLe(a, b) || LexLe(b, a)
    ensures LexLe(a, b) && LexLe(b, a) ==> a == b
    decreases |a|
  {
    if a != [] {
      LexTotal(a[1..], b[1..]);
      assert a == [a[0]] + a[1..] && b == [b[0]] + b[1..];
    }
  }

  lemma {:induction false} LexTransitive(a: seq<Token>, b: seq<Token>, c: seq<Token>)
    requires |a| == |b| == |c| && LexLe(a, b) && LexLe(b, c)
    ensures LexLe(a, c)
    decreases |a|
  {
    if a != [] && a[0] == b[0] == c[0] { LexTransitive(a[1..], b[1..], c[1..]); }
  }

  predicate PathLe(a: Path, b: Path) {
    |a.tokens| < |b.tokens| || (|a.tokens| == |b.tokens| && LexLe(a.tokens, b.tokens))
  }

  /** Shorter, or of one length and smaller at the first token in which they differ, or the same. */
  lemma PathOrder(a: Path, b: Path)
    ensures PathLe(a, b) <==>
              || |a.tokens| < |b.tokens|
              || a.tokens == b.tokens
              || (|a.tokens| == |b.tokens| && exists k :: FirstDifference(a.tokens, b.tokens, k))
  {
    if |a.tokens| == |b.tokens| { LexLeIsAscending(a.tokens, b.tokens); }
  }

  /** No worse than: compared by rank, then by the order of the paths. */
  predicate NoWorse(ra: nat, a: Path, rb: nat, b: Path) { ra < rb || (ra == rb && PathLe(a, b)) }

  lemma NoWorseIsAnOrder(ra: nat, a: Path, rb: nat, b: Path, rc: nat, c: Path)
    ensures NoWorse(ra, a, rb, b) || NoWorse(rb, b, ra, a)
    ensures NoWorse(ra, a, rb, b) && NoWorse(rb, b, rc, c) ==> NoWorse(ra, a, rc, c)
    ensures NoWorse(ra, a, ra, a)
  {
    LexTotal(a.tokens, a.tokens);
    if |a.tokens| == |b.tokens| {
      LexTotal(a.tokens, b.tokens);
      if |b.tokens| == |c.tokens| && LexLe(a.tokens, b.tokens) && LexLe(b.tokens, c.tokens) {
        LexTransitive(a.tokens, b.tokens, c.tokens);
      }
    }
  }

  ghost predicate BestOf(ch: Challenge, paths: seq<Path>, best: Path) {
    best in paths && forall p :: p in paths ==> NoWorse(Rank(ch, best), best, Rank(ch, p), p)
  }

  lemma BestOfMore(ch: Challenge, paths: seq<Path>, best: Path, p: Path)
    requires BestOf(ch, paths, best)
    ensures BestOf(ch, paths + [p], if NoWorse(Rank(ch, best), best, Rank(ch, p), p) then best else p)
  {
    forall q | q in paths + [p] {
      NoWorseIsAnOrder(Rank(ch, p), p, Rank(ch, best), best, Rank(ch, q), q);
    }
  }

  lemma BestOfOne(ch: Challenge, p: Path)
    ensures BestOf(ch, [p], p)
  {
    NoWorseIsAnOrder(Rank(ch, p), p, Rank(ch, p), p, Rank(ch, p), p);
  }

  /** The path nearest to the goal, ties broken by the order of the paths. */
  method Nearest(ch: Challenge, paths: seq<Path>) returns (best: Path)
    requires paths != []
    ensures BestOf(ch, paths, best)
  {
    best := paths[0];
    var rank := RankPath(ch, best);
    BestOfOne(ch, best);
    assert paths[..1] == [best];
    for i := 1 to |paths|
      invariant BestOf(ch, paths[..i], best) && rank == Rank(ch, best)
    {
      var r := RankPath(ch, paths[i]);
      BestOfMore(ch, paths[..i], best, paths[i]);
      assert paths[..i + 1] == paths[..i] + [paths[i]];
      if !NoWorse(rank, best, r, paths[i]) {
        best, rank := paths[i], r;
      }
    }
    assert paths[..|paths|] == paths;
  }

  lemma GoalsCompareByOrder(ch: Challenge, a: Path, b: Path)
    requires GoalReached(ch, a.state)
    ensures GoalReached(ch, b.state) ==> (NoWorse(Rank(ch, a), a, Rank(ch, b), b) <==> PathLe(a, b))
    ensures !GoalReached(ch, b.state) ==> NoWorse(Rank(ch, a), a, Rank(ch, b), b)
  {
    GoalRank(ch, a);
    GoalRank(ch, b);
  }

  /** Among paths that reach the goal, the first by the order of the paths. */
  method First(ch: Challenge, paths: seq<Path>) returns (best: Path)
    requires paths != [] && forall p :: p in paths ==> GoalReached(ch, p.state)
    ensures BestOf(ch, paths, best)
  {
    best := paths[0];
    BestOfOne(ch, best);
    assert paths[..1] == [best];
    for i := 1 to |paths|
      invariant BestOf(ch, paths[..i], best)
    {
      BestOfMore(ch, paths[..i], best, paths[i]);
      GoalsCompareByOrder(ch, best, paths[i]);
      assert paths[..i + 1] == paths[..i] + [paths[i]];
      if !PathLe(best, paths[i]) {
        best := paths[i];
      }
    }
    assert paths[..|paths|] == paths;
  }

  /** The best of the paths that reach the goal is the best of all. */
  lemma GoalsComeFirst(ch: Challenge, goals: seq<Path>, all: seq<Path>, best: Path)
    requires BestOf(ch, goals, best) && best in all && GoalReached(ch, best.state)
    requires forall p :: p in all && GoalReached(ch, p.state) ==> p in goals
    ensures BestOf(ch, all, best)
  {
    forall p | p in all { GoalsCompareByOrder(ch, best, p); }
  }
}

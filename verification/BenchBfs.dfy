/** The breadth-first distance to the goal, and why deduplication on state and consumed tokens
    loses nothing: the consumed tokens already fix the depth. */
module BenchBfs {
  import opened Wrappers
  import opened BenchModel

  datatype Node = Node(state: State, used: set<Token>)

  predicate Usable(a: Action, x: Node) { a.token !in x.used && Applicable(a, x.state) }

  function Follow(a: Action, x: Node): Node { Node(Apply(a, x.state), x.used + {a.token}) }

  function Successors(ch: Challenge, x: Node): set<Node> {
    set a | a in ch.actions && Usable(a, x) :: Follow(a, x)
  }

  // ---------- Move sequences ----------

  /** A sequence of distinct unused applicable actions. */
  predicate Valid(ch: Challenge, x: Node, acts: seq<Action>)
    decreases |acts|
  {
    acts == [] || (acts[0] in ch.actions && Usable(acts[0], x) && Valid(ch, Follow(acts[0], x), acts[1..]))
  }

  function End(x: Node, acts: seq<Action>): Node
    decreases |acts|
  {
    if acts == [] then x else End(Follow(acts[0], x), acts[1..])
  }

  ghost predicate Solves(ch: Challenge, x: Node, acts: seq<Action>) {
    Valid(ch, x, acts) && GoalReached(ch, End(x, acts).state)
  }

  ghost predicate IsDistance(ch: Challenge, x: Node, n: nat) {
    && (exists acts :: Solves(ch, x, acts) && |acts| == n)
    && forall acts :: Solves(ch, x, acts) ==> n <= |acts|
  }

  // ---------- Levels ----------

  /** The nodes reached by exactly `k` moves. */
  ghost function Level(ch: Challenge, x: Node, k: nat): set<Node> {
    if k == 0 then {x} else set n, m | n in Level(ch, x, k - 1) && m in Successors(ch, n) :: m
  }

  ghost function UpTo(ch: Challenge, x: Node, k: nat): set<Node> {
    if k == 0 then {x} else UpTo(ch, x, k - 1) + Level(ch, x, k)
  }

  lemma {:induction false} LevelsAreInside(ch: Challenge, x: Node, j: nat, k: nat)
    requires j <= k
    ensures Level(ch, x, j) <= UpTo(ch, x, k)
    decreases k
  {
    if j < k { LevelsAreInside(ch, x, j, k - 1); }
  }

  /** Every move consumes one new token, so the consumed tokens tell the level. */
  lemma {:induction false} LevelCountsTokens(ch: Challenge, x: Node, k: nat, n: Node)
    requires n in Level(ch, x, k)
    ensures x.used <= n.used && |n.used| == |x.used| + k
  {
    if k > 0 {
      var p :| p in Level(ch, x, k - 1) && n in Successors(ch, p);
      LevelCountsTokens(ch, x, k - 1, p);
    }
  }

  lemma {:induction false} ValidAppend(ch: Challenge, x: Node, acts: seq<Action>, a: Action)
    requires Valid(ch, x, acts) && a in ch.actions && Usable(a, End(x, acts))
    ensures Valid(ch, x, acts + [a]) && End(x, acts + [a]) == Follow(a, End(x, acts))
    decreases |acts|
  {
    if acts == [] {
      assert [a][1..] == [];
    } else {
      assert (acts + [a])[1..] == acts[1..] + [a];
      ValidAppend(ch, Follow(acts[0], x), acts[1..], a);
    }
  }

  lemma {:induction false} LevelsHaveSequences(ch: Challenge, x: Node, k: nat, n: Node) returns (acts: seq<Action>)
    requires n in Level(ch, x, k)
    ensures Valid(ch, x, acts) && |acts| == k && End(x, acts) == n
  {
    if k == 0 {
      acts := [];
    } else {
      var p :| p in Level(ch, x, k - 1) && n in Successors(ch, p);
      var init := LevelsHaveSequences(ch, x, k - 1, p);
      var a :| a in ch.actions && Usable(a, p) && n == Follow(a, p);
      ValidAppend(ch, x, init, a);
      acts := init + [a];
    }
  }

  lemma {:induction false} SequencesStayInLevels(ch: Challenge, root: Node, j: nat, x: Node, acts: seq<Action>)
    requires x in Level(ch, root, j) && Valid(ch, x, acts)
    ensures End(x, acts) in Level(ch, root, j + |acts|)
    decreases |acts|
  {
    if acts != [] {
      assert Follow(acts[0], x) in Successors(ch, x);
      SequencesStayInLevels(ch, root, j + 1, Follow(acts[0], x), acts[1..]);
    }
  }

  // ---------- The search ----------

  datatype Entry = Entry(node: Node, depth: nat)

  ghost predicate Queued(queue: seq<Entry>, n: Node) { exists i :: 0 <= i < |queue| && queue[i].node == n }

  ghost predicate Known(ch: Challenge, x: Node, n: Node, depth: nat) {
    n in Level(ch, x, depth) && !GoalReached(ch, n.state) && depth <= ch.maxLength
  }

  function Depth(x: Node, n: Node): int { |n.used| - |x.used| }

  ghost predicate Expanded(ch: Challenge, visited: set<Node>, n: Node) { Successors(ch, n) <= visited }

  /** The queue holds visited nodes of levels `lo` and `lo + 1`, shallow ones first. */
  ghost predicate QueueInv(x: Node, queue: seq<Entry>, visited: set<Node>, lo: nat) {
    && (forall i :: 0 <= i < |queue| ==>
          queue[i].node in visited && queue[i].depth == Depth(x, queue[i].node) && lo <= queue[i].depth <= lo + 1)
    && (forall i, j :: 0 <= i < j < |queue| ==> queue[i].depth <= queue[j].depth)
  }

  ghost predicate VisitedInv(ch: Challenge, x: Node, visited: set<Node>) {
    forall n :: n in visited ==> Depth(x, n) >= 0 && Known(ch, x, n, Depth(x, n))
  }

  /** What has left the queue has been expanded, except for the nodes in `open`. */
  ghost predicate ExpandedInv(ch: Challenge, x: Node, queue: seq<Entry>, visited: set<Node>, open: set<Node>) {
    forall n :: n in visited && n !in open && !Queued(queue, n) && Depth(x, n) < ch.maxLength ==> Expanded(ch, visited, n)
  }

  ghost predicate LevelsInv(ch: Challenge, x: Node, visited: set<Node>, lo: nat) {
    forall k: nat :: k <= lo ==> Level(ch, x, k) <= visited
  }

  ghost predicate SearchInv(ch: Challenge, x: Node, queue: seq<Entry>, visited: set<Node>, open: set<Node>, lo: nat) {
    && QueueInv(x, queue, visited, lo) && VisitedInv(ch, x, visited)
    && ExpandedInv(ch, x, queue, visited, open) && LevelsInv(ch, x, visited, lo)
  }

  /** When nothing of level `lo` waits any more, all of level `lo + 1` has been visited. */
  lemma LevelComplete(ch: Challenge, x: Node, queue: seq<Entry>, visited: set<Node>, lo: nat)
    requires SearchInv(ch, x, queue, visited, {}, lo) && lo < ch.maxLength
    requires forall i :: 0 <= i < |queue| ==> queue[i].depth == lo + 1
    ensures LevelsInv(ch, x, visited, lo + 1)
  {
    forall m | m in Level(ch, x, lo + 1) ensures m in visited {
      var n :| n in Level(ch, x, lo) && m in Successors(ch, n);
      LevelCountsTokens(ch, x, lo, n);
      assert n in visited && !Queued(queue, n);
      assert Expanded(ch, visited, n);
    }
  }

  lemma NextLevelVisited(ch: Challenge, x: Node, visited: set<Node>, k: nat)
    requires ExpandedInv(ch, x, [], visited, {}) && Level(ch, x, k) <= visited && k < ch.maxLength
    ensures Level(ch, x, k + 1) <= visited
  {
    forall m | m in Level(ch, x, k + 1) ensures m in visited {
      var n :| n in Level(ch, x, k) && m in Successors(ch, n);
      LevelCountsTokens(ch, x, k, n);
      assert !Queued([], n);
      assert Expanded(ch, visited, n);
    }
  }

  lemma {:induction false} AllLevelsVisited(ch: Challenge, x: Node, visited: set<Node>, lo: nat, k: nat)
    requires ExpandedInv(ch, x, [], visited, {}) && LevelsInv(ch, x, visited, lo) && lo <= k <= ch.maxLength
    ensures LevelsInv(ch, x, visited, k)
  {
    if k > lo {
      AllLevelsVisited(ch, x, visited, lo, k - 1);
      assert Level(ch, x, k - 1) <= visited;
      NextLevelVisited(ch, x, visited, k - 1);
    }
  }

  lemma LevelSuccessor(ch: Challenge, x: Node, k: nat, n: Node, m: Node)
    requires n in Level(ch, x, k) && m in Successors(ch, n)
    ensures m in Level(ch, x, k + 1) && Depth(x, m) == k + 1
  {
    LevelCountsTokens(ch, x, k + 1, m);
  }

  /** No solution is as short as the visited levels. */
  lemma VisitedLevelsHoldNoSolution(ch: Challenge, x: Node, visited: set<Node>, k: nat, acts: seq<Action>)
    requires VisitedInv(ch, x, visited) && LevelsInv(ch, x, visited, k)
    requires Solves(ch, x, acts)
    ensures |acts| > k
  {
    SequencesStayInLevels(ch, x, 0, x, acts);
  }

  lemma QueuedMonotone(queue: seq<Entry>, e: Entry, n: Node)
    ensures Queued(queue + [e], n) <==> Queued(queue, n) || n == e.node
  {
    var longer := queue + [e];
    if Queued(queue, n) {
      var i :| 0 <= i < |queue| && queue[i].node == n;
      assert longer[i].node == n;
    }
    if n == e.node { assert longer[|queue|].node == n; }
  }

  lemma PushKeepsQueue(x: Node, e: Entry, queue: seq<Entry>, visited: set<Node>, lo: nat)
    requires QueueInv(x, queue, visited, lo) && e.depth == lo + 1 == Depth(x, e.node)
    ensures QueueInv(x, queue + [e], visited + {e.node}, lo)
  {
  }

  lemma GrowKeepsLevels(ch: Challenge, x: Node, visited: set<Node>, more: set<Node>, lo: nat)
    requires LevelsInv(ch, x, visited, lo) && visited <= more
    ensures LevelsInv(ch, x, more, lo)
  {
  }

  /** Pushing a new non-goal successor of the node being expanded. */
  lemma PushKeepsInv(ch: Challenge, x: Node, current: Entry, queue: seq<Entry>, visited: set<Node>, m: Node)
    requires SearchInv(ch, x, queue, visited, {current.node}, current.depth)
    requires current.node in visited && current.depth == Depth(x, current.node) < ch.maxLength
    requires m in Successors(ch, current.node) && !GoalReached(ch, m.state)
    ensures SearchInv(ch, x, queue + [Entry(m, current.depth + 1)], visited + {m}, {current.node}, current.depth)
  {
    var e := Entry(m, current.depth + 1);
    PushKeepsQueue(x, e, queue, visited, current.depth);
    PushKeepsExpanded(ch, x, e, queue, visited, {current.node});
    GrowKeepsLevels(ch, x, visited, visited + {m}, current.depth);
  }

  lemma PushKeepsExpanded(ch: Challenge, x: Node, e: Entry, queue: seq<Entry>, visited: set<Node>, open: set<Node>)
    requires ExpandedInv(ch, x, queue, visited, open)
    ensures ExpandedInv(ch, x, queue + [e], visited + {e.node}, open)
  {
    forall n | n in visited + {e.node} && n !in open && !Queued(queue + [e], n) && Depth(x, n) < ch.maxLength
      ensures Expanded(ch, visited + {e.node}, n)
    {
      QueuedMonotone(queue, e, n);
    }
  }

  lemma QueuedHead(queue: seq<Entry>, n: Node)
    requires queue != []
    ensures Queued(queue, n) <==> n == queue[0].node || Queued(queue[1..], n)
  {
    assert forall i :: 0 < i < |queue| ==> queue[1..][i - 1] == queue[i];
  }

  lemma PopOpens(ch: Challenge, x: Node, queue: seq<Entry>, visited: set<Node>)
    requires queue != [] && ExpandedInv(ch, x, queue, visited, {})
    ensures ExpandedInv(ch, x, queue[1..], visited, {queue[0].node})
  {
    forall n { QueuedHead(queue, n); }
  }

  /** Expands one node: pushes its new successors, or stops at the first that meets the goal. */
  method Expand(ch: Challenge, ghost x: Node, current: Entry, queue0: seq<Entry>, visited0: set<Node>)
    returns (hit: bool, queue: seq<Entry>, visited: set<Node>)
    requires SearchInv(ch, x, queue0, visited0, {current.node}, current.depth)
    requires current.node in visited0 && current.depth == Depth(x, current.node) < ch.maxLength
    ensures hit ==> exists m :: m in Successors(ch, current.node) && GoalReached(ch, m.state)
    ensures !hit ==> SearchInv(ch, x, queue, visited, {current.node}, current.depth)
    ensures !hit ==> Expanded(ch, visited, current.node)
    ensures !hit ==> (queue == queue0 && visited == visited0) || visited0 < visited
  {
    hide SearchInv, Level, Depth, GoalReached;
    queue, visited := queue0, visited0;
    for i := 0 to |ch.actions|
      invariant SearchInv(ch, x, queue, visited, {current.node}, current.depth)
      invariant (queue == queue0 && visited == visited0) || visited0 < visited
      invariant forall j :: 0 <= j < i && Usable(ch.actions[j], current.node) ==> Follow(ch.actions[j], current.node) in visited
    {
      var a := ch.actions[i];
      if Usable(a, current.node) {
        var m := Follow(a, current.node);
        assert m in Successors(ch, current.node);
        if GoalReached(ch, m.state) {
          return true, queue, visited;
        }
        if m !in visited {
          PushKeepsInv(ch, x, current, queue, visited, m);
          visited := visited + {m};
          queue := queue + [Entry(m, current.depth + 1)];
        }
      }
    }
    hit := false;
  }

  lemma Close(ch: Challenge, x: Node, queue: seq<Entry>, visited: set<Node>, n: Node, lo: nat)
    requires SearchInv(ch, x, queue, visited, {n}, lo)
    requires Depth(x, n) >= ch.maxLength || Expanded(ch, visited, n)
    ensures SearchInv(ch, x, queue, visited, {}, lo)
  {
  }

  lemma KnownNodesAreInside(ch: Challenge, x: Node, visited: set<Node>)
    requires VisitedInv(ch, x, visited)
    ensures visited <= UpTo(ch, x, ch.maxLength)
  {
    forall n | n in visited ensures n in UpTo(ch, x, ch.maxLength) {
      LevelsAreInside(ch, x, Depth(x, n), ch.maxLength);
    }
  }

  lemma HitIsADistance(ch: Challenge, x: Node, visited: set<Node>, n: Node, m: Node, depth: nat)
    requires VisitedInv(ch, x, visited) && LevelsInv(ch, x, visited, depth)
    requires n in Level(ch, x, depth) && m in Successors(ch, n) && GoalReached(ch, m.state)
    ensures IsDistance(ch, x, depth + 1)
  {
    LevelSuccessor(ch, x, depth, n, m);
    var acts := LevelsHaveSequences(ch, x, depth + 1, m);
    assert Solves(ch, x, acts);
    forall other | Solves(ch, x, other) ensures depth + 1 <= |other| {
      VisitedLevelsHoldNoSolution(ch, x, visited, depth, other);
    }
  }

  lemma StartOfSearch(ch: Challenge, x: Node)
    ensures GoalReached(ch, x.state) ==> IsDistance(ch, x, 0)
    ensures !GoalReached(ch, x.state) ==> SearchInv(ch, x, [Entry(x, 0)], {x}, {}, 0)
  {
    var queue := [Entry(x, 0)];
    assert queue[0].node == x;
    if GoalReached(ch, x.state) { assert Solves(ch, x, []); }
  }

  /** Exactness: the result is n if and only if the shortest solution has n moves and n is at
      most the chain limit, and None if and only if no solution is that short. */
  method MinimumRemainingSteps(ch: Challenge, state: State, used: set<Token>) returns (r: Option<nat>)
    ensures r.Some? ==> IsDistance(ch, Node(state, used), r.value) && r.value <= ch.maxLength
    ensures r.None? ==> forall acts :: Solves(ch, Node(state, used), acts) ==> |acts| > ch.maxLength
  {
    hide Level, UpTo, IsDistance, Solves, Successors, Expanded, LevelsInv, ExpandedInv;
    var x := Node(state, used);
    StartOfSearch(ch, x);
    if GoalReached(ch, state) {
      return Some(0);
    }
    var queue := [Entry(x, 0)];
    var visited := {x};
    ghost var lo := 0;
    while queue != []
      invariant SearchInv(ch, x, queue, visited, {}, lo) && lo <= ch.maxLength
      decreases UpTo(ch, x, ch.maxLength) - visited, |queue|
    {
      var current := queue[0];
      if current.depth > lo {
        LevelComplete(ch, x, queue, visited, lo);
        lo := lo + 1;
      }
      PopOpens(ch, x, queue, visited);
      queue := queue[1..];
      assert current.node in Level(ch, x, current.depth);
      if current.depth < ch.maxLength {
        var hit, q, v := Expand(ch, x, current, queue, visited);
        if hit {
          ghost var m :| m in Successors(ch, current.node) && GoalReached(ch, m.state);
          HitIsADistance(ch, x, visited, current.node, m, current.depth);
          return Some(current.depth + 1);
        }
        queue, visited := q, v;
      }
      Close(ch, x, queue, visited, current.node, lo);
      KnownNodesAreInside(ch, x, visited);
    }
    AllLevelsVisited(ch, x, visited, lo, ch.maxLength);
    forall acts | Solves(ch, x, acts) ensures |acts| > ch.maxLength {
      VisitedLevelsHoldNoSolution(ch, x, visited, ch.maxLength, acts);
    }
    r := None;
  }
}

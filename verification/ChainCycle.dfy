/** Depth-first detection of a dependency cycle: from each fragment to the producers of its
    initially unmet preconditions. */
module ChainCycle {
  import opened Wrappers
  import opened ChainModel

  predicate Supports(e: Effect, c: Condition) {
    && e.path == c.path && c.reference.None?
    && match e.operation
       case SET => c.operator == EQ && PyEq(e.value, c.value)
       case ADD => c.operator == CONTAINS || c.operator == EXISTS
       case REMOVE => c.operator == NOT_EXISTS || c.operator == NOT_CONTAINS
       case _ => false
  }

  predicate Produces(f: Fragment, c: Condition) { exists e :: e in f.effects && Supports(e, c) }

  /** `a` waits for `b`: some initially unmet precondition of `a` is supported by an effect of `b`. */
  predicate WaitsFor(a: Fragment, b: Fragment, initial: State) {
    exists c :: c in a.pre && !Holds(c, initial) && Produces(b, c)
  }

  type Graph = g: map<Id, set<Id>> | forall v :: v in g ==> g[v] <= g.Keys witness map[]

  /** A closed walk: consecutive ids are edges and the last id is the first. */
  ghost predicate IsCycle(g: Graph, p: seq<Id>) {
    && |p| >= 2 && p[0] == p[|p| - 1]
    && forall i :: 0 <= i < |p| - 1 ==> p[i] in g && p[i + 1] in g[p[i]]
  }

  ghost predicate HasCycle(g: Graph) { exists p :: IsCycle(g, p) }

  class CycleFinder {
    const edges: Graph
    var visited: set<Id>
    var active: set<Id>
    ghost var stack: seq<Id>
    ghost var rank: map<Id, nat>
    ghost var clock: nat

    /** The active nodes lie on one path, and every edge out of a finished node goes to a node
        that finished earlier. */
    ghost predicate Valid()
      reads this
    {
      && active <= visited <= edges.Keys
      && (forall v :: v in active <==> v in stack)
      && (forall i :: 0 <= i < |stack| - 1 ==> stack[i] in edges && stack[i + 1] in edges[stack[i]])
      && (forall v :: v in visited - active ==>
            && v in rank && rank[v] < clock
            && forall c :: c in edges[v] ==> c in visited - active && c in rank && rank[c] < rank[v])
    }

    constructor (edges: Graph)
      ensures Valid() && this.edges == edges && visited == {} && active == {} && stack == []
    {
      this.edges := edges;
      visited, active := {}, {};
      stack, rank, clock := [], map[], 0;
    }

    /** An edge back to the active path closes a cycle. */
    lemma BackEdge(id: Id)
      requires Valid() && id in active
      requires stack[|stack| - 1] in edges && id in edges[stack[|stack| - 1]]
      ensures HasCycle(edges)
    {
      var i :| 0 <= i < |stack| && stack[i] == id;
      var p := stack[i..] + [id];
      assert forall k :: 0 <= k < |p| - 1 ==> p[k] == stack[i + k];
      assert IsCycle(edges, p);
    }

    /** The newcomer extends the active path by one edge. */
    ghost predicate Extends(id: Id)
      reads this
    {
      stack != [] ==> stack[|stack| - 1] in edges && id in edges[stack[|stack| - 1]]
    }

    method Enter(id: Id)
      requires Valid() && id in edges && id !in visited && Extends(id)
      modifies this
      ensures Valid() && visited == old(visited) + {id} && active == old(active) + {id}
      ensures stack == old(stack) + [id]
    {
      visited := visited + {id};
      active := active + {id};
      stack := stack + [id];
    }

    method Leave(id: Id, ghost before: seq<Id>)
      requires Valid() && stack == before + [id] && id in edges && id !in before
      requires forall c :: c in edges[id] ==> c in visited - active
      modifies this
      ensures Valid() && visited == old(visited) && active == old(active) - {id} && stack == before
    {
      assert forall i :: 0 <= i < |before| ==> before[i] == stack[i];
      assert forall v :: v in stack <==> v in before || v == id;
      rank := rank[id := clock];
      clock := clock + 1;
      stack := before;
      active := active - {id};
    }

    method Visit(id: Id) returns (cyclic: bool)
      requires Valid() && id in edges && Extends(id)
      modifies this
      decreases edges.Keys - visited
      ensures cyclic ==> HasCycle(edges)
      ensures !cyclic ==> Valid() && active == old(active) && stack == old(stack)
      ensures !cyclic ==> old(visited) <= visited && id in visited - active
    {
      if id in active {
        BackEdge(id);
        return true;
      }
      if id in visited {
        return false;
      }
      Enter(id);
      var pending := edges[id];
      cyclic := false;
      while pending != {} && !cyclic
        invariant pending <= edges[id]
        invariant cyclic ==> HasCycle(edges)
        invariant !cyclic ==> Valid() && active == old(active) + {id} && stack == old(stack) + [id]
        invariant !cyclic ==> old(visited) + {id} <= visited
        invariant !cyclic ==> forall c :: c in edges[id] - pending ==> c in visited - active
        decreases !cyclic, pending
      {
        var child :| child in pending;
        cyclic := Visit(child);
        pending := pending - {child};
      }
      if cyclic {
        active := active - {id};
      } else {
        Leave(id, old(stack));
      }
    }
  }

  /** Ranks that fall along every edge leave no room for a closed walk. */
  lemma RanksFall(g: Graph, rank: map<Id, nat>, p: seq<Id>, k: nat)
    requires forall v :: v in g ==> v in rank && forall c :: c in g[v] ==> c in rank && rank[c] < rank[v]
    requires IsCycle(g, p) && 0 < k < |p|
    ensures p[k] in rank && p[0] in rank && rank[p[k]] < rank[p[0]]
  {
    if k > 1 { RanksFall(g, rank, p, k - 1); }
    assert p[k] in g[p[k - 1]];
  }

  lemma NoCycle(g: Graph, rank: map<Id, nat>)
    requires forall v :: v in g ==> v in rank && forall c :: c in g[v] ==> c in rank && rank[c] < rank[v]
    ensures !HasCycle(g)
  {
    forall p | IsCycle(g, p) ensures false {
      RanksFall(g, rank, p, |p| - 1);
    }
  }

  /** The search answers true if and only if the graph has a cycle, self-loops included. */
  method FindCycle(g: Graph, order: seq<Id>) returns (cyclic: bool)
    requires forall v :: v in order <==> v in g
    ensures cyclic <==> HasCycle(g)
  {
    var finder := new CycleFinder(g);
    for i := 0 to |order|
      invariant finder.edges == g && finder.Valid() && finder.active == {} && finder.stack == []
      invariant forall k :: 0 <= k < i ==> order[k] in finder.visited
    {
      var hit := finder.Visit(order[i]);
      if hit {
        return true;
      }
    }
    NoCycle(g, finder.rank);
    return false;
  }

  // ---------- The graph of a set of fragments ----------

  function Producers(nodes: seq<Fragment>, c: Condition): set<Id> {
    set f | f in nodes && Produces(f, c) :: f.id
  }

  /** The edges out of one fragment: the producers of each of its unmet preconditions. */
  function EdgesOf(nodes: seq<Fragment>, pre: seq<Condition>, initial: State): set<Id> {
    if pre == [] then {}
    else (if Holds(pre[0], initial) then {} else Producers(nodes, pre[0])) + EdgesOf(nodes, pre[1..], initial)
  }

  lemma {:induction false} EdgesOfAreUnmetProducers(nodes: seq<Fragment>, pre: seq<Condition>, initial: State, id: Id)
    ensures id in EdgesOf(nodes, pre, initial) <==>
              exists f, c :: f in nodes && f.id == id && c in pre && !Holds(c, initial) && Produces(f, c)
  {
    if pre != [] {
      EdgesOfAreUnmetProducers(nodes, pre[1..], initial, id);
      assert forall c :: c in pre <==> c == pre[0] || c in pre[1..];
    }
  }

  function DependencyMap(nodes: seq<Fragment>, initial: State): map<Id, set<Id>>
    requires DistinctIds(nodes)
  {
    map i | 0 <= i < |nodes| :: nodes[i].id := EdgesOf(nodes, nodes[i].pre, initial)
  }

  lemma EdgesMeanWaiting(nodes: seq<Fragment>, initial: State, a: Fragment, b: Fragment)
    requires DistinctIds(nodes) && a in nodes && b in nodes
    ensures a.id in DependencyMap(nodes, initial)
    ensures b.id in DependencyMap(nodes, initial)[a.id] <==> WaitsFor(a, b, initial)
  {
    EdgesOfAreUnmetProducers(nodes, a.pre, initial, b.id);
  }

  lemma EdgesStayInside(nodes: seq<Fragment>, initial: State)
    requires DistinctIds(nodes)
    ensures var g := DependencyMap(nodes, initial); forall v :: v in g ==> g[v] <= g.Keys
  {
    var g := DependencyMap(nodes, initial);
    forall v, w | v in g && w in g[v] ensures w in g {
      var a :| a in nodes && a.id == v;
      EdgesOfAreUnmetProducers(nodes, a.pre, initial, w);
    }
  }

  function DependencyGraph(nodes: seq<Fragment>, initial: State): Graph
    requires DistinctIds(nodes)
  {
    EdgesStayInside(nodes, initial);
    DependencyMap(nodes, initial)
  }

  /** Some fragments wait for each other in a circle. */
  ghost predicate IsWaitingCircle(nodes: seq<Fragment>, initial: State, p: seq<Fragment>) {
    && |p| >= 2 && p[0] == p[|p| - 1]
    && (forall i :: 0 <= i < |p| ==> p[i] in nodes)
    && forall i :: 0 <= i < |p| - 1 ==> WaitsFor(p[i], p[i + 1], initial)
  }

  ghost predicate CircularWait(nodes: seq<Fragment>, initial: State) {
    exists p :: IsWaitingCircle(nodes, initial, p)
  }

  lemma CirclesAreCycles(nodes: seq<Fragment>, initial: State, p: seq<Fragment>)
    requires DistinctIds(nodes) && IsWaitingCircle(nodes, initial, p)
    ensures IsCycle(DependencyGraph(nodes, initial), Ids(p))
  {
    forall i | 0 <= i < |p| - 1
      ensures Ids(p)[i] in DependencyGraph(nodes, initial) &&
              Ids(p)[i + 1] in DependencyGraph(nodes, initial)[Ids(p)[i]]
    {
      EdgesMeanWaiting(nodes, initial, p[i], p[i + 1]);
    }
  }

  function NodeOf(nodes: seq<Fragment>, id: Id): (f: Fragment)
    requires exists f :: f in nodes && f.id == id
    ensures f in nodes && f.id == id
  {
    if nodes[0].id == id then nodes[0] else NodeOf(nodes[1..], id)
  }

  lemma CyclesAreCircles(nodes: seq<Fragment>, initial: State, q: seq<Id>)
    requires DistinctIds(nodes) && IsCycle(DependencyGraph(nodes, initial), q)
    ensures CircularWait(nodes, initial)
  {
    var g := DependencyGraph(nodes, initial);
    forall i | 0 <= i < |q| ensures exists f :: f in nodes && f.id == q[i] {
      assert q[i] in g by { if i == |q| - 1 { assert q[0] in g; } }
    }
    var p := seq(|q|, i requires 0 <= i < |q| => NodeOf(nodes, q[i]));
    forall i | 0 <= i < |p| - 1 ensures WaitsFor(p[i], p[i + 1], initial) {
      EdgesMeanWaiting(nodes, initial, p[i], p[i + 1]);
    }
    assert IsWaitingCircle(nodes, initial, p);
  }

  /** The detector answers true if and only if some fragments wait for each other in a circle,
      a fragment that waits for itself included. */
  method HasDependencyCycle(nodes: seq<Fragment>, initial: State) returns (cyclic: bool)
    requires DistinctIds(nodes)
    ensures cyclic <==> CircularWait(nodes, initial)
  {
    var g := DependencyGraph(nodes, initial);
    assert forall v :: v in Ids(nodes) <==> v in g by {
      forall v | v in g ensures v in Ids(nodes) {
        var i :| 0 <= i < |nodes| && nodes[i].id == v;
        assert Ids(nodes)[i] == v;
      }
    }
    cyclic := FindCycle(g, Ids(nodes));
    if CircularWait(nodes, initial) {
      var p :| IsWaitingCircle(nodes, initial, p);
      CirclesAreCycles(nodes, initial, p);
    }
    if HasCycle(g) {
      var q :| IsCycle(g, q);
      CyclesAreCircles(nodes, initial, q);
    }
  }
}

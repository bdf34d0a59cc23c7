/** The worklist that closes the runtime lock over its dependencies: it computes the least
    fixpoint of the marker-true edges, whatever the order in which names are taken. */
module RuntimeClosure {
  import opened Wrappers

  type Name = nat
  type Marker = nat

  datatype MarkerValue = Holds | Fails | Unsupported
  datatype Dependency = Dependency(name: Name, marker: Option<Marker>)
  datatype SourceKind = Editable | Registry | Virtual
  datatype Package = Package(kind: SourceKind, dependencies: seq<Dependency>)
  /** A lock and the target's reading of its markers, which may not support them all. */
  datatype Lock = Lock(packages: map<Name, Package>, evaluate: Marker -> MarkerValue)

  datatype Closure = Closed(visited: set<Name>, runtime: map<Name, Package>) | DependencyMissing | MarkerUnsupported

  // ---------- Reachability ----------

  /** A dependency without a marker always applies; one with a marker applies where it holds. */
  ghost predicate Edge(lock: Lock, a: Name, b: Name) {
    a in lock.packages &&
    exists d :: d in lock.packages[a].dependencies && d.name == b &&
                (d.marker == None || exists m :: d.marker == Some(m) && lock.evaluate(m) == Holds)
  }

  ghost predicate Walk(lock: Lock, names: seq<Name>) {
    forall i :: 0 <= i < |names| - 1 ==> Edge(lock, names[i], names[i + 1])
  }

  ghost predicate Reachable(lock: Lock, roots: set<Name>, x: Name) {
    exists names: seq<Name> :: names != [] && names[0] in roots && names[|names| - 1] == x && Walk(lock, names)
  }

  ghost predicate ClosedUnder(lock: Lock, s: set<Name>) { forall a, b :: a in s && Edge(lock, a, b) ==> b in s }

  /** A dependency that stops the closure. */
  ghost predicate Absent(lock: Lock, x: Name) {
    exists y :: Edge(lock, x, y) && y !in lock.packages
  }

  ghost predicate Unread(lock: Lock, x: Name) {
    x in lock.packages &&
    exists d, m :: d in lock.packages[x].dependencies && d.marker == Some(m) && lock.evaluate(m) == Unsupported
  }

  lemma RootsAreReachable(lock: Lock, roots: set<Name>, x: Name)
    requires x in roots
    ensures Reachable(lock, roots, x)
  {
    assert Walk(lock, [x]) && [x][0] == x;
  }

  lemma StepsAreReachable(lock: Lock, roots: set<Name>, a: Name, b: Name)
    requires Reachable(lock, roots, a) && Edge(lock, a, b)
    ensures Reachable(lock, roots, b)
  {
    var names :| names != [] && names[0] in roots && names[|names| - 1] == a && Walk(lock, names);
    var longer := names + [b];
    assert Walk(lock, longer);
    assert longer[0] in roots && longer[|longer| - 1] == b;
  }

  lemma {:induction false} WalksStayInside(lock: Lock, s: set<Name>, names: seq<Name>, i: nat)
    requires ClosedUnder(lock, s) && i < |names| && names[0] in s && Walk(lock, names)
    ensures names[i] in s
  {
    if i > 0 {
      WalksStayInside(lock, s, names, i - 1);
      assert Edge(lock, names[i - 1], names[i - 1 + 1]);
    }
  }

  /** The reachable names are the least set that holds the roots and is closed under edges. */
  lemma ReachableIsLeast(lock: Lock, roots: set<Name>, s: set<Name>)
    requires roots <= s && ClosedUnder(lock, s)
    ensures forall x :: Reachable(lock, roots, x) ==> x in s
  {
    forall x | Reachable(lock, roots, x) ensures x in s {
      var names :| names != [] && names[0] in roots && names[|names| - 1] == x && Walk(lock, names);
      WalksStayInside(lock, s, names, |names| - 1);
    }
  }

  // ---------- The worklist ----------

  function ValueOf(lock: Lock, d: Dependency): MarkerValue {
    if d.marker.None? then Holds else lock.evaluate(d.marker.value)
  }

  /** The worklist's reading of a dependency against the markers themselves. */
  lemma ValueDecides(lock: Lock, x: Name, k: nat)
    requires x in lock.packages && k < |lock.packages[x].dependencies|
    ensures var d := lock.packages[x].dependencies[k];
            && (ValueOf(lock, d) == Holds ==> Edge(lock, x, d.name))
            && (ValueOf(lock, d) == Unsupported ==> Unread(lock, x))
  {
    var d := lock.packages[x].dependencies[k];
    if d.marker.Some? {
      assert d.marker == Some(d.marker.value);
    }
  }

  function NamesIn(names: seq<Name>): set<Name> { set x | x in names }

  /** What the closure promises: the reachable names and their registry part, or a reachable
      package whose dependencies cannot be followed. */
  ghost predicate ClosureMeans(lock: Lock, roots: set<Name>, r: Closure) {
    match r
    case Closed(visited, runtime) =>
      && (forall x :: x in visited <==> Reachable(lock, roots, x))
      && (forall x :: x in runtime <==> x in visited && x in lock.packages && lock.packages[x].kind == Registry)
      && (forall x :: x in runtime ==> runtime[x] == lock.packages[x])
      && (forall x :: Reachable(lock, roots, x) ==> !Absent(lock, x) && !Unread(lock, x))
    case DependencyMissing => exists x :: Reachable(lock, roots, x) && Absent(lock, x)
    case MarkerUnsupported => exists x :: Reachable(lock, roots, x) && Unread(lock, x)
  }

  ghost predicate Waiting(pending: seq<Name>, x: Name) { x in pending }

  /** The first `n` dependencies of `x` have been followed. */
  ghost predicate Followed(lock: Lock, visited: set<Name>, pending: seq<Name>, x: Name, n: nat)
    requires x in lock.packages && n <= |lock.packages[x].dependencies|
  {
    forall k :: 0 <= k < n ==>
      var d := lock.packages[x].dependencies[k];
      ValueOf(lock, d) != Unsupported &&
      (ValueOf(lock, d) == Holds ==> d.name in lock.packages && (d.name in visited || Waiting(pending, d.name)))
  }

  ghost predicate Explored(lock: Lock, visited: set<Name>, pending: seq<Name>, x: Name) {
    x in lock.packages && Followed(lock, visited, pending, x, |lock.packages[x].dependencies|)
  }

  /** Everything taken or waiting is known and reachable; what was taken, except `open`, has been
      followed. That waiting names are always in the lock makes the lookup of a taken name safe. */
  ghost predicate Progress(lock: Lock, roots: set<Name>, visited: set<Name>, pending: seq<Name>, open: set<Name>) {
    && (forall x :: x in visited || x in pending ==> x in lock.packages && Reachable(lock, roots, x))
    && (forall x :: x in roots ==> x in visited || x in pending)
    && (forall x :: x in visited && x !in open ==> Explored(lock, visited, pending, x))
  }

  ghost predicate RegistryOf(lock: Lock, visited: set<Name>, runtime: map<Name, Package>) {
    && (forall x :: x in runtime <==> x in visited && x in lock.packages && lock.packages[x].kind == Registry)
    && forall x :: x in runtime ==> runtime[x] == lock.packages[x]
  }

  /** Names are taken from any position; the original always takes the last. */
  ghost predicate Picks(pick: seq<Name> -> nat) { forall p: seq<Name> :: p != [] ==> pick(p) < |p| }

  lemma TakenOut(pending: seq<Name>, i: nat, x: Name)
    requires i < |pending|
    ensures x in pending <==> x == pending[i] || x in pending[..i] + pending[i + 1..]
  {
    assert pending == pending[..i] + [pending[i]] + pending[i + 1..];
  }

  /** Taking a waiting name opens it. */
  lemma TakeKeepsProgress(lock: Lock, roots: set<Name>, visited: set<Name>, pending: seq<Name>, i: nat)
    requires Progress(lock, roots, visited, pending, {}) && i < |pending|
    ensures var name, rest := pending[i], pending[..i] + pending[i + 1..];
            if name in visited then Progress(lock, roots, visited, rest, {})
            else Progress(lock, roots, visited + {name}, rest, {name})
  {
    var name, rest := pending[i], pending[..i] + pending[i + 1..];
    forall x { TakenOut(pending, i, x); }
    forall x | x in visited ensures Explored(lock, visited + {name}, rest, x) {
      assert Explored(lock, visited, pending, x);
    }
  }

  /** A taken name is always in the lock, so its lookup cannot fail. */
  lemma TakenIsKnown(lock: Lock, roots: set<Name>, visited: set<Name>, pending: seq<Name>, i: nat)
    requires Progress(lock, roots, visited, pending, {}) && i < |pending|
    ensures pending[i] in lock.packages
  {
    assert pending[i] in pending;
  }

  lemma StartOfClosure(lock: Lock, workspace: seq<Name>)
    requires forall x :: x in workspace ==> x in lock.packages
    ensures Progress(lock, NamesIn(workspace), {}, workspace, {})
  {
    forall x | x in workspace ensures Reachable(lock, NamesIn(workspace), x) { RootsAreReachable(lock, NamesIn(workspace), x); }
  }

  lemma PushKeepsProgress(lock: Lock, roots: set<Name>, visited: set<Name>, pending: seq<Name>, open: set<Name>,
                          x: Name, d: Dependency)
    requires Progress(lock, roots, visited, pending, open) && x in visited
    requires Edge(lock, x, d.name) && d.name in lock.packages
    ensures Progress(lock, roots, visited, pending + [d.name], open)
  {
    StepsAreReachable(lock, roots, x, d.name);
    forall y | y in visited && y !in open ensures Explored(lock, visited, pending + [d.name], y) {
      assert Explored(lock, visited, pending, y);
    }
  }

  /** Follows the dependencies of one package just taken. */
  method Follow(lock: Lock, ghost roots: set<Name>, ghost visited: set<Name>, pending0: seq<Name>, name: Name)
    returns (pending: seq<Name>, failure: Option<Closure>)
    requires name in visited && Progress(lock, roots, visited, pending0, {name})
    ensures failure.None? ==> Progress(lock, roots, visited, pending, {})
    ensures failure.Some? ==> !failure.value.Closed? && ClosureMeans(lock, roots, failure.value)
  {
    hide ValueOf, Edge, Unread, Reachable;
    pending := pending0;
    var dependencies := lock.packages[name].dependencies;
    for k := 0 to |dependencies|
      invariant Progress(lock, roots, visited, pending, {name}) && Followed(lock, visited, pending, name, k)
    {
      var d := dependencies[k];
      var value := ValueOf(lock, d);
      ValueDecides(lock, name, k);
      if value == Unsupported {
        return pending, Some(MarkerUnsupported);
      }
      if value == Holds {
        if d.name !in lock.packages {
          assert Edge(lock, name, d.name);
          return pending, Some(DependencyMissing);
        }
        PushKeepsProgress(lock, roots, visited, pending, {name}, name, d);
        pending := pending + [d.name];
      }
    }
    failure := None;
    assert Explored(lock, visited, pending, name);
  }

  lemma NothingWaits(lock: Lock, roots: set<Name>, visited: set<Name>, runtime: map<Name, Package>)
    requires Progress(lock, roots, visited, [], {}) && RegistryOf(lock, visited, runtime)
    ensures ClosureMeans(lock, roots, Closed(visited, runtime))
  {
    forall a, b | a in visited && Edge(lock, a, b) ensures b in visited {
      assert Explored(lock, visited, [], a);
    }
    ReachableIsLeast(lock, roots, visited);
    forall x | Reachable(lock, roots, x) ensures !Absent(lock, x) && !Unread(lock, x) {
      assert Explored(lock, visited, [], x);
    }
  }

  method CloseBy(lock: Lock, workspace: seq<Name>, pick: seq<Name> -> nat) returns (r: Closure)
    requires Picks(pick) && forall x :: x in workspace ==> x in lock.packages
    ensures ClosureMeans(lock, NamesIn(workspace), r)
  {
    hide Progress, ClosureMeans;
    ghost var roots := NamesIn(workspace);
    var pending := workspace;
    var visited: set<Name> := {};
    var runtime: map<Name, Package> := map[];
    StartOfClosure(lock, workspace);
    while pending != []
      invariant Progress(lock, roots, visited, pending, {}) && RegistryOf(lock, visited, runtime)
      decreases lock.packages.Keys - visited, |pending|
    {
      var i := pick(pending);
      var name := pending[i];
      TakeKeepsProgress(lock, roots, visited, pending, i);
      TakenIsKnown(lock, roots, visited, pending, i);
      pending := pending[..i] + pending[i + 1..];
      if name !in visited {
        visited := visited + {name};
        if lock.packages[name].kind == Registry {
          runtime := runtime[name := lock.packages[name]];
        }
        var failure;
        pending, failure := Follow(lock, roots, visited, pending, name);
        if failure.Some? {
          return failure.value;
        }
      }
    }
    NothingWaits(lock, roots, visited, runtime);
    r := Closed(visited, runtime);
  }

  /** The original's order: the name pushed last is taken first. */
  method Close(lock: Lock, workspace: seq<Name>) returns (r: Closure)
    requires forall x :: x in workspace ==> x in lock.packages
    ensures ClosureMeans(lock, NamesIn(workspace), r)
  {
    r := CloseBy(lock, workspace, p => if p == [] then 0 else |p| - 1);
  }

  /** Whether the closure succeeds, and what it returns, do not depend on any order: a failure is
      a failure in every order, and two successes agree. */
  lemma OrderDoesNotMatter(lock: Lock, roots: set<Name>, r: Closure, r': Closure)
    requires ClosureMeans(lock, roots, r) && ClosureMeans(lock, roots, r')
    ensures r.Closed? <==> r'.Closed?
    ensures r.Closed? ==> r == r'
    ensures r.Closed? <==> forall x :: Reachable(lock, roots, x) ==> !Absent(lock, x) && !Unread(lock, x)
  {
    if r.Closed? && r'.Closed? {
      assert r.visited == r'.visited;
      assert r.runtime.Keys == r'.runtime.Keys;
    }
  }
}

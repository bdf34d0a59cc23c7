/** The compiler: validation, relevance, selections by increasing size, the first that schedules. */
module ChainCompile {
  import opened Wrappers
  import opened ChainModel
  import opened ChainSchedule
  import opened ChainCycle

  // ---------- Sorting by id ----------

  function Insert(f: Fragment, fs: seq<Fragment>): (r: seq<Fragment>)
    ensures multiset(r) == multiset{f} + multiset(fs)
  {
    if fs == [] then [f]
    else
      assert fs == [fs[0]] + fs[1..];
      if StrLess(fs[0].id, f.id) then [fs[0]] + Insert(f, fs[1..]) else [f] + fs
  }

  function SortById(fs: seq<Fragment>): (r: seq<Fragment>)
    ensures multiset(r) == multiset(fs)
  {
    if fs == [] then []
    else
      assert fs == [fs[0]] + fs[1..];
      Insert(fs[0], SortById(fs[1..]))
  }

  // ---------- Validation ----------

  function ValidateFrom(root: Root, nodes: seq<Fragment>, k: nat, sessions: map<string, string>): Option<Error>
    requires k <= |nodes|
    decreases |nodes| - k
  {
    if k == |nodes| then None
    else
      var n := nodes[k];
      var b := n.binding;
      if n.world != root.world then Some(WorldMismatch(n.id))
      else if b.identity != n.identity then Some(IdentityMismatch(n.id))
      else if b.artifact != n.artifact then Some(ArtifactMismatch(n.id))
      else if b.session.Some? && b.identity.Some? && b.session.value in sessions && sessions[b.session.value] != b.identity.value then
        Some(SessionConflict(n.id))
      else if !Subset(n.after, Ids(nodes)) then Some(UnknownOrdering(n.id))
      else
        ValidateFrom(root, nodes, k + 1,
                     if b.session.Some? && b.identity.Some? then sessions[b.session.value := b.identity.value] else sessions)
  }

  function Validate(root: Root, nodes: seq<Fragment>): Option<Error> { ValidateFrom(root, nodes, 0, map[]) }

  // ---------- The initial state ----------

  function Collect(cs: seq<Condition>, s: State): Option<State>
    decreases |cs|
  {
    if cs == [] then Some(s)
    else
      var c := cs[0];
      if c.operator == EQ && c.reference.None? then
        if c.path in s && !PyEq(s[c.path], c.value) then None
        else Collect(cs[1..], if c.path in s then s else s[c.path := c.value])
      else if c.operator == EXISTS then Collect(cs[1..], if c.path in s then s else s[c.path := Bool(true)])
      else if c.operator == NOT_EXISTS then Collect(cs[1..], s - {c.path})
      else Collect(cs[1..], s)
  }

  function InitialState(cs: seq<Condition>): Option<State> {
    match Collect(cs, map[])
    case None => None
    case Some(s) => if HoldAll(cs, s) then Some(s) else None
  }

  // ---------- Relevance and compatibility ----------

  predicate Needed(c: Condition, goal: seq<Condition>, nodes: seq<Fragment>) {
    c in goal || exists n :: n in nodes && c in n.pre
  }

  predicate CanContribute(f: Fragment, goal: seq<Condition>, nodes: seq<Fragment>) {
    || (exists c :: c in goal && Produces(f, c))
    || (exists n, c :: n in nodes && c in n.pre && Produces(f, c))
  }

  function RelevantOf(fs: seq<Fragment>, goal: seq<Condition>, nodes: seq<Fragment>): (r: seq<Fragment>)
    ensures forall f :: f in r <==> f in fs && CanContribute(f, goal, nodes)
  {
    if fs == [] then []
    else (if CanContribute(fs[0], goal, nodes) then [fs[0]] else []) + RelevantOf(fs[1..], goal, nodes)
  }

  /** The first fragment whose SET contradicts an earlier SET of the same path. */
  function ConflictIn(es: seq<Effect>, values: map<Path, Value>): Option<map<Path, Value>>
    decreases |es|
  {
    if es == [] then Some(values)
    else if es[0].operation != SET then ConflictIn(es[1..], values)
    else if es[0].path in values then
      if PyEq(values[es[0].path], es[0].value) then ConflictIn(es[1..], values) else None
    else ConflictIn(es[1..], values[es[0].path := es[0].value])
  }

  function Conflict(fs: seq<Fragment>, values: map<Path, Value>): Option<Id>
    decreases |fs|
  {
    if fs == [] then None
    else
      match ConflictIn(fs[0].effects, values)
      case None => Some(fs[0].id)
      case Some(v) => Conflict(fs[1..], v)
  }

  // ---------- Selections ----------

  function Prepend(f: Fragment, ss: seq<seq<Fragment>>): (r: seq<seq<Fragment>>)
    ensures |r| == |ss| && forall i :: 0 <= i < |r| ==> r[i] == [f] + ss[i]
  {
    seq(|ss|, i requires 0 <= i < |ss| => [f] + ss[i])
  }

  /** All selections of `k` fragments, in the order of `itertools.combinations`. */
  function Combinations(fs: seq<Fragment>, k: nat): seq<seq<Fragment>>
    decreases |fs|
  {
    if k == 0 then [[]]
    else if fs == [] then []
    else Prepend(fs[0], Combinations(fs[1..], k - 1)) + Combinations(fs[1..], k)
  }

  /** Selections of size `k` and larger, smallest first. */
  function Selections(fs: seq<Fragment>, k: nat): seq<seq<Fragment>>
    decreases |fs| + 1 - k
  {
    if k > |fs| then [] else Combinations(fs, k) + Selections(fs, k + 1)
  }

  function TrySelection(sel: seq<Fragment>, w: World, goal: seq<Condition>): Result<Simulation> {
    match Conflict(sel, map[])
    case Some(id) => Err(MutuallyExclusive(id))
    case None => Schedule(sel, [], w, goal)
  }

  /** The first selection that schedules, or the first error and the last conflict seen. */
  datatype Found = Success(simulation: Simulation) | Failure(first: Option<Error>, conflict: Option<Error>)

  function Search(sels: seq<seq<Fragment>>, w: World, goal: seq<Condition>, first: Option<Error>, conflict: Option<Error>): Found
    decreases |sels|
  {
    if sels == [] then Failure(first, conflict)
    else
      match TrySelection(sels[0], w, goal)
      case Ok(s) => Success(s)
      case Err(e) =>
        Search(sels[1..], w, goal, if first.None? then Some(e) else first,
               if e.MutuallyExclusive? then Some(e) else conflict)
  }

  // ---------- Compilation ----------

  datatype Step = Step(fragment: Fragment, sequence: nat)

  function Resequenced(order: seq<Fragment>): seq<Step> {
    seq(|order|, i requires 0 <= i < |order| => Step(order[i], i))
  }

  ghost function Finish(found: Found, relevant: seq<Fragment>, initial: State): Result<seq<Step>> {
    match found
    case Success(s) => Ok(Resequenced(s.order))
    case Failure(first, conflict) =>
      if CircularWait(relevant, initial) then Err(DependencyCycle)
      else if conflict.Some? then Err(conflict.value)
      else if first.Some? then Err(first.value)
      else Err(GoalUnreachable)
  }

  /** The specification of `compile`. */
  ghost function Compile(root: Root, fragments: seq<Fragment>, goal: seq<Condition>): Result<seq<Step>> {
    var nodes := SortById(fragments);
    if nodes == [] then Err(NoFragments)
    else if !DistinctIds(nodes) then Err(DuplicateId)
    else if Validate(root, nodes).Some? then Err(Validate(root, nodes).value)
    else if InitialState(root.conditions).None? then Err(RootConflict)
    else
      var initial := InitialState(root.conditions).value;
      var relevant := RelevantOf(nodes, goal, nodes);
      if relevant == [] then Err(GoalUnreachable)
      else Finish(Search(Selections(relevant, 1), World(initial, root.clock), goal, None, None), relevant, initial)
  }

  lemma {:induction false} RelevantKeepsDistinct(fs: seq<Fragment>, goal: seq<Condition>, nodes: seq<Fragment>)
    requires DistinctIds(fs)
    ensures DistinctIds(RelevantOf(fs, goal, nodes))
  {
    if fs != [] {
      RelevantKeepsDistinct(fs[1..], goal, nodes);
      var r := RelevantOf(fs[1..], goal, nodes);
      forall i | 0 <= i < |r| ensures r[i].id != fs[0].id {
        assert r[i] in fs[1..];
      }
    }
  }

  lemma SearchAll(a: seq<seq<Fragment>>, b: seq<seq<Fragment>>, w: World, goal: seq<Condition>,
                  first: Option<Error>, conflict: Option<Error>)
    ensures Search(a + b, w, goal, first, conflict) ==
            (match Search(a, w, goal, first, conflict)
             case Success(s) => Success(s)
             case Failure(f, c) => Search(b, w, goal, f, c))
    decreases |a|
  {
    if a == [] {
      assert a + b == b;
    } else {
      assert (a + b)[1..] == a[1..] + b;
      match TrySelection(a[0], w, goal)
      case Ok(s) =>
      case Err(e) =>
        SearchAll(a[1..], b, w, goal, if first.None? then Some(e) else first,
                  if e.MutuallyExclusive? then Some(e) else conflict);
    }
  }

  lemma SelectionsOfSize(fs: seq<Fragment>, k: nat)
    ensures Selections(fs, k) == if k > |fs| then [] else Combinations(fs, k) + Selections(fs, k + 1)
  {
  }

  lemma NothingLeftToTry(w: World, goal: seq<Condition>, first: Option<Error>, conflict: Option<Error>)
    ensures Search([], w, goal, first, conflict) == Failure(first, conflict)
  {
  }

  /** The compiler's own loops, sizes outside and selections inside. */
  method RunCompile(root: Root, fragments: seq<Fragment>, goal: seq<Condition>) returns (r: Result<seq<Step>>)
    ensures r == Compile(root, fragments, goal)
  {
    hide SortById, Validate, InitialState, RelevantOf, Search, Selections, Combinations, CircularWait;
    var nodes := SortById(fragments);
    if nodes == [] {
      return Err(NoFragments);
    }
    if exists i, j :: 0 <= i < j < |nodes| && nodes[i].id == nodes[j].id {
      return Err(DuplicateId);
    }
    var invalid := Validate(root, nodes);
    if invalid.Some? {
      return Err(invalid.value);
    }
    var state := InitialState(root.conditions);
    if state.None? {
      return Err(RootConflict);
    }
    var initial := state.value;
    var relevant := RelevantOf(nodes, goal, nodes);
    if relevant == [] {
      return Err(GoalUnreachable);
    }
    RelevantKeepsDistinct(nodes, goal, nodes);
    var first, conflict: Option<Error> := None, None;
    ghost var w := World(initial, root.clock);
    ghost var whole := Search(Selections(relevant, 1), w, goal, None, None);
    for size := 1 to |relevant| + 1
      invariant whole == Search(Selections(relevant, size), w, goal, first, conflict)
    {
      var selections := Combinations(relevant, size);
      SelectionsOfSize(relevant, size);
      SearchAll(selections, Selections(relevant, size + 1), w, goal, first, conflict);
      var found, f, c := TryAll(selections, initial, root.clock, goal, first, conflict);
      if found.Some? {
        return Ok(Resequenced(found.value.order));
      }
      first, conflict := f, c;
    }
    SelectionsOfSize(relevant, |relevant| + 1);
    NothingLeftToTry(w, goal, first, conflict);
    var cyclic := HasDependencyCycle(relevant, initial);
    if cyclic {
      return Err(DependencyCycle);
    }
    if conflict.Some? {
      return Err(conflict.value);
    }
    if first.Some? {
      return Err(first.value);
    }
    return Err(GoalUnreachable);
  }

  method TryAll(selections: seq<seq<Fragment>>, initial: State, clock: nat, goal: seq<Condition>,
                first0: Option<Error>, conflict0: Option<Error>)
    returns (found: Option<Simulation>, first: Option<Error>, conflict: Option<Error>)
    ensures Search(selections, World(initial, clock), goal, first0, conflict0) ==
            if found.Some? then Success(found.value) else Failure(first, conflict)
  {
    first, conflict := first0, conflict0;
    ghost var w := World(initial, clock);
    for i := 0 to |selections|
      invariant Search(selections, w, goal, first0, conflict0) == Search(selections[i..], w, goal, first, conflict)
    {
      assert selections[i..][0] == selections[i] && selections[i..][1..] == selections[i + 1..];
      var clash := Conflict(selections[i], map[]);
      var r: Result<Simulation>;
      if clash.Some? {
        r := Err(MutuallyExclusive(clash.value));
      } else {
        r := RunSchedule(selections[i], initial, clock, goal);
      }
      if r.Ok? {
        return Some(r.value), first, conflict;
      }
      first := if first.None? then Some(r.error) else first;
      conflict := if r.error.MutuallyExclusive? then Some(r.error) else conflict;
    }
    return None, first, conflict;
  }
}

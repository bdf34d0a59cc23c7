/** What the compiler accepts before it searches, told of the input itself, and the initial state
    it then starts from. */
module ChainValidation {
  import opened Wrappers
  import opened ChainModel
  import opened ChainCycle
  import opened ChainCompile
  import opened ChainSoundness

  // ---------- Faults of a fragment ----------

  /** Both are bound to one session, under two identities. */
  predicate Clash(f: Fragment, g: Fragment) {
    && f.binding.session.Some? && f.binding.session == g.binding.session
    && f.binding.identity.Some? && g.binding.identity.Some? && f.binding.identity != g.binding.identity
  }

  ghost predicate ClashesBefore(fs: seq<Fragment>, f: Fragment) {
    exists g :: g in fs && StrLess(g.id, f.id) && Clash(g, f)
  }

  ghost predicate WaitsForAStranger(fs: seq<Fragment>, f: Fragment) {
    exists id :: id in f.after && forall g :: g in fs ==> g.id != id
  }

  /** What is wrong with one fragment of the input, if anything. */
  ghost function FaultOf(root: Root, fs: seq<Fragment>, f: Fragment): Option<Error> {
    if f.world != root.world then Some(WorldMismatch(f.id))
    else if f.binding.identity != f.identity then Some(IdentityMismatch(f.id))
    else if f.binding.artifact != f.artifact then Some(ArtifactMismatch(f.id))
    else if ClashesBefore(fs, f) then Some(SessionConflict(f.id))
    else if WaitsForAStranger(fs, f) then Some(UnknownOrdering(f.id))
    else None
  }

  /** The smallest faulty fragment by id. */
  ghost predicate FirstFault(root: Root, fs: seq<Fragment>, f: Fragment) {
    f in fs && FaultOf(root, fs, f).Some? && forall g :: g in fs && StrLess(g.id, f.id) ==> FaultOf(root, fs, g).None?
  }

  /** An input without faults: one world, true bindings, one identity a session, known parents. */
  ghost predicate Faultless(root: Root, fs: seq<Fragment>) {
    && (forall f :: f in fs ==> f.world == root.world && f.binding.identity == f.identity && f.binding.artifact == f.artifact)
    && (forall f, g :: f in fs && g in fs ==> !Clash(f, g))
    && forall f, id :: f in fs && id in f.after ==> exists g :: g in fs && g.id == id
  }

  lemma FaultlessMeansNoFault(root: Root, fs: seq<Fragment>)
    requires DistinctIds(fs)
    ensures Faultless(root, fs) <==> forall f :: f in fs ==> FaultOf(root, fs, f).None?
  {
    if forall f :: f in fs ==> FaultOf(root, fs, f).None? {
      forall f, g | f in fs && g in fs ensures !Clash(f, g) {
        assert FaultOf(root, fs, f).None? && FaultOf(root, fs, g).None?;
        assert !ClashesBefore(fs, f) && !ClashesBefore(fs, g);
        StrLessTotal(f.id, g.id);
      }
      forall f, id | f in fs && id in f.after ensures exists g :: g in fs && g.id == id {
        assert FaultOf(root, fs, f).None?;
      }
    }
  }

  // ---------- The scan meets the first fault ----------

  predicate Binds(f: Fragment, session: string, identity: string) {
    f.binding.session == Some(session) && f.binding.identity == Some(identity)
  }

  /** `sessions` holds the identity of every session bound by the first `k` nodes, and no other. */
  ghost predicate Remembers(nodes: seq<Fragment>, k: nat, sessions: map<string, string>)
    requires k <= |nodes|
  {
    && (forall j, h, i :: 0 <= j < k && Binds(nodes[j], h, i) ==> h in sessions && sessions[h] == i)
    && forall h :: h in sessions ==> exists j :: 0 <= j < k && Binds(nodes[j], h, sessions[h])
  }

  lemma SortedNodes(nodes: seq<Fragment>, i: nat, j: nat)
    requires Sorted(nodes) && DistinctIds(nodes) && i < |nodes| && j < |nodes|
    ensures StrLess(nodes[i].id, nodes[j].id) <==> i < j
  {
    StrLessTotal(nodes[i].id, nodes[j].id);
  }

  lemma MemoryDecidesClashes(nodes: seq<Fragment>, k: nat, sessions: map<string, string>)
    requires Sorted(nodes) && DistinctIds(nodes) && k < |nodes| && Remembers(nodes, k, sessions)
    ensures var b := nodes[k].binding;
            ClashesBefore(nodes, nodes[k]) <==>
              b.session.Some? && b.identity.Some? && b.session.value in sessions && sessions[b.session.value] != b.identity.value
  {
    if ClashesBefore(nodes, nodes[k]) {
      var g :| g in nodes && StrLess(g.id, nodes[k].id) && Clash(g, nodes[k]);
      var i :| 0 <= i < |nodes| && nodes[i] == g;
      SortedNodes(nodes, i, k);
      assert Binds(g, g.binding.session.value, g.binding.identity.value);
    }
    forall j | 0 <= j < k && Clash(nodes[j], nodes[k]) ensures ClashesBefore(nodes, nodes[k]) {
      SortedNodes(nodes, j, k);
    }
  }

  lemma UnknownMeansStranger(nodes: seq<Fragment>, f: Fragment)
    ensures Subset(f.after, Ids(nodes)) <==> !WaitsForAStranger(nodes, f)
  {
    forall id ensures id in Ids(nodes) <==> exists g :: g in nodes && g.id == id {
      if id in Ids(nodes) {
        var i :| 0 <= i < |nodes| && Ids(nodes)[i] == id;
        assert nodes[i] in nodes;
      }
      if g :| g in nodes && g.id == id {
        var i :| 0 <= i < |nodes| && nodes[i] == g;
        assert Ids(nodes)[i] == id;
      }
    }
  }

  function Remembered(b: Binding, sessions: map<string, string>): map<string, string> {
    if b.session.Some? && b.identity.Some? then sessions[b.session.value := b.identity.value] else sessions
  }

  lemma ScanStep(root: Root, nodes: seq<Fragment>, k: nat, sessions: map<string, string>)
    requires Sorted(nodes) && DistinctIds(nodes) && k < |nodes| && Remembers(nodes, k, sessions)
    ensures ValidateFrom(root, nodes, k, sessions) ==
            if FaultOf(root, nodes, nodes[k]).Some? then FaultOf(root, nodes, nodes[k])
            else ValidateFrom(root, nodes, k + 1, Remembered(nodes[k].binding, sessions))
  {
    hide ClashesBefore, WaitsForAStranger, Remembers, Subset;
    MemoryDecidesClashes(nodes, k, sessions);
    UnknownMeansStranger(nodes, nodes[k]);
  }

  lemma ScanEnds(root: Root, nodes: seq<Fragment>, sessions: map<string, string>)
    ensures ValidateFrom(root, nodes, |nodes|, sessions) == None
  {
  }

  lemma {:induction false} ScanMeetsTheFirstFault(root: Root, nodes: seq<Fragment>, k: nat, sessions: map<string, string>)
    requires Sorted(nodes) && DistinctIds(nodes) && k <= |nodes| && Remembers(nodes, k, sessions)
    ensures ValidateFrom(root, nodes, k, sessions).None? ==> forall j :: k <= j < |nodes| ==> FaultOf(root, nodes, nodes[j]).None?
    ensures ValidateFrom(root, nodes, k, sessions).Some? ==>
              exists j :: k <= j < |nodes| && ValidateFrom(root, nodes, k, sessions) == FaultOf(root, nodes, nodes[j]) &&
                          forall i :: k <= i < j ==> FaultOf(root, nodes, nodes[i]).None?
    decreases |nodes| - k
  {
    hide ValidateFrom, FaultOf, Remembers, Remembered;
    if k == |nodes| {
      ScanEnds(root, nodes, sessions);
    } else {
      ScanStep(root, nodes, k, sessions);
      if FaultOf(root, nodes, nodes[k]).None? {
        RemembersMore(root, nodes, k, sessions);
        ScanMeetsTheFirstFault(root, nodes, k + 1, Remembered(nodes[k].binding, sessions));
      }
    }
  }

  lemma RemembersMore(root: Root, nodes: seq<Fragment>, k: nat, sessions: map<string, string>)
    requires Sorted(nodes) && DistinctIds(nodes) && k < |nodes| && Remembers(nodes, k, sessions) && FaultOf(root, nodes, nodes[k]).None?
    ensures Remembers(nodes, k + 1, Remembered(nodes[k].binding, sessions))
  {
    MemoryDecidesClashes(nodes, k, sessions);
    var b, next := nodes[k].binding, Remembered(nodes[k].binding, sessions);
    hide ClashesBefore, FaultOf, StrLess;
    forall h | h in next ensures exists j :: 0 <= j < k + 1 && Binds(nodes[j], h, next[h]) {
      if b.session == Some(h) && b.identity.Some? {
        assert Binds(nodes[k], h, next[h]);
      } else {
        var j :| 0 <= j < k && Binds(nodes[j], h, sessions[h]);
      }
    }
  }

  lemma FaultsOfAPermutation(root: Root, a: seq<Fragment>, b: seq<Fragment>, f: Fragment)
    requires forall g :: g in a <==> g in b
    ensures FaultOf(root, a, f) == FaultOf(root, b, f)
  {
    assert ClashesBefore(a, f) <==> ClashesBefore(b, f);
    assert WaitsForAStranger(a, f) <==> WaitsForAStranger(b, f);
  }

  lemma ValidateMeetsTheFirstFault(root: Root, fs: seq<Fragment>)
    requires DistinctIds(SortById(fs))
    ensures Validate(root, SortById(fs)).None? <==> forall f :: f in fs ==> FaultOf(root, fs, f).None?
    ensures Validate(root, SortById(fs)).Some? ==>
              exists f :: FirstFault(root, fs, f) && Validate(root, SortById(fs)) == FaultOf(root, fs, f)
  {
    hide SortById, FaultOf;
    var nodes := SortById(fs);
    SortIsAPermutation(fs);
    SortSorts(fs);
    ScanMeetsTheFirstFault(root, nodes, 0, map[]);
    forall f { FaultsOfAPermutation(root, nodes, fs, f); }
    if Validate(root, nodes).Some? {
      var j :| 0 <= j < |nodes| && Validate(root, nodes) == FaultOf(root, nodes, nodes[j]) &&
               forall i :: 0 <= i < j ==> FaultOf(root, nodes, nodes[i]).None?;
      forall g | g in fs && StrLess(g.id, nodes[j].id) ensures FaultOf(root, fs, g).None? {
        assert g in nodes;
        var i :| 0 <= i < |nodes| && nodes[i] == g;
        SortedNodes(nodes, i, j);
      }
      assert nodes[j] in fs && FirstFault(root, fs, nodes[j]);
    }
  }

  lemma SortKeepsDistinct(fs: seq<Fragment>)
    ensures DistinctIds(SortById(fs)) <==> DistinctIds(fs)
  {
    if DistinctIds(fs) { PermutationKeepsDistinct(fs, SortById(fs)); }
    if DistinctIds(SortById(fs)) { PermutationKeepsDistinct(SortById(fs), fs); }
  }

  lemma FirstFaultIsUnique(root: Root, fs: seq<Fragment>, f: Fragment, g: Fragment)
    requires DistinctIds(fs) && FirstFault(root, fs, f) && FirstFault(root, fs, g)
    ensures f == g
  {
    StrLessTotal(f.id, g.id);
  }

  /** Validation, exactly. The compiler reaches the search only on nonempty inputs with distinct ids,
      one world, true bindings, one identity a session and known parents; any other input is refused,
      and with a fault, the refusal names the fault of the smallest faulty fragment by id. */
  lemma ValidationIsExact(root: Root, fs: seq<Fragment>, goal: seq<Condition>)
    ensures fs == [] ==> Compile(root, fs, goal) == Err(NoFragments)
    ensures fs != [] && !DistinctIds(fs) ==> Compile(root, fs, goal) == Err(DuplicateId)
    ensures forall f :: fs != [] && DistinctIds(fs) && FirstFault(root, fs, f) ==>
                          Compile(root, fs, goal) == Err(FaultOf(root, fs, f).value)
    ensures fs != [] && DistinctIds(fs) && !Faultless(root, fs) ==> exists f :: FirstFault(root, fs, f)
    ensures fs != [] && DistinctIds(fs) && Faultless(root, fs) && InitialState(root.conditions).None? ==>
              Compile(root, fs, goal) == Err(RootConflict)
    ensures Accepted(root, fs) <==> fs != [] && DistinctIds(fs) && Faultless(root, fs) && InitialState(root.conditions).Some?
    ensures Compile(root, fs, goal).Ok? ==> fs != [] && DistinctIds(fs) && Faultless(root, fs)
  {
    hide SortById, Validate, FaultOf, Faultless, InitialState, Finish, RelevantOf, FirstFault;
    SortIsAPermutation(fs);
    SortKeepsDistinct(fs);
    if fs != [] && DistinctIds(fs) {
      FaultlessMeansNoFault(root, fs);
      ValidateMeetsTheFirstFault(root, fs);
      if Validate(root, SortById(fs)).Some? {
        var f :| FirstFault(root, fs, f) && Validate(root, SortById(fs)) == FaultOf(root, fs, f);
        forall g | FirstFault(root, fs, g) ensures g == f { FirstFaultIsUnique(root, fs, g, f); }
      } else {
        forall g ensures !FirstFault(root, fs, g) { NoFaultNoFirst(root, fs, g); }
      }
    }
  }

  lemma NoFaultNoFirst(root: Root, fs: seq<Fragment>, f: Fragment)
    requires forall g :: g in fs ==> FaultOf(root, fs, g).None?
    ensures !FirstFault(root, fs, f)
  {
  }

  // ---------- Relevance ----------

  /** Relevant are the fragments with an effect that supports a condition of the goal or a
      precondition of any fragment of the input. */
  ghost predicate Wanted(fs: seq<Fragment>, goal: seq<Condition>, c: Condition) {
    c in goal || exists n :: n in fs && c in n.pre
  }

  lemma RelevanceIsSupport(fragments: seq<Fragment>, goal: seq<Condition>, f: Fragment)
    ensures f in Relevant(fragments, goal) <==>
              f in fragments && exists e, c :: e in f.effects && Supports(e, c) && Wanted(fragments, goal, c)
  {
    hide SortById, Supports;
    SortIsAPermutation(fragments);
    var nodes := SortById(fragments);
    forall c ensures Wanted(nodes, goal, c) <==> Wanted(fragments, goal, c) {}
    assert CanContribute(f, goal, nodes) <==> exists c :: Produces(f, c) && Wanted(nodes, goal, c);
    if c :| Produces(f, c) && Wanted(fragments, goal, c) {
      var e :| e in f.effects && Supports(e, c);
    }
    if e, c :| e in f.effects && Supports(e, c) && Wanted(fragments, goal, c) {
      assert Produces(f, c);
    }
  }

  // ---------- The initial state ----------

  /** The value a root condition gives its path where nothing gave it one before. */
  function Given(c: Condition): Option<Value> {
    if c.operator == EQ && c.reference.None? then Some(c.value)
    else if c.operator == EXISTS then Some(Bool(true))
    else None
  }

  function FirstGiven(cs: seq<Condition>, p: Path): Option<Value> {
    if cs == [] then None
    else if cs[0].path == p && Given(cs[0]).Some? then Given(cs[0])
    else FirstGiven(cs[1..], p)
  }

  /** `s` gives every path the first value its conditions give it, nothing else, and meets them all. */
  ghost predicate Describes(cs: seq<Condition>, s: State) {
    && (forall p :: p in s <==> FirstGiven(cs, p).Some?)
    && (forall p :: p in s ==> FirstGiven(cs, p) == Some(s[p]))
    && HoldAll(cs, s)
  }

  lemma {:induction false} CollectKeepsFirst(cs: seq<Condition>, s: State, t: State, p: Path)
    requires Collect(cs, s) == Some(t) && forall c :: c in cs ==> !(c.operator == NOT_EXISTS && c.path == p)
    ensures p in t <==> p in s || FirstGiven(cs, p).Some?
    ensures p in t ==> Some(t[p]) == if p in s then Some(s[p]) else FirstGiven(cs, p)
    decreases |cs|
  {
    if cs != [] {
      var c := cs[0];
      assert c in cs;
      var next :=
        if Given(c).Some? && c.path !in s then s[c.path := Given(c).value]
        else if c.operator == NOT_EXISTS then s - {c.path}
        else s;
      CollectKeepsFirst(cs[1..], next, t, p);
    }
  }

  lemma {:induction false} GivenPathsAreMet(cs: seq<Condition>, p: Path, s: State)
    requires HoldAll(cs, s) && FirstGiven(cs, p).Some?
    ensures p in s
  {
    if !(cs[0].path == p && Given(cs[0]).Some?) {
      assert forall c :: c in cs[1..] ==> c in cs;
      GivenPathsAreMet(cs[1..], p, s);
    } else {
      assert Holds(cs[0], s);
    }
  }

  lemma {:induction false} CollectSucceeds(cs: seq<Condition>, s0: State, s: State)
    requires HoldAll(cs, s)
    requires forall p :: p in s0 ==> p in s && s0[p] == s[p]
    requires forall p :: p in s && p !in s0 && FirstGiven(cs, p).Some? ==> FirstGiven(cs, p) == Some(s[p])
    ensures Collect(cs, s0).Some?
    decreases |cs|
  {
    if cs != [] {
      var c := cs[0];
      assert Holds(c, s);
      assert forall d :: d in cs[1..] ==> d in cs;
      var next := if Given(c).Some? && c.path !in s0 then s0[c.path := Given(c).value] else s0;
      if c.operator == NOT_EXISTS { assert s0 - {c.path} == s0; }
      CollectSucceeds(cs[1..], next, s);
    }
  }

  lemma CollectedDescribes(cs: seq<Condition>, s: State)
    requires Collect(cs, map[]) == Some(s) && HoldAll(cs, s)
    ensures Describes(cs, s)
  {
    forall p ensures p in s <==> FirstGiven(cs, p).Some?
             ensures p in s ==> FirstGiven(cs, p) == Some(s[p])
    {
      if exists c :: c in cs && c.operator == NOT_EXISTS && c.path == p {
        var c :| c in cs && c.operator == NOT_EXISTS && c.path == p;
        assert Holds(c, s);
        if FirstGiven(cs, p).Some? { GivenPathsAreMet(cs, p, s); }
      } else {
        CollectKeepsFirst(cs, map[], s, p);
      }
    }
  }

  /** The initial state is the one state its conditions describe; without one the root is in conflict. */
  lemma InitialStateIsDescribed(cs: seq<Condition>, s: State)
    ensures InitialState(cs) == Some(s) <==> Describes(cs, s)
  {
    if InitialState(cs) == Some(s) { CollectedDescribes(cs, s); }
    if Describes(cs, s) {
      CollectSucceeds(cs, map[], s);
      var t := Collect(cs, map[]).value;
      forall p ensures p in t <==> p in s ensures p in t ==> t[p] == s[p] {
        if exists c :: c in cs && c.operator == NOT_EXISTS && c.path == p {
          var c :| c in cs && c.operator == NOT_EXISTS && c.path == p;
          assert Holds(c, s);
          NothingCollected(cs, map[], t, p);
        } else {
          CollectKeepsFirst(cs, map[], t, p);
        }
      }
      assert t == s;
    }
  }

  lemma {:induction false} NothingCollected(cs: seq<Condition>, s0: State, t: State, p: Path)
    requires Collect(cs, s0) == Some(t) && FirstGiven(cs, p).None? && p !in s0
    ensures p !in t
    decreases |cs|
  {
    if cs != [] {
      var c := cs[0];
      var next :=
        if Given(c).Some? && c.path !in s0 then s0[c.path := Given(c).value]
        else if c.operator == NOT_EXISTS then s0 - {c.path}
        else s0;
      NothingCollected(cs[1..], next, t, p);
    }
  }
}

/** The completeness theorem of the compiler: under the hypotheses it succeeds exactly when some
    plan over all fragments exists, and its chain is as short as any plan. */
module ChainExactness {
  import opened Wrappers
  import opened ChainModel
  import opened ChainSchedule
  import opened ChainCycle
  import opened ChainCompile
  import opened ChainSoundness
  import opened ChainCompleteness

  // ---------- Irrelevant fragments can be dropped from any executable order ----------

  ghost predicate Tracked(c: Condition, goal: seq<Condition>, nodes: seq<Fragment>) {
    Literal(c) && Needed(c, goal, nodes)
  }

  /** Every needed condition that holds in `s` holds in `t`. */
  ghost predicate Covers(goal: seq<Condition>, nodes: seq<Fragment>, s: State, t: State) {
    forall c :: Tracked(c, goal, nodes) && Holds(c, s) ==> Holds(c, t)
  }

  lemma CoversTogether(goal: seq<Condition>, nodes: seq<Fragment>, s: State, t: State, m: map<Path, Value>)
    requires Covers(goal, nodes, s, t)
    ensures Covers(goal, nodes, s + m, t + m)
  {
    forall c | Tracked(c, goal, nodes) && Holds(c, s + m) ensures Holds(c, t + m) {
      if c.path !in m { assert Holds(c, s); }
    }
  }

  lemma CoversWithoutIrrelevant(goal: seq<Condition>, nodes: seq<Fragment>, s: State, t: State, f: Fragment)
    requires Covers(goal, nodes, s, t) && SetOnly(f.effects) && !CanContribute(f, goal, nodes)
    ensures Covers(goal, nodes, s + Sets(f.effects), t)
  {
    SetsComeFromEffects(f.effects);
    forall c | Tracked(c, goal, nodes) && Holds(c, s + Sets(f.effects)) ensures Holds(c, t) {
      if c.path in Sets(f.effects) {
        var e :| e in f.effects && e.path == c.path && e.value == Sets(f.effects)[c.path];
        assert Supports(e, c);
        assert Produces(f, c);
        assert false;
      } else {
        assert Holds(c, s);
      }
    }
  }

  /** Every relevant id among `done` is among `kept`. */
  ghost predicate KeptIds(goal: seq<Condition>, nodes: seq<Fragment>, done: seq<Id>, kept: seq<Id>) {
    forall g :: g in nodes && CanContribute(g, goal, nodes) && g.id in done ==> g.id in kept
  }

  ghost predicate PruneSetting(goal: seq<Condition>, nodes: seq<Fragment>) {
    && SetsOnly(nodes) && ClockStill(nodes) && LiteralPre(nodes) && LiteralGoal(goal)
    && RelevantParents(nodes, goal) && DistinctIds(nodes)
  }

  lemma RelevantStaysReady(goal: seq<Condition>, nodes: seq<Fragment>, f: Fragment, done: seq<Id>, kept: seq<Id>, w: World, u: World)
    requires PruneSetting(goal, nodes) && f in nodes && Ready(f, done, w)
    requires w.clock == u.clock && Covers(goal, nodes, w.state, u.state) && KeptIds(goal, nodes, done, kept)
    ensures Ready(f, kept, u)
  {
    forall c | c in f.pre ensures Holds(c, u.state) {
      assert Tracked(c, goal, nodes);
    }
    forall id | id in f.after ensures id in kept {
      var g :| g in nodes && g.id == id && CanContribute(g, goal, nodes);
    }
  }

  lemma SameIdSameNode(nodes: seq<Fragment>, f: Fragment, g: Fragment)
    requires DistinctIds(nodes) && f in nodes && g in nodes && f.id == g.id
    ensures f == g
  {
  }

  lemma {:induction false} PruningKeepsReplay(goal: seq<Condition>, nodes: seq<Fragment>, order: seq<Fragment>,
                                              done: seq<Id>, kept: seq<Id>, w: World, u: World)
    requires PruneSetting(goal, nodes) && (forall f :: f in order ==> f in nodes)
    requires Replay(w, done, order).Some?
    requires w.clock == u.clock && Covers(goal, nodes, w.state, u.state) && KeptIds(goal, nodes, done, kept)
    ensures var pruned := RelevantOf(order, goal, nodes);
            && Replay(u, kept, pruned).Some?
            && Covers(goal, nodes, Replay(w, done, order).value.state, Replay(u, kept, pruned).value.state)
    decreases |order|
  {
    hide Ready, Holds, Covers, CanContribute, ApplyEffects, LiteralPre, LiteralGoal, RelevantParents;
    if order != [] {
      var f, rest := order[0], order[1..];
      assert f in order;
      SetStep(w, done, order);
      var next := World(w.state + Sets(f.effects), w.clock);
      if CanContribute(f, goal, nodes) {
        RelevantStaysReady(goal, nodes, f, done, kept, w, u);
        CoversTogether(goal, nodes, w.state, u.state, Sets(f.effects));
        var after := World(u.state + Sets(f.effects), u.clock);
        PruningKeepsReplay(goal, nodes, rest, done + [f.id], kept + [f.id], next, after);
        SetEffectsMerge(u.state, f.effects);
        ReplayStarts(u, kept, f, RelevantOf(rest, goal, nodes), after);
      } else {
        CoversWithoutIrrelevant(goal, nodes, w.state, u.state, f);
        forall g | g in nodes && CanContribute(g, goal, nodes) && g.id in done + [f.id] ensures g.id in kept {
          if g.id == f.id { SameIdSameNode(nodes, f, g); }
        }
        PruningKeepsReplay(goal, nodes, rest, done + [f.id], kept, next, u);
        assert [] + RelevantOf(rest, goal, nodes) == RelevantOf(rest, goal, nodes);
      }
    }
  }

  // ---------- The theorem ----------

  /** Any way of reaching the goal: distinct fragments of the input, relevant or not, at least one
      of them relevant, whose SETs agree, executable in the given order. */
  ghost predicate Plan(root: Root, fragments: seq<Fragment>, goal: seq<Condition>, order: seq<Fragment>)
    requires InitialState(root.conditions).Some?
  {
    && DistinctIds(order) && Compatible(order) && (forall f :: f in order ==> f in fragments)
    && (exists f :: f in order && CanContribute(f, goal, SortById(fragments)))
    && Reaches(Start(root), order, goal)
  }

  lemma {:induction false} RelevantIsNoLonger(fs: seq<Fragment>, goal: seq<Condition>, nodes: seq<Fragment>)
    ensures |RelevantOf(fs, goal, nodes)| <= |fs|
  {
    if fs != [] { RelevantIsNoLonger(fs[1..], goal, nodes); }
  }

  lemma PruningReaches(goal: seq<Condition>, nodes: seq<Fragment>, order: seq<Fragment>, w: World)
    requires Tame(nodes, goal) && DistinctIds(nodes) && (forall f :: f in order ==> f in nodes) && Reaches(w, order, goal)
    ensures Reaches(w, RelevantOf(order, goal, nodes), goal)
  {
    hide Replay, RelevantOf, SetsOnly, ClockStill, LiteralPre, Harmless, RelevantParents, DistinctIds, Holds;
    PruningKeepsReplay(goal, nodes, order, [], [], w, w);
    forall c | c in goal ensures Holds(c, Replay(w, [], RelevantOf(order, goal, nodes)).value.state) {
      assert Tracked(c, goal, nodes);
    }
  }

  lemma FewerAreCompatible(fs: seq<Fragment>, gs: seq<Fragment>)
    requires Compatible(fs) && forall g :: g in gs ==> g in fs
    ensures Compatible(gs)
  {
    hide Compatible, SetsAgree;
    CompatibleMeansPairwise(fs);
    CompatibleMeansPairwise(gs);
  }

  lemma PlansPrune(root: Root, fragments: seq<Fragment>, goal: seq<Condition>, order: seq<Fragment>)
    requires Accepted(root, fragments) && Tame(SortById(fragments), goal) && Plan(root, fragments, goal, order)
    ensures GoodChain(root, fragments, goal, RelevantOf(order, goal, SortById(fragments)))
    ensures |RelevantOf(order, goal, SortById(fragments))| <= |order|
  {
    hide SortById, CanContribute, RelevantOf, Compatible, Reaches, Tame;
    var nodes := SortById(fragments);
    var pruned := RelevantOf(order, goal, nodes);
    SortIsAPermutation(fragments);
    PruningReaches(goal, nodes, order, Start(root));
    RelevantKeepsDistinct(order, goal, nodes);
    RelevantIsNoLonger(order, goal, nodes);
    FewerAreCompatible(order, pruned);
    var f :| f in order && CanContribute(f, goal, nodes);
    assert f in pruned;
  }

  lemma SameElementsSameMultiset(a: seq<Fragment>, b: seq<Fragment>)
    requires DistinctIds(a) && DistinctIds(b) && forall f :: f in a <==> f in b
    ensures multiset(a) == multiset(b)
  {
    forall f ensures multiset(a)[f] == multiset(b)[f] {
      CountOnce(a, f);
      CountOnce(b, f);
      assert f in a <==> multiset(a)[f] > 0;
      assert f in b <==> multiset(b)[f] > 0;
    }
  }

  lemma {:induction false} KeepKeepsDistinct(fs: seq<Fragment>, chosen: seq<Fragment>)
    requires DistinctIds(fs)
    ensures DistinctIds(Keep(fs, chosen))
  {
    if fs != [] {
      KeepKeepsDistinct(fs[1..], chosen);
      var r := Keep(fs[1..], chosen);
      forall i | 0 <= i < |r| ensures r[i].id != fs[0].id {
        assert r[i] in fs[1..];
      }
    }
  }

  lemma HarmlessInherits(nodes: seq<Fragment>, order: seq<Fragment>)
    requires Harmless(nodes) && DistinctIds(order) && forall f :: f in order ==> f in nodes
    ensures Harmless(order)
  {
    forall i, j, e, c | 0 <= i < |order| && 0 <= j < |order| && i != j && e in order[i].effects && c in order[j].pre &&
                        e.path == c.path
      ensures PyEq(e.value, c.value)
    {
      assert order[i] in nodes && order[j] in nodes;
      var k :| 0 <= k < |nodes| && nodes[k] == order[i];
      var l :| 0 <= l < |nodes| && nodes[l] == order[j];
      assert order[i].id != order[j].id;
    }
  }

  /** A good chain in any order makes the greedy scheduler succeed on the same fragments. */
  lemma GoodChainsAreSchedulable(root: Root, fragments: seq<Fragment>, goal: seq<Condition>, order: seq<Fragment>)
    requires Accepted(root, fragments) && Tame(SortById(fragments), goal) && GoodChain(root, fragments, goal, order)
    ensures var sel := Keep(Relevant(fragments, goal), order);
            && |sel| == |order| && TrySelection(sel, Start(root), goal).Ok?
            && sel in Selections(Relevant(fragments, goal), 1)
  {
    var nodes, relevant := SortById(fragments), Relevant(fragments, goal);
    var sel := Keep(relevant, order);
    SortIsAPermutation(fragments);
    RelevantKeepsDistinct(nodes, goal, nodes);
    KeepKeepsDistinct(relevant, order);
    SameElementsSameMultiset(order, sel);
    assert |order| == |multiset(order)| == |multiset(sel)| == |sel|;
    assert forall f :: f in order ==> f in nodes;
    HarmlessInherits(nodes, order);
    GreedyIsComplete(Start(root), order, sel, goal);
    KeepIsACombination(relevant, order);
    KeepIsNoLonger(relevant, order);
    SelectionsAreComplete(relevant, 1, |sel|, sel);
  }

  /** Completeness and true minimality. On accepted input whose effects only SET, whose conditions
      are literal equalities, whose actions leave the clock alone, whose `after` names relevant
      fragments and whose SETs falsify no precondition of another fragment, the compiler succeeds if and only if some
      plan exists at all, and the chain it returns is no longer than any plan. */
  lemma CompileIsExact(root: Root, fragments: seq<Fragment>, goal: seq<Condition>)
    requires Accepted(root, fragments) && Tame(SortById(fragments), goal)
    ensures Compile(root, fragments, goal).Ok? <==> exists order :: Plan(root, fragments, goal, order)
    ensures Compile(root, fragments, goal).Ok? ==>
              forall order :: Plan(root, fragments, goal, order) ==> |Compile(root, fragments, goal).value| <= |order|
  {
    var r := Compile(root, fragments, goal);
    forall order | Plan(root, fragments, goal, order) ensures r.Ok? && |r.value| <= |order| {
      PlansBoundTheChain(root, fragments, goal, order);
    }
    if r.Ok? {
      CompiledChainsAreGood(root, fragments, goal);
      var order := Order(r.value);
      assert order[0] in order;
      assert Plan(root, fragments, goal, order);
    }
  }

  lemma PlansBoundTheChain(root: Root, fragments: seq<Fragment>, goal: seq<Condition>, order: seq<Fragment>)
    requires Accepted(root, fragments) && Tame(SortById(fragments), goal) && Plan(root, fragments, goal, order)
    ensures Compile(root, fragments, goal).Ok? && |Compile(root, fragments, goal).value| <= |order|
  {
    var relevant, w := Relevant(fragments, goal), Start(root);
    var pruned := RelevantOf(order, goal, SortById(fragments));
    PlansPrune(root, fragments, goal, order);
    GoodChainsAreSchedulable(root, fragments, goal, pruned);
    var sel := Keep(relevant, pruned);
    CompileUnfolds(root, fragments, goal);
    SelectedMeansFound(relevant, w, goal, sel);
    CompiledChainsAreGood(root, fragments, goal);
  }

  lemma SelectedMeansFound(relevant: seq<Fragment>, w: World, goal: seq<Condition>, sel: seq<Fragment>)
    requires sel in Selections(relevant, 1) && TrySelection(sel, w, goal).Ok?
    ensures relevant != [] && Search(Selections(relevant, 1), w, goal, None, None).Success?
  {
    var sels := Selections(relevant, 1);
    var k := SearchFindsTheFirst(sels, w, goal, None, None);
    var i :| 0 <= i < |sels| && sels[i] == sel;
  }
}

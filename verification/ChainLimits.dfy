/** No hypothesis of the completeness theorem can be dropped: for each of the six, a concrete
    accepted input of two fragments that meets the other five and has a plan, on which the
    compiler fails. */
module ChainLimits {
  import opened Wrappers
  import opened ChainModel
  import opened ChainSchedule
  import opened ChainCycle
  import opened ChainCompile
  import opened ChainSoundness
  import opened ChainCompleteness
  import opened ChainExactness

  const ZERO := Num(0.0)
  const ONE := Num(1.0)

  function Is(p: Path, v: Value): Condition { Condition(p, EQ, v, None) }
  function IsNot(p: Path, v: Value): Condition { Condition(p, NE, v, None) }
  function SetTo(p: Path, v: Value): Effect { Effect(p, SET, v) }

  const ALL_DAY := 86400000

  function Timed(id: Id, pre: seq<Condition>, effect: Effect, advance: nat, closes: nat, after: seq<Id>): Fragment {
    Fragment(id, pre, [effect], advance, 0, closes, after, "w", Binding(None, None, None), None, None, "")
  }

  function Simple(id: Id, pre: seq<Condition>, effect: Effect): Fragment { Timed(id, pre, effect, 0, ALL_DAY, []) }

  const ROOT := Root("w", [Is("x", ZERO)], 0)
  const ROOT_STATE: State := map["x" := ZERO]
  const W := World(ROOT_STATE, 0)

  /** Two fragments and a goal; `swapped` tells that the plan runs the second fragment first. */
  datatype Input = Input(a: Fragment, b: Fragment, goal: seq<Condition>, swapped: bool)

  function Fragments(i: Input): seq<Fragment> { [i.a, i.b] }
  function PlanOf(i: Input): seq<Fragment> { if i.swapped then [i.b, i.a] else [i.a, i.b] }

  /** An increment brings about what `b` needs, but an increment supports no condition. */
  const INCREMENTING := Input(Simple("a", [], Effect("x", INCREMENT, ONE)), Simple("b", [Is("x", ONE)], SetTo("y", ONE)),
                              [Is("y", ONE)], false)

  /** The first action lets so much time pass that the window of the second has closed. */
  const WAITING := Input(Timed("a", [], SetTo("y", ONE), 1000, ALL_DAY, []), Timed("b", [], SetTo("z", ONE), 0, 500, []),
                         [Is("y", ONE), Is("z", ONE)], true)

  /** A SET of the very value that an inequality names makes the inequality false. */
  const UNEQUAL := Input(Simple("a", [], SetTo("x", ONE)), Simple("b", [IsNot("x", ONE)], SetTo("y", ONE)),
                         [Is("x", ONE), Is("y", ONE)], true)

  /** A SET supports no inequality, so the fragment that meets the goal is dropped. */
  const ELSEWHERE := Input(Simple("a", [], SetTo("x", ONE)), Simple("b", [], SetTo("y", ONE)),
                           [IsNot("x", ZERO), Is("y", ONE)], false)

  /** The fragment with the least id takes away what the other one needs. */
  const MOVING := Input(Simple("a", [], SetTo("x", ONE)), Simple("b", [Is("x", ZERO)], SetTo("y", ONE)),
                        [Is("x", ONE), Is("y", ONE)], true)

  /** The parent supports nothing and is dropped, and its child waits for it in vain. */
  const ORPHANED := Input(Timed("a", [], SetTo("y", ONE), 0, ALL_DAY, ["b"]), Simple("b", [], SetTo("z", ONE)),
                          [Is("y", ONE)], true)

  /** What the six inputs have in common. */
  predicate Slim(f: Fragment, id: Id) {
    && f.id == id && |f.effects| == 1 && |f.pre| <= 1 && f.opens == 0
    && f.world == "w" && f.binding == Binding(None, None, None) && f.identity == None && f.artifact == None
  }

  predicate IsPair(i: Input) {
    && Slim(i.a, "a") && Slim(i.b, "b") && i.a.effects[0].path != i.b.effects[0].path
    && i.a.after in {[], ["b"]} && i.b.after == [] && 1 <= |i.goal| <= 2
  }

  // ---------- The input ----------

  lemma RootState()
    ensures InitialState(ROOT.conditions) == Some(ROOT_STATE) && Start(ROOT) == W
  {
    var cs := ROOT.conditions;
    assert cs[1..] == [];
    assert Collect(cs[1..], ROOT_STATE) == Some(ROOT_STATE);
    var none: State := map[];
    assert Collect(cs, none) == Collect(cs[1..], none["x" := ZERO]);
  }

  lemma PairIsAccepted(i: Input)
    requires IsPair(i)
    ensures SortById(Fragments(i)) == Fragments(i) && Accepted(ROOT, Fragments(i))
  {
    RootState();
    var fs := Fragments(i);
    assert fs[1..] == [i.b] && fs[1..][1..] == [];
    assert SortById([]) == [] && SortById(fs[1..]) == [i.b];
    assert !StrLess("b", "a") && "a"[0] != "b"[0];
    assert SortById(fs) == fs;
    var none: map<string, string> := map[];
    assert Ids(fs)[1] == "b";
    assert ValidateFrom(ROOT, fs, 2, none) == None;
    assert ValidateFrom(ROOT, fs, 1, none) == None;
  }

  // ---------- The hypotheses on a pair ----------

  predicate Spares(f: Fragment, g: Fragment)
    requires |f.effects| == 1
  {
    g.pre != [] && f.effects[0].path == g.pre[0].path ==> PyEq(f.effects[0].value, g.pre[0].value)
  }

  predicate Promotes(f: Fragment, goal: seq<Condition>, i: Input)
    requires |f.effects| == 1
  {
    || (exists k :: 0 <= k < |goal| && Supports(f.effects[0], goal[k]))
    || (i.a.pre != [] && Supports(f.effects[0], i.a.pre[0])) || (i.b.pre != [] && Supports(f.effects[0], i.b.pre[0]))
  }

  predicate Met(h: Hypothesis, i: Input)
    requires IsPair(i)
  {
    match h
    case OnlySets => i.a.effects[0].operation == SET && i.b.effects[0].operation == SET
    case StillClock => i.a.advance == 0 && i.b.advance == 0
    case LiteralPreconditions => (i.a.pre != [] ==> Literal(i.a.pre[0])) && (i.b.pre != [] ==> Literal(i.b.pre[0]))
    case LiteralGoals => Literal(i.goal[0]) && Literal(i.goal[|i.goal| - 1])
    case HarmlessEffects => Spares(i.a, i.b) && Spares(i.b, i.a)
    case RelevantAfter => i.a.after != [] ==> Promotes(i.b, i.goal, i)
  }

  lemma PairHarmless(i: Input)
    requires IsPair(i)
    ensures Harmless(Fragments(i)) <==> Spares(i.a, i.b) && Spares(i.b, i.a)
  {
    hide PyEq;
    var fs := Fragments(i);
    assert fs[0] == i.a && fs[1] == i.b;
    assert i.a.effects == [i.a.effects[0]] && i.b.effects == [i.b.effects[0]];
    assert i.a.pre == [] || i.a.pre == [i.a.pre[0]];
    assert i.b.pre == [] || i.b.pre == [i.b.pre[0]];
    if Harmless(fs) {
      assert i.b.pre != [] ==> i.a.effects[0] in fs[0].effects && i.b.pre[0] in fs[1].pre;
      assert i.a.pre != [] ==> i.b.effects[0] in fs[1].effects && i.a.pre[0] in fs[0].pre;
    }
  }

  lemma PairHypotheses(i: Input, h: Hypothesis)
    requires IsPair(i)
    ensures Meets(h, Fragments(i), i.goal) <==> Met(h, i)
  {
    hide Harmless, Spares, Promotes, CanContribute, RelevantParents;
    var fs := Fragments(i);
    assert fs[0] == i.a && fs[1] == i.b && forall f :: f in fs <==> f == i.a || f == i.b;
    assert i.a.effects == [i.a.effects[0]] && i.b.effects == [i.b.effects[0]];
    assert i.a.pre == [] || i.a.pre == [i.a.pre[0]];
    assert i.b.pre == [] || i.b.pre == [i.b.pre[0]];
    match h
    case OnlySets =>
    case StillClock =>
    case LiteralPreconditions =>
    case LiteralGoals => assert i.goal == [i.goal[0]] || i.goal == [i.goal[0], i.goal[1]];
    case HarmlessEffects =>
      PairHarmless(i);
    case RelevantAfter => PairParents(i);
  }

  lemma PairParents(i: Input)
    requires IsPair(i)
    ensures RelevantParents(Fragments(i), i.goal) <==> (i.a.after != [] ==> Promotes(i.b, i.goal, i))
  {
    hide Promotes, CanContribute, Relevant;
    var fs := Fragments(i);
    assert fs[0] == i.a && fs[1] == i.b && forall f :: f in fs <==> f == i.a || f == i.b;
    PairRelevance(i);
    if i.a.after != [] { assert i.a.after[0] in i.a.after; }
  }

  lemma PairRelevance(i: Input)
    requires IsPair(i)
    ensures CanContribute(i.a, i.goal, Fragments(i)) <==> Promotes(i.a, i.goal, i)
    ensures CanContribute(i.b, i.goal, Fragments(i)) <==> Promotes(i.b, i.goal, i)
    ensures Relevant(Fragments(i), i.goal) ==
            (if Promotes(i.a, i.goal, i) then [i.a] else []) + (if Promotes(i.b, i.goal, i) then [i.b] else [])
  {
    var fs := Fragments(i);
    PairIsAccepted(i);
    ContributesInPair(i, i.a);
    ContributesInPair(i, i.b);
    assert fs[1..] == [i.b] && [i.b][1..] == [];
    assert RelevantOf([i.b], i.goal, fs) == (if CanContribute(i.b, i.goal, fs) then [i.b] else []) + RelevantOf([], i.goal, fs);
  }

  lemma ContributesInPair(i: Input, f: Fragment)
    requires IsPair(i) && |f.effects| == 1
    ensures CanContribute(f, i.goal, Fragments(i)) <==> Promotes(f, i.goal, i)
  {
    var fs := Fragments(i);
    assert fs[0] == i.a && fs[1] == i.b;
    assert f.effects == [f.effects[0]] && f.effects[0] in f.effects;
    assert i.a.pre == [] || i.a.pre == [i.a.pre[0]];
    assert i.b.pre == [] || i.b.pre == [i.b.pre[0]];
    if CanContribute(f, i.goal, fs) && exists c :: c in i.goal && Produces(f, c) {
      var c :| c in i.goal && Produces(f, c);
      var k :| 0 <= k < |i.goal| && i.goal[k] == c;
    }
    if Promotes(f, i.goal, i) {
      if i.a.pre != [] && Supports(f.effects[0], i.a.pre[0]) { assert i.a in fs && Produces(f, i.a.pre[0]); }
      else if i.b.pre != [] && Supports(f.effects[0], i.b.pre[0]) { assert i.b in fs && Produces(f, i.b.pre[0]); }
      else {
        var k :| 0 <= k < |i.goal| && Supports(f.effects[0], i.goal[k]);
        assert Produces(f, i.goal[k]);
      }
    }
  }

  // ---------- The plan ----------

  /** Executing a fragment with one effect, from a world in which it is ready. */
  predicate StepsTo(f: Fragment, done: seq<Id>, u: World, v: World) {
    Ready(f, done, u) && ApplyEffects(u.state, f.effects) == Some(v.state) && v.clock == u.clock + f.advance
  }

  lemma OneEffect(s: State, e: Effect)
    ensures ApplyEffects(s, [e]) == ApplyEffect(s, e)
  {
    assert [e][1..] == [];
  }

  /** Two steps that end in the goal make the plan. */
  lemma TwoSteps(i: Input, middle: World, last: World)
    requires IsPair(i) && (Promotes(i.a, i.goal, i) || Promotes(i.b, i.goal, i))
    requires StepsTo(PlanOf(i)[0], [], W, middle) && StepsTo(PlanOf(i)[1], [PlanOf(i)[0].id], middle, last)
    requires HoldAll(i.goal, last.state)
    ensures Accepted(ROOT, Fragments(i)) && Plan(ROOT, Fragments(i), i.goal, PlanOf(i))
  {
    hide Promotes, Accepted, CanContribute, Compatible, HoldAll, Ready, ApplyEffects, SortById;
    RootState();
    PairIsAccepted(i);
    PairRelevance(i);
    var order := PlanOf(i);
    assert order[1..] == [order[1]] && [order[1]][1..] == [];
    assert [] + [order[0].id] == [order[0].id];
    assert Replay(middle, [order[0].id], [order[1]]) == Some(last);
    assert order[0] in order && order[1] in order && order[0].id[0] != order[1].id[0];
    assert i.a in Fragments(i) && i.b in Fragments(i);
    PairIsCompatible(order);
  }

  lemma PairIsCompatible(order: seq<Fragment>)
    requires |order| == 2 && |order[0].effects| == 1 && |order[1].effects| == 1
    requires order[0].effects[0].path != order[1].effects[0].path
    ensures Compatible(order)
  {
    assert order[1..][1..] == [];
    assert AllEffects(order[1..]) == order[1].effects;
    assert AllEffects(order) == [order[0].effects[0], order[1].effects[0]];
  }

  // ---------- The failure ----------

  /** Alone, the fragment is not ready or does not reach the goal. */
  predicate FailsAlone(f: Fragment, goal: seq<Condition>) {
    !Ready(f, [], W) || (ApplyEffects(ROOT_STATE, f.effects).Some? && !HoldAll(goal, ApplyEffects(ROOT_STATE, f.effects).value))
  }

  lemma SingleEnds(f: Fragment, goal: seq<Condition>)
    requires FailsAlone(f, goal)
    ensures TrySelection([f], W, goal).Err?
  {
    hide Ready, ApplyEffects, HoldAll;
    assert [f][..0] == [];
    assert Pick([f], [], W) == if Ready(f, [], W) then Some(f) else None;
    assert Without([f], f) == [];
    if Ready(f, [], W) {
      var t := ApplyEffects(ROOT_STATE, f.effects).value;
      assert Schedule([], [] + [f.id], World(t, 0 + f.advance), goal).Err?;
    }
    assert Schedule([f], [], W, goal).Err?;
  }

  /** The scheduler runs `a` first, because its id is the least, and then blocks. */
  lemma GreedyBlocks(i: Input, next: World)
    requires IsPair(i) && StepsTo(i.a, [], W, next) && !Ready(i.b, ["a"], next)
    ensures TrySelection(Fragments(i), W, i.goal).Err?
  {
    var fs := Fragments(i);
    assert StrLess("a", "b") && !StrLess("b", "a") && i.a.id == "a" && i.b.id == "b";
    assert fs[..1] == [i.a] && [i.a][..0] == [] && [i.b][..0] == [];
    assert Pick([i.a], [], W) == Some(i.a);
    assert Pick(fs, [], W) == Some(i.a);
    assert Pick([i.b], ["a"], next) == None;
    assert Without(fs, i.a) == [i.b];
    assert Schedule([i.b], ["a"], next, i.goal).Err?;
    assert [] + [i.a.id] == ["a"];
    assert Schedule(fs, [], W, i.goal).Err?;
  }

  lemma SelectionsOfTwo(a: Fragment, b: Fragment)
    ensures Selections([a, b], 1) == [[a], [b], [a, b]]
  {
    var fs := [a, b];
    assert fs[1..] == [b] && [b][1..] == [];
    assert Combinations([b], 1) == [[b]] by {
      assert Combinations([], 0) == [[]] && Combinations([], 1) == [];
      assert Prepend(b, [[]])[0] == [b];
    }
    assert Combinations([b], 2) == [] by {
      assert Combinations([], 1) == [] && Combinations([], 2) == [];
    }
    assert Combinations(fs, 1) == [[a], [b]] by { assert Prepend(a, [[]])[0] == [a]; }
    assert Combinations(fs, 2) == [[a, b]] by { assert Prepend(a, [[b]])[0] == [a, b]; }
    assert Selections(fs, 3) == [];
    assert Selections(fs, 2) == [[a, b]];
  }

  lemma SelectionsOfOne(f: Fragment)
    ensures Selections([f], 1) == [[f]]
  {
    assert [f][1..] == [];
    assert Combinations([f], 1) == [[f]] by { assert Prepend(f, [[]])[0] == [f]; }
    assert Selections([f], 2) == [];
  }

  lemma NothingSelectedNothingFound(sels: seq<seq<Fragment>>, w: World, goal: seq<Condition>)
    requires forall i :: 0 <= i < |sels| ==> TrySelection(sels[i], w, goal).Err?
    ensures Search(sels, w, goal, None, None).Failure?
  {
    var k := SearchFindsTheFirst(sels, w, goal, None, None);
  }

  /** Every selection of the relevant fragments fails. */
  lemma SelectionsFail(i: Input, first: bool, second: bool)
    requires first ==> TrySelection([i.a], W, i.goal).Err?
    requires second ==> TrySelection([i.b], W, i.goal).Err?
    requires first && second ==> TrySelection([i.a, i.b], W, i.goal).Err?
    ensures var relevant := (if first then [i.a] else []) + (if second then [i.b] else []);
            relevant == [] || Search(Selections(relevant, 1), W, i.goal, None, None).Failure?
  {
    hide Selections, Search, TrySelection;
    assert [i.a] + [i.b] == [i.a, i.b] && [i.a] + [] == [i.a] && [] + [i.b] == [i.b];
    SelectionsOfTwo(i.a, i.b);
    SelectionsOfOne(i.a);
    SelectionsOfOne(i.b);
    var relevant := (if first then [i.a] else []) + (if second then [i.b] else []);
    if relevant != [] { NothingSelectedNothingFound(Selections(relevant, 1), W, i.goal); }
  }

  /** Nothing compiles where every selection of relevant fragments fails. */
  lemma NothingCompiles(i: Input)
    requires IsPair(i)
    requires Promotes(i.a, i.goal, i) ==> FailsAlone(i.a, i.goal)
    requires Promotes(i.b, i.goal, i) ==> FailsAlone(i.b, i.goal)
    requires Promotes(i.a, i.goal, i) && Promotes(i.b, i.goal, i) ==> TrySelection([i.a, i.b], W, i.goal).Err?
    ensures Compile(ROOT, Fragments(i), i.goal).Err?
  {
    hide Selections, Search, TrySelection, Accepted, Compile, Promotes, FailsAlone, Relevant;
    RootState();
    PairIsAccepted(i);
    PairRelevance(i);
    if Promotes(i.a, i.goal, i) { SingleEnds(i.a, i.goal); }
    if Promotes(i.b, i.goal, i) { SingleEnds(i.b, i.goal); }
    SelectionsFail(i, Promotes(i.a, i.goal, i), Promotes(i.b, i.goal, i));
    CompileUnfolds(ROOT, Fragments(i), i.goal);
  }

  // ---------- The six inputs ----------

  /** The input meets every hypothesis but one. */
  ghost predicate BreaksOnly(h: Hypothesis, fs: seq<Fragment>, goal: seq<Condition>) {
    forall k: Hypothesis :: Meets(k, fs, goal) <==> k != h
  }

  /** A plan exists, and the compiler fails. */
  ghost predicate Gap(fs: seq<Fragment>, goal: seq<Condition>, order: seq<Fragment>) {
    Accepted(ROOT, fs) && Plan(ROOT, fs, goal, order) && Compile(ROOT, fs, goal).Err?
  }

  lemma Differ()
    ensures "x" != "y" && "y" != "z" && "x" != "z"
  {
    assert "x"[0] != "y"[0] && "y"[0] != "z"[0] && "x"[0] != "z"[0];
  }

  lemma GoalMembers(goal: seq<Condition>, s: State)
    requires 1 <= |goal| <= 2
    ensures HoldAll(goal, s) <==> Holds(goal[0], s) && Holds(goal[|goal| - 1], s)
  {
    assert goal[0] in goal && goal[|goal| - 1] in goal;
    assert forall c :: c in goal ==> c == goal[0] || c == goal[|goal| - 1];
  }

  lemma PreMembers(f: Fragment, done: seq<Id>, w: World)
    requires |f.pre| <= 1 && f.opens == 0
    ensures Ready(f, done, w) <==>
              Subset(f.after, done) && (f.pre != [] ==> Holds(f.pre[0], w.state)) && w.clock <= f.closes
  {
    if f.pre != [] { assert f.pre == [f.pre[0]] && f.pre[0] in f.pre; }
  }

  /** The two steps of the plan, as far as they depend on the fragments themselves. */
  predicate Runs(i: Input, middle: World, last: World)
    requires IsPair(i)
  {
    var f, g := PlanOf(i)[0], PlanOf(i)[1];
    && f.after == [] && g.after in {[], [f.id]}
    && (f.pre != [] ==> Holds(f.pre[0], ROOT_STATE)) && (g.pre != [] ==> Holds(g.pre[0], middle.state))
    && ApplyEffect(ROOT_STATE, f.effects[0]) == Some(middle.state) && middle.clock == f.advance <= g.closes
    && ApplyEffect(middle.state, g.effects[0]) == Some(last.state) && last.clock == middle.clock + g.advance
    && Holds(i.goal[0], last.state) && Holds(i.goal[|i.goal| - 1], last.state)
  }

  lemma PlanExists(i: Input, middle: World, last: World)
    requires IsPair(i) && Runs(i, middle, last) && (Promotes(i.a, i.goal, i) || Promotes(i.b, i.goal, i))
    ensures Accepted(ROOT, Fragments(i)) && Plan(ROOT, Fragments(i), i.goal, PlanOf(i))
  {
    hide Promotes, Plan, Accepted, Holds, ApplyEffect;
    var f, g := PlanOf(i)[0], PlanOf(i)[1];
    PreMembers(f, [], W);
    PreMembers(g, [f.id], middle);
    assert f.effects == [f.effects[0]] && g.effects == [g.effects[0]];
    OneEffect(ROOT_STATE, f.effects[0]);
    OneEffect(middle.state, g.effects[0]);
    GoalMembers(i.goal, last.state);
    TwoSteps(i, middle, last);
  }

  /** Alone, the fragment misses one of the conditions. */
  lemma EndsAlone(f: Fragment, goal: seq<Condition>, after: State)
    requires |f.effects| == 1 && |f.pre| <= 1 && f.opens == 0 && 1 <= |goal| <= 2
    requires ApplyEffect(ROOT_STATE, f.effects[0]) == Some(after)
    requires f.after != [] || (f.pre != [] && !Holds(f.pre[0], ROOT_STATE))
             || !Holds(goal[0], after) || !Holds(goal[|goal| - 1], after)
    ensures FailsAlone(f, goal)
  {
    hide Holds, ApplyEffect;
    PreMembers(f, [], W);
    GoalMembers(goal, after);
    assert f.effects == [f.effects[0]];
    OneEffect(ROOT_STATE, f.effects[0]);
    if f.after != [] { assert f.after[0] in f.after; }
  }

  /** After `a` the other fragment is not ready: its precondition fails or its window has closed. */
  lemma RunsThenBlocks(i: Input, next: World)
    requires IsPair(i) && i.a.pre == [] && i.a.after == []
    requires ApplyEffect(ROOT_STATE, i.a.effects[0]) == Some(next.state) && next.clock == i.a.advance
    requires (i.b.pre != [] && !Holds(i.b.pre[0], next.state)) || next.clock > i.b.closes
    ensures TrySelection([i.a, i.b], W, i.goal).Err?
  {
    hide Holds, ApplyEffect;
    PreMembers(i.a, [], W);
    PreMembers(i.b, ["a"], next);
    assert i.a.effects == [i.a.effects[0]];
    OneEffect(ROOT_STATE, i.a.effects[0]);
    GreedyBlocks(i, next);
  }

  lemma HypothesesOf(i: Input, h: Hypothesis)
    requires IsPair(i) && forall k: Hypothesis :: Met(k, i) <==> k != h
    ensures BreaksOnly(h, Fragments(i), i.goal)
  {
    hide Meets, Met;
    forall k: Hypothesis ensures Meets(k, Fragments(i), i.goal) <==> k != h { PairHypotheses(i, k); }
  }

  /** One increment reaches what `b` needs, but only `b` is relevant and it is never ready. */
  lemma IncrementsAreDropped()
    ensures var i := INCREMENTING;
            Gap(Fragments(i), i.goal, PlanOf(i)) && BreaksOnly(OnlySets, Fragments(i), i.goal)
  {
    hide Plan, Accepted, Compile, BreaksOnly, FailsAlone;
    var i := INCREMENTING;
    Differ();
    assert forall k: Hypothesis :: Met(k, i) <==> k != OnlySets;
    HypothesesOf(i, OnlySets);
    assert Supports(i.b.effects[0], i.goal[0]);
    PlanExists(i, World(ROOT_STATE["x" := ONE], 0), World(ROOT_STATE["x" := ONE]["y" := ONE], 0));
    EndsAlone(i.b, i.goal, ROOT_STATE["y" := ONE]);
    NothingCompiles(i);
  }

  /** Executing `b` and then `a` reaches the goal, but the scheduler runs `a` first, and then the
      window of `b` has closed. */
  lemma AdvancesMissWindows()
    ensures var i := WAITING;
            Gap(Fragments(i), i.goal, PlanOf(i)) && BreaksOnly(StillClock, Fragments(i), i.goal)
  {
    hide Plan, Accepted, Compile, BreaksOnly, FailsAlone;
    var i := WAITING;
    Differ();
    assert forall k: Hypothesis :: Met(k, i) <==> k != StillClock;
    HypothesesOf(i, StillClock);
    PlanExists(i, World(ROOT_STATE["z" := ONE], 0), World(ROOT_STATE["z" := ONE]["y" := ONE], 1000));
    EndsAlone(i.a, i.goal, ROOT_STATE["y" := ONE]);
    EndsAlone(i.b, i.goal, ROOT_STATE["z" := ONE]);
    RunsThenBlocks(i, World(ROOT_STATE["y" := ONE], 1000));
    NothingCompiles(i);
  }

  /** The scheduler runs `a` first, whose SET makes the inequality that `b` needs false. */
  lemma InequalitiesAreFalsified()
    ensures var i := UNEQUAL;
            Gap(Fragments(i), i.goal, PlanOf(i)) && BreaksOnly(LiteralPreconditions, Fragments(i), i.goal)
  {
    hide Plan, Accepted, Compile, BreaksOnly, FailsAlone;
    var i := UNEQUAL;
    Differ();
    assert forall k: Hypothesis :: Met(k, i) <==> k != LiteralPreconditions;
    HypothesesOf(i, LiteralPreconditions);
    PlanExists(i, World(ROOT_STATE["y" := ONE], 0), World(ROOT_STATE["y" := ONE]["x" := ONE], 0));
    EndsAlone(i.a, i.goal, ROOT_STATE["x" := ONE]);
    EndsAlone(i.b, i.goal, ROOT_STATE["y" := ONE]);
    RunsThenBlocks(i, World(ROOT_STATE["x" := ONE], 0));
    NothingCompiles(i);
  }

  /** The goal asks for an inequality, which no SET supports, so `a` is dropped. */
  lemma InequalitiesAreUnsupported()
    ensures var i := ELSEWHERE;
            Gap(Fragments(i), i.goal, PlanOf(i)) && BreaksOnly(LiteralGoals, Fragments(i), i.goal)
  {
    hide Plan, Accepted, Compile, BreaksOnly, FailsAlone;
    var i := ELSEWHERE;
    Differ();
    assert forall k: Hypothesis :: Met(k, i) <==> k != LiteralGoals;
    HypothesesOf(i, LiteralGoals);
    assert Supports(i.b.effects[0], i.goal[1]);
    PlanExists(i, World(ROOT_STATE["x" := ONE], 0), World(ROOT_STATE["x" := ONE]["y" := ONE], 0));
    EndsAlone(i.b, i.goal, ROOT_STATE["y" := ONE]);
    NothingCompiles(i);
  }

  /** Executing `b` and then `a` reaches the goal, but the scheduler runs `a` first, whose SET takes
      away what `b` needs. */
  lemma SetFalsifiesPrecondition()
    ensures var i := MOVING;
            Gap(Fragments(i), i.goal, PlanOf(i)) && BreaksOnly(HarmlessEffects, Fragments(i), i.goal)
  {
    hide Plan, Accepted, Compile, BreaksOnly, FailsAlone;
    var i := MOVING;
    Differ();
    assert forall k: Hypothesis :: Met(k, i) <==> k != HarmlessEffects;
    HypothesesOf(i, HarmlessEffects);
    PlanExists(i, World(ROOT_STATE["y" := ONE], 0), World(ROOT_STATE["y" := ONE]["x" := ONE], 0));
    EndsAlone(i.a, i.goal, ROOT_STATE["x" := ONE]);
    EndsAlone(i.b, i.goal, ROOT_STATE["y" := ONE]);
    RunsThenBlocks(i, World(ROOT_STATE["x" := ONE], 0));
    NothingCompiles(i);
  }

  /** Executing the parent and then the child reaches the goal, but the parent supports nothing,
      is dropped as irrelevant, and leaves the child's ordering constraint open for ever. */
  lemma ParentsAreDropped()
    ensures var i := ORPHANED;
            Gap(Fragments(i), i.goal, PlanOf(i)) && BreaksOnly(RelevantAfter, Fragments(i), i.goal)
  {
    hide Plan, Accepted, Compile, BreaksOnly, FailsAlone;
    var i := ORPHANED;
    Differ();
    assert forall k: Hypothesis :: Met(k, i) <==> k != RelevantAfter;
    HypothesesOf(i, RelevantAfter);
    assert Supports(i.a.effects[0], i.goal[0]);
    PlanExists(i, World(ROOT_STATE["z" := ONE], 0), World(ROOT_STATE["z" := ONE]["y" := ONE], 0));
    EndsAlone(i.a, i.goal, ROOT_STATE["y" := ONE]);
    NothingCompiles(i);
  }

  /** None of the six hypotheses of the completeness theorem can be dropped: without any one of
      them there is an accepted input with a plan on which the compiler fails. */
  lemma EveryHypothesisIsNeeded(h: Hypothesis)
    ensures exists i: Input :: Gap(Fragments(i), i.goal, PlanOf(i)) && BreaksOnly(h, Fragments(i), i.goal)
  {
    hide Gap, BreaksOnly;
    match h
    case OnlySets => IncrementsAreDropped();
    case StillClock => AdvancesMissWindows();
    case LiteralPreconditions => InequalitiesAreFalsified();
    case LiteralGoals => InequalitiesAreUnsupported();
    case HarmlessEffects => SetFalsifiesPrecondition();
    case RelevantAfter => ParentsAreDropped();
  }
}

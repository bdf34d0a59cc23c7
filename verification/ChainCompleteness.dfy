/** SET-only selections end in the same state in every order, and under six hypotheses the greedy
    scheduler finishes a selection whenever some order of it does. */
module ChainCompleteness {
  import opened Wrappers
  import opened ChainModel
  import opened ChainSchedule
  import opened ChainCycle
  import opened ChainCompile
  import opened ChainSoundness

  // ---------- SET-only fragments merge maps ----------

  predicate SetOnly(es: seq<Effect>) { forall e :: e in es ==> e.operation == SET }
  predicate Literal(c: Condition) { c.operator == EQ && c.reference.None? }

  function Sets(es: seq<Effect>): map<Path, Value> {
    if es == [] then map[] else map[es[0].path := es[0].value] + Sets(es[1..])
  }

  lemma {:induction false} SetEffectsMerge(s: State, es: seq<Effect>)
    requires SetOnly(es)
    ensures ApplyEffects(s, es) == Some(s + Sets(es))
    decreases |es|
  {
    if es == [] {
      assert s + Sets(es) == s;
    } else {
      var first := map[es[0].path := es[0].value];
      SetEffectsMerge(s[es[0].path := es[0].value], es[1..]);
      assert s[es[0].path := es[0].value] == s + first;
      MergeTwice(s, first, Sets(es[1..]));
    }
  }

  lemma {:induction false} SetsComeFromEffects(es: seq<Effect>)
    ensures forall p :: p in Sets(es) ==> exists e :: e in es && e.path == p && e.value == Sets(es)[p]
    ensures forall e :: e in es ==> e.path in Sets(es)
  {
    if es != [] {
      SetsComeFromEffects(es[1..]);
      assert forall e :: e in es <==> e == es[0] || e in es[1..];
    }
  }

  predicate SetsOnly(fs: seq<Fragment>) { forall f :: f in fs ==> SetOnly(f.effects) }
  predicate ClockStill(fs: seq<Fragment>) { forall f :: f in fs ==> f.advance == 0 }

  lemma MergeTwice(s: State, a: map<Path, Value>, b: map<Path, Value>)
    ensures (s + a) + b == s + (a + b)
  {
  }

  lemma SetStep(w: World, done: seq<Id>, order: seq<Fragment>)
    requires order != [] && SetOnly(order[0].effects) && Replay(w, done, order).Some?
    ensures var f := order[0];
            Replay(w, done, order) ==
            Replay(World(w.state + Sets(f.effects), w.clock + f.advance), done + [f.id], order[1..])
  {
    SetEffectsMerge(w.state, order[0].effects);
  }

  /** Fragments that only SET move the state by the merge of their SETs, whatever the clock does. */
  lemma {:induction false} ReplayMerges(w: World, done: seq<Id>, order: seq<Fragment>)
    requires SetsOnly(order) && Replay(w, done, order).Some?
    ensures Replay(w, done, order).value.state == w.state + Sets(AllEffects(order))
    ensures ClockStill(order) ==> Replay(w, done, order).value.clock == w.clock
    decreases |order|
  {
    if order == [] {
      assert w.state + Sets(AllEffects(order)) == w.state;
    } else {
      var f := order[0];
      assert f in order;
      SetStep(w, done, order);
      ReplayMerges(World(w.state + Sets(f.effects), w.clock + f.advance), done + [f.id], order[1..]);
      SetsConcat(f.effects, AllEffects(order[1..]));
      MergeTwice(w.state, Sets(f.effects), Sets(AllEffects(order[1..])));
    }
  }

  lemma {:induction false} SetsConcat(a: seq<Effect>, b: seq<Effect>)
    ensures Sets(a + b) == Sets(a) + Sets(b)
  {
    if a == [] {
      assert a + b == b;
      assert Sets(a) + Sets(b) == Sets(b);
    } else {
      SetsConcat(a[1..], b);
      assert (a + b)[1..] == a[1..] + b;
      MergeTwice(map[a[0].path := a[0].value], Sets(a[1..]), Sets(b));
    }
  }

  // ---------- The final state does not depend on the order ----------

  predicate SameState(s: State, t: State) {
    s.Keys == t.Keys && forall p :: p in s ==> PyEq(s[p], t[p])
  }

  lemma WritesOf(fs: seq<Fragment>)
    ensures var m := Sets(AllEffects(fs));
            && (forall p :: p in m ==> exists f, e :: f in fs && e in f.effects && e.path == p && e.value == m[p])
            && (forall f, e :: f in fs && e in f.effects ==> e.path in m)
  {
    var es := AllEffects(fs);
    SetsComeFromEffects(es);
    forall e { EffectsAreTheFragments(fs, e); }
  }

  lemma WrittenTwice(fs: seq<Fragment>, gs: seq<Fragment>, p: Path)
    requires SetsOnly(fs) && Compatible(fs) && (forall f :: f in fs <==> f in gs)
    requires p in Sets(AllEffects(fs)) && p in Sets(AllEffects(gs))
    ensures PyEq(Sets(AllEffects(fs))[p], Sets(AllEffects(gs))[p])
  {
    WritesOf(fs);
    WritesOf(gs);
    CompatibleMeansPairwise(fs);
    var f, d :| f in fs && d in f.effects && d.path == p && d.value == Sets(AllEffects(fs))[p];
    var g, e :| g in gs && e in g.effects && e.path == p && e.value == Sets(AllEffects(gs))[p];
    assert SetsAgree(d, e);
  }

  lemma SameWrites(fs: seq<Fragment>, gs: seq<Fragment>)
    requires SetsOnly(fs) && Compatible(fs) && (forall f :: f in fs <==> f in gs)
    ensures SameState(Sets(AllEffects(fs)), Sets(AllEffects(gs)))
  {
    WritesOf(fs);
    WritesOf(gs);
    forall p | p in Sets(AllEffects(fs)) ensures PyEq(Sets(AllEffects(fs))[p], Sets(AllEffects(gs))[p]) {
      WrittenTwice(fs, gs, p);
    }
  }

  /** Two executable orders of one compatible SET-only selection end in the same state, up to
      values Python cannot tell apart. Actions may advance the clock. */
  lemma FinalStateIsOrderFree(w: World, a: seq<Fragment>, b: seq<Fragment>)
    requires multiset(a) == multiset(b) && SetsOnly(a) && Compatible(a)
    requires Replay(w, [], a).Some? && Replay(w, [], b).Some?
    ensures SameState(Replay(w, [], a).value.state, Replay(w, [], b).value.state)
  {
    assert forall f :: f in a <==> f in multiset(a);
    assert forall f :: f in b <==> f in multiset(b);
    ReplayMerges(w, [], a);
    ReplayMerges(w, [], b);
    SameWrites(a, b);
  }

  // ---------- The hypotheses ----------

  /** No effect of a fragment can make a precondition of another one false. */
  ghost predicate Harmless(fs: seq<Fragment>) {
    forall i, j, e, c :: 0 <= i < |fs| && 0 <= j < |fs| && i != j && e in fs[i].effects && c in fs[j].pre ==>
      e.path == c.path ==> PyEq(e.value, c.value)
  }

  ghost predicate LiteralPre(fs: seq<Fragment>) { forall f, c :: f in fs && c in f.pre ==> Literal(c) }
  ghost predicate LiteralGoal(goal: seq<Condition>) { forall c :: c in goal ==> Literal(c) }

  /** `after` names only relevant fragments. */
  ghost predicate RelevantParents(fs: seq<Fragment>, goal: seq<Condition>) {
    forall f, id :: f in fs && id in f.after ==> exists g :: g in fs && g.id == id && CanContribute(g, goal, fs)
  }

  datatype Hypothesis = OnlySets | StillClock | LiteralPreconditions | LiteralGoals | HarmlessEffects | RelevantAfter

  ghost predicate Meets(h: Hypothesis, fs: seq<Fragment>, goal: seq<Condition>) {
    match h
    case OnlySets => SetsOnly(fs)
    case StillClock => ClockStill(fs)
    case LiteralPreconditions => LiteralPre(fs)
    case LiteralGoals => LiteralGoal(goal)
    case HarmlessEffects => Harmless(fs)
    case RelevantAfter => RelevantParents(fs, goal)
  }

  ghost predicate Tame(fs: seq<Fragment>, goal: seq<Condition>) {
    SetsOnly(fs) && ClockStill(fs) && LiteralPre(fs) && LiteralGoal(goal) && Harmless(fs) && RelevantParents(fs, goal)
  }

  // ---------- The greedy scheduler finishes whenever some order does ----------

  /** Every fragment of `some` stands in `order` elsewhere than at `i`. */
  ghost predicate Elsewhere(order: seq<Fragment>, i: nat, some: seq<Fragment>) {
    forall g :: g in some ==> exists j :: 0 <= j < |order| && j != i && order[j] == g
  }

  /** What has been executed stands elsewhere than a fragment that is still to be executed. */
  lemma ExecutedIsElsewhere(order: seq<Fragment>, i: nat, executed: seq<Fragment>, remaining: seq<Fragment>)
    requires multiset(executed) + multiset(remaining) == multiset(order) && i < |order| && order[i] in remaining
    ensures Elsewhere(order, i, executed)
  {
    var f := order[i];
    forall g | g in executed ensures exists j :: 0 <= j < |order| && j != i && order[j] == g {
      assert multiset(executed)[g] >= 1 && multiset(remaining)[f] >= 1;
      assert order == order[..i] + [f] + order[i + 1..];
      assert multiset(order)[g] == multiset(order[..i])[g] + multiset{f}[g] + multiset(order[i + 1..])[g];
      if g in order[..i] {
        var j :| 0 <= j < i && order[..i][j] == g;
      } else {
        assert g in order[i + 1..];
        var j :| 0 <= j < |order| - i - 1 && order[i + 1..][j] == g;
        assert order[i + 1 + j] == g;
      }
    }
  }

  lemma HoldsAfterMerge(c: Condition, s: State, es: seq<Effect>)
    requires Literal(c)
    requires forall e :: e in es && e.path == c.path ==> PyEq(e.value, c.value)
    ensures Holds(c, s + Sets(es)) <==> Holds(c, s) || exists e :: e in es && e.path == c.path
  {
    SetsComeFromEffects(es);
  }

  /** Everything a fragment needs is in place once all fragments before it in some executable
      order have been executed, whatever else was. */
  lemma NextIsReady(w: World, order: seq<Fragment>, i: nat, executed: seq<Fragment>, v: World)
    requires SetsOnly(order) && ClockStill(order) && LiteralPre(order) && Harmless(order)
    requires i < |order| && Replay(w, [], order).Some?
    requires Elsewhere(order, i, executed) && (forall f :: f in order[..i] ==> f in executed)
    requires Replay(w, [], executed) == Some(v)
    ensures Ready(order[i], Ids(executed), v)
  {
    var f, prefix := order[i], order[..i];
    assert order == prefix + order[i..] && order[i..][0] == f;
    ReplaySplits(w, [], prefix, order[i..]);
    var u := Replay(w, [], prefix).value;
    assert [] + Ids(prefix) == Ids(prefix);
    assert Ready(f, Ids(prefix), u);
    assert f in order && forall g :: g in prefix ==> g in order;
    ReplayMerges(w, [], prefix);
    ReplayMerges(w, [], executed);
    IdsGrow(prefix, executed);
    forall c | c in f.pre ensures Holds(c, v.state) {
      PreconditionSurvives(w.state, order, i, c, prefix, executed);
    }
  }

  lemma IdsGrow(a: seq<Fragment>, b: seq<Fragment>)
    requires forall f :: f in a ==> f in b
    ensures forall id :: id in Ids(a) ==> id in Ids(b)
  {
    forall id | id in Ids(a) ensures id in Ids(b) {
      var k :| 0 <= k < |a| && Ids(a)[k] == id;
      assert a[k] in b;
      var j :| 0 <= j < |b| && b[j] == a[k];
      assert Ids(b)[j] == id;
    }
  }

  lemma EffectsOf(fs: seq<Fragment>)
    ensures forall e :: e in AllEffects(fs) <==> exists f :: f in fs && e in f.effects
  {
    forall e ensures e in AllEffects(fs) <==> exists f :: f in fs && e in f.effects {
      EffectsAreTheFragments(fs, e);
    }
  }

  lemma EffectsAgreeWith(order: seq<Fragment>, i: nat, c: Condition, some: seq<Fragment>)
    requires Harmless(order) && i < |order| && c in order[i].pre && Elsewhere(order, i, some)
    ensures forall e :: e in AllEffects(some) && e.path == c.path ==> PyEq(e.value, c.value)
  {
    EffectsOf(some);
  }

  lemma PreconditionSurvives(s: State, order: seq<Fragment>, i: nat, c: Condition, prefix: seq<Fragment>, executed: seq<Fragment>)
    requires Harmless(order) && LiteralPre(order) && i < |order| && c in order[i].pre
    requires Elsewhere(order, i, executed) && (forall g :: g in prefix ==> g in executed)
    requires Holds(c, s + Sets(AllEffects(prefix)))
    ensures Holds(c, s + Sets(AllEffects(executed)))
  {
    EffectsAgreeWith(order, i, c, prefix);
    EffectsAgreeWith(order, i, c, executed);
    HoldsAfterMerge(c, s, AllEffects(prefix));
    HoldsAfterMerge(c, s, AllEffects(executed));
    EffectsOf(prefix);
    EffectsOf(executed);
  }

  lemma FirstLeft(order: seq<Fragment>, remaining: seq<Fragment>) returns (i: nat)
    requires exists f :: f in order && f in remaining
    ensures i < |order| && order[i] in remaining && forall j :: 0 <= j < i ==> order[j] !in remaining
  {
    if order[0] in remaining {
      i := 0;
    } else {
      assert order == [order[0]] + order[1..];
      var k := FirstLeft(order[1..], remaining);
      i := k + 1;
      assert forall j :: 0 < j < i ==> order[j] == order[1..][j - 1];
    }
  }

  ghost predicate Progress(w: World, order: seq<Fragment>, goal: seq<Condition>, executed: seq<Fragment>,
                           remaining: seq<Fragment>, v: World)
  {
    && SetsOnly(order) && ClockStill(order) && LiteralPre(order) && Harmless(order) && LiteralGoal(goal)
    && Compatible(order) && Reaches(w, order, goal)
    && multiset(executed) + multiset(remaining) == multiset(order)
    && Replay(w, [], executed) == Some(v)
  }

  lemma ProgressMembers(executed: seq<Fragment>, remaining: seq<Fragment>, order: seq<Fragment>)
    requires multiset(executed) + multiset(remaining) == multiset(order)
    ensures forall f :: f in order <==> f in executed || f in remaining
  {
    assert forall f :: f in order <==> f in multiset(executed) + multiset(remaining);
  }

  lemma FinishedMeetsGoal(w: World, order: seq<Fragment>, goal: seq<Condition>, executed: seq<Fragment>, v: World)
    requires Progress(w, order, goal, executed, [], v)
    ensures HoldAll(goal, v.state)
  {
    ProgressMembers(executed, [], order);
    ReplayMerges(w, [], order);
    ReplayMerges(w, [], executed);
    SameWrites(order, executed);
    forall c | c in goal ensures Holds(c, v.state) {
    }
  }

  lemma SomethingIsReady(w: World, order: seq<Fragment>, goal: seq<Condition>, executed: seq<Fragment>,
                         remaining: seq<Fragment>, v: World)
    requires Progress(w, order, goal, executed, remaining, v) && remaining != []
    ensures Pick(remaining, Ids(executed), v).Some?
  {
    ProgressMembers(executed, remaining, order);
    assert remaining[0] in order;
    var i := FirstLeft(order, remaining);
    ExecutedIsElsewhere(order, i, executed, remaining);
    NextIsReady(w, order, i, executed, v);
    PickIsLeastReady(remaining, Ids(executed), v);
  }

  lemma ExecuteOne(w: World, executed: seq<Fragment>, v: World, f: Fragment)
    requires Replay(w, [], executed) == Some(v) && Ready(f, Ids(executed), v)
    requires SetOnly(f.effects) && f.advance == 0
    ensures Replay(w, [], executed + [f]) == Some(World(v.state + Sets(f.effects), v.clock))
    ensures Ids(executed + [f]) == Ids(executed) + [f.id]
  {
    SetEffectsMerge(v.state, f.effects);
    ReplaySplits(w, [], executed, [f]);
    assert [] + Ids(executed) == Ids(executed);
  }

  lemma ProgressContinues(w: World, order: seq<Fragment>, goal: seq<Condition>, executed: seq<Fragment>,
                          remaining: seq<Fragment>, v: World, f: Fragment)
    requires Progress(w, order, goal, executed, remaining, v) && f in remaining && Ready(f, Ids(executed), v)
    ensures ApplyEffects(v.state, f.effects) == Some(v.state + Sets(f.effects)) && f.advance == 0
    ensures Progress(w, order, goal, executed + [f], Without(remaining, f), World(v.state + Sets(f.effects), v.clock))
    ensures Ids(executed + [f]) == Ids(executed) + [f.id]
  {
    ProgressMembers(executed, remaining, order);
    assert f in order;
    SetEffectsMerge(v.state, f.effects);
    ExecuteOne(w, executed, v, f);
    WithoutRemovesOne(remaining, f);
  }

  /** The picked fragment, and the state after it; only used where something is ready. */
  ghost predicate Moves(remaining: seq<Fragment>, done: seq<Id>, v: World, f: Fragment, next: World) {
    && Pick(remaining, done, v) == Some(f) && f in remaining
    && ApplyEffects(v.state, f.effects) == Some(next.state) && next.clock == v.clock + f.advance
  }

  lemma ScheduleMoves(remaining: seq<Fragment>, done: seq<Id>, v: World, goal: seq<Condition>, f: Fragment, next: World)
    requires remaining != [] && Moves(remaining, done, v, f, next)
    ensures Schedule(remaining, done, v, goal) ==
            Prefixed([f], Schedule(Without(remaining, f), done + [f.id], next, goal))
  {
    hide Pick, ApplyEffects, Without, HoldAll, Blocked;
  }

  ghost predicate HasMove(inv: (seq<Fragment>, seq<Id>, World) -> bool, r: seq<Fragment>, d: seq<Id>, u: World) {
    exists f, next :: Moves(r, d, u, f, next) && inv(Without(r, f), d + [f.id], next)
  }

  /** A condition on the scheduler's position that provides for a next move as long as something
      remains, survives it, and gives the goal at the end. */
  ghost predicate Carries(inv: (seq<Fragment>, seq<Id>, World) -> bool, goal: seq<Condition>) {
    && (forall r, d, u :: inv(r, d, u) && r != [] ==> HasMove(inv, r, d, u))
    && (forall d, u :: inv([], d, u) ==> HoldAll(goal, u.state))
  }

  lemma {:induction false} ScheduleFinishes(inv: (seq<Fragment>, seq<Id>, World) -> bool, goal: seq<Condition>,
                                            remaining: seq<Fragment>, done: seq<Id>, v: World)
    requires Carries(inv, goal) && inv(remaining, done, v)
    ensures Schedule(remaining, done, v, goal).Ok?
    decreases |remaining|
  {
    if remaining != [] {
      assert HasMove(inv, remaining, done, v);
      var f, next :| Moves(remaining, done, v, f, next) && inv(Without(remaining, f), done + [f.id], next);
      ScheduleMoves(remaining, done, v, goal, f, next);
      ScheduleFinishes(inv, goal, Without(remaining, f), done + [f.id], next);
    }
  }

  ghost predicate OnTrack(w: World, order: seq<Fragment>, goal: seq<Condition>, remaining: seq<Fragment>, done: seq<Id>, v: World) {
    exists executed :: done == Ids(executed) && Progress(w, order, goal, executed, remaining, v)
  }

  /** The exchange argument: however greedy the picks so far, the first fragment of the good
      order not yet executed is ready, so the schedule never blocks. */
  lemma OnTrackMoves(w: World, order: seq<Fragment>, goal: seq<Condition>, remaining: seq<Fragment>, done: seq<Id>, v: World)
    requires OnTrack(w, order, goal, remaining, done, v) && remaining != []
    ensures exists f, next :: Moves(remaining, done, v, f, next) &&
                              OnTrack(w, order, goal, Without(remaining, f), done + [f.id], next)
  {
    var executed :| done == Ids(executed) && Progress(w, order, goal, executed, remaining, v);
    SomethingIsReady(w, order, goal, executed, remaining, v);
    PickIsLeastReady(remaining, done, v);
    var f := Pick(remaining, done, v).value;
    var next := World(v.state + Sets(f.effects), v.clock);
    ProgressContinues(w, order, goal, executed, remaining, v, f);
    assert Moves(remaining, done, v, f, next);
  }

  lemma OnTrackCarries(w: World, order: seq<Fragment>, goal: seq<Condition>)
    ensures Carries((r, d, u) => OnTrack(w, order, goal, r, d, u), goal)
  {
    var inv := (r: seq<Fragment>, d: seq<Id>, u: World) => OnTrack(w, order, goal, r, d, u);
    forall r, d, u | inv(r, d, u) && r != [] ensures HasMove(inv, r, d, u) {
      OnTrackMoves(w, order, goal, r, d, u);
      var f, next :| Moves(r, d, u, f, next) && OnTrack(w, order, goal, Without(r, f), d + [f.id], next);
      assert inv(Without(r, f), d + [f.id], next);
    }
    forall d, u | OnTrack(w, order, goal, [], d, u) ensures HoldAll(goal, u.state) {
      var executed :| d == Ids(executed) && Progress(w, order, goal, executed, [], u);
      FinishedMeetsGoal(w, order, goal, executed, u);
    }
  }

  lemma GreedyIsComplete(w: World, order: seq<Fragment>, sel: seq<Fragment>, goal: seq<Condition>)
    requires SetsOnly(order) && ClockStill(order) && LiteralPre(order) && Harmless(order) && LiteralGoal(goal)
    requires Compatible(order) && Reaches(w, order, goal) && multiset(order) == multiset(sel)
    ensures TrySelection(sel, w, goal).Ok?
  {
    assert forall f :: f in order <==> f in multiset(order);
    assert forall f :: f in sel <==> f in multiset(sel);
    PermutationKeepsCompatible(order, sel);
    ConflictIsIncompatibility(sel);
    assert Ids([]) == [];
    assert OnTrack(w, order, goal, sel, [], w);
    OnTrackCarries(w, order, goal);
    ScheduleFinishes((r, d, u) => OnTrack(w, order, goal, r, d, u), goal, sel, [], w);
  }
}

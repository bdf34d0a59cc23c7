/** Why the compiler refuses: for every accepted input that does not compile, the one error it is
    refused with, told of the root state and the relevant fragments alone. */
module ChainErrors {
  import opened Wrappers
  import opened ChainModel
  import opened ChainSchedule
  import opened ChainCycle
  import opened ChainCompile
  import opened ChainSoundness

  // ---------- The first and the last selection ----------

  lemma {:induction false} TooLargeCombinations(fs: seq<Fragment>, k: nat)
    requires k > |fs|
    ensures Combinations(fs, k) == []
  {
    if fs != [] {
      TooLargeCombinations(fs[1..], k - 1);
      TooLargeCombinations(fs[1..], k);
    }
  }

  lemma {:induction false} TheWholeCombination(fs: seq<Fragment>)
    ensures Combinations(fs, |fs|) == [fs]
  {
    if fs != [] {
      TheWholeCombination(fs[1..]);
      TooLargeCombinations(fs[1..], |fs|);
      assert [fs[0]] + fs[1..] == fs;
      assert Prepend(fs[0], [fs[1..]]) == [fs];
    }
  }

  lemma {:induction false} LastSelectionIsAll(fs: seq<Fragment>, k: nat)
    requires k <= |fs|
    ensures var sels := Selections(fs, k); sels != [] && sels[|sels| - 1] == fs
    decreases |fs| - k
  {
    if k == |fs| {
      TheWholeCombination(fs);
    } else {
      LastSelectionIsAll(fs, k + 1);
    }
  }

  lemma FirstSelectionIsOne(fs: seq<Fragment>)
    requires fs != []
    ensures Selections(fs, 1) != [] && Selections(fs, 1)[0] == [fs[0]]
  {
    assert Combinations(fs[1..], 0) == [[]];
    assert Combinations(fs, 1)[0] == [fs[0]] + [];
  }

  // ---------- What a failed search remembers ----------

  lemma {:induction false} SchedulesDoNotClash(remaining: seq<Fragment>, done: seq<Id>, w: World, goal: seq<Condition>)
    requires Schedule(remaining, done, w, goal).Err?
    ensures !Schedule(remaining, done, w, goal).error.MutuallyExclusive?
    decreases |remaining|
  {
    if remaining != [] && Pick(remaining, done, w).Some? {
      var f := Pick(remaining, done, w).value;
      match ApplyEffects(w.state, f.effects)
      case None =>
      case Some(t) => SchedulesDoNotClash(Without(remaining, f), done + [f.id], World(t, w.clock + f.advance), goal);
    }
  }

  ghost predicate Clashes(sel: seq<Fragment>, w: World, goal: seq<Condition>) {
    TrySelection(sel, w, goal).Err? && TrySelection(sel, w, goal).error.MutuallyExclusive?
  }

  lemma ClashIsIncompatible(sel: seq<Fragment>, w: World, goal: seq<Condition>)
    ensures Clashes(sel, w, goal) <==> !Compatible(sel)
  {
    ConflictIsIncompatibility(sel);
    if Conflict(sel, map[]).None? && Schedule(sel, [], w, goal).Err? { SchedulesDoNotClash(sel, [], w, goal); }
  }

  /** The first error is that of the first selection; the last conflict that of the last, if it clashes. */
  lemma {:induction false} FailureRemembers(sels: seq<seq<Fragment>>, w: World, goal: seq<Condition>,
                                           first: Option<Error>, conflict: Option<Error>)
    requires Search(sels, w, goal, first, conflict).Failure?
    ensures forall i :: 0 <= i < |sels| ==> TrySelection(sels[i], w, goal).Err?
    ensures var f := Search(sels, w, goal, first, conflict).first;
            f == if first.Some? || sels == [] then first else Some(TrySelection(sels[0], w, goal).error)
    ensures var c := Search(sels, w, goal, first, conflict).conflict;
            && (sels != [] && Clashes(sels[|sels| - 1], w, goal) ==> c == Some(TrySelection(sels[|sels| - 1], w, goal).error))
            && ((forall i :: 0 <= i < |sels| ==> !Clashes(sels[i], w, goal)) ==> c == conflict)
    decreases |sels|
  {
    if sels != [] {
      var e := TrySelection(sels[0], w, goal).error;
      FailureRemembers(sels[1..], w, goal, if first.None? then Some(e) else first,
                       if e.MutuallyExclusive? then Some(e) else conflict);
      forall i | 0 <= i < |sels| ensures TrySelection(sels[i], w, goal).Err? {
        if i > 0 { assert sels[i] == sels[1..][i - 1]; }
      }
    }
  }

  lemma SelectionsOfCompatible(relevant: seq<Fragment>, i: nat)
    requires DistinctIds(relevant) && Compatible(relevant) && i < |Selections(relevant, 1)|
    ensures Compatible(Selections(relevant, 1)[i])
  {
    var sel := Selections(relevant, 1)[i];
    SelectionsBySize(relevant, 1, i);
    var n: nat :| 1 <= n <= |relevant| && sel in Combinations(relevant, n);
    CombinationsAreSelections(relevant, n, sel);
    CompatibleMeansPairwise(relevant);
    CompatibleMeansPairwise(sel);
  }

  // ---------- Why a schedule stops ----------

  /** Why `c` is not ready. */
  ghost predicate Obstacle(e: Error, c: Fragment, done: seq<Id>, w: World) {
    match e
    case MissingPrecondition(id) => id == c.id && exists p :: p in c.pre && !Holds(p, w.state)
    case OrderingBlocked(id) =>
      id == c.id && (forall p :: p in c.pre ==> Holds(p, w.state)) && exists a :: a in c.after && a !in done
    case WindowMissed(id) =>
      && id == c.id && (forall p :: p in c.pre ==> Holds(p, w.state)) && (forall a :: a in c.after ==> a in done)
      && (w.clock < c.opens || w.clock > c.closes)
    case _ => false
  }

  /** A schedule that stopped in the world `w`, with the fragments `left` still to be executed. */
  ghost predicate Stopped(e: Error, left: seq<Fragment>, done: seq<Id>, w: World, goal: seq<Condition>) {
    match e
    case GoalUnreachable => left == [] && !HoldAll(goal, w.state)
    case InvalidNumeric => exists f :: f in left && Ready(f, done, w) && ApplyEffects(w.state, f.effects).None?
    case _ =>
      && (forall f :: f in left ==> !Ready(f, done, w))
      && exists c :: c in left && (forall f :: f in left ==> !StrLess(f.id, c.id)) && Obstacle(e, c, done, w)
  }

  lemma {:induction false} MinIsLeast(fs: seq<Fragment>)
    requires fs != []
    ensures MinById(fs) in fs && forall f :: f in fs ==> !StrLess(f.id, MinById(fs).id)
  {
    var init, last := fs[..|fs| - 1], fs[|fs| - 1];
    StrLessTotal(last.id, last.id);
    if |fs| > 1 {
      MinIsLeast(init);
      var m := MinById(init);
      StrLessTotal(last.id, m.id);
      forall f | f in fs ensures !StrLess(f.id, MinById(fs).id) {
        assert f in init || f == last;
        if StrLess(last.id, m.id) && StrLess(f.id, last.id) { StrLessTransitive(f.id, last.id, m.id); }
      }
    }
  }

  lemma BlockedIsAnObstacle(left: seq<Fragment>, done: seq<Id>, w: World, goal: seq<Condition>)
    requires left != [] && Pick(left, done, w).None?
    ensures Stopped(Blocked(left, done, w), left, done, w, goal)
  {
    PickIsLeastReady(left, done, w);
    MinIsLeast(left);
    assert Obstacle(Blocked(left, done, w), MinById(left), done, w);
  }

  /** A schedule that fails has executed part of the selection in order, each fragment ready at its
      turn, and stopped there: on an unmet goal with nothing left, on a ready fragment with a numeric
      error, or with nothing ready, on the obstacle of the least fragment left. */
  lemma {:induction false} FailedSchedulesStop(remaining: seq<Fragment>, done: seq<Id>, w: World, goal: seq<Condition>)
    returns (order: seq<Fragment>, left: seq<Fragment>)
    requires Schedule(remaining, done, w, goal).Err?
    ensures multiset(order) + multiset(left) == multiset(remaining) && Replay(w, done, order).Some?
    ensures Stopped(Schedule(remaining, done, w, goal).error, left, done + Ids(order), Replay(w, done, order).value, goal)
    decreases |remaining|
  {
    hide Pick, Without, Blocked, Ready, ApplyEffects, Stopped;
    order, left := [], remaining;
    assert done + Ids([]) == done;
    if remaining == [] {
      UnmetGoalStops(done, w, goal);
    } else if Pick(remaining, done, w).None? {
      BlockedIsAnObstacle(remaining, done, w, goal);
    } else {
      PickIsLeastReady(remaining, done, w);
      var f := Pick(remaining, done, w).value;
      match ApplyEffects(w.state, f.effects)
      case None => NumericErrorStops(f, remaining, done, w, goal);
      case Some(t) =>
        var tail;
        tail, left := FailedSchedulesStop(Without(remaining, f), done + [f.id], World(t, w.clock + f.advance), goal);
        order := [f] + tail;
        StoppedLater(remaining, done, w, f, tail, left, World(t, w.clock + f.advance));
    }
  }

  lemma StoppedLater(remaining: seq<Fragment>, done: seq<Id>, w: World, f: Fragment, tail: seq<Fragment>, left: seq<Fragment>, next: World)
    requires f in remaining && Ready(f, done, w) && ApplyEffects(w.state, f.effects) == Some(next.state) && next.clock == w.clock + f.advance
    requires multiset(tail) + multiset(left) == multiset(Without(remaining, f))
    ensures multiset([f] + tail) + multiset(left) == multiset(remaining)
    ensures Replay(w, done, [f] + tail) == Replay(next, done + [f.id], tail)
    ensures done + Ids([f] + tail) == (done + [f.id]) + Ids(tail)
  {
    hide Ready, ApplyEffects, Without;
    ReplayStarts(w, done, f, tail, next);
    WithoutRemovesOne(remaining, f);
    PutBack(multiset(remaining), f, multiset(tail), multiset(left));
    assert multiset([f] + tail) == multiset{f} + multiset(tail);
  }

  lemma PutBack(m: multiset<Fragment>, f: Fragment, tail: multiset<Fragment>, left: multiset<Fragment>)
    requires f in m && tail + left == m - multiset{f}
    ensures (multiset{f} + tail) + left == m
  {
    forall g ensures ((multiset{f} + tail) + left)[g] == m[g] {
      assert (tail + left)[g] == (m - multiset{f})[g];
    }
  }

  lemma UnmetGoalStops(done: seq<Id>, w: World, goal: seq<Condition>)
    requires Schedule([], done, w, goal).Err?
    ensures Stopped(Schedule([], done, w, goal).error, [], done, w, goal)
  {
  }

  lemma NumericErrorStops(f: Fragment, left: seq<Fragment>, done: seq<Id>, w: World, goal: seq<Condition>)
    requires f in left && Ready(f, done, w) && ApplyEffects(w.state, f.effects).None?
    ensures Stopped(InvalidNumeric, left, done, w, goal)
  {
  }

  // ---------- The reasons ----------

  /** The first fragment whose SETs disagree with those of the fragments before it. */
  ghost predicate FirstClash(fs: seq<Fragment>, k: int) {
    0 <= k < |fs| && Compatible(fs[..k]) && !Compatible(fs[..k + 1])
  }

  lemma {:induction false} ConflictIsAt(fs: seq<Fragment>, values: map<Path, Value>) returns (k: nat)
    requires Conflict(fs, values).Some?
    ensures k < |fs| && Conflict(fs, values) == Some(fs[k].id)
    ensures Conflict(fs[..k], values).None? && Conflict(fs[..k + 1], values).Some?
    decreases |fs|
  {
    match ConflictIn(fs[0].effects, values)
    case None => k := 0;
    case Some(v) =>
      var j := ConflictIsAt(fs[1..], v);
      k := j + 1;
      assert fs[..k][1..] == fs[1..][..j] && fs[..k + 1][1..] == fs[1..][..j + 1];
  }

  lemma ConflictIsTheFirstClash(fs: seq<Fragment>) returns (k: nat)
    requires !Compatible(fs)
    ensures FirstClash(fs, k) && Conflict(fs, map[]) == Some(fs[k].id)
  {
    ConflictIsIncompatibility(fs);
    k := ConflictIsAt(fs, map[]);
    ConflictIsIncompatibility(fs[..k]);
    ConflictIsIncompatibility(fs[..k + 1]);
  }

  /** Why one fragment alone does not lead from the root to the goal. */
  function AloneFails(f: Fragment, w: World): Error {
    if exists c :: c in f.pre && !Holds(c, w.state) then MissingPrecondition(f.id)
    else if f.after != [] then OrderingBlocked(f.id)
    else if w.clock < f.opens || w.clock > f.closes then WindowMissed(f.id)
    else if ApplyEffects(w.state, f.effects).None? then InvalidNumeric
    else GoalUnreachable
  }

  lemma OneAlone(f: Fragment, w: World, goal: seq<Condition>)
    requires Schedule([f], [], w, goal).Err?
    ensures Schedule([f], [], w, goal).error == AloneFails(f, w)
  {
    assert [f][..0] == [] && Without([f], f) == [];
    assert Pick([f], [], w) == if Ready(f, [], w) then Some(f) else None;
    assert Subset(f.after, []) <==> f.after == [] by { if f.after != [] { assert f.after[0] in f.after; } }
  }

  lemma FirstSelectionAlone(f: Fragment, w: World, goal: seq<Condition>)
    requires TrySelection([f], w, goal).Err? && Compatible([f])
    ensures TrySelection([f], w, goal).error == AloneFails(f, w)
  {
    ConflictIsIncompatibility([f]);
    OneAlone(f, w, goal);
  }

  lemma CompatiblePrefix(fs: seq<Fragment>)
    requires fs != [] && Compatible(fs)
    ensures Compatible([fs[0]])
  {
    CompatibleMeansPairwise(fs);
    CompatibleMeansPairwise([fs[0]]);
  }

  /** Every refusal of an accepted input, explained. When nothing is relevant the goal is out of reach.
      Otherwise no selection schedules, and the error is a dependency cycle where fragments wait for
      one another in a circle; else the first clash among all the relevant fragments, if any clash;
      else the reason why the first relevant fragment alone does not do. */
  lemma RefusalsAreExplained(root: Root, fragments: seq<Fragment>, goal: seq<Condition>)
    requires Accepted(root, fragments) && Compile(root, fragments, goal).Err?
    ensures var e, relevant, w := Compile(root, fragments, goal).error, Relevant(fragments, goal), Start(root);
            && (relevant == [] ==> e == GoalUnreachable)
            && (relevant != [] && CircularWait(relevant, w.state) ==> e == DependencyCycle)
            && (relevant != [] && !CircularWait(relevant, w.state) && !Compatible(relevant) ==>
                  exists k :: FirstClash(relevant, k) && e == MutuallyExclusive(relevant[k].id))
            && (relevant != [] && !CircularWait(relevant, w.state) && Compatible(relevant) ==> e == AloneFails(relevant[0], w))
  {
    hide Search, Selections, TrySelection, SortById, Compatible, CircularWait, Compile, AloneFails, FirstClash, Clashes;
    CompileUnfolds(root, fragments, goal);
    var relevant, w := Relevant(fragments, goal), Start(root);
    if relevant != [] {
      var sels := Selections(relevant, 1);
      FailureRemembers(sels, w, goal, None, None);
      LastSelectionIsAll(relevant, 1);
      FirstSelectionIsOne(relevant);
      ClashIsIncompatible(relevant, w, goal);
      if Compatible(relevant) {
        forall i | 0 <= i < |sels| ensures !Clashes(sels[i], w, goal) {
          SelectionsOfCompatible(relevant, i);
          ClashIsIncompatible(sels[i], w, goal);
        }
        CompatiblePrefix(relevant);
        FirstSelectionAlone(relevant[0], w, goal);
      } else {
        var k := ConflictIsTheFirstClash(relevant);
        WholeClash(relevant, w, goal, k);
      }
    }
  }

  lemma WholeClash(relevant: seq<Fragment>, w: World, goal: seq<Condition>, k: nat)
    requires k < |relevant| && Conflict(relevant, map[]) == Some(relevant[k].id)
    ensures TrySelection(relevant, w, goal) == Err(MutuallyExclusive(relevant[k].id))
  {
  }
}

/** What a compiled chain is: an executable, compatible, relevant chain of least selected size,
    the same for every order of the input. */
module ChainSoundness {
  import opened Wrappers
  import opened ChainModel
  import opened ChainSchedule
  import opened ChainCycle
  import opened ChainCompile

  // ---------- Compatibility is pairwise ----------

  predicate SetsAgree(a: Effect, b: Effect) {
    a.operation == SET && b.operation == SET && a.path == b.path ==> PyEq(a.value, b.value)
  }

  ghost predicate Agreeing(es: seq<Effect>) {
    forall i, j :: 0 <= i < |es| && 0 <= j < |es| ==> SetsAgree(es[i], es[j])
  }

  ghost predicate AgreesWith(es: seq<Effect>, values: map<Path, Value>) {
    forall i :: 0 <= i < |es| && es[i].operation == SET && es[i].path in values ==> PyEq(values[es[i].path], es[i].value)
  }

  function AllEffects(fs: seq<Fragment>): seq<Effect> {
    if fs == [] then [] else fs[0].effects + AllEffects(fs[1..])
  }

  /** No two SETs of the selection give one path values that Python tells apart. */
  ghost predicate Compatible(fs: seq<Fragment>) { Agreeing(AllEffects(fs)) }

  lemma {:induction false} ConflictInIsPairwise(es: seq<Effect>, values: map<Path, Value>)
    ensures ConflictIn(es, values).Some? <==> Agreeing(es) && AgreesWith(es, values)
    decreases |es|
  {
    if es != [] {
      var e, rest := es[0], es[1..];
      assert forall i :: 0 < i < |es| ==> es[i] == rest[i - 1];
      var next := if e.operation == SET && e.path !in values then values[e.path := e.value] else values;
      ConflictInIsPairwise(rest, next);
      if Agreeing(es) && AgreesWith(es, values) {
        assert forall i :: 0 <= i < |rest| ==> rest[i] == es[i + 1] && SetsAgree(es[0], es[i + 1]);
      }
    }
  }

  lemma {:induction false} ConflictInConcat(a: seq<Effect>, b: seq<Effect>, values: map<Path, Value>)
    ensures ConflictIn(a + b, values) ==
            (match ConflictIn(a, values) case None => None case Some(v) => ConflictIn(b, v))
    decreases |a|
  {
    if a == [] {
      assert a + b == b;
    } else {
      assert (a + b)[1..] == a[1..] + b;
      var next := if a[0].operation == SET && a[0].path !in values then values[a[0].path := a[0].value] else values;
      ConflictInConcat(a[1..], b, next);
    }
  }

  lemma {:induction false} ConflictFlattens(fs: seq<Fragment>, values: map<Path, Value>)
    ensures Conflict(fs, values).None? <==> ConflictIn(AllEffects(fs), values).Some?
    decreases |fs|
  {
    if fs != [] {
      ConflictInConcat(fs[0].effects, AllEffects(fs[1..]), values);
      match ConflictIn(fs[0].effects, values)
      case None =>
      case Some(v) => ConflictFlattens(fs[1..], v);
    }
  }

  lemma ConflictIsIncompatibility(fs: seq<Fragment>)
    ensures Conflict(fs, map[]).None? <==> Compatible(fs)
  {
    ConflictFlattens(fs, map[]);
    ConflictInIsPairwise(AllEffects(fs), map[]);
  }

  lemma {:induction false} EffectsAreTheFragments(fs: seq<Fragment>, e: Effect)
    ensures e in AllEffects(fs) <==> exists f :: f in fs && e in f.effects
  {
    if fs != [] {
      EffectsAreTheFragments(fs[1..], e);
      assert forall f :: f in fs <==> f == fs[0] || f in fs[1..];
    }
  }

  lemma CompatibleMeansPairwise(fs: seq<Fragment>)
    ensures Compatible(fs) <==>
              forall f, g, d, e :: f in fs && g in fs && d in f.effects && e in g.effects ==> SetsAgree(d, e)
  {
    var es := AllEffects(fs);
    forall e { EffectsAreTheFragments(fs, e); }
    assert Agreeing(es) <==> forall d, e :: d in es && e in es ==> SetsAgree(d, e);
  }

  // ---------- Selections ----------

  /** The fragments of `fs` that occur in `chosen`, in the order of `fs`. */
  function Keep(fs: seq<Fragment>, chosen: seq<Fragment>): (r: seq<Fragment>)
    ensures forall f :: f in r <==> f in fs && f in chosen
  {
    if fs == [] then []
    else (if fs[0] in chosen then [fs[0]] else []) + Keep(fs[1..], chosen)
  }

  lemma {:induction false} KeepIsACombination(fs: seq<Fragment>, chosen: seq<Fragment>)
    ensures Keep(fs, chosen) in Combinations(fs, |Keep(fs, chosen)|)
  {
    if fs != [] {
      var rest := Keep(fs[1..], chosen);
      KeepIsACombination(fs[1..], chosen);
      if fs[0] in chosen {
        assert Keep(fs, chosen) == [fs[0]] + rest;
      } else {
        assert Keep(fs, chosen) == rest;
      }
    }
  }

  lemma {:induction false} CombinationsAreSelections(fs: seq<Fragment>, k: nat, sel: seq<Fragment>)
    requires sel in Combinations(fs, k) && DistinctIds(fs)
    ensures |sel| == k && DistinctIds(sel) && forall f :: f in sel ==> f in fs
    decreases |fs|
  {
    if k > 0 && fs != [] {
      var ss := Combinations(fs[1..], k - 1);
      if sel in Prepend(fs[0], ss) {
        var rest := PrependedTail(fs[0], ss, sel);
        CombinationsAreSelections(fs[1..], k - 1, rest);
        PrependKeepsSelection(fs, rest);
      } else {
        CombinationsAreSelections(fs[1..], k, sel);
      }
    }
  }

  lemma PrependedTail(f: Fragment, ss: seq<seq<Fragment>>, sel: seq<Fragment>) returns (rest: seq<Fragment>)
    requires sel in Prepend(f, ss)
    ensures rest in ss && sel == [f] + rest
  {
    var i :| 0 <= i < |ss| && sel == [f] + ss[i];
    rest := ss[i];
  }

  lemma PrependKeepsSelection(fs: seq<Fragment>, rest: seq<Fragment>)
    requires fs != [] && DistinctIds(fs) && DistinctIds(rest) && forall f :: f in rest ==> f in fs[1..]
    ensures DistinctIds([fs[0]] + rest) && forall f :: f in [fs[0]] + rest ==> f in fs
  {
    forall j | 0 <= j < |rest| ensures rest[j].id != fs[0].id {
      assert rest[j] in fs[1..];
    }
  }

  lemma {:induction false} SelectionsBySize(fs: seq<Fragment>, k: nat, i: nat)
    requires i < |Selections(fs, k)|
    ensures exists n: nat :: k <= n <= |fs| && Selections(fs, k)[i] in Combinations(fs, n)
    decreases |fs| + 1 - k
  {
    var here := Combinations(fs, k);
    if i < |here| {
      assert Selections(fs, k)[i] == here[i];
    } else {
      SelectionsBySize(fs, k + 1, i - |here|);
    }
  }

  lemma SelectionSize(fs: seq<Fragment>, k: nat, i: nat)
    requires DistinctIds(fs) && i < |Selections(fs, k)|
    ensures |Selections(fs, k)[i]| >= k
  {
    SelectionsBySize(fs, k, i);
    var n: nat :| k <= n <= |fs| && Selections(fs, k)[i] in Combinations(fs, n);
    CombinationsAreSelections(fs, n, Selections(fs, k)[i]);
  }

  /** Smaller selections come first. */
  lemma {:induction false} SelectionsGrow(fs: seq<Fragment>, k: nat, i: nat, j: nat)
    requires DistinctIds(fs) && i <= j < |Selections(fs, k)|
    ensures |Selections(fs, k)[i]| <= |Selections(fs, k)[j]|
    decreases |fs| + 1 - k
  {
    var n := |Combinations(fs, k)|;
    if i < n {
      CombinationsAreSelections(fs, k, Selections(fs, k)[i]);
      SelectionSize(fs, k, j);
    } else {
      SelectionsGrow(fs, k + 1, i - n, j - n);
    }
  }

  lemma {:induction false} SelectionsAreComplete(fs: seq<Fragment>, k: nat, n: nat, sel: seq<Fragment>)
    requires k <= n <= |fs| && sel in Combinations(fs, n)
    ensures sel in Selections(fs, k)
    decreases |fs| + 1 - k
  {
    if k < n { SelectionsAreComplete(fs, k + 1, n, sel); }
  }

  // ---------- The search ----------

  lemma {:induction false} SearchFindsTheFirst(sels: seq<seq<Fragment>>, w: World, goal: seq<Condition>,
                                               first: Option<Error>, conflict: Option<Error>)
    returns (k: nat)
    ensures match Search(sels, w, goal, first, conflict)
            case Failure(_, _) => k == |sels|
            case Success(s) => k < |sels| && TrySelection(sels[k], w, goal) == Ok(s)
    ensures forall j :: 0 <= j < k && j < |sels| ==> TrySelection(sels[j], w, goal).Err?
    decreases |sels|
  {
    if sels == [] {
      k := 0;
    } else {
      match TrySelection(sels[0], w, goal)
      case Ok(s) => k := 0;
      case Err(e) =>
        var n := SearchFindsTheFirst(sels[1..], w, goal, if first.None? then Some(e) else first,
                                     if e.MutuallyExclusive? then Some(e) else conflict);
        k := n + 1;
        forall j | 0 <= j < k && j < |sels| ensures TrySelection(sels[j], w, goal).Err? {
          if j > 0 { assert sels[j] == sels[1..][j - 1]; }
        }
    }
  }

  // ---------- The inputs the search runs on ----------

  /** The input passes every check before the search. */
  ghost predicate Accepted(root: Root, fragments: seq<Fragment>) {
    && fragments != [] && DistinctIds(SortById(fragments)) && Validate(root, SortById(fragments)).None?
    && InitialState(root.conditions).Some?
  }

  ghost function Start(root: Root): World
    requires InitialState(root.conditions).Some?
  {
    World(InitialState(root.conditions).value, root.clock)
  }

  function Relevant(fragments: seq<Fragment>, goal: seq<Condition>): seq<Fragment> {
    RelevantOf(SortById(fragments), goal, SortById(fragments))
  }

  lemma SortIsAPermutation(fs: seq<Fragment>)
    ensures SortById(fs) == [] <==> fs == []
    ensures forall f :: f in SortById(fs) <==> f in fs
  {
    assert forall f :: f in SortById(fs) <==> f in multiset(SortById(fs));
    assert |SortById(fs)| == |multiset(SortById(fs))| == |multiset(fs)| == |fs|;
  }

  function Order(steps: seq<Step>): seq<Fragment> {
    seq(|steps|, i requires 0 <= i < |steps| => steps[i].fragment)
  }

  /** A chain the compiler may return: distinct relevant fragments of the input whose SETs agree,
      executable from the root, ending in the goal. */
  ghost predicate GoodChain(root: Root, fragments: seq<Fragment>, goal: seq<Condition>, order: seq<Fragment>)
    requires InitialState(root.conditions).Some?
  {
    && order != [] && DistinctIds(order) && Compatible(order)
    && (forall f :: f in order ==> f in fragments && CanContribute(f, goal, SortById(fragments)))
    && Reaches(Start(root), order, goal)
  }

  lemma SameIdSameFragment(a: seq<Fragment>, b: seq<Fragment>, i: nat, j: nat)
    requires multiset(a) == multiset(b) && DistinctIds(a) && i < |b| && j < |b| && b[i].id == b[j].id
    ensures b[i] == b[j]
  {
    assert b[i] in multiset(b) && b[j] in multiset(b);
    assert b[i] in a && b[j] in a;
  }

  lemma PermutationKeepsDistinct(a: seq<Fragment>, b: seq<Fragment>)
    requires multiset(a) == multiset(b) && DistinctIds(a)
    ensures DistinctIds(b)
  {
    forall i, j | 0 <= i < j < |b| ensures b[i].id != b[j].id {
      if b[i].id == b[j].id {
        SameIdSameFragment(a, b, i, j);
        CountTwice(b, i, j);
        CountOnce(a, b[i]);
      }
    }
  }

  lemma CountTwice(b: seq<Fragment>, i: nat, j: nat)
    requires i < j < |b| && b[i] == b[j]
    ensures multiset(b)[b[i]] >= 2
  {
    assert b == b[..j] + [b[j]] + b[j + 1..];
    assert b[i] in b[..j];
  }

  lemma {:induction false} CountOnce(a: seq<Fragment>, f: Fragment)
    requires DistinctIds(a)
    ensures multiset(a)[f] <= 1
  {
    if a != [] {
      CountOnce(a[1..], f);
      assert a == [a[0]] + a[1..];
      assert forall k :: 0 <= k < |a[1..]| ==> a[1..][k] == a[k + 1] && a[k + 1].id != a[0].id;
    }
  }

  lemma PermutationKeepsCompatible(a: seq<Fragment>, b: seq<Fragment>)
    requires multiset(a) == multiset(b) && Compatible(a)
    ensures Compatible(b)
  {
    CompatibleMeansPairwise(a);
    CompatibleMeansPairwise(b);
    assert forall f :: f in b <==> f in multiset(b);
    assert forall f :: f in a <==> f in multiset(a);
  }

  lemma TrySelectionIsSound(sel: seq<Fragment>, w: World, goal: seq<Condition>)
    requires DistinctIds(sel) && TrySelection(sel, w, goal).Ok?
    ensures var order := TrySelection(sel, w, goal).value.order;
            multiset(order) == multiset(sel) && DistinctIds(order) && Compatible(order) && Reaches(w, order, goal)
  {
    var order := TrySelection(sel, w, goal).value.order;
    ScheduleReplays(sel, [], w, goal);
    ConflictIsIncompatibility(sel);
    PermutationKeepsDistinct(sel, order);
    PermutationKeepsCompatible(sel, order);
  }

  /** What a successful search over the relevant fragments found. */
  ghost predicate FoundAt(relevant: seq<Fragment>, w: World, goal: seq<Condition>, k: nat, order: seq<Fragment>) {
    var sels := Selections(relevant, 1);
    && k < |sels| && multiset(order) == multiset(sels[k]) && |order| == |sels[k]| > 0
    && DistinctIds(order) && Compatible(order) && Reaches(w, order, goal)
    && (forall f :: f in order ==> f in relevant)
    && forall j :: 0 <= j < k ==> TrySelection(sels[j], w, goal).Err?
  }

  lemma SearchIsSound(relevant: seq<Fragment>, w: World, goal: seq<Condition>) returns (k: nat)
    requires DistinctIds(relevant) && Search(Selections(relevant, 1), w, goal, None, None).Success?
    ensures FoundAt(relevant, w, goal, k, Search(Selections(relevant, 1), w, goal, None, None).simulation.order)
  {
    var sels := Selections(relevant, 1);
    k := SearchFindsTheFirst(sels, w, goal, None, None);
    var sel := sels[k];
    SelectionsBySize(relevant, 1, k);
    var n: nat :| 1 <= n <= |relevant| && sel in Combinations(relevant, n);
    CombinationsAreSelections(relevant, n, sel);
    TrySelectionIsSound(sel, w, goal);
    var order := TrySelection(sel, w, goal).value.order;
    assert |order| == |multiset(order)| == |multiset(sel)| == |sel|;
    assert forall f :: f in order <==> f in multiset(order);
    assert forall f :: f in sel <==> f in multiset(sel);
  }

  lemma CompileUnfolds(root: Root, fragments: seq<Fragment>, goal: seq<Condition>)
    requires Accepted(root, fragments)
    ensures var found := Search(Selections(Relevant(fragments, goal), 1), Start(root), goal, None, None);
            Compile(root, fragments, goal) ==
              if Relevant(fragments, goal) == [] then Err(GoalUnreachable)
              else Finish(found, Relevant(fragments, goal), Start(root).state)
    ensures DistinctIds(Relevant(fragments, goal))
  {
    SortIsAPermutation(fragments);
    RelevantKeepsDistinct(SortById(fragments), goal, SortById(fragments));
  }

  lemma RejectedInputsDoNotCompile(root: Root, fragments: seq<Fragment>, goal: seq<Condition>)
    requires !Accepted(root, fragments)
    ensures Compile(root, fragments, goal).Err?
  {
    SortIsAPermutation(fragments);
  }

  /** Soundness and minimality. A returned chain is a good chain with envelopes numbered from 0,
      and no selection of fewer relevant fragments is schedulable. */
  lemma CompiledChainsAreGood(root: Root, fragments: seq<Fragment>, goal: seq<Condition>)
    requires Compile(root, fragments, goal).Ok?
    ensures Accepted(root, fragments)
    ensures var steps := Compile(root, fragments, goal).value;
            && GoodChain(root, fragments, goal, Order(steps))
            && (forall i :: 0 <= i < |steps| ==> steps[i].sequence == i)
            && forall chosen :: 0 < |Keep(Relevant(fragments, goal), chosen)| < |steps| ==>
                 TrySelection(Keep(Relevant(fragments, goal), chosen), Start(root), goal).Err?
  {
    hide Search, Selections, TrySelection, Keep, SortById, Compatible, CircularWait, Compile;
    if !Accepted(root, fragments) { RejectedInputsDoNotCompile(root, fragments, goal); }
    CompileUnfolds(root, fragments, goal);
    SortIsAPermutation(fragments);
    var relevant, w := Relevant(fragments, goal), Start(root);
    var k := SearchIsSound(relevant, w, goal);
    var order := Search(Selections(relevant, 1), w, goal, None, None).simulation.order;
    assert Order(Resequenced(order)) == order;
    forall chosen | 0 < |Keep(relevant, chosen)| < |order|
      ensures TrySelection(Keep(relevant, chosen), w, goal).Err?
    {
      SmallerSelectionsComeFirst(relevant, chosen, k);
    }
  }

  lemma KeepIsNoLonger(fs: seq<Fragment>, chosen: seq<Fragment>)
    ensures |Keep(fs, chosen)| <= |fs|
  {
    if fs != [] { KeepIsNoLonger(fs[1..], chosen); }
  }

  lemma SmallerSelectionsComeFirst(relevant: seq<Fragment>, chosen: seq<Fragment>, k: nat)
    requires DistinctIds(relevant) && k < |Selections(relevant, 1)|
    requires 0 < |Keep(relevant, chosen)| < |Selections(relevant, 1)[k]|
    ensures exists j :: 0 <= j < k && Selections(relevant, 1)[j] == Keep(relevant, chosen)
  {
    var sel := Keep(relevant, chosen);
    KeepIsACombination(relevant, chosen);
    KeepIsNoLonger(relevant, chosen);
    SelectionsAreComplete(relevant, 1, |sel|, sel);
    var j :| 0 <= j < |Selections(relevant, 1)| && Selections(relevant, 1)[j] == sel;
    if k <= j { SelectionsGrow(relevant, 1, k, j); }
  }

  // ---------- The input order does not matter ----------

  predicate Sorted(fs: seq<Fragment>) {
    forall i, j :: 0 <= i < j < |fs| ==> !StrLess(fs[j].id, fs[i].id)
  }

  lemma {:induction false} InsertKeepsSorted(f: Fragment, fs: seq<Fragment>)
    requires Sorted(fs)
    ensures Sorted(Insert(f, fs))
  {
    if fs != [] {
      if StrLess(fs[0].id, f.id) {
        InsertKeepsSorted(f, fs[1..]);
        var r := Insert(f, fs[1..]);
        StrLessTotal(fs[0].id, f.id);
        forall j | 0 <= j < |r| ensures !StrLess(r[j].id, fs[0].id) {
          assert r[j] in multiset(r);
          assert r[j] == f || r[j] in fs[1..];
        }
      } else {
        forall j | 0 <= j < |fs| ensures !StrLess(fs[j].id, f.id) {
          StrLessTotal(fs[0].id, f.id);
          StrLessTotal(fs[j].id, fs[0].id);
          if StrLess(fs[j].id, f.id) && StrLess(f.id, fs[0].id) { StrLessTransitive(fs[j].id, f.id, fs[0].id); }
        }
      }
    }
  }

  lemma {:induction false} SortSorts(fs: seq<Fragment>)
    ensures Sorted(SortById(fs))
  {
    if fs != [] {
      SortSorts(fs[1..]);
      InsertKeepsSorted(fs[0], SortById(fs[1..]));
    }
  }

  lemma LeastIsFirst(a: seq<Fragment>, b: seq<Fragment>)
    requires multiset(a) == multiset(b) && Sorted(a) && Sorted(b) && DistinctIds(a) && a != [] && b != []
    ensures a[0] == b[0]
  {
    assert a[0] in multiset(b) && b[0] in multiset(a);
    StrLessTotal(a[0].id, b[0].id);
  }

  lemma TailsArePermutations(a: seq<Fragment>, b: seq<Fragment>)
    requires multiset(a) == multiset(b) && a != [] && b != [] && a[0] == b[0]
    ensures multiset(a[1..]) == multiset(b[1..])
    ensures a == [a[0]] + a[1..] && b == [b[0]] + b[1..]
  {
    assert a == [a[0]] + a[1..] && b == [b[0]] + b[1..];
    assert multiset(a[1..]) == multiset(a) - multiset{a[0]} == multiset(b) - multiset{b[0]} == multiset(b[1..]);
  }

  lemma {:induction false} SortedIsUnique(a: seq<Fragment>, b: seq<Fragment>)
    requires multiset(a) == multiset(b) && Sorted(a) && Sorted(b) && DistinctIds(a)
    ensures a == b
  {
    assert |a| == |multiset(a)| == |multiset(b)| == |b|;
    if a != [] {
      LeastIsFirst(a, b);
      TailsArePermutations(a, b);
      SortedIsUnique(a[1..], b[1..]);
    }
  }

  /** Permuting the input changes nothing: neither the chain nor the error. */
  lemma InputOrderDoesNotMatter(root: Root, a: seq<Fragment>, b: seq<Fragment>, goal: seq<Condition>)
    requires multiset(a) == multiset(b)
    ensures Compile(root, a, goal) == Compile(root, b, goal)
  {
    SortSorts(a);
    SortSorts(b);
    SortIsAPermutation(a);
    SortIsAPermutation(b);
    assert |a| == |multiset(a)| == |multiset(b)| == |b|;
    if DistinctIds(SortById(a)) {
      SortedIsUnique(SortById(a), SortById(b));
    } else if DistinctIds(SortById(b)) {
      SortedIsUnique(SortById(b), SortById(a));
    }
  }
}

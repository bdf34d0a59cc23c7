/** The greedy scheduler: always the ready fragment with the least id. */
module ChainSchedule {
  import opened Wrappers
  import opened ChainModel

  datatype Simulation = Simulation(order: seq<Fragment>, world: World)

  /** The ready fragment with the least id, if any is ready. */
  function Pick(remaining: seq<Fragment>, done: seq<Id>, w: World): (r: Option<Fragment>)
    ensures r.Some? ==> r.value in remaining
  {
    if remaining == [] then None
    else
      var last := remaining[|remaining| - 1];
      var best := Pick(remaining[..|remaining| - 1], done, w);
      if Ready(last, done, w) && (best.None? || StrLess(last.id, best.value.id)) then Some(last) else best
  }

  function MinById(fs: seq<Fragment>): Fragment
    requires fs != []
  {
    var last := fs[|fs| - 1];
    if |fs| == 1 then last
    else
      var m := MinById(fs[..|fs| - 1]);
      if StrLess(last.id, m.id) then last else m
  }

  function Without(fs: seq<Fragment>, f: Fragment): (r: seq<Fragment>)
    requires f in fs
    ensures |r| == |fs| - 1
  {
    if fs[0] == f then fs[1..] else [fs[0]] + Without(fs[1..], f)
  }

  /** Why nothing is ready, told of the remaining fragment with the least id. */
  function Blocked(remaining: seq<Fragment>, done: seq<Id>, w: World): Error
    requires remaining != []
  {
    var c := MinById(remaining);
    if !HoldAll(c.pre, w.state) then MissingPrecondition(c.id)
    else if !Subset(c.after, done) then OrderingBlocked(c.id)
    else WindowMissed(c.id)
  }

  function Schedule(remaining: seq<Fragment>, done: seq<Id>, w: World, goal: seq<Condition>): Result<Simulation>
    decreases |remaining|
  {
    if remaining == [] then
      if HoldAll(goal, w.state) then Ok(Simulation([], w)) else Err(GoalUnreachable)
    else
      match Pick(remaining, done, w)
      case None => Err(Blocked(remaining, done, w))
      case Some(f) =>
        match ApplyEffects(w.state, f.effects)
        case None => Err(InvalidNumeric)
        case Some(t) =>
          Prefixed([f], Schedule(Without(remaining, f), done + [f.id], World(t, w.clock + f.advance), goal))
  }

  function Prefixed(prefix: seq<Fragment>, r: Result<Simulation>): Result<Simulation> {
    match r
    case Err(e) => Err(e)
    case Ok(s) => Ok(Simulation(prefix + s.order, s.world))
  }

  lemma PrefixedByNothing(r: Result<Simulation>)
    ensures Prefixed([], r) == r
  {
    if r.Ok? { assert [] + r.value.order == r.value.order; }
  }

  lemma PrefixedTwice(a: seq<Fragment>, b: seq<Fragment>, r: Result<Simulation>)
    ensures Prefixed(a, Prefixed(b, r)) == Prefixed(a + b, r)
  {
    if r.Ok? { assert a + (b + r.value.order) == (a + b) + r.value.order; }
  }

  method RunEffects(state: State, effects: seq<Effect>) returns (r: Option<State>)
    ensures r == ApplyEffects(state, effects)
  {
    var current := state;
    for i := 0 to |effects|
      invariant ApplyEffects(state, effects) == ApplyEffects(current, effects[i..])
    {
      assert effects[i..][0] == effects[i] && effects[i..][1..] == effects[i + 1..];
      var next := ApplyEffect(current, effects[i]);
      if next.None? {
        return None;
      }
      current := next.value;
    }
    r := Some(current);
  }

  lemma {:induction false} PickIsLeastReady(remaining: seq<Fragment>, done: seq<Id>, w: World)
    ensures match Pick(remaining, done, w)
            case None => forall g :: g in remaining ==> !Ready(g, done, w)
            case Some(f) =>
              && f in remaining && Ready(f, done, w)
              && forall g :: g in remaining && Ready(g, done, w) ==> !StrLess(g.id, f.id)
  {
    if remaining != [] {
      var init, last := remaining[..|remaining| - 1], remaining[|remaining| - 1];
      PickIsLeastReady(init, done, w);
      assert forall g :: g in remaining <==> g in init || g == last;
      var best := Pick(init, done, w);
      StrLessTotal(last.id, last.id);
      if best.Some? && StrLess(last.id, best.value.id) {
        forall g | g in init && Ready(g, done, w) ensures !StrLess(g.id, last.id) {
          if StrLess(g.id, last.id) { StrLessTransitive(g.id, last.id, best.value.id); }
        }
      }
    }
  }

  lemma {:induction false} WithoutRemovesOne(fs: seq<Fragment>, f: Fragment)
    requires f in fs
    ensures multiset(Without(fs, f)) == multiset(fs) - multiset{f}
  {
    assert fs == [fs[0]] + fs[1..];
    if fs[0] != f { WithoutRemovesOne(fs[1..], f); }
  }

  method RunSchedule(selected: seq<Fragment>, initial: State, clock: nat, goal: seq<Condition>)
    returns (r: Result<Simulation>)
    ensures r == Schedule(selected, [], World(initial, clock), goal)
  {
    hide Pick, Without, Blocked, Ready, HoldAll, ApplyEffects;
    var remaining := selected;
    var ordered: seq<Fragment> := [];
    var done: seq<Id> := [];
    var state: State, now: nat := initial, clock;
    PrefixedByNothing(Schedule(selected, [], World(initial, clock), goal));
    while remaining != []
      invariant Schedule(selected, [], World(initial, clock), goal) ==
                Prefixed(ordered, Schedule(remaining, done, World(state, now), goal))
      decreases |remaining|
    {
      var picked := Pick(remaining, done, World(state, now));
      if picked.None? {
        return Err(Blocked(remaining, done, World(state, now)));
      }
      var f := picked.value;
      var next := RunEffects(state, f.effects);
      if next.None? {
        return Err(InvalidNumeric);
      }
      PrefixedTwice(ordered, [f], Schedule(Without(remaining, f), done + [f.id], World(next.value, now + f.advance), goal));
      state, now := next.value, now + f.advance;
      ordered, done := ordered + [f], done + [f.id];
      remaining := Without(remaining, f);
    }
    if !HoldAll(goal, state) {
      return Err(GoalUnreachable);
    }
    assert ordered + [] == ordered;
    r := Ok(Simulation(ordered, World(state, now)));
  }

  lemma ReplayStarts(w: World, done: seq<Id>, f: Fragment, tail: seq<Fragment>, next: World)
    requires Ready(f, done, w) && ApplyEffects(w.state, f.effects) == Some(next.state) && next.clock == w.clock + f.advance
    ensures Replay(w, done, [f] + tail) == Replay(next, done + [f.id], tail)
  {
    assert ([f] + tail)[1..] == tail;
  }

  /** Soundness: a schedule is a permutation of the selection that replays step by step, every
      fragment with its preconditions, its predecessors and its window met at its turn, and
      ends in a state that meets the goal. */
  lemma {:induction false} ScheduleReplays(remaining: seq<Fragment>, done: seq<Id>, w: World, goal: seq<Condition>)
    requires Schedule(remaining, done, w, goal).Ok?
    ensures var s := Schedule(remaining, done, w, goal).value;
            && multiset(s.order) == multiset(remaining)
            && Replay(w, done, s.order) == Some(s.world)
            && HoldAll(goal, s.world.state)
    decreases |remaining|
  {
    hide Pick, Without, Blocked, Ready, HoldAll, ApplyEffects;
    if remaining != [] {
      PickIsLeastReady(remaining, done, w);
      var f := Pick(remaining, done, w).value;
      var next := World(ApplyEffects(w.state, f.effects).value, w.clock + f.advance);
      ScheduleReplays(Without(remaining, f), done + [f.id], next, goal);
      var tail := Schedule(Without(remaining, f), done + [f.id], next, goal).value.order;
      ReplayStarts(w, done, f, tail, next);
      WithoutRemovesOne(remaining, f);
    }
  }

  /** Replaying is compositional. */
  lemma {:induction false} ReplaySplits(w: World, done: seq<Id>, a: seq<Fragment>, b: seq<Fragment>)
    ensures Replay(w, done, a + b) ==
            (match Replay(w, done, a)
             case None => None
             case Some(v) => Replay(v, done + Ids(a), b))
    decreases |a|
  {
    if a == [] {
      assert a + b == b && done + Ids(a) == done;
    } else {
      assert (a + b)[1..] == a[1..] + b;
      assert done + Ids(a) == (done + [a[0].id]) + Ids(a[1..]);
      if Ready(a[0], done, w) && ApplyEffects(w.state, a[0].effects).Some? {
        ReplaySplits(World(ApplyEffects(w.state, a[0].effects).value, w.clock + a[0].advance), done + [a[0].id], a[1..], b);
      }
    }
  }
}

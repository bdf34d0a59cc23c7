/** Optimistic clients of one checkpoint store. Each client loads the active generation, works
    on the restored state, stages the result and swaps against the generation it loaded; the
    clients' moves interleave in any order, staging and swapping being separate moves.

    The argument needs only that a state can be exported, that an export restores to it, and that
    a generation names one export, so it is made here for any such machine. */
module OptimisticClients {
  import opened Wrappers
  import opened LabModel
  import opened LabCheckpoint
  import opened CheckpointStore

  /** A machine with checkpoints, and the size rule of the store it is kept in. */
  datatype Machine<!S, !A> = Machine(
    step: (S, A) -> S,
    save: S -> Option<Checkpoint>,
    restore: Checkpoint -> Option<S>,
    fits: Checkpoint -> bool)

  datatype Client<S, A> =
    | Idle
    | Holding(base: Hash, state: S, work: seq<A>)
    | Staging(base: Hash, checkpoint: Checkpoint, work: seq<A>)

  /** `commits` records the work of every successful swap, in order. */
  datatype System<S, A> = System(store: Store, clients: map<nat, Client<S, A>>, commits: seq<seq<A>>)
  {
    function ClientOf(i: nat): Client<S, A> { if i in clients then clients[i] else Idle }
  }

  datatype Move<A> = Begin(i: nat) | Work(i: nat, request: A) | StageWork(i: nat) | SwapWork(i: nat)

  /** The single-threaded run. */
  function Steps<S, A>(m: Machine<S, A>, s: S, acts: seq<A>): S {
    if acts == [] then s else m.step(Steps(m, s, acts[..|acts| - 1]), acts[|acts| - 1])
  }

  function Genesis<S, A>(first: Checkpoint): System<S, A> {
    System(Store(map[first.generation := Stored(first, first.digest)], Some(first.generation), false), map[], [])
  }

  function DoBegin<S, A>(m: Machine<S, A>, sys: System<S, A>, i: nat): System<S, A> {
    var loading := LoadActive(m.fits, sys.store);
    var started :=
      if loading.result.Failed? then Idle
      else
        match m.restore(loading.result.checkpoint)
        case None => Idle
        case Some(s) => Holding(loading.result.checkpoint.generation, s, []);
    sys.(store := loading.next, clients := sys.clients[i := started])
  }

  function DoWork<S, A>(m: Machine<S, A>, sys: System<S, A>, i: nat, a: A): System<S, A> {
    match sys.ClientOf(i)
    case Holding(base, s, work) => sys.(clients := sys.clients[i := Holding(base, m.step(s, a), work + [a])])
    case _ => sys
  }

  function DoStage<S, A>(m: Machine<S, A>, sys: System<S, A>, i: nat): System<S, A> {
    match sys.ClientOf(i)
    case Holding(base, s, work) =>
      (match m.save(s)
       case None => sys.(clients := sys.clients[i := Idle])
       case Some(c) =>
         var staging := Stage(m.fits, sys.store, c);
         sys.(store := staging.next,
              clients := sys.clients[i := if staging.result.Failed? then Idle else Staging(base, c, work)]))
    case _ => sys
  }

  function DoSwap<S, A>(m: Machine<S, A>, sys: System<S, A>, i: nat): System<S, A> {
    match sys.ClientOf(i)
    case Staging(base, c, work) =>
      var swap := CompareAndSwap(m.fits, sys.store, Some(base), c.generation);
      System(swap.next, sys.clients[i := Idle], if swap.result.Ok? then sys.commits + [work] else sys.commits)
    case _ => sys
  }

  function Next<S, A>(m: Machine<S, A>, sys: System<S, A>, v: Move<A>): System<S, A> {
    match v
    case Begin(i) => DoBegin(m, sys, i)
    case Work(i, a) => DoWork(m, sys, i, a)
    case StageWork(i) => DoStage(m, sys, i)
    case SwapWork(i) => DoSwap(m, sys, i)
  }

  function Play<S, A>(m: Machine<S, A>, first: Checkpoint, moves: seq<Move<A>>): System<S, A> {
    if moves == [] then Genesis(first)
    else Next(m, Play(m, first, moves[..|moves| - 1]), moves[|moves| - 1])
  }

  function Flatten<A>(commits: seq<seq<A>>): seq<A> {
    if commits == [] then [] else Flatten(commits[..|commits| - 1]) + commits[|commits| - 1]
  }

  // ---------- What is assumed of the machine ----------

  ghost predicate Sound<S(!new), A(!new)>(m: Machine<S, A>, good: S -> bool) {
    && (forall s, a :: good(s) ==> good(m.step(s, a)))
    && (forall s :: good(s) && m.save(s).Some? ==> Sealed(m.save(s).value) && m.restore(m.save(s).value) == Some(s))
    && (forall s, t :: good(s) && good(t) && m.save(s).Some? && m.save(t).Some? &&
                       m.save(s).value.generation == m.save(t).value.generation ==>
                         m.save(s).value == m.save(t).value)
  }

  // ---------- Invariant ----------

  /** Generation `g` is staged as the export of the good state `s`. */
  ghost predicate Staged<S, A>(m: Machine<S, A>, good: S -> bool, st: Store, g: Hash, s: S) {
    && g in st.staged && good(s) && m.save(s).Some?
    && var c := m.save(s).value;
       m.fits(c) && c.generation == g && st.staged[g] == Stored(c, c.digest)
  }

  ghost predicate StoreInv<S(!new), A>(m: Machine<S, A>, good: S -> bool, st: Store) {
    && !st.poisoned && st.active.Some? && st.active.value in st.staged
    && forall g :: g in st.staged ==> exists s :: Staged(m, good, st, g, s)
  }

  ghost predicate ClientInv<S(!new), A>(m: Machine<S, A>, good: S -> bool, st: Store, c: Client<S, A>) {
    match c
    case Idle => true
    case Holding(base, t, work) => exists s :: Staged(m, good, st, base, s) && t == Steps(m, s, work)
    case Staging(base, k, work) =>
      exists s :: && Staged(m, good, st, base, s)
                  && Staged(m, good, st, k.generation, Steps(m, s, work))
                  && m.save(Steps(m, s, work)) == Some(k)
  }

  ghost predicate SystemInv<S(!new), A>(m: Machine<S, A>, good: S -> bool, root: S, sys: System<S, A>) {
    && StoreInv(m, good, sys.store)
    && (forall i :: i in sys.clients ==> ClientInv(m, good, sys.store, sys.clients[i]))
    && Staged(m, good, sys.store, sys.store.active.value, Steps(m, root, Flatten(sys.commits)))
  }

  lemma {:induction false} StepsConcat<S, A>(m: Machine<S, A>, s: S, a: seq<A>, b: seq<A>)
    ensures Steps(m, s, a + b) == Steps(m, Steps(m, s, a), b)
    decreases |b|
  {
    if b == [] {
      assert a + b == a;
    } else {
      StepsConcat(m, s, a, b[..|b| - 1]);
      assert (a + b)[..|a + b| - 1] == a + b[..|b| - 1];
    }
  }

  lemma {:induction false} StepsStayGood<S(!new), A(!new)>(m: Machine<S, A>, good: S -> bool, s: S, acts: seq<A>)
    requires Sound(m, good) && good(s)
    ensures good(Steps(m, s, acts))
  {
    if acts != [] { StepsStayGood(m, good, s, acts[..|acts| - 1]); }
  }

  /** A generation determines the state behind it. */
  lemma OneStatePerGeneration<S(!new), A(!new)>(m: Machine<S, A>, good: S -> bool, st: Store, g: Hash, s: S, t: S)
    requires Sound(m, good) && Staged(m, good, st, g, s) && Staged(m, good, st, g, t)
    ensures s == t
  {
  }

  lemma LoadActiveSucceeds<S(!new), A(!new)>(m: Machine<S, A>, good: S -> bool, st: Store, s: S)
    requires Sound(m, good) && StoreInv(m, good, st) && Staged(m, good, st, st.active.value, s)
    ensures LoadActive(m.fits, st) == StoreStep(st, Ok(m.save(s).value))
  {
  }

  function WithEntry(st: Store, c: Checkpoint): Store {
    st.(staged := st.staged[c.generation := Stored(c, c.digest)])
  }

  /** Staging the export of a good state never collides. */
  lemma StagingSucceeds<S(!new), A(!new)>(m: Machine<S, A>, good: S -> bool, st: Store, s: S)
    requires Sound(m, good) && StoreInv(m, good, st) && good(s) && m.save(s).Some?
    ensures var c := m.save(s).value;
            Stage(m.fits, st, c) == if m.fits(c) then StoreStep(WithEntry(st, c), Ok(c)) else StoreStep(st, Failed(TooLarge))
    ensures var c := m.save(s).value; c.generation in st.staged ==> st.staged[c.generation] == Stored(c, c.digest)
  {
    var c := m.save(s).value;
    if c.generation in st.staged {
      var t :| Staged(m, good, st, c.generation, t);
    }
  }

  /** Adding the entry of a good state keeps what is staged and what the clients hold. */
  lemma EntriesSurvive<S(!new), A(!new)>(m: Machine<S, A>, good: S -> bool, st: Store, s: S, g: Hash, t: S)
    requires good(s) && m.save(s).Some? && Staged(m, good, st, g, t)
    requires var c := m.save(s).value; c.generation in st.staged ==> st.staged[c.generation] == Stored(c, c.digest)
    ensures Staged(m, good, WithEntry(st, m.save(s).value), g, t)
  {
  }

  lemma ClientSurvives<S(!new), A(!new)>(m: Machine<S, A>, good: S -> bool, st: Store, s: S, k: Client<S, A>)
    requires good(s) && m.save(s).Some? && ClientInv(m, good, st, k)
    requires var c := m.save(s).value; c.generation in st.staged ==> st.staged[c.generation] == Stored(c, c.digest)
    ensures ClientInv(m, good, WithEntry(st, m.save(s).value), k)
  {
    match k
    case Idle =>
    case Holding(base, held, work) =>
      var t :| Staged(m, good, st, base, t) && held == Steps(m, t, work);
      EntriesSurvive(m, good, st, s, base, t);
    case Staging(base, c, work) =>
      var t :| Staged(m, good, st, base, t) && Staged(m, good, st, c.generation, Steps(m, t, work)) &&
               m.save(Steps(m, t, work)) == Some(c);
      EntriesSurvive(m, good, st, s, base, t);
      EntriesSurvive(m, good, st, s, c.generation, Steps(m, t, work));
  }

  lemma StoreSurvives<S(!new), A(!new)>(m: Machine<S, A>, good: S -> bool, st: Store, s: S)
    requires StoreInv(m, good, st) && good(s) && m.save(s).Some? && m.fits(m.save(s).value)
    requires var c := m.save(s).value; c.generation in st.staged ==> st.staged[c.generation] == Stored(c, c.digest)
    ensures StoreInv(m, good, WithEntry(st, m.save(s).value))
  {
    var c := m.save(s).value;
    var after := WithEntry(st, c);
    forall g | g in after.staged ensures exists t :: Staged(m, good, after, g, t) {
      if g == c.generation {
        assert Staged(m, good, after, g, s);
      } else {
        var t :| Staged(m, good, st, g, t);
        EntriesSurvive(m, good, st, s, g, t);
      }
    }
  }

  // ---------- Every move keeps it ----------

  lemma BeginKeepsInv<S(!new), A(!new)>(m: Machine<S, A>, good: S -> bool, root: S, sys: System<S, A>, i: nat)
    requires Sound(m, good) && SystemInv(m, good, root, sys)
    ensures SystemInv(m, good, root, DoBegin(m, sys, i))
    ensures DoBegin(m, sys, i).store == sys.store
  {
    var s := Steps(m, root, Flatten(sys.commits));
    LoadActiveSucceeds(m, good, sys.store, s);
    assert s == Steps(m, s, []);
  }

  lemma WorkKeepsInv<S(!new), A(!new)>(m: Machine<S, A>, good: S -> bool, root: S, sys: System<S, A>, i: nat, a: A)
    requires Sound(m, good) && SystemInv(m, good, root, sys)
    ensures SystemInv(m, good, root, DoWork(m, sys, i, a))
  {
    var k := sys.ClientOf(i);
    if k.Holding? {
      var s :| Staged(m, good, sys.store, k.base, s) && k.state == Steps(m, s, k.work);
      assert (k.work + [a])[..|k.work|] == k.work;
      assert m.step(k.state, a) == Steps(m, s, k.work + [a]);
    }
  }

  lemma StageKeepsInv<S(!new), A(!new)>(m: Machine<S, A>, good: S -> bool, root: S, sys: System<S, A>, i: nat)
    requires Sound(m, good) && SystemInv(m, good, root, sys)
    ensures SystemInv(m, good, root, DoStage(m, sys, i))
    ensures DoStage(m, sys, i).store.active == sys.store.active
  {
    hide LoadActive, CompareAndSwap, Steps, StoreInv, Sealed;
    var k := sys.ClientOf(i);
    if k.Holding? && m.save(k.state).Some? {
      var s :| Staged(m, good, sys.store, k.base, s) && k.state == Steps(m, s, k.work);
      StepsStayGood(m, good, s, k.work);
      StagingSucceeds(m, good, sys.store, k.state);
      var c := m.save(k.state).value;
      if m.fits(c) {
        var after := WithEntry(sys.store, c);
        StoreSurvives(m, good, sys.store, k.state);
        forall j | j in sys.clients ensures ClientInv(m, good, after, sys.clients[j]) {
          ClientSurvives(m, good, sys.store, k.state, sys.clients[j]);
        }
        EntriesSurvive(m, good, sys.store, k.state, k.base, s);
        EntriesSurvive(m, good, sys.store, k.state, sys.store.active.value, Steps(m, root, Flatten(sys.commits)));
        assert ClientInv(m, good, after, Client<S, A>.Staging(k.base, c, k.work));
      }
    }
  }

  lemma MovingThePointerKeepsClients<S(!new), A(!new)>(m: Machine<S, A>, good: S -> bool, st: Store, g: Hash, k: Client<S, A>)
    requires ClientInv(m, good, st, k)
    ensures ClientInv(m, good, st.(active := Some(g)), k)
  {
    match k
    case Idle =>
    case Holding(base, held, work) =>
      var t :| Staged(m, good, st, base, t) && held == Steps(m, t, work);
      assert Staged(m, good, st.(active := Some(g)), base, t);
    case Staging(base, c, work) =>
      var t :| Staged(m, good, st, base, t) && Staged(m, good, st, c.generation, Steps(m, t, work)) &&
               m.save(Steps(m, t, work)) == Some(c);
      assert Staged(m, good, st.(active := Some(g)), base, t);
      assert Staged(m, good, st.(active := Some(g)), c.generation, Steps(m, t, work));
  }

  lemma MovingThePointerKeepsEntries<S(!new), A(!new)>(m: Machine<S, A>, good: S -> bool, st: Store, g: Hash)
    requires StoreInv(m, good, st) && g in st.staged
    ensures StoreInv(m, good, st.(active := Some(g)))
  {
    forall h | h in st.staged ensures exists t :: Staged(m, good, st.(active := Some(g)), h, t) {
      var t :| Staged(m, good, st, h, t);
      assert Staged(m, good, st.(active := Some(g)), h, t);
    }
  }

  /** A swap succeeds exactly when the client's base is still active; it then appends the work. */
  lemma SwapKeepsInv<S(!new), A(!new)>(m: Machine<S, A>, good: S -> bool, root: S, sys: System<S, A>, i: nat)
    requires Sound(m, good) && SystemInv(m, good, root, sys)
    ensures SystemInv(m, good, root, DoSwap(m, sys, i))
    ensures var k := sys.ClientOf(i);
            if k.Staging? && sys.store.active == Some(k.base)
            then DoSwap(m, sys, i).commits == sys.commits + [k.work] &&
                 DoSwap(m, sys, i).store == sys.store.(active := Some(k.checkpoint.generation))
            else DoSwap(m, sys, i).commits == sys.commits && DoSwap(m, sys, i).store == sys.store
  {
    var k := sys.ClientOf(i);
    if k.Staging? && sys.store.active == Some(k.base) {
      var before := Steps(m, root, Flatten(sys.commits));
      var s :| Staged(m, good, sys.store, k.base, s) &&
               Staged(m, good, sys.store, k.checkpoint.generation, Steps(m, s, k.work)) &&
               m.save(Steps(m, s, k.work)) == Some(k.checkpoint);
      OneStatePerGeneration(m, good, sys.store, k.base, s, before);
      var after := Steps(m, s, k.work);
      var g := k.checkpoint.generation;
      MovingThePointerKeepsEntries(m, good, sys.store, g);
      LoadActiveSucceeds(m, good, sys.store.(active := Some(g)), after);
      forall j | j in sys.clients ensures ClientInv(m, good, sys.store.(active := Some(g)), sys.clients[j]) {
        MovingThePointerKeepsClients(m, good, sys.store, g, sys.clients[j]);
      }
      StepsConcat(m, root, Flatten(sys.commits), k.work);
      assert (sys.commits + [k.work])[..|sys.commits|] == sys.commits;
    }
  }

  /** The starting point: the root's own export, staged and active. */
  ghost predicate Starts<S, A>(m: Machine<S, A>, good: S -> bool, root: S, first: Checkpoint) {
    good(root) && m.save(root) == Some(first) && m.fits(first)
  }

  lemma GenesisSatisfiesInv<S(!new), A(!new)>(m: Machine<S, A>, good: S -> bool, root: S, first: Checkpoint)
    requires Sound(m, good) && Starts(m, good, root, first)
    ensures SystemInv(m, good, root, Genesis<S, A>(first))
  {
    assert Steps(m, root, Flatten([])) == root;
    assert Staged(m, good, Genesis<S, A>(first).store, first.generation, root);
  }

  lemma NextKeepsInv<S(!new), A(!new)>(m: Machine<S, A>, good: S -> bool, root: S, sys: System<S, A>, v: Move<A>)
    requires Sound(m, good) && SystemInv(m, good, root, sys)
    ensures SystemInv(m, good, root, Next(m, sys, v))
  {
    match v
    case Begin(i) => BeginKeepsInv(m, good, root, sys, i);
    case Work(i, a) => WorkKeepsInv(m, good, root, sys, i, a);
    case StageWork(i) => StageKeepsInv(m, good, root, sys, i);
    case SwapWork(i) => SwapKeepsInv(m, good, root, sys, i);
  }

  /** The pointer and the commit list move only in a swap whose client still holds the active
      generation, and then by exactly that client's work. */
  ghost predicate OnlyTheWinnerMoves<S, A>(m: Machine<S, A>, sys: System<S, A>, v: Move<A>) {
    var after := Next(m, sys, v);
    var k := sys.ClientOf(v.i);
    if v.SwapWork? && k.Staging? && sys.store.active == Some(k.base)
    then after.commits == sys.commits + [k.work] && after.store.active == Some(k.checkpoint.generation)
    else after.commits == sys.commits && after.store.active == sys.store.active
  }

  lemma MovesRespectWinners<S(!new), A(!new)>(m: Machine<S, A>, good: S -> bool, root: S, sys: System<S, A>, v: Move<A>)
    requires Sound(m, good) && SystemInv(m, good, root, sys)
    ensures OnlyTheWinnerMoves(m, sys, v)
  {
    match v
    case Begin(i) => BeginKeepsInv(m, good, root, sys, i);
    case Work(i, a) =>
    case StageWork(i) => StageKeepsInv(m, good, root, sys, i);
    case SwapWork(i) => SwapKeepsInv(m, good, root, sys, i);
  }

  lemma {:induction false} PlayKeepsInv<S(!new), A(!new)>(m: Machine<S, A>, good: S -> bool, root: S, first: Checkpoint,
                                                         moves: seq<Move<A>>)
    requires Sound(m, good) && Starts(m, good, root, first)
    ensures SystemInv(m, good, root, Play(m, first, moves))
  {
    if moves == [] {
      GenesisSatisfiesInv(m, good, root, first);
    } else {
      PlayKeepsInv(m, good, root, first, moves[..|moves| - 1]);
      NextKeepsInv(m, good, root, Play(m, first, moves[..|moves| - 1]), moves[|moves| - 1]);
    }
  }
}

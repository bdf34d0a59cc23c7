/** Whole histories of calls to one store: it behaves as a compare-and-swap register that starts
    empty, whoever calls it and whatever they expect. */
module StoreRegister {
  import opened Wrappers
  import opened LabCheckpoint
  import opened CheckpointStore

  datatype Call = StageCall(checkpoint: Checkpoint) | LoadCall | SwapCall(expected: Option<Hash>, next: Hash)

  function Serve(fits: Checkpoint -> bool, st: Store, call: Call): StoreStep {
    match call
    case StageCall(c) => Stage(fits, st, c)
    case LoadCall => LoadActive(fits, st)
    case SwapCall(expected, next) => CompareAndSwap(fits, st, expected, next)
  }

  /** A fresh store after a list of calls. */
  function After(fits: Checkpoint -> bool, calls: seq<Call>): Store {
    if calls == [] then Store(map[], None, false)
    else Serve(fits, After(fits, calls[..|calls| - 1]), calls[|calls| - 1]).next
  }

  /** How the store answered call `k`. */
  function AnswerTo(fits: Checkpoint -> bool, calls: seq<Call>, k: nat): StoreResult
    requires k < |calls|
  {
    Serve(fits, After(fits, calls[..k]), calls[k]).result
  }

  // ---------- The register ----------

  /** What the register holds, told by the swaps alone. */
  function Register(calls: seq<Call>): Option<Hash> {
    if calls == [] then None
    else
      var before, last := Register(calls[..|calls| - 1]), calls[|calls| - 1];
      if last.SwapCall? && last.expected == before then Some(last.next) else before
  }

  ghost predicate StagedBy(fits: Checkpoint -> bool, calls: seq<Call>, c: Checkpoint) {
    StageCall(c) in calls && fits(c) && Sealed(c)
  }

  /** Callers name generations consistently and swap only to what was staged before. */
  ghost predicate Careful(fits: Checkpoint -> bool, calls: seq<Call>) {
    && (forall c, c' :: StagedBy(fits, calls, c) && StagedBy(fits, calls, c') && c.generation == c'.generation ==> c == c')
    && forall k :: 0 <= k < |calls| && calls[k].SwapCall? ==>
         exists c :: StagedBy(fits, calls[..k], c) && c.generation == calls[k].next
  }

  /** The store holds exactly what was staged, and its pointer is the register. */
  ghost predicate InStep(fits: Checkpoint -> bool, calls: seq<Call>, st: Store) {
    && !st.poisoned && st.active == Register(calls)
    && (forall c :: StagedBy(fits, calls, c) ==> c.generation in st.staged)
    && (forall g :: g in st.staged ==>
          var c := st.staged[g].bytes; StagedBy(fits, calls, c) && c.generation == g && st.staged[g] == Stored(c, c.digest))
    && (st.active.Some? ==> st.active.value in st.staged)
  }

  lemma CarefulPrefix(fits: Checkpoint -> bool, calls: seq<Call>, n: nat)
    requires Careful(fits, calls) && n <= |calls|
    ensures Careful(fits, calls[..n])
  {
    forall k | 0 <= k < n && calls[k].SwapCall?
      ensures exists c :: StagedBy(fits, calls[..n][..k], c) && c.generation == calls[k].next
    {
      assert calls[..n][..k] == calls[..k];
    }
  }

  /** What a register answers a call made after `past`. */
  ghost predicate AnswersLike(fits: Checkpoint -> bool, past: seq<Call>, call: Call, r: StoreResult) {
    match call
    case StageCall(c) => r == if fits(c) && Sealed(c) then Ok(c) else Failed(TooLarge)
    case LoadCall =>
      if Register(past).None? then r == Failed(ActiveAbsent)
      else r.Ok? && StagedBy(fits, past, r.checkpoint) && r.checkpoint.generation == Register(past).value
    case SwapCall(expected, next) =>
      if expected == Register(past) then r.Ok? && StagedBy(fits, past, r.checkpoint) && r.checkpoint.generation == next
      else r == Failed(Conflict)
  }

  lemma StagingKeepsStep(fits: Checkpoint -> bool, past: seq<Call>, c: Checkpoint, st: Store)
    requires Careful(fits, past + [StageCall(c)]) && InStep(fits, past, st)
    ensures InStep(fits, past + [StageCall(c)], Stage(fits, st, c).next)
    ensures AnswersLike(fits, past, StageCall(c), Stage(fits, st, c).result)
  {
    var calls := past + [StageCall(c)];
    assert calls[..|calls| - 1] == past;
    assert forall x :: StagedBy(fits, past, x) ==> StagedBy(fits, calls, x);
    assert fits(c) && Sealed(c) ==> StagedBy(fits, calls, c);
  }

  lemma MoreSwapsAndLoads(fits: Checkpoint -> bool, past: seq<Call>, call: Call)
    requires !call.StageCall?
    ensures forall c :: StagedBy(fits, past + [call], c) <==> StagedBy(fits, past, c)
    ensures (past + [call])[..|past|] == past
  {
  }

  lemma LoadingKeepsStep(fits: Checkpoint -> bool, past: seq<Call>, st: Store)
    requires InStep(fits, past, st)
    ensures InStep(fits, past + [LoadCall], LoadActive(fits, st).next)
    ensures AnswersLike(fits, past, LoadCall, LoadActive(fits, st).result)
  {
    MoreSwapsAndLoads(fits, past, LoadCall);
    hide StagedBy;
    assert st.active.Some? ==> StagedBy(fits, past, st.staged[st.active.value].bytes);
    StagedParses(fits, past);
  }

  lemma StagedParses(fits: Checkpoint -> bool, past: seq<Call>)
    ensures forall c :: StagedBy(fits, past, c) ==> FromBytes(fits, c) == Some(c)
  {
  }

  lemma StagedLoads(fits: Checkpoint -> bool, past: seq<Call>, st: Store, g: Hash)
    requires InStep(fits, past, st) && g in st.staged
    ensures var moved := st.(active := Some(g)); LoadActive(fits, moved) == StoreStep(moved, Ok(st.staged[g].bytes))
  {
    StagedParses(fits, past);
  }

  /** The decision alone, for an open store whose target was staged and parses. */
  lemma SwapDecides(fits: Checkpoint -> bool, st: Store, expected: Option<Hash>, next: Hash)
    requires !st.poisoned && next in st.staged
    requires var moved := st.(active := Some(next)); LoadActive(fits, moved) == StoreStep(moved, Ok(st.staged[next].bytes))
    ensures CompareAndSwap(fits, st, expected, next) ==
            if st.active == expected then StoreStep(st.(active := Some(next)), Ok(st.staged[next].bytes))
            else StoreStep(st, Failed(Conflict))
  {
    hide LoadActive;
  }

  lemma PointerMoves(fits: Checkpoint -> bool, past: seq<Call>, expected: Option<Hash>, next: Hash, st: Store)
    requires InStep(fits, past, st) && next in st.staged
    ensures InStep(fits, past + [SwapCall(expected, next)], if st.active == expected then st.(active := Some(next)) else st)
  {
    MoreSwapsAndLoads(fits, past, SwapCall(expected, next));
    hide StagedBy;
  }

  lemma SwappingKeepsStep(fits: Checkpoint -> bool, past: seq<Call>, expected: Option<Hash>, next: Hash, st: Store)
    requires Careful(fits, past + [SwapCall(expected, next)]) && InStep(fits, past, st)
    ensures InStep(fits, past + [SwapCall(expected, next)], CompareAndSwap(fits, st, expected, next).next)
    ensures AnswersLike(fits, past, SwapCall(expected, next), CompareAndSwap(fits, st, expected, next).result)
  {
    hide LoadActive, CompareAndSwap, StagedBy;
    var calls := past + [SwapCall(expected, next)];
    assert calls[..|past|] == past && calls[|past|].SwapCall?;
    assert exists c :: StagedBy(fits, past, c) && c.generation == next;
    StagedLoads(fits, past, st, next);
    SwapDecides(fits, st, expected, next);
    hide Careful;
    PointerMoves(fits, past, expected, next, st);
  }

  /** The store keeps in step with a register over every careful history. */
  lemma {:induction false} StoreIsInStep(fits: Checkpoint -> bool, calls: seq<Call>)
    requires Careful(fits, calls)
    ensures InStep(fits, calls, After(fits, calls))
    ensures calls != [] ==> AnswersLike(fits, calls[..|calls| - 1], calls[|calls| - 1], AnswerTo(fits, calls, |calls| - 1))
  {
    if calls != [] {
      var past, last := calls[..|calls| - 1], calls[|calls| - 1];
      CarefulPrefix(fits, calls, |calls| - 1);
      StoreIsInStep(fits, past);
      assert calls == past + [last];
      hide Careful, InStep, AnswersLike;
      match last
      case StageCall(c) => StagingKeepsStep(fits, past, c, After(fits, past));
      case LoadCall => LoadingKeepsStep(fits, past, After(fits, past));
      case SwapCall(expected, next) => SwappingKeepsStep(fits, past, expected, next, After(fits, past));
    }
  }

  /** For every careful history and every call in it: a swap wins exactly when it expects what the
      register holds, and loses with a conflict otherwise; a load returns the checkpoint staged
      under the register's generation. Nothing ever closes the store. */
  lemma StoreIsARegister(fits: Checkpoint -> bool, calls: seq<Call>, k: nat)
    requires Careful(fits, calls) && k < |calls|
    ensures After(fits, calls).active == Register(calls) && !After(fits, calls).poisoned
    ensures AnswersLike(fits, calls[..k], calls[k], AnswerTo(fits, calls, k))
  {
    hide Careful, AnswersLike, Serve, Register;
    StoreIsInStep(fits, calls);
    CarefulPrefix(fits, calls, k + 1);
    StoreIsInStep(fits, calls[..k + 1]);
    assert calls[..k + 1][..k] == calls[..k];
  }

  // ---------- Histories of careless callers ----------

  /** Once set, the pointer is never unset, whatever is called. */
  lemma {:induction false} PointerStaysSet(fits: Checkpoint -> bool, calls: seq<Call>, k: nat)
    requires k <= |calls| && After(fits, calls[..k]).active.Some?
    ensures After(fits, calls).active.Some?
    decreases |calls|
  {
    assert calls[..|calls|] == calls;
    if k < |calls| {
      assert calls[..|calls| - 1][..k] == calls[..k];
      PointerStaysSet(fits, calls[..|calls| - 1], k);
    }
  }

  /** Of all the callers that expect an empty store, at most one ever wins. */
  lemma OneInitialiser(fits: Checkpoint -> bool, calls: seq<Call>, i: nat, j: nat)
    requires i < j < |calls|
    requires calls[i].SwapCall? && calls[i].expected == None && AnswerTo(fits, calls, i).Ok?
    requires calls[j].SwapCall? && calls[j].expected == None
    ensures AnswerTo(fits, calls, j).Failed?
  {
    assert calls[..i + 1][..i] == calls[..i];
    assert calls[..j][..i + 1] == calls[..i + 1];
    assert After(fits, calls[..i + 1]).active.Some?;
    PointerStaysSet(fits, calls[..j], i + 1);
  }
}

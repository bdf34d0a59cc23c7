/** The in-memory checkpoint store: staged generations, one active pointer moved by
    compare-and-swap, and a poison flag that closes the store for good. */
module CheckpointStore {
  import opened Wrappers
  import opened LabModel
  import opened LabCheckpoint
  import opened LabService

  /** The canonical bytes of a checkpoint determine it, so they are kept as the checkpoint. */
  datatype Stored = Stored(bytes: Checkpoint, digest: Hash)

  datatype StoreError = Poisoned | Conflict | ActiveAbsent | TooLarge | ExportRefused
  datatype StoreResult = Ok(checkpoint: Checkpoint) | Failed(error: StoreError)

  datatype Store = Store(staged: map<Hash, Stored>, active: Option<Hash>, poisoned: bool)
  datatype StoreStep = StoreStep(next: Store, result: StoreResult)

  /** Parsing canonical bytes: the size rule `fits`, then the seal. */
  function FromBytes(fits: Checkpoint -> bool, raw: Checkpoint): Option<Checkpoint> {
    if fits(raw) && Sealed(raw) then Some(raw) else None
  }

  function Poison(st: Store): StoreStep { StoreStep(st.(poisoned := true), Failed(Poisoned)) }

  function Stage(fits: Checkpoint -> bool, st: Store, c: Checkpoint): StoreStep {
    if st.poisoned then StoreStep(st, Failed(Poisoned))
    else if FromBytes(fits, c).None? then StoreStep(st, Failed(TooLarge))
    else if c.generation in st.staged && st.staged[c.generation] != Stored(c, c.digest) then Poison(st)
    else StoreStep(st.(staged := st.staged[c.generation := Stored(c, c.digest)]), Ok(c))
  }

  function LoadActive(fits: Checkpoint -> bool, st: Store): StoreStep {
    if st.poisoned then StoreStep(st, Failed(Poisoned))
    else if st.active.None? then StoreStep(st, Failed(ActiveAbsent))
    else if st.active.value !in st.staged then Poison(st)
    else
      var entry := st.staged[st.active.value];
      match FromBytes(fits, entry.bytes)
      case None => Poison(st)
      case Some(c) =>
        if c.generation != st.active.value || c.digest != entry.digest then Poison(st) else StoreStep(st, Ok(c))
  }

  function CompareAndSwap(fits: Checkpoint -> bool, st: Store, expected: Option<Hash>, next: Hash): StoreStep {
    if st.poisoned then StoreStep(st, Failed(Poisoned))
    else if st.active != expected then StoreStep(st, Failed(Conflict))
    else if next !in st.staged then Poison(st)
    else LoadActive(fits, st.(active := Some(next)))
  }

  /** What loading promises: the active generation's checkpoint, or the reason why there is none. */
  ghost predicate LoadsOnly(fits: Checkpoint -> bool, st: Store, st': Store, r: StoreResult) {
    && (st.poisoned ==> st' == st && r == Failed(Poisoned))
    && (!st.poisoned && st.active == None ==> st' == st && r == Failed(ActiveAbsent))
    && (!st.poisoned && st.active.Some? ==>
          var g := st.active.value;
          if g in st.staged && Readable(fits, g, st.staged[g]) then st' == st && r == Ok(st.staged[g].bytes)
          else st' == Store(st.staged, st.active, true) && r == Failed(Poisoned))
  }

  /** A stored entry that parses and is bound to its generation and its digest. */
  predicate Readable(fits: Checkpoint -> bool, g: Hash, entry: Stored) {
    fits(entry.bytes) && Sealed(entry.bytes) && entry.bytes.generation == g && entry.bytes.digest == entry.digest
  }

  predicate Intact(fits: Checkpoint -> bool, st: Store) { forall g :: g in st.staged ==> Readable(fits, g, st.staged[g]) }

  /** What staging promises: the entry is added, is already there, or another one is in its place. */
  ghost predicate StagesOnly(fits: Checkpoint -> bool, st: Store, c: Checkpoint, st': Store, r: StoreResult) {
    && (st.poisoned ==> st' == st && r == Failed(Poisoned))
    && (!st.poisoned && !(fits(c) && Sealed(c)) ==> st' == st && r == Failed(TooLarge))
    && (!st.poisoned && fits(c) && Sealed(c) ==>
          if c.generation !in st.staged || st.staged[c.generation] == Stored(c, c.digest)
          then st' == Store(st.staged[c.generation := Stored(c, c.digest)], st.active, false) && r == Ok(c)
          else st' == Store(st.staged, st.active, true) && r == Failed(Poisoned))
  }

  /** What compare-and-swap promises of a store `st`, whatever is expected, nothing included. */
  ghost predicate SwapsOnly(fits: Checkpoint -> bool, st: Store, expected: Option<Hash>, next: Hash, st': Store, r: StoreResult) {
    // A closed store stays as it is.
    && (st.poisoned ==> st' == st && r == Failed(Poisoned))
    // A store whose pointer is elsewhere is left alone.
    && (!st.poisoned && st.active != expected ==> st' == st && r == Failed(Conflict))
    // A target that was never staged closes the store and leaves the pointer.
    && (!st.poisoned && st.active == expected && next !in st.staged ==>
          st' == Store(st.staged, st.active, true) && r == Failed(Poisoned))
    // A success moves the pointer and nothing else, and hands out what was staged.
    && (r.Ok? ==> !st.poisoned && st.active == expected && next in st.staged &&
                  st' == Store(st.staged, Some(next), false) && r.checkpoint == st.staged[next].bytes)
    // In an intact store a staged target always succeeds.
    && (!st.poisoned && st.active == expected && next in st.staged && Intact(fits, st) ==> r.Ok?)
    // Otherwise the pointer moved onto an entry that does not parse, and the store is closed.
    && (!st.poisoned && st.active == expected && next in st.staged && !r.Ok? ==>
          st' == Store(st.staged, Some(next), true) && r == Failed(Poisoned))
  }

  class InMemoryLabStateStore {
    const fits: Checkpoint -> bool
    var staged: map<Hash, Stored>
    var active: Option<Hash>
    var poisoned: bool

    function View(): Store
      reads this
    {
      Store(staged, active, poisoned)
    }

    constructor (fits: Checkpoint -> bool)
      ensures View() == Store(map[], None, false) && this.fits == fits
    {
      this.fits := fits;
      staged, active, poisoned := map[], None, false;
    }

    method StageCheckpoint(c: Checkpoint) returns (r: StoreResult)
      modifies this
      ensures StoreStep(View(), r) == Stage(fits, old(View()), c)
      ensures StagesOnly(fits, old(View()), c, View(), r)
    {
      if poisoned {
        return Failed(Poisoned);
      }
      var restored := FromBytes(fits, c);
      if restored.None? {
        return Failed(TooLarge);
      }
      var stored := Stored(c, c.digest);
      if c.generation in staged && staged[c.generation] != stored {
        poisoned := true;
        return Failed(Poisoned);
      }
      staged := staged[c.generation := stored];
      r := Ok(c);
    }

    method Load() returns (r: StoreResult)
      modifies this`poisoned
      ensures StoreStep(View(), r) == LoadActive(fits, old(View()))
      ensures LoadsOnly(fits, old(View()), View(), r)
    {
      if poisoned {
        return Failed(Poisoned);
      }
      if active.None? {
        return Failed(ActiveAbsent);
      }
      if active.value !in staged {
        poisoned := true;
        return Failed(Poisoned);
      }
      var entry := staged[active.value];
      var parsed := FromBytes(fits, entry.bytes);
      if parsed.None? || parsed.value.generation != active.value || parsed.value.digest != entry.digest {
        poisoned := true;
        return Failed(Poisoned);
      }
      r := Ok(parsed.value);
    }

    method Swap(expected: Option<Hash>, next: Hash) returns (r: StoreResult)
      modifies this
      ensures StoreStep(View(), r) == CompareAndSwap(fits, old(View()), expected, next)
      ensures SwapsOnly(fits, old(View()), expected, next, View(), r)
    {
      if poisoned {
        return Failed(Poisoned);
      }
      if active != expected {
        return Failed(Conflict);
      }
      if next !in staged {
        poisoned := true;
        return Failed(Poisoned);
      }
      active := Some(next);
      r := Load();
    }

    /** Export, stage, swap: the swap decides against the store as the staging left it. */
    method Commit(state: LabState, expected: Option<Hash>) returns (r: StoreResult)
      requires state.View().WellFormed()
      modifies this
      ensures match Export(state.View())
              case None => r == Failed(ExportRefused) && View() == old(View())
              case Some(c) =>
                var staging := Stage(fits, old(View()), c);
                StoreStep(View(), r) ==
                  if staging.result.Failed? then staging
                  else CompareAndSwap(fits, staging.next, expected, c.generation)
      ensures active != old(active) ==> old(active) == expected && r.Ok?
      ensures r.Ok? ==>
                && Export(state.View()) == Some(r.checkpoint)
                && !old(poisoned) && old(active) == expected && fits(r.checkpoint)
                && View() == Store(old(staged)[r.checkpoint.generation := Stored(r.checkpoint, r.checkpoint.digest)],
                                   Some(r.checkpoint.generation), false)
      ensures r == Failed(Conflict) ==>
                && !old(poisoned) && old(active) != expected && !poisoned && active == old(active)
                && staged.Keys >= old(staged).Keys && forall g :: g in old(staged) ==> staged[g] == old(staged)[g]
      ensures Export(state.View()).Some? && !old(poisoned) && old(active) != expected ==>
                r.Failed? && r.error in {Conflict, TooLarge, Poisoned}
    {
      var exported := Export(state.View());
      if exported.None? {
        return Failed(ExportRefused);
      }
      r := StageCheckpoint(exported.value);
      if r.Failed? {
        return;
      }
      r := Swap(expected, exported.value.generation);
    }

    method RestoreActive() returns (r: Option<Lab>)
      modifies this`poisoned
      ensures var loading := LoadActive(fits, old(View()));
              && View() == loading.next
              && r == if loading.result.Failed? then None else FromCheckpoint(loading.result.checkpoint)
    {
      var loaded := Load();
      if loaded.Failed? {
        return None;
      }
      r := FromCheckpoint(loaded.checkpoint);
    }
  }
}

/** The lab as an optimistic machine: concurrent clients of the checkpoint store serialize. */
module Serializability {
  import opened Wrappers
  import opened LabModel
  import opened LabInvariants
  import opened LabHistory
  import opened LabCheckpoint
  import opened CheckpointStore
  import opened OptimisticClients

  function ActOn(s: Lab, a: Request): Lab { if s.WellFormed() then Execute(s, a).next else s }
  function SaveOf(s: Lab): Option<Checkpoint> { if s.WellFormed() then Export(s) else None }

  function LabMachine(fits: Checkpoint -> bool): Machine<Lab, Request> {
    Machine((s, a) => ActOn(s, a), s => SaveOf(s), c => FromCheckpoint(c), fits)
  }

  predicate Reachable(mode: Mode, s: Lab) { s.WellFormed() && Inv(s) && s.mode == mode }

  lemma ActKeepsReachable(mode: Mode, s: Lab, a: Request)
    requires Reachable(mode, s)
    ensures Reachable(mode, ActOn(s, a))
  {
    StepKeepsInv(s, a);
  }

  lemma SavesRestore(mode: Mode, s: Lab)
    requires Reachable(mode, s) && SaveOf(s).Some?
    ensures Sealed(SaveOf(s).value) && FromCheckpoint(SaveOf(s).value) == Some(s)
  {
    CheckpointRoundTrip(s);
  }

  lemma LabMachineIsSound(fits: Checkpoint -> bool, mode: Mode)
    ensures Sound(LabMachine(fits), s => Reachable(mode, s))
  {
    var m := LabMachine(fits);
    forall s, a | Reachable(mode, s) ensures Reachable(mode, m.step(s, a)) {
      ActKeepsReachable(mode, s, a);
    }
    forall s | Reachable(mode, s) && m.save(s).Some?
      ensures Sealed(m.save(s).value) && m.restore(m.save(s).value) == Some(s)
    {
      SavesRestore(mode, s);
    }
    forall s, t | m.save(s).Some? && m.save(t).Some? && m.save(s).value.generation == m.save(t).value.generation
      ensures m.save(s).value == m.save(t).value
    {
    }
  }

  lemma {:induction false} StepsAreARun(fits: Checkpoint -> bool, s: Lab, acts: seq<Request>)
    requires s.WellFormed()
    ensures Steps(LabMachine(fits), s, acts) == RunFrom(s, acts)
  {
    if acts != [] { StepsAreARun(fits, s, acts[..|acts| - 1]); }
  }

  /** The checkpoint of the canonical lab; the store must have room for it. */
  predicate StartsFrom(fits: Checkpoint -> bool, mode: Mode, first: Checkpoint) {
    Export(Canonical(mode)) == Some(first) && fits(first)
  }

  lemma LabSystemInv(fits: Checkpoint -> bool, mode: Mode, first: Checkpoint, moves: seq<Move<Request>>)
    requires StartsFrom(fits, mode, first)
    ensures var m := LabMachine(fits);
            SystemInv(m, s => Reachable(mode, s), Canonical(mode), Play(m, first, moves))
  {
    LabMachineIsSound(fits, mode);
    RootSatisfiesInv(mode);
    PlayKeepsInv(LabMachine(fits), s => Reachable(mode, s), Canonical(mode), first, moves);
  }

  /** Serializability: for every number of clients and every interleaving of their moves, the
      active checkpoint loads and restores to the state of one single-threaded run from the
      canonical root of exactly the winning work, in commit order; the store is never poisoned. */
  lemma CommitsSerialize(fits: Checkpoint -> bool, mode: Mode, first: Checkpoint, moves: seq<Move<Request>>)
    requires StartsFrom(fits, mode, first)
    ensures var sys := Play(LabMachine(fits), first, moves);
            var loading := LoadActive(fits, sys.store);
            && !sys.store.poisoned && loading.next == sys.store && loading.result.Ok?
            && FromCheckpoint(loading.result.checkpoint) == Some(Run(mode, Flatten(sys.commits)))
  {
    var m := LabMachine(fits);
    var sys := Play(m, first, moves);
    var s := Steps(m, Canonical(mode), Flatten(sys.commits));
    LabMachineIsSound(fits, mode);
    LabSystemInv(fits, mode, first, moves);
    LoadActiveSucceeds(m, x => Reachable(mode, x), sys.store, s);
    SavesRestore(mode, s);
    StepsAreARun(fits, Canonical(mode), Flatten(sys.commits));
  }

  /** Losers change nothing active. */
  lemma OnlyWinnersMoveThePointer(fits: Checkpoint -> bool, mode: Mode, first: Checkpoint,
                                  moves: seq<Move<Request>>, v: Move<Request>)
    requires StartsFrom(fits, mode, first)
    ensures OnlyTheWinnerMoves(LabMachine(fits), Play(LabMachine(fits), first, moves), v)
  {
    LabMachineIsSound(fits, mode);
    LabSystemInv(fits, mode, first, moves);
    MovesRespectWinners(LabMachine(fits), s => Reachable(mode, s), Canonical(mode),
                        Play(LabMachine(fits), first, moves), v);
  }

  /** The disclosure theorem carries over: a reader of the shared vulnerable lab receives tenant
      B's body exactly when the winning work, read as one history, meets the condition. */
  lemma SharedDisclosureIsTheWinnersHistory(fits: Checkpoint -> bool, first: Checkpoint, moves: seq<Move<Request>>,
                                            shared: Lab)
    requires StartsFrom(fits, Vulnerable, first) && shared.WellFormed()
    requires var loading := LoadActive(fits, Play(LabMachine(fits), first, moves).store);
             loading.result.Ok? && FromCheckpoint(loading.result.checkpoint) == Some(shared)
    ensures var h := Flatten(Play(LabMachine(fits), first, moves).commits);
            Execute(shared, Action(AOld, Read(ProtectedByB))).reply.DocumentBody? <==> ReadyToDisclose(h, |h|)
  {
    var h := Flatten(Play(LabMachine(fits), first, moves).commits);
    CommitsSerialize(fits, Vulnerable, first, moves);
    assert h[..|h|] == h;
    ExactDisclosure(h, |h|);
  }
}

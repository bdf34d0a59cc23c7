/** Checkpoints: the canonical payload of a lab, the three digests that seal it, and the
    restore that revalidates a whole payload before it becomes a lab again.

    SHA-256 over canonical JSON is modelled as an injective constructor over the payload; the
    timestamps and identifiers inside a payload are kept as the values they encode. */
module LabCheckpoint {
  import opened Wrappers
  import opened LabModel
  import opened LabInvariants

  const MAX_ITEMS := 256
  const MAX_TEXT := 512

  datatype PrincipalEntry = PrincipalEntry(id: Principal, tenant: Tenant, role: Role)
  datatype SessionEntry = SessionEntry(id: SessionId, session: Session)
  datatype Ownership = Ownership(document: Document, tenant: Tenant)
  datatype DisclosureEntry = DisclosureEntry(evidenceNumber: int, requester: Tenant, owner: Tenant,
                                             document: Document, status: int, provenance: Provenance)

  /** The `state` object of a checkpoint. Protected bodies are not part of it. */
  datatype Payload = Payload(
    sequence: int, now: Time, policyGeneration: int,
    principals: seq<PrincipalEntry>, sessions: seq<SessionEntry>, ownership: seq<Ownership>,
    retained: seq<SessionId>, cache: Option<CacheEntry>, job: Option<Job>, reference: Reference,
    downgradedAt: Option<Time>, opensAt: Option<Time>, closesAt: Option<Time>,
    evidence: seq<Evidence>, lastDisclosure: Option<DisclosureEntry>)

  datatype SeenEvidence = SeenEvidence(evidenceNumber: int, kind: ActionType, actor: Principal,
                                       outcome: Outcome, at: Time, resource: Resource, provenance: Provenance)

  datatype View = View(
    mode: Mode, now: Time, policyGeneration: int,
    principals: seq<PrincipalEntry>, sessions: seq<SessionEntry>, retained: seq<SessionId>,
    cache: Option<CacheEntry>, job: Option<Job>, reference: Reference,
    downgradedAt: Option<Time>, opensAt: Option<Time>, closesAt: Option<Time>,
    evidence: seq<SeenEvidence>, observation: Option<int>)

  /** A digest. `Foreign` is any digest not computed from one of the three payload shapes. */
  datatype Hash =
    | Fingerprint(view: View)
    | GenerationOf(mode: Mode, state: Payload, fingerprint: Hash)
    | SealOf(generation: Hash, mode: Mode, state: Payload, fingerprint: Hash)
    | Foreign(text: string)

  datatype Checkpoint = Checkpoint(generation: Hash, mode: Mode, state: Payload, fingerprint: Hash, digest: Hash)

  // ---------- Export ----------

  /** Ids in the order of their names: principal-a, -admin, -b; session-a-fresh, -a-old,
      -b-viewer, -lab-admin. */
  const PRINCIPAL_ORDER := [AEditor, Admin, BViewer]
  const SESSION_ORDER := [AFresh, AOld, BSession, AdminSession]

  function SortedPrincipals(order: seq<Principal>, m: map<Principal, PrincipalRecord>): seq<PrincipalEntry> {
    if order == [] then []
    else if order[0] in m then [PrincipalEntry(order[0], m[order[0]].tenant, m[order[0]].role)] + SortedPrincipals(order[1..], m)
    else SortedPrincipals(order[1..], m)
  }

  function SortedSessions(order: seq<SessionId>, m: map<SessionId, Session>): seq<SessionEntry> {
    if order == [] then []
    else if order[0] in m then [SessionEntry(order[0], m[order[0]])] + SortedSessions(order[1..], m)
    else SortedSessions(order[1..], m)
  }

  function SortedIds(order: seq<SessionId>, ids: set<SessionId>): seq<SessionId> {
    if order == [] then []
    else if order[0] in ids then [order[0]] + SortedIds(order[1..], ids)
    else SortedIds(order[1..], ids)
  }

  function CanonicalOwnership(): seq<Ownership> {
    [Ownership(OwnedByA, Owner(OwnedByA)), Ownership(ProtectedByB, Owner(ProtectedByB))]
  }

  function PayloadOf(s: Lab): Payload
    requires s.WellFormed()
  {
    Payload(s.sequence, s.now, s.policyGeneration,
            SortedPrincipals(PRINCIPAL_ORDER, s.principals), SortedSessions(SESSION_ORDER, s.sessions), CanonicalOwnership(),
            SortedIds(SESSION_ORDER, s.retained), s.cache, s.job, s.reference,
            s.downgradedAt, s.opensAt, s.closesAt, s.evidence,
            if s.lastDisclosure.None? then None
            else
              var o := s.lastDisclosure.value;
              Some(DisclosureEntry(o.evidenceNumber, o.requester, o.owner, o.document, o.status, o.provenance)))
  }

  function ViewOf(s: Lab): View
    requires s.WellFormed()
  {
    View(s.mode, s.now, s.policyGeneration,
         SortedPrincipals(PRINCIPAL_ORDER, s.principals), SortedSessions(SESSION_ORDER, s.sessions),
         SortedIds(SESSION_ORDER, s.retained),
         s.cache, s.job, s.reference, s.downgradedAt, s.opensAt, s.closesAt,
         seq(|s.evidence|, i requires 0 <= i < |s.evidence| =>
           var e := s.evidence[i];
           SeenEvidence(e.evidenceNumber, e.kind, e.actor, e.outcome, e.at, e.resource, e.provenance)),
         if s.lastDisclosure.None? then None else Some(s.lastDisclosure.value.evidenceNumber))
  }

  /** Characters of a number in decimal. */
  function DecimalLength(n: int): (r: nat)
    ensures r >= 1
    decreases if n < 0 then 1 - n else n
  {
    if n < 0 then 1 + DecimalLength(-n) else if n < 10 then 1 else 1 + DecimalLength(n / 10)
  }

  /** The free texts of a record; all other texts of a payload are fixed names, numbered ids or
      timestamps, far below the bound. The resource of a clock advance is its seconds after a prefix
      of eight characters. */
  predicate ShortTexts(e: Evidence) {
    && (e.kind.OtherType? ==> |e.kind.typeText| <= MAX_TEXT)
    && (e.outcome.OtherOutcome? ==> |e.outcome.outcomeText| <= MAX_TEXT)
    && (e.resource.ResOther? ==> |e.resource.resourceText| <= MAX_TEXT)
    && (e.resource.ResSeconds? ==> 8 + DecimalLength(e.resource.seconds) <= MAX_TEXT)
  }

  /** The fixed bounds on containers and strings. */
  predicate Bounded(p: Payload) {
    && |p.principals| <= MAX_ITEMS && |p.sessions| <= MAX_ITEMS && |p.ownership| <= MAX_ITEMS
    && |p.retained| <= MAX_ITEMS && |p.evidence| <= MAX_ITEMS
    && forall i :: 0 <= i < |p.evidence| ==> ShortTexts(p.evidence[i])
  }

  function Create(mode: Mode, state: Payload, fingerprint: Hash): Option<Checkpoint> {
    if !Bounded(state) then None
    else
      var generation := GenerationOf(mode, state, fingerprint);
      Some(Checkpoint(generation, mode, state, fingerprint, SealOf(generation, mode, state, fingerprint)))
  }

  function Export(s: Lab): Option<Checkpoint>
    requires s.WellFormed()
  {
    Create(s.mode, PayloadOf(s), Fingerprint(ViewOf(s)))
  }

  predicate Sealed(c: Checkpoint) {
    Bounded(c.state) && c.digest == SealOf(c.generation, c.mode, c.state, c.fingerprint)
  }

  // ---------- Restore ----------

  function ReadPrincipals(entries: seq<PrincipalEntry>, m: map<Principal, PrincipalRecord>)
    : Option<map<Principal, PrincipalRecord>>
  {
    if entries == [] then Some(m)
    else if entries[0].id in m then None
    else ReadPrincipals(entries[1..], m[entries[0].id := PrincipalRecord(entries[0].tenant, entries[0].role)])
  }

  function ReadSessions(entries: seq<SessionEntry>, m: map<SessionId, Session>): Option<map<SessionId, Session>> {
    if entries == [] then Some(m)
    else if entries[0].id in m || entries[0].session.generation < 1 then None
    else ReadSessions(entries[1..], m[entries[0].id := entries[0].session])
  }

  predicate NoRepeats<T(==)>(ids: seq<T>) {
    forall i, j :: 0 <= i < j < |ids| ==> ids[i] != ids[j]
  }

  function IdSet(ids: seq<SessionId>): set<SessionId> { set i | i in ids }

  predicate SessionCoverage(ids: set<SessionId>) {
    ids == {AOld, BSession, AdminSession} || ids == {AOld, BSession, AdminSession, AFresh}
  }

  function ReadDisclosure(o: Option<DisclosureEntry>, evidence: seq<Evidence>): Option<Option<Disclosure>> {
    if o.None? then Some(None)
    else if o.value.document != ProtectedByB ||
            !exists i :: 0 <= i < |evidence| && evidence[i].evidenceNumber == o.value.evidenceNumber then None
    else
      Some(Some(Disclosure(o.value.evidenceNumber, o.value.requester, o.value.owner, o.value.document,
                           o.value.status, Body(o.value.document), o.value.provenance)))
  }

  /** Rebuilds a lab from a payload, or rejects it. */
  function Restore(mode: Mode, p: Payload): (r: Option<Lab>)
    ensures r.Some? ==> r.value.WellFormed()
  {
    var principals := ReadPrincipals(p.principals, map[]);
    var sessions := ReadSessions(p.sessions, map[]);
    var disclosure := ReadDisclosure(p.lastDisclosure, p.evidence);
    if p.sequence < 0 || p.policyGeneration < 1 then None
    else if principals.None? || principals.value.Keys != {AEditor, BViewer, Admin} then None
    else if sessions.None? || !SessionCoverage(sessions.value.Keys) then None
    else if p.ownership != CanonicalOwnership() then None
    else if !NoRepeats(p.retained) || !(IdSet(p.retained) <= sessions.value.Keys) then None
    else if p.cache.Some? && p.cache.value.generation < 1 then None
    else if !Numbered(p.evidence) || p.sequence != |p.evidence| then None
    else if disclosure.None? then None
    else
      Some(Lab(mode, p.now, p.sequence, p.policyGeneration, principals.value, sessions.value, p.cache, p.job,
               p.reference, IdSet(p.retained), p.downgradedAt, p.opensAt, p.closesAt, p.evidence, disclosure.value))
  }

  /** The full acceptance test: restore, then compare the recomputed fingerprint and generation. */
  function FromCheckpoint(c: Checkpoint): (r: Option<Lab>)
    ensures r.Some? ==> r.value.WellFormed()
  {
    match Restore(c.mode, c.state)
    case None => None
    case Some(s) =>
      if Fingerprint(ViewOf(s)) != c.fingerprint then None
      else
        match Export(s)
        case None => None
        case Some(again) => if again.generation != c.generation then None else Some(s)
  }

  // ---------- Round trip ----------

  /** The labs that have a checkpoint: every check of the restore, read on the lab itself. */
  predicate Restorable(s: Lab) {
    && s.sequence == |s.evidence| && s.policyGeneration >= 1
    && s.principals.Keys == {AEditor, BViewer, Admin}
    && SessionCoverage(s.sessions.Keys)
    && (forall id :: id in s.sessions ==> s.sessions[id].generation >= 1)
    && s.retained <= s.sessions.Keys
    && (s.cache.Some? ==> s.cache.value.generation >= 1)
    && Numbered(s.evidence)
    && (s.lastDisclosure.Some? ==>
          && s.lastDisclosure.value.document == ProtectedByB
          && s.lastDisclosure.value.body == MARKER_B
          && 1 <= s.lastDisclosure.value.evidenceNumber <= |s.evidence|)
  }

  lemma OrdersAreComplete()
    ensures NoRepeats(PRINCIPAL_ORDER) && forall p: Principal :: p in PRINCIPAL_ORDER
    ensures NoRepeats(SESSION_ORDER) && forall id: SessionId :: id in SESSION_ORDER
  {
    forall p: Principal ensures p in PRINCIPAL_ORDER {
      assert p == PRINCIPAL_ORDER[if p.AEditor? then 0 else if p.Admin? then 1 else 2];
    }
    forall id: SessionId ensures id in SESSION_ORDER {
      assert id == SESSION_ORDER[if id.AFresh? then 0 else if id.AOld? then 1 else if id.BSession? then 2 else 3];
    }
  }

  ghost function Only<K, V>(keys: seq<K>, m: map<K, V>): map<K, V> { map k | k in keys && k in m :: m[k] }

  lemma OnlyFirst<K, V>(keys: seq<K>, m: map<K, V>, acc: map<K, V>)
    requires keys != [] && NoRepeats(keys)
    ensures (if keys[0] in m then acc[keys[0] := m[keys[0]]] else acc) + Only(keys[1..], m) == acc + Only(keys, m)
  {
    assert forall k :: k in keys <==> k == keys[0] || k in keys[1..];
    assert keys[0] !in keys[1..] by {
      assert forall i :: 0 < i < |keys| ==> keys[1..][i - 1] == keys[i];
    }
  }

  lemma {:induction false} PrincipalsReadBack(order: seq<Principal>, m: map<Principal, PrincipalRecord>,
                                              acc: map<Principal, PrincipalRecord>)
    requires NoRepeats(order) && forall p :: p in order ==> p !in acc
    ensures ReadPrincipals(SortedPrincipals(order, m), acc) == Some(acc + Only(order, m))
  {
    if order == [] {
      assert acc + Only(order, m) == acc;
    } else {
      var p, rest := order[0], order[1..];
      var next := if p in m then acc[p := m[p]] else acc;
      PrincipalsReadBack(rest, m, next);
      OnlyFirst(order, m, acc);
      if p in m {
        assert SortedPrincipals(order, m)[1..] == SortedPrincipals(rest, m);
      }
    }
  }

  lemma {:induction false} SessionsReadBack(order: seq<SessionId>, m: map<SessionId, Session>,
                                            acc: map<SessionId, Session>)
    requires NoRepeats(order) && forall id :: id in order ==> id !in acc
    requires forall id :: id in m ==> m[id].generation >= 1
    ensures ReadSessions(SortedSessions(order, m), acc) == Some(acc + Only(order, m))
  {
    if order == [] {
      assert acc + Only(order, m) == acc;
    } else {
      var id, rest := order[0], order[1..];
      var next := if id in m then acc[id := m[id]] else acc;
      SessionsReadBack(rest, m, next);
      OnlyFirst(order, m, acc);
      if id in m {
        assert SortedSessions(order, m)[1..] == SortedSessions(rest, m);
      }
    }
  }

  lemma MapsRoundTrip(s: Lab)
    requires forall id :: id in s.sessions ==> s.sessions[id].generation >= 1
    ensures ReadPrincipals(SortedPrincipals(PRINCIPAL_ORDER, s.principals), map[]) == Some(s.principals)
    ensures ReadSessions(SortedSessions(SESSION_ORDER, s.sessions), map[]) == Some(s.sessions)
  {
    OrdersAreComplete();
    PrincipalsReadBack(PRINCIPAL_ORDER, s.principals, map[]);
    SessionsReadBack(SESSION_ORDER, s.sessions, map[]);
    assert map[] + Only(PRINCIPAL_ORDER, s.principals) == s.principals;
    assert map[] + Only(SESSION_ORDER, s.sessions) == s.sessions;
  }

  lemma {:induction false} SortedIdsAreExact(order: seq<SessionId>, ids: set<SessionId>)
    requires NoRepeats(order)
    ensures NoRepeats(SortedIds(order, ids)) && |SortedIds(order, ids)| <= |order|
    ensures forall id :: id in SortedIds(order, ids) <==> id in order && id in ids
  {
    if order != [] {
      SortedIdsAreExact(order[1..], ids);
      assert forall i :: 0 < i < |order| ==> order[i] == order[1..][i - 1];
      assert order[0] !in order[1..];
    }
  }

  lemma RetainedRoundTrip(ids: set<SessionId>)
    ensures NoRepeats(SortedIds(SESSION_ORDER, ids)) && IdSet(SortedIds(SESSION_ORDER, ids)) == ids
    ensures |SortedIds(SESSION_ORDER, ids)| <= 4
  {
    OrdersAreComplete();
    SortedIdsAreExact(SESSION_ORDER, ids);
  }

  lemma DisclosureRoundTrip(s: Lab)
    requires s.WellFormed() && Restorable(s)
    ensures ReadDisclosure(PayloadOf(s).lastDisclosure, s.evidence) == Some(s.lastDisclosure)
  {
    if s.lastDisclosure.Some? {
      assert s.evidence[s.lastDisclosure.value.evidenceNumber - 1].evidenceNumber == s.lastDisclosure.value.evidenceNumber;
    }
  }

  /** Restoring the payload of a lab gives the lab back, bodies included. */
  lemma PayloadRoundTrip(s: Lab)
    requires s.WellFormed() && Restorable(s)
    ensures Restore(s.mode, PayloadOf(s)) == Some(s)
  {
    MapsRoundTrip(s);
    RetainedRoundTrip(s.retained);
    DisclosureRoundTrip(s);
  }

  lemma {:induction false} ReadSessionsChecksGenerations(entries: seq<SessionEntry>, m: map<SessionId, Session>)
    requires forall id :: id in m ==> m[id].generation >= 1
    ensures var r := ReadSessions(entries, m);
            r.Some? ==> forall id :: id in r.value ==> r.value[id].generation >= 1
  {
    if entries != [] && entries[0].id !in m && entries[0].session.generation >= 1 {
      ReadSessionsChecksGenerations(entries[1..], m[entries[0].id := entries[0].session]);
    }
  }

  /** Whatever the restore accepts is restorable. */
  lemma RestoredIsRestorable(mode: Mode, p: Payload)
    requires Restore(mode, p).Some?
    ensures Restorable(Restore(mode, p).value) && Restore(mode, p).value.mode == mode
  {
    ReadSessionsChecksGenerations(p.sessions, map[]);
  }

  /** The generation named by a checkpoint is the digest of its own payload. */
  predicate SelfNamed(c: Checkpoint) { c.generation == GenerationOf(c.mode, c.state, c.fingerprint) }

  /** Exactly which sealed checkpoints that name their own payload are accepted, and as what:
      those that some restorable lab exports, restored as that lab. */
  lemma AcceptedIffExported(c: Checkpoint, s: Lab)
    requires Sealed(c) && SelfNamed(c)
    ensures FromCheckpoint(c) == Some(s) <==> Restorable(s) && s.WellFormed() && Export(s) == Some(c)
  {
    if FromCheckpoint(c) == Some(s) {
      RestoredIsRestorable(c.mode, c.state);
      AcceptedExportsToItself(c);
    }
    if Restorable(s) && s.WellFormed() && Export(s) == Some(c) {
      PayloadRoundTrip(s);
      assert c.state == PayloadOf(s) && c.mode == s.mode;
    }
  }

  /** The seal of a checkpoint does not tie its generation to its payload, so acceptance alone
      does not make a checkpoint canonical. It exports to itself exactly when it names its own
      payload. */
  lemma AcceptedExportsToItself(c: Checkpoint)
    requires Sealed(c) && FromCheckpoint(c).Some?
    ensures Export(FromCheckpoint(c).value) == Some(c) <==> SelfNamed(c)
  {
    var again := Export(FromCheckpoint(c).value).value;
    assert again.generation == GenerationOf(again.mode, again.state, again.fingerprint);
    assert again.digest == SealOf(again.generation, again.mode, again.state, again.fingerprint);
  }

  /** A sealed checkpoint of the canonical lab whose principals are listed in reverse, under the
      generation of the proper checkpoint. */
  function Reordered(mode: Mode): Checkpoint {
    var s := Canonical(mode);
    var fingerprint := Fingerprint(ViewOf(s));
    var generation := GenerationOf(mode, PayloadOf(s), fingerprint);
    var state := PayloadOf(s).(principals := [PrincipalEntry(BViewer, TenantB, ViewerRole),
                                              PrincipalEntry(Admin, Platform, AdminRole),
                                              PrincipalEntry(AEditor, TenantA, EditorRole)]);
    Checkpoint(generation, mode, state, fingerprint, SealOf(generation, mode, state, fingerprint))
  }

  lemma ReversedPrincipalsReadTheSame(mode: Mode)
    ensures ReadPrincipals(Reordered(mode).state.principals, map[]) == Some(Canonical(mode).principals)
    ensures Reordered(mode).state.principals != PayloadOf(Canonical(mode)).principals
  {
    var e := Reordered(mode).state.principals;
    var m0: map<Principal, PrincipalRecord> := map[];
    var m1 := m0[BViewer := PrincipalRecord(TenantB, ViewerRole)];
    var m2 := m1[Admin := PrincipalRecord(Platform, AdminRole)];
    var m3 := m2[AEditor := PrincipalRecord(TenantA, EditorRole)];
    assert ReadPrincipals(e[3..], m3) == Some(m3);
    assert e[1..][1..] == e[2..] && e[2..][1..] == e[3..];
    assert ReadPrincipals(e[2..], m2) == Some(m3);
    assert ReadPrincipals(e[1..], m1) == Some(m3);
    assert ReadPrincipals(e, m0) == Some(m3);
    assert m3 == Canonical(mode).principals;
    assert PayloadOf(Canonical(mode)).principals[0].id == AEditor;
  }

  /** Acceptance is not canonicity: this checkpoint is accepted although the lab it restores to
      exports a different one. */
  lemma ReorderedIsAccepted(mode: Mode)
    ensures Sealed(Reordered(mode)) && FromCheckpoint(Reordered(mode)) == Some(Canonical(mode))
    ensures Export(Canonical(mode)) != Some(Reordered(mode))
  {
    hide ReadPrincipals, ReadSessions, ReadDisclosure, SortedPrincipals, SortedSessions, SortedIds, Inv;
    var s, c := Canonical(mode), Reordered(mode);
    RootSatisfiesInv(mode);
    ReachableIsRestorable(s);
    PayloadRoundTrip(s);
    CheckpointRoundTrip(s);
    ReversedPrincipalsReadTheSame(mode);
  }

  lemma ReachableIsRestorable(s: Lab)
    requires s.WellFormed() && Inv(s)
    ensures Restorable(s)
  {
    assert s.sessions.Keys == if AFresh in s.sessions then {AOld, BSession, AdminSession, AFresh}
                              else {AOld, BSession, AdminSession} by {
      assert forall id: SessionId :: id in s.sessions ==> id.AOld? || id.BSession? || id.AdminSession? || id.AFresh?;
    }
  }

  /** A reachable state exports exactly when its log has at most 256 records, and the exported
      checkpoint restores to the same state. */
  lemma CheckpointRoundTrip(s: Lab)
    requires s.WellFormed() && Inv(s)
    ensures Export(s).Some? <==> |s.evidence| <= MAX_ITEMS
    ensures Export(s).Some? ==> Sealed(Export(s).value) && FromCheckpoint(Export(s).value) == Some(s)
  {
    ReachableIsRestorable(s);
    RetainedRoundTrip(s.retained);
    SortedListsAreShort(PRINCIPAL_ORDER, SESSION_ORDER, s);
    OrdinaryRecordsAreShort(s.evidence);
    PayloadRoundTrip(s);
  }

  lemma OrdinaryRecordsAreShort(ev: seq<Evidence>)
    requires OrdinaryRecords(ev)
    ensures forall i :: 0 <= i < |ev| ==> ShortTexts(ev[i])
  {
    forall i | 0 <= i < |ev| ensures ShortTexts(ev[i]) {
      if ev[i].resource.ResSeconds? { SecondsAreShort(ev[i].resource.seconds); }
    }
  }

  lemma SecondsAreShort(n: int)
    requires 0 <= n < 1000
    ensures DecimalLength(n) <= 3
  {
    assert DecimalLength(n / 10 / 10) == 1;
    assert DecimalLength(n / 10) <= 2;
  }

  lemma {:induction false} SortedListsAreShort(ps: seq<Principal>, ids: seq<SessionId>, s: Lab)
    ensures |SortedPrincipals(ps, s.principals)| <= |ps|
    ensures |SortedSessions(ids, s.sessions)| <= |ids|
    decreases |ps| + |ids|
  {
    if ps != [] { SortedListsAreShort(ps[1..], ids, s); }
    if ids != [] { SortedListsAreShort(ps, ids[1..], s); }
  }

  // ---------- Checkpoints inside a run ----------

  /** A run may at any moment be checkpointed and continued from the restored lab. */
  datatype Event = Act(request: Request) | CheckpointAndRestore

  function Requests(events: seq<Event>): seq<Request> {
    if events == [] then []
    else
      var before := Requests(events[..|events| - 1]);
      match events[|events| - 1]
      case Act(a) => before + [a]
      case CheckpointAndRestore => before
  }

  /** The run with real checkpoints; None as soon as one of them is refused. */
  function RunWithCheckpoints(mode: Mode, events: seq<Event>): (r: Option<Lab>)
    ensures r.Some? ==> r.value.WellFormed()
    decreases |events|
  {
    if events == [] then Some(Canonical(mode))
    else
      match RunWithCheckpoints(mode, events[..|events| - 1])
      case None => None
      case Some(s) =>
        match events[|events| - 1]
        case Act(a) => Some(Execute(s, a).next)
        case CheckpointAndRestore =>
          match Export(s)
          case None => None
          case Some(c) => FromCheckpoint(c)
  }

  /** The plain run before the event at `k` has a log that a checkpoint can hold. */
  predicate Exportable(mode: Mode, events: seq<Event>, k: nat)
    requires k < |events|
  {
    |Run(mode, Requests(events[..k])).evidence| <= MAX_ITEMS
  }

  predicate AllExportable(mode: Mode, events: seq<Event>) {
    forall k :: 0 <= k < |events| && events[k].CheckpointAndRestore? ==> Exportable(mode, events, k)
  }

  lemma ExportableSplits(mode: Mode, events: seq<Event>)
    requires events != []
    ensures var n := |events| - 1;
            AllExportable(mode, events) <==>
              AllExportable(mode, events[..n]) && (events[n].CheckpointAndRestore? ==> Exportable(mode, events, n))
  {
    hide Run, Requests;
    var n := |events| - 1;
    forall k | 0 <= k < n ensures Exportable(mode, events, k) <==> Exportable(mode, events[..n], k) {
      assert events[..n][..k] == events[..k];
    }
    assert forall k :: 0 <= k < n ==> events[..n][k] == events[k];
  }

  lemma NothingToExport(mode: Mode)
    ensures AllExportable(mode, [])
  {
  }

  /** Checkpoints are transparent: wherever they are inserted, the run ends in the state of the
      plain run, and it is refused exactly when some checkpoint meets a log of more than 256 records.
      In particular no run of at most 256 requests is refused. */
  lemma {:induction false} CheckpointsAreTransparent(mode: Mode, events: seq<Event>)
    ensures var r := RunWithCheckpoints(mode, events);
            && (r.Some? ==> r.value == Run(mode, Requests(events)))
            && (r.Some? <==> AllExportable(mode, events))
            && (|Requests(events)| <= MAX_ITEMS ==> r.Some?)
  {
    hide AllExportable, Inv, Export, FromCheckpoint;
    if events == [] {
      NothingToExport(mode);
    } else {
      var init := events[..|events| - 1];
      CheckpointsAreTransparent(mode, init);
      ExportableSplits(mode, events);
      var acts := Requests(init);
      RootSatisfiesInv(mode);
      RunKeepsInv(Canonical(mode), acts);
      LogGrowsByAtMostOne(mode, acts);
      match events[|events| - 1]
      case Act(a) => assert (acts + [a])[..|acts|] == acts;
      case CheckpointAndRestore => CheckpointRoundTrip(Run(mode, acts));
    }
  }
}

/** What holds in every reachable lab state, and the consequences: bounded runs, redundant
    conjuncts in the chain condition, failed calls that can be erased, and an oracle that
    agrees with the log. */
module LabInvariants {
  import opened Wrappers
  import opened LabModel

  const ADMIN_EXPIRY := 86400
  const LAST_SECOND := 86699

  function RoleOfA(s: Lab): Role { if s.downgradedAt.None? then EditorRole else ViewerRole }

  predicate Fixtures(s: Lab) {
    && s.principals == map[AEditor := PrincipalRecord(TenantA, RoleOfA(s)),
                           BViewer := PrincipalRecord(TenantB, ViewerRole),
                           Admin := PrincipalRecord(Platform, AdminRole)]
    && s.policyGeneration == (if s.downgradedAt.None? then 1 else 2)
    && AOld in s.sessions && s.sessions[AOld] == OldSession()
    && BSession in s.sessions && s.sessions[BSession] == TenantBSession()
    && AdminSession in s.sessions && s.sessions[AdminSession] == LabAdminSession()
    && (AFresh in s.sessions <==> s.downgradedAt.Some?)
    && (s.downgradedAt.Some? ==>
          s.sessions[AFresh] == Session(AEditor, ViewerRole, 2, s.downgradedAt.value, s.downgradedAt.value + 3600))
    && s.retained <= {AOld}
  }

  predicate Deadlines(s: Lab) {
    match s.downgradedAt
    case None => s.opensAt.None? && s.closesAt.None? && s.job.None?
    case Some(d) =>
      && 0 <= d <= s.now
      && s.opensAt == Some(d + 60) && s.closesAt == Some(d + 180)
      && s.job.Some? && s.job.value.principal == AEditor
      && s.job.value.dueAt == (if s.job.value.delayed then d + 240 else d + 30)
      && (s.job.value.status == Pending <==> s.now < s.job.value.dueAt)
  }

  predicate CacheAndReference(s: Lab) {
    && (s.cache.Some? ==> s.cache.value == CacheEntry(AEditor, true, OwnedByA, TenantA, 1))
    && (s.job.Some? && s.job.value.status == Completed ==> s.cache.None?)
    && (s.mode == Patched && s.downgradedAt.Some? ==> s.cache.None?)
    && s.reference == FRESH_REFERENCE.(published := s.reference.published, claimedBy := s.reference.claimedBy)
    && (s.reference.claimedBy.Some? ==>
          s.reference.published && s.reference.claimedBy.value in {AOld, AFresh})
    && (s.reference.claimedBy == Some(AFresh) ==> s.downgradedAt.Some?)
  }

  predicate Numbered(ev: seq<Evidence>) {
    forall i :: 0 <= i < |ev| ==> ev[i].actionNumber == i + 1 && ev[i].evidenceNumber == i + 1
  }

  predicate TimeOrdered(ev: seq<Evidence>, now: Time) {
    && (forall i, j :: 0 <= i < j < |ev| ==> ev[i].at <= ev[j].at)
    && (forall i :: 0 <= i < |ev| ==> 0 <= ev[i].at <= now)
  }

  predicate NoDisclosureFrom(ev: seq<Evidence>, n: int) {
    forall i :: 0 <= n <= i < |ev| ==> ev[i].outcome != CrossTenantBodyDisclosed
  }

  /** The remembered observation is exactly the last disclosing record of the log. */
  predicate ObservationMatchesLog(s: Lab) {
    match s.lastDisclosure
    case None => NoDisclosureFrom(s.evidence, 0)
    case Some(o) =>
      var n := o.evidenceNumber;
      && o == Disclosure(n, TenantA, TenantB, ProtectedByB, 200, MARKER_B, Observed)
      && 1 <= n <= |s.evidence|
      && s.evidence[n - 1].outcome == CrossTenantBodyDisclosed
      && NoDisclosureFrom(s.evidence, n)
      && s.mode == Vulnerable
  }

  /** The texts of a record are those the lab itself writes. */
  predicate Ordinary(kind: ActionType, outcome: Outcome, resource: Resource) {
    && !kind.OtherType? && !outcome.OtherOutcome? && !resource.ResOther?
    && (resource.ResSeconds? ==> 1 <= resource.seconds <= 300)
  }

  predicate OrdinaryRecords(ev: seq<Evidence>) {
    forall i :: 0 <= i < |ev| ==> Ordinary(ev[i].kind, ev[i].outcome, ev[i].resource)
  }

  predicate Log(s: Lab) {
    && s.sequence == |s.evidence|
    && OrdinaryRecords(s.evidence)
    && Numbered(s.evidence)
    && TimeOrdered(s.evidence, s.now)
    && ObservationMatchesLog(s)
  }

  predicate Inv(s: Lab) {
    && 0 <= s.now <= LAST_SECOND
    && Fixtures(s)
    && Deadlines(s)
    && CacheAndReference(s)
    && Log(s)
  }

  lemma RootSatisfiesInv(mode: Mode)
    ensures Inv(Canonical(mode))
  {
  }

  /** In a state that satisfies the invariant no job is overdue, so the lazy calls do nothing. */
  lemma LazyProcessingIsANoOp(s: Lab)
    requires Inv(s)
    ensures ProcessDueJobs(s) == s
  {
  }

  /** Appending an ordinary record keeps the invariant. */
  lemma RecordKeepsInv(s: Lab, kind: ActionType, c: Context, outcome: Outcome, resource: Resource,
                       provenance: Provenance)
    requires Inv(s) && outcome != CrossTenantBodyDisclosed && Ordinary(kind, outcome, resource)
    ensures Inv(Record(s, kind, c, outcome, resource, provenance))
  {
  }

  /** Appending a disclosing record and remembering it keeps the invariant. */
  lemma DisclosureKeepsInv(s: Lab, c: Context, resource: Resource)
    requires Inv(s) && s.mode == Vulnerable && Ordinary(DocumentRead, CrossTenantBodyDisclosed, resource)
    ensures Inv(Record(s, DocumentRead, c, CrossTenantBodyDisclosed, resource, Observed)
                  .(lastDisclosure := Some(Disclosure(s.sequence + 1, TenantA, TenantB, ProtectedByB, 200,
                                                      MARKER_B, Observed))))
  {
  }

  /** `c` is the context under which session `id` acts in the reachable state `s`. */
  predicate Acts(s: Lab, id: SessionId, c: Context) {
    s.WellFormed() && Inv(s) && Authenticate(s, id) == Some(c)
  }

  lemma RetainKeepsInv(s: Lab, id: SessionId, c: Context)
    requires Acts(s, id, c)
    ensures Inv(RetainOldSession(s, c).next)
  {
    if RetainOldSession(s, c).reply.Receipt? {
      RecordKeepsInv(s.(retained := s.retained + {c.session}), SessionRetain, c, Retained,
                     ResSession(c.session), Observed);
    }
  }

  lemma PrimeKeepsInv(s: Lab, id: SessionId, c: Context, d: Document)
    requires Acts(s, id, c)
    ensures Inv(PrimeCache(s, c, d).next)
  {
    if PrimeCache(s, c, d).reply.Receipt? {
      RecordKeepsInv(s.(cache := Some(CacheEntry(AEditor, true, OwnedByA, TenantA, 1))), CachePrime, c,
                     AllowedCached, ResDocument(d), Observed);
    }
  }

  lemma DowngradeKeepsInv(s: Lab, id: SessionId, c: Context, who: Principal, role: Role)
    requires Acts(s, id, c)
    ensures Inv(DowngradeRole(s, c, who, role).next)
  {
    if DowngradeRole(s, c, who, role).reply.Receipt? {
      RecordKeepsInv(Demoted(s, who), RoleDowngrade, c, Queued, ResPrincipal(who), Observed);
    }
  }

  lemma DeferKeepsInv(s: Lab, id: SessionId, c: Context, delay: int)
    requires Acts(s, id, c)
    ensures Inv(DelayJob(s, c, delay).next)
  {
    var t := DelayJob(s, c, delay).next;
    LazyProcessingIsANoOp(s);
    if DelayJob(s, c, delay).reply.Receipt? {
      RecordKeepsInv(s.(job := t.job), QueueDefer, c, Delayed, ResJob, Observed);
    }
  }

  lemma PublishKeepsInv(s: Lab, id: SessionId, c: Context, d: Document, recipient: Principal)
    requires Acts(s, id, c)
    ensures Inv(PublishReference(s, c, d, recipient).next)
  {
    if PublishReference(s, c, d, recipient).reply.Receipt? {
      RecordKeepsInv(s.(reference := s.reference.(published := true)), ReferencePublish, c,
                     OpaqueReferencePublished, ResReference, Observed);
    }
  }

  lemma ClaimKeepsInv(s: Lab, id: SessionId, c: Context)
    requires Acts(s, id, c)
    ensures Inv(ClaimReference(s, c).next)
  {
    if ClaimReference(s, c).reply.Receipt? {
      RecordKeepsInv(s.(reference := s.reference.(claimedBy := Some(c.session))), ReferenceClaim, c,
                     ForeignReferenceObtained, ResReference, Observed);
    }
  }

  lemma AdminActsBeforeExpiry(s: Lab, id: SessionId, c: Context)
    requires Acts(s, id, c) && c.principal == Admin
    ensures s.now < ADMIN_EXPIRY
  {
  }

  /** The only place where a job becomes overdue, and it is processed at once. */
  lemma TickKeepsInv(s: Lab, seconds: int)
    requires Inv(s) && s.now < ADMIN_EXPIRY && 1 <= seconds <= 300
    ensures Inv(Tick(s, seconds))
  {
  }

  lemma AdvanceKeepsInv(s: Lab, id: SessionId, c: Context, seconds: int)
    requires Acts(s, id, c) && 1 <= seconds <= 300
    ensures Inv(AdvanceClock(s, c, seconds).next)
  {
    if c.principal == Admin {
      AdminActsBeforeExpiry(s, id, c);
      TickKeepsInv(s, seconds);
      RecordKeepsInv(Tick(s, seconds), ClockAdvance, c, Advanced, ResSeconds(seconds), Observed);
    }
  }

  lemma ReadKeepsInv(s: Lab, id: SessionId, c: Context, d: Document)
    requires Acts(s, id, c)
    ensures Inv(ReadDocument(s, c, d).next)
  {
    hide OrdinaryRecords, Numbered, TimeOrdered, ObservationMatchesLog, Deadlines;
    LazyProcessingIsANoOp(s);
    RecordKeepsInv(s, DocumentRead, c, SameTenantAllowed, ResDocument(d), Observed);
    RecordKeepsInv(s, DocumentRead, c, TenantBoundaryBlocked, ResDocument(d), Observed);
    if s.mode == Vulnerable {
      DisclosureKeepsInv(s, c, ResDocument(d));
    }
  }

  lemma DecoysKeepInv(s: Lab, id: SessionId, c: Context, d: Document)
    requires Acts(s, id, c)
    ensures Inv(MaskedDecoy(s, c, d).next)
    ensures Inv(MockPolicyDecoy(s, c, d).next)
  {
    RecordKeepsInv(s, DecoyMaskedRead, c, Masked200, ResDocument(d), Observed);
    RecordKeepsInv(s, DecoyMockPolicy, c, SimulatedAllowOnly, ResDocument(d), Mocked);
  }

  lemma PerformKeepsInv(s: Lab, id: SessionId, c: Context, op: Op)
    requires Acts(s, id, c) && ValidOp(op)
    ensures Inv(Perform(s, c, op).next)
  {
    match op
    case Retain => RetainKeepsInv(s, id, c);
    case Prime(d) => PrimeKeepsInv(s, id, c, d);
    case Downgrade(who, role) => DowngradeKeepsInv(s, id, c, who, role);
    case Defer(delay) => DeferKeepsInv(s, id, c, delay);
    case Publish(d, recipient) => PublishKeepsInv(s, id, c, d, recipient);
    case Claim => ClaimKeepsInv(s, id, c);
    case Advance(seconds) => AdvanceKeepsInv(s, id, c, seconds);
    case Read(d) => ReadKeepsInv(s, id, c, d);
    case MaskedRead(d) => DecoysKeepInv(s, id, c, d);
    case MockPolicy(d) => DecoysKeepInv(s, id, c, d);
  }

  lemma StepKeepsInv(s: Lab, a: Request)
    requires s.WellFormed() && Inv(s)
    ensures Inv(Execute(s, a).next)
  {
    if Authenticate(s, a.actor).Some? {
      PerformKeepsInv(s, a.actor, Authenticate(s, a.actor).value, a.op);
    }
  }

  /** Every state of every run, in either mode, satisfies the invariant. */
  lemma {:induction false} RunKeepsInv(s: Lab, acts: seq<Request>)
    requires s.WellFormed() && Inv(s)
    ensures Inv(RunFrom(s, acts))
  {
    if acts != [] {
      RunKeepsInv(s, acts[..|acts| - 1]);
      StepKeepsInv(RunFrom(s, acts[..|acts| - 1]), acts[|acts| - 1]);
    }
  }

  /** Four of the eight facts decide the chain: an open window and a surviving stale decision
      already force the downgrade, the stale session and a job both delayed and pending. */
  lemma ChainNeedsOnlyFourFacts(s: Lab)
    requires s.WellFormed() && Inv(s)
    ensures var k := ChainState(s);
            k.Complete() <==> k.retained && k.staleCache && k.foreignReference && k.windowOpen
    ensures ChainState(s).windowOpen ==> (ChainState(s).delayed <==> ChainState(s).pending)
  {
  }

  /** The patch empties the cache at the downgrade, so the stale-decision fact is never true:
      the mode test in the read is a second, independent barrier. */
  lemma PatchedHasNoStaleDecision(acts: seq<Request>)
    ensures !ChainState(Run(Patched, acts)).staleCache
  {
    RootSatisfiesInv(Patched);
    RunKeepsInv(Canonical(Patched), acts);
  }

  /** The oracle reports a violation exactly when the log holds a disclosing record. */
  lemma OracleAgreesWithLog(mode: Mode, acts: seq<Request>)
    ensures var s := Run(mode, acts);
            OracleViolated(s.lastDisclosure) <==>
              exists i :: 0 <= i < |s.evidence| && s.evidence[i].outcome == CrossTenantBodyDisclosed
  {
    var s := Run(mode, acts);
    RootSatisfiesInv(mode);
    RunKeepsInv(Canonical(mode), acts);
    if s.lastDisclosure.Some? {
      assert s.evidence[s.lastDisclosure.value.evidenceNumber - 1].outcome == CrossTenantBodyDisclosed;
    }
  }

  /** Bounds of every run: the log is numbered and ordered in time, and the clock cannot pass
      the admin's last second plus one advance. */
  lemma RunsAreBounded(mode: Mode, acts: seq<Request>)
    ensures var s := Run(mode, acts);
            && 0 <= s.now <= 86699
            && s.sequence == |s.evidence| <= |acts|
            && Numbered(s.evidence)
            && TimeOrdered(s.evidence, s.now)
            && (s.job.Some? && s.job.value.status == Pending ==> s.now < s.job.value.dueAt)
            && ProcessDueJobs(s) == s
  {
    RootSatisfiesInv(mode);
    RunKeepsInv(Canonical(mode), acts);
    LazyProcessingIsANoOp(Run(mode, acts));
    LogGrowsByAtMostOne(mode, acts);
  }

  lemma OneRecordPerCall(s: Lab, a: Request)
    requires s.WellFormed()
    ensures |Execute(s, a).next.evidence| <= |s.evidence| + 1
  {
  }

  lemma {:induction false} LogGrowsByAtMostOne(mode: Mode, acts: seq<Request>)
    ensures |Run(mode, acts).evidence| <= |acts|
  {
    if acts != [] {
      LogGrowsByAtMostOne(mode, acts[..|acts| - 1]);
      OneRecordPerCall(Run(mode, acts[..|acts| - 1]), acts[|acts| - 1]);
    }
  }

  /** A call that fails for any reason other than the tenant boundary. */
  predicate Erasable(s: Lab, a: Request)
    requires s.WellFormed()
  {
    var r := Execute(s, a).reply;
    r.Error? && r.code != TenantBoundaryEnforced
  }

  /** A failing call changes nothing, except that a blocked read leaves one record behind. */
  lemma FailuresStutter(s: Lab, a: Request)
    requires s.WellFormed() && Inv(s)
    ensures Erasable(s, a) ==> Execute(s, a).next == s
    ensures Execute(s, a).reply == Error(403, TenantBoundaryEnforced) ==>
              && a.op.Read? && Authenticate(s, a.actor).Some?
              && Execute(s, a).next == Record(s, DocumentRead, Authenticate(s, a.actor).value,
                                              TenantBoundaryBlocked, ResDocument(a.op.document), Observed)
  {
    LazyProcessingIsANoOp(s);
  }

  /** The requests of a run that are left once the erasable calls are dropped. */
  function Kept(s: Lab, acts: seq<Request>): seq<Request>
    requires s.WellFormed()
    decreases |acts|
  {
    if acts == [] then []
    else
      var last := acts[|acts| - 1];
      var prefix := Kept(s, acts[..|acts| - 1]);
      if Erasable(RunFrom(s, acts[..|acts| - 1]), last) then prefix else prefix + [last]
  }

  /** Erasing the other failed calls changes neither the state reached nor what is kept. */
  lemma {:induction false} ErasureKeepsTheState(s: Lab, acts: seq<Request>)
    requires s.WellFormed() && Inv(s)
    ensures RunFrom(s, Kept(s, acts)) == RunFrom(s, acts)
    ensures Kept(s, Kept(s, acts)) == Kept(s, acts)
  {
    if acts != [] {
      var init, last := acts[..|acts| - 1], acts[|acts| - 1];
      ErasureKeepsTheState(s, init);
      RunKeepsInv(s, init);
      FailuresStutter(RunFrom(s, init), last);
      var kept := Kept(s, init);
      assert (kept + [last])[..|kept + [last]| - 1] == kept;
    }
  }
}

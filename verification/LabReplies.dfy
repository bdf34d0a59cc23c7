/** What every request is answered, and what it leaves in the log, decided by the few facts that
    matter in a reachable state; and, on the request list alone, who is ever handed which text. */
module LabReplies {
  import opened Wrappers
  import opened LabModel
  import opened LabInvariants
  import opened LabHistory

  const TEXT_OF_A := "SYNTHETIC_TENANT_A_DOCUMENT"
  const TEXT_OF_B := "SYNTHETIC_TENANT_B_MARKER_7F3A"

  lemma TextsDiffer()
    ensures TEXT_OF_A != TEXT_OF_B
  {
    assert TEXT_OF_A[17] == 'A' && TEXT_OF_B[17] == 'B';
  }

  /** The facts that let the old session of a vulnerable lab cross the boundary. */
  predicate MayCross(s: Lab) {
    && s.mode == Vulnerable && AOld in s.retained && s.cache.Some? && s.reference.claimedBy == Some(AOld)
    && s.downgradedAt.Some? && s.downgradedAt.value + 60 <= s.now < s.downgradedAt.value + 180
  }

  function ReadAnswer(s: Lab, a: Request): Reply
    requires a.op.Read?
  {
    var n := s.sequence + 1;
    if a.op.document == OwnedByA && a.actor in {AOld, AFresh} then DocumentBody(OwnedByA, TenantA, TEXT_OF_A, n)
    else if a == Action(BSession, Read(ProtectedByB)) || (a == Action(AOld, Read(ProtectedByB)) && MayCross(s)) then
      DocumentBody(ProtectedByB, TenantB, TEXT_OF_B, n)
    else Error(403, TenantBoundaryEnforced)
  }

  function DeferAnswer(s: Lab): Reply {
    if s.downgradedAt.None? then Error(409, JobNotCreated)
    else if s.job.Some? && s.job.value.delayed && s.now < s.downgradedAt.value + 240 then Error(409, JobAlreadyDelayed)
    else if s.now < s.downgradedAt.value + 30 then Receipt(s.sequence + 1, QueueDefer, Delayed, s.now)
    else Error(409, JobNotPending)
  }

  /** The answer to a request. Only the fixed four sessions, the clock and which steps succeeded
      before are looked at. */
  function Answer(s: Lab, a: Request): Reply {
    var n := s.sequence + 1;
    if !Live(s, a.actor) then Error(401, UnknownOrExpired)
    else
      match a.op
      case Retain =>
        if a.actor != AOld then Error(403, OldSessionRequired)
        else if s.downgradedAt.Some? then Error(409, RetainBeforeDowngrade)
        else if AOld in s.retained then Error(409, AlreadyRetained)
        else Receipt(n, SessionRetain, Retained, s.now)
      case Prime(d) =>
        if a.actor != AOld then Error(403, OldSessionRequired)
        else if d == ProtectedByB || s.downgradedAt.Some? then Error(403, OwnedDocumentRequired)
        else Receipt(n, CachePrime, AllowedCached, s.now)
      case Downgrade(who, role) =>
        if a.actor != AdminSession then Error(403, AdminRequired)
        else if (who, role) != (AEditor, ViewerRole) then Error(422, CanonicalDowngradeOnly)
        else if s.downgradedAt.Some? then Error(409, AlreadyDowngraded)
        else Receipt(n, RoleDowngrade, Queued, s.now)
      case Defer(_) => if a.actor != AdminSession then Error(403, AdminRequired) else DeferAnswer(s)
      case Publish(d, recipient) =>
        if a.actor != BSession then Error(403, TenantBViewerRequired)
        else if (d, recipient) != (ProtectedByB, AEditor) then Error(422, CanonicalReferenceOnly)
        else if s.reference.published then Error(409, ReferenceAlreadyPublished)
        else Receipt(n, ReferencePublish, OpaqueReferencePublished, s.now)
      case Claim =>
        if a.actor !in {AOld, AFresh} then Error(403, RecipientRequired)
        else if !s.reference.published then Error(409, ReferenceNotPublished)
        else if s.reference.claimedBy.Some? then Error(409, ReferenceAlreadyClaimed)
        else Receipt(n, ReferenceClaim, ForeignReferenceObtained, s.now)
      case Advance(seconds) =>
        if a.actor != AdminSession then Error(403, AdminRequired)
        else Receipt(n, ClockAdvance, Advanced, s.now + seconds)
      case Read(_) => ReadAnswer(s, a)
      case MaskedRead(d) => MaskedBody(d, n)
      case MockPolicy(d) => MockDecision(d, n)
  }

  // ---------- The log ----------

  function Holder(id: SessionId): Principal {
    match id
    case AOld => AEditor
    case AFresh => AEditor
    case BSession => BViewer
    case AdminSession => Admin
  }

  function KindOf(op: Op): ActionType {
    match op
    case Retain => SessionRetain
    case Prime(_) => CachePrime
    case Downgrade(_, _) => RoleDowngrade
    case Defer(_) => QueueDefer
    case Publish(_, _) => ReferencePublish
    case Claim => ReferenceClaim
    case Advance(_) => ClockAdvance
    case Read(_) => DocumentRead
    case MaskedRead(_) => DecoyMaskedRead
    case MockPolicy(_) => DecoyMockPolicy
  }

  function Subject(a: Request): Resource {
    match a.op
    case Retain => ResSession(a.actor)
    case Prime(d) => ResDocument(d)
    case Downgrade(who, _) => ResPrincipal(who)
    case Defer(_) => ResJob
    case Publish(_, _) => ResReference
    case Claim => ResReference
    case Advance(seconds) => ResSeconds(seconds)
    case Read(d) => ResDocument(d)
    case MaskedRead(d) => ResDocument(d)
    case MockPolicy(d) => ResDocument(d)
  }

  /** What a request leaves in the log, given its answer: nothing if it was refused anywhere but
      at the tenant boundary. */
  function Trace(s: Lab, a: Request, r: Reply): seq<Evidence> {
    var n := s.sequence + 1;
    var record := (outcome, at, provenance) =>
      [Evidence(n, n, KindOf(a.op), Holder(a.actor), outcome, at, Subject(a), provenance)];
    match r
    case Receipt(_, _, outcome, at) => record(outcome, at, Observed)
    case DocumentBody(_, owner, _, _) =>
      record(if a.actor == BSession || owner == TenantA then SameTenantAllowed else CrossTenantBodyDisclosed, s.now, Observed)
    case MaskedBody(_, _) => record(Masked200, s.now, Observed)
    case MockDecision(_, _) => record(SimulatedAllowOnly, s.now, Mocked)
    case Error(_, code) => if code == TenantBoundaryEnforced then record(TenantBoundaryBlocked, s.now, Observed) else []
  }

  ghost predicate AnswersAs(s: Lab, a: Request)
    requires s.WellFormed()
  {
    Execute(s, a).reply == Answer(s, a) && Execute(s, a).next.evidence == s.evidence + Trace(s, a, Answer(s, a))
  }

  lemma ReadsAnswer(s: Lab, a: Request)
    requires s.WellFormed() && Inv(s) && a.op.Read?
    ensures AnswersAs(s, a)
  {
    hide OrdinaryRecords, Numbered, TimeOrdered, ObservationMatchesLog;
    WhoActs(s, a.actor);
    LazyProcessingIsANoOp(s);
    ChainNeedsOnlyFourFacts(s);
  }

  lemma DefersAnswer(s: Lab, a: Request)
    requires s.WellFormed() && Inv(s) && a.op.Defer?
    ensures AnswersAs(s, a)
  {
    hide OrdinaryRecords, Numbered, TimeOrdered, ObservationMatchesLog;
    WhoActs(s, a.actor);
    LazyProcessingIsANoOp(s);
  }

  predicate TakesPartInTheChain(op: Op) { op.Retain? || op.Prime? || op.Publish? || op.Claim? }

  lemma ChainStepsAnswer(s: Lab, a: Request)
    requires s.WellFormed() && Inv(s) && TakesPartInTheChain(a.op)
    ensures AnswersAs(s, a)
  {
    hide OrdinaryRecords, Numbered, TimeOrdered, ObservationMatchesLog, Deadlines;
    WhoActs(s, a.actor);
  }

  lemma OthersAnswer(s: Lab, a: Request)
    requires s.WellFormed() && Inv(s) && !a.op.Read? && !a.op.Defer? && !TakesPartInTheChain(a.op)
    ensures AnswersAs(s, a)
  {
    hide OrdinaryRecords, Numbered, TimeOrdered, ObservationMatchesLog, Deadlines, CacheAndReference;
    WhoActs(s, a.actor);
  }

  /** In every reachable state, of either mode, every request is answered and logged as tabled. */
  lemma AnswersAreExact(mode: Mode, h: seq<Request>, a: Request)
    ensures var s := Run(mode, h);
            Execute(s, a).reply == Answer(s, a) && Execute(s, a).next.evidence == s.evidence + Trace(s, a, Answer(s, a))
  {
    hide Run, Execute, Inv, Answer, Trace, Canonical;
    var s := Run(mode, h);
    Reached(mode, h);
    if a.op.Read? { ReadsAnswer(s, a); }
    else if a.op.Defer? { DefersAnswer(s, a); }
    else if TakesPartInTheChain(a.op) { ChainStepsAnswer(s, a); }
    else { OthersAnswer(s, a); }
  }

  lemma Reached(mode: Mode, h: seq<Request>)
    ensures Run(mode, h).WellFormed() && Inv(Run(mode, h))
  {
    RootSatisfiesInv(mode);
    RunKeepsInv(Canonical(mode), h);
  }

  /** Three of the lab's guards are never what refuses a request: an earlier guard always is. */
  lemma ShadowedGuards(mode: Mode, h: seq<Request>, a: Request)
    ensures var r := Execute(Run(mode, h), a).reply;
            r.Error? ==> r.code !in {PrimeBeforeDowngrade, CanonicalDelayOnly, DowngradeNotRecorded}
  {
    hide Execute, Run;
    AnswersAreExact(mode, h, a);
  }

  /** The eight facts of the chain in every run, told of the downgrade time and the steps taken: the
      role and the old session's generation are stale exactly from the downgrade on, and a cached
      decision that survives it is stale. */
  lemma ChainFacts(mode: Mode, h: seq<Request>)
    ensures var s := Run(mode, h);
            var downgraded := s.downgradedAt != None;
            var delayed := s.job.Some? && s.job.value.delayed;
            (downgraded <==> s.job.Some?) &&
            ChainState(s) == Chain(AOld in s.retained, downgraded, delayed,
                                   downgraded && s.now < s.downgradedAt.value + (if delayed then 240 else 30),
                                   downgraded && s.cache != None, s.reference.claimedBy == Some(AOld),
                                   downgraded && s.downgradedAt.value + 60 <= s.now < s.downgradedAt.value + 180, downgraded)
  {
    hide Run, OrdinaryRecords, Numbered, TimeOrdered, ObservationMatchesLog;
    Reached(mode, h);
  }

  // ---------- Who is handed which text ----------

  lemma {:induction false} ClockOfRun(mode: Mode, h: seq<Request>, n: nat)
    requires n <= |h|
    ensures Run(mode, h[..n]).now == ClockAt(h, n)
  {
    if n > 0 {
      ClockOfRun(mode, h, n - 1);
      assert h[..n][..n - 1] == h[..n - 1];
      Reached(mode, h[..n - 1]);
      ClockEffect(Run(mode, h[..n - 1]), h[n - 1]);
    }
  }

  /** The protected text is handed out in exactly two ways: to tenant B's own live session reading
      its own document, or, in a vulnerable lab, to the old session at a moment that meets the
      condition of ExactDisclosure. The condition is on the request list alone. */
  lemma WhoGetsTheMarker(mode: Mode, h: seq<Request>, a: Request)
    ensures var r := Execute(Run(mode, h), a).reply;
            (r.DocumentBody? && r.body == "SYNTHETIC_TENANT_B_MARKER_7F3A") <==>
              || (a == Action(BSession, Read(ProtectedByB)) && ClockAt(h, |h|) < 3600)
              || (mode == Vulnerable && a == Action(AOld, Read(ProtectedByB)) && ReadyToDisclose(h, |h|))
  {
    hide Execute, Run, Answer, ReadyToDisclose, ClockAt;
    assert h[..|h|] == h;
    AnswersAreExact(mode, h, a);
    ClockOfRun(mode, h, |h|);
    TextsDiffer();
    if mode == Vulnerable { ExactDisclosure(h, |h|); }
    AnswerWithMarker(Run(mode, h), a);
  }

  lemma AnswerWithMarker(s: Lab, a: Request)
    ensures var r := Answer(s, a);
            (r.DocumentBody? && r.body == TEXT_OF_B) <==>
              || (a == Action(BSession, Read(ProtectedByB)) && s.now < 3600)
              || (a == Action(AOld, Read(ProtectedByB)) && r.DocumentBody?)
    ensures a == Action(AOld, Read(ProtectedByB)) && Answer(s, a).DocumentBody? ==> s.mode == Vulnerable
  {
    TextsDiffer();
  }

  /** A live session that reads its own tenant's document is always handed that document's text,
      under its own tenant's name. */
  lemma OwnersReadTheirOwn(mode: Mode, h: seq<Request>)
    ensures var s := Run(mode, h);
            && var n := s.sequence + 1;
            && (s.now < 3600 ==>
                  && Execute(s, Action(AOld, Read(OwnedByA))).reply
                     == DocumentBody(OwnedByA, TenantA, "SYNTHETIC_TENANT_A_DOCUMENT", n)
                  && Execute(s, Action(BSession, Read(ProtectedByB))).reply
                     == DocumentBody(ProtectedByB, TenantB, "SYNTHETIC_TENANT_B_MARKER_7F3A", n))
            && (s.downgradedAt.Some? && s.now < s.downgradedAt.value + 3600 ==>
                  Execute(s, Action(AFresh, Read(OwnedByA))).reply
                  == DocumentBody(OwnedByA, TenantA, "SYNTHETIC_TENANT_A_DOCUMENT", n))
  {
    hide Execute, Run;
    AnswersAreExact(mode, h, Action(AOld, Read(OwnedByA)));
    AnswersAreExact(mode, h, Action(BSession, Read(ProtectedByB)));
    AnswersAreExact(mode, h, Action(AFresh, Read(OwnedByA)));
  }

  /** The oracle says VIOLATED exactly on an observed 200 answer with tenant B's text and document
      across two different tenants. */
  lemma OracleMeans(o: Option<Disclosure>)
    ensures OracleViolated(o) <==>
              exists n, requester, owner ::
                requester != owner && o == Some(Disclosure(n, requester, owner, ProtectedByB, 200, TEXT_OF_B, Observed))
  {
    if OracleViolated(o) {
      assert o == Some(Disclosure(o.value.evidenceNumber, o.value.requester, o.value.owner, ProtectedByB, 200, TEXT_OF_B, Observed));
    }
  }
}

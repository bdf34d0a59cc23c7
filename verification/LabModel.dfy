/** The multi-tenant lab as a value: its state record, its ten typed actions and the step
    each one takes. The mutable objects of the source are in LabService.dfy; every method
    there is proved to compute the functions of this module.

    Times are seconds relative to the canonical epoch. Enumerations of one member (the queue
    job id, the reference id) carry no information and are left out of the records. */
module LabModel {
  import opened Wrappers

  datatype Mode = Vulnerable | Patched
  datatype Tenant = TenantA | TenantB | Platform
  datatype Principal = AEditor | BViewer | Admin
  datatype Role = EditorRole | ViewerRole | AdminRole
  datatype Document = OwnedByA | ProtectedByB
  datatype SessionId = AOld | AFresh | BSession | AdminSession
  datatype Provenance = Observed | Mocked
  datatype JobStatus = Pending | Completed

  type Time = int

  datatype PrincipalRecord = PrincipalRecord(tenant: Tenant, role: Role)
  datatype Session = Session(principal: Principal, issuedRole: Role, generation: int,
                             issuedAt: Time, expiresAt: Time)
  datatype CacheEntry = CacheEntry(principal: Principal, allowed: bool, primed: Document,
                                   scope: Tenant, generation: int)
  datatype Job = Job(principal: Principal, dueAt: Time, status: JobStatus, delayed: bool)
  datatype Reference = Reference(document: Document, publisher: Principal, recipient: Principal,
                                 published: bool, claimedBy: Option<SessionId>)

  datatype ActionType =
    | SessionRetain | CachePrime | RoleDowngrade | QueueDefer | ReferencePublish
    | ReferenceClaim | ClockAdvance | DocumentRead | DecoyMaskedRead | DecoyMockPolicy
    | OtherType(typeText: string)
  datatype Outcome =
    | Retained | AllowedCached | Queued | Delayed | OpaqueReferencePublished
    | ForeignReferenceObtained | Advanced | SameTenantAllowed | CrossTenantBodyDisclosed
    | TenantBoundaryBlocked | Masked200 | SimulatedAllowOnly
    | OtherOutcome(outcomeText: string)
  datatype Resource =
    | ResSession(session: SessionId) | ResDocument(document: Document)
    | ResPrincipal(principal: Principal) | ResJob | ResReference | ResSeconds(seconds: int)
    | ResOther(resourceText: string)

  /** One evidence record. `actionNumber` and `evidenceNumber` are the numbers printed in the
      identifiers `act-NNN` and `ev-NNN`; the state machine always writes the same one. */
  datatype Evidence = Evidence(actionNumber: int, evidenceNumber: int, kind: ActionType,
                               actor: Principal, outcome: Outcome, at: Time, resource: Resource,
                               provenance: Provenance)

  datatype Disclosure = Disclosure(evidenceNumber: int, requester: Tenant, owner: Tenant,
                                   document: Document, status: int, body: string,
                                   provenance: Provenance)

  datatype Lab = Lab(
    mode: Mode,
    now: Time,
    sequence: int,
    policyGeneration: int,
    principals: map<Principal, PrincipalRecord>,
    sessions: map<SessionId, Session>,
    cache: Option<CacheEntry>,
    job: Option<Job>,
    reference: Reference,
    retained: set<SessionId>,
    downgradedAt: Option<Time>,
    opensAt: Option<Time>,
    closesAt: Option<Time>,
    evidence: seq<Evidence>,
    lastDisclosure: Option<Disclosure>)
  {
    /** What the dictionary lookups of the source need: every principal, and the old session. */
    predicate WellFormed() {
      && AEditor in principals && BViewer in principals && Admin in principals
      && AOld in sessions
    }

    function PrincipalOf(p: Principal): PrincipalRecord
      requires WellFormed()
    {
      assert p.AEditor? || p.BViewer? || p.Admin?;
      principals[p]
    }
  }

  datatype Context = Context(session: SessionId, principal: Principal, tenant: Tenant,
                             issuedRole: Role, generation: int)

  datatype ErrorCode =
    | UnknownOrExpired | AdminRequired | OldSessionRequired | RetainBeforeDowngrade
    | AlreadyRetained | OwnedDocumentRequired | PrimeBeforeDowngrade | CanonicalDowngradeOnly
    | AlreadyDowngraded | CanonicalDelayOnly | JobNotCreated | JobNotPending | JobAlreadyDelayed
    | DowngradeNotRecorded | TenantBViewerRequired | CanonicalReferenceOnly
    | ReferenceAlreadyPublished | RecipientRequired | ReferenceNotPublished
    | ReferenceAlreadyClaimed | TenantBoundaryEnforced

  datatype Reply =
    | Receipt(number: int, kind: ActionType, outcome: Outcome, at: Time)
    | DocumentBody(document: Document, owner: Tenant, body: string, evidenceNumber: int)
    | MaskedBody(document: Document, evidenceNumber: int)
    | MockDecision(document: Document, evidenceNumber: int)
    | Error(status: int, code: ErrorCode)

  datatype Step = Step(next: Lab, reply: Reply)

  datatype Op =
    | Retain
    | Prime(document: Document)
    | Downgrade(who: Principal, role: Role)
    | Defer(delay: int)
    | Publish(document: Document, recipient: Principal)
    | Claim
    | Advance(seconds: int)
    | Read(document: Document)
    | MaskedRead(document: Document)
    | MockPolicy(document: Document)

  datatype Action = Action(actor: SessionId, op: Op)

  /** The request models fix the delay at 240 seconds and bound a clock advance by 1..300. */
  predicate ValidOp(op: Op) {
    && (op.Defer? ==> op.delay == 240)
    && (op.Advance? ==> 1 <= op.seconds <= 300)
  }

  type Request = a: Action | ValidOp(a.op) witness Action(AOld, Retain)

  const BODY_A := "SYNTHETIC_TENANT_A_DOCUMENT"
  const MARKER_B := "SYNTHETIC_TENANT_B_MARKER_7F3A"

  function Owner(d: Document): Tenant {
    match d case OwnedByA => TenantA case ProtectedByB => TenantB
  }

  function Body(d: Document): string {
    match d case OwnedByA => BODY_A case ProtectedByB => MARKER_B
  }

  const FRESH_REFERENCE := Reference(ProtectedByB, BViewer, AEditor, false, None)

  function OldSession(): Session { Session(AEditor, EditorRole, 1, -300, 3600) }
  function TenantBSession(): Session { Session(BViewer, ViewerRole, 1, -120, 3600) }
  function LabAdminSession(): Session { Session(Admin, AdminRole, 1, -600, 86400) }

  function Canonical(mode: Mode): (s: Lab)
    ensures s.WellFormed()
  {
    Lab(mode, 0, 0, 1,
        map[AEditor := PrincipalRecord(TenantA, EditorRole),
            BViewer := PrincipalRecord(TenantB, ViewerRole),
            Admin := PrincipalRecord(Platform, AdminRole)],
        map[AOld := OldSession(), BSession := TenantBSession(), AdminSession := LabAdminSession()],
        None, None, FRESH_REFERENCE, {}, None, None, None, [], None)
  }

  function Authenticate(s: Lab, id: SessionId): Option<Context>
    requires s.WellFormed()
  {
    if id !in s.sessions || s.now >= s.sessions[id].expiresAt then None
    else
      var session := s.sessions[id];
      Some(Context(id, session.principal, s.PrincipalOf(session.principal).tenant,
                   session.issuedRole, session.generation))
  }

  function Record(s: Lab, kind: ActionType, c: Context, outcome: Outcome, resource: Resource,
                  provenance: Provenance): Lab
  {
    var n := s.sequence + 1;
    s.(sequence := n,
       evidence := s.evidence + [Evidence(n, n, kind, c.principal, outcome, s.now, resource, provenance)])
  }

  /** Appends one observed record and answers with its receipt. */
  function Recorded(s: Lab, kind: ActionType, c: Context, outcome: Outcome, resource: Resource): Step {
    Step(Record(s, kind, c, outcome, resource, Observed), Receipt(s.sequence + 1, kind, outcome, s.now))
  }

  function Refused(s: Lab, status: int, code: ErrorCode): Step { Step(s, Error(status, code)) }

  /** Completes a pending job whose deadline has passed; completion drops the cached decision. */
  function ProcessDueJobs(s: Lab): Lab {
    if s.job.Some? && s.job.value.status == Pending && s.now >= s.job.value.dueAt
    then s.(job := Some(s.job.value.(status := Completed)), cache := None)
    else s
  }

  function RetainOldSession(s: Lab, c: Context): Step {
    if c.session != AOld then Refused(s, 403, OldSessionRequired)
    else if s.downgradedAt.Some? then Refused(s, 409, RetainBeforeDowngrade)
    else if c.session in s.retained then Refused(s, 409, AlreadyRetained)
    else Recorded(s.(retained := s.retained + {c.session}), SessionRetain, c, Retained, ResSession(c.session))
  }

  function PrimeCache(s: Lab, c: Context, d: Document): Step
    requires s.WellFormed()
  {
    var current := s.PrincipalOf(c.principal);
    if c.session != AOld then Refused(s, 403, OldSessionRequired)
    else if current.role != EditorRole || Owner(d) != current.tenant then
      Refused(s, 403, OwnedDocumentRequired)
    else if s.downgradedAt.Some? then Refused(s, 409, PrimeBeforeDowngrade)
    else
      Recorded(s.(cache := Some(CacheEntry(c.principal, true, d, current.tenant, s.policyGeneration))),
               CachePrime, c, AllowedCached, ResDocument(d))
  }

  /** What the downgrade changes besides the log: both records of the role, the deadlines of the
      replay window, the queued job and the fresh session. The patch drops the cached decision. */
  function Demoted(s: Lab, who: Principal): Lab
    requires s.WellFormed()
  {
    Lab(s.mode, s.now, s.sequence, 2,
        s.principals[who := PrincipalRecord(s.PrincipalOf(who).tenant, ViewerRole)],
        s.sessions[AFresh := Session(who, ViewerRole, 2, s.now, s.now + 3600)],
        if s.mode == Patched then None else s.cache,
        Some(Job(who, s.now + 30, Pending, false)),
        s.reference, s.retained, Some(s.now), Some(s.now + 60), Some(s.now + 180),
        s.evidence, s.lastDisclosure)
  }

  function DowngradeRole(s: Lab, c: Context, who: Principal, role: Role): Step
    requires s.WellFormed()
  {
    if c.principal != Admin then Refused(s, 403, AdminRequired)
    else if who != AEditor || role != ViewerRole then Refused(s, 422, CanonicalDowngradeOnly)
    else if s.PrincipalOf(who).role != EditorRole || s.downgradedAt.Some? then
      Refused(s, 409, AlreadyDowngraded)
    else Recorded(Demoted(s, who), RoleDowngrade, c, Queued, ResPrincipal(who))
  }

  function DelayJob(s: Lab, c: Context, delay: int): Step {
    if c.principal != Admin then Refused(s, 403, AdminRequired)
    else if delay != 240 then Refused(s, 422, CanonicalDelayOnly)
    else if s.job.None? then Refused(s, 409, JobNotCreated)
    else
      var t := ProcessDueJobs(s);
      if t.job.value.status != Pending then Refused(t, 409, JobNotPending)
      else if t.job.value.delayed then Refused(t, 409, JobAlreadyDelayed)
      else if t.downgradedAt.None? then Refused(t, 409, DowngradeNotRecorded)
      else
        Recorded(t.(job := Some(t.job.value.(dueAt := t.downgradedAt.value + delay, delayed := true))),
                 QueueDefer, c, Delayed, ResJob)
  }

  function PublishReference(s: Lab, c: Context, d: Document, recipient: Principal): Step {
    if c.principal != BViewer then Refused(s, 403, TenantBViewerRequired)
    else if d != s.reference.document || Owner(d) != c.tenant || recipient != s.reference.recipient then
      Refused(s, 422, CanonicalReferenceOnly)
    else if s.reference.published then Refused(s, 409, ReferenceAlreadyPublished)
    else
      Recorded(s.(reference := s.reference.(published := true)),
               ReferencePublish, c, OpaqueReferencePublished, ResReference)
  }

  function ClaimReference(s: Lab, c: Context): Step {
    if c.principal != s.reference.recipient then Refused(s, 403, RecipientRequired)
    else if !s.reference.published then Refused(s, 409, ReferenceNotPublished)
    else if s.reference.claimedBy.Some? then Refused(s, 409, ReferenceAlreadyClaimed)
    else
      Recorded(s.(reference := s.reference.(claimedBy := Some(c.session))),
               ReferenceClaim, c, ForeignReferenceObtained, ResReference)
  }

  /** The clock moves and overdue jobs are completed at once. */
  function Tick(s: Lab, seconds: int): Lab { ProcessDueJobs(s.(now := s.now + seconds)) }

  function AdvanceClock(s: Lab, c: Context, seconds: int): Step {
    if c.principal != Admin then Refused(s, 403, AdminRequired)
    else Recorded(Tick(s, seconds), ClockAdvance, c, Advanced, ResSeconds(seconds))
  }

  /** The eight facts the cross-tenant read looks at. */
  datatype Chain = Chain(retained: bool, downgraded: bool, delayed: bool, pending: bool,
                         staleCache: bool, foreignReference: bool, windowOpen: bool,
                         generationStale: bool)
  {
    predicate Complete() {
      retained && downgraded && delayed && pending && staleCache && foreignReference &&
      windowOpen && generationStale
    }
  }

  function ChainState(s: Lab): Chain
    requires s.WellFormed()
  {
    Chain(
      AOld in s.retained,
      s.downgradedAt.Some? && s.PrincipalOf(AEditor).role == ViewerRole,
      s.job.Some? && s.job.value.delayed,
      s.job.Some? && s.job.value.status == Pending,
      s.cache.Some? && s.cache.value.allowed && s.cache.value.principal == AEditor &&
        s.cache.value.generation < s.policyGeneration,
      s.reference.published && s.reference.claimedBy == Some(AOld),
      s.opensAt.Some? && s.closesAt.Some? && s.opensAt.value <= s.now < s.closesAt.value,
      s.sessions[AOld].generation < s.policyGeneration)
  }

  function ReadDocument(s: Lab, c: Context, d: Document): Step
    requires s.WellFormed()
  {
    var t := ProcessDueJobs(s);
    var n := t.sequence + 1;
    if Owner(d) == c.tenant then
      Step(Record(t, DocumentRead, c, SameTenantAllowed, ResDocument(d), Observed),
           DocumentBody(d, Owner(d), Body(d), n))
    else if t.mode == Vulnerable && c.session == AOld && ChainState(t).Complete() then
      Step(Record(t, DocumentRead, c, CrossTenantBodyDisclosed, ResDocument(d), Observed)
             .(lastDisclosure := Some(Disclosure(n, c.tenant, Owner(d), d, 200, Body(d), Observed))),
           DocumentBody(d, Owner(d), Body(d), n))
    else
      Refused(Record(t, DocumentRead, c, TenantBoundaryBlocked, ResDocument(d), Observed),
              403, TenantBoundaryEnforced)
  }

  function MaskedDecoy(s: Lab, c: Context, d: Document): Step {
    Step(Record(s, DecoyMaskedRead, c, Masked200, ResDocument(d), Observed), MaskedBody(d, s.sequence + 1))
  }

  function MockPolicyDecoy(s: Lab, c: Context, d: Document): Step {
    Step(Record(s, DecoyMockPolicy, c, SimulatedAllowOnly, ResDocument(d), Mocked), MockDecision(d, s.sequence + 1))
  }

  function Perform(s: Lab, c: Context, op: Op): Step
    requires s.WellFormed()
  {
    match op
    case Retain => RetainOldSession(s, c)
    case Prime(d) => PrimeCache(s, c, d)
    case Downgrade(who, role) => DowngradeRole(s, c, who, role)
    case Defer(delay) => DelayJob(s, c, delay)
    case Publish(d, recipient) => PublishReference(s, c, d, recipient)
    case Claim => ClaimReference(s, c)
    case Advance(seconds) => AdvanceClock(s, c, seconds)
    case Read(d) => ReadDocument(s, c, d)
    case MaskedRead(d) => MaskedDecoy(s, c, d)
    case MockPolicy(d) => MockPolicyDecoy(s, c, d)
  }

  /** One call of the service: authenticate the bearer, then perform the operation. */
  function Execute(s: Lab, a: Action): (r: Step)
    requires s.WellFormed()
    ensures r.next.WellFormed() && r.next.mode == s.mode
  {
    match Authenticate(s, a.actor)
    case None => Refused(s, 401, UnknownOrExpired)
    case Some(c) => Perform(s, c, a.op)
  }

  /** The state after a list of requests. */
  function RunFrom(s: Lab, acts: seq<Request>): (r: Lab)
    requires s.WellFormed()
    ensures r.WellFormed() && r.mode == s.mode
    decreases |acts|
  {
    if acts == [] then s
    else
      var before := RunFrom(s, acts[..|acts| - 1]);
      Execute(before, acts[|acts| - 1]).next
  }

  function Run(mode: Mode, acts: seq<Request>): (r: Lab)
    ensures r.WellFormed() && r.mode == mode
  {
    RunFrom(Canonical(mode), acts)
  }

  /** The verdict of the disclosure oracle: all five runtime checks pass. */
  predicate OracleViolated(o: Option<Disclosure>) {
    && o.Some?
    && o.value.status == 200
    && o.value.requester != o.value.owner
    && o.value.document == ProtectedByB
    && o.value.body == MARKER_B
    && o.value.provenance == Observed
  }
}

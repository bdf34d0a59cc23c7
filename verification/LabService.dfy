/** The mutable lab and the service in front of it. Each method updates the fields in place and
    is proved to compute the corresponding function of LabModel on the lab's value. */
module LabService {
  import opened Wrappers
  import opened LabModel

  class LabState {
    const mode: Mode
    var now: Time
    var sequence: int
    var policyGeneration: int
    var principals: map<Principal, PrincipalRecord>
    var sessions: map<SessionId, Session>
    var cache: Option<CacheEntry>
    var job: Option<Job>
    var reference: Reference
    var retained: set<SessionId>
    var downgradedAt: Option<Time>
    var opensAt: Option<Time>
    var closesAt: Option<Time>
    var evidence: seq<Evidence>
    var lastDisclosure: Option<Disclosure>

    function View(): Lab
      reads this
    {
      Lab(mode, now, sequence, policyGeneration, principals, sessions, cache, job, reference, retained,
          downgradedAt, opensAt, closesAt, evidence, lastDisclosure)
    }

    constructor (mode: Mode)
      ensures View() == Canonical(mode) && View().WellFormed()
    {
      this.mode := mode;
      now, sequence, policyGeneration := 0, 0, 1;
      principals := map[AEditor := PrincipalRecord(TenantA, EditorRole),
                        BViewer := PrincipalRecord(TenantB, ViewerRole),
                        Admin := PrincipalRecord(Platform, AdminRole)];
      sessions := map[AOld := OldSession(), BSession := TenantBSession(), AdminSession := LabAdminSession()];
      cache, job, reference, retained := None, None, FRESH_REFERENCE, {};
      downgradedAt, opensAt, closesAt := None, None, None;
      evidence, lastDisclosure := [], None;
    }

    method AuthenticateBearer(id: SessionId) returns (c: Option<Context>)
      requires View().WellFormed()
      ensures c == Authenticate(View(), id)
    {
      if id !in sessions {
        return None;
      }
      var session := sessions[id];
      if now >= session.expiresAt {
        return None;
      }
      var tenant := View().PrincipalOf(session.principal).tenant;
      return Some(Context(id, session.principal, tenant, session.issuedRole, session.generation));
    }

    method Append(kind: ActionType, c: Context, outcome: Outcome, resource: Resource, provenance: Provenance)
      modifies this`sequence, this`evidence
      ensures View() == Record(old(View()), kind, c, outcome, resource, provenance)
    {
      sequence := sequence + 1;
      evidence := evidence + [Evidence(sequence, sequence, kind, c.principal, outcome, now, resource, provenance)];
    }

    method ProcessOverdue()
      modifies this`job, this`cache
      ensures View() == ProcessDueJobs(old(View()))
    {
      if job.Some? && job.value.status == Pending && now >= job.value.dueAt {
        job := Some(job.value.(status := Completed));
        cache := None;
      }
    }

    method RetainSession(c: Context) returns (r: Reply)
      modifies this
      ensures Step(View(), r) == RetainOldSession(old(View()), c)
    {
      if c.session != AOld {
        return Error(403, OldSessionRequired);
      }
      if downgradedAt.Some? {
        return Error(409, RetainBeforeDowngrade);
      }
      if c.session in retained {
        return Error(409, AlreadyRetained);
      }
      retained := retained + {c.session};
      Append(SessionRetain, c, Retained, ResSession(c.session), Observed);
      r := Receipt(sequence, SessionRetain, Retained, now);
    }

    method PrimeAuthorizationCache(c: Context, d: Document) returns (r: Reply)
      requires View().WellFormed()
      modifies this
      ensures Step(View(), r) == PrimeCache(old(View()), c, d)
    {
      var current := View().PrincipalOf(c.principal);
      if c.session != AOld {
        return Error(403, OldSessionRequired);
      }
      if current.role != EditorRole || Owner(d) != current.tenant {
        return Error(403, OwnedDocumentRequired);
      }
      if downgradedAt.Some? {
        return Error(409, PrimeBeforeDowngrade);
      }
      cache := Some(CacheEntry(c.principal, true, d, current.tenant, policyGeneration));
      Append(CachePrime, c, AllowedCached, ResDocument(d), Observed);
      r := Receipt(sequence, CachePrime, AllowedCached, now);
    }

    method OpenReplayWindow(who: Principal)
      modifies this`downgradedAt, this`opensAt, this`closesAt, this`job
      ensures downgradedAt == Some(now) && opensAt == Some(now + 60) && closesAt == Some(now + 180)
      ensures job == Some(Job(who, now + 30, Pending, false))
    {
      downgradedAt := Some(now);
      opensAt := Some(now + 60);
      closesAt := Some(now + 180);
      job := Some(Job(who, now + 30, Pending, false));
    }

    method Demote(who: Principal)
      requires View().WellFormed()
      modifies this
      ensures View() == Demoted(old(View()), who)
    {
      var tenant := View().PrincipalOf(who).tenant;
      policyGeneration := 2;
      principals := principals[who := PrincipalRecord(tenant, ViewerRole)];
      OpenReplayWindow(who);
      sessions := sessions[AFresh := Session(who, ViewerRole, policyGeneration, now, now + 3600)];
      // The patch invalidates stale authorization decisions at once.
      if mode == Patched {
        cache := None;
      }
    }

    method Downgrade(c: Context, who: Principal, role: Role) returns (r: Reply)
      requires View().WellFormed()
      modifies this
      ensures Step(View(), r) == DowngradeRole(old(View()), c, who, role)
    {
      if c.principal != Admin {
        return Error(403, AdminRequired);
      }
      if who != AEditor || role != ViewerRole {
        return Error(422, CanonicalDowngradeOnly);
      }
      if View().PrincipalOf(who).role != EditorRole || downgradedAt.Some? {
        return Error(409, AlreadyDowngraded);
      }
      Demote(who);
      Append(RoleDowngrade, c, Queued, ResPrincipal(who), Observed);
      r := Receipt(sequence, RoleDowngrade, Queued, now);
    }

    method DelayQueueJob(c: Context, delay: int) returns (r: Reply)
      modifies this
      ensures Step(View(), r) == DelayJob(old(View()), c, delay)
    {
      if c.principal != Admin {
        return Error(403, AdminRequired);
      }
      if delay != 240 {
        return Error(422, CanonicalDelayOnly);
      }
      if job.None? {
        return Error(409, JobNotCreated);
      }
      ProcessOverdue();
      if job.value.status != Pending {
        return Error(409, JobNotPending);
      }
      if job.value.delayed {
        return Error(409, JobAlreadyDelayed);
      }
      if downgradedAt.None? {
        return Error(409, DowngradeNotRecorded);
      }
      job := Some(job.value.(dueAt := downgradedAt.value + delay, delayed := true));
      Append(QueueDefer, c, Delayed, ResJob, Observed);
      r := Receipt(sequence, QueueDefer, Delayed, now);
    }

    method Publish(c: Context, d: Document, recipient: Principal) returns (r: Reply)
      modifies this
      ensures Step(View(), r) == PublishReference(old(View()), c, d, recipient)
    {
      if c.principal != BViewer {
        return Error(403, TenantBViewerRequired);
      }
      if d != reference.document || Owner(d) != c.tenant || recipient != reference.recipient {
        return Error(422, CanonicalReferenceOnly);
      }
      if reference.published {
        return Error(409, ReferenceAlreadyPublished);
      }
      reference := reference.(published := true);
      Append(ReferencePublish, c, OpaqueReferencePublished, ResReference, Observed);
      r := Receipt(sequence, ReferencePublish, OpaqueReferencePublished, now);
    }

    method ClaimRef(c: Context) returns (r: Reply)
      modifies this
      ensures Step(View(), r) == ClaimReference(old(View()), c)
    {
      if c.principal != reference.recipient {
        return Error(403, RecipientRequired);
      }
      if !reference.published {
        return Error(409, ReferenceNotPublished);
      }
      if reference.claimedBy.Some? {
        return Error(409, ReferenceAlreadyClaimed);
      }
      reference := reference.(claimedBy := Some(c.session));
      Append(ReferenceClaim, c, ForeignReferenceObtained, ResReference, Observed);
      r := Receipt(sequence, ReferenceClaim, ForeignReferenceObtained, now);
    }

    method AdvanceBy(c: Context, seconds: int) returns (r: Reply)
      modifies this
      ensures Step(View(), r) == AdvanceClock(old(View()), c, seconds)
    {
      if c.principal != Admin {
        return Error(403, AdminRequired);
      }
      now := now + seconds;
      ProcessOverdue();
      Append(ClockAdvance, c, Advanced, ResSeconds(seconds), Observed);
      r := Receipt(sequence, ClockAdvance, Advanced, now);
    }

    method ReadDoc(c: Context, d: Document) returns (r: Reply)
      requires View().WellFormed()
      modifies this
      ensures Step(View(), r) == ReadDocument(old(View()), c, d)
    {
      ProcessOverdue();
      if Owner(d) == c.tenant {
        Append(DocumentRead, c, SameTenantAllowed, ResDocument(d), Observed);
        return DocumentBody(d, Owner(d), Body(d), sequence);
      }
      var conditions := ChainState(View());
      if mode == Vulnerable && c.session == AOld && conditions.Complete() {
        Append(DocumentRead, c, CrossTenantBodyDisclosed, ResDocument(d), Observed);
        lastDisclosure := Some(Disclosure(sequence, c.tenant, Owner(d), d, 200, Body(d), Observed));
        return DocumentBody(d, Owner(d), Body(d), sequence);
      }
      Append(DocumentRead, c, TenantBoundaryBlocked, ResDocument(d), Observed);
      r := Error(403, TenantBoundaryEnforced);
    }

    method ReadMasked(c: Context, d: Document) returns (r: Reply)
      modifies this
      ensures Step(View(), r) == MaskedDecoy(old(View()), c, d)
    {
      Append(DecoyMaskedRead, c, Masked200, ResDocument(d), Observed);
      r := MaskedBody(d, sequence);
    }

    method ReadMockPolicy(c: Context, d: Document) returns (r: Reply)
      modifies this
      ensures Step(View(), r) == MockPolicyDecoy(old(View()), c, d)
    {
      Append(DecoyMockPolicy, c, SimulatedAllowOnly, ResDocument(d), Mocked);
      r := MockDecision(d, sequence);
    }
  }

  /** The service owns one lab; `reset` replaces the object, `execute` mutates it. */
  class DeterministicLabService {
    const mode: Mode
    var state: LabState

    predicate Valid()
      reads this, state
    {
      state.mode == mode && state.View().WellFormed()
    }

    constructor (mode: Mode)
      ensures Valid() && fresh(state) && this.mode == mode
      ensures state.View() == Canonical(mode)
    {
      this.mode := mode;
      state := new LabState(mode);
    }

    method Reset()
      requires Valid()
      modifies this
      ensures Valid() && fresh(state)
      ensures state.View() == Canonical(mode)
    {
      state := new LabState(mode);
    }

    method ExecuteAction(a: Request) returns (r: Reply)
      requires Valid()
      modifies state
      ensures Valid()
      ensures Step(state.View(), r) == Execute(old(state.View()), a)
    {
      var context := state.AuthenticateBearer(a.actor);
      if context.None? {
        return Error(401, UnknownOrExpired);
      }
      var c := context.value;
      match a.op
      case Retain => r := state.RetainSession(c);
      case Prime(d) => r := state.PrimeAuthorizationCache(c, d);
      case Downgrade(who, role) => r := state.Downgrade(c, who, role);
      case Defer(delay) => r := state.DelayQueueJob(c, delay);
      case Publish(d, recipient) => r := state.Publish(c, d, recipient);
      case Claim => r := state.ClaimRef(c);
      case Advance(seconds) => r := state.AdvanceBy(c, seconds);
      case Read(d) => r := state.ReadDoc(c, d);
      case MaskedRead(d) => r := state.ReadMasked(c, d);
      case MockPolicy(d) => r := state.ReadMockPolicy(c, d);
    }
  }
}

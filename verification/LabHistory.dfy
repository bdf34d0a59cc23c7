/** The exact history behind a cross-tenant disclosure: a condition on the list of requests
    alone, read without running the state machine, that decides every protected read. */
module LabHistory {
  import opened Wrappers
  import opened LabModel
  import opened LabInvariants

  const SESSION_EXPIRY := 3600

  predicate IsAdminDowngrade(a: Action) { a == Action(AdminSession, Downgrade(AEditor, ViewerRole)) }

  // ---------- What one request does to each part of a reachable state ----------

  function ContextOf(id: SessionId): Context {
    match id
    case AOld => Context(AOld, AEditor, TenantA, EditorRole, 1)
    case AFresh => Context(AFresh, AEditor, TenantA, ViewerRole, 2)
    case BSession => Context(BSession, BViewer, TenantB, ViewerRole, 1)
    case AdminSession => Context(AdminSession, Admin, Platform, AdminRole, 1)
  }

  /** A session is live before its expiry; the fresh one exists only after the downgrade. */
  predicate Live(s: Lab, id: SessionId) {
    match id
    case AOld => s.now < SESSION_EXPIRY
    case AFresh => s.downgradedAt.Some? && s.now < s.downgradedAt.value + 3600
    case BSession => s.now < SESSION_EXPIRY
    case AdminSession => s.now < ADMIN_EXPIRY
  }

  lemma WhoActs(s: Lab, id: SessionId)
    requires s.WellFormed() && Inv(s)
    ensures Authenticate(s, id) == if Live(s, id) then Some(ContextOf(id)) else None
  {
  }

  lemma ClockEffect(s: Lab, a: Request)
    requires s.WellFormed() && Inv(s)
    ensures Execute(s, a).next.now ==
            if a.actor == AdminSession && a.op.Advance? && s.now < ADMIN_EXPIRY then s.now + a.op.seconds else s.now
  {
    WhoActs(s, a.actor);
  }

  lemma DowngradeEffect(s: Lab, a: Request)
    requires s.WellFormed() && Inv(s)
    ensures Execute(s, a).next.downgradedAt ==
            if s.downgradedAt.None? && IsAdminDowngrade(a) && s.now < ADMIN_EXPIRY then Some(s.now) else s.downgradedAt
  {
    WhoActs(s, a.actor);
    LazyProcessingIsANoOp(s);
  }

  lemma RetainEffect(s: Lab, a: Request)
    requires s.WellFormed() && Inv(s)
    ensures AOld in Execute(s, a).next.retained <==>
            AOld in s.retained || (a == Action(AOld, Retain) && s.now < SESSION_EXPIRY && s.downgradedAt.None?)
  {
    WhoActs(s, a.actor);
    LazyProcessingIsANoOp(s);
  }

  /** A cached decision of the vulnerable lab lives until its job completes. */
  ghost predicate CacheFollows(s: Lab, a: Request, t: Lab) {
    t.cache.Some? <==>
      && (t.job.Some? ==> t.job.value.status == Pending)
      && (s.cache.Some? ||
          (a == Action(AOld, Prime(OwnedByA)) && s.now < SESSION_EXPIRY && s.downgradedAt.None?))
  }

  lemma AdvanceCacheEffect(s: Lab, a: Request)
    requires s.WellFormed() && Inv(s) && s.mode == Vulnerable && a.op.Advance?
    ensures CacheFollows(s, a, Execute(s, a).next)
  {
    WhoActs(s, a.actor);
  }

  lemma PrimeCacheEffect(s: Lab, a: Request)
    requires s.WellFormed() && Inv(s) && s.mode == Vulnerable && a.op.Prime?
    ensures CacheFollows(s, a, Execute(s, a).next)
  {
    WhoActs(s, a.actor);
    LazyProcessingIsANoOp(s);
  }

  lemma OtherCacheEffect(s: Lab, a: Request)
    requires s.WellFormed() && Inv(s) && s.mode == Vulnerable && !a.op.Advance? && !a.op.Prime?
    ensures CacheFollows(s, a, Execute(s, a).next)
  {
    WhoActs(s, a.actor);
    LazyProcessingIsANoOp(s);
  }

  lemma CacheEffect(s: Lab, a: Request)
    requires s.WellFormed() && Inv(s) && s.mode == Vulnerable
    ensures CacheFollows(s, a, Execute(s, a).next)
  {
    hide Execute, Inv, CacheFollows;
    if a.op.Advance? { AdvanceCacheEffect(s, a); }
    else if a.op.Prime? { PrimeCacheEffect(s, a); }
    else { OtherCacheEffect(s, a); }
  }

  lemma DelayEffect(s: Lab, a: Request)
    requires s.WellFormed() && Inv(s)
    ensures var t := Execute(s, a).next;
            t.job.Some? && t.job.value.delayed <==>
              || (s.job.Some? && s.job.value.delayed)
              || (a == Action(AdminSession, Defer(240)) && s.now < ADMIN_EXPIRY &&
                  s.downgradedAt.Some? && s.now < s.downgradedAt.value + 30)
  {
    WhoActs(s, a.actor);
    LazyProcessingIsANoOp(s);
  }

  lemma ReferenceEffect(s: Lab, a: Request)
    requires s.WellFormed() && Inv(s)
    ensures var t := Execute(s, a).next;
            t.reference.published <==>
              s.reference.published ||
              (a == Action(BSession, Publish(ProtectedByB, AEditor)) && s.now < SESSION_EXPIRY)
  {
    WhoActs(s, a.actor);
    LazyProcessingIsANoOp(s);
  }

  /** A claim succeeds for whichever live session of the recipient comes first. */
  lemma ClaimEffect(s: Lab, a: Request)
    requires s.WellFormed() && Inv(s)
    ensures Execute(s, a).next.reference.claimedBy ==
            if s.reference.claimedBy.None? && s.reference.published && a.op == Claim &&
               ((a.actor == AOld && s.now < SESSION_EXPIRY) ||
                (a.actor == AFresh && s.downgradedAt.Some? && s.now < s.downgradedAt.value + 3600))
            then Some(a.actor) else s.reference.claimedBy
  {
    WhoActs(s, a.actor);
    LazyProcessingIsANoOp(s);
  }

  // ---------- The condition on a list of requests ----------

  /** The controlled time just before request `n`: only a live admin session moves it. */
  function ClockAt(h: seq<Request>, n: nat): Time
    requires n <= |h|
  {
    if n == 0 then 0
    else
      var t := ClockAt(h, n - 1);
      if h[n - 1].actor == AdminSession && h[n - 1].op.Advance? && t < ADMIN_EXPIRY then t + h[n - 1].op.seconds else t
  }

  ghost predicate DowngradeAt(h: seq<Request>, d: int) {
    && 0 <= d < |h| && IsAdminDowngrade(h[d]) && ClockAt(h, d) < ADMIN_EXPIRY
    && forall j :: 0 <= j < d ==> !IsAdminDowngrade(h[j])
  }

  ghost predicate DowngradedBefore(h: seq<Request>, n: int) {
    exists d :: d < n && DowngradeAt(h, d)
  }

  ghost predicate RetainAt(h: seq<Request>, i: int) {
    0 <= i < |h| && h[i] == Action(AOld, Retain) && ClockAt(h, i) < SESSION_EXPIRY && !DowngradedBefore(h, i)
  }

  ghost predicate PrimeAt(h: seq<Request>, i: int) {
    0 <= i < |h| && h[i] == Action(AOld, Prime(OwnedByA)) && ClockAt(h, i) < SESSION_EXPIRY && !DowngradedBefore(h, i)
  }

  ghost predicate DeferAt(h: seq<Request>, d: int, k: int) {
    && DowngradeAt(h, d) && d < k < |h| && h[k] == Action(AdminSession, Defer(240))
    && ClockAt(h, k) < ClockAt(h, d) + 30 && ClockAt(h, k) < ADMIN_EXPIRY
  }

  ghost predicate PublishAt(h: seq<Request>, p: int) {
    0 <= p < |h| && h[p] == Action(BSession, Publish(ProtectedByB, AEditor)) && ClockAt(h, p) < SESSION_EXPIRY
  }

  ghost predicate PublishedBefore(h: seq<Request>, n: int) { exists p :: p < n && PublishAt(h, p) }

  /** A claim by `who` that would succeed if nobody had claimed before. */
  ghost predicate ClaimAt(h: seq<Request>, c: int, who: SessionId) {
    && 0 <= c < |h| && h[c] == Action(who, Claim) && PublishedBefore(h, c)
    && match who
       case AOld => ClockAt(h, c) < SESSION_EXPIRY
       case AFresh => exists d :: d < c && DowngradeAt(h, d) && ClockAt(h, c) < ClockAt(h, d) + 3600
       case _ => false
  }

  /** The old session claimed, and the fresh one did not get there first. */
  ghost predicate OldClaimFirst(h: seq<Request>, n: int) {
    exists c :: c < n && ClaimAt(h, c, AOld) && forall e :: e < c ==> !ClaimAt(h, e, AFresh)
  }

  ghost predicate RetainedBefore(h: seq<Request>, n: int) { exists i :: i < n && RetainAt(h, i) }
  ghost predicate PrimedBefore(h: seq<Request>, n: int) { exists i :: i < n && PrimeAt(h, i) }
  ghost predicate DeferredBefore(h: seq<Request>, d: int, n: int) { exists k :: k < n && DeferAt(h, d, k) }

  /** The whole condition: after the first `n` requests the protected read would succeed. */
  ghost predicate ReadyToDisclose(h: seq<Request>, n: nat)
    requires n <= |h|
  {
    && RetainedBefore(h, n)
    && PrimedBefore(h, n)
    && (exists d :: d < n && DowngradeAt(h, d) && DeferredBefore(h, d, n) &&
                    ClockAt(h, d) + 60 <= ClockAt(h, n) < ClockAt(h, d) + 180)
    && OldClaimFirst(h, n)
    && ClockAt(h, n) < SESSION_EXPIRY
  }

  // ---------- The state machine follows the condition ----------

  /** The parts of a vulnerable lab the read depends on. */
  datatype Facts = Facts(now: Time, downgradedAt: Option<Time>, retained: bool, primed: bool,
                         delayed: bool, published: bool, claimedBy: Option<SessionId>)

  predicate Matches(s: Lab, f: Facts) {
    && s.now == f.now
    && s.downgradedAt == f.downgradedAt
    && (AOld in s.retained <==> f.retained)
    && (s.cache.Some? <==> f.primed && (s.job.Some? ==> s.job.value.status == Pending))
    && (s.job.Some? && s.job.value.delayed <==> f.delayed)
    && s.reference.published == f.published
    && s.reference.claimedBy == f.claimedBy
  }

  function NextFacts(f: Facts, a: Request): Facts {
    var early := f.now < SESSION_EXPIRY && f.downgradedAt.None?;
    Facts(
      if a.actor == AdminSession && a.op.Advance? && f.now < ADMIN_EXPIRY then f.now + a.op.seconds else f.now,
      if f.downgradedAt.None? && IsAdminDowngrade(a) && f.now < ADMIN_EXPIRY then Some(f.now) else f.downgradedAt,
      f.retained || (a == Action(AOld, Retain) && early),
      f.primed || (a == Action(AOld, Prime(OwnedByA)) && early),
      f.delayed || (a == Action(AdminSession, Defer(240)) && f.now < ADMIN_EXPIRY &&
                    f.downgradedAt.Some? && f.now < f.downgradedAt.value + 30),
      f.published || (a == Action(BSession, Publish(ProtectedByB, AEditor)) && f.now < SESSION_EXPIRY),
      if f.claimedBy.None? && f.published && a.op == Claim &&
         ((a.actor == AOld && f.now < SESSION_EXPIRY) ||
          (a.actor == AFresh && f.downgradedAt.Some? && f.now < f.downgradedAt.value + 3600))
      then Some(a.actor) else f.claimedBy)
  }

  lemma StepMatches(s: Lab, f: Facts, a: Request)
    requires s.WellFormed() && Inv(s) && s.mode == Vulnerable && Matches(s, f)
    ensures Matches(Execute(s, a).next, NextFacts(f, a))
  {
    hide Execute, Inv;
    ClockEffect(s, a);
    DowngradeEffect(s, a);
    RetainEffect(s, a);
    CacheEffect(s, a);
    DelayEffect(s, a);
    ReferenceEffect(s, a);
    ClaimEffect(s, a);
    CompletionEffect(s, a);
  }

  /** A job never becomes pending again. */
  lemma CompletionEffect(s: Lab, a: Request)
    requires s.WellFormed() && Inv(s)
    ensures s.job.Some? && s.job.value.status != Pending ==>
              var t := Execute(s, a).next; t.job.Some? && t.job.value.status != Pending
  {
    WhoActs(s, a.actor);
    LazyProcessingIsANoOp(s);
  }

  function FactsAt(h: seq<Request>, n: nat): Facts
    requires n <= |h|
  {
    if n == 0 then Facts(0, None, false, false, false, false, None) else NextFacts(FactsAt(h, n - 1), h[n - 1])
  }

  lemma {:induction false} RunMatches(h: seq<Request>, n: nat)
    requires n <= |h|
    ensures Inv(Run(Vulnerable, h[..n]))
    ensures Matches(Run(Vulnerable, h[..n]), FactsAt(h, n))
  {
    RootSatisfiesInv(Vulnerable);
    RunKeepsInv(Canonical(Vulnerable), h[..n]);
    if n > 0 {
      RunMatches(h, n - 1);
      assert h[..n][..n - 1] == h[..n - 1];
      StepMatches(Run(Vulnerable, h[..n - 1]), FactsAt(h, n - 1), h[n - 1]);
    }
  }

  lemma {:induction false} ClockFollows(h: seq<Request>, n: nat)
    requires n <= |h|
    ensures FactsAt(h, n).now == ClockAt(h, n)
  {
    if n > 0 { ClockFollows(h, n - 1); }
  }

  lemma {:induction false} ClockIsMonotone(h: seq<Request>, i: nat, j: nat)
    requires i <= j <= |h|
    ensures ClockAt(h, i) <= ClockAt(h, j)
    decreases j
  {
    if i < j { ClockIsMonotone(h, i, j - 1); }
  }

  lemma {:induction false} DowngradeFollows(h: seq<Request>, n: nat)
    requires n <= |h|
    ensures FactsAt(h, n).downgradedAt.Some? <==> DowngradedBefore(h, n)
    ensures forall d :: d < n && DowngradeAt(h, d) ==> FactsAt(h, n).downgradedAt == Some(ClockAt(h, d))
    ensures FactsAt(h, n).downgradedAt.None? && ClockAt(h, n) < ADMIN_EXPIRY ==>
              forall j :: 0 <= j < n ==> !IsAdminDowngrade(h[j])
  {
    if n > 0 {
      DowngradeFollows(h, n - 1);
      ClockFollows(h, n - 1);
      ClockIsMonotone(h, n - 1, n);
      assert DowngradedBefore(h, n) <==> DowngradedBefore(h, n - 1) || DowngradeAt(h, n - 1);
    }
  }

  lemma {:induction false} EarlyActionsFollow(h: seq<Request>, n: nat)
    requires n <= |h|
    ensures FactsAt(h, n).retained <==> RetainedBefore(h, n)
    ensures FactsAt(h, n).primed <==> PrimedBefore(h, n)
    ensures FactsAt(h, n).published <==> PublishedBefore(h, n)
  {
    if n > 0 {
      EarlyActionsFollow(h, n - 1);
      DowngradeFollows(h, n - 1);
      ClockFollows(h, n - 1);
      assert RetainedBefore(h, n) <==> RetainedBefore(h, n - 1) || RetainAt(h, n - 1);
      assert PrimedBefore(h, n) <==> PrimedBefore(h, n - 1) || PrimeAt(h, n - 1);
      assert PublishedBefore(h, n) <==> PublishedBefore(h, n - 1) || PublishAt(h, n - 1);
    }
  }

  lemma DeferSplits(h: seq<Request>, d: int, n: nat)
    requires 0 < n <= |h|
    ensures DeferredBefore(h, d, n) <==> DeferredBefore(h, d, n - 1) || DeferAt(h, d, n - 1)
  {
  }

  lemma {:induction false} DeferFollows(h: seq<Request>, n: nat)
    requires n <= |h|
    ensures FactsAt(h, n).delayed <==> exists d :: d < n && DowngradeAt(h, d) && DeferredBefore(h, d, n)
  {
    if n > 0 {
      DeferFollows(h, n - 1);
      DowngradeFollows(h, n - 1);
      ClockFollows(h, n - 1);
      forall d { DeferSplits(h, d, n); }
      if FactsAt(h, n).delayed && !FactsAt(h, n - 1).delayed {
        var d :| d < n - 1 && DowngradeAt(h, d);
        assert DeferAt(h, d, n - 1);
      }
    }
  }

  lemma FreshClaimAt(h: seq<Request>, n: nat)
    requires n < |h|
    ensures ClaimAt(h, n, AFresh) <==>
              && h[n] == Action(AFresh, Claim) && FactsAt(h, n).published && FactsAt(h, n).downgradedAt.Some?
              && FactsAt(h, n).now < FactsAt(h, n).downgradedAt.value + 3600
  {
    EarlyActionsFollow(h, n);
    DowngradeFollows(h, n);
    ClockFollows(h, n);
  }

  lemma OldClaimAt(h: seq<Request>, n: nat)
    requires n < |h|
    ensures ClaimAt(h, n, AOld) <==>
              h[n] == Action(AOld, Claim) && FactsAt(h, n).published && FactsAt(h, n).now < SESSION_EXPIRY
  {
    EarlyActionsFollow(h, n);
    ClockFollows(h, n);
  }

  lemma {:induction false} ClaimFollows(h: seq<Request>, n: nat)
    requires n <= |h|
    ensures FactsAt(h, n).claimedBy.None? <==> forall c :: c < n ==> !ClaimAt(h, c, AOld) && !ClaimAt(h, c, AFresh)
    ensures FactsAt(h, n).claimedBy == Some(AOld) <==> OldClaimFirst(h, n)
  {
    if n > 0 {
      ClaimFollows(h, n - 1);
      FreshClaimAt(h, n - 1);
      OldClaimAt(h, n - 1);
    }
  }

  /** Under the invariant the eight-way test reduces to the tracked facts. */
  lemma ReadIsDecidedByFacts(s: Lab, f: Facts)
    requires s.WellFormed() && Inv(s) && s.mode == Vulnerable && Matches(s, f)
    ensures var r := Execute(s, Action(AOld, Read(ProtectedByB))).reply;
            && (r.DocumentBody? <==>
                  && f.retained && f.primed && f.delayed && f.downgradedAt.Some?
                  && f.claimedBy == Some(AOld)
                  && f.downgradedAt.value + 60 <= f.now < f.downgradedAt.value + 180
                  && f.now < SESSION_EXPIRY)
            && (r.DocumentBody? ==> r.body == MARKER_B)
  {
    WhoActs(s, AOld);
    LazyProcessingIsANoOp(s);
    ChainNeedsOnlyFourFacts(s);
  }

  /** The main result. For every list of requests from the canonical vulnerable root, a read of
      tenant B's document by the old session, issued after the first `n` of them, answers 200
      with the protected marker if and only if those requests meet the condition. */
  lemma ExactDisclosure(h: seq<Request>, n: nat)
    requires n <= |h|
    ensures var r := Execute(Run(Vulnerable, h[..n]), Action(AOld, Read(ProtectedByB))).reply;
            && (r.DocumentBody? <==> ReadyToDisclose(h, n))
            && (r.DocumentBody? ==> r.body == MARKER_B)
  {
    RunMatches(h, n);
    ClockFollows(h, n);
    DowngradeFollows(h, n);
    EarlyActionsFollow(h, n);
    DeferFollows(h, n);
    ClaimFollows(h, n);
    ReadIsDecidedByFacts(Run(Vulnerable, h[..n]), FactsAt(h, n));
  }

  lemma ObservationEffect(s: Lab, a: Request)
    requires s.WellFormed() && Inv(s) && s.mode == Vulnerable
    ensures Execute(s, a).next.lastDisclosure.Some? <==>
              s.lastDisclosure.Some? || (a == Action(AOld, Read(ProtectedByB)) && Execute(s, a).reply.DocumentBody?)
  {
    WhoActs(s, a.actor);
    LazyProcessingIsANoOp(s);
  }

  ghost predicate DisclosedAt(h: seq<Request>, n: int) {
    0 <= n < |h| && h[n] == Action(AOld, Read(ProtectedByB)) && ReadyToDisclose(h, n)
  }

  lemma ObservationStep(h: seq<Request>, n: nat)
    requires n < |h|
    ensures Run(Vulnerable, h[..n + 1]).lastDisclosure.Some? <==>
              Run(Vulnerable, h[..n]).lastDisclosure.Some? || DisclosedAt(h, n)
  {
    assert h[..n + 1][..n] == h[..n];
    RunMatches(h, n);
    ExactDisclosure(h, n);
    ObservationEffect(Run(Vulnerable, h[..n]), h[n]);
  }

  ghost predicate DisclosedBefore(h: seq<Request>, n: int) { exists m :: m < n && DisclosedAt(h, m) }

  lemma {:induction false} ObservationFollows(h: seq<Request>, n: nat)
    requires n <= |h|
    ensures Run(Vulnerable, h[..n]).lastDisclosure.Some? <==> DisclosedBefore(h, n)
  {
    if n > 0 {
      ObservationFollows(h, n - 1);
      ObservationStep(h, n - 1);
    }
  }

  /** The oracle of a vulnerable lab reports a violation if and only if, somewhere in the list,
      the old session reads the protected document at a moment that meets the condition. */
  lemma ExactOracle(h: seq<Request>)
    ensures OracleViolated(Run(Vulnerable, h).lastDisclosure) <==> DisclosedBefore(h, |h|)
  {
    assert h[..|h|] == h;
    RunMatches(h, |h|);
    ObservationFollows(h, |h|);
  }

  /** The shortest complete chain: seven requests, the last of them one 60-second advance. */
  function FullChain(): seq<Request> {
    [Action(AOld, Retain), Action(AOld, Prime(OwnedByA)), Action(AdminSession, Downgrade(AEditor, ViewerRole)),
     Action(AdminSession, Defer(240)), Action(BSession, Publish(ProtectedByB, AEditor)), Action(AOld, Claim),
     Action(AdminSession, Advance(60))]
  }

  lemma FullChainFacts()
    ensures FactsAt(FullChain(), 7) == Facts(60, Some(0), true, true, true, true, Some(AOld))
  {
    var h := FullChain();
    assert FactsAt(h, 1) == Facts(0, None, true, false, false, false, None);
    assert FactsAt(h, 2) == Facts(0, None, true, true, false, false, None);
    assert FactsAt(h, 3) == Facts(0, Some(0), true, true, false, false, None);
    assert FactsAt(h, 4) == Facts(0, Some(0), true, true, true, false, None);
    assert FactsAt(h, 5) == Facts(0, Some(0), true, true, true, true, None);
    assert FactsAt(h, 6) == Facts(0, Some(0), true, true, true, true, Some(AOld));
  }

  /** The condition can be met. */
  lemma FullChainDiscloses()
    ensures ReadyToDisclose(FullChain(), 7)
  {
    var h := FullChain();
    FullChainFacts();
    RunMatches(h, 7);
    ReadIsDecidedByFacts(Run(Vulnerable, h[..7]), FactsAt(h, 7));
    ExactDisclosure(h, 7);
  }

  ghost predicate ChainAround(h: seq<Request>, d: int) {
    && RetainedBefore(h, d) && PrimedBefore(h, d)
    && exists c :: ClaimAt(h, c, AOld) && PublishedBefore(h, c)
  }

  lemma ReadinessNeedsTheChain(h: seq<Request>)
    requires ReadyToDisclose(h, |h|)
    ensures exists d, k :: DeferAt(h, d, k) && ClockAt(h, k) + 30 < ClockAt(h, |h|) && ChainAround(h, d)
  {
    var n := |h|;
    var d :| d < n && DowngradeAt(h, d) && DeferredBefore(h, d, n) && ClockAt(h, d) + 60 <= ClockAt(h, n);
    var k :| k < n && DeferAt(h, d, k);
    var c :| c < n && ClaimAt(h, c, AOld);
    assert RetainedBefore(h, d) && PrimedBefore(h, d);
    assert ChainAround(h, d);
  }

  /** Every history after which the old session is handed tenant B's document contains the whole
      chain, in order: retain and prime before the downgrade, the deferral within 30 seconds of it,
      a publication before the old session's claim. Without any one of these steps no run discloses. */
  lemma DisclosureNeedsTheChain(h: seq<Request>)
    requires Execute(Run(Vulnerable, h), Action(AOld, Read(ProtectedByB))).reply.DocumentBody?
    ensures exists d, k :: DeferAt(h, d, k) && ClockAt(h, k) + 30 < ClockAt(h, |h|) && ChainAround(h, d)
  {
    hide Execute, Run, ReadyToDisclose, DeferAt, ClockAt, ChainAround;
    assert h[..|h|] == h;
    ExactDisclosure(h, |h|);
    ReadinessNeedsTheChain(h);
  }

  lemma OnlyReadsAnswerWithBodies(s: Lab, a: Request)
    requires s.WellFormed() && Execute(s, a).reply.DocumentBody?
    ensures a.op.Read?
  {
  }

  /** Only the old session of a vulnerable lab can ever receive a body across the boundary. */
  lemma NobodyElseCrosses(mode: Mode, h: seq<Request>, a: Request)
    requires Execute(Run(mode, h), a).reply.DocumentBody?
    ensures var r := Execute(Run(mode, h), a).reply;
            r.owner == ContextOf(a.actor).tenant || (mode == Vulnerable && a == Action(AOld, Read(ProtectedByB)))
  {
    var s := Run(mode, h);
    OnlyReadsAnswerWithBodies(s, a);
    RootSatisfiesInv(mode);
    RunKeepsInv(Canonical(mode), h);
    WhoActs(s, a.actor);
    LazyProcessingIsANoOp(s);
  }
}

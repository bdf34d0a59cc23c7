/** The budget ledger and the evaluator's audit of a run, whose event loop accepts exactly the
    sentences of a small grammar. */
module BenchAudit {
  import opened Wrappers
  import opened BenchModel

  // ---------- The ledger ----------

  datatype Kind = PLAN | ACTION | WORLD

  /** Parts of an operation key. The 96-bit digest of the parts is taken to be injective. */
  datatype Part = OfToken(token: Token) | OfState(state: State)
  datatype OpKey = OpKey(prefix: Kind, parts: seq<Part>)

  datatype Event = Event(kind: Kind, key: OpKey, token: Option<Token>, actionCost: nat, worldCost: nat, latency: nat)

  /** What the event model requires of every event; sequence numbers and ids follow the position. */
  predicate Shaped(e: Event) {
    && e.latency >= 1 && e.key.prefix == e.kind
    && (e.kind == PLAN ==> e.actionCost == 0 && e.worldCost == 0)
    && (e.kind == ACTION ==> e.token.Some? && e.actionCost > 0 && e.worldCost == 0)
    && (e.kind == WORLD ==> e.actionCost == 0 && e.worldCost > 0)
  }

  datatype Limits = Limits(action: nat, world: nat, latency: nat)
  datatype Usage = Usage(action: nat, world: nat, latency: nat)
  datatype Ledger = Ledger(limits: Limits, events: seq<Event>)

  function UsageOf(es: seq<Event>): Usage {
    if es == [] then Usage(0, 0, 0)
    else
      var u, e := UsageOf(es[..|es| - 1]), es[|es| - 1];
      Usage(u.action + e.actionCost, u.world + e.worldCost, u.latency + e.latency)
  }

  function Plus(u: Usage, action: nat, world: nat, latency: nat): Usage {
    Usage(u.action + action, u.world + world, u.latency + latency)
  }

  predicate Fits(u: Usage, l: Limits) { u.action <= l.action && u.world <= l.world && u.latency <= l.latency }

  predicate KeyUsed(es: seq<Event>, key: OpKey) { exists i :: 0 <= i < |es| && es[i].key == key }

  predicate ValidLedger(l: Ledger) {
    && (forall i :: 0 <= i < |l.events| ==> Shaped(l.events[i]))
    && (forall i, j :: 0 <= i < j < |l.events| ==> l.events[i].key != l.events[j].key)
    && Fits(UsageOf(l.events), l.limits)
  }

  /** A reservation is granted, exceeds the budget, or is rejected as malformed. */
  datatype Reservation = Granted(ledger: Ledger) | Exceeded | Malformed

  function Reserve(l: Ledger, e: Event): Reservation {
    if !Shaped(e) then Malformed
    else if !Fits(Plus(UsageOf(l.events), e.actionCost, e.worldCost, e.latency), l.limits) then Exceeded
    else if KeyUsed(l.events, e.key) then Malformed
    else Granted(Ledger(l.limits, l.events + [e]))
  }

  /** A granted reservation keeps the ledger valid; in particular it never overspends. */
  lemma ReserveKeepsValid(l: Ledger, e: Event)
    requires ValidLedger(l) && Reserve(l, e).Granted?
    ensures ValidLedger(Reserve(l, e).ledger)
    ensures UsageOf(Reserve(l, e).ledger.events) == Plus(UsageOf(l.events), e.actionCost, e.worldCost, e.latency)
  {
    assert (l.events + [e])[..|l.events|] == l.events;
  }

  /** The shape of an event, kind by kind. */
  ghost predicate ShapedAs(e: Event) {
    match e.kind
    case PLAN => e.key.prefix == PLAN && e.latency > 0 && (e.actionCost, e.worldCost) == (0, 0)
    case ACTION => e.key.prefix == ACTION && e.latency > 0 && e.actionCost > 0 && e.worldCost == 0 && e.token != None
    case WORLD => e.key.prefix == WORLD && e.latency > 0 && e.actionCost == 0 && e.worldCost > 0
  }

  /** The sum of one cost over the events. */
  function Sum(es: seq<Event>, cost: Event -> nat): nat { if es == [] then 0 else cost(es[0]) + Sum(es[1..], cost) }

  lemma {:induction false} SumAppend(es: seq<Event>, e: Event, cost: Event -> nat)
    ensures Sum(es + [e], cost) == Sum(es, cost) + cost(e)
  {
    if es == [] {
      assert es + [e] == [e] && [e][1..] == [];
    } else {
      assert (es + [e])[1..] == es[1..] + [e];
      SumAppend(es[1..], e, cost);
    }
  }

  lemma {:induction false} UsageIsTheSums(es: seq<Event>)
    ensures UsageOf(es) == Usage(Sum(es, (e: Event) => e.actionCost), Sum(es, (e: Event) => e.worldCost), Sum(es, (e: Event) => e.latency))
  {
    if es != [] {
      var init, last := es[..|es| - 1], es[|es| - 1];
      assert es == init + [last];
      UsageIsTheSums(init);
      SumAppend(init, last, (e: Event) => e.actionCost);
      SumAppend(init, last, (e: Event) => e.worldCost);
      SumAppend(init, last, (e: Event) => e.latency);
    }
  }

  /** A ledger is valid when every event has its shape, no key occurs twice and none of the three
      sums exceeds its limit. */
  lemma ValidLedgersMean(l: Ledger)
    ensures ValidLedger(l) <==>
              && (forall e :: e in l.events ==> ShapedAs(e))
              && (forall i, j :: 0 <= i < |l.events| && 0 <= j < |l.events| && i != j ==> l.events[i].key != l.events[j].key)
              && Sum(l.events, (e: Event) => e.actionCost) <= l.limits.action
              && Sum(l.events, (e: Event) => e.worldCost) <= l.limits.world
              && Sum(l.events, (e: Event) => e.latency) <= l.limits.latency
  {
    UsageIsTheSums(l.events);
    assert forall i :: 0 <= i < |l.events| ==> (Shaped(l.events[i]) <==> ShapedAs(l.events[i]));
  }

  /** A reservation is malformed, over the limits, or granted exactly as told. */
  lemma ReserveIsExact(l: Ledger, e: Event)
    ensures var over := || Sum(l.events + [e], (x: Event) => x.actionCost) > l.limits.action
                        || Sum(l.events + [e], (x: Event) => x.worldCost) > l.limits.world
                        || Sum(l.events + [e], (x: Event) => x.latency) > l.limits.latency;
            var used := exists i :: 0 <= i < |l.events| && l.events[i].key == e.key;
            Reserve(l, e) ==
              if ShapedAs(e) && over then Exceeded
              else if !ShapedAs(e) || used then Malformed
              else Granted(Ledger(l.limits, l.events + [e]))
  {
    UsageIsTheSums(l.events);
    SumAppend(l.events, e, (x: Event) => x.actionCost);
    SumAppend(l.events, e, (x: Event) => x.worldCost);
    SumAppend(l.events, e, (x: Event) => x.latency);
  }

  // ---------- Runs ----------

  datatype Attempt = PlanAttempt | ActionAttempt | ActionWorldAttempt
  datatype Exhaustion = Exhaustion(kind: Attempt, token: Token, base: Usage, action: nat, world: nat, latency: nat)

  datatype Stop = GoalReachedStop | NoProgress | BudgetExhausted | DepthLimit | CompilerDisabled

  datatype SystemRun = SystemRun(submission: seq<Token>, ledger: Ledger, anchored: bool, stop: Stop,
                                 exhaustion: Option<Exhaustion>)

  // ---------- The event loop ----------

  datatype Loop = Loop(planned: set<Token>, executed: set<Token>, awaiting: Option<Token>, prior: Option<Token>)

  const START := Loop({}, {}, None, None)

  predicate PlanTariff(e: Event) { e.latency == 1 }
  predicate ActionTariff(ch: Challenge, e: Event) {
    && e.token.Some? && Find(ch.actions, e.token.value).Some?
    && e.actionCost == Find(ch.actions, e.token.value).value.cost && e.latency == e.actionCost
  }
  predicate WorldTariff(e: Event) { e.worldCost == 1 && e.latency == 2 }
  predicate InCatalog(ch: Challenge, e: Event) { e.token.Some? && Find(ch.actions, e.token.value).Some? }

  function AuditEvent(ch: Challenge, needWorld: bool, st: Loop, e: Event): Option<Loop> {
    if !InCatalog(ch, e) then None
    else
      var t := e.token.value;
      match e.kind
      case PLAN => if !PlanTariff(e) then None else Some(st.(planned := st.planned + {t}, prior := None))
      case ACTION =>
        if st.awaiting.Some? || t !in st.planned || !ActionTariff(ch, e) then None
        else
          Some(st.(executed := st.executed + {t}, awaiting := if needWorld then Some(t) else None, prior := Some(t)))
      case WORLD =>
        if st.prior != Some(t) || !WorldTariff(e) then None else Some(st.(awaiting := None, prior := None))
  }

  function AuditEvents(ch: Challenge, needWorld: bool, es: seq<Event>): Option<Loop> {
    if es == [] then Some(START)
    else
      match AuditEvents(ch, needWorld, es[..|es| - 1])
      case None => None
      case Some(st) => AuditEvent(ch, needWorld, st, es[|es| - 1])
  }

  lemma AuditAppend(ch: Challenge, needWorld: bool, es: seq<Event>, e: Event)
    ensures AuditEvents(ch, needWorld, es + [e]) ==
            (match AuditEvents(ch, needWorld, es) case None => None case Some(st) => AuditEvent(ch, needWorld, st, e))
  {
    assert (es + [e])[..|es|] == es;
  }

  predicate LoopAccepts(ch: Challenge, needWorld: bool, es: seq<Event>) {
    AuditEvents(ch, needWorld, es).Some? && AuditEvents(ch, needWorld, es).value.awaiting.None?
  }

  // ---------- The grammar ----------

  function Planned(es: seq<Event>): set<Token> {
    set i | 0 <= i < |es| && es[i].kind == PLAN && es[i].token.Some? :: es[i].token.value
  }

  function Executed(es: seq<Event>): set<Token> {
    set i | 0 <= i < |es| && es[i].kind == ACTION && es[i].token.Some? :: es[i].token.value
  }

  predicate PlanWord(ch: Challenge, e: Event) { e.kind == PLAN && InCatalog(ch, e) && PlanTariff(e) }

  /** A charged action: at its catalog tariff, with a plan of the same token before it. */
  predicate ActionWord(ch: Challenge, before: seq<Event>, e: Event) {
    e.kind == ACTION && ActionTariff(ch, e) && e.token.value in Planned(before)
  }

  predicate WorldWord(e: Event, action: Event) {
    e.kind == WORLD && WorldTariff(e) && e.token == action.token
  }

  /** Sequences of PLAN(t), of ACTION(t) WORLD(t) side by side and, where world events are not
      required, of ACTION(t) alone; every ACTION(t) has a PLAN(t) somewhere before it. */
  predicate Sentence(ch: Challenge, needWorld: bool, es: seq<Event>) {
    if es == [] then true
    else
      var n, last := |es|, es[|es| - 1];
      match last.kind
      case PLAN => PlanWord(ch, last) && Sentence(ch, needWorld, es[..n - 1])
      case ACTION => !needWorld && ActionWord(ch, es[..n - 1], last) && Sentence(ch, needWorld, es[..n - 1])
      case WORLD =>
        n >= 2 && ActionWord(ch, es[..n - 2], es[n - 2]) && WorldWord(last, es[n - 2]) && Sentence(ch, needWorld, es[..n - 2])
  }

  lemma {:induction false} LoopTracksTokens(ch: Challenge, needWorld: bool, es: seq<Event>)
    requires AuditEvents(ch, needWorld, es).Some?
    ensures var st := AuditEvents(ch, needWorld, es).value;
            && st.planned == Planned(es) && st.executed == Executed(es)
            && (st.prior.Some? ==> es != [] && es[|es| - 1].kind == ACTION && es[|es| - 1].token == st.prior)
            && (!needWorld ==> st.awaiting.None?)
  {
    if es != [] {
      var init, e := es[..|es| - 1], es[|es| - 1];
      LoopTracksTokens(ch, needWorld, init);
      TokensAppend(init, e);
      assert init + [e] == es;
    }
  }

  lemma TokensAppend(es: seq<Event>, e: Event)
    ensures Planned(es + [e]) == Planned(es) + (if e.kind == PLAN && e.token.Some? then {e.token.value} else {})
    ensures Executed(es + [e]) == Executed(es) + (if e.kind == ACTION && e.token.Some? then {e.token.value} else {})
  {
    var longer := es + [e];
    assert forall i :: 0 <= i < |es| ==> longer[i] == es[i];
    assert longer[|es|] == e;
  }

  /** The loop accepts exactly the sentences of the grammar, for arbitrary event lists. */
  lemma {:induction false} LoopAcceptsSentences(ch: Challenge, needWorld: bool, es: seq<Event>)
    ensures LoopAccepts(ch, needWorld, es) <==> Sentence(ch, needWorld, es)
    decreases |es|
  {
    if es != [] {
      var init, last := es[..|es| - 1], es[|es| - 1];
      match last.kind
      case PLAN => LoopAcceptsSentences(ch, needWorld, init);
      case ACTION =>
        LoopAcceptsSentences(ch, needWorld, init);
        if AuditEvents(ch, needWorld, init).Some? { LoopTracksTokens(ch, needWorld, init); }
      case WORLD =>
        if |es| >= 2 {
          LoopAcceptsSentences(ch, needWorld, es[..|es| - 2]);
          WorldSettlesAction(ch, needWorld, es);
        } else {
          assert AuditEvents(ch, needWorld, init) == Some(START);
        }
    }
  }

  lemma WorldSettlesAction(ch: Challenge, needWorld: bool, es: seq<Event>)
    requires |es| >= 2 && es[|es| - 1].kind == WORLD
    ensures var n := |es|;
            LoopAccepts(ch, needWorld, es) <==>
              ActionWord(ch, es[..n - 2], es[n - 2]) && WorldWord(es[n - 1], es[n - 2]) && LoopAccepts(ch, needWorld, es[..n - 2])
  {
    var n := |es|;
    var init := es[..n - 1];
    assert init[..n - 2] == es[..n - 2] && init[n - 2] == es[n - 2];
    if AuditEvents(ch, needWorld, es[..n - 2]).Some? { LoopTracksTokens(ch, needWorld, es[..n - 2]); }
    if AuditEvents(ch, needWorld, init).Some? { LoopTracksTokens(ch, needWorld, init); }
  }

  function Count(es: seq<Event>, kind: Kind): nat {
    if es == [] then 0 else Count(es[..|es| - 1], kind) + if es[|es| - 1].kind == kind then 1 else 0
  }

  /** What every accepted run with world events costs. */
  lemma {:induction false} AcceptedCosts(ch: Challenge, es: seq<Event>)
    requires Sentence(ch, true, es) && forall i :: 0 <= i < |es| ==> Shaped(es[i])
    ensures var u := UsageOf(es);
            && u.latency == Count(es, PLAN) + u.action + 2 * u.world
            && u.world == Count(es, ACTION) == Count(es, WORLD)
    decreases |es|
  {
    if es != [] {
      var n := |es|;
      hide PlanTariff, InCatalog, Planned;
      if es[n - 1].kind == PLAN {
        AcceptedCosts(ch, es[..n - 1]);
        assert Shaped(es[n - 1]);
      } else {
        AcceptedCosts(ch, es[..n - 2]);
        assert es[..n - 1][..n - 2] == es[..n - 2] && es[..n - 1][n - 2] == es[n - 2];
        assert Shaped(es[n - 1]) && Shaped(es[n - 2]);
      }
    }
  }

  // ---------- The audit ----------

  function Tariff(kind: Attempt, cost: nat): (nat, nat, nat) {
    match kind
    case PlanAttempt => (0, 0, 1)
    case ActionAttempt => (cost, 0, cost)
    case ActionWorldAttempt => (cost, 1, cost + 2)
  }

  /** The retained exhaustion of a budget stop: bound to the final usage and the catalog tariff,
      and truly over the limits. */
  predicate ExhaustionHolds(ch: Challenge, x: Exhaustion, usage: Usage, budget: Limits, needWorld: bool) {
    && Find(ch.actions, x.token).Some? && x.base == usage
    && (x.action, x.world, x.latency) == Tariff(x.kind, Find(ch.actions, x.token).value.cost)
    && !(x.kind == ActionWorldAttempt && !needWorld)
    && !Fits(Plus(x.base, x.action, x.world, x.latency), budget)
  }

  /** What retained evidence says: the final sums, the price of one plan, action or action with its
      world event of the catalog, and that the two together exceed a limit. */
  lemma EvidenceMeans(ch: Challenge, x: Exhaustion, es: seq<Event>, budget: Limits, needWorld: bool)
    requires ExhaustionHolds(ch, x, UsageOf(es), budget, needWorld)
    ensures exists a :: a in ch.actions && a.token == x.token &&
              match x.kind
              case PlanAttempt => (x.action, x.world, x.latency) == (0, 0, 1)
              case ActionAttempt => (x.action, x.world, x.latency) == (a.cost, 0, a.cost)
              case ActionWorldAttempt => needWorld && (x.action, x.world, x.latency) == (a.cost, 1, a.cost + 2)
    ensures || Sum(es, (e: Event) => e.actionCost) + x.action > budget.action
            || Sum(es, (e: Event) => e.worldCost) + x.world > budget.world
            || Sum(es, (e: Event) => e.latency) + x.latency > budget.latency
  {
    UsageIsTheSums(es);
    var a := Find(ch.actions, x.token).value;
    assert a in ch.actions && a.token == x.token;
  }

  predicate StopIsBacked(ch: Challenge, run: SystemRun, budget: Limits, needWorld: bool) {
    if run.stop == BudgetExhausted then
      run.exhaustion.Some? && ExhaustionHolds(ch, run.exhaustion.value, UsageOf(run.ledger.events), budget, needWorld)
    else run.exhaustion.None?
  }

  /** What the audit demands of a run. */
  predicate Auditable(ch: Challenge, run: SystemRun, budget: Limits, needWorld: bool) {
    var es := run.ledger.events;
    && run.ledger.limits == budget
    && StopIsBacked(ch, run, budget, needWorld)
    && Sentence(ch, needWorld, es)
    && (forall t :: t in run.submission ==> t in Executed(es))
    && (Executed(es) != {} || run.exhaustion.Some?)
  }

  method AuditRun(ch: Challenge, run: SystemRun, budget: Limits, needWorld: bool) returns (ok: bool)
    ensures ok <==> Auditable(ch, run, budget, needWorld)
  {
    var events := run.ledger.events;
    LoopAcceptsSentences(ch, needWorld, events);
    if run.ledger.limits != budget || !StopIsBacked(ch, run, budget, needWorld) {
      return false;
    }
    if events == [] && run.exhaustion.None? {
      return false;
    }
    var planned: set<Token>, executed: set<Token> := {}, {};
    var awaiting: Option<Token>, prior: Option<Token> := None, None;
    var seenAction := false;
    for i := 0 to |events|
      invariant AuditEvents(ch, needWorld, events[..i]) == Some(Loop(planned, executed, awaiting, prior))
      invariant seenAction <==> executed != {}
    {
      assert events[..i + 1] == events[..i] + [events[i]];
      AuditAppend(ch, needWorld, events[..i], events[i]);
      var e := events[i];
      if !InCatalog(ch, e) {
        RejectedPrefix(ch, needWorld, events, i + 1);
        return false;
      }
      var t := e.token.value;
      if e.kind == PLAN {
        if !PlanTariff(e) {
          RejectedPrefix(ch, needWorld, events, i + 1);
          return false;
        }
        planned := planned + {t};
        prior := None;
      } else if e.kind == ACTION {
        if awaiting.Some? || t !in planned || !ActionTariff(ch, e) {
          RejectedPrefix(ch, needWorld, events, i + 1);
          return false;
        }
        executed := executed + {t};
        seenAction := true;
        awaiting := if needWorld then Some(t) else None;
        prior := Some(t);
      } else {
        if prior != Some(t) || !WorldTariff(e) {
          RejectedPrefix(ch, needWorld, events, i + 1);
          return false;
        }
        awaiting := None;
        prior := None;
      }
    }
    assert events[..|events|] == events;
    LoopTracksTokens(ch, needWorld, events);
    ExecutedWasPlanned(ch, needWorld, events);
    if !(forall t :: t in run.submission ==> t in executed) {
      return false;
    }
    if (planned == {} || !seenAction) && run.exhaustion.None? {
      return false;
    }
    ok := awaiting.None?;
  }

  lemma {:induction false} RejectedPrefix(ch: Challenge, needWorld: bool, es: seq<Event>, i: nat)
    requires i <= |es| && AuditEvents(ch, needWorld, es[..i]).None?
    ensures AuditEvents(ch, needWorld, es).None?
    decreases |es| - i
  {
    if i == |es| {
      assert es[..i] == es;
    } else {
      assert es[..i + 1] == es[..i] + [es[i]];
      AuditAppend(ch, needWorld, es[..i], es[i]);
      RejectedPrefix(ch, needWorld, es, i + 1);
    }
  }

  lemma {:induction false} ExecutedWasPlanned(ch: Challenge, needWorld: bool, es: seq<Event>)
    requires AuditEvents(ch, needWorld, es).Some?
    ensures AuditEvents(ch, needWorld, es).value.executed <= AuditEvents(ch, needWorld, es).value.planned
  {
    if es != [] { ExecutedWasPlanned(ch, needWorld, es[..|es| - 1]); }
  }
}

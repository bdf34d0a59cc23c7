/** The three charges a solver makes, and what each does to an audited ledger. */
module BenchCharges {
  import opened Wrappers
  import opened BenchModel
  import opened BenchAudit

  function PlanEvent(key: OpKey, a: Action): Event { Event(PLAN, key, Some(a.token), 0, 0, 1) }
  function ActionEvent(key: OpKey, a: Action): Event { Event(ACTION, key, Some(a.token), a.cost, 0, a.cost) }
  function WorldEvent(key: OpKey, a: Action): Event { Event(WORLD, key, Some(a.token), 0, 1, 2) }

  /** The solvers' view of a challenge: distinct tokens, positive costs. */
  predicate Priced(ch: Challenge) {
    DistinctTokens(ch.actions) && forall a :: a in ch.actions ==> a.cost >= 1
  }

  /** The ledger of a run in progress: valid, and so far acceptable to the audit. */
  predicate Sound(ch: Challenge, needWorld: bool, l: Ledger) {
    ValidLedger(l) && LoopAccepts(ch, needWorld, l.events)
  }

  ghost predicate Adds(l: Ledger, m: Ledger, es: seq<Event>) { m.limits == l.limits && m.events == l.events + es }

  lemma KeysAfter(es: seq<Event>, e: Event, k: OpKey)
    ensures KeyUsed(es + [e], k) <==> KeyUsed(es, k) || k == e.key
  {
    var longer := es + [e];
    if KeyUsed(es, k) {
      var i :| 0 <= i < |es| && es[i].key == k;
      assert longer[i].key == k;
    }
    if k == e.key { assert longer[|es|].key == k; }
  }

  /** The action alone: granted, or over a budget. */
  lemma ActionCharge(ch: Challenge, needWorld: bool, l: Ledger, key: OpKey, a: Action)
    requires Priced(ch) && a in ch.actions && Sound(ch, needWorld, l)
    requires key.prefix == ACTION && !KeyUsed(l.events, key) && a.token in Planned(l.events)
    ensures match Reserve(l, ActionEvent(key, a))
            case Malformed => false
            case Exceeded => !Fits(Plus(UsageOf(l.events), a.cost, 0, a.cost), l.limits)
            case Granted(m) =>
              && ValidLedger(m) && Adds(l, m, [ActionEvent(key, a)])
              && UsageOf(m.events) == Plus(UsageOf(l.events), a.cost, 0, a.cost)
              && Fits(Plus(UsageOf(l.events), a.cost, 0, a.cost), l.limits)
              && Planned(m.events) == Planned(l.events) && Executed(m.events) == Executed(l.events) + {a.token}
              && AuditEvents(ch, needWorld, m.events).Some?
              && AuditEvents(ch, needWorld, m.events).value.prior == Some(a.token)
              && (!needWorld ==> Sound(ch, needWorld, m))
  {
    FindFinds(ch.actions, a);
    var e := ActionEvent(key, a);
    if Reserve(l, e).Granted? {
      LoopTracksTokens(ch, needWorld, l.events);
      ReserveKeepsValid(l, e);
      AuditAppend(ch, needWorld, l.events, e);
      TokensAppend(l.events, e);
    }
  }

  /** The world event that settles an action just charged. */
  lemma WorldCharge(ch: Challenge, needWorld: bool, l: Ledger, key: OpKey, a: Action)
    requires Priced(ch) && a in ch.actions && ValidLedger(l)
    requires AuditEvents(ch, needWorld, l.events).Some?
    requires AuditEvents(ch, needWorld, l.events).value.prior == Some(a.token)
    requires key.prefix == WORLD && !KeyUsed(l.events, key)
    ensures match Reserve(l, WorldEvent(key, a))
            case Malformed => false
            case Exceeded => !Fits(Plus(UsageOf(l.events), 0, 1, 2), l.limits)
            case Granted(m) =>
              && UsageOf(m.events) == Plus(UsageOf(l.events), 0, 1, 2)
              && Sound(ch, needWorld, m) && Adds(l, m, [WorldEvent(key, a)])
              && Planned(m.events) == Planned(l.events) && Executed(m.events) == Executed(l.events)
  {
    FindFinds(ch.actions, a);
    var e := WorldEvent(key, a);
    if Reserve(l, e).Granted? {
      ReserveKeepsValid(l, e);
      AuditAppend(ch, needWorld, l.events, e);
      TokensAppend(l.events, e);
    }
  }

  /** An action and, where required, its world event, as one charge that happens or does not. */
  datatype Charge = Charged(ledger: Ledger) | Refused(exhaustion: Exhaustion)

  ghost predicate ChargeMeans(ch: Challenge, needWorld: bool, l: Ledger, actionKey: OpKey, worldKey: OpKey, a: Action, r: Charge) {
    match r
    case Refused(x) => ExhaustionHolds(ch, x, UsageOf(l.events), l.limits, needWorld) && x.token == a.token && x.kind != PlanAttempt
    case Charged(m) =>
      && Sound(ch, needWorld, m)
      && UsageOf(m.events) == Plus(UsageOf(l.events), a.cost, if needWorld then 1 else 0, a.cost + if needWorld then 2 else 0)
      && Adds(l, m, if needWorld then [ActionEvent(actionKey, a), WorldEvent(worldKey, a)] else [ActionEvent(actionKey, a)])
      && Planned(m.events) == Planned(l.events) && Executed(m.events) == Executed(l.events) + {a.token}
      && (forall k :: KeyUsed(m.events, k) ==> KeyUsed(l.events, k) || k == actionKey || k == worldKey)
      && UsageOf(l.events).latency < l.limits.latency
  }

  lemma ActionThenWorld(ch: Challenge, l: Ledger, actionKey: OpKey, worldKey: OpKey, a: Action, m: Ledger, n: Ledger)
    requires Priced(ch) && a in ch.actions
    requires Adds(l, m, [ActionEvent(actionKey, a)]) && Adds(m, n, [WorldEvent(worldKey, a)]) && Sound(ch, true, n)
    requires UsageOf(m.events) == Plus(UsageOf(l.events), a.cost, 0, a.cost)
    requires UsageOf(n.events) == Plus(UsageOf(m.events), 0, 1, 2)
    requires Fits(Plus(UsageOf(l.events), a.cost, 0, a.cost), l.limits)
    requires Planned(m.events) == Planned(l.events) && Executed(m.events) == Executed(l.events) + {a.token}
    requires Planned(n.events) == Planned(m.events) && Executed(n.events) == Executed(m.events)
    ensures ChargeMeans(ch, true, l, actionKey, worldKey, a, Charged(n))
  {
    forall k { KeysAfter(l.events, ActionEvent(actionKey, a), k); }
    forall k { KeysAfter(m.events, WorldEvent(worldKey, a), k); }
    assert (l.events + [ActionEvent(actionKey, a)]) + [WorldEvent(worldKey, a)] ==
           l.events + [ActionEvent(actionKey, a), WorldEvent(worldKey, a)];
  }

  method ChargeAction(ch: Challenge, needWorld: bool, l: Ledger, actionKey: OpKey, worldKey: OpKey, a: Action) returns (r: Charge)
    requires Priced(ch) && a in ch.actions && Sound(ch, needWorld, l) && a.token in Planned(l.events)
    requires actionKey.prefix == ACTION && !KeyUsed(l.events, actionKey)
    requires worldKey.prefix == WORLD && !KeyUsed(l.events, worldKey)
    ensures ChargeMeans(ch, needWorld, l, actionKey, worldKey, a, r)
  {
    FindFinds(ch.actions, a);
    ActionCharge(ch, needWorld, l, actionKey, a);
    var first := Reserve(l, ActionEvent(actionKey, a));
    if !first.Granted? {
      return Refused(Exhaustion(ActionAttempt, a.token, UsageOf(l.events), a.cost, 0, a.cost));
    }
    if !needWorld {
      return Charged(first.ledger);
    }
    KeysAfter(l.events, ActionEvent(actionKey, a), worldKey);
    WorldCharge(ch, needWorld, first.ledger, worldKey, a);
    var second := Reserve(first.ledger, WorldEvent(worldKey, a));
    if !second.Granted? {
      return Refused(Exhaustion(ActionWorldAttempt, a.token, UsageOf(l.events), a.cost, 1, a.cost + 2));
    }
    ActionThenWorld(ch, l, actionKey, worldKey, a, first.ledger, second.ledger);
    r := Charged(second.ledger);
  }

  ghost predicate PlanMeans(ch: Challenge, needWorld: bool, l: Ledger, key: OpKey, a: Action, r: Charge) {
    match r
    case Refused(x) =>
      && ExhaustionHolds(ch, x, UsageOf(l.events), l.limits, needWorld) && x.token == a.token
      && x.kind == PlanAttempt && UsageOf(l.events).latency == l.limits.latency
    case Charged(m) =>
      && UsageOf(m.events) == Plus(UsageOf(l.events), 0, 0, 1)
      && Sound(ch, needWorld, m) && Adds(l, m, [PlanEvent(key, a)])
      && Planned(m.events) == Planned(l.events) + {a.token} && Executed(m.events) == Executed(l.events)
      && (forall k :: KeyUsed(m.events, k) ==> KeyUsed(l.events, k) || k == key)
  }

  method ChargePlan(ch: Challenge, needWorld: bool, l: Ledger, key: OpKey, a: Action) returns (r: Charge)
    requires Priced(ch) && a in ch.actions && Sound(ch, needWorld, l)
    requires key.prefix == PLAN && !KeyUsed(l.events, key)
    ensures PlanMeans(ch, needWorld, l, key, a, r)
  {
    FindFinds(ch.actions, a);
    var planned := Reserve(l, PlanEvent(key, a));
    if !planned.Granted? {
      return Refused(Exhaustion(PlanAttempt, a.token, UsageOf(l.events), 0, 0, 1));
    }
    forall k { KeysAfter(l.events, PlanEvent(key, a), k); }
    r := Charged(planned.ledger);
  }
}

/** The tiered solver: breadth by depth, a promotion controller that picks among the planned
    expansions, and charges only for what was promoted. */
module BenchTiered {
  import opened Wrappers
  import opened BenchModel
  import opened BenchAudit
  import opened BenchCharges
  import opened BenchRanking
  import opened BenchAmple

  /** The features an ablation can switch off. The semantic twin only changes the scores that
      the controller sees, so it is part of the promotion function. */
  datatype Ablation = Ablation(scheduler: bool, worldTiers: bool, dedup: bool, compiler: bool, anchor: bool)
  datatype Config = Config(beamWidth: nat, off: Ablation)

  /** A candidate is named by a digest of its tokens, so the tokens stand for the candidate. What
      the controller promotes may depend on everything it was offered before. */
  type Batch = seq<seq<Token>>
  type Promotion = seq<Batch> -> Batch

  predicate Distinct(b: Batch) { forall i, j :: 0 <= i < j < |b| ==> b[i] != b[j] }

  ghost predicate Selects(chosen: Batch, offered: Batch) {
    Distinct(chosen) && forall t :: t in chosen ==> t in offered
  }

  ghost predicate Promotes(promote: Promotion) {
    forall history: seq<Batch> :: history != [] && Distinct(history[|history| - 1]) ==>
      Selects(promote(history), history[|history| - 1])
  }

  // ---------- Operation keys ----------

  function Parts(tokens: seq<Token>): seq<Part> { seq(|tokens|, i requires 0 <= i < |tokens| => OfToken(tokens[i])) }

  function Unparts(parts: seq<Part>): seq<Token> {
    seq(|parts|, i requires 0 <= i < |parts| => if parts[i].OfToken? then parts[i].token else 0)
  }

  function PlanKey(tokens: seq<Token>): OpKey { OpKey(PLAN, Parts(tokens)) }
  function ExecuteKey(tokens: seq<Token>): OpKey { OpKey(ACTION, Parts(tokens)) }
  function WorldKey(tokens: seq<Token>): OpKey { OpKey(WORLD, Parts(tokens)) }

  lemma PartsRoundTrip(tokens: seq<Token>)
    ensures Unparts(Parts(tokens)) == tokens
  {
  }

  /** Plans cover chains up to length `d` and the ones in `offered`; all other keys belong to
      chains in `charged`. */
  ghost predicate Keys(es: seq<Event>, d: nat, offered: set<seq<Token>>, charged: set<seq<Token>>) {
    forall k :: KeyUsed(es, k) ==>
      if k.prefix == PLAN then |k.parts| <= d || Unparts(k.parts) in offered else Unparts(k.parts) in charged
  }

  lemma FreshPlan(es: seq<Event>, d: nat, offered: set<seq<Token>>, charged: set<seq<Token>>, t: seq<Token>)
    requires Keys(es, d, offered, charged) && |t| == d + 1 && t !in offered
    ensures !KeyUsed(es, PlanKey(t))
  {
    PartsRoundTrip(t);
  }

  lemma FreshAction(es: seq<Event>, d: nat, offered: set<seq<Token>>, charged: set<seq<Token>>, t: seq<Token>)
    requires Keys(es, d, offered, charged) && t !in charged
    ensures !KeyUsed(es, ExecuteKey(t)) && !KeyUsed(es, WorldKey(t))
  {
    PartsRoundTrip(t);
  }

  // ---------- Paths ----------

  datatype Expansion = Expansion(path: Path, action: Action)

  function TokensOf(paths: seq<Path>): set<seq<Token>> { set p | p in paths :: p.tokens }
  function Offered(exps: seq<Expansion>): set<seq<Token>> { set e | e in exps :: e.path.tokens }

  function BatchOf(exps: seq<Expansion>): Batch { seq(|exps|, i requires 0 <= i < |exps| => exps[i].path.tokens) }

  /** The path's tokens replay to its state. */
  predicate Walks(ch: Challenge, p: Path) {
    Replay(ch, ch.initial, p.tokens) == Some(p.state) && NoRepeats(p.tokens) && GoalOnlyAtEnd(ch, p.tokens)
  }

  ghost predicate ChargedChain(es: seq<Event>, tokens: seq<Token>) { tokens == [] || KeyUsed(es, ExecuteKey(tokens)) }

  ghost predicate TokensCharged(es: seq<Event>, tokens: seq<Token>) { forall t :: t in tokens ==> t in Executed(es) }

  /** A path that was walked and paid for. */
  ghost predicate Trodden(ch: Challenge, es: seq<Event>, d: nat, p: Path) {
    Walks(ch, p) && |p.tokens| <= d && TokensCharged(es, p.tokens) && ChargedChain(es, p.tokens)
  }

  ghost predicate Trail(ch: Challenge, es: seq<Event>, d: nat, paths: seq<Path>) {
    forall p :: p in paths ==> Trodden(ch, es, d, p)
  }

  ghost predicate NoGoal(ch: Challenge, paths: seq<Path>) { forall p :: p in paths ==> !GoalReached(ch, p.state) }

  /** A planned step beyond a trodden path. */
  ghost predicate Expands(ch: Challenge, es: seq<Event>, d: nat, e: Expansion) {
    var t := e.path.tokens;
    && |t| == d + 1 && e.action in ch.actions && t[d] == e.action.token && Walks(ch, e.path)
    && e.action.token in Planned(es) && TokensCharged(es, t[..d])
  }

  /** Which frontier path and which action an expansion came from, before position (i, j). */
  ghost predicate Origin(ch: Challenge, frontier: seq<Path>, d: nat, e: Expansion, i: nat, j: nat)
    requires |e.path.tokens| == d + 1
  {
    exists f :: 0 <= f <= i && f < |frontier| && e.path.tokens[..d] == frontier[f].tokens
                && (f == i ==> exists g :: 0 <= g < j && g < |ch.actions| && ch.actions[g] == e.action)
  }

  ghost predicate Offers(ch: Challenge, es: seq<Event>, frontier: seq<Path>, d: nat, exps: seq<Expansion>, i: nat, j: nat) {
    && (forall e :: e in exps ==> Expands(ch, es, d, e) && Origin(ch, frontier, d, e, i, j))
    && Distinct(BatchOf(exps))
  }

  ghost predicate Frontier(frontier: seq<Path>, observed: seq<Path>, d: nat) {
    && (forall p :: p in frontier ==> p in observed && |p.tokens| == d)
    && forall i, j :: 0 <= i < j < |frontier| ==> frontier[i].tokens != frontier[j].tokens
  }

  /** The ledger of a run in progress, in step with the paths it has paid for. */
  ghost predicate Books(ch: Challenge, cfg: Config, budget: Limits, l: Ledger, d: nat, offered: set<seq<Token>>, paths: seq<Path>) {
    && Sound(ch, !cfg.off.worldTiers, l) && l.limits == budget && Keys(l.events, d, offered, TokensOf(paths))
  }

  // ---------- The plan phase ----------

  /** The step was planned, or cannot be taken, or leads to a state the run has already paid for. */
  ghost predicate StepSettled(cfg: Config, es: seq<Event>, seen: set<State>, p: Path, a: Action) {
    || a.token in p.tokens || !Applicable(a, p.state) || KeyUsed(es, PlanKey(p.tokens + [a.token]))
    || (!cfg.off.dedup && Apply(a, p.state) in seen)
  }

  ghost predicate SettledUpTo(ch: Challenge, cfg: Config, es: seq<Event>, seen: set<State>, p: Path, j: nat) {
    forall g :: 0 <= g < j && g < |ch.actions| ==> StepSettled(cfg, es, seen, p, ch.actions[g])
  }

  ghost predicate Settled(ch: Challenge, cfg: Config, es: seq<Event>, seen: set<State>, p: Path) {
    SettledUpTo(ch, cfg, es, seen, p, |ch.actions|)
  }

  /** With deduplication on, no expansion leads to a state already paid for. */
  ghost predicate Novel(cfg: Config, seen: set<State>, exps: seq<Expansion>) {
    !cfg.off.dedup ==> forall e :: e in exps ==> e.path.state !in seen
  }

  ghost predicate Planning(ch: Challenge, cfg: Config, budget: Limits, l: Ledger, frontier: seq<Path>, observed: seq<Path>,
                           d: nat, exps: seq<Expansion>, i: nat, j: nat) {
    && Books(ch, cfg, budget, l, d, Offered(exps), observed)
    && Trail(ch, l.events, d, observed) && Offers(ch, l.events, frontier, d, exps, i, j)
  }

  lemma StepWalks(ch: Challenge, p: Path, a: Action)
    requires Priced(ch) && Walks(ch, p) && !GoalReached(ch, p.state)
    requires a in ch.actions && a.token !in p.tokens && Applicable(a, p.state)
    ensures Walks(ch, Path(Apply(a, p.state), p.tokens + [a.token]))
  {
    FindFinds(ch.actions, a);
    ReplayAppend(ch, ch.initial, p.tokens, a.token);
    assert (p.tokens + [a.token])[..|p.tokens|] == p.tokens;
  }

  /** What a charge leaves of earlier facts: nothing executed, planned or keyed is lost. */
  ghost predicate Grows(es: seq<Event>, more: seq<Event>) {
    && Executed(es) <= Executed(more) && Planned(es) <= Planned(more)
    && forall k :: KeyUsed(es, k) ==> KeyUsed(more, k)
  }

  lemma AddsGrow(l: Ledger, m: Ledger, es: seq<Event>)
    requires Adds(l, m, es) && Executed(l.events) <= Executed(m.events) && Planned(l.events) <= Planned(m.events)
    ensures Grows(l.events, m.events)
  {
    forall k | KeyUsed(l.events, k) ensures KeyUsed(m.events, k) {
      var i :| 0 <= i < |l.events| && l.events[i].key == k;
      assert m.events[i].key == k;
    }
  }

  lemma TrailGrows(ch: Challenge, es: seq<Event>, more: seq<Event>, d: nat, paths: seq<Path>)
    requires Trail(ch, es, d, paths) && Grows(es, more)
    ensures Trail(ch, more, d, paths)
  {
    forall p | p in paths ensures Trodden(ch, more, d, p) { assert Trodden(ch, es, d, p); }
  }

  lemma ExpandsGrows(ch: Challenge, es: seq<Event>, more: seq<Event>, d: nat, exps: seq<Expansion>)
    requires (forall e :: e in exps ==> Expands(ch, es, d, e)) && Grows(es, more)
    ensures forall e :: e in exps ==> Expands(ch, more, d, e)
  {
    forall e | e in exps ensures Expands(ch, more, d, e) { assert Expands(ch, es, d, e); }
  }

  lemma OffersMore(ch: Challenge, es: seq<Event>, frontier: seq<Path>, observed: seq<Path>, d: nat,
                   exps: seq<Expansion>, i: nat, j: nat, e: Expansion)
    requires Priced(ch) && Frontier(frontier, observed, d) && Offers(ch, es, frontier, d, exps, i, j)
    requires i < |frontier| && j < |ch.actions| && e.action == ch.actions[j]
    requires e.path.tokens == frontier[i].tokens + [e.action.token] && Expands(ch, es, d, e)
    ensures Offers(ch, es, frontier, d, exps + [e], i, j + 1)
  {
    assert frontier[i] in frontier;
    assert e.path.tokens[..d] == frontier[i].tokens;
    assert Origin(ch, frontier, d, e, i, j + 1);
    DistinctMore(exps, e);
  }

  lemma DistinctMore(exps: seq<Expansion>, e: Expansion)
    requires Distinct(BatchOf(exps)) && e.path.tokens !in Offered(exps)
    ensures Distinct(BatchOf(exps + [e]))
  {
    var b := BatchOf(exps + [e]);
    assert forall i :: 0 <= i < |exps| ==> b[i] == BatchOf(exps)[i] && b[i] == exps[i].path.tokens && exps[i] in exps;
  }

  lemma BooksAfterPlan(ch: Challenge, cfg: Config, budget: Limits, l: Ledger, d: nat, exps: seq<Expansion>, paths: seq<Path>,
                       e: Expansion, m: Ledger)
    requires Books(ch, cfg, budget, l, d, Offered(exps), paths)
    requires PlanMeans(ch, !cfg.off.worldTiers, l, PlanKey(e.path.tokens), e.action, Charged(m))
    ensures Books(ch, cfg, budget, m, d, Offered(exps + [e]), paths)
    ensures Grows(l.events, m.events)
  {
    PartsRoundTrip(e.path.tokens);
    AddsGrow(l, m, [PlanEvent(PlanKey(e.path.tokens), e.action)]);
  }

  /** One granted plan. */
  lemma PlanStep(ch: Challenge, cfg: Config, budget: Limits, l: Ledger, frontier: seq<Path>, observed: seq<Path>,
                 d: nat, exps: seq<Expansion>, i: nat, j: nat, e: Expansion, m: Ledger)
    requires Priced(ch) && Frontier(frontier, observed, d) && Planning(ch, cfg, budget, l, frontier, observed, d, exps, i, j)
    requires i < |frontier| && j < |ch.actions| && e.action == ch.actions[j] && Walks(ch, e.path)
    requires e.path.tokens == frontier[i].tokens + [e.action.token]
    requires PlanMeans(ch, !cfg.off.worldTiers, l, PlanKey(e.path.tokens), e.action, Charged(m))
    ensures Planning(ch, cfg, budget, m, frontier, observed, d, exps + [e], i, j + 1)
  {
    BooksAfterPlan(ch, cfg, budget, l, d, exps, observed, e, m);
    TrailGrows(ch, l.events, m.events, d, observed);
    ExpandsGrows(ch, l.events, m.events, d, exps);
    assert frontier[i] in frontier;
    assert Trodden(ch, m.events, d, frontier[i]);
    assert e.path.tokens[..d] == frontier[i].tokens;
    assert Expands(ch, m.events, d, e);
    assert Offers(ch, m.events, frontier, d, exps, i, j) by {
      forall x | x in exps ensures Origin(ch, frontier, d, x, i, j) { assert Expands(ch, l.events, d, x); }
    }
    OffersMore(ch, m.events, frontier, observed, d, exps, i, j, e);
  }

  /** A refusal that is still the last word of the ledger. */
  ghost predicate Stands(ch: Challenge, cfg: Config, budget: Limits, l: Ledger, x: Option<Exhaustion>) {
    x.Some? ==> ExhaustionHolds(ch, x.value, UsageOf(l.events), budget, !cfg.off.worldTiers)
  }

  ghost predicate LatencyFull(l: Ledger, budget: Limits) { UsageOf(l.events).latency == budget.latency }

  lemma PlanningLater(ch: Challenge, cfg: Config, budget: Limits, l: Ledger, frontier: seq<Path>, observed: seq<Path>,
                      d: nat, exps: seq<Expansion>, i: nat, j: nat, i': nat, j': nat)
    requires Planning(ch, cfg, budget, l, frontier, observed, d, exps, i, j) && (i < i' || (i == i' && j <= j'))
    ensures Planning(ch, cfg, budget, l, frontier, observed, d, exps, i', j')
  {
  }

  /** The step from a frontier path is a walk whose plan has not been charged. */
  lemma BeforePlan(ch: Challenge, cfg: Config, budget: Limits, l: Ledger, frontier: seq<Path>, observed: seq<Path>,
                   d: nat, exps: seq<Expansion>, i: nat, j: nat, next: Path)
    requires Priced(ch) && Frontier(frontier, observed, d) && NoGoal(ch, observed) && i < |frontier| && j < |ch.actions|
    requires Planning(ch, cfg, budget, l, frontier, observed, d, exps, i, j)
    requires ch.actions[j].token !in frontier[i].tokens && Applicable(ch.actions[j], frontier[i].state)
    requires next == Path(Apply(ch.actions[j], frontier[i].state), frontier[i].tokens + [ch.actions[j].token])
    ensures Walks(ch, next) && Sound(ch, !cfg.off.worldTiers, l) && l.limits == budget
    ensures PlanKey(next.tokens).prefix == PLAN && !KeyUsed(l.events, PlanKey(next.tokens))
  {
    assert frontier[i] in frontier;
    assert Trodden(ch, l.events, d, frontier[i]);
    StepWalks(ch, frontier[i], ch.actions[j]);
    FreshPlan(l.events, d, Offered(exps), TokensOf(observed), next.tokens);
  }

  lemma GrowsOn(a: seq<Event>, b: seq<Event>, c: seq<Event>)
    ensures Grows(a, a) && (Grows(a, b) && Grows(b, c) ==> Grows(a, c))
  {
  }

  lemma PlanSettles(ch: Challenge, cfg: Config, l: Ledger, m: Ledger, seen: set<State>, p: Path, j: nat)
    requires j < |ch.actions| && SettledUpTo(ch, cfg, l.events, seen, p, j)
    requires PlanMeans(ch, !cfg.off.worldTiers, l, PlanKey(p.tokens + [ch.actions[j].token]), ch.actions[j], Charged(m))
    ensures SettledUpTo(ch, cfg, m.events, seen, p, j + 1) && Grows(l.events, m.events)
  {
    var key := PlanKey(p.tokens + [ch.actions[j].token]);
    AddsGrow(l, m, [PlanEvent(key, ch.actions[j])]);
    assert m.events[|l.events|].key == key;
  }

  lemma RefusedPlan(ch: Challenge, cfg: Config, budget: Limits, l: Ledger, tokens: seq<Token>, a: Action, r: Charge)
    requires r.Refused? && PlanMeans(ch, !cfg.off.worldTiers, l, PlanKey(tokens), a, r) && l.limits == budget
    ensures Stands(ch, cfg, budget, l, Some(r.exhaustion)) && LatencyFull(l, budget)
  {
  }

  lemma SettledGrows(ch: Challenge, cfg: Config, es: seq<Event>, more: seq<Event>, seen: set<State>, p: Path)
    requires Settled(ch, cfg, es, seen, p) && Grows(es, more)
    ensures Settled(ch, cfg, more, seen, p)
  {
    forall g | 0 <= g < |ch.actions| ensures StepSettled(cfg, more, seen, p, ch.actions[g]) {
      assert StepSettled(cfg, es, seen, p, ch.actions[g]);
    }
  }

  /** One latency unit was charged for every expansion added, and nothing else was planned. */
  ghost predicate PlannedFor(l0: Ledger, l: Ledger, exps0: seq<Expansion>, exps: seq<Expansion>) {
    && exps0 <= exps && UsageOf(l.events) == Plus(UsageOf(l0.events), 0, 0, |exps| - |exps0|)
    && forall t :: KeyUsed(l.events, PlanKey(t)) ==> KeyUsed(l0.events, PlanKey(t)) || t in Offered(exps)
  }

  lemma PlannedForOn(a: Ledger, b: Ledger, c: Ledger, e0: seq<Expansion>, e1: seq<Expansion>, e2: seq<Expansion>)
    requires PlannedFor(a, b, e0, e1) && PlannedFor(b, c, e1, e2)
    ensures PlannedFor(a, c, e0, e2)
  {
    assert Offered(e1) <= Offered(e2);
  }

  lemma NothingPlanned(l: Ledger, exps: seq<Expansion>)
    ensures PlannedFor(l, l, exps, exps)
  {
  }

  lemma PlannedOne(ch: Challenge, needWorld: bool, l: Ledger, exps: seq<Expansion>, e: Expansion, m: Ledger)
    requires PlanMeans(ch, needWorld, l, PlanKey(e.path.tokens), e.action, Charged(m))
    ensures PlannedFor(l, m, exps, exps + [e])
  {
    forall t | KeyUsed(m.events, PlanKey(t)) && !KeyUsed(l.events, PlanKey(t)) ensures t in Offered(exps + [e]) {
      PartsRoundTrip(t);
      PartsRoundTrip(e.path.tokens);
      assert e in exps + [e];
    }
  }

  /** Plans every new step from one frontier path, until the latency budget is full. */
  method PlanPath(ch: Challenge, cfg: Config, ghost budget: Limits, l0: Ledger, path: Path, seen: set<State>, exps0: seq<Expansion>,
                  ghost frontier: seq<Path>, ghost observed: seq<Path>, ghost d: nat, ghost i: nat)
    returns (l: Ledger, exps: seq<Expansion>, refused: Option<Exhaustion>)
    requires Priced(ch) && Frontier(frontier, observed, d) && NoGoal(ch, observed)
    requires i < |frontier| && path == frontier[i]
    requires Planning(ch, cfg, budget, l0, frontier, observed, d, exps0, i, 0) && Novel(cfg, seen, exps0)
    ensures Planning(ch, cfg, budget, l, frontier, observed, d, exps, i + 1, 0) && Novel(cfg, seen, exps)
    ensures refused.Some? ==> Stands(ch, cfg, budget, l, refused) && LatencyFull(l, budget)
    ensures refused.None? ==> Settled(ch, cfg, l.events, seen, path)
    ensures Grows(l0.events, l.events) && PlannedFor(l0, l, exps0, exps)
    ensures |exps| <= |exps0| + |ch.actions| && (refused.Some? ==> |exps| < |exps0| + |ch.actions|)
  {
    hide PlannedFor, PlanMeans, Planning, Frontier, NoGoal, Sound, KeyUsed, Priced, Grows, Walks, ExhaustionHolds, Planned, Executed;
    l, exps, refused := l0, exps0, None;
    GrowsOn(l0.events, l0.events, l0.events);
    NothingPlanned(l0, exps0);
    for j := 0 to |ch.actions|
      invariant Planning(ch, cfg, budget, l, frontier, observed, d, exps, i, j) && Novel(cfg, seen, exps) && refused.None?
      invariant SettledUpTo(ch, cfg, l.events, seen, path, j) && Grows(l0.events, l.events)
      invariant PlannedFor(l0, l, exps0, exps) && |exps| <= |exps0| + j
    {
      var a := ch.actions[j];
      var next := Path(Apply(a, path.state), path.tokens + [a.token]);
      if a.token !in path.tokens && Applicable(a, path.state) && (cfg.off.dedup || next.state !in seen) {
        BeforePlan(ch, cfg, budget, l, frontier, observed, d, exps, i, j, next);
        var plan := ChargePlan(ch, !cfg.off.worldTiers, l, PlanKey(next.tokens), a);
        if plan.Refused? {
          RefusedPlan(ch, cfg, budget, l, next.tokens, a, plan);
          PlanningLater(ch, cfg, budget, l, frontier, observed, d, exps, i, j, i + 1, 0);
          return l, exps, Some(plan.exhaustion);
        }
        PlanStep(ch, cfg, budget, l, frontier, observed, d, exps, i, j, Expansion(next, a), plan.ledger);
        PlanSettles(ch, cfg, l, plan.ledger, seen, path, j);
        GrowsOn(l0.events, l.events, plan.ledger.events);
        PlannedOne(ch, !cfg.off.worldTiers, l, exps, Expansion(next, a), plan.ledger);
        PlannedForOn(l0, l, plan.ledger, exps0, exps, exps + [Expansion(next, a)]);
        l, exps := plan.ledger, exps + [Expansion(next, a)];
      } else {
        PlanningLater(ch, cfg, budget, l, frontier, observed, d, exps, i, j, i, j + 1);
      }
    }
    PlanningLater(ch, cfg, budget, l, frontier, observed, d, exps, i, |ch.actions|, i + 1, 0);
  }

  lemma OneMore(i: nat, m: nat, n: nat)
    requires i < m
    ensures i * n + n == (i + 1) * n <= m * n
  {
    ProductsGrow(i + 1, m, n);
  }

  /** Plans from every frontier path in order. */
  method PlanFrontier(ch: Challenge, cfg: Config, ghost budget: Limits, l0: Ledger, frontier: seq<Path>, seen: set<State>,
                      ghost observed: seq<Path>, ghost d: nat)
    returns (l: Ledger, exps: seq<Expansion>, refused: Option<Exhaustion>)
    requires Priced(ch) && Frontier(frontier, observed, d) && NoGoal(ch, observed)
    requires Books(ch, cfg, budget, l0, d, {}, observed) && Trail(ch, l0.events, d, observed)
    ensures Planning(ch, cfg, budget, l, frontier, observed, d, exps, |frontier|, 0) && Novel(cfg, seen, exps)
    ensures refused.Some? ==> Stands(ch, cfg, budget, l, refused) && LatencyFull(l, budget)
    ensures refused.None? ==> forall f :: 0 <= f < |frontier| ==> Settled(ch, cfg, l.events, seen, frontier[f])
    ensures Grows(l0.events, l.events) && PlannedFor(l0, l, [], exps)
    ensures |exps| <= |frontier| * |ch.actions| && (refused.Some? ==> |exps| < |frontier| * |ch.actions|)
  {
    hide PlannedFor, Frontier, NoGoal, Priced, Grows, Stands, Settled, Sound, Trail, Keys, TokensOf;
    assert Offered([]) == {};
    l, exps, refused := l0, [], None;
    GrowsOn(l0.events, l0.events, l0.events);
    NothingPlanned(l0, []);
    for i := 0 to |frontier|
      invariant Planning(ch, cfg, budget, l, frontier, observed, d, exps, i, 0) && Novel(cfg, seen, exps) && refused.None?
      invariant forall f :: 0 <= f < i ==> Settled(ch, cfg, l.events, seen, frontier[f])
      invariant Grows(l0.events, l.events) && PlannedFor(l0, l, [], exps) && |exps| <= i * |ch.actions|
    {
      ghost var before, wasLedger, wasExps := l.events, l, exps;
      l, exps, refused := PlanPath(ch, cfg, budget, l, frontier[i], seen, exps, frontier, observed, d, i);
      GrowsOn(l0.events, before, l.events);
      PlannedForOn(l0, wasLedger, l, [], wasExps, exps);
      OneMore(i, |frontier|, |ch.actions|);
      if refused.Some? {
        if i + 1 < |frontier| { PlanningLater(ch, cfg, budget, l, frontier, observed, d, exps, i + 1, 0, |frontier|, 0); }
        return;
      }
      forall f | 0 <= f < i { SettledGrows(ch, cfg, before, l.events, seen, frontier[f]); }
    }
  }

  // ---------- The charge phase ----------

  /** The promoted candidate's expansion. */
  function ById(exps: seq<Expansion>, id: seq<Token>): (r: Expansion)
    requires id in Offered(exps)
    ensures r in exps && r.path.tokens == id
    decreases |exps|
  {
    if exps[0].path.tokens == id then exps[0]
    else
      assert exps == [exps[0]] + exps[1..];
      ById(exps[1..], id)
  }

  function Ids(paths: seq<Path>): Batch { seq(|paths|, i requires 0 <= i < |paths| => paths[i].tokens) }

  /** Charges in progress: everything observed has been walked and paid for. */
  ghost predicate Charging(ch: Challenge, cfg: Config, budget: Limits, l: Ledger, observed: seq<Path>, d: nat,
                           exps: seq<Expansion>, next: seq<Path>) {
    && Books(ch, cfg, budget, l, d, Offered(exps), observed + next)
    && Trail(ch, l.events, d + 1, observed + next)
    && (forall e :: e in exps ==> Expands(ch, l.events, d, e))
    && (forall p :: p in next ==> |p.tokens| == d + 1 && exists e :: e in exps && e.path == p)
  }

  lemma ChargingStarts(ch: Challenge, cfg: Config, budget: Limits, l: Ledger, frontier: seq<Path>, observed: seq<Path>,
                       d: nat, exps: seq<Expansion>)
    requires Planning(ch, cfg, budget, l, frontier, observed, d, exps, |frontier|, 0)
    ensures Charging(ch, cfg, budget, l, observed, d, exps, []) && Distinct(BatchOf(exps))
  {
    assert observed + [] == observed;
    forall p | p in observed ensures Trodden(ch, l.events, d + 1, p) { assert Trodden(ch, l.events, d, p); }
  }

  /** Promoted candidates are distinct and longer than what was observed before. */
  lemma NotYetCharged(observed: seq<Path>, d: nat, next: seq<Path>, promoted: Batch, t: seq<Token>)
    requires |next| < |promoted| && Distinct(promoted) && Ids(next) == promoted[..|next|] && promoted[|next|] == t
    requires |t| == d + 1 && forall p :: p in observed ==> |p.tokens| <= d
    ensures t !in TokensOf(observed + next)
  {
    forall p | p in observed + next ensures p.tokens != t {
      if p in next {
        var k :| 0 <= k < |next| && next[k] == p;
        assert Ids(next)[k] == promoted[k];
      }
    }
  }

  lemma BeforeCharge(ch: Challenge, cfg: Config, budget: Limits, l: Ledger, observed: seq<Path>, d: nat,
                     exps: seq<Expansion>, next: seq<Path>, promoted: Batch, e: Expansion)
    requires Charging(ch, cfg, budget, l, observed, d, exps, next) && e in exps
    requires |next| < |promoted| && Distinct(promoted) && Ids(next) == promoted[..|next|] && promoted[|next|] == e.path.tokens
    requires forall p :: p in observed ==> |p.tokens| <= d
    ensures e.action in ch.actions && Sound(ch, !cfg.off.worldTiers, l) && l.limits == budget
    ensures e.action.token in Planned(l.events)
    ensures ExecuteKey(e.path.tokens).prefix == ACTION && !KeyUsed(l.events, ExecuteKey(e.path.tokens))
    ensures WorldKey(e.path.tokens).prefix == WORLD && !KeyUsed(l.events, WorldKey(e.path.tokens))
  {
    hide Distinct, Ids, Keys, Sound, Walks, Trodden, KeyUsed;
    assert Expands(ch, l.events, d, e);
    NotYetCharged(observed, d, next, promoted, e.path.tokens);
    FreshAction(l.events, d, Offered(exps), TokensOf(observed + next), e.path.tokens);
  }

  lemma BooksAfterCharge(ch: Challenge, cfg: Config, budget: Limits, l: Ledger, d: nat, offered: set<seq<Token>>, paths: seq<Path>,
                         e: Expansion, m: Ledger)
    requires Books(ch, cfg, budget, l, d, offered, paths)
    requires ChargeMeans(ch, !cfg.off.worldTiers, l, ExecuteKey(e.path.tokens), WorldKey(e.path.tokens), e.action, Charged(m))
    ensures Books(ch, cfg, budget, m, d, offered, paths + [e.path])
    ensures Grows(l.events, m.events) && KeyUsed(m.events, ExecuteKey(e.path.tokens))
  {
    var t := e.path.tokens;
    PartsRoundTrip(t);
    AddsGrow(l, m, if cfg.off.worldTiers then [ActionEvent(ExecuteKey(t), e.action)]
                   else [ActionEvent(ExecuteKey(t), e.action), WorldEvent(WorldKey(t), e.action)]);
    assert m.events[|l.events|].key == ExecuteKey(t);
  }

  lemma NewlyTrodden(ch: Challenge, es: seq<Event>, more: seq<Event>, d: nat, e: Expansion)
    requires Expands(ch, es, d, e) && Grows(es, more)
    requires e.action.token in Executed(more) && KeyUsed(more, ExecuteKey(e.path.tokens))
    ensures Trodden(ch, more, d + 1, e.path) && |e.path.tokens| == d + 1
  {
    var t := e.path.tokens;
    assert t == t[..d] + [t[d]];
  }

  /** One granted charge. */
  lemma ChargeStep(ch: Challenge, cfg: Config, budget: Limits, l: Ledger, observed: seq<Path>, d: nat,
                   exps: seq<Expansion>, next: seq<Path>, e: Expansion, m: Ledger)
    requires Charging(ch, cfg, budget, l, observed, d, exps, next) && e in exps
    requires ChargeMeans(ch, !cfg.off.worldTiers, l, ExecuteKey(e.path.tokens), WorldKey(e.path.tokens), e.action, Charged(m))
    ensures Charging(ch, cfg, budget, m, observed, d, exps, next + [e.path])
    ensures !LatencyFull(l, budget) && Grows(l.events, m.events)
  {
    hide Sound, Keys, Trodden, Expands, Grows, Adds;
    BooksAfterCharge(ch, cfg, budget, l, d, Offered(exps), observed + next, e, m);
    TrailGrows(ch, l.events, m.events, d + 1, observed + next);
    ExpandsGrows(ch, l.events, m.events, d, exps);
    NewlyTrodden(ch, l.events, m.events, d, e);
    assert observed + (next + [e.path]) == (observed + next) + [e.path];
  }

  lemma PromotedIsOffered(exps: seq<Expansion>, promoted: Batch, n: nat)
    requires Selects(promoted, BatchOf(exps)) && n < |promoted|
    ensures promoted[n] in Offered(exps)
  {
    assert promoted[n] in BatchOf(exps);
    var i :| 0 <= i < |exps| && BatchOf(exps)[i] == promoted[n];
    assert exps[i] in exps;
  }

  /** What `n` charges leave of a frugal account, and that they planned nothing. */
  ghost predicate PaidFor(ch: Challenge, l0: Ledger, l: Ledger, n: nat) {
    && (forall p: nat, q: nat :: Frugal(ch, UsageOf(l0.events), p, q) ==> Frugal(ch, UsageOf(l.events), p, q + n))
    && forall t :: KeyUsed(l.events, PlanKey(t)) ==> KeyUsed(l0.events, PlanKey(t))
  }

  lemma NothingPaid(ch: Challenge, l: Ledger)
    ensures PaidFor(ch, l, l, 0)
  {
  }

  lemma PaidOne(ch: Challenge, cfg: Config, l0: Ledger, l: Ledger, n: nat, e: Expansion, m: Ledger)
    requires PaidFor(ch, l0, l, n) && e.action in ch.actions
    requires ChargeMeans(ch, !cfg.off.worldTiers, l, ExecuteKey(e.path.tokens), WorldKey(e.path.tokens), e.action, Charged(m))
    ensures PaidFor(ch, l0, m, n + 1)
  {
    hide Frugal;
    forall p: nat, q: nat | Frugal(ch, UsageOf(l0.events), p, q) ensures Frugal(ch, UsageOf(m.events), p, q + (n + 1)) {
      ChargeIsFrugal(ch, UsageOf(l.events), p, q + n, e.action, if cfg.off.worldTiers then 0 else 1, if cfg.off.worldTiers then 0 else 2);
      assert q + (n + 1) == q + n + 1;
    }
  }

  /** Distinct candidates out of those offered are no more than those offered. */
  lemma SelectsNoMore(chosen: Batch, offered: Batch)
    requires Selects(chosen, offered)
    ensures |chosen| <= |offered|
  {
    var a, b := set t | t in chosen, set t | t in offered;
    DistinctCount(chosen);
    OfferedCount(offered);
    SubsetsAreSmaller(a, b);
  }

  lemma {:induction false} DistinctCount(b: Batch)
    requires Distinct(b)
    ensures |set t | t in b| == |b|
  {
    if b != [] {
      var init, last := b[..|b| - 1], b[|b| - 1];
      DistinctCount(init);
      assert b == init + [last];
      assert (set t | t in b) == (set t | t in init) + {last};
    }
  }

  lemma {:induction false} OfferedCount(b: Batch)
    ensures |set t | t in b| <= |b|
  {
    if b != [] {
      var init, last := b[..|b| - 1], b[|b| - 1];
      OfferedCount(init);
      assert b == init + [last];
      assert (set t | t in b) == (set t | t in init) + {last};
    }
  }

  lemma SubsetsAreSmaller(a: set<seq<Token>>, b: set<seq<Token>>)
    requires a <= b
    ensures |a| <= |b|
  {
    assert b == a + (b - a);
  }

  /** Charges for the promoted candidates in order, until one is refused. After a refused plan the
      latency budget is full, so nothing can be charged and the refusal stands. */
  method ChargePromoted(ch: Challenge, cfg: Config, ghost budget: Limits, l0: Ledger, exps: seq<Expansion>, promoted: Batch,
                        ghost observed: seq<Path>, ghost d: nat, refused0: Option<Exhaustion>)
    returns (l: Ledger, next: seq<Path>, refused: Option<Exhaustion>)
    requires Priced(ch) && Charging(ch, cfg, budget, l0, observed, d, exps, []) && Selects(promoted, BatchOf(exps))
    requires refused0.Some? ==> Stands(ch, cfg, budget, l0, refused0) && LatencyFull(l0, budget)
    requires forall p :: p in observed ==> |p.tokens| <= d
    ensures Charging(ch, cfg, budget, l, observed, d, exps, next) && Stands(ch, cfg, budget, l, refused)
    ensures |next| <= |promoted| && Ids(next) == promoted[..|next|]
    ensures refused.None? ==> refused0.None? && |next| == |promoted|
    ensures refused0.Some? ==> refused.Some? && next == []
    ensures Grows(l0.events, l.events) && PaidFor(ch, l0, l, |next|)
    ensures refused.Some? && refused0.None? ==> |next| < |promoted| && refused.value.kind != PlanAttempt
  {
    hide PaidFor, Charging, Sound, Executed, Adds, KeyUsed, Planned, Priced, Grows, ExhaustionHolds, BatchOf, Offered;
    GrowsOn(l0.events, l0.events, l0.events);
    l, next, refused := l0, [], refused0;
    NothingPaid(ch, l0);
    for n := 0 to |promoted|
      invariant Charging(ch, cfg, budget, l, observed, d, exps, next) && Stands(ch, cfg, budget, l, refused)
      invariant |next| == n && Ids(next) == promoted[..n] && Grows(l0.events, l.events) && PaidFor(ch, l0, l, n)
      invariant refused == refused0 && (refused0.Some? ==> n == 0 && LatencyFull(l, budget))
    {
      PromotedIsOffered(exps, promoted, n);
      var e := ById(exps, promoted[n]);
      BeforeCharge(ch, cfg, budget, l, observed, d, exps, next, promoted, e);
      var charge := ChargeAction(ch, !cfg.off.worldTiers, l, ExecuteKey(e.path.tokens), WorldKey(e.path.tokens), e.action);
      if charge.Refused? {
        return l, next, Some(charge.exhaustion);
      }
      ChargeStep(ch, cfg, budget, l, observed, d, exps, next, e, charge.ledger);
      GrowsOn(l0.events, l.events, charge.ledger.events);
      PaidOne(ch, cfg, l0, l, n, e, charge.ledger);
      l, next := charge.ledger, next + [e.path];
    }
  }
}

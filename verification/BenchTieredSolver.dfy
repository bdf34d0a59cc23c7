/** The tiered solver's outer loop and what its runs promise: a valid and fully paid chain, the
    best of everything paid for, a search without gaps, and the exact audit verdict. */
module BenchTieredSolver {
  import opened Wrappers
  import opened BenchModel
  import opened BenchAudit
  import opened BenchCharges
  import opened BenchRanking
  import opened BenchTiered
  import opened BenchAmple
  import BenchGenerator
  import BenchNames

  // ---------- What a run promises ----------

  function PathTo(ch: Challenge, tokens: seq<Token>): Path
    requires Replay(ch, ch.initial, tokens).Some?
  {
    Path(Replay(ch, ch.initial, tokens).value, tokens)
  }

  /** Every charged chain is a walk, and the submission is the best of them. */
  ghost predicate BestCharged(ch: Challenge, es: seq<Event>, tokens: seq<Token>)
    requires Replay(ch, ch.initial, tokens).Some?
  {
    var best := PathTo(ch, tokens);
    ChargedChain(es, tokens) &&
    forall c :: ChargedChain(es, c) ==>
      && Replay(ch, ch.initial, c).Some? && NoRepeats(c) && GoalOnlyAtEnd(ch, c)
      && NoWorse(Rank(ch, best), best, Rank(ch, PathTo(ch, c)), PathTo(ch, c))
  }

  /** The step from a charged chain was planned, or cannot be taken, or (with deduplication) leads
      to the state of a charged chain that is no longer. */
  ghost predicate Accounted(ch: Challenge, cfg: Config, es: seq<Event>, p: Path, a: Action) {
    || a.token in p.tokens || !Applicable(a, p.state) || KeyUsed(es, PlanKey(p.tokens + [a.token]))
    || (!cfg.off.dedup && exists c :: ReachedBy(ch, es, c, Apply(a, p.state)) && |c| <= |p.tokens|)
  }

  ghost predicate ReachedBy(ch: Challenge, es: seq<Event>, c: seq<Token>, s: State) {
    ChargedChain(es, c) && Replay(ch, ch.initial, c) == Some(s)
  }

  /** No step from a charged chain shorter than `reach` was overlooked. */
  ghost predicate Thorough(ch: Challenge, cfg: Config, es: seq<Event>, reach: nat) {
    forall c, s, a :: ReachedBy(ch, es, c, s) && |c| < reach && a in ch.actions ==> Accounted(ch, cfg, es, Path(s, c), a)
  }

  /** No chain beyond the length limit is planned or charged; without the chain compiler, no chain
      of more than one action. */
  ghost predicate WithinLimits(ch: Challenge, cfg: Config, es: seq<Event>) {
    forall c :: KeyUsed(es, PlanKey(c)) || ChargedChain(es, c) ==>
      if cfg.off.compiler then |c| <= 1 else |c| <= ch.maxLength
  }

  /** With deduplication on, no state is paid for again at a greater depth. */
  ghost predicate NoStateTwice(ch: Challenge, cfg: Config, es: seq<Event>) {
    !cfg.off.dedup ==> forall c, c', s :: ReachedBy(ch, es, c, s) && ReachedBy(ch, es, c', s) ==> |c| == |c'|
  }

  ghost predicate SubmissionHolds(ch: Challenge, cfg: Config, run: SystemRun) {
    var es, c := run.ledger.events, run.submission;
    && Replay(ch, ch.initial, c).Some? && NoRepeats(c) && GoalOnlyAtEnd(ch, c)
    && (forall t :: t in c ==> t in Executed(es) && t in Planned(es))
    && BestCharged(ch, es, c)
  }

  ghost predicate StopHolds(ch: Challenge, cfg: Config, budget: Limits, run: SystemRun)
    requires Replay(ch, ch.initial, run.submission).Some?
  {
    && (run.stop == GoalReachedStop <==> GoalReached(ch, PathTo(ch, run.submission).state))
    && (run.stop == CompilerDisabled <==> cfg.off.compiler && run.stop != GoalReachedStop)
    && (run.stop == DepthLimit ==> |run.submission| == ch.maxLength)
    && (run.stop == NoProgress ==> |run.submission| < ch.maxLength)
    && (run.stop == BudgetExhausted <==> run.exhaustion.Some?)
    && Stands(ch, cfg, budget, run.ledger, run.exhaustion)
  }

  ghost predicate TieredRun(ch: Challenge, cfg: Config, budget: Limits, run: SystemRun) {
    var es := run.ledger.events;
    && ValidLedger(run.ledger) && run.ledger.limits == budget && run.anchored == !cfg.off.anchor
    && SubmissionHolds(ch, cfg, run) && StopHolds(ch, cfg, budget, run)
    && (run.stop in {NoProgress, DepthLimit} ==> Thorough(ch, cfg, es, ch.maxLength)) && NoStateTwice(ch, cfg, es)
    && WithinLimits(ch, cfg, es)
    && (Auditable(ch, run, budget, !cfg.off.worldTiers) <==> Executed(es) != {} || run.stop == BudgetExhausted)
  }

  /** A run the budget never touched: it overlooked nothing up to where it stopped. */
  ghost predicate Unhindered(ch: Challenge, cfg: Config, run: SystemRun) {
    run.stop != BudgetExhausted &&
    Thorough(ch, cfg, run.ledger.events, if run.stop == GoalReachedStop then |run.submission| else ch.maxLength)
  }

  ghost predicate NoFarther(ch: Challenge, c: seq<Token>, t: seq<Token>) {
    && Replay(ch, ch.initial, c).Some? && Replay(ch, ch.initial, t).Some?
    && Rank(ch, PathTo(ch, c)) <= Rank(ch, PathTo(ch, t))
  }

  /** A batch as the solver offers it: distinct chains that replay. */
  ghost predicate Proper(ch: Challenge, b: Batch) { Distinct(b) && forall t :: t in b ==> Replay(ch, ch.initial, t).Some? }

  /** Every offered candidate has one at least as near among the chosen. */
  ghost predicate KeepsOne(ch: Challenge, chosen: Batch, offered: Batch) {
    forall t :: t in offered ==> exists c :: c in chosen && NoFarther(ch, c, t)
  }

  /** A promotion that never drops all of the offered candidates nearest to the goal. */
  ghost predicate KeepsANearest(ch: Challenge, promote: Promotion) {
    forall history: seq<Batch> :: history != [] && Proper(ch, history[|history| - 1]) ==>
      KeepsOne(ch, promote(history), history[|history| - 1])
  }

  /** For every planned chain, one of the same length that is no farther from the goal was charged. */
  ghost predicate NearestKept(ch: Challenge, es: seq<Event>) {
    forall t :: KeyUsed(es, PlanKey(t)) && Replay(ch, ch.initial, t).Some? ==> KeptFor(ch, es, t)
  }

  ghost predicate KeptFor(ch: Challenge, es: seq<Event>, t: seq<Token>) {
    exists c :: |c| == |t| && ChargedChain(es, c) && NoFarther(ch, c, t)
  }

  /** The whole promise of a run. */
  ghost predicate SolveMeans(ch: Challenge, cfg: Config, budget: Limits, promote: Promotion, run: SystemRun) {
    && TieredRun(ch, cfg, budget, run)
    && (Ample(ch, budget) && !cfg.off.compiler ==> Unhindered(ch, cfg, run))
    && (Ample(ch, budget) && !cfg.off.compiler && !cfg.off.scheduler && KeepsANearest(ch, promote) ==>
          NearestKept(ch, run.ledger.events))
  }

  // ---------- Between rounds ----------

  /** The number of rounds the search may take. */
  function MaxDepth(ch: Challenge, cfg: Config): nat { if cfg.off.compiler then 1 else ch.maxLength }

  function StatesOf(paths: seq<Path>): set<State> { set p | p in paths :: p.state }

  ghost predicate Depths(cfg: Config, paths: seq<Path>) {
    !cfg.off.dedup ==> forall p, q :: p in paths && q in paths && |p.tokens| < |q.tokens| ==> p.state != q.state
  }

  /** The books after `d` rounds. */
  ghost predicate Rest(ch: Challenge, cfg: Config, budget: Limits, l: Ledger, observed: seq<Path>, d: nat) {
    && Books(ch, cfg, budget, l, d, {}, observed) && Trail(ch, l.events, d, observed)
    && Path(ch.initial, []) in observed && Depths(cfg, observed)
  }

  /** The frontier is all that was observed at depth `d`. */
  ghost predicate Edge(frontier: seq<Path>, observed: seq<Path>, d: nat) {
    Frontier(frontier, observed, d) && forall p :: p in observed && |p.tokens| == d ==> p in frontier
  }

  ghost predicate StepCovered(cfg: Config, es: seq<Event>, observed: seq<Path>, p: Path, a: Action) {
    || a.token in p.tokens || !Applicable(a, p.state) || KeyUsed(es, PlanKey(p.tokens + [a.token]))
    || (!cfg.off.dedup && exists q :: q in observed && |q.tokens| <= |p.tokens| && q.state == Apply(a, p.state))
  }

  /** No step from a path shorter than `reach` was overlooked. */
  ghost predicate Surveyed(ch: Challenge, cfg: Config, es: seq<Event>, observed: seq<Path>, reach: nat) {
    forall p, a :: p in observed && |p.tokens| < reach && a in ch.actions ==> StepCovered(cfg, es, observed, p, a)
  }

  lemma StartOfRun(ch: Challenge, cfg: Config, budget: Limits)
    requires !GoalReached(ch, ch.initial)
    ensures var start := Path(ch.initial, []);
            && Rest(ch, cfg, budget, Ledger(budget, []), [start], 0) && Edge([start], [start], 0)
            && Surveyed(ch, cfg, [], [start], 0) && NoGoal(ch, [start]) && StatesOf([start]) == {ch.initial}
  {
  }

  /** What the charge phase leaves behind is the rest after one more round. */
  lemma RoundRests(ch: Challenge, cfg: Config, budget: Limits, l0: Ledger, l: Ledger, observed: seq<Path>, d: nat,
                   exps: seq<Expansion>, next: seq<Path>)
    requires Rest(ch, cfg, budget, l0, observed, d) && Charging(ch, cfg, budget, l, observed, d, exps, next)
    requires Novel(cfg, StatesOf(observed), exps)
    ensures Rest(ch, cfg, budget, l, observed + next, d + 1)
  {
    hide Sound, Walks, KeyUsed;
    assert forall t :: t in Offered(exps) ==> |t| == d + 1;
    forall p, q | p in observed + next && q in observed + next && |p.tokens| < |q.tokens| && !cfg.off.dedup
      ensures p.state != q.state
    {
      assert Trodden(ch, l.events, d + 1, q) && (p in observed ==> p.state in StatesOf(observed));
    }
  }

  lemma RoundEdge(observed: seq<Path>, d: nat, next: seq<Path>, promoted: Batch)
    requires |next| <= |promoted| && Ids(next) == promoted[..|next|] && Distinct(promoted)
    requires (forall p :: p in observed ==> |p.tokens| <= d) && (forall p :: p in next ==> |p.tokens| == d + 1)
    ensures Edge(next, observed + next, d + 1)
  {
    forall i, j | 0 <= i < j < |next| ensures next[i].tokens != next[j].tokens {
      assert Ids(next)[i] == promoted[i] && Ids(next)[j] == promoted[j];
    }
  }

  lemma RoundSurveys(ch: Challenge, cfg: Config, es0: seq<Event>, es: seq<Event>, more: seq<Event>, frontier: seq<Path>,
                     observed: seq<Path>, next: seq<Path>, d: nat)
    requires Surveyed(ch, cfg, es0, observed, d) && Edge(frontier, observed, d) && Grows(es0, es) && Grows(es, more)
    requires forall f :: 0 <= f < |frontier| ==> Settled(ch, cfg, es, StatesOf(observed), frontier[f])
    requires (forall p :: p in observed ==> |p.tokens| <= d) && Edge(next, observed + next, d + 1)
    ensures Surveyed(ch, cfg, more, observed + next, d + 1)
  {
    forall p, a | p in observed + next && |p.tokens| < d + 1 && a in ch.actions
      ensures StepCovered(cfg, more, observed + next, p, a)
    {
      if |p.tokens| < d {
        assert StepCovered(cfg, es0, observed, p, a);
      } else {
        assert p in frontier;
        var f :| 0 <= f < |frontier| && frontier[f] == p;
        var g :| 0 <= g < |ch.actions| && ch.actions[g] == a;
        assert StepSettled(cfg, es, StatesOf(observed), p, a);
        if !cfg.off.dedup && Apply(a, p.state) in StatesOf(observed) {
          var q :| q in observed && q.state == Apply(a, p.state);
          assert q in observed + next;
        }
      }
    }
  }

  // ---------- The end of a run ----------

  /** The observed paths are exactly the charged chains, with the states they lead to. */
  lemma ObservedIsCharged(ch: Challenge, cfg: Config, budget: Limits, l: Ledger, observed: seq<Path>, d: nat, c: seq<Token>, s: State)
    requires Rest(ch, cfg, budget, l, observed, d)
    ensures ReachedBy(ch, l.events, c, s) <==> Path(s, c) in observed
    ensures ChargedChain(l.events, c) ==> Replay(ch, ch.initial, c).Some? && NoRepeats(c) && GoalOnlyAtEnd(ch, c)
  {
    if Path(s, c) in observed { assert Trodden(ch, l.events, d, Path(s, c)); }
    if ChargedChain(l.events, c) {
      PartsRoundTrip(c);
      assert c in TokensOf(observed);
      var p :| p in observed && p.tokens == c;
      assert Trodden(ch, l.events, d, p);
    }
  }

  lemma EndIsBest(ch: Challenge, cfg: Config, budget: Limits, l: Ledger, observed: seq<Path>, d: nat, best: Path)
    requires Rest(ch, cfg, budget, l, observed, d) && BestOf(ch, observed, best)
    ensures Replay(ch, ch.initial, best.tokens) == Some(best.state) && BestCharged(ch, l.events, best.tokens)
  {
    hide Rest, NoWorse, Rank;
    ObservedIsCharged(ch, cfg, budget, l, observed, d, best.tokens, best.state);
    forall c | ChargedChain(l.events, c)
      ensures Replay(ch, ch.initial, c).Some? && NoRepeats(c) && GoalOnlyAtEnd(ch, c)
              && NoWorse(Rank(ch, best), best, Rank(ch, PathTo(ch, c)), PathTo(ch, c))
    {
      ObservedIsCharged(ch, cfg, budget, l, observed, d, c, best.state);
      ObservedIsCharged(ch, cfg, budget, l, observed, d, c, PathTo(ch, c).state);
    }
  }

  lemma EndIsThorough(ch: Challenge, cfg: Config, budget: Limits, l: Ledger, observed: seq<Path>, d: nat, reach: nat, bound: nat)
    requires Rest(ch, cfg, budget, l, observed, d) && Surveyed(ch, cfg, l.events, observed, reach)
    requires bound <= reach || Shorter(observed, reach)
    ensures Thorough(ch, cfg, l.events, bound)
  {
    hide Rest;
    forall c, s, a | ReachedBy(ch, l.events, c, s) && |c| < bound && a in ch.actions
      ensures Accounted(ch, cfg, l.events, Path(s, c), a)
    {
      ObservedIsCharged(ch, cfg, budget, l, observed, d, c, s);
      assert StepCovered(cfg, l.events, observed, Path(s, c), a);
      forall q | q in observed { ObservedIsCharged(ch, cfg, budget, l, observed, d, q.tokens, q.state); }
    }
  }

  lemma EndIsWithinLimits(ch: Challenge, cfg: Config, budget: Limits, l: Ledger, observed: seq<Path>, d: nat)
    requires Rest(ch, cfg, budget, l, observed, d) && d <= MaxDepth(ch, cfg)
    ensures WithinLimits(ch, cfg, l.events)
  {
    forall c | KeyUsed(l.events, PlanKey(c)) || ChargedChain(l.events, c) ensures |c| <= MaxDepth(ch, cfg) {
      if ChargedChain(l.events, c) {
        PartsRoundTrip(c);
        assert c in TokensOf(observed);
        var p :| p in observed && p.tokens == c;
        assert Trodden(ch, l.events, d, p);
      }
    }
  }

  lemma EndRepeatsNoState(ch: Challenge, cfg: Config, budget: Limits, l: Ledger, observed: seq<Path>, d: nat)
    requires Rest(ch, cfg, budget, l, observed, d)
    ensures NoStateTwice(ch, cfg, l.events)
  {
    forall c, c', s | ReachedBy(ch, l.events, c, s) && ReachedBy(ch, l.events, c', s) && !cfg.off.dedup ensures |c| == |c'| {
      ObservedIsCharged(ch, cfg, budget, l, observed, d, c, s);
      ObservedIsCharged(ch, cfg, budget, l, observed, d, c', s);
    }
  }

  lemma EndSubmission(ch: Challenge, cfg: Config, budget: Limits, l: Ledger, observed: seq<Path>, d: nat, best: Path)
    requires Rest(ch, cfg, budget, l, observed, d) && best in observed
    ensures Walks(ch, best) && |best.tokens| <= d && ValidLedger(l) && l.limits == budget
    ensures forall t :: t in best.tokens ==> t in Executed(l.events) && t in Planned(l.events)
    ensures Sentence(ch, !cfg.off.worldTiers, l.events)
  {
    assert Trodden(ch, l.events, d, best);
    LoopAcceptsSentences(ch, !cfg.off.worldTiers, l.events);
    LoopTracksTokens(ch, !cfg.off.worldTiers, l.events);
    ExecutedWasPlanned(ch, !cfg.off.worldTiers, l.events);
  }

  lemma EndAudit(ch: Challenge, cfg: Config, budget: Limits, run: SystemRun)
    requires run.ledger.limits == budget && Sentence(ch, !cfg.off.worldTiers, run.ledger.events)
    requires forall t :: t in run.submission ==> t in Executed(run.ledger.events)
    requires (run.stop == BudgetExhausted <==> run.exhaustion.Some?) && Stands(ch, cfg, budget, run.ledger, run.exhaustion)
    ensures Auditable(ch, run, budget, !cfg.off.worldTiers) <==> Executed(run.ledger.events) != {} || run.stop == BudgetExhausted
  {
    hide Sentence, Executed, ExhaustionHolds;
  }

  /** From the books, the best path and a fitting stop to the promises. */
  lemma EndOfRun(ch: Challenge, cfg: Config, budget: Limits, l: Ledger, observed: seq<Path>, d: nat, best: Path, run: SystemRun)
    requires Rest(ch, cfg, budget, l, observed, d) && BestOf(ch, observed, best) && d <= MaxDepth(ch, cfg)
    requires run.submission == best.tokens && run.ledger == l && run.anchored == !cfg.off.anchor
    requires Stands(ch, cfg, budget, l, run.exhaustion) && (run.stop == BudgetExhausted <==> run.exhaustion.Some?)
    requires run.stop == GoalReachedStop <==> GoalReached(ch, best.state)
    requires run.stop == CompilerDisabled <==> cfg.off.compiler && run.stop != GoalReachedStop
    requires run.stop == DepthLimit ==> |best.tokens| >= MaxDepth(ch, cfg)
    requires run.stop == NoProgress ==> |best.tokens| < MaxDepth(ch, cfg)
    requires run.stop in {NoProgress, DepthLimit} ==> Thorough(ch, cfg, l.events, ch.maxLength)
    ensures TieredRun(ch, cfg, budget, run)
  {
    hide Rest, Thorough, WithinLimits, BestCharged, NoStateTwice, Sentence, Auditable, ExhaustionHolds, ValidLedger, Executed, Planned;
    EndSubmission(ch, cfg, budget, l, observed, d, best);
    EndIsBest(ch, cfg, budget, l, observed, d, best);
    EndRepeatsNoState(ch, cfg, budget, l, observed, d);
    EndIsWithinLimits(ch, cfg, budget, l, observed, d);
    EndAudit(ch, cfg, budget, run);
  }

  // ---------- The solver ----------

  function Goals(ch: Challenge, paths: seq<Path>): (r: seq<Path>)
    ensures forall p :: p in r <==> p in paths && GoalReached(ch, p.state)
  {
    if paths == [] then []
    else
      assert paths == [paths[0]] + paths[1..];
      (if GoalReached(ch, paths[0].state) then [paths[0]] else []) + Goals(ch, paths[1..])
  }

  function FirstOf(b: Batch, width: nat): (r: Batch)
    ensures |r| <= width && (Distinct(b) ==> Selects(r, b))
  {
    if |b| <= width then b else b[..width]
  }

  lemma PromotionSelects(promote: Promotion, history: seq<Batch>, b: Batch)
    requires Promotes(promote) && Distinct(b)
    ensures Selects(promote(history + [b]), b)
  {
    var longer := history + [b];
    assert longer[|longer| - 1] == b;
  }

  /** Every candidate has one at least as near among the paths taken. */
  ghost predicate NearestTaken(ch: Challenge, exps: seq<Expansion>, next: seq<Path>) {
    forall e :: e in exps ==> TakenFor(ch, next, e.path.tokens)
  }

  ghost predicate TakenFor(ch: Challenge, next: seq<Path>, t: seq<Token>) {
    exists p :: p in next && NoFarther(ch, p.tokens, t)
  }

  lemma BatchSize(exps: seq<Expansion>)
    ensures |BatchOf(exps)| == |exps|
  {
  }

  lemma OfferedIsProper(ch: Challenge, cfg: Config, budget: Limits, l: Ledger, frontier: seq<Path>, observed: seq<Path>, d: nat,
                        exps: seq<Expansion>)
    requires Planning(ch, cfg, budget, l, frontier, observed, d, exps, |frontier|, 0)
    ensures Proper(ch, BatchOf(exps))
  {
    forall t | t in BatchOf(exps) ensures Replay(ch, ch.initial, t).Some? {
      var i :| 0 <= i < |exps| && BatchOf(exps)[i] == t;
      assert exps[i] in exps && Expands(ch, l.events, d, exps[i]);
    }
  }

  lemma NearestIsTaken(ch: Challenge, exps: seq<Expansion>, promote: Promotion, history: seq<Batch>, next: seq<Path>)
    requires KeepsANearest(ch, promote) && Proper(ch, BatchOf(exps))
    requires var promoted := promote(history + [BatchOf(exps)]); |next| == |promoted| && Ids(next) == promoted
    ensures NearestTaken(ch, exps, next)
  {
    var longer := history + [BatchOf(exps)];
    assert longer[|longer| - 1] == BatchOf(exps);
    assert KeepsOne(ch, promote(longer), BatchOf(exps));
    hide KeepsANearest, Proper, NoFarther;
    forall e | e in exps ensures TakenFor(ch, next, e.path.tokens) {
      var i :| 0 <= i < |exps| && exps[i] == e;
      assert BatchOf(exps)[i] == e.path.tokens && e.path.tokens in BatchOf(exps);
      var c :| c in promote(longer) && NoFarther(ch, c, e.path.tokens);
      var k :| 0 <= k < |promote(longer)| && promote(longer)[k] == c;
      assert Ids(next)[k] == next[k].tokens;
    }
  }

  /** The paths are the first expansions in the order of planning, and all of the first `width` when
      nothing was refused. */
  ghost predicate FirstInOrder(exps: seq<Expansion>, next: seq<Path>, width: nat, granted: bool) {
    && |next| <= width && |next| <= |exps| && (forall i :: 0 <= i < |next| ==> next[i].tokens == exps[i].path.tokens)
    && (granted ==> |next| == width || |next| == |exps|)
  }

  lemma FirstAreInOrder(exps: seq<Expansion>, next: seq<Path>, promoted: Batch, width: nat, granted: bool)
    requires promoted == FirstOf(BatchOf(exps), width) && |next| <= |promoted| && Ids(next) == promoted[..|next|]
    requires granted ==> |next| == |promoted|
    ensures FirstInOrder(exps, next, width, granted)
  {
    forall i | 0 <= i < |next| ensures next[i].tokens == exps[i].path.tokens {
      assert Ids(next)[i] == promoted[i] == BatchOf(exps)[i];
    }
  }

  /** One round of charges: promotion, then payment. */
  method ChargeRound(ch: Challenge, cfg: Config, ghost budget: Limits, l0: Ledger, exps: seq<Expansion>, promote: Promotion,
                     history: seq<Batch>, ghost frontier: seq<Path>, ghost observed: seq<Path>, ghost d: nat,
                     refused0: Option<Exhaustion>)
    returns (l: Ledger, next: seq<Path>, refused: Option<Exhaustion>)
    requires Priced(ch) && Promotes(promote) && Planning(ch, cfg, budget, l0, frontier, observed, d, exps, |frontier|, 0)
    requires refused0.Some? ==> Stands(ch, cfg, budget, l0, refused0) && LatencyFull(l0, budget)
    requires forall p :: p in observed ==> |p.tokens| <= d
    ensures Charging(ch, cfg, budget, l, observed, d, exps, next) && Stands(ch, cfg, budget, l, refused)
    ensures Edge(next, observed + next, d + 1) && Grows(l0.events, l.events)
    ensures refused.None? ==> refused0.None?
    ensures refused0.Some? ==> next == []
    ensures cfg.off.scheduler ==> FirstInOrder(exps, next, cfg.beamWidth, refused.None?)
    ensures !cfg.off.scheduler && refused.None? ==> Ids(next) == promote(history + [BatchOf(exps)])
    ensures PaidFor(ch, l0, l, |next|) && |next| <= |exps|
    ensures refused.Some? && refused0.None? ==> |next| < |exps| && refused.value.kind != PlanAttempt
    ensures refused.None? && !cfg.off.scheduler && KeepsANearest(ch, promote) ==> NearestTaken(ch, exps, next)
  {
    hide PaidFor, KeepsANearest, NearestTaken, Planning, Promotes, Priced, Grows, ExhaustionHolds, Books, Trail, Expands, BatchOf, Edge;
    var offered := BatchOf(exps);
    var promoted := if cfg.off.scheduler then FirstOf(offered, cfg.beamWidth) else promote(history + [offered]);
    ChargingStarts(ch, cfg, budget, l0, frontier, observed, d, exps);
    PromotionSelects(promote, history, offered);
    l, next, refused := ChargePromoted(ch, cfg, budget, l0, exps, promoted, observed, d, refused0);
    SelectsNoMore(promoted, offered);
    BatchSize(exps);
    if cfg.off.scheduler { FirstAreInOrder(exps, next, promoted, cfg.beamWidth, refused.None?); }
    if refused.None? && !cfg.off.scheduler && KeepsANearest(ch, promote) {
      OfferedIsProper(ch, cfg, budget, l0, frontier, observed, d, exps);
      NearestIsTaken(ch, exps, promote, history, next);
    }
    RoundEdge(observed, d, next, promoted);
  }

  lemma RestFacts(ch: Challenge, cfg: Config, budget: Limits, l: Ledger, observed: seq<Path>, d: nat)
    requires Rest(ch, cfg, budget, l, observed, d)
    ensures Books(ch, cfg, budget, l, d, {}, observed) && Trail(ch, l.events, d, observed)
    ensures observed != [] && forall p :: p in observed ==> |p.tokens| <= d
  {
    assert forall p :: p in observed ==> Trodden(ch, l.events, d, p);
  }

  lemma NothingToCharge(ch: Challenge, cfg: Config, budget: Limits, l0: Ledger, l: Ledger,
                        frontier: seq<Path>, observed: seq<Path>, d: nat)
    requires Rest(ch, cfg, budget, l0, observed, d)
    requires Planning(ch, cfg, budget, l, frontier, observed, d, [], |frontier|, 0)
    ensures Rest(ch, cfg, budget, l, observed, d)
  {
    assert Offered([]) == {};
  }

  lemma NoGoalYet(ch: Challenge, observed: seq<Path>, next: seq<Path>, goals: seq<Path>)
    requires NoGoal(ch, observed) && forall p :: p in goals <==> p in next && GoalReached(ch, p.state)
    ensures goals == [] ==> NoGoal(ch, observed + next)
    ensures forall p :: p in observed + next && GoalReached(ch, p.state) ==> p in goals
    ensures forall p :: p in goals ==> p in observed + next && GoalReached(ch, p.state)
  {
    if goals == [] {
      forall p | p in next ensures !GoalReached(ch, p.state) { assert p !in goals; }
    }
  }

  lemma StatesGrow(observed: seq<Path>, next: seq<Path>)
    ensures StatesOf(observed + next) == StatesOf(observed) + StatesOf(next)
  {
    assert forall p :: p in observed + next <==> p in observed || p in next;
  }

  ghost predicate Shorter(paths: seq<Path>, d: nat) { forall p :: p in paths ==> |p.tokens| < d }

  /** Nothing is planned beyond `d` when there are no expansions, so the survey reaches further. */
  lemma SurveyOfNothing(ch: Challenge, cfg: Config, es0: seq<Event>, es: seq<Event>, frontier: seq<Path>, observed: seq<Path>, d: nat)
    requires Surveyed(ch, cfg, es0, observed, d) && Edge(frontier, observed, d) && Grows(es0, es)
    requires forall f :: 0 <= f < |frontier| ==> Settled(ch, cfg, es, StatesOf(observed), frontier[f])
    requires forall p :: p in observed ==> |p.tokens| <= d
    ensures Surveyed(ch, cfg, es, observed, d + 1)
  {
    hide Surveyed, Settled, Grows;
    GrowsOn(es, es, es);
    RoundSurveys(ch, cfg, es0, es, es, frontier, observed, [], d);
    assert observed + [] == observed;
  }

  method Conclude(ch: Challenge, cfg: Config, budget: Limits, l: Ledger, observed: seq<Path>, ghost d: nat,
                  refused: Option<Exhaustion>)
    returns (run: SystemRun)
    requires Rest(ch, cfg, budget, l, observed, d) && d <= MaxDepth(ch, cfg) && NoGoal(ch, observed)
    requires Stands(ch, cfg, budget, l, refused) && (refused.None? ==> Thorough(ch, cfg, l.events, MaxDepth(ch, cfg)))
    ensures TieredRun(ch, cfg, budget, run) && run.stop != GoalReachedStop && run.ledger == l
    ensures refused.None? && !cfg.off.compiler ==> Unhindered(ch, cfg, run)
  {
    hide Rest, Thorough, ExhaustionHolds, TieredRun, NoWorse, Rank;
    RestFacts(ch, cfg, budget, l, observed, d);
    var best := Nearest(ch, observed);
    var stop :=
      if cfg.off.compiler then CompilerDisabled
      else if refused.Some? then BudgetExhausted
      else if |best.tokens| >= MaxDepth(ch, cfg) then DepthLimit
      else NoProgress;
    run := SystemRun(best.tokens, l, !cfg.off.anchor, stop, if stop == BudgetExhausted then refused else None);
    EndOfRun(ch, cfg, budget, l, observed, d, best, run);
  }

  // ---------- The account ----------

  /** What has been spent after `d` rounds, and how wide the frontier is at most. */
  ghost predicate Account(ch: Challenge, l: Ledger, frontier: seq<Path>, d: nat) {
    var n := |ch.actions|;
    Frugal(ch, UsageOf(l.events), Chains(n, d), Chains(n, d)) && |frontier| <= Power(n, d)
  }

  lemma StartOfAccount(ch: Challenge, budget: Limits, start: Path)
    ensures Account(ch, Ledger(budget, []), [start], 0)
  {
  }

  lemma PlansAreOnAccount(ch: Challenge, l0: Ledger, l1: Ledger, frontier: seq<Path>, exps: seq<Expansion>, d: nat)
    requires Account(ch, l0, frontier, d) && PlannedFor(l0, l1, [], exps) && |exps| <= |frontier| * |ch.actions|
    ensures |exps| <= Power(|ch.actions|, d + 1)
    ensures Frugal(ch, UsageOf(l1.events), Chains(|ch.actions|, d) + |exps|, Chains(|ch.actions|, d))
  {
    var n := |ch.actions|;
    ProductsGrow(|frontier|, Power(n, d), n);
    PlansAreFrugal(ch, UsageOf(l0.events), Chains(n, d), Chains(n, d), |exps|);
  }

  lemma RoundIsOnAccount(ch: Challenge, l0: Ledger, l1: Ledger, l: Ledger, frontier: seq<Path>, exps: seq<Expansion>,
                         next: seq<Path>, d: nat)
    requires Account(ch, l0, frontier, d) && PlannedFor(l0, l1, [], exps) && |exps| <= |frontier| * |ch.actions|
    requires PaidFor(ch, l1, l, |next|) && |next| <= |exps|
    ensures Account(ch, l, next, d + 1)
  {
    var n := |ch.actions|;
    PlansAreOnAccount(ch, l0, l1, frontier, exps, d);
    LaterIsFrugal(ch, UsageOf(l.events), Chains(n, d) + |exps|, Chains(n, d) + |next|, Chains(n, d + 1), Chains(n, d + 1));
  }

  /** An ample budget grants every plan of a round that is still within the length limit. */
  lemma PlansAreGranted(ch: Challenge, budget: Limits, l0: Ledger, l1: Ledger, frontier: seq<Path>, exps: seq<Expansion>, d: nat)
    requires Ample(ch, budget) && d < ch.maxLength
    requires Account(ch, l0, frontier, d) && PlannedFor(l0, l1, [], exps) && |exps| < |frontier| * |ch.actions|
    ensures !LatencyFull(l1, budget)
  {
    var n := |ch.actions|;
    PlansAreOnAccount(ch, l0, l1, frontier, exps, d);
    ProductsGrow(|frontier|, Power(n, d), n);
    ChainsGrow(n, d, ch.maxLength);
    ChainsGrow(n, d + 1, ch.maxLength);
    FrugalFits(ch, budget, UsageOf(l1.events), Chains(n, d) + |exps|, Chains(n, d));
  }

  /** And every charge. */
  lemma ChargesAreGranted(ch: Challenge, cfg: Config, budget: Limits, l0: Ledger, l1: Ledger, l: Ledger, frontier: seq<Path>,
                          exps: seq<Expansion>, paid: nat, d: nat, x: Exhaustion)
    requires Ample(ch, budget) && d < ch.maxLength
    requires Account(ch, l0, frontier, d) && PlannedFor(l0, l1, [], exps) && |exps| <= |frontier| * |ch.actions|
    requires PaidFor(ch, l1, l, paid) && paid < |exps| && x.kind != PlanAttempt
    ensures !Stands(ch, cfg, budget, l, Some(x))
  {
    var n := |ch.actions|;
    PlansAreOnAccount(ch, l0, l1, frontier, exps, d);
    ChainsGrow(n, d + 1, ch.maxLength);
    AmpleGrantsActions(ch, budget, UsageOf(l.events), Chains(n, d) + |exps|, Chains(n, d) + paid, x, !cfg.off.worldTiers);
  }

  lemma ChargedPath(ch: Challenge, cfg: Config, budget: Limits, l: Ledger, observed: seq<Path>, d: nat,
                    exps: seq<Expansion>, next: seq<Path>, p: Path)
    requires Charging(ch, cfg, budget, l, observed, d, exps, next) && p in next
    ensures |p.tokens| == d + 1 && ChargedChain(l.events, p.tokens)
  {
    hide Books, Walks, TokensCharged, Expands, ChargedChain;
    assert p in observed + next;
    assert Trodden(ch, l.events, d + 1, p);
  }

  lemma OfferedPath(ch: Challenge, cfg: Config, budget: Limits, l: Ledger, observed: seq<Path>, d: nat,
                    exps: seq<Expansion>, next: seq<Path>, t: seq<Token>)
    requires Charging(ch, cfg, budget, l, observed, d, exps, next) && t in Offered(exps)
    ensures |t| == d + 1
  {
    hide Books, Walks, TokensCharged, Trail;
    var e :| e in exps && e.path.tokens == t;
    assert Expands(ch, l.events, d, e);
  }

  lemma OfferedIsKept(ch: Challenge, cfg: Config, budget: Limits, l: Ledger, observed: seq<Path>, d: nat,
                      exps: seq<Expansion>, next: seq<Path>, t: seq<Token>)
    requires Charging(ch, cfg, budget, l, observed, d, exps, next) && NearestTaken(ch, exps, next) && t in Offered(exps)
    ensures KeptFor(ch, l.events, t)
  {
    hide NoFarther, Charging, ChargedChain;
    OfferedPath(ch, cfg, budget, l, observed, d, exps, next, t);
    var e :| e in exps && e.path.tokens == t;
    assert TakenFor(ch, next, t);
    var p :| p in next && NoFarther(ch, p.tokens, t);
    ChargedPath(ch, cfg, budget, l, observed, d, exps, next, p);
  }

  lemma KeptGrows(ch: Challenge, es: seq<Event>, more: seq<Event>, t: seq<Token>)
    requires KeptFor(ch, es, t) && Grows(es, more)
    ensures KeptFor(ch, more, t)
  {
    hide NoFarther;
    var c :| |c| == |t| && ChargedChain(es, c) && NoFarther(ch, c, t);
    assert ChargedChain(more, c);
  }

  /** What a round leaves of the promise to keep a nearest candidate. */
  lemma RoundKeepsNearest(ch: Challenge, cfg: Config, budget: Limits, l0: Ledger, l1: Ledger, l: Ledger, observed: seq<Path>, d: nat,
                          exps: seq<Expansion>, next: seq<Path>)
    requires NearestKept(ch, l0.events) && Grows(l1.events, l.events) && Grows(l0.events, l1.events)
    requires PlannedFor(l0, l1, [], exps) && PaidFor(ch, l1, l, |next|)
    requires Charging(ch, cfg, budget, l, observed, d, exps, next) && NearestTaken(ch, exps, next)
    ensures NearestKept(ch, l.events)
  {
    GrowsOn(l0.events, l1.events, l.events);
    hide KeptFor, Frugal, Charging, NearestTaken, Grows, KeyUsed, UsageOf;
    forall t | KeyUsed(l.events, PlanKey(t)) && Replay(ch, ch.initial, t).Some? ensures KeptFor(ch, l.events, t) {
      if KeyUsed(l0.events, PlanKey(t)) {
        KeptGrows(ch, l0.events, l.events, t);
      } else {
        OfferedIsKept(ch, cfg, budget, l, observed, d, exps, next, t);
      }
    }
  }

  lemma PlansKeepNearest(ch: Challenge, l0: Ledger, l1: Ledger)
    requires NearestKept(ch, l0.events) && Grows(l0.events, l1.events) && PlannedFor(l0, l1, [], [])
    ensures NearestKept(ch, l1.events)
  {
    hide KeptFor, Grows, KeyUsed, UsageOf;
    forall t | KeyUsed(l1.events, PlanKey(t)) && Replay(ch, ch.initial, t).Some? ensures KeptFor(ch, l1.events, t) {
      KeptGrows(ch, l0.events, l1.events, t);
    }
  }

  lemma NothingPlannedYet(ch: Challenge)
    ensures NearestKept(ch, [])
  {
  }

  /** The conditions under which the budget, and the promotion, never get in the way. */
  ghost predicate Rich(ch: Challenge, cfg: Config, budget: Limits) { Ample(ch, budget) && !cfg.off.compiler }

  ghost predicate Faithful(ch: Challenge, cfg: Config, promote: Promotion) { !cfg.off.scheduler && KeepsANearest(ch, promote) }

  /** Breadth by depth: plan every new step, promote, pay, and stop at the goal, at a refusal, when
      nothing is left, or at the depth limit. */
  method Solve(ch: Challenge, cfg: Config, budget: Limits, promote: Promotion) returns (run: SystemRun)
    requires Priced(ch) && !GoalReached(ch, ch.initial) && Promotes(promote)
    ensures SolveMeans(ch, cfg, budget, promote, run)
  {
    hide Rest, StatesOf, Surveyed, Planning, Charging, Novel, Settled, Grows, Priced, Promotes, TieredRun, Thorough;
    hide BestOf, ExhaustionHolds, Trail, Books, NoGoal, BatchOf, Account, Rich, Faithful, NearestKept, Unhindered, SolveMeans;
    hide PlannedFor, PaidFor, NearestTaken, Ample, KeepsANearest;
    var l, depth, done, history := Ledger(budget, []), 0, false, [];
    var frontier, observed := [Path(ch.initial, [])], [Path(ch.initial, [])];
    var seen := {ch.initial};
    var refused: Option<Exhaustion> := None;
    ghost var reach := 0;
    StartOfRun(ch, cfg, budget);
    StartOfAccount(ch, budget, Path(ch.initial, []));
    NothingPlannedYet(ch);
    while depth < MaxDepth(ch, cfg) && !done
      invariant depth <= MaxDepth(ch, cfg) && Rest(ch, cfg, budget, l, observed, depth)
      invariant NoGoal(ch, observed) && seen == StatesOf(observed) && Stands(ch, cfg, budget, l, refused)
      invariant !done ==> refused.None? && Edge(frontier, observed, depth) && reach == depth && Account(ch, l, frontier, depth)
      invariant refused.None? ==> Surveyed(ch, cfg, l.events, observed, reach) && (done ==> Shorter(observed, reach))
      invariant Rich(ch, cfg, budget) ==> refused.None?
      invariant refused.None? && Faithful(ch, cfg, promote) ==> NearestKept(ch, l.events)
      decreases MaxDepth(ch, cfg) - depth, if done then 0 else 1
    {
      RestFacts(ch, cfg, budget, l, observed, depth);
      ghost var l0 := l;
      var exps;
      l, exps, refused := PlanFrontier(ch, cfg, budget, l, frontier, seen, observed, depth);
      PlansWhenRich(ch, cfg, budget, l0, l, frontier, exps, depth, refused);
      if exps == [] {
        NothingToCharge(ch, cfg, budget, l0, l, frontier, observed, depth);
        if refused.None? {
          SurveyOfNothing(ch, cfg, l0.events, l.events, frontier, observed, depth);
          if Faithful(ch, cfg, promote) { PlansKeepNearest(ch, l0, l); }
        }
        done, reach := true, depth + 1;
      } else {
        ghost var l1, wasRefused := l, refused;
        var next;
        l, next, refused := ChargeRound(ch, cfg, budget, l, exps, promote, history, frontier, observed, depth, refused);
        history := history + [BatchOf(exps)];
        RoundRests(ch, cfg, budget, l0, l, observed, depth, exps, next);
        RoundIsOnAccount(ch, l0, l1, l, frontier, exps, next, depth);
        ChargesWhenRich(ch, cfg, budget, l0, l1, l, frontier, exps, |next|, depth, wasRefused, refused);
        if refused.None? {
          RoundSurveys(ch, cfg, l0.events, l1.events, l.events, frontier, observed, next, depth);
          NearestWhenFaithful(ch, cfg, budget, promote, l0, l1, l, observed, depth, exps, next);
        }
        var goals := Goals(ch, next);
        NoGoalYet(ch, observed, next, goals);
        StatesGrow(observed, next);
        frontier, observed, seen := next, observed + next, seen + StatesOf(next);
        depth, reach := depth + 1, depth + 1;
        if goals != [] {
          var best := First(ch, goals);
          run := SystemRun(best.tokens, l, !cfg.off.anchor, GoalReachedStop, None);
          GoalRun(ch, cfg, budget, l, observed, depth, goals, best, run);
          GoalMeans(ch, cfg, budget, promote, l, observed, depth, best, run, refused.None?);
          return;
        }
        RestFacts(ch, cfg, budget, l, observed, depth);
        done := refused.Some? || frontier == [];
      }
    }
    if refused.None? {
      EndIsThorough(ch, cfg, budget, l, observed, depth, reach, MaxDepth(ch, cfg));
    }
    run := Conclude(ch, cfg, budget, l, observed, depth, refused);
    ConcludesMeans(ch, cfg, budget, promote, run, refused.None?);
  }

  lemma PlansWhenRich(ch: Challenge, cfg: Config, budget: Limits, l0: Ledger, l1: Ledger, frontier: seq<Path>, exps: seq<Expansion>,
                      d: nat, refused: Option<Exhaustion>)
    requires d < MaxDepth(ch, cfg) && Account(ch, l0, frontier, d) && PlannedFor(l0, l1, [], exps)
    requires refused.Some? ==> |exps| < |frontier| * |ch.actions| && LatencyFull(l1, budget)
    ensures Rich(ch, cfg, budget) ==> refused.None?
  {
    if Rich(ch, cfg, budget) && refused.Some? { PlansAreGranted(ch, budget, l0, l1, frontier, exps, d); }
  }

  lemma ChargesWhenRich(ch: Challenge, cfg: Config, budget: Limits, l0: Ledger, l1: Ledger, l: Ledger, frontier: seq<Path>,
                        exps: seq<Expansion>, paid: nat, d: nat, was: Option<Exhaustion>, refused: Option<Exhaustion>)
    requires d < MaxDepth(ch, cfg) && Account(ch, l0, frontier, d) && PlannedFor(l0, l1, [], exps)
    requires |exps| <= |frontier| * |ch.actions| && PaidFor(ch, l1, l, paid)
    requires refused.Some? && was.None? ==> paid < |exps| && refused.value.kind != PlanAttempt
    requires Stands(ch, cfg, budget, l, refused) && (Rich(ch, cfg, budget) ==> was.None?)
    ensures Rich(ch, cfg, budget) ==> refused.None?
  {
    if Rich(ch, cfg, budget) && refused.Some? {
      ChargesAreGranted(ch, cfg, budget, l0, l1, l, frontier, exps, paid, d, refused.value);
    }
  }

  lemma NearestWhenFaithful(ch: Challenge, cfg: Config, budget: Limits, promote: Promotion, l0: Ledger, l1: Ledger, l: Ledger,
                            observed: seq<Path>, d: nat, exps: seq<Expansion>, next: seq<Path>)
    requires Faithful(ch, cfg, promote) ==> NearestKept(ch, l0.events)
    requires Grows(l1.events, l.events) && Grows(l0.events, l1.events)
    requires PlannedFor(l0, l1, [], exps) && PaidFor(ch, l1, l, |next|)
    requires Charging(ch, cfg, budget, l, observed, d, exps, next)
    requires !cfg.off.scheduler && KeepsANearest(ch, promote) ==> NearestTaken(ch, exps, next)
    ensures Faithful(ch, cfg, promote) ==> NearestKept(ch, l.events)
  {
    hide KeepsANearest;
    if Faithful(ch, cfg, promote) { RoundKeepsNearest(ch, cfg, budget, l0, l1, l, observed, d, exps, next); }
  }

  lemma GoalMeans(ch: Challenge, cfg: Config, budget: Limits, promote: Promotion, l: Ledger, observed: seq<Path>, d: nat,
                  best: Path, run: SystemRun, unrefused: bool)
    requires Rest(ch, cfg, budget, l, observed, d) && best in observed && TieredRun(ch, cfg, budget, run)
    requires run == SystemRun(best.tokens, l, !cfg.off.anchor, GoalReachedStop, None)
    requires unrefused ==> Surveyed(ch, cfg, l.events, observed, d)
    requires Rich(ch, cfg, budget) ==> unrefused
    requires unrefused && Faithful(ch, cfg, promote) ==> NearestKept(ch, l.events)
    ensures SolveMeans(ch, cfg, budget, promote, run)
  {
    hide TieredRun, KeepsANearest, NearestKept, Thorough, Ample, Surveyed;
    if unrefused {
      RestFacts(ch, cfg, budget, l, observed, d);
      EndIsThorough(ch, cfg, budget, l, observed, d, d, |best.tokens|);
    }
  }

  lemma ConcludesMeans(ch: Challenge, cfg: Config, budget: Limits, promote: Promotion, run: SystemRun, unrefused: bool)
    requires TieredRun(ch, cfg, budget, run) && (Rich(ch, cfg, budget) ==> unrefused)
    requires unrefused && !cfg.off.compiler ==> Unhindered(ch, cfg, run)
    requires unrefused && Faithful(ch, cfg, promote) ==> NearestKept(ch, run.ledger.events)
    ensures SolveMeans(ch, cfg, budget, promote, run)
  {
    hide TieredRun, KeepsANearest, NearestKept, Unhindered, Ample;
  }

  lemma GoalRun(ch: Challenge, cfg: Config, budget: Limits, l: Ledger, observed: seq<Path>, d: nat,
                goals: seq<Path>, best: Path, run: SystemRun)
    requires Rest(ch, cfg, budget, l, observed, d) && d <= MaxDepth(ch, cfg) && BestOf(ch, goals, best)
    requires forall p :: p in goals ==> p in observed && GoalReached(ch, p.state)
    requires forall p :: p in observed && GoalReached(ch, p.state) ==> p in goals
    requires run == SystemRun(best.tokens, l, !cfg.off.anchor, GoalReachedStop, None)
    ensures TieredRun(ch, cfg, budget, run)
  {
    hide Rest, ExhaustionHolds, TieredRun, Rank, NoWorse;
    GoalsComeFirst(ch, goals, observed, best);
    EndOfRun(ch, cfg, budget, l, observed, d, best, run);
  }

  /** On every published challenge a tiered run stops at the goal exactly when the hidden oracle
      calls its submission a success, so an anchored run always passes the verdict audit. */
  lemma TieredAgreesWithOracle(f: BenchGenerator.Family, variant: nat, costs: nat -> nat, names: BenchNames.Names,
                               cfg: Config, budget: Limits, run: SystemRun, v: BenchGenerator.Verdict)
    requires BenchNames.Injective(names) && TieredRun(BenchNames.Published(f, variant, costs, names), cfg, budget, run)
    requires BenchGenerator.VerdictMeans(BenchNames.Published(f, variant, costs, names),
                                         BenchGenerator.TerminalCells(BenchGenerator.Stages(f)), run.submission, v)
    ensures run.stop == GoalReachedStop <==> v.reason == BenchGenerator.Success
    ensures run.stop == GoalReachedStop ==>
              BenchNames.InPublishedLanguage(BenchGenerator.Stages(f), names, run.submission)
  {
    hide BenchNames.Published, BenchGenerator.VerdictMeans, BestCharged, Auditable, Thorough, NoStateTwice;
    var n, ch := BenchGenerator.Stages(f), BenchNames.Published(f, variant, costs, names);
    BenchGenerator.VerdictIsSuccess(ch, BenchGenerator.TerminalCells(n), run.submission, v);
    BenchNames.FirstGoalIsSuccess(f, variant, costs, names, run.submission);
    BenchNames.OracleLanguage(f, variant, costs, names, run.submission, v);
  }
}

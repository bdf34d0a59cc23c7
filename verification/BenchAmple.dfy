/** How much a breadth search can spend at most, and a budget that never refuses it. */
module BenchAmple {
  import opened Wrappers
  import opened BenchModel
  import opened BenchAudit
  import opened BenchCharges

  function Power(n: nat, d: nat): nat { if d == 0 then 1 else Power(n, d - 1) * n }

  /** The chains of length 1 to `d` over `n` actions. */
  function Chains(n: nat, d: nat): nat { if d == 0 then 0 else Chains(n, d - 1) + Power(n, d) }

  /** The highest price in the catalog. */
  function Dearest(actions: seq<Action>): nat {
    if actions == [] then 0
    else
      var rest := Dearest(actions[1..]);
      if actions[0].cost >= rest then actions[0].cost else rest
  }

  lemma {:induction false} DearestIsDearest(actions: seq<Action>, a: Action)
    requires a in actions
    ensures a.cost <= Dearest(actions)
  {
    if a != actions[0] { DearestIsDearest(actions[1..], a); }
  }

  /** A plan, an action and a world event for every chain up to the length limit. */
  predicate Ample(ch: Challenge, budget: Limits) {
    var w, c := Chains(|ch.actions|, ch.maxLength), Dearest(ch.actions);
    budget.action >= w * c && budget.world >= w && budget.latency >= w * (c + 3)
  }

  /** At most `p` plans and `q` actions have been charged. */
  predicate Frugal(ch: Challenge, u: Usage, p: nat, q: nat) {
    var c := Dearest(ch.actions);
    u.action <= q * c && u.world <= q && u.latency <= p + q * (c + 2)
  }

  lemma {:induction false} ChainsGrow(n: nat, i: nat, j: nat)
    requires i <= j
    ensures Chains(n, i) <= Chains(n, j)
    decreases j
  {
    if i < j { ChainsGrow(n, i, j - 1); }
  }

  lemma ProductsGrow(a: nat, b: nat, c: nat)
    requires a <= b
    ensures a * c <= b * c
  {
  }

  lemma PlansAreFrugal(ch: Challenge, u: Usage, p: nat, q: nat, more: nat)
    requires Frugal(ch, u, p, q)
    ensures Frugal(ch, Plus(u, 0, 0, more), p + more, q)
  {
  }

  lemma ChargeIsFrugal(ch: Challenge, u: Usage, p: nat, q: nat, a: Action, world: nat, wait: nat)
    requires Frugal(ch, u, p, q) && a in ch.actions && world <= 1 && wait <= 2
    ensures Frugal(ch, Plus(u, a.cost, world, a.cost + wait), p, q + 1)
  {
    var c := Dearest(ch.actions);
    DearestIsDearest(ch.actions, a);
    assert (q + 1) * c == q * c + c && (q + 1) * (c + 2) == q * (c + 2) + (c + 2);
  }

  lemma LaterIsFrugal(ch: Challenge, u: Usage, p: nat, q: nat, p': nat, q': nat)
    requires Frugal(ch, u, p, q) && p <= p' && q <= q'
    ensures Frugal(ch, u, p', q')
  {
    var c := Dearest(ch.actions);
    ProductsGrow(q, q', c);
    ProductsGrow(q, q', c + 2);
  }

  /** An ample budget has room for everything a frugal run has charged, and for one latency more
      while a plan is outstanding. */
  lemma FrugalFits(ch: Challenge, budget: Limits, u: Usage, p: nat, q: nat)
    requires Ample(ch, budget) && Frugal(ch, u, p, q)
    requires p <= Chains(|ch.actions|, ch.maxLength) && q <= Chains(|ch.actions|, ch.maxLength)
    ensures Fits(u, budget)
    ensures p < Chains(|ch.actions|, ch.maxLength) ==> u.latency < budget.latency
  {
    var w, c := Chains(|ch.actions|, ch.maxLength), Dearest(ch.actions);
    ProductsGrow(q, w, c);
    ProductsGrow(q, w, c + 2);
    assert w * (c + 3) == w * (c + 2) + w;
  }

  /** Under an ample budget no charge is refused while fewer than all chains have been charged. */
  lemma AmpleGrantsActions(ch: Challenge, budget: Limits, u: Usage, p: nat, q: nat, x: Exhaustion, needWorld: bool)
    requires Ample(ch, budget) && Frugal(ch, u, p, q)
    requires p <= Chains(|ch.actions|, ch.maxLength) && q < Chains(|ch.actions|, ch.maxLength)
    ensures !(ExhaustionHolds(ch, x, u, budget, needWorld) && x.kind != PlanAttempt)
  {
    var found := Find(ch.actions, x.token);
    if found.Some? {
      var wait := if x.kind == ActionAttempt then 0 else 2;
      ChargeIsFrugal(ch, u, p, q, found.value, if x.kind == ActionAttempt then 0 else 1, wait);
      FrugalFits(ch, budget, Plus(u, found.value.cost, if x.kind == ActionAttempt then 0 else 1, found.value.cost + wait), p, q + 1);
    }
  }
}

/** The generated challenges in slots, the hidden oracle that evaluates a submission, and what each
    role does to the states of a generated challenge. */
module BenchGenerator {
  import opened Wrappers
  import opened BenchModel

  datatype Family = SessionCache | QueueRoleTransition | RequestOrdering | VersionFlagSkew

  function Stages(f: Family): nat {
    match f case SessionCache => 3 case QueueRoleTransition => 4 case RequestOrdering => 3 case VersionFlagSkew => 4
  }

  predicate Train(f: Family) { f == SessionCache || f == QueueRoleTransition }

  /** Roles and cells of a challenge with `n` stages. The names derived from the nonce are
      injective in the slot, so a slot number stands for its name. */
  function Terminal(n: nat): Token { n }
  function Noise(n: nat): Token { n + 1 }
  function Trap(n: nat): Token { n + 2 }
  function GuardKey(n: nat): Key { n }
  function GoalKey(n: nat): Key { n + 1 }
  function NoiseKey(n: nat): Key { n + 2 }

  function StagesOn(n: nat): seq<Cell> { seq(n, i requires 0 <= i < n => Cell(i, true)) }

  function Role(n: nat, i: nat, costs: nat -> nat): Action
    requires i <= n + 2
  {
    var guard := Cell(GuardKey(n), true);
    if i < n then Action(i, if i == 0 then [guard] else [guard, Cell(i - 1, true)], [Cell(i, true)], costs(i))
    else if i == Terminal(n) then Action(i, [guard] + StagesOn(n), [Cell(GoalKey(n), true)], costs(i))
    else if i == Noise(n) then Action(i, [guard], [Cell(NoiseKey(n), true)], costs(i))
    else Action(i, [guard], [Cell(GuardKey(n), false)], costs(i))
  }

  function Roles(n: nat, from: nat, to: nat, costs: nat -> nat): seq<Action>
    requires from <= to <= n + 3
  {
    seq(to - from, k requires 0 <= k < to - from => Role(n, from + k, costs))
  }

  function UpTo(m: nat): seq<Token> { seq(m, i requires 0 <= i < m => i) }

  /** The order of the roles in the catalog: the families and variants differ only in where the
      noise and the trap stand. */
  function CatalogRoles(f: Family, variant: nat): seq<Token> {
    var n := Stages(f);
    var solution := UpTo(n + 1);
    if variant % 2 == 1 && Train(f) then solution + [Trap(n), Noise(n)]
    else
      match f
      case SessionCache => solution + [Noise(n), Trap(n)]
      case QueueRoleTransition => solution + [Noise(n), Trap(n)]
      case RequestOrdering => [Trap(n), Noise(n)] + solution
      case VersionFlagSkew => [Noise(n)] + solution + [Trap(n)]
  }

  function Arranged(n: nat, order: seq<Token>, costs: nat -> nat): seq<Action>
    requires forall i :: 0 <= i < |order| ==> order[i] <= n + 2
  {
    seq(|order|, i requires 0 <= i < |order| => Role(n, order[i], costs))
  }

  function Catalog(f: Family, variant: nat, costs: nat -> nat): seq<Action> {
    Arranged(Stages(f), CatalogRoles(f, variant), costs)
  }

  /** The slots below `m`. */
  function Slots(m: nat): (r: set<nat>)
    ensures forall c: nat :: c in r <==> c < m
  {
    if m == 0 then {} else Slots(m - 1) + {m - 1}
  }

  function InitialState(n: nat): State {
    var slots := Slots(n + 3);
    map k | k in slots :: k == GuardKey(n)
  }

  function Generate(f: Family, variant: nat, costs: nat -> nat): Challenge {
    var n := Stages(f);
    Challenge(InitialState(n), Cell(GoalKey(n), true), Catalog(f, variant, costs), n + 2)
  }

  function TerminalCells(n: nat): seq<Cell> { StagesOn(n) + [Cell(GuardKey(n), true), Cell(GoalKey(n), true)] }

  /** The generator's own loop over the stages. */
  method GenerateRoles(n: nat, costs: nat -> nat) returns (roles: seq<Action>)
    ensures roles == Roles(n, 0, n + 3, costs)
  {
    var guard := Cell(GuardKey(n), true);
    roles := [];
    for i := 0 to n
      invariant roles == Roles(n, 0, i, costs)
    {
      var pre := [guard];
      if i > 0 {
        pre := pre + [Cell(i - 1, true)];
      }
      assert Role(n, i, costs) == Action(i, pre, [Cell(i, true)], costs(i));
      roles := roles + [Action(i, pre, [Cell(i, true)], costs(i))];
      assert roles == Roles(n, 0, i + 1, costs);
    }
    roles := roles + [Action(n, [guard] + StagesOn(n), [Cell(GoalKey(n), true)], costs(n))];
    roles := roles + [Action(n + 1, [guard], [Cell(NoiseKey(n), true)], costs(n + 1))];
    roles := roles + [Action(n + 2, [guard], [Cell(GuardKey(n), false)], costs(n + 2))];
  }

  // ---------- The hidden oracle ----------

  datatype Reason = Success | GoalNotReached | UnknownAction | DuplicateAction | PreconditionFailed | ChainTooLong
  datatype Verdict = Verdict(reason: Reason, state: State, evaluated: nat)

  predicate AllHold(cells: seq<Cell>, s: State) { forall i :: 0 <= i < |cells| ==> CellHolds(cells[i], s) }

  /** What a verdict says: how far the submission replays, and why it stops there. */
  ghost predicate VerdictMeans(ch: Challenge, hidden: seq<Cell>, tokens: seq<Token>, v: Verdict) {
    if !NoRepeats(tokens) then v == Verdict(DuplicateAction, ch.initial, 0)
    else if |tokens| > ch.maxLength then v == Verdict(ChainTooLong, ch.initial, 0)
    else
      && v.evaluated <= |tokens| && Replay(ch, ch.initial, tokens[..v.evaluated]) == Some(v.state)
      && match v.reason
         case UnknownAction => v.evaluated < |tokens| && Find(ch.actions, tokens[v.evaluated]).None?
         case PreconditionFailed =>
           && v.evaluated < |tokens| && Find(ch.actions, tokens[v.evaluated]).Some?
           && !Applicable(Find(ch.actions, tokens[v.evaluated]).value, v.state)
         case Success => v.evaluated == |tokens| && AllHold(hidden, v.state)
         case GoalNotReached => v.evaluated == |tokens| && !AllHold(hidden, v.state)
         case _ => false
  }

  method Evaluate(ch: Challenge, hidden: seq<Cell>, tokens: seq<Token>) returns (v: Verdict)
    ensures VerdictMeans(ch, hidden, tokens, v)
  {
    if !NoRepeats(tokens) {
      return Verdict(DuplicateAction, ch.initial, 0);
    }
    if |tokens| > ch.maxLength {
      return Verdict(ChainTooLong, ch.initial, 0);
    }
    var s := ch.initial;
    for i := 0 to |tokens|
      invariant Replay(ch, ch.initial, tokens[..i]) == Some(s)
    {
      var found := Find(ch.actions, tokens[i]);
      if found.None? {
        return Verdict(UnknownAction, s, i);
      }
      if !Applicable(found.value, s) {
        return Verdict(PreconditionFailed, s, i);
      }
      ReplayAppend(ch, ch.initial, tokens[..i], tokens[i]);
      assert tokens[..i + 1] == tokens[..i] + [tokens[i]];
      s := Apply(found.value, s);
    }
    assert tokens[..|tokens|] == tokens;
    return Verdict(if AllHold(hidden, s) then Success else GoalNotReached, s, |tokens|);
  }

  /** The submissions the oracle calls a success. */
  ghost predicate Succeeds(ch: Challenge, hidden: seq<Cell>, tokens: seq<Token>) {
    && NoRepeats(tokens) && |tokens| <= ch.maxLength
    && Replay(ch, ch.initial, tokens).Some? && AllHold(hidden, Replay(ch, ch.initial, tokens).value)
  }

  lemma PrefixReplays(ch: Challenge, s: State, tokens: seq<Token>, i: nat)
    requires i <= |tokens| && Replay(ch, s, tokens).Some?
    ensures Replay(ch, s, tokens[..i]).Some?
    decreases |tokens| - i
  {
    if i == |tokens| {
      assert tokens[..i] == tokens;
    } else {
      PrefixReplays(ch, s, tokens, i + 1);
      ReplayAppend(ch, s, tokens[..i], tokens[i]);
      assert tokens[..i + 1] == tokens[..i] + [tokens[i]];
    }
  }

  lemma VerdictIsSuccess(ch: Challenge, hidden: seq<Cell>, tokens: seq<Token>, v: Verdict)
    requires VerdictMeans(ch, hidden, tokens, v)
    ensures v.reason == Success <==> Succeeds(ch, hidden, tokens)
  {
    assert tokens[..|tokens|] == tokens;
    assert v.evaluated < |tokens| ==> tokens[..v.evaluated + 1] == tokens[..v.evaluated] + [tokens[v.evaluated]];
    if NoRepeats(tokens) && |tokens| <= ch.maxLength && v.evaluated < |tokens| && Replay(ch, ch.initial, tokens).Some? {
      PrefixReplays(ch, ch.initial, tokens, v.evaluated + 1);
      ReplayAppend(ch, ch.initial, tokens[..v.evaluated], tokens[v.evaluated]);
    }
  }

  // ---------- The states of a generated challenge ----------

  /** The first `k` stages done, the rest of the cells as told. */
  function StandCell(n: nat, k: nat, goal: bool, noise: bool, guard: bool, c: nat): bool {
    if c < n then c < k else if c == GuardKey(n) then guard else if c == GoalKey(n) then goal else noise
  }

  function Stand(n: nat, k: nat, goal: bool, noise: bool, guard: bool): State {
    var slots := Slots(n + 3);
    map c | c in slots :: StandCell(n, k, goal, noise, guard, c)
  }

  lemma WriteOne(s: State, c: Cell)
    ensures Write(s, [c]) == s[c.key := c.value]
  {
    assert [c][1..] == [];
  }

  lemma StageInStand(n: nat, i: nat, costs: nat -> nat, k: nat, goal: bool, noise: bool, guard: bool)
    requires i < n && k <= n
    ensures Applicable(Role(n, i, costs), Stand(n, k, goal, noise, guard)) <==> guard && i <= k
    ensures i == k ==> Apply(Role(n, i, costs), Stand(n, k, goal, noise, true)) == Stand(n, k + 1, goal, noise, true)
  {
    var a, s := Role(n, i, costs), Stand(n, k, goal, noise, guard);
    assert a.pre[0] == Cell(GuardKey(n), true);
    if i > 0 { assert a.pre[1] == Cell(i - 1, true); }
    WriteOne(Stand(n, k, goal, noise, true), Cell(i, true));
  }

  lemma TerminalInStand(n: nat, costs: nat -> nat, k: nat, goal: bool, noise: bool, guard: bool)
    requires k <= n
    ensures Applicable(Role(n, Terminal(n), costs), Stand(n, k, goal, noise, guard)) <==> guard && k == n
    ensures Apply(Role(n, Terminal(n), costs), Stand(n, k, goal, noise, true)) == Stand(n, k, true, noise, true)
  {
    hide Applicable;
    TerminalApplies(n, costs, k, goal, noise, guard);
    WriteOne(Stand(n, k, goal, noise, true), Cell(GoalKey(n), true));
  }

  lemma TerminalApplies(n: nat, costs: nat -> nat, k: nat, goal: bool, noise: bool, guard: bool)
    requires k <= n
    ensures Applicable(Role(n, Terminal(n), costs), Stand(n, k, goal, noise, guard)) <==> guard && k == n
  {
    var pre, s := [Cell(GuardKey(n), true)] + StagesOn(n), Stand(n, k, goal, noise, guard);
    assert Role(n, Terminal(n), costs).pre == pre;
    hide Role;
    assert CellHolds(pre[0], s) <==> guard;
    forall j | 0 <= j < n ensures pre[j + 1] == Cell(j, true) && (CellHolds(pre[j + 1], s) <==> j < k) {}
    if guard && k == n {
      forall i | 0 <= i < |pre| ensures CellHolds(pre[i], s) {
        if i > 0 { assert pre[i - 1 + 1] == Cell(i - 1, true); }
      }
    } else if guard {
      assert !CellHolds(pre[k + 1], s);
    }
  }

  lemma NoiseInStand(n: nat, costs: nat -> nat, k: nat, goal: bool, noise: bool, guard: bool)
    requires k <= n
    ensures Applicable(Role(n, Noise(n), costs), Stand(n, k, goal, noise, guard)) <==> guard
    ensures Apply(Role(n, Noise(n), costs), Stand(n, k, goal, noise, true)) == Stand(n, k, goal, true, true)
  {
    assert Role(n, Noise(n), costs).pre[0] == Cell(GuardKey(n), true);
    WriteOne(Stand(n, k, goal, noise, true), Cell(NoiseKey(n), true));
  }

  lemma TrapInStand(n: nat, costs: nat -> nat, k: nat, goal: bool, noise: bool, guard: bool)
    requires k <= n
    ensures Applicable(Role(n, Trap(n), costs), Stand(n, k, goal, noise, guard)) <==> guard
    ensures Apply(Role(n, Trap(n), costs), Stand(n, k, goal, noise, true)) == Stand(n, k, goal, noise, false)
  {
    assert Role(n, Trap(n), costs).pre[0] == Cell(GuardKey(n), true);
    WriteOne(Stand(n, k, goal, noise, true), Cell(GuardKey(n), false));
  }

  // ---------- The catalog, whatever its order ----------

  predicate IsCatalog(n: nat, costs: nat -> nat, actions: seq<Action>) {
    && DistinctTokens(actions)
    && (forall a :: a in actions ==> a.token <= n + 2 && a == Role(n, a.token, costs))
    && (forall t: nat :: t <= n + 2 ==> Role(n, t, costs) in actions)
  }

  /** `order` lists every role exactly once. */
  predicate IsOrder(n: nat, order: seq<Token>) {
    NoRepeats(order) && (forall t :: t in order ==> t <= n + 2) && (forall t: nat :: t <= n + 2 ==> t in order)
  }

  /** Such a list: the solution from position `lead`, noise at `p` and trap at `q`. */
  predicate Placed(n: nat, o: seq<Token>, lead: nat, p: nat, q: nat) {
    && |o| == n + 3 && p < n + 3 && q < n + 3 && p != q && o[p] == Noise(n) && o[q] == Trap(n)
    && lead <= 2 && !(lead <= p <= lead + n) && !(lead <= q <= lead + n)
    && forall i :: 0 <= i < |o| && i != p && i != q ==> o[i] == i - lead
  }

  lemma OrderByPositions(n: nat, o: seq<Token>, lead: nat, p: nat, q: nat)
    requires Placed(n, o, lead, p, q)
    ensures IsOrder(n, o)
  {
    forall t: nat | t <= n + 2 ensures t in o {
      if t <= n { assert o[lead + t] == t; }
    }
  }

  lemma CatalogRolesByPositions(f: Family, variant: nat) returns (lead: nat, p: nat, q: nat)
    ensures Placed(Stages(f), CatalogRoles(f, variant), lead, p, q)
  {
    var n := Stages(f);
    if variant % 2 == 1 && Train(f) { lead, p, q := 0, n + 2, n + 1; }
    else if f == RequestOrdering { lead, p, q := 2, 1, 0; }
    else if f == VersionFlagSkew { lead, p, q := 1, 0, n + 2; }
    else { lead, p, q := 0, n + 1, n + 2; }
  }

  lemma CatalogRolesAreComplete(f: Family, variant: nat)
    ensures IsOrder(Stages(f), CatalogRoles(f, variant))
  {
    var lead, p, q := CatalogRolesByPositions(f, variant);
    OrderByPositions(Stages(f), CatalogRoles(f, variant), lead, p, q);
  }

  /** The catalogs of the four families, slot by slot: the solution is 0, 1, 2, ... and the last two
      slots are the noise and the trap. */
  lemma CatalogOrders(variant: nat)
    ensures CatalogRoles(SessionCache, variant) == if variant % 2 == 0 then [0, 1, 2, 3, 4, 5] else [0, 1, 2, 3, 5, 4]
    ensures CatalogRoles(QueueRoleTransition, variant) ==
            if variant % 2 == 0 then [0, 1, 2, 3, 4, 5, 6] else [0, 1, 2, 3, 4, 6, 5]
    ensures CatalogRoles(RequestOrdering, variant) == [5, 4, 0, 1, 2, 3]
    ensures CatalogRoles(VersionFlagSkew, variant) == [5, 0, 1, 2, 3, 4, 6]
  {
  }

  lemma CatalogHasEveryRole(f: Family, variant: nat, costs: nat -> nat)
    ensures IsCatalog(Stages(f), costs, Catalog(f, variant, costs))
  {
    var n, order, c := Stages(f), CatalogRoles(f, variant), Catalog(f, variant, costs);
    CatalogRolesAreComplete(f, variant);
    assert forall i :: 0 <= i < |c| ==> c[i] == Role(n, order[i], costs) && c[i].token == order[i];
    forall t: nat | t <= n + 2 ensures Role(n, t, costs) in c {
      assert t in order;
      var i :| 0 <= i < |order| && order[i] == t;
      assert c[i] == Role(n, t, costs);
    }
  }
}

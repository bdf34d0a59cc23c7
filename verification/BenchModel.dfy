/** Public challenges of StateChainBench: a closed catalog of actions over boolean cells. State
    fingerprints are injective, so a state stands for its fingerprint; keys are numbers that stand
    for names, and tokens are numbers that stand for names in the order of the names. */
module BenchModel {
  import opened Wrappers

  type Key = nat
  type Token = nat
  type State = map<Key, bool>

  datatype Cell = Cell(key: Key, value: bool)
  datatype Action = Action(token: Token, pre: seq<Cell>, effects: seq<Cell>, cost: nat)
  datatype Challenge = Challenge(initial: State, goal: Cell, actions: seq<Action>, maxLength: nat)

  predicate CellHolds(c: Cell, s: State) { c.key in s && s[c.key] == c.value }

  predicate Applicable(a: Action, s: State) {
    forall i :: 0 <= i < |a.pre| ==> CellHolds(a.pre[i], s)
  }

  function Write(s: State, cells: seq<Cell>): State
    decreases |cells|
  {
    if cells == [] then s else Write(s[cells[0].key := cells[0].value], cells[1..])
  }

  function Apply(a: Action, s: State): State { Write(s, a.effects) }

  predicate GoalReached(ch: Challenge, s: State) { CellHolds(ch.goal, s) }

  predicate DistinctTokens(actions: seq<Action>) {
    forall i, j :: 0 <= i < j < |actions| ==> actions[i].token != actions[j].token
  }

  predicate NoRepeats(tokens: seq<Token>) {
    forall i, j :: 0 <= i < j < |tokens| ==> tokens[i] != tokens[j]
  }

  /** The catalog entry of a token. */
  function Find(actions: seq<Action>, t: Token): (r: Option<Action>)
    ensures r.Some? ==> r.value in actions && r.value.token == t
    ensures r.None? ==> forall a :: a in actions ==> a.token != t
  {
    if actions == [] then None
    else if actions[0].token == t then Some(actions[0])
    else Find(actions[1..], t)
  }

  /** The state after submitting `tokens` one by one; None at an unknown or inapplicable one. */
  function Replay(ch: Challenge, s: State, tokens: seq<Token>): Option<State>
    decreases |tokens|
  {
    if tokens == [] then Some(s)
    else
      match Find(ch.actions, tokens[0])
      case None => None
      case Some(a) => if Applicable(a, s) then Replay(ch, Apply(a, s), tokens[1..]) else None
  }

  /** Without its last action the chain does not reach the goal. */
  predicate GoalOnlyAtEnd(ch: Challenge, tokens: seq<Token>) {
    tokens != [] ==>
      var r := Replay(ch, ch.initial, tokens[..|tokens| - 1]);
      r.Some? && !GoalReached(ch, r.value)
  }

  lemma {:induction false} ReplayAppend(ch: Challenge, s: State, tokens: seq<Token>, t: Token)
    ensures Replay(ch, s, tokens + [t]) ==
            (match Replay(ch, s, tokens)
             case None => None
             case Some(u) =>
               match Find(ch.actions, t)
               case None => None
               case Some(a) => if Applicable(a, u) then Some(Apply(a, u)) else None)
    decreases |tokens|
  {
    if tokens == [] {
      assert [t][1..] == [];
    } else {
      assert (tokens + [t])[1..] == tokens[1..] + [t];
      match Find(ch.actions, tokens[0])
      case None =>
      case Some(a) => if Applicable(a, s) { ReplayAppend(ch, Apply(a, s), tokens[1..], t); }
    }
  }

  lemma {:induction false} FindFinds(actions: seq<Action>, a: Action)
    requires DistinctTokens(actions) && a in actions
    ensures Find(actions, a.token) == Some(a)
  {
    if actions[0] != a {
      assert actions == [actions[0]] + actions[1..];
      var i :| 0 <= i < |actions| && actions[i] == a;
      assert actions[0].token != actions[i].token;
      FindFinds(actions[1..], a);
    }
  }
}

/** The published form of a generated challenge. The generator derives action names from a nonce, so
    their order changes with the seed and has nothing to do with the roles; here the slots are
    renamed by an arbitrary injective function, and the exact language of the oracle is carried over
    to every naming. State keys are only ever compared for equality and keep their slot numbers. */
module BenchNames {
  import opened Wrappers
  import opened BenchModel
  import opened BenchGenerator
  import opened BenchLanguage

  type Names = nat -> Token

  ghost predicate Injective(names: Names) { forall i, j :: names(i) == names(j) ==> i == j }

  function Renamed(names: Names, a: Action): Action { a.(token := names(a.token)) }

  function RenamedAll(names: Names, actions: seq<Action>): seq<Action> {
    seq(|actions|, i requires 0 <= i < |actions| => Renamed(names, actions[i]))
  }

  function Named(names: Names, ch: Challenge): Challenge { ch.(actions := RenamedAll(names, ch.actions)) }

  function NamesOf(names: Names, slots: seq<nat>): seq<Token> {
    seq(|slots|, i requires 0 <= i < |slots| => names(slots[i]))
  }

  /** A generated challenge under the names of its seed. */
  function Published(f: Family, variant: nat, costs: nat -> nat, names: Names): Challenge {
    Named(names, Generate(f, variant, costs))
  }

  // ---------- Renaming changes nothing but the names ----------

  lemma {:induction false} FindRenamed(names: Names, actions: seq<Action>, t: Token)
    requires Injective(names)
    ensures Find(RenamedAll(names, actions), names(t)) ==
            match Find(actions, t) case None => None case Some(a) => Some(Renamed(names, a))
  {
    if actions != [] && actions[0].token != t {
      FindRenamed(names, actions[1..], t);
      assert RenamedAll(names, actions)[1..] == RenamedAll(names, actions[1..]);
    }
  }

  lemma {:induction false} ReplayRenamed(names: Names, ch: Challenge, s: State, slots: seq<nat>)
    requires Injective(names)
    ensures Replay(Named(names, ch), s, NamesOf(names, slots)) == Replay(ch, s, slots)
    decreases |slots|
  {
    if slots != [] {
      FindRenamed(names, ch.actions, slots[0]);
      assert NamesOf(names, slots)[1..] == NamesOf(names, slots[1..]);
      var found := Find(ch.actions, slots[0]);
      if found.Some? && Applicable(found.value, s) { ReplayRenamed(names, ch, Apply(found.value, s), slots[1..]); }
    }
  }

  /** Whatever replays under the names consists of names. */
  lemma {:induction false} SlotsOf(names: Names, ch: Challenge, s: State, tokens: seq<Token>) returns (slots: seq<nat>)
    requires Replay(Named(names, ch), s, tokens).Some?
    ensures tokens == NamesOf(names, slots)
    decreases |tokens|
  {
    if tokens == [] {
      slots := [];
    } else {
      var a := Find(RenamedAll(names, ch.actions), tokens[0]).value;
      var i :| 0 <= i < |ch.actions| && Renamed(names, ch.actions[i]) == a;
      var rest := SlotsOf(names, ch, Apply(a, s), tokens[1..]);
      slots := [ch.actions[i].token] + rest;
      assert tokens == [tokens[0]] + tokens[1..];
    }
  }

  lemma NoRepeatsRenamed(names: Names, slots: seq<nat>)
    requires Injective(names)
    ensures NoRepeats(NamesOf(names, slots)) <==> NoRepeats(slots)
  {
    var tokens := NamesOf(names, slots);
    assert forall i :: 0 <= i < |slots| ==> tokens[i] == names(slots[i]);
  }

  lemma SucceedsRenamed(names: Names, ch: Challenge, hidden: seq<Cell>, slots: seq<nat>)
    requires Injective(names)
    ensures Succeeds(Named(names, ch), hidden, NamesOf(names, slots)) <==> Succeeds(ch, hidden, slots)
  {
    ReplayRenamed(names, ch, ch.initial, slots);
    NoRepeatsRenamed(names, slots);
  }

  lemma GoalOnlyAtEndRenamed(names: Names, ch: Challenge, slots: seq<nat>)
    requires Injective(names)
    ensures GoalOnlyAtEnd(Named(names, ch), NamesOf(names, slots)) <==> GoalOnlyAtEnd(ch, slots)
  {
    if slots != [] {
      var init := slots[..|slots| - 1];
      assert NamesOf(names, slots)[..|slots| - 1] == NamesOf(names, init);
      ReplayRenamed(names, ch, ch.initial, init);
    }
  }

  lemma DistinctTokensRenamed(names: Names, actions: seq<Action>)
    requires Injective(names) && DistinctTokens(actions)
    ensures DistinctTokens(RenamedAll(names, actions))
  {
    var renamed := RenamedAll(names, actions);
    assert forall i :: 0 <= i < |actions| ==> renamed[i].token == names(actions[i].token);
  }

  // ---------- The language under every naming ----------

  ghost predicate InPublishedLanguage(n: nat, names: Names, tokens: seq<Token>) {
    exists slots: seq<nat> :: tokens == NamesOf(names, slots) && InLanguage(n, slots)
  }

  /** For every family, variant, choice of costs and naming, the oracle succeeds exactly on the
      names of the language. */
  lemma OracleLanguage(f: Family, variant: nat, costs: nat -> nat, names: Names, tokens: seq<Token>, v: Verdict)
    requires Injective(names) && VerdictMeans(Published(f, variant, costs, names), TerminalCells(Stages(f)), tokens, v)
    ensures v.reason == Success <==> InPublishedLanguage(Stages(f), names, tokens)
  {
    hide Generate, VerdictMeans, InLanguage, AllHold;
    var n, slotted, ch := Stages(f), Generate(f, variant, costs), Published(f, variant, costs, names);
    VerdictIsSuccess(ch, TerminalCells(n), tokens, v);
    if Succeeds(ch, TerminalCells(n), tokens) {
      var slots := SlotsOf(names, slotted, slotted.initial, tokens);
      SucceedsRenamed(names, slotted, TerminalCells(n), slots);
      SlotLanguage(f, variant, costs, slots);
    }
    if InPublishedLanguage(n, names, tokens) {
      var slots: seq<nat> :| tokens == NamesOf(names, slots) && InLanguage(n, slots);
      SucceedsRenamed(names, slotted, TerminalCells(n), slots);
      SlotLanguage(f, variant, costs, slots);
    }
  }

  /** Under every naming the first state that meets the public goal meets the hidden constraints,
      so a solver that stops there, or never gets there, agrees with the oracle. */
  lemma FirstGoalIsSuccess(f: Family, variant: nat, costs: nat -> nat, names: Names, tokens: seq<Token>)
    requires var ch := Published(f, variant, costs, names);
             Injective(names) && NoRepeats(tokens) && Replay(ch, ch.initial, tokens).Some? && GoalOnlyAtEnd(ch, tokens)
    ensures var ch := Published(f, variant, costs, names);
            GoalReached(ch, Replay(ch, ch.initial, tokens).value) <==> Succeeds(ch, TerminalCells(Stages(f)), tokens)
  {
    hide Generate, Generated, AllHold, Succeeds, GoalOnlyAtEnd, NoRepeats;
    var n, slotted := Stages(f), Generate(f, variant, costs);
    GeneratedChallenges(f, variant, costs);
    var slots := SlotsOf(names, slotted, slotted.initial, tokens);
    ReplayRenamed(names, slotted, slotted.initial, slots);
    NoRepeatsRenamed(names, slots);
    GoalOnlyAtEndRenamed(names, slotted, slots);
    SucceedsRenamed(names, slotted, TerminalCells(n), slots);
    FirstSlotGoalIsSuccess(n, costs, slotted, slots);
  }
}

/** What the operators of conditions and effects mean on plain values, and when the compiler takes
    an effect to support a condition. */
module ChainMeaning {
  import opened Wrappers
  import opened ChainModel
  import opened ChainCycle

  /** The right-hand side of a condition: a literal, or the value at another path. */
  ghost predicate Against(c: Condition, s: State, right: Value) {
    (c.reference == None && c.value == right) || exists p :: c.reference == Some(p) && p in s && s[p] == right
  }

  lemma ConditionsOnNumbers(c: Condition, s: State, x: real, y: real)
    requires c.path in s && s[c.path] == Num(x) && Against(c, s, Num(y))
    ensures c.operator == EQ ==> (Holds(c, s) <==> x == y)
    ensures c.operator == NE ==> (Holds(c, s) <==> x != y)
    ensures c.operator == LT ==> (Holds(c, s) <==> x < y)
    ensures c.operator == LE ==> (Holds(c, s) <==> x <= y)
    ensures c.operator == GT ==> (Holds(c, s) <==> x > y)
    ensures c.operator == GE ==> (Holds(c, s) <==> x >= y)
    ensures c.operator in {CONTAINS, NOT_CONTAINS} ==> !Holds(c, s)
  {
  }

  /** The number that a number or a boolean counts as. */
  function NumberOf(v: Value): Option<real> {
    match v
    case Num(x) => Some(x)
    case Bool(b) => Some(if b then 1.0 else 0.0)
    case _ => None
  }

  /** Equality by value: booleans are the numbers 0 and 1, tuples compare item by item, and values
      of other kinds equal only their own. */
  lemma EqualityByValue(a: Value, b: Value)
    ensures NumberOf(a).Some? || NumberOf(b).Some? ==> (PyEq(a, b) <==> NumberOf(a) == NumberOf(b))
    ensures a.Null? || a.Str? || b.Null? || b.Str? ==> (PyEq(a, b) <==> a == b)
    ensures a.Tuple? && b.Tuple? ==>
              (PyEq(a, b) <==> |a.items| == |b.items| && forall i :: 0 <= i < |a.items| ==> PyEq(a.items[i], b.items[i]))
  {
    if a.Tuple? && b.Tuple? {
      var xs, ys := Norm(a).items, Norm(b).items;
      assert forall i :: 0 <= i < |a.items| ==> xs[i] == Norm(a.items[i]);
      assert forall i :: 0 <= i < |b.items| ==> ys[i] == Norm(b.items[i]);
    }
  }

  /** What `<` and `<=` say of values that are not tuples; values of different kinds do not compare. */
  lemma OrderByValue(a: Value, b: Value, strict: bool)
    requires !a.Tuple? || !b.Tuple?
    ensures Compare(a, b, strict).Some? <==> (NumberOf(a).Some? && NumberOf(b).Some?) || (a.Str? && b.Str?)
    ensures NumberOf(a).Some? && NumberOf(b).Some? ==>
              (Compare(a, b, strict) == Some(if strict then NumberOf(a).value < NumberOf(b).value
                                             else NumberOf(a).value <= NumberOf(b).value))
  {
  }

  /** Tuples compare at their first different item, and by length where one continues the other. */
  lemma {:induction false} OrderOfTuples(xs: seq<Value>, ys: seq<Value>, strict: bool, k: nat)
    requires k <= |xs| && k <= |ys| && (forall i :: 0 <= i < k ==> PyEq(xs[i], ys[i]))
    requires k == |xs| || k == |ys| || !PyEq(xs[k], ys[k])
    ensures CompareItems(xs, ys, strict) ==
            if k < |xs| && k < |ys| then Compare(xs[k], ys[k], strict)
            else Some(if strict then |xs| < |ys| else |xs| <= |ys|)
    ensures Compare(Tuple(xs), Tuple(ys), strict) == CompareItems(xs, ys, strict)
    decreases k
  {
    if k > 0 { OrderOfTuples(xs[1..], ys[1..], strict, k - 1); }
  }

  /** First difference smaller, or a proper prefix. */
  ghost predicate PrecedesAt(a: string, b: string, k: int) {
    0 <= k <= |a| && k < |b| && (forall i :: 0 <= i < k ==> a[i] == b[i]) && (k == |a| || a[k] < b[k])
  }

  ghost predicate Precedes(a: string, b: string) { exists k :: PrecedesAt(a, b, k) }

  lemma {:induction false} StrLessIsLexicographic(a: string, b: string)
    ensures StrLess(a, b) <==> Precedes(a, b)
  {
    if a == [] || b == [] || a[0] != b[0] {
      assert PrecedesAt(a, b, 0) <==> StrLess(a, b);
    } else {
      StrLessIsLexicographic(a[1..], b[1..]);
      if StrLess(a, b) {
        var k :| PrecedesAt(a[1..], b[1..], k);
        assert forall i :: 0 < i < k + 1 ==> a[i] == a[1..][i - 1] && b[i] == b[1..][i - 1];
        assert PrecedesAt(a, b, k + 1);
      }
      if Precedes(a, b) {
        var k :| PrecedesAt(a, b, k);
        assert PrecedesAt(a[1..], b[1..], k - 1);
      }
    }
  }

  lemma ConditionsOnStrings(c: Condition, s: State, x: string, y: string)
    requires c.path in s && s[c.path] == Str(x) && Against(c, s, Str(y))
    ensures c.operator == EQ ==> (Holds(c, s) <==> x == y)
    ensures c.operator == NE ==> (Holds(c, s) <==> x != y)
    ensures c.operator == LT ==> (Holds(c, s) <==> Precedes(x, y))
    ensures c.operator == LE ==> (Holds(c, s) <==> Precedes(x, y) || x == y)
    ensures c.operator == GT ==> (Holds(c, s) <==> Precedes(y, x))
    ensures c.operator == GE ==> (Holds(c, s) <==> Precedes(y, x) || x == y)
    ensures c.operator == CONTAINS ==> (Holds(c, s) <==> exists u, v :: x == u + y + v)
    ensures c.operator == NOT_CONTAINS ==> (Holds(c, s) <==> !exists u, v :: x == u + y + v)
  {
    StrLessIsLexicographic(x, y);
    StrLessIsLexicographic(y, x);
    SubstringMeansInfix(y, x);
  }

  lemma ConditionsOnTuples(c: Condition, s: State, items: seq<Value>, item: Value)
    requires c.path in s && s[c.path] == Tuple(items) && Against(c, s, item)
    ensures c.operator == CONTAINS ==> (Holds(c, s) <==> exists u, x, v :: items == u + [x] + v && PyEq(x, item))
    ensures c.operator == NOT_CONTAINS ==> (Holds(c, s) <==> !exists u, x, v :: items == u + [x] + v && PyEq(x, item))
  {
    if i :| 0 <= i < |items| && PyEq(items[i], item) {
      assert items == items[..i] + [items[i]] + items[i + 1..];
    }
    if u, x, v :| items == u + [x] + v && PyEq(x, item) {
      assert items[|u|] == x;
    }
  }

  lemma EmptyStart(part: string, u: string, v: string)
    ensures u == [] ==> part <= u + part + v
  {
  }

  lemma {:induction false} SubstringMeansInfix(part: string, whole: string)
    ensures IsSubstring(part, whole) <==> exists u, v :: whole == u + part + v
  {
    if part <= whole {
      assert whole == [] + part + whole[|part|..];
    } else if whole != [] {
      SubstringMeansInfix(part, whole[1..]);
      if IsSubstring(part, whole[1..]) {
        var u, v :| whole[1..] == u + part + v;
        assert whole == ([whole[0]] + u) + part + v;
      }
      if u, v :| whole == u + part + v {
        EmptyStart(part, u, v);
        if u != [] {
          assert whole[1..] == u[1..] + part + v;
        }
      }
    }
  }

  /** One effect touches one path. */
  lemma EffectsTouchOnePath(s: State, e: Effect, q: Path)
    requires ApplyEffect(s, e).Some? && q != e.path
    ensures var t := ApplyEffect(s, e).value; (q in t <==> q in s) && (q in s ==> t[q] == s[q])
  {
  }

  /** The amount at a path: a missing path counts as zero. */
  ghost predicate Amount(s: State, p: Path, x: real) { if p in s then s[p] == Num(x) else x == 0.0 }

  /** What each operation writes; the two numeric ones fail exactly on what is not a number. */
  lemma EffectsWrite(s: State, e: Effect)
    ensures e.operation == SET ==> ApplyEffect(s, e).Some? && Amounts(ApplyEffect(s, e).value, e.path, e.value)
    ensures e.operation == REMOVE ==> ApplyEffect(s, e).Some? && e.path !in ApplyEffect(s, e).value
    ensures e.operation == ADD && e.path in s && s[e.path].Tuple? ==>
              ApplyEffect(s, e).Some? && Amounts(ApplyEffect(s, e).value, e.path, Tuple(s[e.path].items + [e.value]))
    ensures e.operation == ADD && e.path in s && !s[e.path].Tuple? ==>
              ApplyEffect(s, e).Some? && Amounts(ApplyEffect(s, e).value, e.path, Tuple([s[e.path], e.value]))
    ensures e.operation == ADD && e.path !in s ==>
              ApplyEffect(s, e).Some? && Amounts(ApplyEffect(s, e).value, e.path, Tuple([e.value]))
    ensures forall x, y :: e.operation == INCREMENT && Amount(s, e.path, x) && e.value == Num(y) ==>
              ApplyEffect(s, e).Some? && Amounts(ApplyEffect(s, e).value, e.path, Num(x + y))
    ensures forall x, y :: e.operation == DECREMENT && Amount(s, e.path, x) && e.value == Num(y) ==>
              ApplyEffect(s, e).Some? && Amounts(ApplyEffect(s, e).value, e.path, Num(x - y))
    ensures ApplyEffect(s, e).None? <==>
              e.operation in {INCREMENT, DECREMENT} && !(e.value.Num? && exists x :: Amount(s, e.path, x))
  {
    if e.path in s && s[e.path].Num? { assert Amount(s, e.path, s[e.path].n); }
    if e.path !in s { assert Amount(s, e.path, 0.0); }
  }

  ghost predicate Amounts(t: State, p: Path, v: Value) { p in t && t[p] == v }

  /** On a number, a decrement takes back what an increment of the same amount added. */
  lemma DecrementUndoesIncrement(s: State, p: Path, v: Value)
    requires p in s && s[p].Num? && v.Num?
    ensures ApplyEffects(s, [Effect(p, INCREMENT, v), Effect(p, DECREMENT, v)]) == Some(s)
  {
    var up, down := Effect(p, INCREMENT, v), Effect(p, DECREMENT, v);
    var t := s[p := Num(s[p].n + v.n)];
    assert ApplyEffects(s, [up, down]) == ApplyEffects(t, [down]) by { assert [up, down][1..] == [down]; }
    assert ApplyEffects(t, [down]) == Some(t[p := s[p]]) by { assert [down][1..] == []; }
    assert t[p := s[p]] == s;
  }

  /** The five ways to support a condition, always on the same path and never through a reference. */
  lemma SupportIsFiveWays(e: Effect, c: Condition)
    ensures Supports(e, c) <==>
              && e.path == c.path && c.reference == None
              && (|| (e.operation == SET && c.operator == EQ && PyEq(e.value, c.value))
                  || (e.operation == ADD && c.operator in {CONTAINS, EXISTS})
                  || (e.operation == REMOVE && c.operator in {NOT_EXISTS, NOT_CONTAINS}))
  {
  }

  /** What support is worth: a supported EQ, EXISTS or NOT_EXISTS holds right after the effect, a
      supported CONTAINS holds where the added value is the one asked for, and a supported
      NOT_CONTAINS does not hold, because the path is gone. */
  lemma SupportedConditions(s: State, e: Effect, c: Condition)
    requires Supports(e, c)
    ensures ApplyEffect(s, e).Some?
    ensures c.operator in {EQ, EXISTS, NOT_EXISTS} ==> Holds(c, ApplyEffect(s, e).value)
    ensures c.operator == CONTAINS && PyEq(e.value, c.value) ==> Holds(c, ApplyEffect(s, e).value)
    ensures c.operator == NOT_CONTAINS ==> !Holds(c, ApplyEffect(s, e).value)
  {
    if e.operation == ADD {
      var items := ApplyEffect(s, e).value[e.path].items;
      assert items[|items| - 1] == e.value;
    }
  }
}

/** The typed fragments of the chain compiler and the two meanings it works with: what a
    condition says of a state, and what executing fragments in an order does. */
module ChainModel {
  import opened Wrappers

  /** JSON scalars, and the tuples that ADD builds. Python compares integers, floats and
      booleans by value, so one numeric constructor holds integers and floats. */
  datatype Value = Null | Bool(b: bool) | Num(n: real) | Str(s: string) | Tuple(items: seq<Value>)

  /** The representative of a value under Python equality: True is 1, False is 0. */
  function Norm(v: Value): Value {
    match v
    case Bool(b) => Num(if b then 1.0 else 0.0)
    case Tuple(items) => Tuple(seq(|items|, i requires 0 <= i < |items| => Norm(items[i])))
    case _ => v
  }

  predicate PyEq(a: Value, b: Value) { Norm(a) == Norm(b) }

  /** Lexicographic order of strings; also the order in which fragment ids are sorted. */
  predicate StrLess(a: string, b: string) {
    if b == [] then false
    else if a == [] then true
    else if a[0] != b[0] then a[0] < b[0]
    else StrLess(a[1..], b[1..])
  }

  /** Python's `<` (strict) and `<=` on two values; None where Python raises TypeError. */
  function Compare(a: Value, b: Value, strict: bool): Option<bool>
    decreases a
  {
    match (Norm(a), Norm(b))
    case (Num(x), Num(y)) => Some(if strict then x < y else x <= y)
    case (Str(x), Str(y)) => Some(StrLess(x, y) || (!strict && x == y))
    case _ => if a.Tuple? && b.Tuple? then CompareItems(a.items, b.items, strict) else None
  }

  function CompareItems(a: seq<Value>, b: seq<Value>, strict: bool): Option<bool>
    decreases a
  {
    if a == [] then Some(!strict || b != [])
    else if b == [] then Some(false)
    else if PyEq(a[0], b[0]) then CompareItems(a[1..], b[1..], strict)
    else Compare(a[0], b[0], strict)
  }

  predicate IsSubstring(part: string, whole: string) {
    part <= whole || (whole != [] && IsSubstring(part, whole[1..]))
  }

  /** Python's `item in whole`; None where it raises TypeError. */
  function Contains(whole: Value, item: Value): Option<bool> {
    match whole
    case Str(s) => if item.Str? then Some(IsSubstring(item.s, s)) else None
    case Tuple(items) => Some(exists i :: 0 <= i < |items| && PyEq(items[i], item))
    case _ => None
  }

  type Path = string
  type Id = string
  type State = map<Path, Value>

  datatype Operator = EQ | NE | LT | LE | GT | GE | CONTAINS | NOT_CONTAINS | EXISTS | NOT_EXISTS
  datatype Condition = Condition(path: Path, operator: Operator, value: Value, reference: Option<Path>)

  function Right(c: Condition, s: State): Value {
    match c.reference
    case None => c.value
    case Some(p) => if p in s then s[p] else Null
  }

  function IsTrue(o: Option<bool>): bool { o == Some(true) }

  predicate Holds(c: Condition, s: State) {
    match c.operator
    case EXISTS => c.path in s
    case NOT_EXISTS => c.path !in s
    case _ =>
      c.path in s &&
      var left, right := s[c.path], Right(c, s);
      match c.operator
      case EQ => PyEq(left, right)
      case NE => !PyEq(left, right)
      case LT => IsTrue(Compare(left, right, true))
      case LE => IsTrue(Compare(left, right, false))
      case GT => IsTrue(Compare(right, left, true))
      case GE => IsTrue(Compare(right, left, false))
      case CONTAINS => IsTrue(Contains(left, right))
      case NOT_CONTAINS => Contains(left, right) == Some(false)
  }

  predicate HoldAll(cs: seq<Condition>, s: State) {
    forall c :: c in cs ==> Holds(c, s)
  }

  datatype Operation = SET | ADD | REMOVE | INCREMENT | DECREMENT
  datatype Effect = Effect(path: Path, operation: Operation, value: Value)

  /** None stands for the INVALID_NUMERIC_EFFECT error: booleans are not numbers here. */
  function Shifted(s: State, e: Effect, sign: real): Option<State> {
    var current := if e.path in s then s[e.path] else Num(0.0);
    if current.Num? && e.value.Num? then Some(s[e.path := Num(current.n + sign * e.value.n)]) else None
  }

  function ApplyEffect(s: State, e: Effect): Option<State> {
    match e.operation
    case SET => Some(s[e.path := e.value])
    case ADD =>
      var current := if e.path in s then s[e.path] else Tuple([]);
      var items := if current.Tuple? then current.items else [current];
      Some(s[e.path := Tuple(items + [e.value])])
    case REMOVE => Some(s - {e.path})
    case INCREMENT => Shifted(s, e, 1.0)
    case DECREMENT => Shifted(s, e, -1.0)
  }

  function ApplyEffects(s: State, es: seq<Effect>): Option<State>
    decreases |es|
  {
    if es == [] then Some(s)
    else
      match ApplyEffect(s, es[0])
      case None => None
      case Some(t) => ApplyEffects(t, es[1..])
  }

  datatype Binding = Binding(identity: Option<string>, session: Option<string>, artifact: Option<string>)

  /** A fragment with its envelope. `advance` is the controlled-time step of its action, 0 for
      every other kind of action; `identity` and `artifact` are the handles its action names. */
  datatype Fragment = Fragment(
    id: Id, pre: seq<Condition>, effects: seq<Effect>, advance: nat, opens: nat, closes: nat,
    after: seq<Id>, world: string, binding: Binding, identity: Option<string>, artifact: Option<string>,
    envelope: string)

  datatype Root = Root(world: string, conditions: seq<Condition>, clock: nat)

  function Ids(fs: seq<Fragment>): seq<Id> { seq(|fs|, i requires 0 <= i < |fs| => fs[i].id) }

  predicate DistinctIds(fs: seq<Fragment>) {
    forall i, j :: 0 <= i < j < |fs| ==> fs[i].id != fs[j].id
  }

  predicate Subset(ids: seq<Id>, done: seq<Id>) { forall id :: id in ids ==> id in done }

  // ---------- Executing fragments in a given order ----------

  datatype World = World(state: State, clock: nat)

  predicate Ready(f: Fragment, done: seq<Id>, w: World) {
    Subset(f.after, done) && HoldAll(f.pre, w.state) && f.opens <= w.clock <= f.closes
  }

  /** Executes `order` from `w` after the fragments `done`; None as soon as a fragment meets an
      unmet precondition, an open ordering constraint, a closed window or a numeric error. */
  function Replay(w: World, done: seq<Id>, order: seq<Fragment>): Option<World>
    decreases |order|
  {
    if order == [] then Some(w)
    else if !Ready(order[0], done, w) then None
    else
      match ApplyEffects(w.state, order[0].effects)
      case None => None
      case Some(t) => Replay(World(t, w.clock + order[0].advance), done + [order[0].id], order[1..])
  }

  /** `order` is an executable chain from the root that ends in a state meeting the goal. */
  predicate Reaches(w: World, order: seq<Fragment>, goal: seq<Condition>) {
    Replay(w, [], order).Some? && HoldAll(goal, Replay(w, [], order).value.state)
  }

  // ---------- Errors ----------

  datatype Error =
    | NoFragments | DuplicateId | WorldMismatch(id: Id) | IdentityMismatch(id: Id) | ArtifactMismatch(id: Id)
    | SessionConflict(id: Id) | UnknownOrdering(id: Id) | RootConflict | GoalUnreachable
    | MutuallyExclusive(id: Id) | MissingPrecondition(id: Id) | OrderingBlocked(id: Id) | WindowMissed(id: Id)
    | InvalidNumeric | DependencyCycle

  datatype Result<+T> = Ok(value: T) | Err(error: Error)

  // ---------- The order of ids ----------

  lemma {:induction false} StrLessTotal(a: string, b: string)
    ensures StrLess(a, b) || StrLess(b, a) || a == b
    ensures !(StrLess(a, b) && StrLess(b, a))
    ensures !StrLess(a, a)
  {
    if a != [] && b != [] && a[0] == b[0] {
      StrLessTotal(a[1..], b[1..]);
      assert a == [a[0]] + a[1..] && b == [b[0]] + b[1..];
    }
    if a != [] { StrLessTotal(a[1..], a[1..]); }
  }

  lemma {:induction false} StrLessTransitive(a: string, b: string, c: string)
    requires StrLess(a, b) && StrLess(b, c)
    ensures StrLess(a, c)
  {
    if a != [] && a[0] == b[0] && b[0] == c[0] {
      StrLessTransitive(a[1..], b[1..], c[1..]);
    }
  }
}

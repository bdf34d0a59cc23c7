/** The Git tree digest of an accepted tree: independent of the order of the entries, and telling
    any two different trees apart as long as the hash does not collide on their objects. */
module GitDigest {
  import opened Wrappers
  import opened GitTree

  type Bytes = seq<byte>
  type Hash = Bytes -> Bytes

  const SPACE: byte := 32
  const SLASH: byte := 47

  predicate TwentyBytes(h: Hash, xs: set<Bytes>) { forall x :: x in xs ==> |h(x)| == 20 }
  predicate NoCollision(h: Hash, xs: set<Bytes>) { forall x, y :: x in xs && y in xs && h(x) == h(y) ==> x == y }

  function Decimal(n: nat): (r: Bytes)
    ensures r != [] && forall i :: 0 <= i < |r| ==> 48 <= r[i] <= 57
  {
    if n < 10 then [48 + n] else Decimal(n / 10) + [48 + n % 10]
  }

  lemma {:induction false} DecimalTells(m: nat, n: nat)
    requires Decimal(m) == Decimal(n)
    ensures m == n
    decreases m
  {
    assert m >= 10 ==> Decimal(m)[..|Decimal(m)| - 1] == Decimal(m / 10);
    assert n >= 10 ==> Decimal(n)[..|Decimal(n)| - 1] == Decimal(n / 10);
    assert Decimal(m)[|Decimal(m)| - 1] == 48 + m % 10 && Decimal(n)[|Decimal(n)| - 1] == 48 + n % 10;
    if m >= 10 && n >= 10 { DecimalTells(m / 10, n / 10); }
  }

  /** The number that decimal digits stand for. */
  function ValueOf(digits: Bytes): int {
    if digits == [] then 0
    else
      var last: int := digits[|digits| - 1];
      10 * ValueOf(digits[..|digits| - 1]) + last - 48
  }

  lemma {:induction false} DecimalReads(n: nat)
    ensures ValueOf(Decimal(n)) == n && (n > 0 ==> Decimal(n)[0] != 48)
  {
    if n >= 10 {
      DecimalReads(n / 10);
      assert Decimal(n)[..|Decimal(n)| - 1] == Decimal(n / 10);
    } else {
      assert Decimal(n)[..0] == [];
    }
  }

  const BLOB: Bytes := [98, 108, 111, 98]
  const TREE: Bytes := [116, 114, 101, 101]

  /** An object: its kind, a space, its length in decimal, a zero byte, its content. */
  function Object(kind: Bytes, content: Bytes): Bytes { kind + [SPACE] + Decimal(|content|) + [0] + content }

  // ---------- Sorting ----------

  datatype Pair = Pair(key: Bytes, record: Bytes)

  predicate Less(a: Bytes, b: Bytes)
    decreases |a|
  {
    b != [] && (a == [] || a[0] < b[0] || (a[0] == b[0] && Less(a[1..], b[1..])))
  }

  lemma {:induction false} LessIsAnOrder(a: Bytes, b: Bytes)
    ensures Less(a, b) || a == b || Less(b, a)
    ensures !(Less(a, b) && Less(b, a)) && !Less(a, a)
    decreases |a|
  {
    if a != [] {
      LessIsAnOrder(a[1..], a[1..]);
      if b != [] {
        LessIsAnOrder(a[1..], b[1..]);
        assert a == [a[0]] + a[1..] && b == [b[0]] + b[1..];
      }
    }
  }

  lemma {:induction false} LessIsTransitive(a: Bytes, b: Bytes, c: Bytes)
    requires Less(a, b) && Less(b, c)
    ensures Less(a, c)
    decreases |a|
  {
    if a != [] && a[0] == b[0] == c[0] { LessIsTransitive(a[1..], b[1..], c[1..]); }
  }

  /** `a` is a proper prefix of `b`, or smaller at the first byte in which they differ. */
  ghost predicate SmallerAt(a: Bytes, b: Bytes, k: int) {
    0 <= k <= |a| && k < |b| && (forall i :: 0 <= i < k ==> a[i] == b[i]) && (k == |a| || a[k] < b[k])
  }

  ghost predicate Smaller(a: Bytes, b: Bytes) { exists k :: SmallerAt(a, b, k) }

  lemma {:induction false} LessIsAscending(a: Bytes, b: Bytes)
    ensures Less(a, b) <==> Smaller(a, b)
    decreases |a|
  {
    if a == [] || b == [] || a[0] != b[0] {
      assert SmallerAt(a, b, 0) <==> Less(a, b);
    } else {
      LessIsAscending(a[1..], b[1..]);
      if Less(a, b) {
        var k :| SmallerAt(a[1..], b[1..], k);
        assert forall i :: 0 < i < k + 1 ==> a[i] == a[1..][i - 1] && b[i] == b[1..][i - 1];
        assert SmallerAt(a, b, k + 1);
      }
      if k :| SmallerAt(a, b, k) {
        assert SmallerAt(a[1..], b[1..], k - 1);
      }
    }
  }

  /** The order of pairs, as of tuples. */
  predicate Before(p: Pair, q: Pair) { Less(p.key, q.key) || (p.key == q.key && Less(p.record, q.record)) }

  function Place(p: Pair, ps: seq<Pair>): seq<Pair> {
    if ps == [] || !Before(ps[0], p) then [p] + ps else [ps[0]] + Place(p, ps[1..])
  }

  function Sorted(ps: seq<Pair>): seq<Pair> { if ps == [] then [] else Place(ps[0], Sorted(ps[1..])) }

  predicate Ascending(ps: seq<Pair>) { forall i, j :: 0 <= i < j < |ps| ==> Less(ps[i].key, ps[j].key) }

  predicate DistinctKeys(ps: seq<Pair>) { forall i, j :: 0 <= i < j < |ps| ==> ps[i].key != ps[j].key }

  lemma HeadIsLeast(ps: seq<Pair>, p: Pair)
    requires Ascending(ps) && ps != []
    ensures p in ps[1..] ==> Less(ps[0].key, p.key) && p != ps[0]
  {
    if p in ps[1..] {
      var i :| 0 <= i < |ps| - 1 && ps[1..][i] == p;
      assert ps[i + 1] == p;
      LessIsAnOrder(p.key, p.key);
    }
  }

  lemma {:induction false} PlaceKeeps(p: Pair, ps: seq<Pair>)
    requires Ascending(ps) && forall q :: q in ps ==> q.key != p.key
    ensures Ascending(Place(p, ps)) && forall q :: q in Place(p, ps) <==> q == p || q in ps
  {
    if ps != [] {
      LessIsAnOrder(ps[0].key, p.key);
      if Before(ps[0], p) {
        PlaceKeeps(p, ps[1..]);
        assert ps == [ps[0]] + ps[1..];
        var rest := Place(p, ps[1..]);
        forall i | 0 <= i < |rest| ensures Less(ps[0].key, rest[i].key) {
          assert rest[i] in rest;
          HeadIsLeast(ps, rest[i]);
        }
      } else {
        forall i | 0 <= i < |ps| ensures Less(p.key, ps[i].key) {
          if i > 0 { LessIsTransitive(p.key, ps[0].key, ps[i].key); }
        }
      }
    }
  }

  lemma {:induction false} SortedKeeps(ps: seq<Pair>)
    requires DistinctKeys(ps)
    ensures Ascending(Sorted(ps)) && forall q :: q in Sorted(ps) <==> q in ps
  {
    if ps != [] {
      SortedKeeps(ps[1..]);
      PlaceKeeps(ps[0], Sorted(ps[1..]));
      assert ps == [ps[0]] + ps[1..];
    }
  }

  /** An ascending list is determined by its members. */
  lemma {:induction false} AscendingIsUnique(ps: seq<Pair>, qs: seq<Pair>)
    requires Ascending(ps) && Ascending(qs) && forall p :: p in ps <==> p in qs
    ensures ps == qs
    decreases |ps|
  {
    assert (ps != [] ==> ps[0] in qs) && (qs != [] ==> qs[0] in ps);
    if ps != [] {
      var i :| 0 <= i < |qs| && qs[i] == ps[0];
      var j :| 0 <= j < |ps| && ps[j] == qs[0];
      LessIsAnOrder(ps[0].key, qs[0].key);
      LessIsAnOrder(ps[0].key, ps[0].key);
      assert ps[0] == qs[0];
      RestMembers(ps, qs);
      AscendingIsUnique(ps[1..], qs[1..]);
    }
  }

  lemma RestMembers(ps: seq<Pair>, qs: seq<Pair>)
    requires ps != [] && qs != [] && ps[0] == qs[0] && Ascending(ps) && Ascending(qs) && forall p :: p in ps <==> p in qs
    ensures forall p :: p in ps[1..] <==> p in qs[1..]
  {
    assert ps == [ps[0]] + ps[1..] && qs == [qs[0]] + qs[1..];
    forall p ensures p in ps[1..] <==> p in qs[1..] {
      HeadIsLeast(ps, p);
      HeadIsLeast(qs, p);
      assert p in ps <==> p in [ps[0]] + ps[1..];
      assert p in qs <==> p in [qs[0]] + qs[1..];
    }
  }

  // ---------- The digest ----------

  function DirMode(): Bytes { [52, 48, 48, 48, 48] }

  function Mode(node: Node): Bytes { if node.File? then Decimal(node.entry.mode) else DirMode() }

  function Key(c: Child): Bytes { if c.node.File? then c.name else c.name + [SLASH] }

  function NodeDigest(h: Hash, node: Node): Bytes
    decreases node, 2
  {
    if node.File? then h(Object(BLOB, node.entry.payload)) else h(Object(TREE, Content(h, node.children)))
  }

  function Record(h: Hash, c: Child): Bytes
    decreases c, 3
  {
    Mode(c.node) + [SPACE] + c.name + [0] + NodeDigest(h, c.node)
  }

  function Pairs(h: Hash, children: seq<Child>): seq<Pair>
    decreases children, 0
  {
    if children == [] then [] else [Pair(Key(children[0]), Record(h, children[0]))] + Pairs(h, children[1..])
  }

  function Join(ps: seq<Pair>): Bytes { if ps == [] then [] else ps[0].record + Join(ps[1..]) }

  function Content(h: Hash, children: seq<Child>): Bytes
    decreases children, 1
  {
    Join(Sorted(Pairs(h, children)))
  }

  function TreeDigest(h: Hash, children: seq<Child>): Bytes { h(Object(TREE, Content(h, children))) }

  lemma {:induction false} PairsAt(h: Hash, children: seq<Child>, i: nat)
    requires i < |children|
    ensures |Pairs(h, children)| == |children|
    ensures Pairs(h, children)[i] == Pair(Key(children[i]), Record(h, children[i]))
  {
    if |children| > 1 { PairsAt(h, children[1..], if i > 0 then i - 1 else 0); }
  }

  lemma PairsMembers(h: Hash, children: seq<Child>, p: Pair)
    ensures p in Pairs(h, children) <==> exists c :: c in children && p == Pair(Key(c), Record(h, c))
  {
    if children != [] { PairsAt(h, children, 0); }
    forall i | 0 <= i < |children| ensures Pairs(h, children)[i] == Pair(Key(children[i]), Record(h, children[i])) {
      PairsAt(h, children, i);
    }
    if p in Pairs(h, children) {
      var i :| 0 <= i < |Pairs(h, children)| && Pairs(h, children)[i] == p;
      assert children[i] in children;
    }
    if exists c :: c in children && p == Pair(Key(c), Record(h, c)) {
      var c :| c in children && p == Pair(Key(c), Record(h, c));
      var i :| 0 <= i < |children| && children[i] == c;
    }
  }

  /** Names hold no slash and no zero byte. */
  predicate CleanName(name: Name) { forall i :: 0 <= i < |name| ==> name[i] != SLASH && name[i] != 0 }

  predicate Clean(children: seq<Child>)
    decreases children, 1
  {
    forall i :: 0 <= i < |children| ==> CleanName(children[i].name) && CleanNode(children[i].node)
  }

  predicate CleanNode(node: Node)
    decreases node, 0
  {
    node.File? || Clean(node.children)
  }

  lemma KeysTell(c: Child, d: Child)
    requires CleanName(c.name) && CleanName(d.name) && Key(c) == Key(d)
    ensures c.name == d.name
  {
    SlashMarksDirectories(c);
    SlashMarksDirectories(d);
    assert Key(c)[..|c.name|] == c.name && Key(d)[..|d.name|] == d.name;
  }

  lemma SlashMarksDirectories(c: Child)
    requires CleanName(c.name)
    ensures c.node.Dir? <==> SLASH in Key(c)
  {
    if c.node.Dir? { assert Key(c)[|c.name|] == SLASH; }
  }

  lemma KeysAreDistinct(h: Hash, children: seq<Child>)
    requires Tidy(children) && Clean(children)
    ensures DistinctKeys(Pairs(h, children))
  {
    var ps := Pairs(h, children);
    if children != [] { PairsAt(h, children, 0); }
    forall i, j | 0 <= i < j < |ps| ensures ps[i].key != ps[j].key {
      PairsAt(h, children, i);
      PairsAt(h, children, j);
      if ps[i].key == ps[j].key { KeysTell(children[i], children[j]); }
    }
  }

  // ---------- The digest does not depend on the order ----------

  /** The trees hold the same files. */
  ghost predicate SameFiles(a: seq<Child>, b: seq<Child>) { forall q :: At(a, q) == At(b, q) }

  lemma LookupOfChild(children: seq<Child>, c: Child)
    requires Tidy(children) && c in children
    ensures Lookup(children, c.name) == Some(c.node) && TidyNode(c.node)
    ensures Clean(children) ==> CleanName(c.name) && CleanNode(c.node)
  {
    LookupFinds(children, c.name);
    var i :| 0 <= i < |children| && children[i] == c;
  }

  lemma AtBelow(children: seq<Child>, c: Child, q: Path)
    requires Tidy(children) && c in children
    ensures c.node.Dir? ==> At(children, [c.name] + q) == At(c.node.children, q)
    ensures c.node.File? ==> At(children, [c.name] + q) == if q == [] then Some(c.node.entry) else None
  {
    LookupOfChild(children, c);
    assert ([c.name] + q)[1..] == q;
  }

  /** A child of one tree stands in the other, as the same kind of node with the same files. */
  lemma Counterpart(a: seq<Child>, b: seq<Child>, c: Child) returns (d: Child)
    requires Tidy(a) && Tidy(b) && SameFiles(a, b) && c in a
    ensures d in b && d.name == c.name
    ensures c.node.File? ==> d.node == c.node
    ensures c.node.Dir? ==> d.node.Dir? && SameFiles(c.node.children, d.node.children)
  {
    LookupOfChild(a, c);
    var below: Path := [];
    if c.node.Dir? { below := SomeFile(c.node.children); }
    AtBelow(a, c, below);
    assert At(b, [c.name] + below).Some?;
    LookupFinds(b, c.name);
    d := Child(c.name, Lookup(b, c.name).value);
    AtBelow(b, d, below);
    if c.node.Dir? {
      forall q ensures At(c.node.children, q) == At(d.node.children, q) {
        AtBelow(a, c, q);
        AtBelow(b, d, q);
      }
    } else if d.node.Dir? {
      AtBelow(b, d, []);
    }
  }

  lemma {:induction false} SameFilesSamePairs(h: Hash, a: seq<Child>, b: seq<Child>, p: Pair)
    requires Tidy(a) && Tidy(b) && Clean(a) && Clean(b) && SameFiles(a, b)
    requires p in Pairs(h, a)
    ensures p in Pairs(h, b)
    decreases Size(a) + Size(b), 0
  {
    hide Record;
    PairsMembers(h, a, p);
    PairsMembers(h, b, p);
    var c :| c in a && p == Pair(Key(c), Record(h, c));
    var d := Counterpart(a, b, c);
    LookupOfChild(a, c);
    LookupOfChild(b, d);
    if c.node.Dir? {
      ChildrenAreSmaller(a, c);
      ChildrenAreSmaller(b, d);
      SameFilesSameContent(h, c.node.children, d.node.children);
    }
    SameRecord(h, c, d);
  }

  lemma SameRecord(h: Hash, c: Child, d: Child)
    requires c.name == d.name && (c.node == d.node ||
               (c.node.Dir? && d.node.Dir? && Content(h, c.node.children) == Content(h, d.node.children)))
    ensures Key(c) == Key(d) && Record(h, c) == Record(h, d)
  {
  }

  function Size(children: seq<Child>): nat {
    if children == [] then 0
    else 1 + (if children[0].node.Dir? then Size(children[0].node.children) else 0) + Size(children[1..])
  }

  lemma {:induction false} ChildrenAreSmaller(children: seq<Child>, c: Child)
    requires c in children && c.node.Dir?
    ensures Size(c.node.children) < Size(children)
  {
    if children[0] != c {
      assert children == [children[0]] + children[1..];
      ChildrenAreSmaller(children[1..], c);
    }
  }

  /** Trees that hold the same files have the same digest, however their entries were ordered. */
  lemma {:induction false} SameFilesSameContent(h: Hash, a: seq<Child>, b: seq<Child>)
    requires Tidy(a) && Tidy(b) && Clean(a) && Clean(b) && SameFiles(a, b)
    ensures Content(h, a) == Content(h, b) && TreeDigest(h, a) == TreeDigest(h, b)
    decreases Size(a) + Size(b), 1
  {
    var ps, qs := Pairs(h, a), Pairs(h, b);
    forall p ensures p in ps <==> p in qs {
      if p in ps { SameFilesSamePairs(h, a, b, p); }
      if p in qs { SameFilesSamePairs(h, b, a, p); }
    }
    KeysAreDistinct(h, a);
    KeysAreDistinct(h, b);
    SortedKeeps(ps);
    SortedKeeps(qs);
    AscendingIsUnique(Sorted(ps), Sorted(qs));
  }

  // ---------- The bytes of a directory ----------

  /** A directory is sorted as if its name ended in a slash. */
  function SortName(c: Child): Bytes { if c.node.Dir? then c.name + [47] else c.name }

  /** The bytes of one entry: mode, space, name, zero byte, digest. A file's digest is that of
      "blob", its length and its payload, a directory's that of "tree", its length and its content. */
  function Line(h: Hash, c: Child): Bytes {
    match c.node
    case File(e) =>
      Decimal(e.mode) + [32] + c.name + [0] + h([98, 108, 111, 98, 32] + Decimal(|e.payload|) + [0] + e.payload)
    case Dir(inner) =>
      var content := Content(h, inner);
      [52, 48, 48, 48, 48, 32] + c.name + [0] + h([116, 114, 101, 101, 32] + Decimal(|content|) + [0] + content)
  }

  function Lines(h: Hash, order: seq<Child>): Bytes { if order == [] then [] else Line(h, order[0]) + Lines(h, order[1..]) }

  lemma LineIsRecord(h: Hash, c: Child)
    ensures Record(h, c) == Line(h, c)
  {
    if c.node.File? {
      var p := c.node.entry.payload;
      assert Object(BLOB, p) == [98, 108, 111, 98, 32] + Decimal(|p|) + [0] + p;
    } else {
      var content := Content(h, c.node.children);
      assert Object(TREE, content) == [116, 114, 101, 101, 32] + Decimal(|content|) + [0] + content;
      assert DirMode() + [SPACE] == [52, 48, 48, 48, 48, 32];
    }
  }

  /** The pairs of `order`, one for each of its children. */
  ghost predicate PairedWith(h: Hash, children: seq<Child>, ps: seq<Pair>, order: seq<Child>) {
    |order| == |ps| && forall i :: 0 <= i < |ps| ==> order[i] in children && ps[i] == Pair(Key(order[i]), Record(h, order[i]))
  }

  ghost predicate StandsFor(h: Hash, children: seq<Child>, p: Pair) {
    exists c :: c in children && p == Pair(Key(c), Record(h, c))
  }

  lemma {:induction false} JoinIsLines(h: Hash, children: seq<Child>, ps: seq<Pair>) returns (order: seq<Child>)
    requires forall p :: p in ps ==> StandsFor(h, children, p)
    ensures PairedWith(h, children, ps, order) && Join(ps) == Lines(h, order)
  {
    hide Record, Line, Key;
    if ps == [] {
      order := [];
    } else {
      assert StandsFor(h, children, ps[0]);
      var c :| c in children && ps[0] == Pair(Key(c), Record(h, c));
      var rest := JoinIsLines(h, children, ps[1..]);
      order := [c] + rest;
      LineIsRecord(h, c);
      assert order[1..] == rest;
    }
  }

  lemma OrderAscends(h: Hash, children: seq<Child>, ps: seq<Pair>, order: seq<Child>, i: nat, j: nat)
    requires PairedWith(h, children, ps, order) && Ascending(ps) && i < j < |order|
    ensures Smaller(SortName(order[i]), SortName(order[j]))
  {
    hide Record, Smaller;
    LessIsAscending(SortName(order[i]), SortName(order[j]));
  }

  lemma OrderIsComplete(h: Hash, children: seq<Child>, ps: seq<Pair>, order: seq<Child>, c: Child)
    requires Tidy(children) && Clean(children) && PairedWith(h, children, ps, order)
    requires c in children && Pair(Key(c), Record(h, c)) in ps
    ensures c in order
  {
    hide Record, Key, Tidy, Clean;
    var i :| 0 <= i < |ps| && ps[i] == Pair(Key(c), Record(h, c));
    KeyNamesChild(children, c, order[i]);
  }

  /** The content of a directory: one line for every child, in strictly ascending byte order of the
      names, directories sorted with a slash behind their names. */
  lemma ContentIsAscendingLines(h: Hash, children: seq<Child>) returns (order: seq<Child>)
    requires Tidy(children) && Clean(children)
    ensures forall c :: c in order <==> c in children
    ensures forall i, j :: 0 <= i < j < |order| ==> Smaller(SortName(order[i]), SortName(order[j]))
    ensures Content(h, children) == Lines(h, order)
  {
    hide Record, Line, Lines, Join, CleanName, Key, Smaller, Pairs, Sorted, Tidy, Clean, Ascending;
    var ps := Sorted(Pairs(h, children));
    KeysAreDistinct(h, children);
    SortedKeeps(Pairs(h, children));
    forall p ensures p in ps <==> StandsFor(h, children, p) { PairsMembers(h, children, p); }
    order := JoinIsLines(h, children, ps);
    forall i, j | 0 <= i < j < |order| ensures Smaller(SortName(order[i]), SortName(order[j])) {
      OrderAscends(h, children, ps, order, i, j);
    }
    forall c | c in children ensures c in order {
      assert StandsFor(h, children, Pair(Key(c), Record(h, c)));
      OrderIsComplete(h, children, ps, order, c);
    }
  }

  lemma KeyNamesChild(children: seq<Child>, c: Child, d: Child)
    requires Tidy(children) && Clean(children) && c in children && d in children && Key(c) == Key(d)
    ensures c == d
  {
    LookupOfChild(children, c);
    LookupOfChild(children, d);
    KeysTell(c, d);
  }
}

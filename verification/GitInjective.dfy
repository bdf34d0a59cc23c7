/** Two accepted file lists with the same tree digest are the same list of files: every level of
    the encoding (mode, name, zero byte, twenty bytes of digest) can be read back. */
module GitInjective {
  import opened Wrappers
  import opened GitTree
  import opened GitDigest

  /** Every object that is hashed for a tree. */
  function Objects(h: Hash, children: seq<Child>): set<Bytes>
    decreases children, 1
  {
    {Object(TREE, Content(h, children))} + ObjectsBelow(h, children)
  }

  function ObjectsBelow(h: Hash, children: seq<Child>): set<Bytes>
    decreases children, 0
  {
    if children == [] then {} else NodeObjects(h, children[0].node) + ObjectsBelow(h, children[1..])
  }

  function NodeObjects(h: Hash, node: Node): set<Bytes>
    decreases node, 2
  {
    if node.File? then {Object(BLOB, node.entry.payload)} else Objects(h, node.children)
  }

  lemma {:induction false} ObjectsOfChild(h: Hash, children: seq<Child>, c: Child)
    requires c in children
    ensures NodeObjects(h, c.node) <= ObjectsBelow(h, children)
  {
    if children[0] != c {
      assert children == [children[0]] + children[1..];
      ObjectsOfChild(h, children[1..], c);
    }
  }

  function NodeObject(h: Hash, node: Node): Bytes {
    if node.File? then Object(BLOB, node.entry.payload) else Object(TREE, Content(h, node.children))
  }

  /** The hash behaves on these objects: twenty bytes, and no two of them collide. */
  predicate Behaves(h: Hash, objects: set<Bytes>) { TwentyBytes(h, objects) && NoCollision(h, objects) }

  // ---------- Reading back ----------

  /** A field ends at the first separator. */
  lemma FieldEnds(a: Bytes, x: Bytes, b: Bytes, y: Bytes, separator: byte)
    requires separator !in a && separator !in b && a + [separator] + x == b + [separator] + y
    ensures a == b && x == y
  {
    var s, t := a + [separator] + x, b + [separator] + y;
    assert s[|a|] == separator && t[|b|] == separator;
    assert forall i :: 0 <= i < |a| ==> s[i] == a[i] && a[i] in a;
    assert forall i :: 0 <= i < |b| ==> t[i] == b[i] && b[i] in b;
    assert |a| == |b|;
    assert s[..|a|] == a && t[..|b|] == b;
    assert s[|a| + 1..] == x && t[|b| + 1..] == y;
  }

  lemma ObjectTells(kind: Bytes, content: Bytes, kind': Bytes, content': Bytes)
    requires kind in {BLOB, TREE} && kind' in {BLOB, TREE} && Object(kind, content) == Object(kind', content')
    ensures kind == kind' && content == content'
  {
    var s, t := Object(kind, content), Object(kind', content');
    assert s[0] == kind[0] && t[0] == kind'[0];
    var header, header' := Decimal(|content|), Decimal(|content'|);
    assert s[5..] == header + [0] + content && t[5..] == header' + [0] + content';
    FieldEnds(header, content, header', content', 0);
  }

  /** A record can be told from what follows it. */
  lemma RecordTells(h: Hash, c: Child, x: Bytes, d: Child, y: Bytes)
    requires CleanName(c.name) && CleanName(d.name) && |NodeDigest(h, c.node)| == |NodeDigest(h, d.node)|
    requires Record(h, c) + x == Record(h, d) + y
    ensures c.name == d.name && Mode(c.node) == Mode(d.node) && NodeDigest(h, c.node) == NodeDigest(h, d.node) && x == y
  {
    var s, t := NodeDigest(h, c.node), NodeDigest(h, d.node);
    assert Record(h, c) + x == Mode(c.node) + [SPACE] + (c.name + [0] + (s + x));
    assert Record(h, d) + y == Mode(d.node) + [SPACE] + (d.name + [0] + (t + y));
    FieldEnds(Mode(c.node), c.name + [0] + (s + x), Mode(d.node), d.name + [0] + (t + y), SPACE);
    FieldEnds(c.name, s + x, d.name, t + y, 0);
    assert (s + x)[..|s|] == s && (t + y)[..|t|] == t;
    assert (s + x)[|s|..] == x && (t + y)[|t|..] == y;
  }

  /** The pair stands for a child with a clean name and a digest of twenty bytes. */
  ghost predicate Stands(h: Hash, children: seq<Child>, p: Pair) {
    exists c :: c in children && CleanName(c.name) && |NodeDigest(h, c.node)| == 20 && p == Pair(Key(c), Record(h, c))
  }

  /** Joined records can be taken apart again. */
  lemma {:induction false} JoinTells(h: Hash, a: seq<Child>, b: seq<Child>, ps: seq<Pair>, qs: seq<Pair>, i: nat)
    requires (forall p :: p in ps ==> Stands(h, a, p)) && (forall q :: q in qs ==> Stands(h, b, q))
    requires Join(ps) == Join(qs) && i < |ps|
    ensures i < |qs| && ps[i].record == qs[i].record
    decreases |ps|
  {
    assert Stands(h, a, ps[0]) && Join(ps) != [];
    assert qs != [];
    assert Stands(h, b, qs[0]);
    var c :| c in a && CleanName(c.name) && |NodeDigest(h, c.node)| == 20 && ps[0] == Pair(Key(c), Record(h, c));
    var d :| d in b && CleanName(d.name) && |NodeDigest(h, d.node)| == 20 && qs[0] == Pair(Key(d), Record(h, d));
    RecordTells(h, c, Join(ps[1..]), d, Join(qs[1..]));
    if i > 0 { JoinTells(h, a, b, ps[1..], qs[1..], i - 1); }
  }

  lemma PairsStand(h: Hash, children: seq<Child>, objects: set<Bytes>, p: Pair)
    requires Tidy(children) && Clean(children) && Behaves(h, objects) && Objects(h, children) <= objects
    requires p in Sorted(Pairs(h, children))
    ensures Stands(h, children, p)
  {
    hide Record;
    KeysAreDistinct(h, children);
    SortedKeeps(Pairs(h, children));
    PairsMembers(h, children, p);
    var c :| c in children && p == Pair(Key(c), Record(h, c));
    LookupOfChild(children, c);
    DigestOfChild(h, children, objects, c);
  }

  lemma DigestOfChild(h: Hash, children: seq<Child>, objects: set<Bytes>, c: Child)
    requires Behaves(h, objects) && Objects(h, children) <= objects && c in children
    ensures NodeObject(h, c.node) in objects && NodeDigest(h, c.node) == h(NodeObject(h, c.node)) && |NodeDigest(h, c.node)| == 20
    ensures c.node.Dir? ==> Objects(h, c.node.children) <= objects
  {
    ObjectsOfChild(h, children, c);
  }

  /** A child of one tree can be recognised in another tree with the same content. */
  lemma Recognised(h: Hash, a: seq<Child>, b: seq<Child>, objects: set<Bytes>, c: Child) returns (d: Child)
    requires Tidy(a) && Tidy(b) && Clean(a) && Clean(b) && Behaves(h, objects)
    requires Objects(h, a) <= objects && Objects(h, b) <= objects && Content(h, a) == Content(h, b) && c in a
    ensures d in b && d.name == c.name && Mode(d.node) == Mode(c.node) && NodeDigest(h, d.node) == NodeDigest(h, c.node)
  {
    hide Record, Behaves, Objects;
    var ps, qs := Sorted(Pairs(h, a)), Sorted(Pairs(h, b));
    forall p | p in ps ensures Stands(h, a, p) { PairsStand(h, a, objects, p); }
    forall q | q in qs ensures Stands(h, b, q) { PairsStand(h, b, objects, q); }
    var p := Pair(Key(c), Record(h, c));
    PairsMembers(h, a, p);
    KeysAreDistinct(h, a);
    SortedKeeps(Pairs(h, a));
    var i :| 0 <= i < |ps| && ps[i] == p;
    JoinTells(h, a, b, ps, qs, i);
    assert qs[i] in qs && Stands(h, b, qs[i]);
    d :| d in b && CleanName(d.name) && |NodeDigest(h, d.node)| == 20 && qs[i] == Pair(Key(d), Record(h, d));
    LookupOfChild(a, c);
    DigestOfChild(h, a, objects, c);
    RecordTells(h, c, [], d, []);
  }

  /** Nodes with equal modes and digests are equal files or directories with equal content. */
  lemma NodesTell(h: Hash, m: Node, n: Node, objects: set<Bytes>)
    requires Behaves(h, objects) && NodeObject(h, m) in objects && NodeObject(h, n) in objects
    requires Mode(m) == Mode(n) && h(NodeObject(h, m)) == h(NodeObject(h, n))
    ensures m.File? ==> n == m
    ensures m.Dir? ==> n.Dir? && Content(h, m.children) == Content(h, n.children)
  {
    hide Content, Object;
    ObjectTells(if m.File? then BLOB else TREE, if m.File? then m.entry.payload else Content(h, m.children),
                if n.File? then BLOB else TREE, if n.File? then n.entry.payload else Content(h, n.children));
    assert BLOB[0] != TREE[0];
    if m.File? { DecimalTells(m.entry.mode, n.entry.mode); }
  }

  lemma {:induction false} FilesCarryOver(h: Hash, a: seq<Child>, b: seq<Child>, objects: set<Bytes>, q: Path)
    requires Tidy(a) && Tidy(b) && Clean(a) && Clean(b) && Behaves(h, objects)
    requires Objects(h, a) <= objects && Objects(h, b) <= objects && Content(h, a) == Content(h, b)
    requires At(a, q).Some?
    ensures At(b, q) == At(a, q)
    decreases |q|
  {
    hide Behaves, Objects, Content, Mode, NodeDigest;
    LookupFinds(a, q[0]);
    var c := Child(q[0], Lookup(a, q[0]).value);
    var d := Recognised(h, a, b, objects, c);
    DigestOfChild(h, a, objects, c);
    DigestOfChild(h, b, objects, d);
    LookupOfChild(a, c);
    LookupOfChild(b, d);
    NodesTell(h, c.node, d.node, objects);
    if c.node.Dir? { FilesCarryOver(h, c.node.children, d.node.children, objects, q[1..]); }
  }

  lemma DigestTells(h: Hash, a: seq<Child>, b: seq<Child>)
    requires Tidy(a) && Tidy(b) && Clean(a) && Clean(b) && Behaves(h, Objects(h, a) + Objects(h, b))
    requires TreeDigest(h, a) == TreeDigest(h, b)
    ensures SameFiles(a, b)
  {
    var objects := Objects(h, a) + Objects(h, b);
    ObjectTells(TREE, Content(h, a), TREE, Content(h, b));
    forall q ensures At(a, q) == At(b, q) {
      if At(a, q).Some? { FilesCarryOver(h, a, b, objects, q); }
      if At(b, q).Some? { FilesCarryOver(h, b, a, objects, q); }
    }
  }

  // ---------- From the entries ----------

  predicate CleanPath(q: Path) { forall k :: 0 <= k < |q| ==> CleanName(q[k]) }

  predicate CleanItems(items: seq<Item>) { forall item :: item in items ==> CleanPath(item.path) }

  lemma {:induction false} CleanFromFiles(children: seq<Child>)
    requires Tidy(children) && forall q :: At(children, q).Some? ==> CleanPath(q)
    ensures Clean(children)
  {
    forall i | 0 <= i < |children| ensures CleanName(children[i].name) && CleanNode(children[i].node) {
      var c := children[i];
      LookupOfChild(children, c);
      var below: Path := [];
      if c.node.Dir? { below := SomeFile(c.node.children); }
      AtBelow(children, c, below);
      assert ([c.name] + below)[0] == c.name;
      if c.node.Dir? {
        forall q | At(c.node.children, q).Some? ensures CleanPath(q) {
          AtBelow(children, c, q);
          assert forall k :: 0 <= k < |q| ==> ([c.name] + q)[k + 1] == q[k];
        }
        CleanFromFiles(c.node.children);
      }
    }
  }

  lemma AcceptedIsClean(children: seq<Child>, items: seq<Item>)
    requires Tidy(children) && Holds(children, items) && CleanItems(items)
    ensures Clean(children)
  {
    forall q | At(children, q).Some? ensures CleanPath(q) {
      assert Item(q, At(children, q).value) in items;
    }
    CleanFromFiles(children);
  }

  lemma SameItemsSameFiles(a: seq<Child>, xs: seq<Item>, b: seq<Child>, ys: seq<Item>)
    requires Holds(a, xs) && Holds(b, ys)
    ensures SameFiles(a, b) <==> forall item :: item in xs <==> item in ys
  {
    if SameFiles(a, b) {
      forall item ensures item in xs <==> item in ys {
        assert item == Item(item.path, item.entry);
        assert At(a, item.path) == At(b, item.path);
      }
    }
    if forall item :: item in xs <==> item in ys {
      forall q ensures At(a, q) == At(b, q) {
        if At(a, q).Some? { assert Item(q, At(a, q).value) in xs; }
        if At(b, q).Some? { assert Item(q, At(b, q).value) in ys; }
      }
    }
  }

  /** The digest of accepted entries is the set of the entries: the order in which they come does
      not matter, and different sets have different digests. */
  lemma DigestIsTheFiles(h: Hash, xs: seq<Item>, a: seq<Child>, ys: seq<Item>, b: seq<Child>)
    requires Tidy(a) && Holds(a, xs) && CleanItems(xs) && Tidy(b) && Holds(b, ys) && CleanItems(ys)
    requires Behaves(h, Objects(h, a) + Objects(h, b))
    ensures TreeDigest(h, a) == TreeDigest(h, b) <==> forall item :: item in xs <==> item in ys
  {
    hide Objects, Behaves, TreeDigest, Holds, SameFiles;
    AcceptedIsClean(a, xs);
    AcceptedIsClean(b, ys);
    SameItemsSameFiles(a, xs, b, ys);
    if SameFiles(a, b) { SameFilesSameContent(h, a, b); }
    if TreeDigest(h, a) == TreeDigest(h, b) { DigestTells(h, a, b); }
  }
}

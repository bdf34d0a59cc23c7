/** The nested directories built from the files of a source archive: accepted exactly when no path
    lies inside another, and then holding exactly the given files. */
module GitTree {
  import opened Wrappers

  type byte = x: int | 0 <= x < 256

  /** A name is its UTF-8 bytes, a path its parts between the slashes. */
  type Name = seq<byte>
  type Path = seq<Name>

  datatype Entry = Entry(mode: nat, payload: seq<byte>)
  datatype Item = Item(path: Path, entry: Entry)

  /** A directory lists its children in the order in which they were added. */
  datatype Node = File(entry: Entry) | Dir(children: seq<Child>)
  datatype Child = Child(name: Name, node: Node)

  function Lookup(children: seq<Child>, name: Name): Option<Node> {
    if children == [] then None
    else if children[0].name == name then Some(children[0].node)
    else Lookup(children[1..], name)
  }

  /** Sets a name, keeping its place if it has one. */
  function Update(children: seq<Child>, name: Name, node: Node): seq<Child> {
    if children == [] then [Child(name, node)]
    else if children[0].name == name then [Child(name, node)] + children[1..]
    else [children[0]] + Update(children[1..], name, node)
  }

  /** Adds one file, making directories on the way; None when a file stands where a directory is
      needed, or anything stands where the file is to go. */
  function Insert(children: seq<Child>, path: Path, entry: Entry): Option<seq<Child>>
    requires path != []
    decreases |path|
  {
    var found := Lookup(children, path[0]);
    if |path| == 1 then
      if found.Some? then None else Some(Update(children, path[0], File(entry)))
    else if found.Some? && found.value.File? then None
    else
      match Insert(if found.Some? then found.value.children else [], path[1..], entry)
      case None => None
      case Some(inner) => Some(Update(children, path[0], Dir(inner)))
  }

  /** The file at a path. */
  function At(children: seq<Child>, path: Path): Option<Entry>
    decreases |path|
  {
    if path == [] then None
    else
      match Lookup(children, path[0])
      case None => None
      case Some(File(entry)) => if |path| == 1 then Some(entry) else None
      case Some(Dir(inner)) => At(inner, path[1..])
  }

  predicate DistinctNames(children: seq<Child>) {
    forall i, j :: 0 <= i < j < |children| ==> children[i].name != children[j].name
  }

  /** Names are distinct and no directory below is empty. */
  predicate Tidy(children: seq<Child>)
    decreases children, 1
  {
    DistinctNames(children) && forall i :: 0 <= i < |children| ==> TidyNode(children[i].node)
  }

  predicate TidyNode(node: Node)
    decreases node, 0
  {
    node.File? || (node.children != [] && Tidy(node.children))
  }

  lemma {:induction false} LookupUpdated(children: seq<Child>, name: Name, node: Node, other: Name)
    ensures Lookup(Update(children, name, node), other) == if other == name then Some(node) else Lookup(children, other)
  {
    if children != [] {
      if children[0].name == name {
        assert ([Child(name, node)] + children[1..])[1..] == children[1..];
      } else {
        LookupUpdated(children[1..], name, node, other);
        assert ([children[0]] + Update(children[1..], name, node))[1..] == Update(children[1..], name, node);
      }
    }
  }

  lemma {:induction false} LookupFinds(children: seq<Child>, name: Name)
    ensures Lookup(children, name).Some? ==> Child(name, Lookup(children, name).value) in children
    ensures Lookup(children, name).None? ==> forall c :: c in children ==> c.name != name
  {
    if children != [] && children[0].name != name {
      LookupFinds(children[1..], name);
      assert children == [children[0]] + children[1..];
    }
  }

  lemma {:induction false} UpdatedIsTidy(children: seq<Child>, name: Name, node: Node)
    requires Tidy(children) && TidyNode(node)
    ensures Tidy(Update(children, name, node))
    ensures forall c :: c in Update(children, name, node) ==> c.name == name || c in children
  {
    if children != [] && children[0].name != name {
      var rest := Update(children[1..], name, node);
      UpdatedIsTidy(children[1..], name, node);
      assert forall c :: c in rest ==> c.name != children[0].name;
    }
  }

  lemma TidyChild(children: seq<Child>, name: Name)
    requires Tidy(children)
    ensures Lookup(children, name).Some? ==> TidyNode(Lookup(children, name).value)
  {
    LookupFinds(children, name);
  }

  /** A tidy directory that is not empty holds a file. */
  lemma {:induction false} SomeFile(children: seq<Child>) returns (path: Path)
    requires Tidy(children) && children != []
    ensures At(children, path).Some?
    decreases children
  {
    var c := children[0];
    if c.node.File? {
      path := [c.name];
    } else {
      var inner := SomeFile(c.node.children);
      path := [c.name] + inner;
      assert path[1..] == inner;
    }
  }

  /** What an insertion does to every path, and what it says about the paths already there. */
  lemma {:induction false} InsertAt(children: seq<Child>, path: Path, entry: Entry, q: Path)
    requires Tidy(children) && path != [] && Insert(children, path, entry).Some?
    ensures At(Insert(children, path, entry).value, q) == if q == path then Some(entry) else At(children, q)
    ensures At(children, q).Some? ==> !(q <= path) && !(path <= q)
    decreases |path|
  {
    if q != [] {
      var name, found := path[0], Lookup(children, path[0]);
      assert q == [q[0]] + q[1..] && path == [name] + path[1..];
      TidyChild(children, name);
      if |path| == 1 {
        LookupUpdated(children, name, File(entry), q[0]);
      } else {
        var inner := if found.Some? then found.value.children else [];
        LookupUpdated(children, name, Dir(Insert(inner, path[1..], entry).value), q[0]);
        InsertAt(inner, path[1..], entry, q[1..]);
        assert found.None? ==> At(inner, q[1..]).None?;
      }
    }
  }

  lemma {:induction false} InsertIsTidy(children: seq<Child>, path: Path, entry: Entry)
    requires Tidy(children) && path != [] && Insert(children, path, entry).Some?
    ensures Tidy(Insert(children, path, entry).value) && Insert(children, path, entry).value != []
    decreases |path|
  {
    var found := Lookup(children, path[0]);
    TidyChild(children, path[0]);
    if |path| == 1 {
      UpdatedIsTidy(children, path[0], File(entry));
    } else {
      var inner := if found.Some? then found.value.children else [];
      InsertIsTidy(inner, path[1..], entry);
      UpdatedIsTidy(children, path[0], Dir(Insert(inner, path[1..], entry).value));
    }
  }

  /** A refused insertion meets a file above, at or below its path. */
  lemma {:induction false} RefusalHasAReason(children: seq<Child>, path: Path, entry: Entry) returns (q: Path)
    requires Tidy(children) && path != [] && Insert(children, path, entry).None?
    ensures At(children, q).Some? && (q <= path || path <= q)
    decreases |path|
  {
    var name, found := path[0], Lookup(children, path[0]);
    TidyChild(children, name);
    if found.Some? && found.value.File? {
      q := [name];
    } else {
      var inner := if found.Some? then found.value.children else [];
      var below;
      if |path| == 1 { below := SomeFile(inner); } else { below := RefusalHasAReason(inner, path[1..], entry); }
      q := [name] + below;
      assert q[1..] == below && path == [name] + path[1..];
    }
  }

  // ---------- The loop over the entries ----------

  /** No path is inside, or the same as, another. */
  predicate Separate(items: seq<Item>) {
    forall i, j :: 0 <= i < |items| && 0 <= j < |items| && i != j ==> !(items[i].path <= items[j].path)
  }

  /** The tree holds exactly the items. */
  ghost predicate Holds(children: seq<Child>, items: seq<Item>) {
    forall q, e :: At(children, q) == Some(e) <==> Item(q, e) in items
  }

  lemma HoldsMore(children: seq<Child>, items: seq<Item>, item: Item)
    requires Tidy(children) && Holds(children, items) && Separate(items) && item.path != []
    requires Insert(children, item.path, item.entry).Some?
    ensures Holds(Insert(children, item.path, item.entry).value, items + [item]) && Separate(items + [item])
  {
    var more := Insert(children, item.path, item.entry).value;
    forall q, e ensures At(more, q) == Some(e) <==> Item(q, e) in items + [item] {
      InsertAt(children, item.path, item.entry, q);
      assert Item(q, e) in items ==> At(children, q) == Some(e);
    }
    forall i | 0 <= i < |items| ensures !(items[i].path <= item.path) && !(item.path <= items[i].path) {
      assert items[i] == Item(items[i].path, items[i].entry) && items[i] in items;
      InsertAt(children, item.path, item.entry, items[i].path);
    }
  }

  lemma ClashSpoils(children: seq<Child>, items: seq<Item>, n: nat)
    requires n < |items| && Tidy(children) && Holds(children, items[..n]) && items[n].path != []
    requires Insert(children, items[n].path, items[n].entry).None?
    ensures !Separate(items)
  {
    var q := RefusalHasAReason(children, items[n].path, items[n].entry);
    var e := At(children, q).value;
    assert Item(q, e) in items[..n];
    var k :| 0 <= k < n && items[k] == Item(q, e);
  }

  method Build(items: seq<Item>) returns (r: Option<seq<Child>>)
    requires forall i :: 0 <= i < |items| ==> items[i].path != []
    ensures r.Some? <==> Separate(items)
    ensures r.Some? ==> Tidy(r.value) && Holds(r.value, items)
  {
    var tree: seq<Child> := [];
    assert forall q :: At([], q).None?;
    for n := 0 to |items|
      invariant Tidy(tree) && Holds(tree, items[..n]) && Separate(items[..n])
    {
      var next := Insert(tree, items[n].path, items[n].entry);
      if next.None? {
        ClashSpoils(tree, items, n);
        return None;
      }
      HoldsMore(tree, items[..n], items[n]);
      InsertIsTidy(tree, items[n].path, items[n].entry);
      assert items[..n + 1] == items[..n] + [items[n]];
      tree := next.value;
    }
    assert items[..|items|] == items;
    r := Some(tree);
  }
}

/** Layered configuration trees: deep merge, dotted lookup and flattening. */
module ConfigTree {
  import opened Wrappers
  import opened Strings

  /** A configuration value; `Scalar` holds the text of any leaf that is not None. */
  datatype Tree = Null | Scalar(text: string) | Node(children: map<string, Tree>)

  const EMPTY := Node(map[])

  predicate Leaf(t: Tree) {
    !t.Node?
  }

  /** What is stored at a path. */
  function At(t: Tree, path: seq<string>): Option<Tree> {
    if path == [] then Some(t)
    else if t.Node? && path[0] in t.children then At(t.children[path[0]], path[1..])
    else None
  }

  // ---- Deep merge ----

  /** Mappings merge key by key; anything else is replaced. */
  function Merge(base: Tree, over: Tree): Tree
    decreases over
  {
    if base.Node? && over.Node? then
      Node(map k | k in base.children.Keys + over.children.Keys ::
        if k !in over.children then base.children[k]
        else if k in base.children then Merge(base.children[k], over.children[k])
        else over.children[k])
    else over
  }

  method DeepMerge(base: Tree, over: Tree) returns (merged: Tree)
    requires base.Node? && over.Node?
    ensures merged == Merge(base, over)
    decreases over
  {
    var entries := base.children;
    var todo := over.children.Keys;
    while todo != {}
      invariant todo <= over.children.Keys
      invariant entries == map k | k in base.children.Keys + (over.children.Keys - todo) ::
                  if k !in over.children || k in todo then base.children[k] else Merge(base, over).children[k]
      decreases todo
    {
      var key :| key in todo;
      var value := over.children[key];
      if key in entries && entries[key].Node? && value.Node? {
        var inner := DeepMerge(entries[key], value);
        entries := entries[key := inner];
      } else {
        entries := entries[key := value];
      }
      todo := todo - {key};
    }
    merged := Node(entries);
  }

  function MergeAll(sources: seq<Tree>): Tree {
    if sources == [] then EMPTY else Merge(MergeAll(sources[..|sources| - 1]), sources[|sources| - 1])
  }

  /** `from_sources`: framework defaults, if loaded, then every file found, in order. */
  method FromSources(defaults: Option<Tree>, files: seq<Tree>) returns (data: Tree)
    requires (defaults.Some? ==> defaults.value.Node?) && forall i :: 0 <= i < |files| ==> files[i].Node?
    ensures data == MergeAll((if defaults.Some? then [defaults.value] else []) + files)
  {
    data := if defaults.Some? then defaults.value else EMPTY;
    ghost var first := if defaults.Some? then [defaults.value] else [];
    assert first != [] ==> first[..0] == [];
    assert first + files[..0] == first;
    for i := 0 to |files|
      invariant data.Node? && data == MergeAll(first + files[..i])
    {
      ghost var all := first + files[..i + 1];
      assert all[..|all| - 1] == first + files[..i];
      data := DeepMerge(data, files[i]);
    }
    assert files[..|files|] == files;
  }

  /** `t` says nothing about `path`: it is not defined there, and no leaf sits above it. */
  ghost predicate Silent(t: Tree, path: seq<string>) {
    At(t, path).None? && forall k :: 0 <= k < |path| ==> !(At(t, path[..k]).Some? && Leaf(At(t, path[..k]).value))
  }

  lemma SilentStep(t: Tree, path: seq<string>)
    requires t.Node? && path != []
    ensures Silent(t, path) <==> path[0] !in t.children || Silent(t.children[path[0]], path[1..])
  {
    var key, rest := path[0], path[1..];
    if key in t.children {
      var child := t.children[key];
      forall k | 0 < k < |path| ensures At(t, path[..k]) == At(child, rest[..k - 1]) {
        assert path[..k][1..] == rest[..k - 1];
      }
      if Silent(t, path) {
        forall k | 0 <= k < |rest| ensures !(At(child, rest[..k]).Some? && Leaf(At(child, rest[..k]).value)) {
          assert At(t, path[..k + 1]) == At(child, rest[..k]);
        }
      }
    } else {
      forall k | 0 < k < |path| ensures At(t, path[..k]).None? {
        assert path[..k][0] == key;
      }
    }
  }

  /** Where a leaf of a two-layer merge comes from. */
  lemma {:induction false} MergeLaw(base: Tree, over: Tree, path: seq<string>, v: Tree)
    requires Leaf(v)
    ensures At(Merge(base, over), path) == Some(v) <==>
            At(over, path) == Some(v) || (At(base, path) == Some(v) && over.Node? && Silent(over, path))
    decreases |path|
  {
    if path != [] && over.Node? {
      SilentStep(over, path);
      var key, rest := path[0], path[1..];
      if base.Node? && key in base.children && key in over.children {
        MergeLaw(base.children[key], over.children[key], rest, v);
        LeafBlocks(over.children[key], rest);
      }
    }
  }

  /** Below a leaf nothing is silent. */
  lemma LeafBlocks(t: Tree, path: seq<string>)
    ensures Leaf(t) ==> !Silent(t, path)
  {
    if Leaf(t) && path != [] {
      assert path[..0] == [] && At(t, path[..0]) == Some(t);
    }
  }

  /** Source `i` puts `v` at the path, and every later source is silent about that path. */
  ghost predicate Supplies(sources: seq<Tree>, i: nat, path: seq<string>, v: Tree) {
    && i < |sources| && At(sources[i], path) == Some(v)
    && forall j :: i < j < |sources| ==> Silent(sources[j], path)
  }

  lemma SuppliesStep(earlier: seq<Tree>, last: Tree, i: nat, path: seq<string>, v: Tree)
    ensures Supplies(earlier + [last], i, path, v) <==>
            if i < |earlier| then Supplies(earlier, i, path, v) && Silent(last, path)
            else i == |earlier| && At(last, path) == Some(v)
  {
    hide At, Silent;
    var all := earlier + [last];
    assert all[|earlier|] == last;
    assert forall j :: 0 <= j < |earlier| ==> all[j] == earlier[j];
  }

  /** The layered law: a leaf sits at a path exactly when some source supplies it. */
  lemma {:induction false} LayeredLaw(sources: seq<Tree>, path: seq<string>, v: Tree)
    requires Leaf(v) && forall i :: 0 <= i < |sources| ==> sources[i].Node?
    ensures At(MergeAll(sources), path) == Some(v) <==> exists i: nat :: Supplies(sources, i, path, v)
  {
    hide At, Silent, Supplies, Merge;
    if sources == [] {
      NothingSupplied(path, v);
    } else {
      var n := |sources| - 1;
      var earlier, last := sources[..n], sources[n];
      assert sources == earlier + [last];
      LayeredLaw(earlier, path, v);
      MergeLaw(MergeAll(earlier), last, path, v);
      SuppliesStep(earlier, last, n, path, v);
      forall i: nat
        ensures Supplies(sources, i, path, v) <==>
                if i < n then Supplies(earlier, i, path, v) && Silent(last, path)
                else i == n && At(last, path) == Some(v)
      {
        SuppliesStep(earlier, last, i, path, v);
      }
      if i: nat :| Supplies(earlier, i, path, v) {
        SuppliedInRange(earlier, i, path, v);
        assert Silent(last, path) ==> Supplies(sources, i, path, v);
      }
    }
  }

  lemma SuppliedInRange(sources: seq<Tree>, i: nat, path: seq<string>, v: Tree)
    requires Supplies(sources, i, path, v)
    ensures i < |sources|
  {
  }

  lemma NothingSupplied(path: seq<string>, v: Tree)
    requires Leaf(v)
    ensures At(MergeAll([]), path) != Some(v) && forall i: nat :: !Supplies([], i, path, v)
  {
  }

  // ---- Associativity ----

  /** `over` names everything `base` does, down to wherever either has a leaf. */
  ghost predicate Covers(over: Tree, base: Tree)
    decreases base
  {
    base.Node? && over.Node? ==>
      forall k :: k in base.children ==> k in over.children && Covers(over.children[k], base.children[k])
  }

  /** Somewhere a leaf of the middle layer stands between two mappings, the last of which does not cover the first. */
  ghost predicate Hides(a: Tree, b: Tree, c: Tree)
    decreases a
  {
    a.Node? && c.Node? &&
    if b.Node? then
      exists k :: k in a.children && k in b.children && k in c.children && Hides(a.children[k], b.children[k], c.children[k])
    else !Covers(c, a)
  }

  function Child(base: Tree, over: Tree, k: string): Tree
    requires base.Node? && over.Node? && (k in base.children || k in over.children)
  {
    if k !in over.children then base.children[k]
    else if k in base.children then Merge(base.children[k], over.children[k])
    else over.children[k]
  }

  lemma MergeChildren(base: Tree, over: Tree)
    requires base.Node? && over.Node?
    ensures Merge(base, over).Node?
    ensures Merge(base, over).children.Keys == base.children.Keys + over.children.Keys
    ensures forall k :: k in base.children || k in over.children ==> Merge(base, over).children[k] == Child(base, over, k)
  {
  }

  lemma SameChildren(s: Tree, t: Tree)
    requires s.Node? && t.Node? && s.children.Keys == t.children.Keys
    ensures s == t <==> forall k :: k in s.children ==> s.children[k] == t.children[k]
  {
    if forall k :: k in s.children ==> s.children[k] == t.children[k] {
      assert s.children == t.children;
    }
  }

  /** Merging over a base changes nothing exactly when the base is covered. */
  lemma {:induction false} MergeIsOverIffCovers(base: Tree, over: Tree)
    ensures Merge(base, over) == over <==> Covers(over, base)
    decreases base
  {
    hide Merge;
    if base.Node? && over.Node? {
      MergeChildren(base, over);
      if base.children.Keys <= over.children.Keys {
        assert base.children.Keys + over.children.Keys == over.children.Keys;
        SameChildren(Merge(base, over), over);
        forall k | k in base.children
          ensures Child(base, over, k) == over.children[k] <==> Covers(over.children[k], base.children[k])
        {
          MergeIsOverIffCovers(base.children[k], over.children[k]);
        }
      } else {
        var k :| k in base.children && k !in over.children;
        assert k in Merge(base, over).children;
      }
    } else {
      MergeLeaf(base, over);
    }
  }

  lemma MergeLeaf(base: Tree, over: Tree)
    requires !base.Node? || !over.Node?
    ensures Merge(base, over) == over
  {
  }

  /** Merging three layers does not depend on the grouping exactly when the middle one hides nothing. */
  lemma {:induction false} MergeAssociativeIff(a: Tree, b: Tree, c: Tree)
    ensures Merge(Merge(a, b), c) == Merge(a, Merge(b, c)) <==> !Hides(a, b, c)
    decreases a
  {
    hide Merge;
    if !a.Node? {
      MergeLeaf(a, b);
      MergeLeaf(a, Merge(b, c));
    } else if !c.Node? {
      MergeLeaf(Merge(a, b), c);
      MergeLeaf(b, c);
      MergeLeaf(a, c);
    } else if !b.Node? {
      MergeLeaf(a, b);
      MergeLeaf(b, c);
      MergeIsOverIffCovers(a, c);
    } else {
      MergeAssociativeNodes(a, b, c);
    }
  }

  lemma {:induction false} MergeAssociativeNodes(a: Tree, b: Tree, c: Tree)
    requires a.Node? && b.Node? && c.Node?
    ensures Merge(Merge(a, b), c) == Merge(a, Merge(b, c)) <==> !Hides(a, b, c)
    decreases a, 0
  {
    hide Merge;
    var ab, bc := Merge(a, b), Merge(b, c);
    MergeChildren(a, b);
    MergeChildren(b, c);
    MergeChildren(ab, c);
    MergeChildren(a, bc);
    SameChildren(Merge(ab, c), Merge(a, bc));
    forall k | k in a.children || k in b.children || k in c.children
      ensures Child(ab, c, k) == Child(a, bc, k) <==>
        !(k in a.children && k in b.children && k in c.children && Hides(a.children[k], b.children[k], c.children[k]))
    {
      if k in a.children && k in b.children && k in c.children {
        MergeAssociativeIff(a.children[k], b.children[k], c.children[k]);
      }
    }
  }

  /** So merging is not associative: here a leaf in the middle layer hides the first layer for good. */
  lemma MergeOrderMatters()
    ensures var a, b, c :=
        Node(map["k" := Node(map["x" := Scalar("1")])]), Node(map["k" := Scalar("off")]), Node(map["k" := Node(map["y" := Scalar("2")])]);
      Merge(Merge(a, b), c) != Merge(a, Merge(b, c))
  {
    hide Merge;
    var x, off, y := Node(map["x" := Scalar("1")]), Scalar("off"), Node(map["y" := Scalar("2")]);
    var a, b, c := Node(map["k" := x]), Node(map["k" := off]), Node(map["k" := y]);
    assert "x" in x.children && "x"[0] != "y"[0] && "x" !in y.children;
    assert "k" in a.children && Hides(a.children["k"], b.children["k"], c.children["k"]);
    MergeAssociativeIff(a, b, c);
  }

  // ---- Dotted lookup ----

  /** The walk of `get`: a missing step or a None on the way means the default. */
  function Lookup(t: Tree, parts: seq<string>): Option<Tree> {
    if parts == [] then Some(t)
    else if t.Node? && parts[0] in t.children && !t.children[parts[0]].Null? then
      Lookup(t.children[parts[0]], parts[1..])
    else None
  }

  method Get(data: Tree, key: string) returns (value: Option<Tree>)
    ensures value == Lookup(data, Split(key, '.'))
  {
    hide Split;
    var parts := Split(key, '.');
    var current := data;
    for i := 0 to |parts|
      invariant Lookup(data, parts) == Lookup(current, parts[i..])
    {
      assert parts[i..][1..] == parts[i + 1..];
      if !current.Node? || parts[i] !in current.children || current.children[parts[i]].Null? {
        return None;
      }
      current := current.children[parts[i]];
    }
    value := Some(current);
  }

  /** Apart from None values, the dotted walk reads the tree. */
  lemma {:induction false} LookupIsAt(t: Tree, parts: seq<string>, v: Tree)
    requires Leaf(v) && !v.Null?
    ensures Lookup(t, parts) == Some(v) <==> At(t, parts) == Some(v)
    decreases |parts|
  {
    if parts != [] && t.Node? && parts[0] in t.children {
      var child := t.children[parts[0]];
      LookupIsAt(child, parts[1..], v);
      if child.Null? && parts[1..] != [] {
        assert At(child, parts[1..]).None?;
      }
    }
  }

  // ---- Flattening ----

  /** Keys that survive being joined with dots. */
  ghost predicate CleanKeys(t: Tree)
    decreases t
  {
    t.Node? ==> forall k :: k in t.children ==> k != "" && Free(k, '.') && CleanKeys(t.children[k])
  }

  ghost predicate CleanPath(path: seq<string>) {
    forall i :: 0 <= i < |path| ==> path[i] != "" && Free(path[i], '.')
  }

  /** `name` is the full dotted name of a leaf `v` of `t` whose path starts in `heads`. */
  ghost predicate Named(t: Tree, above: seq<string>, heads: set<string>, path: seq<string>, name: string, v: Tree) {
    path != [] && path[0] in heads && name == Join(above + path, '.') && At(t, path) == Some(v) && Leaf(v)
  }

  /** `flat` lists exactly those leaves. */
  ghost predicate Lists(t: Tree, above: seq<string>, heads: set<string>, flat: map<string, Tree>) {
    && (forall path, name, v :: Named(t, above, heads, path, name, v) ==> name in flat && flat[name] == v)
    && (forall name :: name in flat ==> exists path :: Named(t, above, heads, path, name, flat[name]))
  }

  lemma {:induction false} CleanAt(t: Tree, path: seq<string>)
    requires CleanKeys(t) && At(t, path).Some?
    ensures CleanPath(path)
    decreases |path|
  {
    if path != [] {
      CleanAt(t.children[path[0]], path[1..]);
      assert forall i :: 0 < i < |path| ==> path[i] == path[1..][i - 1];
    }
  }

  lemma FullKey(above: seq<string>, key: string)
    requires CleanPath(above) && key != ""
    ensures Join(above + [key], '.') == if Join(above, '.') != "" then Join(above, '.') + "." + key else key
  {
    if above == [] {
      assert above + [key] == [key];
    } else {
      JoinConcat(above, [key], '.');
      assert above[0] != "" && (|above| > 1 ==> Join(above, '.') != "");
    }
  }

  /** Leaves under different keys have different full names. */
  lemma NamesApart(t: Tree, above: seq<string>, p: seq<string>, q: seq<string>)
    requires CleanKeys(t) && CleanPath(above) && p != [] && q != [] && p[0] != q[0]
    requires At(t, p).Some? && At(t, q).Some?
    ensures Join(above + p, '.') != Join(above + q, '.')
  {
    hide Join;
    CleanAt(t, p);
    CleanAt(t, q);
    assert (above + p)[|above|] == p[0] && (above + q)[|above|] == q[0];
    if Join(above + p, '.') == Join(above + q, '.') {
      JoinInjective(above + p, above + q, '.');
    }
  }

  lemma ListsUnion(t: Tree, above: seq<string>, heads: set<string>, key: string,
                   flat: map<string, Tree>, sub: map<string, Tree>)
    requires CleanKeys(t) && CleanPath(above) && key !in heads
    requires Lists(t, above, heads, flat) && Lists(t, above, {key}, sub)
    ensures Lists(t, above, heads + {key}, flat + sub)
  {
    hide CleanKeys, CleanPath, Join, At;
    forall path, name, v | Named(t, above, heads + {key}, path, name, v)
      ensures name in flat + sub && (flat + sub)[name] == v
    {
      if path[0] in heads {
        assert Named(t, above, heads, path, name, v);
        forall q, w | Named(t, above, {key}, q, name, w) ensures false { NamesApart(t, above, path, q); }
        assert name !in sub;
      } else {
        assert Named(t, above, {key}, path, name, v);
      }
    }
    forall name | name in flat + sub
      ensures exists path :: Named(t, above, heads + {key}, path, name, (flat + sub)[name])
    {
      if name in sub {
        var path :| Named(t, above, {key}, path, name, sub[name]);
        assert Named(t, above, heads + {key}, path, name, (flat + sub)[name]);
      } else {
        var path :| Named(t, above, heads, path, name, flat[name]);
        assert Named(t, above, heads + {key}, path, name, (flat + sub)[name]);
      }
    }
  }

  lemma ListsLeaf(t: Tree, above: seq<string>, key: string)
    requires t.Node? && key in t.children && Leaf(t.children[key])
    ensures Lists(t, above, {key}, map[Join(above + [key], '.') := t.children[key]])
  {
    hide Join;
    var v, full := t.children[key], Join(above + [key], '.');
    assert At(t, [key]) == Some(v) by { assert [key][1..] == []; }
    forall path, name, w | Named(t, above, {key}, path, name, w) ensures name == full && w == v {
      assert path[0] == key && At(t, path) == At(v, path[1..]);
      assert path[1..] == [];
      assert path == [key];
    }
    assert Named(t, above, {key}, [key], full, v);
  }

  lemma ListsChild(t: Tree, above: seq<string>, key: string, sub: map<string, Tree>)
    requires t.Node? && key in t.children && t.children[key].Node?
    requires Lists(t.children[key], above + [key], t.children[key].children.Keys, sub)
    ensures Lists(t, above, {key}, sub)
  {
    hide Join;
    var child, heads := t.children[key], t.children[key].children.Keys;
    forall path, name, v | Named(t, above, {key}, path, name, v) ensures name in sub && sub[name] == v {
      var rest := path[1..];
      assert path == [key] + rest && At(child, rest) == Some(v);
      assert above + path == (above + [key]) + rest;
      assert Named(child, above + [key], heads, rest, name, v);
    }
    forall name | name in sub ensures exists path :: Named(t, above, {key}, path, name, sub[name]) {
      var rest :| Named(child, above + [key], heads, rest, name, sub[name]);
      var path := [key] + rest;
      assert path[1..] == rest && above + path == (above + [key]) + rest;
      assert Named(t, above, {key}, path, name, sub[name]);
    }
  }

  /** `_flatten`, with the path of `prefix` as a ghost. */
  method Flatten(data: Tree, prefix: string, ghost above: seq<string>) returns (result: map<string, Tree>)
    requires data.Node?
    ensures CleanKeys(data) && CleanPath(above) && prefix == Join(above, '.') ==>
              Lists(data, above, data.children.Keys, result)
    decreases data
  {
    hide Join, Lists, CleanPath, At;
    ghost var clean := CleanKeys(data) && CleanPath(above) && prefix == Join(above, '.');
    result := map[];
    NothingListed(data, above);
    var todo := data.children.Keys;
    while todo != {}
      invariant todo <= data.children.Keys
      invariant clean ==> Lists(data, above, data.children.Keys - todo, result)
      decreases todo
    {
      var key :| key in todo;
      ghost var done := data.children.Keys - todo;
      var value := data.children[key];
      var fullKey := if prefix != "" then prefix + "." + key else key;
      if clean { FullKey(above, key); KeyPathClean(data, above, key); }
      var sub: map<string, Tree>;
      if value.Node? {
        sub := Flatten(value, fullKey, above + [key]);
        if clean { ListsChild(data, above, key, sub); }
      } else {
        sub := map[fullKey := value];
        if clean { ListsLeaf(data, above, key); }
      }
      if clean { ListsUnion(data, above, done, key, result, sub); }
      result := result + sub;
      todo := todo - {key};
      assert data.children.Keys - todo == done + {key};
    }
    assert data.children.Keys - todo == data.children.Keys;
  }

  lemma NothingListed(t: Tree, above: seq<string>)
    ensures t.Node? ==> Lists(t, above, t.children.Keys - t.children.Keys, map[])
  {
  }

  lemma KeyPathClean(t: Tree, above: seq<string>, key: string)
    requires CleanKeys(t) && CleanPath(above) && t.Node? && key in t.children
    ensures key != "" && CleanPath(above + [key]) && CleanKeys(t.children[key])
  {
  }

  /** The flattened listing and the dotted lookup agree on every key. */
  lemma FlattenAgreesWithGet(t: Tree, flat: map<string, Tree>, key: string, v: Tree)
    requires t.Node? && CleanKeys(t) && Lists(t, [], t.children.Keys, flat)
    requires Leaf(v) && !v.Null?
    ensures key in flat && flat[key] == v <==> Lookup(t, Split(key, '.')) == Some(v)
  {
    hide Join, Split, Lookup;
    var parts := Split(key, '.');
    LookupIsAt(t, parts, v);
    JoinSplit(key, '.');
    assert [] + parts == parts;
    if At(t, parts) == Some(v) {
      assert parts[0] in t.children;
      assert Named(t, [], t.children.Keys, parts, key, v);
    }
    if key in flat && flat[key] == v {
      var path :| Named(t, [], t.children.Keys, path, key, v);
      CleanAt(t, path);
      assert [] + path == path;
      SplitJoin(path, '.');
    }
  }
}

/** The binary search tree shared by obiqualia_gates' two polarity trees
    (`RedAVLBridge` in black2ered.py, `RedAVLTree` in red2black.py): nodes
    carrying a key, a value, a confidence and a polarity, AVL-style rotations
    driven by stored heights, CLRS-style deletion and in-order decoding.

    The trees are values. A Python node reached through `parent` links is
    modelled as a focus subtree together with the path of frames that leads
    to it from the root; rebuilding the root from the two (`Plug`) is what the
    parent links make implicit. */
module PolarityTrees {
  import opened Options

  // ---------------------------------------------------------------------------
  // Nodes
  // ---------------------------------------------------------------------------

  datatype Color = Black | Red

  /** `'+'` (signal) or `'-'` (noise). */
  datatype Polarity = Plus | Minus

  /** The fields of a `PolarityNode` that belong to its key, whatever the
      tree's shape. */
  datatype Data = Data(key: int, val: string, confidence: real, polarity: Polarity, streakLow: int)

  /** A subtree: `None`, or a node with its stored colour and height. */
  datatype Tree = Nil | Node(left: Tree, data: Data, color: Color, height: int, right: Tree)

  /** `PolarityNode(key, val, confidence, polarity)` with the given colour. */
  function NewNode(key: int, val: string, confidence: real, polarity: Polarity, color: Color): (t: Tree)
    ensures Items(t) == [Data(key, val, confidence, polarity, 0)] && Keys(t) == {key} && Ordered(t)
  {
    Node(Nil, Data(key, val, confidence, polarity, 0), color, 1, Nil)
  }

  /** `flip_color`. */
  function Flip(c: Color): (r: Color)
    ensures r != c
  {
    if c == Black then Red else Black
  }

  lemma FlipInvolution(c: Color)
    ensures Flip(Flip(c)) == c
  {
  }

  /** `node.height if node else 0`. */
  function Height(t: Tree): int {
    if t.Nil? then 0 else t.height
  }

  /** `update_height`: one more than the taller child, as the children's
      stored heights say. Nothing else of the node changes. */
  function UpdateHeight(t: Tree): (r: Tree)
    requires t.Node?
    ensures r.Node? && r.left == t.left && r.data == t.data && r.color == t.color && r.right == t.right
    ensures r.height > Height(t.left) && r.height > Height(t.right)
    ensures r.height == Height(t.left) + 1 || r.height == Height(t.right) + 1
  {
    var lh := Height(t.left);
    var rh := Height(t.right);
    t.(height := 1 + if lh >= rh then lh else rh)
  }

  /** `balance_factor`: left height minus right height. */
  function BalanceFactor(t: Tree): int
    requires t.Node?
  {
    Height(t.left) - Height(t.right)
  }

  /** A node with stored heights of at least one is heavy only on a side
      that has a child, so a rotation at a heavy node always happens. */
  lemma HeavySideExists(t: Tree)
    requires t.Node? && Height(t.left) >= 0 && Height(t.right) >= 0
    ensures BalanceFactor(t) > 1 ==> t.left.Node? && Height(t.left) > Height(t.right) + 1
    ensures BalanceFactor(t) < -1 ==> t.right.Node? && Height(t.right) > Height(t.left) + 1
  {
  }

  // ---------------------------------------------------------------------------
  // What a tree holds
  // ---------------------------------------------------------------------------

  /** The node data in key order when the tree is ordered: the in-order walk. */
  function Items(t: Tree): seq<Data> {
    match t
    case Nil => []
    case Node(l, d, _, _, r) => Items(l) + [d] + Items(r)
  }

  function Keys(t: Tree): set<int> {
    match t
    case Nil => {}
    case Node(l, d, _, _, r) => Keys(l) + {d.key} + Keys(r)
  }

  /** The search-tree property: left keys < node key < right keys, at every node. */
  predicate Ordered(t: Tree) {
    match t
    case Nil => true
    case Node(l, d, _, _, r) =>
      Ordered(l) && Ordered(r) &&
      (forall k :: k in Keys(l) ==> k < d.key) && (forall k :: k in Keys(r) ==> d.key < k)
  }

  /** The keys of a sequence of node data strictly increase. */
  predicate SortedKeys(s: seq<Data>) {
    forall i, j :: 0 <= i < j < |s| ==> s[i].key < s[j].key
  }

  /** No element of `s` has key `k`. */
  predicate NoKey(s: seq<Data>, k: int) {
    forall i :: 0 <= i < |s| ==> s[i].key != k
  }

  /** Every item's key is a key of the tree. */
  lemma {:induction false} ItemKeys(t: Tree)
    ensures forall i :: 0 <= i < |Items(t)| ==> Items(t)[i].key in Keys(t)
  {
    match t
    case Nil =>
    case Node(l, d, _, _, r) =>
      ItemKeys(l);
      ItemKeys(r);
      var s := Items(t);
      assert forall i :: 0 <= i < |Items(l)| ==> s[i] == Items(l)[i];
      assert forall i :: |Items(l)| < i < |s| ==> s[i] == Items(r)[i - |Items(l)| - 1];
  }

  /** An ordered tree walks its keys in increasing order. */
  lemma {:induction false} OrderedSorted(t: Tree)
    requires Ordered(t)
    ensures SortedKeys(Items(t))
  {
    match t
    case Nil =>
    case Node(l, d, _, _, r) =>
      OrderedSorted(l);
      OrderedSorted(r);
      ItemKeys(l);
      ItemKeys(r);
      SortedJoin(Items(l), d, Items(r));
  }

  lemma SortedJoin(a: seq<Data>, x: Data, b: seq<Data>)
    requires SortedKeys(a) && SortedKeys(b)
    requires forall i :: 0 <= i < |a| ==> a[i].key < x.key
    requires forall i :: 0 <= i < |b| ==> x.key < b[i].key
    ensures SortedKeys(a + [x] + b)
  {
    var s := a + [x] + b;
    assert forall i :: 0 <= i < |a| ==> s[i] == a[i];
    assert forall i :: |a| < i < |s| ==> s[i] == b[i - |a| - 1];
  }

  /** A key missing from the tree is missing from its walk. */
  lemma AbsentKey(t: Tree, k: int)
    requires k !in Keys(t)
    ensures NoKey(Items(t), k)
  {
    ItemKeys(t);
  }

  /** In a sorted walk, the keys before and after an item differ from its key. */
  lemma SortedSplit(a: seq<Data>, x: Data, b: seq<Data>)
    requires SortedKeys(a + [x] + b)
    ensures NoKey(a, x.key) && NoKey(b, x.key)
  {
    var s := a + [x] + b;
    forall i | 0 <= i < |a| ensures a[i].key != x.key {
      assert s[i] == a[i] && s[|a|] == x;
    }
    forall i | 0 <= i < |b| ensures b[i].key != x.key {
      assert s[|a| + 1 + i] == b[i] && s[|a|] == x;
    }
  }

  lemma Regroup(p: seq<Data>, l: seq<Data>, x: Data, r: seq<Data>, q: seq<Data>)
    ensures p + (l + [x] + r) + q == (p + l) + [x] + (r + q)
  {
  }

  lemma RegroupPair(p: seq<Data>, l: seq<Data>, r: seq<Data>, q: seq<Data>)
    ensures p + (l + r) + q == (p + l) + (r + q)
  {
  }

  // ---------------------------------------------------------------------------
  // The walk as a map: the reference the tree operations are stated against
  // ---------------------------------------------------------------------------

  /** The first item with key `k`. */
  function Lookup(s: seq<Data>, k: int): (r: Option<Data>)
    ensures r.Some? ==> r.value.key == k && r.value in s
    ensures r.None? ==> NoKey(s, k)
  {
    if s == [] then None else if s[0].key == k then Some(s[0]) else Lookup(s[1..], k)
  }

  /** What `_bst_insert` keeps of a node whose key is inserted again: the new
      value, confidence and polarity, and the old streak. */
  function Overwrite(old_: Data, new_: Data): Data {
    old_.(val := new_.val, confidence := new_.confidence, polarity := new_.polarity)
  }

  /** Insertion into a walk sorted by key: before the first larger key, or
      over the item with the same key. */
  function InsertSorted(s: seq<Data>, d: Data): seq<Data> {
    if s == [] then [d]
    else if d.key < s[0].key then [d] + s
    else if d.key == s[0].key then [Overwrite(s[0], d)] + s[1..]
    else [s[0]] + InsertSorted(s[1..], d)
  }

  /** The walk without the items with key `k`. */
  function RemoveKey(s: seq<Data>, k: int): seq<Data> {
    if s == [] then [] else (if s[0].key == k then [] else [s[0]]) + RemoveKey(s[1..], k)
  }

  /** The walk with the items whose key is `m.key` replaced by `m`. */
  function Replace(s: seq<Data>, m: Data): seq<Data> {
    if s == [] then [] else [if s[0].key == m.key then m else s[0]] + Replace(s[1..], m)
  }

  lemma {:induction false} LookupAbsent(s: seq<Data>, k: int)
    requires NoKey(s, k)
    ensures Lookup(s, k) == None
  {
    if s != [] {
      LookupAbsent(s[1..], k);
    }
  }

  /** The item of a key that occurs once is what `Lookup` finds. */
  lemma {:induction false} LookupSplit(a: seq<Data>, x: Data, b: seq<Data>)
    requires NoKey(a, x.key)
    ensures Lookup(a + [x] + b, x.key) == Some(x)
  {
    if a != [] {
      assert (a + [x] + b)[1..] == a[1..] + [x] + b;
      LookupSplit(a[1..], x, b);
    }
  }

  lemma {:induction false} LookupAppend(a: seq<Data>, b: seq<Data>, k: int)
    ensures Lookup(a + b, k) == if Lookup(a, k).Some? then Lookup(a, k) else Lookup(b, k)
  {
    if a != [] {
      assert (a + b)[0] == a[0] && (a + b)[1..] == a[1..] + b;
      LookupAppend(a[1..], b, k);
    } else {
      assert a + b == b;
    }
  }

  /** The tree's keys are the keys its walk maps. */
  lemma {:induction false} KeysLookup(t: Tree, k: int)
    ensures k in Keys(t) <==> Lookup(Items(t), k).Some?
  {
    match t
    case Nil =>
    case Node(l, d, _, _, r) =>
      KeysLookup(l, k);
      KeysLookup(r, k);
      LookupAppend(Items(l) + [d], Items(r), k);
      LookupAppend(Items(l), [d], k);
  }

  /** A walk that lost the items of `k` belongs to a tree that lost the key `k`. */
  lemma KeysOfRemoved(t: Tree, u: Tree, k: int)
    requires Items(u) == RemoveKey(Items(t), k)
    ensures Keys(u) == Keys(t) - {k}
  {
    forall j ensures j in Keys(u) <==> j in Keys(t) && j != k {
      KeysLookup(t, j);
      KeysLookup(u, j);
      LookupRemoveKey(Items(t), k, j);
    }
  }

  /** Insertion acts as a map update: the inserted key maps to the new data
      (merged into the old item when there was one), every other key keeps
      its item. */
  lemma {:induction false} LookupInsertSorted(s: seq<Data>, d: Data, k: int)
    requires SortedKeys(s)
    ensures Lookup(InsertSorted(s, d), k) ==
            if k == d.key then Some(if Lookup(s, k).Some? then Overwrite(Lookup(s, k).value, d) else d)
            else Lookup(s, k)
  {
    if s != [] {
      if d.key < s[0].key {
        if k == d.key {
          assert NoKey(s, k);
          LookupAbsent(s, k);
        }
      } else if d.key == s[0].key {
      } else {
        assert SortedKeys(s[1..]);
        LookupInsertSorted(s[1..], d, k);
      }
    }
  }

  lemma {:induction false} LookupRemoveKey(s: seq<Data>, k: int, j: int)
    ensures Lookup(RemoveKey(s, k), j) == if j == k then None else Lookup(s, j)
  {
    if s != [] {
      LookupRemoveKey(s[1..], k, j);
      if s[0].key == k {
        assert RemoveKey(s, k) == RemoveKey(s[1..], k);
      } else {
        assert RemoveKey(s, k) == [s[0]] + RemoveKey(s[1..], k);
      }
    }
  }

  lemma {:induction false} LookupReplace(s: seq<Data>, m: Data, j: int)
    ensures Lookup(Replace(s, m), j) == if j == m.key && Lookup(s, j).Some? then Some(m) else Lookup(s, j)
  {
    if s != [] {
      LookupReplace(s[1..], m, j);
      assert Replace(s, m)[1..] == Replace(s[1..], m);
    }
  }

  lemma {:induction false} InsertSortedAppend(a: seq<Data>, c: seq<Data>, d: Data)
    requires c != [] && d.key < c[0].key
    ensures InsertSorted(a + c, d) == InsertSorted(a, d) + c
  {
    if a != [] {
      assert (a + c)[0] == a[0] && (a + c)[1..] == a[1..] + c;
      InsertSortedAppend(a[1..], c, d);
    } else {
      assert a + c == c;
    }
  }

  lemma {:induction false} InsertSortedSkip(a: seq<Data>, c: seq<Data>, d: Data)
    requires forall i :: 0 <= i < |a| ==> a[i].key < d.key
    ensures InsertSorted(a + c, d) == a + InsertSorted(c, d)
  {
    if a != [] {
      assert (a + c)[0] == a[0] && (a + c)[1..] == a[1..] + c;
      assert InsertSorted(a + c, d) == [a[0]] + InsertSorted(a[1..] + c, d);
      InsertSortedSkip(a[1..], c, d);
      assert a == [a[0]] + a[1..];
    } else {
      assert a + c == c;
    }
  }

  lemma {:induction false} RemoveKeyAppend(a: seq<Data>, b: seq<Data>, k: int)
    ensures RemoveKey(a + b, k) == RemoveKey(a, k) + RemoveKey(b, k)
  {
    if a != [] {
      var h := if a[0].key == k then [] else [a[0]];
      assert (a + b)[0] == a[0] && (a + b)[1..] == a[1..] + b;
      assert RemoveKey(a + b, k) == h + RemoveKey(a[1..] + b, k);
      RemoveKeyAppend(a[1..], b, k);
      assert RemoveKey(a, k) == h + RemoveKey(a[1..], k);
    } else {
      assert a + b == b;
    }
  }

  lemma {:induction false} RemoveKeyAbsent(s: seq<Data>, k: int)
    requires NoKey(s, k)
    ensures RemoveKey(s, k) == s
  {
    if s != [] {
      RemoveKeyAbsent(s[1..], k);
    }
  }

  lemma {:induction false} ReplaceAppend(a: seq<Data>, b: seq<Data>, m: Data)
    ensures Replace(a + b, m) == Replace(a, m) + Replace(b, m)
  {
    if a != [] {
      var h := [if a[0].key == m.key then m else a[0]];
      assert (a + b)[0] == a[0] && (a + b)[1..] == a[1..] + b;
      assert Replace(a + b, m) == h + Replace(a[1..] + b, m);
      ReplaceAppend(a[1..], b, m);
      assert Replace(a, m) == h + Replace(a[1..], m);
    } else {
      assert a + b == b;
    }
  }

  lemma {:induction false} ReplaceAbsent(s: seq<Data>, m: Data)
    requires NoKey(s, m.key)
    ensures Replace(s, m) == s
  {
    if s != [] {
      ReplaceAbsent(s[1..], m);
    }
  }

  /** Removing a key that occurs once leaves the items around it. */
  lemma RemoveKeySplit(a: seq<Data>, x: Data, b: seq<Data>)
    requires NoKey(a, x.key) && NoKey(b, x.key)
    ensures RemoveKey(a + [x] + b, x.key) == a + b
  {
    RemoveKeyAppend(a + [x], b, x.key);
    RemoveKeyAppend(a, [x], x.key);
    RemoveKeyAbsent(a, x.key);
    RemoveKeyAbsent(b, x.key);
    assert RemoveKey([x], x.key) == [] by {
      assert [x][1..] == [];
    }
    assert RemoveKey(a + [x], x.key) == a;
  }

  /** Replacing the item of a key that occurs once changes that item only. */
  lemma ReplaceSplit(a: seq<Data>, x: Data, b: seq<Data>, m: Data)
    requires m.key == x.key && NoKey(a, x.key) && NoKey(b, x.key)
    ensures Replace(a + [x] + b, m) == a + [m] + b
  {
    ReplaceAppend(a + [x], b, m);
    ReplaceAppend(a, [x], m);
    ReplaceAbsent(a, m);
    ReplaceAbsent(b, m);
  }

  // ---------------------------------------------------------------------------
  // Paths: the parent links
  // ---------------------------------------------------------------------------

  /** One step up from a subtree: the parent's own fields and the sibling. */
  datatype Frame =
    | LeftOf(data: Data, color: Color, height: int, right: Tree)
    | RightOf(left: Tree, data: Data, color: Color, height: int)

  /** The parent node, with `f` in the child position the frame names. */
  function Attach(fr: Frame, f: Tree): Tree {
    match fr
    case LeftOf(d, c, h, r) => Node(f, d, c, h, r)
    case RightOf(l, d, c, h) => Node(l, d, c, h, f)
  }

  /** The root a focus subtree belongs to; the last frame is its parent. */
  function Plug(f: Tree, path: seq<Frame>): Tree
    decreases |path|
  {
    if path == [] then f else Plug(Attach(path[|path| - 1], f), path[..|path| - 1])
  }

  /** The items a path puts before and after its focus. */
  function Before(path: seq<Frame>): seq<Data>
    decreases |path|
  {
    if path == [] then []
    else
      var fr := path[|path| - 1];
      Before(path[..|path| - 1]) + (if fr.RightOf? then Items(fr.left) + [fr.data] else [])
  }

  function After(path: seq<Frame>): seq<Data>
    decreases |path|
  {
    if path == [] then []
    else
      var fr := path[|path| - 1];
      (if fr.LeftOf? then [fr.data] + Items(fr.right) else []) + After(path[..|path| - 1])
  }

  lemma {:induction false} PlugItems(f: Tree, path: seq<Frame>)
    ensures Items(Plug(f, path)) == Before(path) + Items(f) + After(path)
    decreases |path|
  {
    if path == [] {
      assert [] + Items(f) + [] == Items(f);
    } else {
      var fr := path[|path| - 1];
      var init := path[..|path| - 1];
      var p, q := Before(init), After(init);
      assert Items(Plug(f, path)) == p + Items(Attach(fr, f)) + q by {
        PlugItems(Attach(fr, f), init);
      }
      match fr
      case LeftOf(d, _, _, r) =>
        assert Before(path) == p + [] && After(path) == ([d] + Items(r)) + q;
        RegroupLeft(p, Items(f), d, Items(r), q);
      case RightOf(l, d, _, _) =>
        assert Before(path) == p + (Items(l) + [d]) && After(path) == [] + q;
        RegroupRight(p, Items(l), d, Items(f), q);
    }
  }

  lemma RegroupLeft(p: seq<Data>, x: seq<Data>, d: Data, r: seq<Data>, q: seq<Data>)
    ensures p + (x + [d] + r) + q == (p + []) + x + (([d] + r) + q)
  {
  }

  lemma RegroupRight(p: seq<Data>, l: seq<Data>, d: Data, x: seq<Data>, q: seq<Data>)
    ensures p + (l + [d] + x) + q == (p + (l + [d])) + x + ([] + q)
  {
  }

  /** Replacing the focus by a subtree with the same items and keys, ordered
      when the focus was, does the same to the whole tree. */
  lemma {:induction false} PlugCongruent(f: Tree, g: Tree, path: seq<Frame>)
    requires Items(f) == Items(g) && Keys(f) == Keys(g) && (Ordered(f) ==> Ordered(g))
    ensures Items(Plug(f, path)) == Items(Plug(g, path)) && Keys(Plug(f, path)) == Keys(Plug(g, path))
    ensures Ordered(Plug(f, path)) ==> Ordered(Plug(g, path))
    decreases |path|
  {
    if path != [] {
      var fr := path[|path| - 1];
      PlugCongruent(Attach(fr, f), Attach(fr, g), path[..|path| - 1]);
    }
  }

  /** An ordered tree stays ordered when a subtree is replaced by an ordered
      one with fewer keys. */
  lemma {:induction false} PlugShrinks(f: Tree, g: Tree, path: seq<Frame>)
    requires Keys(g) <= Keys(f) && Ordered(g)
    requires Ordered(Plug(f, path))
    ensures Ordered(Plug(g, path)) && Keys(Plug(g, path)) <= Keys(Plug(f, path))
    decreases |path|
  {
    if path != [] {
      var fr := path[|path| - 1];
      PlugOrderedParts(f, path);
      PlugShrinks(Attach(fr, f), Attach(fr, g), path[..|path| - 1]);
    }
  }

  /** The focus of an ordered tree, and its parent subtree, are ordered. */
  lemma {:induction false} PlugOrderedParts(f: Tree, path: seq<Frame>)
    requires Ordered(Plug(f, path))
    ensures Ordered(f) && (path != [] ==> Ordered(Attach(path[|path| - 1], f)))
    ensures Keys(f) <= Keys(Plug(f, path))
    decreases |path|
  {
    if path != [] {
      var fr := path[|path| - 1];
      PlugOrderedParts(Attach(fr, f), path[..|path| - 1]);
    }
  }

  /** The walk of an ordered tree around a node of the focus. */
  lemma FocusSplit(z: Tree, path: seq<Frame>)
    requires z.Node? && Ordered(Plug(z, path))
    ensures var a := Before(path) + Items(z.left);
            var b := Items(z.right) + After(path);
            Items(Plug(z, path)) == a + [z.data] + b && NoKey(a, z.data.key) && NoKey(b, z.data.key)
  {
    var a := Before(path) + Items(z.left);
    var b := Items(z.right) + After(path);
    assert Items(Plug(z, path)) == a + [z.data] + b by {
      PlugItems(z, path);
      Regroup(Before(path), Items(z.left), z.data, Items(z.right), After(path));
    }
    assert NoKey(a, z.data.key) && NoKey(b, z.data.key) by {
      assert SortedKeys(a + [z.data] + b) by {
        OrderedSorted(Plug(z, path));
      }
      SortedSplit(a, z.data, b);
    }
  }

  // ---------------------------------------------------------------------------
  // Search
  // ---------------------------------------------------------------------------

  /** The subtree `find` stops at: the node with key `k`, or `None`. */
  function Search(t: Tree, k: int): Tree {
    match t
    case Nil => Nil
    case Node(l, d, _, _, r) => if k == d.key then t else if k < d.key then Search(l, k) else Search(r, k)
  }

  /** In an ordered tree the search finds a node exactly for the keys the tree holds. */
  lemma {:induction false} SearchFinds(t: Tree, k: int)
    requires Ordered(t)
    ensures Search(t, k).Node? <==> k in Keys(t)
    ensures Search(t, k).Node? ==> Search(t, k).data.key == k
  {
    match t
    case Nil =>
    case Node(l, d, _, _, r) =>
      if k < d.key {
        SearchFinds(l, k);
      } else if k > d.key {
        SearchFinds(r, k);
      }
  }

  /** `find`: the `while` loop descending from the root, which also records
      the path it takes. */
  method FindPath(root: Tree, key: int) returns (focus: Tree, path: seq<Frame>)
    ensures focus == Search(root, key) && Plug(focus, path) == root
  {
    focus, path := root, [];
    while focus.Node? && focus.data.key != key
      invariant Search(focus, key) == Search(root, key) && Plug(focus, path) == root
      decreases focus
    {
      if key < focus.data.key {
        var fr := LeftOf(focus.data, focus.color, focus.height, focus.right);
        assert (path + [fr])[..|path|] == path;
        focus, path := focus.left, path + [fr];
      } else {
        var fr := RightOf(focus.left, focus.data, focus.color, focus.height);
        assert (path + [fr])[..|path|] == path;
        focus, path := focus.right, path + [fr];
      }
    }
  }

  /** What `find` answers in an ordered tree, by the walk as a map. */
  lemma FoundIsLookup(root: Tree, key: int, focus: Tree, path: seq<Frame>)
    requires Ordered(root) && focus == Search(root, key) && Plug(focus, path) == root
    ensures focus.Nil? <==> key !in Keys(root)
    ensures Lookup(Items(root), key) == if focus.Nil? then None else Some(focus.data)
  {
    SearchFinds(root, key);
    if focus.Nil? {
      AbsentKey(root, key);
      LookupAbsent(Items(root), key);
    } else {
      FocusSplit(focus, path);
      LookupSplit(Before(path) + Items(focus.left), focus.data, Items(focus.right) + After(path));
    }
  }

  // ---------------------------------------------------------------------------
  // Insertion
  // ---------------------------------------------------------------------------

  /** What `_bst_insert` returns, and whether it met the key already. */
  datatype Inserted = Inserted(tree: Tree, repeated: bool)

  /** `_bst_insert(root, node)` for the leaf `node` holding `d` with colour
      `c`. A repeated key overwrites value, confidence and polarity and, when
      `flip` holds, flips that node's colour; every node on the way down has
      its height updated on the way back. */
  function BstInsert(t: Tree, d: Data, c: Color, flip: bool): (r: Inserted)
    ensures r.tree.Node? && (r.repeated ==> d.key in Keys(t))
    ensures Ordered(t) ==> r.repeated == (d.key in Keys(t))
    ensures Keys(r.tree) == Keys(t) + {d.key}
    ensures Ordered(t) ==> Ordered(r.tree)
    ensures t.Node? ==> r.tree.data.key == t.data.key
  {
    match t
    case Nil => Inserted(Node(Nil, d, c, 1, Nil), false)
    case Node(l, x, xc, h, rt) =>
      if d.key < x.key then
        var sub := BstInsert(l, d, c, flip);
        Inserted(UpdateHeight(Node(sub.tree, x, xc, h, rt)), sub.repeated)
      else if d.key > x.key then
        var sub := BstInsert(rt, d, c, flip);
        Inserted(UpdateHeight(Node(l, x, xc, h, sub.tree)), sub.repeated)
      else
        Inserted(Node(l, Overwrite(x, d), if flip then Flip(xc) else xc, h, rt), true)
  }

  /** Insertion into the tree is insertion into its sorted walk. */
  lemma {:induction false} BstInsertItems(t: Tree, d: Data, c: Color, flip: bool)
    requires Ordered(t)
    ensures Items(BstInsert(t, d, c, flip).tree) == InsertSorted(Items(t), d)
    decreases t, 1
  {
    match t
    case Nil =>
    case Node(l, x, xc, h, rt) =>
      if d.key < x.key {
        BstInsertItemsLeft(t, d, c, flip);
      } else if d.key > x.key {
        BstInsertItemsRight(t, d, c, flip);
      } else {
        BstInsertItemsHere(t, d, c, flip);
      }
  }

  lemma BstInsertItemsHere(t: Tree, d: Data, c: Color, flip: bool)
    requires t.Node? && Ordered(t) && d.key == t.data.key
    ensures Items(BstInsert(t, d, c, flip).tree) == InsertSorted(Items(t), d)
  {
    var l, x, rt := t.left, t.data, t.right;
    var tail := [x] + Items(rt);
    assert Items(BstInsert(t, d, c, flip).tree) == Items(l) + ([Overwrite(x, d)] + Items(rt));
    assert InsertSorted(tail, d) == [Overwrite(x, d)] + Items(rt) by {
      assert tail[0] == x && tail[1..] == Items(rt);
    }
    assert InsertSorted(Items(t), d) == Items(l) + InsertSorted(tail, d) by {
      assert Items(t) == Items(l) + tail;
      ItemKeys(l);
      InsertSortedSkip(Items(l), tail, d);
    }
  }

  lemma {:induction false} BstInsertItemsLeft(t: Tree, d: Data, c: Color, flip: bool)
    requires t.Node? && Ordered(t) && d.key < t.data.key
    ensures Items(BstInsert(t, d, c, flip).tree) == InsertSorted(Items(t), d)
    decreases t, 0
  {
    var l, x, rt := t.left, t.data, t.right;
    assert Items(BstInsert(t, d, c, flip).tree) == Items(BstInsert(l, d, c, flip).tree) + ([x] + Items(rt));
    assert Items(BstInsert(l, d, c, flip).tree) == InsertSorted(Items(l), d) by {
      BstInsertItems(l, d, c, flip);
    }
    assert InsertSorted(Items(t), d) == InsertSorted(Items(l), d) + ([x] + Items(rt)) by {
      assert Items(t) == Items(l) + ([x] + Items(rt));
      InsertSortedAppend(Items(l), [x] + Items(rt), d);
    }
  }

  lemma {:induction false} BstInsertItemsRight(t: Tree, d: Data, c: Color, flip: bool)
    requires t.Node? && Ordered(t) && d.key > t.data.key
    ensures Items(BstInsert(t, d, c, flip).tree) == InsertSorted(Items(t), d)
    decreases t, 0
  {
    var l, x, rt := t.left, t.data, t.right;
    assert Items(BstInsert(t, d, c, flip).tree) == (Items(l) + [x]) + Items(BstInsert(rt, d, c, flip).tree);
    assert Items(BstInsert(rt, d, c, flip).tree) == InsertSorted(Items(rt), d) by {
      BstInsertItems(rt, d, c, flip);
    }
    assert InsertSorted(Items(t), d) == (Items(l) + [x]) + InsertSorted(Items(rt), d) by {
      ItemKeys(l);
      InsertSortedSkip(Items(l) + [x], Items(rt), d);
    }
  }

  /** The colour of the node with key `k`, found by search. */
  function ColorAt(t: Tree, k: int): Option<Color> {
    var n := Search(t, k);
    if n.Nil? then None else Some(n.color)
  }

  /** Inserting a key again flips its node's colour when `flip` holds and
      keeps it otherwise; a new key's node has the colour it was made with. */
  lemma {:induction false} BstInsertColor(t: Tree, d: Data, c: Color, flip: bool)
    ensures ColorAt(BstInsert(t, d, c, flip).tree, d.key) ==
            if ColorAt(t, d.key).None? then Some(c)
            else if flip then Some(Flip(ColorAt(t, d.key).value)) else ColorAt(t, d.key)
  {
    match t
    case Nil =>
    case Node(l, x, xc, h, rt) =>
      if d.key < x.key {
        BstInsertColor(l, d, c, flip);
      } else if d.key > x.key {
        BstInsertColor(rt, d, c, flip);
      }
  }

  // ---------------------------------------------------------------------------
  // Rotations and recolouring
  // ---------------------------------------------------------------------------

  /** `_rotate_left(x)` on the subtree rooted at `x`: nothing happens without
      a right child. Heights of the two nodes are updated, `x` first; with
      `recolor` (black2ered) `x` turns red and the new top black. */
  function RotateLeft(t: Tree, recolor: bool): (r: Tree)
    ensures Items(r) == Items(t) && Keys(r) == Keys(t)
    ensures t.Node? && t.right.Node? ==> r.Node? && r.left.Node? && (recolor ==> r.left.color == Red)
    ensures !(t.Node? && t.right.Node?) ==> r == t
  {
    if t.Nil? || t.right.Nil? then t
    else
      var y := t.right;
      var x := UpdateHeight(Node(t.left, t.data, if recolor then Red else t.color, t.height, y.left));
      UpdateHeight(Node(x, y.data, if recolor then Black else y.color, y.height, y.right))
  }

  /** `_rotate_right(x)`, the mirror image of `RotateLeft`. */
  function RotateRight(t: Tree, recolor: bool): (r: Tree)
    ensures Items(r) == Items(t) && Keys(r) == Keys(t)
    ensures t.Node? && t.left.Node? ==> r.Node? && r.right.Node? && (recolor ==> r.right.color == Red)
    ensures !(t.Node? && t.left.Node?) ==> r == t
  {
    if t.Nil? || t.left.Nil? then t
    else
      var y := t.left;
      var x := UpdateHeight(Node(y.right, t.data, if recolor then Red else t.color, t.height, t.right));
      UpdateHeight(Node(y.left, y.data, if recolor then Black else y.color, y.height, x))
  }

  /** Both rotations keep the search-tree property. */
  lemma RotationsOrdered(t: Tree, recolor: bool)
    requires Ordered(t)
    ensures Ordered(RotateLeft(t, recolor)) && Ordered(RotateRight(t, recolor))
  {
    if t.Node? && t.right.Node? {
      var y := t.right;
      var x := UpdateHeight(Node(t.left, t.data, if recolor then Red else t.color, t.height, y.left));
      assert Keys(y.left) <= Keys(t.right);
      assert Ordered(x);
      assert forall k :: k in Keys(x) ==> k < y.data.key;
    }
    if t.Node? && t.left.Node? {
      var y := t.left;
      var x := UpdateHeight(Node(y.right, t.data, if recolor then Red else t.color, t.height, t.right));
      assert Keys(y.right) <= Keys(t.left);
      assert Ordered(x);
      assert forall k :: k in Keys(x) ==> y.data.key < k;
    }
  }

  /** "Children of RED must be BLACK": a red node's children turn black. */
  function RecolorChildren(t: Tree): (r: Tree)
    ensures Items(r) == Items(t) && Keys(r) == Keys(t)
    ensures t.Node? ==> r.Node? && r.color == t.color && r.height == t.height
    ensures t.Node? && t.color == Red ==>
              (r.left.Node? ==> r.left.color == Black) && (r.right.Node? ==> r.right.color == Black)
  {
    if t.Node? && t.color == Red then
      t.(left := Blacken(t.left), right := Blacken(t.right))
    else t
  }

  /** A node painted black. */
  function Blacken(t: Tree): (r: Tree)
    ensures Items(r) == Items(t) && Keys(r) == Keys(t) && Ordered(r) == Ordered(t)
    ensures t.Node? ==> r.Node? && r.color == Black
  {
    if t.Nil? then Nil else t.(color := Black)
  }

  lemma RecolorOrdered(t: Tree)
    requires Ordered(t)
    ensures Ordered(RecolorChildren(t))
  {
  }

  /** One pass of `_rebalance_up`'s loop: the new subtree, whether the loop
      stays at its top, and how many rotations happened. */
  datatype Rebalanced = Rebalanced(tree: Tree, rotated: bool, rotations: nat)

  /** The body of `_rebalance_up`'s loop at `cur`, the root of `t`: update its
      height; when it is left heavy, rotate its left child left if that leans
      right, then rotate `cur` right (or the mirror image when it is right
      heavy); then, with `recolor`, blacken the children of `cur` when it is
      red. After a rotation `cur` is a child of the new top, which is where
      the loop goes next. A rotation without the child it needs does
      nothing. */
  function RebalanceStep(t: Tree, recolor: bool): (r: Rebalanced)
    requires t.Node?
    ensures Items(r.tree) == Items(t) && Keys(r.tree) == Keys(t)
    ensures r.tree.Node? && (r.rotated <==> r.rotations > 0)
  {
    var cur := UpdateHeight(t);
    var bf := BalanceFactor(cur);
    if bf > 1 && cur.left.Node? then
      var inner := BalanceFactor(cur.left) < 0;
      var cur' := if inner then cur.(left := RotateLeft(cur.left, recolor)) else cur;
      var top := RotateRight(cur', recolor);
      Rebalanced(if recolor then top.(right := RecolorChildren(top.right)) else top, true,
                 if inner && cur.left.right.Node? then 2 else 1)
    else if bf < -1 && cur.right.Node? then
      var inner := BalanceFactor(cur.right) > 0;
      var cur' := if inner then cur.(right := RotateRight(cur.right, recolor)) else cur;
      var top := RotateLeft(cur', recolor);
      Rebalanced(if recolor then top.(left := RecolorChildren(top.left)) else top, true,
                 if inner && cur.right.left.Node? then 2 else 1)
    else
      Rebalanced(if recolor then RecolorChildren(cur) else cur, false, 0)
  }

  /** A pass keeps the search-tree property. */
  lemma RebalanceStepOrdered(t: Tree, recolor: bool)
    requires t.Node? && Ordered(t)
    ensures Ordered(RebalanceStep(t, recolor).tree)
  {
    var cur := UpdateHeight(t);
    assert Ordered(cur);
    var bf := BalanceFactor(cur);
    if bf > 1 && cur.left.Node? {
      var inner := BalanceFactor(cur.left) < 0;
      RotationsOrdered(cur.left, recolor);
      var cur' := if inner then cur.(left := RotateLeft(cur.left, recolor)) else cur;
      assert Ordered(cur');
      var top := RotateRight(cur', recolor);
      RotationsOrdered(cur', recolor);
      RecolorOrdered(top.right);
    } else if bf < -1 && cur.right.Node? {
      var inner := BalanceFactor(cur.right) > 0;
      RotationsOrdered(cur.right, recolor);
      var cur' := if inner then cur.(right := RotateRight(cur.right, recolor)) else cur;
      assert Ordered(cur');
      var top := RotateLeft(cur', recolor);
      RotationsOrdered(cur', recolor);
      RecolorOrdered(top.left);
    } else {
      RecolorOrdered(cur);
    }
  }

  /** The number of passes after which the model of `_rebalance_up` stops. */
  const REBALANCE_BUDGET: nat := 1000

  /** `_rebalance_up(node)`: the `while cur` loop from `focus` to the root.
      After a rotation the loop stays at the new top of the subtree; otherwise
      it moves to the parent, and it ends above the root. The walk, the key
      set and the search-tree property are kept by every pass. */
  method RebalanceUp(focus: Tree, path: seq<Frame>, recolor: bool, budget: nat)
    returns (root: Tree, rotations: nat)
    requires focus.Node?
    ensures Items(root) == Items(Plug(focus, path)) && Keys(root) == Keys(Plug(focus, path))
    ensures Ordered(Plug(focus, path)) ==> Ordered(root)
    ensures root.Node?
  {
    var cur, up := focus, path;
    var fuel := budget;
    var done := false;
    rotations := 0;
    while !done && fuel > 0
      invariant cur.Node?
      invariant Items(Plug(cur, up)) == Items(Plug(focus, path)) && Keys(Plug(cur, up)) == Keys(Plug(focus, path))
      invariant Ordered(Plug(focus, path)) ==> Ordered(Plug(cur, up))
      decreases fuel
    {
      var step := RebalanceStep(cur, recolor);
      if Ordered(cur) {
        RebalanceStepOrdered(cur, recolor);
      }
      PlugCongruent(cur, step.tree, up);
      rotations := rotations + step.rotations;
      if step.rotated {
        cur := step.tree;
      } else if up == [] {
        cur := step.tree;
        done := true;
      } else {
        cur, up := Attach(up[|up| - 1], step.tree), up[..|up| - 1];
      }
      fuel := fuel - 1;
    }
    root := Plug(cur, up);
    if cur != root {
      PlugNode(cur, up);
    }
  }

  lemma {:induction false} PlugNode(f: Tree, path: seq<Frame>)
    requires f.Node?
    ensures Plug(f, path).Node?
    decreases |path|
  {
    if path != [] {
      PlugNode(Attach(path[|path| - 1], f), path[..|path| - 1]);
    }
  }

  // ---------------------------------------------------------------------------
  // Deletion
  // ---------------------------------------------------------------------------

  /** The node `_min_node` stops at. */
  function Leftmost(t: Tree): (m: Tree)
    requires t.Node?
    ensures m.Node? && m.left.Nil?
  {
    if t.left.Nil? then t else Leftmost(t.left)
  }

  /** `_min_node(x)`: the `while x.left` loop. */
  method MinNode(x: Tree) returns (m: Tree)
    requires x.Node?
    ensures m == Leftmost(x)
  {
    m := x;
    while m.left.Node?
      invariant m.Node? && Leftmost(m) == Leftmost(x)
      decreases m
    {
      m := m.left;
    }
  }

  /** `_transplant(y, y.right)` of the leftmost node `y`: its right subtree
      takes its place; no height is updated. */
  function RemoveMin(t: Tree): Tree
    requires t.Node?
  {
    if t.left.Nil? then t.right else t.(left := RemoveMin(t.left))
  }

  /** The leftmost node holds the first item, and the rest of the walk is
      what removing it leaves. */
  lemma {:induction false} RemoveMinItems(t: Tree)
    requires t.Node?
    ensures Items(t) == [Leftmost(t).data] + Items(RemoveMin(t))
    ensures Keys(t) == {Leftmost(t).data.key} + Keys(RemoveMin(t))
    ensures Ordered(t) ==> Ordered(RemoveMin(t)) && Leftmost(t).data.key !in Keys(RemoveMin(t))
    ensures Ordered(t) ==> forall k :: k in Keys(RemoveMin(t)) ==> Leftmost(t).data.key < k
  {
    if t.left.Node? {
      RemoveMinItems(t.left);
    }
  }

  /** The subtree that takes the place of the deleted node `z` in `delete`: its
      other child when it lacks one, and otherwise its successor `y` (the
      leftmost node on the right) with `z`'s children, the successor removed
      from the right one, and `y`'s height updated. `y`'s colour stays. */
  function RemoveNode(z: Tree): (r: Tree)
    requires z.Node?
    ensures Items(r) == Items(z.left) + Items(z.right)
    ensures Ordered(z) ==> Ordered(r) && Keys(r) == Keys(z) - {z.data.key}
  {
    if z.left.Nil? then z.right
    else if z.right.Nil? then z.left
    else
      var y := Leftmost(z.right);
      RemoveMinItems(z.right);
      UpdateHeight(Node(z.left, y.data, y.color, y.height, RemoveMin(z.right)))
  }

  // ---------------------------------------------------------------------------
  // The tree operations both classes share
  // ---------------------------------------------------------------------------

  /** `self.root = self._bst_insert(self.root, node)` followed by
      `self._rebalance_up(node.parent or node)` on a non-empty tree. A new key
      hangs below a parent, where the loop starts; a repeated key leaves `node`
      detached, so the loop over it changes nothing. */
  method InsertBelow(root: Tree, d: Data, c: Color, flip: bool, recolor: bool)
    returns (r: Tree, repeated: bool, rotations: nat)
    requires root.Node? && Ordered(root)
    ensures Items(r) == InsertSorted(Items(root), d) && Keys(r) == Keys(root) + {d.key} && Ordered(r)
    ensures r.Node? && repeated == (d.key in Keys(root))
    ensures repeated ==> rotations == 0 && r.data.key == root.data.key
    ensures ColorAt(root, d.key).Some? ==>
              ColorAt(r, d.key) == Some(if flip then Flip(ColorAt(root, d.key).value) else ColorAt(root, d.key).value)
  {
    var ins := BstInsert(root, d, c, flip);
    BstInsertItems(root, d, c, flip);
    SearchFinds(root, d.key);
    r, repeated, rotations := ins.tree, ins.repeated, 0;
    if repeated {
      BstInsertColor(root, d, c, flip);
    } else {
      var focus, path := FindPath(r, d.key);
      SearchFinds(r, d.key);
      assert path != [];
      r, rotations := RebalanceUp(Attach(path[|path| - 1], focus), path[..|path| - 1], recolor, REBALANCE_BUDGET);
    }
  }

  /** The subtree that replaces the deleted node: `_transplant` with its
      only child, or with its successor taken out by the `_min_node` loop. */
  method Splice(z: Tree) returns (sub: Tree)
    requires z.Node?
    ensures sub == RemoveNode(z)
  {
    if z.left.Nil? {
      sub := z.right;
    } else if z.right.Nil? {
      sub := z.left;
    } else {
      var y := MinNode(z.right);
      sub := UpdateHeight(Node(z.left, y.data, y.color, y.height, RemoveMin(z.right)));
    }
  }

  /** Splicing a node out of an ordered tree removes its key from the walk
      and keeps the tree ordered. */
  lemma SpliceInPlace(z: Tree, path: seq<Frame>)
    requires z.Node? && Ordered(Plug(z, path))
    ensures Items(Plug(RemoveNode(z), path)) == RemoveKey(Items(Plug(z, path)), z.data.key)
    ensures Ordered(Plug(RemoveNode(z), path))
  {
    SpliceItems(z, path);
    assert Ordered(Plug(RemoveNode(z), path)) by {
      PlugOrderedParts(z, path);
      PlugShrinks(z, RemoveNode(z), path);
    }
  }

  lemma SpliceItems(z: Tree, path: seq<Frame>)
    requires z.Node? && Ordered(Plug(z, path))
    ensures Items(Plug(RemoveNode(z), path)) == RemoveKey(Items(Plug(z, path)), z.data.key)
  {
    var p, l, r, q := Before(path), Items(z.left), Items(z.right), After(path);
    assert RemoveKey(Items(Plug(z, path)), z.data.key) == (p + l) + (r + q) by {
      FocusSplit(z, path);
      RemoveKeySplit(p + l, z.data, r + q);
    }
    assert Items(Plug(RemoveNode(z), path)) == (p + l) + (r + q) by {
      PlugItems(RemoveNode(z), path);
      RegroupPair(p, l, r, q);
    }
  }

  /** `delete(key)`: find the node, splice it out (its successor from the
      `_min_node` loop takes its place when it has two children), then
      `_rebalance_up` from its old parent, or from the new root when it was
      the root. A missing key leaves the tree as it is. */
  method DeleteFrom(root: Tree, key: int, recolor: bool) returns (r: Tree, rotations: nat)
    requires Ordered(root)
    ensures Items(r) == RemoveKey(Items(root), key) && Keys(r) == Keys(root) - {key} && Ordered(r)
    ensures key !in Keys(root) ==> r == root && rotations == 0
  {
    var z, path := FindPath(root, key);
    FoundIsLookup(root, key, z, path);
    if z.Nil? {
      AbsentKey(root, key);
      RemoveKeyAbsent(Items(root), key);
      return root, 0;
    }
    var sub := Splice(z);
    SpliceInPlace(z, path);
    if path != [] {
      r, rotations := RebalanceUp(Attach(path[|path| - 1], sub), path[..|path| - 1], recolor, REBALANCE_BUDGET);
    } else if sub.Node? {
      r, rotations := RebalanceUp(sub, [], recolor, REBALANCE_BUDGET);
    } else {
      r, rotations := sub, 0;
    }
    KeysOfRemoved(root, r, key);
  }

  // ---------------------------------------------------------------------------
  // Measurements
  // ---------------------------------------------------------------------------

  /** Whether a measurement counts against the node: low confidence or
      negative polarity. */
  predicate Low(conf: real, p: Polarity, threshold: real) {
    conf < threshold || p == Minus
  }

  /** The node's data after a measurement: the measured confidence, the
      measured polarity when one is given, and the low streak one longer for a
      low measurement or reset to zero otherwise. */
  function Measured(d: Data, conf: real, pol: Option<Polarity>, threshold: real): (m: Data)
    ensures m.key == d.key && m.val == d.val && m.confidence == conf
    ensures m.polarity == if pol.Some? then pol.value else d.polarity
    ensures m.streakLow == if Low(conf, m.polarity, threshold) then d.streakLow + 1 else 0
  {
    var p := if pol.Some? then pol.value else d.polarity;
    d.(confidence := conf, polarity := p, streakLow := if Low(conf, p, threshold) then d.streakLow + 1 else 0)
  }

  /** Whether a measurement prunes the node: a low one that brings the
      streak to `streak`. */
  predicate Prunes(d: Data, conf: real, pol: Option<Polarity>, threshold: real, streak: int) {
    var m := Measured(d, conf, pol, threshold);
    Low(conf, m.polarity, threshold) && m.streakLow >= streak
  }

  /** The walk after a measurement of `key`: unchanged for an unknown key;
      without the key when the measurement prunes it; with the measured data
      otherwise. */
  function MeasureItems(s: seq<Data>, key: int, conf: real, pol: Option<Polarity>, threshold: real, streak: int)
    : seq<Data>
  {
    match Lookup(s, key)
    case None => s
    case Some(d) =>
      if Prunes(d, conf, pol, threshold, streak) then RemoveKey(s, key)
      else Replace(s, Measured(d, conf, pol, threshold))
  }

  /** A good measurement keeps the node and resets its streak; a low one
      increments the streak, and removes the key once the streak reaches
      `streak`; other keys keep their data. */
  lemma MeasureEffect(s: seq<Data>, key: int, conf: real, pol: Option<Polarity>, threshold: real, streak: int, j: int)
    requires Lookup(s, key).Some?
    ensures var d := Lookup(s, key).value;
            var r := MeasureItems(s, key, conf, pol, threshold, streak);
            var p := if pol.Some? then pol.value else d.polarity;
            (j != key ==> Lookup(r, j) == Lookup(s, j)) &&
            (!Low(conf, p, threshold) ==> Lookup(r, key) == Some(d.(confidence := conf, polarity := p, streakLow := 0))) &&
            (Low(conf, p, threshold) && d.streakLow + 1 < streak ==>
               Lookup(r, key) == Some(d.(confidence := conf, polarity := p, streakLow := d.streakLow + 1))) &&
            (Low(conf, p, threshold) && d.streakLow + 1 >= streak ==> Lookup(r, key) == None)
  {
    var d := Lookup(s, key).value;
    var m := Measured(d, conf, pol, threshold);
    if Prunes(d, conf, pol, threshold, streak) {
      assert MeasureItems(s, key, conf, pol, threshold, streak) == RemoveKey(s, key);
      LookupRemoveKey(s, key, j);
      LookupRemoveKey(s, key, key);
    } else {
      assert MeasureItems(s, key, conf, pol, threshold, streak) == Replace(s, m);
      LookupReplace(s, m, j);
      LookupReplace(s, m, key);
    }
  }

  /** `measure_and_prune` / `mark_measurement` on the tree: find the node;
      give it the measured data (flipping its colour when `flip` holds); and
      delete the key when the measurement prunes it. An unknown key leaves the
      tree as it is. */
  method MeasureAt(root: Tree, key: int, conf: real, pol: Option<Polarity>, threshold: real, streak: int,
                   flip: bool, recolor: bool)
    returns (r: Tree, pruned: bool, rotations: nat)
    requires Ordered(root)
    ensures Ordered(r) && Items(r) == MeasureItems(Items(root), key, conf, pol, threshold, streak)
    ensures pruned <==> Lookup(Items(root), key).Some? && Prunes(Lookup(Items(root), key).value, conf, pol, threshold, streak)
    ensures Lookup(Items(root), key).None? ==> r == root && rotations == 0
    ensures !pruned && ColorAt(root, key).Some? ==>
              ColorAt(r, key) == Some(if flip then Flip(ColorAt(root, key).value) else ColorAt(root, key).value)
  {
    var z, path := FindPath(root, key);
    FoundIsLookup(root, key, z, path);
    if z.Nil? {
      return root, false, 0;
    }
    var m := Measured(z.data, conf, pol, threshold);
    var z' := z.(data := m, color := if flip then Flip(z.color) else z.color);
    MeasureInPlace(z, path, m, z'.color);
    var measured := Plug(z', path);
    SearchThroughPath(z', path, key);
    pruned := Prunes(z.data, conf, pol, threshold, streak);
    if pruned {
      r, rotations := DeleteFrom(measured, key, recolor);
    } else {
      r, rotations := measured, 0;
    }
  }

  /** In an ordered tree, the search for a key of a subtree ends inside that
      subtree, wherever the subtree hangs. */
  lemma {:induction false} SearchThroughPath(f: Tree, path: seq<Frame>, k: int)
    requires Ordered(Plug(f, path)) && k in Keys(f)
    ensures Search(Plug(f, path), k) == Search(f, k)
    decreases |path|
  {
    if path != [] {
      var fr, init := path[|path| - 1], path[..|path| - 1];
      PlugOrderedParts(f, path);
      SearchThroughPath(Attach(fr, f), init, k);
    }
  }

  /** Giving a node of an ordered tree new data under the same key, and any
      colour, replaces its item in the walk and keeps the tree ordered;
      removing the key afterwards removes the same items either way. */
  lemma MeasureInPlace(z: Tree, path: seq<Frame>, m: Data, c: Color)
    requires z.Node? && Ordered(Plug(z, path)) && m.key == z.data.key
    ensures var u := Plug(z.(data := m, color := c), path);
            Ordered(u) && Items(u) == Replace(Items(Plug(z, path)), m) &&
            RemoveKey(Items(u), m.key) == RemoveKey(Items(Plug(z, path)), m.key)
  {
    var z' := z.(data := m, color := c);
    assert Ordered(Plug(z', path)) by {
      PlugOrderedParts(z, path);
      PlugShrinks(z, z', path);
    }
    MeasuredItems(z, path, m, c);
  }

  lemma MeasuredItems(z: Tree, path: seq<Frame>, m: Data, c: Color)
    requires z.Node? && Ordered(Plug(z, path)) && m.key == z.data.key
    ensures var u := Plug(z.(data := m, color := c), path);
            Items(u) == Replace(Items(Plug(z, path)), m) &&
            RemoveKey(Items(u), m.key) == RemoveKey(Items(Plug(z, path)), m.key)
  {
    var z' := z.(data := m, color := c);
    var a := Before(path) + Items(z.left);
    var b := Items(z.right) + After(path);
    assert Items(Plug(z, path)) == a + [z.data] + b && NoKey(a, m.key) && NoKey(b, m.key) by {
      FocusSplit(z, path);
    }
    assert Items(Plug(z', path)) == a + [m] + b by {
      PlugItems(z', path);
      Regroup(Before(path), Items(z.left), m, Items(z.right), After(path));
    }
    ReplaceSplit(a, z.data, b, m);
    RemoveKeySplit(a, m, b);
    RemoveKeySplit(a, z.data, b);
  }

  // ---------------------------------------------------------------------------
  // Decoding
  // ---------------------------------------------------------------------------

  /** Whether `_inorder_filter` keeps a node: positive and confident enough. */
  predicate Coherent(d: Data, minConf: real) {
    d.polarity == Plus && d.confidence >= minConf
  }

  /** The coherent items of a walk, in walk order. */
  function CoherentItems(s: seq<Data>, minConf: real): (r: seq<Data>)
    ensures |r| <= |s|
  {
    if s == [] then [] else (if Coherent(s[0], minConf) then [s[0]] else []) + CoherentItems(s[1..], minConf)
  }

  /** `_inorder_filter(node, result, min_conf)`: the recursive in-order walk
      that appends each coherent node to `result`. */
  function InorderFilter(t: Tree, result: seq<Data>, minConf: real): seq<Data> {
    match t
    case Nil => result
    case Node(l, d, _, _, r) =>
      var mid := InorderFilter(l, result, minConf) + (if Coherent(d, minConf) then [d] else []);
      InorderFilter(r, mid, minConf)
  }

  lemma {:induction false} CoherentAppend(a: seq<Data>, b: seq<Data>, minConf: real)
    ensures CoherentItems(a + b, minConf) == CoherentItems(a, minConf) + CoherentItems(b, minConf)
  {
    if a != [] {
      var h := if Coherent(a[0], minConf) then [a[0]] else [];
      assert (a + b)[0] == a[0] && (a + b)[1..] == a[1..] + b;
      assert CoherentItems(a + b, minConf) == h + CoherentItems(a[1..] + b, minConf);
      CoherentAppend(a[1..], b, minConf);
      assert CoherentItems(a, minConf) == h + CoherentItems(a[1..], minConf);
    } else {
      assert a + b == b;
    }
  }

  /** The walk appends exactly the coherent items, in walk order. */
  lemma {:induction false} InorderFilterItems(t: Tree, result: seq<Data>, minConf: real)
    ensures InorderFilter(t, result, minConf) == result + CoherentItems(Items(t), minConf)
  {
    match t
    case Nil =>
    case Node(l, d, _, _, r) =>
      var cl, cr := CoherentItems(Items(l), minConf), CoherentItems(Items(r), minConf);
      var cd := if Coherent(d, minConf) then [d] else [];
      assert InorderFilter(l, result, minConf) == result + cl by {
        InorderFilterItems(l, result, minConf);
      }
      var mid := InorderFilter(l, result, minConf) + cd;
      assert InorderFilter(t, result, minConf) == mid + cr by {
        InorderFilterItems(r, mid, minConf);
      }
      assert CoherentItems(Items(t), minConf) == cl + cd + cr by {
        CoherentAround(Items(l), d, Items(r), minConf);
      }
      assert (result + cl) + cd + cr == result + (cl + cd + cr);
  }

  lemma CoherentAround(a: seq<Data>, d: Data, b: seq<Data>, minConf: real)
    ensures CoherentItems(a + [d] + b, minConf) ==
            CoherentItems(a, minConf) + (if Coherent(d, minConf) then [d] else []) + CoherentItems(b, minConf)
  {
    CoherentAppend(a + [d], b, minConf);
    CoherentAppend(a, [d], minConf);
    assert [d][1..] == [];
  }

  /** The filtered walk holds exactly the coherent items, and stays sorted. */
  lemma {:induction false} CoherentItemsExactly(s: seq<Data>, minConf: real, d: Data)
    ensures d in CoherentItems(s, minConf) <==> d in s && Coherent(d, minConf)
    ensures SortedKeys(s) ==> SortedKeys(CoherentItems(s, minConf))
  {
    if s != [] {
      CoherentItemsExactly(s[1..], minConf, d);
      var rest := CoherentItems(s[1..], minConf);
      if SortedKeys(s) {
        assert SortedKeys(s[1..]);
        forall i | 0 <= i < |rest| ensures s[0].key < rest[i].key {
          CoherentItemsExactly(s[1..], minConf, rest[i]);
        }
      }
    }
  }

  /** `''.join([n.val for n in result])`. */
  function Join(ds: seq<Data>): string {
    if ds == [] then [] else ds[0].val + Join(ds[1..])
  }

  /** `''.join` of two lists is the concatenation of their joins. */
  lemma {:induction false} JoinAppend(a: seq<Data>, b: seq<Data>)
    ensures Join(a + b) == Join(a) + Join(b)
  {
    if a != [] {
      assert (a + b)[0] == a[0] && (a + b)[1..] == a[1..] + b;
      JoinAppend(a[1..], b);
    } else {
      assert a + b == b;
    }
  }

  // ---------------------------------------------------------------------------
  // Encoding: one insertion per position of a string
  // ---------------------------------------------------------------------------

  /** The walk after inserting, in order, the entries present in `es`; an
      absent entry is a position the encoder skips. */
  function InsertAll(s: seq<Data>, es: seq<Option<Data>>): seq<Data>
    decreases |es|
  {
    if es == [] then s
    else
      var prev := InsertAll(s, es[..|es| - 1]);
      match es[|es| - 1]
      case None => prev
      case Some(d) => InsertSorted(prev, d)
  }

  /** One entry per position of `s`, made by `entry` from the character and
      its position. */
  function Entries(s: string, entry: (char, int) -> Option<Data>): (es: seq<Option<Data>>)
    ensures |es| == |s|
    decreases |s|
  {
    if s == [] then [] else Entries(s[..|s| - 1], entry) + [entry(s[|s| - 1], |s| - 1)]
  }

  lemma {:induction false} EntriesAt(s: string, entry: (char, int) -> Option<Data>)
    ensures forall i :: 0 <= i < |s| ==> Entries(s, entry)[i] == entry(s[i], i)
    decreases |s|
  {
    if s != [] {
      var init := s[..|s| - 1];
      EntriesAt(init, entry);
      forall i | 0 <= i < |init| ensures s[i] == init[i] { }
    }
  }

  /** An entry function that files each character under its position makes
      positional entries. */
  lemma EntriesPositional(s: string, entry: (char, int) -> Option<Data>)
    requires forall c, i :: entry(c, i).Some? ==> entry(c, i).value.key == i
    ensures Positional(Entries(s, entry))
  {
    EntriesAt(s, entry);
  }

  /** The entries of one more character of a string. */
  lemma EntriesStep(s: string, i: int, entry: (char, int) -> Option<Data>)
    requires 0 <= i < |s|
    ensures Entries(s[..i + 1], entry) == Entries(s[..i], entry) + [entry(s[i], i)]
  {
    assert s[..i + 1][..i] == s[..i];
  }

  /** One more entry is one more insertion, or none. */
  lemma InsertAllSnoc(s: seq<Data>, es: seq<Option<Data>>, e: Option<Data>)
    ensures InsertAll(s, es + [e]) == if e.Some? then InsertSorted(InsertAll(s, es), e.value) else InsertAll(s, es)
  {
    assert (es + [e])[..|es|] == es;
  }

  /** The entry at position `i`, when present, has key `i`. */
  predicate Positional(es: seq<Option<Data>>) {
    forall i :: 0 <= i < |es| && es[i].Some? ==> es[i].value.key == i
  }

  /** What an insertion leaves under its key: the new item, or the old one
      overwritten. */
  function Merged(o: Option<Data>, d: Data): (r: Data)
    ensures r.key == (if o.Some? then o.value.key else d.key)
    ensures r.val == d.val && r.confidence == d.confidence && r.polarity == d.polarity
    ensures r.streakLow == (if o.Some? then o.value.streakLow else d.streakLow)
  {
    if o.Some? then Overwrite(o.value, d) else d
  }

  /** The present entries, in position order. */
  function Present(es: seq<Option<Data>>): (r: seq<Data>)
    ensures |r| <= |es|
    decreases |es|
  {
    if es == [] then []
    else Present(es[..|es| - 1]) + (if es[|es| - 1].Some? then [es[|es| - 1].value] else [])
  }

  /** Insertion keeps a walk sorted, and adds no key below a common bound. */
  lemma {:induction false} InsertSortedSorted(s: seq<Data>, d: Data, b: int)
    requires SortedKeys(s)
    ensures SortedKeys(InsertSorted(s, d))
    ensures (forall i :: 0 <= i < |s| ==> b < s[i].key) && b < d.key ==>
              forall i :: 0 <= i < |InsertSorted(s, d)| ==> b < InsertSorted(s, d)[i].key
  {
    if s != [] && d.key > s[0].key {
      assert SortedKeys(s[1..]);
      InsertSortedSorted(s[1..], d, s[0].key);
      InsertSortedSorted(s[1..], d, b);
      var rest := InsertSorted(s[1..], d);
      assert InsertSorted(s, d) == [s[0]] + rest;
    }
  }

  lemma {:induction false} InsertAllSorted(s: seq<Data>, es: seq<Option<Data>>)
    requires SortedKeys(s)
    ensures SortedKeys(InsertAll(s, es))
    decreases |es|
  {
    if es != [] {
      InsertAllSorted(s, es[..|es| - 1]);
      if es[|es| - 1].Some? {
        InsertSortedSorted(InsertAll(s, es[..|es| - 1]), es[|es| - 1].value, 0);
      }
    }
  }

  /** A run of insertions acts as a map update: every position with an entry
      maps its key to that entry, merged into the old item; every other key
      keeps its item. */
  lemma {:induction false} LookupInsertAll(s: seq<Data>, es: seq<Option<Data>>, k: int)
    requires SortedKeys(s) && Positional(es)
    ensures Lookup(InsertAll(s, es), k) ==
            if 0 <= k < |es| && es[k].Some? then Some(Merged(Lookup(s, k), es[k].value)) else Lookup(s, k)
    decreases |es|
  {
    if es != [] {
      var init := es[..|es| - 1];
      assert Positional(init) by {
        forall i | 0 <= i < |init| && init[i].Some? ensures init[i].value.key == i {
          assert init[i] == es[i];
        }
      }
      LookupInsertAll(s, init, k);
      if es[|es| - 1].Some? {
        InsertAllSorted(s, init);
        LookupInsertSorted(InsertAll(s, init), es[|es| - 1].value, k);
      }
      if 0 <= k < |init| {
        assert init[k] == es[k];
      }
    }
  }

  /** Into an empty tree, entries with increasing keys are appended one after
      another, so the walk is the present entries in position order. */
  lemma {:induction false} InsertAllFresh(es: seq<Option<Data>>)
    requires Positional(es)
    ensures InsertAll([], es) == Present(es)
    ensures forall i :: 0 <= i < |Present(es)| ==> Present(es)[i].key < |es|
    decreases |es|
  {
    if es != [] {
      var init := es[..|es| - 1];
      assert Positional(init) by {
        forall i | 0 <= i < |init| && init[i].Some? ensures init[i].value.key == i {
          assert init[i] == es[i];
        }
      }
      InsertAllFresh(init);
      if es[|es| - 1].Some? {
        InsertSortedLast(Present(init), es[|es| - 1].value);
      }
    }
  }

  /** Inserting a key above every key of the walk appends it. */
  lemma {:induction false} InsertSortedLast(s: seq<Data>, d: Data)
    requires forall i :: 0 <= i < |s| ==> s[i].key < d.key
    ensures InsertSorted(s, d) == s + [d]
  {
    if s != [] {
      InsertSortedLast(s[1..], d);
      assert s == [s[0]] + s[1..];
    }
  }

  // ---------------------------------------------------------------------------
  // Characters
  // ---------------------------------------------------------------------------

  /** Python's `str.isspace` on one character. */
  predicate IsPySpace(c: char) {
    ('\t' <= c <= '\U{D}') || ('\U{1C}' <= c <= ' ') || c == '\U{85}' || c == '\U{A0}' || c == '\U{1680}' ||
    ('\U{2000}' <= c <= '\U{200A}') || c == '\U{2028}' || c == '\U{2029}' || c == '\U{202F}' ||
    c == '\U{205F}' || c == '\U{3000}'
  }

  /** `c.lower() in 'aeiou'`. No character outside ASCII lower-cases to one
      of the five vowels, so the ASCII test is exact. */
  predicate IsVowel(c: char) {
    c in "aeiouAEIOU"
  }

  /** The polarity both encoders give a character by default: `+` for the
      vowels, in either case. In `red2black.py` the extra `isalpha()` test
      adds nothing, since the five vowels are letters. */
  function VowelPolarity(c: char): (p: Polarity)
    ensures p == Plus <==> IsVowel(c)
  {
    if IsVowel(c) then Plus else Minus
  }

  /** The vowels of a string, in order. */
  function Vowels(msg: string): (r: string)
    ensures |r| <= |msg|
    ensures forall i :: 0 <= i < |r| ==> IsVowel(r[i])
    decreases |msg|
  {
    if msg == [] then []
    else Vowels(msg[..|msg| - 1]) + (if IsVowel(msg[|msg| - 1]) then [msg[|msg| - 1]] else [])
  }
}

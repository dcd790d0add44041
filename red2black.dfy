/** `red2black.py`: the `RedAVLTree`, the same search tree with AVL rotations
    as the bridge but without colour changes or counters, with pruning by
    `mark_measurement` and a decoder that keeps the positive nodes. */
module RedToBlack {
  import opened Options
  import opened PolarityTrees

  /** The node `encode_message` inserts at position `i`: every character,
      spaces included, with confidence 1.0 for `+` and 0.3 for `-`. */
  function LetterEntry(c: char, i: int): (r: Option<Data>)
    ensures r.Some? && r.value.key == i && r.value.val == [c] && r.value.streakLow == 0
    ensures r.value.polarity == VowelPolarity(c)
    ensures r.value.confidence == if IsVowel(c) then 1.0 else 0.3
  {
    var p := VowelPolarity(c);
    Some(Data(i, [c], if p == Plus then 1.0 else 0.3, p, 0))
  }

  /** The nodes `encode_message` inserts, position by position. */
  function LetterEntries(msg: string): (es: seq<Option<Data>>)
    ensures |es| == |msg|
  {
    Entries(msg, LetterEntry)
  }

  lemma LetterEntriesAt(msg: string)
    ensures Positional(LetterEntries(msg))
    ensures forall i :: 0 <= i < |msg| ==> LetterEntries(msg)[i] == LetterEntry(msg[i], i)
  {
    EntriesAt(msg, LetterEntry);
    EntriesPositional(msg, LetterEntry);
  }

  /** The items of a walk with polarity `p`, in walk order. */
  function PolarityItems(s: seq<Data>, p: Polarity): (r: seq<Data>)
    ensures |r| <= |s|
  {
    if s == [] then [] else (if s[0].polarity == p then [s[0]] else []) + PolarityItems(s[1..], p)
  }

  /** `_inorder_polarity(node, result, polarity)`: the recursive in-order walk
      that appends each node of that polarity to `result`. */
  function InorderPolarity(t: Tree, result: seq<Data>, p: Polarity): seq<Data> {
    match t
    case Nil => result
    case Node(l, d, _, _, r) =>
      var mid := InorderPolarity(l, result, p) + (if d.polarity == p then [d] else []);
      InorderPolarity(r, mid, p)
  }

  lemma {:induction false} PolarityAppend(a: seq<Data>, b: seq<Data>, p: Polarity)
    ensures PolarityItems(a + b, p) == PolarityItems(a, p) + PolarityItems(b, p)
  {
    if a != [] {
      var h := if a[0].polarity == p then [a[0]] else [];
      assert (a + b)[0] == a[0] && (a + b)[1..] == a[1..] + b;
      assert PolarityItems(a + b, p) == h + PolarityItems(a[1..] + b, p);
      PolarityAppend(a[1..], b, p);
      assert PolarityItems(a, p) == h + PolarityItems(a[1..], p);
    } else {
      assert a + b == b;
    }
  }

  /** The walk appends exactly the items of that polarity, in walk order. */
  lemma {:induction false} InorderPolarityItems(t: Tree, result: seq<Data>, p: Polarity)
    ensures InorderPolarity(t, result, p) == result + PolarityItems(Items(t), p)
  {
    match t
    case Nil =>
    case Node(l, d, _, _, r) =>
      var pl, pr := PolarityItems(Items(l), p), PolarityItems(Items(r), p);
      var pd := if d.polarity == p then [d] else [];
      assert InorderPolarity(l, result, p) == result + pl by {
        InorderPolarityItems(l, result, p);
      }
      var mid := InorderPolarity(l, result, p) + pd;
      assert InorderPolarity(t, result, p) == mid + pr by {
        InorderPolarityItems(r, mid, p);
      }
      assert PolarityItems(Items(t), p) == pl + pd + pr by {
        PolarityAround(Items(l), d, Items(r), p);
      }
      assert (result + pl) + pd + pr == result + (pl + pd + pr);
  }

  lemma PolarityAround(a: seq<Data>, d: Data, b: seq<Data>, p: Polarity)
    ensures PolarityItems(a + [d] + b, p) == PolarityItems(a, p) + (if d.polarity == p then [d] else []) + PolarityItems(b, p)
  {
    PolarityAppend(a + [d], b, p);
    PolarityAppend(a, [d], p);
    assert [d][1..] == [];
  }

  /** The filtered walk holds exactly the items of that polarity, and stays
      sorted by key. */
  lemma {:induction false} PolarityItemsExactly(s: seq<Data>, p: Polarity, d: Data)
    ensures d in PolarityItems(s, p) <==> d in s && d.polarity == p
    ensures SortedKeys(s) ==> SortedKeys(PolarityItems(s, p))
  {
    if s != [] {
      PolarityItemsExactly(s[1..], p, d);
      var rest := PolarityItems(s[1..], p);
      if SortedKeys(s) {
        assert SortedKeys(s[1..]);
        forall i | 0 <= i < |rest| ensures s[0].key < rest[i].key {
          PolarityItemsExactly(s[1..], p, rest[i]);
        }
      }
    }
  }

  /** Encoding a message into an empty tree and decoding the positive path
      gives back exactly its vowels. */
  lemma DecodeAfterEncode(msg: string)
    ensures Join(PolarityItems(InsertAll([], LetterEntries(msg)), Plus)) == Vowels(msg)
  {
    LetterEntriesAt(msg);
    InsertAllFresh(LetterEntries(msg));
    PositiveOfEntries(msg);
  }

  lemma {:induction false} PositiveOfEntries(msg: string)
    ensures Join(PolarityItems(Present(LetterEntries(msg)), Plus)) == Vowels(msg)
    decreases |msg|
  {
    if msg != [] {
      var init, c := msg[..|msg| - 1], msg[|msg| - 1];
      var e := LetterEntry(c, |msg| - 1).value;
      var p := Present(LetterEntries(init));
      assert Present(LetterEntries(msg)) == p + [e] by {
        EntriesStep(msg, |msg| - 1, LetterEntry);
        assert msg[..|msg| - 1 + 1] == msg;
        assert (LetterEntries(init) + [Some(e)])[..|msg| - 1] == LetterEntries(init);
      }
      assert Join(PolarityItems(p + [e], Plus)) == Vowels(init) + Join(PolarityItems([e], Plus)) by {
        PositiveOfEntries(init);
        PolarityAppend(p, [e], Plus);
        JoinAppend(PolarityItems(p, Plus), PolarityItems([e], Plus));
      }
      assert Join(PolarityItems([e], Plus)) == if IsVowel(c) then [c] else [] by {
        assert [e][1..] == [];
        if IsVowel(c) {
          assert PolarityItems([e], Plus) == [e];
          assert Join([e]) == [c] + Join([]);
        }
      }
    }
  }

  /** The `RedAVLTree` object: the tree and the pruning parameters. */
  class RedAVLTree {
    var root: Tree
    const pruneThreshold: real
    const pruneStreak: int

    /** The search-tree property every operation keeps. */
    predicate Valid()
      reads this
    {
      Ordered(root)
    }

    /** `RedAVLTree(prune_threshold, prune_streak)`; the source's defaults are
        0.2 and 2. */
    constructor (pruneThreshold: real, pruneStreak: int)
      ensures Valid() && root == Nil
      ensures this.pruneThreshold == pruneThreshold && this.pruneStreak == pruneStreak
    {
      root := Nil;
      this.pruneThreshold, this.pruneStreak := pruneThreshold, pruneStreak;
    }

    /** `insert(key, val, confidence, polarity)`: the walk gains the item, or
        the existing item of `key` takes the new value, confidence and
        polarity and keeps its colour. The first node is black. */
    method Insert(key: int, val: string, confidence: real, polarity: Polarity)
      requires Valid()
      modifies this`root
      ensures Valid()
      ensures Items(root) == InsertSorted(old(Items(root)), Data(key, val, confidence, polarity, 0))
      ensures Keys(root) == old(Keys(root)) + {key}
      ensures old(root).Nil? ==> root == Node(Nil, Data(key, val, confidence, polarity, 0), Black, 1, Nil)
      ensures old(ColorAt(root, key)).Some? ==> ColorAt(root, key) == old(ColorAt(root, key))
    {
      var d := Data(key, val, confidence, polarity, 0);
      if root.Nil? {
        root := Node(Nil, d, Black, 1, Nil);
        return;
      }
      var r, repeated, rotations := InsertBelow(root, d, Red, false, false);
      root := r;
    }

    /** `find(key)`: the data of the node with `key`, found by the search
        loop, or nothing when the key is absent. */
    method Find(key: int) returns (n: Option<Data>)
      requires Valid()
      ensures n == Lookup(Items(root), key)
      ensures n.Some? <==> key in Keys(root)
      ensures n.Some? ==> n.value.key == key
    {
      var focus, path := FindPath(root, key);
      FoundIsLookup(root, key, focus, path);
      n := if focus.Nil? then None else Some(focus.data);
    }

    /** `delete(key)`: the key leaves the tree and every other item stays; an
        absent key changes nothing. */
    method Delete(key: int)
      requires Valid()
      modifies this`root
      ensures Valid()
      ensures Items(root) == RemoveKey(old(Items(root)), key) && Keys(root) == old(Keys(root)) - {key}
      ensures key !in old(Keys(root)) ==> root == old(root)
    {
      var r, rotations := DeleteFrom(root, key, false);
      root := r;
    }

    /** `mark_measurement(key, measured_conf, measured_polarity)`: the node
        takes the measurement; a low one that completes the streak deletes the
        key. An unknown key changes nothing. */
    method MarkMeasurement(key: int, conf: real, pol: Option<Polarity>) returns (pruned: bool)
      requires Valid()
      modifies this`root
      ensures Valid()
      ensures Items(root) == MeasureItems(old(Items(root)), key, conf, pol, pruneThreshold, pruneStreak)
      ensures pruned <==> Lookup(old(Items(root)), key).Some? &&
                          Prunes(Lookup(old(Items(root)), key).value, conf, pol, pruneThreshold, pruneStreak)
      ensures Lookup(old(Items(root)), key).None? ==> root == old(root)
      ensures !pruned ==> ColorAt(root, key) == old(ColorAt(root, key))
    {
      var r, rotations;
      SearchFinds(root, key);
      KeysLookup(root, key);
      r, pruned, rotations := MeasureAt(root, key, conf, pol, pruneThreshold, pruneStreak, false, false);
      root := r;
    }

    /** `encode_message(message)`: every character is inserted under its
        position. */
    method EncodeMessage(message: string)
      requires Valid()
      modifies this`root
      ensures Valid()
      ensures Items(root) == InsertAll(old(Items(root)), LetterEntries(message))
    {
      var i := 0;
      while i < |message|
        invariant 0 <= i <= |message| && Valid()
        invariant Items(root) == InsertAll(old(Items(root)), LetterEntries(message[..i]))
      {
        var c := message[i];
        var p := VowelPolarity(c);
        Insert(i, [c], if p == Plus then 1.0 else 0.3, p);
        EntriesStep(message, i, LetterEntry);
        InsertAllSnoc(old(Items(root)), LetterEntries(message[..i]), LetterEntry(c, i));
        i := i + 1;
      }
      assert message[..|message|] == message;
    }

    /** `decode_positive_path()`: the values of the positive nodes, in key
        order. */
    method DecodePositivePath() returns (signal: string)
      requires Valid()
      ensures signal == Join(PolarityItems(Items(root), Plus))
    {
      var result := InorderPolarity(root, [], Plus);
      InorderPolarityItems(root, [], Plus);
      assert result == PolarityItems(Items(root), Plus);
      signal := Join(result);
    }
  }

  /** The effect of `encode_message` key by key: each position holds its
      character (keeping the old streak when the key was there), and every
      other key keeps its item. */
  lemma EncodeMessageEffect(s: seq<Data>, msg: string, k: int)
    requires SortedKeys(s)
    ensures Lookup(InsertAll(s, LetterEntries(msg)), k) ==
            if 0 <= k < |msg| then Some(Merged(Lookup(s, k), LetterEntry(msg[k], k).value)) else Lookup(s, k)
  {
    LetterEntriesAt(msg);
    LookupInsertAll(s, LetterEntries(msg), k);
  }

  /** The module's example: with threshold 0.5 and streak 1, nodes 1 "A" +,
      2 "B" - and 3 "C" +, one negative measurement of node 2 prunes it, and
      the positive path reads "AC". */
  method Example() returns (pruned: bool, signal: string)
    ensures pruned && signal == "AC"
  {
    var tree := new RedAVLTree(0.5, 1);
    tree.Insert(1, "A", 0.9, Plus);
    tree.Insert(2, "B", 0.3, Minus);
    tree.Insert(3, "C", 0.8, Plus);
    pruned := tree.MarkMeasurement(2, 0.3, Some(Minus));
    signal := tree.DecodePositivePath();
    ExampleWalk();
  }

  /** The walks of the example, step by step. */
  lemma ExampleWalk()
    ensures var a, b, c := Data(1, "A", 0.9, Plus, 0), Data(2, "B", 0.3, Minus, 0), Data(3, "C", 0.8, Plus, 0);
            var s := InsertSorted(InsertSorted(InsertSorted([], a), b), c);
            Lookup(s, 2) == Some(b) && Prunes(b, 0.3, Some(Minus), 0.5, 1) &&
            Join(PolarityItems(MeasureItems(s, 2, 0.3, Some(Minus), 0.5, 1), Plus)) == "AC"
  {
    var a, b, c := Data(1, "A", 0.9, Plus, 0), Data(2, "B", 0.3, Minus, 0), Data(3, "C", 0.8, Plus, 0);
    assert InsertSorted([a], b) == [a, b] by {
      assert [a][1..] == [];
      assert InsertSorted([a], b) == [a] + InsertSorted([], b);
    }
    assert InsertSorted([a, b], c) == [a, b, c] by {
      assert [a, b][1..] == [b] && [b][1..] == [];
      assert InsertSorted([b], c) == [b] + InsertSorted([], c);
      assert InsertSorted([a, b], c) == [a] + InsertSorted([b], c);
    }
    var s := [a, b, c];
    assert s[1..] == [b, c] && [b, c][1..] == [c] && [c][1..] == [];
    assert Lookup(s, 2) == Some(b);
    assert RemoveKey(s, 2) == [a, c] by {
      assert RemoveKey([c], 2) == [c] + RemoveKey([], 2);
      assert RemoveKey([b, c], 2) == [] + RemoveKey([c], 2);
      assert RemoveKey(s, 2) == [a] + RemoveKey([b, c], 2);
    }
    assert PolarityItems([a, c], Plus) == [a, c] by {
      assert [a, c][1..] == [c];
      assert PolarityItems([c], Plus) == [c] + PolarityItems([], Plus);
    }
    assert Join([a, c]) == "AC" by {
      assert [a, c][1..] == [c];
      assert Join([c]) == "C" + Join([]);
    }
  }
}

/** `black2ered.py`: the `RedAVLBridge`, a search tree with AVL rotations,
    colour flips on every measurement, streak-based pruning and a filtered
    in-order decoder. The tree itself is the value model of `PolarityTrees`;
    this module holds the bridge object and its encoders. */
module BlackToRed {
  import opened Options
  import opened PolarityTrees

  /** The Morse table: the 26 letters and the word gap. */
  const MORSE_CODE: map<char, string> := map[
    'A' := ".-", 'B' := "-...", 'C' := "-.-.", 'D' := "-..", 'E' := ".", 'F' := "..-.",
    'G' := "--.", 'H' := "....", 'I' := "..", 'J' := ".---", 'K' := "-.-", 'L' := ".-..",
    'M' := "--", 'N' := "-.", 'O' := "---", 'P' := ".--.", 'Q' := "--.-", 'R' := ".-.",
    'S' := "...", 'T' := "-", 'U' := "..-", 'V' := "...-", 'W' := ".--", 'X' := "-..-",
    'Y' := "-.--", 'Z' := "--..", ' ' := "/"]

  /** Dots are positive, dashes negative: a code is positive when it has a
      dot and no dash. */
  function MorsePolarity(code: string): Polarity {
    if '.' in code && '-' !in code then Plus else Minus
  }

  /** The codes made of dots only are those of E, I, S and H. */
  lemma MorseDotsOnly(c: char)
    requires c in MORSE_CODE
    ensures MorsePolarity(MORSE_CODE[c]) == Plus <==> c in "EISH"
  {
    if c in "EISH" {
      assert c == 'E' || c == 'I' || c == 'S' || c == 'H';
    } else {
      assert c in "ABCDFGJKLMNOPQRTUVWXYZ ";
    }
  }

  /** `str.upper()` of one character, for ASCII letters. */
  function Upper(c: char): (r: char)
    ensures 'a' <= c <= 'z' ==> 'A' <= r <= 'Z' && r as int == c as int - 32
    ensures !('a' <= c <= 'z') ==> r == c
  {
    if 'a' <= c <= 'z' then (c as int - 32) as char else c
  }

  /** The node `encode_name_in_morse` inserts at position `i`: the upper-case
      character under key `i` when the table has it, with the code's
      polarity and confidence 0.95 for `+`, 0.35 for `-`. */
  function MorseEntry(c: char, i: int): (r: Option<Data>)
    ensures r.Some? <==> Upper(c) in MORSE_CODE
    ensures r.Some? ==> r.value.key == i && r.value.val == [Upper(c)] && r.value.streakLow == 0
    ensures r.Some? ==> (r.value.polarity == Plus <==> Upper(c) in "EISH")
    ensures r.Some? ==> r.value.confidence == if r.value.polarity == Plus then 0.95 else 0.35
  {
    var u := Upper(c);
    if u in MORSE_CODE then
      MorseDotsOnly(u);
      var p := MorsePolarity(MORSE_CODE[u]);
      Some(Data(i, [u], if p == Plus then 0.95 else 0.35, p, 0))
    else None
  }

  /** The nodes `encode_name_in_morse` inserts, position by position. */
  function MorseEntries(name: string): (es: seq<Option<Data>>)
    ensures |es| == |name|
  {
    Entries(name, MorseEntry)
  }

  lemma MorseEntriesAt(name: string)
    ensures Positional(MorseEntries(name))
    ensures forall i :: 0 <= i < |name| ==> MorseEntries(name)[i] == MorseEntry(name[i], i)
  {
    EntriesAt(name, MorseEntry);
    EntriesPositional(name, MorseEntry);
  }

  /** The node `encode_message` inserts at position `i`: nothing for a
      whitespace character, else the character under key `i` with the map's
      polarity and confidence 0.9 for `+`, 0.4 for `-`. */
  function MessageEntry(c: char, i: int, pm: char -> Polarity): (r: Option<Data>)
    ensures r.Some? <==> !IsPySpace(c)
    ensures r.Some? ==> r.value.key == i && r.value.val == [c] && r.value.polarity == pm(c) && r.value.streakLow == 0
    ensures r.Some? ==> r.value.confidence == if pm(c) == Plus then 0.9 else 0.4
  {
    if IsPySpace(c) then None
    else Some(Data(i, [c], if pm(c) == Plus then 0.9 else 0.4, pm(c), 0))
  }

  /** The nodes `encode_message` inserts, position by position. */
  function MessageEntries(msg: string, pm: char -> Polarity): (es: seq<Option<Data>>)
    ensures |es| == |msg|
  {
    Entries(msg, (c, i) => MessageEntry(c, i, pm))
  }

  lemma MessageEntriesAt(msg: string, pm: char -> Polarity)
    ensures Positional(MessageEntries(msg, pm))
    ensures forall i :: 0 <= i < |msg| ==> MessageEntries(msg, pm)[i] == MessageEntry(msg[i], i, pm)
  {
    EntriesAt(msg, (c, i) => MessageEntry(c, i, pm));
    EntriesPositional(msg, (c, i) => MessageEntry(c, i, pm));
  }

  lemma MessageEntriesStep(msg: string, i: int, pm: char -> Polarity)
    requires 0 <= i < |msg|
    ensures MessageEntries(msg[..i + 1], pm) == MessageEntries(msg[..i], pm) + [MessageEntry(msg[i], i, pm)]
  {
    EntriesStep(msg, i, (c, i) => MessageEntry(c, i, pm));
  }

  /** Encoding a message into an empty bridge with the default map and
      decoding it with any threshold up to 0.9 gives back exactly its
      vowels: consonants are negative, and every vowel is positive with
      confidence 0.9. */
  lemma DecodeAfterEncode(msg: string, minConf: real)
    requires minConf <= 0.9
    ensures Join(CoherentItems(InsertAll([], MessageEntries(msg, VowelPolarity)), minConf)) == Vowels(msg)
  {
    MessageEntriesAt(msg, VowelPolarity);
    InsertAllFresh(MessageEntries(msg, VowelPolarity));
    SignalOfEntries(msg, minConf);
  }

  lemma {:induction false} SignalOfEntries(msg: string, minConf: real)
    requires minConf <= 0.9
    ensures Join(CoherentItems(Present(MessageEntries(msg, VowelPolarity)), minConf)) == Vowels(msg)
    decreases |msg|
  {
    if msg != [] {
      var init, c := msg[..|msg| - 1], msg[|msg| - 1];
      var e := MessageEntry(c, |msg| - 1, VowelPolarity);
      var tail := if e.Some? then [e.value] else [];
      var p := Present(MessageEntries(init, VowelPolarity));
      assert Present(MessageEntries(msg, VowelPolarity)) == p + tail by {
        MessageEntriesStep(msg, |msg| - 1, VowelPolarity);
        assert msg[..|msg| - 1 + 1] == msg;
        assert (MessageEntries(init, VowelPolarity) + [e])[..|msg| - 1] == MessageEntries(init, VowelPolarity);
      }
      assert Join(CoherentItems(p + tail, minConf)) == Vowels(init) + Join(CoherentItems(tail, minConf)) by {
        SignalOfEntries(init, minConf);
        CoherentAppend(p, tail, minConf);
        JoinAppend(CoherentItems(p, minConf), CoherentItems(tail, minConf));
      }
      SignalOfEntry(c, |msg| - 1, minConf);
    }
  }

  /** One position's share of the signal: its character when it is a vowel. */
  lemma SignalOfEntry(c: char, k: int, minConf: real)
    requires minConf <= 0.9
    ensures var e := MessageEntry(c, k, VowelPolarity);
            Join(CoherentItems(if e.Some? then [e.value] else [], minConf)) == if IsVowel(c) then [c] else []
  {
    var e := MessageEntry(c, k, VowelPolarity);
    if e.Some? {
      var ct := CoherentItems([e.value], minConf);
      assert [e.value][1..] == [];
      if IsVowel(c) {
        assert ct == [e.value];
        assert Join(ct) == [c] + Join([]);
      }
    }
  }

  /** The `RedAVLBridge` object: the tree, the pruning parameters, the
      operator's name and the two counters. */
  class RedAVLBridge {
    var root: Tree
    const pruneThreshold: real
    const pruneStreak: int
    const name: string
    var nodesPruned: int
    var transitions: int

    /** The search-tree property every operation keeps. */
    predicate Valid()
      reads this
    {
      Ordered(root)
    }

    /** `RedAVLBridge(prune_threshold, prune_streak, name)`; the source's
        defaults are 0.3, 2 and "PRISON". */
    constructor (pruneThreshold: real, pruneStreak: int, name: string)
      ensures Valid() && root == Nil && nodesPruned == 0 && transitions == 0
      ensures this.pruneThreshold == pruneThreshold && this.pruneStreak == pruneStreak && this.name == name
    {
      root := Nil;
      this.pruneThreshold, this.pruneStreak, this.name := pruneThreshold, pruneStreak, name;
      nodesPruned, transitions := 0, 0;
    }

    /** `insert(key, val, confidence, polarity, force_color)`: the walk gains
        the item, or the existing item of `key` takes the new value,
        confidence and polarity; the root ends black. A repeated key flips its
        node's colour (the root's is then blackened again) and counts one
        transition; a new key counts two per rotation. */
    method Insert(key: int, val: string, confidence: real, polarity: Polarity, forceColor: Option<Color>)
      requires Valid()
      modifies this`root, this`transitions
      ensures Valid()
      ensures Items(root) == InsertSorted(old(Items(root)), Data(key, val, confidence, polarity, 0))
      ensures Keys(root) == old(Keys(root)) + {key}
      ensures root.Node? && root.color == Black
      ensures old(root).Nil? ==> transitions == old(transitions)
      ensures key in old(Keys(root)) ==> transitions == old(transitions) + 1
      ensures key !in old(Keys(root)) ==> transitions >= old(transitions) && (transitions - old(transitions)) % 2 == 0
      ensures old(ColorAt(root, key)).Some? && key != root.data.key ==>
                ColorAt(root, key) == Some(Flip(old(ColorAt(root, key)).value))
    {
      var c := if forceColor.Some? then forceColor.value else Red;
      var d := Data(key, val, confidence, polarity, 0);
      if root.Nil? {
        root := Node(Nil, d, Black, 1, Nil);
        return;
      }
      var r, repeated, rotations := InsertBelow(root, d, c, true, true);
      if repeated {
        transitions := transitions + 1;
      } else {
        transitions := transitions + 2 * rotations;
      }
      root := r.(color := Black);
    }

    /** `find(key)`: the data of the node with `key`, found by the search
        loop, or nothing when the key is absent. */
    method Find(key: int) returns (n: Option<Data>)
      requires Valid()
      ensures n == Lookup(Items(root), key)
      ensures n.Some? <==> key in Keys(root)
      ensures n.Some? ==> n.value.key == key
    {
      var focus, path := FindPath(root, key);
      FoundIsLookup(root, key, focus, path);
      n := if focus.Nil? then None else Some(focus.data);
    }

    /** `delete(key)`: the key leaves the tree, every other item stays, and
        two transitions are counted per rotation of the rebalancing. An absent
        key changes nothing. */
    method Delete(key: int)
      requires Valid()
      modifies this`root, this`transitions
      ensures Valid()
      ensures Items(root) == RemoveKey(old(Items(root)), key) && Keys(root) == old(Keys(root)) - {key}
      ensures transitions >= old(transitions) && (transitions - old(transitions)) % 2 == 0
      ensures key !in old(Keys(root)) ==> root == old(root) && transitions == old(transitions)
    {
      var r, rotations := DeleteFrom(root, key, true);
      root, transitions := r, transitions + 2 * rotations;
    }

    /** `measure_and_prune(key, measured_conf, measured_polarity)`: the node
        takes the measurement and flips its colour; a low measurement that
        completes the streak deletes the key and counts one pruned node. An
        unknown key changes nothing. */
    method MeasureAndPrune(key: int, conf: real, pol: Option<Polarity>)
      requires Valid()
      modifies this`root, this`nodesPruned, this`transitions
      ensures Valid()
      ensures Items(root) == MeasureItems(old(Items(root)), key, conf, pol, pruneThreshold, pruneStreak)
      ensures nodesPruned == old(nodesPruned) +
                if Lookup(old(Items(root)), key).Some? &&
                   Prunes(Lookup(old(Items(root)), key).value, conf, pol, pruneThreshold, pruneStreak)
                then 1 else 0
      ensures transitions >= old(transitions) && (transitions - old(transitions)) % 2 == 0
      ensures Lookup(old(Items(root)), key).None? ==> root == old(root) && transitions == old(transitions)
      ensures nodesPruned == old(nodesPruned) && old(ColorAt(root, key)).Some? ==>
                ColorAt(root, key) == Some(Flip(old(ColorAt(root, key)).value))
    {
      var r, pruned, rotations := MeasureAt(root, key, conf, pol, pruneThreshold, pruneStreak, true, true);
      root, transitions := r, transitions + 2 * rotations;
      if pruned {
        nodesPruned := nodesPruned + 1;
      }
    }

    /** `encode_name_in_morse(name)`: position `i` of the upper-cased name is
        inserted under key `i` when the Morse table has the character. */
    method EncodeNameInMorse(name: string)
      requires Valid()
      modifies this`root, this`transitions
      ensures Valid()
      ensures Items(root) == InsertAll(old(Items(root)), MorseEntries(name))
    {
      var i := 0;
      while i < |name|
        invariant 0 <= i <= |name| && Valid()
        invariant Items(root) == InsertAll(old(Items(root)), MorseEntries(name[..i]))
      {
        var u := Upper(name[i]);
        if u in MORSE_CODE {
          var p := MorsePolarity(MORSE_CODE[u]);
          Insert(i, [u], if p == Plus then 0.95 else 0.35, p, None);
        }
        EntriesStep(name, i, MorseEntry);
        InsertAllSnoc(old(Items(root)), MorseEntries(name[..i]), MorseEntry(name[i], i));
        i := i + 1;
      }
      assert name[..|name|] == name;
    }

    /** `encode_message(message, polarity_map)`: every character that is not
        whitespace is inserted under its position, with the given map or, by
        default, `+` for the vowels. */
    method EncodeMessage(message: string, polarityMap: Option<char -> Polarity>)
      requires Valid()
      modifies this`root, this`transitions
      ensures Valid()
      ensures Items(root) == InsertAll(old(Items(root)),
                                       MessageEntries(message, if polarityMap.Some? then polarityMap.value else VowelPolarity))
    {
      var pm := if polarityMap.Some? then polarityMap.value else VowelPolarity;
      var i := 0;
      while i < |message|
        invariant 0 <= i <= |message| && Valid()
        invariant Items(root) == InsertAll(old(Items(root)), MessageEntries(message[..i], pm))
      {
        var c := message[i];
        ghost var before := Items(root);
        if !IsPySpace(c) {
          var e := MessageEntry(c, i, pm).value;
          Insert(i, [c], e.confidence, e.polarity, None);
        }
        assert Items(root) == if MessageEntry(c, i, pm).Some? then InsertSorted(before, MessageEntry(c, i, pm).value) else before;
        MessageEntriesStep(message, i, pm);
        InsertAllSnoc(old(Items(root)), MessageEntries(message[..i], pm), MessageEntry(c, i, pm));
        i := i + 1;
      }
      assert message[..|message|] == message;
    }

    /** `decode_coherent_signal(min_confidence)`: the values of the positive
        nodes confident enough, in key order. */
    method DecodeCoherentSignal(minConf: real) returns (signal: string)
      requires Valid()
      ensures signal == Join(CoherentItems(Items(root), minConf))
    {
      var result := InorderFilter(root, [], minConf);
      InorderFilterItems(root, [], minConf);
      assert result == CoherentItems(Items(root), minConf);
      signal := Join(result);
    }
  }

  /** The effect of `encode_message` key by key: each non-whitespace position
      holds its character with the map's polarity (keeping the old streak
      when the key was there), and every other key keeps its item. */
  lemma EncodeMessageEffect(s: seq<Data>, msg: string, pm: char -> Polarity, k: int)
    requires SortedKeys(s)
    ensures Lookup(InsertAll(s, MessageEntries(msg, pm)), k) ==
            if 0 <= k < |msg| && !IsPySpace(msg[k])
            then Some(Merged(Lookup(s, k), MessageEntry(msg[k], k, pm).value))
            else Lookup(s, k)
  {
    MessageEntriesAt(msg, pm);
    LookupInsertAll(s, MessageEntries(msg, pm), k);
  }

  /** The effect of `encode_name_in_morse` key by key. */
  lemma EncodeNameEffect(s: seq<Data>, name: string, k: int)
    requires SortedKeys(s)
    ensures Lookup(InsertAll(s, MorseEntries(name)), k) ==
            if 0 <= k < |name| && Upper(name[k]) in MORSE_CODE
            then Some(Merged(Lookup(s, k), MorseEntry(name[k], k).value))
            else Lookup(s, k)
  {
    MorseEntriesAt(name);
    LookupInsertAll(s, MorseEntries(name), k);
  }
}

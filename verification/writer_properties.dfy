/**
 * What the binary writer guarantees about its own state: the stream only
 * grows and earlier bytes are never overwritten, offsets and sharing-map
 * entries are only added, and every index the writer hands out refers to an
 * equal node.
 */
module WriterProperties {
  import opened Bytes
  import opened Nodes
  import opened BinaryWriter
  import NodeFactory

  /** Writing `n` from `s` extended the state, kept it valid and returned an index that holds `n`. */
  predicate Sound(s: WState, n: Node, w: Written) {
    Extends(s, w.state) && Valid(w.state) && 0 <= w.idx < |w.state.objects| && w.state.objects[w.idx] == n
  }

  lemma ExtendsTransitive(a: WState, b: WState, c: WState)
    requires Extends(a, b) && Extends(b, c)
    ensures Extends(a, c)
  {
  }

  /** Appending to or patching the stream beyond the end of `s` keeps `s` a prefix, and keeps a valid state valid. */
  lemma StreamGrows(s: WState, t: WState, stream: seq<Byte>)
    requires Extends(s, t) && |stream| >= |t.stream| && stream[..|s.stream|] == s.stream
    ensures Extends(s, t.(stream := stream))
    ensures Valid(t) ==> Valid(t.(stream := stream))
  {
  }

  /** A patch at `at` leaves the bytes before it and after the patched ones alone. */
  lemma PatchKeepsOthers(s: seq<Byte>, at: nat, bytes: seq<Byte>)
    requires at + |bytes| <= |s|
    ensures Patch(s, at, bytes)[..at] == s[..at]
    ensures Patch(s, at, bytes)[at + |bytes|..] == s[at + |bytes|..]
  {
  }

  /** Recording a node: one more offset, pointing at its marker, and the sharing map entry if new. */
  lemma EnterSound(s: WState, n: Node)
    requires BinaryLength(n) <= IntMax && Valid(s)
    ensures var e := Enter(s, n);
      Extends(s, e) && Valid(e) && |e.offsets| == |s.offsets| + 1 && e.objects[|s.offsets|] == n &&
      e.stream[..|s.stream|] == s.stream
  {
    var e := Enter(s, n);
    assert e.stream[..|s.stream|] == s.stream;
    forall key | key in e.unique
      ensures 0 <= e.unique[key] < |e.objects| && ValueOf(e.objects[e.unique[key]]).Some? &&
        UniqueKey(e.objects[e.unique[key]]) == key
    {
      if key !in s.unique {
        assert key == UniqueKey(n) && e.unique[key] == |s.offsets|;
      }
    }
  }

  /** A shared atom: the index found in the sharing map holds an equal node. */
  lemma ReusedSound(s: WState, n: Node)
    requires Valid(s) && Shareable(n) && UniqueKey(n) in s.unique
    ensures 0 <= s.unique[UniqueKey(n)] < |s.objects| && s.objects[s.unique[UniqueKey(n)]] == n
  {
    UniqueKeyDeterminesNode(s.objects[s.unique[UniqueKey(n)]], n);
  }

  /** An atom adds at most one offset, and its index holds the atom. */
  lemma AtomWriteSound(s: WState, n: Node)
    requires !n.Array? && !n.Dict? && BinaryLength(n) <= IntMax && Valid(s)
    ensures Sound(s, n, AtomWrite(s, n))
  {
    if Reused(s, n) {
      ReusedSound(s, n);
    } else {
      var e := Enter(s, n);
      EnterSound(s, n);
      StreamGrows(s, e, e.stream + WriteBinary(n).value);
      if Shareable(n) && UniqueKey(n) in s.unique {
        ReusedSound(s, n);
      }
    }
  }

  /**
   * Writing a node extends the state and keeps it valid, and returns an
   * index that holds the node.
   */
  lemma {:induction false} NodeWriteSound(s: WState, size: int, n: Node)
    requires size in {1, 2, 4} && WellFormed(n) && Valid(s)
    ensures Sound(s, n, NodeWrite(s, size, n))
    decreases n, 0
  {
    match n
    case Array(items) =>
      var e := Enter(s, n);
      EnterSound(s, n);
      ArrayWriteSound(e, size, items);
      ExtendsTransitive(s, e, ArrayWrite(e, size, items));
    case Dict(entries) =>
      var e := Enter(s, n);
      EnterSound(s, n);
      DictWriteSound(e, size, entries);
      ExtendsTransitive(s, e, DictWrite(e, size, entries));
    case _ =>
      AtomWriteSound(s, n);
  }

  /** The array overload: the block is patched in after the end of `s`, so `s` stays a prefix. */
  lemma {:induction false} ArrayWriteSound(s: WState, size: int, items: seq<Node>)
    requires size in {1, 2, 4} && ItemsWellFormed(items) && Valid(s)
    ensures var r := ArrayWrite(s, size, items);
      Extends(s, r) && Valid(r)
    decreases items, 2
  {
    var placeholder := s.(stream := s.stream + Zeros(size * |items|));
    assert placeholder.stream[..|s.stream|] == s.stream;
    var children := ItemsWrite(placeholder, size, items, |items|);
    ItemsWriteSound(placeholder, size, items, |items|);
    ExtendsTransitive(s, placeholder, children.state);
    var block := FormatAll(children.indices, size);
    PatchKeepsOthers(children.state.stream, |s.stream|, block);
    StreamGrows(s, children.state, Patch(children.state.stream, |s.stream|, block));
  }

  /**
   * Where an array's references go: right after what was written before it
   * (which stays as it was) comes its block, filled with its children's
   * indices, and reference `j` holds item `j`.
   */
  lemma ArrayWriteBlock(s: WState, size: int, items: seq<Node>)
    requires size in {1, 2, 4} && ItemsWellFormed(items) && Valid(s)
    ensures var children := ItemsWrite(s.(stream := s.stream + Zeros(size * |items|)), size, items, |items|);
      var r := ArrayWrite(s, size, items);
      |children.indices| == |items| && ItemRefs(children.indices, r.objects, items) &&
      |r.stream| >= |s.stream| + size * |items| && r.stream[..|s.stream|] == s.stream &&
      r.stream[|s.stream|..|s.stream| + size * |items|] == FormatAll(children.indices, size)
  {
    var placeholder := s.(stream := s.stream + Zeros(size * |items|));
    var children := ItemsWrite(placeholder, size, items, |items|);
    ItemsWriteRefers(placeholder, size, items, |items|);
    ItemsWriteSound(placeholder, size, items, |items|);
    PrefixOfPrefix(s.stream, placeholder.stream, children.state.stream);
    BlockPlaced(s.stream, children.state.stream, FormatAll(children.indices, size));
  }

  /** The first `k` items: the state is extended and stays valid. */
  lemma {:induction false} ItemsWriteSound(s: WState, size: int, items: seq<Node>, k: nat)
    requires size in {1, 2, 4} && k <= |items| && ItemsWellFormed(items) && Valid(s)
    ensures var r := ItemsWrite(s, size, items, k);
      Extends(s, r.state) && Valid(r.state)
    decreases items, 1, k, 1
  {
    if k > 0 {
      ItemsWriteSound(s, size, items, k - 1);
      ItemsWriteSoundStep(s, size, items, k);
    }
  }

  /** One more item keeps the first `k - 1` sound. */
  lemma {:induction false} ItemsWriteSoundStep(s: WState, size: int, items: seq<Node>, k: nat)
    requires size in {1, 2, 4} && 0 < k <= |items| && ItemsWellFormed(items)
    requires var prefix := ItemsWrite(s, size, items, k - 1); Extends(s, prefix.state) && Valid(prefix.state)
    ensures var r := ItemsWrite(s, size, items, k); Extends(s, r.state) && Valid(r.state)
    decreases items, 1, k, 0
  {
    var prefix := ItemsWrite(s, size, items, k - 1);
    NodeWriteSound(prefix.state, size, items[k - 1]);
    ExtendsTransitive(s, prefix.state, NodeWrite(prefix.state, size, items[k - 1]).state);
  }

  /** The dictionary overload: both blocks are patched in after the end of `s`. */
  lemma {:induction false} DictWriteSound(s: WState, size: int, entries: seq<Entry>)
    requires size in {1, 2, 4} && KeysFit(entries) && ValuesWellFormed(entries) && Valid(s)
    ensures var r := DictWrite(s, size, entries);
      Extends(s, r) && Valid(r)
    decreases entries, 2
  {
    var n := |entries|;
    var placeholder := s.(stream := s.stream + Zeros(size * n) + Zeros(size * n));
    assert placeholder.stream[..|s.stream|] == s.stream;
    var keys := KeysWrite(placeholder, entries, n);
    KeysWriteSound(placeholder, entries, n);
    var values := ValuesWrite(keys.state, size, entries, n);
    ValuesWriteSound(keys.state, size, entries, n);
    ExtendsTransitive(s, placeholder, keys.state);
    ExtendsTransitive(s, keys.state, values.state);
    var keyBlock := FormatAll(keys.indices, size);
    var valueBlock := FormatAll(values.indices, size);
    assert DictWrite(s, size, entries) == values.state.(stream := PatchBlocks(values.state.stream, |s.stream|, keyBlock, valueBlock));
    BlocksPatchSound(s, values.state, keyBlock, valueBlock);
  }

  /** The keys of a dictionary, written after its two reserved reference blocks. */
  function DictKeys(s: WState, size: int, entries: seq<Entry>): (r: WrittenAll)
    requires size in {1, 2, 4} && KeysFit(entries)
    ensures |r.indices| == |entries|
  {
    var n := |entries|;
    KeysWrite(s.(stream := s.stream + Zeros(size * n) + Zeros(size * n)), entries, n)
  }

  /** The values of a dictionary, written after its keys. */
  function DictValues(s: WState, size: int, entries: seq<Entry>): (r: WrittenAll)
    requires size in {1, 2, 4} && KeysFit(entries) && ValuesWellFormed(entries)
    ensures |r.indices| == |entries|
  {
    ValuesWrite(DictKeys(s, size, entries).state, size, entries, |entries|)
  }

  /**
   * Where a dictionary's references go: right after what was written before
   * it (which stays as it was) come its key block and then its value block,
   * filled with the indices its keys and its values were written at.
   */
  lemma DictWriteBlocks(s: WState, size: int, entries: seq<Entry>)
    requires size in {1, 2, 4} && KeysFit(entries) && ValuesWellFormed(entries) && Valid(s)
    ensures var keyBlock := FormatAll(DictKeys(s, size, entries).indices, size);
      var valueBlock := FormatAll(DictValues(s, size, entries).indices, size);
      var r, at := DictWrite(s, size, entries).stream, |s.stream| + |keyBlock|;
      |keyBlock| == |valueBlock| == size * |entries| && r[..|s.stream|] == s.stream &&
      at + |valueBlock| <= |r| && r[|s.stream|..at] == keyBlock && r[at..at + |valueBlock|] == valueBlock
  {
    var keyBlock := FormatAll(DictKeys(s, size, entries).indices, size);
    var valueBlock := FormatAll(DictValues(s, size, entries).indices, size);
    DictChildrenKeepPrefix(s, size, entries);
    DictWriteStream(s, size, entries);
    BlocksPlaced(s.stream, DictValues(s, size, entries).state.stream, keyBlock, valueBlock, DictWrite(s, size, entries).stream);
  }

  /** The stream of a written dictionary: the children's stream with both blocks filled in. */
  lemma DictWriteStream(s: WState, size: int, entries: seq<Entry>)
    requires size in {1, 2, 4} && KeysFit(entries) && ValuesWellFormed(entries)
    ensures DictWrite(s, size, entries).stream ==
      PatchBlocks(DictValues(s, size, entries).state.stream, |s.stream|,
        FormatAll(DictKeys(s, size, entries).indices, size), FormatAll(DictValues(s, size, entries).indices, size))
  {
  }

  /** Writing a dictionary's keys and values after its two reserved blocks keeps what came before. */
  lemma DictChildrenKeepPrefix(s: WState, size: int, entries: seq<Entry>)
    requires size in {1, 2, 4} && KeysFit(entries) && ValuesWellFormed(entries) && Valid(s)
    ensures var t := DictValues(s, size, entries).state.stream;
      |t| >= |s.stream| + size * |entries| + size * |entries| && t[..|s.stream|] == s.stream
  {
    var n := |entries|;
    var placeholder := s.(stream := s.stream + Zeros(size * n) + Zeros(size * n));
    var keys := KeysWrite(placeholder, entries, n);
    KeysWriteSound(placeholder, entries, n);
    var values := ValuesWrite(keys.state, size, entries, n);
    ValuesWriteSound(keys.state, size, entries, n);
    assert placeholder.stream[..|s.stream|] == s.stream;
    PrefixOfPrefix(s.stream, placeholder.stream, keys.state.stream);
    PrefixOfPrefix(s.stream, keys.state.stream, values.state.stream);
  }

  /**
   * What a dictionary's references hold: reference `j` of the key block the
   * string node of key `j`, reference `j` of the value block value `j`.
   */
  lemma DictWriteRefs(s: WState, size: int, entries: seq<Entry>)
    requires size in {1, 2, 4} && KeysFit(entries) && ValuesWellFormed(entries) && Valid(s)
    ensures var r := DictWrite(s, size, entries);
      KeyRefs(DictKeys(s, size, entries).indices, r.objects, entries) &&
      ValueRefs(DictValues(s, size, entries).indices, r.objects, entries)
  {
    var n := |entries|;
    var placeholder := s.(stream := s.stream + Zeros(size * n) + Zeros(size * n));
    var keys := KeysWrite(placeholder, entries, n);
    KeysWriteSound(placeholder, entries, n);
    KeysWriteRefers(placeholder, entries, n);
    var values := ValuesWrite(keys.state, size, entries, n);
    ValuesWriteSound(keys.state, size, entries, n);
    ValuesWriteRefers(keys.state, size, entries, n);
    KeyRefsGrow(keys.indices, keys.state.objects, values.state.objects, entries);
  }

  /** A prefix of a prefix is a prefix. */
  lemma PrefixOfPrefix(a: seq<Byte>, b: seq<Byte>, c: seq<Byte>)
    requires |a| <= |b| && b[..|a|] == a && b <= c
    ensures |a| <= |c| && c[..|a|] == a
  {
    assert c[..|b|] == b;
    assert c[..|a|] == c[..|b|][..|a|];
  }

  /** A block patched in right after `before` lands there and leaves `before` alone. */
  lemma BlockPlaced(before: seq<Byte>, t: seq<Byte>, block: seq<Byte>)
    requires |before| + |block| <= |t| && t[..|before|] == before
    ensures var r := Patch(t, |before|, block);
      |r| == |t| && r[..|before|] == before && r[|before|..|before| + |block|] == block
  {
  }

  /** Two blocks patched in back to back right after `before`. */
  lemma BlocksPlaced(before: seq<Byte>, t: seq<Byte>, keyBlock: seq<Byte>, valueBlock: seq<Byte>, r: seq<Byte>)
    requires |before| + |keyBlock| + |valueBlock| <= |t| && t[..|before|] == before
    requires r == PatchBlocks(t, |before|, keyBlock, valueBlock)
    ensures var at := |before| + |keyBlock|;
      at + |valueBlock| <= |r| && r[..|before|] == before && r[|before|..at] == keyBlock && r[at..at + |valueBlock|] == valueBlock
  {
    var p := Patch(t, |before|, keyBlock);
    var at := |before| + |keyBlock|;
    assert r[..at] == p[..at];
    assert r[..|before|] == r[..at][..|before|];
    assert r[|before|..at] == r[..at][|before|..];
    assert p[|before|..at] == keyBlock;
  }

  /** References into the objects stay valid when more objects are written. */
  lemma KeyRefsGrow(indices: seq<int>, a: seq<Node>, b: seq<Node>, entries: seq<Entry>)
    requires KeyRefs(indices, a, entries) && a <= b
    ensures KeyRefs(indices, b, entries)
  {
    forall j | 0 <= j < |indices|
      ensures b[indices[j]] == a[indices[j]]
    {
      assert b[..|a|] == a;
    }
  }

  /** Filling in both blocks of a dictionary written after `s` keeps `s` a prefix and the state valid. */
  lemma BlocksPatchSound(s: WState, t: WState, keyBlock: seq<Byte>, valueBlock: seq<Byte>)
    requires Extends(s, t) && Valid(t) && |s.stream| + |keyBlock| + |valueBlock| <= |t.stream|
    ensures var r := t.(stream := PatchBlocks(t.stream, |s.stream|, keyBlock, valueBlock));
      Extends(s, r) && Valid(r)
  {
    PatchKeepsOthers(t.stream, |s.stream|, keyBlock);
    PatchKeepsOthers(Patch(t.stream, |s.stream|, keyBlock), |s.stream| + |keyBlock|, valueBlock);
    StreamGrows(s, t, PatchBlocks(t.stream, |s.stream|, keyBlock, valueBlock));
  }

  /** The first `k` keys: the state is extended and stays valid. */
  lemma {:induction false} KeysWriteSound(s: WState, entries: seq<Entry>, k: nat)
    requires k <= |entries| && KeysFit(entries) && Valid(s)
    ensures var r := KeysWrite(s, entries, k);
      Extends(s, r.state) && Valid(r.state)
  {
    if k > 0 {
      KeysWriteSound(s, entries, k - 1);
      KeysWriteSoundStep(s, entries, k);
    }
  }

  /** One more key keeps the first `k - 1` sound. */
  lemma KeysWriteSoundStep(s: WState, entries: seq<Entry>, k: nat)
    requires 0 < k <= |entries| && KeysFit(entries)
    requires var prefix := KeysWrite(s, entries, k - 1); Extends(s, prefix.state) && Valid(prefix.state)
    ensures var r := KeysWrite(s, entries, k); Extends(s, r.state) && Valid(r.state)
  {
    var prefix := KeysWrite(s, entries, k - 1);
    var node := NodeFactory.CreateKeyElement(entries[k - 1].key);
    AtomWriteSound(prefix.state, node);
    ExtendsTransitive(s, prefix.state, AtomWrite(prefix.state, node).state);
  }

  /** The first `k` values: the state is extended and stays valid. */
  lemma {:induction false} ValuesWriteSound(s: WState, size: int, entries: seq<Entry>, k: nat)
    requires size in {1, 2, 4} && k <= |entries| && ValuesWellFormed(entries) && Valid(s)
    ensures var r := ValuesWrite(s, size, entries, k);
      Extends(s, r.state) && Valid(r.state)
    decreases entries, 1, k, 1
  {
    if k > 0 {
      ValuesWriteSound(s, size, entries, k - 1);
      ValuesWriteSoundStep(s, size, entries, k);
    }
  }

  /** One more value keeps the first `k - 1` sound. */
  lemma {:induction false} ValuesWriteSoundStep(s: WState, size: int, entries: seq<Entry>, k: nat)
    requires size in {1, 2, 4} && 0 < k <= |entries| && ValuesWellFormed(entries)
    requires var prefix := ValuesWrite(s, size, entries, k - 1); Extends(s, prefix.state) && Valid(prefix.state)
    ensures var r := ValuesWrite(s, size, entries, k); Extends(s, r.state) && Valid(r.state)
    decreases entries, 1, k, 0
  {
    var prefix := ValuesWrite(s, size, entries, k - 1);
    NodeWriteSound(prefix.state, size, entries[k - 1].value);
    ExtendsTransitive(s, prefix.state, NodeWrite(prefix.state, size, entries[k - 1].value).state);
  }

  // The references a block is filled with.

  /** Reference `j` of an array block holds item `j`. */
  predicate ItemRefs(indices: seq<int>, objects: seq<Node>, items: seq<Node>) {
    |indices| <= |items| &&
    forall j :: 0 <= j < |indices| ==> 0 <= indices[j] < |objects| && objects[indices[j]] == items[j]
  }

  /** Reference `j` of a key block holds the string node of key `j`. */
  predicate KeyRefs(indices: seq<int>, objects: seq<Node>, entries: seq<Entry>) {
    |indices| <= |entries| &&
    forall j :: 0 <= j < |indices| ==>
      0 <= indices[j] < |objects| && objects[indices[j]] == NodeFactory.CreateKeyElement(entries[j].key)
  }

  /** Reference `j` of a value block holds value `j`. */
  predicate ValueRefs(indices: seq<int>, objects: seq<Node>, entries: seq<Entry>) {
    |indices| <= |entries| &&
    forall j :: 0 <= j < |indices| ==> 0 <= indices[j] < |objects| && objects[indices[j]] == entries[j].value
  }

  /** Earlier references survive the objects growing, and the next one can be added. */
  lemma ItemRefsAppend(indices: seq<int>, a: seq<Node>, b: seq<Node>, items: seq<Node>, next: seq<int>)
    requires ItemRefs(indices, a, items) && a <= b && |indices| < |items|
    requires |next| == |indices| + 1 && next == indices + [next[|indices|]]
    requires 0 <= next[|indices|] < |b| && b[next[|indices|]] == items[|indices|]
    ensures ItemRefs(next, b, items)
  {
  }

  lemma KeyRefsAppend(indices: seq<int>, a: seq<Node>, b: seq<Node>, entries: seq<Entry>, next: seq<int>)
    requires KeyRefs(indices, a, entries) && a <= b && |indices| < |entries|
    requires |next| == |indices| + 1 && next == indices + [next[|indices|]]
    requires 0 <= next[|indices|] < |b| && b[next[|indices|]] == NodeFactory.CreateKeyElement(entries[|indices|].key)
    ensures KeyRefs(next, b, entries)
  {
  }

  lemma ValueRefsAppend(indices: seq<int>, a: seq<Node>, b: seq<Node>, entries: seq<Entry>, next: seq<int>)
    requires ValueRefs(indices, a, entries) && a <= b && |indices| < |entries|
    requires |next| == |indices| + 1 && next == indices + [next[|indices|]]
    requires 0 <= next[|indices|] < |b| && b[next[|indices|]] == entries[|indices|].value
    ensures ValueRefs(next, b, entries)
  {
  }

  /** The index returned for a node holds it, and earlier objects stay. */
  lemma NodeWriteIdx(s: WState, size: int, n: Node)
    requires size in {1, 2, 4} && WellFormed(n) && Valid(s)
    ensures var w := NodeWrite(s, size, n);
      s.objects <= w.state.objects && 0 <= w.idx < |w.state.objects| && w.state.objects[w.idx] == n
  {
    NodeWriteSound(s, size, n);
  }

  lemma ItemsWriteValid(s: WState, size: int, items: seq<Node>, k: nat)
    requires size in {1, 2, 4} && k <= |items| && ItemsWellFormed(items) && Valid(s)
    ensures Valid(ItemsWrite(s, size, items, k).state)
  {
    ItemsWriteSound(s, size, items, k);
  }

  /** One more item: its reference is appended and holds it, and earlier objects stay. */
  lemma ItemsWriteStep(s: WState, size: int, items: seq<Node>, k: nat)
    requires size in {1, 2, 4} && 0 < k <= |items| && ItemsWellFormed(items)
    requires Valid(s)
    ensures var prefix := ItemsWrite(s, size, items, k - 1);
      var r := ItemsWrite(s, size, items, k);
      r.indices == prefix.indices + [r.indices[k - 1]] && prefix.state.objects <= r.state.objects &&
      0 <= r.indices[k - 1] < |r.state.objects| && r.state.objects[r.indices[k - 1]] == items[k - 1]
  {
    ItemsWriteValid(s, size, items, k - 1);
    NodeWriteIdx(ItemsWrite(s, size, items, k - 1).state, size, items[k - 1]);
  }

  lemma ItemsWriteStepRefers(s: WState, size: int, items: seq<Node>, k: nat)
    requires size in {1, 2, 4} && 0 < k <= |items| && ItemsWellFormed(items) && Valid(s)
    requires var prefix := ItemsWrite(s, size, items, k - 1); ItemRefs(prefix.indices, prefix.state.objects, items)
    ensures var r := ItemsWrite(s, size, items, k); ItemRefs(r.indices, r.state.objects, items)
  {
    var prefix := ItemsWrite(s, size, items, k - 1);
    var r := ItemsWrite(s, size, items, k);
    ItemsWriteStep(s, size, items, k);
    ItemRefsAppend(prefix.indices, prefix.state.objects, r.state.objects, items, r.indices);
  }

  /** The reference recorded for item `j` holds item `j`. */
  lemma {:induction false} ItemsWriteRefers(s: WState, size: int, items: seq<Node>, k: nat)
    requires size in {1, 2, 4} && k <= |items| && ItemsWellFormed(items) && Valid(s)
    ensures var r := ItemsWrite(s, size, items, k);
      ItemRefs(r.indices, r.state.objects, items)
  {
    if k > 0 {
      ItemsWriteRefers(s, size, items, k - 1);
      ItemsWriteStepRefers(s, size, items, k);
    }
  }

  lemma KeysWriteValid(s: WState, entries: seq<Entry>, k: nat)
    requires k <= |entries| && KeysFit(entries) && Valid(s)
    ensures Valid(KeysWrite(s, entries, k).state)
  {
    KeysWriteSound(s, entries, k);
  }

  /** One more key: its reference is appended and holds its string node, and earlier objects stay. */
  lemma KeysWriteStep(s: WState, entries: seq<Entry>, k: nat)
    requires 0 < k <= |entries| && KeysFit(entries) && Valid(s)
    ensures var prefix := KeysWrite(s, entries, k - 1);
      var r := KeysWrite(s, entries, k);
      r.indices == prefix.indices + [r.indices[k - 1]] && prefix.state.objects <= r.state.objects &&
      0 <= r.indices[k - 1] < |r.state.objects| &&
      r.state.objects[r.indices[k - 1]] == NodeFactory.CreateKeyElement(entries[k - 1].key)
  {
    KeysWriteValid(s, entries, k - 1);
    AtomWriteSound(KeysWrite(s, entries, k - 1).state, NodeFactory.CreateKeyElement(entries[k - 1].key));
  }

  lemma KeysWriteStepRefers(s: WState, entries: seq<Entry>, k: nat)
    requires 0 < k <= |entries| && KeysFit(entries) && Valid(s)
    requires var prefix := KeysWrite(s, entries, k - 1); KeyRefs(prefix.indices, prefix.state.objects, entries)
    ensures var r := KeysWrite(s, entries, k); KeyRefs(r.indices, r.state.objects, entries)
  {
    var prefix := KeysWrite(s, entries, k - 1);
    var r := KeysWrite(s, entries, k);
    KeysWriteStep(s, entries, k);
    KeyRefsAppend(prefix.indices, prefix.state.objects, r.state.objects, entries, r.indices);
  }

  /** The reference recorded for key `j` holds its string node. */
  lemma {:induction false} KeysWriteRefers(s: WState, entries: seq<Entry>, k: nat)
    requires k <= |entries| && KeysFit(entries) && Valid(s)
    ensures var r := KeysWrite(s, entries, k);
      KeyRefs(r.indices, r.state.objects, entries)
  {
    if k > 0 {
      KeysWriteRefers(s, entries, k - 1);
      KeysWriteStepRefers(s, entries, k);
    }
  }

  lemma ValuesWriteValid(s: WState, size: int, entries: seq<Entry>, k: nat)
    requires size in {1, 2, 4} && k <= |entries| && ValuesWellFormed(entries) && Valid(s)
    ensures Valid(ValuesWrite(s, size, entries, k).state)
  {
    ValuesWriteSound(s, size, entries, k);
  }

  /** One more value: its reference is appended and holds it, and earlier objects stay. */
  lemma ValuesWriteStep(s: WState, size: int, entries: seq<Entry>, k: nat)
    requires size in {1, 2, 4} && 0 < k <= |entries| && ValuesWellFormed(entries) && Valid(s)
    ensures var prefix := ValuesWrite(s, size, entries, k - 1);
      var r := ValuesWrite(s, size, entries, k);
      r.indices == prefix.indices + [r.indices[k - 1]] && prefix.state.objects <= r.state.objects &&
      0 <= r.indices[k - 1] < |r.state.objects| && r.state.objects[r.indices[k - 1]] == entries[k - 1].value
  {
    ValuesWriteValid(s, size, entries, k - 1);
    NodeWriteIdx(ValuesWrite(s, size, entries, k - 1).state, size, entries[k - 1].value);
  }

  lemma ValuesWriteStepRefers(s: WState, size: int, entries: seq<Entry>, k: nat)
    requires size in {1, 2, 4} && 0 < k <= |entries| && ValuesWellFormed(entries) && Valid(s)
    requires var prefix := ValuesWrite(s, size, entries, k - 1); ValueRefs(prefix.indices, prefix.state.objects, entries)
    ensures var r := ValuesWrite(s, size, entries, k); ValueRefs(r.indices, r.state.objects, entries)
  {
    var prefix := ValuesWrite(s, size, entries, k - 1);
    var r := ValuesWrite(s, size, entries, k);
    ValuesWriteStep(s, size, entries, k);
    ValueRefsAppend(prefix.indices, prefix.state.objects, r.state.objects, entries, r.indices);
  }

  /** The reference recorded for value `j` holds value `j`. */
  lemma {:induction false} ValuesWriteRefers(s: WState, size: int, entries: seq<Entry>, k: nat)
    requires size in {1, 2, 4} && k <= |entries| && ValuesWellFormed(entries) && Valid(s)
    ensures var r := ValuesWrite(s, size, entries, k);
      ValueRefs(r.indices, r.state.objects, entries)
  {
    if k > 0 {
      ValuesWriteRefers(s, size, entries, k - 1);
      ValuesWriteStepRefers(s, size, entries, k);
    }
  }
  /**
   * Sharing: an atom equal to one written before under the same tag (other
   * than a boolean) is not written again; the writer hands back the index of
   * the earlier, equal node and the state is unchanged.
   */
  lemma SharedAtomWritesNothing(s: WState, n: Node)
    requires !n.Array? && !n.Dict? && !n.Boolean? && BinaryLength(n) <= IntMax && Valid(s)
    requires Shareable(n) && UniqueKey(n) in s.unique
    ensures var w := AtomWrite(s, n);
      w.state == s && w.idx == s.unique[UniqueKey(n)] && 0 <= w.idx < |s.objects| && s.objects[w.idx] == n
  {
    ReusedSound(s, n);
  }

  /**
   * A repeated boolean: the index of the first copy is handed back, yet an
   * offset and a marker byte are added for a copy no reference points at.
   */
  lemma RepeatedBooleanOrphan(s: WState, b: bool)
    requires Valid(s) && UniqueKey(Boolean(b)) in s.unique
    ensures var w := AtomWrite(s, Boolean(b));
      w.idx == s.unique[UniqueKey(Boolean(b))] && 0 <= w.idx < |s.offsets| && s.objects[w.idx] == Boolean(b) &&
      w.state.offsets == s.offsets + [|s.stream|] && w.state.stream == s.stream + [if b then 0x09 else 0x08] &&
      w.state.unique == s.unique
  {
    ReusedSound(s, Boolean(b));
  }

  /** A shareable atom not seen before gets the next index, and the sharing map remembers it. */
  lemma FreshAtomEntered(s: WState, n: Node)
    requires !n.Array? && !n.Dict? && BinaryLength(n) <= IntMax
    requires Shareable(n) && UniqueKey(n) !in s.unique
    ensures var w := AtomWrite(s, n);
      w.idx == |s.offsets| && w.state.unique == s.unique[UniqueKey(n) := |s.offsets|] &&
      w.state.offsets == s.offsets + [|s.stream|] && w.state.stream == s.stream + Marker(n) + WriteBinary(n).value
  {
  }

  /** The root is the first node written, so the top object of a fresh write is index 0. */
  lemma RootIndexZero(stream0: seq<Byte>, root: Node)
    requires WellFormed(root)
    ensures ObjectsWrite(stream0, map[], root).idx == 0
  {
  }
}

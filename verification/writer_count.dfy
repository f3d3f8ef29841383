/**
 * The writer takes at most one offset per node that `GetNodeCount` counts,
 * so the width it picks from that count is wide enough for every index it
 * hands out.
 */
module WriterCount {
  import opened Bytes
  import opened Nodes
  import opened BinaryWriter
  import WriterProperties

  /** Writing `n` adds at most `GetNodeCount(n)` offsets. */
  lemma {:induction false} NodeWriteCount(s: WState, size: int, n: Node)
    requires size in {1, 2, 4} && WellFormed(n)
    ensures |NodeWrite(s, size, n).state.offsets| <= |s.offsets| + GetNodeCount(n)
    decreases n, 0
  {
    match n
    case Array(items) =>
      ArrayWriteCount(Enter(s, n), size, items);
    case Dict(entries) =>
      DictWriteCount(Enter(s, n), size, entries);
    case _ =>
  }

  /** The array overload adds at most the items' counts. */
  lemma {:induction false} ArrayWriteCount(s: WState, size: int, items: seq<Node>)
    requires size in {1, 2, 4} && ItemsWellFormed(items)
    ensures |ArrayWrite(s, size, items).offsets| <= |s.offsets| + ItemsCount(items, |items|)
    decreases items, 2
  {
    ItemsWriteCount(s.(stream := s.stream + Zeros(size * |items|)), size, items, |items|);
  }

  lemma {:induction false} ItemsWriteCount(s: WState, size: int, items: seq<Node>, k: nat)
    requires size in {1, 2, 4} && k <= |items| && ItemsWellFormed(items)
    ensures |ItemsWrite(s, size, items, k).state.offsets| <= |s.offsets| + ItemsCount(items, k)
    decreases items, 1, k, 1
  {
    if k > 0 {
      ItemsWriteCount(s, size, items, k - 1);
      ItemsWriteCountStep(s, size, items, k);
    }
  }

  /** One more item adds at most its own count. */
  lemma {:induction false} ItemsWriteCountStep(s: WState, size: int, items: seq<Node>, k: nat)
    requires size in {1, 2, 4} && 0 < k <= |items| && ItemsWellFormed(items)
    requires |ItemsWrite(s, size, items, k - 1).state.offsets| <= |s.offsets| + ItemsCount(items, k - 1)
    ensures |ItemsWrite(s, size, items, k).state.offsets| <= |s.offsets| + ItemsCount(items, k)
    decreases items, 1, k, 0
  {
    NodeWriteCount(ItemsWrite(s, size, items, k - 1).state, size, items[k - 1]);
  }

  /** The dictionary overload adds at most one offset per key and the values' counts. */
  lemma {:induction false} DictWriteCount(s: WState, size: int, entries: seq<Entry>)
    requires size in {1, 2, 4} && KeysFit(entries) && ValuesWellFormed(entries)
    ensures |DictWrite(s, size, entries).offsets| <= |s.offsets| + |entries| + ValuesCount(entries, |entries|)
    decreases entries, 2
  {
    var n := |entries|;
    var placeholder := s.(stream := s.stream + Zeros(size * n) + Zeros(size * n));
    KeysWriteCount(placeholder, entries, n);
    ValuesWriteCount(KeysWrite(placeholder, entries, n).state, size, entries, n);
  }

  lemma {:induction false} KeysWriteCount(s: WState, entries: seq<Entry>, k: nat)
    requires k <= |entries| && KeysFit(entries)
    ensures |KeysWrite(s, entries, k).state.offsets| <= |s.offsets| + k
  {
    if k > 0 {
      KeysWriteCount(s, entries, k - 1);
      KeysWriteCountStep(s, entries, k);
    }
  }

  /** One more key adds at most one offset. */
  lemma KeysWriteCountStep(s: WState, entries: seq<Entry>, k: nat)
    requires 0 < k <= |entries| && KeysFit(entries)
    requires |KeysWrite(s, entries, k - 1).state.offsets| <= |s.offsets| + k - 1
    ensures |KeysWrite(s, entries, k).state.offsets| <= |s.offsets| + k
  {
  }

  lemma {:induction false} ValuesWriteCount(s: WState, size: int, entries: seq<Entry>, k: nat)
    requires size in {1, 2, 4} && k <= |entries| && ValuesWellFormed(entries)
    ensures |ValuesWrite(s, size, entries, k).state.offsets| <= |s.offsets| + ValuesCount(entries, k)
    decreases entries, 1, k, 1
  {
    if k > 0 {
      ValuesWriteCount(s, size, entries, k - 1);
      ValuesWriteCountStep(s, size, entries, k);
    }
  }

  /** One more value adds at most its own count. */
  lemma {:induction false} ValuesWriteCountStep(s: WState, size: int, entries: seq<Entry>, k: nat)
    requires size in {1, 2, 4} && 0 < k <= |entries| && ValuesWellFormed(entries)
    requires |ValuesWrite(s, size, entries, k - 1).state.offsets| <= |s.offsets| + ValuesCount(entries, k - 1)
    ensures |ValuesWrite(s, size, entries, k).state.offsets| <= |s.offsets| + ValuesCount(entries, k)
    decreases entries, 1, k, 0
  {
    NodeWriteCount(ValuesWrite(s, size, entries, k - 1).state, size, entries[k - 1].value);
  }

  /**
   * A fresh writer (empty sharing map) writes at most `GetNodeCount(root)`
   * objects, and the top object's index is one of them.
   */
  lemma ObjectsWithinCount(stream0: seq<Byte>, root: Node)
    requires WellFormed(root)
    ensures var top := ObjectsWrite(stream0, map[], root);
      0 <= top.idx < |top.state.offsets| <= GetNodeCount(root)
  {
    var start := WState(stream0 + Header, [], map[], []);
    var size := WidthFor(GetNodeCount(root));
    WriterProperties.NodeWriteSound(start, size, root);
    NodeWriteCount(start, size, root);
  }

  /**
   * An index below the node count survives `FormatIdx` at the width chosen
   * from that count: its bytes read back, unsigned, as the index.
   */
  lemma RefWidthSuffices(idx: int, count: int)
    requires 0 <= idx < count <= IntMax
    ensures var w := WidthFor(count); BeValue(FormatIdx(idx, w).value) == idx
  {
    var w := WidthFor(count);
    assert Pow256(1) == 256 && Pow256(2) == 0x1_0000 && Pow256(4) == 0x1_0000_0000;
    ModInRange(idx, Pow256(w));
  }
}

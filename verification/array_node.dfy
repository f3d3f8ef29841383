/**
 * The array node: a node that wraps a mutable list of child nodes. The list
 * operations change it in place; the functions below say what each makes of
 * the list, and the lemmas how they relate.
 */
module ArrayNodes {
  import opened Wrappers
  import opened Nodes

  /** `Insert(index, item)` on a list: `item` lands at `index`, later items move up one. */
  function Inserted(s: seq<Node>, index: int, item: Node): (r: seq<Node>)
    requires 0 <= index <= |s|
  {
    s[..index] + [item] + s[index..]
  }

  /** `RemoveAt(index)` on a list: later items move down one. */
  function Removed(s: seq<Node>, index: int): (r: seq<Node>)
    requires 0 <= index < |s|
  {
    s[..index] + s[index + 1..]
  }

  /** Inserting puts the item at `index`, keeps the items before it and shifts the rest by one. */
  lemma InsertedShape(s: seq<Node>, index: int, item: Node)
    requires 0 <= index <= |s|
    ensures var r := Inserted(s, index, item);
      |r| == |s| + 1 && r[index] == item &&
      (forall i :: 0 <= i < index ==> r[i] == s[i]) &&
      (forall i :: index <= i < |s| ==> r[i + 1] == s[i])
  {
  }

  /** Removing drops exactly the item at `index`: the items before stay, the rest shift down by one. */
  lemma RemovedShape(s: seq<Node>, index: int)
    requires 0 <= index < |s|
    ensures var r := Removed(s, index);
      |r| == |s| - 1 &&
      (forall i :: 0 <= i < index ==> r[i] == s[i]) &&
      (forall i :: index <= i < |r| ==> r[i] == s[i + 1])
  {
  }

  /** `RemoveAt(index)` undoes `Insert(index, item)`. */
  lemma RemoveUndoesInsert(s: seq<Node>, index: int, item: Node)
    requires 0 <= index <= |s|
    ensures Removed(Inserted(s, index, item), index) == s
  {
    var r := Inserted(s, index, item);
    assert r[..index] == s[..index];
    assert r[index + 1..] == s[index..];
  }

  /** Re-inserting the removed item at its place restores the list. */
  lemma InsertUndoesRemove(s: seq<Node>, index: int)
    requires 0 <= index < |s|
    ensures Inserted(Removed(s, index), index, s[index]) == s
  {
    var r := Removed(s, index);
    assert r[..index] == s[..index];
    assert r[index..] == s[index + 1..];
    assert s == s[..index] + [s[index]] + s[index + 1..];
  }

  /** `Add(item)` is `Insert(Count, item)`. */
  lemma AddIsInsertAtEnd(s: seq<Node>, item: Node)
    ensures Inserted(s, |s|, item) == s + [item]
  {
    assert s[..|s|] == s;
  }

  /** `ArrayNode`: the list `_list`. */
  class ArrayNode {
    var items: seq<Node>

    /** A new, empty array. */
    constructor ()
      ensures items == []
    {
      items := [];
    }

    /** The node this object stands for in the tree the codecs work on. */
    function Value(): (n: Node)
      reads this
      ensures n.Array? && BinaryTag(n) == 0x0A && XmlTag(n) == "array"
      ensures BinaryLength(n) == Count() && !IsBinaryUnique(n)
    {
      Array(items)
    }

    /** `Count`. */
    function Count(): nat
      reads this
    {
      |items|
    }

    /** `Add(item)`: appends at the end. */
    method Add(item: Node)
      modifies this
      ensures items == old(items) + [item]
    {
      items := items + [item];
    }

    /** `Insert(index, item)`: an index outside `0..Count` is an argument error and changes nothing. */
    method Insert(index: int, item: Node) returns (r: Result<()>)
      modifies this
      ensures r.Ok? <==> 0 <= index <= |old(items)|
      ensures r.Ok? ==> items == Inserted(old(items), index, item)
      ensures r.Err? ==> r.error == ListInsertOutOfRange && items == old(items)
    {
      if index < 0 || index > |items| {
        return Err(ListInsertOutOfRange);
      }
      items := items[..index] + [item] + items[index..];
      return Ok(());
    }

    /** `RemoveAt(index)`: an index outside `0..Count-1` is an argument error and changes nothing. */
    method RemoveAt(index: int) returns (r: Result<()>)
      modifies this
      ensures r.Ok? <==> 0 <= index < |old(items)|
      ensures r.Ok? ==> items == Removed(old(items), index)
      ensures r.Err? ==> r.error == ListIndexOutOfRange && items == old(items)
    {
      if index < 0 || index >= |items| {
        return Err(ListIndexOutOfRange);
      }
      items := items[..index] + items[index + 1..];
      return Ok(());
    }

    /** The indexer's getter. */
    method Get(index: int) returns (r: Result<Node>)
      ensures r.Ok? <==> 0 <= index < |items|
      ensures r.Ok? ==> r.value == items[index]
      ensures r.Err? ==> r.error == ListIndexOutOfRange
    {
      if index < 0 || index >= |items| {
        return Err(ListIndexOutOfRange);
      }
      return Ok(items[index]);
    }

    /** The indexer's setter: replaces the item at `index` and no other. */
    method Set(index: int, item: Node) returns (r: Result<()>)
      modifies this
      ensures r.Ok? <==> 0 <= index < |old(items)|
      ensures r.Ok? ==> |items| == |old(items)| && items[index] == item
      ensures r.Ok? ==> forall i :: 0 <= i < |items| && i != index ==> items[i] == old(items)[i]
      ensures r.Err? ==> r.error == ListIndexOutOfRange && items == old(items)
    {
      if index < 0 || index >= |items| {
        return Err(ListIndexOutOfRange);
      }
      items := items[index := item];
      return Ok(());
    }

    /** `Clear()`. */
    method Clear()
      modifies this
      ensures items == []
    {
      items := [];
    }
  }
}

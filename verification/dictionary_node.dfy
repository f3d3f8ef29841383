/**
 * The dictionary node: a node that wraps a mutable dictionary from string
 * keys to child nodes. The entries are kept as a sequence without repeated
 * keys, in the order the codecs see them; the functions below say what each
 * operation makes of it, and the lemmas that it behaves as a map.
 */
module DictionaryNodes {
  import opened Wrappers
  import opened Nodes

  /** The value stored under `key`, if any. */
  function Lookup(entries: seq<Entry>, key: Text): (r: Option<Node>)
    ensures r.Some? <==> HasKey(entries, key)
  {
    if entries == [] then None
    else if entries[0].key == key then Some(entries[0].value)
    else
      var r := Lookup(entries[1..], key);
      assert HasKey(entries, key) <==> HasKey(entries[1..], key) by {
        if HasKey(entries[1..], key) {
          var i :| 0 <= i < |entries[1..]| && entries[1..][i].key == key;
          assert entries[i + 1].key == key;
        }
        if HasKey(entries, key) {
          var i :| 0 <= i < |entries| && entries[i].key == key;
          assert entries[1..][i - 1].key == key;
        }
      }
      r
  }

  /** `Remove(key)` on the entries: the entry for `key`, if any, is dropped. */
  function Without(entries: seq<Entry>, key: Text): (r: seq<Entry>)
  {
    if entries == [] then []
    else if entries[0].key == key then Without(entries[1..], key)
    else [entries[0]] + Without(entries[1..], key)
  }

  /** The indexer's setter on the entries: overwrites the value of `key` in place, or appends a new entry. */
  function Assigned(entries: seq<Entry>, key: Text, value: Node): (r: seq<Entry>)
  {
    if entries == [] then [Entry(key, value)]
    else if entries[0].key == key then [Entry(key, value)] + entries[1..]
    else [entries[0]] + Assigned(entries[1..], key, value)
  }

  /** Entries without repeated keys keep that property when the first is dropped. */
  lemma DistinctTail(entries: seq<Entry>)
    requires entries != [] && DistinctKeys(entries)
    ensures DistinctKeys(entries[1..]) && !HasKey(entries[1..], entries[0].key)
  {
  }

  /** Prepending an entry whose key is new keeps the keys distinct. */
  lemma DistinctCons(e: Entry, rest: seq<Entry>)
    requires DistinctKeys(rest) && !HasKey(rest, e.key)
    ensures DistinctKeys([e] + rest)
  {
    var s := [e] + rest;
    forall i, j | 0 <= i < j < |s|
      ensures s[i].key != s[j].key
    {
      if i == 0 {
        assert rest[j - 1].key == s[j].key;
      } else {
        assert s[i] == rest[i - 1] && s[j] == rest[j - 1];
      }
    }
  }

  /** Appending an entry whose key is new keeps the keys distinct. */
  lemma DistinctSnoc(entries: seq<Entry>, e: Entry)
    requires DistinctKeys(entries) && !HasKey(entries, e.key)
    ensures DistinctKeys(entries + [e])
  {
    var s := entries + [e];
    forall i, j | 0 <= i < j < |s|
      ensures s[i].key != s[j].key
    {
      if j == |entries| {
        assert entries[i].key == s[i].key;
      }
    }
  }

  /** After `Remove(key)` the key is absent, every other key keeps its value, and the keys stay distinct. */
  lemma {:induction false} LookupWithout(entries: seq<Entry>, key: Text, other: Text)
    requires DistinctKeys(entries)
    ensures DistinctKeys(Without(entries, key))
    ensures Lookup(Without(entries, key), other) == if other == key then None else Lookup(entries, other)
  {
    if entries != [] {
      DistinctTail(entries);
      LookupWithout(entries[1..], key, other);
      if entries[0].key != key {
        LookupWithout(entries[1..], key, entries[0].key);
        DistinctCons(entries[0], Without(entries[1..], key));
      }
    }
  }

  /** `Remove` takes one entry away exactly when the key was present. */
  lemma {:induction false} WithoutCount(entries: seq<Entry>, key: Text)
    requires DistinctKeys(entries)
    ensures |Without(entries, key)| == |entries| - (if HasKey(entries, key) then 1 else 0)
  {
    if entries != [] {
      DistinctTail(entries);
      WithoutCount(entries[1..], key);
      if entries[0].key == key {
        WithoutMissing(entries[1..], key);
      }
      assert Lookup(entries, key).Some? <==> entries[0].key == key || Lookup(entries[1..], key).Some?;
    }
  }

  /** Removing a key that is absent changes nothing. */
  lemma {:induction false} WithoutMissing(entries: seq<Entry>, key: Text)
    requires !HasKey(entries, key)
    ensures Without(entries, key) == entries
  {
    if entries != [] {
      assert Lookup(entries, key).None?;
      assert Lookup(entries[1..], key).None?;
      WithoutMissing(entries[1..], key);
    }
  }

  /** After the setter, `key` maps to `value`, every other key keeps its value, and the keys stay distinct. */
  lemma {:induction false} LookupAssigned(entries: seq<Entry>, key: Text, value: Node, other: Text)
    requires DistinctKeys(entries)
    ensures DistinctKeys(Assigned(entries, key, value))
    ensures Lookup(Assigned(entries, key, value), other) == if other == key then Some(value) else Lookup(entries, other)
  {
    if entries != [] {
      DistinctTail(entries);
      if entries[0].key == key {
        DistinctCons(Entry(key, value), entries[1..]);
      } else {
        LookupAssigned(entries[1..], key, value, other);
        LookupAssigned(entries[1..], key, value, entries[0].key);
        DistinctCons(entries[0], Assigned(entries[1..], key, value));
      }
    }
  }

  /** The setter adds one entry exactly when the key was absent. */
  lemma {:induction false} AssignedCount(entries: seq<Entry>, key: Text, value: Node)
    ensures |Assigned(entries, key, value)| == |entries| + (if HasKey(entries, key) then 0 else 1)
  {
    if entries != [] {
      AssignedCount(entries[1..], key, value);
      assert Lookup(entries, key).Some? <==> entries[0].key == key || Lookup(entries[1..], key).Some?;
    }
  }

  /** On a new key, `Add` and the setter agree: both append the entry. */
  lemma {:induction false} AssignedNewKey(entries: seq<Entry>, key: Text, value: Node)
    requires !HasKey(entries, key)
    ensures Assigned(entries, key, value) == entries + [Entry(key, value)]
  {
    if entries != [] {
      assert Lookup(entries, key).None?;
      assert Lookup(entries[1..], key).None?;
      AssignedNewKey(entries[1..], key, value);
    }
  }

  /** `DictionaryNode`: the dictionary `_dictionary`. */
  class DictionaryNode {
    var entries: seq<Entry>

    /** No key is held twice. */
    predicate Valid()
      reads this
    {
      DistinctKeys(entries)
    }

    /** A new, empty dictionary. */
    constructor ()
      ensures entries == [] && Valid()
    {
      entries := [];
    }

    /** The node this object stands for in the tree the codecs work on. */
    function Value(): (n: Node)
      reads this
      ensures n.Dict? && BinaryTag(n) == 0x0D && XmlTag(n) == "dict"
      ensures BinaryLength(n) == Count() && !IsBinaryUnique(n)
    {
      Dict(entries)
    }

    /** `Count`. */
    function Count(): nat
      reads this
    {
      |entries|
    }

    /** `ContainsKey(key)`. */
    function ContainsKey(key: Text): (b: bool)
      reads this
      ensures b <==> exists i :: 0 <= i < |entries| && entries[i].key == key
    {
      Lookup(entries, key).Some?
    }

    /** `Add(key, value)`: a key already present is an error and changes nothing. */
    method Add(key: Text, value: Node) returns (r: Result<()>)
      requires Valid()
      modifies this
      ensures Valid()
      ensures r.Ok? <==> !HasKey(old(entries), key)
      ensures r.Ok? ==> entries == old(entries) + [Entry(key, value)]
      ensures r.Err? ==> r.error == DuplicateKey && entries == old(entries)
    {
      if Lookup(entries, key).Some? {
        return Err(DuplicateKey);
      }
      DistinctSnoc(entries, Entry(key, value));
      entries := entries + [Entry(key, value)];
      return Ok(());
    }

    /** `Remove(key)`: true exactly when the key was present; afterwards it is absent. */
    method Remove(key: Text) returns (removed: bool)
      requires Valid()
      modifies this
      ensures Valid()
      ensures removed <==> HasKey(old(entries), key)
      ensures entries == Without(old(entries), key)
    {
      removed := Lookup(entries, key).Some?;
      LookupWithout(entries, key, key);
      entries := Without(entries, key);
    }

    /** `TryGetValue(key, out value)`. */
    method TryGetValue(key: Text) returns (found: bool, value: Option<Node>)
      ensures found <==> HasKey(entries, key)
      ensures found <==> value.Some?
      ensures found ==> exists i :: 0 <= i < |entries| && entries[i] == Entry(key, value.value)
      ensures !found ==> value == None
    {
      value := Lookup(entries, key);
      found := value.Some?;
      if found {
        LookupFinds(entries, key);
      }
    }

    /** The indexer's getter: a missing key is an error. */
    method Get(key: Text) returns (r: Result<Node>)
      ensures r.Ok? <==> HasKey(entries, key)
      ensures r.Ok? ==> exists i :: 0 <= i < |entries| && entries[i] == Entry(key, r.value)
      ensures r.Err? ==> r.error == KeyNotFound
    {
      var found := Lookup(entries, key);
      if found.None? {
        return Err(KeyNotFound);
      }
      LookupFinds(entries, key);
      return Ok(found.value);
    }

    /** The indexer's setter: inserts or overwrites that key only. */
    method Set(key: Text, value: Node)
      requires Valid()
      modifies this
      ensures Valid()
      ensures entries == Assigned(old(entries), key, value)
    {
      LookupAssigned(entries, key, value, key);
      entries := Assigned(entries, key, value);
    }

    /** `Clear()`. */
    method Clear()
      modifies this
      ensures entries == [] && Valid()
    {
      entries := [];
    }
  }

  /** A value `Lookup` finds is stored with its key. */
  lemma {:induction false} LookupFinds(entries: seq<Entry>, key: Text)
    requires Lookup(entries, key).Some?
    ensures exists i :: 0 <= i < |entries| && entries[i] == Entry(key, Lookup(entries, key).value)
  {
    if entries[0].key != key {
      LookupFinds(entries[1..], key);
      var i :| 0 <= i < |entries[1..]| && entries[1..][i] == Entry(key, Lookup(entries[1..], key).value);
      assert entries[i + 1] == entries[1..][i];
    } else {
      assert entries[0] == Entry(key, Lookup(entries, key).value);
    }
  }
}

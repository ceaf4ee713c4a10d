/** The `std::map` of the registry: nodes ordered by the text of their keys behave as a mathematical
    map keyed by bytes. */
module OrderedMap {
  import opened Bytes
  import opened Hex

  type Entry = (seq<byte>, int)

  /** The nodes, in order. */
  ghost predicate Ordered(entries: seq<Entry>) {
    forall i, j | 0 <= i < j < |entries| :: Less(entries[i].0, entries[j].0)
  }

  function AsMap(entries: seq<Entry>): map<seq<byte>, int> {
    if entries == [] then map[]
    else
      var last := |entries| - 1;
      AsMap(entries[..last])[entries[last].0 := entries[last].1]
  }

  ghost predicate Distinct(entries: seq<Entry>) {
    forall i, j | 0 <= i < j < |entries| :: entries[i].0 != entries[j].0
  }

  lemma OrderedDistinct(entries: seq<Entry>)
    requires Ordered(entries)
    ensures Distinct(entries)
  {
    forall i, j | 0 <= i < j < |entries|
      ensures entries[i].0 != entries[j].0
    {
      LessTotal(entries[i].0, entries[j].0);
    }
  }

  ghost predicate At(entries: seq<Entry>, key: seq<byte>, i: int) {
    0 <= i < |entries| && entries[i].0 == key
  }

  /** `m` holds exactly the nodes. */
  ghost predicate Holds(entries: seq<Entry>, m: map<seq<byte>, int>) {
    && (forall key | key in m :: exists i :: At(entries, key, i))
    && (forall i | 0 <= i < |entries| :: entries[i].0 in m && m[entries[i].0] == entries[i].1)
  }

  lemma {:induction false} AsMapHolds(entries: seq<Entry>)
    requires Distinct(entries)
    ensures Holds(entries, AsMap(entries))
  {
    if entries != [] {
      var n := |entries| - 1;
      AsMapHolds(entries[..n]);
      forall key | key in AsMap(entries)
        ensures exists i :: At(entries, key, i)
      {
        if key == entries[n].0 {
          assert At(entries, key, n);
        } else {
          var i :| At(entries[..n], key, i);
          assert At(entries, key, i);
        }
      }
      forall i | 0 <= i < |entries|
        ensures entries[i].0 in AsMap(entries) && AsMap(entries)[entries[i].0] == entries[i].1
      {
        assert i < n ==> entries[..n][i] == entries[i];
      }
    }
  }

  lemma OnlyOneHolds(entries: seq<Entry>, m: map<seq<byte>, int>)
    requires Distinct(entries) && Holds(entries, m)
    ensures AsMap(entries) == m
  {
    AsMapHolds(entries);
    forall key | key in m || key in AsMap(entries)
      ensures key in m && key in AsMap(entries) && m[key] == AsMap(entries)[key]
    {
      var i :| At(entries, key, i);
    }
  }

  // ----- Lookup ------------------------------------------------------------------------------

  /** `find` arrives at node `i`, which is equivalent to the key. */
  ghost predicate FoundAt(entries: seq<Entry>, key: seq<byte>, i: int) {
    0 <= i < |entries| && !Less(entries[i].0, key) && !Less(key, entries[i].0)
  }

  /** Looking up by order is looking up by bytes. */
  lemma LookupIsMap(entries: seq<Entry>, key: seq<byte>)
    requires Ordered(entries)
    ensures key in AsMap(entries) <==> exists i :: FoundAt(entries, key, i)
    ensures forall i | FoundAt(entries, key, i) :: key in AsMap(entries) && AsMap(entries)[key] == entries[i].1
  {
    OrderedDistinct(entries);
    AsMapHolds(entries);
    forall i | 0 <= i < |entries|
      ensures FoundAt(entries, key, i) <==> entries[i].0 == key
    {
      LessTotal(entries[i].0, key);
    }
    if key in AsMap(entries) {
      var i :| At(entries, key, i);
      assert FoundAt(entries, key, i);
    }
  }

  // ----- Insertion and erasure ---------------------------------------------------------------

  /** How many nodes come before a key: where `operator[]` looks for it and puts it. */
  function Position(entries: seq<Entry>, key: seq<byte>): (p: nat)
    ensures p <= |entries|
  {
    if entries == [] || !Less(entries[0].0, key) then 0 else 1 + Position(entries[1..], key)
  }

  lemma {:induction false} PositionSplits(entries: seq<Entry>, key: seq<byte>)
    requires Ordered(entries)
    ensures forall i | 0 <= i < Position(entries, key) :: Less(entries[i].0, key)
    ensures forall i | Position(entries, key) <= i < |entries| :: !Less(entries[i].0, key)
  {
    if entries != [] {
      if Less(entries[0].0, key) {
        PositionSplits(entries[1..], key);
        forall i | Position(entries, key) <= i < |entries|
          ensures !Less(entries[i].0, key)
        {
          assert entries[i] == entries[1..][i - 1];
        }
      } else {
        forall i | 0 < i < |entries|
          ensures !Less(entries[i].0, key)
        {
          if Less(entries[i].0, key) {
            LessTransitive(entries[0].0, entries[i].0, key);
          }
        }
      }
    }
  }

  /** `registry[key] = value`. */
  function Assigned(entries: seq<Entry>, key: seq<byte>, value: int): seq<Entry> {
    var p := Position(entries, key);
    if p < |entries| && !Less(key, entries[p].0) then entries[p := (entries[p].0, value)]
    else entries[..p] + [(key, value)] + entries[p..]
  }

  /** A key without a node comes before all nodes from its position on. */
  lemma Behind(entries: seq<Entry>, key: seq<byte>, p: nat)
    requires Ordered(entries) && p <= |entries| && (p < |entries| ==> Less(key, entries[p].0))
    ensures forall i | p <= i < |entries| :: Less(key, entries[i].0)
  {
    forall i | p < i < |entries|
      ensures Less(key, entries[i].0)
    {
      LessTransitive(key, entries[p].0, entries[i].0);
    }
  }

  lemma AssignedOrdered(entries: seq<Entry>, key: seq<byte>, value: int)
    requires Ordered(entries)
    ensures Ordered(Assigned(entries, key, value))
  {
    var p := Position(entries, key);
    PositionSplits(entries, key);
    if p == |entries| || Less(key, entries[p].0) {
      Behind(entries, key, p);
    }
  }

  lemma InsertHolds(entries: seq<Entry>, p: nat, key: seq<byte>, value: int, m: map<seq<byte>, int>)
    requires p <= |entries| && Holds(entries, m) && key !in m
    ensures Holds(entries[..p] + [(key, value)] + entries[p..], m[key := value])
  {
    var after := entries[..p] + [(key, value)] + entries[p..];
    var m' := m[key := value];
    assert after[p] == (key, value);
    forall k | k in m'
      ensures exists i :: At(after, k, i)
    {
      if k == key {
        assert At(after, k, p);
      } else {
        var i :| At(entries, k, i);
        assert At(after, k, if p <= i then i + 1 else i);
      }
    }
    forall i | 0 <= i < |after| && i != p
      ensures after[i].0 in m && m[after[i].0] == after[i].1
    {
      assert after[i] == entries[if p < i then i - 1 else i];
    }
  }

  lemma ReplaceHolds(entries: seq<Entry>, p: nat, value: int, m: map<seq<byte>, int>)
    requires p < |entries| && Distinct(entries) && Holds(entries, m)
    ensures Holds(entries[p := (entries[p].0, value)], m[entries[p].0 := value])
  {
    var after, m' := entries[p := (entries[p].0, value)], m[entries[p].0 := value];
    forall k | k in m'
      ensures exists i :: At(after, k, i)
    {
      var i :| At(entries, k, i);
      assert At(after, k, i);
    }
  }

  /** Assignment keeps the order and is map update. */
  lemma AssignIsUpdate(entries: seq<Entry>, key: seq<byte>, value: int)
    requires Ordered(entries)
    ensures Ordered(Assigned(entries, key, value))
    ensures AsMap(Assigned(entries, key, value)) == AsMap(entries)[key := value]
  {
    var p, after := Position(entries, key), Assigned(entries, key, value);
    AssignedOrdered(entries, key, value);
    OrderedDistinct(after);
    OrderedDistinct(entries);
    AsMapHolds(entries);
    PositionSplits(entries, key);
    if p < |entries| && !Less(key, entries[p].0) {
      LessTotal(key, entries[p].0);
      ReplaceHolds(entries, p, value, AsMap(entries));
    } else {
      Behind(entries, key, p);
      NewKey(entries, p, key, AsMap(entries));
      InsertHolds(entries, p, key, value, AsMap(entries));
    }
    OnlyOneHolds(after, AsMap(entries)[key := value]);
  }

  lemma NewKey(entries: seq<Entry>, p: nat, key: seq<byte>, m: map<seq<byte>, int>)
    requires Holds(entries, m)
    requires forall i | 0 <= i < p && i < |entries| :: Less(entries[i].0, key)
    requires forall i | p <= i < |entries| :: Less(key, entries[i].0)
    ensures key !in m
  {
    LessTotal(key, key);
  }

  /** `registry.erase(i)`. */
  function Erased(entries: seq<Entry>, i: nat): seq<Entry>
    requires i < |entries|
  {
    entries[..i] + entries[i + 1..]
  }

  lemma ErasedOrdered(entries: seq<Entry>, i: nat)
    requires Ordered(entries) && i < |entries|
    ensures Ordered(Erased(entries, i))
  {
  }

  lemma EraseHolds(entries: seq<Entry>, i: nat, m: map<seq<byte>, int>)
    requires i < |entries| && Distinct(entries) && Holds(entries, m)
    ensures Holds(Erased(entries, i), m - {entries[i].0})
  {
    var after := Erased(entries, i);
    forall k | k in m - {entries[i].0}
      ensures exists j :: At(after, k, j)
    {
      var j :| At(entries, k, j);
      assert At(after, k, if j < i then j else j - 1);
    }
    forall j | 0 <= j < |after|
      ensures after[j].0 in m - {entries[i].0} && m[after[j].0] == after[j].1
    {
      assert after[j] == entries[if j < i then j else j + 1];
    }
  }

  /** Erasing a node keeps the order and removes exactly its key. */
  lemma EraseIsRemoval(entries: seq<Entry>, i: nat)
    requires Ordered(entries) && i < |entries|
    ensures Ordered(Erased(entries, i))
    ensures AsMap(Erased(entries, i)) == AsMap(entries) - {entries[i].0}
  {
    ErasedOrdered(entries, i);
    OrderedDistinct(entries);
    OrderedDistinct(Erased(entries, i));
    AsMapHolds(entries);
    EraseHolds(entries, i, AsMap(entries));
    OnlyOneHolds(Erased(entries, i), AsMap(entries) - {entries[i].0});
  }
}

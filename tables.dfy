/** The in-memory table both record stores keep in place of a MongoDB
    collection: records in insertion order, each with its own id, and the id
    the next insert receives. */
module Tables {
  import opened Types

  /** Every record has an id, below `nextId`, and no two records share one. */
  predicate Keyed<T>(s: seq<T>, key: T -> Option<Id>, nextId: Id)
  {
    && (forall i :: 0 <= i < |s| ==> key(s[i]).Some? && key(s[i]).value < nextId)
    && (forall i, j :: 0 <= i < j < |s| ==> key(s[i]) != key(s[j]))
  }

  /** The position of the first record with the id `id`, the one `updateOne`
      and `deleteOne` act on. */
  function IndexOfId<T>(s: seq<T>, key: T -> Option<Id>, id: Id): (r: Option<nat>)
    ensures r.Some? ==> r.value < |s| && key(s[r.value]) == Some(id)
    ensures r.Some? ==> forall i :: 0 <= i < r.value ==> key(s[i]) != Some(id)
    ensures r.None? <==> forall i :: 0 <= i < |s| ==> key(s[i]) != Some(id)
  {
    if s == [] then None
    else if key(s[0]) == Some(id) then Some(0)
    else match IndexOfId(s[1..], key, id)
      case None => None
      case Some(k) =>
        assert s[k + 1] == s[1..][k];
        Some(k + 1)
  }

  /** The table without the record at `i`, the others in their order. */
  function RemoveAt<T>(s: seq<T>, i: nat): (r: seq<T>)
    requires i < |s|
    ensures |r| == |s| - 1
    ensures forall k :: 0 <= k < i ==> r[k] == s[k]
    ensures forall k :: i <= k < |r| ==> r[k] == s[k + 1]
  {
    s[..i] + s[i + 1..]
  }

  /** In a keyed table an id names exactly one record. */
  lemma KeyedIndex<T>(s: seq<T>, key: T -> Option<Id>, nextId: Id, i: nat)
    requires Keyed(s, key, nextId) && i < |s|
    ensures IndexOfId(s, key, key(s[i]).value) == Some(i)
  {
  }

  /** A record appended with the next id keeps the table keyed, one id further on. */
  lemma KeyedAppend<T>(s: seq<T>, key: T -> Option<Id>, nextId: Id, x: T)
    requires Keyed(s, key, nextId) && key(x) == Some(nextId)
    ensures Keyed(s + [x], key, nextId + 1)
  {
    var t := s + [x];
    forall i, j | 0 <= i < j < |t|
      ensures key(t[i]) != key(t[j])
    {
      if j == |s| {
        assert key(t[i]).value < nextId;
      }
    }
  }

  /** A record replaced by one with the same id keeps the table keyed. */
  lemma KeyedReplace<T>(s: seq<T>, key: T -> Option<Id>, nextId: Id, i: nat, x: T)
    requires Keyed(s, key, nextId) && i < |s| && key(x) == key(s[i])
    ensures Keyed(s[i := x], key, nextId)
  {
    var t := s[i := x];
    assert forall k :: 0 <= k < |t| ==> key(t[k]) == key(s[k]);
  }

  /** Removing a record keeps the table keyed, and leaves no record with its id. */
  lemma KeyedRemove<T>(s: seq<T>, key: T -> Option<Id>, nextId: Id, i: nat)
    requires Keyed(s, key, nextId) && i < |s|
    ensures Keyed(RemoveAt(s, i), key, nextId)
    ensures forall k :: 0 <= k < |s| - 1 ==> key(RemoveAt(s, i)[k]) != key(s[i])
  {
    var r := RemoveAt(s, i);
    forall a, b | 0 <= a < b < |r|
      ensures key(r[a]) != key(r[b])
    {
      var a', b' := if a < i then a else a + 1, if b < i then b else b + 1;
      assert r[a] == s[a'] && r[b] == s[b'] && a' < b';
    }
    forall k | 0 <= k < |r|
      ensures key(r[k]) != key(s[i])
    {
      var k' := if k < i then k else k + 1;
      assert r[k] == s[k'] && k' != i;
    }
  }
}

/**
 The recency index: a list of entries, most recently used first, and a map from keys to the same
 entries. A list element is modelled by the entry it holds. The eviction callback is the last thing
 the program does when it removes an entry, so the removing methods return the entry and leave the
 callback to the caller.
 */
module KvLru {
  import opened Bytes

  type Key = seq<byte>

  datatype Entry<V> = Entry(key: Key, value: V)

  ghost predicate Distinct<V>(es: seq<Entry<V>>)
  {
    forall i, j :: 0 <= i < j < |es| ==> es[i].key != es[j].key
  }

  ghost function KeySet<V>(es: seq<Entry<V>>): set<Key> { set e | e in es :: e.key }

  predicate Has<V>(es: seq<Entry<V>>, k: Key)
  {
    exists i :: 0 <= i < |es| && es[i].key == k
  }

  /** The list without its first entry for `k`. */
  function Without<V>(es: seq<Entry<V>>, k: Key): (r: seq<Entry<V>>)
  {
    if es == [] then [] else if es[0].key == k then es[1..] else [es[0]] + Without(es[1..], k)
  }

  /** Removing a key from a list of distinct keys is cutting one position out. */
  lemma {:induction false} WithoutAt<V>(es: seq<Entry<V>>, i: nat)
    requires i < |es| && Distinct(es)
    ensures Without(es, es[i].key) == es[..i] + es[i + 1..]
  {
    if i > 0 {
      WithoutAt(es[1..], i - 1);
      CutFront(es, i);
    }
  }

  lemma CutFront<V>(es: seq<Entry<V>>, i: nat)
    requires 0 < i < |es|
    ensures [es[0]] + (es[1..][..i - 1] + es[1..][i..]) == es[..i] + es[i + 1..]
  {
  }

  /** What is left, position by position. */
  lemma WithoutIndex<V>(es: seq<Entry<V>>, i: nat)
    requires i < |es| && Distinct(es)
    ensures |Without(es, es[i].key)| == |es| - 1
    ensures forall j :: 0 <= j < |es| - 1 ==> Without(es, es[i].key)[j] == es[if j < i then j else j + 1]
  {
    WithoutAt(es, i);
  }

  lemma DistinctPush<V>(e: Entry<V>, es: seq<Entry<V>>)
    requires Distinct(es) && !Has(es, e.key)
    ensures Distinct([e] + es)
  {
  }

  lemma {:induction false} WithoutMiss<V>(es: seq<Entry<V>>, k: Key)
    requires !Has(es, k)
    ensures Without(es, k) == es
  {
    if es != [] {
      assert es[0].key != k;
      forall i | 0 <= i < |es[1..]| ensures es[1..][i].key != k { assert es[1..][i] == es[i + 1]; }
      WithoutMiss(es[1..], k);
    }
  }

  /** Where `k` is, in a list that has it. */
  function IndexOf<V>(es: seq<Entry<V>>, k: Key): (i: nat)
    requires Has(es, k)
    ensures i < |es| && es[i].key == k
  {
    if es[0].key == k then 0 else
      assert Has(es[1..], k) by {
        var i :| 0 <= i < |es| && es[i].key == k;
        assert es[1..][i - 1] == es[i];
      }
      1 + IndexOf(es[1..], k)
  }

  /** A list of distinct keys with one key cut out keeps the others, and no longer has that key. */
  lemma WithoutKeeps<V(!new)>(es: seq<Entry<V>>, k: Key)
    requires Distinct(es)
    ensures Distinct(Without(es, k)) && !Has(Without(es, k), k)
    ensures forall e :: e in Without(es, k) <==> e in es && e.key != k
    ensures |Without(es, k)| == if Has(es, k) then |es| - 1 else |es|
  {
    hide Without, IndexOf;
    if Has(es, k) {
      var i := IndexOf(es, k);
      WithoutIndex(es, i);
      forall e ensures e in Without(es, k) <==> e in es && e.key != k {
        CutKeeps(es, i, Without(es, k), e);
      }
    } else {
      WithoutMiss(es, k);
    }
  }

  lemma CutKeeps<V>(es: seq<Entry<V>>, i: nat, r: seq<Entry<V>>, e: Entry<V>)
    requires Distinct(es) && i < |es| && |r| == |es| - 1
    requires forall j :: 0 <= j < |es| - 1 ==> r[j] == es[if j < i then j else j + 1]
    ensures e in r <==> e in es && e.key != es[i].key
  {
    if e in es && e.key != es[i].key {
      var j :| 0 <= j < |es| && es[j] == e;
      assert r[if j < i then j else j - 1] == e;
    }
  }

  lemma BehindFront<V(!new)>(es: seq<Entry<V>>)
    requires Distinct(es) && es != []
    ensures Distinct(es[1..]) && forall e :: e in es[1..] <==> e in es && e.key != es[0].key
  {
    forall e | e in es && e.key != es[0].key ensures e in es[1..] {
      var i :| 0 <= i < |es| && es[i] == e;
      assert es[1..][i - 1] == e;
    }
  }

  /** `r` are the last entries of `es`, the last one first. */
  predicate FromBack<V(==)>(r: seq<Entry<V>>, es: seq<Entry<V>>)
  {
    |r| <= |es| && forall j :: 0 <= j < |r| ==> r[j] == es[|es| - 1 - j]
  }

  lemma FromBackNone<V>(es: seq<Entry<V>>)
    ensures FromBack([], es)
  {
  }

  lemma FromBackMore<V>(r: seq<Entry<V>>, es: seq<Entry<V>>)
    requires FromBack(r, es) && |r| < |es|
    ensures FromBack(r + [es[|es| - 1 - |r|]], es)
  {
  }

  class Lru<V(!new)> {
    var size: nat
    var evictList: seq<Entry<V>>
    var items: map<Key, Entry<V>>

    /** Map and list are in step. */
    ghost predicate Valid()
      reads this
    {
      && Distinct(evictList)
      && (forall e :: e in evictList ==> e.key in items && items[e.key] == e)
      && (forall k :: k in items ==> items[k].key == k && items[k] in evictList)
    }

    constructor (size: nat)
      ensures Valid() && evictList == [] && this.size == size
    {
      this.size := size;
      evictList, items := [], map[];
    }

    method Get(key: Key) returns (value: Option<V>)
      requires Valid()
      modifies this
      ensures Valid() && size == old(size)
      ensures value.Some? <==> Has(old(evictList), key)
      ensures value.None? ==> evictList == old(evictList)
      ensures value.Some? ==> Entry(key, value.value) in old(evictList)
      ensures value.Some? ==> evictList == [Entry(key, value.value)] + Without(old(evictList), key)
    {
      if key in items {
        var ent := items[key];
        MoveToFront(ent);
        value := Some(ent.value);
      } else {
        value := None;
      }
    }

    method MoveToFront(ent: Entry<V>)
      requires Valid() && ent.key in items && items[ent.key] == ent
      modifies this
      ensures Valid() && size == old(size) && items == old(items)
      ensures evictList == [ent] + Without(old(evictList), ent.key)
      ensures ent in old(evictList)
    {
      WithoutKeeps(evictList, ent.key);
      evictList := [ent] + Without(evictList, ent.key);
    }

    /** Adds or replaces; a new entry beyond the size pushes the oldest one out. */
    method Add(key: Key, value: V) returns (evicted: Option<Entry<V>>)
      requires Valid()
      modifies this
      ensures Valid() && size == old(size)
      ensures var all := [Entry(key, value)] + Without(old(evictList), key);
              if Has(old(evictList), key) || |all| <= size
              then evicted == None && evictList == all
              else evicted == Some(all[|all| - 1]) && evictList == all[..|all| - 1]
    {
      if key in items {
        MoveToFront(items[key]);
        SetFront(key, value);
        return None;
      }
      WithoutMiss(evictList, key);
      PushFront(key, value);
      evicted := None;
      if |evictList| > size {
        evicted := RemoveOldest();
      }
    }

    /** `ent.Value.value = value`, seen through both the list and the map. */
    method SetFront(key: Key, value: V)
      requires Valid() && evictList != [] && evictList[0].key == key
      modifies this
      ensures Valid() && size == old(size) && evictList == [Entry(key, value)] + old(evictList)[1..]
    {
      BehindFront(evictList);
      evictList := [Entry(key, value)] + evictList[1..];
      items := items[key := Entry(key, value)];
    }

    method PushFront(key: Key, value: V)
      requires Valid() && key !in items
      modifies this
      ensures Valid() && size == old(size) && evictList == [Entry(key, value)] + old(evictList)
    {
      evictList := [Entry(key, value)] + evictList;
      items := items[key := Entry(key, value)];
    }

    method Remove(key: Key) returns (removed: Option<Entry<V>>)
      requires Valid()
      modifies this
      ensures Valid() && size == old(size)
      ensures evictList == Without(old(evictList), key)
      ensures removed.Some? <==> Has(old(evictList), key)
      ensures removed.Some? ==> removed.value.key == key && removed.value in old(evictList)
    {
      if key in items {
        removed := Some(items[key]);
        RemoveElement(items[key]);
      } else {
        WithoutMiss(evictList, key);
        removed := None;
      }
    }

    method RemoveOldest() returns (removed: Option<Entry<V>>)
      requires Valid()
      modifies this
      ensures Valid() && size == old(size)
      ensures if old(evictList) == [] then removed == None && evictList == []
              else removed == Some(old(evictList)[|old(evictList)| - 1])
                   && evictList == old(evictList)[..|old(evictList)| - 1]
    {
      if evictList == [] { return None; }
      var ent := evictList[|evictList| - 1];
      WithoutAt(evictList, |evictList| - 1);
      RemoveElement(ent);
      removed := Some(ent);
    }

    method RemoveElement(ent: Entry<V>)
      requires Valid() && ent in evictList
      modifies this
      ensures Valid() && size == old(size)
      ensures evictList == Without(old(evictList), ent.key)
    {
      WithoutKeeps(evictList, ent.key);
      evictList := Without(evictList, ent.key);
      items := map k | k in items && k != ent.key :: items[k];
    }

    /** Changes the size; entries beyond it leave, oldest first. */
    method Resize(size: nat) returns (removed: seq<Entry<V>>)
      requires Valid()
      modifies this
      ensures Valid() && this.size == size
      ensures |old(evictList)| <= size ==> evictList == old(evictList) && removed == []
      ensures |old(evictList)| > size ==> evictList == old(evictList)[..size] && |removed| == |old(evictList)| - size
      ensures FromBack(removed, old(evictList))
    {
      hide FromBack, Distinct;
      removed := [];
      FromBackNone(evictList);
      var diff := if |evictList| < size then 0 else |evictList| - size;
      ghost var all := evictList;
      for i := 0 to diff
        invariant Valid() && |all| - i >= 0 && evictList == all[..|all| - i]
        invariant |removed| == i && FromBack(removed, all)
      {
        FromBackMore(removed, all);
        var e := RemoveOldest();
        removed := removed + [e.value];
      }
      this.size := size;
    }

    /** The keys from oldest to newest. */
    method Keys() returns (keys: seq<Key>)
      requires Valid()
      ensures |keys| == |evictList|
      ensures forall i :: 0 <= i < |keys| ==> keys[i] == evictList[|evictList| - 1 - i].key
    {
      keys := [];
      for i := 0 to |evictList|
        invariant |keys| == i
        invariant forall j :: 0 <= j < i ==> keys[j] == evictList[|evictList| - 1 - j].key
      {
        keys := keys + [evictList[|evictList| - 1 - i].key];
      }
    }
  }
}

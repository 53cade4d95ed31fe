/** The least-recently-used cache: a map into a list of shared elements. */
module Lru {
  import opened Words
  import opened Recency

  /** A cell of the list; the map and the list refer to the same object. */
  class Element<K, V> {
    var key: K
    var value: V

    constructor (key: K, value: V)
      ensures this.key == key && this.value == value
    {
      this.key := key;
      this.value := value;
    }
  }

  /** The map holds exactly the cells of the list, each under its own key. */
  ghost predicate Linked<K, V>(items: map<K, Element<K, V>>, list: seq<Element<K, V>>)
    reads list
  {
    && |items| == |list|
    && (forall i, j :: 0 <= i < j < |list| ==> list[i].key != list[j].key)
    && (forall i :: 0 <= i < |list| ==> list[i].key in items && items[list[i].key] == list[i])
  }

  /** The recency order a list of cells stands for. */
  ghost function Entries<K, V>(list: seq<Element<K, V>>): (r: seq<Entry<K, V>>)
    reads list
    ensures |r| == |list|
    ensures forall i :: 0 <= i < |list| ==> r[i] == Entry(list[i].key, list[i].value)
  {
    seq(|list|, i requires 0 <= i < |list| reads list => Entry(list[i].key, list[i].value))
  }

  function ToFront<T>(s: seq<T>, i: nat): seq<T>
    requires i < |s|
  {
    [s[i]] + (s[..i] + s[i + 1..])
  }

  /** As many different elements of a set as it has are all of them. */
  lemma {:induction false} AllOfThem<K>(ks: seq<K>, s: set<K>, k: K)
    requires (forall i, j :: 0 <= i < j < |ks| ==> ks[i] != ks[j]) && (forall i :: 0 <= i < |ks| ==> ks[i] in s)
    requires |ks| == |s| && k in s
    ensures k in ks
  {
    if ks[0] != k {
      AllOfThem(ks[1..], s - {ks[0]}, k);
    }
  }

  /** No cell of the map is missing from the list: both have the same size. */
  lemma Position<K, V>(items: map<K, Element<K, V>>, list: seq<Element<K, V>>, k: K) returns (i: nat)
    requires Linked(items, list) && k in items
    ensures i < |list| && list[i] == items[k] && list[i].key == k
  {
    var ks := Keys(Entries(list));
    assert |items.Keys| == |items|;
    AllOfThem(ks, items.Keys, k);
    i :| 0 <= i < |ks| && ks[i] == k;
  }

  /** The map answers exactly as a search of the list does. */
  lemma LookupIsItems<K, V>(items: map<K, Element<K, V>>, list: seq<Element<K, V>>, k: K)
    requires Linked(items, list)
    ensures k in items <==> Lookup(Entries(list), k).Some?
    ensures k in items ==> items[k] in list && items[k].key == k && Lookup(Entries(list), k) == Some(items[k].value)
  {
    LookupFinds(Entries(list), k);
    if k in items {
      var i := Position(items, list, k);
      LookupAt(Entries(list), i);
    }
  }

  lemma LinkedRemove<K, V>(items: map<K, Element<K, V>>, list: seq<Element<K, V>>, i: nat, rest: seq<Element<K, V>>)
    requires Linked(items, list) && i < |list| && rest == list[..i] + list[i + 1..]
    ensures Linked(items - {list[i].key}, rest)
    ensures Entries(rest) == Minus(Entries(list), {list[i].key})
  {
    RemovedSize(items, list[i].key);
    assert forall a :: 0 <= a < |rest| ==> rest[a] == list[if a < i then a else a + 1];
    MinusOne(Entries(list), i);
    var e := Entries(list);
    assert Entries(rest) == e[..i] + e[i + 1..];
  }

  lemma LinkedPush<K, V>(items: map<K, Element<K, V>>, list: seq<Element<K, V>>, elem: Element<K, V>)
    requires Linked(items, list) && elem.key !in items
    ensures Linked(items[elem.key := elem], [elem] + list)
    ensures Entries([elem] + list) == [Entry(elem.key, elem.value)] + Entries(list)
  {
    var more := items[elem.key := elem];
    assert more - {elem.key} == items;
    RemovedSize(more, elem.key);
  }

  /** Moving to the front is removing and pushing again. */
  lemma LinkedToFront<K, V>(items: map<K, Element<K, V>>, list: seq<Element<K, V>>, i: nat)
    requires Linked(items, list) && i < |list|
    ensures Linked(items, ToFront(list, i))
    ensures Entries(ToFront(list, i)) == [Entries(list)[i]] + Minus(Entries(list), {list[i].key})
  {
    var elem, rest := list[i], list[..i] + list[i + 1..];
    LinkedRemove(items, list, i, rest);
    LinkedPush(items - {elem.key}, rest, elem);
    assert (items - {elem.key})[elem.key := elem] == items;
    assert ToFront(list, i) == [elem] + rest;
  }

  /** The keys that an invalidation by `pred` has to remove. */
  lemma Matching<K, V>(items: map<K, Element<K, V>>, list: seq<Element<K, V>>, pred: K -> bool) returns (keys: set<K>)
    requires Linked(items, list)
    ensures forall k :: k in keys <==> k in items && pred(k)
    ensures RemoveIf(Entries(list), pred) == Minus(Entries(list), keys)
  {
    keys := set k | k in items && pred(k);
    RemoveIfIsMinus(Entries(list), pred, keys);
  }

  class LRU<K(==), V> {
    const capacity: int
    var items: map<K, Element<K, V>>
    var list: seq<Element<K, V>>
    var hits: nat
    var misses: nat
    var evictions: nat

    ghost predicate Valid()
      reads this, list
    {
      1 <= capacity && |list| <= capacity && Linked(items, list)
    }

    ghost function Contents(): (r: seq<Entry<K, V>>)
      reads this, list
    {
      Entries(list)
    }

    /** The cells of the list, which the cache has to itself. */
    ghost function Cells(): set<Element<K, V>>
      reads this
    {
      set x | x in list
    }

    constructor (capacity: int)
      ensures Valid() && Contents() == [] && Cells() == {}
      ensures this.capacity == if capacity <= 0 then 1 else capacity
      ensures hits == misses == evictions == 0
    {
      this.capacity := if capacity <= 0 then 1 else capacity;
      items := map[];
      list := [];
      hits, misses, evictions := 0, 0, 0;
    }

    /** The cell becomes the first of the list; the others keep their order. */
    method MoveToFront(elem: Element<K, V>)
      requires Valid() && elem in list
      modifies this`list
      ensures Valid() && Cells() <= old(Cells())
      ensures Contents() == [Entry(elem.key, elem.value)] + Minus(old(Contents()), {elem.key})
    {
      var i :| 0 <= i < |list| && list[i] == elem;
      LinkedToFront(items, list, i);
      list := ToFront(list, i);
    }

    /** Takes the cell out of the list and its key out of the map. */
    method Unlink(elem: Element<K, V>)
      requires Valid() && elem in list
      modifies this`list, this`items
      ensures Valid() && Cells() <= old(Cells())
      ensures items == old(items) - {elem.key} && |list| == |old(list)| - 1
      ensures Contents() == Minus(old(Contents()), {elem.key})
    {
      var i :| 0 <= i < |list| && list[i] == elem;
      var rest := list[..i] + list[i + 1..];
      LinkedRemove(items, list, i, rest);
      items := items - {elem.key};
      list := rest;
    }

    method Get(key: K) returns (value: Option<V>)
      requires Valid()
      modifies this`list, this`hits, this`misses
      ensures Valid() && Cells() <= old(Cells())
      ensures value == Lookup(old(Contents()), key)
      ensures Contents() == Hit(old(Contents()), key)
      ensures !Held(old(Contents()), key) ==> value.None? && Contents() == old(Contents())
      ensures Held(old(Contents()), key) ==>
                value.Some? && Entry(key, value.value) in old(Contents()) && MovedToFront(old(Contents()), Contents(), key, value.value)
      ensures hits == old(hits) + (if value.Some? then 1 else 0)
      ensures misses == old(misses) + (if value.Some? then 0 else 1)
    {
      HitMeans(Contents(), key);
      LookupIsItems(items, list, key);
      if key in items {
        MoveToFront(items[key]);
        hits := hits + 1;
        return Some(items[key].value);
      }
      misses := misses + 1;
      return None;
    }

    method Put(key: K, value: V)
      requires Valid()
      modifies this`list, this`items, this`evictions, Cells()
      ensures Valid() && fresh(Cells() - old(Cells()))
      ensures Contents() == Recency.Put(capacity, old(Contents()), key, value)
      ensures Held(old(Contents()), key) ==> MovedToFront(old(Contents()), Contents(), key, value)
      ensures !Held(old(Contents()), key) && |old(Contents())| < capacity ==> Contents() == [Entry(key, value)] + old(Contents())
      ensures !Held(old(Contents()), key) && |old(Contents())| >= capacity ==>
                Contents() == [Entry(key, value)] + old(Contents())[..|old(Contents())| - 1]
      ensures evictions == old(evictions) +
              (if Lookup(old(Contents()), key).None? && |old(Contents())| >= capacity then 1 else 0)
    {
      PutMeans(capacity, Contents(), key, value);
      LookupIsItems(items, list, key);
      if key in items {
        ghost var i := Overwrite(items[key], value);
        MinusOverwritten(old(Contents()), i, value);
        MoveToFront(items[key]);
        return;
      }
      if |list| >= capacity {
        EvictBack();
      }
      PushFront(key, value);
    }

    /** A new cell at the front, for a key that has none. */
    method PushFront(key: K, value: V)
      requires Valid() && key !in items && |list| < capacity
      modifies this`list, this`items
      ensures Valid() && fresh(Cells() - old(Cells()))
      ensures Contents() == [Entry(key, value)] + old(Contents())
    {
      var elem := new Element(key, value);
      LinkedPush(items, list, elem);
      list := [elem] + list;
      items := items[key := elem];
    }

    /** Gives a cell a new value under its old key. */
    method Overwrite(elem: Element<K, V>, value: V) returns (ghost i: nat)
      requires Valid() && elem in list
      modifies elem
      ensures Valid() && elem.key == old(elem.key)
      ensures i < |list| && list[i] == elem
      ensures Contents() == old(Contents())[i := Entry(elem.key, value)]
    {
      i :| 0 <= i < |list| && list[i] == elem;
      elem.value := value;
    }

    method EvictBack()
      requires Valid() && list != []
      modifies this`list, this`items, this`evictions
      ensures Valid() && |list| == |old(list)| - 1 && Cells() <= old(Cells())
      ensures items.Keys <= old(items).Keys
      ensures Contents() == old(Contents())[..|old(list)| - 1]
      ensures evictions == old(evictions) + 1
    {
      var last := list[|list| - 1];
      MinusOne(Contents(), |list| - 1);
      Unlink(last);
      evictions := evictions + 1;
    }

    method Invalidate(key: K)
      requires Valid()
      modifies this`list, this`items
      ensures Valid() && Cells() <= old(Cells())
      ensures items == old(items) - {key}
      ensures |list| == |old(list)| - (if key in old(items) then 1 else 0)
      ensures Contents() == Minus(old(Contents()), {key})
    {
      LookupIsItems(items, list, key);
      if key in items {
        Unlink(items[key]);
      } else {
        LookupFinds(Contents(), key);
        MinusAbsent(Contents(), {key});
      }
    }

    /** The map is walked in an arbitrary order; the outcome does not depend on it. */
    method InvalidateIf(pred: K -> bool) returns (removed: nat)
      requires Valid()
      modifies this`list, this`items
      ensures Valid() && Cells() <= old(Cells())
      ensures Contents() == RemoveIf(old(Contents()), pred)
      ensures removed == |old(Contents())| - |Contents()|
    {
      removed := 0;
      var rest := items.Keys;
      ghost var gone: set<K> := {};
      ghost var target := Matching(items, list, pred);
      MinusAbsent(Contents(), gone);
      while rest != {}
        invariant Valid() && Cells() <= old(Cells())
        invariant forall k :: k in rest ==> k in old(items)
        invariant forall k :: k in gone <==> k in target && k !in rest
        invariant forall k :: k in items <==> k in old(items) && k !in gone
        invariant Contents() == Minus(old(Contents()), gone)
        invariant removed == |old(list)| - |list|
      {
        var key :| key in rest;
        if pred(key) {
          InvalidateMatch(key, old(Contents()), gone);
          gone := gone + {key};
          removed := removed + 1;
        }
        rest := rest - {key};
      }
      assert gone == target;
    }

    /** One more matching key is gone. */
    method InvalidateMatch(key: K, ghost start: seq<Entry<K, V>>, ghost gone: set<K>)
      requires Valid() && key in items && Contents() == Minus(start, gone)
      modifies this`list, this`items
      ensures Valid() && Cells() <= old(Cells())
      ensures items == old(items) - {key} && |list| == |old(list)| - 1
      ensures Contents() == Minus(start, gone + {key})
    {
      MinusTwice(start, gone, {key});
      LookupIsItems(items, list, key);
      Unlink(items[key]);
    }

    method Clear()
      requires Valid()
      modifies this`list, this`items
      ensures Valid() && Contents() == [] && Cells() == {}
    {
      items := map[];
      list := [];
    }

    /** The size is read off the map, which agrees with the list. */
    method Size() returns (n: nat)
      requires Valid()
      ensures n == |Contents()|
    {
      n := |items|;
    }
  }
}

/** The value a cache represents: its entries, most recently used first. */
module Recency {
  import opened Words

  datatype Entry<K, V> = Entry(key: K, value: V)

  function Keys<K, V>(s: seq<Entry<K, V>>): (r: seq<K>)
    ensures |r| == |s| && forall i :: 0 <= i < |s| ==> r[i] == s[i].key
  {
    seq(|s|, i requires 0 <= i < |s| => s[i].key)
  }

  ghost predicate DistinctKeys<K, V>(s: seq<Entry<K, V>>) {
    forall i, j :: 0 <= i < j < |s| ==> s[i].key != s[j].key
  }

  /** The first entry of a key. */
  function Lookup<K(==), V>(s: seq<Entry<K, V>>, k: K): Option<V> {
    if s == [] then None
    else if s[0].key == k then Some(s[0].value)
    else Lookup(s[1..], k)
  }

  /** The entries whose keys are not in `drop`, in their old order. */
  function Minus<K(==), V>(s: seq<Entry<K, V>>, drop: set<K>): seq<Entry<K, V>> {
    if s == [] then []
    else if s[0].key in drop then Minus(s[1..], drop)
    else [s[0]] + Minus(s[1..], drop)
  }

  /** The entries whose keys do not satisfy `pred`, in their old order. */
  function RemoveIf<K, V>(s: seq<Entry<K, V>>, pred: K -> bool): seq<Entry<K, V>> {
    if s == [] then []
    else if pred(s[0].key) then RemoveIf(s[1..], pred)
    else [s[0]] + RemoveIf(s[1..], pred)
  }

  function Hit<K(==), V>(s: seq<Entry<K, V>>, k: K): seq<Entry<K, V>> {
    match Lookup(s, k)
    case None => s
    case Some(v) => [Entry(k, v)] + Minus(s, {k})
  }

  function Put<K(==), V>(capacity: int, s: seq<Entry<K, V>>, k: K, v: V): seq<Entry<K, V>> {
    if Lookup(s, k).Some? then [Entry(k, v)] + Minus(s, {k})
    else if |s| >= capacity && s != [] then [Entry(k, v)] + s[..|s| - 1]
    else [Entry(k, v)] + s
  }

  ghost predicate Held<K, V>(s: seq<Entry<K, V>>, k: K) {
    exists i :: 0 <= i < |s| && s[i].key == k
  }

  /** The entry of the key has gone to the front with this value, past the others in their old order. */
  ghost predicate MovedToFront<K, V>(before: seq<Entry<K, V>>, after: seq<Entry<K, V>>, k: K, v: V) {
    exists i :: 0 <= i < |before| && before[i].key == k && after == [Entry(k, v)] + before[..i] + before[i + 1..]
  }

  lemma PutMeans<K, V>(capacity: int, s: seq<Entry<K, V>>, k: K, v: V)
    requires DistinctKeys(s)
    ensures Held(s, k) ==> MovedToFront(s, Put(capacity, s, k, v), k, v)
    ensures !Held(s, k) && (|s| < capacity || s == []) ==> Put(capacity, s, k, v) == [Entry(k, v)] + s
    ensures !Held(s, k) && |s| >= capacity && s != [] ==> Put(capacity, s, k, v) == [Entry(k, v)] + s[..|s| - 1]
  {
    LookupFinds(s, k);
    if i :| 0 <= i < |s| && s[i].key == k {
      MinusOne(s, i);
      assert [Entry(k, v)] + (s[..i] + s[i + 1..]) == [Entry(k, v)] + s[..i] + s[i + 1..];
    }
  }

  lemma HitMeans<K, V>(s: seq<Entry<K, V>>, k: K)
    requires DistinctKeys(s)
    ensures Lookup(s, k).Some? <==> Held(s, k)
    ensures Held(s, k) ==> Entry(k, Lookup(s, k).value) in s && MovedToFront(s, Hit(s, k), k, Lookup(s, k).value)
    ensures !Held(s, k) ==> Hit(s, k) == s
  {
    LookupFinds(s, k);
    if i :| 0 <= i < |s| && s[i].key == k {
      LookupAt(s, i);
      MinusOne(s, i);
      assert s[i] == Entry(k, Lookup(s, k).value);
      assert [s[i]] + (s[..i] + s[i + 1..]) == [s[i]] + s[..i] + s[i + 1..];
    }
  }

  lemma {:induction false} LookupFinds<K, V>(s: seq<Entry<K, V>>, k: K)
    ensures Lookup(s, k).Some? ==> exists i :: 0 <= i < |s| && s[i].key == k && Lookup(s, k) == Some(s[i].value)
    ensures Lookup(s, k).None? ==> forall i :: 0 <= i < |s| ==> s[i].key != k
  {
    if s != [] && s[0].key != k {
      LookupFinds(s[1..], k);
      if Lookup(s, k).Some? {
        var i :| 0 <= i < |s[1..]| && s[1..][i].key == k && Lookup(s[1..], k) == Some(s[1..][i].value);
        assert s[i + 1].key == k;
      } else {
        forall i | 0 <= i < |s|
          ensures s[i].key != k
        {
          assert i > 0 ==> s[i] == s[1..][i - 1];
        }
      }
    }
  }

  lemma LookupAt<K, V>(s: seq<Entry<K, V>>, i: nat)
    requires i < |s| && DistinctKeys(s)
    ensures Lookup(s, s[i].key) == Some(s[i].value)
  {
    LookupFinds(s, s[i].key);
  }

  lemma {:induction false} MinusAbsent<K, V>(s: seq<Entry<K, V>>, drop: set<K>)
    requires forall i :: 0 <= i < |s| ==> s[i].key !in drop
    ensures Minus(s, drop) == s
  {
    if s != [] {
      MinusAbsent(s[1..], drop);
    }
  }

  lemma {:induction false} MinusConcat<K, V>(a: seq<Entry<K, V>>, b: seq<Entry<K, V>>, drop: set<K>)
    ensures Minus(a + b, drop) == Minus(a, drop) + Minus(b, drop)
  {
    if a == [] {
      assert a + b == b;
    } else {
      MinusConcat(a[1..], b, drop);
      assert (a + b)[1..] == a[1..] + b;
    }
  }

  /** Removing one key from a duplicate-free list cuts out exactly its position. */
  lemma {:induction false} MinusOne<K, V>(s: seq<Entry<K, V>>, i: nat)
    requires i < |s| && DistinctKeys(s)
    ensures Minus(s, {s[i].key}) == s[..i] + s[i + 1..]
  {
    if i == 0 {
      MinusAbsent(s[1..], {s[0].key});
    } else {
      MinusOne(s[1..], i - 1);
      assert s[..i] == [s[0]] + s[1..][..i - 1];
      assert s[i + 1..] == s[1..][i..];
    }
  }

  lemma MinusOverwritten<K, V>(s: seq<Entry<K, V>>, i: nat, v: V)
    requires i < |s| && DistinctKeys(s)
    ensures Minus(s[i := Entry(s[i].key, v)], {s[i].key}) == Minus(s, {s[i].key})
    ensures DistinctKeys(s[i := Entry(s[i].key, v)])
  {
    var t := s[i := Entry(s[i].key, v)];
    MinusOne(s, i);
    MinusOne(t, i);
    assert t[..i] == s[..i] && t[i + 1..] == s[i + 1..];
  }

  lemma {:induction false} MinusTwice<K, V>(s: seq<Entry<K, V>>, a: set<K>, b: set<K>)
    ensures Minus(Minus(s, a), b) == Minus(s, a + b)
  {
    if s != [] {
      MinusTwice(s[1..], a, b);
    }
  }

  lemma {:induction false} RemoveIfIsMinus<K, V>(s: seq<Entry<K, V>>, pred: K -> bool, drop: set<K>)
    requires forall i :: 0 <= i < |s| ==> (s[i].key in drop <==> pred(s[i].key))
    ensures RemoveIf(s, pred) == Minus(s, drop)
  {
    if s != [] {
      RemoveIfIsMinus(s[1..], pred, drop);
    }
  }

  /** What survives `RemoveIf`: every entry that fails the predicate, and nothing else. */
  lemma {:induction false} RemoveIfKeeps<K, V>(s: seq<Entry<K, V>>, pred: K -> bool, e: Entry<K, V>)
    ensures e in RemoveIf(s, pred) <==> e in s && !pred(e.key)
  {
    if s != [] {
      RemoveIfKeeps(s[1..], pred, e);
    }
  }

  lemma {:induction false} MinusKeeps<K, V>(s: seq<Entry<K, V>>, drop: set<K>, e: Entry<K, V>)
    ensures e in Minus(s, drop) <==> e in s && e.key !in drop
  {
    if s != [] {
      MinusKeeps(s[1..], drop, e);
    }
  }
}

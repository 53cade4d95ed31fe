/** Whole traces of the cache: what is evicted is the key whose last use lies furthest back. */
module Eviction {
  import opened Recency
  import opened Inclusion

  /** A use of a key: a put of it, or a look-up of it that hits. */
  ghost predicate Uses<K, V>(before: seq<Entry<K, V>>, op: Op<K, V>, k: K) {
    match op
    case Get(x) => x == k && Held(before, k)
    case Store(x, _) => x == k
    case Fetch(x, found) => x == k && (Held(before, k) || found.Some?)
    case _ => false
  }

  /** The number of the last operation of a trace that used the key, or -1. */
  ghost function LastUse<K, V>(capacity: int, ops: seq<Op<K, V>>, k: K): int {
    if ops == [] then -1
    else if Uses(Run(capacity, ops[..|ops| - 1]).entries, ops[|ops| - 1], k) then |ops| - 1
    else LastUse(capacity, ops[..|ops| - 1], k)
  }

  lemma {:induction false} LastUseIsPast<K, V>(capacity: int, ops: seq<Op<K, V>>, k: K)
    ensures -1 <= LastUse(capacity, ops, k) < |ops|
  {
    if ops != [] {
      LastUseIsPast(capacity, ops[..|ops| - 1], k);
    }
  }

  /** What the number says: the operation used the key, and none after it did. */
  lemma {:induction false} LastUseMeans<K, V>(capacity: int, ops: seq<Op<K, V>>, k: K)
    ensures var n := LastUse(capacity, ops, k);
            && -1 <= n < |ops|
            && (n >= 0 ==> Uses(Run(capacity, ops[..n]).entries, ops[n], k))
            && forall m :: n < m < |ops| ==> !Uses(Run(capacity, ops[..m]).entries, ops[m], k)
  {
    if ops != [] {
      var before, n := ops[..|ops| - 1], LastUse(capacity, ops, k);
      LastUseMeans(capacity, before, k);
      assert n < |before| ==> n == LastUse(capacity, before, k);
      assert 0 <= n < |before| ==> before[..n] == ops[..n];
      forall m | n < m < |ops|
        ensures !Uses(Run(capacity, ops[..m]).entries, ops[m], k)
      {
        if m < |before| {
          assert before[..m] == ops[..m];
        }
      }
    }
  }

  // ----- the entries of a trace stand in the order of their last uses

  ghost predicate ByLastUse<K, V>(capacity: int, ops: seq<Op<K, V>>, s: seq<Entry<K, V>>) {
    forall i, j :: 0 <= i < j < |s| ==> LastUse(capacity, ops, s[i].key) > LastUse(capacity, ops, s[j].key)
  }

  lemma {:induction false} MinusOrdered<K, V>(capacity: int, ops: seq<Op<K, V>>, s: seq<Entry<K, V>>, drop: set<K>)
    requires ByLastUse(capacity, ops, s)
    ensures ByLastUse(capacity, ops, Minus(s, drop))
  {
    if s != [] {
      MinusOrdered(capacity, ops, s[1..], drop);
      var rest := Minus(s[1..], drop);
      forall i | 0 <= i < |rest|
        ensures LastUse(capacity, ops, s[0].key) > LastUse(capacity, ops, rest[i].key)
      {
        MinusKeeps(s[1..], drop, rest[i]);
        var j :| 0 <= j < |s[1..]| && s[1..][j] == rest[i];
        assert s[j + 1] == rest[i];
      }
    }
  }

  /** The keys that the last operation did not use keep their order. */
  lemma UnusedOrdered<K, V>(capacity: int, ops: seq<Op<K, V>>, s: seq<Entry<K, V>>)
    requires ops != [] && ByLastUse(capacity, ops[..|ops| - 1], s)
    requires forall i :: 0 <= i < |s| ==> !Uses(Run(capacity, ops[..|ops| - 1]).entries, ops[|ops| - 1], s[i].key)
    ensures ByLastUse(capacity, ops, s)
  {
  }

  /** The key that it used goes in front of them. */
  lemma UsedFirst<K, V>(capacity: int, ops: seq<Op<K, V>>, s: seq<Entry<K, V>>, e: Entry<K, V>)
    requires ops != [] && ByLastUse(capacity, ops[..|ops| - 1], s)
    requires Uses(Run(capacity, ops[..|ops| - 1]).entries, ops[|ops| - 1], e.key)
    requires forall i :: 0 <= i < |s| ==> !Uses(Run(capacity, ops[..|ops| - 1]).entries, ops[|ops| - 1], s[i].key)
    ensures ByLastUse(capacity, ops, [e] + s)
  {
    UnusedOrdered(capacity, ops, s);
    forall i | 0 <= i < |s|
      ensures LastUse(capacity, ops, s[i].key) < |ops| - 1
    {
      LastUseIsPast(capacity, ops[..|ops| - 1], s[i].key);
    }
  }

  lemma ByLastUseDistinct<K, V>(capacity: int, ops: seq<Op<K, V>>, s: seq<Entry<K, V>>)
    requires ByLastUse(capacity, ops, s)
    ensures DistinctKeys(s)
  {
  }

  lemma TouchOrdered<K, V>(capacity: int, ops: seq<Op<K, V>>, op: Op<K, V>, s: seq<Entry<K, V>>, k: K)
    requires ops != [] && ByLastUse(capacity, ops[..|ops| - 1], s) && s == Run(capacity, ops[..|ops| - 1]).entries
    requires op == ops[|ops| - 1] && forall x :: Uses(s, op, x) <==> x == k && Held(s, k)
    ensures ByLastUse(capacity, ops, Hit(s, k))
  {
    LookupFinds(s, k);
    if Lookup(s, k).Some? {
      MinusOrdered(capacity, ops[..|ops| - 1], s, {k});
      NoneLeft(s, k);
      UsedFirst(capacity, ops, Minus(s, {k}), Entry(k, Lookup(s, k).value));
    } else {
      UnusedOrdered(capacity, ops, s);
    }
  }

  lemma NoneLeft<K, V>(s: seq<Entry<K, V>>, k: K)
    ensures forall i :: 0 <= i < |Minus(s, {k})| ==> Minus(s, {k})[i].key != k
  {
    forall i | 0 <= i < |Minus(s, {k})|
      ensures Minus(s, {k})[i].key != k
    {
      MinusKeeps(s, {k}, Minus(s, {k})[i]);
    }
  }

  lemma PutOrdered<K, V>(capacity: int, ops: seq<Op<K, V>>, op: Op<K, V>, s: seq<Entry<K, V>>, k: K, v: V)
    requires ops != [] && ByLastUse(capacity, ops[..|ops| - 1], s) && s == Run(capacity, ops[..|ops| - 1]).entries
    requires op == ops[|ops| - 1] && forall x :: Uses(s, op, x) <==> x == k
    ensures ByLastUse(capacity, ops, Put(capacity, s, k, v))
  {
    LookupFinds(s, k);
    if Lookup(s, k).Some? {
      MinusOrdered(capacity, ops[..|ops| - 1], s, {k});
      NoneLeft(s, k);
      UsedFirst(capacity, ops, Minus(s, {k}), Entry(k, v));
    } else {
      var left := if |s| >= capacity && s != [] then s[..|s| - 1] else s;
      UsedFirst(capacity, ops, left, Entry(k, v));
    }
  }

  lemma RemoveIfOrdered<K, V>(capacity: int, ops: seq<Op<K, V>>, s: seq<Entry<K, V>>, pred: K -> bool)
    requires ops != [] && ByLastUse(capacity, ops[..|ops| - 1], s)
    requires ops[|ops| - 1].InvalidateIf?
    ensures ByLastUse(capacity, ops, RemoveIf(s, pred))
  {
    var drop := set i | 0 <= i < |s| && pred(s[i].key) :: s[i].key;
    RemoveIfIsMinus(s, pred, drop);
    MinusOrdered(capacity, ops[..|ops| - 1], s, drop);
    UnusedOrdered(capacity, ops, Minus(s, drop));
  }

  /** After any trace the entries stand in the order of their last uses, the most recent first. */
  lemma {:induction false} RunByLastUse<K, V>(capacity: int, ops: seq<Op<K, V>>)
    ensures ByLastUse(capacity, ops, Run(capacity, ops).entries)
  {
    if ops != [] {
      var before, op := ops[..|ops| - 1], ops[|ops| - 1];
      var s := Run(capacity, before).entries;
      RunByLastUse(capacity, before);
      match op
      case Get(k) => TouchOrdered(capacity, ops, op, s, k);
      case Store(k, v) => PutOrdered(capacity, ops, op, s, k, v);
      case Fetch(k, found) =>
        LookupFinds(s, k);
        if Lookup(s, k).None? && found.Some? {
          PutOrdered(capacity, ops, op, s, k, found.value);
        } else {
          TouchOrdered(capacity, ops, op, s, k);
        }
      case Invalidate(k) =>
        MinusOrdered(capacity, before, s, {k});
        UnusedOrdered(capacity, ops, Minus(s, {k}));
      case InvalidateIf(pred) => RemoveIfOrdered(capacity, ops, s, pred);
      case Clear =>
    }
  }

  // ----- the evicted key

  /** The operation is a put of its key, or a fetch that puts it. */
  predicate Puts<K, V>(op: Op<K, V>) {
    op.Store? || op.Fetch?
  }

  lemma MovedHolds<K, V>(before: seq<Entry<K, V>>, after: seq<Entry<K, V>>, k: K, v: V, x: K)
    requires MovedToFront(before, after, k, v) && Held(before, x)
    ensures Held(after, x)
  {
    var i :| 0 <= i < |before| && before[i].key == k && after == [Entry(k, v)] + before[..i] + before[i + 1..];
    var j :| 0 <= j < |before| && before[j].key == x;
    assert after[if j < i then j + 1 else if j == i then 0 else j].key == x;
  }

  lemma HitLosesNone<K, V>(s: seq<Entry<K, V>>, k: K, x: K)
    requires DistinctKeys(s) && Held(s, x)
    ensures Held(Hit(s, k), x)
  {
    HitMeans(s, k);
    if Held(s, k) {
      MovedHolds(s, Hit(s, k), k, Lookup(s, k).value, x);
    }
  }

  lemma PutLosesLast<K, V>(capacity: int, s: seq<Entry<K, V>>, k: K, v: V, x: K)
    requires DistinctKeys(s) && Held(s, x) && !Held(Put(capacity, s, k, v), x)
    ensures |s| >= capacity && !Held(s, k) && s[|s| - 1].key == x
    ensures forall i :: 0 <= i < |s| - 1 ==> Held(Put(capacity, s, k, v), s[i].key)
  {
    PutMeans(capacity, s, k, v);
    var after := Put(capacity, s, k, v);
    if Held(s, k) {
      MovedHolds(s, after, k, v, x);
    }
    var i :| 0 <= i < |s| && s[i].key == x;
    forall j | 0 <= j < |s| && j < |after| - 1
      ensures after[j + 1] == s[j] && Held(after, s[j].key)
    {
      assert after[j + 1].key == s[j].key;
    }
  }

  /**
    Along any trace: a put or fetch takes a key out of the cache only if the cache was
    full and its own key was not in it, and then it is the one key whose last use lies
    before the last uses of all others.
   */
  lemma EvictedIsLeastRecentlyUsed<K, V>(capacity: int, ops: seq<Op<K, V>>, op: Op<K, V>, x: K)
    requires Puts(op) && Held(Run(capacity, ops).entries, x) && !Held(Run(capacity, ops + [op]).entries, x)
    ensures |Run(capacity, ops).entries| >= capacity && !Held(Run(capacity, ops).entries, op.key)
    ensures forall y :: y != x && Held(Run(capacity, ops).entries, y) ==>
              && Held(Run(capacity, ops + [op]).entries, y)
              && LastUse(capacity, ops, x) < LastUse(capacity, ops, y)
  {
    var s, after := Run(capacity, ops).entries, Run(capacity, ops + [op]).entries;
    assert (ops + [op])[..|ops|] == ops;
    RunByLastUse(capacity, ops);
    ByLastUseDistinct(capacity, ops, s);
    HitMeans(s, op.key);
    if op.Fetch? && (Held(s, op.key) || op.found.None?) {
      HitLosesNone(s, op.key, x);
      assert false;
    }
    PutLosesLast(capacity, s, op.key, if op.Store? then op.value else op.found.value, x);
  }
}

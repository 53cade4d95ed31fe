/**
  The stack property of the cache: run on the same trace, a smaller cache never
  holds a key that a larger one lacks, and never hits more often.
 */
module Inclusion {
  import opened Words
  import opened Recency

  /** One cache operation. `Fetch` is the read path: a hit, or a put of what the query found. */
  datatype Op<!K, V> =
    | Get(key: K)
    | Store(key: K, value: V)
    | Fetch(key: K, found: Option<V>)
    | Invalidate(key: K)
    | InvalidateIf(pred: K -> bool)
    | Clear

  datatype Cache<K, V> = Cache(entries: seq<Entry<K, V>>, hits: nat)

  /** The constructor's treatment of a capacity that is not positive. */
  function Clamp(capacity: int): int {
    if capacity <= 0 then 1 else capacity
  }

  function Step<K(==), V>(capacity: int, c: Cache<K, V>, op: Op<K, V>): Cache<K, V> {
    match op
    case Get(k) => Touch(c, k)
    case Store(k, v) => c.(entries := Put(capacity, c.entries, k, v))
    case Fetch(k, found) =>
      if Lookup(c.entries, k).None? && found.Some? then c.(entries := Put(capacity, c.entries, k, found.value))
      else Touch(c, k)
    case Invalidate(k) => c.(entries := Minus(c.entries, {k}))
    case InvalidateIf(pred) => c.(entries := RemoveIf(c.entries, pred))
    case Clear => c.(entries := [])
  }

  function Touch<K(==), V>(c: Cache<K, V>, k: K): Cache<K, V> {
    Cache(Hit(c.entries, k), c.hits + if Lookup(c.entries, k).Some? then 1 else 0)
  }

  function Run<K(==), V>(capacity: int, ops: seq<Op<K, V>>): Cache<K, V> {
    if ops == [] then Cache([], 0)
    else Step(capacity, Run(capacity, ops[..|ops| - 1]), ops[|ops| - 1])
  }

  /** Order-preserving containment. */
  ghost predicate Subsequence<T>(s: seq<T>, l: seq<T>) {
    s == [] || (l != [] && ((s[0] == l[0] && Subsequence(s[1..], l[1..])) || Subsequence(s, l[1..])))
  }

  function Without<K(==)>(s: seq<K>, drop: set<K>): seq<K> {
    if s == [] then []
    else if s[0] in drop then Without(s[1..], drop)
    else [s[0]] + Without(s[1..], drop)
  }

  // ----- keys of the entry operations

  lemma {:induction false} KeysMinus<K, V>(s: seq<Entry<K, V>>, drop: set<K>)
    ensures Keys(Minus(s, drop)) == Without(Keys(s), drop)
  {
    if s != [] {
      KeysMinus(s[1..], drop);
      assert Keys(s)[1..] == Keys(s[1..]);
      assert Keys([s[0]] + Minus(s[1..], drop)) == [s[0].key] + Keys(Minus(s[1..], drop));
    }
  }

  lemma KeyFound<K, V>(s: seq<Entry<K, V>>, k: K)
    ensures Lookup(s, k).Some? <==> k in Keys(s)
  {
    LookupFinds(s, k);
    if k in Keys(s) {
      var i :| 0 <= i < |s| && Keys(s)[i] == k;
      assert s[i].key == k;
    }
  }

  function HitKeys<K(==)>(s: seq<K>, k: K): seq<K> {
    if k in s then [k] + Without(s, {k}) else s
  }

  function PutKeys<K(==)>(capacity: int, s: seq<K>, k: K): seq<K> {
    if k in s then [k] + Without(s, {k})
    else if |s| >= capacity && s != [] then [k] + s[..|s| - 1]
    else [k] + s
  }

  lemma KeysOfHit<K, V>(s: seq<Entry<K, V>>, k: K)
    ensures Keys(Hit(s, k)) == HitKeys(Keys(s), k)
  {
    KeyFound(s, k);
    KeysMinus(s, {k});
  }

  lemma KeysOfPut<K, V>(capacity: int, s: seq<Entry<K, V>>, k: K, v: V)
    ensures Keys(Put(capacity, s, k, v)) == PutKeys(capacity, Keys(s), k)
  {
    KeyFound(s, k);
    KeysMinus(s, {k});
  }

  // ----- subsequences

  lemma {:induction false} SubsequenceBasics<T>(s: seq<T>, l: seq<T>)
    requires Subsequence(s, l)
    ensures |s| <= |l|
    ensures forall x :: x in s ==> x in l
  {
    if s != [] {
      if s[0] == l[0] && Subsequence(s[1..], l[1..]) {
        SubsequenceBasics(s[1..], l[1..]);
        forall x | x in s
          ensures x in l
        {
          assert x == s[0] || x in s[1..];
        }
      } else {
        SubsequenceBasics(s, l[1..]);
      }
    }
  }

  /** Filtering both sides keeps the order and never widens the gap in size. */
  lemma {:induction false} SubsequenceWithout<K>(s: seq<K>, l: seq<K>, drop: set<K>)
    requires Subsequence(s, l)
    ensures Subsequence(Without(s, drop), Without(l, drop))
    ensures |Without(l, drop)| - |Without(s, drop)| <= |l| - |s|
    decreases |l|
  {
    if s == [] {
      WithoutShrinks(l, drop);
    } else if s[0] == l[0] && Subsequence(s[1..], l[1..]) {
      SubsequenceWithout(s[1..], l[1..], drop);
      if s[0] !in drop {
        assert Without(s, drop)[1..] == Without(s[1..], drop) && Without(l, drop)[1..] == Without(l[1..], drop);
      }
    } else {
      SubsequenceWithout(s, l[1..], drop);
      if l[0] !in drop {
        assert Without(l, drop)[1..] == Without(l[1..], drop);
      }
    }
  }

  lemma {:induction false} WithoutShrinks<K>(s: seq<K>, drop: set<K>)
    ensures |Without(s, drop)| <= |s|
    ensures forall x :: x in Without(s, drop) ==> x in s && x !in drop
    ensures forall x :: x in s && x !in drop ==> x in Without(s, drop)
  {
    if s != [] {
      WithoutShrinks(s[1..], drop);
    }
  }

  lemma {:induction false} WithoutAbsent<K>(s: seq<K>, drop: set<K>)
    requires forall x :: x in drop ==> x !in s
    ensures Without(s, drop) == s
  {
    if s != [] {
      WithoutAbsent(s[1..], drop);
    }
  }

  ghost predicate NoRepeats<K>(s: seq<K>) {
    forall i, j :: 0 <= i < j < |s| ==> s[i] != s[j]
  }

  lemma {:induction false} WithoutOne<K>(s: seq<K>, k: K)
    requires NoRepeats(s) && k in s
    ensures |Without(s, {k})| == |s| - 1
  {
    if s[0] == k {
      WithoutAbsent(s[1..], {k});
    } else {
      WithoutOne(s[1..], k);
    }
  }

  lemma {:induction false} WithoutNoRepeats<K>(s: seq<K>, drop: set<K>)
    requires NoRepeats(s)
    ensures NoRepeats(Without(s, drop))
  {
    if s != [] {
      WithoutNoRepeats(s[1..], drop);
      WithoutShrinks(s[1..], drop);
    }
  }

  lemma {:induction false} SubsequenceButLast<T>(s: seq<T>, l: seq<T>)
    requires Subsequence(s, l) && s != []
    ensures Subsequence(s[..|s| - 1], l[..|l| - 1])
    decreases |l|
  {
    if |s| == 1 {
      assert s[..0] == [];
    } else if s[0] == l[0] && Subsequence(s[1..], l[1..]) {
      SubsequenceBasics(s[1..], l[1..]);
      SubsequenceButLast(s[1..], l[1..]);
      assert s[..|s| - 1][1..] == s[1..][..|s| - 2] && l[..|l| - 1][1..] == l[1..][..|l| - 2];
    } else {
      SubsequenceBasics(s, l[1..]);
      SubsequenceButLast(s, l[1..]);
      assert l[..|l| - 1][1..] == l[1..][..|l| - 2];
    }
  }

  lemma {:induction false} SubsequenceExtend<T>(s: seq<T>, l: seq<T>, tail: seq<T>)
    requires Subsequence(s, l)
    ensures Subsequence(s, l + tail)
    decreases |l|
  {
    if s != [] {
      assert (l + tail)[1..] == l[1..] + tail;
      if s[0] == l[0] && Subsequence(s[1..], l[1..]) {
        SubsequenceExtend(s[1..], l[1..], tail);
      } else {
        SubsequenceExtend(s, l[1..], tail);
      }
    }
  }

  lemma SubsequenceDropLast<T>(s: seq<T>, l: seq<T>)
    requires Subsequence(s, l) && s != []
    ensures Subsequence(s[..|s| - 1], l)
  {
    SubsequenceBasics(s, l);
    SubsequenceButLast(s, l);
    SubsequenceExtend(s[..|s| - 1], l[..|l| - 1], l[|l| - 1..]);
    assert l[..|l| - 1] + l[|l| - 1..] == l;
  }

  // ----- the invariant of two caches run side by side

  ghost predicate Included<K>(c1: int, c2: int, small: seq<K>, large: seq<K>) {
    && 1 <= c1 <= c2
    && |small| <= c1 && |large| <= c2
    && |large| - |small| <= c2 - c1
    && NoRepeats(small) && NoRepeats(large)
    && Subsequence(small, large)
  }

  lemma MoveKeepsSize<K>(s: seq<K>, k: K)
    requires NoRepeats(s)
    ensures |HitKeys(s, k)| == |s| && NoRepeats(HitKeys(s, k))
  {
    if k in s {
      WithoutOne(s, k);
      WithoutNoRepeats(s, {k});
      WithoutShrinks(s, {k});
    }
  }

  /** A key in front of a subsequence that lacks it, against the list with the key moved to front. */
  lemma FrontAgainstMoved<K>(s: seq<K>, l: seq<K>, k: K)
    requires Subsequence(s, l) && k !in s
    ensures Subsequence(s, Without(l, {k}))
    ensures Subsequence([k] + s, [k] + Without(l, {k}))
  {
    SubsequenceWithout(s, l, {k});
    WithoutAbsent(s, {k});
    assert ([k] + s)[1..] == s && ([k] + Without(l, {k}))[1..] == Without(l, {k});
  }

  lemma PutNoRepeats<K>(capacity: int, s: seq<K>, k: K)
    requires NoRepeats(s) && 1 <= capacity && |s| <= capacity
    ensures NoRepeats(PutKeys(capacity, s, k))
    ensures |PutKeys(capacity, s, k)| == (if k in s || |s| >= capacity then |s| else |s| + 1)
  {
    if k in s {
      MoveKeepsSize(s, k);
    }
  }

  lemma HitIncluded<K>(c1: int, c2: int, small: seq<K>, large: seq<K>, k: K)
    requires Included(c1, c2, small, large)
    ensures Included(c1, c2, HitKeys(small, k), HitKeys(large, k))
  {
    MoveKeepsSize(small, k);
    MoveKeepsSize(large, k);
    SubsequenceBasics(small, large);
    if k in small {
      SubsequenceWithout(small, large, {k});
      assert HitKeys(small, k)[1..] == Without(small, {k}) && HitKeys(large, k)[1..] == Without(large, {k});
    } else if k in large {
      FrontAgainstMoved(small, large, k);
      assert HitKeys(large, k)[1..] == Without(large, {k});
    }
  }

  lemma PutIncluded<K>(c1: int, c2: int, small: seq<K>, large: seq<K>, k: K)
    requires Included(c1, c2, small, large)
    ensures Included(c1, c2, PutKeys(c1, small, k), PutKeys(c2, large, k))
  {
    PutNoRepeats(c1, small, k);
    PutNoRepeats(c2, large, k);
    SubsequenceBasics(small, large);
    var a, b := PutKeys(c1, small, k), PutKeys(c2, large, k);
    if k in small {
      HitIncluded(c1, c2, small, large, k);
    } else {
      var kept := if |small| >= c1 then small[..|small| - 1] else small;
      assert a == [k] + kept && a[1..] == kept;
      if |small| >= c1 {
        SubsequenceDropLast(small, large);
        SubsequenceButLast(small, large);
      }
      if k in large {
        FrontAgainstMoved(kept, large, k);
      } else {
        assert b[1..] == if |large| >= c2 then large[..|large| - 1] else large;
      }
    }
  }

  lemma FilterIncluded<K>(c1: int, c2: int, small: seq<K>, large: seq<K>, drop: set<K>)
    requires Included(c1, c2, small, large)
    ensures Included(c1, c2, Without(small, drop), Without(large, drop))
  {
    SubsequenceWithout(small, large, drop);
    WithoutNoRepeats(small, drop);
    WithoutNoRepeats(large, drop);
    WithoutShrinks(small, drop);
    WithoutShrinks(large, drop);
  }

  lemma KeysOfRemoveIf<K, V>(s: seq<Entry<K, V>>, pred: K -> bool, drop: set<K>)
    requires forall k :: k in Keys(s) ==> (k in drop <==> pred(k))
    ensures Keys(RemoveIf(s, pred)) == Without(Keys(s), drop)
  {
    forall i | 0 <= i < |s|
      ensures s[i].key in drop <==> pred(s[i].key)
    {
      assert Keys(s)[i] in Keys(s);
    }
    RemoveIfIsMinus(s, pred, drop);
    KeysMinus(s, drop);
  }

  lemma RemoveIfIncluded<K, V>(c1: int, c2: int, a: seq<Entry<K, V>>, b: seq<Entry<K, V>>, pred: K -> bool)
    requires Included(c1, c2, Keys(a), Keys(b))
    ensures Included(c1, c2, Keys(RemoveIf(a, pred)), Keys(RemoveIf(b, pred)))
  {
    var drop := set k | k in Keys(b) && pred(k);
    SubsequenceBasics(Keys(a), Keys(b));
    KeysOfRemoveIf(a, pred, drop);
    KeysOfRemoveIf(b, pred, drop);
    FilterIncluded(c1, c2, Keys(a), Keys(b), drop);
  }

  lemma StepIncluded<K, V>(c1: int, c2: int, a: Cache<K, V>, b: Cache<K, V>, op: Op<K, V>)
    requires Included(c1, c2, Keys(a.entries), Keys(b.entries)) && a.hits <= b.hits
    ensures Included(c1, c2, Keys(Step(c1, a, op).entries), Keys(Step(c2, b, op).entries))
    ensures Step(c1, a, op).hits <= Step(c2, b, op).hits
  {
    SubsequenceBasics(Keys(a.entries), Keys(b.entries));
    match op
    case Get(k) => TouchIncluded(c1, c2, a, b, k);
    case Store(k, v) => StoreIncluded(c1, c2, a, b, k, v, v);
    case Fetch(k, found) => FetchIncluded(c1, c2, a, b, k, found);
    case Invalidate(k) =>
      KeysMinus(a.entries, {k});
      KeysMinus(b.entries, {k});
      FilterIncluded(c1, c2, Keys(a.entries), Keys(b.entries), {k});
    case InvalidateIf(pred) => RemoveIfIncluded(c1, c2, a.entries, b.entries, pred);
    case Clear =>
  }

  lemma TouchIncluded<K, V>(c1: int, c2: int, a: Cache<K, V>, b: Cache<K, V>, k: K)
    requires Included(c1, c2, Keys(a.entries), Keys(b.entries)) && a.hits <= b.hits
    ensures Included(c1, c2, Keys(Touch(a, k).entries), Keys(Touch(b, k).entries))
    ensures Touch(a, k).hits <= Touch(b, k).hits
  {
    SubsequenceBasics(Keys(a.entries), Keys(b.entries));
    KeyFound(a.entries, k);
    KeyFound(b.entries, k);
    KeysOfHit(a.entries, k);
    KeysOfHit(b.entries, k);
    HitIncluded(c1, c2, Keys(a.entries), Keys(b.entries), k);
  }

  lemma StoreIncluded<K, V>(c1: int, c2: int, a: Cache<K, V>, b: Cache<K, V>, k: K, v: V, w: V)
    requires Included(c1, c2, Keys(a.entries), Keys(b.entries))
    ensures Included(c1, c2, Keys(Put(c1, a.entries, k, v)), Keys(Put(c2, b.entries, k, w)))
  {
    KeysOfPut(c1, a.entries, k, v);
    KeysOfPut(c2, b.entries, k, w);
    PutIncluded(c1, c2, Keys(a.entries), Keys(b.entries), k);
  }

  /** The one case in which the two caches act differently: only the larger one hits. */
  lemma FetchIncluded<K, V>(c1: int, c2: int, a: Cache<K, V>, b: Cache<K, V>, k: K, found: Option<V>)
    requires Included(c1, c2, Keys(a.entries), Keys(b.entries)) && a.hits <= b.hits
    ensures Included(c1, c2, Keys(Step(c1, a, Fetch(k, found)).entries), Keys(Step(c2, b, Fetch(k, found)).entries))
    ensures Step(c1, a, Fetch(k, found)).hits <= Step(c2, b, Fetch(k, found)).hits
  {
    SubsequenceBasics(Keys(a.entries), Keys(b.entries));
    KeyFound(a.entries, k);
    KeyFound(b.entries, k);
    if found.None? || k in Keys(a.entries) {
      TouchIncluded(c1, c2, a, b, k);
    } else {
      StoreIncluded(c1, c2, a, b, k, found.value, found.value);
      KeysOfHit(b.entries, k);
      KeysOfPut(c2, b.entries, k, found.value);
    }
  }

  /** The inclusion theorem, for every trace and every pair of capacities. */
  lemma LargerCacheIncludesSmaller<K, V>(c1: int, c2: int, ops: seq<Op<K, V>>)
    requires c1 <= c2
    ensures Subsequence(Keys(Run(Clamp(c1), ops).entries), Keys(Run(Clamp(c2), ops).entries))
    ensures |Run(Clamp(c2), ops).entries| - |Run(Clamp(c1), ops).entries| <= Clamp(c2) - Clamp(c1)
    ensures Run(Clamp(c1), ops).hits <= Run(Clamp(c2), ops).hits
  {
    RunIncluded(Clamp(c1), Clamp(c2), ops);
  }

  lemma {:induction false} RunIncluded<K, V>(c1: int, c2: int, ops: seq<Op<K, V>>)
    requires 1 <= c1 <= c2
    ensures Included(c1, c2, Keys(Run(c1, ops).entries), Keys(Run(c2, ops).entries))
    ensures Run(c1, ops).hits <= Run(c2, ops).hits
  {
    if ops != [] {
      var before := ops[..|ops| - 1];
      RunIncluded(c1, c2, before);
      StepIncluded(c1, c2, Run(c1, before), Run(c2, before), ops[|ops| - 1]);
    }
  }
}

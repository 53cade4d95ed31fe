/** Keys of the partition cache: table name, a colon, the snapshot id in decimal. */
module CacheKeys {
  import opened Words
  import opened Decimal

  function Key(table: string, snapshot: uint64): string {
    table + ":" + Format(snapshot)
  }

  /** The predicate that `InvalidateTableCache` hands to the cache. */
  predicate HasPrefix(key: string, prefix: string) {
    |key| >= |prefix| && key[..|prefix|] == prefix
  }

  predicate OfTable(table: string, key: string) {
    HasPrefix(key, table + ":")
  }

  function Covered(table: string): string -> bool {
    key => OfTable(table, key)
  }

  /** After the name and its colon a key holds only digits. */
  lemma KeyTail(table: string, snapshot: uint64, i: int)
    requires |table| < i < |Key(table, snapshot)|
    ensures Key(table, snapshot)[i] != ':'
  {
    FormatIsRead(snapshot);
    assert Key(table, snapshot)[i] == Format(snapshot)[i - |table| - 1];
    assert IsDigit(Format(snapshot)[i - |table| - 1]);
  }

  /** Names may hold colons themselves; the last colon is always the separator. */
  lemma KeyInjective(t1: string, s1: uint64, t2: string, s2: uint64)
    requires Key(t1, s1) == Key(t2, s2)
    ensures t1 == t2 && s1 == s2
  {
    var key := Key(t1, s1);
    FormatIsRead(s1);
    FormatIsRead(s2);
    assert key[|t1|] == ':' && key[|t2|] == ':';
    if |t1| < |t2| {
      KeyTail(t1, s1, |t2|);
    } else if |t2| < |t1| {
      KeyTail(t2, s2, |t1|);
    }
    assert t1 == key[..|t1|] == key[..|t2|] == t2;
    assert Format(s1) == key[|t1| + 1..] == Format(s2);
    FormatInjective(s1, s2);
  }

  /**
    Exactly which keys the invalidation of `table` removes: those of the table
    itself, for every snapshot, and those of tables whose own name starts with
    `table` and a colon.
   */
  lemma InvalidatedKeys(table: string, other: string, snapshot: uint64)
    ensures OfTable(table, Key(other, snapshot)) <==> other == table || (|other| > |table| && other[..|table| + 1] == table + ":")
  {
    var key, prefix := Key(other, snapshot), table + ":";
    if |other| > |table| {
      assert key[..|prefix|] == other[..|prefix|];
    } else if |other| == |table| {
      assert key[..|prefix|] == other + ":";
      assert prefix[..|table|] == table && (other + ":")[..|table|] == other;
    } else if |key| >= |prefix| {
      KeyTail(other, snapshot, |table|);
      assert key[..|prefix|][|table|] == key[|table|];
      assert prefix[|table|] == ':';
    }
  }
}

/** Machine-width integers of the Go and Postgres code, and the Option type. */
module Words {

  datatype Option<+T> = None | Some(value: T)

  const TWO_31: int := 0x8000_0000
  const TWO_32: int := 0x1_0000_0000
  const TWO_63: int := 0x8000_0000_0000_0000
  const TWO_64: int := 0x1_0000_0000_0000_0000

  type uint64 = x: int | 0 <= x < TWO_64

  /** The conversion `int64(x)` of an unsigned word: the upper half becomes negative. */
  function AsInt64(x: uint64): int {
    if x < TWO_63 then x else x - TWO_64
  }

  /** Two's-complement reduction, as `int64` additions and `int32(...)` conversions do it. */
  function Wrap64(x: int): int {
    (x + TWO_63) % TWO_64 - TWO_63
  }

  function Wrap32(x: int): int {
    (x + TWO_31) % TWO_32 - TWO_31
  }

  /** Each conversion keeps the value up to a multiple of the word's size, and lands in the range of the type. */
  lemma WordsMean(x: int)
    ensures -TWO_63 <= Wrap64(x) < TWO_63 && exists k :: Wrap64(x) == x + k * TWO_64
    ensures -TWO_31 <= Wrap32(x) < TWO_31 && exists k :: Wrap32(x) == x + k * TWO_32
    ensures 0 <= x < TWO_64 ==> AsInt64(x) == Wrap64(x)
  {
    var p, q := (x + TWO_63) / TWO_64, (x + TWO_31) / TWO_32;
    assert Wrap64(x) == x + (-p) * TWO_64;
    assert Wrap32(x) == x + (-q) * TWO_32;
  }

  /** Reducing early or late makes no difference to a sum. */
  lemma Wrap64Add(a: int, b: int)
    ensures Wrap64(Wrap64(a) + b) == Wrap64(a + b)
  {
    var q := (a + TWO_63) / TWO_64;
    assert Wrap64(a) == a - q * TWO_64;
    ModShift(a + b + TWO_63, -q);
  }

  lemma ModShift(x: int, k: int)
    ensures (x + k * TWO_64) % TWO_64 == x % TWO_64
  {
    var q, r := x / TWO_64, x % TWO_64;
    assert x + k * TWO_64 == (q + k) * TWO_64 + r;
  }

  /** A set that is not empty has an element. */
  lemma Member<T>(s: set<T>) returns (x: T)
    requires s != {}
    ensures x in s
  {
    x :| x in s;
  }

  /** Deleting a key of a map deletes one entry. */
  lemma RemovedSize<K, V>(m: map<K, V>, k: K)
    requires k in m
    ensures |m - {k}| == |m| - 1
  {
    assert (m - {k}).Keys == m.Keys - {k};
    assert |m.Keys| == |m| && |(m - {k}).Keys| == |m - {k}|;
  }
}

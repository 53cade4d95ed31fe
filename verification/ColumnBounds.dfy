/** Per-column bounds aggregated over the data files of a snapshot. */
module ColumnBounds {
  import opened Words

  datatype ColumnStats = ColumnStats(
    columnId: int,
    nullCount: int,
    nanCount: int,
    valueCount: int,
    minValue: string,
    maxValue: string,
    sizeBytes: int)

  /** The accumulator of one column. */
  datatype Agg = Agg(nulls: int, nans: int, values: int, min: string, max: string, hasMin: bool)

  const EMPTY := Agg(0, 0, 0, "", "", false)

  // ----- the order of byte strings

  predicate Less(a: string, b: string) {
    b != [] && (a == [] || a[0] < b[0] || (a[0] == b[0] && Less(a[1..], b[1..])))
  }

  lemma {:induction false} LessTotal(a: string, b: string)
    ensures Less(a, b) || a == b || Less(b, a)
  {
    if a != [] && b != [] && a[0] == b[0] {
      LessTotal(a[1..], b[1..]);
      if a[1..] == b[1..] {
        assert a == [a[0]] + a[1..] && b == [b[0]] + b[1..];
      }
    }
  }

  lemma {:induction false} LessTransitive(a: string, b: string, c: string)
    requires Less(a, b) && Less(b, c)
    ensures Less(a, c)
  {
    if a != [] && a[0] == b[0] == c[0] {
      LessTransitive(a[1..], b[1..], c[1..]);
    }
  }

  lemma {:induction false} LessIrreflexive(a: string, b: string)
    ensures !(Less(a, b) && Less(b, a))
  {
    if a != [] && b != [] && a[0] == b[0] {
      LessIrreflexive(a[1..], b[1..]);
    }
  }

  /** `a` is a proper beginning of `b`, or less at the first place where they differ. */
  ghost predicate Precedes(a: string, b: string) {
    || (|a| < |b| && b[..|a|] == a)
    || exists k :: 0 <= k < |a| && k < |b| && a[..k] == b[..k] && a[k] < b[k]
  }

  lemma {:induction false} LessIffPrecedes(a: string, b: string)
    ensures Less(a, b) <==> Precedes(a, b)
  {
    if a != [] && b != [] {
      LessIffPrecedes(a[1..], b[1..]);
      if a[0] == b[0] {
        PrecedesTail(a, b);
      }
    }
  }

  lemma LessIsPrecedes()
    ensures forall a, b :: Less(a, b) <==> Precedes(a, b)
  {
    forall a, b
      ensures Less(a, b) <==> Precedes(a, b)
    {
      LessIffPrecedes(a, b);
    }
  }

  lemma PrecedesTail(a: string, b: string)
    requires a != [] && b != [] && a[0] == b[0]
    ensures Precedes(a, b) <==> Precedes(a[1..], b[1..])
  {
    forall k | 0 <= k < |a| && k < |b| && a[..k] == b[..k] && a[k] < b[k]
      ensures Precedes(a[1..], b[1..])
    {
      assert a[1..][..k - 1] == a[..k][1..] && b[1..][..k - 1] == b[..k][1..];
      assert a[1..][k - 1] < b[1..][k - 1];
    }
    forall k | 0 <= k < |a| - 1 && k < |b| - 1 && a[1..][..k] == b[1..][..k] && a[1..][k] < b[1..][k]
      ensures Precedes(a, b)
    {
      assert a[..k + 1] == [a[0]] + a[1..][..k] && b[..k + 1] == [b[0]] + b[1..][..k];
      assert a[k + 1] < b[k + 1];
    }
    assert |a| < |b| ==> (b[..|a|] == [b[0]] + b[1..][..|a| - 1] && a == [a[0]] + a[1..]);
  }

  // ----- one aggregation step and the whole fold

  /** The body of the inner loop, for one column. */
  function Add(a: Agg, cs: ColumnStats): Agg {
    Agg(
      Wrap64(a.nulls + cs.nullCount),
      Wrap64(a.nans + cs.nanCount),
      Wrap64(a.values + cs.valueCount),
      if cs.minValue != "" && (!a.hasMin || Less(cs.minValue, a.min)) then cs.minValue else a.min,
      if cs.maxValue != "" && Less(a.max, cs.maxValue) then cs.maxValue else a.max,
      a.hasMin || cs.minValue != "")
  }

  type ByColumn = map<int, Agg>

  function AddTo(m: ByColumn, cs: ColumnStats): ByColumn {
    m[cs.columnId := Add(if cs.columnId in m then m[cs.columnId] else EMPTY, cs)]
  }

  /** Aggregation of a list of entries, in order. */
  function Fold(stats: seq<ColumnStats>): ByColumn {
    if stats == [] then map[] else AddTo(Fold(stats[..|stats| - 1]), stats[|stats| - 1])
  }

  function Flatten(files: seq<seq<ColumnStats>>): seq<ColumnStats> {
    if files == [] then [] else Flatten(files[..|files| - 1]) + files[|files| - 1]
  }

  // ----- the nested loops

  method Aggregate(files: seq<seq<ColumnStats>>) returns (result: seq<ColumnStats>)
    ensures |result| == |Fold(Flatten(files))|
    ensures forall i, j :: 0 <= i < j < |result| ==> result[i].columnId != result[j].columnId
    ensures forall i :: 0 <= i < |result| ==>
      var r := result[i];
      && r.columnId in Fold(Flatten(files))
      && var a := Fold(Flatten(files))[r.columnId];
         r == ColumnStats(r.columnId, a.nulls, a.nans, a.values, a.min, a.max, 0)
    ensures forall i :: 0 <= i < |result| ==> SumsUp(result[i], Flatten(files))
  {
    var byCol: ByColumn := map[];
    var i := 0;
    while i < |files|
      invariant 0 <= i <= |files|
      invariant byCol == Fold(Flatten(files[..i]))
    {
      assert files[..i + 1][..i] == files[..i];
      byCol := AddFile(byCol, files[i], Flatten(files[..i]));
      i := i + 1;
    }
    assert files[..|files|] == files;
    result := Rows(byCol);
    forall i | 0 <= i < |result|
      ensures SumsUp(result[i], Flatten(files))
    {
      FoldRow(Flatten(files), result[i].columnId);
    }
  }

  /** The loop body: how one entry changes the accumulator of its column. */
  method Accumulate(before: Agg, cs: ColumnStats) returns (a: Agg)
    ensures a == Add(before, cs)
  {
    a := before.(nulls := Wrap64(before.nulls + cs.nullCount),
                 nans := Wrap64(before.nans + cs.nanCount),
                 values := Wrap64(before.values + cs.valueCount));
    if cs.minValue != "" {
      if !a.hasMin || Less(cs.minValue, a.min) {
        a := a.(min := cs.minValue, hasMin := true);
      }
    }
    if cs.maxValue != "" && Less(a.max, cs.maxValue) {
      a := a.(max := cs.maxValue);
    }
  }

  lemma TakeOneMore<T>(done: seq<T>, s: seq<T>, j: nat)
    requires j < |s|
    ensures done + s[..j] + [s[j]] == done + s[..j + 1]
  {
  }

  /** The inner loop, over the entries of one file. */
  method AddFile(before: ByColumn, stats: seq<ColumnStats>, ghost done: seq<ColumnStats>) returns (byCol: ByColumn)
    requires before == Fold(done)
    ensures byCol == Fold(done + stats)
  {
    byCol := before;
    var j := 0;
    assert done + stats[..0] == done;
    while j < |stats|
      invariant 0 <= j <= |stats|
      invariant byCol == Fold(done + stats[..j])
    {
      var cs := stats[j];
      var a := Accumulate(if cs.columnId in byCol then byCol[cs.columnId] else EMPTY, cs);
      FoldOneMore(done, stats, j);
      byCol := byCol[cs.columnId := a];
      j := j + 1;
    }
    assert stats[..|stats|] == stats;
  }

  lemma FoldLast(a: seq<ColumnStats>, x: ColumnStats)
    ensures Fold(a + [x]) == AddTo(Fold(a), x)
  {
    assert (a + [x])[..|a|] == a;
  }

  lemma FoldOneMore(done: seq<ColumnStats>, stats: seq<ColumnStats>, j: nat)
    requires j < |stats|
    ensures Fold(done + stats[..j + 1]) == AddTo(Fold(done + stats[..j]), stats[j])
  {
    TakeOneMore(done, stats, j);
    FoldLast(done + stats[..j], stats[j]);
  }

  /** The accumulators as result rows, in an arbitrary order of the columns. */
  method Rows(byCol: ByColumn) returns (result: seq<ColumnStats>)
    ensures |result| == |byCol|
    ensures forall i, j :: 0 <= i < j < |result| ==> result[i].columnId != result[j].columnId
    ensures forall i :: 0 <= i < |result| ==>
      var r := result[i];
      && r.columnId in byCol
      && r == ColumnStats(r.columnId, byCol[r.columnId].nulls, byCol[r.columnId].nans, byCol[r.columnId].values,
                          byCol[r.columnId].min, byCol[r.columnId].max, 0)
  {
    result := [];
    var rest := byCol.Keys;
    while rest != {}
      invariant rest <= byCol.Keys
      invariant |result| + |rest| == |byCol|
      invariant forall i :: 0 <= i < |result| ==> result[i].columnId in byCol && result[i].columnId !in rest
      invariant forall i, j :: 0 <= i < j < |result| ==> result[i].columnId != result[j].columnId
      invariant forall i :: 0 <= i < |result| ==>
        var r := result[i];
        r == ColumnStats(r.columnId, byCol[r.columnId].nulls, byCol[r.columnId].nans, byCol[r.columnId].values,
                         byCol[r.columnId].min, byCol[r.columnId].max, 0)
    {
      ghost var some := Member(rest);
      var c :| c in rest;
      var a := byCol[c];
      result := result + [ColumnStats(c, a.nulls, a.nans, a.values, a.min, a.max, 0)];
      rest := rest - {c};
    }
  }

  // ----- what the fold means

  datatype Count = Nulls | Nans | Values

  function CountOf(k: Count, cs: ColumnStats): int {
    match k
    case Nulls => cs.nullCount
    case Nans => cs.nanCount
    case Values => cs.valueCount
  }

  function Total(k: Count, stats: seq<ColumnStats>, column: int): int {
    if stats == [] then 0
    else
      var cs := stats[|stats| - 1];
      Total(k, stats[..|stats| - 1], column) + if cs.columnId == column then CountOf(k, cs) else 0
  }

  ghost predicate HasColumn(stats: seq<ColumnStats>, column: int) {
    exists i :: 0 <= i < |stats| && stats[i].columnId == column
  }

  /** `v` is the least nonempty lower bound of a column, or empty when there is none. */
  ghost predicate IsMin(stats: seq<ColumnStats>, column: int, v: string) {
    && (v != "" ==> exists i :: 0 <= i < |stats| && stats[i].columnId == column && stats[i].minValue == v)
    && (forall i :: 0 <= i < |stats| && stats[i].columnId == column && stats[i].minValue != "" ==>
          v != "" && !Precedes(stats[i].minValue, v))
  }

  /** `v` is the greatest upper bound of a column; the empty string is below every other. */
  ghost predicate IsMax(stats: seq<ColumnStats>, column: int, v: string) {
    && (v != "" ==> exists i :: 0 <= i < |stats| && stats[i].columnId == column && stats[i].maxValue == v)
    && (forall i :: 0 <= i < |stats| && stats[i].columnId == column ==> !Precedes(v, stats[i].maxValue))
  }

  /** The declarative meaning of one accumulator. */
  ghost predicate Summarizes(a: Agg, stats: seq<ColumnStats>, column: int) {
    CountsOk(a, stats, column) && BoundsOk(a, stats, column)
  }

  ghost predicate CountsOk(a: Agg, stats: seq<ColumnStats>, column: int) {
    && a.nulls == Wrap64(Total(Nulls, stats, column))
    && a.nans == Wrap64(Total(Nans, stats, column))
    && a.values == Wrap64(Total(Values, stats, column))
  }

  /** The declarative meaning of one result row. */
  ghost predicate SumsUp(r: ColumnStats, stats: seq<ColumnStats>) {
    && HasColumn(stats, r.columnId)
    && IsMin(stats, r.columnId, r.minValue)
    && IsMax(stats, r.columnId, r.maxValue)
    && r.nullCount == Wrap64(Total(Nulls, stats, r.columnId))
    && r.nanCount == Wrap64(Total(Nans, stats, r.columnId))
    && r.valueCount == Wrap64(Total(Values, stats, r.columnId))
  }

  ghost predicate BoundsOk(a: Agg, stats: seq<ColumnStats>, column: int) {
    && (a.hasMin <==> a.min != "")
    && IsMin(stats, column, a.min)
    && IsMax(stats, column, a.max)
  }

  /** One entry alone comes back as it is, but for the size; counts are reduced to a word. */
  lemma OneEntry(cs: ColumnStats)
    ensures Fold([cs]) == map[cs.columnId :=
      Agg(Wrap64(cs.nullCount), Wrap64(cs.nanCount), Wrap64(cs.valueCount), cs.minValue, cs.maxValue, cs.minValue != "")]
  {
    assert [cs][..0] == [];
    assert Fold([]) == map[];
  }

  lemma {:induction false} TotalAbsent(k: Count, stats: seq<ColumnStats>, column: int)
    requires !HasColumn(stats, column)
    ensures Total(k, stats, column) == 0
  {
    if stats != [] {
      assert stats[|stats| - 1].columnId != column;
      TotalAbsent(k, stats[..|stats| - 1], column);
    }
  }

  lemma MinExtends(stats: seq<ColumnStats>, cs: ColumnStats, column: int, v: string)
    requires IsMin(stats, column, v)
    ensures cs.columnId != column ==> IsMin(stats + [cs], column, v)
    ensures cs.columnId == column ==>
      IsMin(stats + [cs], column, if cs.minValue != "" && (v == "" || Less(cs.minValue, v)) then cs.minValue else v)
  {
    var more := stats + [cs];
    assert more[|stats|] == cs;
    LessIsPrecedes();
    forall i | 0 <= i < |stats| && stats[i].columnId == column && stats[i].minValue != ""
      ensures Less(cs.minValue, v) ==> !Less(stats[i].minValue, cs.minValue)
    {
      if Less(cs.minValue, v) && Less(stats[i].minValue, cs.minValue) {
        LessTransitive(stats[i].minValue, cs.minValue, v);
      }
    }
    if v != "" {
      var i :| 0 <= i < |stats| && stats[i].columnId == column && stats[i].minValue == v;
      assert more[i] == stats[i];
    }
    LessIrreflexive(cs.minValue, cs.minValue);
  }

  lemma MaxExtends(stats: seq<ColumnStats>, cs: ColumnStats, column: int, v: string)
    requires IsMax(stats, column, v)
    ensures cs.columnId != column ==> IsMax(stats + [cs], column, v)
    ensures cs.columnId == column ==>
      IsMax(stats + [cs], column, if cs.maxValue != "" && Less(v, cs.maxValue) then cs.maxValue else v)
  {
    var more := stats + [cs];
    assert more[|stats|] == cs;
    LessIsPrecedes();
    forall i | 0 <= i < |stats| && stats[i].columnId == column
      ensures Less(v, cs.maxValue) ==> !Less(cs.maxValue, stats[i].maxValue)
    {
      if Less(v, cs.maxValue) && Less(cs.maxValue, stats[i].maxValue) {
        LessTransitive(v, cs.maxValue, stats[i].maxValue);
      }
    }
    if v != "" {
      var i :| 0 <= i < |stats| && stats[i].columnId == column && stats[i].maxValue == v;
      assert more[i] == stats[i];
    }
    LessIrreflexive(cs.maxValue, cs.maxValue);
  }

  lemma AddCounts(a: Agg, stats: seq<ColumnStats>, cs: ColumnStats, column: int)
    requires CountsOk(a, stats, column)
    ensures CountsOk(if cs.columnId == column then Add(a, cs) else a, stats + [cs], column)
  {
    assert (stats + [cs])[..|stats|] == stats;
    Wrap64Add(Total(Nulls, stats, column), cs.nullCount);
    Wrap64Add(Total(Nans, stats, column), cs.nanCount);
    Wrap64Add(Total(Values, stats, column), cs.valueCount);
  }

  lemma AddBounds(a: Agg, stats: seq<ColumnStats>, cs: ColumnStats, column: int)
    requires BoundsOk(a, stats, column)
    ensures BoundsOk(if cs.columnId == column then Add(a, cs) else a, stats + [cs], column)
  {
    MinExtends(stats, cs, column, a.min);
    MaxExtends(stats, cs, column, a.max);
  }

  /**
    One entry per column that occurs, its counts the sums over the files, its
    bounds the least and the greatest nonempty ones.
   */
  lemma {:induction false} FoldMeans(stats: seq<ColumnStats>, column: int)
    ensures column in Fold(stats) <==> HasColumn(stats, column)
    ensures Summarizes(if column in Fold(stats) then Fold(stats)[column] else EMPTY, stats, column)
  {
    if stats != [] {
      var prefix, cs := stats[..|stats| - 1], stats[|stats| - 1];
      FoldMeans(prefix, column);
      AddCounts(if column in Fold(prefix) then Fold(prefix)[column] else EMPTY, prefix, cs, column);
      AddBounds(if column in Fold(prefix) then Fold(prefix)[column] else EMPTY, prefix, cs, column);
      assert stats == prefix + [cs];
      if HasColumn(stats, column) && cs.columnId != column {
        var i :| 0 <= i < |stats| && stats[i].columnId == column;
        assert prefix[i].columnId == column;
      }
    }
  }

  lemma FoldRow(stats: seq<ColumnStats>, column: int)
    requires column in Fold(stats)
    ensures var a := Fold(stats)[column]; SumsUp(ColumnStats(column, a.nulls, a.nans, a.values, a.min, a.max, 0), stats)
  {
    FoldMeans(stats, column);
  }

  // ----- order of the files

  lemma AddCommutes(a: Agg, x: ColumnStats, y: ColumnStats)
    ensures Add(Add(a, x), y) == Add(Add(a, y), x)
  {
    WrapCommutes(a.nulls, x.nullCount, y.nullCount);
    WrapCommutes(a.nans, x.nanCount, y.nanCount);
    WrapCommutes(a.values, x.valueCount, y.valueCount);
    MinCommutes(a, x, y);
    MaxCommutes(a, x, y);
  }

  lemma WrapCommutes(a: int, x: int, y: int)
    ensures Wrap64(Wrap64(a + x) + y) == Wrap64(Wrap64(a + y) + x)
  {
    Wrap64Add(a + x, y);
    Wrap64Add(a + y, x);
  }

  lemma MinCommutes(a: Agg, x: ColumnStats, y: ColumnStats)
    ensures Add(Add(a, x), y).min == Add(Add(a, y), x).min
  {
    Ordered(a.min, x.minValue, y.minValue);
  }

  lemma MaxCommutes(a: Agg, x: ColumnStats, y: ColumnStats)
    ensures Add(Add(a, x), y).max == Add(Add(a, y), x).max
  {
    Ordered(a.max, x.maxValue, y.maxValue);
  }

  /** Three strings are linearly ordered. */
  lemma Ordered(a: string, b: string, c: string)
    ensures (Less(a, b) || a == b || Less(b, a)) && (Less(b, c) || b == c || Less(c, b)) && (Less(a, c) || a == c || Less(c, a))
    ensures !(Less(a, b) && Less(b, a)) && !(Less(b, c) && Less(c, b)) && !(Less(a, c) && Less(c, a))
    ensures Less(a, b) && Less(b, c) ==> Less(a, c)
    ensures Less(a, c) && Less(c, b) ==> Less(a, b)
    ensures Less(b, a) && Less(a, c) ==> Less(b, c)
    ensures Less(b, c) && Less(c, a) ==> Less(b, a)
    ensures Less(c, a) && Less(a, b) ==> Less(c, b)
    ensures Less(c, b) && Less(b, a) ==> Less(c, a)
  {
    LessTotal(a, b);
    LessTotal(b, c);
    LessTotal(a, c);
    LessIrreflexive(a, b);
    LessIrreflexive(b, c);
    LessIrreflexive(a, c);
    if Less(a, b) && Less(b, c) { LessTransitive(a, b, c); }
    if Less(a, c) && Less(c, b) { LessTransitive(a, c, b); }
    if Less(b, a) && Less(a, c) { LessTransitive(b, a, c); }
    if Less(b, c) && Less(c, a) { LessTransitive(b, c, a); }
    if Less(c, a) && Less(a, b) { LessTransitive(c, a, b); }
    if Less(c, b) && Less(b, a) { LessTransitive(c, b, a); }
  }

  lemma AddToCommutes(m: ByColumn, x: ColumnStats, y: ColumnStats)
    ensures AddTo(AddTo(m, x), y) == AddTo(AddTo(m, y), x)
  {
    if x.columnId == y.columnId {
      AddCommutes(if x.columnId in m then m[x.columnId] else EMPTY, x, y);
    }
  }

  /** An entry anywhere in the list might as well have come last. */
  lemma LastOfConcat<T>(a: seq<T>, b: seq<T>)
    requires b != []
    ensures a + b == (a + b[..|b| - 1]) + [b[|b| - 1]]
  {
  }

  lemma {:induction false} AddedLast(a: seq<ColumnStats>, x: ColumnStats, b: seq<ColumnStats>)
    ensures Fold(a + [x] + b) == AddTo(Fold(a + b), x)
  {
    if b == [] {
      assert a + [x] + b == a + [x] && a + b == a;
      FoldLast(a, x);
    } else {
      var c, y := b[..|b| - 1], b[|b| - 1];
      AddedLast(a, x, c);
      LastOfConcat(a + [x], b);
      LastOfConcat(a, b);
      FoldLast(a + [x] + c, y);
      FoldLast(a + c, y);
      AddToCommutes(Fold(a + c), x, y);
    }
  }

  lemma MultisetWithout<T>(s: seq<T>, i: nat)
    requires i < |s|
    ensures s == s[..i] + [s[i]] + s[i + 1..]
    ensures multiset(s[..i] + s[i + 1..]) == multiset(s) - multiset{s[i]}
  {
    assert s == s[..i] + [s[i]] + s[i + 1..];
  }

  /** In a permutation of a list the last element occurs somewhere; the rests are permutations too. */
  lemma FindLast<T>(a: seq<T>, b: seq<T>) returns (i: nat)
    requires multiset(a) == multiset(b) && a != []
    ensures i < |b| && b[i] == a[|a| - 1]
    ensures a == a[..|a| - 1] + [b[i]] && b == b[..i] + [b[i]] + b[i + 1..]
    ensures multiset(a[..|a| - 1]) == multiset(b[..i] + b[i + 1..])
  {
    assert a[|a| - 1] in multiset(b);
    i :| 0 <= i < |b| && b[i] == a[|a| - 1];
    MultisetWithout(a, |a| - 1);
    MultisetWithout(b, i);
    assert a[..|a| - 1] + a[|a|..] == a[..|a| - 1];
  }

  lemma {:induction false} FoldPermutation(a: seq<ColumnStats>, b: seq<ColumnStats>)
    requires multiset(a) == multiset(b)
    ensures Fold(a) == Fold(b)
  {
    if a == [] {
      assert |multiset(b)| == 0;
    } else {
      var i := FindLast(a, b);
      FoldPermutation(a[..|a| - 1], b[..i] + b[i + 1..]);
      AddedLast(b[..i], b[i], b[i + 1..]);
    }
  }

  lemma {:induction false} FlattenConcat(a: seq<seq<ColumnStats>>, b: seq<seq<ColumnStats>>)
    ensures Flatten(a + b) == Flatten(a) + Flatten(b)
  {
    if b == [] {
      assert a + b == a;
    } else {
      FlattenConcat(a, b[..|b| - 1]);
      assert (a + b)[..|a| + |b| - 1] == a + b[..|b| - 1];
    }
  }

  lemma {:induction false} FlattenPermutation(a: seq<seq<ColumnStats>>, b: seq<seq<ColumnStats>>)
    requires multiset(a) == multiset(b)
    ensures multiset(Flatten(a)) == multiset(Flatten(b))
  {
    if a == [] {
      assert |multiset(b)| == 0;
    } else {
      var i := FindLast(a, b);
      var left, x, right := b[..i], b[i], b[i + 1..];
      FlattenPermutation(a[..|a| - 1], left + right);
      FlattenConcat(left, right);
      FlattenConcat(left + [x], right);
      FlattenConcat(left, [x]);
      assert [x][..0] == [];
    }
  }

  /** Reordering the files of a snapshot changes no bound. */
  lemma BoundsIgnoreFileOrder(a: seq<seq<ColumnStats>>, b: seq<seq<ColumnStats>>)
    requires multiset(a) == multiset(b)
    ensures Fold(Flatten(a)) == Fold(Flatten(b))
  {
    FlattenPermutation(a, b);
    FoldPermutation(Flatten(a), Flatten(b));
  }

  // ----- aggregates of parts combine

  function Combine(a: Agg, b: Agg): Agg {
    Agg(
      Wrap64(a.nulls + b.nulls),
      Wrap64(a.nans + b.nans),
      Wrap64(a.values + b.values),
      if b.hasMin && (!a.hasMin || Less(b.min, a.min)) then b.min else a.min,
      if Less(a.max, b.max) then b.max else a.max,
      a.hasMin || b.hasMin)
  }

  function Merge(m: ByColumn, n: ByColumn): ByColumn {
    map c | c in m.Keys + n.Keys :: if c !in n then m[c] else if c !in m then n[c] else Combine(m[c], n[c])
  }

  lemma CombineAdd(a: Agg, b: Agg, cs: ColumnStats)
    requires b.hasMin <==> b.min != ""
    ensures Add(Combine(a, b), cs) == Combine(a, Add(b, cs))
  {
    WrapAssociates(a.nulls, b.nulls, cs.nullCount);
    WrapAssociates(a.nans, b.nans, cs.nanCount);
    WrapAssociates(a.values, b.values, cs.valueCount);
    Ordered(a.min, b.min, cs.minValue);
    Ordered(a.max, b.max, cs.maxValue);
  }

  lemma WrapAssociates(a: int, b: int, c: int)
    ensures Wrap64(Wrap64(a + b) + c) == Wrap64(a + Wrap64(b + c))
  {
    Wrap64Add(a + b, c);
    Wrap64Add(b + c, a);
  }

  lemma CombineFirst(a: Agg, cs: ColumnStats)
    ensures Add(a, cs) == Combine(a, Add(EMPTY, cs))
  {
    Wrap64Add(cs.nullCount, a.nulls);
    Wrap64Add(cs.nanCount, a.nans);
    Wrap64Add(cs.valueCount, a.values);
  }

  /** Aggregation is a homomorphism from concatenation of file lists to `Merge`. */
  lemma {:induction false} FoldConcat(a: seq<ColumnStats>, b: seq<ColumnStats>)
    ensures Fold(a + b) == Merge(Fold(a), Fold(b))
  {
    if b == [] {
      assert a + b == a;
      assert Merge(Fold(a), map[]) == Fold(a);
    } else {
      var c, cs := b[..|b| - 1], b[|b| - 1];
      assert b == c + [cs];
      FoldConcat(a, c);
      FoldConcatLast(a, c, cs);
    }
  }

  lemma FoldConcatLast(a: seq<ColumnStats>, c: seq<ColumnStats>, cs: ColumnStats)
    requires Fold(a + c) == Merge(Fold(a), Fold(c))
    ensures Fold(a + (c + [cs])) == Merge(Fold(a), Fold(c + [cs]))
  {
    assert a + (c + [cs]) == (a + c) + [cs];
    FoldLast(a + c, cs);
    FoldLast(c, cs);
    FoldMerge(Fold(a), c, cs);
  }

  lemma FoldMerge(m: ByColumn, c: seq<ColumnStats>, cs: ColumnStats)
    ensures AddTo(Merge(m, Fold(c)), cs) == Merge(m, AddTo(Fold(c), cs))
  {
    FoldMeans(c, cs.columnId);
    MergeAdd(m, Fold(c), cs);
  }

  lemma MergeAdd(m: ByColumn, n: ByColumn, cs: ColumnStats)
    requires cs.columnId in n ==> (n[cs.columnId].hasMin <==> n[cs.columnId].min != "")
    ensures AddTo(Merge(m, n), cs) == Merge(m, AddTo(n, cs))
  {
    var id := cs.columnId;
    if id in m && id in n {
      CombineAdd(m[id], n[id], cs);
    } else if id in m {
      CombineFirst(m[id], cs);
    }
  }

  lemma BoundsOfConcatenation(a: seq<seq<ColumnStats>>, b: seq<seq<ColumnStats>>)
    ensures Fold(Flatten(a + b)) == Merge(Fold(Flatten(a)), Fold(Flatten(b)))
  {
    FlattenConcat(a, b);
    FoldConcat(Flatten(a), Flatten(b));
  }
}

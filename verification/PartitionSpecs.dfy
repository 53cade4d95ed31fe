/** Partition specs: the rule for changing one, its validator, and its wire form. */
module PartitionSpecs {
  import opened Words

  datatype Field = Field(fieldId: int, sourceColumn: string, transform: string, param: Option<int>)

  datatype Spec = Spec(fields: seq<Field>)

  const VALID_TRANSFORMS := {"identity", "year", "month", "day", "hour", "bucket", "truncate"}

  predicate ParamRequired(transform: string) {
    transform == "bucket" || transform == "truncate"
  }

  // ----- the rule

  predicate FieldOk(f: Field) {
    && f.sourceColumn != ""
    && f.transform in VALID_TRANSFORMS
    && (if ParamRequired(f.transform) then f.param.Some? && f.param.value > 0 else f.param.None?)
  }

  ghost predicate DistinctIds(s: Spec) {
    forall i, j :: 0 <= i < j < |s.fields| ==> s.fields[i].fieldId != s.fields[j].fieldId
  }

  ghost predicate WellFormed(s: Spec) {
    && s.fields != []
    && (forall i :: 0 <= i < |s.fields| ==> FieldOk(s.fields[i]))
    && DistinctIds(s)
  }

  /** The parts of a field that evolution must not change; the parameter is not among them. */
  predicate SameMeaning(f: Field, g: Field) {
    f.fieldId == g.fieldId && f.sourceColumn == g.sourceColumn && f.transform == g.transform
  }

  ghost predicate Keeps(current: Spec, proposed: Spec) {
    forall f :: f in current.fields ==> exists g :: g in proposed.fields && SameMeaning(f, g)
  }

  ghost predicate HasId(s: Spec, id: int) {
    exists f :: f in s.fields && f.fieldId == id
  }

  predicate Above(s: Spec, id: int) {
    id > 0 && forall f | f in s.fields :: id > f.fieldId
  }

  ghost predicate NewIdsAbove(current: Spec, proposed: Spec) {
    forall g :: g in proposed.fields ==> HasId(current, g.fieldId) || Above(current, g.fieldId)
  }

  /** A missing or unreadable current spec constrains nothing. */
  ghost predicate Allowed(current: Option<Spec>, proposed: Spec) {
    && WellFormed(proposed)
    && (current.Some? ==> Keeps(current.value, proposed) && NewIdsAbove(current.value, proposed))
  }

  /** The rule in full: what a proposal must have by itself, what it must keep, and which ids it may introduce. */
  lemma AllowedMeans(current: Option<Spec>, proposed: Spec)
    ensures Allowed(current, proposed) <==>
      && proposed.fields != []
      && (forall g :: g in proposed.fields ==>
            && g.sourceColumn != ""
            && if g.transform == "bucket" || g.transform == "truncate" then g.param.Some? && g.param.value > 0
               else g.transform in {"identity", "year", "month", "day", "hour"} && g.param.None?)
      && (forall i, j :: 0 <= i < j < |proposed.fields| ==> proposed.fields[i].fieldId != proposed.fields[j].fieldId)
      && (current.Some? ==>
            && (forall f :: f in current.value.fields ==>
                  exists g :: g in proposed.fields && g.fieldId == f.fieldId && g.sourceColumn == f.sourceColumn && g.transform == f.transform)
            && (forall g :: g in proposed.fields && (forall f :: f in current.value.fields ==> f.fieldId != g.fieldId) ==>
                  g.fieldId > 0 && forall f :: f in current.value.fields ==> g.fieldId > f.fieldId))
  {
    FieldsMean(proposed);
    if current.Some? {
      KeepsMeans(current.value, proposed);
      NewIdsMean(current.value, proposed);
    }
  }

  lemma FieldsMean(s: Spec)
    ensures (forall i :: 0 <= i < |s.fields| ==> FieldOk(s.fields[i])) <==>
      forall g :: g in s.fields ==>
        && g.sourceColumn != ""
        && if g.transform == "bucket" || g.transform == "truncate" then g.param.Some? && g.param.value > 0
           else g.transform in {"identity", "year", "month", "day", "hour"} && g.param.None?
  {
    assert forall i :: 0 <= i < |s.fields| ==> s.fields[i] in s.fields;
  }

  lemma KeepsMeans(current: Spec, proposed: Spec)
    ensures Keeps(current, proposed) <==>
      forall f :: f in current.fields ==>
        exists g :: g in proposed.fields && g.fieldId == f.fieldId && g.sourceColumn == f.sourceColumn && g.transform == f.transform
  {
    forall f | f in current.fields
      ensures (exists g :: g in proposed.fields && SameMeaning(f, g)) <==>
        exists g :: g in proposed.fields && g.fieldId == f.fieldId && g.sourceColumn == f.sourceColumn && g.transform == f.transform
    {
      if g :| g in proposed.fields && g.fieldId == f.fieldId && g.sourceColumn == f.sourceColumn && g.transform == f.transform {
        assert SameMeaning(f, g);
      }
    }
  }

  lemma NewIdsMean(current: Spec, proposed: Spec)
    ensures NewIdsAbove(current, proposed) <==>
      forall g :: g in proposed.fields && (forall f :: f in current.fields ==> f.fieldId != g.fieldId) ==>
        g.fieldId > 0 && forall f :: f in current.fields ==> g.fieldId > f.fieldId
  {
  }

  /** An accepted change gives no current id another column or another transform. */
  lemma MeaningIsKept(current: Spec, proposed: Spec)
    requires Allowed(Some(current), proposed)
    ensures forall f, g :: f in current.fields && g in proposed.fields && f.fieldId == g.fieldId ==>
      f.sourceColumn == g.sourceColumn && f.transform == g.transform
  {
    forall f, g | f in current.fields && g in proposed.fields && f.fieldId == g.fieldId
      ensures f.sourceColumn == g.sourceColumn && f.transform == g.transform
    {
      var h :| h in proposed.fields && SameMeaning(f, h);
      assert h == g;
    }
  }

  /** So every proposal that does so is rejected, whatever else it holds. */
  lemma ChangedMeaningIsRejected(current: Spec, proposed: Spec, f: Field, g: Field)
    requires f in current.fields && g in proposed.fields && f.fieldId == g.fieldId
    requires f.sourceColumn != g.sourceColumn || f.transform != g.transform
    ensures !Allowed(Some(current), proposed)
  {
    if Allowed(Some(current), proposed) {
      MeaningIsKept(current, proposed);
    }
  }

  // ----- the validator

  datatype Verdict =
    | Accepted
    | NoFields
    | EmptySource(index: nat)
    | UnknownTransform(index: nat)
    | NeedsParam(index: nat)
    | UnwantedParam(index: nat)
    | DuplicateId(id: int)
    | SourceChanged(id: int)
    | TransformChanged(id: int)
    | FieldRemoved(id: int)
    | IdTooSmall(id: int)

  /** A rejection names something that really is wrong. */
  ghost predicate Explains(v: Verdict, current: Option<Spec>, proposed: Spec) {
    var fs := proposed.fields;
    match v
    case Accepted => true
    case NoFields => fs == []
    case EmptySource(i) => i < |fs| && fs[i].sourceColumn == ""
    case UnknownTransform(i) => i < |fs| && fs[i].transform !in VALID_TRANSFORMS
    case NeedsParam(i) => i < |fs| && ParamRequired(fs[i].transform) && (fs[i].param.Some? ==> fs[i].param.value <= 0)
    case UnwantedParam(i) => i < |fs| && !ParamRequired(fs[i].transform) && fs[i].param.Some?
    case DuplicateId(id) => exists i, j :: 0 <= i < j < |fs| && fs[i].fieldId == fs[j].fieldId == id
    case SourceChanged(id) => current.Some? && exists f, g :: f in current.value.fields && g in fs && f.fieldId == g.fieldId == id && f.sourceColumn != g.sourceColumn
    case TransformChanged(id) => current.Some? && exists f, g :: f in current.value.fields && g in fs && f.fieldId == g.fieldId == id && f.transform != g.transform
    case FieldRemoved(id) => current.Some? && HasId(current.value, id) && !HasId(proposed, id)
    case IdTooSmall(id) => current.Some? && HasId(proposed, id) && !HasId(current.value, id) && !Above(current.value, id)
  }

  method ValidateSpecChange(current: Option<Spec>, proposed: Spec) returns (v: Verdict)
    ensures v.Accepted? <==> Allowed(current, proposed)
    ensures v.Accepted? && current.Some? ==>
              forall f, g :: f in current.value.fields && g in proposed.fields && f.fieldId == g.fieldId ==>
                f.sourceColumn == g.sourceColumn && f.transform == g.transform
    ensures Explains(v, current, proposed)
  {
    if current.Some? && Allowed(current, proposed) {
      MeaningIsKept(current.value, proposed);
    }
    if |proposed.fields| == 0 {
      return NoFields;
    }
    v := CheckFields(proposed);
    if !v.Accepted? || current.None? {
      return v;
    }
    v := CheckPreserved(current.value, proposed);
    if !v.Accepted? {
      return v;
    }
    v := CheckNewIds(current.value, proposed);
  }

  /** First loop: each field on its own, and no id twice. */
  method CheckFields(proposed: Spec) returns (v: Verdict)
    requires proposed.fields != []
    ensures v.Accepted? <==> WellFormed(proposed)
    ensures forall current :: Explains(v, current, proposed)
    ensures v.Accepted? || v.EmptySource? || v.UnknownTransform? || v.NeedsParam? || v.UnwantedParam? || v.DuplicateId?
  {
    var fs := proposed.fields;
    var seenIds: set<int> := {};
    var i := 0;
    while i < |fs|
      invariant 0 <= i <= |fs|
      invariant forall k :: 0 <= k < i ==> FieldOk(fs[k]) && fs[k].fieldId in seenIds
      invariant forall id :: id in seenIds ==> exists k :: 0 <= k < i && fs[k].fieldId == id
      invariant forall k, l :: 0 <= k < l < i ==> fs[k].fieldId != fs[l].fieldId
    {
      var f := fs[i];
      if f.sourceColumn == "" {
        return EmptySource(i);
      }
      if f.transform !in VALID_TRANSFORMS {
        return UnknownTransform(i);
      }
      if ParamRequired(f.transform) && (f.param.None? || f.param.value <= 0) {
        return NeedsParam(i);
      }
      if !ParamRequired(f.transform) && f.param.Some? {
        return UnwantedParam(i);
      }
      if f.fieldId in seenIds {
        return DuplicateId(f.fieldId);
      }
      seenIds := seenIds + {f.fieldId};
      i := i + 1;
    }
    return Accepted;
  }

  /** Second loop: every current field is found in the proposal with the same meaning. */
  method CheckPreserved(current: Spec, proposed: Spec) returns (v: Verdict)
    requires WellFormed(proposed)
    ensures v.Accepted? <==> Keeps(current, proposed)
    ensures v.Accepted? <==>
              forall f :: f in current.fields ==>
                exists g :: g in proposed.fields && g.fieldId == f.fieldId && g.sourceColumn == f.sourceColumn && g.transform == f.transform
    ensures Explains(v, Some(current), proposed)
    ensures v.Accepted? || v.SourceChanged? || v.TransformChanged? || v.FieldRemoved?
  {
    KeepsMeans(current, proposed);
    var i := 0;
    while i < |current.fields|
      invariant 0 <= i <= |current.fields|
      invariant forall k :: 0 <= k < i ==> exists g :: g in proposed.fields && SameMeaning(current.fields[k], g)
    {
      v := FindField(current.fields[i], proposed);
      if !v.Accepted? {
        return v;
      }
      i := i + 1;
    }
    return Accepted;
  }

  /** The inner search, which stops at the first field with the wanted id. */
  method FindField(cf: Field, proposed: Spec) returns (v: Verdict)
    requires WellFormed(proposed)
    ensures v.Accepted? <==> exists g :: g in proposed.fields && SameMeaning(cf, g)
    ensures forall current: Spec :: cf in current.fields ==> Explains(v, Some(current), proposed)
    ensures v.Accepted? || v.SourceChanged? || v.TransformChanged? || v.FieldRemoved?
  {
    var j := 0;
    while j < |proposed.fields|
      invariant 0 <= j <= |proposed.fields|
      invariant forall k :: 0 <= k < j ==> proposed.fields[k].fieldId != cf.fieldId
    {
      var pf := proposed.fields[j];
      if pf.fieldId == cf.fieldId {
        assert forall g :: g in proposed.fields && g.fieldId == cf.fieldId ==> g == pf;
        if pf.sourceColumn != cf.sourceColumn {
          return SourceChanged(cf.fieldId);
        }
        if pf.transform != cf.transform {
          return TransformChanged(cf.fieldId);
        }
        assert pf in proposed.fields && SameMeaning(cf, pf);
        return Accepted;
      }
      j := j + 1;
    }
    return FieldRemoved(cf.fieldId);
  }

  /** Third loop, after the greatest current id has been computed. */
  method CheckNewIds(current: Spec, proposed: Spec) returns (v: Verdict)
    ensures v.Accepted? <==> NewIdsAbove(current, proposed)
    ensures Explains(v, Some(current), proposed)
    ensures v.Accepted? || v.IdTooSmall?
  {
    var ids, maxCurrentId := CurrentIds(current);
    var j := 0;
    while j < |proposed.fields|
      invariant 0 <= j <= |proposed.fields|
      invariant forall k :: 0 <= k < j ==>
        HasId(current, proposed.fields[k].fieldId) || Above(current, proposed.fields[k].fieldId)
    {
      var pf := proposed.fields[j];
      if pf.fieldId !in ids {
        if pf.fieldId <= maxCurrentId {
          assert pf in proposed.fields;
          return IdTooSmall(pf.fieldId);
        }
      }
      j := j + 1;
    }
    return Accepted;
  }

  method CurrentIds(current: Spec) returns (ids: set<int>, maxId: int)
    ensures forall id :: id in ids <==> HasId(current, id)
    ensures forall id :: Above(current, id) <==> id > maxId
  {
    ids, maxId := {}, 0;
    var i := 0;
    while i < |current.fields|
      invariant 0 <= i <= |current.fields|
      invariant forall id :: id in ids <==> exists k :: 0 <= k < i && current.fields[k].fieldId == id
      invariant forall k :: 0 <= k < i ==> current.fields[k].fieldId <= maxId
      invariant maxId == 0 || exists k :: 0 <= k < i && current.fields[k].fieldId == maxId
      invariant maxId >= 0
    {
      var f := current.fields[i];
      ids := ids + {f.fieldId};
      if f.fieldId > maxId {
        maxId := f.fieldId;
      }
      i := i + 1;
    }
    forall id
      ensures id in ids <==> HasId(current, id)
    {
      if HasId(current, id) {
        var f :| f in current.fields && f.fieldId == id;
        var k :| 0 <= k < |current.fields| && current.fields[k] == f;
      }
    }
  }

  // ----- whole histories

  /** Consecutive versions, each accepted against the one before it. */
  ghost predicate Evolution(versions: seq<Spec>) {
    && (forall i :: 0 <= i < |versions| ==> WellFormed(versions[i]))
    && (forall i :: 0 < i < |versions| ==> Allowed(Some(versions[i - 1]), versions[i]))
  }

  lemma KeepsTransitive(a: Spec, b: Spec, c: Spec)
    requires Keeps(a, b) && Keeps(b, c)
    ensures Keeps(a, c)
  {
    forall f | f in a.fields
      ensures exists g :: g in c.fields && SameMeaning(f, g)
    {
      var h :| h in b.fields && SameMeaning(f, h);
      var g :| g in c.fields && SameMeaning(h, g);
    }
  }

  lemma KeepsReflexive(a: Spec)
    ensures Keeps(a, a)
  {
    assert forall f :: f in a.fields ==> SameMeaning(f, f);
  }

  /** A reflexive and transitive relation that links neighbours links all pairs in order. */
  lemma {:induction false} LinkedAlong<T(!new)>(xs: seq<T>, r: (T, T) -> bool, i: nat, j: nat)
    requires i <= j < |xs|
    requires forall k :: 0 < k < |xs| ==> r(xs[k - 1], xs[k])
    requires (forall a :: r(a, a)) && (forall a, b, c :: r(a, b) && r(b, c) ==> r(a, c))
    ensures r(xs[i], xs[j])
    decreases j - i
  {
    if i < j {
      LinkedAlong(xs, r, i, j - 1);
    }
  }

  /** Every field of a version survives, with its meaning, in every later version. */
  lemma FieldsSurvive(versions: seq<Spec>, i: nat, j: nat)
    requires Evolution(versions) && i <= j < |versions|
    ensures Keeps(versions[i], versions[j])
  {
    forall a
      ensures Keeps(a, a)
    {
      KeepsReflexive(a);
    }
    forall a, b, c | Keeps(a, b) && Keeps(b, c)
      ensures Keeps(a, c)
    {
      KeepsTransitive(a, b, c);
    }
    LinkedAlong(versions, (a, b) => Keeps(a, b), i, j);
  }

  /** An id never changes its source column or its transform. */
  lemma IdsKeepTheirMeaning(versions: seq<Spec>, i: nat, j: nat, f: Field, g: Field)
    requires Evolution(versions) && i <= j < |versions|
    requires f in versions[i].fields && g in versions[j].fields && f.fieldId == g.fieldId
    ensures f.sourceColumn == g.sourceColumn && f.transform == g.transform
  {
    FieldsSurvive(versions, i, j);
    var h :| h in versions[j].fields && SameMeaning(f, h);
    assert h == g;
  }

  /** An id that a version introduces is greater than every id of every earlier version. */
  lemma NewIdsExceedAllEarlier(versions: seq<Spec>, i: nat, j: nat, f: Field, g: Field)
    requires Evolution(versions) && i < j < |versions|
    requires f in versions[i].fields && g in versions[j].fields && !HasId(versions[j - 1], g.fieldId)
    ensures g.fieldId > f.fieldId
  {
    FieldsSurvive(versions, i, j - 1);
    var h :| h in versions[j - 1].fields && SameMeaning(f, h);
    assert Above(versions[j - 1], g.fieldId);
  }

  /** The spec a table is created with. */
  function InitialSpec(rawSpec: string): Spec {
    Spec([Field(1, rawSpec, "identity", None)])
  }

  /** What a creation request's spec text stands for; an empty one for no spec at all. */
  function RequestedSpec(rawSpec: string): Option<Spec> {
    if rawSpec == "" then None else Some(InitialSpec(rawSpec))
  }

  /** The two versions that a field of their own turns a common first version into. */
  lemma OneFieldMore(v1: Spec, f: Field)
    requires WellFormed(v1) && FieldOk(f) && Above(v1, f.fieldId)
    ensures Allowed(Some(v1), Spec(v1.fields + [f]))
  {
    var s := Spec(v1.fields + [f]);
    forall i | 0 <= i < |v1.fields|
      ensures s.fields[i] in s.fields && v1.fields[i] in v1.fields
    {
    }
    assert forall g :: g in v1.fields ==> g in s.fields && SameMeaning(g, g);
    assert forall g :: g in s.fields ==> g in v1.fields || g == f;
  }

  /** Two fields that give the same new id different meanings: each may be added, but not one after the other. */
  lemma OverlappingChangesBreakTheChain(v1: Spec, f: Field, g: Field)
    requires WellFormed(v1) && FieldOk(f) && FieldOk(g)
    requires f.fieldId == g.fieldId && Above(v1, f.fieldId) && !SameMeaning(f, g)
    ensures var a, b := Spec(v1.fields + [f]), Spec(v1.fields + [g]);
            Allowed(Some(v1), a) && Allowed(Some(v1), b) && !Allowed(Some(a), b)
  {
    OneFieldMore(v1, f);
    OneFieldMore(v1, g);
    var a, b := Spec(v1.fields + [f]), Spec(v1.fields + [g]);
    assert a.fields[|v1.fields|] in a.fields;
    forall h | h in b.fields
      ensures !SameMeaning(f, h)
    {
      assert h in v1.fields || h == g;
    }
  }

  // ----- the transform parameter, which the rule does not protect

  ghost predicate KeepsParams(current: Spec, proposed: Spec) {
    forall f, g :: f in current.fields && g in proposed.fields && f.fieldId == g.fieldId ==> f.param == g.param
  }

  lemma NoParamsToChange(current: Spec, p: Spec)
    requires WellFormed(current) && Allowed(Some(current), p)
    requires forall f :: f in current.fields ==> !ParamRequired(f.transform)
    ensures KeepsParams(current, p)
  {
    MeaningIsKept(current, p);
  }

  function Reparameterized(current: Spec, k: nat): Spec
    requires k < |current.fields|
  {
    var f := current.fields[k];
    Spec(current.fields[k := f.(param := Some(if f.param == Some(1) then 2 else 1))])
  }

  /** The proposal that only changes one parameter is accepted. */
  lemma ReparameterizedAllowed(current: Spec, k: nat)
    requires WellFormed(current) && k < |current.fields| && ParamRequired(current.fields[k].transform)
    ensures Allowed(Some(current), Reparameterized(current, k)) && !KeepsParams(current, Reparameterized(current, k))
  {
    var p := Reparameterized(current, k);
    var f, g := current.fields[k], p.fields[k];
    forall i | 0 <= i < |current.fields|
      ensures p.fields[i] in p.fields && SameMeaning(current.fields[i], p.fields[i])
    {
    }
    forall h | h in p.fields
      ensures HasId(current, h.fieldId)
    {
      var i :| 0 <= i < |p.fields| && p.fields[i] == h;
      assert current.fields[i] in current.fields;
    }
    assert f in current.fields && g in p.fields;
  }
}

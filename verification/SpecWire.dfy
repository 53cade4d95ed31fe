/** Conversion of partition specs to and from their protobuf form. */
module SpecWire {
  import opened Words
  import opened PartitionSpecs

  type int32 = x: int | -TWO_31 <= x < TWO_31

  /** A field on the wire. Enums are open: any number may arrive. */
  datatype WireField = WireField(fieldId: int32, sourceColumn: string, transform: int32, param: int32)

  const NAMES := ["identity", "year", "month", "day", "hour", "bucket", "truncate"]

  function TransformName(t: int32): string {
    if 1 <= t < |NAMES| then NAMES[t] else "identity"
  }

  function TransformNumber(name: string): int32 {
    match name
    case "year" => 1
    case "month" => 2
    case "day" => 3
    case "hour" => 4
    case "bucket" => 5
    case "truncate" => 6
    case _ => 0
  }

  function FromWire(w: WireField): Field {
    Field(w.fieldId, w.sourceColumn, TransformName(w.transform), if w.param != 0 then Some(w.param) else None)
  }

  function ToInt32(x: int): int32 {
    ModBounds(x);
    Wrap32(x)
  }

  lemma ModBounds(x: int)
    ensures -TWO_31 <= Wrap32(x) < TWO_31
    ensures -TWO_31 <= x < TWO_31 ==> Wrap32(x) == x
  {
  }

  function ToWire(f: Field): WireField {
    WireField(ToInt32(f.fieldId), f.sourceColumn, TransformNumber(f.transform),
              if f.param.Some? then ToInt32(f.param.value) else 0)
  }

  function SpecFromWire(ws: seq<WireField>): Spec {
    Spec(seq(|ws|, i requires 0 <= i < |ws| => FromWire(ws[i])))
  }

  function SpecToWire(s: Spec): seq<WireField> {
    seq(|s.fields|, i requires 0 <= i < |s.fields| => ToWire(s.fields[i]))
  }

  method ProtoToPartitionSpec(message: Option<seq<WireField>>) returns (s: Spec)
    ensures s == SpecFromWire(if message.Some? then message.value else [])
    ensures |s.fields| == if message.Some? then |message.value| else 0
    ensures forall i :: 0 <= i < |s.fields| ==>
              var w := message.value[i];
              && s.fields[i].fieldId == w.fieldId && s.fields[i].sourceColumn == w.sourceColumn
              && s.fields[i].transform == TransformName(w.transform)
              && s.fields[i].param == if w.param == 0 then None else Some(w.param)
  {
    if message.None? {
      return Spec([]);
    }
    var fields: seq<Field> := [];
    var i := 0;
    while i < |message.value|
      invariant 0 <= i <= |message.value|
      invariant fields == SpecFromWire(message.value).fields[..i]
    {
      var w := message.value[i];
      var pf := Field(w.fieldId, w.sourceColumn, TransformName(w.transform), None);
      if w.param != 0 {
        pf := pf.(param := Some(w.param));
      }
      fields := fields + [pf];
      i := i + 1;
    }
    return Spec(fields);
  }

  method PartitionSpecToProto(s: Spec) returns (ws: seq<WireField>)
    ensures ws == SpecToWire(s)
    ensures |ws| == |s.fields|
    ensures forall i :: 0 <= i < |ws| ==>
              var f := s.fields[i];
              && ws[i].sourceColumn == f.sourceColumn && ws[i].transform == TransformNumber(f.transform)
              && ws[i].fieldId == Wrap32(f.fieldId)
              && ws[i].param == if f.param.Some? then Wrap32(f.param.value) else 0
  {
    ws := [];
    var i := 0;
    while i < |s.fields|
      invariant 0 <= i <= |s.fields|
      invariant ws == SpecToWire(s)[..i]
    {
      var f := s.fields[i];
      var w := WireField(ToInt32(f.fieldId), f.sourceColumn, TransformNumber(f.transform), 0);
      if f.param.Some? {
        w := w.(param := ToInt32(f.param.value));
      }
      ws := ws + [w];
      i := i + 1;
    }
  }

  // ----- round trips

  ghost predicate Representable(f: Field) {
    && -TWO_31 <= f.fieldId < TWO_31
    && f.transform in VALID_TRANSFORMS
    && (f.param.Some? ==> f.param.value != 0 && -TWO_31 <= f.param.value < TWO_31)
  }

  /** The numbers of the transforms; an unknown number stands for the identity, and an unknown name has its number. */
  lemma TransformTable(t: int32, name: string)
    ensures TransformName(t)
         == if t == 1 then "year" else if t == 2 then "month" else if t == 3 then "day" else if t == 4 then "hour"
            else if t == 5 then "bucket" else if t == 6 then "truncate" else "identity"
    ensures TransformNumber(name)
         == if name == "year" then 1 else if name == "month" then 2 else if name == "day" then 3 else if name == "hour" then 4
            else if name == "bucket" then 5 else if name == "truncate" then 6 else 0
  {
  }

  lemma NameOfNumber(name: string)
    ensures TransformName(TransformNumber(name)) == name <==> name in VALID_TRANSFORMS
  {
  }

  lemma FieldRoundTrip(f: Field)
    ensures FromWire(ToWire(f)) == f <==> Representable(f)
  {
    NameOfNumber(f.transform);
    ModBounds(f.fieldId);
    if f.param.Some? {
      ModBounds(f.param.value);
    }
  }

  /** A spec survives the way to the wire and back exactly when each field fits it. */
  lemma RoundTripIff(s: Spec)
    ensures SpecFromWire(SpecToWire(s)) == s <==> forall f :: f in s.fields ==> Representable(f)
  {
    var t := SpecFromWire(SpecToWire(s));
    forall i | 0 <= i < |s.fields|
      ensures t.fields[i] == s.fields[i] <==> Representable(s.fields[i])
    {
      FieldRoundTrip(s.fields[i]);
    }
    if forall f :: f in s.fields ==> Representable(f) {
      assert t.fields == s.fields;
    }
  }

  /** So every spec that arrived on the wire goes back to it unchanged, accepted or not. */
  lemma ReceivedSpecsSurvive(ws: seq<WireField>)
    ensures SpecFromWire(SpecToWire(SpecFromWire(ws))) == SpecFromWire(ws)
  {
    var s := SpecFromWire(ws);
    forall f | f in s.fields
      ensures Representable(f)
    {
      var i :| 0 <= i < |ws| && s.fields[i] == f;
      assert TransformName(ws[i].transform) in VALID_TRANSFORMS;
    }
    RoundTripIff(s);
  }

  ghost predicate AllKeepParams(current: Spec) {
    forall ws :: Allowed(Some(current), SpecFromWire(ws)) ==> KeepsParams(current, SpecFromWire(ws))
  }

  /** No request can change a parameter of a received spec exactly when the spec has no bucket or truncate field. */
  lemma ParamsKeptIff(message: seq<WireField>)
    requires WellFormed(SpecFromWire(message))
    ensures AllKeepParams(SpecFromWire(message)) <==> forall f :: f in SpecFromWire(message).fields ==> !ParamRequired(f.transform)
  {
    var current := SpecFromWire(message);
    if forall f :: f in current.fields ==> !ParamRequired(f.transform) {
      forall ws | Allowed(Some(current), SpecFromWire(ws))
        ensures KeepsParams(current, SpecFromWire(ws))
      {
        NoParamsToChange(current, SpecFromWire(ws));
      }
    } else {
      var k :| 0 <= k < |current.fields| && ParamRequired(current.fields[k].transform);
      ReparameterizedAllowed(current, k);
      ReparameterizedFits(message, k);
      assert SpecFromWire(SpecToWire(Reparameterized(current, k))) == Reparameterized(current, k);
    }
  }

  lemma ReparameterizedFits(message: seq<WireField>, k: nat)
    requires k < |message|
    ensures var p := Reparameterized(SpecFromWire(message), k); SpecFromWire(SpecToWire(p)) == p
  {
    var current, p := SpecFromWire(message), Reparameterized(SpecFromWire(message), k);
    ReceivedSpecsSurvive(message);
    RoundTripIff(current);
    forall f | f in p.fields
      ensures Representable(f)
    {
      var i :| 0 <= i < |p.fields| && p.fields[i] == f;
      assert current.fields[i] in current.fields;
    }
    RoundTripIff(p);
  }

  /** The message itself comes back unchanged exactly when every enum number is a known one. */
  lemma MessageRoundTripIff(ws: seq<WireField>)
    ensures SpecToWire(SpecFromWire(ws)) == ws <==> forall w :: w in ws ==> 0 <= w.transform < |NAMES|
  {
    var back := SpecToWire(SpecFromWire(ws));
    forall i | 0 <= i < |ws|
      ensures back[i] == ws[i] <==> 0 <= ws[i].transform < |NAMES|
    {
      NumberOfName(ws[i].transform);
      ModBounds(ws[i].fieldId);
      ModBounds(ws[i].param);
    }
    if forall w :: w in ws ==> 0 <= w.transform < |NAMES| {
      assert back == ws;
    }
  }

  lemma NumberOfName(t: int32)
    ensures TransformNumber(TransformName(t)) == t <==> 0 <= t < |NAMES|
  {
    assert 0 <= t < 7 ==> t == 0 || t == 1 || t == 2 || t == 3 || t == 4 || t == 5 || t == 6;
  }
}

/**
 * The per-field decision of the generator: from a field's kind, map flag and
 * referenced message to no entry or one mapping expression.
 */
module FieldMapper {
  import opened Wrappers
  import opened Protogen
  import opened OpensearchTypes

  /** The message a field refers to (protogen's `Message`, nil for scalar kinds). */
  function Referenced(f: Field): (r: Option<Ident>)
    ensures r.Some? <==> f.kind.MessageKind? || f.kind.GroupKind?
  {
    match f.kind
    case MessageKind(id) => Some(id)
    case GroupKind(id) => Some(id)
    case _ => None
  }

  /** Fields the generator passes over before looking at the kind: map fields
      and fields of type google.protobuf.Value. */
  predicate Skipped(f: Field) {
    f.isMap || Referenced(f) == Some(StructValue)
  }

  /** A mapping that sets nothing but its type. */
  function Leaf(typ: string): OpensearchMapping {
    OpensearchMapping(typ, Literal(map[]), map[], Unset, 0)
  }

  /** Analysed text with a keyword sub-field truncated at 256 characters. */
  const TextWithKeyword: OpensearchMapping :=
    OpensearchMapping("text", Literal(map[]), map["keyword" := OpensearchMapping("keyword", Literal(map[]), map[], Unset, 256)], Unset, 0)

  /** The "byte" type with indexing switched off through `falseBool`. */
  const UnindexedByte: OpensearchMapping := OpensearchMapping("byte", Literal(map[]), map[], FalseBool, 0)

  const TimestampProperties: map<string, OpensearchMapping> :=
    map["seconds" := Leaf("long"), "nanos" := Leaf("integer")]

  const AnyProperties: map<string, OpensearchMapping> :=
    map["type_url" := TextWithKeyword, "value" := UnindexedByte]

  /** The nested object for a field that refers to message `id`. */
  function NestedFor(id: Ident): (r: OpensearchMapping)
    ensures r.typ == "nested" && r.fields == map[] && r.index == Unset
    ensures r.properties.CallRoutine? <==> id != TimestampIdent && id != AnyIdent
    ensures r.properties.CallRoutine? ==> r.properties.ident == id
  {
    var props :=
      if id == TimestampIdent then Literal(TimestampProperties)
      else if id == AnyIdent then Literal(AnyProperties)
      else CallRoutine(id);
    OpensearchMapping("nested", props, map[], Unset, 0)
  }

  /**
   * The mapping written under a field's JSON name, or None when the field gets no
   * entry: skipped fields and the empty bool and enum arms of the kind switch.
   */
  function FieldMapping(f: Field): (r: Option<OpensearchMapping>)
    ensures r.None? <==> Skipped(f) || f.kind.BoolKind? || f.kind.EnumKind?
    ensures r.Some? && Referenced(f).Some? ==> r.value == NestedFor(Referenced(f).value)
  {
    if Skipped(f) then None
    else
      match f.kind
      case BoolKind => None
      case EnumKind => None
      case Int32Kind | Sint32Kind | Fixed32Kind | Sfixed32Kind => Some(Leaf("integer"))
      case Uint32Kind | Int64Kind | Sint64Kind | Fixed64Kind | Sfixed64Kind => Some(Leaf("long"))
      case Uint64Kind => Some(Leaf("unsigned_long"))
      case FloatKind => Some(Leaf("float"))
      case DoubleKind => Some(Leaf("double"))
      case StringKind => Some(TextWithKeyword)
      case BytesKind => Some(UnindexedByte)
      case MessageKind(id) => Some(NestedFor(id))
      case GroupKind(id) => Some(NestedFor(id))
  }

  /** The fields before whose entry the routine needs `falseBool`: bytes fields
      and fields of type google.protobuf.Any that were not skipped. */
  predicate NeedsFalseBool(f: Field) {
    !Skipped(f) && (f.kind.BytesKind? || Referenced(f) == Some(AnyIdent))
  }

  /**
   * The declaration rule agrees with the mapping: a field's entry takes the
   * address of `falseBool` exactly when the field is one for which the
   * declaration is emitted.
   */
  lemma MappingRefersFalseBool(f: Field)
    ensures NeedsFalseBool(f) ==> FieldMapping(f).Some?
    ensures FieldMapping(f).Some? ==> (RefersFalseBool(FieldMapping(f).value) <==> NeedsFalseBool(f))
  {
    if FieldMapping(f).Some? {
      var e := FieldMapping(f).value;
      if f.kind == StringKind {
        assert e.fields.Keys == {"keyword"};
        assert !RefersFalseBool(e.fields["keyword"]);
      } else if f.kind.MessageKind? || f.kind.GroupKind? {
        NestedRefersFalseBool(f.kind.message);
      } else if f.kind != BytesKind {
        assert e == Leaf(e.typ);
      }
    }
  }

  lemma NestedRefersFalseBool(id: Ident)
    ensures RefersFalseBool(NestedFor(id)) <==> id == AnyIdent
  {
    var e := NestedFor(id);
    if id == TimestampIdent {
      assert e.properties.entries.Keys == {"seconds", "nanos"};
      assert !RefersFalseBool(e.properties.entries["seconds"]);
      assert !RefersFalseBool(e.properties.entries["nanos"]);
    } else if id == AnyIdent {
      assert e.properties.entries["value"] == UnindexedByte;
      assert RefersFalseBool(e.properties.entries["value"]);
    }
  }

  /** A string field is analysed text with a keyword sub-field capped at 256. */
  lemma StringFieldShape(f: Field)
    requires f.kind == StringKind && !f.isMap
    ensures FieldMapping(f).Some?
    ensures var e := FieldMapping(f).value;
      && e.typ == "text" && e.index == Unset && e.properties == Literal(map[])
      && e.fields.Keys == {"keyword"}
      && e.fields["keyword"].typ == "keyword" && e.fields["keyword"].ignoreAbove == 256
  {
  }

  /** A bytes field is of type "byte" with indexing switched off. */
  lemma BytesFieldShape(f: Field)
    requires f.kind == BytesKind && !f.isMap
    ensures FieldMapping(f) == Some(OpensearchMapping("byte", Literal(map[]), map[], FalseBool, 0))
  {
  }

  /** A float field is "float" and a double field is "double", with nothing else set. */
  lemma FloatingFieldShape(f: Field)
    requires !f.isMap
    ensures f.kind == FloatKind ==> FieldMapping(f) == Some(OpensearchMapping("float", Literal(map[]), map[], Unset, 0))
    ensures f.kind == DoubleKind ==> FieldMapping(f) == Some(OpensearchMapping("double", Literal(map[]), map[], Unset, 0))
  {
  }

  /**
   * A message or group field is a nested object whose properties are the fixed
   * seconds/nanos pair for Timestamp, the fixed type_url/value pair for Any, and
   * otherwise the result of the referenced message's own routine.
   */
  lemma MessageFieldShape(f: Field)
    requires (f.kind.MessageKind? || f.kind.GroupKind?) && !f.isMap && f.kind.message != StructValue
    ensures FieldMapping(f).Some? && FieldMapping(f).value.typ == "nested"
    ensures var p := FieldMapping(f).value.properties;
      if f.kind.message == TimestampIdent then
        p == Literal(map["seconds" := Leaf("long"), "nanos" := Leaf("integer")])
      else if f.kind.message == AnyIdent then
        p.Literal? && p.entries.Keys == {"type_url", "value"}
        && p.entries["type_url"] == TextWithKeyword
        && p.entries["value"].typ == "byte" && p.entries["value"].index == FalseBool
      else
        p == CallRoutine(f.kind.message)
  {
  }

  // ---------------------------------------------------------------------------
  // Integer kinds against the value ranges of the OpenSearch numeric types.

  datatype Range = Range(lo: int, hi: int)

  predicate IsIntegerKind(k: Kind) {
    k in {Int32Kind, Sint32Kind, Uint32Kind, Int64Kind, Sint64Kind, Uint64Kind,
          Sfixed32Kind, Fixed32Kind, Sfixed64Kind, Fixed64Kind}
  }

  /** The values a protobuf integer kind can carry (protobuf language guide,
      "Scalar Value Types"): fixed32 and fixed64 are unsigned. */
  function KindRange(k: Kind): Range
    requires IsIntegerKind(k)
  {
    match k
    case Int32Kind | Sint32Kind | Sfixed32Kind => Range(-0x8000_0000, 0x7FFF_FFFF)
    case Uint32Kind | Fixed32Kind => Range(0, 0xFFFF_FFFF)
    case Int64Kind | Sint64Kind | Sfixed64Kind => Range(-0x8000_0000_0000_0000, 0x7FFF_FFFF_FFFF_FFFF)
    case Uint64Kind | Fixed64Kind => Range(0, 0xFFFF_FFFF_FFFF_FFFF)
  }

  /** The values the OpenSearch integer field types the generator uses accept. */
  function TypeRange(typ: string): Option<Range> {
    if typ == "integer" then Some(Range(-0x8000_0000, 0x7FFF_FFFF))
    else if typ == "long" then Some(Range(-0x8000_0000_0000_0000, 0x7FFF_FFFF_FFFF_FFFF))
    else if typ == "unsigned_long" then Some(Range(0, 0xFFFF_FFFF_FFFF_FFFF))
    else None
  }

  /** Every value of kind k fits in the OpenSearch type typ. */
  predicate Holds(typ: string, k: Kind)
    requires IsIntegerKind(k)
  {
    TypeRange(typ).Some? && TypeRange(typ).value.lo <= KindRange(k).lo && KindRange(k).hi <= TypeRange(typ).value.hi
  }

  /** The integer types the generator chooses from, in the order the corrected table tries them. */
  const IntegerTypes: seq<string> := ["integer", "long", "unsigned_long"]

  /**
   * The table as written holds every integer kind except fixed32 and fixed64,
   * and it picks the first of IntegerTypes that does.
   */
  lemma IntegerTableHolds(f: Field)
    requires IsIntegerKind(f.kind) && !f.isMap && f.kind != Fixed32Kind && f.kind != Fixed64Kind
    ensures FieldMapping(f).Some? && FieldMapping(f).value == Leaf(CoveringIntegerType(f.kind))
    ensures Holds(FieldMapping(f).value.typ, f.kind)
  {
  }

  /** fixed32 is mapped to "integer", which cannot hold 4294967295. */
  lemma Fixed32NotHeld(f: Field)
    requires f.kind == Fixed32Kind && !f.isMap
    ensures FieldMapping(f) == Some(Leaf("integer"))
    ensures KindRange(Fixed32Kind).hi == 4294967295 > TypeRange("integer").value.hi
    ensures !Holds(FieldMapping(f).value.typ, f.kind)
  {
  }

  /** fixed64 is mapped to "long", which cannot hold 18446744073709551615. */
  lemma Fixed64NotHeld(f: Field)
    requires f.kind == Fixed64Kind && !f.isMap
    ensures FieldMapping(f) == Some(Leaf("long"))
    ensures KindRange(Fixed64Kind).hi == 18446744073709551615 > TypeRange("long").value.hi
    ensures !Holds(FieldMapping(f).value.typ, f.kind)
  {
  }

  /**
   * The corrected choice for an integer kind: the first of IntegerTypes that
   * holds all its values, so also one with the smallest range. It agrees with
   * the generator's table except on fixed32 (long) and fixed64 (unsigned_long).
   */
  function CoveringIntegerType(k: Kind): (typ: string)
    requires IsIntegerKind(k)
    ensures typ in IntegerTypes && Holds(typ, k)
    ensures exists i :: 0 <= i < |IntegerTypes| && IntegerTypes[i] == typ &&
              forall j :: 0 <= j < i ==> !Holds(IntegerTypes[j], k)
    ensures forall i :: 0 <= i < |IntegerTypes| && Holds(IntegerTypes[i], k) ==>
              TypeRange(typ).value.hi - TypeRange(typ).value.lo <= TypeRange(IntegerTypes[i]).value.hi - TypeRange(IntegerTypes[i]).value.lo
  {
    match k
    case Int32Kind | Sint32Kind | Sfixed32Kind => "integer"
    case Uint32Kind | Fixed32Kind | Int64Kind | Sint64Kind | Sfixed64Kind => "long"
    case Uint64Kind | Fixed64Kind => "unsigned_long"
  }

}

/**
 * The protobuf descriptor information the generator reads, taken as given input:
 * a message's Go identifier, whether it is a synthetic map entry, its fields in
 * declaration order and its lexically nested messages; a field's JSON name, kind
 * and map flag.
 */
module Protogen {

  /** A Go identifier: the import path of its package and its name (protogen's GoIdent). */
  datatype Ident = Ident(importPath: string, name: string)

  /** google.protobuf.Value, which the generator never maps. */
  const StructValue: Ident := Ident("google.golang.org/protobuf/types/known/structpb", "Value")

  /** google.protobuf.Any, mapped to a fixed type_url/value object. */
  const AnyIdent: Ident := Ident("google.golang.org/protobuf/types/known/anypb", "Any")

  /** google.protobuf.Timestamp, mapped to a fixed seconds/nanos object. */
  const TimestampIdent: Ident := Ident("google.golang.org/protobuf/types/known/timestamppb", "Timestamp")

  /**
   * The field kinds of protoreflect. A message- or group-kind field carries the
   * identifier of the message it refers to, which is exactly when protogen sets
   * the field's Message.
   */
  datatype Kind =
    | BoolKind | EnumKind
    | Int32Kind | Sint32Kind | Uint32Kind
    | Int64Kind | Sint64Kind | Uint64Kind
    | Sfixed32Kind | Fixed32Kind | FloatKind
    | Sfixed64Kind | Fixed64Kind | DoubleKind
    | StringKind | BytesKind
    | MessageKind(message: Ident)
    | GroupKind(message: Ident)

  datatype Field = Field(jsonName: string, kind: Kind, isMap: bool)

  datatype Message = Message(ident: Ident, isMapEntry: bool, fields: seq<Field>, messages: seq<Message>)

  /** A message together with every message declared (transitively) inside it. */
  function Subtree(m: Message): (r: set<Message>)
    decreases m
    ensures m in r
  {
    {m} + Forest(m.messages, 0)
  }

  /** The subtrees of ms[i..]. */
  function Forest(ms: seq<Message>, i: nat): (r: set<Message>)
    decreases ms, |ms| - i
    ensures forall j :: i <= j < |ms| ==> Subtree(ms[j]) <= r
  {
    if i >= |ms| then {} else Subtree(ms[i]) + Forest(ms, i + 1)
  }

  /**
   * No message shares its identifier with a message nested inside it. protogen
   * names a nested message Parent_Child, so every descriptor tree it builds has
   * this property.
   */
  predicate WellNested(m: Message)
    decreases m
  {
    && (forall d :: d in Forest(m.messages, 0) ==> d.ident != m.ident)
    && (forall i :: 0 <= i < |m.messages| ==> WellNested(m.messages[i]))
  }

}

# protoc-gen-go-opensearch: the mapping generator, modelled in Dafny

protoc-gen-go-opensearch is a protoc plugin. For every protobuf message of a
`.proto` file it writes a Go method `GetOpensearchMappings()`. That method
returns a map from each field's JSON name to an `OpensearchMapping`: the
OpenSearch index mapping for that field.

This project models the generator in `internal_gengo/main.go`. It has two parts:

- **The walker** (`processMessage`, `GenerateFile`). It visits a file's messages
  depth-first over their lexically nested messages. It skips map-entry messages
  and messages recorded in the package-level `mapMessageProcessed` set. For each
  message it writes a routine and then records the message as processed.
- **The field dispatch** (the kind switch). It decides, field by field, whether
  the routine assigns an entry and which mapping that entry holds.

Modules:

- `Protogen` (`protogen.dfy`): the descriptor input. A message has a Go
  identifier, a map-entry flag, fields and nested messages. A field has a JSON
  name, a kind and a map flag. A message- or group-kind field carries the
  identifier of the message it refers to.
- `OpensearchTypes` (`opensearch_types.dfy`): the `OpensearchMapping` value as
  the generator writes it. `Properties` is either a literal map or a call to
  another message's routine.
- `FieldMapper` (`field_mapper.dfy`): the kind switch, as the pure function
  `FieldMapping`, with lemmas that give its shape for each kind. It also checks
  the integer kinds against the value ranges of OpenSearch's numeric types.
- `Generator` (`generator.dfy`): the emitted statements (`falseBool := false`
  and `mapping["name"] = ...`). The walk is specified by the functions `Body`,
  `Walk` and `WalkList`, with lemmas about them. The class `Plugin` holds
  `processed` (the package-level set) and `output` (the generated file's
  routines). Its methods `ProcessMessage` and `GenerateFile` are loops, and each
  is proved equal to its specification function.

What the code does, which is sometimes not what a prose description of the
plugin says. The model follows the code:

- bool and enum fields get no entry: their `case` arms are empty.
- uint64 maps to `unsigned_long`.
- bytes maps to `byte` with `Index` pointing at a local `false`.
- Timestamp becomes a nested object with `seconds` (long) and `nanos` (integer).
- `google.protobuf.Any` becomes a nested object with `type_url` and `value`.
  The key `type_url` is the proto field name, while every other routine keys
  its entries by JSON name (`typeUrl` for this field).
- Fields of type `google.protobuf.Value` and map fields get no entry.
- There is no comment or annotation handling, no date `Format`, and no
  time-of-day special case.

## Model

| member | source | states |
|---|---|---|
| `FieldMapper.FieldMapping` | internal_gengo/main.go:64-163 | a field gets no entry exactly when it is a map field, refers to google.protobuf.Value, or is bool or enum; a message or group field gets the nested mapping for the message it refers to |
| `FieldMapper.NestedFor` | internal_gengo/main.go:124-162 | a message field's mapping is "nested", with no sub-fields and no Index; its Properties call the referenced message's routine exactly when that message is neither Timestamp nor Any |
| `FieldMapper.StringFieldShape` | internal_gengo/main.go:102-112 | a string field is "text", with a single "keyword" sub-field of type "keyword" and IgnoreAbove 256 |
| `FieldMapper.BytesFieldShape` | internal_gengo/main.go:113-123 | a bytes field is "byte", with Index pointing at `falseBool` and nothing else set |
| `FieldMapper.FloatingFieldShape` | internal_gengo/main.go:92-101 | a float field is "float" and a double field is "double", with nothing else set |
| `FieldMapper.MessageFieldShape` | internal_gengo/main.go:124-162 | a message or group field is "nested": Timestamp gets seconds long and nanos integer; Any gets type_url as text plus keyword/256 and value as byte with Index false; any other message gets the result of its own routine |
| `FieldMapper.MappingRefersFalseBool` | internal_gengo/main.go:113-130 | a field's entry takes the address of `falseBool` exactly when the field is bytes or Any, which are the fields for which the declaration is emitted |
| `FieldMapper.IntegerTableHolds` | internal_gengo/main.go:77-101 | for every integer kind except fixed32 and fixed64, the chosen type is the corrected choice: it holds all values of the kind and is the first of integer, long and unsigned_long that does |
| `FieldMapper.Fixed32NotHeld` | internal_gengo/main.go:77-81 | a fixed32 field is mapped to "integer", which cannot hold 4294967295 |
| `FieldMapper.Fixed64NotHeld` | internal_gengo/main.go:82-86 | a fixed64 field is mapped to "long", which cannot hold 18446744073709551615 |
| `FieldMapper.CoveringIntegerType` | internal_gengo/main.go:77-91 | the corrected choice for an integer kind holds all its values, is the first of integer, long and unsigned_long that does, and has the smallest range among those that do |
| `Generator.EmitMappingRoutine` | internal_gengo/main.go:61-166 | the loop over the fields, with its `initializedFalseBool` flag, writes exactly the statements of `Body` |
| `Generator.EntryKeys` | internal_gengo/main.go:64-76 | the routine's map is keyed by JSON names, and a field's name is a key exactly when the field gets an entry |
| `Generator.EntryValue` | internal_gengo/main.go:79-162 | the entry under a field's JSON name is that field's mapping, unless a later field reuses the name |
| `Generator.EntryCount` | internal_gengo/main.go:63-76 | a routine returns at most as many entries as the message has fields |
| `Generator.FalseBoolDeclaredOnce` | internal_gengo/main.go:61 | `falseBool := false` is written at most once per routine, and exactly when some field needs it |
| `Generator.FalseBoolUsedIffDeclared` | internal_gengo/main.go:115-130 | `falseBool` is declared exactly when some assignment takes its address |
| `Generator.FalseBoolDeclaredBeforeUse` | internal_gengo/main.go:115-156 | every assignment that takes the address of `falseBool` comes after its declaration |
| `Generator.Walk` | internal_gengo/main.go:42-170 | a processed or map-entry message changes nothing; otherwise the run only grows, the message ends up processed, and the identifiers newly processed are exactly those of the routines newly written, none of them processed before |
| `Generator.WalkList` | internal_gengo/main.go:53-55 | walking a list of messages keeps what came before, processes every message in it that is not a map entry, and adds to the processed set exactly the identifiers of the routines it writes |
| `Generator.WalkSources` | internal_gengo/main.go:47-59 | every routine a walk writes is for a message of that subtree that is not a map entry, with the body computed from that message's own fields |
| `Generator.WalkEmitsOnce` | internal_gengo/main.go:43-45 | within one walk no identifier gets two routines, provided no message shares its identifier with one nested inside it |
| `Generator.WalkListEmitsOnce` | internal_gengo/main.go:37-39 | the same holds for a file's top-level messages walked in order |
| `Generator.NestedBeforeEnclosing` | internal_gengo/main.go:53-59 | a message's routine is the last one its walk writes, and every nested message that is not a map entry got its routine earlier |
| `Generator.MapEntryNeverProcessed` | internal_gengo/main.go:47-49 | an identifier held only by map-entry messages is never added to the processed set |
| `Generator.RunEmitsEachIdentOnce` | internal_gengo/main.go:25 | over two files of one run, no identifier gets two routines, because the processed set carries over |
| `Generator.SelfReference` | internal_gengo/main.go:160 | a message with a field of its own type gets one routine whose entry calls that same routine; walking it again writes nothing |
| `Generator.TimestampPropertiesMatchItsFields` | internal_gengo/main.go:134-142 | the fixed Timestamp properties are what the generic walk gives Timestamp's own fields: int64 seconds and int32 nanos |
| `Generator.AnyPropertiesUseProtoNames` | internal_gengo/main.go:143-158 | the fixed Any properties hold the mappings the generic walk gives Any's own fields (string type_url, bytes value), but key type_url by its proto name: the walk would key it by its JSON name "typeUrl", which the fixed map lacks |
| `Generator.Plugin.constructor` | internal_gengo/main.go:25 | the processed set starts empty |
| `Generator.Plugin.ProcessMessage` | internal_gengo/main.go:42-170 | the new processed set and the new output are those given by `Walk` |
| `Generator.Plugin.GenerateFile` | internal_gengo/main.go:28-40 | a new file holds the routines `WalkList` gives for the file's messages; the processed set only grows, and every routine in the file is for an identifier that was not processed before |

## Left out

- Plugin plumbing is not modelled: the generated file's name, `NewGeneratedFile`, the package line, `SupportedFeatures`, `GenerateVersionMarkers`, and `newFileInfo` (which is not part of this model).
- The text that `g.P` writes is not modelled. This covers `QualifiedGoIdent` and import handling, and the capacity hint `len(m.Fields)`. Routines and statements are structured values instead.
- The run-time behaviour of the generated routines is not modelled. A call to another routine is kept as `CallRoutine(ident)`. For a self-referencing message, running the generated code would recurse without end.
- `OpensearchMapping` keeps only what the generator sets. `Analyzer`, `Format`, `DynamicTemplates`, the JSON tags and `omitempty` serialisation are left out. An empty literal map stands for both a nil map and an empty one.
- Protobuf descriptor internals (`protoreflect`, `protogen`) are left out. Kind, `IsMap`, `IsMapEntry`, `JSONName` and `GoIdent` are inputs. The `GoIdent.String()` comparisons against the structpb, anypb and timestamppb literals become equality with identifier constants.
- Generator.WalkEmitsOnce: this lemma assumes `Protogen.WellNested`, meaning no message shares its Go identifier with a message nested inside it. protogen names a nested message `Parent_Child`, so its descriptor trees always satisfy this.
- Generator.EntryValue: this lemma states the entry for a field only when no later field has the same JSON name, because later assignments overwrite earlier ones. protoc rejects JSON-name clashes in proto3.

## Findings

| source | as written | input that shows it | evidently intended | confidence | as-written member | corrected member |
|---|---|---|---|---|---|---|
| internal_gengo/main.go:77 | a fixed32 field (an unsigned 32-bit value) is mapped to "integer" (signed 32-bit) | a fixed32 field holding 4294967295 | "long", the type the code chooses for uint32 | medium; not executed | `FieldMapper.Fixed32NotHeld` | `FieldMapper.CoveringIntegerType` |
| internal_gengo/main.go:82 | a fixed64 field (an unsigned 64-bit value) is mapped to "long" (signed 64-bit) | a fixed64 field holding 18446744073709551615 | "unsigned_long", the type the code chooses for uint64 | medium; not executed | `FieldMapper.Fixed64NotHeld` | `FieldMapper.CoveringIntegerType` |

`FieldMapping`, and the walker that uses it, keep the table as written, so the
model of the generated routines matches the plugin's actual output.
`CoveringIntegerType` is the corrected table. It is proved to hold every
integer kind and to be the first of integer, long and unsigned_long that does. `IntegerTableHolds` proves
that it agrees with the code on every integer kind except fixed32 and fixed64.

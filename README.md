# jackson-dataformat-protobuf: schema layer and writer state, in Dafny

This project models the part of jackson-dataformat-protobuf that exists in this snapshot of the repository. That is the schema layer, which turns a parsed `.proto` declaration tree into resolved message descriptors, plus the small stateful helpers around it. The protobuf writer's byte encoder is not written in this snapshot.

- **Declarations and scalar types.** `ProtoAst` holds the declaration tree that a `.proto` parser produces: message and enum declarations, nested declarations, and field declarations with label, type name, tag, `packed` and `deprecated`. `FieldTypes` holds the field types, their wire types, their alias names and the alias table that `FieldTypes.findType` consults.
- **Wire primitives.** `Wire` holds the six wire types and `WireType.valueOf`. It also holds the typed tag `(tag << 3) + wireType` in Java `int` arithmetic, and the base-128 length prefix. Both follow the "Message Structure" and "Base 128 Varints" sections of the Protocol Buffers Encoding guide.
- **Descriptors.** `Descriptors` holds `ProtobufEnum`, `ProtobufField` and `ProtobufMessage`, with:
  - the field constructors: typed tag, label flags and `isObject`;
  - `unknownField`, `assignMessageType`, `bogusMessage`;
  - lookup by name and by id;
  - the dense id index built by `ProtobufMessage.init`.
- **Descriptor cycles.** A message field may refer to its own message, so resolved messages live in an arena (a sequence). A field names its target by index in that arena.
- **Type resolution.** `TypeResolver` models the chain of `TypeResolver` scopes, innermost last. It covers:
  - `construct`;
  - `_constructEnum`;
  - `resolve` and `_resolve`. `_resolve` registers the message in its own scope before its fields are resolved, then sorts the fields by id and links them;
  - the lookups `_findResolvedMessage`, `_findAnyResolved` and `_findLocalResolved`;
  - the known-name listings `_knownEnums` and `_knownMsgs` behind the unknown-type error.

  Each lookup is also proved equal to one reference definition of name binding, `Lookup`.
- **Schema entry points.** `NativeSchema` models `hasMessageType`, `forType`, `forFirstType` and their search loops.
- **Length-prefix accumulator.** `Accumulator` models the parent-linked `ByteAccumulator`.
- **Read contexts.** `ReadContext` models `ProtobufReadContext`: its single reusable child slot, `reset`, the child-context factories and `toString`.
- **Writer state machine.** `Generator` models the structural state machine of `ProtobufGenerator`: the feature bit masks, `setSchema`, `_findField`, start/end of arrays and objects, `writeNull` and `writeNumber(String)`. Each event is a pure step function on a state value. The generator class's methods are proved to perform exactly that step.
- **Schema registry.** `SchemaRegistry` models `DefinedProtobufSchemas`, the registry of generated schemas keyed by Java type.

`OrderedMap` is a sequence of key/value pairs standing in for Java's `LinkedHashMap`. `put` on an existing key keeps the key's position.

## Behaviour of the code worth knowing

- **Mutually recursive top-level messages.** A field whose type is a top-level message not yet registered anywhere in the chain goes to `_findAnyResolved` (TypeResolver.java:161-169). That method builds a fresh resolver for the message and calls `_resolve` on it, and `_resolve` registers the message only in that new scope (TypeResolver.java:93-99). So for `A { B b }`, `B { A a }`, resolving `A` resolves `B`, which resolves `A` again, without end. The model resolves with a fuel bound, and `NativeSchema.PingPongForType` proves that every amount of fuel runs out.
- **One descriptor per reference.** For the same reason, a top-level message named by two fields is resolved twice. For `Box { Point topLeft; Point bottomRight }`, the two fields point to two separate `Point` descriptors (`NativeSchema.BoxResolves`).
- **Self-reference.** `_resolve` registers the message before it resolves the fields (TypeResolver.java:93-99). So `Node { Node left; Node right }` resolves, and both fields point back to the root descriptor (`NativeSchema.NodeResolves`). References to enclosing messages bind to the registered descriptor in the same way.
- **Duplicate ids.** `_resolve` (TypeResolver.java:88-150) never calls `ProtobufMessage.init`. Resolved messages therefore keep `_idOffset = -1` and no id index, and duplicate field ids are not rejected during resolution. `Init` is modelled on its own.
- **Id span in `int`.** `init` computes `lastId - firstId + 1` in Java `int` (ProtobufMessage.java:64). For ids -2 and 2147483647 the span wraps to -2147483646 and `new ProtobufField[size]` throws NegativeArraySizeException. For ids spanning all of `int`, the span wraps to 0 and the first store is out of bounds.
- **Group wire types.** `WireType.valueOf` (WireType.java:24-35) accepts 3 and 4, the deprecated group wire types.
- **Unknown fields.** `_findField` (ProtobufGenerator.java:287-288) tests IGNORE_UNKNOWN_FIELDS against the inherited JSON feature word `_features`, not against `_protobufFeatures`. The feature's mask is bit 0 (see Findings).

## Model

| member | source | states |
|---|---|---|
| Wire.Ordinal | src/main/java/com/fasterxml/jackson/dataformat/protobuf/schema/WireType.java:11-21 | the ordinals of the six wire types are 0..5 |
| Wire.ValueOf | src/main/java/com/fasterxml/jackson/dataformat/protobuf/schema/WireType.java:24-35 | `valueOf(n)` succeeds exactly for 0..5 with the constant of that ordinal, and otherwise reports the rejected int |
| Wire.ValueOfOrdinal | src/main/java/com/fasterxml/jackson/dataformat/protobuf/schema/WireType.java:24-35 | round trip: `valueOf(w.ordinal()) == w` for every wire type |
| Wire.OrdinalInjective | src/main/java/com/fasterxml/jackson/dataformat/protobuf/schema/WireType.java:11-21 | distinct wire types have distinct ordinals |
| Wire.ToInt32 | src/main/java/com/fasterxml/jackson/dataformat/protobuf/schema/ProtobufField.java:67 | Java `int` wrap-around: the result is a 32-bit value congruent to the input modulo 2^32, and in-range values are unchanged |
| Wire.TypedTag | src/main/java/com/fasterxml/jackson/dataformat/protobuf/schema/ProtobufField.java:67 | `(tag << 3) + wireType` in 32-bit arithmetic equals `tag * 8 + wireType` for tags below 2^28 |
| Wire.TypedTagDecodes | src/main/java/com/fasterxml/jackson/dataformat/protobuf/schema/ProtobufField.java:67 | the typed tag decodes back to the field tag (`/ 8`) and the wire type (`% 8`, then `valueOf`) |
| Wire.TypedTagVectors | src/test/java/com/fasterxml/jackson/dataformat/protobuf/WriteSimpleTest.java:38-82 | id 1 and 2 varint give 0x08 and 0x10; id 3 and 5 length-prefixed give 0x1A and 0x2A; id 7 gives 0x3A |
| Wire.LengthAsBytes | src/main/java/com/fasterxml/jackson/dataformat/protobuf/ByteAccumulator.java:28 | the length prefix is non-empty, every byte but the last has the continuation bit, the last has none |
| Wire.DecodeLengthAsBytes | src/main/java/com/fasterxml/jackson/dataformat/protobuf/ByteAccumulator.java:28 | round trip: a base-128 decoder reads back exactly the length and stops at the end of the prefix, whatever follows |
| Wire.LengthAsBytesSize | src/test/java/com/fasterxml/jackson/dataformat/protobuf/WriteStringsTest.java:72-73 | lengths below 128 take one byte; 128..16383 give `0x80 + n % 128, n / 128`; 16384 and above take at least three bytes |
| FieldTypes.WireTypeOf | src/main/java/com/fasterxml/jackson/dataformat/protobuf/schema/FieldType.java:7-19 | no field type uses a group wire type; MESSAGE, STRING and BYTES, and only those, are length-prefixed |
| FieldTypes.UsesZigZag | src/main/java/com/fasterxml/jackson/dataformat/protobuf/schema/ProtobufField.java:57-58 | the model answers false for every type; the contract only guarantees that a type answering true is varint-encoded |
| FieldTypes.Aliases | src/main/java/com/fasterxml/jackson/dataformat/protobuf/schema/FieldTypes.java:14 | ENUM and MESSAGE, and only those, have no aliases |
| FieldTypes.AliasTableGet | src/main/java/com/fasterxml/jackson/dataformat/protobuf/schema/FieldTypes.java:11-20 | the table built by the nested loop maps an alias to the LAST type declaring it, and a non-alias to nothing |
| FieldTypes.BuildTypeTable | src/main/java/com/fasterxml/jackson/dataformat/protobuf/schema/FieldTypes.java:11-20 | the nested loop builds exactly the alias table |
| FieldTypes.FindType | src/main/java/com/fasterxml/jackson/dataformat/protobuf/schema/FieldTypes.java:22-28 | `findType(id)` answers iff the table has the key |
| FieldTypes.DisjointAliasTableGet | src/main/java/com/fasterxml/jackson/dataformat/protobuf/schema/FieldTypes.java:15-19 | when aliases are not shared, the table maps an id to t iff t is listed and declares that alias |
| FieldTypes.FindTypeExact | src/main/java/com/fasterxml/jackson/dataformat/protobuf/schema/FieldTypes.java:22-28 | `findType(id) == t` iff `id` is one of t's aliases |
| FieldTypes.FindTypeNeverNamed | src/main/java/com/fasterxml/jackson/dataformat/protobuf/schema/FieldTypes.java:14 | `findType` never returns ENUM or MESSAGE, so message and enum names fall through to named lookup |
| FieldTypes.FindScalarIsFindType | src/main/java/com/fasterxml/jackson/dataformat/protobuf/schema/FieldTypes.java:22-28 | the scalar lookup used by the resolver is `findType` over the built table |
| Descriptors.FindEnum | src/main/java/com/fasterxml/jackson/dataformat/protobuf/schema/ProtobufEnum.java:17-19 | `findEnum(name)` returns the id mapped to the name, or none when the name is absent |
| Descriptors.NewField | src/main/java/com/fasterxml/jackson/dataformat/protobuf/schema/ProtobufField.java:53-86 | the field constructor: unknown field (tag 0, "UNKNOWN", no flags) or declared field (name, id, typed tag, REPEATED/REQUIRED flags, packed and deprecated copied); wire type and zig-zag from the type |
| Descriptors.TypedTagOfField | src/main/java/com/fasterxml/jackson/dataformat/protobuf/schema/ProtobufField.java:67 | a declared field's typed tag decodes to its tag and to the wire type of its field type |
| Descriptors.ScalarField | src/main/java/com/fasterxml/jackson/dataformat/protobuf/schema/ProtobufField.java:37-39 | the scalar constructor keeps the given type and has no target |
| Descriptors.MessageField | src/main/java/com/fasterxml/jackson/dataformat/protobuf/schema/ProtobufField.java:41-43 | the message constructor gives MESSAGE with that target, and `isObject` iff not repeated |
| Descriptors.EnumField | src/main/java/com/fasterxml/jackson/dataformat/protobuf/schema/ProtobufField.java:45-47 | the enum constructor gives ENUM with that enum, never an object |
| Descriptors.UnknownField | src/main/java/com/fasterxml/jackson/dataformat/protobuf/schema/ProtobufField.java:49-51 | `unknownField`: typed tag 0, name "UNKNOWN", every flag false, type MESSAGE, no target |
| Descriptors.IsObject | src/main/java/com/fasterxml/jackson/dataformat/protobuf/schema/ProtobufField.java:103-105 | `isObject` iff not repeated and of type MESSAGE |
| Descriptors.IsArray | src/main/java/com/fasterxml/jackson/dataformat/protobuf/schema/ProtobufField.java:107-109 | `isArray` iff repeated, and an array field is never an object |
| Descriptors.AssignMessageType | src/main/java/com/fasterxml/jackson/dataformat/protobuf/schema/ProtobufField.java:88-93 | throws (with its message) exactly for non-MESSAGE fields; otherwise replaces only the target |
| Descriptors.InsertById | src/main/java/com/fasterxml/jackson/dataformat/protobuf/schema/TypeResolver.java:141-142 | inserting into a list sorted by id keeps it sorted and adds exactly that field |
| Descriptors.SortById | src/main/java/com/fasterxml/jackson/dataformat/protobuf/schema/TypeResolver.java:141-142 | the field array after sorting is sorted by id and a permutation of the input |
| Descriptors.NewMessage | src/main/java/com/fasterxml/jackson/dataformat/protobuf/schema/ProtobufMessage.java:34-42 | a new message keeps name, name map and field array, with `_idOffset = -1`, no id index, no first field |
| Descriptors.FieldByName | src/main/java/com/fasterxml/jackson/dataformat/protobuf/schema/ProtobufMessage.java:93-95 | `field(name)` answers iff the name map has the name, with its mapped field |
| Descriptors.BogusMessage | src/main/java/com/fasterxml/jackson/dataformat/protobuf/schema/ProtobufMessage.java:81-85 | `bogusMessage`: zero fields, no index, every lookup by name or id finds nothing |
| Descriptors.FirstWithId | src/main/java/com/fasterxml/jackson/dataformat/protobuf/schema/ProtobufMessage.java:106-113 | the scan returns a field with that id, the first one, or none when no field has it |
| Descriptors.FieldById | src/main/java/com/fasterxml/jackson/dataformat/protobuf/schema/ProtobufMessage.java:98-114 | `field(int)`: with an index, the slot at `id - offset` (out-of-range ids are an error); without, the first field with that id |
| Descriptors.IndexFields | src/main/java/com/fasterxml/jackson/dataformat/protobuf/schema/ProtobufMessage.java:64-77 | the index loop succeeds iff ids are distinct and within range, and then puts each field at `id - base`; a collision names the message |
| Descriptors.CollisionNotDistinct | src/main/java/com/fasterxml/jackson/dataformat/protobuf/schema/ProtobufMessage.java:71-74 | an occupied slot means two fields share an id |
| Descriptors.Init | src/main/java/com/fasterxml/jackson/dataformat/protobuf/schema/ProtobufMessage.java:49-79 | `init`: no fields leaves no index; first id above last id throws; the span is computed in 32-bit `int`; a span over 200 leaves `_idOffset = -1`; a negative (wrapped) span throws NegativeArraySizeException; otherwise offset = first id and the index succeeds iff the ids are distinct and within the span, each field at `id - offset` |
| Descriptors.IdSpan | src/main/java/com/fasterxml/jackson/dataformat/protobuf/schema/ProtobufMessage.java:64 | `lastId - firstId + 1` as Java `int`: the true span when it is below 2^31, the span minus 2^32 otherwise |
| Descriptors.IndexNoWrap | src/main/java/com/fasterxml/jackson/dataformat/protobuf/schema/ProtobufMessage.java:70 | for a span of at most 200 slots, the 32-bit index `f.id - _idOffset` is in range iff the true difference is, and then equals it |
| Descriptors.WrappedSpanNegative | src/main/java/com/fasterxml/jackson/dataformat/protobuf/schema/ProtobufMessage.java:64-67 | ids -2 and 2147483647 give the span -2147483646, so the index array cannot be allocated |
| Descriptors.FullSpanIndexesNothing | src/main/java/com/fasterxml/jackson/dataformat/protobuf/schema/ProtobufMessage.java:64-75 | ids from -2^31 to 2^31-1 give span 0, and then no field fits the index |
| Descriptors.FieldCount | src/main/java/com/fasterxml/jackson/dataformat/protobuf/schema/ProtobufMessage.java:89 | `getFieldCount()` is zero exactly when `field(int)` finds no field for any id |
| Descriptors.IndexAgreesWithScan | src/main/java/com/fasterxml/jackson/dataformat/protobuf/schema/ProtobufMessage.java:98-114 | with distinct ids, the index lookup agrees with the linear scan, and ids outside the index are absent |
| TypeResolver.ConstructEnum | src/main/java/com/fasterxml/jackson/dataformat/protobuf/schema/TypeResolver.java:65-72 | `_constructEnum` builds the enum from the declaration's name and its values in order |
| TypeResolver.EnumOfFindEnum | src/main/java/com/fasterxml/jackson/dataformat/protobuf/schema/TypeResolver.java:65-72 | each value name maps to the tag of its last declaration; other names map to nothing |
| TypeResolver.Construct | src/main/java/com/fasterxml/jackson/dataformat/protobuf/schema/TypeResolver.java:44-63 | `construct`'s loop builds the scope over the declarations |
| TypeResolver.ScopeOfMessages | src/main/java/com/fasterxml/jackson/dataformat/protobuf/schema/TypeResolver.java:49-54 | the message map gives the last message declared under a name; enums and other kinds are ignored |
| TypeResolver.ScopeOfEnums | src/main/java/com/fasterxml/jackson/dataformat/protobuf/schema/TypeResolver.java:55-59 | the enum map gives the constructed enum of the last enum declared under a name |
| TypeResolver.FindResolvedMessage | src/main/java/com/fasterxml/jackson/dataformat/protobuf/schema/TypeResolver.java:152-159 | `_findResolvedMessage`: none iff no scope has the name, else the entry of some scope (the innermost) |
| TypeResolver.FindLocalResolved | src/main/java/com/fasterxml/jackson/dataformat/protobuf/schema/TypeResolver.java:203-214 | `_findLocalResolved`: none iff the scope has neither a resolved message nor an enum of that name; else a field with the declared name and tag |
| TypeResolver.AppendNamesJoin | src/main/java/com/fasterxml/jackson/dataformat/protobuf/schema/TypeResolver.java:177-201 | the known-name builder started empty gives the names joined by ", " |
| TypeResolver.AppendKeys | src/main/java/com/fasterxml/jackson/dataformat/protobuf/schema/TypeResolver.java:181-186 | one scope's key loop appends each name, with a separator whenever the builder is not empty |
| TypeResolver.KnownEnums | src/main/java/com/fasterxml/jackson/dataformat/protobuf/schema/TypeResolver.java:177-188 | `_knownEnums` lists the enum names of every scope, outermost scope first |
| TypeResolver.KnownMsgs | src/main/java/com/fasterxml/jackson/dataformat/protobuf/schema/TypeResolver.java:190-201 | `_knownMsgs` lists the declared message names of every scope, outermost scope first |
| TypeResolver.Registered | src/main/java/com/fasterxml/jackson/dataformat/protobuf/schema/TypeResolver.java:93-99 | the message is put in its own scope's resolved map under its index; outer scopes are unchanged |
| TypeResolver.Links | src/main/java/com/fasterxml/jackson/dataformat/protobuf/schema/TypeResolver.java:144-148 | each position of the name map but the last links to the next one |
| TypeResolver.BuildMessage | src/main/java/com/fasterxml/jackson/dataformat/protobuf/schema/TypeResolver.java:141-148 | the built message has the field array sorted by id (a permutation), the name map in declaration order, chained positions, no index |
| TypeResolver.ResolveIn | src/main/java/com/fasterxml/jackson/dataformat/protobuf/schema/TypeResolver.java:88-150 | a successful `_resolve` stores the message, under its name, at the next arena index and keeps all earlier entries |
| TypeResolver.ResolveFields | src/main/java/com/fasterxml/jackson/dataformat/protobuf/schema/TypeResolver.java:102-140 | each declared field yields one resolved field with its name and tag; earlier entries are kept |
| TypeResolver.ResolveField | src/main/java/com/fasterxml/jackson/dataformat/protobuf/schema/TypeResolver.java:104-137 | a resolved field has the declared name and tag |
| TypeResolver.ResolveNested | src/main/java/com/fasterxml/jackson/dataformat/protobuf/schema/TypeResolver.java:118-121 | resolving a declared message in a child scope gives a MESSAGE field pointing at the new entry, which has that name |
| TypeResolver.FindAnyResolved | src/main/java/com/fasterxml/jackson/dataformat/protobuf/schema/TypeResolver.java:161-175 | `_findAnyResolved`: a found field has the declared name and tag; not found leaves the arena unchanged |
| TypeResolver.Resolve | src/main/java/com/fasterxml/jackson/dataformat/protobuf/schema/TypeResolver.java:74-86 | `resolve`: a message resolved in some scope is returned (the innermost) without resolving again; otherwise a fresh entry of that name |
| TypeResolver.LookupDeclaredPrefix | src/main/java/com/fasterxml/jackson/dataformat/protobuf/schema/TypeResolver.java:161-171 | a declared message is resolved under the scope chain ending at the scope that declares it |
| TypeResolver.LookupHere | src/main/java/com/fasterxml/jackson/dataformat/protobuf/schema/TypeResolver.java:161-169 | when the innermost scope binds the name, `_findAnyResolved` stops there with the same answer as the reference lookup |
| TypeResolver.PassOver | src/main/java/com/fasterxml/jackson/dataformat/protobuf/schema/TypeResolver.java:170-174 | a scope that binds nothing under the name passes the question to its parent, or answers none at the top |
| TypeResolver.FindAnyResolvedLookup | src/main/java/com/fasterxml/jackson/dataformat/protobuf/schema/TypeResolver.java:161-175 | `_findAnyResolved` follows the reference lookup: bound message or enum without resolving, declared message resolved in its scope, unbound gives none |
| TypeResolver.ResolveFieldLookup | src/main/java/com/fasterxml/jackson/dataformat/protobuf/schema/TypeResolver.java:104-137 | lookup order per field: scalar alias, then this scope's resolved message, enum or declared message, then the ancestors; else the unknown-type error listing every visible enum and message name |
| TypeResolver.ResolveFieldsBound | src/main/java/com/fasterxml/jackson/dataformat/protobuf/schema/TypeResolver.java:113-126 | a field whose type name is bound to a resolved message or an enum gets that target |
| TypeResolver.ResolveFieldsScalar | src/main/java/com/fasterxml/jackson/dataformat/protobuf/schema/TypeResolver.java:106-110 | a scalar-typed field gets the type its alias names |
| TypeResolver.ResolveInSelfReference | src/main/java/com/fasterxml/jackson/dataformat/protobuf/schema/TypeResolver.java:93-99 | a field typed as the message itself refers to the descriptor being built |
| TypeResolver.ResolveInBoundReference | src/main/java/com/fasterxml/jackson/dataformat/protobuf/schema/TypeResolver.java:113-126 | a field typed as an enclosing (registered) message refers to that descriptor without resolving it again |
| TypeResolver.ResolveInSelfContained | src/main/java/com/fasterxml/jackson/dataformat/protobuf/schema/TypeResolver.java:88-150 | a message whose field types are all scalars or the message itself always resolves, for every fuel, to one new descriptor at the next index |
| TypeResolver.ResolveFieldsSelfContained | src/main/java/com/fasterxml/jackson/dataformat/protobuf/schema/TypeResolver.java:102-140 | the field loop over such fields yields, in order, a scalar field per scalar type and a field pointing at the message being built per self-reference |
| TypeResolver.SelfContainedMessage | src/main/java/com/fasterxml/jackson/dataformat/protobuf/schema/TypeResolver.java:141-149 | that descriptor has one field per declaration, each one present, sorted by id |
| TypeResolver.ResolveNestedSelfContained | src/main/java/com/fasterxml/jackson/dataformat/protobuf/schema/TypeResolver.java:118-120 | a declared message that is self-contained is resolved afresh at the next index when a field names it |
| TypeResolver.ResolveChildSelfContained | src/main/java/com/fasterxml/jackson/dataformat/protobuf/schema/TypeResolver.java:119-120 | the same resolution in a fresh child scope over the message's nested declarations |
| TypeResolver.ResolveRootFromFields | src/main/java/com/fasterxml/jackson/dataformat/protobuf/schema/TypeResolver.java:88-150 | a root message is registered at index 0 and replaced by the message built from its resolved fields, after everything the fields appended |
| TypeResolver.ResolveInShape | src/main/java/com/fasterxml/jackson/dataformat/protobuf/schema/TypeResolver.java:88-150 | the resolved message: one field per declaration, sorted by id, name-map keys exactly the declared names, positions chained |
| TypeResolver.FieldPairsKeys | src/main/java/com/fasterxml/jackson/dataformat/protobuf/schema/TypeResolver.java:139 | the name map has exactly the declared field names as keys |
| TypeResolver.FieldPairsSnoc | src/main/java/com/fasterxml/jackson/dataformat/protobuf/schema/TypeResolver.java:139 | each loop step puts the field under its name in the name map |
| TypeResolver.ResolveFieldList | src/main/java/com/fasterxml/jackson/dataformat/protobuf/schema/TypeResolver.java:102-140 | the field loop computes the resolved fields and the name map, or stops at the first error |
| TypeResolver.LinkPositions | src/main/java/com/fasterxml/jackson/dataformat/protobuf/schema/TypeResolver.java:144-148 | the linking loop links each position to the next |
| TypeResolver.ResolveMessage | src/main/java/com/fasterxml/jackson/dataformat/protobuf/schema/TypeResolver.java:88-150 | the imperative `_resolve` computes exactly the resolution function |
| NativeSchema.MessageTypeNamed | src/main/java/com/fasterxml/jackson/dataformat/protobuf/schema/NativeProtobufSchema.java:86-94 | `_messageType(name)`: none iff no message declaration has the name; else a message declaration of that name |
| NativeSchema.FirstMessageType | src/main/java/com/fasterxml/jackson/dataformat/protobuf/schema/NativeProtobufSchema.java:77-84 | `_firstMessageType`: none iff there is no message declaration |
| NativeSchema.HasMessageType | src/main/java/com/fasterxml/jackson/dataformat/protobuf/schema/NativeProtobufSchema.java:31-41 | true iff some declaration is a message with that name; an enum of that name does not count |
| NativeSchema.FindMessageType | src/main/java/com/fasterxml/jackson/dataformat/protobuf/schema/NativeProtobufSchema.java:86-94 | the early-return loop of `_messageType` |
| NativeSchema.FirstNamedAt | src/main/java/com/fasterxml/jackson/dataformat/protobuf/schema/NativeProtobufSchema.java:86-94 | the first message declaration with the name is the answer |
| NativeSchema.FindFirstMessageType | src/main/java/com/fasterxml/jackson/dataformat/protobuf/schema/NativeProtobufSchema.java:77-84 | the early-return loop of `_firstMessageType` |
| NativeSchema.FirstMessageAt | src/main/java/com/fasterxml/jackson/dataformat/protobuf/schema/NativeProtobufSchema.java:77-84 | the first message declaration in list order is the answer |
| NativeSchema.ResolveRoot | src/main/java/com/fasterxml/jackson/dataformat/protobuf/schema/NativeProtobufSchema.java:54 | a fresh top-level resolver resolves the message first, at index 0, under its name |
| NativeSchema.ForType | src/main/java/com/fasterxml/jackson/dataformat/protobuf/schema/NativeProtobufSchema.java:47-55 | `forType` throws the "has no message type with name" error iff no such message, else roots the schema at that message |
| NativeSchema.ForFirstType | src/main/java/com/fasterxml/jackson/dataformat/protobuf/schema/NativeProtobufSchema.java:61-69 | `forFirstType` throws the "contains no message type definitions" error iff there is no message |
| NativeSchema.ResolveRootShape | src/main/java/com/fasterxml/jackson/dataformat/protobuf/schema/NativeProtobufSchema.java:54 | the root message has one field per declared field, sorted by id, keyed by the declared names |
| NativeSchema.RootResolves | src/main/java/com/fasterxml/jackson/dataformat/protobuf/schema/NativeProtobufSchema.java:54 | the root is resolved in a child of the top-level scope, and its arena is the schema's |
| NativeSchema.ResolveRootSelfContained | src/main/java/com/fasterxml/jackson/dataformat/protobuf/schema/NativeProtobufSchema.java:54 | a top-level message with only scalar or self-typed fields always resolves, to a one-descriptor schema |
| NativeSchema.NodeResolves | src/test/java/com/fasterxml/jackson/dataformat/protobuf/ProtobufTestBase.java:45-50 | `forType("Node")` on `Node { int32 id; Node left; Node right }` succeeds for every fuel: one descriptor, 3 fields sorted by id, `left` and `right` pointing at the root |
| NativeSchema.DeclaredFieldResolves | src/main/java/com/fasterxml/jackson/dataformat/protobuf/schema/TypeResolver.java:161-166 | a field naming a self-contained top-level message goes through `_findAnyResolved` of the top scope and resolves that message afresh at the next index |
| NativeSchema.TwoReferencesResolve | src/main/java/com/fasterxml/jackson/dataformat/protobuf/schema/TypeResolver.java:161-166 | two such fields resolve the target twice, at indexes 1 and 2 |
| NativeSchema.BoxRootResolves | src/test/java/com/fasterxml/jackson/dataformat/protobuf/ProtobufTestBase.java:31-42 | resolving `Box` gives `Box`, then `Point` resolved for `topLeft`, then `Point` resolved again for `bottomRight` |
| NativeSchema.BoxResolves | src/test/java/com/fasterxml/jackson/dataformat/protobuf/ProtobufTestBase.java:31-42 | `forType("Box")` succeeds for every fuel above zero with 3 descriptors: `topLeft` refers to the first copy of `Point`, `bottomRight` to the second |
| NativeSchema.CrossDiverges | src/main/java/com/fasterxml/jackson/dataformat/protobuf/schema/TypeResolver.java:118-127 | two top-level messages referring to each other never finish resolving, whatever the fuel |
| NativeSchema.PingPongForType | src/main/java/com/fasterxml/jackson/dataformat/protobuf/schema/TypeResolver.java:161-169 | `forType("A")` over `A { B b }`, `B { A a }` does not terminate |
| Accumulator.Framed | src/main/java/com/fasterxml/jackson/dataformat/protobuf/ByteAccumulator.java:34-36 | a framed payload is longer than the payload and ends with it |
| Accumulator.FramedRoundTrip | src/main/java/com/fasterxml/jackson/dataformat/protobuf/ByteAccumulator.java:26-36 | the length prefix decodes to the payload length, so the payload is recovered from the framed bytes |
| Accumulator.RootOutput | src/main/java/com/fasterxml/jackson/dataformat/protobuf/ByteAccumulator.java:31-33 | at the root the output is the length prefix twice |
| Accumulator.RootOutputLosesPayload | src/main/java/com/fasterxml/jackson/dataformat/protobuf/ByteAccumulator.java:31-33 | the root output equals the framed payload only for the payload `[1]` |
| Accumulator.RootOutputExample | src/main/java/com/fasterxml/jackson/dataformat/protobuf/ByteAccumulator.java:31-33 | the payload `[5]` is written as `[1, 1]` instead of `[1, 5]` |
| Accumulator.ByteAccumulator.constructor | src/main/java/com/fasterxml/jackson/dataformat/protobuf/ByteAccumulator.java:16-18 | a new accumulator has the given parent and no bytes |
| Accumulator.ByteAccumulator.Append | src/main/java/com/fasterxml/jackson/dataformat/protobuf/ByteAccumulator.java:20-22 | appends exactly `buf[offset, offset + len)` after the existing bytes; an out-of-range slice changes nothing |
| Accumulator.ByteAccumulator.Finish | src/main/java/com/fasterxml/jackson/dataformat/protobuf/ByteAccumulator.java:24-39 | returns the parent; with a parent, the parent gains prefix and payload; at the root, writes the prefix twice |
| Accumulator.ByteAccumulator.FinishFramed | src/main/java/com/fasterxml/jackson/dataformat/protobuf/ByteAccumulator.java:24-39 | corrected root case: writes prefix and payload |
| ReadContext.ParseDecimalDigits | src/main/java/com/fasterxml/jackson/dataformat/protobuf/ProtobufReadContext.java:172-176 | the decimal digits of the index read back as the index |
| ReadContext.ParseQuotedEscape | src/main/java/com/fasterxml/jackson/dataformat/protobuf/ProtobufReadContext.java:177-186 | the quoted, escaped name reads back as the name, up to the closing quote |
| ReadContext.ParseDescribe | src/main/java/com/fasterxml/jackson/dataformat/protobuf/ProtobufReadContext.java:164-190 | the rendering of each context kind reads back as that kind with its index or name |
| ReadContext.CurrentIndex | src/main/java/com/fasterxml/jackson/dataformat/protobuf/ProtobufReadContext.java:174 | a negative index is shown as 0 |
| ReadContext.ProtobufReadContext.constructor | src/main/java/com/fasterxml/jackson/dataformat/protobuf/ProtobufReadContext.java:48-57 | parent, message type, kind and end offset as given, index -1, no name, no child |
| ReadContext.ProtobufReadContext.Reset | src/main/java/com/fasterxml/jackson/dataformat/protobuf/ProtobufReadContext.java:59-66 | sets message type, kind and end offset, index -1, no name; the child slot is kept |
| ReadContext.ProtobufReadContext.CreateRootContext | src/main/java/com/fasterxml/jackson/dataformat/protobuf/ProtobufReadContext.java:70-72 | ROOT, no parent, no message type, `Integer.MAX_VALUE` end offset, index -1 |
| ReadContext.ProtobufReadContext.CreateChildArrayContext | src/main/java/com/fasterxml/jackson/dataformat/protobuf/ProtobufReadContext.java:74-84 | the single child, created once and reused: ARRAY with the parent's message type and end offset, parent linked |
| ReadContext.ProtobufReadContext.CreateChildArrayContextAt | src/main/java/com/fasterxml/jackson/dataformat/protobuf/ProtobufReadContext.java:86-96 | as written: end offset 0 on first creation, the argument on reuse |
| ReadContext.ProtobufReadContext.CreateChildArrayContextAtFixed | src/main/java/com/fasterxml/jackson/dataformat/protobuf/ProtobufReadContext.java:86-96 | corrected: the argument as end offset in both cases |
| ReadContext.ProtobufReadContext.CreateChildObjectContext | src/main/java/com/fasterxml/jackson/dataformat/protobuf/ProtobufReadContext.java:98-108 | the single child: OBJECT with the given message type and end offset, parent linked |
| ReadContext.ProtobufReadContext.SetMessageType | src/main/java/com/fasterxml/jackson/dataformat/protobuf/ProtobufReadContext.java:132 | replaces only the message type |
| ReadContext.ProtobufReadContext.SetCurrentName | src/main/java/com/fasterxml/jackson/dataformat/protobuf/ProtobufReadContext.java:149-152 | replaces only the current name |
| ReadContext.ProtobufReadContext.ToString | src/main/java/com/fasterxml/jackson/dataformat/protobuf/ProtobufReadContext.java:164-190 | "/" for root, "[index]" for an array, `{"name"}` or `{?}` for an object: it reads back as the context's kind, index and name |
| ReadContext.ArrayChildEndOffsets | src/main/java/com/fasterxml/jackson/dataformat/protobuf/ProtobufReadContext.java:86-96 | as written, `createChildArrayContext(100)` twice gives end offsets 0 then 100 |
| ReadContext.ArrayChildEndOffsetsFixed | src/main/java/com/fasterxml/jackson/dataformat/protobuf/ProtobufReadContext.java:86-96 | corrected, both calls give 100 |
| ReadContext.SingleChildSlot | src/main/java/com/fasterxml/jackson/dataformat/protobuf/ProtobufReadContext.java:74-108 | every factory returns the same child instance, whose parent is the context |
| Generator.FeatureOrdinal | src/main/java/com/fasterxml/jackson/dataformat/protobuf/ProtobufGenerator.java:22-31 | each feature has its ordinal in the feature list |
| Generator.Mask | src/main/java/com/fasterxml/jackson/dataformat/protobuf/ProtobufGenerator.java:51-54 | each mask is a single bit, `1 << ordinal` |
| Generator.CollectDefaults | src/main/java/com/fasterxml/jackson/dataformat/protobuf/ProtobufGenerator.java:40-49 | `collectDefaults` ORs the default-on masks: 0 here, and a feature is set iff it is on by default |
| Generator.EnableSetsBit | src/main/java/com/fasterxml/jackson/dataformat/protobuf/ProtobufGenerator.java:306-309 | `enable` sets the feature's bit |
| Generator.DisableClearsBit | src/main/java/com/fasterxml/jackson/dataformat/protobuf/ProtobufGenerator.java:311-314 | `disable` clears the feature's bit |
| Generator.EnableKeepsOtherBits | src/main/java/com/fasterxml/jackson/dataformat/protobuf/ProtobufGenerator.java:306-309 | `enable` leaves every other bit alone |
| Generator.DisableKeepsOtherBits | src/main/java/com/fasterxml/jackson/dataformat/protobuf/ProtobufGenerator.java:311-314 | `disable` leaves every other bit alone |
| Generator.ConfigureFlag | src/main/java/com/fasterxml/jackson/dataformat/protobuf/ProtobufGenerator.java:320-327 | after `configure(f, state)` the feature is enabled iff `state`, and other bits are kept |
| Generator.SetTopField | src/main/java/com/fasterxml/jackson/dataformat/protobuf/ProtobufGenerator.java:296 | handing the field to the current context changes only the top frame's field |
| Generator.SetSchemaSpec | src/main/java/com/fasterxml/jackson/dataformat/protobuf/ProtobufGenerator.java:184-193 | the schema in use: no-op; another schema: installed with a fresh root context, nothing else changed; idempotent |
| Generator.FindFieldSpec | src/main/java/com/fasterxml/jackson/dataformat/protobuf/ProtobufGenerator.java:276-298 | `_findField` succeeds iff in an object, no field pending, and the name known or skipped; the field (or UNKNOWN_FIELD) becomes pending; a refusal changes nothing |
| Generator.FindFieldUnknownMessage | src/main/java/com/fasterxml/jackson/dataformat/protobuf/ProtobufGenerator.java:284-294 | an unknown name not skipped is refused with "Unrecognized field …" listing the known fields |
| Generator.StartArraySpec | src/main/java/com/fasterxml/jackson/dataformat/protobuf/ProtobufGenerator.java:379-399 | `writeStartArray` needs an object, a pending repeated field and a context; pushes an array, keeps the field, writes tags iff not packed |
| Generator.StartObjectSpec | src/main/java/com/fasterxml/jackson/dataformat/protobuf/ProtobufGenerator.java:420-440 | `writeStartObject` needs a pending single message field; pushes an object for its message, clears the field only inside an object, writes tags |
| Generator.StartObjectRefusesRepeated | src/main/java/com/fasterxml/jackson/dataformat/protobuf/ProtobufGenerator.java:427-429 | a repeated field, even of message type, is refused |
| Generator.EndArraySpec | src/main/java/com/fasterxml/jackson/dataformat/protobuf/ProtobufGenerator.java:401-418 | `writeEndArray` needs an array context; pops it; completes at the root; otherwise in an object iff the parent is one |
| Generator.EndObjectSpec | src/main/java/com/fasterxml/jackson/dataformat/protobuf/ProtobufGenerator.java:442-460 | `writeEndObject` needs an object and no pending field; pops; completes at the root; takes the parent's field; in an object iff the parent is an array |
| Generator.InitialStuck | src/main/java/com/fasterxml/jackson/dataformat/protobuf/ProtobufGenerator.java:172-193 | a new generator, with or without a schema, is not in an object and has no pending field |
| Generator.StuckStep | src/main/java/com/fasterxml/jackson/dataformat/protobuf/ProtobufGenerator.java:276-460 | from such a state every modelled structural event (field name, start or end of array or object), `writeNull` and `writeNumber(String)` is refused, and only configuration succeeds; the scalar writes with empty bodies are not modelled events and succeed anywhere |
| Generator.StuckRun | src/main/java/com/fasterxml/jackson/dataformat/protobuf/ProtobufGenerator.java:276-460 | from a new generator a sequence of modelled events succeeds iff it holds configuration events only (the empty-bodied scalar writes are outside the event set) |
| Generator.CompleteStays | src/main/java/com/fasterxml/jackson/dataformat/protobuf/ProtobufGenerator.java:408-411 | once complete, no event clears completion |
| Generator.EnableIgnoreUnknownNoEffect | src/main/java/com/fasterxml/jackson/dataformat/protobuf/ProtobufGenerator.java:287-288 | as written, enabling IGNORE_UNKNOWN_FIELDS never changes whether a field name is refused |
| Generator.EnabledFeatureStillRefuses | src/main/java/com/fasterxml/jackson/dataformat/protobuf/ProtobufGenerator.java:284-294 | with the feature enabled and JSON features 0, the unknown name "z" is still refused |
| Generator.FindFieldIntendedSpec | src/main/java/com/fasterxml/jackson/dataformat/protobuf/ProtobufGenerator.java:284-294 | corrected: with the feature on every name is accepted; with it off, exactly the known names (or any name in the unknown message) |
| Generator.ProtobufGenerator.constructor | src/main/java/com/fasterxml/jackson/dataformat/protobuf/ProtobufGenerator.java:172-182 | the initial state: the given feature words, no schema, the null context, the root placeholder message, no pending field |
| Generator.ProtobufGenerator.SetSchema | src/main/java/com/fasterxml/jackson/dataformat/protobuf/ProtobufGenerator.java:184-193 | performs the `setSchema` step |
| Generator.ProtobufGenerator.Enable | src/main/java/com/fasterxml/jackson/dataformat/protobuf/ProtobufGenerator.java:306-309 | sets the feature bit in the protobuf feature word only, so `isEnabled(f)` answers true |
| Generator.ProtobufGenerator.Disable | src/main/java/com/fasterxml/jackson/dataformat/protobuf/ProtobufGenerator.java:311-314 | clears the feature bit in the protobuf feature word only, so `isEnabled(f)` answers false |
| Generator.ProtobufGenerator.Configure | src/main/java/com/fasterxml/jackson/dataformat/protobuf/ProtobufGenerator.java:320-327 | enables or disables as `state` says, and `isEnabled(f)` then answers `state` |
| Generator.ProtobufGenerator.IsEnabled | src/main/java/com/fasterxml/jackson/dataformat/protobuf/ProtobufGenerator.java:316-318 | `isEnabled(f)` reads bit `ordinal()` of the protobuf feature word; it answers true after `enable(f)` and false after `disable(f)` |
| Generator.ProtobufGenerator.FindField | src/main/java/com/fasterxml/jackson/dataformat/protobuf/ProtobufGenerator.java:276-298 | performs the `_findField` step, error included |
| Generator.ProtobufGenerator.WriteStartArray | src/main/java/com/fasterxml/jackson/dataformat/protobuf/ProtobufGenerator.java:379-399 | performs the start-array step |
| Generator.ProtobufGenerator.WriteEndArray | src/main/java/com/fasterxml/jackson/dataformat/protobuf/ProtobufGenerator.java:401-418 | performs the end-array step |
| Generator.ProtobufGenerator.WriteStartObject | src/main/java/com/fasterxml/jackson/dataformat/protobuf/ProtobufGenerator.java:420-440 | performs the start-object step |
| Generator.ProtobufGenerator.WriteEndObject | src/main/java/com/fasterxml/jackson/dataformat/protobuf/ProtobufGenerator.java:442-460 | performs the end-object step |
| Generator.ProtobufGenerator.WriteNull | src/main/java/com/fasterxml/jackson/dataformat/protobuf/ProtobufGenerator.java:590-597 | `writeNull` only checks that a field is pending (`_verifyValueWrite`) and writes nothing |
| Generator.ProtobufGenerator.WriteNumberString | src/main/java/com/fasterxml/jackson/dataformat/protobuf/ProtobufGenerator.java:641-644 | `writeNumber(String)` always fails with "Can not write 'untyped' numbers" |
| SchemaRegistry.DefinedProtobufSchemas.constructor | src/main/java/com/fasterxml/jackson/dataformat/protobuf/schemagen/DefinedProtobufSchemas.java:15-25 | the registry starts empty |
| SchemaRegistry.DefinedProtobufSchemas.FindSchema | src/main/java/com/fasterxml/jackson/dataformat/protobuf/schemagen/DefinedProtobufSchemas.java:41-43 | `findSchema` answers iff the type is registered, with its schema |
| SchemaRegistry.DefinedProtobufSchemas.AddSchema | src/main/java/com/fasterxml/jackson/dataformat/protobuf/schemagen/DefinedProtobufSchemas.java:45-50 | the map becomes `put(type, schema)` even when refusing; refused (with its message) iff the type was registered; other types unchanged; a new type goes last |
| SchemaRegistry.RedefinitionOverwrites | src/main/java/com/fasterxml/jackson/dataformat/protobuf/schemagen/DefinedProtobufSchemas.java:46-49 | a redefinition replaces the old schema in the type's original position |

## Left out

- Resolution runs with a `fuel` bound. Running out of fuel (`OutOfFuel`) stands for the non-termination of mutually recursive top-level messages. Results proved for successful resolutions hold for every fuel.
- ProtobufField.compareTo and ProtobufField.assignNext are not part of this model. The sort is modelled as a sort by field id. The `next` link is kept on the message as a map from name-map positions to the following position.
- FieldType.getWireType, usesZigZag and aliases, and ProtobufUtil.lengthAsBytes, are not part of this model. They are given definitions: the standard proto2 scalar names for the aliases, and a base-128 varint for the length.
- ProtobufField declares no `id`, but ProtobufMessage.init reads `f.id`. The model gives each field an `id` equal to its declared tag.
- ProtobufWriteContext is not part of this model; its factories are stubs. The generator's context stack is a sequence of frames, and an empty stack stands for the null context, so a call on it is a NullPointerException outcome.
- The `_complete()` flush, `close`, `flush`, the output buffers and `IOContext` are left out: they are I/O.
- The scalar writes (`writeString`, `writeNumber` for numbers, `writeBoolean`, `writeBinary`) are left out. They produce no bytes in this snapshot, and the floating-point ones are out of scope.
- Generator.StuckRun: its event set leaves out the scalar writes. `writeNumber` of an int, long, double or float and `writeString(char[], int, int)` have empty bodies (ProtobufGenerator.java:480-483, 599-628), so they succeed in every state, stuck or not. `writeString(String)`, `writeBoolean` and `writeBinary` first check for a current field, as `writeNull` does.
- Descriptors.Init: when `init` throws, Java has already set `_firstField`, and after the span check also `_idOffset`. The model's error outcome drops that partial state.
- `_reportError` is modelled as a failure outcome carrying a structured report. `ReportMessage` gives its text.
- `getTypeDesc` and `getCurrentIndex` come from the Jackson stream-context base class, which is not part of this model. They are given their documented meaning: the kind's name, and the index clamped to 0.
- CharTypes.appendQuoted is not part of this model. Names are escaped by a backslash before `"` and `\` only; control characters are not escaped.
- ProtobufReadContext.getStartLocation and the getters are left out. They compute nothing.
- Generator.SetSchemaSpec: `setSchema` compares schemas by reference; the model compares them by value.
- SchemaRegistry.DefinedProtobufSchemas.AddSchema: a null schema (which `put` would store and the check would not see) is not modelled.
- A Java type is identified by its description. `setProvider` and `getProvider` only store a collaborator and are left out.
- ProtobufSchemaLoader, ProtobufFactory, the root-package NativeProtobufSchema and ProtobufSchema duplicates, and the schema-generation visitors are not part of this model.
- ByteAccumulator.finish writes to an output stream. The model returns the bytes written instead.

## Findings

| source | as written | input that shows it | evidently intended | confidence | as-written member | corrected member |
|---|---|---|---|---|---|---|
| src/main/java/com/fasterxml/jackson/dataformat/protobuf/ByteAccumulator.java:31-33 | at the root, `finish` writes the length prefix twice and never the payload | payload `[5]` is written as `[1, 1]` | write the prefix, then the payload (`[1, 5]`), as the non-root branch does | not executed | Accumulator.RootOutputLosesPayload | Accumulator.ByteAccumulator.FinishFramed |
| src/main/java/com/fasterxml/jackson/dataformat/protobuf/ProtobufReadContext.java:86-96 | `createChildArrayContext(int)` creates the first child with end offset 0, ignoring the argument | `createChildArrayContext(100)` on a fresh root gives end offset 0, then 100 on reuse | the argument as end offset on creation too | not executed | ReadContext.ArrayChildEndOffsets | ReadContext.ArrayChildEndOffsetsFixed |
| src/main/java/com/fasterxml/jackson/dataformat/protobuf/ProtobufGenerator.java:287-288 | `_findField` tests IGNORE_UNKNOWN_FIELDS against the inherited JSON feature word `_features`; its mask, bit 0, is JSON's AUTO_CLOSE_TARGET there, which is on by default, so a default-configured generator silently skips unknown names, and one with AUTO_CLOSE_TARGET off refuses them whatever `enable` says | `enable(IGNORE_UNKNOWN_FIELDS)` with JSON features 0, then field name "z" of the root message: still refused | test the generator's own `_protobufFeatures`, which `enable` and `isEnabled` use | not executed | Generator.EnabledFeatureStillRefuses | Generator.FindFieldIntendedSpec |

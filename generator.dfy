/**
 * The structural state machine of the generator: feature bitmasks, the
 * pending field set by a field name, and the stack of write contexts pushed
 * by start events and popped by end events. Value writes emit no bytes here;
 * only their guards are modelled.
 *
 * Each event is specified by a step function from an arbitrary state to an
 * outcome (the next state and, if the event throws, the error); the class
 * `ProtobufGenerator` performs the same updates in place.
 */
module Generator {
  import opened OrderedMap
  import opened FieldTypes
  import opened Descriptors
  import opened ReadContext
  import TypeResolver
  import NativeSchema

  /*
   * Features
   */

  /** The generator's own features, in declaration order. */
  datatype Feature = IGNORE_UNKNOWN_FIELDS

  const AllFeatures: seq<Feature> := [IGNORE_UNKNOWN_FIELDS]

  function FeatureOrdinal(f: Feature): (n: nat)
    ensures n < |AllFeatures| && AllFeatures[n] == f
  {
    0
  }

  /** Every feature is off by default. */
  function EnabledByDefault(f: Feature): bool
  {
    false
  }

  /** `getMask()`: the bit `1 << ordinal`, distinct for distinct features. */
  function Mask(f: Feature): (m: bv32)
    ensures m != 0 && m & (m - 1) == 0
  {
    (1 as bv32) << FeatureOrdinal(f)
  }

  /** `enabledIn(flags)`: the feature's bit is set. */
  predicate EnabledIn(f: Feature, flags: bv32)
  {
    flags & Mask(f) != 0
  }

  /** The bits of the features among `fs` that are on by default. */
  function DefaultsOf(fs: seq<Feature>): bv32
  {
    if fs == [] then 0
    else DefaultsOf(fs[..|fs| - 1]) | (if EnabledByDefault(fs[|fs| - 1]) then Mask(fs[|fs| - 1]) else 0)
  }

  /** `collectDefaults()`: OR of the masks of the features on by default; none is, so no bit is set. */
  method CollectDefaults() returns (flags: bv32)
    ensures flags == DefaultsOf(AllFeatures)
    ensures flags == 0
    ensures forall f :: EnabledIn(f, flags) <==> EnabledByDefault(f)
  {
    flags := 0;
    var i := 0;
    while i < |AllFeatures|
      invariant 0 <= i <= |AllFeatures|
      invariant flags == DefaultsOf(AllFeatures[..i])
      invariant flags == 0
    {
      assert AllFeatures[..i + 1][..i] == AllFeatures[..i];
      var f := AllFeatures[i];
      if EnabledByDefault(f) {
        flags := flags | Mask(f);
      }
      i := i + 1;
    }
    assert AllFeatures[..i] == AllFeatures;
  }

  /** `enable(f)` on a flag word: sets the feature's bit. */
  function EnableFlag(flags: bv32, f: Feature): bv32
  {
    flags | Mask(f)
  }

  /** `disable(f)` on a flag word: clears the feature's bit. */
  function DisableFlag(flags: bv32, f: Feature): bv32
  {
    flags & !Mask(f)
  }

  /** `enable` sets the feature's bit, so `isEnabled` reads it back as on. */
  lemma EnableSetsBit(flags: bv32, f: Feature)
    ensures EnabledIn(f, EnableFlag(flags, f))
  {
  }

  /** `disable` clears the feature's bit, so `isEnabled` reads it back as off. */
  lemma DisableClearsBit(flags: bv32, f: Feature)
    ensures !EnabledIn(f, DisableFlag(flags, f))
  {
  }

  /** `enable` leaves every other bit as it was. */
  lemma EnableKeepsOtherBits(flags: bv32, f: Feature)
    ensures EnableFlag(flags, f) & !Mask(f) == flags & !Mask(f)
  {
  }

  /** `disable` leaves every other bit as it was. */
  lemma DisableKeepsOtherBits(flags: bv32, f: Feature)
    ensures DisableFlag(flags, f) & !Mask(f) == flags & !Mask(f)
  {
  }

  /** `configure(f, state)`: enable when `state`, disable otherwise. */
  function ConfigureFlag(flags: bv32, f: Feature, state: bool): (r: bv32)
    ensures EnabledIn(f, r) == state
    ensures r & !Mask(f) == flags & !Mask(f)
  {
    if state then
      EnableSetsBit(flags, f);
      EnableKeepsOtherBits(flags, f);
      EnableFlag(flags, f)
    else
      DisableClearsBit(flags, f);
      DisableKeepsOtherBits(flags, f);
      DisableFlag(flags, f)
  }

  /*
   * Generator state
   */

  /** `getTypeDesc()` of a stream context. */
  function TypeDesc(k: ContextKind): string
  {
    match k
      case Root => "ROOT"
      case Array => "ARRAY"
      case Object => "OBJECT"
  }

  /** The constant name of a field type, as its `toString` gives it. */
  function FieldTypeName(t: FieldType): string
  {
    match t
      case DOUBLE => "DOUBLE"
      case FLOAT => "FLOAT"
      case VINT => "VINT"
      case INT32 => "INT32"
      case INT64 => "INT64"
      case BOOLEAN => "BOOLEAN"
      case STRING => "STRING"
      case BYTES => "BYTES"
      case ENUM => "ENUM"
      case MESSAGE => "MESSAGE"
  }

  /** `fieldsAsString()`: the field names in declaration order, as a collection's `toString` prints them. */
  function FieldsAsString(m: ProtobufMessage): string
  {
    "[" + TypeResolver.Join(Keys(m.fieldsByName)) + "]"
  }

  /** `ROOT_MESSAGE` and `UNKNOWN_MESSAGE`: two distinct placeholder messages. */
  const RootMessage: ProtobufMessage := BogusMessage("<root>")
  const UnknownMessage: ProtobufMessage := BogusMessage("<unknown>")

  /**
   * One write context: its kind, the message it writes (given to the
   * factory for object and root contexts) and the field last handed to it
   * by `setField`, which `getField` returns.
   */
  datatype Frame = Frame(kind: ContextKind, message: Option<MsgId>, field: Option<ProtobufField>)

  /**
   * The generator's fields. `stack` holds the chain of write contexts from
   * the root (first) to `_pbContext` (last); the empty stack is the null
   * context the generator starts with, and its first frame is `_rootContext`.
   */
  datatype GenState = GenState(
    jsonFeatures: bv32,
    protobufFeatures: bv32,
    schema: Option<NativeSchema.ProtobufSchema>,
    stack: seq<Frame>,
    inObject: bool,
    writeTag: bool,
    complete: bool,
    currentMessage: ProtobufMessage,
    currField: Option<ProtobufField>)

  /** The generation errors the events report, with what their messages show. */
  datatype Report =
    | FieldNameOutsideObject(context: ContextKind)
    | FieldNamePending(pendingField: string)
    | UnrecognizedField(id: string, message: ProtobufMessage)
    | ArrayOutsideObject
    | StartArrayWithoutField(messageName: string)
    | NotRepeated(fieldName: string)
    | NotInArray(context: ContextKind)
    | StartObjectWithoutField(messageName: string)
    | NotMessageField(fieldName: string, fieldType: FieldType)
    | NotInObject(context: ContextKind)
    | EndObjectPending(pendingField: string)
    | ValueWithoutField(messageName: string)

  /** The text of each reported error. */
  function ReportMessage(r: Report): string
  {
    match r
      case FieldNameOutsideObject(k) => "Can not write field name: current context not an OBJECT but " + TypeDesc(k)
      case FieldNamePending(name) => "Can not write field name: expecting value (for field '" + name + "'"
      case UnrecognizedField(id, m) =>
        "Unrecognized field '" + id + "' (in Message of type " + m.name + "); known fields are: " + FieldsAsString(m)
      case ArrayOutsideObject => "Current context not an OBJECT, can not write arrays"
      case StartArrayWithoutField(name) => "Can not write START_ARRAY without field (message type " + name + ")"
      case NotRepeated(name) => "Can not write START_ARRAY: field '" + name + "' not declared as 'repeated'"
      case NotInArray(k) => "Current context not an ARRAY but " + TypeDesc(k)
      case StartObjectWithoutField(name) => "Can not write START_OBJECT without field (message type " + name + ")"
      case NotMessageField(name, t) => "Can not write START_OBJECT: type of field '" + name + "' not Message but: " + FieldTypeName(t)
      case NotInObject(k) => "Current context not an object but " + TypeDesc(k)
      case EndObjectPending(name) => "Can not write END_OBJECT after writing FIELD_NAME ('" + name + "') but not value"
      case ValueWithoutField(name) => "Can not write value without indicating field first (in message of type " + name + ")"
  }

  /**
   * What an event throws: a reported generation error, a null dereference,
   * or the UnsupportedOperationException of untyped numbers.
   */
  datatype GenError = Reported(report: Report) | NullPointer | UntypedNumber

  /** The message of an UnsupportedOperationException `UntypedNumber`. */
  const UntypedNumberMessage: string := "Can not write 'untyped' numbers"

  /** The state after an event and, when it threw, the error; the state holds the updates made before the throw. */
  datatype Outcome = Outcome(state: GenState, failure: Option<GenError>)

  function Done(s: GenState): Outcome
  {
    Outcome(s, None)
  }

  function Fail(s: GenState, e: GenError): Outcome
  {
    Outcome(s, Some(e))
  }

  /** The constructor: the given feature words, no schema, the null context, and the root placeholder message. */
  function Initial(jsonFeatures: bv32, pbFeatures: bv32): GenState
  {
    GenState(jsonFeatures, pbFeatures, None, [], false, false, false, RootMessage, None)
  }

  function Top(stack: seq<Frame>): Frame
    requires stack != []
  {
    stack[|stack| - 1]
  }

  /** `setField(f)` on the current context. */
  function SetTopField(stack: seq<Frame>, f: ProtobufField): (r: seq<Frame>)
    requires stack != []
    ensures |r| == |stack| && r[..|r| - 1] == stack[..|stack| - 1]
    ensures Top(r) == Top(stack).(field := Some(f))
  {
    stack[..|stack| - 1] + [Top(stack).(field := Some(f))]
  }

  /*
   * Events
   */

  /** `setSchema`: nothing for the schema already in use; otherwise the schema and a fresh root context for its root type. */
  function SetSchemaStep(s: GenState, schema: NativeSchema.ProtobufSchema): GenState
  {
    if s.schema == Some(schema) then s
    else s.(schema := Some(schema), stack := [Frame(Root, Some(schema.rootType), None)])
  }

  /** Whether an unknown field name is skipped rather than refused, as written: the bit is read from the JSON feature word. */
  predicate SkipsUnknown(s: GenState)
  {
    s.currentMessage == UnknownMessage || EnabledIn(IGNORE_UNKNOWN_FIELDS, s.jsonFeatures)
  }

  /** `_findField(id)`, with the unknown-field rule given as `skip`. */
  function FindFieldWith(s: GenState, id: string, skip: bool): Outcome
  {
    if !s.inObject then
      if s.stack == [] then Fail(s, NullPointer)
      else Fail(s, Reported(FieldNameOutsideObject(Top(s.stack).kind)))
    else if s.currField.Some? then
      Fail(s, Reported(FieldNamePending(s.currField.value.name)))
    else
      var found := FieldByName(s.currentMessage, id);
      if found.None? && !skip then
        Fail(s, Reported(UnrecognizedField(id, s.currentMessage)))
      else
        var f := if found.Some? then found.value else UnknownField();
        if s.stack == [] then Fail(s, NullPointer)
        else Done(s.(stack := SetTopField(s.stack, f), currField := Some(f)))
  }

  /** `_findField(id)` as written. */
  function FindFieldStep(s: GenState, id: string): Outcome
  {
    FindFieldWith(s, id, SkipsUnknown(s))
  }

  /** `_findField(id)` as evidently intended: the generator's own feature word decides. */
  function FindFieldIntendedStep(s: GenState, id: string): Outcome
  {
    FindFieldWith(s, id, s.currentMessage == UnknownMessage || EnabledIn(IGNORE_UNKNOWN_FIELDS, s.protobufFeatures))
  }

  /** `writeStartArray`. */
  function StartArrayStep(s: GenState): Outcome
  {
    if !s.inObject then Fail(s, Reported(ArrayOutsideObject))
    else if s.currField.None? then
      Fail(s, Reported(StartArrayWithoutField(s.currentMessage.name)))
    else if !IsArray(s.currField.value) then
      Fail(s, Reported(NotRepeated(s.currField.value.name)))
    else if s.stack == [] then Fail(s, NullPointer)
    else Done(s.(stack := s.stack + [Frame(Array, None, None)], writeTag := !s.currField.value.packed))
  }

  /** `writeEndArray`. */
  function EndArrayStep(s: GenState): Outcome
  {
    if s.stack == [] then Fail(s, NullPointer)
    else if Top(s.stack).kind != Array then
      Fail(s, Reported(NotInArray(Top(s.stack).kind)))
    else
      var popped := s.stack[..|s.stack| - 1];
      if popped == [] then Fail(s.(stack := popped), NullPointer)
      else if Top(popped).kind == Root then
        Done(s.(stack := popped, complete := true, inObject := false, writeTag := true))
      else
        Done(s.(stack := popped, inObject := Top(popped).kind == Object, writeTag := true))
  }

  /** `writeStartObject`. */
  function StartObjectStep(s: GenState): Outcome
  {
    if s.currField.None? then
      Fail(s, Reported(StartObjectWithoutField(s.currentMessage.name)))
    else if !IsObject(s.currField.value) then
      Fail(s, Reported(NotMessageField(s.currField.value.name, s.currField.value.ftype)))
    else if s.stack == [] then Fail(s, NullPointer)
    else
      Done(s.(stack := s.stack + [Frame(Object, s.currField.value.messageType, None)],
              currField := if s.inObject then None else s.currField,
              writeTag := true))
  }

  /** `writeEndObject`. */
  function EndObjectStep(s: GenState): Outcome
  {
    if !s.inObject then
      if s.stack == [] then Fail(s, NullPointer)
      else Fail(s, Reported(NotInObject(Top(s.stack).kind)))
    else if s.currField.Some? then
      Fail(s, Reported(EndObjectPending(s.currField.value.name)))
    else if s.stack == [] then Fail(s, NullPointer)
    else
      var popped := s.stack[..|s.stack| - 1];
      if popped == [] then Fail(s.(stack := popped), NullPointer)
      else
        var parent := Top(popped);
        var s1 := s.(stack := popped, complete := s.complete || parent.kind == Root,
                     currField := parent.field, inObject := parent.kind == Array);
        if parent.kind != Array && parent.field.None? then Fail(s1, NullPointer)
        else Done(s1.(writeTag := parent.kind == Array || !parent.field.value.packed))
  }

  /** `_verifyValueWrite()`, and `writeNull`, which only performs it. */
  function VerifyValueWriteStep(s: GenState): Outcome
  {
    if s.currField.None? then
      Fail(s, Reported(ValueWithoutField(s.currentMessage.name)))
    else Done(s)
  }

  /** `writeNumber(String)`: always unsupported. */
  function WriteNumberStringStep(s: GenState): Outcome
  {
    Fail(s, UntypedNumber)
  }

  /*
   * Properties of single events, from an arbitrary state
   */

  /** `setSchema` with the schema in use changes nothing; with another one it installs a one-frame root context. */
  lemma SetSchemaSpec(s: GenState, schema: NativeSchema.ProtobufSchema)
    ensures s.schema == Some(schema) ==> SetSchemaStep(s, schema) == s
    ensures s.schema != Some(schema) ==>
      var r := SetSchemaStep(s, schema);
      && r.schema == Some(schema) && r.stack == [Frame(Root, Some(schema.rootType), None)]
      && r.(schema := s.schema, stack := s.stack) == s
    ensures SetSchemaStep(SetSchemaStep(s, schema), schema) == SetSchemaStep(s, schema)
  {
  }

  /**
   * A field name succeeds exactly when an object is open, no field is
   * pending, a context exists and the name is known or skipped; the field
   * found (or the unknown-field placeholder) becomes pending and is handed to
   * the current context, and nothing else changes.
   */
  lemma FindFieldSpec(s: GenState, id: string, skip: bool)
    ensures var r := FindFieldWith(s, id, skip);
      && (r.failure.None? <==>
            s.inObject && s.currField.None? && s.stack != [] && (FieldByName(s.currentMessage, id).Some? || skip))
      && (r.failure.Some? ==> r.state == s)
      && (r.failure.None? ==>
            var f := if FieldByName(s.currentMessage, id).Some? then FieldByName(s.currentMessage, id).value else UnknownField();
            && r.state.currField == Some(f)
            && r.state.stack == SetTopField(s.stack, f)
            && r.state.(stack := s.stack, currField := s.currField) == s)
  {
  }

  /** A refused field name reports the name, the message and the known field names. */
  lemma FindFieldUnknownMessage(s: GenState, id: string)
    requires s.inObject && s.currField.None? && FieldByName(s.currentMessage, id).None? && !SkipsUnknown(s)
    ensures FindFieldStep(s, id) == Fail(s, Reported(UnrecognizedField(id, s.currentMessage)))
    ensures ReportMessage(UnrecognizedField(id, s.currentMessage)) == "Unrecognized field '" + id
              + "' (in Message of type " + s.currentMessage.name + "); known fields are: " + FieldsAsString(s.currentMessage)
  {
  }

  /**
   * A start-array succeeds exactly when an object is open with a pending
   * repeated field and a context exists; it pushes an array context, keeps
   * the pending field and writes tags unless the field is packed.
   */
  lemma StartArraySpec(s: GenState)
    ensures var r := StartArrayStep(s);
      && (r.failure.None? <==> s.inObject && s.currField.Some? && s.currField.value.repeated && s.stack != [])
      && (r.failure.Some? ==> r.state == s)
      && (r.failure.None? ==>
            && r.state.stack == s.stack + [Frame(Array, None, None)]
            && r.state.writeTag == !s.currField.value.packed
            && r.state.(stack := s.stack, writeTag := s.writeTag) == s)
  {
  }

  /**
   * A start-object succeeds exactly when the pending field is a single
   * message field and a context exists; it pushes an object context for the
   * field's message, clears the pending field only inside an object, and
   * writes tags.
   */
  lemma StartObjectSpec(s: GenState)
    ensures var r := StartObjectStep(s);
      && (r.failure.None? <==> s.currField.Some? && IsObject(s.currField.value) && s.stack != [])
      && (r.failure.Some? ==> r.state == s)
      && (r.failure.None? ==>
            && r.state.stack == s.stack + [Frame(Object, s.currField.value.messageType, None)]
            && (r.state.currField.None? <==> s.inObject)
            && r.state.writeTag
            && r.state.(stack := s.stack, currField := s.currField, writeTag := s.writeTag) == s)
  {
  }

  /** A repeated field, even of message type, never opens an object. */
  lemma StartObjectRefusesRepeated(s: GenState)
    requires s.currField.Some? && WellFormedField(s.currField.value) && s.currField.value.repeated
    ensures StartObjectStep(s) == Fail(s, Reported(NotMessageField(s.currField.value.name, s.currField.value.ftype)))
  {
  }

  /**
   * An end-array needs an array context; it pops it, completes the output
   * when the pop reaches the root (leaving the object state), and otherwise
   * is inside an object exactly when the parent is one.
   */
  lemma EndArraySpec(s: GenState)
    ensures var r := EndArrayStep(s);
      && (s.stack == [] || Top(s.stack).kind != Array ==> r.failure.Some? && r.state == s)
      && (s.stack != [] && Top(s.stack).kind == Array ==>
            && r.state.stack == s.stack[..|s.stack| - 1]
            && (r.failure.None? <==> |s.stack| >= 2)
            && (r.failure.None? ==>
                  && r.state.writeTag
                  && r.state.complete == (s.complete || Top(r.state.stack).kind == Root)
                  && r.state.inObject == (Top(r.state.stack).kind == Object)))
  {
  }

  /**
   * An end-object needs an open object with no pending field; it pops the
   * context, completes the output when the pop reaches the root, takes the
   * parent's field as pending, and is inside an object afterwards exactly
   * when the parent is an array.
   */
  lemma EndObjectSpec(s: GenState)
    ensures var r := EndObjectStep(s);
      && (!s.inObject || s.currField.Some? || s.stack == [] ==> r.failure.Some? && r.state == s)
      && (s.inObject && s.currField.None? && |s.stack| >= 2 ==>
            var parent := Top(s.stack[..|s.stack| - 1]);
            && r.state.stack == s.stack[..|s.stack| - 1]
            && r.state.currField == parent.field
            && r.state.inObject == (parent.kind == Array)
            && r.state.complete == (s.complete || parent.kind == Root)
            && (r.failure.None? <==> parent.kind == Array || parent.field.Some?)
            && (r.failure.None? ==> r.state.writeTag == (parent.kind == Array || !parent.field.value.packed)))
  {
  }

  /*
   * Event sequences
   */

  datatype Event =
    | SetSchema(schema: NativeSchema.ProtobufSchema)
    | Enable(feature: Feature)
    | Disable(feature: Feature)
    | FieldName(name: string)
    | StartArray
    | EndArray
    | StartObject
    | EndObject
    | WriteNull
    | WriteNumberString(encoded: string)

  /** The configuration events, which never throw. */
  predicate IsConfiguration(e: Event)
  {
    e.SetSchema? || e.Enable? || e.Disable?
  }

  function Apply(s: GenState, e: Event): Outcome
  {
    match e
      case SetSchema(schema) => Done(SetSchemaStep(s, schema))
      case Enable(f) => Done(s.(protobufFeatures := EnableFlag(s.protobufFeatures, f)))
      case Disable(f) => Done(s.(protobufFeatures := DisableFlag(s.protobufFeatures, f)))
      case FieldName(name) => FindFieldStep(s, name)
      case StartArray => StartArrayStep(s)
      case EndArray => EndArrayStep(s)
      case StartObject => StartObjectStep(s)
      case EndObject => EndObjectStep(s)
      case WriteNull => VerifyValueWriteStep(s)
      case WriteNumberString(_) => WriteNumberStringStep(s)
  }

  /** Applies the events in order, stopping at the first that throws. */
  function Run(s: GenState, es: seq<Event>): Outcome
    decreases |es|
  {
    if es == [] then Done(s)
    else
      var o := Apply(s, es[0]);
      if o.failure.Some? then o else Run(o.state, es[1..])
  }

  /** Neither inside an object, nor holding a pending field, nor inside an array. */
  predicate Stuck(s: GenState)
  {
    !s.inObject && s.currField.None? && (s.stack == [] || Top(s.stack).kind != Array)
  }

  /** The generator starts stuck, schema or not: `_inObject` starts false and no field is pending. */
  lemma InitialStuck(jsonFeatures: bv32, pbFeatures: bv32, schema: NativeSchema.ProtobufSchema)
    ensures Stuck(Initial(jsonFeatures, pbFeatures))
    ensures Stuck(SetSchemaStep(Initial(jsonFeatures, pbFeatures), schema))
  {
  }

  /** The event threw before changing anything. */
  predicate Refused(o: Outcome, s: GenState)
  {
    o.failure.Some? && o.state == s
  }

  lemma StuckFieldName(s: GenState, id: string)
    requires Stuck(s)
    ensures Refused(FindFieldStep(s, id), s)
  {
  }

  lemma StuckStartArray(s: GenState)
    requires Stuck(s)
    ensures Refused(StartArrayStep(s), s)
  {
  }

  lemma StuckEndArray(s: GenState)
    requires Stuck(s)
    ensures Refused(EndArrayStep(s), s)
  {
  }

  lemma StuckStartObject(s: GenState)
    requires Stuck(s)
    ensures Refused(StartObjectStep(s), s)
  {
  }

  lemma StuckEndObject(s: GenState)
    requires Stuck(s)
    ensures Refused(EndObjectStep(s), s)
  {
  }

  lemma StuckValue(s: GenState)
    requires Stuck(s)
    ensures Refused(VerifyValueWriteStep(s), s)
  {
  }

  /** From a stuck state only configuration events among the modelled ones succeed, and they leave the state stuck. */
  lemma StuckStep(s: GenState, e: Event)
    requires Stuck(s)
    ensures Apply(s, e).failure.None? <==> IsConfiguration(e)
    ensures Stuck(Apply(s, e).state)
  {
    match e
    case SetSchema(_) =>
    case Enable(_) =>
    case Disable(_) =>
    case FieldName(id) => StuckFieldName(s, id);
    case StartArray => StuckStartArray(s);
    case EndArray => StuckEndArray(s);
    case StartObject => StuckStartObject(s);
    case EndObject => StuckEndObject(s);
    case WriteNull => StuckValue(s);
    case WriteNumberString(_) =>
  }

  /**
   * From a stuck state, in particular from the initial one, a sequence of
   * modelled events succeeds only if it holds no field name, no start or end
   * of an array or object, no `writeNull` and no `writeNumber(String)`. The
   * scalar writes with empty bodies (`writeNumber` of an int, long, double or
   * float, `writeString` of a char range) are not events here: they succeed
   * in every state.
   */
  lemma {:induction false} StuckRun(s: GenState, es: seq<Event>)
    requires Stuck(s)
    ensures Run(s, es).failure.None? <==> forall i :: 0 <= i < |es| ==> IsConfiguration(es[i])
    decreases |es|
  {
    if es != [] {
      StuckStep(s, es[0]);
      if Apply(s, es[0]).failure.None? {
        StuckRun(Apply(s, es[0]).state, es[1..]);
        assert forall i :: 1 <= i < |es| ==> es[i] == es[1..][i - 1];
      }
    }
  }

  /** Once the output is complete it stays complete, whatever the event. */
  lemma CompleteStays(s: GenState, e: Event)
    requires s.complete
    ensures Apply(s, e).state.complete
  {
    match e
    case SetSchema(_) =>
    case Enable(_) =>
    case Disable(_) =>
    case FieldName(_) =>
    case StartArray =>
    case EndArray =>
    case StartObject =>
    case EndObject =>
    case WriteNull =>
    case WriteNumberString(_) =>
  }

  /*
   * The unknown-field rule: the bit tested is the JSON feature word's
   */

  /** As written, enabling IGNORE_UNKNOWN_FIELDS never changes what a field name does. */
  lemma EnableIgnoreUnknownNoEffect(s: GenState, id: string)
    ensures FindFieldStep(s.(protobufFeatures := EnableFlag(s.protobufFeatures, IGNORE_UNKNOWN_FIELDS)), id).failure
         == FindFieldStep(s, id).failure
  {
  }

  /** A generator with the feature enabled still refuses an unknown field when bit 0 of the JSON feature word is clear. */
  lemma EnabledFeatureStillRefuses(schema: NativeSchema.ProtobufSchema)
    ensures var s := SetSchemaStep(Initial(0, EnableFlag(0, IGNORE_UNKNOWN_FIELDS)), schema)
                       .(inObject := true);
            && EnabledIn(IGNORE_UNKNOWN_FIELDS, s.protobufFeatures)
            && FindFieldStep(s, "z").failure.Some? && FindFieldStep(s, "z").failure.value.Reported?
  {
    var s := SetSchemaStep(Initial(0, EnableFlag(0, IGNORE_UNKNOWN_FIELDS)), schema).(inObject := true);
    assert FieldByName(s.currentMessage, "z").None?;
    assert s.currentMessage != UnknownMessage by {
      assert s.currentMessage.name == "<root>" && UnknownMessage.name == "<unknown>";
      assert s.currentMessage.name[1] != UnknownMessage.name[1];
    }
  }

  /** As intended, the generator's own feature decides: with it on every name is accepted, with it off only known names. */
  lemma FindFieldIntendedSpec(s: GenState, id: string)
    requires s.inObject && s.currField.None? && s.stack != []
    ensures FindFieldIntendedStep(s.(protobufFeatures := EnableFlag(s.protobufFeatures, IGNORE_UNKNOWN_FIELDS)), id).failure.None?
    ensures FindFieldIntendedStep(s.(protobufFeatures := DisableFlag(s.protobufFeatures, IGNORE_UNKNOWN_FIELDS)), id).failure.None?
        <==> FieldByName(s.currentMessage, id).Some? || s.currentMessage == UnknownMessage
  {
    EnableSetsBit(s.protobufFeatures, IGNORE_UNKNOWN_FIELDS);
    DisableClearsBit(s.protobufFeatures, IGNORE_UNKNOWN_FIELDS);
  }

  /*
   * The generator object
   */

  class ProtobufGenerator {
    var jsonFeatures: bv32
    var protobufFeatures: bv32
    var schema: Option<NativeSchema.ProtobufSchema>
    var pbContext: seq<Frame>
    var inObject: bool
    var writeTag: bool
    var complete: bool
    var currentMessage: ProtobufMessage
    var currField: Option<ProtobufField>

    function State(): GenState
      reads this
    {
      GenState(jsonFeatures, protobufFeatures, schema, pbContext, inObject, writeTag, complete, currentMessage, currField)
    }

    constructor (jsonFeats: bv32, pbFeats: bv32)
      ensures State() == Initial(jsonFeats, pbFeats)
    {
      jsonFeatures := jsonFeats;
      protobufFeatures := pbFeats;
      schema := None;
      pbContext := [];
      inObject := false;
      writeTag := false;
      complete := false;
      currentMessage := RootMessage;
      currField := None;
    }

    method SetSchema(sch: NativeSchema.ProtobufSchema)
      modifies this
      ensures State() == SetSchemaStep(old(State()), sch)
    {
      if schema == Some(sch) {
        return;
      }
      schema := Some(sch);
      pbContext := [Frame(Root, Some(sch.rootType), None)];
    }

    method Enable(f: Feature)
      modifies this
      ensures State() == old(State()).(protobufFeatures := EnableFlag(old(protobufFeatures), f))
      ensures IsEnabled(f)
    {
      protobufFeatures := EnableFlag(protobufFeatures, f);
    }

    method Disable(f: Feature)
      modifies this
      ensures State() == old(State()).(protobufFeatures := DisableFlag(old(protobufFeatures), f))
      ensures !IsEnabled(f)
    {
      protobufFeatures := DisableFlag(protobufFeatures, f);
    }

    method Configure(f: Feature, state: bool)
      modifies this
      ensures State() == old(State()).(protobufFeatures := ConfigureFlag(old(protobufFeatures), f, state))
      ensures IsEnabled(f) == state
    {
      if state {
        Enable(f);
      } else {
        Disable(f);
      }
    }

    /** `isEnabled(f)`: bit number `ordinal()` of the protobuf feature word (the JSON word plays no part). */
    function IsEnabled(f: Feature): (b: bool)
      reads this
      ensures b <==> (protobufFeatures >> FeatureOrdinal(f)) & 1 == 1
    {
      EnabledIn(f, protobufFeatures)
    }

    method FindField(id: string) returns (err: Option<GenError>)
      modifies this
      ensures Outcome(State(), err) == FindFieldStep(old(State()), id)
    {
      if !inObject {
        if pbContext == [] {
          return Some(NullPointer);
        }
        return Some(Reported(FieldNameOutsideObject(Top(pbContext).kind)));
      }
      if currField.Some? {
        return Some(Reported(FieldNamePending(currField.value.name)));
      }
      var f := FieldByName(currentMessage, id);
      if f.None? {
        if currentMessage == UnknownMessage || EnabledIn(IGNORE_UNKNOWN_FIELDS, jsonFeatures) {
          f := Some(UnknownField());
        } else {
          return Some(Reported(UnrecognizedField(id, currentMessage)));
        }
      }
      if pbContext == [] {
        return Some(NullPointer);
      }
      pbContext := SetTopField(pbContext, f.value);
      currField := f;
      err := None;
    }

    method WriteStartArray() returns (err: Option<GenError>)
      modifies this
      ensures Outcome(State(), err) == StartArrayStep(old(State()))
    {
      if !inObject {
        return Some(Reported(ArrayOutsideObject));
      }
      if currField.None? {
        return Some(Reported(StartArrayWithoutField(currentMessage.name)));
      }
      if !IsArray(currField.value) {
        return Some(Reported(NotRepeated(currField.value.name)));
      }
      if pbContext == [] {
        return Some(NullPointer);
      }
      pbContext := pbContext + [Frame(Array, None, None)];
      writeTag := !currField.value.packed;
      err := None;
    }

    method WriteEndArray() returns (err: Option<GenError>)
      modifies this
      ensures Outcome(State(), err) == EndArrayStep(old(State()))
    {
      if pbContext == [] {
        return Some(NullPointer);
      }
      if Top(pbContext).kind != Array {
        return Some(Reported(NotInArray(Top(pbContext).kind)));
      }
      pbContext := pbContext[..|pbContext| - 1];
      if pbContext == [] {
        return Some(NullPointer);
      }
      if Top(pbContext).kind == Root {
        if !complete {
          complete := true;
        }
        inObject := false;
      } else {
        inObject := Top(pbContext).kind == Object;
      }
      writeTag := true;
      err := None;
    }

    method WriteStartObject() returns (err: Option<GenError>)
      modifies this
      ensures Outcome(State(), err) == StartObjectStep(old(State()))
    {
      if currField.None? {
        return Some(Reported(StartObjectWithoutField(currentMessage.name)));
      }
      if !IsObject(currField.value) {
        return Some(Reported(NotMessageField(currField.value.name, currField.value.ftype)));
      }
      if pbContext == [] {
        return Some(NullPointer);
      }
      pbContext := pbContext + [Frame(Object, currField.value.messageType, None)];
      if inObject {
        currField := None;
      }
      writeTag := true;
      err := None;
    }

    method WriteEndObject() returns (err: Option<GenError>)
      modifies this
      ensures Outcome(State(), err) == EndObjectStep(old(State()))
    {
      if !inObject {
        if pbContext == [] {
          return Some(NullPointer);
        }
        return Some(Reported(NotInObject(Top(pbContext).kind)));
      }
      if currField.Some? {
        return Some(Reported(EndObjectPending(currField.value.name)));
      }
      if pbContext == [] {
        return Some(NullPointer);
      }
      pbContext := pbContext[..|pbContext| - 1];
      if pbContext == [] {
        return Some(NullPointer);
      }
      if Top(pbContext).kind == Root && !complete {
        complete := true;
      }
      currField := Top(pbContext).field;
      var inObj := Top(pbContext).kind == Array;
      inObject := inObj;
      if !inObj && currField.None? {
        return Some(NullPointer);
      }
      writeTag := inObj || !currField.value.packed;
      err := None;
    }

    /** `writeNull`: the value guard only; nothing is written. */
    method WriteNull() returns (err: Option<GenError>)
      ensures Outcome(State(), err) == VerifyValueWriteStep(State())
    {
      if currField.None? {
        return Some(Reported(ValueWithoutField(currentMessage.name)));
      }
      err := None;
    }

    /** `writeNumber(String)`. */
    method WriteNumberString(encoded: string) returns (err: Option<GenError>)
      ensures Outcome(State(), err) == WriteNumberStringStep(State())
    {
      err := Some(UntypedNumber);
    }
  }
}

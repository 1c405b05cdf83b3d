/**
 * NativeProtobufSchema: the declarations of one parsed `.proto` file, and the
 * factories that pick a top-level message type from them and resolve it with
 * a fresh top-level resolver into the root descriptor of a ProtobufSchema.
 */
module NativeSchema {
  import opened OrderedMap
  import opened Wire
  import opened FieldTypes
  import opened ProtoAst
  import opened Descriptors
  import opened TypeResolver

  /** The file name and the top-level declarations, in file order. */
  datatype NativeProtobufSchema = NativeProtobufSchema(name: string, nativeTypes: seq<TypeDecl>)

  /** A ProtobufSchema: the root message descriptor, an index into the messages resolved with it. */
  datatype ProtobufSchema = ProtobufSchema(arena: Arena, rootType: MsgId)

  /** The IllegalArgumentException of a factory, or a resolution that fails. */
  datatype SchemaError = IllegalArgument(message: string) | Unresolved(cause: ResolveError)

  /** The first message declaration named `name`, in declaration order. */
  function MessageTypeNamed(types: seq<TypeDecl>, name: string): (r: Option<MessageType>)
    ensures r.None? <==> forall i :: 0 <= i < |types| ==> !IsMessageNamed(types[i], name)
    ensures r.Some? ==> exists i :: 0 <= i < |types| && types[i] == MessageDecl(r.value) && r.value.name == name
                                    && forall j :: 0 <= j < i ==> !IsMessageNamed(types[j], name)
  {
    if types == [] then None
    else if IsMessageNamed(types[0], name) then Some(types[0].msg)
    else
      var r := MessageTypeNamed(types[1..], name);
      assert forall i :: 0 < i < |types| ==> types[1..][i - 1] == types[i];
      if r.Some? then
        var i :| 0 <= i < |types[1..]| && types[1..][i] == MessageDecl(r.value) && r.value.name == name
                 && forall j :: 0 <= j < i ==> !IsMessageNamed(types[1..][j], name);
        assert forall j :: 0 <= j < i + 1 ==> !IsMessageNamed(types[j], name) by {
          forall j | 0 <= j < i + 1 ensures !IsMessageNamed(types[j], name) {
            if j > 0 {
              assert types[j] == types[1..][j - 1];
            }
          }
        }
        r
      else
        r
  }

  /** The first message declaration, in declaration order. */
  function FirstMessageType(types: seq<TypeDecl>): (r: Option<MessageType>)
    ensures r.None? <==> forall i :: 0 <= i < |types| ==> !types[i].MessageDecl?
    ensures r.Some? ==> exists i :: 0 <= i < |types| && types[i] == MessageDecl(r.value)
                                    && forall j :: 0 <= j < i ==> !types[j].MessageDecl?
  {
    if types == [] then None
    else if types[0].MessageDecl? then Some(types[0].msg)
    else
      var r := FirstMessageType(types[1..]);
      assert forall i :: 0 < i < |types| ==> types[1..][i - 1] == types[i];
      if r.Some? then
        var i :| 0 <= i < |types[1..]| && types[1..][i] == MessageDecl(r.value)
                 && forall j :: 0 <= j < i ==> !types[1..][j].MessageDecl?;
        assert forall j :: 0 <= j < i + 1 ==> !types[j].MessageDecl? by {
          forall j | 0 <= j < i + 1 ensures !types[j].MessageDecl? {
            if j > 0 {
              assert types[j] == types[1..][j - 1];
            }
          }
        }
        r
      else
        r
  }

  /**
   * `hasMessageType(name)`: the scan over the declarations; an enum or another
   * kind of declaration with that name does not count.
   */
  method HasMessageType(schema: NativeProtobufSchema, name: string) returns (b: bool)
    ensures b <==> exists i :: 0 <= i < |schema.nativeTypes| && IsMessageNamed(schema.nativeTypes[i], name)
    ensures b <==> MessageTypeNamed(schema.nativeTypes, name).Some?
  {
    var types := schema.nativeTypes;
    var i := 0;
    while i < |types|
      invariant 0 <= i <= |types|
      invariant forall j :: 0 <= j < i ==> !IsMessageNamed(types[j], name)
    {
      if name == TypeName(types[i]) {
        if types[i].MessageDecl? {
          return true;
        }
      }
      i := i + 1;
    }
    return false;
  }

  /** `_messageType(name)`: the scan that returns the first message declaration of that name. */
  method FindMessageType(types: seq<TypeDecl>, name: string) returns (r: Option<MessageType>)
    ensures r == MessageTypeNamed(types, name)
  {
    var i := 0;
    while i < |types|
      invariant 0 <= i <= |types|
      invariant forall j :: 0 <= j < i ==> !IsMessageNamed(types[j], name)
    {
      if types[i].MessageDecl? && name == TypeName(types[i]) {
        FirstNamedAt(types, name, i);
        return Some(types[i].msg);
      }
      i := i + 1;
    }
    return None;
  }

  /** A message declaration named `name` with none before it is the one MessageTypeNamed picks. */
  lemma FirstNamedAt(types: seq<TypeDecl>, name: string, i: nat)
    requires i < |types| && IsMessageNamed(types[i], name)
    requires forall j :: 0 <= j < i ==> !IsMessageNamed(types[j], name)
    ensures MessageTypeNamed(types, name) == Some(types[i].msg)
  {
    var r := MessageTypeNamed(types, name);
    var k :| 0 <= k < |types| && types[k] == MessageDecl(r.value) && r.value.name == name
             && forall j :: 0 <= j < k ==> !IsMessageNamed(types[j], name);
    assert !(k < i) && !(i < k);
  }

  /** `_firstMessageType()`: the scan that returns the first message declaration. */
  method FindFirstMessageType(types: seq<TypeDecl>) returns (r: Option<MessageType>)
    ensures r == FirstMessageType(types)
  {
    var i := 0;
    while i < |types|
      invariant 0 <= i <= |types|
      invariant forall j :: 0 <= j < i ==> !types[j].MessageDecl?
    {
      if types[i].MessageDecl? {
        FirstMessageAt(types, i);
        return Some(types[i].msg);
      }
      i := i + 1;
    }
    return None;
  }

  /** A message declaration with none before it is the one FirstMessageType picks. */
  lemma FirstMessageAt(types: seq<TypeDecl>, i: nat)
    requires i < |types| && types[i].MessageDecl?
    requires forall j :: 0 <= j < i ==> !types[j].MessageDecl?
    ensures FirstMessageType(types) == Some(types[i].msg)
  {
    var r := FirstMessageType(types);
    var k :| 0 <= k < |types| && types[k] == MessageDecl(r.value)
             && forall j :: 0 <= j < k ==> !types[j].MessageDecl?;
    assert !(k < i) && !(i < k);
  }

  /** The error message of `forType` when the schema has no message type of that name. */
  function NoSuchTypeMessage(schema: NativeProtobufSchema, name: string): string
  {
    "Protobuf schema definition (name '" + schema.name + "') has no message type with name '" + name + "'"
  }

  /** The error message of `forFirstType` when the schema has no message type. */
  function NoTypesMessage(schema: NativeProtobufSchema): string
  {
    "Protobuf schema definition (name '" + schema.name + "') contains no message type definitions"
  }

  /** `TypeResolver.construct(_nativeTypes).resolve(msg)` wrapped in a ProtobufSchema: a fresh top-level resolver per call. */
  function ResolveRoot(fuel: nat, types: seq<TypeDecl>, msg: MessageType): (r: Result<ProtobufSchema, SchemaError>)
    ensures r.Err? ==> r.error.Unresolved?
    ensures r.Ok? ==> r.value.rootType == 0 < |r.value.arena| && r.value.arena[0].name == msg.name
  {
    assert forall k :: 0 <= k < |[ScopeOf(types)]| ==> !HasKey([ScopeOf(types)][k].resolved, msg.name);
    match Resolve(FindScalar, fuel, [ScopeOf(types)], msg, [])
    case Err(e) => Err(Unresolved(e))
    case Ok((id, arena)) => Ok(ProtobufSchema(arena, id))
  }

  /** `forType(name)`: the first message type of that name, resolved; the IllegalArgumentException when there is none. */
  function ForType(fuel: nat, schema: NativeProtobufSchema, name: string): (r: Result<ProtobufSchema, SchemaError>)
    ensures MessageTypeNamed(schema.nativeTypes, name).None? <==> r == Err(IllegalArgument(NoSuchTypeMessage(schema, name)))
    ensures r.Ok? ==> r.value.rootType == 0 < |r.value.arena| && r.value.arena[0].name == name
  {
    match MessageTypeNamed(schema.nativeTypes, name)
    case None => Err(IllegalArgument(NoSuchTypeMessage(schema, name)))
    case Some(msg) => ResolveRoot(fuel, schema.nativeTypes, msg)
  }

  /** `forFirstType()`: the first message type, resolved; the IllegalArgumentException when there is none. */
  function ForFirstType(fuel: nat, schema: NativeProtobufSchema): (r: Result<ProtobufSchema, SchemaError>)
    ensures FirstMessageType(schema.nativeTypes).None? <==> r == Err(IllegalArgument(NoTypesMessage(schema)))
    ensures r.Ok? ==> r.value.rootType == 0 < |r.value.arena|
                      && r.value.arena[0].name == FirstMessageType(schema.nativeTypes).value.name
  {
    match FirstMessageType(schema.nativeTypes)
    case None => Err(IllegalArgument(NoTypesMessage(schema)))
    case Some(msg) => ResolveRoot(fuel, schema.nativeTypes, msg)
  }

  /**
   * The root descriptor of a resolved schema has one field per declared field,
   * sorted by id, and its name map has exactly the declared field names.
   */
  lemma ResolveRootShape(fuel: nat, types: seq<TypeDecl>, msg: MessageType)
    requires ResolveRoot(fuel, types, msg).Ok?
    ensures var m := ResolveRoot(fuel, types, msg).value.arena[0];
            && |m.fields| == |msg.fields|
            && SortedById(m.fields)
            && forall n :: HasKey(m.fieldsByName, n) <==> exists j :: 0 <= j < |msg.fields| && msg.fields[j].name == n
  {
    assert FindResolvedMessage([ScopeOf(types)], msg.name).None?;
    ResolveInShape(FindScalar, fuel, [ScopeOf(types)] + [ScopeOf(msg.nested)], msg, []);
  }

  /** With a fresh top-level resolver the root is resolved in a child scope at index 0. */
  lemma RootResolves(fuel: nat, types: seq<TypeDecl>, msg: MessageType, after: Arena)
    requires ResolveIn(FindScalar, fuel, [ScopeOf(types)] + [ScopeOf(msg.nested)], msg, []) == Ok((0, after))
    ensures ResolveRoot(fuel, types, msg) == Ok(ProtobufSchema(after, 0))
  {
    assert FindResolvedMessage([ScopeOf(types)], msg.name).None?;
  }

  /**
   * A top-level message whose fields are all scalars or of its own type
   * resolves for every fuel bound into a schema of that one descriptor, each
   * self-typed field pointing back at the root.
   */
  lemma ResolveRootSelfContained(fuel: nat, types: seq<TypeDecl>, msg: MessageType)
    requires SelfContained(FindScalar, msg)
    ensures ResolveRoot(fuel, types, msg) == Ok(ProtobufSchema([BuildMessage(msg.name, SelfContainedFields(FindScalar, msg.fields, 0))], 0))
  {
    ResolveInSelfContained(FindScalar, fuel, [ScopeOf(types)] + [ScopeOf(msg.nested)], msg, []);
    assert [] + [BuildMessage(msg.name, SelfContainedFields(FindScalar, msg.fields, 0))] == [BuildMessage(msg.name, SelfContainedFields(FindScalar, msg.fields, 0))];
    RootResolves(fuel, types, msg, [BuildMessage(msg.name, SelfContainedFields(FindScalar, msg.fields, 0))]);
  }

  /*
   * A message that refers to itself
   */

  const NodeId: FieldDecl := FieldDecl(Required, "int32", "id", 1, false, false)
  const NodeLeft: FieldDecl := FieldDecl(Optional, "Node", "left", 2, false, false)
  const NodeRight: FieldDecl := FieldDecl(Optional, "Node", "right", 3, false, false)
  const NodeDecl: MessageType := MessageType("Node", [NodeId, NodeLeft, NodeRight], [])

  /** A file declaring `message Node { required int32 id = 1; optional Node left = 2; optional Node right = 3; }`. */
  const NodeSchema: NativeProtobufSchema := NativeProtobufSchema("node.proto", [MessageDecl(NodeDecl)])

  /**
   * `forType("Node")` on that file succeeds for every fuel bound: the root
   * has three fields sorted by id, `id` is a varint scalar, and `left` and
   * `right` both refer to the root descriptor itself.
   */
  lemma NodeResolves(fuel: nat)
    ensures ForType(fuel, NodeSchema, "Node").Ok?
    ensures var s := ForType(fuel, NodeSchema, "Node").value;
            && s.rootType == 0 && |s.arena| == 1
            && |s.arena[0].fields| == 3 && SortedById(s.arena[0].fields)
            && ScalarField(NodeId, VINT) in s.arena[0].fields
            && MessageField(NodeLeft, 0) in s.arena[0].fields
            && MessageField(NodeRight, 0) in s.arena[0].fields
  {
    NodeFound();
    NodeSelfContained();
    ResolveRootSelfContained(fuel, NodeSchema.nativeTypes, NodeDecl);
    SelfContainedMessage(FindScalar, NodeDecl, 0);
  }

  /** `Node` is the first message type of that name. */
  lemma NodeFound()
    ensures MessageTypeNamed(NodeSchema.nativeTypes, "Node") == Some(NodeDecl)
  {
    FirstNamedAt(NodeSchema.nativeTypes, "Node", 0);
  }

  /** `int32` is a varint scalar and `Node` is no scalar, so `Node` is self-contained, its fields resolving as listed. */
  lemma NodeSelfContained()
    ensures SelfContained(FindScalar, NodeDecl)
    ensures SelfContainedField(FindScalar, NodeDecl.fields[0], 0) == ScalarField(NodeId, VINT)
    ensures SelfContainedField(FindScalar, NodeDecl.fields[1], 0) == MessageField(NodeLeft, 0)
    ensures SelfContainedField(FindScalar, NodeDecl.fields[2], 0) == MessageField(NodeRight, 0)
  {
    assert FindScalar("int32") == Some(VINT) && FindScalar("Node").None?;
    assert forall i :: 0 <= i < 3 ==> NodeDecl.fields[i] in {NodeId, NodeLeft, NodeRight};
  }

  /*
   * A message that refers twice to another top-level message
   */

  const PointDecl: MessageType := MessageType("Point", [FieldDecl(Required, "int32", "x", 1, false, false), FieldDecl(Required, "sint32", "y", 2, false, false)], [])
  const BoxTopLeft: FieldDecl := FieldDecl(Required, "Point", "topLeft", 3, false, false)
  const BoxBottomRight: FieldDecl := FieldDecl(Required, "Point", "bottomRight", 5, false, false)
  const BoxDecl: MessageType := MessageType("Box", [BoxTopLeft, BoxBottomRight], [])

  /** A file declaring `message Point { required int32 x = 1; required sint32 y = 2; }` and `message Box { required Point topLeft = 3; required Point bottomRight = 5; }`. */
  const BoxSchema: NativeProtobufSchema := NativeProtobufSchema("box.proto", [MessageDecl(PointDecl), MessageDecl(BoxDecl)])

  /** The top-level scope of that file: both messages declared, no enum, nothing resolved. */
  lemma BoxScope()
    ensures Get(ScopeOf(BoxSchema.nativeTypes).messages, "Point") == Some(PointDecl)
    ensures ScopeOf(BoxSchema.nativeTypes).enums == [] && ScopeOf(BoxSchema.nativeTypes).resolved == []
  {
    var types := BoxSchema.nativeTypes;
    ScopeOfMessages(types, "Point");
    assert types[..1] == [MessageDecl(PointDecl)];
    assert types[..1][..0] == [];
    assert EnumEntries(types[..1], EnumOf) == [];
  }

  /** `Point` has only scalar fields. */
  lemma PointSelfContained()
    ensures SelfContained(FindScalar, PointDecl)
  {
    assert FindScalar("int32") == Some(VINT) && FindScalar("sint32") == Some(VINT);
    assert forall i :: 0 <= i < 2 ==> PointDecl.fields[i].typeName in {"int32", "sint32"};
  }

  /**
   * A message `owner` without nested declarations, resolved in a child of the
   * top-level scope `top`, whose field names a self-contained message `target`
   * that `top` declares (and binds to nothing else).
   */
  ghost predicate RefersToDeclared(scalars: string -> Option<FieldType>, top: Scope, owner: MessageType, target: MessageType, fd: FieldDecl)
  {
    && owner.nested == [] && fd.typeName == target.name && target.name != owner.name
    && scalars(target.name).None? && SelfContained(scalars, target)
    && Get(top.messages, target.name) == Some(target)
    && !HasKey(top.resolved, target.name) && !HasKey(top.enums, target.name)
  }

  /** Such a field is bound to the declaration in the top-level scope. */
  lemma DeclaredLookup(scalars: string -> Option<FieldType>, top: Scope, owner: MessageType, target: MessageType, fd: FieldDecl, id: MsgId)
    requires RefersToDeclared(scalars, top, owner, target, fd)
    ensures Lookup(Registered([top] + [ScopeOf(owner.nested)], owner.name, id), target.name) == Declared([top], target)
  {
    assert ScopeOf(owner.nested) == Scope([], [], []);
    assert Put([], owner.name, id) == [(owner.name, id)];
    var inner := Registered([top] + [ScopeOf(owner.nested)], owner.name, id);
    assert inner == [top, Scope([], [], [(owner.name, id)])];
    assert inner[..1] == [top];
  }

  /** So the field is resolved by resolving the target afresh in a child of the top-level scope. */
  lemma DeclaredFieldNests(scalars: string -> Option<FieldType>, fuel: nat, top: Scope, owner: MessageType, target: MessageType, fd: FieldDecl, id: MsgId, arena: Arena)
    requires RefersToDeclared(scalars, top, owner, target, fd)
    ensures ResolveField(scalars, fuel, Registered([top] + [ScopeOf(owner.nested)], owner.name, id), owner.name, fd, arena)
            == ResolveNested(scalars, fuel, [top], target, fd, arena)
  {
    DeclaredLookup(scalars, top, owner, target, fd, id);
    ResolveFieldLookup(scalars, fuel, Registered([top] + [ScopeOf(owner.nested)], owner.name, id), owner.name, fd, arena);
  }

  /** Given one more unit of fuel, that resolution succeeds at the next index. */
  lemma DeclaredFieldResolves(scalars: string -> Option<FieldType>, fuel: nat, top: Scope, owner: MessageType, target: MessageType, fd: FieldDecl, id: MsgId, arena: Arena)
    requires RefersToDeclared(scalars, top, owner, target, fd)
    ensures ResolveField(scalars, fuel + 1, Registered([top] + [ScopeOf(owner.nested)], owner.name, id), owner.name, fd, arena)
            == Ok((MessageField(fd, |arena|), arena + [SelfContainedMessageAt(scalars, target, |arena|)]))
  {
    DeclaredFieldNests(scalars, fuel + 1, top, owner, target, fd, id, arena);
    ResolveNestedSelfContained(scalars, fuel, [top], target, fd, arena);
  }

  /** The field loop over two such fields resolves the target once per field, at the next two indexes. */
  lemma TwoFieldsResolve(scalars: string -> Option<FieldType>, fuel: nat, top: Scope, owner: MessageType, target: MessageType, a0: Arena)
    requires |owner.fields| == 2
    requires RefersToDeclared(scalars, top, owner, target, owner.fields[0]) && RefersToDeclared(scalars, top, owner, target, owner.fields[1])
    ensures ResolveFields(scalars, fuel + 1, Registered([top] + [ScopeOf(owner.nested)], owner.name, 0), owner.name, owner.fields, a0)
            == Ok(([MessageField(owner.fields[0], |a0|), MessageField(owner.fields[1], |a0| + 1)],
                   a0 + [SelfContainedMessageAt(scalars, target, |a0|), SelfContainedMessageAt(scalars, target, |a0| + 1)]))
  {
    var inner := Registered([top] + [ScopeOf(owner.nested)], owner.name, 0);
    var a1 := a0 + [SelfContainedMessageAt(scalars, target, |a0|)];
    DeclaredFieldResolves(scalars, fuel, top, owner, target, owner.fields[0], 0, a0);
    SecondDeclaredField(scalars, fuel, top, owner, target, a0);
    TwoFieldsStep(scalars, fuel + 1, inner, owner.name, owner.fields, a0,
                  MessageField(owner.fields[0], |a0|), a1, MessageField(owner.fields[1], |a0| + 1),
                  a0 + [SelfContainedMessageAt(scalars, target, |a0|), SelfContainedMessageAt(scalars, target, |a0| + 1)]);
  }

  /** The second field resolves the target after the first one did. */
  lemma SecondDeclaredField(scalars: string -> Option<FieldType>, fuel: nat, top: Scope, owner: MessageType, target: MessageType, a0: Arena)
    requires |owner.fields| == 2 && RefersToDeclared(scalars, top, owner, target, owner.fields[1])
    ensures ResolveField(scalars, fuel + 1, Registered([top] + [ScopeOf(owner.nested)], owner.name, 0), owner.name, owner.fields[1], a0 + [SelfContainedMessageAt(scalars, target, |a0|)])
            == Ok((MessageField(owner.fields[1], |a0| + 1), a0 + [SelfContainedMessageAt(scalars, target, |a0|), SelfContainedMessageAt(scalars, target, |a0| + 1)]))
  {
    var a1 := a0 + [SelfContainedMessageAt(scalars, target, |a0|)];
    assert |a1| == |a0| + 1;
    assert a1 + [SelfContainedMessageAt(scalars, target, |a1|)] == a0 + [SelfContainedMessageAt(scalars, target, |a0|), SelfContainedMessageAt(scalars, target, |a0| + 1)];
    DeclaredFieldResolves(scalars, fuel, top, owner, target, owner.fields[1], 0, a1);
  }

  /** The field loop over two fields, each resolved in turn. */
  lemma TwoFieldsStep(scalars: string -> Option<FieldType>, fuel: nat, scopes: seq<Scope>, owner: string, fds: seq<FieldDecl>, a0: Arena,
                      f0: ProtobufField, a1: Arena, f1: ProtobufField, a2: Arena)
    requires |scopes| >= 2 && |fds| == 2
    requires ResolveField(scalars, fuel, scopes, owner, fds[0], a0) == Ok((f0, a1))
    requires ResolveField(scalars, fuel, scopes, owner, fds[1], a1) == Ok((f1, a2))
    ensures ResolveFields(scalars, fuel, scopes, owner, fds, a0) == Ok(([f0, f1], a2))
  {
    FirstFieldStep(scalars, fuel, scopes, owner, fds, a0, f0, a1);
    ResolveFieldsNext(scalars, fuel, scopes, owner, fds, 1, a0);
    assert [f0] + [f1] == [f0, f1];
    assert fds[..2] == fds;
  }

  /** The first of them. */
  lemma FirstFieldStep(scalars: string -> Option<FieldType>, fuel: nat, scopes: seq<Scope>, owner: string, fds: seq<FieldDecl>, a0: Arena,
                       f0: ProtobufField, a1: Arena)
    requires |scopes| >= 2 && |fds| >= 1
    requires ResolveField(scalars, fuel, scopes, owner, fds[0], a0) == Ok((f0, a1))
    ensures ResolveFields(scalars, fuel, scopes, owner, fds[..1], a0) == Ok(([f0], a1))
  {
    assert fds[..0] == [];
    var none: Result<(seq<ProtobufField>, Arena), ResolveError> := Ok(([], a0));
    assert ResolveFields(scalars, fuel, scopes, owner, fds[..0], a0) == none;
    ResolveFieldsNext(scalars, fuel, scopes, owner, fds, 0, a0);
    assert [] + [f0] == [f0];
  }

  /**
   * A message with two fields that both name such a target resolves the target
   * twice, once per field, at indexes 1 and 2.
   */
  lemma TwoReferencesResolve(scalars: string -> Option<FieldType>, fuel: nat, top: Scope, owner: MessageType, target: MessageType)
    requires |owner.fields| == 2
    requires RefersToDeclared(scalars, top, owner, target, owner.fields[0]) && RefersToDeclared(scalars, top, owner, target, owner.fields[1])
    ensures ResolveIn(scalars, fuel + 1, [top] + [ScopeOf(owner.nested)], owner, [])
            == Ok((0, [BuildMessage(owner.name, [MessageField(owner.fields[0], 1), MessageField(owner.fields[1], 2)])]
                      + [SelfContainedMessageAt(scalars, target, 1), SelfContainedMessageAt(scalars, target, 2)]))
  {
    TwoFieldsResolve(scalars, fuel, top, owner, target, [NewMessage(owner.name, [], [])]);
    ResolveRootFromFields(scalars, fuel + 1, [top] + [ScopeOf(owner.nested)], owner,
                          [MessageField(owner.fields[0], 1), MessageField(owner.fields[1], 2)],
                          [SelfContainedMessageAt(scalars, target, 1), SelfContainedMessageAt(scalars, target, 2)]);
  }

  /** The top-level scope of the `Box` file declares `Point`, and both fields of `Box` name it. */
  lemma BoxRefersToPoint(top: Scope, i: nat)
    requires Get(top.messages, "Point") == Some(PointDecl) && top.enums == [] && top.resolved == []
    requires i < 2
    ensures RefersToDeclared(FindScalar, top, BoxDecl, PointDecl, BoxDecl.fields[i])
  {
    PointSelfContained();
    assert FindScalar("Point").None?;
    assert BoxDecl.fields[i].typeName == "Point";
  }

  /**
   * `forType("Box")` on that file succeeds given any fuel above zero, and its two
   * `Point` fields refer to two different descriptors of `Point`: the source
   * resolves a declared top-level message again for every field that names it.
   */
  lemma BoxResolves(fuel: nat)
    ensures ForType(fuel + 1, BoxSchema, "Box").Ok?
    ensures var s := ForType(fuel + 1, BoxSchema, "Box").value;
            && s.rootType == 0 && |s.arena| == 3
            && s.arena[1].name == "Point" && s.arena[2].name == "Point"
            && MessageField(BoxTopLeft, 1) in s.arena[0].fields
            && MessageField(BoxBottomRight, 2) in s.arena[0].fields
  {
    BoxFound();
    BoxRootResolves(fuel);
    BoxArenaShape();
  }

  /** The arena of `Box`'s schema: `Box` itself, then `Point` resolved once per field that names it. */
  const BoxArena: Arena := [BuildMessage("Box", [MessageField(BoxTopLeft, 1), MessageField(BoxBottomRight, 2)])]
                           + [SelfContainedMessageAt(FindScalar, PointDecl, 1), SelfContainedMessageAt(FindScalar, PointDecl, 2)]

  /** Its three descriptors, and `Box`'s two fields pointing at the two `Point` descriptors. */
  lemma BoxArenaShape()
    ensures |BoxArena| == 3 && BoxArena[1].name == "Point" && BoxArena[2].name == "Point"
    ensures MessageField(BoxTopLeft, 1) in BoxArena[0].fields && MessageField(BoxBottomRight, 2) in BoxArena[0].fields
  {
    var fs := [MessageField(BoxTopLeft, 1), MessageField(BoxBottomRight, 2)];
    assert fs[0] in multiset(fs) && fs[1] in multiset(fs);
  }

  /** `Box` is the first message type of that name. */
  lemma BoxFound()
    ensures MessageTypeNamed(BoxSchema.nativeTypes, "Box") == Some(BoxDecl)
  {
    FirstNamedAt(BoxSchema.nativeTypes, "Box", 1);
  }

  /** Resolving `Box` from the top level yields `Box` followed by two resolutions of `Point`. */
  lemma BoxRootResolves(fuel: nat)
    ensures ResolveRoot(fuel + 1, BoxSchema.nativeTypes, BoxDecl) == Ok(ProtobufSchema(BoxArena, 0))
  {
    BoxScope();
    BoxRefersToPoint(ScopeOf(BoxSchema.nativeTypes), 0);
    BoxRefersToPoint(ScopeOf(BoxSchema.nativeTypes), 1);
    TwoReferencesResolve(FindScalar, fuel, ScopeOf(BoxSchema.nativeTypes), BoxDecl, PointDecl);
    RootResolves(fuel + 1, BoxSchema.nativeTypes, BoxDecl, BoxArena);
  }

  /*
   * Two top-level messages that refer to each other
   */

  const PingDecl: MessageType := MessageType("A", [FieldDecl(Optional, "B", "b", 1, false, false)], [])
  const PongDecl: MessageType := MessageType("B", [FieldDecl(Optional, "A", "a", 1, false, false)], [])

  /** A file declaring `message A { optional B b = 1; }` and `message B { optional A a = 1; }`. */
  const PingPong: NativeProtobufSchema := NativeProtobufSchema("pingpong.proto", [MessageDecl(PingDecl), MessageDecl(PongDecl)])

  /** The top-level scope of that file: both messages declared, no enum, nothing resolved. */
  lemma PingPongScope()
    ensures Get(ScopeOf(PingPong.nativeTypes).messages, "A") == Some(PingDecl)
    ensures Get(ScopeOf(PingPong.nativeTypes).messages, "B") == Some(PongDecl)
    ensures ScopeOf(PingPong.nativeTypes).enums == [] && ScopeOf(PingPong.nativeTypes).resolved == []
  {
    PingPongDeclaresA();
    PingPongDeclaresB();
    PingPongNothingElse();
  }

  /** That scope maps `A` to its declaration. */
  lemma PingPongDeclaresA()
    ensures Get(ScopeOf(PingPong.nativeTypes).messages, "A") == Some(PingDecl)
  {
    var types := PingPong.nativeTypes;
    assert IsMessageNamed(types[0], "A") && !IsMessageNamed(types[1], "A");
    ScopeOfMessages(types, "A");
  }

  /** That scope maps `B` to its declaration. */
  lemma PingPongDeclaresB()
    ensures Get(ScopeOf(PingPong.nativeTypes).messages, "B") == Some(PongDecl)
  {
    var types := PingPong.nativeTypes;
    assert IsMessageNamed(types[1], "B");
    ScopeOfMessages(types, "B");
  }

  /** That scope binds no enum and has nothing resolved. */
  lemma PingPongNothingElse()
    ensures ScopeOf(PingPong.nativeTypes).enums == [] && ScopeOf(PingPong.nativeTypes).resolved == []
  {
    var types := PingPong.nativeTypes;
    assert types[..1] == [MessageDecl(PingDecl)];
    assert types[..1][..0] == [];
    assert EnumEntries(types[..1], EnumOf) == [];
  }

  /**
   * Two messages, each declared at the top level and without nested
   * declarations, each with one field whose type is the other by a name that
   * is neither a scalar alias nor bound by the top level to a resolved message
   * or an enum.
   */
  predicate CrossReferring(scalars: string -> Option<FieldType>, top: Scope, mt: MessageType, other: MessageType)
  {
    && mt.name != other.name
    && |mt.fields| == 1 && mt.nested == [] && mt.fields[0].typeName == other.name
    && |other.fields| == 1 && other.nested == [] && other.fields[0].typeName == mt.name
    && scalars(mt.name).None? && scalars(other.name).None?
    && Get(top.messages, mt.name) == Some(mt) && Get(top.messages, other.name) == Some(other)
    && !HasKey(top.resolved, mt.name) && !HasKey(top.resolved, other.name)
    && !HasKey(top.enums, mt.name) && !HasKey(top.enums, other.name)
  }

  /** The relation is symmetric. */
  lemma CrossSymmetric(scalars: string -> Option<FieldType>, top: Scope, mt: MessageType, other: MessageType)
    requires CrossReferring(scalars, top, mt, other)
    ensures CrossReferring(scalars, top, other, mt)
  {
  }

  /** While one of them resolves its field, the field's type is the other, declared at the top level. */
  lemma CrossLookup(scalars: string -> Option<FieldType>, top: Scope, mt: MessageType, other: MessageType, id: MsgId)
    requires CrossReferring(scalars, top, mt, other)
    ensures Lookup(Registered([top] + [ScopeOf(mt.nested)], mt.name, id), other.name) == Declared([top], other)
  {
    assert ScopeOf(mt.nested) == Scope([], [], []);
    assert Put([], mt.name, id) == [(mt.name, id)];
    var inner := Registered([top] + [ScopeOf(mt.nested)], mt.name, id);
    assert inner == [top, Scope([], [], [(mt.name, id)])];
    assert inner[..1] == [top];
  }

  /** So its field is resolved by resolving the other message afresh, in a child scope of the top level. */
  lemma CrossField(scalars: string -> Option<FieldType>, fuel: nat, top: Scope, mt: MessageType, other: MessageType, arena: Arena)
    requires CrossReferring(scalars, top, mt, other)
    ensures ResolveField(scalars, fuel, Registered([top] + [ScopeOf(mt.nested)], mt.name, |arena|), mt.name, mt.fields[0], arena + [NewMessage(mt.name, [], [])])
            == ResolveNested(scalars, fuel, [top], other, mt.fields[0], arena + [NewMessage(mt.name, [], [])])
  {
    CrossLookup(scalars, top, mt, other, |arena|);
    ResolveFieldLookup(scalars, fuel, Registered([top] + [ScopeOf(mt.nested)], mt.name, |arena|), mt.name, mt.fields[0], arena + [NewMessage(mt.name, [], [])]);
  }

  /** A nested resolution fails when the fuel is spent or when resolving the message fails. */
  lemma NestedFails(scalars: string -> Option<FieldType>, fuel: nat, scopes: seq<Scope>, nt: MessageType, fd: FieldDecl, arena: Arena)
    requires |scopes| >= 1
    requires fuel > 0 ==> ResolveIn(scalars, fuel - 1, scopes + [ScopeOf(nt.nested)], nt, arena) == Err(OutOfFuel)
    ensures ResolveNested(scalars, fuel, scopes, nt, fd, arena) == Err(OutOfFuel)
  {
  }

  /** A message with a single field whose resolution fails with `e` fails to resolve with `e`. */
  lemma SingleFieldFails(scalars: string -> Option<FieldType>, fuel: nat, scopes: seq<Scope>, mt: MessageType, arena: Arena, e: ResolveError)
    requires |scopes| >= 2 && |mt.fields| == 1
    requires ResolveField(scalars, fuel, Registered(scopes, mt.name, |arena|), mt.name, mt.fields[0], arena + [NewMessage(mt.name, [], [])]) == Err(e)
    ensures ResolveIn(scalars, fuel, scopes, mt, arena) == Err(e)
  {
    var inner := Registered(scopes, mt.name, |arena|);
    var a0 := arena + [NewMessage(mt.name, [], [])];
    assert mt.fields[..0] == [];
    assert ResolveFields(scalars, fuel, inner, mt.name, mt.fields[..0], a0) == Ok(([], a0));
    assert ResolveFields(scalars, fuel, inner, mt.name, mt.fields, a0) == Err(e);
  }

  /** One message of the pair fails to resolve when the fuel is spent or when resolving the other, one level down, fails. */
  lemma CrossStep(scalars: string -> Option<FieldType>, fuel: nat, top: Scope, mt: MessageType, other: MessageType, arena: Arena)
    requires CrossReferring(scalars, top, mt, other)
    requires fuel > 0 ==> ResolveIn(scalars, fuel - 1, [top] + [ScopeOf(other.nested)], other, arena + [NewMessage(mt.name, [], [])]) == Err(OutOfFuel)
    ensures ResolveIn(scalars, fuel, [top] + [ScopeOf(mt.nested)], mt, arena) == Err(OutOfFuel)
  {
    NestedFails(scalars, fuel, [top], other, mt.fields[0], arena + [NewMessage(mt.name, [], [])]);
    CrossField(scalars, fuel, top, mt, other, arena);
    SingleFieldFails(scalars, fuel, [top] + [ScopeOf(mt.nested)], mt, arena, OutOfFuel);
  }

  /**
   * Resolving either message of such a pair runs out of fuel whatever the
   * fuel: each resolves its field by resolving the other afresh in a child
   * scope of the top level, which never sees the first one registered.
   */
  lemma {:induction false} CrossDiverges(scalars: string -> Option<FieldType>, fuel: nat, top: Scope, mt: MessageType, other: MessageType, arena: Arena)
    requires CrossReferring(scalars, top, mt, other)
    ensures ResolveIn(scalars, fuel, [top] + [ScopeOf(mt.nested)], mt, arena) == Err(OutOfFuel)
    decreases fuel
  {
    if fuel > 0 {
      CrossSymmetric(scalars, top, mt, other);
      CrossDiverges(scalars, fuel - 1, top, other, mt, arena + [NewMessage(mt.name, [], [])]);
    }
    CrossStep(scalars, fuel, top, mt, other, arena);
  }

  /** Every scalar alias has at least three letters, so a one- or two-letter name is never a scalar type. */
  lemma ShortNameNotScalar(id: string)
    requires |id| < 3
    ensures FindScalar(id).None?
  {
    assert |id| != |"double"| && |id| != |"float"| && |id| != |"bool"| && |id| != |"string"| && |id| != |"bytes"|;
    assert forall a <- ["int32", "int64", "uint32", "uint64", "sint32", "sint64"] :: |a| >= 3;
    assert forall a <- ["fixed32", "sfixed32", "fixed64", "sfixed64"] :: |a| >= 3;
  }

  /** The two messages of that file refer to each other in the sense above. */
  lemma PingPongCross()
    ensures CrossReferring(FindScalar, ScopeOf(PingPong.nativeTypes), PingDecl, PongDecl)
  {
    PingPongScope();
    ShortNameNotScalar("A");
    ShortNameNotScalar("B");
  }

  /** So `forType("A")` on that file fails for every fuel bound: the source recurses without end. */
  lemma PingPongForType(fuel: nat)
    ensures ForType(fuel, PingPong, "A") == Err(Unresolved(OutOfFuel))
  {
    var top := ScopeOf(PingPong.nativeTypes);
    FirstNamedAt(PingPong.nativeTypes, "A", 0);
    PingPongCross();
    CrossDiverges(FindScalar, fuel, top, PingDecl, PongDecl, []);
    assert FindResolvedMessage([top], "A").None?;
  }
}

/**
 * Scoped resolution of message declarations into resolved descriptors.
 *
 * A chain of TypeResolver objects is a sequence of scopes, outermost first:
 * the last scope is the resolver doing the work, the ones before it its
 * ancestors. Resolved messages live in an arena and are named by their index.
 *
 * The source resolves a message declared alongside the current one by
 * recursing into a fresh resolver, and two top-level messages that refer to
 * each other make that recursion endless. The recursive functions below carry
 * a fuel bound that each such nested resolution spends; running out of fuel
 * is the error `OutOfFuel`, which stands for the source's stack overflow.
 *
 * The resolution functions take the scalar-name lookup `FieldTypes.findType`
 * as their parameter `scalars`; a schema passes FieldTypes.FindScalar, which
 * FindScalarIsFindType shows answers as the FieldTypes table does.
 */
module TypeResolver {
  import opened OrderedMap
  import opened Wire
  import opened FieldTypes
  import opened ProtoAst
  import opened Descriptors

  type Arena = seq<ProtobufMessage>

  /** One TypeResolver: the declared messages and the enums of one level, and the messages registered in it as resolved. */
  datatype Scope = Scope(
    messages: OrderedMap<string, MessageType>,
    enums: OrderedMap<string, ProtobufEnum>,
    resolved: OrderedMap<string, MsgId>)

  /*
   * construct / _constructEnum
   */

  function ValuePairs(vs: seq<EnumValueDecl>): (ps: seq<(string, int)>)
    ensures |ps| == |vs|
    ensures forall i :: 0 <= i < |vs| ==> ps[i] == (vs[i].name, vs[i].tag as int)
  {
    seq(|vs|, i requires 0 <= i < |vs| => (vs[i].name, vs[i].tag as int))
  }

  /** The enum descriptor of a declaration: its name and its values put in declaration order. */
  function EnumOf(e: EnumType): ProtobufEnum
  {
    ProtobufEnum(e.name, FromPairs(ValuePairs(e.values)))
  }

  /** `_constructEnum`. */
  method ConstructEnum(e: EnumType) returns (pe: ProtobufEnum)
    ensures pe == EnumOf(e)
  {
    var valuesByName: OrderedMap<string, int> := [];
    var i := 0;
    while i < |e.values|
      invariant 0 <= i <= |e.values|
      invariant valuesByName == FromPairs(ValuePairs(e.values[..i]))
    {
      var v := e.values[i];
      assert ValuePairs(e.values[..i + 1]) == ValuePairs(e.values[..i]) + [(v.name, v.tag as int)];
      FromPairsSnoc(ValuePairs(e.values[..i]), (v.name, v.tag as int));
      valuesByName := Put(valuesByName, v.name, v.tag);
      i := i + 1;
    }
    assert e.values[..i] == e.values;
    pe := ProtobufEnum(e.name, valuesByName);
  }

  /** Every value name of the declaration maps to the tag of its LAST declaration; other names map to nothing. */
  lemma EnumOfFindEnum(e: EnumType, name: string)
    ensures FindEnum(EnumOf(e), name).None? <==> forall i :: 0 <= i < |e.values| ==> e.values[i].name != name
    ensures forall i :: 0 <= i < |e.values| && e.values[i].name == name
                        && (forall j :: i < j < |e.values| ==> e.values[j].name != name)
                      ==> FindEnum(EnumOf(e), name) == Some(e.values[i].tag as int)
  {
    var ps := ValuePairs(e.values);
    FromPairsHasKey(ps, name);
    forall i | 0 <= i < |e.values| && e.values[i].name == name && (forall j :: i < j < |e.values| ==> e.values[j].name != name)
      ensures FindEnum(EnumOf(e), name) == Some(e.values[i].tag as int)
    {
      assert IsLastWithKey(ps, name, i);
      FromPairsLast(ps, name, i);
    }
  }

  /** The message declarations of decls as (name, declaration) pairs, in order. */
  function MessageEntries(decls: seq<TypeDecl>): seq<(string, MessageType)>
  {
    if decls == [] then []
    else
      MessageEntries(decls[..|decls| - 1])
      + (match decls[|decls| - 1] case MessageDecl(m) => [(m.name, m)] case _ => [])
  }

  /** The enum declarations of decls as (name, descriptor) pairs, in order. */
  function EnumEntries(decls: seq<TypeDecl>, toEnum: EnumType -> ProtobufEnum): seq<(string, ProtobufEnum)>
  {
    if decls == [] then []
    else
      EnumEntries(decls[..|decls| - 1], toEnum)
      + (match decls[|decls| - 1] case EnumDecl(e) => [(e.name, toEnum(e))] case _ => [])
  }

  /** The scope `construct` builds over decls: nothing registered as resolved yet. */
  function ScopeOf(decls: seq<TypeDecl>): Scope
  {
    Scope(FromPairs(MessageEntries(decls)), FromPairs(EnumEntries(decls, EnumOf)), [])
  }

  /** `construct(parent, nativeTypes)`: one loop that sorts the declarations into the message map and the enum map. */
  method Construct(decls: seq<TypeDecl>) returns (s: Scope)
    ensures s == ScopeOf(decls)
  {
    var messages: OrderedMap<string, MessageType> := [];
    var enums: OrderedMap<string, ProtobufEnum> := [];
    var i := 0;
    while i < |decls|
      invariant 0 <= i <= |decls|
      invariant messages == FromPairs(MessageEntries(decls[..i]))
      invariant enums == FromPairs(EnumEntries(decls[..i], EnumOf))
    {
      assert decls[..i + 1][..i] == decls[..i];
      match decls[i] {
        case MessageDecl(m) =>
          assert MessageEntries(decls[..i + 1]) == MessageEntries(decls[..i]) + [(m.name, m)];
          assert EnumEntries(decls[..i + 1], EnumOf) == EnumEntries(decls[..i], EnumOf);
          FromPairsSnoc(MessageEntries(decls[..i]), (m.name, m));
          messages := Put(messages, m.name, m);
        case EnumDecl(e) =>
          var pe := ConstructEnum(e);
          assert MessageEntries(decls[..i + 1]) == MessageEntries(decls[..i]);
          assert EnumEntries(decls[..i + 1], EnumOf) == EnumEntries(decls[..i], EnumOf) + [(e.name, pe)];
          FromPairsSnoc(EnumEntries(decls[..i], EnumOf), (e.name, pe));
          enums := Put(enums, e.name, pe);
        case OtherDecl(_) =>
          assert MessageEntries(decls[..i + 1]) == MessageEntries(decls[..i]);
          assert EnumEntries(decls[..i + 1], EnumOf) == EnumEntries(decls[..i], EnumOf);
      }
      i := i + 1;
    }
    assert decls[..i] == decls;
    s := Scope(messages, enums, []);
  }

  predicate IsMessageNamed(d: TypeDecl, name: string)
  {
    d.MessageDecl? && d.msg.name == name
  }

  predicate IsEnumNamed(d: TypeDecl, name: string)
  {
    d.EnumDecl? && d.enm.name == name
  }

  /** The last message declaration named `name`, if any. */
  function LastMessageNamed(decls: seq<TypeDecl>, name: string): (r: Option<MessageType>)
    ensures r.None? <==> forall i :: 0 <= i < |decls| ==> !IsMessageNamed(decls[i], name)
    ensures forall i :: 0 <= i < |decls| && IsMessageNamed(decls[i], name)
                        && (forall j :: i < j < |decls| ==> !IsMessageNamed(decls[j], name))
                      ==> r == Some(decls[i].msg)
  {
    if decls == [] then None
    else
      var n := |decls| - 1;
      var init := decls[..n];
      if IsMessageNamed(decls[n], name) then Some(decls[n].msg)
      else
        var r := LastMessageNamed(init, name);
        assert forall i :: 0 <= i < n ==> init[i] == decls[i];
        r
  }

  /**
   * The message map of a constructed scope: a name maps to its LAST message
   * declaration (later declarations overwrite) and is absent when no message
   * declaration has it; enum and other declarations never enter it.
   */
  lemma {:induction false} ScopeOfMessages(decls: seq<TypeDecl>, name: string)
    ensures Get(ScopeOf(decls).messages, name) == LastMessageNamed(decls, name)
  {
    if decls != [] {
      var n := |decls| - 1;
      var init := decls[..n];
      ScopeOfMessages(init, name);
      var m0 := FromPairs(MessageEntries(init));
      var d := decls[n];
      if d.MessageDecl? {
        assert MessageEntries(decls) == MessageEntries(init) + [(d.msg.name, d.msg)];
        FromPairsSnoc(MessageEntries(init), (d.msg.name, d.msg));
        if d.msg.name == name {
          PutGetSame(m0, name, d.msg);
        } else {
          PutGetOther(m0, d.msg.name, d.msg, name);
        }
      } else {
        assert MessageEntries(decls) == MessageEntries(init);
      }
    }
  }

  /** One more declaration: an enum named `name` takes over the entry, anything else leaves it. */
  lemma EnumEntriesStep(decls: seq<TypeDecl>, toEnum: EnumType -> ProtobufEnum, name: string)
    requires decls != []
    ensures Get(FromPairs(EnumEntries(decls, toEnum)), name)
            == if IsEnumNamed(decls[|decls| - 1], name) then Some(toEnum(decls[|decls| - 1].enm))
               else Get(FromPairs(EnumEntries(decls[..|decls| - 1], toEnum)), name)
  {
    var n := |decls| - 1;
    var init := decls[..n];
    var m0 := FromPairs(EnumEntries(init, toEnum));
    var d := decls[n];
    if d.EnumDecl? {
      assert EnumEntries(decls, toEnum) == EnumEntries(init, toEnum) + [(d.enm.name, toEnum(d.enm))];
      FromPairsSnoc(EnumEntries(init, toEnum), (d.enm.name, toEnum(d.enm)));
      if d.enm.name == name {
        PutGetSame(m0, name, toEnum(d.enm));
      } else {
        PutGetOther(m0, d.enm.name, toEnum(d.enm), name);
      }
    } else {
      assert EnumEntries(decls, toEnum) == EnumEntries(init, toEnum);
    }
  }

  /** The last enum declaration named `name`, if any. */
  function LastEnumNamed(decls: seq<TypeDecl>, name: string): (r: Option<EnumType>)
    ensures r.None? <==> forall i :: 0 <= i < |decls| ==> !IsEnumNamed(decls[i], name)
    ensures forall i :: 0 <= i < |decls| && IsEnumNamed(decls[i], name)
                        && (forall j :: i < j < |decls| ==> !IsEnumNamed(decls[j], name))
                      ==> r == Some(decls[i].enm)
  {
    if decls == [] then None
    else
      var n := |decls| - 1;
      var init := decls[..n];
      if IsEnumNamed(decls[n], name) then Some(decls[n].enm)
      else
        var r := LastEnumNamed(init, name);
        assert forall i :: 0 <= i < n ==> init[i] == decls[i];
        r
  }

  lemma {:induction false} EnumEntriesGet(decls: seq<TypeDecl>, toEnum: EnumType -> ProtobufEnum, name: string)
    ensures Get(FromPairs(EnumEntries(decls, toEnum)), name)
            == match LastEnumNamed(decls, name) case None => None case Some(e) => Some(toEnum(e))
  {
    if decls != [] {
      EnumEntriesGet(decls[..|decls| - 1], toEnum, name);
      EnumEntriesStep(decls, toEnum, name);
    }
  }

  /**
   * The enum map of a constructed scope: a name maps to the descriptor of its
   * LAST enum declaration and is absent when no enum declaration has it.
   */
  lemma ScopeOfEnums(decls: seq<TypeDecl>, name: string)
    ensures Get(ScopeOf(decls).enums, name)
            == match LastEnumNamed(decls, name) case None => None case Some(e) => Some(EnumOf(e))
  {
    EnumEntriesGet(decls, EnumOf, name);
  }

  /*
   * Lookups
   */

  /** What `_findResolvedMessage` promises of its answer r for name over scopes. */
  ghost predicate InnermostResolved(scopes: seq<Scope>, name: string, r: Option<MsgId>)
  {
    && (r.None? <==> forall k :: 0 <= k < |scopes| ==> !HasKey(scopes[k].resolved, name))
    && (r.Some? ==> exists k :: 0 <= k < |scopes| && Get(scopes[k].resolved, name) == r
                                && forall l :: k < l < |scopes| ==> !HasKey(scopes[l].resolved, name))
  }

  /** The innermost scope's own answer is the answer over the whole chain. */
  lemma InnermostResolvedHere(scopes: seq<Scope>, name: string)
    requires |scopes| >= 1 && HasKey(scopes[|scopes| - 1].resolved, name)
    ensures InnermostResolved(scopes, name, Get(scopes[|scopes| - 1].resolved, name))
  {
  }

  /** When the innermost scope has no such name, the parent chain's answer is the answer. */
  lemma InnermostResolvedOuter(scopes: seq<Scope>, name: string, r: Option<MsgId>)
    requires |scopes| >= 1 && !HasKey(scopes[|scopes| - 1].resolved, name)
    requires InnermostResolved(scopes[..|scopes| - 1], name, r)
    ensures InnermostResolved(scopes, name, r)
  {
    var outer := scopes[..|scopes| - 1];
    assert forall k :: 0 <= k < |outer| ==> outer[k] == scopes[k];
    if r.Some? {
      var k :| 0 <= k < |outer| && Get(outer[k].resolved, name) == r
               && forall l :: k < l < |outer| ==> !HasKey(outer[l].resolved, name);
      assert Get(scopes[k].resolved, name) == r;
      forall l | k < l < |scopes| ensures !HasKey(scopes[l].resolved, name) {
        if l < |outer| {
          assert outer[l] == scopes[l];
        }
      }
    }
  }

  /** `_findResolvedMessage`: the resolved message of that name in the innermost scope that has one. */
  function FindResolvedMessage(scopes: seq<Scope>, name: string): (r: Option<MsgId>)
    ensures r.None? <==> forall k :: 0 <= k < |scopes| ==> !HasKey(scopes[k].resolved, name)
    ensures r.Some? ==> exists k :: 0 <= k < |scopes| && Get(scopes[k].resolved, name) == r
                           && forall l :: k < l < |scopes| ==> !HasKey(scopes[l].resolved, name)
  {
    if scopes == [] then None
    else
      var here := scopes[|scopes| - 1];
      var r := Get(here.resolved, name);
      if r.Some? then
        InnermostResolvedHere(scopes, name);
        r
      else
        var r' := FindResolvedMessage(scopes[..|scopes| - 1], name);
        InnermostResolvedOuter(scopes, name, r');
        r'
  }

  /** `_findLocalResolved`: a field bound to this scope's resolved message of that name, else to its enum of that name. */
  function FindLocalResolved(s: Scope, fd: FieldDecl): (r: Option<ProtobufField>)
    ensures r.None? <==> !HasKey(s.resolved, fd.typeName) && !HasKey(s.enums, fd.typeName)
    ensures r.Some? ==> r.value.name == fd.name && r.value.id == fd.tag
  {
    match Get(s.resolved, fd.typeName)
    case Some(msg) => Some(MessageField(fd, msg))
    case None =>
      match Get(s.enums, fd.typeName)
      case Some(et) => Some(EnumField(fd, et))
      case None => None
  }

  /** What a type name denotes, looking from the innermost scope outwards. */
  datatype Binding = BoundMessage(id: MsgId) | BoundEnum(enm: ProtobufEnum) | Declared(inner: seq<Scope>, mt: MessageType) | Unbound

  /**
   * The reference definition of name lookup: in each scope, innermost first,
   * a message registered as resolved, then an enum, then a declared message.
   * A declared message comes with the chain up to the scope that declares it,
   * where it is resolved.
   */
  function Lookup(scopes: seq<Scope>, name: string): (b: Binding)
  {
    if scopes == [] then Unbound
    else
      var s := scopes[|scopes| - 1];
      if HasKey(s.resolved, name) then BoundMessage(Get(s.resolved, name).value)
      else if HasKey(s.enums, name) then BoundEnum(Get(s.enums, name).value)
      else if HasKey(s.messages, name) then Declared(scopes, Get(s.messages, name).value)
      else Lookup(scopes[..|scopes| - 1], name)
  }

  /*
   * Error message
   */

  /** One step of `_knownEnums`/`_knownMsgs`: a ", " separator when the builder is not empty, then the name. */
  function AppendName(sb: string, name: string): string
  {
    (if |sb| > 0 then sb + ", " else sb) + name
  }

  /** The builder after appending every name, in order. */
  function AppendNames(sb: string, names: seq<string>): string
  {
    if names == [] then sb else AppendName(AppendNames(sb, names[..|names| - 1]), names[|names| - 1])
  }

  /** Enum names of every scope, outermost scope first, each in declaration order. */
  function EnumNames(scopes: seq<Scope>): seq<string>
  {
    if scopes == [] then [] else EnumNames(scopes[..|scopes| - 1]) + Keys(scopes[|scopes| - 1].enums)
  }

  /** Declared message names of every scope, outermost scope first. */
  function MessageNames(scopes: seq<Scope>): seq<string>
  {
    if scopes == [] then [] else MessageNames(scopes[..|scopes| - 1]) + Keys(scopes[|scopes| - 1].messages)
  }

  /** The names joined with ", ": the list the error message is meant to show. */
  function Join(names: seq<string>): string
  {
    if names == [] then "" else if |names| == 1 then names[0] else names[0] + ", " + Join(names[1..])
  }

  lemma {:induction false} AppendNamesConcat(sb: string, xs: seq<string>, ys: seq<string>)
    ensures AppendNames(sb, xs + ys) == AppendNames(AppendNames(sb, xs), ys)
  {
    if ys == [] {
      assert xs + ys == xs;
    } else {
      var n := |ys| - 1;
      AppendNamesConcat(sb, xs, ys[..n]);
      assert (xs + ys)[..|xs + ys| - 1] == xs + ys[..n];
    }
  }

  lemma {:induction false} JoinSnoc(names: seq<string>, last: string)
    requires names != []
    ensures Join(names + [last]) == Join(names) + ", " + last
  {
    if |names| > 1 {
      JoinSnoc(names[1..], last);
      assert (names + [last])[1..] == names[1..] + [last];
    }
  }

  /** With no empty name, the builder `_knownEnums`/`_knownMsgs` produce from an empty start is the ", "-join of the names. */
  lemma {:induction false} AppendNamesJoin(names: seq<string>)
    requires forall i :: 0 <= i < |names| ==> names[i] != ""
    ensures AppendNames("", names) == Join(names)
  {
    if names != [] {
      var n := |names| - 1;
      AppendNamesJoin(names[..n]);
      if n == 0 {
        assert AppendNames("", names[..0]) == "";
      } else {
        assert names[..n][0] == names[0] && names[0] != "";
        assert |Join(names[..n])| > 0 by {
          JoinNonEmpty(names[..n]);
        }
        JoinSnoc(names[..n], names[n]);
        assert names == names[..n] + [names[n]];
      }
    }
  }

  lemma {:induction false} JoinNonEmpty(names: seq<string>)
    requires names != [] && names[0] != ""
    ensures |Join(names)| > 0
  {
  }

  /** The loop over one scope's key set in `_knownEnums`/`_knownMsgs`. */
  method AppendKeys(sb: string, names: seq<string>) returns (r: string)
    ensures r == AppendNames(sb, names)
  {
    r := sb;
    var i := 0;
    while i < |names|
      invariant 0 <= i <= |names|
      invariant r == AppendNames(sb, names[..i])
    {
      assert names[..i + 1][..i] == names[..i];
      if |r| > 0 {
        r := r + ", ";
      }
      r := r + names[i];
      i := i + 1;
    }
    assert names[..i] == names;
  }

  /** `_knownEnums(sb)`: the ancestors' enum names first, then this scope's. */
  method KnownEnums(scopes: seq<Scope>, sb: string) returns (r: string)
    requires |scopes| >= 1
    ensures r == AppendNames(sb, EnumNames(scopes))
    decreases |scopes|
  {
    r := sb;
    var outer := scopes[..|scopes| - 1];
    if |outer| > 0 {
      r := KnownEnums(outer, r);
    }
    r := AppendKeys(r, Keys(scopes[|scopes| - 1].enums));
    AppendNamesConcat(sb, EnumNames(outer), Keys(scopes[|scopes| - 1].enums));
  }

  /** `_knownMsgs(sb)`: the ancestors' declared message names first, then this scope's. */
  method KnownMsgs(scopes: seq<Scope>, sb: string) returns (r: string)
    requires |scopes| >= 1
    ensures r == AppendNames(sb, MessageNames(scopes))
    decreases |scopes|
  {
    r := sb;
    var outer := scopes[..|scopes| - 1];
    if |outer| > 0 {
      r := KnownMsgs(outer, r);
    }
    r := AppendKeys(r, Keys(scopes[|scopes| - 1].messages));
    AppendNamesConcat(sb, MessageNames(outer), Keys(scopes[|scopes| - 1].messages));
  }

  /** The IllegalArgumentException message of an unresolvable field type. */
  function UnknownTypeMessage(scopes: seq<Scope>, fd: FieldDecl, owner: string): string
  {
    "Unknown protobuf field type '" + fd.typeName + "' for field '" + fd.name + "' of MessageType '" + owner
    + "' (known enum types: " + AppendNames("", EnumNames(scopes))
    + "; known message types: " + AppendNames("", MessageNames(scopes)) + ")"
  }

  /*
   * Resolution
   */

  datatype ResolveError = UnknownType(message: string) | OutOfFuel

  /** b extends a: the messages resolved before keep their index and descriptor. */
  ghost predicate Extends(a: Arena, b: Arena)
  {
    |a| <= |b| && b[..|a|] == a
  }

  /** The scopes while message `name` is resolved under index id: the resolver registers it in its own scope first. */
  function Registered(scopes: seq<Scope>, name: string, id: MsgId): (inner: seq<Scope>)
    requires |scopes| >= 1
    ensures |inner| == |scopes| && inner[..|scopes| - 1] == scopes[..|scopes| - 1]
    ensures Get(inner[|scopes| - 1].resolved, name) == Some(id)
  {
    var here := scopes[|scopes| - 1];
    PutGetSame(here.resolved, name, id);
    scopes[..|scopes| - 1] + [here.(resolved := Put(here.resolved, name, id))]
  }

  function FieldPairs(fs: seq<ProtobufField>): (ps: seq<(string, ProtobufField)>)
    ensures |ps| == |fs|
    ensures forall i :: 0 <= i < |fs| ==> ps[i] == (fs[i].name, fs[i])
  {
    seq(|fs|, i requires 0 <= i < |fs| => (fs[i].name, fs[i]))
  }

  /** The chain `assignNext` sets: each position of the name map points to the following one. */
  function Links(n: nat): (links: map<nat, nat>)
    ensures forall k: nat :: k in links <==> k + 1 < n
    ensures forall k :: k in links ==> links[k] == k + 1
  {
    if n <= 1 then map[] else Links(n - 1)[n - 2 := n - 1]
  }

  /**
   * The message `_resolve` hands back once its fields are resolved: the name
   * map in declaration order, the field array sorted by id, the fields chained.
   */
  function BuildMessage(name: string, fs: seq<ProtobufField>): (m: ProtobufMessage)
    ensures m.name == name && ValidMessage(m)
    ensures SortedById(m.fields) && multiset(m.fields) == multiset(fs)
    ensures m.fieldsByName == FromPairs(FieldPairs(fs))
    ensures m.next == Links(|m.fieldsByName|)
    ensures m.idOffset == -1 && m.fieldsById.None? && m.firstField.None?
  {
    var byName := FromPairs(FieldPairs(fs));
    NewMessage(name, byName, SortById(fs)).(next := Links(|byName|))
  }

  /**
   * `_resolve(rawType)` run by the last scope of `scopes`: registers the
   * message under the next free index, resolves its fields in order and
   * stores the finished descriptor at that index.
   */
  function ResolveIn(scalars: string -> Option<FieldType>, fuel: nat, scopes: seq<Scope>, mt: MessageType, arena: Arena): (r: Result<(MsgId, Arena), ResolveError>)
    requires |scopes| >= 2
    ensures r.Ok? ==> r.value.0 == |arena| < |r.value.1| && Extends(arena, r.value.1)
    ensures r.Ok? ==> r.value.1[|arena|].name == mt.name
    decreases fuel, 3, 0
  {
    var id := |arena|;
    var inner := Registered(scopes, mt.name, id);
    var a0 := arena + [NewMessage(mt.name, [], [])];
    match ResolveFields(scalars, fuel, inner, mt.name, mt.fields, a0)
    case Err(e) => Err(e)
    case Ok((fs, a)) =>
      assert a[..|a0|] == a0;
      assert a[..|a0|][..id] == arena;
      Ok((id, a[id := BuildMessage(mt.name, fs)]))
  }

  /** The field loop of `_resolve`: each declared field, in order, yields one resolved field. */
  function ResolveFields(scalars: string -> Option<FieldType>, fuel: nat, scopes: seq<Scope>, owner: string, fds: seq<FieldDecl>, arena: Arena)
    : (r: Result<(seq<ProtobufField>, Arena), ResolveError>)
    requires |scopes| >= 2
    ensures r.Ok? ==> Extends(arena, r.value.1) && |r.value.0| == |fds|
    ensures r.Ok? ==> forall i :: 0 <= i < |fds| ==> r.value.0[i].name == fds[i].name && r.value.0[i].id == fds[i].tag
    decreases fuel, 2, |fds|
  {
    if fds == [] then Ok(([], arena))
    else
      match ResolveFields(scalars, fuel, scopes, owner, fds[..|fds| - 1], arena)
      case Err(e) => Err(e)
      case Ok((done, a)) =>
        match ResolveField(scalars, fuel, scopes, owner, fds[|fds| - 1], a)
        case Err(e) => Err(e)
        case Ok((f, a')) =>
          assert a'[..|a|][..|arena|] == arena;
          Ok((done + [f], a'))
  }

  /**
   * One field of `_resolve`: a scalar alias; else this scope's resolved
   * message or enum; else this scope's declared message, resolved in a child
   * scope; else whatever the ancestors find; else the unknown-type error.
   */
  function ResolveField(scalars: string -> Option<FieldType>, fuel: nat, scopes: seq<Scope>, owner: string, fd: FieldDecl, arena: Arena)
    : (r: Result<(ProtobufField, Arena), ResolveError>)
    requires |scopes| >= 2
    ensures r.Ok? ==> Extends(arena, r.value.1) && r.value.0.name == fd.name && r.value.0.id == fd.tag
    decreases fuel, 1, 0
  {
    match scalars(fd.typeName)
    case Some(t) => Ok((ScalarField(fd, t), arena))
    case None =>
      var here := scopes[|scopes| - 1];
      match FindLocalResolved(here, fd)
      case Some(f) => Ok((f, arena))
      case None =>
        match Get(here.messages, fd.typeName)
        case Some(nativeMt) => ResolveNested(scalars, fuel, scopes, nativeMt, fd, arena)
        case None =>
          match FindAnyResolved(scalars, fuel, scopes[..|scopes| - 1], fd, arena)
          case Err(e) => Err(e)
          case Ok((Some(f), a)) => Ok((f, a))
          case Ok((None, _)) => Err(UnknownType(UnknownTypeMessage(scopes, fd, owner)))
  }

  /** `construct(this, nativeMt.getNestedTypes())._resolve(nativeMt)` wrapped in a message field; one unit of fuel. */
  function ResolveNested(scalars: string -> Option<FieldType>, fuel: nat, scopes: seq<Scope>, nativeMt: MessageType, fd: FieldDecl, arena: Arena)
    : (r: Result<(ProtobufField, Arena), ResolveError>)
    requires |scopes| >= 1
    ensures r.Ok? ==> Extends(arena, r.value.1) && r.value.0 == MessageField(fd, |arena|)
    ensures r.Ok? ==> |arena| < |r.value.1| && r.value.1[|arena|].name == nativeMt.name
    decreases fuel, 0, 0
  {
    if fuel == 0 then Err(OutOfFuel)
    else
      match ResolveIn(scalars, fuel - 1, scopes + [ScopeOf(nativeMt.nested)], nativeMt, arena)
      case Err(e) => Err(e)
      case Ok((id, a)) => Ok((MessageField(fd, id), a))
  }

  /** A resolved field as the answer of a lookup that found it. */
  function AsFound(r: Result<(ProtobufField, Arena), ResolveError>): (found: Result<(Option<ProtobufField>, Arena), ResolveError>)
    ensures found.Ok? <==> r.Ok?
    ensures found.Ok? ==> found.value == (Some(r.value.0), r.value.1)
  {
    match r
    case Err(e) => Err(e)
    case Ok((f, a)) => Ok((Some(f), a))
  }

  /** `_findAnyResolved` on the last scope of `scopes`: local resolved or enum, else a local declared message, else the parent's answer. */
  function FindAnyResolved(scalars: string -> Option<FieldType>, fuel: nat, scopes: seq<Scope>, fd: FieldDecl, arena: Arena)
    : (r: Result<(Option<ProtobufField>, Arena), ResolveError>)
    requires |scopes| >= 1
    ensures r.Ok? ==> Extends(arena, r.value.1)
    ensures r.Ok? && r.value.0.Some? ==> r.value.0.value.name == fd.name && r.value.0.value.id == fd.tag
    ensures r.Ok? && r.value.0.None? ==> r.value.1 == arena
    decreases fuel, 0, |scopes|
  {
    var here := scopes[|scopes| - 1];
    match FindLocalResolved(here, fd)
    case Some(f) => Ok((Some(f), arena))
    case None =>
      match Get(here.messages, fd.typeName)
      case Some(nativeMt) =>
        AsFound(ResolveNested(scalars, fuel, scopes, nativeMt, fd, arena))
      case None =>
        if |scopes| > 1 then FindAnyResolved(scalars, fuel, scopes[..|scopes| - 1], fd, arena)
        else Ok((None, arena))
  }

  /** `resolve(rawType)`: a message already resolved in this scope or an ancestor, else a fresh resolution in a child scope over its nested declarations. */
  function Resolve(scalars: string -> Option<FieldType>, fuel: nat, scopes: seq<Scope>, mt: MessageType, arena: Arena): (r: Result<(MsgId, Arena), ResolveError>)
    requires |scopes| >= 1
    ensures (exists k :: 0 <= k < |scopes| && HasKey(scopes[k].resolved, mt.name))
            ==> r.Ok? && r.value.1 == arena
                && exists k :: 0 <= k < |scopes| && Get(scopes[k].resolved, mt.name) == Some(r.value.0)
                               && forall l :: k < l < |scopes| ==> !HasKey(scopes[l].resolved, mt.name)
    ensures (forall k :: 0 <= k < |scopes| ==> !HasKey(scopes[k].resolved, mt.name)) && r.Ok?
            ==> r.value.0 == |arena| < |r.value.1| && Extends(arena, r.value.1) && r.value.1[|arena|].name == mt.name
  {
    match FindResolvedMessage(scopes, mt.name)
    case Some(id) => Ok((id, arena))
    case None => ResolveIn(scalars, fuel, scopes + [ScopeOf(mt.nested)], mt, arena)
  }

  /*
   * Lookup order
   */

  /** A scope binds a name when it has a resolved message, an enum or a declared message of that name. */
  predicate Binds(s: Scope, name: string)
  {
    HasKey(s.resolved, name) || HasKey(s.enums, name) || HasKey(s.messages, name)
  }

  /** The chain a declared message comes with is a prefix of the scopes, ending at a scope that declares the name. */
  lemma {:induction false} LookupDeclaredPrefix(scopes: seq<Scope>, name: string)
    requires Lookup(scopes, name).Declared?
    ensures var inner := Lookup(scopes, name).inner;
            && 1 <= |inner| <= |scopes| && inner == scopes[..|inner|]
            && Get(inner[|inner| - 1].messages, name) == Some(Lookup(scopes, name).mt)
    decreases |scopes|
  {
    var s := scopes[|scopes| - 1];
    if !HasKey(s.resolved, name) && !HasKey(s.enums, name) && !HasKey(s.messages, name) {
      var outer := scopes[..|scopes| - 1];
      LookupDeclaredPrefix(outer, name);
      var inner := Lookup(outer, name).inner;
      assert outer[..|inner|] == scopes[..|inner|];
    } else {
      assert scopes[..|scopes|] == scopes;
    }
  }

  /** When the last scope binds the name, the reference lookup and `_findAnyResolved` both stop there. */
  lemma LookupHere(scalars: string -> Option<FieldType>, fuel: nat, scopes: seq<Scope>, fd: FieldDecl, arena: Arena)
    requires |scopes| >= 1 && Binds(scopes[|scopes| - 1], fd.typeName)
    ensures !Lookup(scopes, fd.typeName).Unbound?
    ensures Lookup(scopes, fd.typeName).BoundMessage?
            ==> FindAnyResolved(scalars, fuel, scopes, fd, arena) == Ok((Some(MessageField(fd, Lookup(scopes, fd.typeName).id)), arena))
    ensures Lookup(scopes, fd.typeName).BoundEnum?
            ==> FindAnyResolved(scalars, fuel, scopes, fd, arena) == Ok((Some(EnumField(fd, Lookup(scopes, fd.typeName).enm)), arena))
    ensures Lookup(scopes, fd.typeName).Declared?
            ==> Lookup(scopes, fd.typeName).inner == scopes
                && FindAnyResolved(scalars, fuel, scopes, fd, arena)
                   == AsFound(ResolveNested(scalars, fuel, scopes, Lookup(scopes, fd.typeName).mt, fd, arena))
  {
    var here := scopes[|scopes| - 1];
    var n := fd.typeName;
    if !HasKey(here.resolved, n) && !HasKey(here.enums, n) {
      assert FindLocalResolved(here, fd).None?;
    }
  }

  /** A scope that does not bind the name is passed over by both the reference lookup and `_findAnyResolved`. */
  lemma PassOver(scalars: string -> Option<FieldType>, fuel: nat, scopes: seq<Scope>, fd: FieldDecl, arena: Arena)
    requires |scopes| >= 1 && !Binds(scopes[|scopes| - 1], fd.typeName)
    ensures |scopes| == 1 ==> Lookup(scopes, fd.typeName) == Unbound && FindAnyResolved(scalars, fuel, scopes, fd, arena) == Ok((None, arena))
    ensures |scopes| > 1 ==> Lookup(scopes, fd.typeName) == Lookup(scopes[..|scopes| - 1], fd.typeName)
    ensures |scopes| > 1 ==> FindAnyResolved(scalars, fuel, scopes, fd, arena) == FindAnyResolved(scalars, fuel, scopes[..|scopes| - 1], fd, arena)
  {
    assert FindLocalResolved(scopes[|scopes| - 1], fd).None?;
    if |scopes| == 1 {
      assert scopes[..0] == [];
    }
  }

  /** `_findAnyResolved` follows the reference lookup: bound names need no resolution and leave the arena alone; a declared message is resolved in the scope that declares it. */
  lemma {:induction false} FindAnyResolvedLookup(scalars: string -> Option<FieldType>, fuel: nat, scopes: seq<Scope>, fd: FieldDecl, arena: Arena)
    requires |scopes| >= 1
    ensures Lookup(scopes, fd.typeName).BoundMessage?
            ==> FindAnyResolved(scalars, fuel, scopes, fd, arena) == Ok((Some(MessageField(fd, Lookup(scopes, fd.typeName).id)), arena))
    ensures Lookup(scopes, fd.typeName).BoundEnum?
            ==> FindAnyResolved(scalars, fuel, scopes, fd, arena) == Ok((Some(EnumField(fd, Lookup(scopes, fd.typeName).enm)), arena))
    ensures Lookup(scopes, fd.typeName).Unbound? ==> FindAnyResolved(scalars, fuel, scopes, fd, arena) == Ok((None, arena))
    ensures Lookup(scopes, fd.typeName).Declared?
            ==> |Lookup(scopes, fd.typeName).inner| >= 1
                && FindAnyResolved(scalars, fuel, scopes, fd, arena)
                   == AsFound(ResolveNested(scalars, fuel, Lookup(scopes, fd.typeName).inner, Lookup(scopes, fd.typeName).mt, fd, arena))
    decreases |scopes|
  {
    if Binds(scopes[|scopes| - 1], fd.typeName) {
      LookupHere(scalars, fuel, scopes, fd, arena);
    } else {
      PassOver(scalars, fuel, scopes, fd, arena);
      if |scopes| > 1 {
        FindAnyResolvedLookup(scalars, fuel, scopes[..|scopes| - 1], fd, arena);
      }
    }
  }

  /**
   * The lookup order of one field: a scalar alias first, otherwise the
   * reference lookup over this scope and its ancestors, and the unknown-type
   * error naming the type, the field, the owner and every visible name when
   * nothing binds.
   */
  lemma ResolveFieldLookup(scalars: string -> Option<FieldType>, fuel: nat, scopes: seq<Scope>, owner: string, fd: FieldDecl, arena: Arena)
    requires |scopes| >= 2
    ensures scalars(fd.typeName).Some?
            ==> ResolveField(scalars, fuel, scopes, owner, fd, arena) == Ok((ScalarField(fd, scalars(fd.typeName).value), arena))
    ensures scalars(fd.typeName).None? && Lookup(scopes, fd.typeName).BoundMessage?
            ==> ResolveField(scalars, fuel, scopes, owner, fd, arena) == Ok((MessageField(fd, Lookup(scopes, fd.typeName).id), arena))
    ensures scalars(fd.typeName).None? && Lookup(scopes, fd.typeName).BoundEnum?
            ==> ResolveField(scalars, fuel, scopes, owner, fd, arena) == Ok((EnumField(fd, Lookup(scopes, fd.typeName).enm), arena))
    ensures scalars(fd.typeName).None? && Lookup(scopes, fd.typeName).Declared?
            ==> |Lookup(scopes, fd.typeName).inner| >= 1
                && ResolveField(scalars, fuel, scopes, owner, fd, arena)
                   == ResolveNested(scalars, fuel, Lookup(scopes, fd.typeName).inner, Lookup(scopes, fd.typeName).mt, fd, arena)
    ensures scalars(fd.typeName).None? && Lookup(scopes, fd.typeName).Unbound?
            ==> ResolveField(scalars, fuel, scopes, owner, fd, arena) == Err(UnknownType(UnknownTypeMessage(scopes, fd, owner)))
  {
    if scalars(fd.typeName).None? {
      if Binds(scopes[|scopes| - 1], fd.typeName) {
        ResolveFieldHere(scalars, fuel, scopes, owner, fd, arena);
      } else {
        ResolveFieldAncestors(scalars, fuel, scopes, owner, fd, arena);
      }
    }
  }

  /** A name the resolving scope does not bind is looked up in the ancestors. */
  lemma ResolveFieldAncestors(scalars: string -> Option<FieldType>, fuel: nat, scopes: seq<Scope>, owner: string, fd: FieldDecl, arena: Arena)
    requires |scopes| >= 2 && scalars(fd.typeName).None? && !Binds(scopes[|scopes| - 1], fd.typeName)
    ensures Lookup(scopes, fd.typeName).BoundMessage?
            ==> ResolveField(scalars, fuel, scopes, owner, fd, arena) == Ok((MessageField(fd, Lookup(scopes, fd.typeName).id), arena))
    ensures Lookup(scopes, fd.typeName).BoundEnum?
            ==> ResolveField(scalars, fuel, scopes, owner, fd, arena) == Ok((EnumField(fd, Lookup(scopes, fd.typeName).enm), arena))
    ensures Lookup(scopes, fd.typeName).Declared?
            ==> |Lookup(scopes, fd.typeName).inner| >= 1
                && ResolveField(scalars, fuel, scopes, owner, fd, arena)
                   == ResolveNested(scalars, fuel, Lookup(scopes, fd.typeName).inner, Lookup(scopes, fd.typeName).mt, fd, arena)
    ensures Lookup(scopes, fd.typeName).Unbound?
            ==> ResolveField(scalars, fuel, scopes, owner, fd, arena) == Err(UnknownType(UnknownTypeMessage(scopes, fd, owner)))
  {
    PassOver(scalars, fuel, scopes, fd, arena);
    FindAnyResolvedLookup(scalars, fuel, scopes[..|scopes| - 1], fd, arena);
    ResolveFieldOuter(scalars, fuel, scopes, owner, fd, arena);
    var b := Lookup(scopes, fd.typeName);
    if b.Declared? {
      ResolveFieldFound(scalars, fuel, scopes, owner, fd, arena, ResolveNested(scalars, fuel, b.inner, b.mt, fd, arena));
    }
  }

  /** When the ancestors find a field by resolving it, the field and its arena are the result. */
  lemma ResolveFieldFound(scalars: string -> Option<FieldType>, fuel: nat, scopes: seq<Scope>, owner: string, fd: FieldDecl, arena: Arena,
                          found: Result<(ProtobufField, Arena), ResolveError>)
    requires |scopes| >= 2 && scalars(fd.typeName).None? && !Binds(scopes[|scopes| - 1], fd.typeName)
    requires FindAnyResolved(scalars, fuel, scopes[..|scopes| - 1], fd, arena) == AsFound(found)
    ensures ResolveField(scalars, fuel, scopes, owner, fd, arena) == found
  {
    ResolveFieldOuter(scalars, fuel, scopes, owner, fd, arena);
    match found
    case Err(e) =>
    case Ok((f, a)) =>
  }

  /** A field whose type name the resolving scope binds is resolved there. */
  lemma ResolveFieldHere(scalars: string -> Option<FieldType>, fuel: nat, scopes: seq<Scope>, owner: string, fd: FieldDecl, arena: Arena)
    requires |scopes| >= 2 && scalars(fd.typeName).None? && Binds(scopes[|scopes| - 1], fd.typeName)
    ensures Lookup(scopes, fd.typeName).BoundMessage?
            ==> ResolveField(scalars, fuel, scopes, owner, fd, arena) == Ok((MessageField(fd, Lookup(scopes, fd.typeName).id), arena))
    ensures Lookup(scopes, fd.typeName).BoundEnum?
            ==> ResolveField(scalars, fuel, scopes, owner, fd, arena) == Ok((EnumField(fd, Lookup(scopes, fd.typeName).enm), arena))
    ensures Lookup(scopes, fd.typeName).Declared?
            ==> Lookup(scopes, fd.typeName).inner == scopes
                && ResolveField(scalars, fuel, scopes, owner, fd, arena)
                   == ResolveNested(scalars, fuel, scopes, Lookup(scopes, fd.typeName).mt, fd, arena)
    ensures !Lookup(scopes, fd.typeName).Unbound?
  {
    var here := scopes[|scopes| - 1];
    var n := fd.typeName;
    if !HasKey(here.resolved, n) && !HasKey(here.enums, n) {
      assert FindLocalResolved(here, fd).None?;
    }
  }

  /** A field whose type name the resolving scope does not bind takes what the ancestors find, or the unknown-type error. */
  lemma ResolveFieldOuter(scalars: string -> Option<FieldType>, fuel: nat, scopes: seq<Scope>, owner: string, fd: FieldDecl, arena: Arena)
    requires |scopes| >= 2 && scalars(fd.typeName).None? && !Binds(scopes[|scopes| - 1], fd.typeName)
    ensures var found := FindAnyResolved(scalars, fuel, scopes[..|scopes| - 1], fd, arena);
            && (found.Err? ==> ResolveField(scalars, fuel, scopes, owner, fd, arena) == Err(found.error))
            && (found.Ok? && found.value.0.Some? ==> ResolveField(scalars, fuel, scopes, owner, fd, arena) == Ok((found.value.0.value, found.value.1)))
            && (found.Ok? && found.value.0.None? ==> ResolveField(scalars, fuel, scopes, owner, fd, arena) == Err(UnknownType(UnknownTypeMessage(scopes, fd, owner))))
  {
    assert FindLocalResolved(scopes[|scopes| - 1], fd).None?;
  }

  /** A field whose type name is bound to a resolved message or an enum gets that target, whatever the fuel and the arena. */
  lemma {:induction false} ResolveFieldsBound(scalars: string -> Option<FieldType>, fuel: nat, scopes: seq<Scope>, owner: string, fds: seq<FieldDecl>, arena: Arena, i: nat)
    requires |scopes| >= 2 && ResolveFields(scalars, fuel, scopes, owner, fds, arena).Ok? && i < |fds|
    requires scalars(fds[i].typeName).None?
    ensures Lookup(scopes, fds[i].typeName).BoundMessage?
            ==> ResolveFields(scalars, fuel, scopes, owner, fds, arena).value.0[i] == MessageField(fds[i], Lookup(scopes, fds[i].typeName).id)
    ensures Lookup(scopes, fds[i].typeName).BoundEnum?
            ==> ResolveFields(scalars, fuel, scopes, owner, fds, arena).value.0[i] == EnumField(fds[i], Lookup(scopes, fds[i].typeName).enm)
  {
    var n := |fds| - 1;
    var whole := ResolveFields(scalars, fuel, scopes, owner, fds, arena).value.0;
    var init := ResolveFields(scalars, fuel, scopes, owner, fds[..n], arena);
    ResolveFieldsLast(scalars, fuel, scopes, owner, fds, arena);
    var last := ResolveField(scalars, fuel, scopes, owner, fds[n], init.value.1);
    if i < n {
      assert whole[i] == init.value.0[i];
      assert fds[..n][i] == fds[i];
      ResolveFieldsBound(scalars, fuel, scopes, owner, fds[..n], arena, i);
    } else {
      assert whole[i] == last.value.0;
      ResolveFieldLookup(scalars, fuel, scopes, owner, fds[n], init.value.1);
    }
  }

  /** A successful field loop is the loop over all but the last declaration, then the last field. */
  lemma ResolveFieldsLast(scalars: string -> Option<FieldType>, fuel: nat, scopes: seq<Scope>, owner: string, fds: seq<FieldDecl>, arena: Arena)
    requires |scopes| >= 2 && fds != [] && ResolveFields(scalars, fuel, scopes, owner, fds, arena).Ok?
    ensures var init := ResolveFields(scalars, fuel, scopes, owner, fds[..|fds| - 1], arena);
            && init.Ok?
            && var last := ResolveField(scalars, fuel, scopes, owner, fds[|fds| - 1], init.value.1);
               && last.Ok?
               && ResolveFields(scalars, fuel, scopes, owner, fds, arena).value == (init.value.0 + [last.value.0], last.value.1)
  {
  }

  /** A scalar-typed field gets the scalar type its alias names. */
  lemma {:induction false} ResolveFieldsScalar(scalars: string -> Option<FieldType>, fuel: nat, scopes: seq<Scope>, owner: string, fds: seq<FieldDecl>, arena: Arena, i: nat)
    requires |scopes| >= 2 && ResolveFields(scalars, fuel, scopes, owner, fds, arena).Ok? && i < |fds|
    requires scalars(fds[i].typeName).Some?
    ensures ResolveFields(scalars, fuel, scopes, owner, fds, arena).value.0[i] == ScalarField(fds[i], scalars(fds[i].typeName).value)
  {
    var n := |fds| - 1;
    var init := ResolveFields(scalars, fuel, scopes, owner, fds[..n], arena);
    if i < n {
      ResolveFieldsScalar(scalars, fuel, scopes, owner, fds[..n], arena, i);
    }
  }

  /** An error in a prefix of the field loop is the error of the whole loop. */
  lemma {:induction false} ResolveFieldsErr(scalars: string -> Option<FieldType>, fuel: nat, scopes: seq<Scope>, owner: string, fds: seq<FieldDecl>, k: nat, arena: Arena)
    requires |scopes| >= 2 && k <= |fds| && ResolveFields(scalars, fuel, scopes, owner, fds[..k], arena).Err?
    ensures ResolveFields(scalars, fuel, scopes, owner, fds, arena) == ResolveFields(scalars, fuel, scopes, owner, fds[..k], arena)
    decreases |fds|
  {
    if k < |fds| {
      var n := |fds| - 1;
      assert fds[..n][..k] == fds[..k];
      ResolveFieldsErr(scalars, fuel, scopes, owner, fds[..n], k, arena);
    } else {
      assert fds[..k] == fds;
    }
  }

  /**
   * Self-reference: the message is registered before its fields are
   * resolved, so every field typed as the message itself (and not a scalar
   * alias) refers to the descriptor being built, at its own index.
   */
  lemma ResolveInSelfReference(scalars: string -> Option<FieldType>, fuel: nat, scopes: seq<Scope>, mt: MessageType, arena: Arena, i: nat)
    requires |scopes| >= 2 && ResolveIn(scalars, fuel, scopes, mt, arena).Ok?
    requires i < |mt.fields| && mt.fields[i].typeName == mt.name && scalars(mt.name).None?
    ensures ResolveIn(scalars, fuel, scopes, mt, arena).value.0 == |arena|
    ensures MessageField(mt.fields[i], |arena|) in ResolveIn(scalars, fuel, scopes, mt, arena).value.1[|arena|].fields
  {
    var inner := Registered(scopes, mt.name, |arena|);
    var a0 := arena + [NewMessage(mt.name, [], [])];
    var res := ResolveFields(scalars, fuel, inner, mt.name, mt.fields, a0);
    assert Lookup(inner, mt.name) == BoundMessage(|arena|);
    ResolveFieldsBound(scalars, fuel, inner, mt.name, mt.fields, a0, i);
    var fs := res.value.0;
    assert fs[i] in multiset(fs);
  }

  /** Every field of the message is typed by a scalar alias or by the message's own name. */
  ghost predicate SelfContained(scalars: string -> Option<FieldType>, mt: MessageType)
  {
    forall i :: 0 <= i < |mt.fields| ==> scalars(mt.fields[i].typeName).Some? || mt.fields[i].typeName == mt.name
  }

  /** What such a field resolves to: its scalar type, else the message registered under `id`. */
  function SelfContainedField(scalars: string -> Option<FieldType>, fd: FieldDecl, id: MsgId): ProtobufField
  {
    match scalars(fd.typeName)
    case Some(t) => ScalarField(fd, t)
    case None => MessageField(fd, id)
  }

  /** The fields such a field list resolves to, one per declaration. */
  function SelfContainedFields(scalars: string -> Option<FieldType>, fds: seq<FieldDecl>, id: MsgId): (fs: seq<ProtobufField>)
    ensures |fs| == |fds|
    ensures forall i :: 0 <= i < |fds| ==> fs[i] == SelfContainedField(scalars, fds[i], id)
  {
    seq(|fds|, i requires 0 <= i < |fds| => SelfContainedField(scalars, fds[i], id))
  }

  /**
   * The field loop over fields that are scalar or typed as the owner, with the
   * owner registered in the innermost scope: it succeeds without touching the
   * arena, each field resolved as `SelfContainedField` says.
   */
  lemma ResolveFieldsSelfContained(scalars: string -> Option<FieldType>, fuel: nat, scopes: seq<Scope>, owner: string, fds: seq<FieldDecl>, arena: Arena, id: MsgId)
    requires |scopes| >= 2 && Get(scopes[|scopes| - 1].resolved, owner) == Some(id)
    requires forall i :: 0 <= i < |fds| ==> scalars(fds[i].typeName).Some? || fds[i].typeName == owner
    ensures ResolveFields(scalars, fuel, scopes, owner, fds, arena) == Ok((SelfContainedFields(scalars, fds, id), arena))
  {
    ResolveFieldsSelfContainedUpTo(scalars, fuel, scopes, owner, fds, arena, id, |fds|);
    assert fds[..|fds|] == fds;
  }

  /** The same for the first k declarations, by induction on k. */
  lemma {:induction false} ResolveFieldsSelfContainedUpTo(scalars: string -> Option<FieldType>, fuel: nat, scopes: seq<Scope>, owner: string, fds: seq<FieldDecl>, arena: Arena, id: MsgId, k: nat)
    requires |scopes| >= 2 && Get(scopes[|scopes| - 1].resolved, owner) == Some(id) && k <= |fds|
    requires forall i :: 0 <= i < |fds| ==> scalars(fds[i].typeName).Some? || fds[i].typeName == owner
    ensures ResolveFields(scalars, fuel, scopes, owner, fds[..k], arena) == Ok((SelfContainedFields(scalars, fds[..k], id), arena))
    decreases k
  {
    if k == 0 {
      assert fds[..0] == [];
    } else {
      ResolveFieldsSelfContainedUpTo(scalars, fuel, scopes, owner, fds, arena, id, k - 1);
      ResolveFieldsSelfContainedStep(scalars, fuel, scopes, owner, fds, arena, id, k - 1);
    }
  }

  /** The step of that induction: one more self-contained field. */
  lemma ResolveFieldsSelfContainedStep(scalars: string -> Option<FieldType>, fuel: nat, scopes: seq<Scope>, owner: string, fds: seq<FieldDecl>, arena: Arena, id: MsgId, i: nat)
    requires |scopes| >= 2 && Get(scopes[|scopes| - 1].resolved, owner) == Some(id) && i < |fds|
    requires scalars(fds[i].typeName).Some? || fds[i].typeName == owner
    requires ResolveFields(scalars, fuel, scopes, owner, fds[..i], arena) == Ok((SelfContainedFields(scalars, fds[..i], id), arena))
    ensures ResolveFields(scalars, fuel, scopes, owner, fds[..i + 1], arena) == Ok((SelfContainedFields(scalars, fds[..i + 1], id), arena))
  {
    ResolveFieldSelfContained(scalars, fuel, scopes, owner, fds[i], arena, id);
    ResolveFieldsNext(scalars, fuel, scopes, owner, fds, i, arena);
    SelfContainedFieldsSnoc(scalars, fds, id, i + 1);
  }

  lemma SelfContainedFieldsSnoc(scalars: string -> Option<FieldType>, fds: seq<FieldDecl>, id: MsgId, k: nat)
    requires 0 < k <= |fds|
    ensures SelfContainedFields(scalars, fds[..k], id) == SelfContainedFields(scalars, fds[..k - 1], id) + [SelfContainedField(scalars, fds[k - 1], id)]
  {
  }

  /** One such field: a scalar alias, else the owner found registered in the innermost scope. */
  lemma ResolveFieldSelfContained(scalars: string -> Option<FieldType>, fuel: nat, scopes: seq<Scope>, owner: string, fd: FieldDecl, arena: Arena, id: MsgId)
    requires |scopes| >= 2 && Get(scopes[|scopes| - 1].resolved, owner) == Some(id)
    requires scalars(fd.typeName).Some? || fd.typeName == owner
    ensures ResolveField(scalars, fuel, scopes, owner, fd, arena) == Ok((SelfContainedField(scalars, fd, id), arena))
  {
    if scalars(fd.typeName).None? {
      assert FindLocalResolved(scopes[|scopes| - 1], fd) == Some(MessageField(fd, id));
    }
  }

  /** The descriptor of a self-contained message resolved at index id. */
  function SelfContainedMessageAt(scalars: string -> Option<FieldType>, mt: MessageType, id: MsgId): ProtobufMessage
  {
    BuildMessage(mt.name, SelfContainedFields(scalars, mt.fields, id))
  }

  /**
   * A message whose fields are all scalars or of its own type resolves, for
   * every fuel bound, into exactly one new descriptor at the next index,
   * built from the fields `SelfContainedField` gives: nothing else is resolved.
   */
  lemma ResolveInSelfContained(scalars: string -> Option<FieldType>, fuel: nat, scopes: seq<Scope>, mt: MessageType, arena: Arena)
    requires |scopes| >= 2 && SelfContained(scalars, mt)
    ensures ResolveIn(scalars, fuel, scopes, mt, arena) == Ok((|arena|, arena + [SelfContainedMessageAt(scalars, mt, |arena|)]))
  {
    var inner := Registered(scopes, mt.name, |arena|);
    var a0 := arena + [NewMessage(mt.name, [], [])];
    ResolveFieldsSelfContained(scalars, fuel, inner, mt.name, mt.fields, a0, |arena|);
    assert a0[|arena| := SelfContainedMessageAt(scalars, mt, |arena|)] == arena + [SelfContainedMessageAt(scalars, mt, |arena|)];
  }

  /** That descriptor holds one field per declaration, each as `SelfContainedField` gives it, sorted by id. */
  lemma SelfContainedMessage(scalars: string -> Option<FieldType>, mt: MessageType, id: MsgId)
    ensures var m := BuildMessage(mt.name, SelfContainedFields(scalars, mt.fields, id));
            && |m.fields| == |mt.fields| && SortedById(m.fields)
            && forall i :: 0 <= i < |mt.fields| ==> SelfContainedField(scalars, mt.fields[i], id) in m.fields
  {
    var fs := SelfContainedFields(scalars, mt.fields, id);
    var m := BuildMessage(mt.name, fs);
    assert |m.fields| == |multiset(m.fields)| == |fs|;
    forall i | 0 <= i < |mt.fields| ensures SelfContainedField(scalars, mt.fields[i], id) in m.fields {
      assert fs[i] in multiset(fs);
    }
  }

  /** A declared self-contained message resolves in its child scope given one more unit of fuel, at the next index. */
  lemma ResolveNestedSelfContained(scalars: string -> Option<FieldType>, fuel: nat, scopes: seq<Scope>, nt: MessageType, fd: FieldDecl, arena: Arena)
    requires |scopes| >= 1 && SelfContained(scalars, nt)
    ensures ResolveNested(scalars, fuel + 1, scopes, nt, fd, arena) == Ok((MessageField(fd, |arena|), arena + [SelfContainedMessageAt(scalars, nt, |arena|)]))
  {
    ResolveChildSelfContained(scalars, fuel, scopes, nt, arena);
  }

  /** The same resolution in a fresh child scope over the message's nested declarations, as `resolve` and nested fields set it up. */
  lemma ResolveChildSelfContained(scalars: string -> Option<FieldType>, fuel: nat, scopes: seq<Scope>, mt: MessageType, arena: Arena)
    requires |scopes| >= 1 && SelfContained(scalars, mt)
    ensures ResolveIn(scalars, fuel, scopes + [ScopeOf(mt.nested)], mt, arena) == Ok((|arena|, arena + [SelfContainedMessageAt(scalars, mt, |arena|)]))
  {
    ResolveInSelfContained(scalars, fuel, scopes + [ScopeOf(mt.nested)], mt, arena);
  }

  /**
   * References to an enclosing message (or any name bound to a message
   * registered in a scope of the chain): the field refers to that
   * registered descriptor, without resolving anything again.
   */
  lemma ResolveInBoundReference(scalars: string -> Option<FieldType>, fuel: nat, scopes: seq<Scope>, mt: MessageType, arena: Arena, i: nat)
    requires |scopes| >= 2 && ResolveIn(scalars, fuel, scopes, mt, arena).Ok?
    requires i < |mt.fields| && scalars(mt.fields[i].typeName).None?
    requires Lookup(Registered(scopes, mt.name, |arena|), mt.fields[i].typeName).BoundMessage?
    ensures MessageField(mt.fields[i], Lookup(Registered(scopes, mt.name, |arena|), mt.fields[i].typeName).id)
            in ResolveIn(scalars, fuel, scopes, mt, arena).value.1[|arena|].fields
  {
    var inner := Registered(scopes, mt.name, |arena|);
    var a0 := arena + [NewMessage(mt.name, [], [])];
    var res := ResolveFields(scalars, fuel, inner, mt.name, mt.fields, a0);
    ResolveFieldsBound(scalars, fuel, inner, mt.name, mt.fields, a0, i);
    var fs := res.value.0;
    assert fs[i] in multiset(fs);
  }

  /**
   * The shape of a resolved message: one resolved field per declared field,
   * the name map in declaration order with later duplicates overwriting, the
   * field array sorted by id, the name-map positions chained.
   */
  lemma ResolveInShape(scalars: string -> Option<FieldType>, fuel: nat, scopes: seq<Scope>, mt: MessageType, arena: Arena)
    requires |scopes| >= 2 && ResolveIn(scalars, fuel, scopes, mt, arena).Ok?
    ensures var m := ResolveIn(scalars, fuel, scopes, mt, arena).value.1[|arena|];
            && |m.fields| == |mt.fields|
            && SortedById(m.fields)
            && multiset(m.fields) == multiset(ResolveFields(scalars, fuel, Registered(scopes, mt.name, |arena|), mt.name, mt.fields,
                                                             arena + [NewMessage(mt.name, [], [])]).value.0)
            && (forall name :: HasKey(m.fieldsByName, name) <==> exists j :: 0 <= j < |mt.fields| && mt.fields[j].name == name)
            && (forall k: nat :: k in m.next <==> k + 1 < |m.fieldsByName|)
            && (forall k :: k in m.next ==> m.next[k] == k + 1)
  {
    var fs := ResolveInBuilds(scalars, fuel, scopes, mt, arena);
    BuildMessageShape(mt.name, fs, mt.fields);
  }

  /** A root message whose field loop yields `fs` and appends `rest` after it resolves at index 0, built from `fs`, followed by `rest`. */
  lemma ResolveRootFromFields(scalars: string -> Option<FieldType>, fuel: nat, scopes: seq<Scope>, mt: MessageType, fs: seq<ProtobufField>, rest: Arena)
    requires |scopes| >= 2
    requires ResolveFields(scalars, fuel, Registered(scopes, mt.name, 0), mt.name, mt.fields, [NewMessage(mt.name, [], [])]) == Ok((fs, [NewMessage(mt.name, [], [])] + rest))
    ensures ResolveIn(scalars, fuel, scopes, mt, []) == Ok((0, [BuildMessage(mt.name, fs)] + rest))
  {
    var a0: Arena := [] + [NewMessage(mt.name, [], [])];
    assert a0 == [NewMessage(mt.name, [], [])];
    assert (a0 + rest)[0 := BuildMessage(mt.name, fs)] == [BuildMessage(mt.name, fs)] + rest;
    ResolveInFromFields(scalars, fuel, scopes, mt, [], fs, a0 + rest);
  }

  /** A message whose field loop yields `fs` is registered at the next index and then replaced by the message built from `fs`. */
  lemma ResolveInFromFields(scalars: string -> Option<FieldType>, fuel: nat, scopes: seq<Scope>, mt: MessageType, arena: Arena, fs: seq<ProtobufField>, a: Arena)
    requires |scopes| >= 2
    requires ResolveFields(scalars, fuel, Registered(scopes, mt.name, |arena|), mt.name, mt.fields, arena + [NewMessage(mt.name, [], [])]) == Ok((fs, a))
    ensures ResolveIn(scalars, fuel, scopes, mt, arena) == Ok((|arena|, a[|arena| := BuildMessage(mt.name, fs)]))
  {
  }

  /** A successful `_resolve` stores, at the new index, the message built from the resolved fields. */
  lemma ResolveInBuilds(scalars: string -> Option<FieldType>, fuel: nat, scopes: seq<Scope>, mt: MessageType, arena: Arena)
    returns (fs: seq<ProtobufField>)
    requires |scopes| >= 2 && ResolveIn(scalars, fuel, scopes, mt, arena).Ok?
    ensures var res := ResolveFields(scalars, fuel, Registered(scopes, mt.name, |arena|), mt.name, mt.fields, arena + [NewMessage(mt.name, [], [])]);
            res.Ok? && res.value.0 == fs
    ensures ResolveIn(scalars, fuel, scopes, mt, arena).value.1[|arena|] == BuildMessage(mt.name, fs)
  {
    fs := ResolveFields(scalars, fuel, Registered(scopes, mt.name, |arena|), mt.name, mt.fields, arena + [NewMessage(mt.name, [], [])]).value.0;
  }

  /** The message built from one resolved field per declaration: one entry per field, a name-map key per declared name, chained positions. */
  lemma BuildMessageShape(name: string, fs: seq<ProtobufField>, fds: seq<FieldDecl>)
    requires |fs| == |fds| && forall i :: 0 <= i < |fds| ==> fs[i].name == fds[i].name
    ensures var m := BuildMessage(name, fs);
            && |m.fields| == |fds|
            && (forall n :: HasKey(m.fieldsByName, n) <==> exists j :: 0 <= j < |fds| && fds[j].name == n)
            && (forall k: nat :: k in m.next <==> k + 1 < |m.fieldsByName|)
            && (forall k :: k in m.next ==> m.next[k] == k + 1)
  {
    var m := BuildMessage(name, fs);
    assert |m.fields| == |multiset(m.fields)| == |fs|;
    FieldPairsKeys(fs, fds);
  }

  /** The name map built from the resolved fields has exactly the declared names as keys. */
  lemma FieldPairsKeys(fs: seq<ProtobufField>, fds: seq<FieldDecl>)
    requires |fs| == |fds| && forall i :: 0 <= i < |fds| ==> fs[i].name == fds[i].name
    ensures forall n :: HasKey(FromPairs(FieldPairs(fs)), n) <==> exists j :: 0 <= j < |fds| && fds[j].name == n
  {
    forall n ensures HasKey(FromPairs(FieldPairs(fs)), n) <==> exists j :: 0 <= j < |fds| && fds[j].name == n {
      FromPairsHasKey(FieldPairs(fs), n);
      if exists j :: 0 <= j < |fds| && fds[j].name == n {
        var j :| 0 <= j < |fds| && fds[j].name == n;
        assert FieldPairs(fs)[j].0 == n;
      }
    }
  }

  /**
   * The field loop of `_resolve`: resolves each declared field in turn into
   * the resolved-field array and the name map, stopping at the first error.
   */
  method ResolveFieldList(scalars: string -> Option<FieldType>, fuel: nat, scopes: seq<Scope>, owner: string, fds: seq<FieldDecl>, arena: Arena)
    returns (r: Result<(seq<ProtobufField>, OrderedMap<string, ProtobufField>, Arena), ResolveError>)
    requires |scopes| >= 2
    ensures r.Err? ==> ResolveFields(scalars, fuel, scopes, owner, fds, arena) == Err(r.error)
    ensures r.Ok? ==> ResolveFields(scalars, fuel, scopes, owner, fds, arena) == Ok((r.value.0, r.value.2))
    ensures r.Ok? ==> r.value.1 == FromPairs(FieldPairs(r.value.0))
  {
    var a := arena;
    var resolvedFields: seq<ProtobufField> := [];
    var fields: OrderedMap<string, ProtobufField> := [];
    var i := 0;
    while i < |fds|
      invariant 0 <= i <= |fds|
      invariant ResolveFields(scalars, fuel, scopes, owner, fds[..i], arena) == Ok((resolvedFields, a))
      invariant fields == FromPairs(FieldPairs(resolvedFields))
    {
      var step := ResolveField(scalars, fuel, scopes, owner, fds[i], a);
      if step.Err? {
        ResolveFieldsStop(scalars, fuel, scopes, owner, fds, i, arena);
        return Err(step.error);
      }
      ResolveFieldsNext(scalars, fuel, scopes, owner, fds, i, arena);
      FieldPairsSnoc(resolvedFields, step.value.0);
      resolvedFields := resolvedFields + [step.value.0];
      fields := Put(fields, fds[i].name, step.value.0);
      a := step.value.1;
      i := i + 1;
    }
    assert fds[..i] == fds;
    r := Ok((resolvedFields, fields, a));
  }

  /** A field that fails to resolve ends the field loop with its error. */
  lemma ResolveFieldsStop(scalars: string -> Option<FieldType>, fuel: nat, scopes: seq<Scope>, owner: string, fds: seq<FieldDecl>, i: nat, arena: Arena)
    requires |scopes| >= 2 && i < |fds| && ResolveFields(scalars, fuel, scopes, owner, fds[..i], arena).Ok?
    requires ResolveField(scalars, fuel, scopes, owner, fds[i], ResolveFields(scalars, fuel, scopes, owner, fds[..i], arena).value.1).Err?
    ensures ResolveFields(scalars, fuel, scopes, owner, fds, arena)
            == Err(ResolveField(scalars, fuel, scopes, owner, fds[i], ResolveFields(scalars, fuel, scopes, owner, fds[..i], arena).value.1).error)
  {
    assert fds[..i + 1][..i] == fds[..i];
    assert fds[..i + 1][i] == fds[i];
    ResolveFieldsErr(scalars, fuel, scopes, owner, fds, i + 1, arena);
  }

  /** A field that resolves extends the field loop's results by one entry. */
  lemma ResolveFieldsNext(scalars: string -> Option<FieldType>, fuel: nat, scopes: seq<Scope>, owner: string, fds: seq<FieldDecl>, i: nat, arena: Arena)
    requires |scopes| >= 2 && i < |fds| && ResolveFields(scalars, fuel, scopes, owner, fds[..i], arena).Ok?
    requires ResolveField(scalars, fuel, scopes, owner, fds[i], ResolveFields(scalars, fuel, scopes, owner, fds[..i], arena).value.1).Ok?
    ensures var prev := ResolveFields(scalars, fuel, scopes, owner, fds[..i], arena).value;
            var step := ResolveField(scalars, fuel, scopes, owner, fds[i], prev.1).value;
            ResolveFields(scalars, fuel, scopes, owner, fds[..i + 1], arena) == Ok((prev.0 + [step.0], step.1))
  {
    assert fds[..i + 1][..i] == fds[..i];
    assert fds[..i + 1][i] == fds[i];
  }

  /** The name map of one more resolved field is the previous map with that field put under its name. */
  lemma FieldPairsSnoc(fs: seq<ProtobufField>, f: ProtobufField)
    ensures FromPairs(FieldPairs(fs + [f])) == Put(FromPairs(FieldPairs(fs)), f.name, f)
  {
    FromPairsSnoc(FieldPairs(fs), (f.name, f));
    assert FieldPairs(fs + [f]) == FieldPairs(fs) + [(f.name, f)];
  }

  /** The linking loop of `_resolve`: each of the first `count - 1` positions of the name map points to the next one. */
  method LinkPositions(count: nat) returns (next: map<nat, nat>)
    ensures next == Links(count)
  {
    next := map[];
    var end := count - 1;
    var i := 0;
    while i < end
      invariant 0 <= i && (i <= end || i == 0)
      invariant next == Links(i + 1)
    {
      next := next[i := i + 1];
      i := i + 1;
    }
    assert Links(0) == Links(1);
  }

  /**
   * `_resolve` run by the last scope of `scopes`: registers the message,
   * resolves its fields, sorts the field array and links the name-map
   * positions; it computes ResolveIn.
   */
  method ResolveMessage(scalars: string -> Option<FieldType>, fuel: nat, scopes: seq<Scope>, mt: MessageType, arena: Arena) returns (r: Result<(MsgId, Arena), ResolveError>)
    requires |scopes| >= 2
    ensures r == ResolveIn(scalars, fuel, scopes, mt, arena)
  {
    var id := |arena|;
    var inner := Registered(scopes, mt.name, id);
    var a0 := arena + [NewMessage(mt.name, [], [])];
    var res := ResolveFieldList(scalars, fuel, inner, mt.name, mt.fields, a0);
    if res.Err? {
      return Err(res.error);
    }
    var (resolvedFields, fields, a) := res.value;
    var sorted := SortById(resolvedFields);
    var next := LinkPositions(|fields|);
    var message := ProtobufMessage(mt.name, fields, sorted, None, None, -1, next);
    assert message == BuildMessage(mt.name, resolvedFields);
    r := Ok((id, a[id := message]));
  }
}

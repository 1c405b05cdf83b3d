/**
 * Resolved descriptors: enum types, fields and messages. Message descriptors
 * can be cyclic (a field of a message may refer to the message itself), so a
 * field names its target message by its index in the arena of resolved
 * messages instead of holding it.
 */
module Descriptors {
  import opened OrderedMap
  import opened Wire
  import opened FieldTypes
  import opened ProtoAst

  /** Index of a resolved message in the arena of a resolution. */
  type MsgId = nat

  /** ProtobufEnum: a name and the value names with their ids, in declaration order. */
  datatype ProtobufEnum = ProtobufEnum(name: string, valuesByName: OrderedMap<string, int>)

  /** `findEnum(name)`: the id mapped to the value name, or none. */
  function FindEnum(e: ProtobufEnum, name: string): (r: Option<int>)
    ensures r.Some? <==> HasKey(e.valuesByName, name)
    ensures r.Some? ==> (name, r.value) in e.valuesByName
  {
    Get(e.valuesByName, name)
  }

  /** A resolved field. `id` is the declared tag the field was built from (0 for the unknown-field placeholder). */
  datatype ProtobufField = ProtobufField(
    typedTag: int,
    name: string,
    ftype: FieldType,
    wireType: nat,
    required: bool,
    repeated: bool,
    packed: bool,
    deprecated: bool,
    usesZigZag: bool,
    messageType: Option<MsgId>,
    enumType: Option<ProtobufEnum>,
    isObject: bool,
    id: Int32)

  /** The shape every constructed field has: the cached isObject flag agrees with the label and type. */
  predicate WellFormedField(f: ProtobufField)
  {
    && f.isObject == (!f.repeated && f.ftype == MESSAGE)
    && !(f.required && f.repeated)
    && f.wireType == Ordinal(WireTypeOf(f.ftype))
  }

  /**
   * The protected ProtobufField constructor: the type decides the wire type and
   * the zig-zag flag; a declaration gives the typed tag, the name, the label
   * flags and the packed and deprecated options; no declaration gives the
   * unknown-field placeholder.
   */
  function NewField(decl: Option<FieldDecl>, t: FieldType, msg: Option<MsgId>, et: Option<ProtobufEnum>): (f: ProtobufField)
    ensures WellFormedField(f)
    ensures f.ftype == t && f.usesZigZag == UsesZigZag(t)
    ensures f.messageType == msg && f.enumType == et
    ensures decl.None? ==> f.typedTag == 0 && f.name == "UNKNOWN" && f.id == 0
    ensures decl.None? ==> !f.required && !f.repeated && !f.packed && !f.deprecated
    ensures decl.Some? ==> f.name == decl.value.name && f.id == decl.value.tag
    ensures decl.Some? ==> f.typedTag == TypedTag(decl.value.tag, Ordinal(WireTypeOf(t)))
    ensures decl.Some? ==> (f.repeated <==> decl.value.fieldLabel == Repeated)
    ensures decl.Some? ==> (f.required <==> decl.value.fieldLabel == Required)
    ensures decl.Some? ==> f.packed == decl.value.packed && f.deprecated == decl.value.deprecated
  {
    var wt := Ordinal(WireTypeOf(t));
    match decl
    case None =>
      ProtobufField(0, "UNKNOWN", t, wt, false, false, false, false, UsesZigZag(t), msg, et, t == MESSAGE, 0)
    case Some(d) =>
      var required := d.fieldLabel == Required;
      var repeated := d.fieldLabel == Repeated;
      ProtobufField(TypedTag(d.tag, wt), d.name, t, wt, required, repeated, d.packed, d.deprecated,
                    UsesZigZag(t), msg, et, !repeated && t == MESSAGE, d.tag)
  }

  /** For a declared tag in the 29-bit tag space, the typed tag carries the tag in its high bits and the wire type in its low 3 bits. */
  lemma TypedTagOfField(d: FieldDecl, t: FieldType)
    requires 0 <= d.tag < 0x1000_0000
    ensures NewField(Some(d), t, None, None).typedTag / 8 == d.tag
    ensures ValueOf(NewField(Some(d), t, None, None).typedTag % 8) == Ok(WireTypeOf(t))
  {
    TypedTagDecodes(d.tag, WireTypeOf(t));
  }

  /** The scalar-type constructor: the given type, no target message, no enum. */
  function ScalarField(decl: FieldDecl, t: FieldType): (f: ProtobufField)
    ensures f.ftype == t && f.messageType.None? && f.enumType.None?
    ensures f.name == decl.name && f.id == decl.tag
  {
    NewField(Some(decl), t, None, None)
  }

  /** The message constructor: type MESSAGE bound to the target message. */
  function MessageField(decl: FieldDecl, msg: MsgId): (f: ProtobufField)
    ensures f.ftype == MESSAGE && f.messageType == Some(msg) && f.enumType.None?
    ensures f.name == decl.name && f.id == decl.tag
    ensures f.isObject <==> decl.fieldLabel != Repeated
  {
    NewField(Some(decl), MESSAGE, Some(msg), None)
  }

  /** The enum constructor: type ENUM bound to the enum, no target message. */
  function EnumField(decl: FieldDecl, e: ProtobufEnum): (f: ProtobufField)
    ensures f.ftype == ENUM && f.enumType == Some(e) && f.messageType.None?
    ensures f.name == decl.name && f.id == decl.tag
    ensures !f.isObject
  {
    NewField(Some(decl), ENUM, None, Some(e))
  }

  /** `unknownField()`: tag 0, name "UNKNOWN", every flag false, type MESSAGE without a target. */
  function UnknownField(): (f: ProtobufField)
    ensures f.typedTag == 0 && f.name == "UNKNOWN" && f.ftype == MESSAGE
    ensures !f.required && !f.repeated && !f.packed && !f.deprecated
    ensures f.messageType.None? && f.enumType.None?
    ensures f.isObject
  {
    NewField(None, MESSAGE, None, None)
  }

  /** `isObject()`: a single (not repeated) message-typed field. */
  function IsObject(f: ProtobufField): (b: bool)
    ensures WellFormedField(f) ==> (b <==> !f.repeated && f.ftype == MESSAGE)
  {
    f.isObject
  }

  /** `isArray()`: a repeated field. */
  function IsArray(f: ProtobufField): (b: bool)
    ensures b <==> f.repeated
    ensures WellFormedField(f) && b ==> !IsObject(f)
  {
    f.repeated
  }

  /** `assignMessageType`: refused for non-message fields; otherwise replaces the target and nothing else. */
  function AssignMessageType(f: ProtobufField, msgType: Option<MsgId>): (r: Result<ProtobufField, string>)
    ensures r.Err? <==> f.ftype != MESSAGE
    ensures r.Ok? ==> r.value.messageType == msgType && r.value.(messageType := f.messageType) == f
    ensures r.Err? ==> r.error == "Can not assign message type for non-message field '" + f.name + "'"
  {
    if f.ftype != MESSAGE then Err("Can not assign message type for non-message field '" + f.name + "'")
    else Ok(f.(messageType := msgType))
  }

  /** Fields in ascending id order: the order `compareTo` gives the sort of the field array. */
  ghost predicate SortedById(s: seq<ProtobufField>)
  {
    forall i, j :: 0 <= i < j < |s| ==> s[i].id <= s[j].id
  }

  /** Inserts f into an id-sorted sequence, ahead of the fields whose id is not smaller. */
  function InsertById(f: ProtobufField, s: seq<ProtobufField>): (r: seq<ProtobufField>)
    requires SortedById(s)
    ensures SortedById(r)
    ensures multiset(r) == multiset(s) + multiset{f}
  {
    if s == [] || f.id <= s[0].id then [f] + s
    else
      var tail := InsertById(f, s[1..]);
      InsertBehindHead(s, f, tail);
      [s[0]] + tail
  }

  /** A field larger than the head goes into the tail: the head stays in front, and the result is still sorted and holds one more field. */
  lemma InsertBehindHead(s: seq<ProtobufField>, f: ProtobufField, tail: seq<ProtobufField>)
    requires SortedById(s) && s != [] && s[0].id < f.id
    requires SortedById(tail) && multiset(tail) == multiset(s[1..]) + multiset{f}
    ensures SortedById([s[0]] + tail)
    ensures multiset([s[0]] + tail) == multiset(s) + multiset{f}
  {
    assert s == [s[0]] + s[1..];
    forall k | 0 <= k < |tail| ensures s[0].id <= tail[k].id {
      assert tail[k] in multiset(tail);
      if tail[k] != f {
        assert tail[k] in s[1..];
      }
    }
  }

  /** `Arrays.sort` of the field array: sorted by id and a permutation of its input. */
  function SortById(s: seq<ProtobufField>): (r: seq<ProtobufField>)
    ensures SortedById(r)
    ensures multiset(r) == multiset(s)
    ensures |r| == |s|
  {
    if s == [] then []
    else
      assert s == [s[0]] + s[1..];
      var r := InsertById(s[0], SortById(s[1..]));
      assert |r| == |multiset(r)| == |s|;
      r
  }

  /** A resolved message. `next` holds the links `assignNext` sets: position to position in `fieldsByName`. */
  datatype ProtobufMessage = ProtobufMessage(
    name: string,
    fieldsByName: OrderedMap<string, ProtobufField>,
    fields: seq<ProtobufField>,
    fieldsById: Option<seq<Option<ProtobufField>>>,
    firstField: Option<ProtobufField>,
    idOffset: int,
    next: map<nat, nat>)

  /** The class invariant of ProtobufMessage: an id offset is only ever set together with the index. */
  predicate ValidMessage(m: ProtobufMessage)
  {
    m.idOffset >= 0 ==> m.fieldsById.Some?
  }

  const MaxFieldIndexSize: int := 200

  /** The ProtobufMessage constructor: until `init` runs the id offset is -1 and there is no index. */
  function NewMessage(name: string, fieldsByName: OrderedMap<string, ProtobufField>, fields: seq<ProtobufField>): (m: ProtobufMessage)
    ensures ValidMessage(m)
    ensures m.name == name && m.fieldsByName == fieldsByName && m.fields == fields
    ensures m.idOffset == -1 && m.fieldsById.None? && m.firstField.None? && m.next == map[]
  {
    ProtobufMessage(name, fieldsByName, fields, None, None, -1, map[])
  }

  /** `field(String)`: the field declared with that name, or none. */
  function FieldByName(m: ProtobufMessage, name: string): (r: Option<ProtobufField>)
    ensures r.Some? <==> HasKey(m.fieldsByName, name)
    ensures r.Some? ==> (name, r.value) in m.fieldsByName
  {
    Get(m.fieldsByName, name)
  }

  /** `getFieldCount()`: zero exactly when `field(int)`'s scan finds no field for any id. */
  function FieldCount(m: ProtobufMessage): (n: nat)
    ensures n == 0 <==> forall id :: FirstWithId(m.fields, id).None?
  {
    assert |m.fields| > 0 ==> FirstWithId(m.fields, m.fields[0].id).Some?;
    |m.fields|
  }

  /** `bogusMessage(desc)`: a placeholder message with no fields, initialised without an index. */
  function BogusMessage(desc: string): (m: ProtobufMessage)
    ensures ValidMessage(m)
    ensures m.name == desc && FieldCount(m) == 0 && m.idOffset == -1 && m.fieldsById.None?
    ensures forall name :: FieldByName(m, name).None?
    ensures forall id :: FirstWithId(m.fields, id).None?
  {
    NewMessage(desc, [], [])
  }

  /** The first field of fs with the given id: what the brute-force branch of `field(int)` returns. */
  function FirstWithId(fs: seq<ProtobufField>, id: int): (r: Option<ProtobufField>)
    ensures r.None? <==> forall i :: 0 <= i < |fs| ==> fs[i].id != id
    ensures r.Some? ==> exists i :: 0 <= i < |fs| && fs[i] == r.value && r.value.id == id
                          && forall j :: 0 <= j < i ==> fs[j].id != id
  {
    if fs == [] then None
    else if fs[0].id == id then Some(fs[0])
    else
      var r := FirstWithId(fs[1..], id);
      assert forall i :: 1 <= i < |fs| ==> fs[i] == fs[1..][i - 1];
      assert r.Some? ==> exists i :: 0 <= i < |fs| && fs[i] == r.value && r.value.id == id
                          && forall j :: 0 <= j < i ==> fs[j].id != id by {
        if r.Some? {
          var i :| 0 <= i < |fs[1..]| && fs[1..][i] == r.value && r.value.id == id
                          && forall j :: 0 <= j < i ==> fs[1..][j].id != id;
          assert fs[i + 1] == r.value;
          assert forall j :: 0 <= j < i + 1 ==> fs[j].id != id by {
            forall j | 0 <= j < i + 1 ensures fs[j].id != id {
              if j > 0 { assert fs[j] == fs[1..][j - 1]; }
            }
          }
        }
      }
      r
  }

  /** The answer of `field(int)`. `IndexOutOfRange` is the exception the unchecked array read raises. */
  datatype IdLookup = Found(field: ProtobufField) | NotFound | IndexOutOfRange(index: int)

  /** The slot of the id index at position k, read without a bounds check. */
  function IndexSlot(idx: seq<Option<ProtobufField>>, k: int): IdLookup
  {
    if 0 <= k < |idx| then (if idx[k].Some? then Found(idx[k].value) else NotFound)
    else IndexOutOfRange(k)
  }

  function AsLookup(r: Option<ProtobufField>): IdLookup
  {
    if r.Some? then Found(r.value) else NotFound
  }

  /**
   * `field(int)`: with an index, the slot at `id - offset` (empty for a gap,
   * an exception outside the index); without one, a scan that returns the
   * first field with that id.
   */
  method FieldById(m: ProtobufMessage, id: int) returns (r: IdLookup)
    requires ValidMessage(m)
    ensures m.idOffset >= 0 ==> r == IndexSlot(m.fieldsById.value, id - m.idOffset)
    ensures m.idOffset < 0 ==> r == AsLookup(FirstWithId(m.fields, id))
  {
    var idOffset := m.idOffset;
    if idOffset >= 0 {
      var idx := m.fieldsById.value;
      var k := id - idOffset;
      if 0 <= k < |idx| {
        r := if idx[k].Some? then Found(idx[k].value) else NotFound;
      } else {
        r := IndexOutOfRange(k);
      }
      return;
    }
    var i := 0;
    while i < |m.fields|
      invariant 0 <= i <= |m.fields|
      invariant FirstWithId(m.fields, id) == FirstWithId(m.fields[i..], id)
    {
      var f := m.fields[i];
      if f.id == id {
        return Found(f);
      }
      assert m.fields[i..][1..] == m.fields[i + 1..];
      i := i + 1;
    }
    r := NotFound;
  }

  /** Every field of fs sits in the index at `id - base`, and every filled slot holds a field of fs with that id. */
  ghost predicate IndexedBy(fs: seq<ProtobufField>, base: int, idx: seq<Option<ProtobufField>>)
  {
    && (forall j :: 0 <= j < |fs| ==> 0 <= fs[j].id - base < |idx| && idx[fs[j].id - base] == Some(fs[j]))
    && (forall k :: 0 <= k < |idx| && idx[k].Some? ==> idx[k].value in fs && idx[k].value.id == base + k)
  }

  ghost predicate DistinctIds(fs: seq<ProtobufField>)
  {
    forall i, j :: 0 <= i < j < |fs| ==> fs[i].id != fs[j].id
  }

  ghost predicate IdsWithin(fs: seq<ProtobufField>, lo: int, hi: int)
  {
    forall i :: 0 <= i < |fs| ==> lo <= fs[i].id <= hi
  }

  function FirstId(m: ProtobufMessage): int
    requires |m.fields| > 0
  {
    m.fields[0].id
  }

  function LastId(m: ProtobufMessage): int
    requires |m.fields| > 0
  {
    m.fields[|m.fields| - 1].id
  }

  /** The failures of `init`: the "Internal error" exceptions and the array exception of an id outside the index. */
  datatype InitError =
    | FirstIdAfterLast(firstId: int, lastId: int)
    | NegativeArraySize(size: int)
    | IndexOutOfBounds(index: int)
    | Collision(messageName: string, id: int)

  /**
   * `lastId - firstId + 1` on Java ints: the true span of the ids while it
   * stays below 2^31, and that span less 2^32 from there on (so a span of
   * exactly 2^32 becomes 0).
   */
  function IdSpan(m: ProtobufMessage): (s: int)
    requires |m.fields| > 0 && FirstId(m) <= LastId(m)
    ensures Wire.IsInt32(s)
    ensures LastId(m) - FirstId(m) + 1 < Wire.TwoTo31 ==> s == LastId(m) - FirstId(m) + 1
    ensures LastId(m) - FirstId(m) + 1 >= Wire.TwoTo31 ==> s == LastId(m) - FirstId(m) + 1 - Wire.TwoTo32
  {
    var x := LastId(m) - FirstId(m) + 1;
    assert 0 < x <= Wire.TwoTo32;
    Wire.ToInt32(x)
  }

  /**
   * Java's `f.id - _idOffset` wraps, but under the spans `init` indexes it
   * lands inside the array exactly when the true difference does, and then
   * it is the true difference.
   */
  lemma IndexNoWrap(id: int, base: int, size: int)
    requires Wire.IsInt32(id) && Wire.IsInt32(base)
    requires 0 <= size <= MaxFieldIndexSize && base + size - 1 < Wire.TwoTo31
    ensures (0 <= Wire.ToInt32(id - base) < size) <==> (0 <= id - base < size)
    ensures 0 <= id - base < size ==> Wire.ToInt32(id - base) == id - base
  {
    var d := id - base;
    var w := Wire.ToInt32(d);
    if d >= Wire.TwoTo31 {
      assert w == d - Wire.TwoTo32;
    } else if d < -Wire.TwoTo31 {
      assert w == d + Wire.TwoTo32;
    }
  }

  /** `f.id - _idOffset` in int arithmetic: inside the index exactly when the true difference is, and then equal to it. */
  function SlotIndex(id: int, base: int, size: int): (index: int)
    requires Wire.IsInt32(id) && Wire.IsInt32(base)
    requires 0 <= size <= MaxFieldIndexSize && base + size - 1 < Wire.TwoTo31
    ensures Wire.IsInt32(index)
    ensures (0 <= index < size) <==> (0 <= id - base < size)
    ensures 0 <= id - base < size ==> index == id - base
  {
    IndexNoWrap(id, base, size);
    Wire.ToInt32(id - base)
  }

  /** Adding a field whose slot is still empty keeps the index exact, the ids distinct and within the span. */
  lemma IndexStep(fs: seq<ProtobufField>, base: int, idx: seq<Option<ProtobufField>>, f: ProtobufField)
    requires IndexedBy(fs, base, idx) && DistinctIds(fs) && IdsWithin(fs, base, base + |idx| - 1)
    requires 0 <= f.id - base < |idx| && idx[f.id - base].None?
    ensures IndexedBy(fs + [f], base, idx[f.id - base := Some(f)])
    ensures DistinctIds(fs + [f])
    ensures IdsWithin(fs + [f], base, base + |idx| - 1)
  {
    IndexStepIndexed(fs, base, idx, f);
    IndexStepDistinct(fs, base, idx, f);
    var fs' := fs + [f];
    forall j | 0 <= j < |fs'| ensures base <= fs'[j].id <= base + |idx| - 1 {
      if j < |fs| {
        assert fs'[j] == fs[j];
      }
    }
  }

  lemma IndexStepIndexed(fs: seq<ProtobufField>, base: int, idx: seq<Option<ProtobufField>>, f: ProtobufField)
    requires IndexedBy(fs, base, idx)
    requires 0 <= f.id - base < |idx| && idx[f.id - base].None?
    ensures IndexedBy(fs + [f], base, idx[f.id - base := Some(f)])
  {
    var fs' := fs + [f];
    var idx' := idx[f.id - base := Some(f)];
    forall j | 0 <= j < |fs'| ensures 0 <= fs'[j].id - base < |idx'| && idx'[fs'[j].id - base] == Some(fs'[j]) {
      if j < |fs| {
        assert fs'[j] == fs[j];
      }
    }
    forall k | 0 <= k < |idx'| && idx'[k].Some? ensures idx'[k].value in fs' && idx'[k].value.id == base + k {
      if k != f.id - base {
        assert idx'[k] == idx[k];
      }
    }
  }

  lemma IndexStepDistinct(fs: seq<ProtobufField>, base: int, idx: seq<Option<ProtobufField>>, f: ProtobufField)
    requires IndexedBy(fs, base, idx) && DistinctIds(fs)
    requires 0 <= f.id - base < |idx| && idx[f.id - base].None?
    ensures DistinctIds(fs + [f])
  {
    var fs' := fs + [f];
    forall a, b | 0 <= a < b < |fs'| ensures fs'[a].id != fs'[b].id {
      if b == |fs| {
        assert fs'[a] == fs[a];
        assert idx[fs[a].id - base] == Some(fs[a]);
      } else {
        assert fs'[a] == fs[a] && fs'[b] == fs[b];
      }
    }
  }

  /** A field whose slot is already taken by an earlier field shares that field's id. */
  /** One field outside `lo..hi` puts the whole array outside it. */
  lemma OutsideSpan(fs: seq<ProtobufField>, i: nat, lo: int, hi: int)
    requires i < |fs| && !(lo <= fs[i].id <= hi)
    ensures !IdsWithin(fs, lo, hi)
  {
  }

  lemma CollisionNotDistinct(fs: seq<ProtobufField>, i: nat, base: int, idx: seq<Option<ProtobufField>>)
    requires i < |fs| && IndexedBy(fs[..i], base, idx)
    requires 0 <= fs[i].id - base < |idx| && idx[fs[i].id - base].Some?
    ensures !DistinctIds(fs)
  {
    var g := idx[fs[i].id - base].value;
    assert g in fs[..i] && g.id == fs[i].id;
    var j :| 0 <= j < i && fs[..i][j] == g;
    assert fs[j].id == fs[i].id;
  }

  /**
   * The loop of `init` over the field array: puts each field into the slot
   * `id - base` of a fresh array of `size` empty slots, failing on an id
   * outside the array and on a slot already taken. The slot is computed in
   * Java int arithmetic, as `f.id - _idOffset` is.
   */
  method IndexFields(name: string, fs: seq<ProtobufField>, base: int, size: nat) returns (r: Result<seq<Option<ProtobufField>>, InitError>)
    requires Wire.IsInt32(base) && size <= MaxFieldIndexSize && base + size - 1 < Wire.TwoTo31
    ensures r.Ok? <==> DistinctIds(fs) && IdsWithin(fs, base, base + size - 1)
    ensures r.Ok? ==> |r.value| == size && IndexedBy(fs, base, r.value)
    ensures r.Err? ==> r.error.IndexOutOfBounds? || r.error.Collision?
    ensures r.Err? && r.error.Collision? ==> !DistinctIds(fs) && r.error.messageName == name
    ensures r.Err? && r.error.IndexOutOfBounds? ==> !IdsWithin(fs, base, base + size - 1)
  {
    var byId := new Option<ProtobufField>[size](_ => None);
    ghost var done: seq<ProtobufField> := [];
    var i := 0;
    while i < |fs|
      invariant 0 <= i <= |fs| && done == fs[..i]
      invariant DistinctIds(done)
      invariant IdsWithin(done, base, base + size - 1)
      invariant IndexedBy(done, base, byId[..])
    {
      var f := fs[i];
      var index := SlotIndex(f.id, base, size);
      if !(0 <= index < size) {
        OutsideSpan(fs, i, base, base + size - 1);
        return Err(IndexOutOfBounds(index));
      }
      if byId[index].Some? {
        CollisionNotDistinct(fs, i, base, byId[..]);
        return Err(Collision(name, f.id));
      }
      Place(byId, done, base, f, index);
      assert fs[..i + 1] == done + [f];
      done := done + [f];
      i := i + 1;
    }
    assert done == fs;
    return Ok(byId[..]);
  }

  /** `_fieldsById[index] = f` for a free slot: the index stays exact, the ids distinct and within the span. */
  method Place(byId: array<Option<ProtobufField>>, ghost done: seq<ProtobufField>, base: int, f: ProtobufField, index: int)
    requires index == f.id - base && 0 <= index < byId.Length && byId[index].None?
    requires IndexedBy(done, base, byId[..]) && DistinctIds(done) && IdsWithin(done, base, base + byId.Length - 1)
    modifies byId
    ensures byId[..] == old(byId[..])[index := Some(f)]
    ensures IndexedBy(done + [f], base, byId[..]) && DistinctIds(done + [f]) && IdsWithin(done + [f], base, base + byId.Length - 1)
  {
    ghost var before := byId[..];
    IndexStep(done, base, before, f);
    byId[index] := Some(f);
    assert byId[..] == before[index := Some(f)];
  }

  /**
   * `init(first)`: records the first field; for a non-empty field array it
   * refuses a first id above the last, then computes the span
   * `lastId - firstId + 1` in int arithmetic. A span above 200 builds no index;
   * a span that wrapped negative fails allocating the array; otherwise the
   * dense id index at offset `firstId` is built, refusing an id outside the
   * span and two fields with one id.
   */
  method Init(m: ProtobufMessage, first: Option<ProtobufField>) returns (r: Result<ProtobufMessage, InitError>)
    requires ValidMessage(m)
    ensures r.Ok? ==> ValidMessage(r.value)
    ensures r.Ok? ==> r.value.(fieldsById := m.fieldsById, idOffset := m.idOffset) == m.(firstField := first)
    ensures |m.fields| == 0 ==> r == Ok(m.(firstField := first))
    ensures |m.fields| > 0 ==> (r == Err(FirstIdAfterLast(FirstId(m), LastId(m))) <==> FirstId(m) > LastId(m))
    ensures |m.fields| > 0 && FirstId(m) <= LastId(m) && IdSpan(m) > MaxFieldIndexSize
            ==> r == Ok(m.(firstField := first))
    ensures |m.fields| > 0 && FirstId(m) <= LastId(m) && IdSpan(m) < 0
            ==> r == Err(NegativeArraySize(IdSpan(m)))
    ensures |m.fields| > 0 && FirstId(m) <= LastId(m) && 0 <= IdSpan(m) <= MaxFieldIndexSize
            ==> (r.Ok? <==> DistinctIds(m.fields) && IdsWithin(m.fields, FirstId(m), FirstId(m) + IdSpan(m) - 1))
                && (r.Ok? ==> r.value.idOffset == FirstId(m) && r.value.fieldsById.Some?
                              && |r.value.fieldsById.value| == IdSpan(m)
                              && IndexedBy(m.fields, FirstId(m), r.value.fieldsById.value))
                && (r.Err? && r.error.Collision? ==> !DistinctIds(m.fields) && r.error.messageName == m.name)
  {
    var fs := m.fields;
    var m1 := m.(firstField := first);
    if |fs| == 0 {
      return Ok(m1);
    }
    var firstId: int := fs[0].id;
    var lastId: int := fs[|fs| - 1].id;
    if firstId > lastId {
      return Err(FirstIdAfterLast(firstId, lastId));
    }
    var size := Wire.ToInt32(lastId - firstId + 1);
    assert size == IdSpan(m);
    if size > MaxFieldIndexSize {
      return Ok(m1);
    }
    if size < 0 {
      return Err(NegativeArraySize(size));
    }
    var byId := IndexFields(m.name, fs, firstId, size);
    match byId
    case Err(e) =>
      return Err(e);
    case Ok(idx) =>
      return Ok(m1.(idOffset := firstId, fieldsById := Some(idx)));
  }

  /** Two fields with ids -2 and 2147483647: the span wraps to -2147483646, so `init` fails allocating the index. */
  lemma WrappedSpanNegative(f: ProtobufField, g: ProtobufField, m: ProtobufMessage)
    requires f.id == -2 && g.id == 0x7FFF_FFFF && m.fields == [f, g]
    ensures IdSpan(m) == -2147483646
  {
  }

  /** Ids spanning all of int: the span wraps to 0, so no field fits the empty index and `init` fails. */
  lemma FullSpanIndexesNothing(m: ProtobufMessage)
    requires |m.fields| > 0 && FirstId(m) == -0x8000_0000 && LastId(m) == 0x7FFF_FFFF
    ensures IdSpan(m) == 0
    ensures !IdsWithin(m.fields, FirstId(m), FirstId(m) + IdSpan(m) - 1)
  {
    assert !(FirstId(m) <= m.fields[0].id <= FirstId(m) - 1);
  }

  /** An id-sorted field array lies within the span of its first and last ids, so `init` never raises an array exception on it. */
  lemma SortedIdsWithin(fs: seq<ProtobufField>)
    requires |fs| > 0 && SortedById(fs)
    ensures IdsWithin(fs, fs[0].id, fs[|fs| - 1].id)
  {
  }

  /**
   * On an index built by `init`, the indexed branch of `field(int)` answers
   * what the brute-force scan answers for every id inside the span, and the
   * scan finds nothing for the ids outside it (where the indexed branch raises).
   */
  lemma {:induction false} IndexAgreesWithScan(fs: seq<ProtobufField>, base: int, idx: seq<Option<ProtobufField>>, id: int)
    requires IndexedBy(fs, base, idx) && DistinctIds(fs)
    ensures 0 <= id - base < |idx| ==> IndexSlot(idx, id - base) == AsLookup(FirstWithId(fs, id))
    ensures !(0 <= id - base < |idx|) ==> FirstWithId(fs, id).None?
  {
    var r := FirstWithId(fs, id);
    if r.Some? {
      var i :| 0 <= i < |fs| && fs[i] == r.value && r.value.id == id;
      assert idx[fs[i].id - base] == Some(fs[i]);
    }
  }
}

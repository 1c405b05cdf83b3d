/**
 * The field types of a resolved schema and the table that maps the scalar type
 * names of a `.proto` declaration ("int32", "string", ...) to them.
 *
 * The wire type, the zig-zag flag and the alias names of each field type are
 * properties of the FieldType enum that its declaration here does not carry;
 * the functions below give them values that agree with the protobuf encoding,
 * and the rest of the model depends only on their stated contracts.
 */
module FieldTypes {
  import opened OrderedMap
  import opened Wire

  /** The constants of FieldType, in declaration order. */
  datatype FieldType = DOUBLE | FLOAT | VINT | INT32 | INT64 | BOOLEAN | STRING | BYTES | ENUM | MESSAGE

  /** `FieldType.values()`. */
  const AllFieldTypes: seq<FieldType> := [DOUBLE, FLOAT, VINT, INT32, INT64, BOOLEAN, STRING, BYTES, ENUM, MESSAGE]

  /** `getWireType()`: never one of the deprecated group wire types. */
  function WireTypeOf(t: FieldType): (w: WireType)
    ensures w != GroupStart && w != GroupEnd
    ensures t == MESSAGE || t == STRING || t == BYTES <==> w == LengthPrefixed
  {
    match t
    case DOUBLE => Fixed64Bit
    case FLOAT => Fixed32Bit
    case VINT => VInt
    case INT32 => Fixed32Bit
    case INT64 => Fixed64Bit
    case BOOLEAN => VInt
    case STRING => LengthPrefixed
    case BYTES => LengthPrefixed
    case ENUM => VInt
    case MESSAGE => LengthPrefixed
  }

  /**
   * `usesZigZag()`: only a varint type may be zig-zag encoded. FieldType has a
   * single VINT constant for the signed, unsigned and zig-zag varint names, so
   * the flag cannot be told apart per alias and is false throughout.
   */
  function UsesZigZag(t: FieldType): (z: bool)
    ensures z ==> WireTypeOf(t) == VInt
  {
    false
  }

  /** `aliases()`: the scalar type names of a declaration that denote t; none for ENUM and MESSAGE. */
  function Aliases(t: FieldType): (names: seq<string>)
    ensures t == ENUM || t == MESSAGE <==> names == []
  {
    match t
    case DOUBLE => ["double"]
    case FLOAT => ["float"]
    case VINT => ["int32", "int64", "uint32", "uint64", "sint32", "sint64"]
    case INT32 => ["fixed32", "sfixed32"]
    case INT64 => ["fixed64", "sfixed64"]
    case BOOLEAN => ["bool"]
    case STRING => ["string"]
    case BYTES => ["bytes"]
    case ENUM => []
    case MESSAGE => []
  }

  /** The table after putting the first `|names|` aliases of one type. */
  function AddAliases(table: OrderedMap<string, FieldType>, t: FieldType, names: seq<string>): OrderedMap<string, FieldType>
  {
    if names == [] then table
    else Put(AddAliases(table, t, names[..|names| - 1]), names[|names| - 1], t)
  }

  /** The table after the constructor has visited every type of ts, in order, putting the names `aliases` gives it. */
  function AliasTable(ts: seq<FieldType>, aliases: FieldType -> seq<string>): OrderedMap<string, FieldType>
  {
    if ts == [] then []
    else AddAliases(AliasTable(ts[..|ts| - 1], aliases), ts[|ts| - 1], aliases(ts[|ts| - 1]))
  }

  lemma {:induction false} AddAliasesGet(table: OrderedMap<string, FieldType>, t: FieldType, names: seq<string>, id: string)
    ensures Get(AddAliases(table, t, names), id) == if id in names then Some(t) else Get(table, id)
  {
    if names != [] {
      var n := |names| - 1;
      AddAliasesGet(table, t, names[..n], id);
      assert id in names <==> id in names[..n] || id == names[n] by {
        if id in names && id != names[n] {
          var k :| 0 <= k < |names| && names[k] == id;
          assert names[..n][k] == id;
        }
      }
      if id == names[n] {
        PutGetSame(AddAliases(table, t, names[..n]), id, t);
      } else {
        PutGetOther(AddAliases(table, t, names[..n]), names[n], t, id);
      }
    }
  }

  /** ts[i] is the last type of ts whose aliases include id. */
  predicate LastOwner(ts: seq<FieldType>, aliases: FieldType -> seq<string>, id: string, i: int)
  {
    0 <= i < |ts| && id in aliases(ts[i]) && forall j :: i < j < |ts| ==> id !in aliases(ts[j])
  }

  /**
   * What the alias table maps a name to: nothing when no type of ts has that
   * alias; otherwise the LAST type of ts that has it (later constants overwrite).
   */
  lemma AliasTableGet(ts: seq<FieldType>, aliases: FieldType -> seq<string>, id: string)
    ensures Get(AliasTable(ts, aliases), id).None? <==> forall i :: 0 <= i < |ts| ==> id !in aliases(ts[i])
    ensures forall i :: LastOwner(ts, aliases, id, i) ==> Get(AliasTable(ts, aliases), id) == Some(ts[i])
  {
    AliasTableAbsent(ts, aliases, id);
    forall i | LastOwner(ts, aliases, id, i) ensures Get(AliasTable(ts, aliases), id) == Some(ts[i]) {
      AliasTableLast(ts, aliases, id, i);
    }
  }

  /** A name is missing from the table iff no type of ts has it as an alias. */
  lemma {:induction false} AliasTableAbsent(ts: seq<FieldType>, aliases: FieldType -> seq<string>, id: string)
    ensures Get(AliasTable(ts, aliases), id).None? <==> forall i :: 0 <= i < |ts| ==> id !in aliases(ts[i])
  {
    if ts != [] {
      var n := |ts| - 1;
      AliasTableAbsent(ts[..n], aliases, id);
      AddAliasesGet(AliasTable(ts[..n], aliases), ts[n], aliases(ts[n]), id);
      assert forall i :: 0 <= i < n ==> ts[..n][i] == ts[i];
    }
  }

  /** The last type of ts that has the alias is what the table maps it to. */
  lemma {:induction false} AliasTableLast(ts: seq<FieldType>, aliases: FieldType -> seq<string>, id: string, i: int)
    requires LastOwner(ts, aliases, id, i)
    ensures Get(AliasTable(ts, aliases), id) == Some(ts[i])
  {
    var n := |ts| - 1;
    AddAliasesGet(AliasTable(ts[..n], aliases), ts[n], aliases(ts[n]), id);
    if i < n {
      assert LastOwner(ts[..n], aliases, id, i);
      AliasTableLast(ts[..n], aliases, id, i);
    }
  }

  /**
   * The FieldTypes constructor: a nested loop that puts every alias of every
   * type, in declaration order, into the table.
   */
  method BuildTypeTable(ts: seq<FieldType>, aliases: FieldType -> seq<string>) returns (table: OrderedMap<string, FieldType>)
    ensures table == AliasTable(ts, aliases)
  {
    table := [];
    var i := 0;
    while i < |ts|
      invariant 0 <= i <= |ts|
      invariant table == AliasTable(ts[..i], aliases)
    {
      var t := ts[i];
      var names := aliases(t);
      var j := 0;
      ghost var before := table;
      while j < |names|
        invariant 0 <= j <= |names|
        invariant table == AddAliases(before, t, names[..j])
      {
        assert names[..j + 1][..j] == names[..j];
        table := Put(table, names[j], t);
        j := j + 1;
      }
      assert names[..j] == names;
      assert ts[..i + 1][..i] == ts[..i];
      i := i + 1;
    }
    assert ts[..i] == ts;
  }

  /** `FieldTypes.findType(id)`: a read-only lookup in the table. */
  function FindType(table: OrderedMap<string, FieldType>, id: string): (r: Option<FieldType>)
    ensures r.Some? <==> HasKey(table, id)
  {
    Get(table, id)
  }

  /** The table the single FieldTypes instance holds. */
  const TypeTable: OrderedMap<string, FieldType> := AliasTable(AllFieldTypes, Aliases)

  /** Distinct field types never share an alias. */
  lemma AliasesDisjoint(t1: FieldType, t2: FieldType, id: string)
    requires t1 != t2 && id in Aliases(t1)
    ensures id !in Aliases(t2)
  {
  }

  /** Some index at or after i holds the last type whose aliases include id. */
  lemma {:induction false} LastIndex(ts: seq<FieldType>, aliases: FieldType -> seq<string>, id: string, i: int) returns (last: int)
    requires 0 <= i < |ts| && id in aliases(ts[i])
    ensures LastOwner(ts, aliases, id, last)
    decreases |ts| - i
  {
    if exists j :: i < j < |ts| && id in aliases(ts[j]) {
      var j :| i < j < |ts| && id in aliases(ts[j]);
      last := LastIndex(ts, aliases, id, j);
    } else {
      last := i;
    }
  }

  /**
   * When distinct types never share an alias, the table maps a name to t
   * exactly when t is one of ts and the name is one of its aliases.
   */
  lemma DisjointAliasTableGet(ts: seq<FieldType>, aliases: FieldType -> seq<string>, id: string, t: FieldType)
    requires forall t1, t2 :: t1 != t2 && id in aliases(t1) ==> id !in aliases(t2)
    ensures Get(AliasTable(ts, aliases), id) == Some(t) <==> t in ts && id in aliases(t)
  {
    AliasTableGet(ts, aliases, id);
    if t in ts && id in aliases(t) {
      var k :| 0 <= k < |ts| && ts[k] == t;
      var last := LastIndex(ts, aliases, id, k);
    } else if Get(AliasTable(ts, aliases), id) == Some(t) {
      var i :| 0 <= i < |ts| && id in aliases(ts[i]);
      var last := LastIndex(ts, aliases, id, i);
    }
  }

  /**
   * No two field types share an alias, so findType on the instance's table
   * returns a type exactly when the name is one of that type's aliases.
   */
  lemma FindTypeExact(id: string, t: FieldType)
    ensures FindType(TypeTable, id) == Some(t) <==> id in Aliases(t)
  {
    forall t1, t2 | t1 != t2 && id in Aliases(t1) ensures id !in Aliases(t2) {
      AliasesDisjoint(t1, t2, id);
    }
    DisjointAliasTableGet(AllFieldTypes, Aliases, id, t);
    assert t in AllFieldTypes;
  }

  /** ENUM and MESSAGE have no alias, so findType never returns them. */
  lemma FindTypeNeverNamed(id: string)
    ensures FindType(TypeTable, id) != Some(ENUM)
    ensures FindType(TypeTable, id) != Some(MESSAGE)
  {
    FindTypeExact(id, ENUM);
    FindTypeExact(id, MESSAGE);
  }

  /**
   * The answers of `findType` on the instance's table, name by name: the form
   * the resolver consults (FindScalarIsFindType shows the two agree).
   */
  function FindScalar(id: string): (r: Option<FieldType>)
    ensures r != Some(ENUM) && r != Some(MESSAGE)
  {
    if id == "double" then Some(DOUBLE)
    else if id == "float" then Some(FLOAT)
    else if id in ["int32", "int64", "uint32", "uint64", "sint32", "sint64"] then Some(VINT)
    else if id in ["fixed32", "sfixed32"] then Some(INT32)
    else if id in ["fixed64", "sfixed64"] then Some(INT64)
    else if id == "bool" then Some(BOOLEAN)
    else if id == "string" then Some(STRING)
    else if id == "bytes" then Some(BYTES)
    else None
  }

  /** The name-by-name answers are exactly those of the alias table. */
  lemma FindScalarIsFindType(id: string)
    ensures FindScalar(id) == FindType(TypeTable, id)
  {
    if FindScalar(id).Some? {
      FindTypeExact(id, FindScalar(id).value);
    } else {
      forall t | true ensures FindType(TypeTable, id) != Some(t) {
        FindTypeExact(id, t);
      }
    }
  }
}

/**
 * The declaration tree a `.proto` parser hands to the schema layer: top-level
 * and nested message and enum declarations with their fields and values.
 */
module ProtoAst {
  import opened Wire

  /** The label of a field declaration. */
  datatype Label = Optional | Required | Repeated | OneOf

  /** A field of a message declaration: `label type name = tag [packed, deprecated]`. */
  datatype FieldDecl = FieldDecl(fieldLabel: Label, typeName: string, name: string, tag: Int32, packed: bool, deprecated: bool)

  /** A value of an enum declaration: `name = tag`. */
  datatype EnumValueDecl = EnumValueDecl(name: string, tag: Int32)

  /** A message declaration with its fields and the declarations nested in it. */
  datatype MessageType = MessageType(name: string, fields: seq<FieldDecl>, nested: seq<TypeDecl>)

  /** An enum declaration with its values. */
  datatype EnumType = EnumType(name: string, values: seq<EnumValueDecl>)

  /** A type declaration: a message, an enum, or another kind the schema layer ignores. */
  datatype TypeDecl =
    | MessageDecl(msg: MessageType)
    | EnumDecl(enm: EnumType)
    | OtherDecl(otherName: string)

  /** `Type.getName()`. */
  function TypeName(d: TypeDecl): string
  {
    match d
    case MessageDecl(m) => m.name
    case EnumDecl(e) => e.name
    case OtherDecl(n) => n
  }
}

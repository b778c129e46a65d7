/** Type descriptors shared by the syntax tree (which carries the type the
    analyzer gave each node) and the analyzer that creates them. */
module Types {
  import opened Common

  /** The kind of a type, as the source's `Type_Type`. */
  datatype TypeKind = Invalid | TInt | TUint | TFloat | TStruct | TString | TFn | TBool

  /** A type descriptor. `size` is in bits; `params` and `ret` are only
      meaningful for function types. Descriptors are compared as values. */
  datatype TypeInfo = TypeInfo(kind: TypeKind, size: int, name: string, params: seq<TypeRef>, ret: TypeRef)

  /** A possibly-NULL pointer to a descriptor. */
  type TypeRef = Option<TypeInfo>

  /** A descriptor of one of the built-in kinds: it has no parameters and no
      return type. */
  function Basic(name: string, kind: TypeKind, size: int): TypeInfo
  {
    TypeInfo(kind, size, name, [], None)
  }

  /** A function type. The size is never set for these. */
  function FnType(params: seq<TypeRef>, ret: TypeRef): TypeInfo
  {
    TypeInfo(TFn, 0, "fn()", params, ret)
  }
}

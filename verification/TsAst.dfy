/** The type expressions the code generator reads out of generated TypeScript. */
module TsAst {
  datatype TsPrimitive = StringType | NumberType | BooleanType | AnyType

  datatype TsReference =
    | Named(parts: seq<string>)
    | Indexed(base: seq<string>, keys: seq<string>)

  datatype TsField = TsField(name: string, optional: bool, fieldType: TsType)

  /** One member of a union discriminated by `__typename`. */
  datatype TsObjectVariant = TsObjectVariant(typeName: string, fields: seq<TsField>)

  datatype TsType =
    | Primitive(primitive: TsPrimitive)
    | Array(element: TsType)
    | Nullable(inner: TsType)
    | Union(alternatives: seq<TsType>)
    | StringUnion(values: seq<string>)
    | Object(fields: seq<TsField>)
    | Reference(reference: TsReference)
    | Wrapped(wrapper: string, wrapped: TsType)
    | DiscriminatedUnion(discriminant: string, variants: seq<TsObjectVariant>)

  /** `export type Name = Type;` */
  datatype TsDefinition = TsDefinition(name: string, typeExpr: TsType)
}

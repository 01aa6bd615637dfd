/** From type expressions to Rust declarations: nested types before the types
    that use them, and no name declared twice. */
module Generator {
  import opened Text
  import opened TsAst
  import opened Names

  /* ---------- Rust types ---------- */

  /** A Rust type as written in a field.  `Place` is the name generated for a
      place in the type expression; the other names come from elsewhere. */
  datatype RustType =
    | Builtin(name: string)
    | Shared(name: string)
    | Vec(item: RustType)
    | Opt(item: RustType)
    | OneOrMany(item: RustType)
    | Place(name: string)

  const Json := Builtin("serde_json::Value")

  predicate IsMaybe(wrapper: string) {
    wrapper == "Maybe" || wrapper == "InputMaybe" || wrapper == "Types.Maybe" || wrapper == "Types.InputMaybe"
  }

  function PrimitiveName(p: TsPrimitive): RustType {
    match p
    case StringType => Builtin("String")
    case NumberType => Builtin("i64")
    case BooleanType => Builtin("bool")
    case AnyType => Json
  }

  function PascalAll(parts: seq<string>): string {
    if parts == [] then "" else Pascal(parts[0]) + PascalAll(parts[1..])
  }

  function ResolveReference(parts: seq<string>): RustType {
    if parts != [] && parts[|parts| - 1] == "JsonMapType" then Json
    else if |parts| >= 2 && parts[0] == "Types" then Shared(PascalAll(parts[1..]))
    else Shared(PascalAll(parts))
  }

  function ResolveIndexed(base: seq<string>, keys: seq<string>): RustType {
    var isScalars := (|base| >= 2 && base[0] == "Types" && base[1] == "Scalars") || base == ["Scalars"];
    if isScalars && |keys| >= 2 then
      (if keys[0] in ["String", "ID", "URL", "GlobalID", "PropertyId", "PropertyPublicID"] then Builtin("String")
       else if keys[0] == "Boolean" then Builtin("bool")
       else if keys[0] == "Int" then Builtin("i64")
       else if keys[0] == "Float" then Builtin("f64")
       else Json)
    else Shared(PascalAll(base))
  }

  predicate SameType(left: TsType, right: TsType) {
    match (left, right)
    case (Primitive(a), Primitive(b)) => a == b
    case (Reference(a), Reference(b)) => a == b
    case _ => false
  }

  function OneOrManyInner(left: TsType, right: TsType): (inner: Option<TsType>)
    ensures inner.Some? ==> inner.value in [left, right] && (inner.value.Primitive? || inner.value.Reference?)
  {
    if left.Array? && SameType(left.element, right) then Some(right)
    else if right.Array? && SameType(right.element, left) then Some(left)
    else None
  }

  function NotAny(alternatives: seq<TsType>): (kept: seq<TsType>)
    ensures forall t :: t in kept ==> t in alternatives
  {
    if alternatives == [] then []
    else (if alternatives[0] == Primitive(AnyType) then [] else [alternatives[0]]) + NotAny(alternatives[1..])
  }

  function ToRust(typ: TsType, op: string, path: seq<string>): RustType {
    match typ
    case Primitive(p) => PrimitiveName(p)
    case Array(element) => Vec(ToRust(element, op, path))
    case Nullable(inner) => Opt(ToRust(inner, op, path))
    case Union(alternatives) =>
      var kept := NotAny(alternatives);
      if |kept| == 2 && OneOrManyInner(kept[0], kept[1]).Some? then
        assert kept[0] in kept && kept[1] in kept;
        OneOrMany(ToRust(OneOrManyInner(kept[0], kept[1]).value, op, path))
      else Json
    case StringUnion(_) => Builtin("String")
    case Reference(Named(parts)) => ResolveReference(parts)
    case Reference(Indexed(base, keys)) => ResolveIndexed(base, keys)
    case Wrapped(wrapper, inner) => if IsMaybe(wrapper) then Opt(ToRust(inner, op, path)) else ToRust(inner, op, path)
    case Object(_) => Place(TypeName(op, path))
    case DiscriminatedUnion(_, _) => Place(TypeName(op, path))
  }

  predicate NullableLike(typ: TsType) {
    typ.Nullable? || (typ.Wrapped? && IsMaybe(typ.wrapper))
  }

  /* ---------- declarations ---------- */

  datatype RustField = RustField(name: string, rustType: RustType)

  datatype Decl =
    | Struct(name: string, fields: seq<RustField>)
    | TaggedEnum(name: string, variants: seq<(string, string)>)
    | StringEnum(name: string, values: seq<string>)

  function FieldCode(field: TsField, op: string, path: seq<string>): RustField {
    var rust := ToRust(field.fieldType, op, path + [field.name]);
    RustField(field.name, if field.optional && !NullableLike(field.fieldType) then Opt(rust) else rust)
  }

  function FieldCodes(fields: seq<TsField>, op: string, path: seq<string>): (codes: seq<RustField>)
    ensures |codes| == |fields|
    ensures forall i :: 0 <= i < |fields| ==> codes[i] == FieldCode(fields[i], op, path)
  {
    if fields == [] then [] else [FieldCode(fields[0], op, path)] + FieldCodes(fields[1..], op, path)
  }

  function VariantCodes(variants: seq<TsObjectVariant>, op: string, path: seq<string>): (codes: seq<(string, string)>)
    ensures |codes| == |variants|
    ensures forall i :: 0 <= i < |variants| ==>
              codes[i] == (variants[i].typeName, TypeName(op, path + [variants[i].typeName]))
  {
    if variants == [] then []
    else [(variants[0].typeName, TypeName(op, path + [variants[0].typeName]))] + VariantCodes(variants[1..], op, path)
  }

  function Strip(typ: TsType): (t: TsType)
    ensures t == typ || t < typ
    ensures !NullableLike(t)
  {
    match typ
    case Nullable(inner) => Strip(inner)
    case Wrapped(wrapper, inner) => if IsMaybe(wrapper) then Strip(inner) else typ
    case _ => typ
  }

  /** The declarations of a type and all types inside it, inner ones first,
      before any is dropped for having a name already in use. */
  function PlanType(typ: TsType, op: string, path: seq<string>): seq<Decl>
    decreases typ
  {
    match Strip(typ)
    case Object(fields) => PlanFields(fields, op, path) + [Struct(TypeName(op, path), FieldCodes(fields, op, path))]
    case Array(element) => PlanType(element, op, path)
    case DiscriminatedUnion(_, variants) =>
      PlanVariants(variants, op, path) + [TaggedEnum(TypeName(op, path), VariantCodes(variants, op, path))]
    case Union(alternatives) => PlanAlternatives(alternatives, op, path)
    case _ => []
  }

  function PlanFields(fields: seq<TsField>, op: string, path: seq<string>): seq<Decl>
    decreases fields
  {
    if fields == [] then []
    else PlanType(fields[0].fieldType, op, path + [fields[0].name]) + PlanFields(fields[1..], op, path)
  }

  function PlanVariants(variants: seq<TsObjectVariant>, op: string, path: seq<string>): seq<Decl>
    decreases variants
  {
    if variants == [] then []
    else
      var inside := path + [variants[0].typeName];
      PlanFields(variants[0].fields, op, inside)
      + [Struct(TypeName(op, inside), FieldCodes(variants[0].fields, op, inside))]
      + PlanVariants(variants[1..], op, path)
  }

  function PlanAlternatives(alternatives: seq<TsType>, op: string, path: seq<string>): seq<Decl>
    decreases alternatives
  {
    if alternatives == [] then []
    else PlanType(alternatives[0], op, path) + PlanAlternatives(alternatives[1..], op, path)
  }

  /** The first declaration of every name not yet seen. */
  function Fresh(plan: seq<Decl>, seen: set<string>): seq<Decl> {
    if plan == [] then []
    else if plan[0].name in seen then Fresh(plan[1..], seen)
    else [plan[0]] + Fresh(plan[1..], seen + {plan[0].name})
  }

  function NamesOf(plan: seq<Decl>): set<string> { set d | d in plan :: d.name }

  lemma {:induction false} FreshAppend(p: seq<Decl>, q: seq<Decl>, seen: set<string>)
    ensures Fresh(p + q, seen) == Fresh(p, seen) + Fresh(q, seen + NamesOf(p))
  {
    if p == [] {
      assert p + q == q;
      assert seen + NamesOf(p) == seen;
    } else {
      assert (p + q)[1..] == p[1..] + q;
      assert NamesOf(p) == {p[0].name} + NamesOf(p[1..]) by {
        assert p == [p[0]] + p[1..];
      }
      var next := seen + {p[0].name};
      assert seen + NamesOf(p) == next + NamesOf(p[1..]);
      assert p[0].name in seen ==> seen == next;
      FreshAppend(p[1..], q, next);
    }
  }

  lemma NamesAppend(p: seq<Decl>, q: seq<Decl>)
    ensures NamesOf(p + q) == NamesOf(p) + NamesOf(q)
  {}

  /* ---------- emission ---------- */

  /** The output so far, with the names in use. */
  datatype Emitted = Emitted(code: seq<Decl>, seen: set<string>)

  /** Exactly a plan's declarations with new names were added. */
  predicate Wrote(before: Emitted, after: Emitted, plan: seq<Decl>) {
    after.code == before.code + Fresh(plan, before.seen) && after.seen == before.seen + NamesOf(plan)
  }

  lemma WroteMore(a: Emitted, b: Emitted, c: Emitted, p: seq<Decl>, q: seq<Decl>)
    requires Wrote(a, b, p) && Wrote(b, c, q)
    ensures Wrote(a, c, p + q)
  {
    hide Fresh, NamesOf;
    FreshAppend(p, q, a.seen);
    NamesAppend(p, q);
  }

  lemma WroteNothing(a: Emitted)
    ensures Wrote(a, a, [])
  {}

  lemma WroteOne(a: Emitted, b: Emitted, d: Decl)
    requires b.seen == a.seen + {d.name}
    requires b.code == (if d.name in a.seen then a.code else a.code + [d])
    ensures Wrote(a, b, [d])
  {
    assert [d][1..] == [];
    assert NamesOf([d]) == {d.name};
  }

  lemma WroteFromNothing(a: Emitted, b: Emitted, plan: seq<Decl>)
    requires a.code == [] && a.seen == {} && Wrote(a, b, plan)
    ensures b.code == Fresh(plan, {})
  {}

  class Output {
    var code: seq<Decl>
    var seen: set<string>

    constructor ()
      ensures code == [] && seen == {}
    {
      code, seen := [], {};
    }

    function Now(): Emitted
      reads this
    {
      Emitted(code, seen)
    }

    method EmitStruct(name: string, fields: seq<TsField>, op: string, path: seq<string>)
      modifies this
      ensures Wrote(old(Now()), Now(), [Struct(name, FieldCodes(fields, op, path))])
    {
      hide FieldCodes, FieldCode, Wrote, Fresh, NamesOf, TypeName;
      WroteOne(Now(), Emitted(if name in seen then code else code + [Struct(name, FieldCodes(fields, op, path))],
                           seen + {name}), Struct(name, FieldCodes(fields, op, path)));
      if name in seen {
        assert seen + {name} == seen;
        return;
      }
      seen := seen + {name};
      var codes: seq<RustField> := [];
      for i := 0 to |fields|
        invariant |codes| == i && forall j :: 0 <= j < i ==> codes[j] == FieldCode(fields[j], op, path)
        invariant code == old(code) && seen == old(seen) + {name}
      {
        codes := codes + [FieldCode(fields[i], op, path)];
      }
      assert codes == FieldCodes(fields, op, path);
      code := code + [Struct(name, codes)];
    }

    method EmitUnionEnum(op: string, path: seq<string>, variants: seq<TsObjectVariant>)
      modifies this
      ensures Wrote(old(Now()), Now(), [TaggedEnum(TypeName(op, path), VariantCodes(variants, op, path))])
    {
      hide VariantCodes, Wrote, Fresh, NamesOf, TypeName;
      var name := TypeNameForPath(op, path);
      var decl := TaggedEnum(name, VariantCodes(variants, op, path));
      WroteOne(Now(), Emitted(if name in seen then code else code + [decl], seen + {name}), decl);
      if name in seen {
        assert seen + {name} == seen;
        return;
      }
      seen := seen + {name};
      var codes: seq<(string, string)> := [];
      for i := 0 to |variants|
        invariant |codes| == i
        invariant forall j :: 0 <= j < i ==>
                    codes[j] == (variants[j].typeName, TypeName(op, path + [variants[j].typeName]))
        invariant code == old(code) && seen == old(seen) + {name}
      {
        var struct := TypeNameForPath(op, path + [variants[i].typeName]);
        codes := codes + [(variants[i].typeName, struct)];
      }
      assert codes == VariantCodes(variants, op, path);
      code := code + [TaggedEnum(name, codes)];
    }

    method EmitStringEnum(name: string, values: seq<string>)
      modifies this
      ensures Wrote(old(Now()), Now(), [StringEnum(name, values)])
    {
      WroteOne(Now(), Emitted(if name in seen then code else code + [StringEnum(name, values)], seen + {name}),
               StringEnum(name, values));
      hide Wrote;
      if name in seen {
        assert seen + {name} == seen;
        return;
      }
      seen := seen + {name};
      code := code + [StringEnum(name, values)];
    }

    method EmitNestedFields(fields: seq<TsField>, op: string, path: seq<string>)
      modifies this
      ensures Wrote(old(Now()), Now(), PlanFields(fields, op, path))
      decreases fields, 1
    {
      hide *;
      ghost var done: seq<Decl> := [];
      WroteNothing(Now());
      for i := 0 to |fields|
        invariant done + PlanFields(fields[i..], op, path) == PlanFields(fields, op, path)
        invariant Wrote(old(Now()), Now(), done)
      {
        FieldsStep(fields, i, op, path);
        ghost var before := Now();
        EmitNestedType(fields[i].fieldType, op, path + [fields[i].name]);
        ghost var more := PlanType(fields[i].fieldType, op, path + [fields[i].name]);
        WroteMore(old(Now()), before, Now(), done, more);
        done := done + more;
      }
      FieldsStep(fields, |fields|, op, path);
      assert done + [] == done;
    }

    method EmitVariants(variants: seq<TsObjectVariant>, op: string, path: seq<string>)
      modifies this
      ensures Wrote(old(Now()), Now(), PlanVariants(variants, op, path))
      decreases variants, 1
    {
      hide *;
      ghost var done: seq<Decl> := [];
      WroteNothing(Now());
      for i := 0 to |variants|
        invariant done + PlanVariants(variants[i..], op, path) == PlanVariants(variants, op, path)
        invariant Wrote(old(Now()), Now(), done)
      {
        VariantsStep(variants, i, op, path);
        ghost var before := Now();
        var inside := path + [variants[i].typeName];
        EmitNestedFields(variants[i].fields, op, inside);
        WroteMore(old(Now()), before, Now(), done, PlanFields(variants[i].fields, op, inside));
        done := done + PlanFields(variants[i].fields, op, inside);
        before := Now();
        var name := TypeNameForPath(op, inside);
        EmitStruct(name, variants[i].fields, op, inside);
        ghost var struct := [Struct(name, FieldCodes(variants[i].fields, op, inside))];
        WroteMore(old(Now()), before, Now(), done, struct);
        done := done + struct;
      }
      VariantsStep(variants, |variants|, op, path);
      assert done + [] == done;
    }

    method EmitAlternatives(alternatives: seq<TsType>, op: string, path: seq<string>)
      modifies this
      ensures Wrote(old(Now()), Now(), PlanAlternatives(alternatives, op, path))
      decreases alternatives, 1
    {
      hide *;
      ghost var done: seq<Decl> := [];
      WroteNothing(Now());
      for i := 0 to |alternatives|
        invariant done + PlanAlternatives(alternatives[i..], op, path) == PlanAlternatives(alternatives, op, path)
        invariant Wrote(old(Now()), Now(), done)
      {
        AlternativesStep(alternatives, i, op, path);
        ghost var before := Now();
        EmitNestedType(alternatives[i], op, path);
        WroteMore(old(Now()), before, Now(), done, PlanType(alternatives[i], op, path));
        done := done + PlanType(alternatives[i], op, path);
      }
      AlternativesStep(alternatives, |alternatives|, op, path);
      assert done + [] == done;
    }

    /** `emit_nested_type`: what it writes is the plan without repeated names. */
    method EmitNestedType(typ: TsType, op: string, path: seq<string>)
      modifies this
      ensures Wrote(old(Now()), Now(), PlanType(typ, op, path))
      decreases typ, 0
    {
      hide Strip, PlanFields, PlanVariants, PlanAlternatives, Wrote, FieldCodes, VariantCodes, TypeName, Fresh,
           NamesOf;
      match Strip(typ)
      case Object(fields) =>
        EmitNestedFields(fields, op, path);
        ghost var before := Now();
        var name := TypeNameForPath(op, path);
        EmitStruct(name, fields, op, path);
        WroteMore(old(Now()), before, Now(), PlanFields(fields, op, path),
                  [Struct(name, FieldCodes(fields, op, path))]);
      case Array(element) =>
        EmitNestedType(element, op, path);
      case DiscriminatedUnion(_, variants) =>
        EmitVariants(variants, op, path);
        ghost var before := Now();
        EmitUnionEnum(op, path, variants);
        WroteMore(old(Now()), before, Now(), PlanVariants(variants, op, path),
                  [TaggedEnum(TypeName(op, path), VariantCodes(variants, op, path))]);
      case Union(alternatives) =>
        EmitAlternatives(alternatives, op, path);
      case _ =>
        WroteNothing(Now());
    }

    /** The types inside an object and then the object under a given name. */
    method EmitRoot(name: string, fields: seq<TsField>, op: string, path: seq<string>)
      modifies this
      ensures Wrote(old(Now()), Now(), RootPlan(name, fields, op, path))
    {
      hide PlanFields, Wrote, FieldCodes, Fresh, NamesOf;
      EmitNestedFields(fields, op, path);
      ghost var before := Now();
      EmitStruct(name, fields, op, path);
      WroteMore(old(Now()), before, Now(), PlanFields(fields, op, path), [Struct(name, FieldCodes(fields, op, path))]);
    }
  }

  lemma FieldsStep(fields: seq<TsField>, i: nat, op: string, path: seq<string>)
    requires i <= |fields|
    ensures fields[0..] == fields
    ensures i == |fields| ==> PlanFields(fields[i..], op, path) == []
    ensures i < |fields| ==>
              PlanFields(fields[i..], op, path) ==
              PlanType(fields[i].fieldType, op, path + [fields[i].name]) + PlanFields(fields[i + 1..], op, path)
  {
    hide PlanType;
    assert i < |fields| ==> fields[i..][1..] == fields[i + 1..];
  }

  lemma VariantsStep(variants: seq<TsObjectVariant>, i: nat, op: string, path: seq<string>)
    requires i <= |variants|
    ensures variants[0..] == variants
    ensures i == |variants| ==> PlanVariants(variants[i..], op, path) == []
    ensures i < |variants| ==>
              PlanVariants(variants[i..], op, path) ==
              PlanFields(variants[i].fields, op, path + [variants[i].typeName])
              + [Struct(TypeName(op, path + [variants[i].typeName]),
                        FieldCodes(variants[i].fields, op, path + [variants[i].typeName]))]
              + PlanVariants(variants[i + 1..], op, path)
  {
    hide PlanType, PlanFields;
    assert i < |variants| ==> variants[i..][1..] == variants[i + 1..];
  }

  lemma AlternativesStep(alternatives: seq<TsType>, i: nat, op: string, path: seq<string>)
    requires i <= |alternatives|
    ensures alternatives[0..] == alternatives
    ensures i == |alternatives| ==> PlanAlternatives(alternatives[i..], op, path) == []
    ensures i < |alternatives| ==>
              PlanAlternatives(alternatives[i..], op, path) ==
              PlanType(alternatives[i], op, path) + PlanAlternatives(alternatives[i + 1..], op, path)
  {
    hide PlanType;
    assert i < |alternatives| ==> alternatives[i..][1..] == alternatives[i + 1..];
  }

  /* ---------- whole outputs ---------- */

  function RootPlan(name: string, fields: seq<TsField>, op: string, path: seq<string>): seq<Decl> {
    PlanFields(fields, op, path) + [Struct(name, FieldCodes(fields, op, path))]
  }

  function UnwrapExact(typ: TsType): TsType {
    if typ.Wrapped? && (typ.wrapper == "Exact" || typ.wrapper == "Types.Exact") then typ.wrapped else typ
  }

  function VariablesPlan(op: string, variables: Option<TsType>): seq<Decl> {
    if variables.Some? && UnwrapExact(variables.value).Object? && UnwrapExact(variables.value).fields != [] then
      RootPlan(Pascal(op) + "Variables", UnwrapExact(variables.value).fields, op, [])
    else []
  }

  function ResponsePlan(op: string, response: TsType): seq<Decl> {
    if response.Object? then RootPlan(Pascal(op) + "Response", response.fields, op, []) else []
  }

  function OperationPlan(op: string, variables: Option<TsType>, response: TsType): seq<Decl> {
    VariablesPlan(op, variables) + ResponsePlan(op, response)
  }

  /** `generate_rust`, without the header and the query text. */
  method GenerateRust(op: string, variables: Option<TsType>, response: TsType) returns (code: seq<Decl>)
    ensures code == Fresh(OperationPlan(op, variables, response), {})
  {
    hide Fresh, RootPlan, Pascal;
    var output := new Output();
    ghost var start := output.Now();
    WroteNothing(start);
    if variables.Some? {
      var typ := UnwrapExact(variables.value);
      if typ.Object? && typ.fields != [] {
        var name := PascalCase(op);
        output.EmitRoot(name + "Variables", typ.fields, op, []);
      }
    }
    ghost var middle := output.Now();
    assert Wrote(start, middle, VariablesPlan(op, variables));
    if response.Object? {
      var name := PascalCase(op);
      output.EmitRoot(name + "Response", response.fields, op, []);
    } else {
      WroteNothing(middle);
    }
    WroteMore(start, middle, output.Now(), VariablesPlan(op, variables), ResponsePlan(op, response));
    code := output.code;
    assert start.code == [] && start.seen == {};
  }

  datatype SharedType =
    | EnumType(name: string, values: seq<string>)
    | InputStruct(name: string, fields: seq<TsField>)

  function SharedPlan(types: seq<SharedType>): seq<Decl> {
    if types == [] then [] else SharedTypePlan(types[0]) + SharedPlan(types[1..])
  }

  function SharedTypePlan(shared: SharedType): seq<Decl> {
    match shared
    case EnumType(name, values) => [StringEnum(Pascal(name), values)]
    case InputStruct(name, fields) => RootPlan(Pascal(name), fields, "", [name])
  }

  method GenerateSharedTypes(types: seq<SharedType>) returns (code: seq<Decl>)
    ensures code == Fresh(SharedPlan(types), {})
  {
    hide Fresh, RootPlan, Pascal, Wrote, NamesOf;
    var output := new Output();
    ghost var start := output.Now();
    ghost var done: seq<Decl> := [];
    WroteNothing(start);
    for i := 0 to |types|
      invariant output.Now().code == output.code
      invariant done + SharedPlan(types[i..]) == SharedPlan(types)
      invariant Wrote(start, output.Now(), done)
      invariant fresh(output)
    {
      assert types[i..][1..] == types[i + 1..];
      ghost var before := output.Now();
      match types[i] {
        case EnumType(name, values) =>
          var rust := PascalCase(name);
          output.EmitStringEnum(rust, values);
        case InputStruct(name, fields) =>
          var rust := PascalCase(name);
          output.EmitRoot(rust, fields, "", [name]);
      }
      WroteMore(start, before, output.Now(), done, SharedTypePlan(types[i]));
      done := done + SharedTypePlan(types[i]);
    }
    assert types[|types|..] == [] && done + [] == done;
    code := output.code;
    WroteFromNothing(start, output.Now(), done);
  }
}

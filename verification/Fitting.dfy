/** The generated types admit no more than they should: what they decode has the shape
    of the type expression, up to the places where Rust is looser. */
module Fitting {
  import opened Text
  import opened TsAst
  import opened Names
  import opened Generator
  import opened GeneratorClosure
  import opened Decoding
  import opened Undecodable

  /** The union is one type and its list, `any` and `null` aside. */
  predicate OneOrList(alternatives: seq<TsType>, inner: TsType) {
    && (inner.Primitive? || inner.Reference?)
    && (NotAny(alternatives) == [inner, Array(inner)] || NotAny(alternatives) == [Array(inner), inner])
  }

  /** `null` is a value of the type. */
  predicate MayBeNull(t: TsType) {
    match t
    case Nullable(_) => true
    case Wrapped(wrapper, inner) => IsMaybe(wrapper) || MayBeNull(inner)
    case _ => false
  }

  /** The values of a type as Rust sees them: any text for a list of literals, anything
      for a union other than a type and its list, only integers of 64 bits for numbers,
      and `null` for an absent value of an optional field and the other way round. */
  ghost predicate Fits(w: World, v: Value, t: TsType)
    decreases t
  {
    match t
    case Primitive(StringType) => v.Str?
    case Primitive(NumberType) => v.Number? && IsInt64(v.n)
    case Primitive(BooleanType) => v.Bool?
    case Primitive(AnyType) => true
    case Array(element) => v.Arr? && forall x :: x in v.items ==> Fits(w, x, element)
    case Nullable(inner) => v.Null? || Fits(w, v, inner)
    case Union(alternatives) =>
      forall inner :: inner in alternatives && OneOrList(alternatives, inner) ==>
        Fits(w, v, inner) || (v.Arr? && forall x :: x in v.items ==> Fits(w, x, inner))
    case StringUnion(_) => v.Str?
    case Object(fields) => v.Obj? && FitsFields(w, v.members, fields)
    case Reference(_) => DecodesPlain(w, v, PlainRust(t))
    case Wrapped(wrapper, inner) => (IsMaybe(wrapper) && v.Null?) || Fits(w, v, inner)
    case DiscriminatedUnion(_, variants) =>
      v.Obj? && exists x :: x in variants && FitsVariant(w, v.members, x)
  }

  ghost predicate FitsVariant(w: World, members: map<string, Value>, x: TsObjectVariant)
    decreases x
  {
    && "__typename" in members && members["__typename"] == Str(x.typeName)
    && FitsFields(w, members, x.fields)
  }

  ghost predicate FitsFields(w: World, members: map<string, Value>, fields: seq<TsField>)
    decreases fields
  {
    forall f :: f in fields ==>
      if f.name in members then Fits(w, members[f.name], f.fieldType) || (f.optional && members[f.name].Null?)
      else f.optional || MayBeNull(f.fieldType)
  }

  lemma PlainFits(w: World, code: seq<Decl>, v: Value, t: TsType)
    requires (t.Primitive? || t.Reference?) && Decodes(w, code, v, PlainRust(t))
    ensures Fits(w, v, t)
  {
    PlainIsRust(t, "", []);
  }

  lemma UnionFits(w: World, code: seq<Decl>, v: Value, alternatives: seq<TsType>, op: string, path: seq<string>)
    requires Decodes(w, code, v, ToRust(Union(alternatives), op, path))
    ensures Fits(w, v, Union(alternatives))
  {
    UnionRust(alternatives, op, path);
    hide ToRust, PlainRust, NotAny;
    forall inner | inner in alternatives && OneOrList(alternatives, inner)
      ensures Fits(w, v, inner) || (v.Arr? && forall x :: x in v.items ==> Fits(w, x, inner))
    {
      OneOrListIs(alternatives, inner);
      hide OneOrManyInner, SameType, OneOrList;
      if Decodes(w, code, v, PlainRust(inner)) {
        PlainFits(w, code, v, inner);
      } else {
        forall x | x in v.items ensures Fits(w, x, inner) { PlainFits(w, code, x, inner); }
      }
    }
  }

  lemma OneOrListIs(alternatives: seq<TsType>, inner: TsType)
    requires OneOrList(alternatives, inner)
    ensures inner.Primitive? || inner.Reference?
    ensures var kept := NotAny(alternatives); |kept| == 2 && OneOrManyInner(kept[0], kept[1]) == Some(inner)
  {
    hide NotAny;
    assert SameType(inner, inner) by { SameAsItself(inner); }
  }

  lemma SameAsItself(t: TsType)
    requires t.Primitive? || t.Reference?
    ensures SameType(t, t)
  {}

  lemma {:induction false} SimpleFits(w: World, code: seq<Decl>, v: Value, t: TsType, op: string, path: seq<string>)
    requires Decodes(w, code, v, ToRust(t, op, path)) && !IsPlace(t)
    ensures Fits(w, v, t)
    decreases t
  {
    match t
    case Array(element) =>
      forall x | x in v.items ensures Fits(w, x, element) { SimpleFits(w, code, x, element, op, path); }
    case Nullable(inner) => if !v.Null? { SimpleFits(w, code, v, inner, op, path); }
    case Wrapped(wrapper, inner) =>
      if !(IsMaybe(wrapper) && v.Null?) { SimpleFits(w, code, v, inner, op, path); }
    case Union(alternatives) => UnionFits(w, code, v, alternatives, op, path);
    case Primitive(_) => PlainIsRust(t, op, path); PlainFits(w, code, v, t);
    case Reference(_) => PlainIsRust(t, op, path); PlainFits(w, code, v, t);
    case StringUnion(_) =>
  }

  /** Everything that a generated type decodes fits the type expression. */
  lemma {:induction false} TypeFits(w: World, code: seq<Decl>, v: Value, t: TsType, op: string, path: seq<string>)
    requires Distinct(code) && Decodes(w, code, v, ToRust(t, op, path))
    requires NothingHidden(t) && (IsPlace(t) ==> Reached(t)) && Declared(code, PlanType(t, op, path))
    ensures Fits(w, v, t)
    decreases t, 1
  {
    if !IsPlace(t) {
      SimpleFits(w, code, v, t, op, path);
    } else {
      PlanThrough(t, op, path);
      hide PlanType, PlanFields, PlanVariants, FieldCodes, VariantCodes, TypeName, DecodesDecl, Distinct, FitsFields,
           FitsVariant;
      match t
      case Array(element) =>
        forall x | x in v.items ensures Fits(w, x, element) { TypeFits(w, code, x, element, op, path); }
      case Nullable(inner) => if !v.Null? { TypeFits(w, code, v, inner, op, path); }
      case Wrapped(_, inner) => if !v.Null? { TypeFits(w, code, v, inner, op, path); }
      case Object(fields) =>
        ObjectPlan(fields, op, path);
        RootFits(w, code, v, TypeName(op, path), fields, op, path);
      case DiscriminatedUnion(_, variants) => TaggedFits(w, code, v, t, op, path);
    }
  }

  lemma {:induction false} RootFits(w: World, code: seq<Decl>, v: Value, name: string, fields: seq<TsField>, op: string,
                                    path: seq<string>)
    requires Distinct(code) && Declared(code, RootPlan(name, fields, op, path)) && NoFieldHidden(fields)
    requires Decodes(w, code, v, Place(name))
    ensures v.Obj? && FitsFields(w, v.members, fields)
    decreases fields, 1
  {
    hide Distinct, PlanFields, FieldCodes, FitsFields, NoFieldHidden, Decodes, DecodesStruct;
    var d := Struct(name, FieldCodes(fields, op, path));
    assert d in RootPlan(name, fields, op, path);
    PlaceIs(w, code, v, d);
    StructFits(w, code, v, fields, op, path);
  }

  lemma {:induction false} StructFits(w: World, code: seq<Decl>, v: Value, fields: seq<TsField>, op: string,
                                      path: seq<string>)
    requires Distinct(code) && Declared(code, PlanFields(fields, op, path)) && NoFieldHidden(fields)
    requires DecodesStruct(w, code, v, FieldCodes(fields, op, path))
    ensures v.Obj? && FitsFields(w, v.members, fields)
    decreases fields, 0
  {
    hide PlanType, PlanFields, Distinct, Fits, NothingHidden, IsPlace, Reached, ToRust, NullableLike, MayBeNull,
         Decodes;
    var codes := FieldCodes(fields, op, path);
    forall f | f in fields
      ensures if f.name in v.members
              then Fits(w, v.members[f.name], f.fieldType) || (f.optional && v.members[f.name].Null?)
              else f.optional || MayBeNull(f.fieldType)
    {
      var i :| 0 <= i < |fields| && fields[i] == f;
      assert codes[i] == FieldCode(f, op, path) && codes[i] in codes;
      FieldPlan(fields, f, op, path);
      FieldFits(w, code, v.members, f, op, path);
      if f.name in v.members && !(f.optional && v.members[f.name].Null?) {
        TypeFits(w, code, v.members[f.name], f.fieldType, op, path + [f.name]);
      }
    }
  }

  lemma FieldFits(w: World, code: seq<Decl>, members: map<string, Value>, f: TsField, op: string, path: seq<string>)
    requires var c := FieldCode(f, op, path);
             if c.name in members then Decodes(w, code, members[c.name], c.rustType) else c.rustType.Opt?
    ensures if f.name in members then
              (f.optional && members[f.name].Null?)
              || Decodes(w, code, members[f.name], ToRust(f.fieldType, op, path + [f.name]))
            else f.optional || MayBeNull(f.fieldType)
  {
    OptionIsNull(f.fieldType, op, path + [f.name]);
    hide ToRust, MayBeNull, NullableLike;
  }

  lemma {:induction false} OptionIsNull(t: TsType, op: string, path: seq<string>)
    ensures ToRust(t, op, path).Opt? ==> MayBeNull(t)
  {
    match t
    case Wrapped(_, inner) => OptionIsNull(inner, op, path);
    case Primitive(_) => PlainIsRust(t, op, path);
    case Reference(_) => PlainIsRust(t, op, path);
    case _ =>
  }

  lemma {:induction false} TaggedFits(w: World, code: seq<Decl>, v: Value, t: TsType, op: string, path: seq<string>)
    requires t.DiscriminatedUnion? && Distinct(code) && Decodes(w, code, v, Place(TypeName(op, path)))
    requires NothingHidden(t) && Declared(code, PlanType(t, op, path))
    ensures Fits(w, v, t)
    decreases t, 0
  {
    hide *;
    UnionPlan(t, op, path);
    var d := TaggedEnum(TypeName(op, path), VariantCodes(t.variants, op, path));
    InCode(code, PlanVariants(t.variants, op, path), d);
    PlaceIs(w, code, v, d);
    var x, s := VariantOf(w, code, v, t, op, path);
    var inside := path + [x.typeName];
    var own := Struct(TypeName(op, inside), FieldCodes(x.fields, op, inside));
    VariantPlan(t.variants, x, op, path);
    DeclaredThrough(code, PlanVariants(t.variants, op, path), RootPlan(own.name, x.fields, op, inside));
    RootParts(code, own, x.fields, op, inside);
    OneDecl(code, s, own);
    VariantVisible(t, x);
    StructFits(w, code, v, x.fields, op, inside);
    TagFits(w, v, t, x);
  }

  lemma TagFits(w: World, v: Value, t: TsType, x: TsObjectVariant)
    requires t.DiscriminatedUnion? && x in t.variants && v.Obj? && FitsFields(w, v.members, x.fields)
    requires "__typename" in v.members && v.members["__typename"] == Str(x.typeName)
    ensures Fits(w, v, t)
  {
    hide FitsFields;
    assert FitsVariant(w, v.members, x);
  }

  /** The variant of a tag, and the struct that decoded it. */
  lemma VariantOf(w: World, code: seq<Decl>, v: Value, t: TsType, op: string, path: seq<string>)
      returns (x: TsObjectVariant, s: Decl)
    requires t.DiscriminatedUnion?
    requires DecodesDecl(w, code, v, TaggedEnum(TypeName(op, path), VariantCodes(t.variants, op, path)))
    ensures x in t.variants && s in code && s.Struct? && s.name == TypeName(op, path + [x.typeName])
    ensures v.Obj? && "__typename" in v.members && v.members["__typename"] == Str(x.typeName)
    ensures DecodesStruct(w, code, v, s.fields)
  {
    hide TypeName, DecodesStruct;
    var codes := VariantCodes(t.variants, op, path);
    s :| s in code && s.Struct? && (v.members["__typename"].s, s.name) in codes && DecodesStruct(w, code, v, s.fields);
    var i :| 0 <= i < |codes| && codes[i] == (v.members["__typename"].s, s.name);
    x := t.variants[i];
  }

  /** Everything that the generated code decodes as the response, or as the variables,
      fits their types. */
  lemma OperationFits(w: World, op: string, variables: Option<TsType>, response: TsType, v: Value)
    requires Distinct(OperationPlan(op, variables, response))
    requires VariablesVisible(variables) && ResponseVisible(response)
    ensures var code := Fresh(OperationPlan(op, variables, response), {});
            && (response.Object? && Decodes(w, code, v, Place(Pascal(op) + "Response")) ==> Fits(w, v, response))
            && (VariablesPlan(op, variables) != [] && Decodes(w, code, v, Place(Pascal(op) + "Variables")) ==>
                  Fits(w, v, UnwrapExact(variables.value)))
  {
    hide NoFieldHidden, RootPlan, Distinct, Fresh, Pascal, Decodes, FitsFields;
    var plan := OperationPlan(op, variables, response);
    NothingDropped(plan, {});
    assert plan == VariablesPlan(op, variables) + ResponsePlan(op, response);
    if response.Object? && Decodes(w, plan, v, Place(Pascal(op) + "Response")) {
      RootFits(w, plan, v, Pascal(op) + "Response", response.fields, op, []);
    }
    if VariablesPlan(op, variables) != [] && Decodes(w, plan, v, Place(Pascal(op) + "Variables")) {
      RootFits(w, plan, v, Pascal(op) + "Variables", UnwrapExact(variables.value).fields, op, []);
    }
  }
}

/** What the generated declarations are for: every value of a type expression is
    decoded by the type written for it, with the exact condition under which. */
module Decoding {
  import opened Text
  import opened TsAst
  import opened Names
  import opened Generator
  import opened GeneratorClosure

  datatype Value =
    | Null
    | Bool(b: bool)
    | Number(n: real)
    | Str(s: string)
    | Arr(items: seq<Value>)
    | Obj(members: map<string, Value>)

  /** What references mean: which values a reference of the type expressions has, and
      which values a type from elsewhere decodes. */
  datatype World = World(values: (TsReference, Value) -> bool, decodes: (string, Value) -> bool)

  /* ---------- the values of a type expression ---------- */

  ghost predicate Inhabits(w: World, v: Value, t: TsType)
    decreases t
  {
    match t
    case Primitive(StringType) => v.Str?
    case Primitive(NumberType) => v.Number?
    case Primitive(BooleanType) => v.Bool?
    case Primitive(AnyType) => true
    case Array(element) => v.Arr? && forall x :: x in v.items ==> Inhabits(w, x, element)
    case Nullable(inner) => v.Null? || Inhabits(w, v, inner)
    case Union(alternatives) => exists a :: a in alternatives && Inhabits(w, v, a)
    case StringUnion(values) => v.Str? && v.s in values
    case Object(fields) => v.Obj? && InhabitsFields(w, v.members, fields)
    case Reference(reference) => w.values(reference, v)
    case Wrapped(wrapper, inner) => (IsMaybe(wrapper) && v.Null?) || Inhabits(w, v, inner)
    case DiscriminatedUnion(_, variants) =>
      v.Obj? && exists x :: x in variants && InhabitsVariant(w, v.members, x)
  }

  /** The only discriminant there is. */
  ghost predicate InhabitsVariant(w: World, members: map<string, Value>, x: TsObjectVariant)
    decreases x
  {
    && "__typename" in members && members["__typename"] == Str(x.typeName)
    && InhabitsFields(w, members, x.fields)
  }

  /** Every field has a value of its type; an optional one may be absent. */
  ghost predicate InhabitsFields(w: World, members: map<string, Value>, fields: seq<TsField>)
    decreases fields
  {
    forall f :: f in fields ==>
      if f.name in members then Inhabits(w, members[f.name], f.fieldType) else f.optional
  }

  /* ---------- what a Rust type decodes ---------- */

  predicate IsInt64(n: real) {
    n == n.Floor as real && -0x8000_0000_0000_0000 <= n.Floor < 0x8000_0000_0000_0000
  }

  /** The types of other crates: text, integers, floats, truth values, and any value. */
  predicate DecodesBuiltin(name: string, v: Value) {
    if name == "String" then v.Str?
    else if name == "i64" then v.Number? && IsInt64(v.n)
    else if name == "f64" then v.Number?
    else if name == "bool" then v.Bool?
    else name == "serde_json::Value"
  }

  ghost predicate Decodes(w: World, code: seq<Decl>, v: Value, r: RustType)
    decreases v, 2, r
  {
    match r
    case Builtin(name) => DecodesBuiltin(name, v)
    case Shared(name) => w.decodes(name, v)
    case Vec(item) => v.Arr? && forall x :: x in v.items ==> Decodes(w, code, x, item)
    case Opt(item) => v.Null? || Decodes(w, code, v, item)
    case OneOrMany(item) =>
      Decodes(w, code, v, item) || (v.Arr? && forall x :: x in v.items ==> Decodes(w, code, x, item))
    case Place(name) => exists d :: d in code && d.name == name && DecodesDecl(w, code, v, d)
  }

  ghost predicate DecodesDecl(w: World, code: seq<Decl>, v: Value, d: Decl)
    decreases v, 1
  {
    match d
    case Struct(_, fields) => DecodesStruct(w, code, v, fields)
    case TaggedEnum(_, variants) =>
      && v.Obj? && "__typename" in v.members && v.members["__typename"].Str?
      && exists d :: d in code && d.Struct? && (v.members["__typename"].s, d.name) in variants
                     && DecodesStruct(w, code, v, d.fields)
    case StringEnum(_, values) => v.Str? && v.s in values
  }

  /** Fields that are absent decode when they are an `Option`; others are not looked at. */
  ghost predicate DecodesStruct(w: World, code: seq<Decl>, v: Value, fields: seq<RustField>)
    decreases v, 0
  {
    && v.Obj?
    && forall f :: f in fields ==>
         if f.name in v.members then Decodes(w, code, v.members[f.name], f.rustType) else f.rustType.Opt?
  }

  /* ---------- the condition ---------- */

  /** All numbers in the value are integers of 64 bits. */
  ghost predicate Whole(v: Value) {
    match v
    case Number(n) => IsInt64(n)
    case Arr(items) => forall x :: x in items ==> Whole(x)
    case Obj(members) => forall k :: k in members ==> Whole(members[k])
    case _ => true
  }

  /** A union of a type and its list with `any` or `null` besides: what only the third
      one admits has no place in `OneOrMany`. */
  predicate LosesAny(alternatives: seq<TsType>) {
    && Primitive(AnyType) in alternatives
    && var kept := NotAny(alternatives);
       |kept| == 2 && OneOrManyInner(kept[0], kept[1]).Some?
       && PlainRust(OneOrManyInner(kept[0], kept[1]).value) != Json
  }

  /** The Rust type of a primitive or a reference, which is the same at every place. */
  function PlainRust(t: TsType): RustType {
    match t
    case Primitive(p) => PrimitiveName(p)
    case Reference(Named(parts)) => ResolveReference(parts)
    case Reference(Indexed(base, keys)) => ResolveIndexed(base, keys)
    case _ => Json
  }

  predicate KeepsAll(t: TsType) {
    match t
    case Array(element) => KeepsAll(element)
    case Nullable(inner) => KeepsAll(inner)
    case Wrapped(_, inner) => KeepsAll(inner)
    case Object(fields) => KeepsFields(fields)
    case DiscriminatedUnion(_, variants) => forall x :: x in variants ==> KeepsFields(x.fields)
    case Union(alternatives) => !LosesAny(alternatives)
    case _ => true
  }

  predicate KeepsFields(fields: seq<TsField>) {
    forall f :: f in fields ==> KeepsAll(f.fieldType)
  }

  ghost predicate DecodesPlain(w: World, v: Value, r: RustType) {
    match r
    case Builtin(name) => DecodesBuiltin(name, v)
    case Shared(name) => w.decodes(name, v)
    case _ => false
  }

  /** The values of every reference are decoded by the type that it is resolved to. */
  ghost predicate Understood(w: World) {
    forall r, v :: w.values(r, v) && Whole(v) ==> DecodesPlain(w, v, PlainRust(Reference(r)))
  }

  /* ---------- every value is decoded ---------- */

  lemma PlainIsRust(t: TsType, op: string, path: seq<string>)
    requires t.Primitive? || t.Reference?
    ensures ToRust(t, op, path) == PlainRust(t) && (PlainRust(t).Builtin? || PlainRust(t).Shared?)
  {}

  lemma PlainDecodes(w: World, code: seq<Decl>, v: Value, t: TsType, op: string, path: seq<string>)
    requires (t.Primitive? || t.Reference?) && Understood(w) && Whole(v) && Inhabits(w, v, t)
    ensures Decodes(w, code, v, ToRust(t, op, path))
  {
    PlainIsRust(t, op, path);
    hide ResolveReference, ResolveIndexed;
  }

  lemma {:induction false} KeptAlternatives(alternatives: seq<TsType>)
    ensures forall t :: t in NotAny(alternatives) <==> t in alternatives && t != Primitive(AnyType)
  {
    if alternatives != [] {
      KeptAlternatives(alternatives[1..]);
      assert alternatives == [alternatives[0]] + alternatives[1..];
    }
  }

  lemma SameIsEqual(a: TsType, b: TsType)
    requires SameType(a, b)
    ensures a == b && (a.Primitive? || a.Reference?)
  {}

  lemma InnerIsPart(a: TsType, b: TsType)
    requires OneOrManyInner(a, b).Some?
    ensures var inner := OneOrManyInner(a, b).value;
            && (inner.Primitive? || inner.Reference?)
            && ((a == Array(inner) && b == inner) || (b == Array(inner) && a == inner))
  {
    if a.Array? && SameType(a.element, b) { SameIsEqual(a.element, b); } else { SameIsEqual(b.element, a); }
  }

  lemma UnionDecodes(w: World, code: seq<Decl>, v: Value, alternatives: seq<TsType>, op: string, path: seq<string>)
    requires Understood(w) && Whole(v) && Inhabits(w, v, Union(alternatives)) && !LosesAny(alternatives)
    ensures Decodes(w, code, v, ToRust(Union(alternatives), op, path))
  {
    KeptAlternatives(alternatives);
    UnionRust(alternatives, op, path);
    var kept := NotAny(alternatives);
    hide ToRust, PlainRust, NotAny, Understood, DecodesBuiltin;
    if |kept| == 2 && OneOrManyInner(kept[0], kept[1]).Some? {
      var inner := OneOrManyInner(kept[0], kept[1]).value;
      InnerIsPart(kept[0], kept[1]);
      hide OneOrManyInner, SameType;
      if PlainRust(inner) == Json {
        AnyDecodes(w, code, v);
      } else {
        var a :| a in alternatives && Inhabits(w, v, a);
        assert a in kept && (a == inner || a == Array(inner));
        PartDecodes(w, code, v, inner, a);
      }
    } else {
      AnyDecodes(w, code, v);
    }
  }

  lemma AnyDecodes(w: World, code: seq<Decl>, v: Value)
    ensures Decodes(w, code, v, Json)
  {}

  lemma PartDecodes(w: World, code: seq<Decl>, v: Value, inner: TsType, a: TsType)
    requires (inner.Primitive? || inner.Reference?) && (a == inner || a == Array(inner))
    requires Understood(w) && Whole(v) && Inhabits(w, v, a)
    ensures Decodes(w, code, v, OneOrMany(PlainRust(inner)))
  {
    hide Understood, PlainRust;
    PlainIsRust(inner, "", []);
    hide ToRust;
    if a == inner {
      PlainDecodes(w, code, v, inner, "", []);
    } else {
      forall x | x in v.items ensures Decodes(w, code, x, PlainRust(inner)) { PlainDecodes(w, code, x, inner, "", []); }
    }
  }

  lemma UnionRust(alternatives: seq<TsType>, op: string, path: seq<string>)
    ensures var kept := NotAny(alternatives);
            ToRust(Union(alternatives), op, path) ==
            if |kept| == 2 && OneOrManyInner(kept[0], kept[1]).Some?
            then OneOrMany(PlainRust(OneOrManyInner(kept[0], kept[1]).value)) else Json
  {
    var kept := NotAny(alternatives);
    hide PlainRust, NotAny, PrimitiveName, ResolveReference, ResolveIndexed;
    if |kept| == 2 && OneOrManyInner(kept[0], kept[1]).Some? {
      InnerIsPart(kept[0], kept[1]);
      PlainIsRust(OneOrManyInner(kept[0], kept[1]).value, op, path);
    }
  }

  /** A type without an object under its lists, nulls and wrappers. */
  lemma {:induction false} SimpleDecodes(w: World, code: seq<Decl>, v: Value, t: TsType, op: string, path: seq<string>)
    requires Understood(w) && Whole(v) && Inhabits(w, v, t) && KeepsAll(t) && !IsPlace(t)
    ensures Decodes(w, code, v, ToRust(t, op, path))
    decreases t
  {
    match t
    case Array(element) =>
      forall x | x in v.items ensures Decodes(w, code, x, ToRust(element, op, path)) {
        SimpleDecodes(w, code, x, element, op, path);
      }
    case Nullable(inner) => if !v.Null? { SimpleDecodes(w, code, v, inner, op, path); }
    case Wrapped(wrapper, inner) =>
      if !(IsMaybe(wrapper) && v.Null?) { SimpleDecodes(w, code, v, inner, op, path); }
    case Union(alternatives) => UnionDecodes(w, code, v, alternatives, op, path);
    case Primitive(_) => PlainDecodes(w, code, v, t, op, path);
    case Reference(_) => PlainDecodes(w, code, v, t, op, path);
    case StringUnion(_) =>
  }

  /** All declarations of a plan are in the code. */
  ghost predicate Declared(code: seq<Decl>, plan: seq<Decl>) { forall d :: d in plan ==> d in code }

  lemma InCode(code: seq<Decl>, plan: seq<Decl>, d: Decl)
    requires Declared(code, plan + [d])
    ensures d in code && Declared(code, plan)
  {
    assert forall e :: e in plan || e == d ==> e in plan + [d];
  }

  lemma DeclaredThrough(code: seq<Decl>, plan: seq<Decl>, part: seq<Decl>)
    requires Declared(code, plan) && Declared(plan, part)
    ensures Declared(code, part)
  {}

  lemma RootParts(code: seq<Decl>, d: Decl, fields: seq<TsField>, op: string, path: seq<string>)
    requires d.Struct? && d.fields == FieldCodes(fields, op, path) && Declared(code, RootPlan(d.name, fields, op, path))
    ensures d in code && Declared(code, PlanFields(fields, op, path))
  {
    hide PlanFields, FieldCodes, Declared;
    InCode(code, PlanFields(fields, op, path), d);
  }

  lemma VariantVisible(t: TsType, x: TsObjectVariant)
    requires t.DiscriminatedUnion? && x in t.variants && NothingHidden(t)
    ensures NoFieldHidden(x.fields)
  {
    hide NoFieldHidden;
  }

  lemma {:induction false} FieldPlan(fields: seq<TsField>, f: TsField, op: string, path: seq<string>)
    requires f in fields
    ensures Declared(PlanFields(fields, op, path), PlanType(f.fieldType, op, path + [f.name]))
  {
    hide PlanType;
    if f != fields[0] { FieldPlan(fields[1..], f, op, path); }
  }

  lemma {:induction false} VariantPlan(variants: seq<TsObjectVariant>, x: TsObjectVariant, op: string, path: seq<string>)
    requires x in variants
    ensures var inside := path + [x.typeName];
            Declared(PlanVariants(variants, op, path), RootPlan(TypeName(op, inside), x.fields, op, inside))
  {
    hide PlanFields, FieldCodes, TypeName;
    if x != variants[0] { VariantPlan(variants[1..], x, op, path); }
  }

  lemma {:induction false} TypeDecodes(w: World, code: seq<Decl>, v: Value, t: TsType, op: string, path: seq<string>)
    requires Understood(w) && Whole(v) && Inhabits(w, v, t) && KeepsAll(t)
    requires NothingHidden(t) && (IsPlace(t) ==> Reached(t)) && Declared(code, PlanType(t, op, path))
    ensures Decodes(w, code, v, ToRust(t, op, path))
    decreases t, 1
  {
    if !IsPlace(t) {
      SimpleDecodes(w, code, v, t, op, path);
    } else {
      PlanThrough(t, op, path);
      hide PlanType, PlanFields, PlanVariants, FieldCodes, VariantCodes, TypeName, Understood, DecodesDecl;
      match t
      case Array(element) =>
        forall x | x in v.items ensures Decodes(w, code, x, ToRust(element, op, path)) {
          TypeDecodes(w, code, x, element, op, path);
        }
      case Nullable(inner) => if !v.Null? { TypeDecodes(w, code, v, inner, op, path); }
      case Wrapped(_, inner) => if !v.Null? { TypeDecodes(w, code, v, inner, op, path); }
      case Object(fields) =>
        ObjectPlan(fields, op, path);
        RootDecodes(w, code, v, TypeName(op, path), fields, op, path);
      case DiscriminatedUnion(_, variants) => TaggedDecodes(w, code, v, t, op, path);
    }
  }

  lemma ObjectPlan(fields: seq<TsField>, op: string, path: seq<string>)
    ensures PlanType(Object(fields), op, path) == RootPlan(TypeName(op, path), fields, op, path)
  {
    hide PlanFields, TypeName, FieldCodes;
  }

  lemma UnionPlan(t: TsType, op: string, path: seq<string>)
    requires t.DiscriminatedUnion?
    ensures PlanType(t, op, path) == PlanVariants(t.variants, op, path)
                                     + [TaggedEnum(TypeName(op, path), VariantCodes(t.variants, op, path))]
  {
    hide PlanVariants, TypeName, VariantCodes;
  }

  /** A declared struct decodes the values of its object. */
  lemma {:induction false} RootDecodes(w: World, code: seq<Decl>, v: Value, name: string, fields: seq<TsField>,
                                       op: string, path: seq<string>)
    requires Understood(w) && Whole(v) && v.Obj? && InhabitsFields(w, v.members, fields) && KeepsFields(fields)
    requires NoFieldHidden(fields) && Declared(code, RootPlan(name, fields, op, path))
    ensures DecodesStruct(w, code, v, FieldCodes(fields, op, path))
    ensures Decodes(w, code, v, Place(name))
    decreases fields, 0
  {
    hide PlanType, PlanFields, TypeName, Understood, Inhabits, KeepsAll, NothingHidden, IsPlace, Reached, ToRust,
         NullableLike;
    var codes := FieldCodes(fields, op, path);
    forall c | c in codes
      ensures if c.name in v.members then Decodes(w, code, v.members[c.name], c.rustType) else c.rustType.Opt?
    {
      var i :| 0 <= i < |codes| && codes[i] == c;
      var f := fields[i];
      assert f in fields && c == FieldCode(f, op, path);
      FieldPlan(fields, f, op, path);
      if f.name in v.members {
        TypeDecodes(w, code, v.members[f.name], f.fieldType, op, path + [f.name]);
      }
      FieldDecodes(w, code, v.members, f, op, path);
    }
    var d := Struct(name, codes);
    assert d in RootPlan(name, fields, op, path);
    assert DecodesDecl(w, code, v, d);
  }

  /** The `Option` around an optional field. */
  lemma FieldDecodes(w: World, code: seq<Decl>, members: map<string, Value>, f: TsField, op: string, path: seq<string>)
    requires if f.name in members then Decodes(w, code, members[f.name], ToRust(f.fieldType, op, path + [f.name]))
             else f.optional
    ensures var r := FieldCode(f, op, path).rustType;
            if f.name in members then Decodes(w, code, members[f.name], r) else r.Opt?
  {}

  lemma {:induction false} TaggedDecodes(w: World, code: seq<Decl>, v: Value, t: TsType, op: string, path: seq<string>)
    requires t.DiscriminatedUnion? && Understood(w) && Whole(v) && Inhabits(w, v, t) && KeepsAll(t)
    requires NothingHidden(t) && Declared(code, PlanType(t, op, path))
    ensures Decodes(w, code, v, Place(TypeName(op, path)))
    decreases t, 0
  {
    hide *;
    UnionPlan(t, op, path);
    var d := TaggedEnum(TypeName(op, path), VariantCodes(t.variants, op, path));
    InCode(code, PlanVariants(t.variants, op, path), d);
    var x := VariantFor(w, v, t);
    var inside := path + [x.typeName];
    var s := Struct(TypeName(op, inside), FieldCodes(x.fields, op, inside));
    VariantPlan(t.variants, x, op, path);
    DeclaredThrough(code, PlanVariants(t.variants, op, path), RootPlan(s.name, x.fields, op, inside));
    RootParts(code, s, x.fields, op, inside);
    VariantVisible(t, x);
    RootDecodes(w, code, v, s.name, x.fields, op, inside);
    VariantNamed(t.variants, x, op, path);
    TagDecodes(w, code, v, d, s, x.typeName);
  }

  /** The variant that a value belongs to. */
  lemma VariantFor(w: World, v: Value, t: TsType) returns (x: TsObjectVariant)
    requires t.DiscriminatedUnion? && Inhabits(w, v, t) && KeepsAll(t)
    ensures x in t.variants && v.Obj? && InhabitsFields(w, v.members, x.fields) && KeepsFields(x.fields)
    ensures "__typename" in v.members && v.members["__typename"] == Str(x.typeName)
  {
    hide InhabitsFields, KeepsFields;
    x :| x in t.variants && InhabitsVariant(w, v.members, x);
  }

  lemma VariantNamed(variants: seq<TsObjectVariant>, x: TsObjectVariant, op: string, path: seq<string>)
    requires x in variants
    ensures (x.typeName, TypeName(op, path + [x.typeName])) in VariantCodes(variants, op, path)
  {
    hide TypeName;
    var i :| 0 <= i < |variants| && variants[i] == x;
    assert VariantCodes(variants, op, path)[i] == (x.typeName, TypeName(op, path + [x.typeName]));
  }

  lemma TagDecodes(w: World, code: seq<Decl>, v: Value, d: Decl, s: Decl, tag: string)
    requires d in code && d.TaggedEnum? && s in code && s.Struct? && (tag, s.name) in d.variants
    requires v.Obj? && "__typename" in v.members && v.members["__typename"] == Str(tag)
    requires DecodesStruct(w, code, v, s.fields)
    ensures Decodes(w, code, v, Place(d.name))
  {
    assert DecodesDecl(w, code, v, d);
  }

  /* ---------- what references stand for ---------- */

  /** The scalars of the query language by their names, in either spelling of the scalar
      table: texts, truth values, integers and floats decode as such, any other scalar
      as any value. */
  lemma ScalarsDecode(w: World, code: seq<Decl>, v: Value, base: seq<string>, scalar: string, more: seq<string>)
    requires (base == ["Scalars"] || base == ["Types", "Scalars"]) && more != []
    ensures var r := PlainRust(Reference(Indexed(base, [scalar] + more)));
            && (scalar in {"String", "ID", "URL", "GlobalID", "PropertyId", "PropertyPublicID"} ==>
                  (Decodes(w, code, v, r) <==> v.Str?))
            && (scalar == "Boolean" ==> (Decodes(w, code, v, r) <==> v.Bool?))
            && (scalar == "Int" ==> (Decodes(w, code, v, r) <==> v.Number? && IsInt64(v.n)))
            && (scalar == "Float" ==> (Decodes(w, code, v, r) <==> v.Number?))
            && (var known := {"String", "ID", "URL", "GlobalID", "PropertyId", "PropertyPublicID", "Boolean", "Int"};
                scalar !in known && scalar != "Float" ==> Decodes(w, code, v, r))
  {}

  /** A reference to a shared type is resolved to the name that the type is declared by. */
  lemma SharedIsFound(types: seq<SharedType>, t: SharedType)
    requires t in types && t.name != "JsonMapType"
    ensures ResolveReference(["Types", t.name]).Shared?
    ensures ResolveReference(["Types", t.name]).name in NamesOf(SharedPlan(types))
  {
    hide Pascal, NamesOf, SharedPlan;
    assert ["Types", t.name][1..] == [t.name] && [t.name][1..] == [];
    assert PascalAll([t.name]) == Pascal(t.name) + PascalAll([]) == Pascal(t.name);
    TypeIsDeclared(types, t);
  }

  lemma {:induction false} TypeIsDeclared(types: seq<SharedType>, t: SharedType)
    requires t in types
    ensures Pascal(t.name) in NamesOf(SharedPlan(types))
  {
    hide Pascal, NamesOf, PlanFields, FieldCodes;
    var own, rest := SharedTypePlan(types[0]), SharedPlan(types[1..]);
    NamesAppend(own, rest);
    if t == types[0] { LastDeclares(t); } else { TypeIsDeclared(types[1..], t); }
  }

  lemma LastDeclares(t: SharedType)
    ensures Pascal(t.name) in NamesOf(SharedTypePlan(t))
  {
    hide Pascal, PlanFields, FieldCodes;
    var plan := SharedTypePlan(t);
    assert plan[|plan| - 1].name == Pascal(t.name) && plan[|plan| - 1] in plan;
  }
}

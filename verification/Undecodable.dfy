/** Where the generated declarations fall short: a union that loses values makes some
    value of every type around it undecodable, so the condition is exact. */
module Undecodable {
  import opened Text
  import opened TsAst
  import opened Names
  import opened Generator
  import opened GeneratorClosure
  import opened Decoding

  /* ---------- types with values ---------- */

  /** Every part of the type has a value, and no object has two fields of one name. */
  predicate Valued(t: TsType) {
    match t
    case Array(element) => Valued(element)
    case Nullable(inner) => Valued(inner)
    case Wrapped(_, inner) => Valued(inner)
    case StringUnion(values) => values != []
    case Union(alternatives) => alternatives != [] && forall a :: a in alternatives ==> Valued(a)
    case Object(fields) => ValuedFields(fields)
    case DiscriminatedUnion(_, variants) => variants != [] && forall x :: x in variants ==> ValuedVariant(x)
    case _ => true
  }

  predicate ValuedFields(fields: seq<TsField>) {
    fields != [] ==>
      && Valued(fields[0].fieldType) && (forall f :: f in fields[1..] ==> f.name != fields[0].name)
      && ValuedFields(fields[1..])
  }

  predicate ValuedVariant(x: TsObjectVariant) {
    ValuedFields(x.fields) && forall f :: f in x.fields ==> f.name != "__typename"
  }

  ghost predicate HasValue(w: World, r: TsReference) { exists v :: w.values(r, v) && Whole(v) }

  /** Every reference has a value, and no type from elsewhere decodes a truth value. */
  ghost predicate Populated(w: World) {
    && (forall r :: HasValue(w, r))
    && forall name :: !w.decodes(name, Bool(true))
  }

  /** Some value of a type. */
  lemma {:induction false} SomeValue(w: World, t: TsType) returns (v: Value)
    requires Valued(t) && Populated(w)
    ensures Inhabits(w, v, t) && Whole(v)
    decreases t, 1
  {
    match t
    case Primitive(StringType) => v := Str("");
    case Primitive(NumberType) => v := Number(0.0);
    case Primitive(BooleanType) => v := Bool(true);
    case Primitive(AnyType) => v := Null;
    case Array(_) => v := Arr([]);
    case Nullable(_) => v := Null;
    case Union(alternatives) =>
      v := SomeValue(w, alternatives[0]);
      assert alternatives[0] in alternatives;
    case StringUnion(values) =>
      v := Str(values[0]);
      assert values[0] in values;
    case Object(fields) =>
      var members := SomeMembers(w, fields);
      v := Obj(members);
    case Reference(r) =>
      assert HasValue(w, r);
      v :| w.values(r, v) && Whole(v);
    case Wrapped(_, inner) => v := SomeValue(w, inner);
    case DiscriminatedUnion(_, variants) => v := SomeTagged(w, t, variants[0]);
  }

  lemma {:induction false} SomeTagged(w: World, t: TsType, x: TsObjectVariant) returns (v: Value)
    requires t.DiscriminatedUnion? && x in t.variants && ValuedVariant(x) && Populated(w)
    ensures Inhabits(w, v, t) && Whole(v)
    decreases x, 1
  {
    hide InhabitsFields, ValuedFields, Whole;
    var members := SomeMembers(w, x.fields);
    v := Tagged(w, t, x, members);
  }

  /** Members with a tag. */
  lemma Tagged(w: World, t: TsType, x: TsObjectVariant, members: map<string, Value>) returns (v: Value)
    requires t.DiscriminatedUnion? && x in t.variants && InhabitsFields(w, members, x.fields) && Whole(Obj(members))
    requires forall f :: f in x.fields ==> f.name != "__typename"
    ensures v == Obj(members["__typename" := Str(x.typeName)]) && Inhabits(w, v, t) && Whole(v)
  {
    v := Obj(members["__typename" := Str(x.typeName)]);
    assert InhabitsVariant(w, v.members, x);
  }

  lemma {:induction false} SomeMembers(w: World, fields: seq<TsField>) returns (members: map<string, Value>)
    requires ValuedFields(fields) && Populated(w)
    ensures InhabitsFields(w, members, fields) && Whole(Obj(members))
    decreases fields, 0
  {
    hide Inhabits, Populated;
    if fields == [] {
      members := map[];
    } else {
      var f := fields[0];
      var rest := SomeMembers(w, fields[1..]);
      var v := SomeValue(w, f.fieldType);
      members := rest[f.name := v];
      assert fields == [f] + fields[1..];
    }
  }

  /* ---------- a value that is lost ---------- */

  /** A value that a primitive or a reference does not decode, and that is no list. */
  function Odd(r: RustType): Value {
    if r == Builtin("bool") then Str("") else Bool(true)
  }

  lemma OddIsOdd(w: World, code: seq<Decl>, t: TsType)
    requires (t.Primitive? || t.Reference?) && PlainRust(t) != Json && Populated(w)
    ensures !Decodes(w, code, Odd(PlainRust(t)), PlainRust(t))
    ensures !Decodes(w, code, Odd(PlainRust(t)), OneOrMany(PlainRust(t)))
  {}

  lemma UnionLoses(w: World, code: seq<Decl>, alternatives: seq<TsType>, op: string, path: seq<string>)
      returns (v: Value)
    requires LosesAny(alternatives) && Populated(w)
    ensures Inhabits(w, v, Union(alternatives)) && Whole(v) && !v.Null?
    ensures !Decodes(w, code, v, ToRust(Union(alternatives), op, path))
  {
    var kept := NotAny(alternatives);
    var inner := OneOrManyInner(kept[0], kept[1]).value;
    InnerIsPart(kept[0], kept[1]);
    PlainIsRust(inner, op, path);
    v := Odd(PlainRust(inner));
    OddIsOdd(w, code, inner);
    assert ToRust(Union(alternatives), op, path) == OneOrMany(PlainRust(inner));
    assert Inhabits(w, v, Primitive(AnyType));
  }

  /** A value of a type that loses some: it is whole, and it is not decoded. */
  ghost predicate Lost(w: World, code: seq<Decl>, v: Value, t: TsType, r: RustType) {
    Inhabits(w, v, t) && Whole(v) && !v.Null? && !Decodes(w, code, v, r)
  }

  lemma {:induction false} SimpleLoses(w: World, code: seq<Decl>, t: TsType, op: string, path: seq<string>)
      returns (v: Value)
    requires !IsPlace(t) && !KeepsAll(t) && Populated(w)
    ensures Lost(w, code, v, t, ToRust(t, op, path))
    decreases t
  {
    match t
    case Array(element) =>
      var x := SimpleLoses(w, code, element, op, path);
      v := Arr([x]);
      assert x in v.items;
    case Nullable(inner) => v := SimpleLoses(w, code, inner, op, path);
    case Wrapped(_, inner) => v := SimpleLoses(w, code, inner, op, path);
    case Union(alternatives) => v := UnionLoses(w, code, alternatives, op, path);
  }

  lemma {:induction false} TypeLoses(w: World, code: seq<Decl>, t: TsType, op: string, path: seq<string>)
      returns (v: Value)
    requires !KeepsAll(t) && Valued(t) && Populated(w) && Distinct(code)
    requires NothingHidden(t) && (IsPlace(t) ==> Reached(t)) && Declared(code, PlanType(t, op, path))
    ensures Lost(w, code, v, t, ToRust(t, op, path))
    decreases t, 1
  {
    if !IsPlace(t) {
      v := SimpleLoses(w, code, t, op, path);
    } else {
      PlanThrough(t, op, path);
      hide PlanType, PlanFields, PlanVariants, FieldCodes, VariantCodes, TypeName, Populated, DecodesDecl, Distinct;
      match t
      case Array(element) =>
        var x := TypeLoses(w, code, element, op, path);
        v := Arr([x]);
        assert x in v.items;
      case Nullable(inner) => v := TypeLoses(w, code, inner, op, path);
      case Wrapped(_, inner) => v := TypeLoses(w, code, inner, op, path);
      case Object(fields) =>
        ObjectPlan(fields, op, path);
        var members, f := RootLoses(w, code, TypeName(op, path), fields, op, path);
        v := Obj(members);
      case DiscriminatedUnion(_, variants) => v := TaggedLoses(w, code, t, op, path);
    }
  }

  /** The only declaration of a name. */
  lemma OneDecl(code: seq<Decl>, d: Decl, e: Decl)
    requires Distinct(code) && d in code && e in code && d.name == e.name
    ensures d == e
  {
    var i :| 0 <= i < |code| && code[i] == d;
    var j :| 0 <= j < |code| && code[j] == e;
  }

  lemma PlaceIs(w: World, code: seq<Decl>, v: Value, d: Decl)
    requires Distinct(code) && d in code
    ensures Decodes(w, code, v, Place(d.name)) <==> DecodesDecl(w, code, v, d)
  {
    hide Distinct, DecodesDecl;
    forall e | e in code && e.name == d.name ensures e == d { OneDecl(code, d, e); }
  }

  lemma {:induction false} RootLoses(w: World, code: seq<Decl>, name: string, fields: seq<TsField>, op: string,
                                     path: seq<string>) returns (members: map<string, Value>, f: TsField)
    requires !KeepsFields(fields) && ValuedFields(fields) && Populated(w) && Distinct(code)
    requires NoFieldHidden(fields) && Declared(code, RootPlan(name, fields, op, path))
    ensures InhabitsFields(w, members, fields) && Whole(Obj(members))
    ensures f in fields && f.name in members
    ensures Lost(w, code, members[f.name], f.fieldType, ToRust(f.fieldType, op, path + [f.name]))
    ensures !Decodes(w, code, Obj(members), Place(name))
    decreases fields, 0
  {
    hide PlanType, PlanFields, TypeName, Populated, Inhabits, KeepsAll, NothingHidden, IsPlace, Reached, ToRust,
         NullableLike,
         Distinct, Decodes, FieldCodes;
    f :| f in fields && !KeepsAll(f.fieldType);
    FieldPlan(fields, f, op, path);
    PartOf(fields, f);
    var v := TypeLoses(w, code, f.fieldType, op, path + [f.name]);
    var rest := SomeMembers(w, fields);
    members := rest[f.name := v];
    forall g | g in fields
      ensures if g.name in members then Inhabits(w, members[g.name], g.fieldType) else g.optional
    {
      if g.name == f.name { SameField(fields, f, g); }
    }
    var d := Struct(name, FieldCodes(fields, op, path));
    assert d in RootPlan(name, fields, op, path);
    StructFails(w, code, members, fields, f, v, op, path);
    PlaceIs(w, code, Obj(members), d);
  }

  lemma PartOf(fields: seq<TsField>, f: TsField)
    requires f in fields && ValuedFields(fields)
    ensures Valued(f.fieldType)
  {
    hide Valued;
    if f != fields[0] { PartOf(fields[1..], f); }
  }

  lemma {:induction false} SameField(fields: seq<TsField>, f: TsField, g: TsField)
    requires ValuedFields(fields) && f in fields && g in fields && f.name == g.name
    ensures f == g
  {
    hide Valued;
    if f in fields[1..] && g in fields[1..] { SameField(fields[1..], f, g); }
  }

  /** A struct does not decode when a field does not. */
  lemma StructFails(w: World, code: seq<Decl>, members: map<string, Value>, fields: seq<TsField>, f: TsField, v: Value,
                    op: string, path: seq<string>)
    requires f in fields && f.name in members && members[f.name] == v
    requires Lost(w, code, v, f.fieldType, ToRust(f.fieldType, op, path + [f.name]))
    ensures !DecodesStruct(w, code, Obj(members), FieldCodes(fields, op, path))
  {
    hide ToRust, Inhabits, Whole;
    var codes := FieldCodes(fields, op, path);
    var i :| 0 <= i < |fields| && fields[i] == f;
    assert codes[i] == FieldCode(f, op, path) && codes[i] in codes;
    assert !Decodes(w, code, v, codes[i].rustType);
  }

  lemma {:induction false} TaggedLoses(w: World, code: seq<Decl>, t: TsType, op: string, path: seq<string>)
      returns (v: Value)
    requires t.DiscriminatedUnion? && !KeepsAll(t) && Valued(t) && Populated(w) && Distinct(code)
    requires NothingHidden(t) && Declared(code, PlanType(t, op, path))
    ensures Lost(w, code, v, t, Place(TypeName(op, path)))
    decreases t, 0
  {
    hide *;
    UnionPlan(t, op, path);
    var d := TaggedEnum(TypeName(op, path), VariantCodes(t.variants, op, path));
    InCode(code, PlanVariants(t.variants, op, path), d);
    var x := LosingVariant(t);
    var inside := path + [x.typeName];
    var s := Struct(TypeName(op, inside), FieldCodes(x.fields, op, inside));
    VariantPlan(t.variants, x, op, path);
    DeclaredThrough(code, PlanVariants(t.variants, op, path), RootPlan(s.name, x.fields, op, inside));
    RootParts(code, s, x.fields, op, inside);
    VariantVisible(t, x);
    var members, f := RootLoses(w, code, s.name, x.fields, op, inside);
    v := Tagged(w, t, x, members);
    StructFails(w, code, v.members, x.fields, f, members[f.name], op, inside);
    TagFails(w, code, v, t, x, s, op, path);
    PlaceIs(w, code, v, d);
    IsLost(w, code, v, t, Place(d.name));
  }

  lemma LosingVariant(t: TsType) returns (x: TsObjectVariant)
    requires t.DiscriminatedUnion? && !KeepsAll(t) && Valued(t)
    ensures x in t.variants && !KeepsFields(x.fields) && ValuedFields(x.fields)
    ensures forall f :: f in x.fields ==> f.name != "__typename"
  {
    hide KeepsFields, ValuedFields;
    x :| x in t.variants && !KeepsFields(x.fields);
    assert ValuedVariant(x);
  }

  lemma IsLost(w: World, code: seq<Decl>, v: Value, t: TsType, r: RustType)
    requires Inhabits(w, v, t) && Whole(v) && v.Obj? && !Decodes(w, code, v, r)
    ensures Lost(w, code, v, t, r)
  {
    hide Inhabits, Whole, Decodes;
  }

  lemma TagFails(w: World, code: seq<Decl>, v: Value, t: TsType, x: TsObjectVariant, s: Decl, op: string,
                 path: seq<string>)
    requires t.DiscriminatedUnion? && Distinct(code) && s in code && s.Struct?
    requires s.name == TypeName(op, path + [x.typeName])
    requires v.Obj? && "__typename" in v.members && v.members["__typename"] == Str(x.typeName)
    requires !DecodesStruct(w, code, v, s.fields)
    ensures !DecodesDecl(w, code, v, TaggedEnum(TypeName(op, path), VariantCodes(t.variants, op, path)))
  {
    hide Distinct, DecodesStruct, TypeName;
    var codes := VariantCodes(t.variants, op, path);
    forall e | e in code && e.Struct? && (x.typeName, e.name) in codes ensures e == s {
      var i :| 0 <= i < |codes| && codes[i] == (x.typeName, e.name);
      assert t.variants[i].typeName == x.typeName;
      OneDecl(code, s, e);
    }
  }

  /* ---------- whole outputs ---------- */

  /** Every whole value of an object is decoded by the type of that name. */
  ghost predicate AllDecoded(w: World, code: seq<Decl>, fields: seq<TsField>, name: string) {
    forall v :: Inhabits(w, v, Object(fields)) && Whole(v) ==> Decodes(w, code, v, Place(name))
  }

  /** All values are decoded exactly when no union loses some; the one direction for any
      fields, the other when every type has values at all. */
  ghost predicate DecodedIfKept(w: World, code: seq<Decl>, fields: seq<TsField>, name: string) {
    && (KeepsFields(fields) ==> AllDecoded(w, code, fields, name))
    && (ValuedFields(fields) && Populated(w) ==> (AllDecoded(w, code, fields, name) ==> KeepsFields(fields)))
  }

  lemma RootExact(w: World, code: seq<Decl>, name: string, fields: seq<TsField>, op: string, path: seq<string>)
    requires Distinct(code) && Declared(code, RootPlan(name, fields, op, path)) && NoFieldHidden(fields) && Understood(w)
    ensures DecodedIfKept(w, code, fields, name)
  {
    hide InhabitsFields, KeepsFields, NoFieldHidden, Understood, Populated, ValuedFields, RootPlan, Declared,
         Distinct, Whole,
         Decodes;
    if KeepsFields(fields) {
      forall v | Inhabits(w, v, Object(fields)) && Whole(v) ensures Decodes(w, code, v, Place(name)) {
        RootDecodes(w, code, v, name, fields, op, path);
      }
    } else if ValuedFields(fields) && Populated(w) {
      var members, f := RootLoses(w, code, name, fields, op, path);
      assert Inhabits(w, Obj(members), Object(fields));
    }
  }

  /** The generated code decodes every value of the response, and of the variables,
      exactly when no union in them loses values; provided that all names are distinct
      and no object hides in a wrapper. */
  lemma OperationDecodes(w: World, op: string, variables: Option<TsType>, response: TsType)
    requires Distinct(OperationPlan(op, variables, response)) && Understood(w)
    requires VariablesVisible(variables) && ResponseVisible(response)
    ensures var code := Fresh(OperationPlan(op, variables, response), {});
            && (response.Object? ==> DecodedIfKept(w, code, response.fields, Pascal(op) + "Response"))
            && (VariablesPlan(op, variables) != [] ==>
                  DecodedIfKept(w, code, UnwrapExact(variables.value).fields, Pascal(op) + "Variables"))
  {
    hide DecodedIfKept, NoFieldHidden, Understood, RootPlan, Distinct, Fresh, Pascal;
    var plan := OperationPlan(op, variables, response);
    NothingDropped(plan, {});
    assert plan == VariablesPlan(op, variables) + ResponsePlan(op, response);
    if response.Object? { RootExact(w, plan, Pascal(op) + "Response", response.fields, op, []); }
    if VariablesPlan(op, variables) != [] {
      RootExact(w, plan, Pascal(op) + "Variables", UnwrapExact(variables.value).fields, op, []);
    }
  }

  lemma {:induction false} SharedDeclared(types: seq<SharedType>, t: SharedType)
    requires t in types
    ensures Declared(SharedPlan(types), SharedTypePlan(t))
  {
    hide SharedTypePlan;
    if t != types[0] { SharedDeclared(types[1..], t); }
  }

  /** The same for every shared type: an enum decodes its values, and a struct what its
      object has, exactly when no union in it loses values. */
  lemma SharedDecodes(w: World, types: seq<SharedType>, t: SharedType)
    requires Distinct(SharedPlan(types)) && Understood(w) && t in types && SharedVisible(t)
    ensures var code := Fresh(SharedPlan(types), {});
            match t
            case EnumType(name, values) =>
              forall v :: Decodes(w, code, v, Place(Pascal(name))) <==> Inhabits(w, v, StringUnion(values))
            case InputStruct(name, fields) => DecodedIfKept(w, code, fields, Pascal(name))
  {
    hide DecodedIfKept, NoFieldHidden, Understood, RootPlan, Distinct, Fresh, Pascal, SharedPlan;
    var code := SharedPlan(types);
    NothingDropped(code, {});
    SharedDeclared(types, t);
    match t
    case EnumType(name, values) =>
      var d := StringEnum(Pascal(name), values);
      assert d in SharedTypePlan(t);
      forall v ensures Decodes(w, code, v, Place(Pascal(name))) <==> Inhabits(w, v, StringUnion(values)) {
        PlaceIs(w, code, v, d);
      }
    case InputStruct(name, fields) => RootExact(w, code, Pascal(name), fields, "", [name]);
  }

  /** A type, its list, or `null`: the type that is written decodes no `null`. */
  lemma NullIsLost(w: World, code: seq<Decl>, op: string, path: seq<string>)
    ensures var text := Primitive(StringType);
            var t := Union([Array(text), text, Primitive(AnyType)]);
            && Inhabits(w, Null, t) && ToRust(t, op, path) == OneOrMany(Builtin("String"))
            && !Decodes(w, code, Null, ToRust(t, op, path))
  {
    var text := Primitive(StringType);
    var alternatives := [Array(text), text, Primitive(AnyType)];
    assert alternatives[1..] == [text, Primitive(AnyType)] && alternatives[1..][1..] == [Primitive(AnyType)];
    assert [Primitive(AnyType)][1..] == [] && NotAny([Primitive(AnyType)]) == [];
    assert NotAny([text, Primitive(AnyType)]) == [text] + [];
    assert NotAny(alternatives) == [Array(text), text];
    assert Primitive(AnyType) in alternatives && Inhabits(w, Null, Primitive(AnyType));
  }

  /** A number is decoded exactly when it is an integer of 64 bits. */
  lemma FractionsAreLost(w: World, code: seq<Decl>, n: real, op: string, path: seq<string>)
    ensures Inhabits(w, Number(n), Primitive(NumberType))
    ensures Decodes(w, code, Number(n), ToRust(Primitive(NumberType), op, path)) <==> IsInt64(n)
    ensures !IsInt64(0.5)
  {
    assert 0.5.Floor == 0;
  }
}

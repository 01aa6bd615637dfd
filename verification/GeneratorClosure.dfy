/** What the generated declarations are worth: no name twice, and no generated
    name used before it is declared. */
module GeneratorClosure {
  import opened Text
  import opened TsAst
  import opened Names
  import opened Generator

  /* ---------- names once ---------- */

  ghost predicate Distinct(code: seq<Decl>) {
    forall i, j :: 0 <= i < j < |code| ==> code[i].name != code[j].name
  }

  lemma {:induction false} FreshDistinct(plan: seq<Decl>, seen: set<string>)
    ensures Distinct(Fresh(plan, seen))
    ensures forall d :: d in Fresh(plan, seen) ==> d.name !in seen && d in plan
  {
    if plan != [] {
      FreshDistinct(plan[1..], seen);
      FreshDistinct(plan[1..], seen + {plan[0].name});
    }
  }

  lemma {:induction false} FreshNames(plan: seq<Decl>, seen: set<string>)
    ensures NamesOf(Fresh(plan, seen)) == NamesOf(plan) - seen
  {
    if plan != [] {
      assert plan == [plan[0]] + plan[1..];
      NamesAppend([plan[0]], plan[1..]);
      assert NamesOf([plan[0]]) == {plan[0].name};
      if plan[0].name in seen {
        FreshNames(plan[1..], seen);
      } else {
        FreshNames(plan[1..], seen + {plan[0].name});
        NamesAppend([plan[0]], Fresh(plan[1..], seen + {plan[0].name}));
      }
    }
  }

  /** A declaration is dropped exactly when its name was in use: all of a plan
      is written if and only if its names are new and distinct. */
  lemma {:induction false} NothingDropped(plan: seq<Decl>, seen: set<string>)
    ensures Fresh(plan, seen) == plan <==> Distinct(plan) && NamesOf(plan) !! seen
  {
    FreshDistinct(plan, seen);
    if Distinct(plan) && NamesOf(plan) !! seen {
      AllFresh(plan, seen);
    }
  }

  lemma {:induction false} AllFresh(plan: seq<Decl>, seen: set<string>)
    requires Distinct(plan) && NamesOf(plan) !! seen
    ensures Fresh(plan, seen) == plan
  {
    if plan != [] {
      assert plan[0] in plan && plan[0].name in NamesOf(plan);
      forall name | name in NamesOf(plan[1..]) ensures name !in seen + {plan[0].name} {
        var d :| d in plan[1..] && d.name == name;
        assert d in plan;
      }
      AllFresh(plan[1..], seen + {plan[0].name});
    }
  }

  /* ---------- used names ---------- */

  function PlaceOf(rust: RustType): Option<string> {
    match rust
    case Place(name) => Some(name)
    case Vec(item) => PlaceOf(item)
    case Opt(item) => PlaceOf(item)
    case OneOrMany(item) => PlaceOf(item)
    case _ => None
  }

  /** The declaration mentions a generated name. */
  predicate Mentions(d: Decl, name: string) {
    match d
    case Struct(_, fields) => exists i :: 0 <= i < |fields| && PlaceOf(fields[i].rustType) == Some(name)
    case TaggedEnum(_, variants) => exists i :: 0 <= i < |variants| && variants[i].1 == name
    case StringEnum(_, _) => false
  }

  ghost predicate Closed(plan: seq<Decl>) {
    forall i, name :: 0 <= i < |plan| && Mentions(plan[i], name) ==> name in NamesOf(plan[..i])
  }

  lemma ClosedAppendOne(plan: seq<Decl>, d: Decl)
    requires Closed(plan) && forall name :: Mentions(d, name) ==> name in NamesOf(plan)
    ensures Closed(plan + [d])
  {
    hide Mentions, NamesOf;
    var all := plan + [d];
    forall i, name | 0 <= i < |all| && Mentions(all[i], name) ensures name in NamesOf(all[..i]) {
      if i < |plan| { assert all[..i] == plan[..i] && all[i] == plan[i]; } else { assert all[..i] == plan; }
    }
  }

  /** Dropping repeated names leaves a closed list closed. */
  lemma {:induction false} FreshClosed(plan: seq<Decl>)
    requires Closed(plan)
    ensures Closed(Fresh(plan, {}))
  {
    if plan != [] {
      var n := |plan| - 1;
      var front, d := plan[..n], plan[n];
      assert plan == front + [d];
      assert forall i :: 0 <= i < n ==> front[i] == plan[i] && front[..i] == plan[..i];
      hide Mentions, NamesOf;
      FreshClosed(front);
      FreshAppend(front, [d], {});
      FreshNames(front, {});
      assert {} + NamesOf(front) == NamesOf(front) && NamesOf(front) - {} == NamesOf(front);
      FreshOne(d, NamesOf(front));
      if d.name in NamesOf(front) {
        assert Fresh(front, {}) + [] == Fresh(front, {});
      } else {
        ClosedAppendOne(Fresh(front, {}), d);
      }
    }
  }

  lemma FreshOne(d: Decl, seen: set<string>)
    ensures Fresh([d], seen) == if d.name in seen then [] else [d]
  {
    assert [d][1..] == [];
  }

  /* ---------- types whose mentions are declared ---------- */

  /** What is left of a type without lists, nulls and wrappers. */
  function Core(typ: TsType): TsType {
    match typ
    case Array(element) => Core(element)
    case Nullable(inner) => Core(inner)
    case Wrapped(_, inner) => Core(inner)
    case _ => typ
  }

  predicate IsPlace(typ: TsType) { Core(typ).Object? || Core(typ).DiscriminatedUnion? }

  /** No wrapper but `Maybe` stands between the type and its object. */
  predicate Reached(typ: TsType) {
    match typ
    case Array(element) => Reached(element)
    case Nullable(inner) => Reached(inner)
    case Wrapped(wrapper, inner) => IsMaybe(wrapper) && Reached(inner)
    case Object(_) => true
    case DiscriminatedUnion(_, _) => true
    case _ => false
  }

  /** No field of an emitted object has its own object hidden in a wrapper. */
  predicate NothingHidden(typ: TsType) {
    match typ
    case Array(element) => NothingHidden(element)
    case Nullable(inner) => NothingHidden(inner)
    case Wrapped(wrapper, inner) => IsMaybe(wrapper) ==> NothingHidden(inner)
    case Object(fields) => NoFieldHidden(fields)
    case DiscriminatedUnion(_, variants) => forall v :: v in variants ==> NoFieldHidden(v.fields)
    case Union(alternatives) => forall t :: t in alternatives ==> NothingHidden(t)
    case _ => true
  }

  predicate NoFieldHidden(fields: seq<TsField>) {
    forall f :: f in fields ==> (IsPlace(f.fieldType) ==> Reached(f.fieldType)) && NothingHidden(f.fieldType)
  }

  /** A field mentions the name of its place when there is an object under its
      lists, nulls and wrappers, and no generated name otherwise. */
  lemma {:induction false} MentionedPlace(typ: TsType, op: string, path: seq<string>)
    ensures PlaceOf(ToRust(typ, op, path)) == if IsPlace(typ) then Some(TypeName(op, path)) else None
  {
    hide TypeName, PascalAll;
    match typ
    case Array(element) => MentionedPlace(element, op, path);
    case Nullable(inner) => MentionedPlace(inner, op, path);
    case Wrapped(_, inner) => MentionedPlace(inner, op, path);
    case _ =>
  }

  lemma PlanThrough(typ: TsType, op: string, path: seq<string>)
    ensures typ.Array? ==> PlanType(typ, op, path) == PlanType(typ.element, op, path)
    ensures typ.Nullable? ==> PlanType(typ, op, path) == PlanType(typ.inner, op, path)
    ensures typ.Wrapped? && IsMaybe(typ.wrapper) ==> PlanType(typ, op, path) == PlanType(typ.wrapped, op, path)
    ensures typ.Wrapped? && !IsMaybe(typ.wrapper) ==> PlanType(typ, op, path) == []
  {
    hide PlanFields, PlanVariants, PlanAlternatives, TypeName;
  }

  lemma PlanEnds(typ: TsType, op: string, path: seq<string>)
    ensures typ.Object? ==>
              Struct(TypeName(op, path), FieldCodes(typ.fields, op, path)) in PlanType(typ, op, path)
    ensures typ.DiscriminatedUnion? ==>
              TaggedEnum(TypeName(op, path), VariantCodes(typ.variants, op, path)) in PlanType(typ, op, path)
  {
    hide PlanFields, PlanVariants, FieldCodes, VariantCodes, TypeName;
  }

  /** The mentioned declaration of a field is written with the field exactly when
      no wrapper but `Maybe` stands before its object. */
  lemma {:induction false} DeclaredWhenReached(typ: TsType, op: string, path: seq<string>)
    requires IsPlace(typ)
    ensures Reached(typ) <==> PlanType(typ, op, path) != []
    ensures Reached(typ) ==> TypeName(op, path) in NamesOf(PlanType(typ, op, path))
  {
    PlanThrough(typ, op, path);
    hide PlanFields, PlanVariants, PlanAlternatives, TypeName, PlanType;
    match typ
    case Array(element) => DeclaredWhenReached(element, op, path);
    case Nullable(inner) => DeclaredWhenReached(inner, op, path);
    case Wrapped(wrapper, inner) => if IsMaybe(wrapper) { DeclaredWhenReached(inner, op, path); }
    case Object(fields) =>
      PlanEnds(typ, op, path);
      assert Struct(TypeName(op, path), FieldCodes(fields, op, path)) in PlanType(typ, op, path);
    case DiscriminatedUnion(_, variants) =>
      PlanEnds(typ, op, path);
      assert TaggedEnum(TypeName(op, path), VariantCodes(variants, op, path)) in PlanType(typ, op, path);
    case _ =>
  }

  /** The mentions of a struct come from its fields' places. */
  lemma StructMentions(name: string, fields: seq<TsField>, op: string, path: seq<string>, plan: seq<Decl>)
    requires forall f :: f in fields && IsPlace(f.fieldType) ==> TypeName(op, path + [f.name]) in NamesOf(plan)
    ensures forall n :: Mentions(Struct(name, FieldCodes(fields, op, path)), n) ==> n in NamesOf(plan)
  {
    hide NamesOf, TypeName, IsPlace, ToRust;
    var codes := FieldCodes(fields, op, path);
    forall i | 0 <= i < |codes| && PlaceOf(codes[i].rustType).Some?
      ensures PlaceOf(codes[i].rustType).value in NamesOf(plan)
    {
      var f := fields[i];
      assert codes[i] == FieldCode(f, op, path) && f in fields;
      MentionedPlace(f.fieldType, op, path + [f.name]);
    }
  }

  /** What every part of the induction keeps: the list stays closed. */
  lemma {:induction false} TypeClosed(pre: seq<Decl>, typ: TsType, op: string, path: seq<string>)
    requires Closed(pre) && NothingHidden(typ)
    ensures Closed(pre + PlanType(typ, op, path))
    decreases typ, 0
  {
    PlanThrough(typ, op, path);
    hide Closed, NamesOf, TypeName, FieldCodes, VariantCodes, PlanFields, PlanVariants, PlanAlternatives, Mentions;
    match typ
    case Array(element) => TypeClosed(pre, element, op, path);
    case Nullable(inner) => TypeClosed(pre, inner, op, path);
    case Wrapped(wrapper, inner) =>
      if IsMaybe(wrapper) { TypeClosed(pre, inner, op, path); } else { assert pre + [] == pre; }
    case Object(fields) =>
      RootClosed(pre, TypeName(op, path), fields, op, path);
      assert PlanType(typ, op, path) == RootPlan(TypeName(op, path), fields, op, path);
    case DiscriminatedUnion(_, variants) =>
      VariantsClosed(pre, variants, op, path);
      var plan := PlanVariants(variants, op, path);
      var d := TaggedEnum(TypeName(op, path), VariantCodes(variants, op, path));
      EnumMentions(pre + plan, variants, op, path);
      ClosedAppendOne(pre + plan, d);
      assert pre + plan + [d] == pre + (plan + [d]);
    case Union(alternatives) =>
      AlternativesClosed(pre, alternatives, op, path);
    case _ =>
      assert pre + [] == pre;
  }

  lemma EnumMentions(plan: seq<Decl>, variants: seq<TsObjectVariant>, op: string, path: seq<string>)
    requires forall v :: v in variants ==> TypeName(op, path + [v.typeName]) in NamesOf(plan)
    ensures forall n :: Mentions(TaggedEnum(TypeName(op, path), VariantCodes(variants, op, path)), n) ==>
              n in NamesOf(plan)
  {
    hide NamesOf, TypeName;
    assert forall i :: 0 <= i < |variants| ==> variants[i] in variants;
  }

  lemma {:induction false} RootClosed(pre: seq<Decl>, name: string, fields: seq<TsField>, op: string,
                                      path: seq<string>)
    requires Closed(pre) && NoFieldHidden(fields)
    ensures Closed(pre + RootPlan(name, fields, op, path))
    decreases fields, 1
  {
    hide Closed, NamesOf, TypeName, FieldCodes, Mentions, IsPlace, PlanFields;
    FieldsClosed(pre, fields, op, path);
    var plan, d := PlanFields(fields, op, path), Struct(name, FieldCodes(fields, op, path));
    StructMentions(name, fields, op, path, pre + plan);
    ClosedAppendOne(pre + plan, d);
    assert pre + plan + [d] == pre + (plan + [d]);
  }

  lemma {:induction false} FieldsClosed(pre: seq<Decl>, fields: seq<TsField>, op: string, path: seq<string>)
    requires Closed(pre) && NoFieldHidden(fields)
    ensures Closed(pre + PlanFields(fields, op, path))
    ensures forall f :: f in fields && IsPlace(f.fieldType) ==>
              TypeName(op, path + [f.name]) in NamesOf(pre + PlanFields(fields, op, path))
    decreases fields, 0
  {
    hide Closed, NamesOf, TypeName, IsPlace, Reached, NothingHidden, PlanType, PlanFields;
    FieldsStep(fields, 0, op, path);
    if fields == [] {
      assert fields[0..] == [] && pre + [] == pre;
    } else {
      var f := fields[0];
      var own, rest := PlanType(f.fieldType, op, path + [f.name]), PlanFields(fields[1..], op, path);
      assert f in fields;
      TypeClosed(pre, f.fieldType, op, path + [f.name]);
      FieldsClosed(pre + own, fields[1..], op, path);
      assert pre + own + rest == pre + (own + rest);
      NamesAppend(pre, own);
      NamesAppend(pre + own, rest);
      if IsPlace(f.fieldType) { DeclaredWhenReached(f.fieldType, op, path + [f.name]); }
      forall g | g in fields && IsPlace(g.fieldType)
        ensures TypeName(op, path + [g.name]) in NamesOf(pre + own + rest)
      {
        assert g == f || g in fields[1..];
      }
    }
  }

  lemma {:induction false} VariantsClosed(pre: seq<Decl>, variants: seq<TsObjectVariant>, op: string,
                                          path: seq<string>)
    requires Closed(pre) && forall v :: v in variants ==> NoFieldHidden(v.fields)
    ensures Closed(pre + PlanVariants(variants, op, path))
    ensures forall v :: v in variants ==>
              TypeName(op, path + [v.typeName]) in NamesOf(pre + PlanVariants(variants, op, path))
    decreases variants, 0
  {
    hide Closed, NamesOf, TypeName, FieldCodes, NoFieldHidden, PlanFields, PlanVariants;
    VariantsStep(variants, 0, op, path);
    if variants == [] {
      assert variants[0..] == [] && pre + [] == pre;
    } else {
      var v := variants[0];
      var inside := path + [v.typeName];
      var own := RootPlan(TypeName(op, inside), v.fields, op, inside);
      var rest := PlanVariants(variants[1..], op, path);
      assert v in variants;
      RootClosed(pre, TypeName(op, inside), v.fields, op, inside);
      VariantsClosed(pre + own, variants[1..], op, path);
      assert pre + own + rest == pre + (own + rest);
      RootDeclares(TypeName(op, inside), v.fields, op, inside);
      NamesAppend(pre, own);
      NamesAppend(pre + own, rest);
      forall w | w in variants ensures TypeName(op, path + [w.typeName]) in NamesOf(pre + own + rest) {
        assert w == v || w in variants[1..];
      }
    }
  }

  lemma RootDeclares(name: string, fields: seq<TsField>, op: string, path: seq<string>)
    ensures name in NamesOf(RootPlan(name, fields, op, path))
  {
    assert Struct(name, FieldCodes(fields, op, path)) in RootPlan(name, fields, op, path);
  }

  lemma {:induction false} AlternativesClosed(pre: seq<Decl>, alternatives: seq<TsType>, op: string,
                                              path: seq<string>)
    requires Closed(pre) && forall t :: t in alternatives ==> NothingHidden(t)
    ensures Closed(pre + PlanAlternatives(alternatives, op, path))
    decreases alternatives, 0
  {
    hide Closed, PlanType, PlanAlternatives, NothingHidden;
    AlternativesStep(alternatives, 0, op, path);
    if alternatives == [] {
      assert alternatives[0..] == [] && pre + [] == pre;
    } else {
      var own, rest := PlanType(alternatives[0], op, path), PlanAlternatives(alternatives[1..], op, path);
      assert alternatives[0] in alternatives;
      TypeClosed(pre, alternatives[0], op, path);
      AlternativesClosed(pre + own, alternatives[1..], op, path);
      assert pre + own + rest == pre + (own + rest);
    }
  }

  /* ---------- whole outputs ---------- */

  predicate VariablesVisible(variables: Option<TsType>) {
    variables.Some? && UnwrapExact(variables.value).Object? ==> NoFieldHidden(UnwrapExact(variables.value).fields)
  }

  predicate ResponseVisible(response: TsType) { response.Object? ==> NoFieldHidden(response.fields) }

  /** The code of an operation declares every name once, and every generated
      name it uses before the use, when no field's object hides in a wrapper. */
  lemma OperationOutput(op: string, variables: Option<TsType>, response: TsType)
    ensures Distinct(Fresh(OperationPlan(op, variables, response), {}))
    ensures VariablesVisible(variables) && ResponseVisible(response) ==>
              Closed(Fresh(OperationPlan(op, variables, response), {}))
  {
    hide Closed, Distinct, RootPlan, Fresh, Pascal, NoFieldHidden;
    var plan := OperationPlan(op, variables, response);
    FreshDistinct(plan, {});
    if VariablesVisible(variables) && ResponseVisible(response) {
      NoneClosed();
      if VariablesPlan(op, variables) != [] {
        var fields := UnwrapExact(variables.value).fields;
        RootClosed([], Pascal(op) + "Variables", fields, op, []);
        assert [] + VariablesPlan(op, variables) == VariablesPlan(op, variables);
      }
      if response.Object? {
        RootClosed(VariablesPlan(op, variables), Pascal(op) + "Response", response.fields, op, []);
      } else {
        assert plan == VariablesPlan(op, variables);
      }
      FreshClosed(plan);
    }
  }

  lemma NoneClosed()
    ensures Closed([])
  {}

  predicate SharedVisible(shared: SharedType) {
    shared.InputStruct? ==> NoFieldHidden(shared.fields)
  }

  lemma SharedOutput(types: seq<SharedType>)
    ensures Distinct(Fresh(SharedPlan(types), {}))
    ensures (forall t :: t in types ==> SharedVisible(t)) ==> Closed(Fresh(SharedPlan(types), {}))
  {
    hide Closed, Distinct, Fresh, SharedPlan, SharedVisible;
    FreshDistinct(SharedPlan(types), {});
    if forall t :: t in types ==> SharedVisible(t) {
      NoneClosed();
      SharedClosed([], types);
      assert [] + SharedPlan(types) == SharedPlan(types);
      FreshClosed(SharedPlan(types));
    }
  }

  lemma {:induction false} SharedClosed(pre: seq<Decl>, types: seq<SharedType>)
    requires Closed(pre) && forall t :: t in types ==> SharedVisible(t)
    ensures Closed(pre + SharedPlan(types))
    decreases |types|
  {
    hide Closed, RootPlan, Pascal, NoFieldHidden;
    if types == [] {
      assert pre + [] == pre;
    } else {
      var own := SharedTypePlan(types[0]);
      assert types[0] in types;
      match types[0] {
        case EnumType(name, values) => EnumClosed(pre, StringEnum(Pascal(name), values));
        case InputStruct(name, fields) => RootClosed(pre, Pascal(name), fields, "", [name]);
      }
      SharedClosed(pre + own, types[1..]);
      assert pre + own + SharedPlan(types[1..]) == pre + (own + SharedPlan(types[1..]));
    }
  }

  lemma EnumClosed(pre: seq<Decl>, d: Decl)
    requires Closed(pre) && d.StringEnum?
    ensures Closed(pre + [d])
  {
    hide Closed;
    ClosedAppendOne(pre, d);
  }

  lemma ResponseLast(op: string, variables: Option<TsType>, fields: seq<TsField>)
    ensures OperationPlan(op, variables, Object(fields)) ==
            VariablesPlan(op, variables) + PlanFields(fields, op, [])
            + [Struct(Pascal(op) + "Response", FieldCodes(fields, op, []))]
    ensures VariablesPlan(op, None) == []
  {
    hide PlanFields, FieldCodes, Pascal;
  }

  /** The struct of the whole response is missing exactly when a type inside,
      or a type of the variables, was given its name. */
  lemma ResponseDropped(op: string, variables: Option<TsType>, fields: seq<TsField>)
    ensures var before := VariablesPlan(op, variables) + PlanFields(fields, op, []);
            var name := Pascal(op) + "Response";
            && OperationPlan(op, variables, Object(fields)) ==
               before + [Struct(name, FieldCodes(fields, op, []))]
            && (Fresh(before + [Struct(name, FieldCodes(fields, op, []))], {}) == Fresh(before, {})
                <==> name in NamesOf(before))
  {
    var before := VariablesPlan(op, variables) + PlanFields(fields, op, []);
    var d := Struct(Pascal(op) + "Response", FieldCodes(fields, op, []));
    hide *;
    ResponseLast(op, variables, fields);
    FreshAppend(before, [d], {});
    FreshOne(d, {} + NamesOf(before));
    assert {} + NamesOf(before) == NamesOf(before);
    if d.name in NamesOf(before) {
      assert Fresh(before, {}) + [] == Fresh(before, {});
    } else {
      assert |Fresh(before, {}) + [d]| != |Fresh(before, {})|;
    }
  }

  /** Any object field called `response` takes the name of the whole response. */
  lemma ResponseFieldShadows(op: string, fields: seq<TsField>, f: TsField)
    requires f in fields && Pascal(f.name) == "Response" && Reached(f.fieldType)
    ensures Fresh(OperationPlan(op, None, Object(fields)), {}) == Fresh(PlanFields(fields, op, []), {})
  {
    ResponseDropped(op, None, fields);
    hide Fresh, Pascal, PlanFields;
    ReachedIsPlace(f.fieldType);
    DeclaredWhenReached(f.fieldType, op, [f.name]);
    FieldPlanned(fields, f, op, []);
    assert [] + [f.name] == [f.name];
    assert [] + PlanFields(fields, op, []) == PlanFields(fields, op, []);
    NameExtends(op, [], f.name);
  }

  /** What a field's type declares is declared with the object. */
  lemma {:induction false} FieldPlanned(fields: seq<TsField>, f: TsField, op: string, path: seq<string>)
    requires f in fields
    ensures NamesOf(PlanType(f.fieldType, op, path + [f.name])) <= NamesOf(PlanFields(fields, op, path))
  {
    hide PlanType, NamesOf;
    NamesAppend(PlanType(fields[0].fieldType, op, path + [fields[0].name]), PlanFields(fields[1..], op, path));
    if f != fields[0] { FieldPlanned(fields[1..], f, op, path); }
  }

  lemma {:induction false} ReachedIsPlace(typ: TsType)
    requires Reached(typ)
    ensures IsPlace(typ)
  {
    match typ
    case Array(element) => ReachedIsPlace(element);
    case Nullable(inner) => ReachedIsPlace(inner);
    case Wrapped(_, inner) => ReachedIsPlace(inner);
    case _ =>
  }

  /* ---------- hidden places ---------- */

  /** The names of the places that emitted fields mention through a wrapper. */
  function Hidden(typ: TsType, op: string, path: seq<string>): set<string>
    decreases typ
  {
    match typ
    case Array(element) => Hidden(element, op, path)
    case Nullable(inner) => Hidden(inner, op, path)
    case Wrapped(wrapper, inner) => if IsMaybe(wrapper) then Hidden(inner, op, path) else {}
    case Object(fields) => HiddenFields(fields, op, path)
    case DiscriminatedUnion(_, variants) => HiddenVariants(variants, op, path)
    case Union(alternatives) => HiddenAlternatives(alternatives, op, path)
    case _ => {}
  }

  function HiddenFields(fields: seq<TsField>, op: string, path: seq<string>): set<string>
    decreases fields
  {
    if fields == [] then {}
    else HiddenField(fields[0], op, path) + Hidden(fields[0].fieldType, op, path + [fields[0].name])
         + HiddenFields(fields[1..], op, path)
  }

  function HiddenField(f: TsField, op: string, path: seq<string>): set<string> {
    if IsPlace(f.fieldType) && !Reached(f.fieldType) then {TypeName(op, path + [f.name])} else {}
  }

  function HiddenVariants(variants: seq<TsObjectVariant>, op: string, path: seq<string>): set<string>
    decreases variants
  {
    if variants == [] then {}
    else HiddenFields(variants[0].fields, op, path + [variants[0].typeName]) + HiddenVariants(variants[1..], op, path)
  }

  function HiddenAlternatives(alternatives: seq<TsType>, op: string, path: seq<string>): set<string>
    decreases alternatives
  {
    if alternatives == [] then {}
    else Hidden(alternatives[0], op, path) + HiddenAlternatives(alternatives[1..], op, path)
  }

  /** Some declaration of the list mentions the name. */
  ghost predicate MentionedIn(plan: seq<Decl>, name: string) {
    exists d :: d in plan && Mentions(d, name)
  }

  lemma MentionedMore(a: seq<Decl>, b: seq<Decl>)
    ensures forall n :: MentionedIn(a, n) || MentionedIn(b, n) ==> MentionedIn(a + b, n)
  {
    hide Mentions;
    forall n | MentionedIn(a, n) || MentionedIn(b, n) ensures MentionedIn(a + b, n) {
      var d :| (d in a || d in b) && Mentions(d, n);
      assert d in a + b;
    }
  }

  lemma MentionsField(name: string, fields: seq<TsField>, op: string, path: seq<string>, f: TsField)
    requires f in fields && IsPlace(f.fieldType)
    ensures Mentions(Struct(name, FieldCodes(fields, op, path)), TypeName(op, path + [f.name]))
  {
    hide TypeName, IsPlace, ToRust;
    var i :| 0 <= i < |fields| && fields[i] == f;
    assert FieldCodes(fields, op, path)[i] == FieldCode(f, op, path);
    MentionedPlace(f.fieldType, op, path + [f.name]);
  }

  /** A hidden place is mentioned, and there is one exactly when something is hidden. */
  lemma {:induction false} HiddenIn(typ: TsType, op: string, path: seq<string>)
    ensures forall n :: n in Hidden(typ, op, path) ==> MentionedIn(PlanType(typ, op, path), n)
    ensures Hidden(typ, op, path) == {} <==> NothingHidden(typ)
    decreases typ, 0
  {
    PlanThrough(typ, op, path);
    hide MentionedIn, TypeName, FieldCodes, VariantCodes, PlanFields, PlanVariants, PlanAlternatives, NoFieldHidden;
    match typ
    case Array(element) => HiddenIn(element, op, path);
    case Nullable(inner) => HiddenIn(inner, op, path);
    case Wrapped(wrapper, inner) => if IsMaybe(wrapper) { HiddenIn(inner, op, path); }
    case Object(fields) =>
      HiddenInRoot(TypeName(op, path), fields, op, path);
      assert PlanType(typ, op, path) == RootPlan(TypeName(op, path), fields, op, path);
    case DiscriminatedUnion(_, variants) =>
      HiddenInVariants(variants, op, path);
      var d := TaggedEnum(TypeName(op, path), VariantCodes(variants, op, path));
      MentionedMore(PlanVariants(variants, op, path), [d]);
    case Union(alternatives) => HiddenInAlternatives(alternatives, op, path);
    case _ =>
  }

  lemma {:induction false} HiddenInRoot(name: string, fields: seq<TsField>, op: string, path: seq<string>)
    ensures forall n :: n in HiddenFields(fields, op, path) ==> MentionedIn(RootPlan(name, fields, op, path), n)
    ensures HiddenFields(fields, op, path) == {} <==> NoFieldHidden(fields)
    decreases fields, 1
  {
    hide MentionedIn, TypeName, FieldCodes, PlanFields, NoFieldHidden;
    var own, d := PlanFields(fields, op, path), Struct(name, FieldCodes(fields, op, path));
    HiddenInFields(fields, fields, name, op, path);
    MentionedMore(own, [d]);
  }

  /** The fields still to come, of a struct with all the fields. */
  lemma {:induction false} HiddenInFields(fields: seq<TsField>, all: seq<TsField>, name: string, op: string,
                                          path: seq<string>)
    requires forall f :: f in fields ==> f in all
    ensures forall n :: n in HiddenFields(fields, op, path) ==>
              MentionedIn(PlanFields(fields, op, path), n)
              || MentionedIn([Struct(name, FieldCodes(all, op, path))], n)
    ensures HiddenFields(fields, op, path) == {} <==> NoFieldHidden(fields)
    decreases fields, 0
  {
    hide MentionedIn, TypeName, FieldCodes, PlanType, Hidden, IsPlace, Reached, NothingHidden;
    if fields != [] {
      var f, rest := fields[0], fields[1..];
      assert fields == [f] + rest;
      HiddenIn(f.fieldType, op, path + [f.name]);
      HiddenInFields(rest, all, name, op, path);
      MentionedMore(PlanType(f.fieldType, op, path + [f.name]), PlanFields(rest, op, path));
      HiddenMentioned(f, all, name, op, path);
    }
  }

  lemma HiddenMentioned(f: TsField, all: seq<TsField>, name: string, op: string, path: seq<string>)
    requires f in all
    ensures forall n :: n in HiddenField(f, op, path) ==> MentionedIn([Struct(name, FieldCodes(all, op, path))], n)
  {
    hide Mentions, TypeName, FieldCodes, IsPlace, Reached;
    if IsPlace(f.fieldType) {
      MentionsField(name, all, op, path, f);
      var d := Struct(name, FieldCodes(all, op, path));
      assert d in [d];
    }
  }

  lemma {:induction false} HiddenInVariants(variants: seq<TsObjectVariant>, op: string, path: seq<string>)
    ensures forall n :: n in HiddenVariants(variants, op, path) ==> MentionedIn(PlanVariants(variants, op, path), n)
    ensures HiddenVariants(variants, op, path) == {} <==> forall v :: v in variants ==> NoFieldHidden(v.fields)
    decreases variants, 0
  {
    hide MentionedIn, TypeName, FieldCodes, PlanFields, HiddenFields, NoFieldHidden;
    if variants != [] {
      var v, rest := variants[0], variants[1..];
      var inside := path + [v.typeName];
      assert variants == [v] + rest;
      HiddenInRoot(TypeName(op, inside), v.fields, op, inside);
      HiddenInVariants(rest, op, path);
      MentionedMore(RootPlan(TypeName(op, inside), v.fields, op, inside), PlanVariants(rest, op, path));
    }
  }

  lemma {:induction false} HiddenInAlternatives(alternatives: seq<TsType>, op: string, path: seq<string>)
    ensures forall n :: n in HiddenAlternatives(alternatives, op, path) ==>
              MentionedIn(PlanAlternatives(alternatives, op, path), n)
    ensures HiddenAlternatives(alternatives, op, path) == {} <==> forall t :: t in alternatives ==> NothingHidden(t)
    decreases alternatives, 0
  {
    hide MentionedIn, PlanType, Hidden, NothingHidden;
    if alternatives != [] {
      var t, rest := alternatives[0], alternatives[1..];
      assert alternatives == [t] + rest;
      HiddenIn(t, op, path);
      HiddenInAlternatives(rest, op, path);
      MentionedMore(PlanType(t, op, path), PlanAlternatives(rest, op, path));
    }
  }

  /** A kept declaration that mentions a name declared nowhere leaves the code open. */
  lemma HiddenIsUndeclared(plan: seq<Decl>, d: Decl, name: string)
    requires d in Fresh(plan, {}) && Mentions(d, name) && name !in NamesOf(plan)
    ensures !Closed(Fresh(plan, {}))
  {
    hide Mentions, Fresh;
    var code := Fresh(plan, {});
    FreshDistinct(plan, {});
    var i :| 0 <= i < |code| && code[i] == d;
    assert forall e :: e in code[..i] ==> e in code;
  }

  /** With distinct names, a list whose hidden places are declared nowhere is closed
      only if it has none. */
  lemma OpenWhenHidden(plan: seq<Decl>, hidden: set<string>)
    requires Distinct(plan) && hidden !! NamesOf(plan)
    requires forall n :: n in hidden ==> MentionedIn(plan, n)
    requires Closed(Fresh(plan, {}))
    ensures hidden == {}
  {
    hide Distinct, Fresh, Closed, Mentions, NamesOf;
    NothingDropped(plan, {});
    if hidden != {} {
      var n :| n in hidden;
      var d :| d in plan && Mentions(d, n);
      HiddenIsUndeclared(plan, d, n);
    }
  }

  function OperationHidden(op: string, variables: Option<TsType>, response: TsType): set<string> {
    (if variables.Some? && UnwrapExact(variables.value).Object?
     then HiddenFields(UnwrapExact(variables.value).fields, op, []) else {})
    + (if response.Object? then HiddenFields(response.fields, op, []) else {})
  }

  /** The code of an operation declares every generated name before its use exactly
      when no field's object hides in a wrapper, at any depth of the variables and
      the response; provided that all names are distinct and none is shared with a
      hidden place. */
  lemma ClosedWhenVisible(op: string, variables: Option<TsType>, response: TsType)
    requires Distinct(OperationPlan(op, variables, response))
    requires OperationHidden(op, variables, response) !! NamesOf(OperationPlan(op, variables, response))
    ensures Closed(Fresh(OperationPlan(op, variables, response), {}))
            <==> VariablesVisible(variables) && ResponseVisible(response)
  {
    hide Closed, Distinct, RootPlan, Fresh, Pascal, NoFieldHidden, MentionedIn, NamesOf, HiddenFields;
    OperationOutput(op, variables, response);
    var first, second := VariablesPlan(op, variables), ResponsePlan(op, response);
    MentionedMore(first, second);
    if variables.Some? && UnwrapExact(variables.value).Object? {
      HiddenInRoot(Pascal(op) + "Variables", UnwrapExact(variables.value).fields, op, []);
      NoFields(op);
    }
    if response.Object? { HiddenInRoot(Pascal(op) + "Response", response.fields, op, []); }
    if Closed(Fresh(first + second, {})) {
      OpenWhenHidden(first + second, OperationHidden(op, variables, response));
    }
  }

  lemma NoFields(op: string)
    ensures HiddenFields([], op, []) == {}
  {}

  function SharedHidden(types: seq<SharedType>): set<string> {
    if types == [] then {}
    else (if types[0].InputStruct? then HiddenFields(types[0].fields, "", [types[0].name]) else {})
         + SharedHidden(types[1..])
  }

  lemma {:induction false} HiddenInShared(types: seq<SharedType>)
    ensures forall n :: n in SharedHidden(types) ==> MentionedIn(SharedPlan(types), n)
    ensures SharedHidden(types) == {} <==> forall t :: t in types ==> SharedVisible(t)
  {
    hide RootPlan, Pascal, NoFieldHidden, MentionedIn, HiddenFields;
    if types != [] {
      var t, rest := types[0], types[1..];
      assert types == [t] + rest;
      HiddenInShared(rest);
      MentionedMore(SharedTypePlan(t), SharedPlan(rest));
      if t.InputStruct? { HiddenInRoot(Pascal(t.name), t.fields, "", [t.name]); }
      var own := if t.InputStruct? then HiddenFields(t.fields, "", [t.name]) else {};
      assert SharedHidden(types) == own + SharedHidden(rest);
      assert own == {} <==> SharedVisible(t);
    }
  }

  /** The same for the shared types. */
  lemma SharedClosedWhenVisible(types: seq<SharedType>)
    requires Distinct(SharedPlan(types)) && SharedHidden(types) !! NamesOf(SharedPlan(types))
    ensures Closed(Fresh(SharedPlan(types), {})) <==> forall t :: t in types ==> SharedVisible(t)
  {
    hide Closed, Distinct, Fresh, SharedPlan, SharedHidden, SharedVisible, MentionedIn, NamesOf;
    SharedOutput(types);
    HiddenInShared(types);
    if Closed(Fresh(SharedPlan(types), {})) { OpenWhenHidden(SharedPlan(types), SharedHidden(types)); }
  }
}

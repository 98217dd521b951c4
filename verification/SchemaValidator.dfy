/** A validator for the keywords that matter here, which meets everything the results about flattening ask of one. */
module SchemaValidator {
  import opened Options
  import opened SchemaFlatten
  import opened SchemaMeaning
  import opened SchemaReferences

  predicate HasType(t: Json, x: Json) {
    && (t == Str("object") ==> x.Obj?) && (t == Str("string") ==> x.Str?) && (t == Str("array") ==> x.Arr?)
    && (t == Str("number") ==> x.Num?) && (t == Str("boolean") ==> x.Bool?) && (t == Str("null") ==> x.Null?)
  }

  function Items(s: Json, key: string): seq<Json> {
    var v := Get(s, key);
    if v.Some? && v.value.Arr? then v.value.items else []
  }

  predicate HasItems(s: Json, key: string) { Get(s, key).Some? && Get(s, key).value.Arr? }

  /** `const`, `enum`, `type`, `properties`, `required`, `oneOf`, `anyOf` and references into the definitions of
      `root`; other keywords accept everything. A definition is read as it stands: with `follow` false a reference
      is one of those other keywords. */
  ghost predicate Valid(root: Object, follow: bool, s: Json, x: Json)
    decreases x, follow, s
  {
    if !s.Obj? then true
    else if follow && HasReference(s) then
      Respects(s.fields, x) && (Resolve(root, s).Some? ==> Valid(root, false, Obj(Resolve(root, s).value), x))
    else
      && Respects(s.fields, x)
      && ("type" in s.fields ==> HasType(s.fields["type"], x))
      && (x.Obj? ==> forall k :: k in Props(s.fields) && k in x.fields ==> Valid(root, true, Props(s.fields)[k], x.fields[k]))
      && RequiredHold(s.fields, x)
      && (HasItems(s, "oneOf") ==>
            && (exists i :: 0 <= i < |Items(s, "oneOf")| && Valid(root, follow, Items(s, "oneOf")[i], x))
            && (forall i, j :: 0 <= i < j < |Items(s, "oneOf")| ==>
                !(Valid(root, follow, Items(s, "oneOf")[i], x) && Valid(root, follow, Items(s, "oneOf")[j], x))))
      && (HasItems(s, "anyOf") ==> exists i :: 0 <= i < |Items(s, "anyOf")| && Valid(root, follow, Items(s, "anyOf")[i], x))
  }

  ghost function Draft(root: Object): Semantics {
    Semantics((s: Json, x: Json) => Valid(root, true, s, x), HasType, Respects)
  }

  /** A schema that is only a `const`. */
  lemma ConstHolds(root: Object, c: Json, x: Json)
    ensures Valid(root, true, Obj(map["const" := c]), x) <==> x == c
  {
  }

  /** For an object schema the validator unfolds to what the results about flattening spell out. */
  lemma ValidIsAccepted(root: Object, follow: bool, m: Object, x: Json)
    requires if follow then !HasReference(Obj(m)) else VariantsKey(m) == None
    ensures Valid(root, follow, Obj(m), x) <==> Draft(root).Accepts(m, x)
  {
    var sem, s := Draft(root), Obj(m);
    assert forall a, b :: sem.valid(a, b) == Valid(root, true, a, b);
    var rest := m - SPELLED_OUT;
    assert ("const" in rest <==> "const" in m) && ("enum" in rest <==> "enum" in m);
    assert sem.other(rest, x) <==> Respects(m, x);
    assert sem.PropertiesHold(m, x) <==>
      (x.Obj? ==> forall k :: k in Props(s.fields) && k in x.fields ==> Valid(root, true, Props(s.fields)[k], x.fields[k]));
    UnionsUnfold(root, m, x);
  }

  lemma UnionsUnfold(root: Object, m: Object, x: Json)
    ensures var s, sem := Obj(m), Draft(root); sem.UnionsHold(m, x) <==>
      && (HasItems(s, "oneOf") ==> sem.Some1(Items(s, "oneOf"), x) && sem.AtMost1(Items(s, "oneOf"), x))
      && (HasItems(s, "anyOf") ==> sem.Some1(Items(s, "anyOf"), x))
  {
  }

  lemma StringsHold(values: seq<string>, x: Json)
    ensures x in Strings(values).items <==> x.Str? && x.s in values
  {
    var items := Strings(values).items;
    if x.Str? && x.s in values {
      var i :| 0 <= i < |values| && values[i] == x.s;
      assert items[i] == x;
    }
  }

  lemma TagSchemaHolds(root: Object, values: seq<string>, x: Json)
    ensures Valid(root, true, TagSchema(values), x) <==> x.Str? && x.s in values
  {
    var m := TagSchema(values).fields;
    StringsHold(values, x);
    assert m["enum"] == Strings(values) && m["type"] == Str("string") && "$ref" !in m;
    assert "const" !in m && "properties" !in m && "required" !in m && "oneOf" !in m && "anyOf" !in m;
  }

  /** What the results ask of every validator. */
  lemma DraftIsSound(root: Object)
    ensures Draft(root).Sound()
  {
    var sem := Draft(root);
    forall values, x
      ensures sem.valid(TagSchema(values), x) <==> x.Str? && x.s in values
    {
      TagSchemaHolds(root, values, x);
    }
  }

  /** A variant that is written out, or nothing but a reference to a definition without a union of its own. */
  predicate Plain(schema: Object, v: Json) {
    HasReference(v) ==>
      && "const" !in v.fields && "enum" !in v.fields
      && (Resolve(schema, v).Some? ==> VariantsKey(Resolve(schema, v).value) == None)
  }

  /** And what they ask for a given schema. */
  lemma DraftIsCoherent(schema: Object)
    requires forall i :: 0 <= i < |Variants(schema)| ==> Plain(schema, Variants(schema)[i])
    ensures Draft(schema).Coherent(schema)
  {
    var sem, variants := Draft(schema), Variants(schema);
    forall i, x | 0 <= i < |variants| && Resolve(schema, variants[i]).Some?
      ensures sem.valid(variants[i], x) <==> sem.Accepts(Resolve(schema, variants[i]).value, x)
    {
      assert Plain(schema, variants[i]);
      VariantIsAccepted(schema, variants[i], x);
    }
  }

  lemma VariantIsAccepted(schema: Object, v: Json, x: Json)
    requires Plain(schema, v) && Resolve(schema, v).Some?
    ensures Valid(schema, true, v, x) <==> Draft(schema).Accepts(Resolve(schema, v).value, x)
  {
    if HasReference(v) {
      ValidIsAccepted(schema, false, Resolve(schema, v).value, x);
    } else {
      assert v == Obj(v.fields);
      ValidIsAccepted(schema, true, v.fields, x);
    }
  }

  /** So a reference to a definition means the definition. */
  lemma ReferenceIsDefinition(schema: Object, path: string, name: string, x: Json)
    requires '/' !in name && "definitions" in schema && schema["definitions"].Obj?
    requires name in schema["definitions"].fields && schema["definitions"].fields[name].Obj?
    requires VariantsKey(schema["definitions"].fields[name].fields) == None
    ensures Draft(schema).valid(Reference(path + "/" + name), x)
       <==> Draft(schema).Accepts(schema["definitions"].fields[name].fields, x)
  {
    ReferenceResolves(schema, path, name);
    VariantIsAccepted(schema, Reference(path + "/" + name), x);
  }
}

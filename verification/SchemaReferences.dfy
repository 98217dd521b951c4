/** Variants given by reference: what they resolve to, and that writing them out in place changes nothing. */
module SchemaReferences {
  import opened Options
  import opened SchemaFlatten
  import opened SchemaMeaning

  /** The last segment of a path is what follows its last slash. */
  lemma {:induction false} LastSegmentOf(path: string, name: string)
    requires '/' !in name
    ensures LastSegment(path + "/" + name) == name && LastSegment(name) == name
  {
    var p := path + "/" + name;
    if name == "" {
      assert p[|p| - 1] == '/';
    } else {
      var n := |name| - 1;
      var init := name[..n];
      assert name[n] in name && forall c :: c in init ==> c in name;
      LastSegmentOf(path, init);
      assert p[..|p| - 1] == path + "/" + init && p[|p| - 1] == name[n];
      assert name == init + [name[n]];
    }
  }

  function Reference(path: string): Json { Obj(map["$ref" := Str(path)]) }

  /** A reference resolves to the object under its name in `definitions`, and to nothing if there is none. */
  lemma ReferenceResolves(schema: Object, path: string, name: string)
    requires '/' !in name
    ensures "definitions" !in schema ==> Resolve(schema, Reference(path + "/" + name)) == None
    ensures "definitions" in schema && schema["definitions"].Obj? ==>
      var definitions := schema["definitions"].fields;
      Resolve(schema, Reference(path + "/" + name)) ==
        if name in definitions && definitions[name].Obj? then Some(definitions[name].fields) else None
  {
    LastSegmentOf(path, name);
  }

  // ---------------------------------------------------------------- written out in place

  predicate HasReference(variant: Json) { Get(variant, "$ref").Some? && Get(variant, "$ref").value.Str? }

  /** `v` with what it refers to in its place. */
  function WrittenOut(schema: Object, v: Json): Json {
    var r := Resolve(schema, v);
    if r.Some? then Obj(r.value) else v
  }

  function AllWrittenOut(schema: Object, variants: seq<Json>): seq<Json> {
    seq(|variants|, i requires 0 <= i < |variants| => WrittenOut(schema, variants[i]))
  }

  /** The schema with its variants written out. */
  function InPlace(schema: Object): Object {
    var key := VariantsKey(schema);
    if key.Some? && schema[key.value].Arr? then schema[key.value := Arr(AllWrittenOut(schema, schema[key.value].items))]
    else schema
  }

  /** What the variants refer to are schemas, not references again. */
  ghost predicate OneStep(schema: Object, variants: seq<Json>) {
    forall i :: 0 <= i < |variants| && Resolve(schema, variants[i]).Some? ==>
      !HasReference(Obj(Resolve(schema, variants[i]).value))
  }

  lemma InPlaceKeeps(schema: Object)
    ensures VariantsKey(InPlace(schema)) == VariantsKey(schema)
    ensures Variants(InPlace(schema)) == AllWrittenOut(schema, Variants(schema))
    ensures Found(InPlace(schema), "definitions") == Found(schema, "definitions")
    ensures InPlace(schema) - {"oneOf", "anyOf"} == schema - {"oneOf", "anyOf"}
  {
  }

  lemma WrittenOutResolves(schema: Object, schema': Object, v: Json)
    requires Found(schema', "definitions") == Found(schema, "definitions")
    requires Resolve(schema, v).Some? ==> !HasReference(Obj(Resolve(schema, v).value))
    ensures Resolve(schema', WrittenOut(schema, v)) == Resolve(schema, v)
  {
  }

  lemma {:induction false} SameResolved(schema: Object, schema': Object, variants: seq<Json>)
    requires Found(schema', "definitions") == Found(schema, "definitions") && OneStep(schema, variants)
    ensures Resolved(schema', AllWrittenOut(schema, variants)) == Resolved(schema, variants)
  {
    if variants != [] {
      var n := |variants| - 1;
      SameResolved(schema, schema', variants[..n]);
      assert AllWrittenOut(schema, variants)[..n] == AllWrittenOut(schema, variants[..n]);
      WrittenOutResolves(schema, schema', variants[n]);
    }
  }

  /** Flattening a schema of references gives what flattening it with the definitions written out gives: the same
      tag, the same fields, the same tag strings. */
  lemma FlattenFollowsReferences(order: Order, schema: Object)
    requires OneStep(schema, Variants(schema))
    ensures Tag(order, InPlace(schema)) == Tag(order, schema)
    ensures Tag(order, schema).Some? ==> Flat(order, InPlace(schema)) == Flat(order, schema)
    ensures Tag(order, schema).None? ==> Flat(order, InPlace(schema)) == InPlace(schema)
  {
    InPlaceKeeps(schema);
    SameResolved(schema, InPlace(schema), Variants(schema));
    var resolved := Resolved(schema, Variants(schema));
    if Tag(order, schema).Some? {
      FlatFromRest(schema, InPlace(schema), resolved, Tag(order, schema).value);
    }
  }

  lemma FlatFromRest(schema: Object, schema': Object, resolved: seq<Object>, tag: string)
    requires schema - {"oneOf", "anyOf"} == schema' - {"oneOf", "anyOf"}
    ensures FlatWith(schema, resolved, tag) == FlatWith(schema', resolved, tag)
  {
  }

  /** A `oneOf` is what is flattened; an `anyOf` beside it makes no difference and goes too. */
  lemma OneOfComesFirst(order: Order, schema: Object)
    requires "oneOf" in schema
    ensures Tag(order, schema - {"anyOf"}) == Tag(order, schema)
    ensures Tag(order, schema).Some? ==> Flat(order, schema - {"anyOf"}) == Flat(order, schema)
  {
    var rest := schema - {"anyOf"};
    assert Found(rest, "definitions") == Found(schema, "definitions") && Variants(rest) == Variants(schema);
    SameResolvedIn(schema, rest, Variants(schema));
    assert rest - {"oneOf", "anyOf"} == schema - {"oneOf", "anyOf"};
    if Tag(order, schema).Some? {
      FlatFromRest(schema, rest, Resolved(schema, Variants(schema)), Tag(order, schema).value);
    }
  }

  lemma {:induction false} SameResolvedIn(schema: Object, schema': Object, variants: seq<Json>)
    requires Found(schema', "definitions") == Found(schema, "definitions")
    ensures Resolved(schema', variants) == Resolved(schema, variants)
  {
    if variants != [] {
      SameResolvedIn(schema, schema', variants[..|variants| - 1]);
    }
  }
}

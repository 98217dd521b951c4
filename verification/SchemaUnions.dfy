/** Unions of tagged object schemas, and what is left of them when they are flattened. */
module SchemaUnions {
  import opened Options
  import opened SchemaFlatten
  import opened SchemaMeaning

  // ---------------------------------------------------------------- tagged unions

  /** A property that only its own string satisfies. */
  predicate FixesString(property: Json) {
    var c, e := Get(property, "const"), Get(property, "enum");
    if c.Some? then c.value.Str? else e.Some? && e.value.Arr? && |e.value.items| == 1 && e.value.items[0].Str?
  }

  /** An object schema with `tag` as a required string tag. */
  predicate Tagged(variant: Object, tag: string) {
    && Found(variant, "type") == Some(Str("object"))
    && tag in Props(variant) && FixesString(Props(variant)[tag])
    && "required" in variant && variant["required"].Arr? && Str(tag) in variant["required"].items
  }

  /** The variants are tagged, and fields of the same name have the same schema. */
  ghost predicate Uniform(resolved: seq<Object>, tag: string) {
    && (forall i :: 0 <= i < |resolved| ==> Tagged(resolved[i], tag))
    && (forall i, j, k :: 0 <= i < |resolved| && 0 <= j < |resolved| && k != tag ==>
          (k in Props(resolved[i]) && k in Props(resolved[j]) ==> Props(resolved[i])[k] == Props(resolved[j])[k]))
  }

  lemma {:induction false} HasFirst(resolved: seq<Object>, k: string, i: nat) returns (first: nat)
    requires i < |resolved| && k in Props(resolved[i])
    ensures first <= i && FirstWith(resolved, k, first)
  {
    if FirstWith(resolved, k, i) {
      first := i;
    } else {
      var j :| 0 <= j < i && k in Props(resolved[j]);
      first := HasFirst(resolved, k, j);
    }
  }

  lemma MergedAgrees(resolved: seq<Object>, tag: string, i: nat, k: string)
    requires Uniform(resolved, tag) && i < |resolved| && k != tag && k in Props(resolved[i])
    ensures k in Merged(resolved, tag) && Merged(resolved, tag)[k] == Props(resolved[i])[k]
  {
    var first := HasFirst(resolved, k, i);
    MergedField(resolved, tag, k);
  }

  /** A tagged variant accepts only objects that carry its own tag string. */
  lemma VariantFixesTag(sem: Semantics, variant: Object, tag: string, x: Json)
    requires sem.Sound() && Tagged(variant, tag) && sem.Accepts(variant, x)
    ensures TagStringOf(variant, tag).Some? && CarriesTag(x, tag, TagStringOf(variant, tag).value)
  {
    var items := variant["required"].items;
    var i :| 0 <= i < |items| && items[i] == Str(tag);
    assert items[i].s in x.fields;
    var p := Props(variant)[tag];
    assert sem.valid(p, x.fields[tag]);
    assert Respects(p.fields, x.fields[tag]);
  }

  predicate CarriesTag(x: Json, tag: string, s: string) { x.Obj? && Found(x.fields, tag) == Some(Str(s)) }

  /** So variants with different tag strings have no instance in common. */
  lemma TagsSeparate(sem: Semantics, v: Object, w: Object, tag: string, x: Json)
    requires sem.Sound() && Tagged(v, tag) && Tagged(w, tag) && sem.Accepts(v, x) && sem.Accepts(w, x)
    ensures TagStringOf(v, tag) == TagStringOf(w, tag)
  {
    VariantFixesTag(sem, v, tag, x);
    VariantFixesTag(sem, w, tag, x);
  }

  lemma FlatKeepsOthers(schema: Object, resolved: seq<Object>, tag: string)
    ensures FlatWith(schema, resolved, tag) - SPELLED_OUT == schema - SPELLED_OUT
  {
  }

  /** What the flattened schema accepts, field by field. */
  lemma FlatAccepts(sem: Semantics, schema: Object, resolved: seq<Object>, tag: string, x: Json)
    requires sem.Sound()
    ensures sem.Accepts(FlatWith(schema, resolved, tag), x) <==>
      && sem.other(schema - SPELLED_OUT, x)
      && x.Obj? && tag in x.fields && x.fields[tag].Str? && x.fields[tag].s in TagValues(resolved, tag)
      && forall k :: k in Merged(resolved, tag) && k in x.fields ==> sem.valid(Merged(resolved, tag)[k], x.fields[k])
  {
    var flat := FlatWith(schema, resolved, tag);
    FlatKeepsOthers(schema, resolved, tag);
    var merged, values := Merged(resolved, tag), TagValues(resolved, tag);
    assert Props(flat) == merged[tag := TagSchema(values)];
    assert tag !in merged by { MergedField(resolved, tag, tag); }
    assert flat["required"].items == [Str(tag)];
    assert sem.UnionsHold(flat, x);
    assert RequiredHold(flat, x) <==> (x.Obj? ==> tag in x.fields) by {
      assert flat["required"].items[0].s == tag;
    }
    if x.Obj? && tag in x.fields {
      assert sem.PropertiesHold(flat, x) <==>
        sem.valid(TagSchema(values), x.fields[tag])
        && forall k :: k in merged && k in x.fields ==> sem.valid(merged[k], x.fields[k]);
    }
  }

  predicate OnlyFieldsOf(variant: Object, x: Json) { x.Obj? ==> forall k :: k in x.fields ==> k in Props(variant) }

  /** An instance of a variant that uses only the variant's fields passes the flattened schema. */
  lemma VariantPassesFlat(sem: Semantics, schema: Object, resolved: seq<Object>, tag: string, i: nat, x: Json)
    requires sem.Sound() && Uniform(resolved, tag) && i < |resolved|
    requires sem.other(schema - SPELLED_OUT, x)
    requires sem.Accepts(resolved[i], x) && OnlyFieldsOf(resolved[i], x)
    ensures sem.Accepts(FlatWith(schema, resolved, tag), x)
  {
    VariantFixesTag(sem, resolved[i], tag, x);
    var s := TagStringOf(resolved[i], tag).value;
    TagValuesAre(resolved, tag, s);
    forall k | k in Merged(resolved, tag) && k in x.fields
      ensures sem.valid(Merged(resolved, tag)[k], x.fields[k])
    {
      MergedField(resolved, tag, k);
      MergedAgrees(resolved, tag, i, k);
    }
    FlatAccepts(sem, schema, resolved, tag, x);
  }

  /** What passes the flattened schema and carries the tag of a variant passes that variant, up to what
      flattening drops: the variant's other required fields and its other keywords. */
  lemma FlatPassesVariant(sem: Semantics, schema: Object, resolved: seq<Object>, tag: string, i: nat, x: Json)
    requires sem.Sound() && Uniform(resolved, tag) && i < |resolved| && VariantsKey(resolved[i]) == None
    requires sem.Accepts(FlatWith(schema, resolved, tag), x)
    requires TagStringOf(resolved[i], tag).Some? && CarriesTag(x, tag, TagStringOf(resolved[i], tag).value)
    requires sem.valid(Props(resolved[i])[tag], x.fields[tag])
    requires RequiredHold(resolved[i], x) && sem.other(resolved[i] - SPELLED_OUT, x)
    ensures sem.Accepts(resolved[i], x)
  {
    FlatAccepts(sem, schema, resolved, tag, x);
    forall k | k in Props(resolved[i]) && k in x.fields
      ensures sem.valid(Props(resolved[i])[k], x.fields[k])
    {
      if k != tag {
        MergedAgrees(resolved, tag, i, k);
      }
    }
  }

  // ---------------------------------------------------------------- which tag is found

  predicate ComesFirst(keys: seq<string>, resolved: seq<Object>, tag: string) {
    exists n :: 0 <= n < |keys| && keys[n] == tag && forall j :: 0 <= j < n ==> !TagOfAll(resolved, keys[j])
  }

  /** The field found is the first in the order that is fixed in all variants, whatever its type. */
  lemma {:induction false} FirstTagIs(resolved: seq<Object>, keys: seq<string>, tag: string)
    requires TagOfAll(resolved, tag)
    ensures FirstTag(resolved, keys) == Some(tag) <==> ComesFirst(keys, resolved, tag)
  {
    if keys != [] {
      var tail := keys[1..];
      FirstTagIs(resolved, tail, tag);
      if TagOfAll(resolved, keys[0]) {
        assert keys[0] == tag ==> ComesFirst(keys, resolved, tag);
      } else {
        if ComesFirst(tail, resolved, tag) {
          var n :| 0 <= n < |tail| && tail[n] == tag && forall j :: 0 <= j < n ==> !TagOfAll(resolved, tail[j]);
          assert keys[n + 1] == tag && forall j :: 0 <= j < n + 1 ==> keys[j] == if j == 0 then keys[0] else tail[j - 1];
        }
        if ComesFirst(keys, resolved, tag) {
          var n :| 0 <= n < |keys| && keys[n] == tag && forall j :: 0 <= j < n ==> !TagOfAll(resolved, keys[j]);
          assert tail[n - 1] == tag && forall j :: 0 <= j < n - 1 ==> tail[j] == keys[j + 1];
        }
      }
    }
  }

  /** All variants resolve, to object schemas with `tag` as a required string tag, that agree on their other fields. */
  ghost predicate TaggedUnion(schema: Object, tag: string) {
    && Variants(schema) != []
    && (forall i :: 0 <= i < |Variants(schema)| ==> Resolve(schema, Variants(schema)[i]).Some?)
    && Uniform(Resolved(schema, Variants(schema)), tag)
  }

  ghost predicate DistinctTags(resolved: seq<Object>, tag: string) {
    forall i, j :: 0 <= i < j < |resolved| ==> TagStringOf(resolved[i], tag) != TagStringOf(resolved[j], tag)
  }

  /** No field that all variants fix comes before `tag` in the key order of the first variant. */
  predicate TagFirst(order: Order, resolved: seq<Object>, tag: string) {
    resolved != [] && ComesFirst(order(Props(resolved[0])), resolved, tag)
  }

  lemma UniformTag(resolved: seq<Object>, tag: string)
    requires Uniform(resolved, tag)
    ensures TagOfAll(resolved, tag)
  {
    forall i | 0 <= i < |resolved|
      ensures TagOf(resolved[i], tag)
    {
      assert Tagged(resolved[i], tag);
    }
  }

  lemma TagIsFound(order: Order, schema: Object, tag: string)
    requires Enumerates(order) && TaggedUnion(schema, tag)
    ensures var resolved := Resolved(schema, Variants(schema));
      && |resolved| == |Variants(schema)| && Tag(order, schema).Some? && TagOfAll(resolved, Tag(order, schema).value)
      && (Tag(order, schema) == Some(tag) <==> TagFirst(order, resolved, tag))
  {
    var resolved := Resolved(schema, Variants(schema));
    ResolvedAt(schema, Variants(schema));
    UniformTag(resolved, tag);
    LeftAlone(order, schema);
    FirstTagIs(resolved, order(Props(resolved[0])), tag);
    TagFound(resolved, order(Props(resolved[0])));
  }

  // ---------------------------------------------------------------- the whole transformation

  lemma SomeVariantAccepts(sem: Semantics, schema: Object, x: Json)
    requires Variants(schema) != [] && sem.Accepts(schema, x)
    ensures sem.Some1(Variants(schema), x)
  {
  }

  /** Valid under the union, using only fields of the variants it is valid under: valid under the flat schema,
      provided that no other field fixed in all variants comes first. */
  lemma UnionInstancesStayValid(sem: Semantics, order: Order, schema: Object, tag: string, x: Json)
    requires sem.Sound() && sem.Coherent(schema) && Enumerates(order) && TaggedUnion(schema, tag)
    requires TagFirst(order, Resolved(schema, Variants(schema)), tag)
    requires sem.Accepts(schema, x)
    requires forall i :: 0 <= i < |Variants(schema)| && sem.valid(Variants(schema)[i], x) ==>
      OnlyFieldsOf(Resolve(schema, Variants(schema)[i]).value, x)
    ensures sem.Accepts(Flat(order, schema), x)
  {
    var variants := Variants(schema);
    SomeVariantAccepts(sem, schema, x);
    var i :| 0 <= i < |variants| && sem.valid(variants[i], x);
    ResolvedAt(schema, variants);
    ValidVariants(sem, schema, i, x);
    TagIsFound(order, schema, tag);
    VariantPassesFlat(sem, schema, Resolved(schema, variants), tag, i, x);
  }

  predicate HasString(x: Json, field: string) { x.Obj? && field in x.fields && x.fields[field].Str? }

  /** A fixed property that a string satisfies stands for that string. */
  lemma FixedString(sem: Semantics, property: Json, s: string)
    requires sem.Sound() && FixesValue(property) && sem.valid(property, Str(s))
    ensures TagString(property) == Some(s)
  {
    assert Respects(property.fields, Str(s));
  }

  /** When another field is found, only instances of the first variant are kept, and of those only the ones that
      have a string there. */
  lemma WrongTagKeepsFirst(sem: Semantics, schema: Object, resolved: seq<Object>, tag: string, found: string, i: nat, x: Json)
    requires sem.Sound() && Uniform(resolved, tag) && DistinctTags(resolved, tag)
    requires TagOfAll(resolved, found) && found != tag && i < |resolved|
    requires sem.Accepts(resolved[i], x) && OnlyFieldsOf(resolved[i], x) && sem.other(schema - SPELLED_OUT, x)
    ensures sem.Accepts(FlatWith(schema, resolved, found), x) <==> i == 0 && HasString(x, found)
  {
    FlatAccepts(sem, schema, resolved, found, x);
    VariantFixesTag(sem, resolved[i], tag, x);
    if i == 0 && HasString(x, found) {
      FirstVariantPasses(sem, schema, resolved, found, x);
    }
    if i > 0 && sem.Accepts(FlatWith(schema, resolved, found), x) {
      MergedField(resolved, found, tag);
      assert Tagged(resolved[0], tag) && FirstWith(resolved, tag, 0);
      UniformTag(resolved, tag);
      assert TagOf(resolved[0], tag);
      FixedString(sem, Props(resolved[0])[tag], x.fields[tag].s);
    }
  }

  lemma FirstVariantPasses(sem: Semantics, schema: Object, resolved: seq<Object>, found: string, x: Json)
    requires sem.Sound() && resolved != [] && TagOfAll(resolved, found) && HasString(x, found)
    requires sem.Accepts(resolved[0], x) && OnlyFieldsOf(resolved[0], x) && sem.other(schema - SPELLED_OUT, x)
    ensures sem.Accepts(FlatWith(schema, resolved, found), x)
  {
    assert TagOf(resolved[0], found);
    FixedString(sem, Props(resolved[0])[found], x.fields[found].s);
    TagValuesAre(resolved, found, x.fields[found].s);
    forall k | k in Merged(resolved, found) && k in x.fields
      ensures sem.valid(Merged(resolved, found)[k], x.fields[k])
    {
      MergedField(resolved, found, k);
      assert FirstWith(resolved, k, 0);
    }
    FlatAccepts(sem, schema, resolved, found, x);
  }

  /** Exactly which instances of a tagged union are kept: all of them if the tag comes first among the fields that
      all variants fix; otherwise those of the first variant that have a string in the field that does. */
  lemma InstanceIsKept(sem: Semantics, order: Order, schema: Object, tag: string, i: nat, x: Json)
    requires sem.Sound() && sem.Coherent(schema) && Enumerates(order) && TaggedUnion(schema, tag)
    requires DistinctTags(Resolved(schema, Variants(schema)), tag)
    requires i < |Variants(schema)| && sem.Accepts(schema, x) && sem.valid(Variants(schema)[i], x)
    requires OnlyFieldsOf(Resolve(schema, Variants(schema)[i]).value, x)
    ensures Tag(order, schema).Some?
    ensures sem.Accepts(Flat(order, schema), x) <==>
      TagFirst(order, Resolved(schema, Variants(schema)), tag) || (i == 0 && HasString(x, Tag(order, schema).value))
  {
    var resolved := Resolved(schema, Variants(schema));
    ResolvedAt(schema, Variants(schema));
    ValidVariants(sem, schema, i, x);
    TagIsFound(order, schema, tag);
    if TagFirst(order, resolved, tag) {
      VariantPassesFlat(sem, schema, resolved, tag, i, x);
    } else {
      WrongTagKeepsFirst(sem, schema, resolved, tag, Tag(order, schema).value, i, x);
    }
  }

  predicate NamedBy(x: Json, variant: Object, tag: string) {
    TagStringOf(variant, tag).Some? && CarriesTag(x, tag, TagStringOf(variant, tag).value)
  }

  predicate NamesSome(x: Json, resolved: seq<Object>, tag: string) {
    exists i :: 0 <= i < |resolved| && NamedBy(x, resolved[i], tag)
  }

  lemma NamedVariant(sem: Semantics, schema: Object, resolved: seq<Object>, tag: string, x: Json)
    requires sem.Sound() && sem.Accepts(FlatWith(schema, resolved, tag), x)
    ensures NamesSome(x, resolved, tag)
  {
    FlatAccepts(sem, schema, resolved, tag, x);
    var s := x.fields[tag].s;
    TagValuesAre(resolved, tag, s);
    var i :| 0 <= i < |resolved| && TagStringOf(resolved[i], tag) == Some(s);
    assert NamedBy(x, resolved[i], tag);
  }

  /** Valid under the flat schema: an object whose tag names some variant. This needs nothing of the variants. */
  lemma FlatInstancesNameAVariant(sem: Semantics, order: Order, schema: Object, x: Json)
    requires sem.Sound() && Tag(order, schema).Some? && sem.Accepts(Flat(order, schema), x)
    ensures NamesSome(x, Resolved(schema, Variants(schema)), Tag(order, schema).value)
  {
    NamedVariant(sem, schema, Resolved(schema, Variants(schema)), Tag(order, schema).value, x);
  }

  /** Nothing beside one union keyword is spelled out. */
  predicate PureUnion(schema: Object) {
    "type" !in schema && "properties" !in schema && "required" !in schema && !("oneOf" in schema && "anyOf" in schema)
  }

  lemma PureUnionAccepts(sem: Semantics, schema: Object, x: Json)
    requires PureUnion(schema) && Variants(schema) != []
    ensures sem.Accepts(schema, x) <==>
      && sem.other(schema - SPELLED_OUT, x) && sem.Some1(Variants(schema), x)
      && ("oneOf" in schema ==> sem.AtMost1(Variants(schema), x))
  {
    assert Props(schema) == map[];
  }

  lemma ValidVariants(sem: Semantics, schema: Object, i: nat, x: Json)
    requires sem.Coherent(schema) && i < |Variants(schema)|
    requires forall j :: 0 <= j < |Variants(schema)| ==> Resolve(schema, Variants(schema)[j]).Some?
    ensures |Resolved(schema, Variants(schema))| == |Variants(schema)|
    ensures sem.valid(Variants(schema)[i], x) <==> sem.Accepts(Resolved(schema, Variants(schema))[i], x)
  {
    ResolvedAt(schema, Variants(schema));
  }

  /** Only the variant that the tag names can accept. */
  lemma TagPicksVariant(sem: Semantics, schema: Object, tag: string, x: Json, i: nat, j: nat)
    requires sem.Sound() && sem.Coherent(schema) && TaggedUnion(schema, tag) && DistinctTags(Resolved(schema, Variants(schema)), tag)
    requires i < |Variants(schema)| && j < |Variants(schema)| && i < |Resolved(schema, Variants(schema))|
    requires NamedBy(x, Resolved(schema, Variants(schema))[i], tag) && sem.valid(Variants(schema)[j], x)
    ensures i == j
  {
    var resolved := Resolved(schema, Variants(schema));
    ValidVariants(sem, schema, j, x);
    VariantFixesTag(sem, resolved[j], tag, x);
    assert TagStringOf(resolved[i], tag) == TagStringOf(resolved[j], tag);
  }

  /** Of an instance that carries the tag of variant `i` and only its fields, the union says exactly what the flat
      schema says together with the variant's required fields and its other keywords: nothing else is lost. */
  lemma FlatteningLosesOnlyRequired(sem: Semantics, order: Order, schema: Object, tag: string, x: Json, i: nat)
    requires sem.Sound() && sem.Coherent(schema) && Enumerates(order) && PureUnion(schema)
    requires TaggedUnion(schema, tag) && DistinctTags(Resolved(schema, Variants(schema)), tag)
    requires TagFirst(order, Resolved(schema, Variants(schema)), tag)
    requires i < |Variants(schema)| && i < |Resolved(schema, Variants(schema))|
    requires var variant := Resolved(schema, Variants(schema))[i];
      && NamedBy(x, variant, tag) && OnlyFieldsOf(variant, x) && VariantsKey(variant) == None
      && tag in Props(variant) && sem.valid(Props(variant)[tag], x.fields[tag])
    ensures var variant := Resolved(schema, Variants(schema))[i];
      sem.Accepts(schema, x) <==>
        sem.Accepts(Flat(order, schema), x) && RequiredHold(variant, x) && sem.other(variant - SPELLED_OUT, x)
  {
    var variants := Variants(schema);
    var resolved := Resolved(schema, variants);
    PureUnionAccepts(sem, schema, x);
    ValidVariants(sem, schema, i, x);
    TagIsFound(order, schema, tag);
    if sem.Accepts(schema, x) {
      var j :| 0 <= j < |variants| && sem.valid(variants[j], x);
      TagPicksVariant(sem, schema, tag, x, i, j);
      VariantPassesFlat(sem, schema, resolved, tag, i, x);
    }
    if sem.Accepts(Flat(order, schema), x) && RequiredHold(resolved[i], x) && sem.other(resolved[i] - SPELLED_OUT, x) {
      FlatPassesVariant(sem, schema, resolved, tag, i, x);
      FlatAccepts(sem, schema, resolved, tag, x);
      forall j, k | 0 <= j < k < |variants|
        ensures !(sem.valid(variants[j], x) && sem.valid(variants[k], x))
      {
        if sem.valid(variants[j], x) && sem.valid(variants[k], x) {
          TagPicksVariant(sem, schema, tag, x, i, j);
          TagPicksVariant(sem, schema, tag, x, i, k);
        }
      }
      assert sem.Some1(variants, x);
    }
  }
}

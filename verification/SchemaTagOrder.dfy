/** Flattening a tagged union in every possible key order, and a concrete union that it destroys. */
module SchemaTagOrder {
  import opened Options
  import opened SchemaFlatten
  import opened SchemaMeaning
  import opened SchemaUnions
  import opened SchemaReferences
  import opened SchemaValidator

  function Without(keys: seq<string>, key: string): seq<string> {
    if keys == [] then [] else (if keys[0] == key then [] else [keys[0]]) + Without(keys[1..], key)
  }

  lemma {:induction false} WithoutMembers(keys: seq<string>, key: string, k: string)
    ensures k in Without(keys, key) <==> k in keys && k != key
  {
    if keys != [] {
      WithoutMembers(keys[1..], key, k);
      assert keys == [keys[0]] + keys[1..];
    }
  }

  lemma {:induction false} WithoutIsDistinct(keys: seq<string>, key: string)
    requires forall i, j :: 0 <= i < j < |keys| ==> keys[i] != keys[j]
    ensures var w := Without(keys, key); forall i, j :: 0 <= i < j < |w| ==> w[i] != w[j]
  {
    if keys != [] {
      var rest := Without(keys[1..], key);
      WithoutIsDistinct(keys[1..], key);
      WithoutMembers(keys[1..], key, keys[0]);
      assert keys[0] !in keys[1..];
      assert forall i :: 0 <= i < |rest| ==> rest[i] in rest;
    }
  }

  /** `order`, but with `key` in front of every object that has it. */
  function Front(order: Order, key: string): Order {
    (m: Object) => if key in m then [key] + Without(order(m), key) else order(m)
  }

  lemma FrontEnumerates(order: Order, key: string)
    requires Enumerates(order)
    ensures Enumerates(Front(order, key))
  {
    forall m
      ensures Lists(Front(order, key)(m), m)
    {
      assert Lists(order(m), m);
      if key in m {
        var rest := Without(order(m), key);
        WithoutIsDistinct(order(m), key);
        forall k
          ensures k in [key] + rest <==> k in m
        {
          WithoutMembers(order(m), key, k);
        }
        WithoutMembers(order(m), key, key);
        assert forall i :: 0 <= i < |rest| ==> rest[i] in rest;
      }
    }
  }

  /** `tag` is the only field that all variants fix. */
  ghost predicate OnlyTag(resolved: seq<Object>, tag: string) { forall k :: TagOfAll(resolved, k) ==> k == tag }

  lemma OnlyTagIsFirst(order: Order, resolved: seq<Object>, tag: string)
    requires Enumerates(order) && resolved != [] && TagOfAll(resolved, tag) && OnlyTag(resolved, tag)
    ensures TagFirst(order, resolved, tag)
  {
    var keys := order(Props(resolved[0]));
    assert Lists(keys, Props(resolved[0])) && TagOf(resolved[0], tag);
    var n :| 0 <= n < |keys| && keys[n] == tag;
    assert forall j :: 0 <= j < n ==> keys[j] != keys[n];
  }

  lemma OtherTagFirst(order: Order, resolved: seq<Object>, tag: string, other: string)
    requires Enumerates(order) && resolved != [] && TagOfAll(resolved, other) && other != tag
    ensures !TagFirst(Front(order, other), resolved, tag)
  {
    assert TagOf(resolved[0], other);
    assert Front(order, other)(Props(resolved[0]))[0] == other;
  }

  /** An instance of a variant other than the first is kept whatever the key order exactly when the variants fix no
      field but the tag. `order` only shows that there is an order at all. */
  lemma KeptInEveryOrder(sem: Semantics, order: Order, schema: Object, tag: string, i: nat, x: Json)
    requires sem.Sound() && sem.Coherent(schema) && Enumerates(order) && TaggedUnion(schema, tag)
    requires DistinctTags(Resolved(schema, Variants(schema)), tag)
    requires 0 < i < |Variants(schema)| && sem.Accepts(schema, x) && sem.valid(Variants(schema)[i], x)
    requires OnlyFieldsOf(Resolve(schema, Variants(schema)[i]).value, x)
    ensures (forall o: Order :: Enumerates(o) ==> sem.Accepts(Flat(o, schema), x))
       <==> OnlyTag(Resolved(schema, Variants(schema)), tag)
  {
    var resolved := Resolved(schema, Variants(schema));
    TagIsFound(order, schema, tag);
    UniformTag(resolved, tag);
    if OnlyTag(resolved, tag) {
      forall o: Order | Enumerates(o)
        ensures sem.Accepts(Flat(o, schema), x)
      {
        OnlyTagIsFirst(o, resolved, tag);
        InstanceIsKept(sem, o, schema, tag, i, x);
      }
    } else {
      var other :| TagOfAll(resolved, other) && other != tag;
      FrontEnumerates(order, other);
      OtherTagFirst(order, resolved, tag, other);
      InstanceIsKept(sem, Front(order, other), schema, tag, i, x);
    }
  }

  // ---------------------------------------------------------------- an input that shows it

  function Fields(kind: string): Object { map["api" := Obj(map["const" := Num(1.0)]), "kind" := Obj(map["const" := Str(kind)])] }

  /** An object with a required version number, the same in all variants, and a required tag. */
  function Variant(kind: string): Object {
    map["type" := Str("object"), "properties" := Obj(Fields(kind)), "required" := Arr([Str("api"), Str("kind")])]
  }

  const VERSIONED: Object := map["oneOf" := Arr([Obj(Variant("a")), Obj(Variant("b"))])]

  const INSTANCE: Object := map["api" := Num(1.0), "kind" := Str("a")]

  lemma VersionedResolves()
    ensures Variants(VERSIONED) == [Obj(Variant("a")), Obj(Variant("b"))]
    ensures Resolved(VERSIONED, Variants(VERSIONED)) == [Variant("a"), Variant("b")]
  {
    var variants := [Obj(Variant("a")), Obj(Variant("b"))];
    assert Variants(VERSIONED) == variants;
    assert Resolve(VERSIONED, variants[0]) == Some(Variant("a")) && Resolve(VERSIONED, variants[1]) == Some(Variant("b"));
    ResolvedAt(VERSIONED, variants);
  }

  lemma VariantIsTagged(kind: string)
    ensures Tagged(Variant(kind), "kind") && Props(Variant(kind)) == Fields(kind) && TagStringOf(Variant(kind), "kind") == Some(kind)
    ensures TagOf(Variant(kind), "api") && TagStringOf(Variant(kind), "api") == None
  {
    assert Arr([Str("api"), Str("kind")]).items[1] == Str("kind");
  }

  lemma FieldsAgree(kind: string, other: string, k: string)
    requires k != "kind" && k in Fields(kind)
    ensures k in Fields(other) && Fields(kind)[k] == Fields(other)[k]
  {
  }

  /** A good tag: required, a different string in every variant, with all other fields equal. */
  lemma VersionedIsTagged()
    ensures TaggedUnion(VERSIONED, "kind") && DistinctTags(Resolved(VERSIONED, Variants(VERSIONED)), "kind")
    ensures TagOfAll(Resolved(VERSIONED, Variants(VERSIONED)), "api")
  {
    VersionedResolves();
    VariantIsTagged("a");
    VariantIsTagged("b");
    var resolved := [Variant("a"), Variant("b")];
    forall i, j, k | 0 <= i < |resolved| && 0 <= j < |resolved| && k != "kind" && k in Props(resolved[i]) && k in Props(resolved[j])
      ensures Props(resolved[i])[k] == Props(resolved[j])[k]
    {
      FieldsAgree(if i == 0 then "a" else "b", if j == 0 then "a" else "b", k);
    }
  }

  /** A validator that takes `const` for what it is accepts the instance under its own variant only. */
  lemma VariantAccepts(sem: Semantics, kind: string)
    requires sem.typed(Str("object"), Obj(INSTANCE)) && sem.other(Variant(kind) - SPELLED_OUT, Obj(INSTANCE))
    requires forall c, x :: sem.valid(Obj(map["const" := c]), x) <==> x == c
    ensures sem.Accepts(Variant(kind), Obj(INSTANCE)) <==> kind == "a"
  {
    VariantIsTagged(kind);
    assert sem.valid(Fields(kind)["api"], Num(1.0));
    assert sem.valid(Fields(kind)["kind"], Str("a")) <==> kind == "a";
  }

  lemma VersionedIsCoherent()
    ensures Draft(VERSIONED).Coherent(VERSIONED)
  {
    VersionedResolves();
    VariantIsNoReference("a");
    VariantIsNoReference("b");
    DraftIsCoherent(VERSIONED);
  }

  lemma VariantIsNoReference(kind: string)
    ensures !HasReference(Obj(Variant(kind)))
  {
  }

  lemma OneVariantAccepts()
    ensures var sem, x := Draft(VERSIONED), Obj(INSTANCE);
      sem.valid(Obj(Variant("a")), x) && !sem.valid(Obj(Variant("b")), x)
  {
    var sem, x := Draft(VERSIONED), Obj(INSTANCE);
    forall c, y
      ensures sem.valid(Obj(map["const" := c]), y) <==> y == c
    {
      ConstHolds(VERSIONED, c, y);
    }
    VariantAccepts(sem, "a");
    VariantAccepts(sem, "b");
    VariantIsNoReference("a");
    VariantIsNoReference("b");
    ValidIsAccepted(VERSIONED, true, Variant("a"), x);
    ValidIsAccepted(VERSIONED, true, Variant("b"), x);
  }

  lemma UnionAccepts(sem: Semantics, x: Json)
    requires sem.valid(Obj(Variant("a")), x) && !sem.valid(Obj(Variant("b")), x) && sem.other(VERSIONED - SPELLED_OUT, x)
    ensures sem.Accepts(VERSIONED, x)
  {
    VersionedResolves();
    var variants := Variants(VERSIONED);
    assert sem.Some1(variants, x) by { assert sem.valid(variants[0], x); }
    assert sem.AtMost1(variants, x);
    PureUnionAccepts(sem, VERSIONED, x);
  }

  lemma VersionIsFound(order: Order)
    requires Enumerates(order) && order(Fields("a")) == ["api", "kind"]
    ensures Tag(order, VERSIONED) == Some("api")
  {
    VersionedResolves();
    VersionedIsTagged();
    VariantIsTagged("a");
  }

  lemma NothingPasses(sem: Semantics, order: Order, x: Json)
    requires sem.Sound() && Tag(order, VERSIONED) == Some("api")
    ensures !sem.Accepts(Flat(order, VERSIONED), x)
  {
    if sem.Accepts(Flat(order, VERSIONED), x) {
      FlatInstancesNameAVariant(sem, order, VERSIONED, x);
      VersionedResolves();
      VariantIsTagged("a");
      VariantIsTagged("b");
    }
  }

  /** With the version in front, as in a sorted map, the flat schema accepts nothing at all, under any validator,
      while the union accepts an instance that uses only its own variant's fields. */
  lemma VersionedIsDestroyed(order: Order)
    requires Enumerates(order) && order(Fields("a")) == ["api", "kind"]
    ensures Draft(VERSIONED).Sound() && Draft(VERSIONED).Coherent(VERSIONED) && Draft(VERSIONED).Accepts(VERSIONED, Obj(INSTANCE))
    ensures OnlyFieldsOf(Variant("a"), Obj(INSTANCE))
    ensures forall sem: Semantics, x: Json :: sem.Sound() ==> !sem.Accepts(Flat(order, VERSIONED), x)
  {
    DraftIsSound(VERSIONED);
    VersionedIsCoherent();
    OneVariantAccepts();
    UnionAccepts(Draft(VERSIONED), Obj(INSTANCE));
    VariantIsTagged("a");
    VersionIsFound(order);
    forall sem: Semantics, x: Json | sem.Sound()
      ensures !sem.Accepts(Flat(order, VERSIONED), x)
    {
      NothingPasses(sem, order, x);
    }
  }
}

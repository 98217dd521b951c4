/** What flattening does to the meaning of a schema: the validation keywords `type`, `properties`, `required`,
    `oneOf` and `anyOf` of JSON Schema draft-07 spelled out, every other keyword and every nested schema left to
    an arbitrary validator. */
module SchemaMeaning {
  import opened Options
  import opened SchemaFlatten

  const SPELLED_OUT := {"type", "properties", "required", "oneOf", "anyOf"}

  predicate Respects(m: Object, x: Json) {
    && ("const" in m ==> x == m["const"])
    && ("enum" in m && m["enum"].Arr? ==> x in m["enum"].items)
  }

  predicate RequiredHold(s: Object, x: Json) {
    x.Obj? && "required" in s && s["required"].Arr? ==>
      var items := s["required"].items; forall i :: 0 <= i < |items| && items[i].Str? ==> items[i].s in x.fields
  }

  /** `valid(s, x)`: nested schema `s` accepts `x`. `typed(t, x)`: `x` has a type that `t` names. `other(s, x)`:
      the keywords of `s` that are not spelled out accept `x`. */
  datatype Semantics = Semantics(valid: (Json, Json) -> bool, typed: (Json, Json) -> bool, other: (Object, Json) -> bool)
  {
    /** `const` and `enum` as in sections 6.1.2 and 6.1.3 of JSON Schema Validation draft-07. */
    ghost predicate Sound() {
      && (forall x :: typed(Str("object"), x) <==> x.Obj?)
      && (forall m, x :: valid(Obj(m), x) ==> Respects(m, x))
      && (forall values, x :: valid(TagSchema(values), x) <==> x.Str? && x.s in values)
    }

    ghost predicate PropertiesHold(s: Object, x: Json) {
      x.Obj? ==> forall k :: k in Props(s) && k in x.fields ==> valid(Props(s)[k], x.fields[k])
    }

    ghost predicate Some1(items: seq<Json>, x: Json) { exists i :: 0 <= i < |items| && valid(items[i], x) }

    ghost predicate AtMost1(items: seq<Json>, x: Json) {
      forall i, j :: 0 <= i < j < |items| ==> !(valid(items[i], x) && valid(items[j], x))
    }

    ghost predicate UnionsHold(s: Object, x: Json) {
      && ("oneOf" in s && s["oneOf"].Arr? ==> Some1(s["oneOf"].items, x) && AtMost1(s["oneOf"].items, x))
      && ("anyOf" in s && s["anyOf"].Arr? ==> Some1(s["anyOf"].items, x))
    }

    ghost predicate Accepts(s: Object, x: Json) {
      && other(s - SPELLED_OUT, x)
      && ("type" in s ==> typed(s["type"], x))
      && PropertiesHold(s, x) && RequiredHold(s, x) && UnionsHold(s, x)
    }

    /** The variants mean what they resolve to. */
    ghost predicate Coherent(schema: Object) {
      forall i, x :: 0 <= i < |Variants(schema)| && Resolve(schema, Variants(schema)[i]).Some? ==>
        (valid(Variants(schema)[i], x) <==> Accepts(Resolve(schema, Variants(schema)[i]).value, x))
    }
  }

  // ---------------------------------------------------------------- what is in a flattened schema

  lemma {:induction false} ResolvedAt(schema: Object, variants: seq<Json>)
    requires forall i :: 0 <= i < |variants| ==> Resolve(schema, variants[i]).Some?
    ensures |Resolved(schema, variants)| == |variants|
    ensures forall i :: 0 <= i < |variants| ==> Resolved(schema, variants)[i] == Resolve(schema, variants[i]).value
  {
    if variants != [] {
      ResolvedAt(schema, variants[..|variants| - 1]);
    }
  }

  lemma {:induction false} TagFound(resolved: seq<Object>, keys: seq<string>)
    ensures var t := FirstTag(resolved, keys);
      && (t.Some? ==> t.value in keys && TagOfAll(resolved, t.value))
      && (t.None? ==> forall k :: k in keys ==> !TagOfAll(resolved, k))
  {
    if keys != [] && !TagOfAll(resolved, keys[0]) {
      TagFound(resolved, keys[1..]);
      assert keys == [keys[0]] + keys[1..];
    }
  }

  /** A schema is left alone exactly when no variant resolves or no field is a tag of all that do. */
  lemma LeftAlone(order: Order, schema: Object)
    requires Enumerates(order)
    ensures var resolved := Resolved(schema, Variants(schema));
      Tag(order, schema).None? <==> resolved == [] || forall k :: !TagOfAll(resolved, k)
  {
    var resolved := Resolved(schema, Variants(schema));
    if resolved != [] {
      var props := Props(resolved[0]);
      TagFound(resolved, order(props));
      assert Lists(order(props), props);
      forall k | TagOfAll(resolved, k)
        ensures k in order(props)
      {
        assert TagOf(resolved[0], k);
      }
    }
  }

  /** Flattening is idempotent on every schema, and a schema it changes has no union left. */
  lemma FlattenIsIdempotent(order: Order, schema: Object)
    ensures Flat(order, Flat(order, schema)) == Flat(order, schema)
    ensures Tag(order, schema).Some? ==> VariantsKey(Flat(order, schema)) == None
  {
    var flat := Flat(order, schema);
    if Tag(order, schema).Some? {
      assert Variants(flat) == [];
    }
  }

  lemma {:induction false} TagValuesAre(resolved: seq<Object>, tag: string, s: string)
    ensures s in TagValues(resolved, tag) <==> exists i :: 0 <= i < |resolved| && TagStringOf(resolved[i], tag) == Some(s)
  {
    if resolved != [] {
      var n := |resolved| - 1;
      TagValuesAre(resolved[..n], tag, s);
      assert forall i :: 0 <= i < n ==> resolved[..n][i] == resolved[i];
      assert resolved[n] == resolved[|resolved| - 1];
    }
  }

  /** Each field of the merged properties is a non-tag field of some variant, as the first such variant has it. */
  lemma {:induction false} MergedField(resolved: seq<Object>, tag: string, k: string)
    ensures k in Merged(resolved, tag) <==> k != tag && exists i :: 0 <= i < |resolved| && k in Props(resolved[i])
    ensures forall i :: k != tag && FirstWith(resolved, k, i) ==>
      k in Merged(resolved, tag) && Merged(resolved, tag)[k] == Props(resolved[i])[k]
  {
    if resolved != [] {
      var n := |resolved| - 1;
      var init := resolved[..n];
      MergedField(init, tag, k);
      assert forall i :: 0 <= i < n ==> init[i] == resolved[i];
      if exists i :: 0 <= i < n && k in Props(init[i]) {
        var i :| 0 <= i < n && k in Props(init[i]);
        assert k in Props(resolved[i]);
      }
      forall i | k != tag && FirstWith(resolved, k, i)
        ensures k in Merged(resolved, tag) && Merged(resolved, tag)[k] == Props(resolved[i])[k]
      {
        assert i < n ==> FirstWith(init, k, i);
        assert i == n ==> forall j :: 0 <= j < n ==> k !in Props(init[j]);
      }
    }
  }

  predicate FirstWith(resolved: seq<Object>, k: string, i: int) {
    0 <= i < |resolved| && k in Props(resolved[i]) && forall j :: 0 <= j < i ==> k !in Props(resolved[j])
  }
}

/** `flatten_oneof_schema`: a union of tagged object schemas becomes one flat object schema. */
module SchemaFlatten {
  import opened Options

  datatype Json =
    | Null
    | Bool(b: bool)
    | Num(n: real)
    | Str(s: string)
    | Arr(items: seq<Json>)
    | Obj(fields: Object)

  type Object = map<string, Json>

  /** The order in which an object's keys are iterated over. */
  type Order = Object -> seq<string>

  ghost predicate Enumerates(order: Order) {
    forall m :: Lists(order(m), m)
  }

  ghost predicate Lists(keys: seq<string>, m: Object) {
    && (forall k :: k in keys <==> k in m)
    && (forall i, j :: 0 <= i < j < |keys| ==> keys[i] != keys[j])
  }

  // ---------------------------------------------------------------- reading a schema

  function Get(j: Json, key: string): Option<Json> { if j.Obj? then Found(j.fields, key) else None }

  function LastSegment(path: string): string
    decreases |path|
  {
    if path == "" || path[|path| - 1] == '/' then "" else LastSegment(path[..|path| - 1]) + [path[|path| - 1]]
  }

  function AsObject(j: Option<Json>): Option<Object> { if j.Some? && j.value.Obj? then Some(j.value.fields) else None }

  /** Which union keyword is looked at. */
  function VariantsKey(schema: Object): Option<string> {
    if "oneOf" in schema then Some("oneOf") else if "anyOf" in schema then Some("anyOf") else None
  }

  function Variants(schema: Object): seq<Json> {
    var key := VariantsKey(schema);
    if key.Some? && schema[key.value].Arr? then schema[key.value].items else []
  }

  function Resolve(schema: Object, variant: Json): Option<Object> {
    var reference := Get(variant, "$ref");
    if reference.Some? && reference.value.Str? then
      if "definitions" in schema then AsObject(Get(schema["definitions"], LastSegment(reference.value.s))) else None
    else AsObject(Some(variant))
  }

  function Resolved(schema: Object, variants: seq<Json>): seq<Object> {
    if variants == [] then []
    else
      var n := |variants| - 1;
      PushSome(Resolved(schema, variants[..n]), Resolve(schema, variants[n]))
  }

  /** The properties of a variant, none when it has no `properties` object. */
  function Props(variant: Object): Object {
    var p := AsObject(Found(variant, "properties"));
    if p.Some? then p.value else map[]
  }

  /** `const`, or an `enum` with one value. */
  predicate FixesValue(property: Json) {
    var e := Get(property, "enum");
    Get(property, "const").Some? || (e.Some? && e.value.Arr? && |e.value.items| == 1)
  }

  predicate TagOf(variant: Object, key: string) { key in Props(variant) && FixesValue(Props(variant)[key]) }

  predicate TagOfAll(resolved: seq<Object>, key: string) {
    forall i :: 0 <= i < |resolved| ==> TagOf(resolved[i], key)
  }

  function FirstTag(resolved: seq<Object>, keys: seq<string>): Option<string> {
    if keys == [] then None
    else if TagOfAll(resolved, keys[0]) then Some(keys[0])
    else FirstTag(resolved, keys[1..])
  }

  /** The string a tag property stands for. */
  function TagString(property: Json): Option<string> {
    var c, e := Get(property, "const"), Get(property, "enum");
    if c.Some? && c.value.Str? then Some(c.value.s)
    else if e.Some? && e.value.Arr? && e.value.items != [] && e.value.items[0].Str? then Some(e.value.items[0].s)
    else None
  }

  function TagStringOf(variant: Object, tag: string): Option<string> {
    if tag in Props(variant) then TagString(Props(variant)[tag]) else None
  }

  function PushSome<T>(xs: seq<T>, x: Option<T>): seq<T> { if x.Some? then xs + [x.value] else xs }

  function TagValues(resolved: seq<Object>, tag: string): seq<string> {
    if resolved == [] then []
    else
      var n := |resolved| - 1;
      PushSome(TagValues(resolved[..n], tag), TagStringOf(resolved[n], tag))
  }

  /** All fields but the tag, each as the first variant that has it says. */
  function Merged(resolved: seq<Object>, tag: string): Object {
    if resolved == [] then map[]
    else (Props(resolved[|resolved| - 1]) - {tag}) + Merged(resolved[..|resolved| - 1], tag)
  }

  function Joined(texts: seq<string>): string {
    if texts == [] then "" else if |texts| == 1 then texts[0]
    else Joined(texts[..|texts| - 1]) + ", " + texts[|texts| - 1]
  }

  function Strings(texts: seq<string>): Json { Arr(seq(|texts|, i requires 0 <= i < |texts| => Str(texts[i]))) }

  function TagSchema(values: seq<string>): Json {
    Obj(map["type" := Str("string"),
            "description" := Str("Discriminator — one of: " + Joined(values)),
            "enum" := Strings(values)])
  }

  /** The tag to flatten by; None when the schema is left alone. */
  function Tag(order: Order, schema: Object): Option<string> {
    var resolved := Resolved(schema, Variants(schema));
    if resolved == [] then None else FirstTag(resolved, order(Props(resolved[0])))
  }

  function FlatWith(schema: Object, resolved: seq<Object>, tag: string): Object {
    (schema - {"oneOf", "anyOf"})
      ["type" := Str("object")]
      ["properties" := Obj(Merged(resolved, tag)[tag := TagSchema(TagValues(resolved, tag))])]
      ["required" := Arr([Str(tag)])]
  }

  function Flat(order: Order, schema: Object): Object {
    var tag := Tag(order, schema);
    if tag.None? then schema else FlatWith(schema, Resolved(schema, Variants(schema)), tag.value)
  }

  // ---------------------------------------------------------------- the code

  method ResolveAll(schema: Object, variants: seq<Json>) returns (resolved: seq<Object>)
    ensures resolved == Resolved(schema, variants)
  {
    resolved := [];
    for i := 0 to |variants|
      invariant resolved == Resolved(schema, variants[..i])
    {
      assert variants[..i + 1][..i] == variants[..i];
      var r := Resolve(schema, variants[i]);
      if r.Some? {
        resolved := resolved + [r.value];
      }
    }
    assert variants[..|variants|] == variants;
  }

  method DetectTag(order: Order, resolved: seq<Object>) returns (tag: Option<string>)
    requires Enumerates(order) && resolved != []
    ensures tag == FirstTag(resolved, order(Props(resolved[0])))
  {
    var first := Props(resolved[0]);
    var keys := order(first);
    assert Lists(keys, first);
    for i := 0 to |keys|
      invariant FirstTag(resolved, keys) == FirstTag(resolved, keys[i..])
    {
      var key := keys[i];
      assert keys[i..][0] == key && keys[i..][1..] == keys[i + 1..] && key in keys;
      if FixesValue(first[key]) {
        var everywhere := true;
        var j := 0;
        while j < |resolved| && everywhere
          invariant 0 <= j <= |resolved|
          invariant everywhere ==> forall k :: 0 <= k < j ==> TagOf(resolved[k], key)
          invariant !everywhere ==> !TagOfAll(resolved, key)
          decreases |resolved| - j, everywhere
        {
          everywhere := TagOf(resolved[j], key);
          j := j + 1;
        }
        if everywhere {
          return Some(key);
        }
      } else {
        assert !TagOf(resolved[0], key);
      }
    }
    tag := None;
  }

  /** One variant of the merging loop. */
  method MergeVariant(keys: seq<string>, props: Object, tag: string, merged: Object, values: seq<string>)
    returns (merged': Object, values': seq<string>)
    requires Lists(keys, props)
    ensures merged' == (props - {tag}) + merged
    ensures values' == PushSome(values, if tag in props then TagString(props[tag]) else None)
  {
    merged', values' := merged, values;
    ghost var seen := false;
    for i := 0 to |keys|
      invariant forall k :: k in merged ==> k in merged' && merged'[k] == merged[k]
      invariant forall k :: k in merged' && k !in merged ==> k in props && k != tag && merged'[k] == props[k]
      invariant forall j :: 0 <= j < i ==> keys[j] == tag || keys[j] in merged'
      invariant seen <==> exists j :: 0 <= j < i && keys[j] == tag
      invariant values' == PushSome(values, if seen && tag in props then TagString(props[tag]) else None)
    {
      var key := keys[i];
      assert key in keys;
      if key == tag {
        seen := true;
        var own := TagString(props[key]);
        if own.Some? {
          values' := values' + [own.value];
        }
      } else if key !in merged' {
        merged' := merged'[key := props[key]];
      }
    }
    assert tag in props ==> tag in keys;
    forall k | k in props && k != tag
      ensures k in merged'
    {
      assert k in keys;
    }
  }

  method FlattenOneofSchema(order: Order, schema: Object) returns (r: Object)
    requires Enumerates(order)
    ensures r == Flat(order, schema)
  {
    r := schema;
    var key;
    if "oneOf" in r {
      key := "oneOf";
    } else if "anyOf" in r {
      key := "anyOf";
    } else {
      return;
    }
    if !r[key].Arr? || r[key].items == [] {
      return;
    }
    var variants := r[key].items;
    var resolved := ResolveAll(schema, variants);
    if resolved == [] {
      return;
    }
    var tag := DetectTag(order, resolved);
    if tag.None? {
      return;
    }
    var merged, values := map[], [];
    for i := 0 to |resolved|
      invariant merged == Merged(resolved[..i], tag.value) && values == TagValues(resolved[..i], tag.value)
    {
      assert resolved[..i + 1][..i] == resolved[..i];
      var props := Props(resolved[i]);
      assert Lists(order(props), props);
      merged, values := MergeVariant(order(props), props, tag.value, merged, values);
    }
    assert resolved[..|resolved|] == resolved;
    merged := merged[tag.value := TagSchema(values)];
    r := r - {"oneOf"};
    r := r - {"anyOf"};
    r := r["type" := Str("object")];
    r := r["properties" := Obj(merged)];
    r := r["required" := Arr([Str(tag.value)])];
    assert schema - {"oneOf", "anyOf"} == schema - {"oneOf"} - {"anyOf"};
  }
}

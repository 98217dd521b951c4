/** The tag strings of a flattened schema: where they come from, their order, and how they are described. */
module SchemaTagStrings {
  import opened Options
  import opened SchemaFlatten

  /** In the order of the variants, when each has one. */
  lemma {:induction false} TagValuesInOrder(resolved: seq<Object>, tag: string)
    requires forall i :: 0 <= i < |resolved| ==> TagStringOf(resolved[i], tag).Some?
    ensures |TagValues(resolved, tag)| == |resolved|
    ensures forall i :: 0 <= i < |resolved| ==> TagValues(resolved, tag)[i] == TagStringOf(resolved[i], tag).value
  {
    if resolved != [] {
      TagValuesInOrder(resolved[..|resolved| - 1], tag);
    }
  }

  /** A string `const` is the tag string, whatever the `enum`; otherwise the first value of the `enum` is, if it is a
      string. */
  lemma TagStringIs(rest: Object, s: string, more: seq<Json>)
    ensures TagString(Obj(rest["const" := Str(s)])) == Some(s)
    ensures TagString(Obj((rest - {"const"})["enum" := Arr([Str(s)] + more)])) == Some(s)
    ensures TagString(Obj(rest - {"const", "enum"})) == None
  {
  }

  /** The description lists the tag strings with a comma and a space between neighbours and nothing else. */
  lemma {:induction false} JoinedSplits(xs: seq<string>, ys: seq<string>)
    requires xs != [] && ys != []
    ensures Joined(xs + ys) == Joined(xs) + ", " + Joined(ys)
  {
    var n := |ys| - 1;
    var all := xs + ys;
    assert all[|all| - 1] == ys[n] && all[..|all| - 1] == xs + ys[..n];
    if n == 0 {
      assert xs + ys[..n] == xs;
    } else {
      JoinedSplits(xs, ys[..n]);
      assert Joined(xs) + ", " + Joined(ys[..n]) + ", " + ys[n] == Joined(xs) + ", " + (Joined(ys[..n]) + ", " + ys[n]);
    }
  }
}

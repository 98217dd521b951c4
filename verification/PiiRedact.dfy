/** `redact_if_changed`, `detect_pii` and `mask_pii`, on the spans that `find_spans` chooses. */
module PiiRedact {
  import opened Options
  import opened PiiSpans

  const MIN_PII_LEN: nat := 8

  function Label(kind: PiiType): string {
    match kind
    case Email => "[EMAIL]"
    case CreditCard => "[CARD]"
    case Ssn => "[SSN]"
    case Phone => "[PHONE]"
    case IpAddress => "[IP]"
  }

  /** Spans in order, inside the text, none before `from`. */
  ghost predicate Fits(text: string, spans: seq<Span>, from: nat) {
    && from <= |text| && LaidOut(spans)
    && (forall i :: 0 <= i < |spans| ==> from <= spans[i].start && spans[i].end <= |text|)
  }

  /** Every gap copied, every span replaced by its label. */
  ghost function Redacted(text: string, spans: seq<Span>, from: nat): string
    requires Fits(text, spans, from)
    decreases |spans|
  {
    if spans == [] then text[from..]
    else text[from..spans[0].start] + Label(spans[0].kind) + Redacted(text, spans[1..], spans[0].end)
  }

  ghost function Kinds(spans: seq<Span>): seq<PiiType> { seq(|spans|, i requires 0 <= i < |spans| => spans[i].kind) }

  /** Each element at its first occurrence. */
  function Distinct(kinds: seq<PiiType>): (d: seq<PiiType>)
    ensures forall k :: k in d <==> k in kinds
    ensures forall i, j :: 0 <= i < j < |d| ==> d[i] != d[j]
  {
    if kinds == [] then []
    else
      var last := kinds[|kinds| - 1];
      var before := kinds[..|kinds| - 1];
      assert kinds == before + [last];
      Distinct(before) + if last in before then [] else [last]
  }

  // ---------------------------------------------------------------- the loops

  ghost function RedactSpec(text: string, spans: seq<Span>): Option<string>
    requires Fits(text, spans, 0)
  {
    if |text| < MIN_PII_LEN || spans == [] then None else Some(Redacted(text, spans, 0))
  }

  ghost function DetectSpec(text: string, spans: seq<Span>): seq<PiiType> {
    if |text| < MIN_PII_LEN then [] else Distinct(Kinds(spans))
  }

  lemma Regroup(a: string, b: string, c: string)
    ensures a + b + c == a + (b + c)
  {
  }

  lemma SpansFit(text: string, matches: seq<seq<Match>>, spans: seq<Span>)
    requires SpansOf(text, matches, spans)
    ensures Fits(text, spans, 0)
  {
    assert forall i :: 0 <= i < |spans| ==> spans[i] in spans;
  }

  lemma OnlySpans(text: string, matches: seq<seq<Match>>, spans: seq<Span>, other: seq<Span>)
    requires SpansOf(text, matches, spans) && SpansOf(text, matches, other)
    ensures spans == other
  {
    forall s
      ensures s in spans <==> s in other
    {
      assert s in spans <==> exists p: nat, i: nat :: IsChosenSpan(matches, s, p, i);
    }
    LaidOutIsUnique(spans, other);
  }

  lemma RedactedFrom(text: string, spans: seq<Span>, k: nat, cursor: nat)
    requires k < |spans| && Fits(text, spans[k..], cursor)
    ensures cursor <= spans[k].start <= spans[k].end <= |text| && Fits(text, spans[k + 1..], spans[k].end)
    ensures Redacted(text, spans[k..], cursor) ==
      text[cursor..spans[k].start] + Label(spans[k].kind) + Redacted(text, spans[k + 1..], spans[k].end)
  {
    assert spans[k..][0] == spans[k] && spans[k..][1..] == spans[k + 1..];
  }

  method Splice(text: string, spans: seq<Span>) returns (out: string)
    requires Fits(text, spans, 0)
    ensures out == Redacted(text, spans, 0)
  {
    out := "";
    var cursor: nat := 0;
    ghost var goal := Redacted(text, spans, 0);
    for k := 0 to |spans|
      invariant Fits(text, spans[k..], cursor)
      invariant goal == out + Redacted(text, spans[k..], cursor)
    {
      RedactedFrom(text, spans, k, cursor);
      ghost var before, gap, tag := out, text[cursor..spans[k].start], Label(spans[k].kind);
      out := out + text[cursor..spans[k].start];
      out := out + Label(spans[k].kind);
      Regroup(before, gap, tag);
      Regroup(before, gap + tag, Redacted(text, spans[k + 1..], spans[k].end));
      cursor := spans[k].end;
    }
    out := out + text[cursor..];
  }

  method RedactIfChanged(text: string, matches: seq<seq<Match>>) returns (r: Option<string>)
    requires MatchLists(text, matches)
    ensures forall spans :: SpansOf(text, matches, spans) ==> Fits(text, spans, 0) && r == RedactSpec(text, spans)
  {
    forall spans | SpansOf(text, matches, spans)
      ensures Fits(text, spans, 0)
    {
      SpansFit(text, matches, spans);
    }
    if |text| < MIN_PII_LEN {
      return None;
    }
    var spans := FindSpans(text, matches);
    assert SpansOf(text, matches, spans);
    forall other | SpansOf(text, matches, other)
      ensures other == spans
    {
      OnlySpans(text, matches, spans, other);
    }
    if spans == [] {
      return None;
    }
    var out := Splice(text, spans);
    r := Some(out);
  }

  method DetectPii(text: string, matches: seq<seq<Match>>) returns (kinds: seq<PiiType>)
    requires MatchLists(text, matches)
    ensures forall spans :: SpansOf(text, matches, spans) ==> kinds == DetectSpec(text, spans)
  {
    kinds := [];
    if |text| < MIN_PII_LEN {
      return;
    }
    var spans := FindSpans(text, matches);
    var seen: set<PiiType> := {};
    for k := 0 to |spans|
      invariant kinds == Distinct(Kinds(spans)[..k])
      invariant forall x :: x in seen <==> x in Kinds(spans)[..k]
    {
      assert Kinds(spans)[..k + 1][..k] == Kinds(spans)[..k];
      if spans[k].kind !in seen {
        seen := seen + {spans[k].kind};
        kinds := kinds + [spans[k].kind];
      }
    }
    assert Kinds(spans)[..|spans|] == Kinds(spans);
    assert SpansOf(text, matches, spans);
    forall other | SpansOf(text, matches, other)
      ensures other == spans
    {
      OnlySpans(text, matches, spans, other);
    }
  }

  method MaskPii(text: string, matches: seq<seq<Match>>) returns (r: string)
    requires MatchLists(text, matches)
    ensures forall spans :: SpansOf(text, matches, spans) ==>
      Fits(text, spans, 0) && r == if |text| < MIN_PII_LEN then text else Redacted(text, spans, 0)
  {
    var redacted := RedactIfChanged(text, matches);
    r := if redacted.Some? then redacted.value else text;
    forall spans | SpansOf(text, matches, spans)
      ensures spans == [] ==> Fits(text, spans, 0) && Redacted(text, spans, 0) == text
    {
      SpansFit(text, matches, spans);
    }
  }

  // ---------------------------------------------------------------- what redaction means

  /** Redaction changes a text exactly when something is detected, and the labels it writes are of exactly the
      detected types, each listed once. */
  lemma RedactAgreesWithDetect(text: string, spans: seq<Span>)
    requires Fits(text, spans, 0)
    ensures RedactSpec(text, spans).Some? <==> DetectSpec(text, spans) != []
    ensures |text| >= MIN_PII_LEN ==> forall kind :: kind in DetectSpec(text, spans) <==> exists s :: s in spans && s.kind == kind
    ensures forall i, j :: 0 <= i < j < |DetectSpec(text, spans)| ==> DetectSpec(text, spans)[i] != DetectSpec(text, spans)[j]
  {
    var kinds := Kinds(spans);
    if spans != [] {
      assert kinds[0] in kinds;
      assert kinds[0] in Distinct(kinds);
    }
    forall kind
      ensures kind in kinds <==> exists s :: s in spans && s.kind == kind
    {
      if kind in kinds {
        var i :| 0 <= i < |kinds| && kinds[i] == kind;
        assert spans[i] in spans && spans[i].kind == kind;
      }
      if s :| s in spans && s.kind == kind {
        var i :| 0 <= i < |spans| && spans[i] == s;
        assert kinds[i] == kind;
      }
    }
  }

  function Growth(spans: seq<Span>): int {
    if spans == [] then 0 else |Label(spans[0].kind)| - (spans[0].end - spans[0].start) + Growth(spans[1..])
  }

  /** The length changes by the labels put in and the spans taken out. */
  lemma {:induction false} RedactedLength(text: string, spans: seq<Span>, from: nat)
    requires Fits(text, spans, from)
    ensures |Redacted(text, spans, from)| == |text| - from + Growth(spans)
    decreases |spans|
  {
    if spans != [] {
      RedactedLength(text, spans[1..], spans[0].end);
    }
  }

  ghost predicate Inside(spans: seq<Span>, x: nat) { exists i :: 0 <= i < |spans| && spans[i].start <= x < spans[i].end }

  /** The redacted text depends on nothing inside the spans: two texts that agree outside them are redacted to
      the same text. */
  lemma {:induction false} RedactionHidesTheSpans(text: string, other: string, spans: seq<Span>, from: nat)
    requires |other| == |text| && Fits(text, spans, from)
    requires forall x :: from <= x < |text| && !Inside(spans, x) ==> text[x] == other[x]
    ensures Redacted(other, spans, from) == Redacted(text, spans, from)
    decreases |spans|
  {
    if spans == [] {
      assert text[from..] == other[from..];
    } else {
      var s, rest := spans[0], spans[1..];
      forall x | from <= x < s.start
        ensures text[x] == other[x]
      {
        assert !Inside(spans, x);
      }
      assert text[from..s.start] == other[from..s.start];
      forall x | s.end <= x < |text| && !Inside(rest, x)
        ensures text[x] == other[x]
      {
        assert forall i :: 0 < i < |spans| ==> spans[i] == rest[i - 1];
        assert !Inside(spans, x);
      }
      RedactionHidesTheSpans(text, other, rest, s.end);
    }
  }

  // ---------------------------------------------------------------- one match

  /** A single valid match of pattern `p`. */
  function OnlyMatch(p: nat, start: nat, end: nat): seq<seq<Match>> {
    seq(6, q requires 0 <= q < 6 => if q == p then [Match(start, end, true)] else [])
  }

  lemma OnlySpan(text: string, p: nat, start: nat, end: nat)
    requires p < 6 && start < end <= |text|
    ensures MatchLists(text, OnlyMatch(p, start, end)) && SpansOf(text, OnlyMatch(p, start, end), [Span(start, end, KINDS[p])])
  {
    var matches, span := OnlyMatch(p, start, end), Span(start, end, KINDS[p]);
    assert IsMatch(matches, p, 0) && Chosen(matches, p, 0) && IsChosenSpan(matches, span, p, 0);
    forall s
      ensures s in [span] <==> exists q: nat, i: nat :: IsChosenSpan(matches, s, q, i)
    {
      if q: nat, i: nat :| IsChosenSpan(matches, s, q, i) {
        assert IsMatch(matches, q, i);
      }
    }
  }

  /** The labels in the order of the patterns: email, card, SSN, two phone formats, IPv4. */
  method RedactOne(text: string, p: nat, start: nat, end: nat) returns (r: Option<string>)
    requires p < 6 && start < end <= |text|
    ensures |text| < 8 ==> r == None
    ensures |text| >= 8 ==>
      r == Some(text[..start] + ["[EMAIL]", "[CARD]", "[SSN]", "[PHONE]", "[PHONE]", "[IP]"][p] + text[end..])
  {
    OnlySpan(text, p, start, end);
    r := RedactIfChanged(text, OnlyMatch(p, start, end));
    ghost var spans := [Span(start, end, KINDS[p])];
    assert Fits(text, spans, 0) && r == RedactSpec(text, spans);
    assert spans[1..] == [] && text[0..start] == text[..start];
    assert Redacted(text, spans[1..], end) == text[end..];
    LabelsInOrder(p);
  }

  lemma LabelsInOrder(p: nat)
    requires p < 6
    ensures Label(KINDS[p]) == ["[EMAIL]", "[CARD]", "[SSN]", "[PHONE]", "[PHONE]", "[IP]"][p]
    ensures KINDS[p] == [Email, CreditCard, Ssn, Phone, Phone, IpAddress][p]
  {
    assert p == 0 || p == 1 || p == 2 || p == 3 || p == 4 || p == 5;
  }

  method DetectOne(text: string, p: nat, start: nat, end: nat) returns (kinds: seq<PiiType>)
    requires p < 6 && start < end <= |text|
    ensures kinds == if |text| < 8 then [] else [[Email, CreditCard, Ssn, Phone, Phone, IpAddress][p]]
  {
    OnlySpan(text, p, start, end);
    kinds := DetectPii(text, OnlyMatch(p, start, end));
    ghost var spans := [Span(start, end, KINDS[p])];
    assert kinds == DetectSpec(text, spans);
    var kind := KINDS[p];
    assert Kinds(spans) == [kind];
    assert [kind][..0] == [] && Distinct([]) == [] && Distinct([kind]) == [kind];
    LabelsInOrder(p);
  }

  /** Types are listed in the order in which they first appear. */
  lemma {:induction false} DistinctInOrder(kinds: seq<PiiType>, i: nat, j: nat) returns (first: nat, second: nat)
    requires i < j < |Distinct(kinds)|
    ensures first < second < |kinds| && kinds[first] == Distinct(kinds)[i] && kinds[second] == Distinct(kinds)[j]
    ensures forall k :: 0 <= k < second ==> kinds[k] != kinds[second]
  {
    var before, last := kinds[..|kinds| - 1], kinds[|kinds| - 1];
    if j < |Distinct(before)| {
      first, second := DistinctInOrder(before, i, j);
    } else {
      assert Distinct(before)[i] in before;
      first :| 0 <= first < |before| && before[first] == Distinct(before)[i];
      second := |kinds| - 1;
      assert forall k :: 0 <= k < second ==> kinds[k] in before;
    }
  }
}

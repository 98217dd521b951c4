/** `find_spans`: which of the matches of six prioritised patterns are taken as PII.
    A text is the sequence of its UTF-8 bytes, one `char` standing for each; lengths and offsets count those. */
module PiiSpans {
  datatype PiiType = Email | CreditCard | Ssn | Phone | IpAddress

  /** One regex match, with the verdict of the pattern's validator (always true for patterns without one). */
  datatype Match = Match(start: nat, end: nat, valid: bool)

  datatype Span = Span(start: nat, end: nat, kind: PiiType)

  /** The patterns in the order in which they claim text: email, card, SSN, two phone formats, IPv4. */
  const KINDS: seq<PiiType> := [Email, CreditCard, Ssn, Phone, Phone, IpAddress]

  /** What `find_iter` yields for each pattern: non-empty matches inside the text, in order, not overlapping. */
  ghost predicate MatchLists(text: string, matches: seq<seq<Match>>) {
    && |matches| == |KINDS|
    && (forall p, i :: 0 <= p < |matches| && 0 <= i < |matches[p]| ==> matches[p][i].start < matches[p][i].end <= |text|)
    && (forall p, i, j :: 0 <= p < |matches| && 0 <= i < j < |matches[p]| ==> matches[p][i].end <= matches[p][j].start)
  }

  predicate Overlap(a: Match, b: Match) { a.start < b.end && b.start < a.end }

  ghost predicate IsMatch(matches: seq<seq<Match>>, p: nat, i: nat) { p < |matches| && i < |matches[p]| }

  /** What is promised: a match is taken exactly when it is valid and overlaps no taken match of a pattern with
      higher priority. */
  ghost predicate Chosen(matches: seq<seq<Match>>, p: nat, i: nat)
    requires IsMatch(matches, p, i)
    decreases p
  {
    && matches[p][i].valid
    && forall q: nat, j: nat :: q < p && IsMatch(matches, q, j) && Chosen(matches, q, j) ==> !Overlap(matches[q][j], matches[p][i])
  }

  ghost predicate IsChosenSpan(matches: seq<seq<Match>>, s: Span, p: nat, i: nat) {
    && p < |KINDS| && IsMatch(matches, p, i) && Chosen(matches, p, i)
    && s == Span(matches[p][i].start, matches[p][i].end, KINDS[p])
  }

  /** Every valid match overlaps a taken one of the same or a higher priority, possibly itself. */
  lemma ChosenIsMaximal(text: string, matches: seq<seq<Match>>, p: nat, i: nat)
    requires MatchLists(text, matches) && IsMatch(matches, p, i) && matches[p][i].valid
    ensures exists q: nat, j: nat ::
      q <= p && IsMatch(matches, q, j) && Chosen(matches, q, j) && Overlap(matches[q][j], matches[p][i])
  {
    if Chosen(matches, p, i) {
      assert Overlap(matches[p][i], matches[p][i]);
    }
  }

  /** Taken matches never overlap. */
  lemma ChosenAreDisjoint(text: string, matches: seq<seq<Match>>, p: nat, i: nat, q: nat, j: nat)
    requires MatchLists(text, matches) && IsMatch(matches, p, i) && IsMatch(matches, q, j)
    requires Chosen(matches, p, i) && Chosen(matches, q, j) && (p, i) != (q, j)
    ensures !Overlap(matches[p][i], matches[q][j])
  {
  }

  // ---------------------------------------------------------------- sorting by start

  /** In order, not overlapping. */
  ghost predicate LaidOut(spans: seq<Span>) {
    && (forall i :: 0 <= i < |spans| ==> spans[i].start < spans[i].end)
    && forall i, j :: 0 <= i < j < |spans| ==> spans[i].end <= spans[j].start
  }

  ghost predicate Apart(s: Span, t: Span) { s.end <= t.start || t.end <= s.start }

  function Insert(s: Span, spans: seq<Span>): seq<Span> {
    if spans == [] || s.start < spans[0].start then [s] + spans else [spans[0]] + Insert(s, spans[1..])
  }

  lemma {:induction false} InsertMembers(s: Span, spans: seq<Span>, x: Span)
    ensures x in Insert(s, spans) <==> x == s || x in spans
    ensures |Insert(s, spans)| == |spans| + 1
  {
    if spans != [] && s.start >= spans[0].start {
      InsertMembers(s, spans[1..], x);
      assert spans == [spans[0]] + spans[1..];
    }
  }

  lemma ConsLaidOut(s: Span, spans: seq<Span>)
    requires LaidOut(spans) && s.start < s.end && forall t :: t in spans ==> s.end <= t.start
    ensures LaidOut([s] + spans)
  {
    var all := [s] + spans;
    assert forall i :: 0 < i < |all| ==> all[i] == spans[i - 1] && all[i] in spans;
  }

  lemma {:induction false} InsertKeepsLaidOut(s: Span, spans: seq<Span>)
    requires LaidOut(spans) && s.start < s.end && forall t :: t in spans ==> Apart(s, t)
    ensures LaidOut(Insert(s, spans))
  {
    if spans == [] {
    } else if s.start < spans[0].start {
      assert Apart(s, spans[0]);
      assert forall t :: t in spans ==> spans[0].start <= t.start;
      ConsLaidOut(s, spans);
    } else {
      var rest := spans[1..];
      InsertKeepsLaidOut(s, rest);
      assert Apart(s, spans[0]);
      forall t | t in Insert(s, rest)
        ensures spans[0].end <= t.start
      {
        InsertMembers(s, rest, t);
      }
      ConsLaidOut(spans[0], Insert(s, rest));
    }
  }

  method SortByStart(spans: seq<Span>) returns (sorted: seq<Span>)
    requires forall i :: 0 <= i < |spans| ==> spans[i].start < spans[i].end
    requires forall i, j :: 0 <= i < j < |spans| ==> Apart(spans[i], spans[j])
    ensures LaidOut(sorted) && |sorted| == |spans| && forall x :: x in sorted <==> x in spans
  {
    sorted := [];
    for k := 0 to |spans|
      invariant LaidOut(sorted) && |sorted| == k && forall x :: x in sorted <==> x in spans[..k]
    {
      forall t | t in sorted
        ensures Apart(spans[k], t)
      {
        var i :| 0 <= i < k && spans[..k][i] == t;
        assert Apart(spans[i], spans[k]);
      }
      InsertKeepsLaidOut(spans[k], sorted);
      forall x
        ensures x in Insert(spans[k], sorted) <==> x in spans[..k + 1]
      {
        InsertMembers(spans[k], sorted, x);
        assert spans[..k + 1] == spans[..k] + [spans[k]];
      }
      InsertMembers(spans[k], sorted, spans[k]);
      sorted := Insert(spans[k], sorted);
    }
    assert spans[..|spans|] == spans;
  }

  // ---------------------------------------------------------------- the nested loops

  method AnyOverlap(occupied: seq<(nat, nat)>, start: nat, end: nat) returns (r: bool)
    ensures r <==> exists k :: 0 <= k < |occupied| && start < occupied[k].1 && end > occupied[k].0
  {
    for k := 0 to |occupied|
      invariant forall l :: 0 <= l < k ==> !(start < occupied[l].1 && end > occupied[l].0)
    {
      if start < occupied[k].1 && end > occupied[k].0 {
        return true;
      }
    }
    return false;
  }

  /** What the loops have taken when they stand before match `i` of pattern `p`; `picks` says from where. */
  ghost predicate Progress(matches: seq<seq<Match>>, p: nat, i: nat, spans: seq<Span>, occupied: seq<(nat, nat)>,
                           picks: seq<(nat, nat)>) {
    && |spans| == |occupied| == |picks|
    && (forall k :: 0 <= k < |picks| ==> IsChosenSpan(matches, spans[k], picks[k].0, picks[k].1))
    && (forall k :: 0 <= k < |picks| ==> occupied[k] == (spans[k].start, spans[k].end))
    && (forall k :: 0 <= k < |picks| ==> picks[k].0 < p || (picks[k].0 == p && picks[k].1 < i))
    && (forall k, l :: 0 <= k < l < |picks| ==> picks[k] != picks[l])
    && (forall q: nat, j: nat :: IsMatch(matches, q, j) && (q < p || (q == p && j < i)) && Chosen(matches, q, j) ==>
          (q, j) in picks)
  }

  /** The test of the inner loop is the promised condition. */
  lemma TestIsChosen(text: string, matches: seq<seq<Match>>, p: nat, i: nat, spans: seq<Span>,
                     occupied: seq<(nat, nat)>, picks: seq<(nat, nat)>)
    requires MatchLists(text, matches) && IsMatch(matches, p, i) && Progress(matches, p, i, spans, occupied, picks)
    ensures var m := matches[p][i];
      Chosen(matches, p, i) <==>
        m.valid && !exists k :: 0 <= k < |occupied| && m.start < occupied[k].1 && m.end > occupied[k].0
  {
    var m := matches[p][i];
    if k :| 0 <= k < |occupied| && m.start < occupied[k].1 && m.end > occupied[k].0 {
      assert IsChosenSpan(matches, spans[k], picks[k].0, picks[k].1);
      assert Overlap(matches[picks[k].0][picks[k].1], m);
    } else if m.valid {
      forall q: nat, j: nat | q < p && IsMatch(matches, q, j) && Chosen(matches, q, j)
        ensures !Overlap(matches[q][j], m)
      {
        var k :| 0 <= k < |picks| && picks[k] == (q, j);
        assert IsChosenSpan(matches, spans[k], q, j);
      }
    }
  }

  lemma TakeProgress(matches: seq<seq<Match>>, p: nat, i: nat, spans: seq<Span>, occupied: seq<(nat, nat)>,
                     picks: seq<(nat, nat)>)
    requires p < |KINDS| && IsMatch(matches, p, i) && Chosen(matches, p, i)
    requires Progress(matches, p, i, spans, occupied, picks)
    ensures var m := matches[p][i];
      Progress(matches, p, i + 1, spans + [Span(m.start, m.end, KINDS[p])], occupied + [(m.start, m.end)], picks + [(p, i)])
  {
  }

  lemma ProgressAtEnd(matches: seq<seq<Match>>, spans: seq<Span>, occupied: seq<(nat, nat)>, picks: seq<(nat, nat)>)
    requires Progress(matches, |matches|, 0, spans, occupied, picks)
    ensures forall s :: s in spans <==> exists p: nat, i: nat :: IsChosenSpan(matches, s, p, i)
  {
    forall s
      ensures s in spans <==> exists p: nat, i: nat :: IsChosenSpan(matches, s, p, i)
    {
      if p: nat, i: nat :| IsChosenSpan(matches, s, p, i) {
        var k :| 0 <= k < |picks| && picks[k] == (p, i);
        assert IsChosenSpan(matches, spans[k], p, i);
      }
    }
  }

  method FindSpans(text: string, matches: seq<seq<Match>>) returns (spans: seq<Span>)
    requires MatchLists(text, matches)
    ensures LaidOut(spans) && forall s :: s in spans ==> s.end <= |text|
    ensures forall s :: s in spans <==> exists p: nat, i: nat :: IsChosenSpan(matches, s, p, i)
  {
    spans := [];
    var occupied: seq<(nat, nat)> := [];
    ghost var picks: seq<(nat, nat)> := [];
    for p := 0 to |matches|
      invariant Progress(matches, p, 0, spans, occupied, picks)
    {
      for i := 0 to |matches[p]|
        invariant Progress(matches, p, i, spans, occupied, picks)
      {
        var m := matches[p][i];
        TestIsChosen(text, matches, p, i, spans, occupied, picks);
        var taken := AnyOverlap(occupied, m.start, m.end);
        if taken {
          continue;
        }
        if !m.valid {
          continue;
        }
        TakeProgress(matches, p, i, spans, occupied, picks);
        occupied := occupied + [(m.start, m.end)];
        spans := spans + [Span(m.start, m.end, KINDS[p])];
        picks := picks + [(p, i)];
      }
    }
    PicksAreApart(text, matches, spans, picks);
    ProgressAtEnd(matches, spans, occupied, picks);
    spans := SortByStart(spans);
  }

  lemma PicksAreApart(text: string, matches: seq<seq<Match>>, spans: seq<Span>, picks: seq<(nat, nat)>)
    requires MatchLists(text, matches) && |spans| == |picks|
    requires forall k :: 0 <= k < |picks| ==> IsChosenSpan(matches, spans[k], picks[k].0, picks[k].1)
    requires forall k, l :: 0 <= k < l < |picks| ==> picks[k] != picks[l]
    ensures forall i :: 0 <= i < |spans| ==> spans[i].start < spans[i].end
    ensures forall i, j :: 0 <= i < j < |spans| ==> Apart(spans[i], spans[j])
  {
    forall i, j | 0 <= i < j < |spans|
      ensures Apart(spans[i], spans[j])
    {
      assert picks[i] != picks[j];
      ChosenAreDisjoint(text, matches, picks[i].0, picks[i].1, picks[j].0, picks[j].1);
    }
  }

  // ---------------------------------------------------------------- the result is determined

  /** What `FindSpans` promises of its result. */
  ghost predicate SpansOf(text: string, matches: seq<seq<Match>>, spans: seq<Span>) {
    && LaidOut(spans) && (forall s :: s in spans ==> s.end <= |text|)
    && forall s :: s in spans <==> exists p: nat, i: nat :: IsChosenSpan(matches, s, p, i)
  }

  lemma {:induction false} LaidOutIsUnique(a: seq<Span>, b: seq<Span>)
    requires LaidOut(a) && LaidOut(b) && forall s :: s in a <==> s in b
    ensures a == b
  {
    if a != [] {
      assert a[0] in b;
    }
    if b != [] {
      assert b[0] in a;
      SameFirst(a, b);
      forall s
        ensures s in a[1..] <==> s in b[1..]
      {
        TailMembers(a, s);
        TailMembers(b, s);
      }
      LaidOutIsUnique(a[1..], b[1..]);
      SameHeadAndTail(a, b);
    }
  }

  lemma SameHeadAndTail(a: seq<Span>, b: seq<Span>)
    requires a != [] && b != [] && a[0] == b[0] && a[1..] == b[1..]
    ensures a == b
  {
    assert a == [a[0]] + a[1..] && b == [b[0]] + b[1..];
  }

  lemma SameFirst(a: seq<Span>, b: seq<Span>)
    requires LaidOut(a) && LaidOut(b) && a != [] && b != [] && a[0] in b && b[0] in a
    ensures a[0] == b[0]
  {
  }

  lemma TailMembers(a: seq<Span>, s: Span)
    requires LaidOut(a) && a != []
    ensures s in a[1..] <==> s in a && s != a[0]
  {
  }
}

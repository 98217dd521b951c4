/** `collapse_spaced_chars`: joins letters that are written with spaces between them. `alpha` is the
    alphabetic test; all that is assumed of it is that a space is not a letter. */
module SpacedChars {
  // ---------------------------------------------------------------- what the loops compute

  function LeadingSpaces(s: string): (n: nat)
    ensures n <= |s|
  {
    if s == "" || s[0] != ' ' then 0 else 1 + LeadingSpaces(s[1..])
  }

  lemma {:induction false} LeadingSpacesOf(s: string, k: nat)
    requires k <= |s|
    ensures LeadingSpaces(s) == k <==> (forall i :: 0 <= i < k ==> s[i] == ' ') && (k < |s| ==> s[k] != ' ')
  {
    if k > 0 && s[0] == ' ' {
      LeadingSpacesOf(s[1..], k - 1);
      assert forall i :: 0 <= i < k - 1 ==> s[1..][i] == s[i + 1];
    }
  }

  /** How far the next link of a chain reaches into the text after a letter: at least one space, then a letter
      that no letter follows. 0 when there is no such link. */
  function Link(alpha: char -> bool, s: string): (n: nat)
    ensures n <= |s| && (n > 0 ==> n >= 2 && alpha(s[n - 1]))
  {
    var k := LeadingSpaces(s);
    if k > 0 && k < |s| && alpha(s[k]) && (k + 1 >= |s| || !alpha(s[k + 1])) then k + 1 else 0
  }

  /** The length of the text taken by the chain that continues after a letter. */
  function ChainLength(alpha: char -> bool, s: string): (n: nat)
    ensures n <= |s|
    decreases |s|
  {
    if Link(alpha, s) == 0 then 0 else Link(alpha, s) + ChainLength(alpha, s[Link(alpha, s)..])
  }

  /** The letters of that chain. */
  function ChainLetters(alpha: char -> bool, s: string): string
    decreases |s|
  {
    if Link(alpha, s) == 0 then "" else [s[Link(alpha, s) - 1]] + ChainLetters(alpha, s[Link(alpha, s)..])
  }

  predicate LongChain(alpha: char -> bool, s: string) {
    s != "" && alpha(s[0]) && |ChainLetters(alpha, s[1..])| >= 2
  }

  function Collapse(alpha: char -> bool, s: string): string
    decreases |s|
  {
    if s == "" then ""
    else if LongChain(alpha, s) then
      [s[0]] + ChainLetters(alpha, s[1..]) + Collapse(alpha, s[1..][ChainLength(alpha, s[1..])..])
    else [s[0]] + Collapse(alpha, s[1..])
  }

  // ---------------------------------------------------------------- the loops

  method ScanSpaces(text: string, j: nat) returns (k: nat)
    requires j <= |text|
    ensures j <= k <= |text| && k - j == LeadingSpaces(text[j..])
  {
    k := j;
    while k < |text| && text[k] == ' '
      invariant j <= k <= |text|
      invariant LeadingSpaces(text[j..]) == k - j + LeadingSpaces(text[k..])
    {
      assert text[k..][1..] == text[k + 1..];
      k := k + 1;
    }
  }

  /** The middle loop: the chain that continues after position `start`. */
  method ScanChain(alpha: char -> bool, text: string, start: nat) returns (letters: string, j: nat)
    requires start <= |text|
    ensures start <= j <= |text|
    ensures letters == ChainLetters(alpha, text[start..]) && j - start == ChainLength(alpha, text[start..])
  {
    letters, j := "", start;
    ghost var all, length := ChainLetters(alpha, text[start..]), ChainLength(alpha, text[start..]);
    while j < |text|
      invariant start <= j <= |text|
      invariant all == letters + ChainLetters(alpha, text[j..])
      invariant length == j - start + ChainLength(alpha, text[j..])
    {
      var k := ScanSpaces(text, j);
      LinkAt(alpha, text, j, k);
      if k > j && k < |text| && alpha(text[k]) {
        var after := k + 1;
        if after >= |text| || !alpha(text[after]) {
          Regroup(letters, [text[k]], ChainLetters(alpha, text[k + 1..]));
          letters := letters + [text[k]];
          j := k + 1;
          continue;
        }
      }
      break;
    }
  }

  lemma Regroup(a: string, b: string, c: string)
    ensures a + b + c == a + (b + c)
  {
  }

  lemma LinkAt(alpha: char -> bool, text: string, j: nat, k: nat)
    requires j <= k <= |text| && k - j == LeadingSpaces(text[j..])
    ensures k > j && k < |text| && alpha(text[k]) && (k + 1 >= |text| || !alpha(text[k + 1])) ==>
      Link(alpha, text[j..]) == k + 1 - j
      && ChainLetters(alpha, text[j..]) == [text[k]] + ChainLetters(alpha, text[k + 1..])
      && ChainLength(alpha, text[j..]) == k + 1 - j + ChainLength(alpha, text[k + 1..])
    ensures !(k > j && k < |text| && alpha(text[k]) && (k + 1 >= |text| || !alpha(text[k + 1]))) ==>
      Link(alpha, text[j..]) == 0
  {
    if k < |text| {
      assert text[j..][k - j] == text[k] && text[j..][k + 1 - j..] == text[k + 1..];
    }
  }

  lemma CollapseAt(alpha: char -> bool, text: string, i: nat, letters: string, j: nat)
    requires i < j <= |text| && letters == ChainLetters(alpha, text[i + 1..]) && j - (i + 1) == ChainLength(alpha, text[i + 1..])
    ensures Collapse(alpha, text[i..]) ==
      if alpha(text[i]) && |letters| >= 2 then [text[i]] + letters + Collapse(alpha, text[j..])
      else [text[i]] + Collapse(alpha, text[i + 1..])
  {
    assert text[i..][1..] == text[i + 1..] && text[i + 1..][j - (i + 1)..] == text[j..];
  }

  method CollapseSpacedChars(alpha: char -> bool, text: string) returns (out: string)
    ensures out == Collapse(alpha, text)
  {
    out := "";
    var i := 0;
    ghost var goal := Collapse(alpha, text);
    while i < |text|
      invariant 0 <= i <= |text|
      invariant goal == out + Collapse(alpha, text[i..])
    {
      if alpha(text[i]) {
        var letters, j := ScanChain(alpha, text, i + 1);
        CollapseAt(alpha, text, i, letters, j);
        if 1 + |letters| >= 3 {
          Regroup(out, [text[i]] + letters, Collapse(alpha, text[j..]));
          out := out + ([text[i]] + letters);
          i := j;
        } else {
          Regroup(out, [text[i]], Collapse(alpha, text[i + 1..]));
          out := out + [text[i]];
          i := i + 1;
        }
      } else {
        NonLetterStays(alpha, text, i);
        Regroup(out, [text[i]], Collapse(alpha, text[i + 1..]));
        out := out + [text[i]];
        i := i + 1;
      }
    }
  }

  lemma NonLetterStays(alpha: char -> bool, text: string, i: nat)
    requires i < |text| && !alpha(text[i])
    ensures Collapse(alpha, text[i..]) == [text[i]] + Collapse(alpha, text[i + 1..])
  {
    assert text[i..][1..] == text[i + 1..];
  }

  // ---------------------------------------------------------------- only spaces go

  /** `t` is `s` with some of its spaces left out. */
  ghost predicate DropsSpaces(s: string, t: string)
    decreases |s|
  {
    if s == "" then t == ""
    else (t != "" && s[0] == t[0] && DropsSpaces(s[1..], t[1..])) || (s[0] == ' ' && DropsSpaces(s[1..], t))
  }

  function NonSpaces(s: string): string {
    if s == "" then "" else (if s[0] == ' ' then "" else [s[0]]) + NonSpaces(s[1..])
  }

  lemma {:induction false} DropsSpacesKeepsTheRest(s: string, t: string)
    requires DropsSpaces(s, t)
    ensures NonSpaces(t) == NonSpaces(s) && |t| <= |s|
    decreases |s|
  {
    if s != "" {
      if t != "" && s[0] == t[0] && DropsSpaces(s[1..], t[1..]) {
        DropsSpacesKeepsTheRest(s[1..], t[1..]);
      } else {
        DropsSpacesKeepsTheRest(s[1..], t);
      }
    }
  }

  /** A link taken out of the text: its spaces go, its letter stays. */
  lemma {:induction false} DropsLink(s: string, n: nat, t: string)
    requires 0 < n <= |s| && (forall i :: 0 <= i < n - 1 ==> s[i] == ' ') && DropsSpaces(s[n..], t)
    ensures DropsSpaces(s, [s[n - 1]] + t)
    decreases n
  {
    if n == 1 {
      assert ([s[0]] + t)[1..] == t;
    } else {
      assert s[1..][n - 1..] == s[n..];
      DropsLink(s[1..], n - 1, t);
    }
  }

  lemma {:induction false} DropsChain(alpha: char -> bool, s: string, t: string)
    requires DropsSpaces(s[ChainLength(alpha, s)..], t)
    ensures DropsSpaces(s, ChainLetters(alpha, s) + t)
    decreases |s|
  {
    var n := Link(alpha, s);
    if n == 0 {
      assert "" + t == t && s[0..] == s;
    } else {
      var rest := ChainLetters(alpha, s[n..]);
      assert s[n..][ChainLength(alpha, s[n..])..] == s[ChainLength(alpha, s)..];
      DropsChain(alpha, s[n..], t);
      LeadingSpacesOf(s, n - 1);
      DropsLink(s, n, rest + t);
      assert [s[n - 1]] + (rest + t) == [s[n - 1]] + rest + t;
    }
  }

  lemma {:induction false} ChainTakesSpaces(alpha: char -> bool, s: string)
    ensures ChainLength(alpha, s) >= 2 * |ChainLetters(alpha, s)|
    decreases |s|
  {
    if Link(alpha, s) > 0 {
      ChainTakesSpaces(alpha, s[Link(alpha, s)..]);
    }
  }

  lemma DropsHead(c: char, s: string, t: string)
    requires DropsSpaces(s, t)
    ensures DropsSpaces([c] + s, [c] + t)
  {
    assert ([c] + s)[1..] == s && ([c] + t)[1..] == t;
  }

  /** The result is the text with some spaces deleted; so its other characters are kept, in order. A text with
      a long chain at its start gets shorter. */
  lemma {:induction false} CollapseDropsOnlySpaces(alpha: char -> bool, s: string)
    ensures DropsSpaces(s, Collapse(alpha, s))
    ensures LongChain(alpha, s) ==> |Collapse(alpha, s)| < |s|
    decreases |s|
  {
    if s != "" {
      var tail := s[1..];
      assert s == [s[0]] + tail;
      if LongChain(alpha, s) {
        var rest := tail[ChainLength(alpha, tail)..];
        CollapseDropsOnlySpaces(alpha, rest);
        DropsSpacesKeepsTheRest(rest, Collapse(alpha, rest));
        DropsChain(alpha, tail, Collapse(alpha, rest));
        DropsHead(s[0], tail, ChainLetters(alpha, tail) + Collapse(alpha, rest));
        Regroup([s[0]], ChainLetters(alpha, tail), Collapse(alpha, rest));
        ChainTakesSpaces(alpha, tail);
      } else {
        CollapseDropsOnlySpaces(alpha, tail);
        DropsHead(s[0], tail, Collapse(alpha, tail));
      }
    }
  }

  lemma CollapseKeepsNonSpaces(alpha: char -> bool, s: string)
    ensures NonSpaces(Collapse(alpha, s)) == NonSpaces(s)
  {
    CollapseDropsOnlySpaces(alpha, s);
    DropsSpacesKeepsTheRest(s, Collapse(alpha, s));
  }

  // ---------------------------------------------------------------- normal form

  /** No letter starts a long chain. */
  ghost predicate Calm(alpha: char -> bool, s: string) {
    s == "" || (!LongChain(alpha, s) && Calm(alpha, s[1..]))
  }

  /** Three letters with nothing but spaces, and some, between them, the last two standing alone. */
  ghost predicate SpacedTriple(alpha: char -> bool, s: string, i: nat, j: nat, k: nat) {
    && i + 1 < j && j + 1 < k < |s|
    && alpha(s[i]) && alpha(s[j]) && alpha(s[k])
    && (forall m :: i < m < j ==> s[m] == ' ') && (forall m :: j < m < k ==> s[m] == ' ')
    && (k + 1 < |s| ==> !alpha(s[k + 1]))
  }

  lemma {:induction false} CalmIsUnchanged(alpha: char -> bool, s: string)
    requires Calm(alpha, s)
    ensures Collapse(alpha, s) == s
  {
    if s != "" {
      CalmIsUnchanged(alpha, s[1..]);
    }
  }

  lemma {:induction false} UnchangedIsCalm(alpha: char -> bool, s: string)
    requires Collapse(alpha, s) == s
    ensures Calm(alpha, s)
  {
    if s != "" {
      CollapseDropsOnlySpaces(alpha, s);
      assert Collapse(alpha, s)[1..] == Collapse(alpha, s[1..]);
      UnchangedIsCalm(alpha, s[1..]);
    }
  }

  /** The first character never goes, nor does a letter that follows a letter. */
  lemma HeadStays(alpha: char -> bool, s: string)
    requires s != "" && !alpha(' ')
    ensures Collapse(alpha, s) != "" && Collapse(alpha, s)[0] == s[0]
    ensures |s| >= 2 && s[1] != ' ' ==> Collapse(alpha, s) == [s[0]] + Collapse(alpha, s[1..])
  {
  }

  lemma {:induction false} SpacesStay(alpha: char -> bool, s: string, k: nat)
    requires k <= LeadingSpaces(s) && !alpha(' ')
    ensures Collapse(alpha, s) == s[..k] + Collapse(alpha, s[k..])
  {
    if k > 0 {
      var tail := s[1..];
      SpacesStay(alpha, tail, k - 1);
      Regroup([s[0]], tail[..k - 1], Collapse(alpha, tail[k - 1..]));
      assert tail[k - 1..] == s[k..] && s[..k] == [s[0]] + tail[..k - 1];
    } else {
      assert s[..0] + Collapse(alpha, s[0..]) == Collapse(alpha, s);
    }
  }

  /** Collapsing what follows a letter makes no new link, and keeps a link that nothing follows. */
  lemma LinkAfterCollapse(alpha: char -> bool, s: string)
    requires !alpha(' ')
    ensures Link(alpha, s) == 0 ==> Link(alpha, Collapse(alpha, s)) == 0
    ensures var n := Link(alpha, s); n > 0 && Link(alpha, s[n..]) == 0 ==>
      Link(alpha, Collapse(alpha, s)) == n && Collapse(alpha, s)[n..] == Collapse(alpha, s[n..])
  {
    var k := LeadingSpaces(s);
    var u := s[k..];
    var t := Collapse(alpha, s);
    LeadingSpacesOf(s, k);
    SpacesStay(alpha, s, k);
    if u == "" {
      LeadingSpacesOf(t, k);
    } else {
      HeadStays(alpha, u);
      LeadingSpacesOf(t, k);
      if |u| >= 2 && alpha(u[0]) && k > 0 {
        HeadStays(alpha, u[1..]);
        if alpha(u[1]) {
          assert t[k + 1] == u[1];
        } else if Link(alpha, u[1..]) == 0 {
          assert s[k + 1..] == u[1..];
          assert Collapse(alpha, u) == [u[0]] + Collapse(alpha, u[1..]);
          assert t[k + 1..] == Collapse(alpha, u[1..]);
        }
      }
    }
  }

  lemma {:induction false} ChainEnds(alpha: char -> bool, s: string)
    ensures Link(alpha, s[ChainLength(alpha, s)..]) == 0
    ensures forall i :: 0 <= i < |ChainLetters(alpha, s)| ==> alpha(ChainLetters(alpha, s)[i])
    decreases |s|
  {
    var n := Link(alpha, s);
    if n == 0 {
      assert s[0..] == s;
    } else {
      ChainEnds(alpha, s[n..]);
      assert s[n..][ChainLength(alpha, s[n..])..] == s[ChainLength(alpha, s)..];
    }
  }

  /** Letters written together start no chain before the last of them. */
  lemma {:induction false} JoinedLettersAreCalm(alpha: char -> bool, letters: string, rest: string)
    requires !alpha(' ') && Calm(alpha, rest) && Link(alpha, rest) == 0
    requires forall i :: 0 <= i < |letters| ==> alpha(letters[i])
    ensures Calm(alpha, letters + rest)
  {
    if letters == "" {
      assert letters + rest == rest;
    } else {
      var tail := letters[1..] + rest;
      JoinedLettersAreCalm(alpha, letters[1..], rest);
      assert (letters + rest)[1..] == tail;
      assert letters[1..] == "" ==> tail == rest;
      assert letters[1..] != "" ==> tail[0] == letters[1];
    }
  }

  lemma {:induction false} CollapseIsCalm(alpha: char -> bool, s: string)
    requires !alpha(' ')
    ensures Calm(alpha, Collapse(alpha, s))
    decreases |s|
  {
    if s != "" {
      var tail := s[1..];
      if LongChain(alpha, s) {
        var letters, rest := ChainLetters(alpha, tail), tail[ChainLength(alpha, tail)..];
        ChainEnds(alpha, tail);
        CollapseIsCalm(alpha, rest);
        LinkAfterCollapse(alpha, rest);
        JoinedLettersAreCalm(alpha, [s[0]] + letters, Collapse(alpha, rest));
      } else {
        CollapseIsCalm(alpha, tail);
        ShortChainStaysShort(alpha, s[0], tail);
      }
    }
  }

  lemma ShortChainStaysShort(alpha: char -> bool, c: char, tail: string)
    requires !alpha(' ') && !LongChain(alpha, [c] + tail)
    ensures !LongChain(alpha, [c] + Collapse(alpha, tail))
  {
    assert ([c] + tail)[1..] == tail && ([c] + Collapse(alpha, tail))[1..] == Collapse(alpha, tail);
    LinkAfterCollapse(alpha, tail);
    var n := Link(alpha, tail);
    if n > 0 && Link(alpha, tail[n..]) == 0 {
      LinkAfterCollapse(alpha, tail[n..]);
    }
  }

  /** Collapsing twice is collapsing once. */
  lemma CollapseIsIdempotent(alpha: char -> bool, s: string)
    requires !alpha(' ')
    ensures Collapse(alpha, Collapse(alpha, s)) == Collapse(alpha, s)
  {
    CollapseIsCalm(alpha, s);
    CalmIsUnchanged(alpha, Collapse(alpha, s));
  }

  // ---------------------------------------------------------------- what a chain is, by positions

  lemma LinkByPosition(alpha: char -> bool, s: string, j: nat)
    requires !alpha(' ') && j < |s|
    ensures Link(alpha, s) == j + 1 <==>
      0 < j && (forall m :: 0 <= m < j ==> s[m] == ' ') && alpha(s[j]) && (j + 1 < |s| ==> !alpha(s[j + 1]))
  {
    LeadingSpacesOf(s, j);
  }

  lemma LongChainIsTwoLinks(alpha: char -> bool, s: string)
    requires s != ""
    ensures var n := Link(alpha, s[1..]);
      LongChain(alpha, s) <==> alpha(s[0]) && n > 0 && Link(alpha, s[1..][n..]) > 0
  {
    var n := Link(alpha, s[1..]);
    if n > 0 {
      var rest := ChainLetters(alpha, s[1..][n..]);
      assert rest == "" <==> Link(alpha, s[1..][n..]) == 0;
    }
  }

  lemma TripleIsLongChain(alpha: char -> bool, s: string, j: nat, k: nat)
    requires !alpha(' ') && SpacedTriple(alpha, s, 0, j, k)
    ensures LongChain(alpha, s)
  {
    var tail := s[1..];
    assert forall i :: 0 <= i < |tail| ==> tail[i] == s[i + 1];
    LinkByPosition(alpha, tail, j - 1);
    assert Link(alpha, tail) == j;
    var rest := tail[j..];
    assert forall i :: 0 <= i < |rest| ==> rest[i] == s[j + 1 + i];
    LinkByPosition(alpha, rest, k - j - 1);
    LongChainIsTwoLinks(alpha, s);
  }

  lemma LongChainIsTriple(alpha: char -> bool, s: string) returns (j: nat, k: nat)
    requires !alpha(' ') && LongChain(alpha, s)
    ensures SpacedTriple(alpha, s, 0, j, k)
  {
    LongChainIsTwoLinks(alpha, s);
    var tail := s[1..];
    j := Link(alpha, tail);
    var rest := tail[j..];
    var m := Link(alpha, rest);
    k := j + m;
    LinkByPosition(alpha, tail, j - 1);
    LinkByPosition(alpha, rest, m - 1);
    assert forall i :: 0 < i < |s| ==> s[i] == tail[i - 1];
    assert forall i :: j < i < |s| ==> s[i] == rest[i - j - 1];
  }

  lemma LongChainByPosition(alpha: char -> bool, s: string)
    requires !alpha(' ')
    ensures LongChain(alpha, s) <==> exists j: nat, k: nat :: SpacedTriple(alpha, s, 0, j, k)
  {
    if LongChain(alpha, s) {
      var j, k := LongChainIsTriple(alpha, s);
    }
    if j: nat, k: nat :| SpacedTriple(alpha, s, 0, j, k) {
      TripleIsLongChain(alpha, s, j, k);
    }
  }

  lemma {:induction false} CalmByPosition(alpha: char -> bool, s: string)
    requires !alpha(' ')
    ensures Calm(alpha, s) <==> forall i: nat, j: nat, k: nat :: !SpacedTriple(alpha, s, i, j, k)
  {
    if s != "" {
      var tail := s[1..];
      CalmByPosition(alpha, tail);
      LongChainByPosition(alpha, s);
      forall i: nat, j: nat, k: nat | i > 0 && j > 0 && k > 0
        ensures SpacedTriple(alpha, s, i, j, k) <==> SpacedTriple(alpha, tail, i - 1, j - 1, k - 1)
      {
        ShiftedTriple(alpha, s, i, j, k);
      }
      forall i: nat, j: nat, k: nat
        ensures SpacedTriple(alpha, tail, i, j, k) ==> SpacedTriple(alpha, s, i + 1, j + 1, k + 1)
      {
        ShiftedTriple(alpha, s, i + 1, j + 1, k + 1);
      }
    }
  }

  lemma ShiftedTriple(alpha: char -> bool, s: string, i: nat, j: nat, k: nat)
    requires s != "" && i > 0 && j > 0 && k > 0
    ensures SpacedTriple(alpha, s, i, j, k) <==> SpacedTriple(alpha, s[1..], i - 1, j - 1, k - 1)
  {
    var tail := s[1..];
    assert forall m :: 0 <= m < |tail| ==> tail[m] == s[m + 1];
    assert forall m :: 0 < m < |s| ==> s[m] == tail[m - 1];
  }

  /** The result has no three spaced letters, and a text is left alone exactly when it has none. */
  lemma CollapseRemovesSpacedTriples(alpha: char -> bool, s: string)
    requires !alpha(' ')
    ensures forall i: nat, j: nat, k: nat :: !SpacedTriple(alpha, Collapse(alpha, s), i, j, k)
    ensures Collapse(alpha, s) == s <==> forall i: nat, j: nat, k: nat :: !SpacedTriple(alpha, s, i, j, k)
  {
    CollapseIsCalm(alpha, s);
    CalmByPosition(alpha, Collapse(alpha, s));
    CalmByPosition(alpha, s);
    if Calm(alpha, s) {
      CalmIsUnchanged(alpha, s);
    }
    if Collapse(alpha, s) == s {
      UnchangedIsCalm(alpha, s);
    }
  }
}

/** `collapse_char_repetition`: three or more of the same letter in a row become one. */
module CharRuns {
  datatype Run = Run(c: char, n: nat)

  /** How often the first character is repeated at the start. */
  function RunLength(s: string): (n: nat)
    requires s != ""
    ensures 1 <= n <= |s|
  {
    if |s| > 1 && s[1] == s[0] then 1 + RunLength(s[1..]) else 1
  }

  /** The text as its maximal runs of equal characters. */
  function Runs(s: string): seq<Run>
    decreases |s|
  {
    if s == "" then [] else [Run(s[0], RunLength(s))] + Runs(s[RunLength(s)..])
  }

  function Repeat(c: char, n: nat): string { if n == 0 then "" else [c] + Repeat(c, n - 1) }

  function Expand(runs: seq<Run>): string {
    if runs == [] then "" else Repeat(runs[0].c, runs[0].n) + Expand(runs[1..])
  }

  /** What is promised of one run: a letter run of three or more becomes a single letter, any other stays. */
  function Squash(alpha: char -> bool, r: Run): Run { if alpha(r.c) && r.n >= 3 then Run(r.c, 1) else r }

  function SquashAll(alpha: char -> bool, runs: seq<Run>): seq<Run> {
    if runs == [] then [] else [Squash(alpha, runs[0])] + SquashAll(alpha, runs[1..])
  }

  // ---------------------------------------------------------------- the loop

  function Squeeze(alpha: char -> bool, s: string): string
    decreases |s|
  {
    if s == "" then ""
    else if alpha(s[0]) && RunLength(s) >= 3 then [s[0]] + Squeeze(alpha, s[RunLength(s)..])
    else [s[0]] + Squeeze(alpha, s[1..])
  }

  lemma SqueezeAt(alpha: char -> bool, text: string, i: nat)
    requires i < |text|
    ensures var n := RunLength(text[i..]);
      Squeeze(alpha, text[i..]) == if alpha(text[i]) && n >= 3 then [text[i]] + Squeeze(alpha, text[i + n..])
                                   else [text[i]] + Squeeze(alpha, text[i + 1..])
  {
    assert text[i..][1..] == text[i + 1..] && text[i..][RunLength(text[i..])..] == text[i + RunLength(text[i..])..];
  }

  lemma Regroup(a: string, b: string, c: string)
    ensures a + b + c == a + (b + c)
  {
  }

  method CountRun(text: string, i: nat) returns (n: nat)
    requires i < |text|
    ensures n == RunLength(text[i..])
  {
    n := 1;
    ghost var whole := RunLength(text[i..]);
    while i + n < |text| && text[i + n] == text[i]
      invariant 1 <= n && i + n <= |text| && text[i + n - 1] == text[i]
      invariant whole == n - 1 + RunLength(text[i + n - 1..])
    {
      assert text[i + n - 1..][1..] == text[i + n..];
      n := n + 1;
    }
  }

  method CollapseCharRepetition(alpha: char -> bool, text: string) returns (out: string)
    ensures out == Squeeze(alpha, text)
  {
    out := "";
    var i := 0;
    ghost var goal := Squeeze(alpha, text);
    while i < |text|
      invariant 0 <= i <= |text|
      invariant goal == out + Squeeze(alpha, text[i..])
    {
      SqueezeAt(alpha, text, i);
      ghost var before := out;
      out := out + [text[i]];
      if alpha(text[i]) {
        var runLen := CountRun(text, i);
        if runLen >= 3 {
          Regroup(before, [text[i]], Squeeze(alpha, text[i + runLen..]));
          i := i + runLen;
          continue;
        }
      }
      Regroup(before, [text[i]], Squeeze(alpha, text[i + 1..]));
      i := i + 1;
    }
  }

  // ---------------------------------------------------------------- what it does to the runs

  /** A character put in front either lengthens the first run or starts a new one. */
  lemma RunsOfCons(c: char, t: string)
    ensures t != "" && t[0] == c ==> Runs([c] + t) == [Run(c, Runs(t)[0].n + 1)] + Runs(t)[1..]
    ensures t == "" || t[0] != c ==> Runs([c] + t) == [Run(c, 1)] + Runs(t)
  {
    assert ([c] + t)[1..] == t;
    if t != "" && t[0] == c {
      assert ([c] + t)[1 + RunLength(t)..] == t[RunLength(t)..];
    }
  }

  lemma {:induction false} AfterRun(s: string)
    requires s != ""
    ensures forall i :: 0 <= i < RunLength(s) ==> s[i] == s[0]
    ensures RunLength(s) < |s| ==> s[RunLength(s)] != s[0]
  {
    if |s| > 1 && s[1] == s[0] {
      AfterRun(s[1..]);
      assert forall i :: 0 < i < RunLength(s) ==> s[i] == s[1..][i - 1];
    }
  }

  lemma SqueezeHead(alpha: char -> bool, s: string)
    ensures (s == "" <==> Squeeze(alpha, s) == "") && (s != "" ==> Squeeze(alpha, s)[0] == s[0])
  {
  }

  lemma SquashAllOfCons(alpha: char -> bool, r: Run, runs: seq<Run>)
    ensures SquashAll(alpha, [r] + runs) == [Squash(alpha, r)] + SquashAll(alpha, runs)
  {
    assert ([r] + runs)[1..] == runs;
  }

  /** A first character that is kept alone lengthens or starts the same run before and after. */
  lemma KeptHead(alpha: char -> bool, c: char, tail: string)
    requires Runs(Squeeze(alpha, tail)) == SquashAll(alpha, Runs(tail))
    requires !(alpha(c) && RunLength([c] + tail) >= 3)
    ensures Runs([c] + Squeeze(alpha, tail)) == SquashAll(alpha, Runs([c] + tail))
  {
    SqueezeHead(alpha, tail);
    RunsOfCons(c, tail);
    RunsOfCons(c, Squeeze(alpha, tail));
    if tail != "" && tail[0] == c {
      var first, rest := Runs(tail)[0], Runs(tail)[1..];
      assert ([c] + tail)[1..] == tail && RunLength([c] + tail) == 1 + first.n;
      assert Runs(tail) == [first] + rest;
      SquashAllOfCons(alpha, first, rest);
      SquashAllOfCons(alpha, Run(c, first.n + 1), rest);
    } else {
      SquashAllOfCons(alpha, Run(c, 1), Runs(tail));
    }
  }

  /** The runs of the result are the runs of the text, each squashed. */
  lemma {:induction false} SqueezeSquashesRuns(alpha: char -> bool, s: string)
    ensures Runs(Squeeze(alpha, s)) == SquashAll(alpha, Runs(s))
    decreases |s|
  {
    if s != "" {
      if alpha(s[0]) && RunLength(s) >= 3 {
        var rest := s[RunLength(s)..];
        AfterRun(s);
        SqueezeSquashesRuns(alpha, rest);
        SqueezeHead(alpha, rest);
        RunsOfCons(s[0], Squeeze(alpha, rest));
        SquashAllOfCons(alpha, Run(s[0], RunLength(s)), Runs(rest));
      } else {
        SqueezeSquashesRuns(alpha, s[1..]);
        assert s == [s[0]] + s[1..];
        KeptHead(alpha, s[0], s[1..]);
      }
    }
  }

  lemma {:induction false} ExpandOfRuns(s: string)
    ensures Expand(Runs(s)) == s
    decreases |s|
  {
    if s != "" {
      var n := RunLength(s);
      ExpandOfRuns(s[n..]);
      RepeatIsPrefix(s, n);
      assert s == s[..n] + s[n..];
    }
  }

  lemma {:induction false} RepeatIsPrefix(s: string, n: nat)
    requires s != "" && n <= RunLength(s)
    ensures s[..n] == Repeat(s[0], n)
  {
    if n > 1 {
      AfterRun(s);
      RepeatIsPrefix(s[1..], n - 1);
      assert s[..n] == [s[0]] + s[1..][..n - 1];
    }
  }

  /** So the loop computes exactly "squash every run". */
  lemma SqueezeIsSquashing(alpha: char -> bool, s: string)
    ensures Squeeze(alpha, s) == Expand(SquashAll(alpha, Runs(s)))
  {
    SqueezeSquashesRuns(alpha, s);
    ExpandOfRuns(Squeeze(alpha, s));
  }

  lemma {:induction false} SquashAllTwice(alpha: char -> bool, runs: seq<Run>)
    ensures SquashAll(alpha, SquashAll(alpha, runs)) == SquashAll(alpha, runs)
    ensures forall i :: 0 <= i < |SquashAll(alpha, runs)| ==>
      !(alpha(SquashAll(alpha, runs)[i].c) && SquashAll(alpha, runs)[i].n >= 3)
  {
    if runs != [] {
      SquashAllTwice(alpha, runs[1..]);
    }
  }

  lemma SqueezeIsIdempotent(alpha: char -> bool, s: string)
    ensures Squeeze(alpha, Squeeze(alpha, s)) == Squeeze(alpha, s)
  {
    SqueezeSquashesRuns(alpha, s);
    SquashAllTwice(alpha, Runs(s));
    SqueezeIsSquashing(alpha, Squeeze(alpha, s));
    ExpandOfRuns(Squeeze(alpha, s));
  }

  ghost predicate LetterTriple(alpha: char -> bool, s: string, i: nat) {
    i + 2 < |s| && alpha(s[i]) && s[i] == s[i + 1] == s[i + 2]
  }

  lemma {:induction false} TripleNeedsLongRun(alpha: char -> bool, s: string, i: nat)
    requires LetterTriple(alpha, s, i)
    ensures exists k :: 0 <= k < |Runs(s)| && alpha(Runs(s)[k].c) && Runs(s)[k].n >= 3
    decreases |s|
  {
    var n := RunLength(s);
    AfterRun(s);
    if i < n {
      assert n >= i + 3;
      assert Runs(s)[0].n >= 3;
    } else {
      TripleNeedsLongRun(alpha, s[n..], i - n);
      var k :| 0 <= k < |Runs(s[n..])| && alpha(Runs(s[n..])[k].c) && Runs(s[n..])[k].n >= 3;
      assert Runs(s)[k + 1] == Runs(s[n..])[k];
    }
  }

  /** The result has no three equal letters in a row. */
  lemma SqueezeHasNoLetterTriple(alpha: char -> bool, s: string, i: nat)
    ensures !LetterTriple(alpha, Squeeze(alpha, s), i)
  {
    SqueezeSquashesRuns(alpha, s);
    SquashAllTwice(alpha, Runs(s));
    if LetterTriple(alpha, Squeeze(alpha, s), i) {
      TripleNeedsLongRun(alpha, Squeeze(alpha, s), i);
    }
  }
}

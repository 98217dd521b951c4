/** The first two stages of `normalize_for_injection_scan` one after the other. */
module Normalise {
  import opened SpacedChars
  import opened CharRuns

  function Normalised(alpha: char -> bool, s: string): string { Squeeze(alpha, Collapse(alpha, s)) }

  lemma {:induction false} DroppingShortens(s: string, t: string)
    requires DropsSpaces(s, t)
    ensures |t| < |s| || t == s
    decreases |s|
  {
    if s != "" {
      if t != "" && s[0] == t[0] && DropsSpaces(s[1..], t[1..]) {
        DroppingShortens(s[1..], t[1..]);
        assert s == [s[0]] + s[1..] && t == [t[0]] + t[1..];
      } else {
        DroppingShortens(s[1..], t);
      }
    }
  }

  lemma {:induction false} SqueezeIsNoLonger(alpha: char -> bool, s: string)
    ensures |Squeeze(alpha, s)| <= |s|
    decreases |s|
  {
    if s != "" {
      SqueezeIsNoLonger(alpha, s[1..]);
      SqueezeIsNoLonger(alpha, s[RunLength(s)..]);
    }
  }

  /** Squeezing can bring new spaced letters about. A second pass changes nothing exactly when it has not. */
  lemma StableUnlessSpacedAgain(alpha: char -> bool, s: string)
    requires !alpha(' ')
    ensures var t := Normalised(alpha, s);
      Normalised(alpha, t) == t <==> forall i: nat, j: nat, k: nat :: !SpacedTriple(alpha, t, i, j, k)
  {
    var t := Normalised(alpha, s);
    CollapseRemovesSpacedTriples(alpha, t);
    if Collapse(alpha, t) == t {
      SqueezeIsIdempotent(alpha, Collapse(alpha, s));
    } else {
      CollapseDropsOnlySpaces(alpha, t);
      DroppingShortens(t, Collapse(alpha, t));
      SqueezeIsNoLonger(alpha, Collapse(alpha, t));
    }
  }

  /** Each pass that changes its input again makes it shorter, so repeating the two stages ends. */
  lemma SecondPassShortens(alpha: char -> bool, s: string)
    ensures var t := Normalised(alpha, s); Normalised(alpha, t) == t || |Normalised(alpha, t)| < |t|
  {
    var t := Normalised(alpha, s);
    CollapseDropsOnlySpaces(alpha, t);
    DroppingShortens(t, Collapse(alpha, t));
    SqueezeIsNoLonger(alpha, Collapse(alpha, t));
    if Collapse(alpha, t) == t {
      SqueezeIsIdempotent(alpha, Collapse(alpha, s));
    }
  }

  /** The first two letters of a spaced triple have a space behind them, and there are only spaces between them. */
  lemma TripleEnds(alpha: char -> bool, s: string, i: nat, j: nat, k: nat)
    requires SpacedTriple(alpha, s, i, j, k) && !alpha(' ')
    ensures i + 1 < j && j + 1 < |s| && s[i] != ' ' && s[i + 1] == ' ' && s[j] != ' ' && s[j + 1] == ' '
    ensures forall m :: i < m < j ==> s[m] == ' '
  {
  }

  lemma KeepsWord(alpha: char -> bool)
    requires alpha('x') && alpha('y') && alpha('z') && !alpha(' ')
    ensures Collapse(alpha, "x yyy z") == "x yyy z"
  {
    var s := "x yyy z";
    assert s[3] == 'y';
    forall i: nat, j: nat, k: nat
      ensures !SpacedTriple(alpha, s, i, j, k)
    {
      if SpacedTriple(alpha, s, i, j, k) {
        TripleEnds(alpha, s, i, j, k);
      }
    }
    CollapseRemovesSpacedTriples(alpha, s);
  }

  lemma SqueezesWord(alpha: char -> bool)
    requires alpha('x') && alpha('y') && alpha('z') && !alpha(' ')
    ensures Squeeze(alpha, "x yyy z") == "x y z"
  {
    var s := "x yyy z";
    assert s[1..] == " yyy z" && s[2..] == "yyy z" && s[2..][3..] == " z" && s[6..] == "z";
    assert RunLength("yyy z") == 3 by {
      assert "yyy z"[1..] == "yy z" && "yy z"[1..] == "y z";
    }
    assert RunLength("x yyy z") == 1 && RunLength("z") == 1;
    assert Squeeze(alpha, "z") == "z" && Squeeze(alpha, " z") == " z" by { assert " z"[1..] == "z" && "z"[1..] == ""; }
    assert Squeeze(alpha, "yyy z") == "y z";
    assert " yyy z"[1..] == "yyy z";
    assert Squeeze(alpha, " yyy z") == " y z";
  }

  /** And it can happen: "x yyy z" becomes "x y z", which a second pass shortens. */
  lemma NotIdempotent(alpha: char -> bool)
    requires alpha('x') && alpha('y') && alpha('z') && !alpha(' ')
    ensures Normalised(alpha, "x yyy z") == "x y z" && Normalised(alpha, "x y z") != "x y z"
  {
    KeepsWord(alpha);
    SqueezesWord(alpha);
    assert SpacedTriple(alpha, "x y z", 0, 2, 4);
    StableUnlessSpacedAgain(alpha, "x yyy z");
  }
}

/** The Redis keys of the per-user counters. */
module RateLimitKeys {
  function Digits(n: nat): (s: string)
    ensures |s| > 0 && forall i :: 0 <= i < |s| ==> '0' <= s[i] <= '9'
  {
    if n < 10 then [Digit(n)] else Digits(n / 10) + [Digit(n % 10)]
  }

  function Digit(n: nat): (c: char)
    requires n < 10
    ensures '0' <= c <= '9'
  {
    "0123456789"[n]
  }

  /** Decimal text of a limit, as `itoa` writes it. */
  function Itoa(n: int): string { if n < 0 then "-" + Digits(-n) else Digits(n) }

  function BuildKey(window: string, limit: int, user: string): string {
    "rate_limit:" + (window + ":" + (Itoa(limit) + ":" + user))
  }

  lemma {:induction false} DigitsInjective(m: nat, n: nat)
    requires Digits(m) == Digits(n)
    ensures m == n
  {
    var s := Digits(m);
    assert m >= 10 ==> s == Digits(m / 10) + [Digit(m % 10)];
    assert n >= 10 ==> s == Digits(n / 10) + [Digit(n % 10)];
    assert s[|s| - 1] == Digit(m % 10) == Digit(n % 10);
    if m >= 10 && n >= 10 {
      assert Digits(m / 10) == s[..|s| - 1] == Digits(n / 10);
      DigitsInjective(m / 10, n / 10);
    }
  }

  lemma ItoaInjective(m: int, n: int)
    requires Itoa(m) == Itoa(n)
    ensures m == n
  {
    var s := Itoa(m);
    assert m < 0 <==> s[0] == '-';
    assert n < 0 <==> s[0] == '-';
    if m < 0 {
      assert Digits(-m) == s[1..] == Digits(-n);
      DigitsInjective(-m, -n);
    } else {
      DigitsInjective(m, n);
    }
  }

  /** The number a run of decimal digits stands for. */
  function Value(s: string): int { if s == "" then 0 else Value(s[..|s| - 1]) * 10 + (s[|s| - 1] as int - '0' as int) }

  lemma {:induction false} DigitsReadBack(n: nat)
    ensures Value(Digits(n)) == n
  {
    var s := Digits(n);
    if n >= 10 {
      DigitsReadBack(n / 10);
      assert s == Digits(n / 10) + [Digit(n % 10)] && s[..|s| - 1] == Digits(n / 10);
    } else {
      assert s[..0] == "";
    }
  }

  /** The text of a number reads back as the number, in decimal with a minus sign in front if it is negative. */
  lemma ItoaReadsBack(n: int)
    ensures n >= 0 ==> Value(Itoa(n)) == n
    ensures n < 0 ==> Itoa(n)[0] == '-' && Value(Itoa(n)[1..]) == -n
  {
    DigitsReadBack(if n >= 0 then n else -n);
  }

  /** A text splits at its first colon in one way only. */
  lemma FirstColon(a: string, rest: string, b: string, rest': string)
    requires ':' !in a && ':' !in b && a + ":" + rest == b + ":" + rest'
    ensures a == b && rest == rest'
  {
    var s := a + ":" + rest;
    assert s[|a|] == ':' && s[|b|] == ':';
    assert a == s[..|a|] && b == s[..|a|];
    assert rest == s[|a| + 1..] && rest' == s[|a| + 1..];
  }

  /** Two keys are equal exactly when they are for the same window, the same limit value and the same user:
      two limit types of one user share a counter exactly when their limits are equal. */
  lemma KeyIsInjective(window: string, limit: int, user: string, window': string, limit': int, user': string)
    requires ':' !in window && ':' !in window'
    ensures BuildKey(window, limit, user) == BuildKey(window', limit', user')
       <==> window == window' && limit == limit' && user == user'
  {
    if BuildKey(window, limit, user) == BuildKey(window', limit', user') {
      var tail, tail' := Itoa(limit) + ":" + user, Itoa(limit') + ":" + user';
      SamePrefix("rate_limit:", window + ":" + tail, window' + ":" + tail');
      FirstColon(window, tail, window', tail');
      FirstColon(Itoa(limit), user, Itoa(limit'), user');
      ItoaInjective(limit, limit');
    }
  }

  lemma SamePrefix(prefix: string, a: string, b: string)
    requires prefix + a == prefix + b
    ensures a == b
  {
    assert a == (prefix + a)[|prefix|..] && b == (prefix + b)[|prefix|..];
  }
}

/** `escape_clickhouse_string`, and the reader of quoted literals that has to undo it. */
module ClickHouseText {
  import opened Utf8

  function EscapeChar(c: char): string {
    match c
    case '\\' => "\\\\"
    case '\'' => "\\'"
    case '\0' => ""
    case '\n' => "\\n"
    case '\r' => "\\r"
    case '\t' => "\\t"
    case _ => [c]
  }

  function Escape(s: string): string { if s == "" then "" else EscapeChar(s[0]) + Escape(s[1..]) }

  function WithoutNul(s: string): string {
    if s == "" then "" else (if s[0] == '\0' then "" else [s[0]]) + WithoutNul(s[1..])
  }

  lemma Regroup(a: string, b: string, c: string)
    ensures a + b + c == a + (b + c)
  {
  }

  method EscapeClickHouseString(s: string) returns (result: string)
    ensures result == Escape(s)
  {
    result := "";
    ghost var goal := Escape(s);
    for i := 0 to |s|
      invariant goal == result + Escape(s[i..])
    {
      assert s[i..][0] == s[i] && s[i..][1..] == s[i + 1..];
      Regroup(result, EscapeChar(s[i]), Escape(s[i + 1..]));
      match s[i] {
        case '\\' => result := result + "\\\\";
        case '\'' => result := result + "\\'";
        case '\0' =>
          assert result == result + "";
        case '\n' => result := result + "\\n";
        case '\r' => result := result + "\\r";
        case '\t' => result := result + "\\t";
        case _ => result := result + [s[i]];
      }
    }
  }

  // ---------------------------------------------------------------- reading a literal back

  /** What a backslash and the character after it stand for. */
  function Unescape(c: char): char {
    match c
    case 'n' => '\n'
    case 'r' => '\r'
    case 't' => '\t'
    case '0' => '\0'
    case _ => c
  }

  datatype Reading = Unterminated | Literal(value: string, rest: string)

  /** Reads from just after an opening quote: the value, and the text after the closing quote. With `doubled`
      two quotes in a row stand for one, as in standard SQL. */
  function Read(doubled: bool, s: string): Reading
    decreases |s|
  {
    if s == "" then Unterminated
    else if s[0] == '\'' then
      if doubled && |s| > 1 && s[1] == '\'' then Prepend('\'', Read(doubled, s[2..])) else Literal("", s[1..])
    else if s[0] == '\\' then
      if |s| == 1 then Unterminated else Prepend(Unescape(s[1]), Read(doubled, s[2..]))
    else Prepend(s[0], Read(doubled, s[1..]))
  }

  function Prepend(c: char, r: Reading): Reading {
    if r.Unterminated? then r else Literal([c] + r.value, r.rest)
  }

  lemma ReadPlainChar(doubled: bool, c: char, more: string)
    requires c != '\'' && c != '\\'
    ensures Read(doubled, [c] + more) == Prepend(c, Read(doubled, more))
  {
    assert ([c] + more)[1..] == more;
  }

  lemma ReadBackslash(doubled: bool, c: char, more: string)
    ensures Read(doubled, ['\\', c] + more) == Prepend(Unescape(c), Read(doubled, more))
  {
    assert (['\\', c] + more)[2..] == more;
  }

  lemma ReadEscapedChar(doubled: bool, c: char, more: string)
    ensures Read(doubled, EscapeChar(c) + more) ==
      if c == '\0' then Read(doubled, more) else Prepend(c, Read(doubled, more))
  {
    match c
    case '\\' => ReadBackslash(doubled, '\\', more);
    case '\'' => ReadBackslash(doubled, '\'', more);
    case '\0' => assert "" + more == more;
    case '\n' => ReadBackslash(doubled, 'n', more);
    case '\r' => ReadBackslash(doubled, 'r', more);
    case '\t' => ReadBackslash(doubled, 't', more);
    case _ => ReadPlainChar(doubled, c, more);
  }

  /** The reader goes through an escaped text character by character, whatever comes after it. */
  lemma {:induction false} ReadThroughEscaped(doubled: bool, s: string, more: string)
    ensures var r := Read(doubled, more);
      Read(doubled, Escape(s) + more) == if r.Unterminated? then r else Literal(WithoutNul(s) + r.value, r.rest)
  {
    if s == "" {
      assert "" + more == more;
      var r := Read(doubled, more);
      assert r.Literal? ==> WithoutNul("") + r.value == r.value;
    } else {
      var rest := Escape(s[1..]) + more;
      ReadThroughEscaped(doubled, s[1..], more);
      Regroup(EscapeChar(s[0]), Escape(s[1..]), more);
      ReadEscapedChar(doubled, s[0], rest);
      var r := Read(doubled, more);
      if r.Literal? {
        Regroup(if s[0] == '\0' then "" else [s[0]], WithoutNul(s[1..]), r.value);
      }
    }
  }

  /** Reading a quoted literal stops at its closing quote and gives the text without its NULs, whatever follows,
      unless the reader takes doubled quotes and another quote follows directly: then, and only then, not. */
  lemma ReadQuotedEscape(doubled: bool, s: string, after: string)
    ensures Read(doubled, Escape(s) + ("'" + after)) == Literal(WithoutNul(s), after)
       <==> !(doubled && after != "" && after[0] == '\'')
  {
    var more := "'" + after;
    ReadThroughEscaped(doubled, s, more);
    assert more[1..] == after;
    if doubled && after != "" && after[0] == '\'' {
      var r := Read(doubled, more);
      assert r == Prepend('\'', Read(doubled, more[2..]));
      if r.Literal? {
        assert |WithoutNul(s) + r.value| > |WithoutNul(s)|;
      }
    } else {
      assert WithoutNul(s) + "" == WithoutNul(s);
    }
  }

  lemma EscapeCons(c: char, rest: string, s: string)
    requires s == [c] + rest
    ensures Escape(s) == EscapeChar(c) + Escape(rest)
  {
    assert s[0] == c && s[1..] == rest;
  }

  lemma ConsDistributes(c: char, s: string, t: string)
    requires Escape(s + t) == Escape(s) + Escape(t)
    ensures Escape([c] + s + t) == Escape([c] + s) + Escape(t)
  {
    Regroup([c], s, t);
    EscapeCons(c, s, [c] + s);
    EscapeCons(c, s + t, [c] + s + t);
    Regroup(EscapeChar(c), Escape(s), Escape(t));
  }

  lemma {:induction false} EscapeDistributes(s: string, t: string)
    ensures Escape(s + t) == Escape(s) + Escape(t)
  {
    if s == "" {
      assert s + t == t;
    } else {
      EscapeDistributes(s[1..], t);
      ConsDistributes(s[0], s[1..], t);
      assert s == [s[0]] + s[1..];
    }
  }

  // ---------------------------------------------------------------- the escaped text, position by position

  /** A text is escaped character by character, each at its place. */
  lemma EscapeAt(s: string, i: nat)
    requires i < |s|
    ensures Escape(s) == Escape(s[..i]) + Escape([s[i]]) + Escape(s[i + 1..])
  {
    SplitAround(s, i);
    EscapeThree(s, s[..i], [s[i]], s[i + 1..]);
  }

  lemma SplitAround(s: string, i: nat)
    requires i < |s|
    ensures s == s[..i] + [s[i]] + s[i + 1..]
  {
  }

  lemma EscapeThree(s: string, a: string, b: string, c: string)
    requires s == a + b + c
    ensures Escape(s) == Escape(a) + Escape(b) + Escape(c)
  {
    EscapeDistributes(a + b, c);
    EscapeDistributes(a, b);
  }

  /** The six characters that do not stay: five become a backslash and one character, NUL goes. */
  lemma EscapesOfSix()
    ensures Escape("\n") == "\\n" && Escape("\r") == "\\r" && Escape("\t") == "\\t"
    ensures Escape("'") == "\\'" && Escape("\\") == "\\\\" && Escape("\0") == ""
  {
    EscapeSingle('\n');
    EscapeSingle('\r');
    EscapeSingle('\t');
    EscapeSingle('\'');
    EscapeSingle('\\');
    EscapeSingle('\0');
  }

  /** Every other character is copied. */
  lemma OthersAreCopied(c: char)
    requires c != '\n' && c != '\r' && c != '\t' && c != '\'' && c != '\\' && c != '\0'
    ensures Escape([c]) == [c]
  {
    EscapeSingle(c);
  }

  lemma EscapeSingle(c: char)
    ensures Escape([c]) == EscapeChar(c)
  {
    EscapeCons(c, "", [c]);
    assert EscapeChar(c) + "" == EscapeChar(c);
  }

  predicate Printable(c: char) { c != '\0' && c != '\n' && c != '\r' && c != '\t' }

  /** An escaped text holds no NUL, newline, return or tab. */
  lemma {:induction false} EscapeIsPrintable(s: string, c: char)
    requires c in Escape(s)
    ensures Printable(c)
  {
    if s != "" {
      if c in EscapeChar(s[0]) {
        UnitIsPrintable(s[0], c);
      } else {
        assert c in Escape(s[1..]);
        EscapeIsPrintable(s[1..], c);
      }
    }
  }

  lemma UnitIsPrintable(a: char, c: char)
    requires c in EscapeChar(a)
    ensures Printable(c)
  {
  }

  /** The backslashes at the end of a text. */
  function Backslashes(s: string): nat {
    if s == "" || s[|s| - 1] != '\\' then 0 else Backslashes(s[..|s| - 1]) + 1
  }

  lemma EscapeSnoc(s: string)
    requires s != ""
    ensures Escape(s) == Escape(s[..|s| - 1]) + EscapeChar(s[|s| - 1])
  {
    var n := |s| - 1;
    assert s == s[..n] + [s[n]];
    EscapeDistributes(s[..n], [s[n]]);
    EscapeCons(s[n], "", [s[n]]);
    assert EscapeChar(s[n]) + "" == EscapeChar(s[n]);
  }

  lemma BackslashesOneMore(s: string, c: char)
    ensures Backslashes(s + [c]) == if c == '\\' then Backslashes(s) + 1 else 0
  {
    assert (s + [c])[..|s|] == s;
  }

  /** Nothing, one character that is no backslash, or a backslash and one character. */
  predicate IsUnit(e: string) { e == "" || (|e| == 1 && e[0] != '\\') || (|e| == 2 && e[0] == '\\') }

  lemma EscapeIsUnit(c: char)
    ensures IsUnit(EscapeChar(c)) && ('\'' in EscapeChar(c) ==> EscapeChar(c) == "\\'")
  {
  }

  lemma EvenAfterUnit(before: string, e: string)
    requires Backslashes(before) % 2 == 0 && IsUnit(e)
    ensures Backslashes(before + e) % 2 == 0
  {
    if e == "" {
      assert before + e == before;
    } else if |e| == 1 {
      BackslashesOneMore(before, e[0]);
      assert e == [e[0]];
    } else {
      BackslashesOneMore(before, e[0]);
      BackslashesOneMore(before + [e[0]], e[1]);
      assert before + e == before + [e[0]] + [e[1]];
    }
  }

  /** An escaped text ends in an even number of backslashes: none of them escapes what comes next. */
  lemma {:induction false} EvenAtTheEnd(s: string)
    ensures Backslashes(Escape(s)) % 2 == 0
    decreases |s|
  {
    if s != "" {
      EvenAtTheEnd(s[..|s| - 1]);
      EscapeSnoc(s);
      EscapeIsUnit(s[|s| - 1]);
      EvenAfterUnit(Escape(s[..|s| - 1]), EscapeChar(s[|s| - 1]));
    }
  }

  lemma PrefixBefore(before: string, e: string, i: nat)
    requires i < |before|
    ensures (before + e)[..i] == before[..i] && (before + e)[i] == before[i]
  {
  }

  lemma PrefixOfUnit(before: string, e: string, i: nat)
    requires e == "\\'" && |before| <= i < |before + e| && (before + e)[i] == '\''
    ensures (before + e)[..i] == before + ['\\']
  {
    assert (before + e)[|before|] == e[0];
  }

  /** A quote in an escaped text has an odd number of backslashes before it: the last one escapes it. */
  lemma {:induction false} QuotesAreEscaped(s: string, i: nat)
    requires i < |Escape(s)| && Escape(s)[i] == '\''
    ensures Backslashes(Escape(s)[..i]) % 2 == 1
    decreases |s|
  {
    var init, c := s[..|s| - 1], s[|s| - 1];
    EscapeSnoc(s);
    var e, before := EscapeChar(c), Escape(init);
    if i < |before| {
      QuotesAreEscaped(init, i);
      PrefixBefore(before, e, i);
    } else {
      assert e[i - |before|] == '\'';
      EscapeIsUnit(c);
      EvenAtTheEnd(init);
      BackslashesOneMore(before, '\\');
      PrefixOfUnit(before, e, i);
    }
  }

  lemma BytesOfEscape(width: char -> nat, c: char)
    requires forall d :: width(d) >= 1 && (d < 128 as char ==> width(d) == 1)
    ensures Bytes(width, EscapeChar(c)) <= 2 * width(c)
  {
    var e := EscapeChar(c);
    if |e| == 1 {
      BytesOfOne(width, e[0]);
    } else if |e| == 2 {
      BytesOfOne(width, e[0]);
      BytesOfOne(width, e[1]);
      BytesAdd(width, [e[0]], [e[1]]);
      assert e == [e[0]] + [e[1]];
    }
  }

  lemma BytesOfOne(width: char -> nat, c: char)
    ensures Bytes(width, [c]) == width(c)
  {
    assert [c][1..] == "";
  }

  /** At most twice as long, in characters and in bytes; the source reserves that many bytes. */
  lemma {:induction false} EscapeAtMostDoubles(width: char -> nat, s: string)
    requires forall d :: width(d) >= 1 && (d < 128 as char ==> width(d) == 1)
    ensures |Escape(s)| <= 2 * |s| && Bytes(width, Escape(s)) <= 2 * Bytes(width, s)
  {
    if s != "" {
      EscapeAtMostDoubles(width, s[1..]);
      BytesAdd(width, EscapeChar(s[0]), Escape(s[1..]));
      BytesOfEscape(width, s[0]);
    }
  }

  /** Texts that differ in more than NULs stay different. */
  lemma EscapeKeepsTextsApart(s: string, t: string)
    requires Escape(s) == Escape(t)
    ensures WithoutNul(s) == WithoutNul(t)
  {
    ReadQuotedEscape(false, s, "");
    ReadQuotedEscape(false, t, "");
  }
}

/** Scrambled-middle-letter words: the variant test, and the correction that uses it. */
module Typoglycemia {
  import opened Utf8

  // ---------------------------------------------------------------- sorting the middles

  predicate Sorted(s: string) { |s| <= 1 || (s[0] <= s[1] && Sorted(s[1..])) }

  function Insert(c: char, s: string): (t: string)
    ensures |t| == |s| + 1 && (t[0] == c || (s != "" && t[0] == s[0]))
  {
    if s == "" || c <= s[0] then [c] + s else [s[0]] + Insert(c, s[1..])
  }

  lemma {:induction false} InsertKeepsSorted(c: char, s: string)
    requires Sorted(s)
    ensures Sorted(Insert(c, s))
  {
    if s != "" && c > s[0] {
      InsertKeepsSorted(c, s[1..]);
    }
  }

  lemma {:induction false} InsertAddsOne(c: char, s: string)
    ensures multiset(Insert(c, s)) == multiset(s) + multiset{c}
  {
    if s != "" && c > s[0] {
      InsertAddsOne(c, s[1..]);
      assert s == [s[0]] + s[1..];
    }
  }

  lemma {:induction false} FirstIsLeast(s: string, c: char)
    requires Sorted(s) && c in s
    ensures s[0] <= c
  {
    if s[0] != c {
      assert s == [s[0]] + s[1..];
      FirstIsLeast(s[1..], c);
    }
  }

  method Sort(s: string) returns (t: string)
    ensures Sorted(t) && multiset(t) == multiset(s)
  {
    t := "";
    for i := 0 to |s|
      invariant Sorted(t) && multiset(t) == multiset(s[..i])
    {
      InsertKeepsSorted(s[i], t);
      InsertAddsOne(s[i], t);
      assert s[..i + 1] == s[..i] + [s[i]];
      t := Insert(s[i], t);
    }
    assert s[..|s|] == s;
  }

  lemma TailLosesOne(s: string)
    requires s != ""
    ensures multiset(s[1..]) == multiset(s) - multiset{s[0]}
  {
    assert s == [s[0]] + s[1..];
  }

  lemma SameLeast(s: string, t: string)
    requires Sorted(s) && Sorted(t) && multiset(s) == multiset(t) && s != ""
    ensures t != "" && s[0] == t[0]
  {
    assert s[0] in multiset(s);
    FirstIsLeast(t, s[0]);
    assert t[0] in multiset(t);
    FirstIsLeast(s, t[0]);
  }

  lemma HeadAndTail(s: string, t: string)
    requires s != "" && t != "" && s[0] == t[0] && s[1..] == t[1..]
    ensures s == t
  {
    assert s == [s[0]] + s[1..] && t == [t[0]] + t[1..];
  }

  /** Two sorted texts with the same characters are the same text. */
  lemma {:induction false} SortedIsUnique(s: string, t: string)
    requires Sorted(s) && Sorted(t) && multiset(s) == multiset(t)
    ensures s == t
  {
    if s == "" {
      assert |multiset(t)| == 0;
    } else {
      SameLeast(s, t);
      TailLosesOne(s);
      TailLosesOne(t);
      SortedIsUnique(s[1..], t[1..]);
      HeadAndTail(s, t);
    }
  }

  // ---------------------------------------------------------------- the variant test

  function Middle(s: string): string
    requires |s| >= 2
  {
    s[1..|s| - 1]
  }

  /** Same length, same ends, the same middle characters in another order. */
  predicate Variant(width: char -> nat, word: string, target: string) {
    && Bytes(width, word) == Bytes(width, target) && Bytes(width, word) >= 4
    && |word| >= 2 && |target| >= 2
    && word[0] == target[0] && word[|word| - 1] == target[|target| - 1]
    && word != target
    && multiset(Middle(word)) == multiset(Middle(target))
  }

  /** A one-character word that passes the tests before the slicing is the target itself. */
  lemma OneCharacterWord(width: char -> nat, word: string, target: string)
    requires forall c :: width(c) >= 1
    requires Bytes(width, word) == Bytes(width, target) && word != "" && target != "" && word[0] == target[0]
    ensures |word| == 1 || |target| == 1 ==> word == target
  {
    assert word == [word[0]] + word[1..] && target == [target[0]] + target[1..];
    assert word[1..] != "" ==> Bytes(width, word[1..]) >= width(word[1..][0]) >= 1;
    assert target[1..] != "" ==> Bytes(width, target[1..]) >= width(target[1..][0]) >= 1;
  }

  /** The slices of the source never run backwards: at that point both words have two characters or more. */
  method IsVariant(width: char -> nat, word: string, target: string) returns (r: bool)
    requires forall c :: width(c) >= 1
    ensures r <==> Variant(width, word, target)
  {
    if Bytes(width, word) != Bytes(width, target) || Bytes(width, word) < 4 {
      return false;
    }
    if word[0] != target[0] || word[|word| - 1] != target[|target| - 1] {
      return false;
    }
    if word == target {
      return false;
    }
    OneCharacterWord(width, word, target);
    var a := Sort(word[1..|word| - 1]);
    var b := Sort(target[1..|target| - 1]);
    r := a == b;
    if multiset(a) == multiset(b) {
      SortedIsUnique(a, b);
    }
  }

  lemma BytesOfFive(width: char -> nat, a: string, x: char, b: string, y: char, c: string)
    ensures Bytes(width, a + [x] + b + [y] + c) ==
      Bytes(width, a) + Bytes(width, [x]) + Bytes(width, b) + Bytes(width, [y]) + Bytes(width, c)
  {
    BytesAdd(width, a, [x]);
    BytesAdd(width, a + [x], b);
    BytesAdd(width, a + [x] + b, [y]);
    BytesAdd(width, a + [x] + b + [y], c);
  }

  /** Swapping two different inner characters of a word of four bytes or more makes a variant of it. */
  lemma SwappedIsVariant(width: char -> nat, first: char, a: string, x: char, b: string, y: char, c: string, last: char)
    requires x != y && Bytes(width, [first] + a + [x] + b + [y] + (c + [last])) >= 4
    ensures Variant(width, [first] + a + [y] + b + [x] + (c + [last]), [first] + a + [x] + b + [y] + (c + [last]))
  {
    var head, tail := [first] + a, c + [last];
    var word, target := head + [y] + b + [x] + tail, head + [x] + b + [y] + tail;
    BytesOfFive(width, head, x, b, y, tail);
    BytesOfFive(width, head, y, b, x, tail);
    assert word[|head|] == y && target[|head|] == x;
    assert Middle(word) == a + [y] + b + [x] + c && Middle(target) == a + [x] + b + [y] + c;
  }

  /** Only these: two words of which one has an inner character more often than the other are no variants. */
  lemma OtherLettersAreNoVariant(width: char -> nat, word: string, target: string, c: char)
    requires |word| >= 2 && |target| >= 2 && multiset(word[1..|word| - 1])[c] != multiset(target[1..|target| - 1])[c]
    ensures !Variant(width, word, target) && !Variant(width, target, word)
  {
  }

  /** Nor are words that differ at an end, words that are equal, and words of less than four bytes. */
  lemma NoVariant(width: char -> nat, word: string, target: string)
    requires word != "" && target != ""
    requires word[0] != target[0] || word[|word| - 1] != target[|target| - 1] || word == target || Bytes(width, word) < 4
    ensures !Variant(width, word, target)
  {
  }

  // ---------------------------------------------------------------- correction

  /** The word the source puts in place of `word`: the first canonical word its lower-case form is a variant of. */
  function Corrected(width: char -> nat, lower: string -> string, canonical: seq<string>, word: string): string {
    if canonical == [] then word
    else if Variant(width, lower(word), canonical[0]) then canonical[0]
    else Corrected(width, lower, canonical[1..], word)
  }

  method Correct(width: char -> nat, lower: string -> string, canonical: seq<string>, word: string) returns (r: string)
    requires forall c :: width(c) >= 1
    ensures r == Corrected(width, lower, canonical, word)
  {
    var lowered := lower(word);
    for i := 0 to |canonical|
      invariant Corrected(width, lower, canonical, word) == Corrected(width, lower, canonical[i..], word)
    {
      var hit := IsVariant(width, lowered, canonical[i]);
      if hit {
        return canonical[i];
      }
      assert canonical[i..][1..] == canonical[i + 1..];
    }
    r := word;
  }

  lemma {:induction false} CorrectedMeans(width: char -> nat, lower: string -> string, canonical: seq<string>, word: string)
    ensures var r := Corrected(width, lower, canonical, word);
      (r in canonical && Variant(width, lower(word), r))
      || (r == word && forall c :: c in canonical ==> !Variant(width, lower(word), c))
  {
    if canonical != [] {
      CorrectedMeans(width, lower, canonical[1..], word);
    }
  }

  /** No two words of the list begin and end alike. */
  ghost predicate DistinctEnds(canonical: seq<string>) {
    forall a, b :: a in canonical && b in canonical && SameEnds(a, b) ==> a == b
  }

  predicate SameEnds(a: string, b: string) {
    a != "" && b != "" && a[0] == b[0] && a[|a| - 1] == b[|b| - 1]
  }

  /** The order of the list does not matter. */
  lemma OrderDoesNotMatter(width: char -> nat, lower: string -> string, canonical: seq<string>, other: seq<string>, word: string)
    requires DistinctEnds(canonical) && forall c :: c in canonical <==> c in other
    ensures Corrected(width, lower, canonical, word) == Corrected(width, lower, other, word)
  {
    var a, b := Corrected(width, lower, canonical, word), Corrected(width, lower, other, word);
    CorrectedMeans(width, lower, canonical, word);
    CorrectedMeans(width, lower, other, word);
    assert Variant(width, lower(word), a) && Variant(width, lower(word), b) ==> SameEnds(a, b);
  }

  /** A canonical word is never changed. */
  lemma CanonicalWordsStay(width: char -> nat, lower: string -> string, canonical: seq<string>, word: string)
    requires DistinctEnds(canonical) && word in canonical && lower(word) == word
    ensures Corrected(width, lower, canonical, word) == word
  {
    CorrectedMeans(width, lower, canonical, word);
    var a := Corrected(width, lower, canonical, word);
    assert Variant(width, word, a) ==> SameEnds(word, a);
  }

  // ---------------------------------------------------------------- the list

  const CANONICAL: seq<string> := [
    "ignore", "bypass", "override", "reveal", "disregard", "system",
    "instructions", "previous", "prompt", "jailbreak", "developer", "repeat"
  ]

  /** Which word of the list has these ends. */
  function WordWithEnds(first: char, last: char): int {
    match (first, last)
    case ('i', 'e') => 0
    case ('b', 's') => 1
    case ('o', 'e') => 2
    case ('r', 'l') => 3
    case ('d', 'd') => 4
    case ('s', 'm') => 5
    case ('i', 's') => 6
    case ('p', 's') => 7
    case ('p', 't') => 8
    case ('j', 'k') => 9
    case ('d', 'r') => 10
    case ('r', 't') => 11
    case _ => -1
  }

  lemma EndsFindTheWord(i: nat)
    requires i < |CANONICAL|
    ensures CANONICAL[i] != "" && WordWithEnds(CANONICAL[i][0], CANONICAL[i][|CANONICAL[i]| - 1]) == i
  {
  }

  lemma CanonicalEndsAreDistinct()
    ensures DistinctEnds(CANONICAL)
  {
    forall a, b | a in CANONICAL && b in CANONICAL && SameEnds(a, b)
      ensures a == b
    {
      var i: nat :| i < |CANONICAL| && CANONICAL[i] == a;
      var j: nat :| j < |CANONICAL| && CANONICAL[j] == b;
      EndsFindTheWord(i);
      EndsFindTheWord(j);
    }
  }
}

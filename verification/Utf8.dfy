/** Texts measured in bytes. */
module Utf8 {
  /** The length of a text in bytes; `width` is the number of bytes of one character. */
  function Bytes(width: char -> nat, s: string): nat { if s == "" then 0 else width(s[0]) + Bytes(width, s[1..]) }

  lemma {:induction false} BytesAdd(width: char -> nat, s: string, t: string)
    ensures Bytes(width, s + t) == Bytes(width, s) + Bytes(width, t)
  {
    if s == "" {
      assert s + t == t;
    } else {
      BytesAdd(width, s[1..], t);
      assert (s + t)[1..] == s[1..] + t && (s + t)[0] == s[0];
    }
  }
}

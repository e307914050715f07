/** Bytes and the characters the string library treats specially. */
module Bytes {
  newtype byte = x: int | 0 <= x < 256

  type Text = seq<byte>

  const NUL: byte := 0
  const BEL: byte := 7
  const BS: byte := 8
  const TAB: byte := 9
  const NL: byte := 10
  const CR: byte := 13
  const SPACE: byte := 32
  const DQUOTE: byte := 34
  const PERCENT: byte := 37
  const SQUOTE: byte := 39
  const MINUS: byte := 45
  const ZERO: byte := 48
  const BACKSLASH: byte := 92

  function C(c: char): byte
    requires c < 256 as char
  {
    c as int as byte
  }

  /** A C string: the text, then a NUL, and no NUL in the text. */
  predicate CString(s: seq<byte>) {
    |s| > 0 && s[|s| - 1] == NUL && forall i :: 0 <= i < |s| - 1 ==> s[i] != NUL
  }

  predicate NoNul(s: Text) {
    forall i :: 0 <= i < |s| ==> s[i] != NUL
  }
}

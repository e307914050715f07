/** sdsll2str and sdsull2str: integers in decimal notation. */
module Decimal {
  import opened Bytes

  const LLONG_MIN: int := -0x8000_0000_0000_0000
  const LLONG_MAX: int := 0x7FFF_FFFF_FFFF_FFFF
  const ULLONG_MAX: int := 0xFFFF_FFFF_FFFF_FFFF
  const LLSTR_SIZE: nat := 21

  // ---------------------------------------------------------------- the notation

  function Digit(d: nat): byte
    requires d < 10
  {
    ZERO + d as byte
  }

  function Digits(n: nat): (s: Text)
    ensures s != []
  {
    if n < 10 then [Digit(n)] else Digits(n / 10) + [Digit(n % 10)]
  }

  function Notation(v: int): Text {
    if v < 0 then [MINUS] + Digits(-v) else Digits(v)
  }

  // ---------------------------------------------------------------- reading it back

  predicate AllDigits(s: Text) {
    forall i :: 0 <= i < |s| ==> ZERO <= s[i] <= ZERO + 9
  }

  /** A number without superfluous leading zeros. */
  predicate Canonical(s: Text) {
    s != [] && AllDigits(s) && (s[0] == ZERO ==> |s| == 1)
  }

  function Value(s: Text): nat
    requires AllDigits(s)
  {
    if s == [] then 0 else 10 * Value(s[..|s| - 1]) + (s[|s| - 1] - ZERO) as nat
  }

  function SignedValue(s: Text): int
    requires s != [] && (if s[0] == MINUS then AllDigits(s[1..]) else AllDigits(s))
  {
    if s[0] == MINUS then -(Value(s[1..]) as int) else Value(s)
  }

  lemma {:induction false} DigitsRead(n: nat)
    ensures Canonical(Digits(n)) && Value(Digits(n)) == n
    ensures n > 0 ==> Digits(n)[0] != ZERO
    decreases n
  {
    if n < 10 {
      assert Digits(n)[..0] == [];
    } else {
      DigitsRead(n / 10);
      var s := Digits(n);
      assert s[..|s| - 1] == Digits(n / 10);
    }
  }

  lemma DigitsSplit(n: nat, d: nat)
    requires n > 0 && d < 10
    ensures Digits(10 * n + d) == Digits(n) + [Digit(d)]
  {
    assert (10 * n + d) / 10 == n && (10 * n + d) % 10 == d;
  }

  lemma {:induction false} LeadingDigitCounts(s: Text)
    requires AllDigits(s) && s != [] && s[0] != ZERO
    ensures Value(s) > 0
    decreases |s|
  {
    if |s| > 1 {
      LeadingDigitCounts(s[..|s| - 1]);
    }
  }

  /** The notation of a number is the only canonical one with its value. */
  lemma {:induction false} CanonicalIsUnique(s: Text)
    requires Canonical(s)
    ensures Digits(Value(s)) == s
    decreases |s|
  {
    var front, last := s[..|s| - 1], s[|s| - 1];
    var d := (last - ZERO) as nat;
    assert Digit(d) == last && Value(s) == 10 * Value(front) + d;
    if |s| == 1 {
      assert Value(front) == 0 && s == [last];
    } else {
      assert front[0] == s[0] != ZERO;
      CanonicalIsUnique(front);
      LeadingDigitCounts(front);
      DigitsSplit(Value(front), d);
      assert s == front + [last];
    }
  }

  /** Reading the notation of an integer gives the integer, whatever its sign. */
  lemma NotationRoundTrip(v: int)
    ensures
      var s := Notation(v);
      && s != [] && (if s[0] == MINUS then Canonical(s[1..]) && s[1] != ZERO else Canonical(s))
      && SignedValue(s) == v
  {
    if v < 0 {
      DigitsRead(-v);
      assert Notation(v)[1..] == Digits(-v);
    } else {
      DigitsRead(v);
    }
  }

  /** The notation, byte by byte: 48 is the digit 0 and 45 the minus sign. */
  lemma NotationByBytes(n: int, d: int)
    requires 0 <= n && 0 <= d < 10
    ensures Notation(d) == [48 + d as byte]
    ensures n > 0 ==> Notation(10 * n + d) == Notation(n) + [48 + d as byte]
    ensures n > 0 ==> Notation(-n) == [45] + Notation(n)
  {
    if n > 0 {
      DigitsSplit(n, d);
    }
  }

  lemma NotationIsInjective(v: int, w: int)
    requires Notation(v) == Notation(w)
    ensures v == w
  {
    NotationRoundTrip(v);
    NotationRoundTrip(w);
  }

  function Pow10(k: nat): nat {
    if k == 0 then 1 else 10 * Pow10(k - 1)
  }

  lemma {:induction false} DigitsLength(n: nat, k: nat)
    requires 0 < k && n < Pow10(k)
    ensures |Digits(n)| <= k
    decreases k
  {
    if n >= 10 {
      assert k > 1;
      DigitsLength(n / 10, k - 1);
    }
  }

  /** Every 64-bit value fits the buffer of SDS_LLSTR_SIZE bytes, with its NUL. */
  lemma NotationFits(v: int)
    requires LLONG_MIN <= v <= ULLONG_MAX
    ensures |Notation(v)| <= 20 < LLSTR_SIZE
  {
    assert Pow10(4) == 10_000;
    assert Pow10(8) == 100_000_000;
    assert Pow10(12) == 1_000_000_000_000;
    assert Pow10(16) == 10_000_000_000_000_000;
    assert Pow10(19) == 10_000_000_000_000_000_000;
    if v < 0 {
      DigitsLength(-v, 19);
    } else {
      DigitsLength(v, 20);
    }
  }

  // ---------------------------------------------------------------- the conversions

  function Reversed(s: Text): (r: Text)
    ensures |r| == |s|
  {
    if s == [] then [] else Reversed(s[1..]) + [s[0]]
  }

  lemma {:induction false} ReversedAt(s: Text, k: nat)
    requires k < |s|
    ensures Reversed(s)[k] == s[|s| - 1 - k]
  {
    if k < |s| - 1 {
      ReversedAt(s[1..], k);
    }
  }

  lemma {:induction false} ReversedSnoc(s: Text, c: byte)
    ensures Reversed(s + [c]) == [c] + Reversed(s)
  {
    if s == [] {
      assert s + [c] == [c];
      assert Reversed([c][1..]) == [];
    } else {
      ReversedSnoc(s[1..], c);
      assert (s + [c])[1..] == s[1..] + [c];
    }
  }

  /** Nothing has been written at position n or behind it. */
  twostate predicate SameFrom(s: array<byte>, n: nat)
    reads s
  {
    forall i :: n <= i < s.Length ==> s[i] == old(s[i])
  }

  /** The loop that writes the digits from the last to the first. */
  method PutDigits(s: array<byte>, value: nat) returns (p: nat)
    requires |Digits(value)| <= s.Length
    modifies s
    ensures p == |Digits(value)| && s[..p] == Reversed(Digits(value))
    ensures SameFrom(s, p)
  {
    var v := value;
    p := 0;
    ghost var rest := Digits(value);
    while true
      invariant p + |Digits(v)| == |Digits(value)|
      invariant Reversed(Digits(value)) == s[..p] + Reversed(Digits(v))
      invariant SameFrom(s, p)
      decreases v
    {
      ghost var done := s[..p];
      s[p] := Digit(v % 10);
      p := p + 1;
      assert s[..p] == done + [Digit(v % 10)];
      if v / 10 == 0 {
        assert Digits(v) == [Digit(v)];
        assert Reversed([Digit(v)]) == [Digit(v)];
        break;
      }
      ReversedSnoc(Digits(v / 10), Digit(v % 10));
      assert done + ([Digit(v % 10)] + Reversed(Digits(v / 10))) == s[..p] + Reversed(Digits(v / 10));
      v := v / 10;
    }
  }

  /** The loop that swaps the bytes from both ends. */
  method ReverseInPlace(a: array<byte>, n: nat)
    requires n <= a.Length
    modifies a
    ensures a[..n] == Reversed(old(a[..n]))
    ensures SameFrom(a, n)
  {
    var i, j := 0, n - 1;
    while i < j
      invariant 0 <= i && j == n - 1 - i && i <= j + 1
      invariant forall k :: 0 <= k < i ==> a[k] == old(a[n - 1 - k]) && a[n - 1 - k] == old(a[k])
      invariant forall k :: i <= k < n - i ==> a[k] == old(a[k])
      invariant SameFrom(a, n)
      decreases j - i
    {
      a[i], a[j] := a[j], a[i];
      i, j := i + 1, j - 1;
    }
    ghost var was := old(a[..n]);
    forall k | 0 <= k < n
      ensures a[..n][k] == Reversed(was)[k]
    {
      ReversedAt(was, k);
    }
  }

  lemma {:induction false} ReversedTwice(s: Text)
    ensures Reversed(Reversed(s)) == s
  {
    if s != [] {
      ReversedTwice(s[1..]);
      ReversedSnoc(Reversed(s[1..]), s[0]);
    }
  }

  /** The null term, and the digits put in order. */
  method Finish(s: array<byte>, l: nat)
    requires l < s.Length
    modifies s
    ensures s[..l] == Reversed(old(s[..l])) && s[l] == NUL
    ensures SameFrom(s, l + 1)
  {
    s[l] := NUL;
    assert s[..l] == old(s[..l]);
    ReverseInPlace(s, l);
  }

  method PutSign(s: array<byte>, l: nat)
    requires l < s.Length
    modifies s
    ensures s[..l + 1] == old(s[..l]) + [MINUS]
    ensures SameFrom(s, l + 1)
  {
    s[l] := MINUS;
  }

  /** The digits of a value and its sign, in reverse order. */
  method PutReversed(s: array<byte>, value: int) returns (l: nat)
    requires LLONG_MIN <= value <= LLONG_MAX && |Notation(value)| <= s.Length
    modifies s
    ensures l == |Notation(value)| && s[..l] == Reversed(Notation(value))
    ensures SameFrom(s, l)
  {
    var v: nat := if value >= 0 then value else if value != LLONG_MIN then -value else LLONG_MAX + 1;
    l := PutDigits(s, v);
    if value < 0 {
      ReversedCons(MINUS, Digits(v));
      PutSign(s, l);
      l := l + 1;
    }
  }

  lemma ReversedCons(c: byte, s: Text)
    ensures Reversed([c] + s) == Reversed(s) + [c]
  {
    assert ([c] + s)[1..] == s;
  }

  /** sdsll2str */
  method Sdsll2str(s: array<byte>, value: int) returns (l: nat)
    requires LLONG_MIN <= value <= LLONG_MAX && s.Length >= LLSTR_SIZE
    modifies s
    ensures l <= 20 && s[l] == NUL
    ensures s[..l] == Notation(value)
    ensures SameFrom(s, l + 1)
  {
    NotationFits(value);
    l := PutReversed(s, value);
    ReversedTwice(Notation(value));
    Finish(s, l);
  }

  /** sdsull2str */
  method Sdsull2str(s: array<byte>, v: nat) returns (l: nat)
    requires v <= ULLONG_MAX && s.Length >= LLSTR_SIZE
    modifies s
    ensures l <= 20 && s[l] == NUL
    ensures s[..l] == Notation(v)
    ensures SameFrom(s, l + 1)
  {
    NotationFits(v);
    l := PutDigits(s, v);
    ReversedTwice(Digits(v));
    Finish(s, l);
  }
}

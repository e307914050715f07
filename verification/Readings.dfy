/**
 The readings of sdssplitargs and the texts of sdscatrepr, byte by byte. The bytes are written
 as numbers here, so that the tables of the two programs are fixed by what they must give.
 */
module Readings {
  import opened Bytes
  import opened Options
  import opened Sequences
  import opened Quoting

  /** The hexadecimal digits 0 to f and 0 to F. */
  const LOWER: Text := [48, 49, 50, 51, 52, 53, 54, 55, 56, 57, 97, 98, 99, 100, 101, 102]
  const UPPER: Text := [48, 49, 50, 51, 52, 53, 54, 55, 56, 57, 65, 66, 67, 68, 69, 70]

  /** d is one of the ways to write v as a hexadecimal digit. */
  predicate Writes(d: byte, v: nat) {
    v < 16 && (d == LOWER[v] || d == UPPER[v])
  }

  /** A token without quotes: vertical tab and form feed may stand in it, but not at its start. */
  predicate Bare(s: Text) {
    && s != [] && s[0] != 11 && s[0] != 12
    && forall i :: 0 <= i < |s| ==> s[i] !in {32, 9, 10, 13, 34, 39}
  }

  // ---------------------------------------------------------------- inside quotes

  lemma QuotedAlone(q: byte, us: seq<Unit>)
    requires IsQuote(q) && UnitsOk(q, us, [q])
    ensures Args([q] + UnitsText(us) + [q]) == Some([UnitsValue(q, us)])
  {
    hide UnitsText, UnitsValue, UnitsOk, Args;
    var k := Token([], InQuotes(q, us));
    assert [q] + [] == [q];
    assert TokenText(k) == [q] + UnitsText(us) + [q];
    assert [] + UnitsValue(q, us) == UnitsValue(q, us);
    LastItem(k);
  }

  lemma LastItem(k: Token)
    requires TokenOk(k, [])
    ensures Args(TokenText(k)) == Some([TokenValue(k)])
  {
    hide TokenText, TokenValue;
    ItemIsRead([], k, []);
    assert [] + (TokenText(k) + []) == TokenText(k);
    assert [TokenValue(k)] + [] == [TokenValue(k)];
  }

  lemma UnitAlone(q: byte, u: Unit)
    requires IsQuote(q) && UnitOk(q, u, [q])
    ensures Args([q] + UnitText(u) + [q]) == Some([[UnitValue(q, u)]])
  {
    hide UnitText, UnitValue, UnitOk, Args;
    OneUnit(q, u);
    QuotedAlone(q, [u]);
  }

  lemma OneUnit(q: byte, u: Unit)
    ensures UnitsText([u]) == UnitText(u) && UnitsValue(q, [u]) == [UnitValue(q, u)]
    ensures UnitsOk(q, [u], [q]) <==> UnitOk(q, u, [q])
  {
    hide UnitText, UnitValue, UnitOk;
    assert [u][1..] == [] && [] + [q] == [q];
    assert UnitText(u) + [] == UnitText(u);
  }

  lemma DigitTables(v: nat)
    requires v < 16
    ensures LOWER[v] == (if v < 10 then 48 + v else 87 + v) as byte
    ensures UPPER[v] == (if v < 10 then 48 + v else 55 + v) as byte
  {
  }

  /** The digits of the tables are the ones the program knows, with the same values. */
  lemma DigitsAgree(d: byte)
    ensures IsHexDigit(d) <==> Writes(d, HexValue(d) as nat)
    ensures forall v :: Writes(d, v) ==> IsHexDigit(d) && v == HexValue(d) as nat
  {
    DigitTables(HexValue(d) as nat);
    forall v | Writes(d, v)
      ensures IsHexDigit(d) && v == HexValue(d) as nat
    {
      DigitTables(v);
    }
  }

  /** "\xhl" is one byte, its digits in either case. */
  lemma HexEscape(hi: nat, lo: nat, h: byte, l: byte)
    requires Writes(h, hi) && Writes(l, lo)
    ensures Args([34, 92, 120, h, l, 34]) == Some([[(16 * hi + lo) as byte]])
  {
    hide Writes, HexValue, IsHexDigit, Args;
    DigitsAgree(h);
    DigitsAgree(l);
    UnitAlone(34, Hex(h, l));
    assert [34] + UnitText(Hex(h, l)) + [34] == [34, 92, 120, h, l, 34];
  }

  /** Without two hexadecimal digits behind it, \x is an x. */
  lemma NoHexEscape(h: byte, l: byte)
    requires h !in {34, 92} && l !in {34, 92}
    requires !(exists v, w :: Writes(h, v) && Writes(l, w))
    ensures Args([34, 92, 120, h, l, 34]) == Some([[120, h, l]])
  {
    hide Writes, HexValue, IsHexDigit, Args;
    var us := [Esc(120), Lit(h), Lit(l)];
    DigitsAgree(h);
    DigitsAgree(l);
    assert us[1..] == [Lit(h), Lit(l)] && us[1..][1..] == [Lit(l)];
    OneUnit(34, Lit(l));
    assert UnitsText(us[1..]) == [h, l] && UnitsValue(34, us[1..]) == [h, l];
    assert UnitsText(us) == [92, 120, h, l] && UnitsValue(34, us) == [120, h, l];
    QuotedAlone(34, us);
    assert [34] + UnitsText(us) + [34] == [34, 92, 120, h, l, 34];
  }

  lemma EscapeAlone(q: byte, c: byte)
    requires IsQuote(q) && (q == 39 ==> c == 39)
    ensures Args([q, 92, c, q]) == Some([[UnitValue(q, Esc(c))]])
  {
    UnitAlone(q, Esc(c));
    assert [q] + UnitText(Esc(c)) + [q] == [q, 92, c, q];
  }

  lemma LiteralAlone(q: byte, c: byte)
    requires IsQuote(q) && c != q && c != 92
    ensures Args([q, c, q]) == Some([[c]])
  {
    UnitAlone(q, Lit(c));
    assert [q] + UnitText(Lit(c)) + [q] == [q, c, q];
  }

  /** "\n", "\r", "\t", "\b" and "\a"; behind any other backslash a byte stands for itself. */
  lemma Escapes(c: byte)
    ensures Args([34, 92, 110, 34]) == Some([[10]])
    ensures Args([34, 92, 114, 34]) == Some([[13]])
    ensures Args([34, 92, 116, 34]) == Some([[9]])
    ensures Args([34, 92, 98, 34]) == Some([[8]])
    ensures Args([34, 92, 97, 34]) == Some([[7]])
    ensures c !in {110, 114, 116, 98, 97} ==> Args([34, 92, c, 34]) == Some([[c]])
  {
    EscapeAlone(34, 110);
    EscapeAlone(34, 114);
    EscapeAlone(34, 116);
    EscapeAlone(34, 98);
    EscapeAlone(34, 97);
    EscapeAlone(34, c);
  }

  /** Every other byte between double quotes stands for itself. */
  lemma DoubleQuoted(c: byte)
    requires c !in {34, 92}
    ensures Args([34, c, 34]) == Some([[c]])
  {
    LiteralAlone(34, c);
  }

  /** Between single quotes only \' is special. */
  lemma SingleQuoted(c: byte)
    ensures Args([39, 92, 39, 39]) == Some([[39]])
    ensures c !in {39, 92} ==> Args([39, c, 39]) == Some([[c]])
    ensures c !in {39, 92} ==> Args([39, 92, c, 39]) == Some([[92, c]])
  {
    EscapeAlone(39, 39);
    if c !in {39, 92} {
      LiteralAlone(39, c);
      var us := [Lit(92), Lit(c)];
      OneUnit(39, Lit(c));
      assert us[1..] == [Lit(c)] && UnitsText(us) == [92, c] && UnitsValue(39, us) == [92, c];
      QuotedAlone(39, us);
      assert [39] + UnitsText(us) + [39] == [39, 92, c, 39];
    }
  }

  lemma ClosedByBlank(q: byte, w: byte, t: Text)
    requires q in {34, 39} && w in {32, 9, 10, 11, 12, 13}
    ensures Args([q, q, w] + t) == PrependArg([], Args(t))
  {
    var k, after := Token([], InQuotes(q, [])), [w] + t;
    assert TokenText(k) == [q, q] && TokenValue(k) == [];
    ItemIsRead([], k, after);
    assert [] + (TokenText(k) + after) == [q, q, w] + t;
    BlanksAreSkipped([w], t);
  }

  lemma ClosedBadly(q: byte, w: byte, t: Text)
    requires q in {34, 39} && w !in {32, 9, 10, 11, 12, 13}
    ensures Args([q, q, w] + t) == None
  {
    var bad := BadToken([], [], q, [], [q, w] + t);
    BrokenIsRefused(bad);
    assert BrokenText(bad) == [q, q, w] + t;
  }

  /** A quotation ends at its quote, which must be followed by a blank or nothing; it must end. */
  lemma BehindQuote(q: byte, w: byte, t: Text)
    requires q in {34, 39}
    ensures w in {32, 9, 10, 11, 12, 13} ==> Args([q, q, w] + t) == PrependArg([], Args(t))
    ensures w !in {32, 9, 10, 11, 12, 13} ==> Args([q, q, w] + t) == None
    ensures Args([q, q]) == Some([[]]) && Args([q]) == None
  {
    if w in {32, 9, 10, 11, 12, 13} {
      ClosedByBlank(q, w, t);
    } else {
      ClosedBadly(q, w, t);
    }
    OpenQuote([], q);
  }

  /** A quote behind a plain part, or at the start, opens a quotation of the same token. */
  lemma OpenQuote(plain: Text, q: byte)
    requires q in {34, 39} && (plain == [] || Bare(plain))
    ensures Args(plain + [q]) == None && Args(plain + [q, q]) == Some([plain])
  {
    var bad := BadToken([], plain, q, [], []);
    assert BrokenText(bad) == plain + [q];
    BrokenIsRefused(bad);
    var k := Token(plain, InQuotes(q, []));
    assert TokenText(k) == plain + [q, q] && TokenValue(k) == plain;
    LastItem(k);
  }

  // ---------------------------------------------------------------- outside quotes

  lemma BareToken(s: Text, after: Text)
    requires Bare(s) && (after != [] ==> after[0] in {32, 9, 10, 13})
    ensures TokenOk(Token(s, NoQuote), after)
    ensures TokenText(Token(s, NoQuote)) == s && TokenValue(Token(s, NoQuote)) == s
  {
    assert s + [] == s;
  }

  /** Blank, tab, newline and carriage return end a token; no other byte but a quote does. */
  lemma BareTokens(s: Text, w: byte, t: Text)
    requires Bare(s)
    ensures Args(s) == Some([s])
    ensures w in {32, 9, 10, 13} ==> Args(s + [w] + t) == PrependArg(s, Args(t))
    ensures w !in {32, 9, 10, 13, 34, 39} ==> Args(s + [w]) == Some([s + [w]])
  {
    OneToken(s);
    if w in {32, 9, 10, 13} {
      var after := [w] + t;
      BareToken(s, after);
      ItemIsRead([], Token(s, NoQuote), after);
      assert [] + (s + after) == s + [w] + t;
      BlanksAreSkipped([w], t);
    } else if w !in {34, 39} {
      OneToken(s + [w]);
    }
  }

  lemma OneToken(s: Text)
    requires Bare(s)
    ensures Args(s) == Some([s])
  {
    BareToken(s, []);
    LastItem(Token(s, NoQuote));
  }

  /** Six bytes are skipped in front of a token. */
  lemma BlanksInFront(w: byte, t: Text)
    requires w in {32, 9, 10, 11, 12, 13}
    ensures Args([w] + t) == Args(t) && Args([w]) == Some([])
  {
    BlanksAreSkipped([w], t);
    BlanksAreSkipped([w], []);
    assert [w] + [] == [w];
  }

  // ---------------------------------------------------------------- the printer

  lemma ReprAlone(c: byte)
    ensures Repr([c]) == [34] + UnitText(ReprUnit(c)) + [34]
  {
    hide ReprUnit;
    assert ReprUnits([c]) == [ReprUnit(c)];
    OneUnit(34, ReprUnit(c));
  }

  /** How sdscatrepr shows each of the 256 bytes. */
  lemma ReprByte(c: byte)
    ensures Repr([c]) ==
              if c == 34 || c == 92 then [34, 92, c, 34]
              else if c == 10 then [34, 92, 110, 34]
              else if c == 13 then [34, 92, 114, 34]
              else if c == 9 then [34, 92, 116, 34]
              else if c == 7 then [34, 92, 97, 34]
              else if c == 8 then [34, 92, 98, 34]
              else if 32 <= c <= 126 then [34, c, 34]
              else [34, 92, 120, LOWER[c / 16], LOWER[c % 16], 34]
  {
    hide Repr;
    ReprAlone(c);
    DigitTables((c / 16) as nat);
    DigitTables((c % 16) as nat);
  }

  lemma {:induction false} UnitsTextConcat(us: seq<Unit>, ws: seq<Unit>)
    ensures UnitsText(us + ws) == UnitsText(us) + UnitsText(ws)
    decreases |us|
  {
    if us == [] {
      assert us + ws == ws;
    } else {
      hide UnitText;
      UnitsTextConcat(us[1..], ws);
      assert (us + ws)[1..] == us[1..] + ws;
      Assoc(UnitText(us[0]), UnitsText(us[1..]), UnitsText(ws));
    }
  }

  lemma {:induction false} ReprUnitsConcat(s: Text, t: Text)
    ensures ReprUnits(s + t) == ReprUnits(s) + ReprUnits(t)
    decreases |s|
  {
    if s == [] {
      assert s + t == t;
    } else {
      hide ReprUnit;
      ReprUnitsConcat(s[1..], t);
      assert (s + t)[1..] == s[1..] + t;
    }
  }

  lemma InnerConcat(a: Text, b: Text)
    ensures [34] + (a + b) + [34] == ([34] + a + [34])[..|a| + 1] + ([34] + b + [34])[1..]
  {
  }

  /** The quoted form of a concatenation is that of the parts, without the quotes between them. */
  lemma ReprConcat(s: Text, t: Text)
    ensures Repr([]) == [34, 34] && |Repr(s)| >= 2 && |Repr(t)| >= 2
    ensures Repr(s + t) == Repr(s)[..|Repr(s)| - 1] + Repr(t)[1..]
  {
    ReprUnitsConcat(s, t);
    UnitsTextConcat(ReprUnits(s), ReprUnits(t));
    InnerConcat(UnitsText(ReprUnits(s)), UnitsText(ReprUnits(t)));
  }
}

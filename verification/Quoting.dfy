/**
 What sdssplitargs accepts and what it makes of it. `Args` is the reading of a line in the
 three modes of the source (plain, double quoted, single quoted); a `Line` is the concrete
 syntax of a well-formed line, a `Broken` one that of a line with a bad quotation.
 */
module Quoting {
  import opened Bytes
  import opened Options
  import opened Sequences
  import Split

  /** isspace, isprint and is_hex_digit of the C locale. */
  predicate IsSpace(c: byte) {
    c == SPACE || 9 <= c <= 13
  }

  predicate IsPrint(c: byte) {
    0x20 <= c <= 0x7E
  }

  predicate IsHexDigit(c: byte) {
    C('0') <= c <= C('9') || C('a') <= c <= C('f') || C('A') <= c <= C('F')
  }

  /** hex_digit_to_int */
  function HexValue(c: byte): (v: byte)
    ensures v < 16
  {
    if C('0') <= c <= C('9') then c - C('0')
    else if C('a') <= c <= C('f') then c - C('a') + 10
    else if C('A') <= c <= C('F') then c - C('A') + 10
    else 0
  }

  /** The characters that end a token outside quotes; vertical tab and form feed do not. */
  predicate EndsPlain(c: byte) {
    c == SPACE || c == NL || c == CR || c == TAB
  }

  // ---------------------------------------------------------------- units of a quotation

  datatype Unit = Lit(c: byte) | Hex(h: byte, l: byte) | Esc(c: byte)

  function UnitText(u: Unit): (t: Text)
    ensures 1 <= |t|
  {
    match u
    case Lit(c) => [c]
    case Hex(h, l) => [BACKSLASH, C('x'), h, l]
    case Esc(c) => [BACKSLASH, c]
  }

  /** The escapes of a double-quoted string. */
  function Unescape(c: byte): byte {
    if c == C('n') then NL
    else if c == C('r') then CR
    else if c == C('t') then TAB
    else if c == C('b') then BS
    else if c == C('a') then BEL
    else c
  }

  function UnitValue(q: byte, u: Unit): byte {
    match u
    case Lit(c) => c
    case Hex(h, l) => 16 * HexValue(h) + HexValue(l)
    case Esc(c) => if q == DQUOTE then Unescape(c) else c
  }

  predicate TwoHexDigits(t: Text) {
    |t| >= 2 && IsHexDigit(t[0]) && IsHexDigit(t[1])
  }

  /** The unit u may stand in a quotation with quote q when it is followed by `after`. */
  predicate UnitOk(q: byte, u: Unit, after: Text) {
    if q == DQUOTE then
      match u
      case Lit(c) => c != DQUOTE && (c == BACKSLASH ==> after == [])
      case Hex(h, l) => IsHexDigit(h) && IsHexDigit(l)
      case Esc(c) => !(c == C('x') && TwoHexDigits(after))
    else
      match u
      case Lit(c) => c != SQUOTE && !(c == BACKSLASH && after != [] && after[0] == SQUOTE)
      case Hex(_, _) => false
      case Esc(c) => c == SQUOTE
  }

  function UnitsText(us: seq<Unit>): Text {
    if us == [] then [] else UnitText(us[0]) + UnitsText(us[1..])
  }

  function UnitsValue(q: byte, us: seq<Unit>): (v: Text)
    ensures |v| == |us|
  {
    if us == [] then [] else [UnitValue(q, us[0])] + UnitsValue(q, us[1..])
  }

  predicate UnitsOk(q: byte, us: seq<Unit>, after: Text) {
    us == [] || (UnitOk(q, us[0], UnitsText(us[1..]) + after) && UnitsOk(q, us[1..], after))
  }

  // ---------------------------------------------------------------- reading

  /** The unit at the start of t, inside a quotation that is not closed there. */
  function NextUnit(q: byte, t: Text): (u: Unit)
    requires t != [] && t[0] != q
    ensures |UnitText(u)| <= |t|
  {
    if q == DQUOTE then
      if t[0] == BACKSLASH && |t| >= 4 && t[1] == C('x') && TwoHexDigits(t[2..]) then Hex(t[2], t[3])
      else if t[0] == BACKSLASH && |t| >= 2 then Esc(t[1])
      else Lit(t[0])
    else
      if t[0] == BACKSLASH && |t| >= 2 && t[1] == SQUOTE then Esc(SQUOTE)
      else Lit(t[0])
  }

  type Reading = Option<(Text, Text)>

  function Prepend(v: Text, r: Reading): Reading {
    if r.None? then None else Some((v + r.value.0, r.value.1))
  }

  /** Behind a closing quote there must be a space or nothing. */
  predicate ClosesWell(t: Text) {
    |t| <= 1 || IsSpace(t[1])
  }

  /** A quotation from behind its opening quote: its value and what follows it. */
  function Quoted(q: byte, t: Text): (r: Reading)
    ensures r.Some? ==> |r.value.1| < |t|
    decreases |t|
  {
    if t == [] then None
    else if t[0] == q then
      if ClosesWell(t) then Some(([], t[1..])) else None
    else
      var u := NextUnit(q, t);
      Prepend([UnitValue(q, u)], Quoted(q, t[|UnitText(u)|..]))
  }

  /** A token, or its rest, in plain mode. */
  function Plain(t: Text): (r: Reading)
    ensures r.Some? && t != [] ==> |r.value.1| < |t|
    ensures r.Some? ==> |r.value.1| <= |t|
    decreases |t|
  {
    if t == [] then Some(([], []))
    else if EndsPlain(t[0]) then Some(([], t[1..]))
    else if t[0] == DQUOTE || t[0] == SQUOTE then Quoted(t[0], t[1..])
    else Prepend([t[0]], Plain(t[1..]))
  }

  function SkipBlanks(t: Text): (r: Text)
    ensures |r| <= |t|
    ensures r != [] ==> !IsSpace(r[0])
  {
    if t != [] && IsSpace(t[0]) then SkipBlanks(t[1..]) else t
  }

  function PrependArg(v: Text, r: Option<seq<Text>>): Option<seq<Text>> {
    if r.None? then None else Some([v] + r.value)
  }

  /** The arguments of a line; None stands for the NULL of sdssplitargs. */
  function Args(t: Text): Option<seq<Text>>
    decreases |t|
  {
    var u := SkipBlanks(t);
    if u == [] then Some([])
    else
      var r := Plain(u);
      if r.None? then None else PrependArg(r.value.0, Args(r.value.1))
  }

  // ---------------------------------------------------------------- quotations, both ways

  /** What becomes of a quotation with these units when `after` follows them. */
  function Outcome(q: byte, us: seq<Unit>, after: Text): Reading {
    if after == [] || !ClosesWell(after) then None else Some((UnitsValue(q, us), after[1..]))
  }

  predicate QuotationEnds(q: byte, after: Text) {
    after == [] || after[0] == q
  }

  lemma UnitIsRead(q: byte, u: Unit, after: Text)
    requires q == DQUOTE || q == SQUOTE
    requires UnitOk(q, u, after)
    ensures
      var t := UnitText(u) + after;
      t[0] != q && NextUnit(q, t) == u && t[|UnitText(u)|..] == after
  {
    var t := UnitText(u) + after;
    if q == DQUOTE && u.Esc? && u.c == C('x') {
      assert t[2..] == after;
    }
  }

  lemma UnitIsOk(q: byte, t: Text)
    requires q == DQUOTE || q == SQUOTE
    requires t != [] && t[0] != q
    ensures
      var u := NextUnit(q, t);
      UnitOk(q, u, t[|UnitText(u)|..]) && t == UnitText(u) + t[|UnitText(u)|..]
  {
  }

  lemma UnitThenRest(q: byte, u: Unit, after: Text)
    requires q == DQUOTE || q == SQUOTE
    requires UnitOk(q, u, after)
    ensures Quoted(q, UnitText(u) + after) == Prepend([UnitValue(q, u)], Quoted(q, after))
  {
    UnitIsRead(q, u, after);
  }

  /** A well-formed quotation is read as its units say. */
  lemma {:induction false} UnitsAreRead(q: byte, us: seq<Unit>, after: Text)
    requires q == DQUOTE || q == SQUOTE
    requires UnitsOk(q, us, after) && QuotationEnds(q, after)
    ensures Quoted(q, UnitsText(us) + after) == Outcome(q, us, after)
    decreases |us|
  {
    if us == [] {
      assert UnitsText(us) + after == after;
    } else {
      UnitThenRest(q, us[0], UnitsText(us[1..]) + after);
      UnitsAreRead(q, us[1..], after);
      Assoc(UnitText(us[0]), UnitsText(us[1..]), after);
      assert Prepend([UnitValue(q, us[0])], Outcome(q, us[1..], after)) == Outcome(q, us, after);
    }
  }

  /** Every text behind an opening quote consists of units up to the closing quote or the end. */
  lemma {:induction false} QuotationHasUnits(q: byte, t: Text) returns (us: seq<Unit>, after: Text)
    requires q == DQUOTE || q == SQUOTE
    ensures t == UnitsText(us) + after
    ensures UnitsOk(q, us, after) && QuotationEnds(q, after)
    decreases |t|
  {
    if t == [] || t[0] == q {
      us, after := [], t;
    } else {
      var u := NextUnit(q, t);
      var tail := t[|UnitText(u)|..];
      UnitIsOk(q, t);
      var us', after' := QuotationHasUnits(q, tail);
      us, after := [u] + us', after';
      assert us[1..] == us';
    }
  }

  // ---------------------------------------------------------------- tokens and lines

  /** The quoted part that may end a token. */
  datatype Quotation = NoQuote | InQuotes(q: byte, us: seq<Unit>)

  datatype Token = Token(plain: Text, quotation: Quotation)

  datatype Line = End(blanks: Text) | Item(blanks: Text, token: Token, rest: Line)

  /** A line whose last token starts a quotation that never ends or ends badly. */
  datatype Broken =
    | BadToken(blanks: Text, plain: Text, q: byte, us: seq<Unit>, after: Text)
    | GoodToken(blanks: Text, token: Token, rest: Broken)

  predicate IsQuote(c: byte) {
    c == DQUOTE || c == SQUOTE
  }

  predicate IsPlain(s: Text) {
    forall i :: 0 <= i < |s| ==> !EndsPlain(s[i]) && !IsQuote(s[i])
  }

  predicate IsBlank(s: Text) {
    forall i :: 0 <= i < |s| ==> IsSpace(s[i])
  }

  predicate StartsToken(s: Text) {
    s != [] ==> !IsSpace(s[0])
  }

  function TokenText(k: Token): Text {
    k.plain + match k.quotation case NoQuote => [] case InQuotes(q, us) => [q] + UnitsText(us) + [q]
  }

  function TokenValue(k: Token): Text {
    k.plain + match k.quotation case NoQuote => [] case InQuotes(q, us) => UnitsValue(q, us)
  }

  predicate TokenOk(k: Token, after: Text) {
    && IsPlain(k.plain) && StartsToken(k.plain)
    && match k.quotation
       case NoQuote => k.plain != [] && (after == [] || EndsPlain(after[0]))
       case InQuotes(q, us) =>
         IsQuote(q) && UnitsOk(q, us, [q] + after) && (after == [] || IsSpace(after[0]))
  }

  function LineText(l: Line): Text {
    match l
    case End(blanks) => blanks
    case Item(blanks, token, rest) => blanks + (TokenText(token) + LineText(rest))
  }

  function LineValues(l: Line): seq<Text> {
    match l
    case End(_) => []
    case Item(_, token, rest) => [TokenValue(token)] + LineValues(rest)
  }

  predicate LineOk(l: Line) {
    IsBlank(l.blanks) && (l.Item? ==> TokenOk(l.token, LineText(l.rest)) && LineOk(l.rest))
  }

  function BrokenText(b: Broken): Text {
    match b
    case BadToken(blanks, plain, q, us, after) => blanks + (plain + ([q] + (UnitsText(us) + after)))
    case GoodToken(blanks, token, rest) => blanks + (TokenText(token) + BrokenText(rest))
  }

  predicate BrokenOk(b: Broken) {
    && IsBlank(b.blanks)
    && match b
       case BadToken(_, plain, q, us, after) =>
         && IsPlain(plain) && StartsToken(plain) && IsQuote(q)
         && UnitsOk(q, us, after) && QuotationEnds(q, after)
         && (after != [] ==> !ClosesWell(after))  // unterminated, or followed by a non-space
       case GoodToken(_, token, rest) => TokenOk(token, BrokenText(rest)) && BrokenOk(rest)
  }

  // ---------------------------------------------------------------- from syntax to reading

  lemma {:induction false} PlainIsRead(plain: Text, t: Text)
    requires IsPlain(plain)
    ensures Plain(plain + t) == Prepend(plain, Plain(t))
    decreases |plain|
  {
    if plain == [] {
      assert plain + t == t;
      assert Plain(t).Some? ==> [] + Plain(t).value.0 == Plain(t).value.0;
    } else {
      PlainIsRead(plain[1..], t);
      assert (plain + t)[1..] == plain[1..] + t;
      assert [plain[0]] + plain[1..] == plain;
      if Plain(t).Some? {
        Assoc([plain[0]], plain[1..], Plain(t).value.0);
      }
    }
  }

  lemma {:induction false} BlanksAreSkipped(blanks: Text, t: Text)
    requires IsBlank(blanks)
    ensures SkipBlanks(blanks + t) == SkipBlanks(t) && Args(blanks + t) == Args(t)
    decreases |blanks|
  {
    if blanks == [] {
      assert blanks + t == t;
    } else {
      BlanksAreSkipped(blanks[1..], t);
      assert (blanks + t)[1..] == blanks[1..] + t;
    }
  }

  predicate ReadsAs(t: Text, v: Text, after: Text) {
    var r := Plain(t);
    r.Some? && r.value.0 == v && Args(r.value.1) == Args(after)
  }

  lemma PlainTokenIsRead(plain: Text, after: Text)
    requires IsPlain(plain) && (after == [] || EndsPlain(after[0]))
    ensures ReadsAs(plain + after, plain, after)
  {
    PlainIsRead(plain, after);
    if after != [] {
      BlanksAreSkipped([after[0]], after[1..]);
      assert [after[0]] + after[1..] == after;
    }
  }

  lemma QuotedTokenIsRead(plain: Text, q: byte, us: seq<Unit>, after: Text)
    requires IsPlain(plain) && IsQuote(q) && UnitsOk(q, us, [q] + after)
    requires after == [] || IsSpace(after[0])
    ensures ReadsAs(plain + ([q] + (UnitsText(us) + ([q] + after))), plain + UnitsValue(q, us), after)
  {
    var quoted := UnitsText(us) + ([q] + after);
    UnitsAreRead(q, us, [q] + after);
    PlainIsRead(plain, [q] + quoted);
    assert ([q] + quoted)[1..] == quoted && ([q] + after)[1..] == after;
  }

  lemma QuotedTokenText(plain: Text, q: byte, us: seq<Unit>, after: Text)
    ensures TokenText(Token(plain, InQuotes(q, us))) + after == plain + ([q] + (UnitsText(us) + ([q] + after)))
  {
    var u := UnitsText(us);
    Assoc(plain, [q] + u + [q], after);
    Assoc([q] + u, [q], after);
    Assoc([q], u, [q] + after);
  }

  /** A well-formed token is read as its value; what follows it is left, up to one blank. */
  lemma TokenIsRead(k: Token, after: Text)
    requires TokenOk(k, after)
    ensures ReadsAs(TokenText(k) + after, TokenValue(k), after)
    ensures TokenText(k) != [] && !IsSpace(TokenText(k)[0])
  {
    match k.quotation
    case NoQuote =>
      PlainTokenIsRead(k.plain, after);
      assert k.plain + [] == k.plain;
    case InQuotes(q, us) =>
      QuotedTokenIsRead(k.plain, q, us, after);
      QuotedTokenText(k.plain, q, us, after);
      assert TokenText(k)[0] == if k.plain == [] then q else k.plain[0];
  }

  lemma ItemIsRead(blanks: Text, k: Token, after: Text)
    requires IsBlank(blanks) && TokenOk(k, after)
    ensures Args(blanks + (TokenText(k) + after)) == PrependArg(TokenValue(k), Args(after))
  {
    BlanksAreSkipped(blanks, TokenText(k) + after);
    TokenIsRead(k, after);
    var t := TokenText(k) + after;
    assert t[0] == TokenText(k)[0];
    assert SkipBlanks(t) == t;
  }

  /** A well-formed line is read as its values. */
  lemma {:induction false} LineIsRead(l: Line)
    requires LineOk(l)
    ensures Args(LineText(l)) == Some(LineValues(l))
    decreases l
  {
    match l
    case End(blanks) =>
      BlanksAreSkipped(blanks, []);
      assert blanks + [] == blanks;
    case Item(blanks, token, rest) =>
      LineIsRead(rest);
      ItemIsRead(blanks, token, LineText(rest));
  }

  /** A line with a bad quotation is refused. */
  lemma {:induction false} BrokenIsRefused(b: Broken)
    requires BrokenOk(b)
    ensures Args(BrokenText(b)) == None
    decreases b
  {
    match b
    case GoodToken(blanks, token, rest) =>
      BrokenIsRefused(rest);
      ItemIsRead(blanks, token, BrokenText(rest));
    case BadToken(blanks, plain, q, us, after) =>
      var quoted := UnitsText(us) + after;
      var t := plain + ([q] + quoted);
      UnitsAreRead(q, us, after);
      assert ([q] + quoted)[1..] == quoted;
      PlainIsRead(plain, [q] + quoted);
      BlanksAreSkipped(blanks, t);
      assert t[0] == if plain == [] then q else plain[0];
      assert SkipBlanks(t) == t;
  }

  // ---------------------------------------------------------------- from text to syntax

  datatype Diagnosis = WellFormed(line: Line) | IllFormed(broken: Broken)

  predicate Explains(d: Diagnosis, t: Text) {
    match d
    case WellFormed(l) => LineOk(l) && LineText(l) == t
    case IllFormed(b) => BrokenOk(b) && BrokenText(b) == t
  }

  lemma {:induction false} LeadingBlanks(t: Text) returns (blanks: Text)
    ensures IsBlank(blanks) && t == blanks + SkipBlanks(t)
    decreases |t|
  {
    if t != [] && IsSpace(t[0]) {
      var more := LeadingBlanks(t[1..]);
      blanks := [t[0]] + more;
    } else {
      blanks := [];
    }
  }

  lemma {:induction false} LeadingPlain(t: Text) returns (plain: Text, after: Text)
    ensures IsPlain(plain) && t == plain + after
    ensures after == [] || EndsPlain(after[0]) || IsQuote(after[0])
    decreases |t|
  {
    if t == [] || EndsPlain(t[0]) || IsQuote(t[0]) {
      plain, after := [], t;
    } else {
      var more, after' := LeadingPlain(t[1..]);
      plain, after := [t[0]] + more, after';
    }
  }

  /** Put one more token in front of an explained text. */
  lemma Extend(blanks: Text, k: Token, after: Text, d: Diagnosis) returns (e: Diagnosis)
    requires IsBlank(blanks) && TokenOk(k, after) && Explains(d, after)
    ensures Explains(e, blanks + (TokenText(k) + after))
  {
    match d
    case WellFormed(l) => e := WellFormed(Item(blanks, k, l));
    case IllFormed(b) => e := IllFormed(GoodToken(blanks, k, b));
  }

  /** A quotation that closes well makes a token. */
  lemma ClosedToken(plain: Text, q: byte, us: seq<Unit>, rest: Text) returns (k: Token)
    requires IsPlain(plain) && StartsToken(plain) && IsQuote(q)
    requires rest != [] && rest[0] == q && ClosesWell(rest) && UnitsOk(q, us, rest)
    ensures TokenOk(k, rest[1..])
    ensures TokenText(k) + rest[1..] == plain + ([q] + (UnitsText(us) + rest))
  {
    k := Token(plain, InQuotes(q, us));
    assert rest == [q] + rest[1..];
    QuotedTokenText(plain, q, us, rest[1..]);
  }

  /** Every text is a well-formed line or a line with a bad quotation. */
  lemma {:induction false} Diagnose(t: Text) returns (d: Diagnosis)
    ensures Explains(d, t)
    decreases |t|
  {
    var blanks := LeadingBlanks(t);
    var u := SkipBlanks(t);
    if u == [] {
      d := WellFormed(End(blanks));
      assert blanks + u == blanks;
      return;
    }
    var plain, after := LeadingPlain(u);
    assert StartsToken(plain);
    if after == [] || !IsQuote(after[0]) {
      var k := Token(plain, NoQuote);
      assert TokenText(k) == plain;
      var more := Diagnose(after);
      d := Extend(blanks, k, after, more);
    } else {
      var q := after[0];
      assert after == [q] + after[1..];
      var us, rest := QuotationHasUnits(q, after[1..]);
      if rest == [] || !ClosesWell(rest) {
        d := IllFormed(BadToken(blanks, plain, q, us, rest));
      } else {
        var k := ClosedToken(plain, q, us, rest);
        var more := Diagnose(rest[1..]);
        d := Extend(blanks, k, rest[1..], more);
      }
    }
  }

  // ---------------------------------------------------------------- the grammar theorems

  /** sdssplitargs succeeds with these arguments exactly on the lines that denote them. */
  lemma AcceptedLines(t: Text, args: seq<Text>)
    ensures Args(t) == Some(args) <==> exists l :: LineOk(l) && LineText(l) == t && LineValues(l) == args
  {
    if Args(t) == Some(args) {
      var d := Diagnose(t);
      match d
      case WellFormed(l) => LineIsRead(l);
      case IllFormed(b) => BrokenIsRefused(b);
    }
    forall l | LineOk(l) && LineText(l) == t && LineValues(l) == args
      ensures Args(t) == Some(args)
    {
      LineIsRead(l);
    }
  }

  /**
   sdssplitargs returns NULL exactly on lines in which, after well-formed tokens, a
   quotation is never closed or is closed and followed by something other than a space.
   */
  lemma RefusedLines(t: Text)
    ensures Args(t) == None <==> exists b :: BrokenOk(b) && BrokenText(b) == t
  {
    if Args(t) == None {
      var d := Diagnose(t);
      match d
      case WellFormed(l) => LineIsRead(l);
      case IllFormed(b) => assert BrokenOk(b) && BrokenText(b) == t;
    }
    if b :| BrokenOk(b) && BrokenText(b) == t {
      BrokenIsRefused(b);
    }
  }

  // ---------------------------------------------------------------- the printer

  /** One digit of %02x. */
  function HexDigit(v: byte): byte
    requires v < 16
  {
    if v < 10 then C('0') + v else C('a') + (v - 10)
  }

  /** How sdscatrepr shows one byte. */
  function ReprUnit(c: byte): Unit {
    if c == BACKSLASH || c == DQUOTE then Esc(c)
    else if c == NL then Esc(C('n'))
    else if c == CR then Esc(C('r'))
    else if c == TAB then Esc(C('t'))
    else if c == BEL then Esc(C('a'))
    else if c == BS then Esc(C('b'))
    else if IsPrint(c) then Lit(c)
    else Hex(HexDigit(c / 16), HexDigit(c % 16))
  }

  function ReprUnits(s: Text): seq<Unit> {
    if s == [] then [] else [ReprUnit(s[0])] + ReprUnits(s[1..])
  }

  function Repr(s: Text): Text {
    [DQUOTE] + UnitsText(ReprUnits(s)) + [DQUOTE]
  }

  lemma HexDigitRead(v: byte)
    requires v < 16
    ensures IsHexDigit(HexDigit(v)) && HexValue(HexDigit(v)) == v
  {
  }

  /** The shown byte may stand anywhere, has printable text only, and is read back as itself. */
  lemma ReprUnitRead(c: byte, after: Text)
    ensures UnitOk(DQUOTE, ReprUnit(c), after) && UnitValue(DQUOTE, ReprUnit(c)) == c
    ensures forall i :: 0 <= i < |UnitText(ReprUnit(c))| ==> IsPrint(UnitText(ReprUnit(c))[i])
  {
    HexDigitRead(c / 16);
    HexDigitRead(c % 16);
  }

  lemma {:induction false} ReprUnitsRead(s: Text, after: Text)
    ensures UnitsOk(DQUOTE, ReprUnits(s), after) && UnitsValue(DQUOTE, ReprUnits(s)) == s
    ensures forall i :: 0 <= i < |UnitsText(ReprUnits(s))| ==> IsPrint(UnitsText(ReprUnits(s))[i])
    decreases |s|
  {
    if s != [] {
      var us := ReprUnits(s);
      ReprUnitsRead(s[1..], after);
      assert us[1..] == ReprUnits(s[1..]);
      ReprUnitRead(s[0], UnitsText(us[1..]) + after);
      assert s == [s[0]] + s[1..];
    }
  }

  function Reprs(ts: seq<Text>): (r: seq<Text>)
    ensures |r| == |ts|
  {
    if ts == [] then [] else [Repr(ts[0])] + Reprs(ts[1..])
  }

  /** The line sdscatrepr and single spaces make of a list. */
  function LineOf(ts: seq<Text>, blanks: Text): Line {
    if ts == [] then End([])
    else Item(blanks, Token([], InQuotes(DQUOTE, ReprUnits(ts[0]))), LineOf(ts[1..], [SPACE]))
  }

  lemma ReprToken(s: Text, after: Text) returns (k: Token)
    ensures k == Token([], InQuotes(DQUOTE, ReprUnits(s)))
    ensures TokenText(k) == Repr(s) && TokenValue(k) == s
    ensures after == [] || IsSpace(after[0]) ==> TokenOk(k, after)
  {
    k := Token([], InQuotes(DQUOTE, ReprUnits(s)));
    ReprUnitsRead(s, [DQUOTE] + after);
  }

  lemma {:induction false} LineOfOk(ts: seq<Text>, blanks: Text)
    requires IsBlank(blanks)
    ensures LineOk(LineOf(ts, blanks)) && LineValues(LineOf(ts, blanks)) == ts
    ensures ts != [] && blanks == [SPACE] ==> LineText(LineOf(ts, blanks))[..1] == [SPACE]
    decreases |ts|
  {
    if ts != [] {
      var rest := LineOf(ts[1..], [SPACE]);
      LineOfOk(ts[1..], [SPACE]);
      var k := ReprToken(ts[0], LineText(rest));
      assert LineOf(ts, blanks) == Item(blanks, k, rest);
      assert ts == [ts[0]] + ts[1..];
    }
  }

  lemma {:induction false} LineOfText(ts: seq<Text>, blanks: Text)
    requires ts != []
    ensures LineText(LineOf(ts, blanks)) == blanks + Split.Join(Reprs(ts), [SPACE])
    decreases |ts|
  {
    var rest := LineOf(ts[1..], [SPACE]);
    var k := ReprToken(ts[0], LineText(rest));
    assert LineText(LineOf(ts, blanks)) == blanks + (Repr(ts[0]) + LineText(rest));
    assert Reprs(ts)[1..] == Reprs(ts[1..]);
    if |ts| == 1 {
      assert Repr(ts[0]) + [] == Repr(ts[0]);
    } else {
      LineOfText(ts[1..], [SPACE]);
      Assoc(Repr(ts[0]), [SPACE], Split.Join(Reprs(ts[1..]), [SPACE]));
    }
  }

  /**
   sdssplitargs inverts sdscatrepr: quote any byte strings, join them with single spaces,
   and parsing gives exactly the list back.
   */
  lemma ReprRoundTrip(ts: seq<Text>)
    ensures Args(Split.Join(Reprs(ts), [SPACE])) == Some(ts)
    ensures NoNul(Split.Join(Reprs(ts), [SPACE]))
  {
    var l := LineOf(ts, []);
    LineOfOk(ts, []);
    LineIsRead(l);
    if ts != [] {
      LineOfText(ts, []);
    }
    assert [] + Split.Join(Reprs(ts), [SPACE]) == Split.Join(Reprs(ts), [SPACE]);
    JoinIsPrintable(ts);
  }

  predicate Printable(s: Text) {
    forall i :: 0 <= i < |s| ==> IsPrint(s[i])
  }

  lemma PrintableConcat(s: Text, t: Text)
    requires Printable(s) && Printable(t)
    ensures Printable(s + t)
  {
  }

  lemma {:induction false} JoinIsPrintable(ts: seq<Text>)
    ensures Printable(Split.Join(Reprs(ts), [SPACE]))
    decreases |ts|
  {
    if ts != [] {
      ReprUnitsRead(ts[0], []);
      PrintableConcat([DQUOTE], UnitsText(ReprUnits(ts[0])));
      PrintableConcat([DQUOTE] + UnitsText(ReprUnits(ts[0])), [DQUOTE]);
      JoinIsPrintable(ts[1..]);
      assert Reprs(ts)[1..] == Reprs(ts[1..]);
      PrintableConcat(Repr(ts[0]), [SPACE]);
      PrintableConcat(Repr(ts[0]) + [SPACE], Split.Join(Reprs(ts[1..]), [SPACE]));
    }
  }
}

/** sdscatrepr and sdssplitargs, and the two in sequence. */
module ArgParser {
  import opened Bytes
  import opened Options
  import opened Sequences
  import opened SdsStrings
  import opened Quoting
  import Split

  // ---------------------------------------------------------------- sdscatrepr

  /** What is still to be appended when the loop is at position k. */
  function ReprFrom(p: Text, k: nat): Text
    requires k <= |p|
  {
    UnitsText(ReprUnits(p[k..])) + [DQUOTE]
  }

  lemma ReprFromStep(p: Text, k: nat)
    requires k < |p|
    ensures ReprFrom(p, k) == UnitText(ReprUnit(p[k])) + ReprFrom(p, k + 1)
  {
    var us := ReprUnits(p[k..]);
    assert p[k..][1..] == p[k + 1..];
    assert us[1..] == ReprUnits(p[k + 1..]);
    Assoc(UnitText(us[0]), UnitsText(us[1..]), [DQUOTE]);
  }

  lemma ReprFromEnds(p: Text)
    ensures [DQUOTE] + ReprFrom(p, 0) == Repr(p) && ReprFrom(p, |p|) == [DQUOTE]
  {
    assert p[0..] == p && p[|p|..] == [];
    Assoc([DQUOTE], UnitsText(ReprUnits(p)), [DQUOTE]);
  }

  /** The bytes one turn of the loop appends. */
  method ReprPiece(c: byte) returns (piece: Text)
    ensures piece == UnitText(ReprUnit(c))
  {
    if c == BACKSLASH || c == DQUOTE {
      piece := [BACKSLASH, c];
    } else if c == NL {
      piece := [BACKSLASH, C('n')];
    } else if c == CR {
      piece := [BACKSLASH, C('r')];
    } else if c == TAB {
      piece := [BACKSLASH, C('t')];
    } else if c == BEL {
      piece := [BACKSLASH, C('a')];
    } else if c == BS {
      piece := [BACKSLASH, C('b')];
    } else if IsPrint(c) {
      piece := [c];
    } else {
      piece := [BACKSLASH, C('x'), HexDigit(c / 16), HexDigit(c % 16)];
    }
  }

  /** One turn of the loop: the piece for byte k goes to the end. */
  method AppendPiece(s: Sds, p: Text, k: nat)
    requires s.Valid() && k < |p| && Fits(s.Len() + |ReprFrom(p, k)|)
    modifies s, s.buf
    ensures s.Valid() && (s.buf == old(s.buf) || fresh(s.buf)) && (old(s.Exact()) ==> s.Exact())
    ensures s.Content() + ReprFrom(p, k + 1) == old(s.Content()) + ReprFrom(p, k)
  {
    var piece := ReprPiece(p[k]);
    ReprFromStep(p, k);
    Assoc(s.Content(), piece, ReprFrom(p, k + 1));
    s.CatLen(piece);
  }

  /** sdscatrepr */
  method CatRepr(s: Sds, p: Text)
    requires s.Valid() && Fits(s.Len() + |Repr(p)|)
    modifies s, s.buf
    ensures s.Valid() && (s.buf == old(s.buf) || fresh(s.buf))
    ensures s.Content() == old(s.Content()) + Repr(p) && s.Exact()
  {
    hide ReprFrom, Repr;
    ghost var all := s.Content() + Repr(p);
    ReprFromEnds(p);
    Assoc(s.Content(), [DQUOTE], ReprFrom(p, 0));
    s.CatLen([DQUOTE]);
    var k := 0;
    while k < |p|
      invariant k <= |p|
      invariant s.Valid() && s.Exact() && (s.buf == old(s.buf) || fresh(s.buf))
      invariant s.Content() + ReprFrom(p, k) == all
    {
      AppendPiece(s, p, k);
      k := k + 1;
    }
    s.CatLen([DQUOTE]);
  }

  // ---------------------------------------------------------------- sdssplitargs

  /** What one turn of the token loop finds. */
  datatype Move = Fail | Close | Append(c: byte) | Open(q: byte)

  /** The line from p on, without its NUL. */
  function From(line: seq<byte>, p: nat): Text
    requires p < |line|
  {
    line[p..|line| - 1]
  }

  lemma FromTail(line: seq<byte>, p: nat, n: nat)
    requires p + n < |line|
    ensures From(line, p)[n..] == From(line, p + n)
  {
  }

  lemma QuotedUnit(line: seq<byte>, p: nat, q: byte, n: nat)
    requires p < |line| - 1 && line[p] != q && n == |UnitText(NextUnit(q, From(line, p)))|
    ensures p + n < |line|
    ensures Quoted(q, From(line, p)) ==
              Prepend([UnitValue(q, NextUnit(q, From(line, p)))], Quoted(q, From(line, p + n)))
  {
    FromTail(line, p, n);
  }

  lemma QuotedEnds(line: seq<byte>, p: nat, q: byte)
    requires CString(line) && p < |line| && (line[p] == NUL || line[p] == q)
    ensures line[p] == NUL ==> Quoted(q, From(line, p)) == None
    ensures line[p] == q != NUL ==>
              Quoted(q, From(line, p)) ==
                if line[p + 1] == NUL || IsSpace(line[p + 1]) then Some(([], From(line, p + 1))) else None
  {
    if line[p] != NUL {
      FromTail(line, p, 1);
    }
  }

  /** What the lookahead in double quotes finds. */
  lemma UnitInDouble(line: seq<byte>, p: nat)
    requires CString(line) && p < |line| - 1 && line[p] != DQUOTE
    ensures NextUnit(DQUOTE, From(line, p)) ==
              if line[p] == BACKSLASH && line[p + 1] == C('x') && IsHexDigit(line[p + 2]) && IsHexDigit(line[p + 3])
              then Hex(line[p + 2], line[p + 3])
              else if line[p] == BACKSLASH && line[p + 1] != NUL then Esc(line[p + 1])
              else Lit(line[p])
  {
    var t := From(line, p);
    if |t| >= 4 {
      assert t[2..][0] == line[p + 2] && t[2..][1] == line[p + 3];
    }
  }

  /** What the lookahead in single quotes finds. */
  lemma UnitInSingle(line: seq<byte>, p: nat)
    requires CString(line) && p < |line| - 1 && line[p] != SQUOTE
    ensures NextUnit(SQUOTE, From(line, p)) ==
              if line[p] == BACKSLASH && line[p + 1] == SQUOTE then Esc(SQUOTE) else Lit(line[p])
  {
  }

  /** One turn inside quotes reads one unit, closes the quotation or fails; p' is the next position. */
  ghost predicate QuoteTurn(line: seq<byte>, p: nat, q: byte, m: Move, p': nat)
    requires p < |line|
  {
    && p <= p' < |line|
    && match m
       case Fail => Quoted(q, From(line, p)) == None
       case Close => p < p' && Quoted(q, From(line, p)) == Some(([], From(line, p')))
       case Append(c) => p < p' && Quoted(q, From(line, p)) == Prepend([c], Quoted(q, From(line, p')))
       case Open(_) => false
  }

  /** p is inside double quotes. */
  method InDoubleQuotes(line: seq<byte>, p: nat) returns (m: Move, p': nat)
    requires CString(line) && p < |line|
    ensures QuoteTurn(line, p, DQUOTE, m, p')
  {
    if line[p] == NUL || line[p] == DQUOTE {
      QuotedEnds(line, p, DQUOTE);
    } else {
      UnitInDouble(line, p);
      QuotedUnit(line, p, DQUOTE, |UnitText(NextUnit(DQUOTE, From(line, p)))|);
    }
    if line[p] == BACKSLASH && line[p + 1] == C('x') && IsHexDigit(line[p + 2]) && IsHexDigit(line[p + 3]) {
      m, p' := Append(16 * HexValue(line[p + 2]) + HexValue(line[p + 3])), p + 4;
    } else if line[p] == BACKSLASH && line[p + 1] != NUL {
      m, p' := Append(Unescape(line[p + 1])), p + 2;
    } else if line[p] == DQUOTE {
      if line[p + 1] != NUL && !IsSpace(line[p + 1]) {
        m, p' := Fail, p;
      } else {
        m, p' := Close, p + 1;
      }
    } else if line[p] == NUL {
      m, p' := Fail, p;
    } else {
      m, p' := Append(line[p]), p + 1;
    }
  }

  /** p is inside single quotes. */
  method InSingleQuotes(line: seq<byte>, p: nat) returns (m: Move, p': nat)
    requires CString(line) && p < |line|
    ensures QuoteTurn(line, p, SQUOTE, m, p')
  {
    if line[p] == NUL || line[p] == SQUOTE {
      QuotedEnds(line, p, SQUOTE);
    } else {
      UnitInSingle(line, p);
      QuotedUnit(line, p, SQUOTE, |UnitText(NextUnit(SQUOTE, From(line, p)))|);
    }
    if line[p] == BACKSLASH && line[p + 1] == SQUOTE {
      m, p' := Append(SQUOTE), p + 2;
    } else if line[p] == SQUOTE {
      if line[p + 1] != NUL && !IsSpace(line[p + 1]) {
        m, p' := Fail, p;
      } else {
        m, p' := Close, p + 1;
      }
    } else if line[p] == NUL {
      m, p' := Fail, p;
    } else {
      m, p' := Append(line[p]), p + 1;
    }
  }

  /** p is outside quotes: the token ends, a quotation opens or one byte is taken. */
  method OutsideQuotes(line: seq<byte>, p: nat) returns (m: Move, p': nat)
    requires CString(line) && p < |line|
    ensures p <= p' < |line| && (line[p] != NUL ==> p < p') && !m.Fail?
    ensures m.Close? ==> Plain(From(line, p)) == Some(([], From(line, p')))
    ensures m.Append? ==> p < p' && Plain(From(line, p)) == Prepend([m.c], Plain(From(line, p')))
    ensures m.Open? ==> p < p' && IsQuote(m.q) && Plain(From(line, p)) == Quoted(m.q, From(line, p'))
  {
    p' := if line[p] != NUL then p + 1 else p;
    FromTail(line, p, p' - p);
    if EndsPlain(line[p]) || line[p] == NUL {
      m := Close;
    } else if line[p] == DQUOTE || line[p] == SQUOTE {
      m := Open(line[p]);
    } else {
      m := Append(line[p]);
    }
  }

  /** The rest of a token in one of the three modes. */
  function Mode(inq: bool, insq: bool, t: Text): Reading {
    if inq then Quoted(DQUOTE, t) else if insq then Quoted(SQUOTE, t) else Plain(t)
  }

  lemma PrependNothing(r: Reading)
    ensures Prepend([], r) == r
  {
    if r.Some? {
      assert [] + r.value.0 == r.value.0;
    }
  }

  lemma PrependMore(v: Text, w: Text, r: Reading)
    ensures Prepend(v, Prepend(w, r)) == Prepend(v + w, r)
  {
    if r.Some? {
      Assoc(v, w, r.value.0);
    }
  }

  /** One turn of the token loop, in the mode that inq and insq name. */
  method Turn(line: seq<byte>, p: nat, inq: bool, insq: bool) returns (m: Move, p': nat)
    requires CString(line) && p < |line|
    ensures p <= p' < |line|
    ensures m.Fail? ==> Mode(inq, insq, From(line, p)) == None
    ensures m.Close? ==>
              (line[p] != NUL ==> p < p') && Mode(inq, insq, From(line, p)) == Some(([], From(line, p')))
    ensures m.Append? ==>
              p < p' && Mode(inq, insq, From(line, p)) == Prepend([m.c], Mode(inq, insq, From(line, p')))
    ensures m.Open? ==>
              p < p' && Mode(inq, insq, From(line, p)) == Mode(m.q == DQUOTE, m.q == SQUOTE, From(line, p'))
  {
    if inq {
      m, p' := InDoubleQuotes(line, p);
    } else if insq {
      m, p' := InSingleQuotes(line, p);
    } else {
      m, p' := OutsideQuotes(line, p);
    }
  }

  /** The token loop of sdssplitargs, from a byte that is not blank to the end of the token. */
  method GetToken(line: seq<byte>, from: nat) returns (token: Option<Text>, p: nat)
    requires CString(line) && from < |line| - 1
    ensures from <= p < |line|
    ensures token.None? ==> Plain(From(line, from)) == None
    ensures token.Some? ==> p > from && Plain(From(line, from)) == Some((token.value, From(line, p)))
  {
    var current: Text := [];
    var inq, insq, done := false, false, false;
    p := from;
    ghost var target := Plain(From(line, from));
    PrependNothing(target);
    while !done
      invariant from <= p < |line|
      invariant done ==> target == Some((current, From(line, p))) && p > from
      invariant !done ==> target == Prepend(current, Mode(inq, insq, From(line, p)))
      decreases |line| - p, !done
    {
      var m, p' := Turn(line, p, inq, insq);
      match m {
        case Fail => return None, p;
        case Close =>
          assert current + [] == current;
          done := true;
        case Append(c) =>
          PrependMore(current, [c], Mode(inq, insq, From(line, p')));
          current := current + [c];
        case Open(q) => inq, insq := q == DQUOTE, q == SQUOTE;
      }
      p := p';
    }
    token := Some(current);
  }

  /** sdssplitargs; the terminating NUL is the last byte of `line` that may be read. */
  method SplitArgs(line: seq<byte>) returns (vector: Option<seq<Text>>)
    requires CString(line)
    ensures vector == Args(line[..|line| - 1])
  {
    var args: seq<Text> := [];
    var p := 0;
    ghost var target := Args(From(line, 0));
    PrependNone(target);
    while true
      invariant p < |line|
      invariant target == PrependAll(args, Args(From(line, p)))
      decreases |line| - p
    {
      p := SkipSpaces(line, p);
      if line[p] == NUL {
        assert args + [] == args;
        return Some(args);
      }
      var token, p' := GetToken(line, p);
      if token.None? {
        return None;
      }
      PrependOneMore(args, token.value, Args(From(line, p')));
      args := args + [token.value];
      p := p';
    }
  }

  function PrependAll(v: seq<Text>, r: Option<seq<Text>>): Option<seq<Text>> {
    if r.None? then None else Some(v + r.value)
  }

  lemma PrependNone(r: Option<seq<Text>>)
    ensures PrependAll([], r) == r
  {
    if r.Some? {
      assert [] + r.value == r.value;
    }
  }

  lemma PrependOneMore(v: seq<Text>, arg: Text, r: Option<seq<Text>>)
    ensures PrependAll(v, PrependArg(arg, r)) == PrependAll(v + [arg], r)
  {
    if r.Some? {
      Assoc(v, [arg], r.value);
    }
  }

  /** The loop that skips blanks. */
  method SkipSpaces(line: seq<byte>, from: nat) returns (p: nat)
    requires CString(line) && from < |line|
    ensures from <= p < |line| && !IsSpace(line[p])
    ensures From(line, p) == SkipBlanks(From(line, from))
    ensures Args(From(line, p)) == Args(From(line, from))
  {
    p := from;
    while line[p] != NUL && IsSpace(line[p])
      invariant from <= p < |line|
      invariant SkipBlanks(From(line, p)) == SkipBlanks(From(line, from))
      invariant Args(From(line, p)) == Args(From(line, from))
      decreases |line| - p
    {
      ghost var t := From(line, p);
      assert t[1..] == From(line, p + 1);
      BlanksAreSkipped([t[0]], t[1..]);
      assert [t[0]] + t[1..] == t;
      p := p + 1;
    }
  }

  // ---------------------------------------------------------------- the two in sequence

  lemma {:induction false} QuotedFits(args: seq<Text>, k: nat)
    requires k < |args|
    ensures |Repr(args[k])| <= |Split.Join(Reprs(args), [SPACE])|
    ensures Reprs(args)[k] == Repr(args[k])
    decreases k
  {
    assert Reprs(args)[1..] == Reprs(args[1..]);
    if k > 0 {
      QuotedFits(args[1..], k - 1);
    }
  }

  /** An empty string with the quoted form of one argument appended, as bytes. */
  method Quote(arg: Text) returns (quoted: Text)
    requires Fits(|Repr(arg)|)
    ensures quoted == Repr(arg)
  {
    var s := new Sds([]);
    CatRepr(s, arg);
    assert [] + Repr(arg) == Repr(arg);
    quoted := s.buf[..s.Len()];
  }

  /** A string without NUL in its content, as a C string. */
  method CBytes(s: Sds) returns (bytes: seq<byte>)
    requires s.Valid() && NoNul(s.Content())
    ensures CString(bytes) && bytes[..|bytes| - 1] == s.Content()
  {
    bytes := s.buf[..s.Len() + 1];
    assert bytes[..|bytes| - 1] == s.Content();
  }

  /** Quoting every argument, joining with spaces and splitting gives the arguments back. */
  method QuoteAndSplit(args: seq<Text>) returns (vector: Option<seq<Text>>)
    requires Fits(|Split.Join(Reprs(args), [SPACE])|)
    ensures vector == Some(args)
  {
    hide Repr, Args, Split.Join;
    var quoted: seq<Text> := [];
    while |quoted| < |args|
      invariant |quoted| <= |args| && quoted == Reprs(args)[..|quoted|]
    {
      QuotedFits(args, |quoted|);
      var next := Quote(args[|quoted|]);
      quoted := quoted + [next];
    }
    TakeAll(Reprs(args));
    var line := Split.JoinSds(quoted, [SPACE]);
    ReprRoundTrip(args);
    var bytes := CBytes(line);
    vector := SplitArgs(bytes);
  }
}

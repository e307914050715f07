/** sdscatfmt: formatted output written straight into the string's buffer. */
module Format {
  import opened Bytes
  import opened Sequences
  import opened SdsStrings
  import Decimal

  /** One variable argument: a string, of which the source gets the address, or an integer. */
  datatype Arg = Str(text: Text) | Num(v: int)

  // ---------------------------------------------------------------- specification

  predicate IsSpecifier(c: byte) {
    c == C('s') || c == C('S') || c == C('i') || c == C('I') || c == C('u') || c == C('U')
  }

  /** The argument is of the kind and in the range the specifier promises. */
  predicate Matches(c: byte, a: Arg)
    requires IsSpecifier(c)
  {
    if c == C('s') then a.Str? && NoNul(a.text)
    else if c == C('S') then a.Str?
    else if c == C('i') then a.Num? && -0x8000_0000 <= a.v <= 0x7FFF_FFFF
    else if c == C('I') then a.Num? && Decimal.LLONG_MIN <= a.v <= Decimal.LLONG_MAX
    else if c == C('u') then a.Num? && 0 <= a.v <= 0xFFFF_FFFF
    else a.Num? && 0 <= a.v <= Decimal.ULLONG_MAX
  }

  /** There is a matching argument for every specifier of the format. */
  predicate Supplies(fmt: Text, args: seq<Arg>) {
    if fmt == [] then true
    else if fmt[0] != PERCENT then Supplies(fmt[1..], args)
    else if |fmt| == 1 then true
    else if IsSpecifier(fmt[1]) then args != [] && Matches(fmt[1], args[0]) && Supplies(fmt[2..], args[1..])
    else Supplies(fmt[2..], args)
  }

  function Show(a: Arg): Text {
    match a
    case Str(text) => text
    case Num(v) => Decimal.Notation(v)
  }

  /** The rendering of a format: an unknown specifier stands for itself, a last % for nothing. */
  function Render(fmt: Text, args: seq<Arg>): Text
    requires Supplies(fmt, args)
  {
    if fmt == [] then []
    else if fmt[0] != PERCENT then [fmt[0]] + Render(fmt[1..], args)
    else if |fmt| == 1 then []
    else if IsSpecifier(fmt[1]) then Show(args[0]) + Render(fmt[2..], args[1..])
    else [fmt[1]] + Render(fmt[2..], args)
  }

  /** Formats compose, unless the first one ends in the middle of a specifier. */
  predicate Complete(fmt: Text) {
    if fmt == [] then true
    else if fmt[0] != PERCENT then Complete(fmt[1..])
    else |fmt| > 1 && Complete(fmt[2..])
  }

  lemma {:induction false} SuppliesConcat(f: Text, g: Text, a: seq<Arg>, b: seq<Arg>)
    requires Complete(f) && Supplies(f, a) && Supplies(g, b) && Spends(f) == |a|
    ensures Supplies(f + g, a + b)
    decreases |f|
  {
    if f == [] {
      assert f + g == g && a + b == b;
    } else if f[0] != PERCENT {
      SuppliesConcat(f[1..], g, a, b);
      assert (f + g)[1..] == f[1..] + g;
    } else {
      assert (f + g)[2..] == f[2..] + g;
      if IsSpecifier(f[1]) {
        assert (a + b)[1..] == a[1..] + b;
        SuppliesConcat(f[2..], g, a[1..], b);
      } else {
        SuppliesConcat(f[2..], g, a, b);
      }
    }
  }

  lemma {:induction false} RenderConcat(f: Text, g: Text, a: seq<Arg>, b: seq<Arg>)
    requires Complete(f) && Supplies(f, a) && Supplies(g, b) && Spends(f) == |a|
    ensures Supplies(f + g, a + b)
    ensures Render(f + g, a + b) == Render(f, a) + Render(g, b)
    decreases |f|
  {
    SuppliesConcat(f, g, a, b);
    if f == [] {
      assert f + g == g && a + b == b;
    } else if f[0] != PERCENT {
      RenderConcat(f[1..], g, a, b);
      assert (f + g)[1..] == f[1..] + g;
      Assoc([f[0]], Render(f[1..], a), Render(g, b));
    } else {
      assert (f + g)[2..] == f[2..] + g;
      if IsSpecifier(f[1]) {
        assert (a + b)[1..] == a[1..] + b;
        RenderConcat(f[2..], g, a[1..], b);
        Assoc(Show(a[0]), Render(f[2..], a[1..]), Render(g, b));
      } else {
        RenderConcat(f[2..], g, a, b);
        Assoc([f[1]], Render(f[2..], a), Render(g, b));
      }
    }
  }

  /** The number of arguments a format takes. */
  function Spends(fmt: Text): nat {
    if fmt == [] then 0
    else if fmt[0] != PERCENT then Spends(fmt[1..])
    else if |fmt| == 1 then 0
    else (if IsSpecifier(fmt[1]) then 1 else 0) + Spends(fmt[2..])
  }

  /** Doubling every % makes a format that renders as the text itself. */
  function Verbatim(t: Text): Text {
    if t == [] then [] else (if t[0] == PERCENT then [PERCENT, PERCENT] else [t[0]]) + Verbatim(t[1..])
  }

  lemma {:induction false} VerbatimRenders(t: Text)
    ensures Supplies(Verbatim(t), []) && Render(Verbatim(t), []) == t
    decreases |t|
  {
    if t != [] {
      VerbatimRenders(t[1..]);
      var f := Verbatim(t);
      if t[0] == PERCENT {
        assert f[2..] == Verbatim(t[1..]);
      } else {
        assert f[1..] == Verbatim(t[1..]);
      }
      assert t == [t[0]] + t[1..];
    }
  }

  // ---------------------------------------------------------------- directives, byte by byte

  lemma DirectiveAlone(c: byte, args: seq<Arg>)
    requires |args| <= 1
    ensures Supplies([PERCENT, c], args) <==> (IsSpecifier(c) ==> args != [] && Matches(c, args[0]))
    ensures Supplies([PERCENT, c], args) ==>
              Render([PERCENT, c], args) == if IsSpecifier(c) then Show(args[0]) else [c]
    ensures Complete([PERCENT, c]) && Spends([PERCENT, c]) == if IsSpecifier(c) then 1 else 0
  {
    var f := [PERCENT, c];
    assert f[2..] == [] && (args != [] ==> args[1..] == []);
    if Supplies(f, args) && IsSpecifier(c) {
      assert Show(args[0]) + [] == Show(args[0]);
    }
  }

  /** %s takes a C string and %S any string; both print it as it is. */
  lemma StringDirectives(t: Text, v: int)
    ensures Supplies([37, 115], [Str(t)]) <==> forall i :: 0 <= i < |t| ==> t[i] != 0
    ensures Supplies([37, 115], [Str(t)]) ==> Render([37, 115], [Str(t)]) == t
    ensures Supplies([37, 83], [Str(t)]) && Render([37, 83], [Str(t)]) == t
    ensures !Supplies([37, 115], [Num(v)]) && !Supplies([37, 83], [Num(v)])
  {
    DirectiveAlone(115, [Str(t)]);
    DirectiveAlone(83, [Str(t)]);
    DirectiveAlone(115, [Num(v)]);
    DirectiveAlone(83, [Num(v)]);
  }

  /** %i, %I, %u and %U take int, long long, unsigned int and unsigned long long. */
  lemma NumberDirectives(v: int, t: Text)
    ensures Supplies([37, 105], [Num(v)]) <==> -2147483648 <= v <= 2147483647
    ensures Supplies([37, 73], [Num(v)]) <==> -9223372036854775808 <= v <= 9223372036854775807
    ensures Supplies([37, 117], [Num(v)]) <==> 0 <= v <= 4294967295
    ensures Supplies([37, 85], [Num(v)]) <==> 0 <= v <= 18446744073709551615
    ensures forall c :: c in {105, 73, 117, 85} ==> !Supplies([37, c], [Str(t)])
  {
    forall c | c in {105, 73, 117, 85}
      ensures Supplies([37, c], [Num(v)]) <==> Matches(c, Num(v))
      ensures !Supplies([37, c], [Str(t)])
    {
      DirectiveAlone(c, [Num(v)]);
      DirectiveAlone(c, [Str(t)]);
    }
  }

  /** A number is printed as the canonical text that reads as the number. */
  lemma NumberText(c: byte, v: int)
    requires c in {105, 73, 117, 85} && Supplies([37, c], [Num(v)])
    ensures
      var w := Render([37, c], [Num(v)]);
      && w != [] && (if w[0] == 45 then Decimal.Canonical(w[1..]) && w[1] != 48 else Decimal.Canonical(w))
      && Decimal.SignedValue(w) == v
  {
    DirectiveAlone(c, [Num(v)]);
    Decimal.NotationRoundTrip(v);
  }

  /** The six specifiers take one argument each and cannot do without it. */
  lemma SpecifiersTakeOne(c: byte)
    requires c in {115, 83, 105, 73, 117, 85}
    ensures !Supplies([37, c], []) && Complete([37, c]) && Spends([37, c]) == 1
  {
    DirectiveAlone(c, []);
  }

  /** Any other byte behind a % stands for itself; %% is one of these. */
  lemma OtherDirectives(c: byte)
    requires c !in {115, 83, 105, 73, 117, 85}
    ensures Supplies([37, c], []) && Render([37, c], []) == [c]
    ensures Complete([37, c]) && Spends([37, c]) == 0
  {
    DirectiveAlone(c, []);
  }

  /** Outside directives a byte is printed as it is; a % at the end prints nothing. */
  lemma PlainBytes(c: byte)
    requires c != 37
    ensures Supplies([c], []) && Render([c], []) == [c] && Complete([c]) && Spends([c]) == 0
    ensures Supplies([37], []) && Render([37], []) == [] && !Complete([37])
  {
    var f := [c];
    assert f[1..] == [];
  }

  // ---------------------------------------------------------------- the method

  /** The end of the content is being written: no NUL yet, and a header that can count. */
  ghost predicate Open(s: Sds)
    reads s
  {
    s.Sized() && s.Type() != T5
  }

  /** s[i++] = c; sdsinclen(s, 1) */
  method PutChar(s: Sds, i: nat, c: byte)
    requires Open(s) && i == s.Len() && s.Avail() >= 1
    modifies s, s.buf
    ensures Open(s) && s.Len() == i + 1 && s.buf == old(s.buf) && s.Alloc() == old(s.Alloc())
    ensures s.Content() == old(s.Content()) + [c]
  {
    ghost var before := s.Content();
    s.buf[i] := c;
    s.IncLen(1);
    assert s.buf[..i] == before;
  }

  /** Room for l bytes if there is none, then memcpy(s + i, t, l); sdsinclen(s, l) */
  method PutText(s: Sds, i: nat, t: Text)
    requires Open(s) && i == s.Len() && Fits(s.Len() + |t|)
    modifies s, s.buf
    ensures Open(s) && s.Len() == i + |t| && (s.buf == old(s.buf) || fresh(s.buf)) && s.Alloc() >= old(s.Alloc())
    ensures s.Content() == old(s.Content()) + t
  {
    ghost var before := s.Content();
    if s.Avail() < |t| {
      s.MakeRoomFor(|t|);
    }
    s.Poke(i, t);
    s.IncLen(|t|);
    assert s.buf[..i + |t|] == before + t;
  }

  /** The text of the next argument. */
  method ShowArg(c: byte, a: Arg) returns (t: Text)
    requires IsSpecifier(c) && Matches(c, a)
    ensures t == Show(a)
  {
    if c == C('s') || c == C('S') {
      t := a.text;
    } else {
      var buf := new byte[Decimal.LLSTR_SIZE];
      var l;
      if c == C('i') || c == C('I') {
        l := Decimal.Sdsll2str(buf, a.v);
      } else {
        l := Decimal.Sdsull2str(buf, a.v);
      }
      t := buf[..l];
    }
  }

  /** Space for at least one character, before every directive. */
  method RoomForOne(s: Sds)
    requires s.Sized() && Fits(s.Len() + 1)
    modifies s
    ensures s.Sized() && s.Avail() >= 1 && (s.buf == old(s.buf) || fresh(s.buf)) && s.Alloc() >= old(s.Alloc())
    ensures s.Len() == old(s.Len()) && s.Content() == old(s.Content())
    ensures old(s.Type()) != T5 ==> s.Type() != T5
  {
    if s.Avail() == 0 {
      s.MakeRoomFor(1);
    }
  }

  /** sdscatfmt */
  method CatFmt(s: Sds, fmt: seq<byte>, args: seq<Arg>)
    requires s.Valid() && CString(fmt)
    requires Supplies(fmt[..|fmt| - 1], args)
    requires Fits(2 * s.Len() + 2 * |fmt| + |Render(fmt[..|fmt| - 1], args)|)
    modifies s, s.buf
    ensures s.Valid() && (s.buf == old(s.buf) || fresh(s.buf))
    ensures s.Content() == old(s.Content()) + Render(fmt[..|fmt| - 1], args)
    ensures s.Alloc() >= 2 * old(s.Len()) + 2 * (|fmt| - 1)
    ensures s.Exact() <==> old(s.Exact()) || |fmt| > 1 || old(s.Len()) > 0
  {
    var initlen := s.Len();
    s.MakeRoomFor(initlen + 2 * (|fmt| - 1));
    var i := Directives(s, initlen, fmt, args);
    Terminate(s, i);
  }

  /** s[i] = '\0' */
  method Terminate(s: Sds, i: nat)
    requires s.Sized() && i == s.Len()
    modifies s.buf
    ensures s.Valid() && s.Content() == old(s.Content()) && (s.Exact() <==> old(s.Exact()))
    ensures s.Alloc() == old(s.Alloc())
  {
    s.buf[i] := NUL;
    assert s.Content() == old(s.Content());
  }

  /** The loop of sdscatfmt. */
  method Directives(s: Sds, initlen: nat, fmt: seq<byte>, args: seq<Arg>) returns (i: nat)
    requires s.Sized() && initlen == s.Len() && CString(fmt) && (|fmt| > 1 ==> s.Type() != T5)
    requires Supplies(Rest(fmt, 0), args) && Fits(s.Len() + |fmt| + |Render(Rest(fmt, 0), args)|)
    modifies s, s.buf
    ensures s.Sized() && i == s.Len() && (s.buf == old(s.buf) || fresh(s.buf))
    ensures s.Content() == old(s.Content()) + Render(Rest(fmt, 0), args)
    ensures s.Alloc() >= old(s.Alloc())
    ensures s.Exact() <==> old(s.Exact()) || |fmt| > 1
  {
    ghost var goal := s.Content() + Render(Rest(fmt, 0), args);
    var f: nat, next: nat := 0, 0;
    i := initlen;
    while fmt[f] != NUL
      invariant f < |fmt| && next <= |args|
      invariant s.Sized() && i == s.Len() && (|fmt| > 1 ==> s.Type() != T5)
      invariant (s.buf == old(s.buf) || fresh(s.buf)) && s.Alloc() >= old(s.Alloc())
      invariant f == 0 ==> unchanged(s)
      invariant Supplies(Rest(fmt, f), args[next..])
      invariant s.Content() + Render(Rest(fmt, f), args[next..]) == goal
      decreases |fmt| - f
    {
      i, f, next := Turn(s, i, fmt, f, args, next, goal);
    }
    assert s.Content() + [] == s.Content();
  }

  function Rest(fmt: seq<byte>, f: nat): Text
    requires f < |fmt|
  {
    fmt[f..|fmt| - 1]
  }

  /** The directive or plain byte at f. */
  method Directive(s: Sds, i: nat, fmt: seq<byte>, f: nat, args: seq<Arg>, next: nat, ghost goal: Text)
    returns (i': nat, f': nat, next': nat)
    requires CString(fmt) && f < |fmt| - 1 && next <= |args|
    requires Open(s) && i == s.Len() && s.Avail() >= 1 && Fits(|goal|)
    requires Supplies(Rest(fmt, f), args[next..])
    requires s.Content() + Render(Rest(fmt, f), args[next..]) == goal
    modifies s, s.buf
    ensures Open(s) && i' == s.Len() && (s.buf == old(s.buf) || fresh(s.buf)) && s.Alloc() >= old(s.Alloc())
    ensures f < f' < |fmt| && next' <= |args|
    ensures Supplies(Rest(fmt, f'), args[next'..])
    ensures s.Content() + Render(Rest(fmt, f'), args[next'..]) == goal
  {
    ghost var before, t := s.Content(), Rest(fmt, f);
    next' := next;
    assert t[1..] == Rest(fmt, f + 1);
    if fmt[f] != PERCENT {
      Assoc(before, [fmt[f]], Render(Rest(fmt, f + 1), args[next..]));
      PutChar(s, i, fmt[f]);
      i', f' := i + 1, f + 1;
    } else {
      var c := fmt[f + 1];
      if c == NUL {
        i', f' := i, f + 1;
      } else {
        assert t[2..] == Rest(fmt, f + 2);
        if IsSpecifier(c) {
          assert args[next..][1..] == args[next + 1..];
          var text := ShowArg(c, args[next]);
          next' := next + 1;
          Assoc(before, text, Render(Rest(fmt, f + 2), args[next'..]));
          PutText(s, i, text);
          i' := i + |text|;
        } else {
          Assoc(before, [c], Render(Rest(fmt, f + 2), args[next..]));
          PutChar(s, i, c);
          i' := i + 1;
        }
        f' := f + 2;
      }
    }
  }

  /** One turn of the loop. */
  method Turn(s: Sds, i: nat, fmt: seq<byte>, f: nat, args: seq<Arg>, next: nat, ghost goal: Text)
    returns (i': nat, f': nat, next': nat)
    requires CString(fmt) && f < |fmt| - 1 && next <= |args|
    requires Open(s) && i == s.Len() && Fits(s.Len() + 1) && Fits(|goal|)
    requires Supplies(Rest(fmt, f), args[next..])
    requires s.Content() + Render(Rest(fmt, f), args[next..]) == goal
    modifies s, s.buf
    ensures Open(s) && i' == s.Len() && (s.buf == old(s.buf) || fresh(s.buf)) && s.Alloc() >= old(s.Alloc())
    ensures f < f' < |fmt| && next' <= |args|
    ensures Supplies(Rest(fmt, f'), args[next'..])
    ensures s.Content() + Render(Rest(fmt, f'), args[next'..]) == goal
  {
    RoomForOne(s);
    i', f', next' := Directive(s, i, fmt, f, args, next, goal);
  }
}

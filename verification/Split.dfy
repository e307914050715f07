/** sdssplitlen and sdsjoinsds. */
module Split {
  import opened Bytes
  import opened Sequences
  import opened SdsStrings

  // ---------------------------------------------------------------- occurrences of a separator

  predicate Occurs(s: Text, sep: Text, k: nat) {
    k + |sep| <= |s| && s[k..k + |sep|] == sep
  }

  /** The least position at which sep occurs in s, or |s|. */
  function FirstMatch(s: Text, sep: Text): (k: nat)
    requires sep != []
    ensures k == |s| || k + |sep| <= |s|
    decreases |s|
  {
    if |s| < |sep| then |s| else if s[..|sep|] == sep then 0 else 1 + FirstMatch(s[1..], sep)
  }

  lemma {:induction false} MatchOccurs(s: Text, sep: Text)
    requires sep != [] && FirstMatch(s, sep) < |s|
    ensures Occurs(s, sep, FirstMatch(s, sep))
    decreases |s|
  {
    assert s[0..0 + |sep|] == s[..|sep|];
    if s[..|sep|] != sep {
      MatchOccurs(s[1..], sep);
      OccursShift(s, sep, 1, FirstMatch(s[1..], sep));
    }
  }

  lemma {:induction false} NoneEarlier(s: Text, sep: Text, i: nat)
    requires sep != [] && Occurs(s, sep, i)
    ensures FirstMatch(s, sep) <= i
    decreases |s|
  {
    assert s[0..0 + |sep|] == s[..|sep|];
    if s[..|sep|] != sep {
      assert i > 0;
      OccursShift(s, sep, 1, i - 1);
      NoneEarlier(s[1..], sep, i - 1);
    }
  }

  lemma MatchSpec(s: Text, sep: Text)
    requires sep != []
    ensures
      var k := FirstMatch(s, sep);
      && (k < |s| ==> Occurs(s, sep, k))
      && (forall i :: 0 <= i < k ==> !Occurs(s, sep, i))
      && (k == |s| ==> forall i: nat :: !Occurs(s, sep, i))
  {
    var k := FirstMatch(s, sep);
    if k < |s| {
      MatchOccurs(s, sep);
    }
    forall i: nat | Occurs(s, sep, i)
      ensures k <= i < |s|
    {
      NoneEarlier(s, sep, i);
    }
  }

  lemma FirstMatchIs(s: Text, sep: Text, k: nat)
    requires sep != [] && Occurs(s, sep, k) && forall i :: 0 <= i < k ==> !Occurs(s, sep, i)
    ensures FirstMatch(s, sep) == k
  {
    MatchSpec(s, sep);
  }

  lemma OccursShift(s: Text, sep: Text, from: nat, k: nat)
    requires from <= |s|
    ensures Occurs(s[from..], sep, k) <==> Occurs(s, sep, from + k)
  {
    if from + k + |sep| <= |s| {
      assert s[from..][k..k + |sep|] == s[from + k..from + k + |sep|];
    }
  }

  // ---------------------------------------------------------------- specification

  /** The tokens between the leftmost, non-overlapping occurrences of sep. */
  function Tokens(s: Text, sep: Text): (ts: seq<Text>)
    requires sep != []
    ensures ts != []
    decreases |s|
  {
    var k := FirstMatch(s, sep);
    if k == |s| then [s] else [s[..k]] + Tokens(s[k + |sep|..], sep)
  }

  function Join(ts: seq<Text>, sep: Text): Text {
    if ts == [] then [] else if |ts| == 1 then ts[0] else ts[0] + sep + Join(ts[1..], sep)
  }

  /** Joining the tokens gives the input back. */
  lemma {:induction false} JoinTokens(s: Text, sep: Text)
    requires sep != []
    ensures Join(Tokens(s, sep), sep) == s
    decreases |s|
  {
    var k := FirstMatch(s, sep);
    if k < |s| {
      MatchOccurs(s, sep);
      var rest := s[k + |sep|..];
      JoinTokens(rest, sep);
      JoinCons(s[..k], Tokens(rest, sep), sep);
      ThreeParts(s, k, |sep|);
    }
  }

  lemma JoinCons(t: Text, rest: seq<Text>, sep: Text)
    requires rest != []
    ensures Join([t] + rest, sep) == t + sep + Join(rest, sep)
  {
    assert ([t] + rest)[1..] == rest;
  }

  lemma ThreeParts(s: Text, k: nat, n: nat)
    requires k + n <= |s|
    ensures s[..k] + s[k..k + n] + s[k + n..] == s
  {
  }

  lemma OccursInPrefix(s: Text, sep: Text, m: nat, k: nat)
    requires m <= |s| && sep != []
    ensures Occurs(s[..m], sep, k) ==> k < m && Occurs(s, sep, k)
  {
    if k + |sep| <= m {
      Slice(s, 0, m, k, k + |sep|);
    }
  }

  /** No token contains the separator. */
  lemma {:induction false} TokensAreClean(s: Text, sep: Text, i: nat, k: nat)
    requires sep != [] && i < |Tokens(s, sep)|
    ensures !Occurs(Tokens(s, sep)[i], sep, k)
    decreases |s|
  {
    var m := FirstMatch(s, sep);
    MatchSpec(s, sep);
    if m < |s| {
      if i == 0 {
        OccursInPrefix(s, sep, m, k);
      } else {
        TokensAreClean(s[m + |sep|..], sep, i - 1, k);
      }
    }
  }

  /** The first token of a joined list ends where it should. */
  predicate Ends(t: Text, sep: Text)
    requires sep != []
  {
    FirstMatch(t + sep, sep) == |t|
  }

  /** No separator can be found too early when the tokens are joined. */
  predicate Separable(ts: seq<Text>, sep: Text)
    requires sep != []
  {
    && (forall i :: 0 <= i < |ts| - 1 ==> Ends(ts[i], sep))
    && (ts != [] ==> FirstMatch(ts[|ts| - 1], sep) == |ts[|ts| - 1]|)
  }

  lemma EndsInContext(t: Text, sep: Text, rest: Text)
    requires sep != []
    ensures FirstMatch(t + sep + rest, sep) == FirstMatch(t + sep, sep) <= |t|
  {
    var u, v := t + sep, t + sep + rest;
    assert u[|t|..|t| + |sep|] == sep;
    assert Occurs(u, sep, |t|);
    MatchSpec(u, sep);
    var k := FirstMatch(u, sep);
    forall i | 0 <= i <= k
      ensures Occurs(v, sep, i) == Occurs(u, sep, i)
    {
      assert v[i..i + |sep|] == u[i..i + |sep|];
    }
    FirstMatchIs(v, sep, k);
  }

  lemma TokensOfLonger(t: Text, sep: Text, rest: Text)
    requires sep != []
    ensures if Ends(t, sep) then Tokens(t + sep + rest, sep) == [t] + Tokens(rest, sep)
            else |Tokens(t + sep + rest, sep)[0]| < |t|
  {
    var s := t + sep + rest;
    EndsInContext(t, sep, rest);
    if Ends(t, sep) {
      assert s[..|t|] == t && s[|t| + |sep|..] == rest;
    }
  }

  lemma SeparableCons(t: Text, rest: seq<Text>, sep: Text)
    requires sep != [] && rest != []
    ensures Separable([t] + rest, sep) <==> Ends(t, sep) && Separable(rest, sep)
  {
    var ts := [t] + rest;
    assert forall i :: 0 <= i < |rest| ==> rest[i] == ts[i + 1];
    assert ts[0] == t;
  }

  /** Splitting a join gives the list back exactly when no separator appears too early. */
  lemma {:induction false} TokensOfJoin(ts: seq<Text>, sep: Text)
    requires sep != [] && ts != []
    ensures Tokens(Join(ts, sep), sep) == ts <==> Separable(ts, sep)
    decreases |ts|
  {
    if |ts| == 1 {
      assert ts == [ts[0]];
    } else {
      var t, rest := ts[0], ts[1..];
      assert ts == [t] + rest;
      TokensOfJoin(rest, sep);
      SeparableCons(t, rest, sep);
      TokensOfLonger(t, sep, Join(rest, sep));
      assert Join(ts, sep) == t + sep + Join(rest, sep);
      assert ([t] + Tokens(Join(rest, sep), sep))[1..] == Tokens(Join(rest, sep), sep);
    }
  }

  /** For a separator of one byte the condition is that no token contains it. */
  lemma OneByteSeparable(ts: seq<Text>, c: byte)
    ensures Separable(ts, [c]) <==> forall i :: 0 <= i < |ts| ==> c !in ts[i]
  {
    forall i | 0 <= i < |ts|
      ensures Ends(ts[i], [c]) <==> c !in ts[i]
      ensures FirstMatch(ts[i], [c]) == |ts[i]| <==> c !in ts[i]
    {
      OneByte(ts[i], c);
      EndsOneByte(ts[i], c);
    }
  }

  /** So for one byte splitting undoes joining exactly on lists of tokens without that byte. */
  lemma OneByteRoundTrip(ts: seq<Text>, c: byte)
    requires ts != []
    ensures Tokens(Join(ts, [c]), [c]) == ts <==> forall i :: 0 <= i < |ts| ==> c !in ts[i]
  {
    TokensOfJoin(ts, [c]);
    OneByteSeparable(ts, c);
  }

  /**
   For longer separators that is not enough: with the separator "aa" the tokens "a" and ""
   join to "aaa", which is split into "" and "a".
   */
  lemma LongSeparatorExample(c: byte)
    ensures
      var ts, sep := [[c], []], [c, c];
      && (forall i :: 0 <= i < |ts| ==> FirstMatch(ts[i], sep) == |ts[i]|)
      && Tokens(Join(ts, sep), sep) == [[], [c]] != ts
  {
    var ts: seq<Text>, sep: Text := [[c], []], [c, c];
    var s := [c, c, c];
    assert ts[1..] == [[]];
    assert Join(ts, sep) == s;
    assert s[..2] == sep && s[0 + |sep|..] == [c];
    assert Tokens([c], sep) == [[c]];
  }

  lemma {:induction false} OneByteFirst(t: Text, c: byte)
    ensures
      var k := FirstMatch(t, [c]);
      && k <= |t| && (k < |t| ==> t[k] == c)
      && forall i :: 0 <= i < k ==> t[i] != c
    decreases |t|
  {
    if t != [] {
      assert t[..1] == [t[0]];
      if t[0] != c {
        OneByteFirst(t[1..], c);
        var k := FirstMatch(t, [c]);
        assert forall i :: 0 < i < k ==> t[i] == t[1..][i - 1];
      }
    }
  }

  lemma OneByte(t: Text, c: byte)
    ensures FirstMatch(t, [c]) == |t| <==> c !in t
  {
    OneByteFirst(t, c);
  }

  lemma EndsOneByte(t: Text, c: byte)
    ensures Ends(t, [c]) <==> c !in t
  {
    var u := t + [c];
    OneByteFirst(u, c);
    var k := FirstMatch(u, [c]);
    assert u[|t|] == c;
    assert forall i :: 0 <= i < |t| ==> u[i] == t[i];
  }

  /** A join is empty, and then not split at all, only for no token or one empty token. */
  lemma JoinIsEmpty(ts: seq<Text>, sep: Text)
    requires sep != []
    ensures Join(ts, sep) == [] <==> ts == [] || ts == [[]]
  {
    if |ts| == 1 {
      assert ts == [ts[0]];
    }
  }

  // ---------------------------------------------------------------- the methods

  /** What the loop of sdssplitlen goes on to return, from any of its states. */
  ghost function Scan(text: Text, sep: Text, done: seq<Text>, start: nat, j: nat): seq<Text>
    requires sep != [] && start <= j && start <= |text|
    decreases |text| - j
  {
    if j > |text| - |sep| then done + [text[start..]]
    else if Occurs(text, sep, j) then Scan(text, sep, done + [text[start..j]], j + |sep|, j + |sep|)
    else Scan(text, sep, done, start, j + 1)
  }

  /**
   What the loop of sdssplitlen knows: the tokens done are the first ones of all, those of
   text[start..] follow, and the next separator does not begin before j.
   */
  ghost predicate Progress(text: Text, sep: Text, done: seq<Text>, start: nat, j: nat, all: seq<Text>)
    requires sep != []
  {
    && start <= j <= |text|
    && done + Tokens(text[start..], sep) == all
    && j <= start + FirstMatch(text[start..], sep)
  }

  lemma ProgressFound(text: Text, sep: Text, done: seq<Text>, start: nat, j: nat, end: nat, all: seq<Text>)
    requires sep != [] && Progress(text, sep, done, start, j, all) && Occurs(text, sep, j) && end == j + |sep|
    ensures Progress(text, sep, done + [text[start..j]], end, end, all)
  {
    NoneEarlier(text[start..], sep, j - start) by {
      OccursShift(text, sep, start, j - start);
    }
    CutTail(text, start, j, |sep|);
    FirstToken(text[start..], sep, j - start, text[start..j], text[end..]);
    Assoc(done, [text[start..j]], Tokens(text[end..], sep));
  }

  lemma ProgressMiss(text: Text, sep: Text, done: seq<Text>, start: nat, j: nat, all: seq<Text>)
    requires sep != [] && Progress(text, sep, done, start, j, all) && !Occurs(text, sep, j) && j + |sep| <= |text|
    ensures Progress(text, sep, done, start, j + 1, all)
  {
    if FirstMatch(text[start..], sep) == j - start {
      MatchOccurs(text[start..], sep);
      OccursShift(text, sep, start, j - start);
    }
  }

  lemma ProgressEnd(text: Text, sep: Text, done: seq<Text>, start: nat, j: nat, all: seq<Text>)
    requires sep != [] && Progress(text, sep, done, start, j, all) && j > |text| - |sep|
    ensures done + [text[start..]] == all
  {
  }

  lemma {:induction false} ScanFrom(text: Text, sep: Text, done: seq<Text>, start: nat, j: nat, all: seq<Text>)
    requires sep != [] && Progress(text, sep, done, start, j, all)
    ensures Scan(text, sep, done, start, j) == all
    decreases |text| - j
  {
    if j > |text| - |sep| {
      ProgressEnd(text, sep, done, start, j, all);
    } else if Occurs(text, sep, j) {
      ProgressFound(text, sep, done, start, j, j + |sep|, all);
      ScanFrom(text, sep, done + [text[start..j]], j + |sep|, j + |sep|, all);
    } else {
      ProgressMiss(text, sep, done, start, j, all);
      ScanFrom(text, sep, done, start, j + 1, all);
    }
  }

  /** The loop of sdssplitlen computes the tokens. */
  lemma ScanIsTokens(text: Text, sep: Text)
    requires sep != []
    ensures Scan(text, sep, [], 0, 0) == Tokens(text, sep)
  {
    assert text[0..] == text;
    assert [] + Tokens(text, sep) == Tokens(text, sep);
    ScanFrom(text, sep, [], 0, 0, Tokens(text, sep));
  }

  /** The comparison of the loop of sdssplitlen. */
  predicate MatchesAt(s: Text, sep: Text, seplen: nat, j: nat)
    requires 1 <= seplen <= |sep| && j + seplen <= |s|
  {
    (seplen == 1 && s[j] == sep[0]) || s[j..j + seplen] == sep[..seplen]
  }

  lemma MatchesAtIsOccurs(s: Text, len: nat, sep: Text, seplen: nat, j: nat)
    requires 1 <= seplen <= |sep| && j + seplen <= len <= |s|
    ensures MatchesAt(s, sep, seplen, j) <==> Occurs(s[..len], sep[..seplen], j)
  {
    SlicePrefix(s, len, j, j + seplen);
    if seplen == 1 {
      assert s[j..j + 1] == [s[j]] && sep[..1] == [sep[0]];
    }
  }

  /**
   sdssplitlen on the first len bytes of s and the first seplen of sep: null for an empty
   input or separator, otherwise an array of which the first count elements are the tokens.
   */
  method SplitLen(s: Text, len: int, sep: Text, seplen: int) returns (tokens: array?<Text>, count: nat)
    requires len <= |s| && seplen <= |sep|
    ensures seplen < 1 || len <= 0 ==> tokens == null && count == 0
    ensures seplen >= 1 && len > 0 ==>
              && tokens != null && fresh(tokens)
              && count <= tokens.Length && tokens[..count] == Tokens(s[..len], sep[..seplen])
  {
    if seplen < 1 || len <= 0 {
      return null, 0;
    }
    var elements := 0;
    var start, j := 0, 0;
    var toks := new Text[5];
    ghost var text, separator, done := s[..len], sep[..seplen], [];
    ghost var goal := Scan(text, separator, done, 0, 0);
    while j < len - (seplen - 1)
      invariant fresh(toks) && elements + 1 <= toks.Length && toks.Length >= 5
      invariant start <= j && start <= len
      invariant done == toks[..elements] && Scan(text, separator, done, start, j) == goal
      decreases len - j
    {
      if toks.Length < elements + 2 {
        toks := Enlarge(toks, toks.Length * 2, elements);
      }
      MatchesAtIsOccurs(s, len, sep, seplen, j);
      if MatchesAt(s, sep, seplen, j) {
        SlicePrefix(s, len, start, j);
        Store(toks, elements, s[start..j]);
        done := done + [text[start..j]];
        elements := elements + 1;
        start := j + seplen;
        j := j + seplen - 1;
      }
      j := j + 1;
    }
    ScanIsTokens(text, separator);
    assert s[start..len] == text[start..];
    Store(toks, elements, s[start..len]);
    elements := elements + 1;
    return toks, elements;
  }

  lemma SlicePrefix(s: Text, len: nat, i: nat, j: nat)
    requires i <= j <= len <= |s|
    ensures s[..len][i..j] == s[i..j]
  {
  }

  method Store(a: array<Text>, k: nat, token: Text)
    requires k < a.Length
    modifies a
    ensures a[..k + 1] == old(a[..k]) + [token]
  {
    a[k] := token;
  }

  lemma CutTail(s: Text, start: nat, j: nat, n: nat)
    requires start <= j && j + n <= |s|
    ensures s[start..][..j - start] == s[start..j]
    ensures s[start..][j - start + n..] == s[j + n..]
  {
  }

  lemma FirstToken(s: Text, sep: Text, k: nat, token: Text, rest: Text)
    requires sep != [] && k < |s| && FirstMatch(s, sep) == k
    requires s[..k] == token && k + |sep| <= |s| && s[k + |sep|..] == rest
    ensures Tokens(s, sep) == [token] + Tokens(rest, sep)
  {
  }

  /** The reallocation of the token array. */
  method Enlarge(a: array<Text>, slots: nat, used: nat) returns (b: array<Text>)
    requires used <= a.Length <= slots
    ensures fresh(b) && b.Length == slots && b[..used] == a[..used]
  {
    b := new Text[slots];
    forall i | 0 <= i < a.Length {
      b[i] := a[i];
    }
  }

  lemma JoinFrom(ts: seq<Text>, sep: Text, j: nat)
    requires j < |ts|
    ensures Join(ts[j..], sep) == ts[j] + if j == |ts| - 1 then [] else sep + Join(ts[j + 1..], sep)
    ensures j == |ts| - 1 ==> Join(ts[j + 1..], sep) == []
  {
    assert ts[j..][1..] == ts[j + 1..];
    if j == |ts| - 1 {
      assert ts[j] + [] == ts[j];
    } else {
      Assoc(ts[j], sep, Join(ts[j + 1..], sep));
    }
  }

  /** sdsjoinsds */
  method JoinSds(argv: seq<Text>, sep: Text) returns (join: Sds)
    requires Fits(|Join(argv, sep)|)
    ensures fresh(join) && fresh(join.buf) && join.Valid() && join.Exact() && join.Content() == Join(argv, sep)
  {
    join := new Sds([]);
    var j := 0;
    while j < |argv|
      invariant j <= |argv|
      invariant fresh(join) && fresh(join.buf) && join.Valid() && join.Exact()
      invariant join.Content() + Join(argv[j..], sep) == Join(argv, sep)
    {
      ghost var done := join.Content();
      JoinFrom(argv, sep, j);
      join.CatLen(argv[j]);
      if j != |argv| - 1 {
        Assoc(done + argv[j], sep, Join(argv[j + 1..], sep));
        Assoc(done, argv[j], sep + Join(argv[j + 1..], sep));
        join.CatLen(sep);
      } else {
        Assoc(done, argv[j], []);
      }
      j := j + 1;
    }
    assert join.Content() + [] == join.Content();
  }
}

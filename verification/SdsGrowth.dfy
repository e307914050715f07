/** The cost of building a string by repeated sdscatlen. */
module SdsGrowth {
  import opened Bytes
  import opened Sequences
  import opened SdsStrings

  datatype Cost = Cost(len: nat, alloc: nat, copied: nat)

  function Append(c: Cost, n: nat): Cost
    requires c.len <= c.alloc
  {
    var (alloc, copied) := CatCost(c.len, c.alloc, c.copied, n);
    Cost(c.len + n, alloc, copied)
  }

  function Appends(c: Cost, sizes: seq<nat>): (r: Cost)
    requires c.len <= c.alloc
    ensures r.len <= r.alloc
    decreases |sizes|
  {
    if sizes == [] then c else Appends(Append(c, sizes[0]), sizes[1..])
  }

  lemma {:induction false} AppendsGrow(c: Cost, sizes: seq<nat>)
    requires c.len <= c.alloc
    ensures c.len <= Appends(c, sizes).len
    decreases |sizes|
  {
    if sizes != [] {
      AppendsGrow(Append(c, sizes[0]), sizes[1..]);
    }
  }

  /**
   Whatever is appended, the allocation stays below twice the length, and never exceeds
   it by more than SDS_MAX_PREALLOC.
   */
  lemma {:induction false} SlackIsBounded(c: Cost, sizes: seq<nat>)
    requires c.len <= c.alloc <= 2 * c.len && c.alloc <= c.len + MAX_PREALLOC
    ensures
      var r := Appends(c, sizes);
      r.len <= r.alloc <= 2 * r.len && r.alloc <= r.len + MAX_PREALLOC
    decreases |sizes|
  {
    if sizes != [] {
      SlackIsBounded(Append(c, sizes[0]), sizes[1..]);
    }
  }

  /**
   Amortised growth: as long as the string stays below SDS_MAX_PREALLOC, all reallocations
   together have copied no more bytes than the final allocation has.
   */
  lemma {:induction false} CopyingIsAmortised(c: Cost, sizes: seq<nat>)
    requires c.len <= c.alloc <= 2 * c.len && c.copied <= c.alloc
    requires Appends(c, sizes).len < MAX_PREALLOC
    ensures
      var r := Appends(c, sizes);
      r.alloc <= 2 * r.len && r.copied <= r.alloc
    decreases |sizes|
  {
    if sizes != [] {
      AppendsGrow(Append(c, sizes[0]), sizes[1..]);
      CopyingIsAmortised(Append(c, sizes[0]), sizes[1..]);
    }
  }

  /** The copying so far against the allocation, with one megabyte as the unit of growth. */
  predicate PaidFor(c: Cost) {
    2 * 1048576 * c.copied <= c.alloc * (c.alloc + 2 * 1048576)
  }

  lemma ProductGrows(a: nat, b: nat, c: nat, d: nat)
    requires a <= b && c <= d
    ensures a * c <= b * d
  {
    assert a * c <= b * c by {
      assert (b - a) * c >= 0;
    }
    assert b * c <= b * d by {
      assert b * (d - c) >= 0;
    }
  }

  /** An allocation that doubles, or grows by m, pays for copying a bytes more. */
  lemma GrowthPays(m: nat, a: nat, b: nat)
    requires b >= 2 * a || b >= a + m
    ensures a * (a + 2 * m) + 2 * m * a <= b * (b + 2 * m)
  {
    if b >= 2 * a {
      ProductGrows(2 * a, b, 2 * a + 2 * m, b + 2 * m);
      ProductGrows(0, a, 0, a);
    } else {
      ProductGrows(a + m, b, a + 3 * m, b + 2 * m);
      ProductGrows(0, m, 0, m);
    }
  }

  lemma AppendIsPaidFor(c: Cost, n: nat)
    requires c.len <= c.alloc && PaidFor(c)
    ensures PaidFor(Append(c, n))
  {
    if n > c.alloc - c.len {
      GrowthPays(1048576, c.alloc, Append(c, n).alloc);
    }
  }

  lemma {:induction false} AppendsArePaidFor(c: Cost, sizes: seq<nat>)
    requires c.len <= c.alloc && PaidFor(c)
    ensures PaidFor(Appends(c, sizes))
    decreases |sizes|
  {
    if sizes != [] {
      AppendIsPaidFor(c, sizes[0]);
      AppendsArePaidFor(Append(c, sizes[0]), sizes[1..]);
    }
  }

  /**
   Growth of long strings: when an empty string has been brought to its length by appending,
   all reallocations together have copied about half its length for every megabyte in it.
   */
  lemma LongCopyingIsBounded(c: Cost, sizes: seq<nat>)
    requires c == Cost(0, 0, 0)
    ensures
      var r := Appends(c, sizes);
      2 * 1048576 * r.copied <= (r.len + 1048576) * (r.len + 3 * 1048576)
  {
    var r := Appends(c, sizes);
    AppendsArePaidFor(c, sizes);
    SlackIsBounded(c, sizes);
    ProductGrows(r.alloc, r.len + 1048576, r.alloc + 2 * 1048576, r.len + 3 * 1048576);
  }

  function Sizes(parts: seq<Text>): (r: seq<nat>)
    ensures |r| == |parts|
  {
    seq(|parts|, i requires 0 <= i < |parts| => |parts[i]|)
  }

  function Concat(parts: seq<Text>): Text {
    if parts == [] then [] else parts[0] + Concat(parts[1..])
  }

  /** The cost once the parts from number i on have been appended too. */
  function CostFrom(c: Cost, parts: seq<Text>, i: nat): Cost
    requires c.len <= c.alloc && i <= |parts|
  {
    Appends(c, Sizes(parts[i..]))
  }

  lemma PartsStep(c: Cost, parts: seq<Text>, i: nat)
    requires c.len <= c.alloc && i < |parts|
    ensures Concat(parts[i..]) == parts[i] + Concat(parts[i + 1..])
    ensures CostFrom(c, parts, i) == CostFrom(Append(c, |parts[i]|), parts, i + 1)
  {
    assert parts[i..][1..] == parts[i + 1..] && parts[i..][0] == parts[i];
    assert Sizes(parts[i..])[1..] == Sizes(parts[i + 1..]);
  }

  /** What the string has cost so far. */
  ghost function CostOf(s: Sds): (c: Cost)
    requires s.Sized()
    reads s
    ensures c.len <= c.alloc
  {
    Cost(s.Len(), s.Alloc(), s.copied)
  }

  /** Appending part number i. */
  method AppendPart(s: Sds, parts: seq<Text>, i: nat)
    requires s.Valid() && i < |parts| && Fits(s.Len() + |parts[i]|)
    modifies s, s.buf
    ensures s.Valid() && (s.buf == old(s.buf) || fresh(s.buf)) && (old(s.Exact()) ==> s.Exact())
    ensures s.Content() + Concat(parts[i + 1..]) == old(s.Content()) + Concat(parts[i..])
    ensures CostFrom(CostOf(s), parts, i + 1) == old(CostFrom(CostOf(s), parts, i))
  {
    PartsStep(CostOf(s), parts, i);
    Assoc(s.Content(), parts[i], Concat(parts[i + 1..]));
    s.CatLen(parts[i]);
  }

  /** The growth bounds for a string that was empty before the parts were appended. */
  lemma BuiltCost(c: Cost, parts: seq<Text>)
    requires c.len <= c.alloc && CostFrom(c, parts, |parts|) == CostFrom(Cost(0, 0, 0), parts, 0)
    ensures c.alloc <= 2 * c.len && c.alloc <= c.len + MAX_PREALLOC
    ensures c.len < MAX_PREALLOC ==> c.copied <= c.alloc
    ensures 2 * 1048576 * c.copied <= (c.len + 1048576) * (c.len + 3 * 1048576)
  {
    var zero := Cost(0, 0, 0);
    assert parts[0..] == parts;
    SlackIsBounded(zero, Sizes(parts));
    LongCopyingIsBounded(zero, Sizes(parts));
    if c.len < MAX_PREALLOC {
      CopyingIsAmortised(zero, Sizes(parts));
    }
  }

  /** A fresh string with all parts appended one by one. */
  method Build(parts: seq<Text>) returns (s: Sds)
    requires Fits(|Concat(parts)|)
    ensures fresh(s) && fresh(s.buf) && s.Valid() && s.Exact() && s.Content() == Concat(parts)
    ensures s.Alloc() <= 2 * s.Len() && s.Alloc() <= s.Len() + MAX_PREALLOC
    ensures s.Len() < MAX_PREALLOC ==> s.copied <= s.Alloc()
    ensures 2 * 1048576 * s.copied <= (s.Len() + 1048576) * (s.Len() + 3 * 1048576)
  {
    hide CostFrom;
    s := new Sds([]);
    ghost var zero := Cost(0, 0, 0);
    ghost var total := CostFrom(zero, parts, 0);
    assert parts[0..] == parts;
    var i := 0;
    while i < |parts|
      invariant i <= |parts|
      invariant fresh(s) && fresh(s.buf) && s.Valid() && s.Exact()
      invariant s.Content() + Concat(parts[i..]) == Concat(parts)
      invariant CostFrom(CostOf(s), parts, i) == total
    {
      AppendPart(s, parts, i);
      i := i + 1;
    }
    assert s.Content() + [] == s.Content();
    BuiltCost(CostOf(s), parts);
  }
}

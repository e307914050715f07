/**
 The dynamic strings of sds.c: a buffer behind a header in one of five encodings. The
 object stands for the string variable of a caller; where the source returns a moved
 pointer, the method replaces `buf`. What a string means is Content().
 */
module SdsStrings {
  import opened Bytes

  datatype HdrType = T5 | T8 | T16 | T32 | T64

  const SIZE_MAX: nat := 0xFFFF_FFFF_FFFF_FFFF
  const MAX_PREALLOC: nat := 1024 * 1024

  /** sdsHdrSize */
  function HdrSize(t: HdrType): nat {
    match t
    case T5 => 1
    case T8 => 3
    case T16 => 5
    case T32 => 9
    case T64 => 17
  }

  /** The largest length the header type can hold. */
  function MaxLen(t: HdrType): nat {
    match t
    case T5 => 31
    case T8 => 0xFF
    case T16 => 0xFFFF
    case T32 => 0xFFFF_FFFF
    case T64 => 0xFFFF_FFFF_FFFF_FFFF
  }

  /** sdsReqType */
  function ReqType(size: nat): HdrType {
    if size < 32 then T5
    else if size < 256 then T8
    else if size < 65536 then T16
    else if size < 0x1_0000_0000 then T32
    else T64
  }

  /** sdsReqType returns the smallest header that can hold the size. */
  lemma ReqTypeIsLeast(size: nat, t: HdrType)
    requires size <= SIZE_MAX
    ensures size <= MaxLen(ReqType(size))
    ensures size <= MaxLen(t) <==> HdrSize(ReqType(size)) <= HdrSize(t)
  {
  }

  /** What is left of a number stored in the header's length or allocation field. */
  function Cut(n: nat, t: HdrType): (r: nat)
    ensures r <= MaxLen(t)
    ensures n <= MaxLen(t) ==> r == n
  {
    n % (MaxLen(t) + 1)
  }

  /** A field that is too narrow loses whole multiples of its range: it wraps around. */
  lemma CutWraps(n: nat, t: HdrType) returns (laps: nat)
    ensures n == Cut(n, t) + laps * (MaxLen(t) + 1)
  {
    laps := n / (MaxLen(t) + 1);
  }

  /** The new allocation sdsMakeRoomFor chooses for a required length. */
  function Prealloc(required: nat): nat {
    if required < MAX_PREALLOC then 2 * required else required + MAX_PREALLOC
  }

  /** A string is never given type 5 when it is made to grow. */
  function GrownType(alloc: nat): HdrType {
    if ReqType(alloc) == T5 then T8 else ReqType(alloc)
  }

  /** The type of a new string: an empty one is expected to grow. */
  function NewType(initlen: nat): HdrType {
    if initlen == 0 then T8 else ReqType(initlen)
  }

  /** A string that grows gets the smallest header for its allocation that can count free space. */
  lemma GrownTypeIsLeast(alloc: nat, t: HdrType)
    requires alloc <= SIZE_MAX && t != T5
    ensures GrownType(alloc) != T5 && alloc <= MaxLen(GrownType(alloc))
    ensures alloc <= MaxLen(t) <==> HdrSize(GrownType(alloc)) <= HdrSize(t)
  {
  }

  /** A new string gets the smallest header for its length, unless it is empty. */
  lemma NewTypeIsLeast(initlen: nat, t: HdrType)
    requires initlen <= SIZE_MAX
    ensures initlen == 0 ==> NewType(initlen) == T8
    ensures initlen > 0 ==> initlen <= MaxLen(NewType(initlen))
    ensures initlen > 0 ==> (initlen <= MaxLen(t) <==> HdrSize(NewType(initlen)) <= HdrSize(t))
  {
  }

  /** The flags byte of a new string. */
  function NewFlags(initlen: nat): byte {
    match NewType(initlen)
    case T5 => (initlen * 8) as byte
    case T8 => 1
    case T16 => 2
    case T32 => 3
    case T64 => 4
  }

  function Least(m: nat, n: nat): nat {
    if m < n then m else n
  }

  /** The sizes involved do not overflow size_t. */
  predicate Fits(required: nat) {
    HdrSize(T64) + Prealloc(required) + 1 <= SIZE_MAX
  }

  /** Every length that leaves room for the header, the NUL and a megabyte more fits. */
  lemma FitsUpTo(required: nat)
    ensures Fits(required) <==> required <= 0xFFFF_FFFF_FFFF_FFFF - 1048576 - 18
  {
  }

  class Sds {
    var flags: byte          // the type in the low three bits; for type 5 the length above them
    var hlen: nat            // header field len, absent in type 5
    var halloc: nat          // header field alloc, absent in type 5
    var buf: array<byte>     // everything behind the header

    ghost var copied: nat    // content bytes moved by reallocations so far

    // ------------------------------------------------------------ sds.h

    function Type(): HdrType
      reads this
    {
      match flags % 8
      case 0 => T5
      case 1 => T8
      case 2 => T16
      case 3 => T32
      case _ => T64
    }

    /** sdslen */
    function Len(): nat
      reads this
    {
      if Type() == T5 then (flags / 8) as nat else hlen
    }

    /** sdsalloc */
    function Alloc(): nat
      reads this
    {
      if Type() == T5 then (flags / 8) as nat else halloc
    }

    /** sdsavail */
    function Avail(): int
      reads this
    {
      if Type() == T5 then 0 else halloc - hlen
    }

    /** sdssetlen: the value is cut to the width of the field. */
    method SetLen(newlen: nat)
      modifies this`flags, this`hlen
      ensures Type() == old(Type()) && (old(flags) % 8 <= 4 ==> flags % 8 <= 4)
      ensures Len() == Cut(newlen, Type())
      ensures Type() != T5 ==> flags == old(flags) && Alloc() == old(Alloc())
    {
      if Type() == T5 {
        flags := (Cut(newlen, T5) * 8) as byte;
      } else {
        hlen := Cut(newlen, Type());
      }
    }

    /** sdsinclen */
    method IncLen(inc: nat)
      modifies this`flags, this`hlen
      ensures Type() == old(Type()) && (old(flags) % 8 <= 4 ==> flags % 8 <= 4)
      ensures Len() == Cut(old(Len()) + inc, Type())
      ensures Type() != T5 ==> flags == old(flags) && Alloc() == old(Alloc())
    {
      SetLen(Len() + inc);
    }

    /** sdssetalloc: type 5 has no such field. */
    method SetAlloc(newalloc: nat)
      modifies this`halloc
      ensures Type() != T5 ==> Alloc() == Cut(newalloc, Type())
      ensures Type() == T5 ==> Alloc() == old(Alloc())
    {
      if Type() != T5 {
        halloc := Cut(newalloc, Type());
      }
    }

    method SetType(t: HdrType)
      modifies this`flags
      ensures Type() == t && flags % 8 <= 4 && flags / 8 == 0
    {
      flags := match t case T5 => 0 case T8 => 1 case T16 => 2 case T32 => 3 case T64 => 4;
    }

    // ------------------------------------------------------------ the representation

    /** The header describes the buffer; the byte behind the content may be anything. */
    ghost predicate Sized()
      reads this
    {
      && flags % 8 <= 4
      && Len() <= Alloc() <= MaxLen(Type())
      && Alloc() + 1 <= buf.Length
      && (Type() != T5 ==> buf.Length == Alloc() + 1)
    }

    ghost predicate Valid()
      reads this, buf
    {
      Sized() && buf[Len()] == NUL
    }

    ghost function Content(): Text
      requires Sized()
      reads this, buf
    {
      buf[..Len()]
    }

    /** The allocation is exactly what sdsAllocSize computes from the header. */
    ghost predicate Exact()
      reads this
    {
      HdrSize(Type()) + buf.Length == AllocSize()
    }

    /** sdsAllocSize */
    function AllocSize(): nat
      reads this
    {
      HdrSize(Type()) + Alloc() + 1
    }

    // ------------------------------------------------------------ creation

    /** sdsnewlen with an initial content. */
    constructor (init: Text)
      requires HdrSize(T64) + |init| + 1 <= SIZE_MAX
      ensures Valid() && Exact() && Content() == init && fresh(buf)
      ensures Alloc() == |init| && Type() == NewType(|init|)
      ensures copied == 0
    {
      flags := NewFlags(|init|);
      hlen, halloc := |init|, |init|;
      buf := new byte[|init| + 1](i requires 0 <= i <= |init| => if i < |init| then init[i] else NUL);
      copied := 0;
      new;
      assert buf[..|init|] == init;
    }

    /** sdsnewlen with a null initial content: all bytes are zero. */
    constructor Zeroed(initlen: nat)
      requires HdrSize(T64) + initlen + 1 <= SIZE_MAX
      ensures Valid() && Exact() && Content() == seq(initlen, i => NUL) && fresh(buf)
      ensures Alloc() == initlen && Type() == NewType(initlen)
      ensures copied == 0
    {
      flags := NewFlags(initlen);
      hlen, halloc := initlen, initlen;
      buf := new byte[initlen + 1](_ => NUL);
      copied := 0;
      new;
      assert buf[..initlen] == seq(initlen, i => NUL);
    }

    /** sdsnewlen with SDS_NOINIT: nothing is known of the content but its length. */
    constructor NoInit(initlen: nat)
      requires HdrSize(T64) + initlen + 1 <= SIZE_MAX
      ensures Valid() && Exact() && |Content()| == initlen && fresh(buf)
      ensures Alloc() == initlen && Type() == NewType(initlen)
      ensures copied == 0
    {
      flags := NewFlags(initlen);
      hlen, halloc := initlen, initlen;
      buf := new byte[initlen + 1];
      copied := 0;
      new;
      buf[initlen] := NUL;
    }

    // ------------------------------------------------------------ room

    /** A new buffer of n bytes that starts with the first k bytes of the old one. */
    method Reallocate(n: nat, k: nat)
      requires k <= n && k <= buf.Length
      modifies this`buf
      ensures fresh(buf) && buf.Length == n
      ensures forall i :: 0 <= i < k ==> buf[i] == old(buf[i])
    {
      var was := buf;
      var now := new byte[n];
      forall i | 0 <= i < k {
        now[i] := was[i];
      }
      buf := now;
    }

    /** A header of type t for the same length. */
    method Relabel(t: HdrType)
      requires flags % 8 <= 4 && Len() <= MaxLen(t)
      modifies this`flags, this`hlen
      ensures Type() == t && flags % 8 <= 4 && Len() == old(Len())
    {
      var len := Len();
      if Type() != t {
        SetType(t);
        SetLen(len);
      }
    }

    /** The allocation becomes n and the header type t; without a change of type, realloc moves the bytes. */
    method Resize(n: nat, t: HdrType)
      requires Sized() && Len() <= n <= MaxLen(t) && (t == T5 ==> n == Len())
      modifies this`flags, this`hlen, this`halloc, this`buf, this`copied
      ensures Sized() && Exact() && Type() == t && Alloc() == n && fresh(buf)
      ensures Len() == old(Len()) && copied == old(copied) + Len()
      ensures Content() == old(Content()) && buf[Len()] == old(buf[Len()])
    {
      var len := Len();
      copied := copied + len;
      Reallocate(n + 1, len + 1);
      Relabel(t);
      SetAlloc(n);
      assert Content() == old(Content());
    }

    /**
     sdsMakeRoomFor: room for addlen more bytes. The content and the byte behind it stay;
     a string with room enough is not touched.
     */
    method MakeRoomFor(addlen: nat)
      requires Sized() && Fits(Len() + addlen)
      modifies this`flags, this`hlen, this`halloc, this`buf, this`copied
      ensures Sized() && Len() == old(Len()) && Content() == old(Content())
      ensures buf[Len()] == old(buf[Len()])
      ensures Avail() >= addlen
      ensures old(Avail()) < addlen ==> Avail() == addlen + Least(old(Len()) + addlen, 1048576)
      ensures buf == old(buf) || fresh(buf)
      ensures Exact() <==> old(Exact()) || old(Avail()) < addlen
      ensures if old(Avail()) >= addlen
              then unchanged(this)
              else Exact() && Alloc() == Prealloc(old(Len()) + addlen) && Type() == GrownType(Alloc())
                   && copied == old(copied) + old(Len())
    {
      if Avail() >= addlen {
        return;
      }
      var newlen := Prealloc(Len() + addlen);
      Resize(newlen, GrownType(newlen));
    }

    /** sdsRemoveFreeSpace: the content stays, the free space goes. */
    method RemoveFreeSpace()
      requires Valid()
      modifies this`flags, this`hlen, this`halloc, this`buf, this`copied
      ensures Valid() && Content() == old(Content()) && Avail() == 0
      ensures Exact() <==> old(Exact()) || old(Avail()) > 0
      ensures if old(Avail()) == 0 then unchanged(this)
              else Type() == (if HdrSize(ReqType(Len())) > HdrSize(T8) then old(Type()) else ReqType(Len()))
      ensures buf == old(buf) || fresh(buf)
    {
      if Avail() == 0 {
        return;
      }
      var t := ReqType(Len());
      Resize(Len(), if Type() == t || HdrSize(t) > HdrSize(T8) then Type() else t);
    }

    // ------------------------------------------------------------ editing

    /** The assertion of sdsIncrLen; for type 5 it only knows what the header can count. */
    predicate IncrAsserted(incr: int)
      reads this
    {
      if Type() == T5 then incr != 0 && 0 <= Len() + incr < 32
      else 0 <= Len() + incr && incr <= Avail()
    }

    /** The new length lies within the allocation, or, for type 5, within what the header can count. */
    lemma IncrAssertion(incr: int)
      requires Sized()
      ensures Type() != T5 ==> (IncrAsserted(incr) <==> 0 <= Len() + incr <= Alloc())
      ensures Type() == T5 ==> (IncrAsserted(incr) <==> incr != 0 && 0 <= Len() + incr <= MaxLen(T5))
    {
    }

    /**
     sdsIncrLen: what lies between the old and the new end becomes, or ceases to be, content.
     The assertion does not always keep the NUL inside the allocation: see IncrInBounds.
     */
    method IncrLen(incr: int)
      requires Sized() && IncrAsserted(incr) && Len() + incr < buf.Length
      modifies this`flags, this`hlen, buf
      ensures Valid() && Len() == old(Len()) + incr
      ensures Content() == old(buf[..Len() + incr])
      ensures Type() == old(Type()) && Avail() == (if Type() == T5 then 0 else old(Avail()) - incr)
      ensures buf == old(buf)
      ensures Exact() <==> Type() != T5 || old(Len()) + incr + 1 == old(buf.Length)
      ensures incr <= 0 ==> (Exact() <==> Type() != T5)
    {
      var len := Len() + incr;
      SetLen(len);
      buf[len] := NUL;
    }

    /**
     When the assertion holds, the NUL is written inside the buffer, except that a type 5
     string whose allocation is exact cannot grow at all.
     */
    lemma IncrInBounds(incr: int)
      requires Sized() && IncrAsserted(incr)
      ensures Type() != T5 || incr < 0 ==> Len() + incr < buf.Length
      ensures Exact() ==> (Len() + incr < buf.Length <==> Type() != T5 || incr < 0)
    {
    }

    /** Copy t into the buffer at position at. */
    method Poke(at: nat, t: Text)
      requires at + |t| <= buf.Length
      modifies buf
      ensures buf[..] == old(buf[..at]) + t + old(buf[at + |t|..])
    {
      forall i | at <= i < at + |t| {
        buf[i] := t[i - at];
      }
    }

    /** sdsgrowzero */
    method GrowZero(len: nat)
      requires Valid() && (len > Len() ==> Fits(len))
      modifies this, buf
      ensures Valid() && (buf == old(buf) || fresh(buf))
      ensures Content() == if len <= old(Len()) then old(Content())
                           else old(Content()) + seq(len - old(Len()), i => NUL)
      ensures Exact() <==> old(Exact()) || (len > old(Len()) && old(Avail()) < len - old(Len()))
      ensures (Alloc(), copied) ==
                if len <= old(Len()) then (old(Alloc()), old(copied))
                else CatCost(old(Len()), old(Alloc()), old(copied), len - old(Len()))
    {
      var curlen := Len();
      if len <= curlen {
        return;
      }
      MakeRoomFor(len - curlen);
      PutZeros(len - curlen);
    }

    /** The memset and the new length in sdsgrowzero. */
    method PutZeros(n: nat)
      requires Sized() && n <= Avail()
      modifies this`flags, this`hlen, buf
      ensures Valid() && Content() == old(Content()) + seq(n, i => NUL)
      ensures Type() == old(Type()) && buf == old(buf) && Alloc() == old(Alloc())
    {
      var curlen := Len();
      SetZero(curlen, n + 1);
      SetLen(curlen + n);
      assert Content() == old(Content()) + seq(n, i => NUL);
    }

    /** memset of n bytes at position at */
    method SetZero(at: nat, n: nat)
      requires at + n <= buf.Length
      modifies buf
      ensures forall i :: 0 <= i < buf.Length ==> buf[i] == if at <= i < at + n then NUL else old(buf[i])
    {
      forall i | at <= i < at + n {
        buf[i] := 0;
      }
    }

    /** sdscatlen */
    method CatLen(t: Text)
      requires Valid() && Fits(Len() + |t|)
      modifies this, buf
      ensures Valid() && (buf == old(buf) || fresh(buf))
      ensures Content() == old(Content()) + t
      ensures Exact() <==> old(Exact()) || old(Avail()) < |t|
      ensures (Alloc(), copied) == CatCost(old(Len()), old(Alloc()), old(copied), |t|)
    {
      MakeRoomFor(|t|);
      Put(t);
    }

    /** The bytes are copied behind the content, where there is room for them, and a NUL behind them. */
    method Put(t: Text)
      requires Sized() && |t| <= Avail()
      modifies this`flags, this`hlen, buf
      ensures Valid() && Content() == old(Content()) + t
      ensures Type() == old(Type()) && buf == old(buf) && Alloc() == old(Alloc())
    {
      var curlen := Len();
      Poke(curlen, t);
      SetLen(curlen + |t|);
      buf[curlen + |t|] := NUL;
      assert Content() == old(Content()) + t;
    }

    /** sdscpylen */
    method CpyLen(t: Text)
      requires Valid() && Fits(|t|)
      modifies this, buf
      ensures Valid() && (buf == old(buf) || fresh(buf))
      ensures Content() == t
      ensures Exact() <==>
                || old(Alloc()) < |t|
                || (old(Exact()) && (old(Type()) != T5 || |t| >= old(Len())))
    {
      if Alloc() < |t| {
        MakeRoomFor(|t| - Len());
      }
      Poke(0, t);
      buf[|t|] := NUL;
      SetLen(|t|);
      assert Content() == t;
    }
  }

  /**
   The five encodings by the type code in the flags byte: what sdsAllocSize adds to the
   allocation for the header and the NUL, and how much the header can count.
   */
  lemma Encodings(s: Sds)
    requires s.Sized()
    ensures s.flags % 8 == 0 ==> s.AllocSize() == (s.flags / 8) as nat + 2 && s.Alloc() <= 31
    ensures s.flags % 8 == 1 ==> s.AllocSize() == s.halloc + 4 && s.Alloc() <= 255
    ensures s.flags % 8 == 2 ==> s.AllocSize() == s.halloc + 6 && s.Alloc() <= 65535
    ensures s.flags % 8 == 3 ==> s.AllocSize() == s.halloc + 10 && s.Alloc() <= 4294967295
    ensures s.flags % 8 == 4 ==> s.AllocSize() == s.halloc + 18 && s.Alloc() <= 18446744073709551615
    ensures s.flags % 8 <= 4
  {
  }

  /** What sdsAllocSize gives for a new string of n bytes, and for one grown to an allocation of n bytes. */
  lemma SizesByLength(s: Sds, n: nat)
    requires s.Alloc() == n <= SIZE_MAX
    ensures s.Type() == NewType(n) ==>
              s.AllocSize() == n + (if n == 0 then 4 else if n < 32 then 2 else if n < 256 then 4
                                    else if n < 65536 then 6 else if n < 4294967296 then 10 else 18)
    ensures s.Type() == GrownType(n) ==>
              s.AllocSize() == n + (if n < 256 then 4 else if n < 65536 then 6
                                    else if n < 4294967296 then 10 else 18)
  {
  }

  /** The header of an empty string can count the two bytes that making room for one allocates. */
  method RoomInEmpty() returns (s: Sds)
    ensures fresh(s) && fresh(s.buf)
    ensures s.Sized() && s.flags % 8 == 1 && s.halloc == 2 && s.AllocSize() == 6 && s.buf.Length == 3
  {
    s := new Sds([]);
    s.MakeRoomFor(1);
  }

  /**
   A type 5 header cannot remember free space, so shortening such a string makes its
   header, and sdsAllocSize with it, forget how large the allocation is.
   */
  method ShortenedType5() returns (s: Sds)
    ensures fresh(s) && fresh(s.buf)
    ensures s.Valid() && s.Content() == [] && s.Type() == T5
    ensures !s.Exact()
  {
    s := new Sds([ZERO]);
    s.CpyLen([]);
  }

  /** A string of one byte passes the assertion of sdsIncrLen for one byte more, and has no room for its NUL. */
  method FullType5(c: byte) returns (s: Sds)
    ensures fresh(s) && fresh(s.buf)
    ensures s.Valid() && s.Content() == [c] && s.Type() == T5
    ensures s.IncrAsserted(1) && !(s.Len() + 1 < s.buf.Length)
  {
    s := new Sds([c]);
    s.IncrInBounds(1);
  }

  /** Allocation and bytes copied after appending n bytes to a string of the given length. */
  function CatCost(len: nat, alloc: nat, copied: nat, n: nat): (nat, nat) {
    if n <= alloc - len then (alloc, copied) else (Prealloc(len + n), copied + len)
  }
}

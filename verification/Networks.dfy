/**
 IPv4 network lists: merging them into elements a set will accept, keeping reserved space out of
 a feed, and bounding how much address space a feed may take off the air.
 */
module Networks {
  import opened Words

  const TWO_32: nat := 0x1_0000_0000

  type Addr = x: int | 0 <= x < TWO_32
  type Len = x: int | 0 <= x <= 32

  /** A line of a list: a network in prefix notation, host bits and all, or anything else. */
  datatype Entry = Network(addr: Addr, len: Len) | Junk

  datatype Block = Block(start: Addr, len: Len)

  function Pow2(n: nat): (r: nat)
    ensures r > 0
  {
    if n == 0 then 1 else 2 * Pow2(n - 1)
  }

  function Size(len: Len): (r: nat)
    ensures r > 0
  {
    Pow2(32 - len)
  }

  function Last(b: Block): nat { b.start + Size(b.len) - 1 }

  predicate Aligned(b: Block) { b.start % Size(b.len) == 0 }

  predicate In(x: int, b: Block) { b.start <= x <= Last(b) }

  predicate Overlap(a: Block, b: Block) { a.start <= Last(b) && b.start <= Last(a) }

  predicate Within(a: Block, b: Block) { b.start <= a.start && Last(a) <= Last(b) }

  // ---- aligned blocks --------------------------------------------------

  lemma {:induction false} Pow2Sum(m: nat, n: nat)
    ensures Pow2(m + n) == Pow2(m) * Pow2(n)
  {
    if m > 0 {
      Pow2Sum(m - 1, n);
      assert Pow2(m + n) == 2 * (Pow2(m - 1) * Pow2(n));
    }
  }

  lemma SizeDivides(shorter: Len, longer: Len) returns (k: nat)
    requires shorter <= longer
    ensures k > 0 && Size(shorter) == Size(longer) * k
  {
    Pow2Sum(32 - longer, longer - shorter);
    k := Pow2(longer - shorter);
  }

  lemma Quotient(x: nat, m: nat) returns (q: nat)
    requires m > 0 && x % m == 0
    ensures x == m * q
  {
    q := x / m;
  }

  lemma Cancel(m: nat, x: int, y: int)
    requires m > 0 && m * x < m * y
    ensures x < y
  {}

  lemma Scale(m: nat, x: int, y: int)
    requires x <= y
    ensures m * x <= m * y
  {}

  lemma NestArithmetic(m: nat, x: int, y: int, r: int)
    requires m > 0 && m * x < m * (r + 1) && m * r < m * y
    ensures m * x <= m * r && m * (r + 1) <= m * y
  {
    Cancel(m, x, r + 1);
    Cancel(m, r, y);
    Scale(m, x, r);
    Scale(m, r + 1, y);
  }

  lemma Regroup(m: nat, k: nat, q: nat)
    ensures (m * k) * q == m * (k * q)
    ensures m * (k * q) + m * k == m * (k * q + k)
  {}

  /** Two aligned blocks that share an address: the one with the longer prefix lies in the other. */
  lemma AlignedNest(a: Block, b: Block)
    requires Aligned(a) && Aligned(b) && Overlap(a, b) && a.len <= b.len
    ensures Within(b, a)
  {
    var m := Size(b.len);
    var k := SizeDivides(a.len, b.len);
    hide Size;
    var q := Quotient(a.start, Size(a.len));
    var r := Quotient(b.start, m);
    Regroup(m, k, q);
    assert m * (r + 1) == m * r + m;
    NestArithmetic(m, k * q, k * q + k, r);
  }

  lemma NestOrDisjoint(a: Block, b: Block)
    requires Aligned(a) && Aligned(b)
    ensures !Overlap(a, b) || Within(a, b) || Within(b, a)
  {
    if Overlap(a, b) {
      if a.len <= b.len {
        AlignedNest(a, b);
      } else {
        AlignedNest(b, a);
      }
    }
  }

  lemma FitsAddressSpace(b: Block)
    requires Aligned(b)
    ensures Last(b) < TWO_32
  {
    Pow2At32();
    assert Aligned(Block(0, 0)) && Size(0) == TWO_32;
    AlignedNest(Block(0, 0), b);
  }

  lemma Pow2At32()
    ensures Pow2(32) == TWO_32
  {
    Pow2Sum(16, 16);
    Pow2Sum(8, 8);
    assert Pow2(8) == 256;
  }

  lemma {:induction false} Pow2Grows(i: nat, j: nat)
    requires i < j
    ensures Pow2(i) < Pow2(j)
    decreases j
  {
    if i < j - 1 {
      Pow2Grows(i, j - 1);
    }
  }

  lemma SameBounds(a: Block, b: Block)
    requires Within(a, b) && Within(b, a)
    ensures a == b
  {
    if a.len < b.len {
      Pow2Grows(32 - b.len, 32 - a.len);
    } else if b.len < a.len {
      Pow2Grows(32 - a.len, 32 - b.len);
    }
  }

  // ---- parsing and ordering --------------------------------------------

  /** The network an entry names, host bits masked off. */
  function Masked(addr: Addr, len: Len): (b: Block)
    ensures Aligned(b) && b.len == len && In(addr, b)
  {
    hide Size;
    MultipleAligned(addr / Size(len), Size(len));
    ModuloBelow(addr, Size(len));
    Block(addr - addr % Size(len), len)
  }

  lemma MultipleAligned(q: nat, m: nat)
    requires m > 0
    ensures (m * q) % m == 0
  {
    var d := (m * q) / m;
    assert m * q == m * d + (m * q) % m;
    assert m * (d + 1) == m * d + m;
    if q > d {
      Scale(m, d + 1, q);
    } else {
      Scale(m, q, d);
    }
  }

  lemma ModuloBelow(x: nat, m: nat)
    requires m > 0
    ensures 0 <= x - x % m <= x < x - x % m + m && x - x % m == m * (x / m)
  {}

  function Parsed(es: seq<Entry>): (bs: seq<Block>)
    ensures forall b :: b in bs ==> Aligned(b)
  {
    if es == [] then []
    else
      Parsed(es[..|es| - 1])
      + match es[|es| - 1]
        case Junk => []
        case Network(addr, len) => [Masked(addr, len)]
  }

  /** By start, the containing network first. */
  predicate Before(a: Block, b: Block) { a.start < b.start || (a.start == b.start && Last(a) >= Last(b)) }

  ghost predicate Sorted(bs: seq<Block>) {
    forall i, j :: 0 <= i < j < |bs| ==> Before(bs[i], bs[j])
  }

  function Insert(b: Block, bs: seq<Block>): seq<Block> {
    if bs == [] || Before(b, bs[0]) then [b] + bs else [bs[0]] + Insert(b, bs[1..])
  }

  function Sort(bs: seq<Block>): seq<Block> {
    if bs == [] then [] else Insert(bs[0], Sort(bs[1..]))
  }

  lemma {:induction false} InsertKeeps(b: Block, bs: seq<Block>)
    requires Sorted(bs)
    ensures Sorted(Insert(b, bs)) && forall c :: c in Insert(b, bs) <==> c == b || c in bs
  {
    if bs != [] && !Before(b, bs[0]) {
      InsertKeeps(b, bs[1..]);
      assert bs == [bs[0]] + bs[1..];
      var rest := Insert(b, bs[1..]);
      forall c | c in rest
        ensures Before(bs[0], c)
      {
        if c != b {
          assert c in bs[1..];
        }
      }
    }
  }

  lemma {:induction false} SortKeeps(bs: seq<Block>)
    ensures Sorted(Sort(bs)) && forall c :: c in Sort(bs) <==> c in bs
  {
    if bs != [] {
      SortKeeps(bs[1..]);
      InsertKeeps(bs[0], Sort(bs[1..]));
      assert bs == [bs[0]] + bs[1..];
    }
  }

  // ---- merging ---------------------------------------------------------

  /** In order, no two sharing an address. */
  ghost predicate Apart(bs: seq<Block>) {
    forall i, j :: 0 <= i < j < |bs| ==> Last(bs[i]) < bs[j].start
  }

  /** Exactly the blocks of `bs` that no other of them reaches outside of. */
  ghost predicate IsMerge(out: seq<Block>, bs: seq<Block>) {
    && Apart(out)
    && forall b :: b in out <==> b in bs && forall c :: c in bs && Overlap(b, c) ==> Within(c, b)
  }

  ghost predicate Contained(c: Block, out: seq<Block>) { exists o :: o in out && Within(c, o) }

  ghost predicate Sweeps(out: seq<Block>, bs: seq<Block>) {
    && Apart(out) && (forall b :: b in out ==> b in bs)
    && forall c :: c in bs ==> Contained(c, out)
  }

  lemma SweptIsMaximal(b: Block, c: Block, out: seq<Block>, bs: seq<Block>)
    requires Sweeps(out, bs) && b in out && c in bs && Overlap(b, c)
    ensures Within(c, b)
  {
    hide Last, Apart, Overlap;
    assert Contained(c, out);
    var o :| o in out && Within(c, o);
    OverlapWider(b, c, o);
    OneOnly(out, b, o);
  }

  lemma MaximalIsSwept(b: Block, out: seq<Block>, bs: seq<Block>)
    requires Sweeps(out, bs) && b in bs && forall c :: c in bs && Overlap(b, c) ==> Within(c, b)
    ensures b in out
  {
    hide Last, Apart;
    assert Contained(b, out);
    var o :| o in out && Within(b, o);
    assert o in bs;
    NotEmpty(b);
    assert Overlap(b, o);
    SameBounds(b, o);
  }

  lemma SweepIsMerge(out: seq<Block>, bs: seq<Block>)
    requires Sweeps(out, bs)
    ensures IsMerge(out, bs)
  {
    hide Last, Overlap, Within, Contained;
    forall b | b in out
      ensures forall c :: c in bs && Overlap(b, c) ==> Within(c, b)
    {
      forall c | c in bs && Overlap(b, c)
        ensures Within(c, b)
      {
        SweptIsMaximal(b, c, out, bs);
      }
    }
    forall b | b in bs && forall c :: c in bs && Overlap(b, c) ==> Within(c, b)
      ensures b in out
    {
      MaximalIsSwept(b, out, bs);
    }
  }

  lemma NotEmpty(b: Block)
    ensures b.start <= Last(b)
  {}

  lemma OverlapWider(b: Block, c: Block, o: Block)
    requires Overlap(b, c) && Within(c, o)
    ensures Overlap(b, o)
  {
    hide Last;
  }

  lemma OneOnly(out: seq<Block>, a: Block, b: Block)
    requires Apart(out) && a in out && b in out && Overlap(a, b)
    ensures a == b
  {
    hide Last;
    var i :| 0 <= i < |out| && out[i] == a;
    var j :| 0 <= j < |out| && out[j] == b;
  }

  /** Normalises a list: parsed, masked, nothing overlapping, nothing lost. */
  method MergeCidrs(es: seq<Entry>) returns (out: seq<Block>)
    ensures IsMerge(out, Parsed(es))
  {
    var blocks := ParseAll(es);
    blocks := Sort(blocks);
    SortKeeps(Parsed(es));
    out := SweepSorted(blocks);
    assert Sweeps(out, Parsed(es));
    SweepIsMerge(out, Parsed(es));
  }

  method ParseAll(es: seq<Entry>) returns (blocks: seq<Block>)
    ensures blocks == Parsed(es)
  {
    blocks := [];
    var i := 0;
    while i < |es|
      invariant i <= |es| && blocks == Parsed(es[..i])
    {
      assert es[..i + 1][..i] == es[..i];
      match es[i] {
        case Junk =>
        case Network(addr, len) => blocks := blocks + [Masked(addr, len)];
      }
      i := i + 1;
    }
    assert es[..i] == es;
  }

  method SweepSorted(blocks: seq<Block>) returns (out: seq<Block>)
    requires Sorted(blocks) && forall b :: b in blocks ==> Aligned(b)
    ensures Sweeps(out, blocks)
  {
    hide Last, Before, Within, Aligned, Sorted, Contained, Apart;
    ApartNone();
    out := [];
    var lastEnd: int := -1;
    var i := 0;
    while i < |blocks|
      invariant i <= |blocks| && lastEnd == if out == [] then -1 else Last(out[|out| - 1])
      invariant Apart(out) && forall b :: b in out ==> b in blocks[..i]
      invariant forall k :: 0 <= k < i ==> Contained(blocks[k], out)
    {
      var bl := blocks[i];
      if Last(bl) <= lastEnd {
        var o := out[|out| - 1];
        Earlier(blocks, i, o);
        InsidePrevious(o, bl);
        ContainedBy(bl, o, out);
      } else {
        Extends(blocks, i, out);
        ghost var was := out;
        lastEnd := Last(bl);
        out := out + [bl];
        InsidePrevious(bl, bl);
        ContainedBy(bl, bl, out);
        ContainedGrows(blocks[..i], was, out);
      }
      assert blocks[..i + 1] == blocks[..i] + [bl];
      i := i + 1;
    }
    assert blocks[..i] == blocks;
  }

  lemma ContainedGrows(cs: seq<Block>, before: seq<Block>, after: seq<Block>)
    requires (forall c :: c in cs ==> Contained(c, before)) && forall o :: o in before ==> o in after
    ensures forall c :: c in cs ==> Contained(c, after)
  {
    hide Within;
  }

  lemma ApartNone()
    ensures Apart([])
  {}

  lemma ContainedBy(c: Block, o: Block, out: seq<Block>)
    requires o in out && Within(c, o)
    ensures Contained(c, out)
  {}

  lemma InsidePrevious(o: Block, bl: Block)
    requires (o == bl || Before(o, bl)) && Last(bl) <= Last(o)
    ensures Within(bl, o)
  {}

  /** A block reaching beyond the last one kept starts beyond it. */
  lemma Extends(blocks: seq<Block>, i: nat, out: seq<Block>)
    requires Sorted(blocks) && i < |blocks| && forall b :: b in blocks ==> Aligned(b)
    requires Apart(out) && forall b :: b in out ==> b in blocks[..i]
    requires out != [] ==> Last(out[|out| - 1]) < Last(blocks[i])
    ensures Apart(out + [blocks[i]])
  {
    hide Aligned;
    if out != [] {
      var o := out[|out| - 1];
      Earlier(blocks, i, o);
      NestOrDisjoint(o, blocks[i]);
      assert Last(o) < blocks[i].start;
      NotEmpty(o);
      hide Last, Before;
    }
  }

  lemma Earlier(blocks: seq<Block>, i: nat, o: Block)
    requires Sorted(blocks) && i < |blocks| && o in blocks[..i]
    ensures Before(o, blocks[i])
  {}

  // ---- what a list covers ----------------------------------------------

  ghost predicate InAny(x: int, bs: seq<Block>) { exists b :: b in bs && In(x, b) }

  /** Every address a list covers. */
  ghost function Addresses(bs: seq<Block>): set<int> {
    set x | 0 <= x < TWO_32 && InAny(x, bs)
  }

  function SumSizes(bs: seq<Block>): nat {
    if bs == [] then 0 else SumSizes(bs[..|bs| - 1]) + Size(bs[|bs| - 1].len)
  }

  lemma SweepsCoverSame(out: seq<Block>, bs: seq<Block>)
    requires Sweeps(out, bs)
    ensures forall x :: InAny(x, out) <==> InAny(x, bs)
  {
    hide Last, Apart;
    forall x | InAny(x, bs)
      ensures InAny(x, out)
    {
      var c :| c in bs && In(x, c);
      assert Contained(c, out);
      var o :| o in out && Within(c, o);
      assert In(x, o);
    }
  }

  /** Merging changes no address. */
  lemma MergeCoversSame(out: seq<Block>, bs: seq<Block>)
    requires IsMerge(out, bs) && forall b :: b in bs ==> Aligned(b)
    ensures Addresses(out) == Addresses(bs)
  {
    hide InAny, Sweeps, IsMerge;
    MergeSweeps(out, bs);
    SweepsCoverSame(out, bs);
  }

  /** A maximal block over every block: what sorting and sweeping leave, seen from the result. */
  lemma {:induction false} MergeSweeps(out: seq<Block>, bs: seq<Block>)
    requires IsMerge(out, bs) && forall b :: b in bs ==> Aligned(b)
    ensures Sweeps(out, bs)
  {
    hide Last;
    forall c | c in bs
      ensures Contained(c, out)
    {
      Widest(c, out, bs);
    }
  }

  lemma {:induction false} Widest(c: Block, out: seq<Block>, bs: seq<Block>)
    requires IsMerge(out, bs) && c in bs && forall b :: b in bs ==> Aligned(b)
    ensures Contained(c, out)
    decreases c.len
  {
    hide Last;
    if c in out {
      assert Within(c, c);
    } else {
      var d :| d in bs && Overlap(c, d) && !Within(d, c);
      if d.len >= c.len {
        AlignedNest(c, d);
        assert false;
      }
      AlignedNest(d, c);
      Widest(d, out, bs);
      var o :| o in out && Within(d, o);
      assert Within(c, o);
    }
  }

  /** The merged form is determined by the list: there is only one. */
  lemma MergeUnique(out: seq<Block>, other: seq<Block>, bs: seq<Block>)
    requires IsMerge(out, bs) && IsMerge(other, bs)
    ensures out == other
  {
    assert forall b :: b in out <==> b in other;
    ApartEqual(out, other);
  }

  lemma {:induction false} ApartEqual(s: seq<Block>, t: seq<Block>)
    requires Apart(s) && Apart(t) && forall b :: b in s <==> b in t
    ensures s == t
  {
    if s == [] {
      assert forall i :: 0 <= i < |t| ==> t[i] in t;
    } else {
      assert s[0] in s && s[0] in t;
      assert t != [];
      assert t[0] in t && t[0] in s;
      assert s[0].start <= t[0].start && t[0].start <= s[0].start by {
        var i :| 0 <= i < |t| && t[i] == s[0];
        var j :| 0 <= j < |s| && s[j] == t[0];
      }
      OneOnly(s, s[0], t[0]);
      forall b
        ensures b in s[1..] <==> b in t[1..]
      {
        if b in s[1..] {
          assert b in t && b != s[0];
        }
        if b in t[1..] {
          assert b in s && b != t[0];
        }
      }
      ApartEqual(s[1..], t[1..]);
    }
  }

  ghost function Span(lo: int, hi: int): (r: set<int>)
    requires lo <= hi
    ensures forall x :: x in r <==> lo <= x < hi
    ensures |r| == hi - lo
    decreases hi - lo
  {
    if lo == hi then {} else Span(lo, hi - 1) + {hi - 1}
  }

  lemma AddressesAppend(bs: seq<Block>, b: Block)
    requires Last(b) < TWO_32
    ensures Addresses(bs + [b]) == Addresses(bs) + Span(b.start, Last(b) + 1)
  {
    NotEmpty(b);
    hide Last;
    var all, own := bs + [b], Span(b.start, Last(b) + 1);
    assert b in all && forall c :: c in bs ==> c in all;
    forall x
      ensures InAny(x, all) <==> InAny(x, bs) || In(x, b)
    {
      if InAny(x, all) {
        var c :| c in all && In(x, c);
        assert c in bs || c == b;
      }
    }
    assert forall x :: x in own <==> In(x, b);
    hide InAny, In, Span;
  }

  lemma AddressesApart(bs: seq<Block>, b: Block)
    requires Apart(bs + [b]) && b.start <= Last(b) + 1
    ensures Addresses(bs) !! Span(b.start, Last(b) + 1)
  {
    hide Last;
    forall x | InAny(x, bs)
      ensures x < b.start
    {
      var c :| c in bs && In(x, c);
      var k :| 0 <= k < |bs| && bs[k] == c;
      assert (bs + [b])[k] == c && (bs + [b])[|bs|] == b;
    }
    hide InAny, In;
  }

  lemma AddressesFit(bs: seq<Block>)
    ensures |Addresses(bs)| <= TWO_32
  {
    hide InAny;
    var all := Span(0, TWO_32);
    forall x | x in Addresses(bs)
      ensures x in all
    {
    }
    SubsetCount(Addresses(bs), Span(0, TWO_32));
  }

  /** The sum of the sizes of blocks that lie apart is the true number of distinct addresses. */
  lemma {:induction false} SumIsCount(bs: seq<Block>)
    requires Apart(bs) && forall b :: b in bs ==> Aligned(b)
    ensures |Addresses(bs)| == SumSizes(bs)
    ensures SumSizes(bs) <= TWO_32
  {
    hide Addresses, Span, Aligned, Size;
    if bs != [] {
      var front, last := bs[..|bs| - 1], bs[|bs| - 1];
      SumIsCount(front);
      FitsAddressSpace(last);
      AddressesAppend(front, last);
      AddressesApart(front, last);
      assert front + [last] == bs;
    } else {
      NoAddresses();
    }
    AddressesFit(bs);
  }

  lemma NoAddresses()
    ensures |Addresses([])| == 0
  {
    assert Addresses([]) == {};
  }

  lemma {:induction false} SubsetCount(s: set<int>, t: set<int>)
    requires s <= t
    ensures |s| <= |t|
  {
    assert t == s + (t - s);
  }

  // ---- feeds -----------------------------------------------------------

  /** Space no legitimate source on the public interface can hold. */
  const RESERVED: seq<Block> := [
    Block(0, 8), Block(10 * 0x100_0000, 8), Block(100 * 0x100_0000 + 64 * 0x1_0000, 10),
    Block(127 * 0x100_0000, 8), Block(169 * 0x100_0000 + 254 * 0x1_0000, 16),
    Block(172 * 0x100_0000 + 16 * 0x1_0000, 12), Block(192 * 0x100_0000 + 168 * 0x1_0000, 16),
    Block(224 * 0x100_0000, 3)]

  lemma Sizes()
    ensures Size(3) == 0x2000_0000 && Size(8) == 0x100_0000 && Size(10) == 0x40_0000
    ensures Size(12) == 0x10_0000 && Size(16) == 0x1_0000
  {
    Pow2Sum(8, 8);
    Pow2Sum(16, 4);
    Pow2Sum(20, 2);
    Pow2Sum(16, 8);
    Pow2Sum(24, 5);
    assert Pow2(4) == 16 && Pow2(8) == 256 && Pow2(5) == 32 && Pow2(2) == 4;
  }

  /** Reserved space, octet by octet: 0, 10 and 127, 100.64 to 100.127, 169.254, 172.16 to 172.31, 192.168,
      and everything from 224. */
  lemma ReservedAddresses(x: Addr)
    ensures (exists r :: r in RESERVED && In(x, r)) <==>
            var a, b := x / 0x100_0000, x / 0x1_0000 % 256;
            a in {0, 10, 127} || (a == 100 && 64 <= b < 128) || (a == 169 && b == 254)
            || (a == 172 && 16 <= b < 32) || (a == 192 && b == 168) || a >= 224
  {
    hide Size;
    Sizes();
    var a, b := x / 0x100_0000, x / 0x1_0000 % 256;
    assert x == a * 0x100_0000 + b * 0x1_0000 + x % 0x1_0000;
    assert forall r :: r in RESERVED <==> exists i :: 0 <= i < 8 && RESERVED[i] == r;
    if a in {0, 10, 127} || (a == 100 && 64 <= b < 128) || (a == 169 && b == 254)
       || (a == 172 && 16 <= b < 32) || (a == 192 && b == 168) || a >= 224 {
      var i := if a == 0 then 0 else if a == 10 then 1 else if a == 100 then 2 else if a == 127 then 3
               else if a == 169 then 4 else if a == 172 then 5 else if a == 192 then 6 else 7;
      assert RESERVED[i] in RESERVED && In(x, RESERVED[i]);
    }
  }

  predicate Reserved(b: Block) { exists r :: r in RESERVED && Overlap(b, r) }

  /** What is left of a list once everything reaching into reserved space is dropped. */
  function Admitted(bs: seq<Block>): (out: seq<Block>)
    ensures forall b :: b in out <==> b in bs && !Reserved(b)
  {
    if bs == [] then []
    else
      var front, last := bs[..|bs| - 1], bs[|bs| - 1];
      assert bs == front + [last];
      Admitted(front) + if Reserved(last) then [] else [last]
  }

  method DropNonInternet(es: seq<Entry>) returns (out: seq<Entry>)
    ensures Parsed(out) == Admitted(Parsed(es))
  {
    out := [];
    var i := 0;
    while i < |es|
      invariant i <= |es| && Parsed(out) == Admitted(Parsed(es[..i]))
    {
      assert es[..i + 1][..i] == es[..i];
      ghost var was := Parsed(es[..i]);
      match es[i] {
        case Junk =>
          assert Parsed(es[..i + 1]) == was;
        case Network(addr, len) =>
          var sp := Masked(addr, len);
          assert Parsed(es[..i + 1]) == was + [sp];
          AdmittedAppend(was, sp);
          var overlaps := ReachesReserved(sp);
          if !overlaps {
            ParsedAppend(out, addr, len);
            out := out + [es[i]];
          }
      }
      i := i + 1;
    }
    assert es[..i] == es;
  }

  lemma AdmittedAppend(bs: seq<Block>, b: Block)
    ensures Admitted(bs + [b]) == Admitted(bs) + if Reserved(b) then [] else [b]
  {
    hide Reserved;
    assert (bs + [b])[..|bs|] == bs;
  }

  lemma ParsedAppend(es: seq<Entry>, addr: Addr, len: Len)
    ensures Parsed(es + [Network(addr, len)]) == Parsed(es) + [Masked(addr, len)]
  {
    assert (es + [Network(addr, len)])[..|es|] == es;
  }

  method ReachesReserved(sp: Block) returns (overlaps: bool)
    ensures overlaps == Reserved(sp)
  {
    hide Last;
    overlaps := false;
    var k := 0;
    while k < |RESERVED| && !overlaps
      invariant k <= |RESERVED|
      invariant overlaps ==> Reserved(sp)
      invariant !overlaps ==> forall m :: 0 <= m < k ==> !Overlap(sp, RESERVED[m])
    {
      if sp.start <= Last(RESERVED[k]) && RESERVED[k].start <= Last(sp) {
        assert RESERVED[k] in RESERVED && Overlap(sp, RESERVED[k]);
        overlaps := true;
      }
      k := k + 1;
    }
  }

  const MIN_PREFIX: int := 8
  const MAX_COVERAGE: nat := 0x800_0000

  datatype Verdict = Accepted(elems: seq<Block>) | TooShort(block: Block) | TooMuch(covered: nat)

  /** Judges a feed by what would be loaded from it. The count it adds up is the number of distinct
      addresses, and cannot overflow. */
  method CheckBlocklist(es: seq<Entry>) returns (r: Verdict)
    ensures var bs := Admitted(Parsed(es));
            match r
            case Accepted(elems) =>
              && IsMerge(elems, bs) && Addresses(elems) == Addresses(bs)
              && (forall b :: b in bs ==> b.len >= MIN_PREFIX) && |Addresses(bs)| <= MAX_COVERAGE
            case TooShort(b) => b in bs && b.len < MIN_PREFIX
            case TooMuch(n) =>
              (forall b :: b in bs ==> b.len >= MIN_PREFIX) && n == |Addresses(bs)| > MAX_COVERAGE
  {
    hide Reserved, Addresses, Last, Pow2, Contained, InAny, IsMerge, Sweeps, Apart, Parsed, Admitted, Aligned;
    var kept := DropNonInternet(es);
    var elems := MergeCidrs(kept);
    ghost var bs := Admitted(Parsed(es));
    MergeFacts(elems, bs);
    var covered: u64 := 0;
    var i := 0;
    while i < |elems|
      invariant i <= |elems| && covered == SumSizes(elems[..i])
      invariant forall k :: 0 <= k < i ==> elems[k].len >= MIN_PREFIX
    {
      if elems[i].len < MIN_PREFIX {
        return TooShort(elems[i]);
      }
      assert elems[..i + 1][..i] == elems[..i];
      SumPrefix(elems, i + 1);
      covered := covered + Size(elems[i].len);
      i := i + 1;
    }
    assert elems[..i] == elems;
    SumIsCount(elems);
    if covered > MAX_COVERAGE {
      return TooMuch(covered);
    }
    return Accepted(elems);
  }

  lemma MergeFacts(elems: seq<Block>, bs: seq<Block>)
    requires IsMerge(elems, bs) && forall b :: b in bs ==> Aligned(b)
    ensures Addresses(elems) == Addresses(bs) && Apart(elems) && forall e :: e in elems ==> e in bs && Aligned(e)
    ensures (forall e :: e in elems ==> e.len >= MIN_PREFIX) ==> forall b :: b in bs ==> b.len >= MIN_PREFIX
  {
    hide Addresses, Last, Contained, Aligned;
    MergeSweeps(elems, bs);
    MergeCoversSame(elems, bs);
    LongEnough(elems, bs);
  }

  lemma SumPrefix(elems: seq<Block>, i: nat)
    requires Apart(elems) && (forall b :: b in elems ==> Aligned(b)) && i <= |elems|
    ensures SumSizes(elems[..i]) <= TWO_32
  {
    assert forall b :: b in elems[..i] ==> b in elems;
    hide Last;
    SumIsCount(elems[..i]);
  }

  /** If no element is short, no block of the list was. */
  lemma LongEnough(elems: seq<Block>, bs: seq<Block>)
    requires Sweeps(elems, bs)
    ensures (forall e :: e in elems ==> e.len >= MIN_PREFIX) ==> forall b :: b in bs ==> b.len >= MIN_PREFIX
  {
    hide Last, Pow2;
    if forall e :: e in elems ==> e.len >= MIN_PREFIX {
      forall b | b in bs
        ensures b.len >= MIN_PREFIX
      {
        assert Contained(b, elems);
        var o :| o in elems && Within(b, o);
        WiderIsShorter(b, o);
      }
    }
  }

  lemma WiderIsShorter(b: Block, o: Block)
    requires Within(b, o)
    ensures o.len <= b.len
  {
    if b.len < o.len {
      Pow2Grows(32 - o.len, 32 - b.len);
    }
  }

  /** No address of an accepted list is in reserved space, and nothing else was dropped. */
  lemma ReservedSpaceSpared(bs: seq<Block>, b: Block)
    requires b in bs
    ensures b in Admitted(bs) <==> forall x, r :: r in RESERVED && In(x, b) ==> !In(x, r)
  {
    if Reserved(b) {
      var r :| r in RESERVED && Overlap(b, r);
      var x := if b.start < r.start then r.start else b.start;
      assert In(x, b) && In(x, r);
    }
  }
}

// A free address always exists. Both searches of the registry look at the last byte only:
// fewer than 254 taken addresses cannot use up all its values.

module FreeAddress {
  import opened Brigade
  import opened Net

  // ----- a byte outside a small set -----

  // A mask without its lowest bit, that bit, and a byte outside a mask.
  function Rest(m: bv8): bv8 {
    m & (m - 1)
  }

  function Lowest(m: bv8): bv8 {
    m & !Rest(m)
  }

  function Outside(x: bv8, m: bv8): bv8 {
    x & !m
  }

  predicate Has(x: bv8, bit: bv8) {
    x & bit != 0
  }

  function Fix(x: bv8, bit: bv8, on: bool): bv8 {
    if on then x | bit else x & !bit
  }

  // A mask with this many settings.
  predicate Settings(m: bv8, n: nat)
    decreases n
  {
    if n < 2 then n == 1 else m != 0 && n % 2 == 0 && Settings(Rest(m), n / 2)
  }

  lemma ByteSettings()
    ensures Settings(0xFF, 256)
  {
    assert Settings(0x80, 2);
    assert Settings(0xC0, 4);
    assert Settings(0xE0, 8);
    assert Settings(0xF0, 16);
    assert Settings(0xF8, 32);
    assert Settings(0xFC, 64);
    assert Settings(0xFE, 128);
  }

  // With the lowest bit fixed, what agrees outside the rest agrees outside the mask.
  lemma FixLowest(m: bv8, from: bv8, on: bool, x: bv8)
    requires m != 0 && Outside(x, Rest(m)) == Outside(Fix(from, Lowest(m), on), Rest(m))
    ensures Has(x, Lowest(m)) <==> on
    ensures Outside(x, m) == Outside(from, m)
  {
  }

  // The taken values split by one bit; one half is not full.
  lemma {:induction false} FreeUnder(from: bv8, m: bv8, n: nat, taken: set<bv8>) returns (x: bv8)
    requires Settings(m, n) && |taken| < n
    ensures x !in taken && Outside(x, m) == Outside(from, m)
    decreases n
  {
    hide Rest, Lowest, Outside, Has, Fix;
    if n == 1 {
      x := from;
    } else {
      var bit := Lowest(m);
      var ones := set t | t in taken && Has(t, bit);
      var zeros := taken - ones;
      var on := |zeros| >= n / 2;
      x := FreeUnder(Fix(from, bit, on), Rest(m), n / 2, if on then ones else zeros);
      FixLowest(m, from, on, x);
    }
  }

  lemma FreeByte(taken: set<bv8>) returns (x: bv8)
    requires |taken| < 256
    ensures x !in taken
  {
    ByteSettings();
    x := FreeUnder(0, 0xFF, 256, taken);
  }

  ghost function Image<A, B>(s: set<A>, f: A -> B): set<B> {
    set x | x in s :: f(x)
  }

  lemma InImage<A, B>(s: set<A>, f: A -> B, x: A)
    requires x in s
    ensures f(x) in Image(s, f)
  {
  }

  lemma {:induction false} ImageSize<A, B>(s: set<A>, f: A -> B)
    ensures |Image(s, f)| <= |s|
    decreases |s|
  {
    if s == {} {
      assert Image(s, f) == {};
    } else {
      var y :| y in s;
      ImageSize(s - {y}, f);
      assert Image(s, f) == Image(s - {y}, f) + {f(y)};
    }
  }

  // A byte that no taken address ends with, other than 0 and 255.
  lemma FreeEnding<A>(taken: set<A>, last: A -> bv8) returns (x: bv8)
    requires |taken| < 254
    ensures x != 0 && x != 0xFF && forall a :: a in taken ==> last(a) != x
  {
    var endings := Image(taken, last);
    ImageSize(taken, last);
    x := FreeByte(endings + {0, 0xFF});
    forall a | a in taken ensures last(a) != x {
      InImage(taken, last, a);
    }
  }

  // ----- IPv4 -----

  function LastByte4(a: IPv4): bv8 {
    (a & 0xFF) as bv8
  }

  function WithByte4(n: bv32, x: bv8): IPv4 {
    n | (x as bv32)
  }

  lemma BareByteNetwork4(a: bv32, m: bv32, n: bv32, x: bv8, r: bv32)
    requires n == a & !m && m & 0xFF == 0xFF && r == n | (x as bv32)
    ensures r & !m == n
  {
  }

  lemma BareByte4(a: bv32, m: bv32, n: bv32, x: bv8, r: bv32)
    requires n == a & !m && m & 0xFF == 0xFF && r == n | (x as bv32)
    ensures (r & 0xFF) as bv8 == x
  {
  }

  lemma BareFillByte4(a: bv32, m: bv32, n: bv32, l: bv32)
    requires n == a & !m && m & 0xFF == 0xFF && l == n | m
    ensures (l & 0xFF) as bv8 == 0xFF
  {
  }

  lemma BareZero4(a: bv32)
    ensures a & 0xFF == 0 <==> (a & 0xFF) as bv8 == 0
  {
  }

  lemma MaskHasByte4(bits: bv8)
    requires bits <= 24
    ensures HostMask4(bits) & 0xFF == 0xFF
  {
  }

  lemma LastByteIs4(a: IPv4)
    ensures LastByte4(a) == (a & 0xFF) as bv8
  {
  }

  lemma WithByteIs4(n: bv32, x: bv8)
    ensures WithByte4(n, x) == n | (x as bv32)
  {
  }

  // Writing the last byte of a network stays in it; the filled network ends with 255.
  lemma ByteOfNetwork4(a: bv32, m: bv32, x: bv8)
    requires m & 0xFF == 0xFF
    ensures Network32(WithByte4(Network32(a, m), x), m) == Network32(a, m)
    ensures LastByte4(WithByte4(Network32(a, m), x)) == x
    ensures LastByte4(Fill32(Network32(a, m), m)) == 0xFF
  {
    hide *;
    var n := Network32(a, m);
    var r, l := WithByte4(n, x), Fill32(n, m);
    NetworkIs32(a, m);
    NetworkIs32(r, m);
    WithByteIs4(n, x);
    FillIs32(n, m);
    LastByteIs4(r);
    LastByteIs4(l);
    BareByteNetwork4(a, m, n, x, r);
    BareByte4(a, m, n, x, r);
    BareFillByte4(a, m, n, l);
  }

  // What the first search looks for.
  predicate Free4(p: Prefix4, taken: set<IPv4>, x: bv32)
    requires p.bits <= 32
  {
    Draw4(p, x) && !IsZeroEnding4(RandomAddrIPv4(p, x)) && RandomAddrIPv4(p, x) !in taken
  }

  // In a prefix of length at most 24 with fewer than 254 taken addresses some draw is
  // accepted.
  lemma FreeIPv4(p: Prefix4, taken: set<IPv4>) returns (x: bv32)
    requires p.bits <= 24 && |taken| < 254
    ensures Free4(p, taken, x)
  {
    hide HostMask4, Network32, Fill32, Write32, Below, WithByte4, LastByte4;
    var m := HostMask4(p.bits);
    var last := FreeEnding(taken, LastByte4);
    var a := WithByte4(Masked4(p), last);
    MaskHasByte4(p.bits);
    ByteOfNetwork4(p.addr, m, last);
    RandomIPv4Range(p, a);
    x :| Draw4(p, x) && RandomAddrIPv4(p, x) == a;
    ZeroEnding4Is(a);
  }

  lemma ZeroEnding4Is(a: IPv4)
    ensures IsZeroEnding4(a) <==> LastByte4(a) == 0
  {
    BareZero4(a);
  }

  // The search for an address. It ends if the stream has a draw that is accepted, whatever the
  // length of the prefix.
  method PickIPv4(p: Prefix4, taken: set<IPv4>, draws: nat -> bv32) returns (a: IPv4)
    requires p.bits <= 32
    requires forall k :: Draw4(p, draws(k))
    requires exists k :: Free4(p, taken, draws(k))
    ensures In4(p, a) && !IsZeroEnding4(a) && a !in taken && (p.bits < 32 ==> a != LastPrefixIPv4(p))
  {
    hide RandomAddrIPv4, Draw4, IsZeroEnding4, In4, LastPrefixIPv4;
    ghost var end: nat :| Free4(p, taken, draws(end));
    var k := 0;
    while true
      invariant k <= end
      decreases end - k
    {
      a := RandomAddrIPv4(p, draws(k));
      if !IsZeroEnding4(a) && a !in taken {
        RandomIPv4Range(p, a);
        return;
      }
      k := k + 1;
    }
  }

  // A prefix longer than 24 bits has 128 addresses at most. If they are taken, no draw is ever
  // accepted.
  lemma NoFreeIPv4(p: Prefix4) returns (taken: set<IPv4>)
    requires 24 < p.bits <= 32
    ensures |taken| <= 128 && forall a :: In4(p, a) ==> a in taken
    ensures forall x :: !Free4(p, taken, x)
  {
    hide *;
    var n := Masked4(p);
    var image := (i: nat) => WithNumber(n, i);
    ImageSize(NumbersBelow(128), image);
    taken := Image(NumbersBelow(128), image);
    forall a | In4(p, a) ensures a in taken {
      var i := LowNumber(p, a);
      InImage(NumbersBelow(128), image, i);
    }
    forall x ensures !Free4(p, taken, x) {
      AcceptedIsNotTaken(p, taken, x);
      RandomIPv4Range(p, RandomAddrIPv4(p, x));
    }
  }

  lemma AcceptedIsNotTaken(p: Prefix4, taken: set<IPv4>, x: bv32)
    requires p.bits <= 32
    ensures Free4(p, taken, x) ==> Draw4(p, x) && RandomAddrIPv4(p, x) !in taken
  {
    hide Draw4, RandomAddrIPv4, IsZeroEnding4;
  }

  function WithNumber(n: bv32, i: nat): bv32 {
    if i < 256 then WithByte4(n, i as bv8) else n
  }

  ghost function NumbersBelow(n: nat): (s: set<nat>)
    ensures |s| == n && forall i: nat :: i in s <==> i < n
  {
    if n == 0 then {} else NumbersBelow(n - 1) + {n - 1}
  }

  lemma LowNumber(p: Prefix4, a: IPv4) returns (i: nat)
    requires 24 < p.bits <= 32 && In4(p, a)
    ensures i < 128 && a == WithNumber(Masked4(p), i)
  {
    var m := HostMask4(p.bits);
    assert Masked4(p) == Network32(a, m);
    ShortMask4(p.bits);
    hide *;
    var n, x := Network32(a, m), LastByte4(Host(a, m));
    NetworkIs32(a, m);
    HostIs(a, m);
    LastByteIs4(Host(a, m));
    WithByteIs4(n, x);
    BareLowByte(a, m, n, Host(a, m), x);
    SmallByte(x);
    i := x as nat;
    WithNumberIs(n, i, x);
  }

  lemma ShortMask4(bits: bv8)
    requires 24 < bits <= 32
    ensures HostMask4(bits) & 0x7F == HostMask4(bits)
  {
  }

  lemma BareLowByte(a: bv32, m: bv32, n: bv32, h: bv32, x: bv8)
    requires m & 0x7F == m && n == a & !m && h == a & m && x == (h & 0xFF) as bv8
    ensures n | (x as bv32) == a && x < 128
  {
  }

  lemma SmallByte(x: bv8)
    requires x < 128
    ensures x as nat < 128
  {
  }

  lemma WithNumberIs(n: bv32, i: nat, x: bv8)
    requires i == x as nat
    ensures WithNumber(n, i) == WithByte4(n, x)
  {
    hide WithByte4;
  }

  // ----- IPv6 -----

  function LastByte6(a: IPv6): bv8 {
    (a.lo & 0xFF) as bv8
  }

  // The draw that ends the low half with this byte, all the mask's bits above it set.
  function DrawFor(x: bv8): Draw {
    Draw(256 - (x as bv64), true)
  }

  lemma BareDraw(m: bv64, x: bv8, r: bv64)
    requires m & 0xFFFF == 0xFFFF && x != 0 && r == 256 - (x as bv64)
    ensures r < m & CORRECTION
  {
  }

  lemma BareDrawnByte(m: bv64, x: bv8, r: bv64, d: bv64, n: bv64, w: bv64)
    requires m & 0xFFFF == 0xFFFF && r == 256 - (x as bv64) && d == 0 - r
    requires n & m == 0 && w == (d & m) | n && x != 0
    ensures (w & 0xFF) as bv8 == x
  {
  }

  lemma BareDrawnEnding(m: bv64, x: bv8, r: bv64, d: bv64, n: bv64, w: bv64)
    requires m & 0xFFFF == 0xFFFF && r == 256 - (x as bv64) && d == 0 - r
    requires n & m == 0 && w == (d & m) | n && x != 0
    ensures w & 0xFFFF != 0
  {
  }

  lemma BareApart(a: bv64, m: bv64, n: bv64)
    requires n == a & !m
    ensures n & m == 0
  {
  }

  lemma DrawForIs(x: bv8)
    ensures DrawFor(x).negative && DrawFor(x).r == 256 - (x as bv64)
  {
  }

  lemma DrawnIs(m: bv64, d: Draw)
    requires m & 0xFFFF == 0xFFFF && d.negative
    ensures Drawn(m, d) == 0 - d.r
  {
  }

  lemma Draw6Is(m: bv64, d: Draw)
    requires d.r < m & CORRECTION
    ensures Draw6(m, d)
  {
    hide CORRECTION;
  }

  // A low half that ends with this byte, and not in sixteen zeroes.
  predicate EndsWith(w: bv64, x: bv8) {
    (w & 0xFF) as bv8 == x && w & 0xFFFF != 0
  }

  lemma EndsWithIs(w: bv64, x: bv8)
    requires (w & 0xFF) as bv8 == x && w & 0xFFFF != 0
    ensures EndsWith(w, x)
  {
  }

  lemma DrawIsBelow(m: bv64, x: bv8)
    requires m & 0xFFFF == 0xFFFF && x != 0
    ensures Draw6(m, DrawFor(x))
  {
    hide *;
    DrawForIs(x);
    BareDraw(m, x, DrawFor(x).r);
    Draw6Is(m, DrawFor(x));
  }

  lemma BareDrawnHalf(m: bv64, x: bv8, r: bv64, d: bv64, n: bv64, w: bv64)
    requires m & 0xFFFF == 0xFFFF && r == 256 - (x as bv64) && d == 0 - r
    requires n & m == 0 && w == (d & m) | n && x != 0
    ensures EndsWith(w, x)
  {
    hide *;
    BareDrawnByte(m, x, r, d, n, w);
    BareDrawnEnding(m, x, r, d, n, w);
    EndsWithIs(w, x);
  }

  // The drawn half ends as asked.
  lemma DrawnHalf(a: bv64, m: bv64, x: bv8, w: bv64)
    requires m & 0xFFFF == 0xFFFF && x != 0 && w == RandomFrom8(Network64(a, m), m, DrawFor(x))
    ensures EndsWith(w, x)
  {
    hide *;
    var n, d := Network64(a, m), DrawFor(x);
    DrawForIs(x);
    DrawnIs(m, d);
    NetworkIs64(a, m);
    BareApart(a, m, n);
    RandomFrom8Is(n, m, d);
    WriteIs64(Drawn(m, d), n, m);
    BareDrawnHalf(m, x, d.r, Drawn(m, d), n, w);
  }

  lemma RandomFrom8Is(n: bv64, m: bv64, d: Draw)
    ensures RandomFrom8(n, m, d) == Write64(Drawn(m, d), n, m)
  {
    hide Write64, Drawn;
  }

  lemma MaskHasBytes6(bits: bv8)
    requires bits <= 112
    ensures LoMask(bits) & 0xFFFF == 0xFFFF
  {
  }

  lemma Endings6Are(a: IPv6, x: bv8)
    requires EndsWith(a.lo, x)
    ensures LastByte6(a) == x && !IsZeroEnding6(a)
  {
  }

  lemma NoDraw(bits: bv8)
    requires bits <= 128
    ensures Draw6(HiMask(bits), Draw(0, false))
  {
    hide HiMask, LoMask;
    BoundIsPositive(bits);
  }

  datatype Draws = Draws(lo: Draw, hi: Draw)

  predicate DrawsOf(p: Prefix6, d: Draws)
    requires p.bits <= 128
  {
    Draw6(LoMask(p.bits), d.lo) && Draw6(HiMask(p.bits), d.hi)
  }

  // What the second search looks for.
  predicate Free6(p: Prefix6, taken: set<IPv6>, d: Draws)
    requires p.bits <= 128
  {
    var a := RandomAddrIPv6(p, d.lo, d.hi);
    DrawsOf(p, d) && !IsZeroEnding6(a) && a !in taken
  }

  lemma FreeIPv6(p: Prefix6, taken: set<IPv6>) returns (d: Draws)
    requires p.bits <= 112 && |taken| < 254
    ensures Free6(p, taken, d)
  {
    hide LoMask, HiMask, Draw6, Network64, RandomFrom8, DrawFor, LastByte6, IsZeroEnding6, EndsWith;
    var last := FreeEnding(taken, LastByte6);
    d := Draws(DrawFor(last), Draw(0, false));
    var a := RandomAddrIPv6(p, d.lo, d.hi);
    MaskHasBytes6(p.bits);
    DrawIsBelow(LoMask(p.bits), last);
    DrawnHalf(p.addr.lo, LoMask(p.bits), last, a.lo);
    Endings6Are(a, last);
    NoDraw(p.bits);
  }

  method PickIPv6(p: Prefix6, taken: set<IPv6>, draws: nat -> Draws) returns (a: IPv6)
    requires p.bits <= 128
    requires exists k :: Free6(p, taken, draws(k))
    ensures In6(p, a) && !IsZeroEnding6(a) && a !in taken
  {
    hide RandomAddrIPv6, DrawsOf, IsZeroEnding6, In6;
    ghost var end: nat :| Free6(p, taken, draws(end));
    var k := 0;
    while true
      invariant k <= end
      decreases end - k
    {
      a := RandomAddrIPv6(p, draws(k).lo, draws(k).hi);
      if !IsZeroEnding6(a) && a !in taken {
        RandomIPv6InPrefix(p, draws(k).lo, draws(k).hi);
        return;
      }
      k := k + 1;
    }
  }
}

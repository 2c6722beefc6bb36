// Address arithmetic on prefixes (section 3.1 of RFC 4632, section 2.3 of RFC 4291) and the
// random addresses drawn from them.

module Net {
  import opened Brigade

  // ----- words under a mask -----

  // The bits a mask leaves of a word, a word with the mask filled, and a word with other
  // bits written under the mask. Each law is proved on the bare operations first, with every
  // intermediate word a variable.

  function Network32(a: bv32, m: bv32): bv32 {
    a & !m
  }

  function Fill32(n: bv32, m: bv32): bv32 {
    n | m
  }

  function Write32(x: bv32, n: bv32, m: bv32): bv32 {
    (x & m) | n
  }

  lemma NetworkIs32(a: bv32, m: bv32)
    ensures Network32(a, m) == a & !m
  {
  }

  lemma FillIs32(n: bv32, m: bv32)
    ensures Fill32(n, m) == n | m
  {
  }

  lemma WriteIs32(x: bv32, n: bv32, m: bv32)
    ensures Write32(x, n, m) == (x & m) | n
  {
  }

  lemma BareWrite32(x: bv32, a: bv32, m: bv32, n: bv32, r: bv32)
    requires n == a & !m && r == (x & m) | n
    ensures r & !m == n
  {
  }

  lemma BareFill32(a: bv32, m: bv32, n: bv32, l: bv32)
    requires n == a & !m && l == n | m
    ensures l & !m == n
  {
  }

  lemma BareLargest32(a: bv32, m: bv32, n: bv32, l: bv32)
    requires n == a & !m && l == n | m
    ensures a <= l
  {
  }

  // Writing under the mask and filling the mask leave the rest alone.
  lemma Writing32(x: bv32, a: bv32, m: bv32)
    ensures Network32(Write32(x, Network32(a, m), m), m) == Network32(a, m)
  {
    hide *;
    var n := Network32(a, m);
    var r := Write32(x, n, m);
    NetworkIs32(a, m);
    WriteIs32(x, n, m);
    NetworkIs32(r, m);
    BareWrite32(x, a, m, n, r);
  }

  lemma Filling32(a: bv32, m: bv32)
    ensures Network32(Fill32(Network32(a, m), m), m) == Network32(a, m)
  {
    hide *;
    var n := Network32(a, m);
    var l := Fill32(n, m);
    NetworkIs32(a, m);
    FillIs32(n, m);
    NetworkIs32(l, m);
    BareFill32(a, m, n, l);
  }

  lemma Largest32(a: bv32, m: bv32)
    ensures a <= Fill32(Network32(a, m), m)
  {
    hide *;
    var n := Network32(a, m);
    NetworkIs32(a, m);
    FillIs32(n, m);
    BareLargest32(a, m, n, Fill32(n, m));
  }

  function Network64(a: bv64, m: bv64): bv64 {
    a & !m
  }

  function Fill64(n: bv64, m: bv64): bv64 {
    n | m
  }

  function Write64(x: bv64, n: bv64, m: bv64): bv64 {
    (x & m) | n
  }

  lemma NetworkIs64(a: bv64, m: bv64)
    ensures Network64(a, m) == a & !m
  {
  }

  lemma FillIs64(n: bv64, m: bv64)
    ensures Fill64(n, m) == n | m
  {
  }

  lemma WriteIs64(x: bv64, n: bv64, m: bv64)
    ensures Write64(x, n, m) == (x & m) | n
  {
  }

  lemma BareWrite64(x: bv64, a: bv64, m: bv64, n: bv64, r: bv64)
    requires n == a & !m && r == (x & m) | n
    ensures r & !m == n
  {
  }

  lemma BareFill64(a: bv64, m: bv64, n: bv64, l: bv64)
    requires n == a & !m && l == n | m
    ensures l & !m == n
  {
  }

  // Writing under the mask and filling the mask leave the rest alone.
  lemma Writing64(x: bv64, a: bv64, m: bv64)
    ensures Network64(Write64(x, Network64(a, m), m), m) == Network64(a, m)
  {
    hide *;
    var n := Network64(a, m);
    var r := Write64(x, n, m);
    NetworkIs64(a, m);
    WriteIs64(x, n, m);
    NetworkIs64(r, m);
    BareWrite64(x, a, m, n, r);
  }

  lemma Filling64(a: bv64, m: bv64)
    ensures Network64(Fill64(Network64(a, m), m), m) == Network64(a, m)
  {
    hide *;
    var n := Network64(a, m);
    var l := Fill64(n, m);
    NetworkIs64(a, m);
    FillIs64(n, m);
    NetworkIs64(l, m);
    BareFill64(a, m, n, l);
  }

  function Network128(a: bv128, m: bv128): bv128 {
    a & !m
  }

  function Fill128(n: bv128, m: bv128): bv128 {
    n | m
  }

  lemma NetworkIs128(a: bv128, m: bv128)
    ensures Network128(a, m) == a & !m
  {
  }

  lemma FillIs128(n: bv128, m: bv128)
    ensures Fill128(n, m) == n | m
  {
  }

  lemma BareLargest128(a: bv128, m: bv128, n: bv128, l: bv128)
    requires n == a & !m && l == n | m
    ensures a <= l
  {
  }

  predicate AtMost128(x: bv128, y: bv128) {
    x <= y
  }

  lemma AtMostIs128(x: bv128, y: bv128)
    ensures AtMost128(x, y) <==> x <= y
  {
  }

  lemma Largest128(a: bv128, m: bv128)
    ensures AtMost128(a, Fill128(Network128(a, m), m))
  {
    hide *;
    var n := Network128(a, m);
    NetworkIs128(a, m);
    FillIs128(n, m);
    BareLargest128(a, m, n, Fill128(n, m));
    AtMostIs128(a, Fill128(n, m));
  }

  // ----- IPv4 -----

  // A number below the mask, or zero when the mask is empty: what the random source returns.
  predicate Below(x: bv32, m: bv32) {
    if m > 0 then x < m else x == 0
  }

  function Host(a: bv32, m: bv32): bv32 {
    a & m
  }

  lemma BelowIs(x: bv32, m: bv32)
    ensures Below(x, m) == if m > 0 then x < m else x == 0
  {
  }

  lemma HostIs(a: bv32, m: bv32)
    ensures Host(a, m) == a & m
  {
  }

  lemma BareNotLast(x: bv32, a: bv32, m: bv32, n: bv32, r: bv32, l: bv32)
    requires n == a & !m && r == (x & m) | n && l == n | m && x < m
    ensures r != l
  {
  }

  lemma BareRebuild(a: bv32, m: bv32, n: bv32, x: bv32)
    requires n == a & !m && x == a & m
    ensures (x & m) | n == a
  {
  }

  lemma BareBelow(a: bv32, m: bv32, n: bv32)
    requires n == a & !m && a != n | m
    ensures a & m < m
  {
  }

  lemma BareEmpty(a: bv32, m: bv32, x: bv32)
    requires x == a & m && m == 0
    ensures x == 0
  {
  }

  // A number below the mask never fills it.
  lemma NotLast(x: bv32, a: bv32, m: bv32)
    requires Below(x, m) && m > 0
    ensures Write32(x, Network32(a, m), m) != Fill32(Network32(a, m), m)
  {
    hide *;
    var n := Network32(a, m);
    NetworkIs32(a, m);
    BelowIs(x, m);
    WriteIs32(x, n, m);
    FillIs32(n, m);
    BareNotLast(x, a, m, n, Write32(x, n, m), Fill32(n, m));
  }

  lemma Rebuild(a: bv32, m: bv32)
    ensures Write32(Host(a, m), Network32(a, m), m) == a
  {
    hide *;
    var n, x := Network32(a, m), Host(a, m);
    NetworkIs32(a, m);
    HostIs(a, m);
    WriteIs32(x, n, m);
    BareRebuild(a, m, n, x);
  }

  lemma HostIsBelow(a: bv32, m: bv32)
    requires m == 0 || a != Fill32(Network32(a, m), m)
    ensures Below(Host(a, m), m)
  {
    hide *;
    var n, x := Network32(a, m), Host(a, m);
    HostIs(a, m);
    BelowIs(x, m);
    if m > 0 {
      NetworkIs32(a, m);
      FillIs32(n, m);
      BareBelow(a, m, n);
    } else {
      BareEmpty(a, m, x);
    }
  }

  function HostMask4(bits: bv8): bv32
    requires bits <= 32
  {
    0xFFFF_FFFF >> bits
  }

  function Masked4(p: Prefix4): IPv4
    requires p.bits <= 32
  {
    Network32(p.addr, HostMask4(p.bits))
  }

  predicate In4(p: Prefix4, a: IPv4)
    requires p.bits <= 32
  {
    Network32(a, HostMask4(p.bits)) == Masked4(p)
  }

  predicate Draw4(p: Prefix4, x: bv32)
    requires p.bits <= 32
  {
    Below(x, HostMask4(p.bits))
  }

  function RandomAddrIPv4(p: Prefix4, x: bv32): IPv4
    requires p.bits <= 32
  {
    Write32(x, Masked4(p), HostMask4(p.bits))
  }

  function LastPrefixIPv4(p: Prefix4): IPv4
    requires p.bits <= 32
  {
    Fill32(Masked4(p), HostMask4(p.bits))
  }

  predicate IsZeroEnding4(a: IPv4) {
    a & 0xFF == 0
  }

  lemma FullLength4(bits: bv8)
    requires bits <= 32
    ensures HostMask4(bits) > 0 <==> bits < 32
    ensures HostMask4(bits) == 0 <==> bits == 32
  {
  }

  // The addresses that can be drawn are those of the prefix, its last one excepted unless
  // it is the only one.
  lemma RandomIPv4Range(p: Prefix4, a: IPv4)
    requires p.bits <= 32
    ensures (exists x :: Draw4(p, x) && RandomAddrIPv4(p, x) == a) <==>
            In4(p, a) && (p.bits == 32 || a != LastPrefixIPv4(p))
  {
    hide HostMask4, Network32, Fill32, Write32, Host, Below;
    var m := HostMask4(p.bits);
    FullLength4(p.bits);
    if x :| Draw4(p, x) && RandomAddrIPv4(p, x) == a {
      Writing32(x, p.addr, m);
      if p.bits < 32 {
        NotLast(x, p.addr, m);
      }
    }
    if In4(p, a) && (p.bits == 32 || a != LastPrefixIPv4(p)) {
      Rebuild(a, m);
      HostIsBelow(a, m);
      assert Draw4(p, Host(a, m)) && RandomAddrIPv4(p, Host(a, m)) == a;
    }
  }

  // The last address is in the prefix and the largest of it.
  lemma LastIPv4IsLargest(p: Prefix4, a: IPv4)
    requires p.bits <= 32
    ensures In4(p, LastPrefixIPv4(p))
    ensures In4(p, a) ==> a <= LastPrefixIPv4(p)
  {
    hide HostMask4, Network32, Fill32;
    Filling32(p.addr, HostMask4(p.bits));
    Largest32(a, HostMask4(p.bits));
  }

  // ----- IPv6, in two halves -----

  const ONES: bv64 := 0xFFFF_FFFF_FFFF_FFFF

  // Keeps a 63-bit random source from being asked for a negative bound.
  const CORRECTION: bv64 := 0x7FFF_FFFF_FFFF_FFFF

  function LoMask(bits: bv8): bv64
    requires bits <= 128
  {
    if bits > 64 then ONES >> (bits - 64) else ONES
  }

  function HiMask(bits: bv8): bv64
    requires bits <= 128
  {
    if bits < 64 then ONES >> bits else 0
  }

  function Masked6(p: Prefix6): IPv6
    requires p.bits <= 128
  {
    IPv6(Network64(p.addr.hi, HiMask(p.bits)), Network64(p.addr.lo, LoMask(p.bits)))
  }

  // A draw for one half: a number below the bound, taken negative or replaced by zero.
  datatype Draw = Draw(r: bv64, negative: bool)

  predicate Draw6(mask: bv64, d: Draw) {
    mask > 0 ==> d.r < mask & CORRECTION
  }

  // The number that is cut down to the mask.
  function Drawn(mask: bv64, d: Draw): bv64 {
    if mask > 0 && d.negative then 0 - d.r else 0
  }

  function RandomFrom8(half: bv64, mask: bv64, d: Draw): bv64 {
    Write64(Drawn(mask, d), half, mask)
  }

  function RandomAddrIPv6(p: Prefix6, lo: Draw, hi: Draw): IPv6
    requires p.bits <= 128
  {
    var m := Masked6(p);
    IPv6(if p.bits < 64 then RandomFrom8(m.hi, HiMask(p.bits), hi) else m.hi, RandomFrom8(m.lo, LoMask(p.bits), lo))
  }

  function LastPrefixIPv6(p: Prefix6): IPv6
    requires p.bits <= 128
  {
    var m := Masked6(p);
    IPv6(if p.bits < 64 then Fill64(m.hi, HiMask(p.bits)) else m.hi, Fill64(m.lo, LoMask(p.bits)))
  }

  predicate IsZeroEnding6(a: IPv6) {
    a.lo & 0xFFFF == 0
  }

  // The bound given to the random source is never zero where a draw is made.
  lemma BoundIsPositive(bits: bv8)
    requires bits <= 128
    ensures LoMask(bits) > 0 ==> LoMask(bits) & CORRECTION > 0
    ensures HiMask(bits) > 0 ==> HiMask(bits) & CORRECTION > 0
    ensures LoMask(bits) == 0 <==> bits == 128
  {
  }

  lemma NoHiMask(bits: bv8, a: bv64)
    requires 64 <= bits <= 128
    ensures HiMask(bits) == 0 && Fill64(a, 0) == a && Network64(a, 0) == a
  {
  }

  // ----- the same on 128 bits -----

  function Join(hi: bv64, lo: bv64): bv128 {
    ((hi as bv128) << 64) | (lo as bv128)
  }

  function Num(a: IPv6): bv128 {
    Join(a.hi, a.lo)
  }

  function HostMask6(bits: bv8): bv128
    requires bits <= 128
  {
    0xFFFF_FFFF_FFFF_FFFF_FFFF_FFFF_FFFF_FFFF >> bits
  }

  predicate In6(p: Prefix6, a: IPv6)
    requires p.bits <= 128
  {
    Network128(Num(a), HostMask6(p.bits)) == Network128(Num(p.addr), HostMask6(p.bits))
  }

  lemma MaskHalves(bits: bv8)
    requires bits <= 128
    ensures Join(HiMask(bits), LoMask(bits)) == HostMask6(bits)
  {
  }

  lemma NetworkHalves(a: bv64, b: bv64, c: bv64, d: bv64)
    ensures Network128(Join(a, b), Join(c, d)) == Join(Network64(a, c), Network64(b, d))
  {
  }

  lemma FillHalves(a: bv64, b: bv64, c: bv64, d: bv64)
    ensures Fill128(Join(a, b), Join(c, d)) == Join(Fill64(a, c), Fill64(b, d))
  {
  }

  // The halves of a joined word.
  function Upper(x: bv128): bv64 {
    ((x >> 64) & 0xFFFF_FFFF_FFFF_FFFF) as bv64
  }

  function Lower(x: bv128): bv64 {
    (x & 0xFFFF_FFFF_FFFF_FFFF) as bv64
  }

  lemma UpperOfJoin(a: bv64, b: bv64)
    ensures Upper(Join(a, b)) == a
  {
  }

  lemma LowerOfJoin(a: bv64, b: bv64)
    ensures Lower(Join(a, b)) == b
  {
  }

  lemma JoinInjective(a: bv64, b: bv64, c: bv64, d: bv64)
    ensures Join(a, b) == Join(c, d) ==> a == c && b == d
  {
    hide *;
    UpperOfJoin(a, b);
    UpperOfJoin(c, d);
    LowerOfJoin(a, b);
    LowerOfJoin(c, d);
  }

  // Membership half by half.
  lemma InHalves(p: Prefix6, a: IPv6)
    requires p.bits <= 128
    ensures In6(p, a) <==> (&& Network64(a.hi, HiMask(p.bits)) == Network64(p.addr.hi, HiMask(p.bits))
                            && Network64(a.lo, LoMask(p.bits)) == Network64(p.addr.lo, LoMask(p.bits)))
  {
    hide Join, HiMask, LoMask, HostMask6, Network64, Network128;
    var h, l := HiMask(p.bits), LoMask(p.bits);
    MaskHalves(p.bits);
    NetworkHalves(a.hi, a.lo, h, l);
    NetworkHalves(p.addr.hi, p.addr.lo, h, l);
    JoinInjective(Network64(a.hi, h), Network64(a.lo, l), Network64(p.addr.hi, h), Network64(p.addr.lo, l));
  }

  // For every prefix length, every draw gives an address inside the prefix.
  lemma RandomIPv6InPrefix(p: Prefix6, lo: Draw, hi: Draw)
    requires p.bits <= 128
    ensures In6(p, RandomAddrIPv6(p, lo, hi))
  {
    hide In6, HiMask, LoMask, Drawn, Network64, Write64;
    InHalves(p, RandomAddrIPv6(p, lo, hi));
    Writing64(Drawn(HiMask(p.bits), hi), p.addr.hi, HiMask(p.bits));
    Writing64(Drawn(LoMask(p.bits), lo), p.addr.lo, LoMask(p.bits));
    if p.bits >= 64 {
      NoHiMask(p.bits, p.addr.hi);
    }
  }

  // The last address as a 128-bit number.
  lemma LastNumber(p: Prefix6)
    requires p.bits <= 128
    ensures Num(LastPrefixIPv6(p)) == Fill128(Network128(Num(p.addr), HostMask6(p.bits)), HostMask6(p.bits))
  {
    hide Join, HiMask, LoMask, HostMask6, Network64, Network128, Fill64, Fill128;
    var h, l := HiMask(p.bits), LoMask(p.bits);
    MaskHalves(p.bits);
    NetworkHalves(p.addr.hi, p.addr.lo, h, l);
    FillHalves(Network64(p.addr.hi, h), Network64(p.addr.lo, l), h, l);
    if p.bits >= 64 {
      NoHiMask(p.bits, Network64(p.addr.hi, h));
    }
  }

  lemma LastIsInside6(p: Prefix6)
    requires p.bits <= 128
    ensures In6(p, LastPrefixIPv6(p))
  {
    hide In6, HiMask, LoMask, Network64, Fill64;
    InHalves(p, LastPrefixIPv6(p));
    Filling64(p.addr.hi, HiMask(p.bits));
    Filling64(p.addr.lo, LoMask(p.bits));
    if p.bits >= 64 {
      NoHiMask(p.bits, p.addr.hi);
    }
  }

  lemma In6Is(p: Prefix6, a: IPv6)
    requires p.bits <= 128
    ensures In6(p, a) <==> Network128(Num(a), HostMask6(p.bits)) == Network128(Num(p.addr), HostMask6(p.bits))
  {
    hide Num, HostMask6, Network128;
  }

  // The last address is in the prefix and, as a 128-bit number, the largest of it.
  lemma LastIPv6IsLargest(p: Prefix6, a: IPv6)
    requires p.bits <= 128
    ensures In6(p, LastPrefixIPv6(p))
    ensures In6(p, a) ==> AtMost128(Num(a), Num(LastPrefixIPv6(p)))
  {
    hide *;
    LastIsInside6(p);
    LastNumber(p);
    In6Is(p, a);
    Largest128(Num(a), HostMask6(p.bits));
  }
}

// The address functions as they are carried out: big-endian halves read from a byte string,
// combined under a mask, and written into a byte buffer.

module NetBytes {
  import opened Brigade
  import N = Net

  type Bytes = seq<bv8>

  // ----- big-endian words -----

  function Bytes32(w: bv32): (s: Bytes)
    ensures |s| == 4
  {
    [((w >> 24) & 0xFF) as bv8, ((w >> 16) & 0xFF) as bv8, ((w >> 8) & 0xFF) as bv8, (w & 0xFF) as bv8]
  }

  function Uint32(s: Bytes): bv32
    requires |s| == 4
  {
    ((s[0] as bv32) << 24) | ((s[1] as bv32) << 16) | ((s[2] as bv32) << 8) | (s[3] as bv32)
  }

  function Bytes64(w: bv64): (s: Bytes)
    ensures |s| == 8
  {
    Bytes32(((w >> 32) & 0xFFFF_FFFF) as bv32) + Bytes32((w & 0xFFFF_FFFF) as bv32)
  }

  function Uint64(s: Bytes): bv64
    requires |s| == 8
  {
    ((Uint32(s[..4]) as bv64) << 32) | (Uint32(s[4..]) as bv64)
  }

  // An address as its bytes.
  function Bytes128(a: IPv6): (s: Bytes)
    ensures |s| == 16
  {
    Bytes64(a.hi) + Bytes64(a.lo)
  }

  lemma BareWord32(w: bv32, a: bv8, b: bv8, c: bv8, d: bv8)
    requires a == ((w >> 24) & 0xFF) as bv8 && b == ((w >> 16) & 0xFF) as bv8
    requires c == ((w >> 8) & 0xFF) as bv8 && d == (w & 0xFF) as bv8
    ensures ((a as bv32) << 24) | ((b as bv32) << 16) | ((c as bv32) << 8) | (d as bv32) == w
  {
  }

  lemma BareWord64(w: bv64, a: bv32, b: bv32)
    requires a == ((w >> 32) & 0xFFFF_FFFF) as bv32 && b == (w & 0xFFFF_FFFF) as bv32
    ensures ((a as bv64) << 32) | (b as bv64) == w
  {
  }

  // Reading back what was written.
  lemma Uint32OfBytes(w: bv32)
    ensures Uint32(Bytes32(w)) == w
  {
    var s := Bytes32(w);
    BareWord32(w, s[0], s[1], s[2], s[3]);
  }

  lemma Uint64OfBytes(w: bv64)
    ensures Uint64(Bytes64(w)) == w
  {
    var a, b := ((w >> 32) & 0xFFFF_FFFF) as bv32, (w & 0xFFFF_FFFF) as bv32;
    var s := Bytes64(w);
    Uint32OfBytes(a);
    Uint32OfBytes(b);
    hide Bytes32, Uint32;
    assert s[..4] == Bytes32(a) && s[4..] == Bytes32(b);
    BareWord64(w, a, b);
  }

  // ----- writing into a buffer -----

  method PutUint32(buf: array<bv8>, w: bv32)
    requires buf.Length == 4
    modifies buf
    ensures buf[..] == Bytes32(w)
  {
    buf[0], buf[1] := ((w >> 24) & 0xFF) as bv8, ((w >> 16) & 0xFF) as bv8;
    buf[2], buf[3] := ((w >> 8) & 0xFF) as bv8, (w & 0xFF) as bv8;
  }

  // Copies bytes to a place in the buffer.
  method Copy(buf: array<bv8>, at: nat, s: Bytes)
    requires at + |s| <= buf.Length
    modifies buf
    ensures buf[at..at + |s|] == s
    ensures buf[..at] == old(buf[..at]) && buf[at + |s|..] == old(buf[at + |s|..])
  {
    for k := 0 to |s|
      invariant buf[at..at + k] == s[..k]
      invariant buf[..at] == old(buf[..at]) && buf[at + |s|..] == old(buf[at + |s|..])
    {
      buf[at + k] := s[k];
      assert buf[at..at + k + 1] == buf[at..at + k] + [s[k]];
    }
  }

  // The random word of one half, cut to the mask, beside the network.
  method DrawHalf(addr: bv64, mask: bv64, d: N.Draw) returns (w: bv64)
    ensures w == N.RandomFrom8(addr, mask, d)
  {
    hide N.Write64;
    var x: bv64 := 0;
    if mask > 0 {
      x := if d.negative then 0 - d.r else 0;
    }
    w := N.Write64(x, addr, mask);
  }

  method RandomFrom8(src: Bytes, buf: array<bv8>, at: nat, mask: bv64, d: N.Draw)
    requires |src| == 8 && at + 8 <= buf.Length
    modifies buf
    ensures buf[at..at + 8] == Bytes64(N.RandomFrom8(Uint64(src), mask, d))
    ensures buf[..at] == old(buf[..at]) && buf[at + 8..] == old(buf[at + 8..])
  {
    hide Bytes64, Uint64, N.RandomFrom8;
    var w := DrawHalf(Uint64(src), mask, d);
    Copy(buf, at, Bytes64(w));
  }

  // ----- the functions -----

  method RandomAddrIPv4(p: Prefix4, x: bv32) returns (buf: array<bv8>)
    requires p.bits <= 32
    ensures fresh(buf) && buf[..] == Bytes32(N.RandomAddrIPv4(p, x))
  {
    hide Bytes32, N.HostMask4, N.Network32;
    buf := new bv8[4];
    var m := N.HostMask4(p.bits);
    PutUint32(buf, (x & m) | N.Masked4(p));
  }

  method LastPrefixIPv4(p: Prefix4) returns (buf: array<bv8>)
    requires p.bits <= 32
    ensures fresh(buf) && buf[..] == Bytes32(N.LastPrefixIPv4(p))
  {
    hide Bytes32, N.HostMask4, N.Network32;
    buf := new bv8[4];
    PutUint32(buf, N.Masked4(p) | N.HostMask4(p.bits));
  }

  // The low half first, then the high half: drawn, or copied when the prefix covers it.
  method RandomAddrIPv6(p: Prefix6, lo: N.Draw, hi: N.Draw) returns (buf: array<bv8>)
    requires p.bits <= 128
    ensures fresh(buf) && buf[..] == Bytes128(N.RandomAddrIPv6(p, lo, hi))
  {
    hide Bytes64, Uint64, N.LoMask, N.HiMask, N.Network64, N.RandomFrom8;
    buf := new bv8[16];
    var mp := N.Masked6(p);
    var s := Bytes128(mp);
    Halves(mp);
    RandomFrom8(s[8..], buf, 8, N.LoMask(p.bits), lo);
    if p.bits < 64 {
      RandomFrom8(s[..8], buf, 0, N.HiMask(p.bits), hi);
    } else {
      Copy(buf, 0, s[..8]);
    }
    assert buf[..] == buf[..8] + buf[8..];
  }

  method LastPrefixIPv6(p: Prefix6) returns (buf: array<bv8>)
    requires p.bits <= 128
    ensures fresh(buf) && buf[..] == Bytes128(N.LastPrefixIPv6(p))
  {
    hide Bytes64, Uint64, N.LoMask, N.HiMask, N.Network64, N.Fill64;
    buf := new bv8[16];
    var mp := N.Masked6(p);
    var s := Bytes128(mp);
    Halves(mp);
    Copy(buf, 8, Bytes64(N.Fill64(Uint64(s[8..]), N.LoMask(p.bits))));
    if p.bits < 64 {
      Copy(buf, 0, Bytes64(N.Fill64(Uint64(s[..8]), N.HiMask(p.bits))));
    } else {
      Copy(buf, 0, s[..8]);
    }
    assert buf[..] == buf[..8] + buf[8..];
  }

  // The halves read from the bytes of an address.
  lemma Halves(a: IPv6)
    ensures Bytes128(a)[..8] == Bytes64(a.hi) && Uint64(Bytes128(a)[..8]) == a.hi
    ensures Bytes128(a)[8..] == Bytes64(a.lo) && Uint64(Bytes128(a)[8..]) == a.lo
  {
    hide Bytes64, Uint64;
    Uint64OfBytes(a.hi);
    Uint64OfBytes(a.lo);
  }

  // The test for a last part of zeroes looks at the last two bytes.
  lemma ZeroEndingBytes4(a: IPv4)
    ensures N.IsZeroEnding4(a) <==> Bytes32(a)[3] == 0
  {
    BareZeroByte(a, Bytes32(a)[3]);
  }

  lemma BareZeroByte(w: bv32, a: bv8)
    requires a == (w & 0xFF) as bv8
    ensures w & 0xFF == 0 <==> a == 0
  {
  }

  lemma ZeroEndingBytes6(a: IPv6)
    ensures N.IsZeroEnding6(a) <==> Bytes128(a)[14] == 0 && Bytes128(a)[15] == 0
  {
    LastBytes64(a.lo);
    BareZeroEnding(a.lo, Bytes64(a.lo)[6], Bytes64(a.lo)[7]);
    hide Bytes64;
  }

  lemma LastBytes64(w: bv64)
    ensures Bytes64(w)[6] == ((w >> 8) & 0xFF) as bv8 && Bytes64(w)[7] == (w & 0xFF) as bv8
  {
    BareLastBytes(w, (w & 0xFFFF_FFFF) as bv32);
  }

  lemma BareLastBytes(w: bv64, b: bv32)
    requires b == (w & 0xFFFF_FFFF) as bv32
    ensures ((b >> 8) & 0xFF) as bv8 == ((w >> 8) & 0xFF) as bv8 && (b & 0xFF) as bv8 == (w & 0xFF) as bv8
  {
  }

  lemma BareZeroEnding(w: bv64, a: bv8, b: bv8)
    requires a == ((w >> 8) & 0xFF) as bv8 && b == (w & 0xFF) as bv8
    ensures w & 0xFFFF == 0 <==> a == 0 && b == 0
  {
  }
}

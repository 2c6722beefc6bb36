// Display names: a number blurred out of the user's address, padded to three digits, a
// space, and the full name.

module Names {
  import opened Brigade
  import opened Net

  // ----- the number -----

  function BlurIpv4Addr(a: IPv4, bits: bv8, salt: bv32): bv32
    requires bits <= 32
  {
    (a ^ salt) & HostMask4(bits)
  }

  lemma BareBlur(a: bv32, b: bv32, salt: bv32, m: bv32)
    requires a & !m == b & !m && (a ^ salt) & m == (b ^ salt) & m
    ensures a == b
  {
  }

  lemma BlurIs(a: IPv4, bits: bv8, salt: bv32, m: bv32)
    requires bits <= 32 && m == HostMask4(bits)
    ensures BlurIpv4Addr(a, bits, salt) == (a ^ salt) & m
  {
    hide HostMask4;
  }

  // Whatever the salt, two addresses of one prefix never blur into one number.
  lemma BlurInjective(p: Prefix4, a: IPv4, b: IPv4, salt: bv32)
    requires p.bits <= 32 && In4(p, a) && In4(p, b)
    requires BlurIpv4Addr(a, p.bits, salt) == BlurIpv4Addr(b, p.bits, salt)
    ensures a == b
  {
    SameNetwork(p, a, b);
    hide *;
    var m := HostMask4(p.bits);
    NetworkIs32(a, m);
    NetworkIs32(b, m);
    BlurIs(a, p.bits, salt, m);
    BlurIs(b, p.bits, salt, m);
    BareBlur(a, b, salt, m);
  }

  lemma SameNetwork(p: Prefix4, a: IPv4, b: IPv4)
    requires p.bits <= 32 && In4(p, a) && In4(p, b)
    ensures Network32(a, HostMask4(p.bits)) == Network32(b, HostMask4(p.bits))
  {
    hide HostMask4, Network32;
  }

  // With the same salt the bits under the mask come back from the number.
  predicate Blurred(n: bv32, a: bv32, m: bv32, salt: bv32) {
    (n ^ salt) & m == a & m
  }

  lemma BlurComesBack(a: IPv4, bits: bv8, salt: bv32)
    requires bits <= 32
    ensures Blurred(BlurIpv4Addr(a, bits, salt), a, HostMask4(bits), salt)
  {
    hide *;
    var m := HostMask4(bits);
    BlurIs(a, bits, salt, m);
    BareBlurBack(a, m, salt, BlurIpv4Addr(a, bits, salt));
  }

  lemma BareBlurBack(a: bv32, m: bv32, salt: bv32, n: bv32)
    requires n == (a ^ salt) & m
    ensures Blurred(n, a, m, salt)
  {
  }

  // ----- its decimal rendering -----

  const DIGITS := "0123456789"

  function Digit(d: nat): char
    requires d < 10
  {
    DIGITS[d]
  }

  function Decimal(n: nat): (s: string)
    ensures s != ""
  {
    if n < 10 then [Digit(n)] else Decimal(n / 10) + [Digit(n % 10)]
  }

  // Zeroes in front up to three characters.
  function Padded(s: string): string
    decreases 3 - |s|
  {
    if |s| < 3 then Padded("0" + s) else s
  }

  predicate IsDigit(c: char) {
    '0' <= c <= '9'
  }

  predicate AllDigits(s: string) {
    forall i :: 0 <= i < |s| ==> IsDigit(s[i])
  }

  // Reading a string of digits back.
  function Value(s: string): nat
    requires AllDigits(s)
  {
    if s == "" then 0 else 10 * Value(s[..|s| - 1]) + (s[|s| - 1] - '0') as nat
  }

  lemma {:induction false} DecimalValue(n: nat)
    ensures AllDigits(Decimal(n)) && Value(Decimal(n)) == n
  {
    var s := Decimal(n);
    if n >= 10 {
      DecimalValue(n / 10);
      assert s[..|s| - 1] == Decimal(n / 10);
    }
  }

  lemma {:induction false} LeadingZero(s: string)
    requires AllDigits(s)
    ensures AllDigits("0" + s) && Value("0" + s) == Value(s)
  {
    if s != "" {
      LeadingZero(s[..|s| - 1]);
      assert ("0" + s)[..|s|] == "0" + s[..|s| - 1];
    }
  }

  lemma {:induction false} PaddedValue(s: string)
    requires AllDigits(s)
    ensures AllDigits(Padded(s)) && Value(Padded(s)) == Value(s) && |Padded(s)| >= 3
    decreases 3 - |s|
  {
    if |s| < 3 {
      LeadingZero(s);
      PaddedValue("0" + s);
    }
  }

  // ----- the name -----

  function Numbered(n: nat, fullname: string): string {
    Padded(Decimal(n)) + " " + fullname
  }

  // A name starts with digits, then a space: the number can be read back from it.
  lemma NumberIsDigits(n: nat)
    ensures AllDigits(Padded(Decimal(n))) && Value(Padded(Decimal(n))) == n && |Padded(Decimal(n))| >= 3
  {
    DecimalValue(n);
    PaddedValue(Decimal(n));
  }

  // There are more than three only if there is no zero in front.
  lemma {:induction false} NumberIsShort(n: nat)
    ensures |Padded(Decimal(n))| > 3 ==> Padded(Decimal(n))[0] != '0'
  {
    DecimalStarts(n);
    PaddedIsShort(Decimal(n));
  }

  lemma {:induction false} DecimalStarts(n: nat)
    ensures |Decimal(n)| > 1 ==> Decimal(n)[0] != '0'
  {
    if n >= 100 {
      DecimalStarts(n / 10);
    }
  }

  lemma {:induction false} PaddedIsShort(s: string)
    ensures if |s| < 3 then |Padded(s)| == 3 else Padded(s) == s
    decreases 3 - |s|
  {
    if |s| < 3 {
      PaddedIsShort("0" + s);
    }
  }

  // Two names agree only if both their numbers and their full names do.
  lemma NumberedInjective(n: nat, f: string, m: nat, g: string)
    ensures Numbered(n, f) == Numbered(m, g) <==> n == m && f == g
  {
    if Numbered(n, f) == Numbered(m, g) {
      var a, b := Padded(Decimal(n)), Padded(Decimal(m));
      NumberIsDigits(n);
      NumberIsDigits(m);
      hide Padded, Decimal, Value;
      var s := Numbered(n, f);
      assert s[|a|] == ' ' && s[|b|] == ' ';
      assert |a| == |b|;
      assert a == s[..|a|] == b;
      assert f == s[|a| + 1..] == g;
    }
  }

  function DisplayName(p: Prefix4, a: IPv4, salt: bv32, fullname: string): string
    requires p.bits <= 32
  {
    Numbered(BlurIpv4Addr(a, p.bits, salt) as nat, fullname)
  }

  lemma SameNumber(x: bv32, y: bv32)
    requires x as nat == y as nat
    ensures x == y
  {
    assert (x as nat) as bv32 == x && (y as nat) as bv32 == y;
  }

  // Names differ even when full names repeat, for any salt.
  lemma NamesAreDistinct(p: Prefix4, a: IPv4, f: string, b: IPv4, g: string, salt: bv32)
    requires p.bits <= 32 && In4(p, a) && In4(p, b)
    ensures DisplayName(p, a, salt, f) == DisplayName(p, b, salt, g) <==> a == b && f == g
  {
    hide BlurIpv4Addr, In4, Numbered;
    var x, y := BlurIpv4Addr(a, p.bits, salt), BlurIpv4Addr(b, p.bits, salt);
    NumberedInjective(x as nat, f, y as nat, g);
    if x as nat == y as nat {
      SameNumber(x, y);
      BlurInjective(p, a, b, salt);
    }
  }

  // ----- getting the full name back -----

  // strings.TrimLeft(s, "0123456789 ")
  function TrimNumber(s: string): (r: string)
    ensures r == "" || !(IsDigit(r[0]) || r[0] == ' ')
  {
    if s != "" && (IsDigit(s[0]) || s[0] == ' ') then TrimNumber(s[1..]) else s
  }

  lemma {:induction false} TrimDigits(a: string, s: string)
    requires AllDigits(a)
    ensures TrimNumber(a + s) == TrimNumber(s)
  {
    if a == "" {
      assert a + s == s;
    } else {
      assert (a + s)[1..] == a[1..] + s;
      TrimDigits(a[1..], s);
    }
  }

  // The full name comes back exactly when it does not itself start with a digit or a space.
  lemma FullNameComesBack(n: nat, fullname: string)
    ensures TrimNumber(Numbered(n, fullname)) == fullname <==>
            fullname == "" || !(IsDigit(fullname[0]) || fullname[0] == ' ')
  {
    NumberIsDigits(n);
    TrimDigits(Padded(Decimal(n)), " " + fullname);
    assert Numbered(n, fullname) == Padded(Decimal(n)) + (" " + fullname);
    assert (" " + fullname)[1..] == fullname;
  }

  // A name with a number in front never equals a full name that does not start with a digit.
  lemma NumberedIsNoFullName(n: nat, f: string, g: string)
    requires g == "" || !IsDigit(g[0])
    ensures Numbered(n, f) != g
  {
    NumberIsDigits(n);
    assert Numbered(n, f)[0] == Padded(Decimal(n))[0];
  }
}

/**
 * The part of Python's `ipaddress` the runtime checks rely on, with IPv4
 * addresses as 32-bit numbers: dotted-quad parsing (`IPv4Address(text)`,
 * including the no-leading-zero rule), the dotted-quad text of an address,
 * netmasks and hostmasks, `/p` networks, their hosts, and the special ranges
 * (`is_link_local`, `is_loopback`, …).
 */
module IPv4 {
  import opened Wrappers
  import opened Strings

  const Size: nat := 0x1_0000_0000

  /** An IPv4 address, as `int(address)`. */
  type Addr = n: nat | n < 0x1_0000_0000

  // ------------------------------------------------------------ dotted quads

  /** `_parse_octet`: one to three ASCII digits, no leading zero, at most 255. */
  function ParseOctet(s: string): (r: Option<nat>)
    ensures r.Some? ==> r.value < 256 && IsDigits(s) && 1 <= |s| <= 3
  {
    if IsDigits(s) && |s| <= 3 && (s == "0" || s[0] != '0') && ParseDigits(s) <= 255
    then Some(ParseDigits(s))
    else None
  }

  function FromOctets(a: nat, b: nat, c: nat, d: nat): nat
  {
    a * 0x100_0000 + b * 0x1_0000 + c * 0x100 + d
  }

  /** The four bytes of an address, most significant first. */
  function Octets(x: Addr): (r: seq<nat>)
    ensures |r| == 4 && forall k :: 0 <= k < 4 ==> r[k] < 256
  {
    [x / 0x100_0000, x / 0x1_0000 % 0x100, x / 0x100 % 0x100, x % 0x100]
  }

  /** `IPv4Address(s)`: exactly four '.'-separated octets; any other text is a ValueError. */
  function ParseAddress(s: string): (r: Option<Addr>)
  {
    var parts := Split(s, '.');
    if |parts| != 4 then None
    else
      match (ParseOctet(parts[0]), ParseOctet(parts[1]), ParseOctet(parts[2]), ParseOctet(parts[3]))
      case (Some(a), Some(b), Some(c), Some(d)) => Some(FromOctets(a, b, c, d))
      case _ => None
  }

  /** `str(IPv4Address(x))`: the dotted quad. */
  function Format(x: Addr): string
  {
    var o := Octets(x);
    Join([NatToString(o[0]), NatToString(o[1]), NatToString(o[2]), NatToString(o[3])], ".")
  }

  /** Euclidean division is determined by a quotient and a remainder in range. */
  lemma DivModOf(x: int, d: int, q: int, r: int)
    requires d > 0 && 0 <= r < d && x == q * d + r
    ensures x / d == q && x % d == r
  {
    var q', r' := x / d, x % d;
    assert x == q' * d + r';
    if q' < q {
      MulAtLeast(q - q', d);
    } else if q' > q {
      MulAtLeast(q' - q, d);
    }
  }

  lemma {:induction false} MulAtLeast(a: int, d: int)
    requires a >= 1 && d > 0
    ensures a * d >= d
    decreases a
  {
    if a > 1 {
      MulAtLeast(a - 1, d);
      assert a * d == (a - 1) * d + d;
    }
  }

  lemma OctetsRoundTrip(a: nat, b: nat, c: nat, d: nat)
    requires a < 256 && b < 256 && c < 256 && d < 256
    ensures FromOctets(a, b, c, d) < Size
    ensures Octets(FromOctets(a, b, c, d)) == [a, b, c, d]
  {
    var x := FromOctets(a, b, c, d);
    DivModOf(x, 0x100_0000, a, b * 0x1_0000 + c * 0x100 + d);
    DivModOf(x, 0x1_0000, a * 0x100 + b, c * 0x100 + d);
    DivModOf(a * 0x100 + b, 0x100, a, b);
    DivModOf(x, 0x100, a * 0x1_0000 + b * 0x100 + c, d);
    DivModOf(a * 0x1_0000 + b * 0x100 + c, 0x100, a * 0x100 + b, c);
  }

  lemma FromOctetsOf(x: Addr)
    ensures var o := Octets(x); FromOctets(o[0], o[1], o[2], o[3]) == x
  {
    var q1 := x / 256;
    var q2 := q1 / 256;
    var a := q2 / 256;
    assert x == q1 * 256 + x % 256;
    assert q1 == q2 * 256 + q1 % 256;
    assert q2 == a * 256 + q2 % 256;
    DivModOf(x, 0x1_0000, q2, q1 % 256 * 256 + x % 256);
    DivModOf(x, 0x100_0000, a, q2 % 256 * 0x1_0000 + q1 % 256 * 256 + x % 256);
  }

  /** The decimal text of a byte is one to three digits, so it holds no '.'. */
  lemma {:induction false} ByteText(n: nat)
    requires n < 256
    ensures 1 <= |NatToString(n)| <= 3 && '.' !in NatToString(n)
    ensures ParseOctet(NatToString(n)) == Some(n)
  {
    NatToStringRoundTrip(n);
    var s := NatToString(n);
    if n >= 10 {
      NatToStringRoundTrip(n / 10);
      if n / 10 >= 10 {
        assert NatToString(n / 10) == NatToString(n / 100) + [('0' as int + n / 10 % 10) as char];
      }
    }
    assert forall i :: 0 <= i < |s| ==> IsDigitChar(s[i]);
  }

  /** Digits without a leading zero are the decimal text of their value. */
  lemma {:induction false} CanonicalDigits(s: string)
    requires IsDigits(s) && (s == "0" || s[0] != '0')
    ensures NatToString(ParseDigits(s)) == s
    decreases |s|
  {
    if |s| == 1 {
      assert ParseDigits(s) == 10 * ParseDigits(s[..0]) + DigitValue(s[0]);
    } else {
      var init := s[..|s| - 1];
      assert init[0] == s[0];
      assert IsDigits(init) by {
        assert forall i :: 0 <= i < |init| ==> init[i] == s[i];
      }
      CanonicalDigits(init);
      LeadingDigitPositive(init);
      var n := ParseDigits(s);
      assert n == 10 * ParseDigits(init) + DigitValue(s[|s| - 1]);
      assert n / 10 == ParseDigits(init) && n % 10 == DigitValue(s[|s| - 1]);
      assert s == init + [s[|s| - 1]];
    }
  }

  lemma {:induction false} LeadingDigitPositive(s: string)
    requires IsDigits(s) && s[0] != '0'
    ensures ParseDigits(s) >= 1
    decreases |s|
  {
    if |s| > 1 {
      var init := s[..|s| - 1];
      assert init[0] == s[0];
      assert IsDigits(init) by {
        assert forall i :: 0 <= i < |init| ==> init[i] == s[i];
      }
      LeadingDigitPositive(init);
    }
  }

  /** An octet the parser accepts is the decimal text of its value. */
  lemma OctetCanonical(s: string)
    requires ParseOctet(s).Some?
    ensures NatToString(ParseOctet(s).value) == s
  {
    CanonicalDigits(s);
  }

  /** Parsing the dotted quad of an address gives the address back. */
  lemma FormatParses(x: Addr)
    ensures ParseAddress(Format(x)) == Some(x)
  {
    var o := Octets(x);
    var parts := [NatToString(o[0]), NatToString(o[1]), NatToString(o[2]), NatToString(o[3])];
    ByteText(o[0]);
    ByteText(o[1]);
    ByteText(o[2]);
    ByteText(o[3]);
    JoinSplit(parts, '.');
    FromOctetsOf(x);
  }

  /** A text the parser accepts is the dotted quad of its value: the notation is canonical. */
  lemma ParsedIsFormat(s: string)
    requires ParseAddress(s).Some?
    ensures Format(ParseAddress(s).value) == s
  {
    var parts := Split(s, '.');
    var a, b, c, d := ParseOctet(parts[0]).value, ParseOctet(parts[1]).value,
                      ParseOctet(parts[2]).value, ParseOctet(parts[3]).value;
    OctetsRoundTrip(a, b, c, d);
    OctetCanonical(parts[0]);
    OctetCanonical(parts[1]);
    OctetCanonical(parts[2]);
    OctetCanonical(parts[3]);
    SplitJoin(s, '.');
    assert parts == [parts[0], parts[1], parts[2], parts[3]];
  }

  // ---------------------------------------------------------------- networks

  function Pow2(n: nat): (r: nat)
    ensures r >= 1
  {
    if n == 0 then 1 else 2 * Pow2(n - 1)
  }

  lemma {:induction false} Pow2Monotone(m: nat, n: nat)
    requires m < n
    ensures Pow2(m) < Pow2(n)
    decreases n
  {
    if m < n - 1 {
      Pow2Monotone(m, n - 1);
    }
  }

  lemma {:induction false} Pow2Add(m: nat, n: nat)
    ensures Pow2(m + n) == Pow2(m) * Pow2(n)
    decreases n
  {
    if n > 0 {
      Pow2Add(m, n - 1);
      assert Pow2(m + n) == 2 * Pow2(m + n - 1);
    }
  }

  lemma Pow2Bound(n: nat)
    requires n <= 32
    ensures Pow2(n) <= Size
  {
    assert Pow2(4) == 16;
    Pow2Add(4, 4);
    assert Pow2(8) == 16 * 16;
    Pow2Add(8, 8);
    assert Pow2(16) == 256 * 256;
    Pow2Add(16, 16);
    assert Pow2(32) == 65536 * 65536;
    if n < 32 {
      Pow2Monotone(n, 32);
    }
  }

  /** The netmask of a `/p` network: `p` one bits, then zeros. */
  function PrefixMask(p: nat): (m: Addr)
    requires p <= 32
  {
    Pow2Bound(32 - p);
    Size - Pow2(32 - p)
  }

  /** The first `q >= p` whose netmask is `m`. */
  function FindPrefix(m: Addr, p: nat): (r: Option<nat>)
    requires p <= 33
    ensures r.Some? ==> p <= r.value <= 32 && PrefixMask(r.value) == m
    decreases 33 - p
  {
    if p == 33 then None
    else if PrefixMask(p) == m then Some(p)
    else FindPrefix(m, p + 1)
  }

  /**
   * `_prefix_from_ip_string` on a dotted quad: the prefix length when it is a
   * netmask, else when its complement is (a hostmask), else None.
   */
  function MaskPrefix(m: Addr): (r: Option<nat>)
    ensures r.Some? ==> r.value <= 32 && (PrefixMask(r.value) == m || PrefixMask(r.value) == Size - 1 - m)
  {
    match FindPrefix(m, 0)
    case Some(p) => Some(p)
    case None => FindPrefix(Size - 1 - m, 0)
  }

  lemma {:induction false} FindPrefixOfMask(q: nat, p: nat)
    requires p <= q <= 32
    ensures FindPrefix(PrefixMask(q), p) == Some(q)
    decreases q - p
  {
    if p < q {
      Pow2Monotone(32 - q, 32 - p);
      FindPrefixOfMask(q, p + 1);
    }
  }

  /** The netmask of a `/p` network reads back as prefix `p`. */
  lemma MaskPrefixOfMask(p: nat)
    requires p <= 32
    ensures MaskPrefix(PrefixMask(p)) == Some(p)
  {
    FindPrefixOfMask(p, 0);
  }

  /** `address & netmask` for a `/p` network. */
  function NetworkOf(x: Addr, p: nat): (n: Addr)
    requires p <= 32
    ensures n <= x && x - n < Pow2(32 - p)
  {
    var d := Pow2(32 - p);
    DivFloor(x, d);
    x / d * d
  }

  lemma DivFloor(x: nat, d: nat)
    requires d > 0
    ensures 0 <= x / d * d <= x < x / d * d + d
  {
    var q := x / d;
    assert x == q * d + x % d;
    MulNonNegative(q, d);
  }

  lemma MulNonNegative(a: nat, b: nat)
    ensures a * b >= 0
  {
  }

  /** `broadcast_address` of the `/p` network at `net`. */
  function Broadcast(net: Addr, p: nat): int
    requires p <= 32
  {
    net + Pow2(32 - p) - 1
  }

  /** `x in IPv4Network(net/p)`. */
  predicate InNetwork(x: Addr, net: Addr, p: nat)
    requires p <= 32
  {
    NetworkOf(x, p) == net
  }

  /**
   * `list(network.hosts())` as a closed interval: every address but the
   * network and broadcast ones, except that a /31 has both its addresses and
   * a /32 its single one.
   */
  function Hosts(net: Addr, p: nat): (r: (int, int))
    requires p <= 32
  {
    if p == 32 then (net, net)
    else if p == 31 then (net, net + 1)
    else (net + 1, Broadcast(net, p) - 1)
  }

  predicate IsLinkLocal(x: int) { x / 0x1_0000 == 169 * 256 + 254 }
  predicate IsLoopback(x: int) { x / 0x100_0000 == 127 }
  predicate IsMulticast(x: int) { 224 <= x / 0x100_0000 < 240 }
  predicate IsReserved(x: int) { 240 <= x / 0x100_0000 }
  predicate IsUnspecified(x: int) { x == 0 }

  /** The mask text of `IPv4Network("a.b.c.d/<mask>")`: a prefix length, a netmask or a hostmask. */
  function ParseMaskText(t: string): (r: Option<nat>)
    ensures r.Some? ==> r.value <= 32
  {
    if IsDigits(t) && ParseDigits(t) <= 32 then Some(ParseDigits(t))
    else
      match ParseAddress(t)
      case None => None
      case Some(m) => MaskPrefix(m)
  }

  /**
   * `IPv4Network(s)` with `strict=True`: an address, optionally '/' and a
   * mask, and no host bits set; the network address and prefix length.
   */
  function ParseNetwork(s: string): (r: Option<(Addr, nat)>)
    ensures r.Some? ==> r.value.1 <= 32 && NetworkOf(r.value.0, r.value.1) == r.value.0
  {
    var parts := Split(s, '/');
    if |parts| > 2 then None
    else
      match ParseAddress(parts[0])
      case None => None
      case Some(a) =>
        match (if |parts| == 1 then Some(32) else ParseMaskText(parts[1]))
        case None => None
        case Some(p) => if NetworkOf(a, p) != a then None else Some((a, p))
  }

  /** The `/p` network of an address contains it, and the network address is one of its own. */
  lemma NetworkContains(x: Addr, p: nat)
    requires p <= 32
    ensures InNetwork(x, NetworkOf(x, p), p)
    ensures NetworkOf(x, p) <= x <= Broadcast(NetworkOf(x, p), p)
  {
    var d := Pow2(32 - p);
    var n := NetworkOf(x, p);
    DivModOf(n, d, x / d, 0);
  }

  // ------------------------------------------------------------ /24 networks

  /** The first three bytes of an address as dotted text, "a.b.c". */
  function Prefix24(x: Addr): string
  {
    var o := Octets(x);
    Join([NatToString(o[0]), NatToString(o[1]), NatToString(o[2])], ".")
  }

  /** The dotted quad is the /24 prefix, a dot, and the last byte. */
  lemma FormatSplit(x: Addr)
    ensures Format(x) == Prefix24(x) + "." + NatToString(x % 256)
    ensures '.' !in NatToString(x % 256)
  {
    var o := Octets(x);
    JoinLast(NatToString(o[0]), NatToString(o[1]), NatToString(o[2]), NatToString(o[3]));
    ByteText(o[3]);
  }

  lemma JoinLast(a: string, b: string, c: string, d: string)
    ensures Join([a, b, c, d], ".") == Join([a, b, c], ".") + "." + d
  {
    assert [a, b, c, d][1..] == [b, c, d] && [b, c, d][1..] == [c, d] && [c, d][1..] == [d];
    assert [a, b, c][1..] == [b, c] && [b, c][1..] == [c];
    assert Join([c, d], ".") == c + "." + d;
    assert Join([b, c, d], ".") == b + "." + (c + "." + d);
    assert Join([a, b, c, d], ".") == a + "." + (b + "." + (c + "." + d));
    assert Join([b, c], ".") == b + "." + c;
    assert Join([a, b, c], ".") == a + "." + (b + "." + c);
  }

  /** Dividing by 256 twice is dividing by 2^16; once more, by 2^24. */
  lemma DivBy256(x: nat)
    ensures x / 0x1_0000 == x / 256 / 256
    ensures x / 0x100_0000 == x / 256 / 0x1_0000
  {
    var q1 := x / 256;
    assert x == q1 * 256 + x % 256;
    assert q1 == q1 / 256 * 256 + q1 % 256;
    assert q1 == q1 / 0x1_0000 * 0x1_0000 + q1 % 0x1_0000;
    DivModOf(x, 0x1_0000, q1 / 256, q1 % 256 * 256 + x % 256);
    DivModOf(x, 0x100_0000, q1 / 0x1_0000, q1 % 0x1_0000 * 256 + x % 256);
  }

  /** Two addresses of one /24 share their upper bytes. */
  lemma SameNet24(x: Addr, y: Addr)
    requires x / 256 == y / 256
    ensures x / 0x1_0000 == y / 0x1_0000 && x / 0x100_0000 == y / 0x100_0000
    ensures Prefix24(x) == Prefix24(y)
  {
    DivBy256(x);
    DivBy256(y);
  }

  /** The /24 network of an address: its own upper bytes and a zero. */
  lemma Network24(x: Addr)
    ensures Pow2(8) == 256
    ensures NetworkOf(x, 24) == x / 256 * 256 && x - NetworkOf(x, 24) == x % 256
    ensures NetworkOf(x, 24) % 256 == 0 && NetworkOf(x, 24) / 256 == x / 256
    ensures Hosts(NetworkOf(x, 24), 24) == (x / 256 * 256 + 1, x / 256 * 256 + 254)
  {
    assert Pow2(4) == 16;
    Pow2Add(4, 4);
    DivModOf(x / 256 * 256, 256, x / 256, 0);
  }

  /** Addresses whose upper bytes agree lie in the same /24. */
  lemma InNetwork24(x: Addr, y: Addr)
    requires x / 256 == y / 256
    ensures InNetwork(y, NetworkOf(x, 24), 24)
  {
    Network24(x);
    Network24(y);
  }

  /** The netmask of a /24 reads "255.255.255.0". */
  lemma Netmask24()
    ensures PrefixMask(24) == FromOctets(255, 255, 255, 0)
    ensures Format(PrefixMask(24)) == "255.255.255.0"
  {
    Network24(0);
    OctetsRoundTrip(255, 255, 255, 0);
    assert NatToString(255) == "255" by {
      assert NatToString(25) == "25" by {
        assert NatToString(2) == "2";
      }
    }
    assert NatToString(0) == "0";
    var parts := ["255", "255", "255", "0"];
    assert parts[1..] == ["255", "255", "0"] && parts[2..] == ["255", "0"] && parts[3..] == ["0"];
  }
}

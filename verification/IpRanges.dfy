/**
 Addresses, CIDR prefixes, the tenant allowlist and the forbidden connection targets.

 An address is a number of 32 or 128 bits, an IPv6 address with a zone. A prefix contains an
 address when their leading bits agree; the octet tests read single octets. Text parsing is
 not modelled: an entry arrives parsed, or as unparsable.
 */
module IpRanges {
  import opened Arithmetic
  import opened Options

  datatype Addr = Invalid | V4(n: nat) | V6(n: nat, zone: string)

  const TWO_32: nat := 0x1_0000_0000
  const TWO_128: nat := 0x1_0000_0000_0000_0000_0000_0000_0000_0000

  predicate Valid(a: Addr) {
    match a
    case Invalid => true
    case V4(n) => n < TWO_32
    case V6(n, _) => n < TWO_128
  }

  function BitLen(a: Addr): nat {
    match a
    case Invalid => 0
    case V4(_) => 32
    case V6(_, _) => 128
  }

  function Number(a: Addr): nat {
    match a
    case Invalid => 0
    case V4(n) => n
    case V6(n, _) => n
  }

  // ---------------------------------------------------------------- prefixes, bit by bit

  /** Bit `i` of a `width`-bit number, counted from the most significant. */
  function Bit(n: nat, width: nat, i: nat): nat
    requires i < width
  {
    n / Pow2(width - 1 - i) % 2
  }

  predicate SameTopBits(a: nat, b: nat, width: nat, len: nat)
    requires len <= width
  {
    forall i :: 0 <= i < len ==> Bit(a, width, i) == Bit(b, width, i)
  }

  /** Containment in the masked prefix: same family, no zone, same leading bits. */
  predicate Contains(base: Addr, len: nat, addr: Addr)
    requires len <= BitLen(base)
  {
    && BitLen(base) != 0 && BitLen(base) == BitLen(addr)
    && (addr.V6? ==> addr.zone == "")
    && SameTopBits(Number(base), Number(addr), BitLen(base), len)
  }

  // ---------------------------------------------------------------- the allowlist

  /** An allowlist entry after parsing. */
  datatype Entry = Unparsable | Single(target: Addr) | Range(base: Addr, prefixLen: int)

  predicate IsIPInCIDR(ip: Option<Addr>, entry: Entry) {
    match ip
    case None => false
    case Some(addr) =>
      match entry
      case Unparsable => false
      case Single(target) => target == addr
      case Range(base, prefixLen) =>
        if BitLen(base) != BitLen(addr) then false
        else if prefixLen < 0 || prefixLen > BitLen(base) then false
        else Contains(base, prefixLen, addr)
  }

  predicate IsIPAllowed(ip: Option<Addr>, entries: seq<Entry>) {
    entries == [] || exists i :: 0 <= i < |entries| && IsIPInCIDR(ip, entries[i])
  }

  // ---------------------------------------------------------------- forbidden targets

  datatype Policy = Policy(allowLoopback: bool, allowLocalNetwork: bool)

  function Octet(n: nat, width: nat, i: nat): (o: nat)
    requires 8 * i + 8 <= width
    ensures o < 256
  {
    n / Pow2(width - 8 - 8 * i) % 256
  }

  /** A 16-bit group of an IPv6 address. */
  function Group(n: nat, i: nat): (g: nat)
    requires i < 8
    ensures g < 0x1_0000
  {
    n / Pow2(112 - 16 * i) % 0x1_0000
  }

  /** An IPv4-mapped IPv6 address becomes the IPv4 address. */
  function Unmap(a: Addr): Addr {
    if a.V6? && a.n / TWO_32 == 0xffff then V4(a.n % TWO_32) else a
  }

  predicate IsUnspecified(a: Addr) {
    a == V4(0) || a == V6(0, "")
  }

  predicate IsLoopback(a: Addr) {
    (a.V4? && Octet(a.n, 32, 0) == 127) || (a.V6? && a.n == 1)
  }

  predicate IsLinkLocalGroup(g: nat)
    requires g < 0x1_0000
  {
    g as bv16 & 0xffc0 == 0xfe80
  }

  predicate IsLinkLocal6(n: nat) {
    IsLinkLocalGroup(Group(n, 0))
  }

  predicate IsIPv6UniqueLocal(a: Addr) {
    a.V6? && Octet(a.n, 128, 0) as bv8 & 0xfe == 0xfc
  }

  predicate IsForbiddenConnectionAddr(given: Addr, localAddrs: set<Addr>, policy: Policy)
    requires Valid(given)
  {
    var addr := Unmap(given);
    if addr.Invalid? then false
    else if IsUnspecified(addr) then true
    else if IsLoopback(addr) then !policy.allowLoopback
    else if addr.V4? && !policy.allowLocalNetwork && Octet(addr.n, 32, 0) == 10 then true
    else if addr.V4? && !policy.allowLocalNetwork
            && Octet(addr.n, 32, 0) == 172 && 16 <= Octet(addr.n, 32, 1) <= 31 then true
    else if addr.V4? && !policy.allowLocalNetwork
            && Octet(addr.n, 32, 0) == 192 && Octet(addr.n, 32, 1) == 168 then true
    else if addr.V4? && Octet(addr.n, 32, 0) == 169 && Octet(addr.n, 32, 1) == 254 then true
    else if addr.V6? && IsLinkLocal6(addr.n) then true
    else if addr.V6? && !policy.allowLocalNetwork && IsIPv6UniqueLocal(addr) then true
    else if addr in localAddrs then !(policy.allowLoopback && IsLoopback(addr))
    else false
  }

  // ---------------------------------------------------------------- arithmetic of prefixes

  lemma PowAdd(a: nat, b: nat)
    ensures Pow2(a + b) == Pow2(a) * Pow2(b)
  {
    if a > 0 {
      PowAdd(a - 1, b);
      assert Pow2(a + b) == 2 * Pow2(a - 1 + b);
    }
  }

  lemma PowersUsed()
    ensures Pow2(8) == 0x100 && Pow2(16) == 0x1_0000 && Pow2(20) == 0x10_0000 && Pow2(24) == 0x100_0000
    ensures Pow2(32) == TWO_32
    ensures Pow2(112) * 0x1_0000 == Pow2(128) == TWO_128
    ensures Pow2(120) * 0x100 == Pow2(128)
    ensures Pow2(121) * 0x80 == Pow2(128)
    ensures Pow2(118) * 0x400 == Pow2(128)
  {
    assert Pow2(7) == 0x80;
    assert Pow2(10) == 0x400;
    assert Pow2(20) == 0x10_0000;
    PowAdd(16, 16);
    PowAdd(32, 32);
    PowAdd(64, 64);
    PowAdd(112, 16);
    PowAdd(120, 8);
    PowAdd(121, 7);
    PowAdd(118, 10);
  }

  /** Dividing by 2p is dividing by p and dropping the last bit. */
  lemma HalveQuotient(a: nat, p: nat)
    requires p >= 1
    ensures a / p == 2 * (a / (2 * p)) + a / p % 2
  {
    var q := a / p;
    assert a == q * p + a % p;
    assert q == 2 * (q / 2) + q % 2;
    var r := q % 2 * p + a % p;
    assert q * p == (q / 2) * (2 * p) + q % 2 * p;
    assert 0 <= r < 2 * p;
    DivUnique(a, 2 * p, q / 2, r);
  }

  /** Leading bits agree exactly if the numbers agree once the other bits are divided away. */
  lemma {:induction false} TopBitsAreQuotient(a: nat, b: nat, width: nat, len: nat)
    requires len <= width && a < Pow2(width) && b < Pow2(width)
    ensures SameTopBits(a, b, width, len) <==> a / Pow2(width - len) == b / Pow2(width - len)
  {
    if len == 0 {
      DivUnique(a, Pow2(width), 0, a);
      DivUnique(b, Pow2(width), 0, b);
    } else {
      TopBitsAreQuotient(a, b, width, len - 1);
      var p := Pow2(width - len);
      assert Pow2(width - (len - 1)) == 2 * p;
      HalveQuotient(a, p);
      HalveQuotient(b, p);
      assert Bit(a, width, len - 1) == a / p % 2 && Bit(b, width, len - 1) == b / p % 2;
      assert SameTopBits(a, b, width, len) <==>
        (SameTopBits(a, b, width, len - 1) && Bit(a, width, len - 1) == Bit(b, width, len - 1));
    }
  }

  function First(base: nat, width: nat, len: nat): int
    requires len <= width
  {
    base - base % Pow2(width - len)
  }

  lemma QuotientIsRange(base: nat, a: nat, p: nat)
    requires p >= 1
    ensures base / p == a / p <==> base - base % p <= a < base - base % p + p
  {
    var q, low := base / p, base - base % p;
    Split(base, p);
    Split(a, p);
    assert low == q * p;
    if low <= a < low + p {
      DivUnique(a, p, q, a - low);
    }
  }

  /** The addresses of a prefix are exactly those of a numeric range of length 2^(width-len). */
  lemma TopBitsAreRange(base: nat, a: nat, width: nat, len: nat)
    requires len <= width && a < Pow2(width) && base < Pow2(width)
    ensures SameTopBits(base, a, width, len) <==>
            First(base, width, len) <= a < First(base, width, len) + Pow2(width - len)
  {
    hide Pow2, SameTopBits;
    TopBitsAreQuotient(base, a, width, len);
    QuotientIsRange(base, a, Pow2(width - len));
  }

  ghost predicate InRange(a: Addr, first: Addr, len: nat)
    requires len <= BitLen(first)
  {
    && BitLen(first) != 0 && BitLen(a) == BitLen(first) && (a.V6? ==> a.zone == "")
    && var low := First(Number(first), BitLen(first), len);
       low <= Number(a) < low + Pow2(BitLen(first) - len)
  }

  lemma WidthBound(a: Addr)
    requires Valid(a)
    ensures Number(a) < Pow2(BitLen(a))
  {
    hide Pow2;
    PowersUsed();
    assert a.Invalid? ==> Number(a) == 0;
  }

  /** Containment is the numeric range test, for every prefix and every address of either family. */
  lemma ContainsIsRange(base: Addr, len: nat, a: Addr)
    requires Valid(base) && Valid(a) && len <= BitLen(base)
    ensures Contains(base, len, a) <==> InRange(a, base, len)
  {
    hide Pow2, First, SameTopBits;
    if BitLen(base) == BitLen(a) {
      WidthBound(base);
      WidthBound(a);
      TopBitsAreRange(Number(base), Number(a), BitLen(base), len);
    }
  }

  /** A shorter prefix of the same base accepts at least as much. */
  lemma ShorterPrefixAccepts(ip: Option<Addr>, base: Addr, len: int, shorter: int)
    requires 0 <= shorter <= len && IsIPInCIDR(ip, Range(base, len))
    ensures IsIPInCIDR(ip, Range(base, shorter))
  {
    hide Bit;
  }

  /** A full-length prefix is the single address, apart from its zone. */
  lemma FullLengthIsSingle(a: Addr, base: Addr)
    requires Valid(base) && Valid(a) && !base.Invalid?
    ensures IsIPInCIDR(Some(a), Range(base, BitLen(base))) <==>
            (a == if base.V6? then V6(base.n, "") else base)
  {
    hide Pow2, Contains;
    ContainsIsRange(base, BitLen(base), a);
    assert Pow2(0) == 1 by { PowZero(); }
  }

  lemma PowZero()
    ensures Pow2(0) == 1
  {
  }

  /** Adding an entry never locks out an address that was allowed, unless the list was empty, which allows
      everything: then it locks out exactly the addresses outside the entry. */
  lemma AddingAnEntryKeepsIff(ip: Option<Addr>, entries: seq<Entry>, entry: Entry)
    ensures (IsIPAllowed(ip, entries) ==> IsIPAllowed(ip, entries + [entry]))
            <==> entries != [] || IsIPInCIDR(ip, entry)
  {
    hide IsIPInCIDR;
    var more := entries + [entry];
    assert more[|entries|] == entry;
    if i :| 0 <= i < |entries| && IsIPInCIDR(ip, entries[i]) {
      assert more[i] == entries[i];
    }
  }

  // ---------------------------------------------------------------- the octet tests are prefixes

  lemma OctetsOf32(n: nat)
    requires n < TWO_32
    ensures Octet(n, 32, 0) == n / 0x100_0000 && Octet(n, 32, 1) == n / 0x1_0000 % 0x100
    ensures n / 0x1_0000 == 0x100 * (n / 0x100_0000) + n / 0x1_0000 % 0x100
    ensures n / 0x10_0000 == 0x10 * (n / 0x100_0000) + n / 0x1_0000 % 0x100 / 0x10
  {
    hide Pow2;
    PowersUsed();
  }

  /** Membership of a 32-bit address in a prefix, as a division. */
  lemma Contains4(base: nat, len: nat, n: nat)
    requires base < TWO_32 && n < TWO_32 && len <= 32
    ensures Contains(V4(base), len, V4(n)) <==> base / Pow2(32 - len) == n / Pow2(32 - len)
  {
    hide Pow2, SameTopBits;
    PowersUsed();
    TopBitsAreQuotient(base, n, 32, len);
  }

  /** A block of eight leading bits is one value of the first octet. */
  lemma FirstOctetIsBlock(first: nat, n: nat)
    requires n < TWO_32 && first < 0x100
    ensures Octet(n, 32, 0) == first <==> Contains(V4(first * 0x100_0000), 8, V4(n))
  {
    hide Pow2, Contains, Octet;
    PowersUsed();
    OctetsOf32(n);
    Contains4(first * 0x100_0000, 8, n);
  }

  lemma TwoOctetsAreBlock(first: nat, second: nat, n: nat)
    requires n < TWO_32 && first < 0x100 && second < 0x100
    ensures Octet(n, 32, 0) == first && Octet(n, 32, 1) == second <==>
            Contains(V4(first * 0x100_0000 + second * 0x1_0000), 16, V4(n))
  {
    hide Pow2, Contains, Octet;
    PowersUsed();
    OctetsOf32(n);
    var base := first * 0x100_0000 + second * 0x1_0000;
    DivUnique(base, 0x1_0000, first * 0x100 + second, 0);
    Contains4(base, 16, n);
  }

  lemma SixteenToThirtyOneIsBlock(n: nat)
    requires n < TWO_32
    ensures Octet(n, 32, 0) == 172 && 16 <= Octet(n, 32, 1) <= 31 <==> Contains(V4(0xac10_0000), 12, V4(n))
  {
    hide Pow2, Contains, Octet;
    PowersUsed();
    OctetsOf32(n);
    Contains4(0xac10_0000, 12, n);
  }

  /** The hand-written tests on an IPv4 address are exactly 10/8, 172.16/12 and 192.168/16 of section 3 of
      RFC 1918, the link-local block 169.254/16 and the loopback block 127/8. */
  lemma OctetTestsAreBlocks4(n: nat)
    requires n < TWO_32
    ensures Octet(n, 32, 0) == 10 <==> Contains(V4(0x0a00_0000), 8, V4(n))
    ensures Octet(n, 32, 0) == 172 && 16 <= Octet(n, 32, 1) <= 31 <==> Contains(V4(0xac10_0000), 12, V4(n))
    ensures Octet(n, 32, 0) == 192 && Octet(n, 32, 1) == 168 <==> Contains(V4(0xc0a8_0000), 16, V4(n))
    ensures Octet(n, 32, 0) == 169 && Octet(n, 32, 1) == 254 <==> Contains(V4(0xa9fe_0000), 16, V4(n))
    ensures Octet(n, 32, 0) == 127 <==> Contains(V4(0x7f00_0000), 8, V4(n))
  {
    hide Contains, Octet;
    FirstOctetIsBlock(10, n);
    FirstOctetIsBlock(127, n);
    TwoOctetsAreBlock(192, 168, n);
    TwoOctetsAreBlock(169, 254, n);
    SixteenToThirtyOneIsBlock(n);
  }

  lemma Mask8(x: nat)
    requires x < 256
    ensures x as bv8 & 0xfe == 0xfc <==> x / 2 == 0x7e
  {
    var b := x as bv8;
    assert b & 0xfe == 0xfc <==> b == 0xfc || b == 0xfd;
    assert b as nat == x;
  }

  lemma IntervalOf16(x: nat)
    requires x < 0x1_0000
    ensures 0xfe80 <= x as bv16 <= 0xfebf <==> 0xfe80 <= x <= 0xfebf
  {
    var b := x as bv16;
    assert b as nat == x;
    assert 0xfe80 <= b <==> 0xfe80 <= b as nat;
    assert b <= 0xfebf <==> b as nat <= 0xfebf;
  }

  lemma Mask16(x: nat)
    requires x < 0x1_0000
    ensures IsLinkLocalGroup(x) <==> 0xfe80 <= x <= 0xfebf
  {
    MaskIsInterval(x as bv16);
    IntervalOf16(x);
  }

  lemma MaskIsInterval(b: bv16)
    ensures b & 0xffc0 == 0xfe80 <==> 0xfe80 <= b <= 0xfebf
  {
  }

  const UNIQUE_LOCAL_6: nat := 0xfc00_0000_0000_0000_0000_0000_0000_0000
  const LINK_LOCAL_6: nat := 0xfe80_0000_0000_0000_0000_0000_0000_0000

  lemma Contains6(base: nat, len: nat, n: nat)
    requires base < TWO_128 && n < TWO_128 && len <= 128
    ensures Contains(V6(base, ""), len, V6(n, "")) <==> base / Pow2(128 - len) == n / Pow2(128 - len)
  {
    hide Pow2, SameTopBits;
    PowersUsed();
    TopBitsAreQuotient(base, n, 128, len);
  }

  lemma ExpandProduct(v: nat, q: nat, w: nat, p: nat)
    ensures (v * q + w) * p == v * (p * q) + w * p
  {
    assert v * q * p == v * (p * q);
  }

  lemma RemainderFits(w: nat, q: nat, p: nat, t: nat)
    requires w < q && t < p
    ensures w * p + t < p * q
  {
    ProductAtLeast(q, w + 1, p);
    assert (w + 1) * p == w * p + p;
  }

  lemma Regroup(n: nat, p: nat, q: nat, r: nat, v: nat, w: nat, t: nat)
    requires w < q && t < p && r == p * q && n == (v * q + w) * p + t
    ensures n / r == v
  {
    ExpandProduct(v, q, w, p);
    RemainderFits(w, q, p, t);
    var rest := w * p + t;
    assert 0 <= rest < r;
    DivUnique(n, r, v, rest);
  }

  lemma Split(n: nat, p: nat)
    requires p >= 1
    ensures n == n / p * p + n % p && 0 <= n % p < p
  {
  }

  /** Dividing in two steps. */
  lemma QuotientOfQuotient(n: nat, p: nat, q: nat, r: nat)
    requires p >= 1 && q >= 1 && r == p * q
    ensures n / r == n / p / q
  {
    var u := n / p;
    Split(n, p);
    Split(u, q);
    Regroup(n, p, q, r, u / q, u % q, n % p);
  }

  lemma TopOf128(n: nat)
    requires n < TWO_128
    ensures n / Pow2(120) < 0x100 && n / Pow2(112) < 0x1_0000
  {
    hide Pow2;
    PowersUsed();
    ProductAtLeast(n / Pow2(120), 0x100, Pow2(120));
    ProductAtLeast(n / Pow2(112), 0x1_0000, Pow2(112));
    assert n == n / Pow2(120) * Pow2(120) + n % Pow2(120);
    assert n == n / Pow2(112) * Pow2(112) + n % Pow2(112);
  }

  lemma ProductAtLeast(a: nat, b: nat, p: nat)
    ensures a >= b ==> a * p >= b * p
  {
  }

  lemma UniqueLocalIsBlock(n: nat, zone: string)
    requires n < TWO_128
    ensures IsIPv6UniqueLocal(V6(n, zone)) <==> Contains(V6(UNIQUE_LOCAL_6, ""), 7, V6(n, ""))
  {
    hide Pow2, Contains;
    PowersUsed();
    TopOf128(n);
    var octet := n / Pow2(120);
    Mask8(octet);
    assert Pow2(121) == Pow2(120) * 2;
    QuotientOfQuotient(n, Pow2(120), 2, Pow2(121));
    Contains6(UNIQUE_LOCAL_6, 7, n);
    DivUnique(UNIQUE_LOCAL_6, Pow2(121), 0x7e, 0);
  }

  lemma LinkLocalTest(n: nat)
    requires n < TWO_128
    ensures IsLinkLocal6(n) <==> n / Pow2(112) / 64 == 0x3fa
  {
    hide Pow2, IsLinkLocalGroup;
    TopOf128(n);
    var group := n / Pow2(112);
    Mask16(group);
    SixtyFours(group);
  }

  lemma LinkLocalIsBlock(n: nat)
    requires n < TWO_128
    ensures IsLinkLocal6(n) <==> Contains(V6(LINK_LOCAL_6, ""), 10, V6(n, ""))
  {
    hide Pow2, Contains, IsLinkLocal6;
    PowersUsed();
    LinkLocalTest(n);
    assert Pow2(118) == Pow2(112) * 64;
    QuotientOfQuotient(n, Pow2(112), 64, Pow2(118));
    Contains6(LINK_LOCAL_6, 10, n);
    DivUnique(LINK_LOCAL_6, Pow2(118), 0x3fa, 0);
  }

  lemma SixtyFours(x: nat)
    ensures 0xfe80 <= x <= 0xfebf <==> x / 64 == 0x3fa
  {
  }

  /** The masks on an IPv6 address are exactly the unique-local block fc00::/7 of section 3.1 of RFC 4193 and
      the link-local block fe80::/10. */
  lemma MaskTestsAreBlocks6(n: nat, zone: string)
    requires n < TWO_128
    ensures IsIPv6UniqueLocal(V6(n, zone)) <==> Contains(V6(UNIQUE_LOCAL_6, ""), 7, V6(n, ""))
    ensures IsLinkLocal6(n) <==> Contains(V6(LINK_LOCAL_6, ""), 10, V6(n, ""))
  {
    hide IsIPv6UniqueLocal, IsLinkLocal6, Contains;
    UniqueLocalIsBlock(n, zone);
    LinkLocalIsBlock(n);
  }

  // ---------------------------------------------------------------- forbidden targets, as blocks

  predicate InPrivateBlock(a: Addr) {
    || Contains(V4(0x0a00_0000), 8, a) || Contains(V4(0xac10_0000), 12, a) || Contains(V4(0xc0a8_0000), 16, a)
    || (a.V6? && Contains(V6(UNIQUE_LOCAL_6, ""), 7, V6(a.n, "")))
  }

  predicate InLinkLocalBlock(a: Addr) {
    Contains(V4(0xa9fe_0000), 16, a) || (a.V6? && Contains(V6(LINK_LOCAL_6, ""), 10, V6(a.n, "")))
  }

  predicate InLoopbackBlock(a: Addr) {
    Contains(V4(0x7f00_0000), 8, a) || (a.V6? && a.n == 1)
  }

  /** Exactly which targets are forbidden, for every address, set of interface addresses and policy: loopback
      is decided by its own switch alone; of the rest, the wildcard, the link-local blocks and the server's own
      addresses always, the private blocks unless local networks are allowed. Zones do not matter except to the
      wildcard and to interface addresses, and an IPv4-mapped address is judged as the IPv4 address it carries. */
  lemma ForbiddenIff(given: Addr, localAddrs: set<Addr>, policy: Policy)
    requires Valid(given)
    ensures var a := Unmap(given);
            IsForbiddenConnectionAddr(given, localAddrs, policy) <==>
              (!a.Invalid? &&
               (IsUnspecified(a)
                || (if InLoopbackBlock(a) then !policy.allowLoopback
                    else InLinkLocalBlock(a) || (!policy.allowLocalNetwork && InPrivateBlock(a)) || a in localAddrs)))
  {
    var a := Unmap(given);
    UnmapValid(given);
    hide Octet, Group, IsLinkLocal6, IsIPv6UniqueLocal, SameTopBits;
    match a
    case Invalid =>
    case V4(n) => OctetTestsAreBlocks4(n);
    case V6(n, zone) => MaskTestsAreBlocks6(n, zone);
  }

  /** The wildcard is the zero address of either family; a zone makes it another address. */
  lemma WildcardIff(n: nat, zone: string)
    ensures IsUnspecified(V4(n)) <==> n == 0
    ensures IsUnspecified(V6(n, zone)) <==> n == 0 && |zone| == 0
    ensures !IsUnspecified(Invalid)
  {
  }

  lemma UnmapValid(a: Addr)
    requires Valid(a)
    ensures Valid(Unmap(a))
  {
  }

  /** Allowing more forbids no more. */
  lemma PolicyIsMonotone(given: Addr, localAddrs: set<Addr>, strict: Policy, lax: Policy)
    requires Valid(given)
    requires (strict.allowLoopback ==> lax.allowLoopback) && (strict.allowLocalNetwork ==> lax.allowLocalNetwork)
    requires IsForbiddenConnectionAddr(given, localAddrs, lax)
    ensures IsForbiddenConnectionAddr(given, localAddrs, strict)
  {
    hide InLoopbackBlock, InLinkLocalBlock, InPrivateBlock, IsForbiddenConnectionAddr;
    ForbiddenIff(given, localAddrs, strict);
    ForbiddenIff(given, localAddrs, lax);
  }

  /** An IPv4-mapped IPv6 spelling of an address cannot evade the test. */
  lemma MappedIsTheSame(n: nat, zone: string, localAddrs: set<Addr>, policy: Policy)
    requires n < TWO_32
    ensures Valid(V6(0xffff * TWO_32 + n, zone))
    ensures IsForbiddenConnectionAddr(V6(0xffff * TWO_32 + n, zone), localAddrs, policy)
        <==> IsForbiddenConnectionAddr(V4(n), localAddrs, policy)
  {
    DivUnique(0xffff * TWO_32 + n, TWO_32, 0xffff, n);
    assert Unmap(V6(0xffff * TWO_32 + n, zone)) == V4(n) == Unmap(V4(n));
    hide Octet, Group, IsLinkLocal6, IsIPv6UniqueLocal;
  }

  // ---------------------------------------------------------------- the allowlist, entry by entry

  /** A list allows what any of its parts allows; a single entry allows what it contains; no entry allows all. */
  lemma AllowedByParts(ip: Option<Addr>, a: seq<Entry>, b: seq<Entry>, entry: Entry)
    ensures IsIPAllowed(ip, [])
    ensures IsIPAllowed(ip, [entry]) <==> IsIPInCIDR(ip, entry)
    ensures a != [] && b != [] ==> (IsIPAllowed(ip, a + b) <==> IsIPAllowed(ip, a) || IsIPAllowed(ip, b))
  {
    hide IsIPInCIDR;
    assert [entry][0] == entry;
    if i :| 0 <= i < |a| && IsIPInCIDR(ip, a[i]) {
      assert (a + b)[i] == a[i];
    }
    if i :| 0 <= i < |b| && IsIPInCIDR(ip, b[i]) {
      assert (a + b)[|a| + i] == b[i];
    }
    if i :| 0 <= i < |a + b| && IsIPInCIDR(ip, (a + b)[i]) {
      assert if i < |a| then a[i] == (a + b)[i] else b[i - |a|] == (a + b)[i];
    }
  }

  /** What one entry contains, for every address: nothing if it or the address is no address, a single address
      exactly that one, and a range exactly the numeric range of a prefix length that fits its family. */
  lemma InCIDRIff(ip: Option<Addr>, target: Addr, base: Addr, len: int)
    requires Valid(base) && (ip.Some? ==> Valid(ip.value))
    ensures !IsIPInCIDR(ip, Unparsable)
    ensures IsIPInCIDR(ip, Single(target)) <==> ip == Some(target)
    ensures IsIPInCIDR(ip, Range(base, len)) <==>
              ip.Some? && 0 <= len <= BitLen(base) && InRange(ip.value, base, len)
  {
    hide Contains, InRange;
    if ip.Some? && 0 <= len <= BitLen(base) {
      ContainsIsRange(base, len, ip.value);
      SameFamily(ip.value, base, len);
    }
  }

  lemma SameFamily(a: Addr, first: Addr, len: nat)
    requires len <= BitLen(first)
    ensures InRange(a, first, len) ==> BitLen(a) == BitLen(first)
  {
    hide First, Pow2;
  }
}

// Parsed packets and the orders every index relies on (indexer/network.c).

module Network {

  type Byte = b: nat | b < 256
  type Port = p: nat | p < 0x1_0000
  type U32 = n: nat | n < 0x1_0000_0000

  const IPv4: Byte := 4
  const IPv6: Byte := 6

  // An address is sixteen bytes in network order; IPv4 uses the first four.
  datatype IpAddr = IpAddr(vers: Byte, addr: seq<Byte>)

  type Ip = ip: IpAddr | |ip.addr| == 16 witness IpAddr(0, seq(16, _ => 0))

  // A packet record after header parsing. `id` stands for its address in the bucket.
  datatype PacketRecord = PacketRecord(
    id: nat, tsSec: U32, tsUsec: U32, caplen: U32,
    src: Ip, dst: Ip, srcport: Port, dstport: Port, proto: Byte)

  datatype KeyType = FLOW | SRCv4 | DSTv4 | SRCv6 | DSTv6 | SRCPORT | DSTPORT

  function Sign(x: int): int {
    if x < 0 then -1 else if x == 0 then 0 else 1
  }

  // The number whose big-endian digits are the first n bytes.
  function BigEndian(bytes: seq<Byte>, n: nat): nat
    requires n <= |bytes|
  {
    if n == 0 then 0 else 256 * BigEndian(bytes, n - 1) + bytes[n - 1]
  }

  // The byte loop of ip_cmp, from byte i on.
  function BytesCmp(a: seq<Byte>, b: seq<Byte>, i: nat, n: nat): int
    requires i <= n <= |a| && n <= |b|
    decreases n - i
  {
    if i == n then 0
    else if a[i] != b[i] then (if a[i] < b[i] then -1 else 1)
    else BytesCmp(a, b, i + 1, n)
  }

  function IpCmp(ip1: Ip, ip2: Ip): int {
    if ip1.vers != ip2.vers then (if ip1.vers < ip2.vers then -1 else 1)
    else if ip1.vers == IPv4 then
      var v1 := BigEndian(ip1.addr, 4);
      var v2 := BigEndian(ip2.addr, 4);
      if v1 == v2 then 0 else if v1 < v2 then -1 else 1
    else if ip1.vers == IPv6 then BytesCmp(ip1.addr, ip2.addr, 0, 16)
    else 0
  }

  function GenCmp(pr1: PacketRecord, pr2: PacketRecord, tt: KeyType): int {
    match tt
    case FLOW =>
      if pr1.srcport != pr2.srcport then (if pr1.srcport < pr2.srcport then -1 else 1)
      else if pr1.dstport != pr2.dstport then (if pr1.dstport < pr2.dstport then -1 else 1)
      else if IpCmp(pr1.src, pr2.src) != 0 then IpCmp(pr1.src, pr2.src)
      else if IpCmp(pr1.dst, pr2.dst) != 0 then IpCmp(pr1.dst, pr2.dst)
      else if pr1.proto != pr2.proto then (if pr1.proto < pr2.proto then -1 else 1)
      else 0
    case SRCv4 => IpCmp(pr1.src, pr2.src)
    case SRCv6 => IpCmp(pr1.src, pr2.src)
    case DSTv4 => IpCmp(pr1.dst, pr2.dst)
    case DSTv6 => IpCmp(pr1.dst, pr2.dst)
    case SRCPORT =>
      if pr1.srcport != pr2.srcport then (if pr1.srcport < pr2.srcport then -1 else 1) else 0
    case DSTPORT =>
      if pr1.dstport != pr2.dstport then (if pr1.dstport < pr2.dstport then -1 else 1) else 0
  }

  // ---- The orders as positions on one integer line ----

  const IP_SPAN: nat := 0x1_0000_0000_0000_0000_0000_0000_0000_0000

  // Where an address sits: all of IPv4 before all of IPv6, other versions one point each.
  function IpRank(ip: Ip): (r: nat)
    ensures r < 256 * IP_SPAN
  {
    BigEndianBound(ip.addr, 4);
    BigEndianBound(ip.addr, 16);
    assert Pow256(4) <= Pow256(16) == IP_SPAN by { Pow256Values(); }
    ip.vers * IP_SPAN +
    (if ip.vers == IPv4 then BigEndian(ip.addr, 4)
     else if ip.vers == IPv6 then BigEndian(ip.addr, 16) else 0)
  }

  function Rank(pr: PacketRecord, tt: KeyType): nat {
    match tt
    case FLOW => Pack(pr.srcport, pr.dstport, IpRank(pr.src), IpRank(pr.dst), pr.proto)
    case SRCv4 => IpRank(pr.src)
    case SRCv6 => IpRank(pr.src)
    case DSTv4 => IpRank(pr.dst)
    case DSTv6 => IpRank(pr.dst)
    case SRCPORT => pr.srcport
    case DSTPORT => pr.dstport
  }

  // A five-tuple as one number, most significant part first.
  function Pack(sp: nat, dp: nat, s: nat, d: nat, p: nat): nat {
    (((sp * 0x1_0000 + dp) * (256 * IP_SPAN) + s) * (256 * IP_SPAN) + d) * 256 + p
  }

  function Pow256(n: nat): nat { if n == 0 then 1 else 256 * Pow256(n - 1) }

  lemma Pow256Values()
    ensures Pow256(4) == 0x1_0000_0000
    ensures Pow256(16) == IP_SPAN
  {
    assert Pow256(2) == 0x1_0000;
    assert Pow256(4) == 0x1_0000_0000;
    assert Pow256(6) == 0x1_0000_0000_0000;
    assert Pow256(8) == 0x1_0000_0000_0000_0000;
    assert Pow256(10) == 0x1_0000_0000_0000_0000_0000;
    assert Pow256(12) == 0x1_0000_0000_0000_0000_0000_0000;
    assert Pow256(14) == 0x1_0000_0000_0000_0000_0000_0000_0000;
  }

  lemma BigEndianBound(bytes: seq<Byte>, n: nat)
    requires n <= |bytes|
    ensures BigEndian(bytes, n) < Pow256(n)
  {
  }

  // Comparing byte by byte from the front compares the numbers.
  lemma {:induction false} BytesCmpIsNumeric(a: seq<Byte>, b: seq<Byte>, i: nat, n: nat)
    requires i <= n <= |a| && n <= |b|
    requires BigEndian(a, i) == BigEndian(b, i)
    ensures BytesCmp(a, b, i, n) == Sign(BigEndian(a, n) - BigEndian(b, n))
    decreases n - i
  {
    if i < n {
      if a[i] == b[i] {
        BytesCmpIsNumeric(a, b, i + 1, n);
      } else if a[i] < b[i] {
        BigEndianKeepsOrder(a, b, i + 1, n);
      } else {
        BigEndianKeepsOrder(b, a, i + 1, n);
      }
    }
  }

  lemma {:induction false} BigEndianKeepsOrder(a: seq<Byte>, b: seq<Byte>, i: nat, n: nat)
    requires i <= n <= |a| && n <= |b|
    requires BigEndian(a, i) < BigEndian(b, i)
    ensures BigEndian(a, n) < BigEndian(b, n)
  {
    if i < n {
      BigEndianKeepsOrder(a, b, i, n - 1);
    }
  }

  // ip_cmp is the order of the addresses on the line, so it is a total preorder,
  // and every IPv4 address comes before every IPv6 one.
  lemma IpCmpIsRankOrder(ip1: Ip, ip2: Ip)
    ensures IpCmp(ip1, ip2) == Sign(IpRank(ip1) - IpRank(ip2))
  {
    Pow256Values();
    BigEndianBound(ip1.addr, 4);
    BigEndianBound(ip2.addr, 4);
    BigEndianBound(ip1.addr, 16);
    BigEndianBound(ip2.addr, 16);
    if ip1.vers == ip2.vers == IPv6 {
      BytesCmpIsNumeric(ip1.addr, ip2.addr, 0, 16);
    }
  }

  // gen_cmp is the order of Rank for every kind of tree; reflexivity, antisymmetry and
  // transitivity of the comparison all follow from this one fact.
  lemma GenCmpIsRankOrder(pr1: PacketRecord, pr2: PacketRecord, tt: KeyType)
    ensures GenCmp(pr1, pr2, tt) == Sign(Rank(pr1, tt) - Rank(pr2, tt))
  {
    IpCmpIsRankOrder(pr1.src, pr2.src);
    IpCmpIsRankOrder(pr1.dst, pr2.dst);
    if tt == FLOW {
      PackIsLexicographic(pr1.srcport, pr1.dstport, IpRank(pr1.src), IpRank(pr1.dst), pr1.proto,
                              pr2.srcport, pr2.dstport, IpRank(pr2.src), IpRank(pr2.dst), pr2.proto);
    }
  }

  lemma PackIsLexicographic(
    sp1: Port, dp1: Port, s1: nat, d1: nat, p1: Byte,
    sp2: Port, dp2: Port, s2: nat, d2: nat, p2: Byte)
    requires s1 < 256 * IP_SPAN && s2 < 256 * IP_SPAN && d1 < 256 * IP_SPAN && d2 < 256 * IP_SPAN
    ensures Sign(Pack(sp1, dp1, s1, d1, p1) - Pack(sp2, dp2, s2, d2, p2)) ==
            (if sp1 != sp2 then Sign(sp1 - sp2)
             else if dp1 != dp2 then Sign(dp1 - dp2)
             else if s1 != s2 then Sign(s1 - s2)
             else if d1 != d2 then Sign(d1 - d2)
             else Sign(p1 - p2))
  {
  }

  // ---- The orders on bytes and fields ----

  // Of one version, and with the same bytes as far as the version uses them.
  predicate SameAddress(a: Ip, b: Ip) {
    && a.vers == b.vers
    && (a.vers == IPv4 ==> a.addr[..4] == b.addr[..4])
    && (a.vers == IPv6 ==> a.addr == b.addr)
  }

  // Among the first n bytes, the first that are different are smaller in a.
  predicate FirstLess(a: seq<Byte>, b: seq<Byte>, n: nat)
    requires n <= |a| && n <= |b|
  {
    exists i :: 0 <= i < n && a[..i] == b[..i] && a[i] < b[i]
  }

  predicate AddressLess(a: Ip, b: Ip) {
    || a.vers < b.vers
    || (a.vers == b.vers == IPv4 && FirstLess(a.addr, b.addr, 4))
    || (a.vers == b.vers == IPv6 && FirstLess(a.addr, b.addr, 16))
  }

  lemma {:induction false} BytesCmpFinds(a: seq<Byte>, b: seq<Byte>, i: nat, n: nat)
    requires i <= n <= |a| && n <= |b| && a[..i] == b[..i]
    ensures BytesCmp(a, b, i, n) == 0 <==> a[..n] == b[..n]
    ensures BytesCmp(a, b, i, n) == -1 <==> FirstLess(a, b, n)
    ensures BytesCmp(a, b, i, n) == 1 <==> FirstLess(b, a, n)
    decreases n - i
  {
    if i == n {
      NoneLess(a, b, n);
      NoneLess(b, a, n);
    } else if a[i] != b[i] {
      assert a[..n][i] == a[i] && b[..n][i] == b[i];
      OneDirection(a, b, i, n);
      OneDirection(b, a, i, n);
    } else {
      assert a[..i + 1] == a[..i] + [a[i]] && b[..i + 1] == b[..i] + [b[i]];
      BytesCmpFinds(a, b, i + 1, n);
    }
  }

  lemma NoneLess(a: seq<Byte>, b: seq<Byte>, n: nat)
    requires n <= |a| && n <= |b| && a[..n] == b[..n]
    ensures !FirstLess(a, b, n)
  {
    if j :| 0 <= j < n && a[..j] == b[..j] && a[j] < b[j] {
      SameBefore(a, b, n, j);
    }
  }

  lemma SameBefore(a: seq<Byte>, b: seq<Byte>, i: nat, j: nat)
    requires j < i <= |a| && i <= |b| && a[..i] == b[..i]
    ensures a[j] == b[j]
  {
    assert a[..i][j] == b[..i][j];
  }

  lemma OneDirection(a: seq<Byte>, b: seq<Byte>, i: nat, n: nat)
    requires i < n <= |a| && n <= |b| && a[..i] == b[..i] && a[i] != b[i]
    ensures FirstLess(a, b, n) <==> a[i] < b[i]
  {
    if FirstLess(a, b, n) {
      var j :| 0 <= j < n && a[..j] == b[..j] && a[j] < b[j];
      if j < i {
        SameBefore(a, b, i, j);
      } else if i < j {
        SameBefore(a, b, j, i);
      }
    }
  }

  // ip_cmp on the bytes: an address is before another if its version is smaller, or its first
  // byte that is different.
  lemma IpCmpOnBytes(a: Ip, b: Ip)
    ensures IpCmp(a, b) == 0 <==> SameAddress(a, b)
    ensures IpCmp(a, b) < 0 <==> AddressLess(a, b)
  {
    BytesCmpFinds(a.addr, b.addr, 0, 4);
    BytesCmpFinds(a.addr, b.addr, 0, 16);
    BytesCmpIsNumeric(a.addr, b.addr, 0, 4);
    assert a.addr[..16] == a.addr && b.addr[..16] == b.addr;
  }

  // Two packets are of one flow exactly if their ports, addresses and protocols are the same.
  lemma SameFlowIff(p: PacketRecord, q: PacketRecord)
    ensures Rank(p, FLOW) == Rank(q, FLOW) <==>
            && p.srcport == q.srcport && p.dstport == q.dstport && p.proto == q.proto
            && SameAddress(p.src, q.src) && SameAddress(p.dst, q.dst)
  {
    IpCmpIsRankOrder(p.src, q.src);
    IpCmpIsRankOrder(p.dst, q.dst);
    IpCmpOnBytes(p.src, q.src);
    IpCmpOnBytes(p.dst, q.dst);
    PackIsLexicographic(p.srcport, p.dstport, IpRank(p.src), IpRank(p.dst), p.proto,
                        q.srcport, q.dstport, IpRank(q.src), IpRank(q.dst), q.proto);
  }

  lemma DivTwice(n: nat, a: nat)
    requires a > 0
    ensures n / (256 * a) == (n / 256) / a
  {
    var q, x := n / 256, n % 256;
    var u, y := q / a, q % a;
    assert n == 256 * q + x && q == a * u + y;
    assert n == (256 * a) * u + (256 * y + x);
    assert 256 * y + x < 256 * a;
    QuotientIs(n, 256 * a, u, 256 * y + x);
  }

  lemma QuotientIs(n: nat, p: nat, q: nat, r: nat)
    requires n == p * q + r && r < p
    ensures n / p == q
  {
    var k := q - n / p;
    assert k * p == n % p - r;
    assert k < 1 || k * p >= p;
    assert k > -1 || k * p + p <= 0;
  }

  // The first byte counts most.
  lemma {:induction false} BigEndianDigit(bytes: seq<Byte>, n: nat, i: nat)
    requires i < n <= |bytes|
    ensures Pow256(n - 1 - i) > 0 && BigEndian(bytes, n) / Pow256(n - 1 - i) % 256 == bytes[i]
  {
    PowersPositive(n - 1 - i);
    if i < n - 1 {
      BigEndianDigit(bytes, n - 1, i);
      PowersPositive(n - 2 - i);
      DivTwice(BigEndian(bytes, n), Pow256(n - 2 - i));
      assert BigEndian(bytes, n) / 256 == BigEndian(bytes, n - 1);
    }
  }

  lemma PowersPositive(n: nat)
    ensures Pow256(n) > 0
  {
  }

  // ---- Sub-index keys ----

  // Whether a flow with this packet as key is entered in the tree of type tt.
  predicate Applies(pr: PacketRecord, tt: KeyType) {
    match tt
    case SRCv4 => pr.src.vers == IPv4
    case SRCv6 => pr.src.vers == IPv6
    case DSTv4 => pr.dst.vers == IPv4
    case DSTv6 => pr.dst.vers == IPv6
    case _ => true
  }

  // The key stored in a sub-index record, as a number.
  function KeyVal(pr: PacketRecord, tt: KeyType): nat
    requires tt != FLOW
  {
    match tt
    case SRCv4 => BigEndian(pr.src.addr, 4)
    case SRCv6 => BigEndian(pr.src.addr, 16)
    case DSTv4 => BigEndian(pr.dst.addr, 4)
    case DSTv6 => BigEndian(pr.dst.addr, 16)
    case SRCPORT => pr.srcport
    case DSTPORT => pr.dstport
  }

  // Inside one sub-index tree the rank and the stored key order the entries alike.
  lemma KeyValOrdersLikeRank(pr1: PacketRecord, pr2: PacketRecord, tt: KeyType)
    requires tt != FLOW && Applies(pr1, tt) && Applies(pr2, tt)
    ensures Rank(pr1, tt) - Rank(pr2, tt) == KeyVal(pr1, tt) - KeyVal(pr2, tt)
  {
  }
}

// Flow records and the keys that order them (indexer/keys.c, indexer/keys.h).

module Keys {
  import opened Network
  import opened Bits

  type Nibble = n: nat | n < 16

  const UINT32_MAX: nat := 0xFFFF_FFFF

  datatype Timeval = Timeval(sec: U32, usec: U32)

  function TsRank(t: Timeval): nat { t.sec * 0x1_0000_0000 + t.usec }

  predicate TsBefore(a: Timeval, b: Timeval) {
    a.sec < b.sec || (a.sec == b.sec && a.usec < b.usec)
  }

  // The packet count is packets * 2^packetsPow and the byte count size * 2^sizePow.
  datatype FlowKey = FlowKey(
    firstTs: Timeval, lastTs: Timeval, src: Ip, dst: Ip, srcport: Port, dstport: Port, proto: Byte,
    packets: U32, packetsPow: Nibble, size: U32, sizePow: Nibble)

  function FlowKeyCmp(k1: FlowKey, k2: FlowKey): int {
    if k1.srcport != k2.srcport then (if k1.srcport < k2.srcport then -1 else 1)
    else if k1.dstport != k2.dstport then (if k1.dstport < k2.dstport then -1 else 1)
    else if IpCmp(k1.src, k2.src) != 0 then IpCmp(k1.src, k2.src)
    else if IpCmp(k1.dst, k2.dst) != 0 then IpCmp(k1.dst, k2.dst)
    else if k1.proto != k2.proto then (if k1.proto < k2.proto then -1 else 1)
    else 0
  }

  function FlowKeyRank(k: FlowKey): nat {
    Pack(k.srcport, k.dstport, IpRank(k.src), IpRank(k.dst), k.proto)
  }

  // Flow records are ordered exactly as the flow tree orders its packets.
  lemma FlowKeyCmpIsRankOrder(k1: FlowKey, k2: FlowKey)
    ensures FlowKeyCmp(k1, k2) == Sign(FlowKeyRank(k1) - FlowKeyRank(k2))
  {
    IpCmpIsRankOrder(k1.src, k2.src);
    IpCmpIsRankOrder(k1.dst, k2.dst);
    PackIsLexicographic(k1.srcport, k1.dstport, IpRank(k1.src), IpRank(k1.dst), k1.proto,
                        k2.srcport, k2.dstport, IpRank(k2.src), IpRank(k2.dst), k2.proto);
  }

  // Two records are of one flow exactly if the ports, addresses and protocols are the same.
  lemma SameKeyIff(k1: FlowKey, k2: FlowKey)
    ensures FlowKeyRank(k1) == FlowKeyRank(k2) <==>
            && k1.srcport == k2.srcport && k1.dstport == k2.dstport && k1.proto == k2.proto
            && SameAddress(k1.src, k2.src) && SameAddress(k1.dst, k2.dst)
  {
    FlowKeyCmpIsRankOrder(k1, k2);
    IpCmpOnBytes(k1.src, k2.src);
    IpCmpOnBytes(k1.dst, k2.dst);
  }

  // Times are ordered by their seconds and then their microseconds.
  lemma TsRankOrders(a: Timeval, b: Timeval)
    ensures TsRank(a) < TsRank(b) <==> a.sec < b.sec || (a.sec == b.sec && a.usec < b.usec)
    ensures TsRank(a) == TsRank(b) <==> a.sec == b.sec && a.usec == b.usec
    ensures TsBefore(a, b) <==> TsRank(a) < TsRank(b)
  {
  }

  // ---- Merging two records of one flow ----

  // How often a total must be halved before it fits in 32 bits.
  function Halvings(total: nat): nat {
    if total <= UINT32_MAX then 0 else 1 + Halvings(total / 2)
  }

  function HalvedBy(total: nat, n: nat): nat {
    if n == 0 then total else HalvedBy(total / 2, n - 1)
  }

  datatype Scaled = Scaled(mantissa: U32, pow: Nibble)

  // The 32-bit mantissa and 4-bit exponent for a total; (0, 0) when the exponent overflows.
  function Scale(total: nat): Scaled {
    HalvingsFit(total);
    if Halvings(total) > 15 then Scaled(0, 0)
    else Scaled(HalvedBy(total, Halvings(total)), Halvings(total))
  }

  function Total(mantissa: nat, pow: nat): nat { mantissa * Pow2(pow) }

  lemma {:induction false} HalvingsFit(total: nat)
    ensures HalvedBy(total, Halvings(total)) <= UINT32_MAX
    decreases total
  {
    if total > UINT32_MAX {
      HalvingsFit(total / 2);
    }
  }

  lemma {:induction false} HalvedByBounds(total: nat, n: nat)
    ensures HalvedBy(total, n) * Pow2(n) <= total < (HalvedBy(total, n) + 1) * Pow2(n)
  {
    if n > 0 {
      HalvedByBounds(total / 2, n - 1);
      BoundsDouble(total, total / 2, HalvedBy(total, n), Pow2(n - 1));
    }
  }

  lemma BoundsDouble(total: nat, half: nat, h: nat, p: nat)
    requires 2 * half <= total <= 2 * half + 1 && h * p <= half < (h + 1) * p
    ensures h * (2 * p) <= total < (h + 1) * (2 * p)
  {
    assert h * (2 * p) == 2 * (h * p);
    assert (h + 1) * (2 * p) == 2 * ((h + 1) * p);
  }

  // A total of 2^47 or more has no exponent of four bits.
  const TOO_LARGE: nat := 0x8000_0000_0000

  // What a stored count says: the largest multiple of its power not above the total, or
  // zero when the total is 2^47 or more.
  lemma ScaleIsClose(total: nat)
    ensures total >= TOO_LARGE ==> Scale(total) == Scaled(0, 0)
    ensures total < TOO_LARGE ==>
      var s := Scale(total);
      && Total(s.mantissa, s.pow) <= total < Total(s.mantissa, s.pow) + Pow2(s.pow)
      && (s.pow > 0 ==> s.mantissa >= 0x8000_0000)
  {
    ExponentFits(total);
    HalvingsAreNeeded(total);
    var n := Halvings(total);
    HalvedByBounds(total, n);
    OneMoreTimes(HalvedBy(total, n), Pow2(n));
  }

  lemma ExponentFits(total: nat)
    ensures Halvings(total) > 15 <==> total >= TOO_LARGE
  {
    HalvingsThreshold(total, 15);
    assert Pow2(15) == 0x8000 by { assert Pow2(8) == 0x100; }
  }

  lemma OneMoreTimes(a: nat, b: nat)
    ensures (a + 1) * b == a * b + b
  {
  }

  lemma {:induction false} HalvingsAreNeeded(total: nat)
    ensures Halvings(total) > 0 ==> HalvedBy(total, Halvings(total)) >= 0x8000_0000
  {
    if total > UINT32_MAX {
      HalvingsAreNeeded(total / 2);
    }
  }

  lemma {:induction false} HalvingsThreshold(total: nat, n: nat)
    ensures Halvings(total) > n <==> total >= 0x1_0000_0000 * Pow2(n)
  {
    if n > 0 && total > UINT32_MAX {
      HalvingsThreshold(total / 2, n - 1);
    } else if n > 0 {
      assert Pow2(n) >= 1;
    }
  }

  function MergeFlowKeys(k1: FlowKey, k2: FlowKey): FlowKey {
    var packets := Scale(Total(k1.packets, k1.packetsPow) + Total(k2.packets, k2.packetsPow));
    var size := Scale(Total(k1.size, k1.sizePow) + Total(k2.size, k2.sizePow));
    k1.(firstTs := if TsBefore(k2.firstTs, k1.firstTs) then k2.firstTs else k1.firstTs,
        lastTs := if TsBefore(k1.lastTs, k2.lastTs) then k2.lastTs else k1.lastTs,
        packets := packets.mantissa, packetsPow := packets.pow,
        size := size.mantissa, sizePow := size.pow)
  }

  // flow_key_merge with the exponents applied as keys.h describes them. The loops halve the
  // totals in place; the fields of k1 are overwritten one after the other.
  method FlowKeyMerge(k1: FlowKey, k2: FlowKey) returns (k: FlowKey)
    ensures k == MergeFlowKeys(k1, k2)
  {
    k := k1;
    if k2.firstTs.sec < k1.firstTs.sec ||
       (k2.firstTs.sec == k1.firstTs.sec && k2.firstTs.usec < k1.firstTs.usec) {
      k := k.(firstTs := k2.firstTs);
    }
    if k2.lastTs.sec > k1.lastTs.sec ||
       (k2.lastTs.sec == k1.lastTs.sec && k2.lastTs.usec > k1.lastTs.usec) {
      k := k.(lastTs := k2.lastTs);
    }
    var packets := ScaleTotal(Total(k1.packets, k1.packetsPow) + Total(k2.packets, k2.packetsPow));
    k := k.(packets := packets.mantissa, packetsPow := packets.pow);
    var size := ScaleTotal(Total(k1.size, k1.sizePow) + Total(k2.size, k2.sizePow));
    k := k.(size := size.mantissa, sizePow := size.pow);
  }

  method ScaleTotal(total: nat) returns (s: Scaled)
    ensures s == Scale(total)
  {
    var rest: nat, pow: nat := total, 0;
    while rest > UINT32_MAX
      invariant pow + Halvings(rest) == Halvings(total)
      invariant HalvedBy(rest, Halvings(rest)) == HalvedBy(total, Halvings(total))
    {
      rest := rest / 2;
      pow := pow + 1;
    }
    if pow > 15 {
      s := Scaled(0, 0);
    } else {
      s := Scaled(rest, pow);
    }
  }

  // A merged record spans both records, keeps the five-tuple, and while the totals stay
  // below 2^47 its counts are the sums up to one unit of the exponent.
  lemma MergeFlowKeysMeaning(k1: FlowKey, k2: FlowKey)
    ensures var k := MergeFlowKeys(k1, k2);
      var packets := Total(k1.packets, k1.packetsPow) + Total(k2.packets, k2.packetsPow);
      var size := Total(k1.size, k1.sizePow) + Total(k2.size, k2.sizePow);
      && FlowKeyRank(k) == FlowKeyRank(k1)
      && TsRank(k.firstTs) == (if TsRank(k2.firstTs) < TsRank(k1.firstTs) then TsRank(k2.firstTs)
                               else TsRank(k1.firstTs))
      && TsRank(k.lastTs) == (if TsRank(k1.lastTs) < TsRank(k2.lastTs) then TsRank(k2.lastTs) else TsRank(k1.lastTs))
      && (packets < TOO_LARGE ==> Total(k.packets, k.packetsPow) <= packets < Total(k.packets, k.packetsPow) +
                                  Pow2(k.packetsPow))
      && (size < TOO_LARGE ==> Total(k.size, k.sizePow) <= size < Total(k.size, k.sizePow) + Pow2(k.sizePow))
      && (packets >= TOO_LARGE ==> k.packets == 0 && k.packetsPow == 0)
      && (size >= TOO_LARGE ==> k.size == 0 && k.sizePow == 0)
  {
    ScaleIsClose(Total(k1.packets, k1.packetsPow) + Total(k2.packets, k2.packetsPow));
    ScaleIsClose(Total(k1.size, k1.sizePow) + Total(k2.size, k2.sizePow));
  }

  // ---- The arithmetic as written ----

  // keys.c adds and shifts in 32 bits before widening, and shifts k1's size by the packet
  // exponent.
  function WrittenTotal(m1: U32, p1: nat, m2: U32, p2: nat): U32 {
    (Total(m1, p1) % 0x1_0000_0000 + Total(m2, p2) % 0x1_0000_0000) % 0x1_0000_0000
  }

  function MergePacketsAsWritten(k1: FlowKey, k2: FlowKey): Scaled {
    Scale(WrittenTotal(k1.packets, k1.packetsPow, k2.packets, k2.packetsPow))
  }

  function MergeSizeAsWritten(k1: FlowKey, k2: FlowKey): Scaled {
    Scale(WrittenTotal(k1.size, k1.packetsPow, k2.size, k2.sizePow))
  }

  // The written packet count is the merged one exactly when the sum fits in 32 bits.
  lemma WrittenPacketsRightIffSmall(k1: FlowKey, k2: FlowKey)
    ensures var sum := Total(k1.packets, k1.packetsPow) + Total(k2.packets, k2.packetsPow);
      var w := MergePacketsAsWritten(k1, k2);
      && w.pow == 0
      && (Total(w.mantissa, w.pow) == sum <==> sum <= UINT32_MAX)
      && (sum <= UINT32_MAX ==> w == Scale(sum))
  {
    var a, b := Total(k1.packets, k1.packetsPow), Total(k2.packets, k2.packetsPow);
    WrittenSum(a, b);
    SmallScales(WrittenTotal(k1.packets, k1.packetsPow, k2.packets, k2.packetsPow));
  }

  // What is left of a sum in 32 bits.
  lemma WrittenSum(a: nat, b: nat)
    ensures var t := (a % 0x1_0000_0000 + b % 0x1_0000_0000) % 0x1_0000_0000;
      t <= UINT32_MAX && (t == a + b <==> a + b <= UINT32_MAX)
  {
    ModSum(a, b);
  }

  lemma SmallScales(total: nat)
    requires total <= UINT32_MAX
    ensures Scale(total) == Scaled(total, 0) && Total(total, 0) == total
  {
    assert Pow2(0) == 1;
  }

  // What flow_key_merge makes of two records as it is written.
  function MergeAsWritten(k1: FlowKey, k2: FlowKey): FlowKey {
    var packets, size := MergePacketsAsWritten(k1, k2), MergeSizeAsWritten(k1, k2);
    MergeFlowKeys(k1, k2).(packets := packets.mantissa, packetsPow := packets.pow,
                           size := size.mantissa, sizePow := size.pow)
  }

  // The records of the writer have zero exponents, and the merge as written never makes others.
  lemma WrittenExponentsStayZero(k1: FlowKey, k2: FlowKey)
    ensures MergeAsWritten(k1, k2).packetsPow == MergeAsWritten(k1, k2).sizePow == 0
  {
    SmallScales(WrittenTotal(k1.packets, k1.packetsPow, k2.packets, k2.packetsPow));
    SmallScales(WrittenTotal(k1.size, k1.packetsPow, k2.size, k2.sizePow));
  }

  // So for sizes the wrong exponent does no harm, and the size is right exactly when the sum fits in
  // 32 bits, for every record that there can be.
  lemma WrittenSizeRightIffSmall(k1: FlowKey, k2: FlowKey)
    requires k1.packetsPow == k1.sizePow == k2.sizePow == 0
    ensures var sum := k1.size + k2.size;
      var w := MergeSizeAsWritten(k1, k2);
      && w.pow == 0
      && (w.mantissa == sum <==> sum <= UINT32_MAX)
  {
    AtZero(k1.size);
    AtZero(k2.size);
    SmallScales(WrittenTotal(k1.size, 0, k2.size, 0));
    WrittenSum(k1.size, k2.size);
  }

  lemma AtZero(m: nat)
    ensures Total(m, 0) == m
  {
    assert Pow2(0) == 1;
  }

  lemma ModSum(a: nat, b: nat)
    ensures (a % 0x1_0000_0000 + b % 0x1_0000_0000) % 0x1_0000_0000 == (a + b) % 0x1_0000_0000
  {
  }

  // If only the shift of the packets were right, the exponent of a record merged before would spoil
  // the size: three records from the writer, two of 2^31 packets and the first of one byte.
  lemma WrittenSizeUsesWrongExponent() returns (k1: FlowKey, k2: FlowKey, k3: FlowKey)
    ensures forall k :: k == k1 || k == k2 || k == k3 ==> k.packetsPow == k.sizePow == 0
    ensures var k := MergeFlowKeys(k1, k2);
      && Total(k.size, k.sizePow) + Total(k3.size, k3.sizePow) <= UINT32_MAX
      && MergeSizeAsWritten(k, k3) != Scale(Total(k.size, k.sizePow) + Total(k3.size, k3.sizePow))
  {
    var ip: Ip := IpAddr(IPv4, seq(16, _ => 0));
    var t := Timeval(0, 0);
    k1 := FlowKey(t, t, ip, ip, 0, 0, 0, 0x8000_0000, 0, 1, 0);
    k2 := FlowKey(t, t, ip, ip, 0, 0, 0, 0x8000_0000, 0, 0, 0);
    k3 := FlowKey(t, t, ip, ip, 0, 0, 0, 0, 0, 0, 0);
    MergedOnce(k1, k2);
    MergedTwice(MergeFlowKeys(k1, k2), k3);
  }

  lemma MergedOnce(k1: FlowKey, k2: FlowKey)
    requires k1.packetsPow == k1.sizePow == k2.packetsPow == k2.sizePow == 0
    requires k1.packets == k2.packets == 0x8000_0000 && k1.size == 1 && k2.size == 0
    ensures var k := MergeFlowKeys(k1, k2); k.packetsPow == 1 && k.size == 1 && k.sizePow == 0
  {
    assert Pow2(0) == 1;
    SmallScales(1);
    assert HalvedBy(0x1_0000_0000, 1) == 0x8000_0000 && Halvings(0x1_0000_0000) == 1;
  }

  lemma MergedTwice(k: FlowKey, k3: FlowKey)
    requires k.packetsPow == 1 && k.size == 1 && k.sizePow == 0 && k3.size == 0 && k3.sizePow == 0
    ensures Total(k.size, k.sizePow) + Total(k3.size, k3.sizePow) == 1 && Scale(1) == Scaled(1, 0)
    ensures MergeSizeAsWritten(k, k3) == Scaled(2, 0)
  {
    assert Pow2(0) == 1 && Pow2(1) == 2;
    SmallScales(1);
    SmallScales(2);
  }
}

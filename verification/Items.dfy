// The elements of ordered sets and their bytes (indexer/search/ordered_set.h, indexer/keys.h).

module Items {
  import opened Network
  import opened Keys

  type U64 = n: nat | n < 0x1_0000_0000_0000_0000

  // A flow record together with its place in the capture file.
  datatype FlowRec = FlowRec(key: FlowKey, flowOffset: U64)

  // What an ordered set needs to know about its elements: their bytes, their order, and what
  // a union makes of two equal ones. An element's rank is its position in the order.
  datatype Elements<!T> = Elements(
    size: nat, enc: T -> seq<Byte>, dec: seq<Byte> -> T, rank: T -> nat, merge: (T, T) -> T)

  ghost predicate WellFormed<T(!new)>(e: Elements<T>) {
    && e.size > 0
    && (forall x {:trigger e.enc(x)} :: |e.enc(x)| == e.size && e.dec(e.enc(x)) == x)
    && (forall x, y {:trigger e.merge(x, y)} :: e.rank(x) == e.rank(y) ==> e.rank(e.merge(x, y)) == e.rank(x))
  }

  // ---- Little-endian integers ----

  function LittleEndian(n: nat, width: nat): (b: seq<Byte>)
    ensures |b| == width
  {
    if width == 0 then [] else [n % 256] + LittleEndian(n / 256, width - 1)
  }

  function FromLittleEndian(b: seq<Byte>): nat {
    if b == [] then 0 else b[0] + 256 * FromLittleEndian(b[1..])
  }

  lemma {:induction false} LittleEndianRoundTrip(n: nat, width: nat)
    requires n < Pow256(width)
    ensures FromLittleEndian(LittleEndian(n, width)) == n
  {
    if width > 0 {
      LittleEndianRoundTrip(n / 256, width - 1);
    }
  }

  lemma {:induction false} BytesRoundTrip(b: seq<Byte>)
    ensures LittleEndian(FromLittleEndian(b), |b|) == b
    ensures FromLittleEndian(b) < Pow256(|b|)
  {
    if b != [] {
      BytesRoundTrip(b[1..]);
    }
  }

  lemma DivStep(n: nat, a: nat)
    requires a > 0
    ensures (n / 256) / a == n / (256 * a)
  {
    DivTwice(n, a);
  }

  // The least significant byte comes first.
  lemma {:induction false} LittleEndianDigit(n: nat, width: nat, i: nat)
    requires i < width
    ensures Pow256(i) > 0 && LittleEndian(n, width)[i] == n / Pow256(i) % 256
  {
    PowersPositive(i);
    if i > 0 {
      LittleEndianDigit(n / 256, width - 1, i - 1);
      PowersPositive(i - 1);
      DivStep(n, Pow256(i - 1));
    }
  }

  // ---- Structures as rows of integers ----

  function WidthFrom(widths: seq<nat>, i: nat): nat
    requires i <= |widths|
    decreases |widths| - i
  {
    if i == |widths| then 0 else widths[i] + WidthFrom(widths, i + 1)
  }

  // The fields from i on, one after the other.
  function PackFields(fields: seq<nat>, widths: seq<nat>, i: nat): (b: seq<Byte>)
    requires i <= |fields| == |widths|
    ensures |b| == WidthFrom(widths, i)
    decreases |fields| - i
  {
    if i == |fields| then [] else LittleEndian(fields[i], widths[i]) + PackFields(fields, widths, i + 1)
  }

  function UnpackFields(b: seq<Byte>, widths: seq<nat>, i: nat): (fields: seq<nat>)
    requires i <= |widths| && |b| == WidthFrom(widths, i)
    ensures |fields| == |widths| - i
    decreases |widths| - i
  {
    if i == |widths| then []
    else [FromLittleEndian(b[..widths[i]])] + UnpackFields(b[widths[i]..], widths, i + 1)
  }

  lemma {:induction false} UnpackPacked(fields: seq<nat>, widths: seq<nat>, i: nat)
    requires i <= |fields| == |widths| && forall j :: i <= j < |fields| ==> fields[j] < Pow256(widths[j])
    ensures UnpackFields(PackFields(fields, widths, i), widths, i) == fields[i..]
    decreases |fields| - i
  {
    if i < |fields| {
      var head, rest := LittleEndian(fields[i], widths[i]), PackFields(fields, widths, i + 1);
      assert (head + rest)[..widths[i]] == head && (head + rest)[widths[i]..] == rest;
      LittleEndianRoundTrip(fields[i], widths[i]);
      UnpackPacked(fields, widths, i + 1);
      assert fields[i..] == [fields[i]] + fields[i + 1..];
    }
  }

  // The layout of struct fcap_flow_rec: timestamps, source address, its version, protocol,
  // source port, packets, destination address, its version, the two exponents in one byte,
  // destination port, size, and the offset.
  const FLOW_WIDTHS: seq<nat> := [4, 4, 4, 4, 16, 1, 1, 2, 4, 16, 1, 1, 2, 4, 8]

  function FlowFields(k: FlowKey, offset: U64): (f: seq<nat>)
    ensures |f| == |FLOW_WIDTHS|
  {
    [k.firstTs.sec, k.firstTs.usec, k.lastTs.sec, k.lastTs.usec,
     FromLittleEndian(k.src.addr), k.src.vers, k.proto, k.srcport, k.packets,
     FromLittleEndian(k.dst.addr), k.dst.vers, k.sizePow + 16 * k.packetsPow, k.dstport, k.size, offset]
  }

  function AsByte(n: nat): Byte { n % 256 }
  function AsU32(n: nat): U32 { n % 0x1_0000_0000 }
  function AsPort(n: nat): Port { n % 0x1_0000 }

  function AddressOf(n: nat, vers: Byte): Ip { IpAddr(vers, LittleEndian(n, FLOW_WIDTHS[4])) }

  lemma AddressRoundTrip(ip: Ip)
    ensures AddressOf(FromLittleEndian(ip.addr), ip.vers) == ip
    ensures FromLittleEndian(ip.addr) < IP_SPAN
  {
    Pow256Values();
    BytesRoundTrip(ip.addr);
  }

  function FlowFromFields(f: seq<nat>): FlowRec
    requires |f| == |FLOW_WIDTHS|
  {
    FlowRec(FlowKey(
      Timeval(AsU32(f[0]), AsU32(f[1])), Timeval(AsU32(f[2]), AsU32(f[3])),
      AddressOf(f[4], AsByte(f[5])), AddressOf(f[9], AsByte(f[10])),
      AsPort(f[7]), AsPort(f[12]), AsByte(f[6]),
      AsU32(f[8]), AsByte(f[11]) / 16, AsU32(f[13]), AsByte(f[11]) % 16),
      f[14] % 0x1_0000_0000_0000_0000)
  }

  lemma FlowFieldsRoundTrip(k: FlowKey, offset: U64)
    ensures FlowFromFields(FlowFields(k, offset)) == FlowRec(k, offset)
  {
    AddressRoundTrip(k.src);
    AddressRoundTrip(k.dst);
  }

  lemma FlowFieldsFit(k: FlowKey, offset: U64)
    ensures forall i :: 0 <= i < |FLOW_WIDTHS| ==> FlowFields(k, offset)[i] < Pow256(FLOW_WIDTHS[i])
  {
    AddressRoundTrip(k.src);
    AddressRoundTrip(k.dst);
    Pow256Values();
    assert Pow256(1) == 256 && Pow256(2) == 0x1_0000;
    assert Pow256(6) == 0x1_0000_0000_0000;
    assert Pow256(8) == 0x1_0000_0000_0000_0000;
  }

  lemma FlowSize()
    ensures WidthFrom(FLOW_WIDTHS, 0) == 72
  {
    assert WidthFrom(FLOW_WIDTHS, 13) == 12;
    assert WidthFrom(FLOW_WIDTHS, 11) == 15;
    assert WidthFrom(FLOW_WIDTHS, 9) == 32;
    assert WidthFrom(FLOW_WIDTHS, 7) == 38;
    assert WidthFrom(FLOW_WIDTHS, 5) == 40;
    assert WidthFrom(FLOW_WIDTHS, 3) == 60;
    assert WidthFrom(FLOW_WIDTHS, 1) == 68;
  }

  // ---- The two kinds of elements ----

  const OFFSET_SIZE: nat := FLOW_WIDTHS[14]

  function EncodeOffset(v: U64): seq<Byte> { LittleEndian(v, OFFSET_SIZE) }
  function DecodeOffset(b: seq<Byte>): U64 { FromLittleEndian(b) % 0x1_0000_0000_0000_0000 }

  // OSET_OFFSET: offsets into a flow index. Equal offsets are the same element.
  function Offsets(): Elements<U64> {
    Elements(8, EncodeOffset, DecodeOffset, (v: U64) => v, (v: U64, w: U64) => v)
  }

  function EncodeFlow(r: FlowRec): seq<Byte> { PackFields(FlowFields(r.key, r.flowOffset), FLOW_WIDTHS, 0) }

  function DecodeFlow(b: seq<Byte>): FlowRec {
    FlowFromFields(if |b| == WidthFrom(FLOW_WIDTHS, 0) then UnpackFields(b, FLOW_WIDTHS, 0)
                   else seq(|FLOW_WIDTHS|, _ => 0))
  }

  // OSET_FLOW: flow records; records of one flow are merged.
  function FlowRecs(): Elements<FlowRec> {
    Elements(72, EncodeFlow, DecodeFlow, (r: FlowRec) => FlowKeyRank(r.key),
             (r: FlowRec, s: FlowRec) => FlowRec(MergeFlowKeys(r.key, s.key), r.flowOffset))
  }

  lemma OffsetsWellFormed()
    ensures WellFormed(Offsets())
  {
    assert Pow256(8) == 0x1_0000_0000_0000_0000 by { Pow256Values(); assert Pow256(6) == 0x1_0000_0000_0000; }
    forall v: U64 ensures DecodeOffset(EncodeOffset(v)) == v {
      LittleEndianRoundTrip(v, OFFSET_SIZE);
    }
  }

  lemma FlowRoundTrip(r: FlowRec)
    ensures |EncodeFlow(r)| == 72 && DecodeFlow(EncodeFlow(r)) == r
  {
    FlowSize();
    var f := FlowFields(r.key, r.flowOffset);
    FlowFieldsFit(r.key, r.flowOffset);
    UnpackPacked(f, FLOW_WIDTHS, 0);
    assert f[0..] == f;
    FlowFieldsRoundTrip(r.key, r.flowOffset);
  }

  // Flow records survive being written to a buffer or a file, and merging keeps their place.
  lemma FlowRecsWellFormed()
    ensures WellFormed(FlowRecs())
  {
    var e := FlowRecs();
    forall r: FlowRec ensures |e.enc(r)| == 72 && e.dec(e.enc(r)) == r {
      FlowRoundTrip(r);
    }
    forall r: FlowRec, s: FlowRec ensures e.rank(e.merge(r, s)) == e.rank(r) {
      MergeFlowKeysMeaning(r.key, s.key);
    }
  }
}

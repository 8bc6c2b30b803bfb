// The flow index and the capture file beside it (indexer/output.c).

module FlowFile {
  import opened Network
  import opened Keys
  import opened Items
  import opened IndexTree
  import LeftFilled

  const PCAP_HEADER: nat := 24
  const PACKET_HEADER: nat := 16
  const INDEX_HEADER := LeftFilled.HEADER_SIZE
  const FLOW_KEY: nat := 64

  // What a flow index entry takes.
  function EntrySize(offset64: bool): nat { FLOW_KEY + if offset64 then 8 else 4 }

  function Stamp(p: PacketRecord): Timeval { Timeval(p.tsSec, p.tsUsec) }

  // What packets take in the capture file.
  ghost function Bytes(ps: seq<PacketRecord>): nat {
    if ps == [] then 0 else Bytes(ps[..|ps| - 1]) + PACKET_HEADER + ps[|ps| - 1].caplen
  }

  lemma {:induction false} BytesAppend(a: seq<PacketRecord>, b: seq<PacketRecord>)
    ensures Bytes(a + b) == Bytes(a) + Bytes(b)
  {
    if b == [] {
      assert a + b == a;
    } else {
      BytesAppend(a, b[..|b| - 1]);
      assert (a + b)[..|a + b| - 1] == a + b[..|b| - 1];
    }
  }

  // The packets of a flow: the one the node was made for, then those added to its list.
  function Packets(n: IndexNode): (ps: seq<PacketRecord>)
    reads n`pkts
    ensures ps != []
  {
    [n.key] + n.pkts
  }

  // The body of a capture file with these flows.
  ghost function Body(flows: seq<seq<PacketRecord>>): seq<PacketRecord> {
    if flows == [] then [] else Body(flows[..|flows| - 1]) + flows[|flows| - 1]
  }

  // The entry for a flow whose packets start at `pos`. Counts and, unless 64 bits are used,
  // the offset are cut to 32 bits.
  ghost function EntryFor(ps: seq<PacketRecord>, pos: nat, offset64: bool): FlowRec
    requires ps != []
  {
    var first, last := ps[0], ps[|ps| - 1];
    FlowRec(FlowKey(Stamp(first), Stamp(last), first.src, first.dst, first.srcport, first.dstport, first.proto,
                    |ps| % 0x1_0000_0000, 0, Bytes(ps) % 0x1_0000_0000, 0),
            if offset64 then pos % 0x1_0000_0000_0000_0000 else pos % 0x1_0000_0000)
  }

  ghost predicate NoneEmpty(flows: seq<seq<PacketRecord>>) {
    forall i :: 0 <= i < |flows| ==> flows[i] != []
  }

  // The entries for these flows.
  ghost function Entries(flows: seq<seq<PacketRecord>>, offset64: bool): (r: seq<FlowRec>)
    requires NoneEmpty(flows)
    ensures |r| == |flows|
  {
    if flows == [] then []
    else
      var front := flows[..|flows| - 1];
      Entries(front, offset64) + [EntryFor(flows[|flows| - 1], PCAP_HEADER + Bytes(Body(front)), offset64)]
  }

  lemma OneMoreFlow(flows: seq<seq<PacketRecord>>, ps: seq<PacketRecord>, offset64: bool)
    requires ps != [] && NoneEmpty(flows)
    ensures NoneEmpty(flows + [ps])
    ensures Body(flows + [ps]) == Body(flows) + ps && Bytes(Body(flows + [ps])) == Bytes(Body(flows)) + Bytes(ps)
    ensures Entries(flows + [ps], offset64) ==
      Entries(flows, offset64) + [EntryFor(ps, PCAP_HEADER + Bytes(Body(flows)), offset64)]
  {
    assert (flows + [ps])[..|flows|] == flows;
    BytesAppend(Body(flows), ps);
  }

  // Where flow k starts.
  ghost function StartOf(flows: seq<seq<PacketRecord>>, k: nat): nat
    requires k <= |flows|
  {
    PCAP_HEADER + Bytes(Body(flows[..k]))
  }

  lemma StartOfNext(flows: seq<seq<PacketRecord>>, k: nat)
    requires k < |flows|
    ensures StartOf(flows, k + 1) == StartOf(flows, k) + Bytes(flows[k])
  {
    assert flows[..k + 1][..k] == flows[..k];
    BytesAppend(Body(flows[..k]), flows[k]);
  }

  lemma {:induction false} StartsAscend(flows: seq<seq<PacketRecord>>, k: nat)
    requires k <= |flows|
    ensures StartOf(flows, k) <= StartOf(flows, |flows|)
    decreases |flows| - k
  {
    if k < |flows| {
      StartOfNext(flows, k);
      StartsAscend(flows, k + 1);
    }
  }

  lemma {:induction false} EntryAt(flows: seq<seq<PacketRecord>>, offset64: bool, k: nat)
    requires NoneEmpty(flows) && k < |flows|
    ensures Entries(flows, offset64)[k] == EntryFor(flows[k], StartOf(flows, k), offset64)
    decreases |flows|
  {
    if k < |flows| - 1 {
      EntryAt(flows[..|flows| - 1], offset64, k);
      assert flows[..|flows| - 1][..k] == flows[..k];
    }
  }

  // While the capture file stays within the width of its offsets, the entries tile its body:
  // each flow starts where the one before it ends, and nothing is left over.
  lemma {:induction false} EntriesTile(flows: seq<seq<PacketRecord>>, offset64: bool, k: nat)
    requires NoneEmpty(flows) && k < |flows| && Bytes(flows[k]) < 0x1_0000_0000
    requires PCAP_HEADER + Bytes(Body(flows)) < if offset64 then 0x1_0000_0000_0000_0000 else 0x1_0000_0000
    ensures var e := Entries(flows, offset64);
      && (k == 0 ==> e[k].flowOffset == PCAP_HEADER)
      && e[k].flowOffset + e[k].key.size ==
           if k + 1 < |e| then e[k + 1].flowOffset else PCAP_HEADER + Bytes(Body(flows))
  {
    assert flows[..|flows|] == flows;
    EntryAt(flows, offset64, k);
    StartOfNext(flows, k);
    StartsAscend(flows, k);
    StartsAscend(flows, k + 1);
    EntryValues(flows[k], StartOf(flows, k), offset64);
    if k + 1 < |flows| {
      EntryAt(flows, offset64, k + 1);
      EntryValues(flows[k + 1], StartOf(flows, k + 1), offset64);
    }
  }

  lemma EntryValues(ps: seq<PacketRecord>, pos: nat, offset64: bool)
    requires ps != [] && pos < if offset64 then 0x1_0000_0000_0000_0000 else 0x1_0000_0000
    ensures EntryFor(ps, pos, offset64).flowOffset == pos
    ensures Bytes(ps) < 0x1_0000_0000 ==> EntryFor(ps, pos, offset64).key.size == Bytes(ps)
  {
  }

  // ---- What an entry says, field by field ----

  // The bytes captured of some packets.
  ghost function Captured(ps: seq<PacketRecord>): nat {
    if ps == [] then 0 else Captured(ps[..|ps| - 1]) + ps[|ps| - 1].caplen
  }

  // Each packet takes a header of sixteen bytes and what was captured of it.
  lemma {:induction false} BytesAre(ps: seq<PacketRecord>)
    ensures Bytes(ps) == 16 * |ps| + Captured(ps)
  {
    if ps != [] {
      BytesAre(ps[..|ps| - 1]);
    }
  }

  // The entry of a flow: the times of its first and its last packet, the addresses, ports and
  // protocol of the first, and how many packets and bytes there are, without an exponent.
  lemma EntryFields(flows: seq<seq<PacketRecord>>, offset64: bool, k: nat)
    requires NoneEmpty(flows) && k < |flows| && |flows[k]| < 0x1_0000_0000
    ensures var key, first, last := Entries(flows, offset64)[k].key, flows[k][0], flows[k][|flows[k]| - 1];
      && key.packets == |flows[k]| && key.packetsPow == key.sizePow == 0
      && key.firstTs.sec == first.tsSec && key.firstTs.usec == first.tsUsec
      && key.lastTs.sec == last.tsSec && key.lastTs.usec == last.tsUsec
      && key.src == first.src && key.dst == first.dst
      && key.srcport == first.srcport && key.dstport == first.dstport && key.proto == first.proto
      && (16 * |flows[k]| + Captured(flows[k]) < 0x1_0000_0000 ==>
            key.size == 16 * |flows[k]| + Captured(flows[k]))
  {
    EntryAt(flows, offset64, k);
    BytesAre(flows[k]);
  }

  // The packets that the entries count.
  ghost function Counted(entries: seq<FlowRec>): nat {
    if entries == [] then 0 else Counted(entries[..|entries| - 1]) + entries[|entries| - 1].key.packets
  }

  lemma {:induction false} CountedIsBody(flows: seq<seq<PacketRecord>>, offset64: bool)
    requires NoneEmpty(flows) && forall k :: 0 <= k < |flows| ==> |flows[k]| < 0x1_0000_0000
    ensures Counted(Entries(flows, offset64)) == |Body(flows)|
  {
    if flows != [] {
      var front := flows[..|flows| - 1];
      CountedIsBody(front, offset64);
      assert Entries(flows, offset64)[..|front|] == Entries(front, offset64);
      EntryFields(flows, offset64, |front|);
    }
  }

  lemma ModStep(a: nat, b: nat)
    ensures (a % 0x1_0000_0000 + b) % 0x1_0000_0000 == (a + b) % 0x1_0000_0000
  {
  }

  class FlowWriter {
    const offset64: bool
    // The capture file's body and the place to write to, and the entries of the flow index.
    var fcap: seq<PacketRecord>
    var fcapPos: nat
    var entries: seq<FlowRec>
    // The packets of each flow written.
    ghost var flows: seq<seq<PacketRecord>>

    ghost predicate Valid()
      reads this
    {
      && NoneEmpty(flows)
      && fcap == Body(flows) && fcapPos == PCAP_HEADER + Bytes(fcap) && entries == Entries(flows, offset64)
    }

    constructor (offset64: bool)
      ensures this.offset64 == offset64 && Valid() && flows == []
    {
      this.offset64 := offset64;
      fcap, fcapPos, entries, flows := [], PCAP_HEADER, [], [];
    }

    method WritePacket(p: PacketRecord)
      modifies this`fcap, this`fcapPos
      ensures fcap == old(fcap) + [p] && fcapPos == old(fcapPos) + PACKET_HEADER + p.caplen
    {
      fcap := fcap + [p];
      fcapPos := fcapPos + PACKET_HEADER + p.caplen;
    }

    // The packets of a flow, their number and their bytes.
    method WritePackets(ps: seq<PacketRecord>) returns (packets: U32, size: U32)
      modifies this`fcap, this`fcapPos
      ensures fcap == old(fcap) + ps && fcapPos == old(fcapPos) + Bytes(ps)
      ensures packets == |ps| % 0x1_0000_0000 && size == Bytes(ps) % 0x1_0000_0000
    {
      packets, size := 0, 0;
      for i := 0 to |ps|
        invariant fcap == old(fcap) + ps[..i] && fcapPos == old(fcapPos) + Bytes(ps[..i])
        invariant packets == i % 0x1_0000_0000 && size == Bytes(ps[..i]) % 0x1_0000_0000
      {
        WritePacket(ps[i]);
        assert ps[..i + 1] == ps[..i] + [ps[i]] && ps[..i + 1][..i] == ps[..i];
        ModStep(Bytes(ps[..i]), ps[i].caplen + PACKET_HEADER);
        ModStep(i, 1);
        size := (size + ps[i].caplen + PACKET_HEADER) % 0x1_0000_0000;
        packets := (packets + 1) % 0x1_0000_0000;
      }
      assert ps[..|ps|] == ps;
    }

    // write_flow.
    method WriteFlow(node: IndexNode)
      requires Valid()
      modifies this, node`flowIndexOffset
      ensures Valid() && flows == old(flows) + [Packets(node)]
      ensures node.flowIndexOffset == INDEX_HEADER + |old(flows)| * EntrySize(offset64)
    {
      var fcapOffset := fcapPos;
      node.flowIndexOffset := INDEX_HEADER + |entries| * EntrySize(offset64);
      var ps := Packets(node);
      var packets, size := WritePackets(ps);
      var key := KeyFor(node, packets, size, fcapOffset);
      AddEntry(key, fcapOffset, ps);
    }

    // The entry in the flow index.
    method AddEntry(key: FlowKey, fcapOffset: nat, ghost ps: seq<PacketRecord>)
      requires ps != [] && NoneEmpty(flows) && entries == Entries(flows, offset64)
      requires fcapOffset == PCAP_HEADER + Bytes(Body(flows)) && key == EntryFor(ps, fcapOffset, offset64).key
      requires fcap == Body(flows) + ps && fcapPos == fcapOffset + Bytes(ps)
      modifies this`entries, this`flows
      ensures Valid() && flows == old(flows) + [ps]
    {
      OneMoreFlow(flows, ps, offset64);
      var offset := if offset64 then fcapOffset % 0x1_0000_0000_0000_0000 else fcapOffset % 0x1_0000_0000;
      entries := entries + [FlowRec(key, offset)];
      flows := flows + [ps];
    }

    method KeyFor(node: IndexNode, packets: U32, size: U32, ghost pos: nat) returns (key: FlowKey)
      requires packets == |Packets(node)| % 0x1_0000_0000 && size == Bytes(Packets(node)) % 0x1_0000_0000
      ensures key == EntryFor(Packets(node), pos, offset64).key
    {
      ghost var ps := Packets(node);
      assert ps[|ps| - 1] == if node.pkts == [] then node.key else node.pkts[|node.pkts| - 1];
      var last := if node.pkts == [] then Stamp(node.key) else Stamp(node.pkts[|node.pkts| - 1]);
      key := FlowKey(Stamp(node.key), last, node.key.src, node.key.dst, node.key.srcport, node.key.dstport,
                     node.key.proto,
                     packets, 0, size, 0);
    }
  }
}

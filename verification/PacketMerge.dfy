// Merging flows into one capture in the order of time (indexer/search/packets.c).

module PacketMerge {
  import opened Sequences
  import opened Network

  type Packets = seq<PacketRecord>

  // The first is no later than the second: by the seconds and then the microseconds.
  predicate InOrder(p: PacketRecord, q: PacketRecord) {
    p.tsSec < q.tsSec || (p.tsSec == q.tsSec && p.tsUsec <= q.tsUsec)
  }

  ghost predicate TimeOrdered(ps: Packets) {
    forall i, j :: 0 <= i < j < |ps| ==> InOrder(ps[i], ps[j])
  }

  // A timestamp as one number.
  function Time(p: PacketRecord): nat { p.tsSec * 0x1_0000_0000 + p.tsUsec }

  lemma InOrderByTime(p: PacketRecord, q: PacketRecord)
    ensures InOrder(p, q) <==> Time(p) <= Time(q)
  {
  }

  // ---- The pairing heap ----

  class FlowHeap {
    // Which of the flows this is, and its packets.
    const flow: nat
    const packets: Packets
    // The next packet to write, and its timestamp.
    var header: nat
    var tsSec: U32
    var tsUsec: U32
    var child: FlowHeap?
    var sibling: FlowHeap?

    // fh_init.
    constructor (flow: nat, packets: Packets)
      requires packets != []
      ensures this.flow == flow && this.packets == packets && header == 0 && child == null && sibling == null
      ensures tsSec == packets[0].tsSec && tsUsec == packets[0].tsUsec
    {
      this.flow, this.packets := flow, packets;
      header, child, sibling := 0, null, null;
      tsSec, tsUsec := packets[0].tsSec, packets[0].tsUsec;
    }

    function Now(): nat reads `tsSec, `tsUsec { tsSec * 0x1_0000_0000 + tsUsec }

    // fh_eof.
    predicate Eof() reads `header { header >= |packets| }
  }

  // What hangs below and beside a node.
  datatype Shape = None | Some(n: FlowHeap, child: Shape, sib: Shape)

  ghost function Nodes(s: Shape): set<FlowHeap> {
    match s
    case None => {}
    case Some(n, c, b) => {n} + Nodes(c) + Nodes(b)
  }

  // No node is in two places.
  ghost predicate NoneTwice(s: Shape) {
    match s
    case None => true
    case Some(n, c, b) => n !in Nodes(c) && n !in Nodes(b) && Nodes(c) !! Nodes(b) && NoneTwice(c) && NoneTwice(b)
  }

  ghost predicate IsHeap(p: FlowHeap?, s: Shape)
    reads Nodes(s)`child, Nodes(s)`sibling
  {
    match s
    case None => p == null
    case Some(n, c, b) => p == n && IsHeap(n.child, c) && IsHeap(n.sibling, b)
  }

  // Nothing below a node is earlier than it, and nothing at all earlier than `least`.
  ghost predicate HeapOrder(s: Shape, least: int)
    reads Nodes(s)`tsSec, Nodes(s)`tsUsec
  {
    match s
    case None => true
    case Some(n, c, b) => least <= n.Now() && HeapOrder(c, n.Now()) && HeapOrder(b, least)
  }

  // A whole heap: its root has no sibling.
  ghost predicate Root(p: FlowHeap?, s: Shape)
    reads Nodes(s)`child, Nodes(s)`sibling, Nodes(s)`tsSec, Nodes(s)`tsUsec
  {
    IsHeap(p, s) && NoneTwice(s) && (s.Some? ==> s.sib == None && HeapOrder(s.child, s.n.Now()))
  }

  lemma {:induction false} LowerBound(s: Shape, least: int, less: int)
    requires HeapOrder(s, least) && less <= least
    ensures HeapOrder(s, less)
  {
    if s.Some? {
      LowerBound(s.sib, least, less);
    }
  }

  lemma {:induction false} NoneEarlier(s: Shape, least: int)
    requires HeapOrder(s, least)
    ensures forall n <- Nodes(s) :: least <= n.Now()
  {
    if s.Some? {
      NoneEarlier(s.child, s.n.Now());
      NoneEarlier(s.sib, least);
    }
  }

  // The root of a heap is the flow with the earliest packet.
  lemma RootIsEarliest(p: FlowHeap, s: Shape)
    requires Root(p, s)
    ensures forall n <- Nodes(s) :: p.Now() <= n.Now()
    ensures forall n <- Nodes(s) :: p.tsSec < n.tsSec || (p.tsSec == n.tsSec && p.tsUsec <= n.tsUsec)
  {
    NoneEarlier(s.child, s.n.Now());
  }

  // Two heaps made one: the later root becomes the first child of the earlier.
  ghost function Merged(a: Shape, b: Shape): Shape
    requires a.Some? && b.Some?
    reads a.n, b.n
  {
    if a.n.Now() < b.n.Now() then Some(a.n, Some(b.n, b.child, a.child), None)
    else Some(b.n, Some(a.n, a.child, b.child), None)
  }

  // fh_merge.
  method Merge(fh1: FlowHeap?, fh2: FlowHeap, ghost a: Shape, ghost b: Shape) returns (fh: FlowHeap, ghost s: Shape)
    requires Root(fh1, a) && Root(fh2, b) && Nodes(a) !! Nodes(b)
    modifies Nodes(a)`child, Nodes(a)`sibling, Nodes(b)`child, Nodes(b)`sibling
    ensures Root(fh, s) && Nodes(s) == Nodes(a) + Nodes(b)
    ensures fh == if fh1 != null && (fh1.tsSec < fh2.tsSec || (fh1.tsSec == fh2.tsSec && fh1.tsUsec < fh2.tsUsec))
                  then fh1 else fh2
  {
    if fh1 == null {
      return fh2, b;
    }
    s := Merged(a, b);
    if fh1.tsSec < fh2.tsSec || (fh1.tsSec == fh2.tsSec && fh1.tsUsec < fh2.tsUsec) {
      fh2.sibling := fh1.child;
      fh1.child := fh2;
      fh := fh1;
    } else {
      fh1.sibling := fh2.child;
      fh2.child := fh1;
      fh := fh2;
    }
  }

  lemma NothingThere(s: Shape)
    requires IsHeap(null, s)
    ensures s == None
  {
  }

  lemma NothingBeside(fh: FlowHeap, s: Shape)
    requires Root(fh, s)
    ensures fh.sibling == null && s.n == fh && s.sib == None
  {
    assert IsHeap(fh.sibling, s.sib);
  }

  // A row of siblings without an order among them.
  ghost predicate Row(p: FlowHeap?, s: Shape, least: int)
    reads Nodes(s)`child, Nodes(s)`sibling, Nodes(s)`tsSec, Nodes(s)`tsUsec
  {
    IsHeap(p, s) && NoneTwice(s) && HeapOrder(s, least)
  }

  // Takes the first of a row from its sibling.
  method Detach(fh: FlowHeap, ghost s: Shape, ghost least: int) returns (sibling: FlowHeap?)
    requires Row(fh, s, least)
    modifies fh`sibling
    ensures Root(fh, Some(s.n, s.child, None)) && Row(sibling, s.sib, least) && s.n == fh && least <= fh.Now()
    ensures sibling == old(fh.sibling)
  {
    sibling := fh.sibling;
    fh.sibling := null;
  }

  // fh_merge_pairs: one heap from a row of siblings.
  method MergePairs(fh: FlowHeap, ghost s: Shape, ghost least: int, ghost nodes: set<FlowHeap>)
    returns (root: FlowHeap, ghost r: Shape)
    requires Row(fh, s, least) && nodes == Nodes(s)
    modifies nodes`child, nodes`sibling
    ensures Root(root, r) && Nodes(r) == nodes && least <= root.Now()
    decreases s, 0
  {
    if fh.sibling == null {
      NothingThere(s.sib);
      return fh, s;
    }
    var sibling := Detach(fh, s, least);
    ghost var a := Some(s.n, s.child, None);
    if sibling.sibling == null {
      NothingThere(s.sib.sib);
      root, r := Merge(fh, sibling, a, s.sib);
      return;
    }
    var gSibling := Detach(sibling, s.sib, least);
    ghost var b := Some(s.sib.n, s.sib.child, None);
    root, r := MergeRest(fh, sibling, gSibling, a, b, s.sib.sib, least, nodes);
  }

  // The end of fh_merge_pairs: a pair, then the rest of the row, then both.
  method MergeRest(fh: FlowHeap, sibling: FlowHeap, gSibling: FlowHeap, ghost a: Shape, ghost b: Shape,
                   ghost rest: Shape,
                   ghost least: int, ghost nodes: set<FlowHeap>)
    returns (root: FlowHeap, ghost r: Shape)
    requires Root(fh, a) && Root(sibling, b) && Row(gSibling, rest, least) && least <= fh.Now() &&
             least <= sibling.Now()
    requires Nodes(a) !! Nodes(b) && Nodes(a) + Nodes(b) !! Nodes(rest) && nodes == Nodes(a) + Nodes(b) + Nodes(rest)
    modifies nodes`child, nodes`sibling
    ensures Root(root, r) && Nodes(r) == nodes && least <= root.Now()
    decreases rest, 1
  {
    assert allocated(Nodes(rest));
    var merged, neighbor;
    ghost var m, n;
    merged, m := Merge(fh, sibling, a, b);
    neighbor, n := MergePairs(gSibling, rest, least, Nodes(rest));
    root, r := Merge(merged, neighbor, m, n);
  }

  // fh_del_min: the heap without its root.
  method DelMin(fh: FlowHeap, ghost s: Shape) returns (root: FlowHeap?, ghost r: Shape)
    requires Root(fh, s)
    modifies Nodes(s)`child, Nodes(s)`sibling
    ensures Root(root, r) && Nodes(r) == Nodes(s) - {fh}
    ensures fh.child == null && fh.sibling == null
  {
    NothingBeside(fh, s);
    var child := fh.child;
    if child == null {
      NothingThere(s.child);
      return null, None;
    }
    assert allocated(Nodes(s.child));
    fh.child := null;
    root, r := MergePairs(child, s.child, fh.Now(), Nodes(s.child));
  }

  // fh_write_packet. The timestamp moves on only while there is a packet to take it from.
  method WritePacket(fh: FlowHeap) returns (p: PacketRecord)
    requires !fh.Eof()
    modifies fh`header, fh`tsSec, fh`tsUsec
    ensures p == fh.packets[old(fh.header)] && fh.header == old(fh.header) + 1
    ensures !fh.Eof() ==> fh.Now() == Time(fh.packets[fh.header])
  {
    p := fh.packets[fh.header];
    fh.header := fh.header + 1;
    if !fh.Eof() {
      fh.tsSec, fh.tsUsec := fh.packets[fh.header].tsSec, fh.packets[fh.header].tsUsec;
    }
  }

  // ---- What the merge is for ----

  // The packets in `out` that were taken from flow i, when picks says where each is from.
  ghost function From(picks: seq<nat>, out: Packets, i: nat): Packets
    requires |picks| == |out|
  {
    if out == [] then []
    else
      var m := |out| - 1;
      From(picks[..m], out[..m], i) + if picks[m] == i then [out[m]] else []
  }

  lemma FromOneMore(picks: seq<nat>, out: Packets, pick: nat, p: PacketRecord, i: nat)
    requires |picks| == |out|
    ensures From(picks + [pick], out + [p], i) == From(picks, out, i) + if pick == i then [p] else []
  {
    assert (picks + [pick])[..|out|] == picks && (out + [p])[..|out|] == out;
  }

  // Every packet of every flow is in `out` once, those of each flow in their order.
  ghost predicate Interleaves(out: Packets, picks: seq<nat>, flows: seq<Packets>) {
    && |picks| == |out| && (forall k :: 0 <= k < |picks| ==> picks[k] < |flows|)
    && forall i :: 0 <= i < |flows| ==> From(picks, out, i) == flows[i]
  }

  lemma {:induction false} FromPlaces(picks: seq<nat>, out: Packets, i: nat) returns (at: seq<nat>)
    requires |picks| == |out|
    ensures PicksOut(out, at, From(picks, out, i))
    ensures forall n: nat :: n in at <==> n < |out| && picks[n] == i
  {
    at := [];
    if out != [] {
      var m := |out| - 1;
      at := FromPlaces(picks[..m], out[..m], i);
      PicksOutMore(out[..m], at, From(picks[..m], out[..m], i), out[m]);
      assert out[..m] + [out[m]] == out;
      at := at + if picks[m] == i then [m] else [];
    }
  }

  // That is, each place of `out` belongs to one flow, and the places that belong to a flow have its
  // packets in their order.
  lemma InterleavesPlaces(out: Packets, picks: seq<nat>, flows: seq<Packets>, i: nat) returns (at: seq<nat>)
    requires Interleaves(out, picks, flows) && i < |flows|
    ensures PicksOut(out, at, flows[i]) && forall n: nat :: n in at <==> n < |out| && picks[n] == i
  {
    at := FromPlaces(picks, out, i);
  }

  // How many packets of each flow have been written.
  type Heads = seq<nat>

  ghost predicate Taken(out: Packets, picks: seq<nat>, flows: seq<Packets>, heads: Heads) {
    && |picks| == |out| && |heads| == |flows| && (forall k :: 0 <= k < |picks| ==> picks[k] < |flows|)
    && forall i :: 0 <= i < |flows| ==> heads[i] <= |flows[i]| && From(picks, out, i) == flows[i][..heads[i]]
  }

  lemma TakenOneMore(out: Packets, picks: seq<nat>, flows: seq<Packets>, heads: Heads, f: nat)
    requires Taken(out, picks, flows, heads) && f < |flows| && heads[f] < |flows[f]|
    ensures Taken(out + [flows[f][heads[f]]], picks + [f], flows, heads[f := heads[f] + 1])
  {
    var p := flows[f][heads[f]];
    forall i | 0 <= i < |flows|
      ensures From(picks + [f], out + [p], i) == flows[i][..heads[f := heads[f] + 1][i]]
    {
      FromOneMore(picks, out, f, p, i);
    }
  }

  // The packets still to be written.
  ghost function Left(flows: seq<Packets>, heads: Heads): nat
    requires |heads| == |flows| && forall i :: 0 <= i < |flows| ==> heads[i] <= |flows[i]|
  {
    if flows == [] then 0
    else
      var m := |flows| - 1;
      Left(flows[..m], heads[..m]) + |flows[m]| - heads[m]
  }

  lemma {:induction false} LeftOneLess(flows: seq<Packets>, heads: Heads, f: nat)
    requires |heads| == |flows| && forall i :: 0 <= i < |flows| ==> heads[i] <= |flows[i]|
    requires f < |flows| && heads[f] < |flows[f]|
    ensures Left(flows, heads[f := heads[f] + 1]) == Left(flows, heads) - 1
  {
    var m := |flows| - 1;
    var heads1 := heads[f := heads[f] + 1];
    if f < m {
      LeftOneLess(flows[..m], heads[..m], f);
      assert heads1[..m] == heads[..m][f := heads[f] + 1];
    } else {
      assert heads1[..m] == heads[..m];
    }
  }

  // Node i of ns is at its place in flow i, and in the heap as long as the flow has packets.
  ghost predicate AtHeads(ns: seq<FlowHeap>, flows: seq<Packets>, heads: Heads, nodes: set<FlowHeap>)
    reads ns`header, ns`tsSec, ns`tsUsec
  {
    && |ns| <= |flows| == |heads|
    && (forall i :: 0 <= i < |ns| ==> AtHead(ns[i], i, flows[i], heads[i]) &&
                                      (ns[i] in nodes <==> heads[i] < |flows[i]|))
    && forall n <- nodes :: n.flow < |ns| && ns[n.flow] == n
  }

  ghost predicate AtHead(n: FlowHeap, i: nat, packets: Packets, head: nat)
    reads n`header, n`tsSec, n`tsUsec
  {
    && n.flow == i && n.packets == packets && n.header == head <= |packets|
    && (head < |packets| ==> n.Now() == Time(packets[head]))
  }

  method WriteHead(fh: FlowHeap, ghost ns: seq<FlowHeap>, ghost flows: seq<Packets>, ghost heads: Heads,
                   ghost nodes: set<FlowHeap>)
    returns (p: PacketRecord)
    requires AtHeads(ns, flows, heads, nodes) && fh in nodes
    modifies fh`header, fh`tsSec, fh`tsUsec
    ensures heads[fh.flow] < |flows[fh.flow]| && p == flows[fh.flow][heads[fh.flow]] && Time(p) == old(fh.Now())
    ensures fh.Eof() <==> heads[fh.flow] + 1 == |flows[fh.flow]|
    ensures AtHeads(ns, flows, heads[fh.flow := heads[fh.flow] + 1], nodes - if fh.Eof() then {fh} else {})
  {
    assert ns[fh.flow] == fh && AtHead(fh, fh.flow, flows[fh.flow], heads[fh.flow]);
    p := WritePacket(fh);
  }

  // One round of the merge loop of pcap_fetch.
  method MergeRound(root: FlowHeap, ghost s: Shape, ghost ns: seq<FlowHeap>, ghost flows: seq<Packets>,
                    ghost heads: Heads,
                    ghost nodes: set<FlowHeap>)
    returns (p: PacketRecord, root1: FlowHeap?, ghost s1: Shape, ghost heads1: Heads)
    requires Root(root, s) && nodes == Nodes(s) && AtHeads(ns, flows, heads, nodes)
    modifies nodes
    ensures root.flow < |ns| && heads[root.flow] < |flows[root.flow]| && p == flows[root.flow][heads[root.flow]]
    ensures Time(p) == old(root.Now()) && heads1 == heads[root.flow := heads[root.flow] + 1]
    ensures Root(root1, s1) && AtHeads(ns, flows, heads1, Nodes(s1)) && Nodes(s1) <= nodes
    ensures forall n <- Nodes(s1) :: n != root ==> n.Now() == old(n.Now())
  {
    var next := root;
    heads1 := heads[root.flow := heads[root.flow] + 1];
    root1, s1 := DelMin(root, s);
    assert next in nodes && next !in Nodes(s1);
    p := WriteHead(next, ns, flows, heads, nodes);
    assert Root(root1, s1);
    if !next.Eof() {
      ghost var alone := Some(next, None, None);
      assert Root(next, alone);
      root1, s1 := Merge(root1, next, s1, alone);
    }
  }

  // The first part of pcap_fetch: a heap of all flows.
  method OpenFlows(flows: seq<Packets>) returns (root: FlowHeap?, ghost s: Shape, ghost ns: seq<FlowHeap>)
    requires forall i :: 0 <= i < |flows| ==> flows[i] != []
    ensures Root(root, s) && |ns| == |flows| && fresh(ns) && fresh(Nodes(s))
    ensures AtHeads(ns, flows, seq(|flows|, _ => 0), Nodes(s))
  {
    root, s, ns := null, None, [];
    ghost var heads := seq(|flows|, _ => 0);
    for i := 0 to |flows|
      invariant Root(root, s) && |ns| == i && fresh(ns) && fresh(Nodes(s)) && AtHeads(ns, flows, heads, Nodes(s))
    {
      var n := new FlowHeap(i, flows[i]);
      root, s := AddFlow(root, n, s, ns, flows, heads);
      ns := ns + [n];
    }
  }

  method AddFlow(root: FlowHeap?, n: FlowHeap, ghost s: Shape, ghost ns: seq<FlowHeap>, ghost flows: seq<Packets>,
                 ghost heads: Heads)
    returns (root1: FlowHeap, ghost s1: Shape)
    requires Root(root, s) && AtHeads(ns, flows, heads, Nodes(s)) && n !in ns && n.child == null && n.sibling == null
    requires |ns| < |flows| && heads[|ns|] == 0 && flows[|ns|] != [] && AtHead(n, |ns|, flows[|ns|], 0)
    modifies Nodes(s)`child, Nodes(s)`sibling, n`child, n`sibling
    ensures Root(root1, s1) && AtHeads(ns + [n], flows, heads, Nodes(s1)) && Nodes(s1) == Nodes(s) + {n}
  {
    ghost var alone := Some(n, None, None);
    assert Root(n, alone);
    assert forall m <- Nodes(s) :: ns[m.flow] == m;
    root1, s1 := Merge(root, n, s, alone);
  }

  // No packet written is later than one that is still to be written.
  ghost predicate NoLater(out: Packets, nodes: set<FlowHeap>)
    reads nodes`tsSec, nodes`tsUsec
  {
    TimeOrdered(out) && forall p <- out, n <- nodes :: Time(p) <= n.Now()
  }

  lemma StillNoLater(out: Packets, p: PacketRecord, now: nat, nodes: set<FlowHeap>)
    requires TimeOrdered(out) && (forall q <- out :: Time(q) <= now) && Time(p) == now
    requires forall n <- nodes :: now <= n.Now()
    ensures NoLater(out + [p], nodes)
  {
    forall i, j | 0 <= i < j < |out + [p]| ensures InOrder((out + [p])[i], (out + [p])[j]) {
      assert (out + [p])[i] in out;
      if j == |out| {
        InOrderByTime((out + [p])[i], p);
      }
    }
  }

  ghost predicate AllTimeOrdered(flows: seq<Packets>) {
    forall i :: 0 <= i < |flows| ==> TimeOrdered(flows[i])
  }

  // One round as far as the order of time goes.
  method WriteRound(root: FlowHeap, out: Packets, ghost picks: seq<nat>, ghost s: Shape, ghost ns: seq<FlowHeap>,
                    ghost flows: seq<Packets>, ghost heads: Heads,
                    ghost nodes: set<FlowHeap>)
    returns (out1: Packets, root1: FlowHeap?, ghost picks1: seq<nat>, ghost s1: Shape, ghost heads1: Heads)
    requires Root(root, s) && nodes == Nodes(s) && AtHeads(ns, flows, heads, nodes)
    requires Taken(out, picks, flows, heads)
    requires AllTimeOrdered(flows) ==> NoLater(out, nodes)
    modifies nodes
    ensures Taken(out1, picks1, flows, heads1) && Left(flows, heads1) < Left(flows, heads)
    ensures Root(root1, s1) && AtHeads(ns, flows, heads1, Nodes(s1)) && Nodes(s1) <= nodes
    ensures AllTimeOrdered(flows) ==> NoLater(out1, Nodes(s1))
  {
    RootIsEarliest(root, s);
    ghost var now, f := root.Now(), root.flow;
    assert ns[f] == root;
    assert forall p <- out :: AllTimeOrdered(flows) ==> Time(p) <= now;
    var p;
    p, root1, s1, heads1 := MergeRound(root, s, ns, flows, heads, nodes);
    TakenOneMore(out, picks, flows, heads, f);
    LeftOneLess(flows, heads, f);
    out1, picks1 := out + [p], picks + [f];
    if AllTimeOrdered(flows) {
      forall n | n in Nodes(s1) ensures now <= n.Now() {
        if n == root {
          assert TimeOrdered(flows[f]) && AtHead(ns[f], f, flows[f], heads1[f]);
        }
      }
      StillNoLater(out, p, now, Nodes(s1));
    }
  }

  // pcap_fetch: every packet once, each flow in its own order; if each flow is in the order of
  // time, so is the whole.
  method MergeFlows(flows: seq<Packets>) returns (out: Packets, ghost picks: seq<nat>)
    requires forall i :: 0 <= i < |flows| ==> flows[i] != []
    ensures Interleaves(out, picks, flows)
    ensures AllTimeOrdered(flows) ==> TimeOrdered(out)
  {
    ghost var heads: Heads := seq(|flows|, _ => 0);
    var root;
    ghost var s, ns;
    root, s, ns := OpenFlows(flows);
    out, picks := [], [];
    while root != null
      invariant Root(root, s) && |ns| == |flows| && fresh(ns) && fresh(Nodes(s)) && AtHeads(ns, flows, heads, Nodes(s))
      invariant Taken(out, picks, flows, heads)
      invariant AllTimeOrdered(flows) ==> NoLater(out, Nodes(s))
      decreases Left(flows, heads)
    {
      out, root, picks, s, heads := WriteRound(root, out, picks, s, ns, flows, heads, Nodes(s));
    }
    NothingThere(s);
    forall i | 0 <= i < |flows| ensures From(picks, out, i) == flows[i] {
      assert ns[i] !in Nodes(s) && heads[i] == |flows[i]| && flows[i][..heads[i]] == flows[i];
    }
  }
}

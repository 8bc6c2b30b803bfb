// From the places a search found to the packets of the flows
// (indexer/search/search_lib.c, indexer/search/packets.c).

module FlowFetch {
  import opened Folding
  import opened Sequences
  import opened Network
  import opened Keys
  import opened Items
  import opened OrderedSets
  import opened PacketMerge
  import F = FlowFile
  import A = Archive
  import B = IndexBucket
  import IndexTree

  // ---- Which flows are kept ----

  // The limits of a search on time and protocol; protocol 0 stands for any.
  datatype Limits = Limits(start: Timeval, end: Timeval, proto: Byte)

  // filter_flow. The end of the search is compared with the last packet of the flow, too.
  predicate Keeps(key: FlowKey, l: Limits) {
    !TsBefore(key.lastTs, l.start) && !TsBefore(l.end, key.lastTs) && (l.proto == 0 || l.proto == key.proto)
  }

  // What the comments in filter_flow ask for: some packet may be within the limits.
  predicate Overlaps(key: FlowKey, l: Limits) {
    !TsBefore(key.lastTs, l.start) && !TsBefore(l.end, key.firstTs) && (l.proto == 0 || l.proto == key.proto)
  }

  // A flow is kept only if it overlaps, and one that overlaps is kept unless it goes on after
  // the end of the search.
  lemma KeptIffEndsInTime(key: FlowKey, l: Limits)
    requires !TsBefore(key.lastTs, key.firstTs)
    ensures Keeps(key, l) <==> Overlaps(key, l) && !TsBefore(l.end, key.lastTs)
  {
  }

  // A flow from second 5 to second 15 is not kept by a search from second 0 to second 10.
  lemma StraddlerIsDropped(key: FlowKey)
    requires key.firstTs == Timeval(5, 0) && key.lastTs == Timeval(15, 0)
    ensures var l := Limits(Timeval(0, 0), Timeval(10, 0), 0); Overlaps(key, l) && !Keeps(key, l)
  {
  }

  // The same for the packets of a flow.
  predicate Wants(flow: Packets, l: Limits)
    requires flow != []
  {
    var last := F.Stamp(flow[|flow| - 1]);
    !TsBefore(last, l.start) && !TsBefore(l.end, last) && (l.proto == 0 || l.proto == flow[0].proto)
  }

  // That is, a flow is wanted if its last packet is within the limits, both included.
  lemma WantsByFields(flow: Packets, l: Limits)
    requires flow != []
    ensures var last := flow[|flow| - 1];
      Wants(flow, l) <==>
        && (l.start.sec < last.tsSec || (l.start.sec == last.tsSec && l.start.usec <= last.tsUsec))
        && (last.tsSec < l.end.sec || (last.tsSec == l.end.sec && last.tsUsec <= l.end.usec))
        && (l.proto == 0 || l.proto == flow[0].proto)
  {
  }

  // ---- flow_fetch ----

  // What a read of the entry at `place` gives. As it is written, four bytes are read for the
  // place of the packets, whatever the width is.
  function ReadEntry(entries: seq<FlowRec>, offset64: bool, written: bool, place: nat): (r: FlowRec)
    requires exists k: nat :: k < |entries| && place == A.EntryPlace(k, offset64)
  {
    PlaceOfEntry(|entries|, offset64, place);
    Cut(entries[(place - F.INDEX_HEADER) / F.EntrySize(offset64)], written)
  }

  function Cut(entry: FlowRec, written: bool): FlowRec {
    if written then FlowRec(entry.key, entry.flowOffset % 0x1_0000_0000) else entry
  }

  lemma ReadsEntry(entries: seq<FlowRec>, offset64: bool, written: bool, k: nat)
    requires k < |entries|
    ensures exists j: nat :: j < |entries| && A.EntryPlace(k, offset64) == A.EntryPlace(j, offset64)
    ensures ReadEntry(entries, offset64, written, A.EntryPlace(k, offset64)) == Cut(entries[k], written)
  {
    EntryBack(|entries|, offset64, k);
  }

  lemma PlaceOfEntry(n: nat, offset64: bool, place: nat)
    requires exists k: nat :: k < n && place == A.EntryPlace(k, offset64)
    ensures place >= F.INDEX_HEADER && (place - F.INDEX_HEADER) / F.EntrySize(offset64) < n
    ensures place == A.EntryPlace((place - F.INDEX_HEADER) / F.EntrySize(offset64), offset64)
  {
    var k: nat :| k < n && place == A.EntryPlace(k, offset64);
    if offset64 {
      assert (place - F.INDEX_HEADER) / 72 == k;
    } else {
      assert (place - F.INDEX_HEADER) / 68 == k;
    }
  }

  // The capture file is small enough for the offsets that are read, and each flow for the field
  // that holds its size.
  ghost predicate InReach(flows: seq<Packets>, offset64: bool, written: bool) {
    && F.PCAP_HEADER + F.Bytes(F.Body(flows)) < (if offset64 && !written then 0x1_0000_0000_0000_0000
                                                 else 0x1_0000_0000)
    && forall k :: 0 <= k < |flows| ==> F.Bytes(flows[k]) < 0x1_0000_0000
  }

  // The record of flow k, as it is if everything is in reach.
  ghost function RecOf(flows: seq<Packets>, offset64: bool, k: nat): FlowRec
    requires F.NoneEmpty(flows) && k < |flows|
  {
    F.Entries(flows, offset64)[k]
  }

  lemma EntryBack(n: nat, offset64: bool, k: nat)
    requires k < n
    ensures exists j: nat :: j < n && A.EntryPlace(k, offset64) == A.EntryPlace(j, offset64)
    ensures (A.EntryPlace(k, offset64) - F.INDEX_HEADER) / F.EntrySize(offset64) == k
  {
    PlaceOfEntry(n, offset64, A.EntryPlace(k, offset64));
    var i := (A.EntryPlace(k, offset64) - F.INDEX_HEADER) / F.EntrySize(offset64);
    A.PlacesRise(i, k, offset64);
    A.PlacesRise(k, i, offset64);
  }

  lemma RecIs(flows: seq<Packets>, offset64: bool, written: bool, k: nat)
    requires F.NoneEmpty(flows) && k < |flows| && InReach(flows, offset64, written)
    ensures RecOf(flows, offset64, k).flowOffset == F.StartOf(flows, k) &&
            RecOf(flows, offset64, k).key.size == F.Bytes(flows[k])
    ensures written ==> RecOf(flows, offset64, k).flowOffset < 0x1_0000_0000
    ensures forall l :: Keeps(RecOf(flows, offset64, k).key, l) == Wants(flows[k], l)
  {
    F.EntryAt(flows, offset64, k);
    F.StartsAscend(flows, k);
    assert flows[..|flows|] == flows;
    F.EntryValues(flows[k], F.StartOf(flows, k), offset64);
  }

  // With 64-bit offsets the read of four bytes is right exactly for flows below 4 GiB.
  lemma FourBytesRightIff(entries: seq<FlowRec>, k: nat)
    requires k < |entries|
    ensures exists j: nat :: j < |entries| && A.EntryPlace(k, true) == A.EntryPlace(j, true)
    ensures ReadEntry(entries, true, true, A.EntryPlace(k, true)) == entries[k] <==>
            entries[k].flowOffset < 0x1_0000_0000
  {
    ReadsEntry(entries, true, true, k);
  }

  // Those of the first n places whose flows are wanted, and their records.
  ghost function Picked(flows: seq<Packets>, ks: seq<nat>, l: Limits): (r: seq<nat>)
    requires F.NoneEmpty(flows) && forall i :: 0 <= i < |ks| ==> ks[i] < |flows|
    ensures forall i :: 0 <= i < |r| ==> r[i] < |flows|
  {
    if ks == [] then []
    else
      var k := ks[|ks| - 1];
      Picked(flows, ks[..|ks| - 1], l) + if Wants(flows[k], l) then [k] else []
  }

  // They are those of ks that are wanted, in their order.
  lemma {:induction false} PickedPlaces(flows: seq<Packets>, ks: seq<nat>, l: Limits) returns (at: seq<nat>)
    requires F.NoneEmpty(flows) && forall i :: 0 <= i < |ks| ==> ks[i] < |flows|
    ensures PicksOut(ks, at, Picked(flows, ks, l))
    ensures forall n: nat :: n in at <==> n < |ks| && Wants(flows[ks[n]], l)
  {
    at := [];
    if ks != [] {
      var m := |ks| - 1;
      at := PickedPlaces(flows, ks[..m], l);
      PicksOutMore(ks[..m], at, Picked(flows, ks[..m], l), ks[m]);
      assert ks[..m] + [ks[m]] == ks;
      at := at + if Wants(flows[ks[m]], l) then [m] else [];
    }
  }

  ghost function RecsOf(flows: seq<Packets>, offset64: bool, ks: seq<nat>): (r: seq<FlowRec>)
    requires F.NoneEmpty(flows) && forall i :: 0 <= i < |ks| ==> ks[i] < |flows|
  {
    if ks == [] then [] else RecsOf(flows, offset64, ks[..|ks| - 1]) + [RecOf(flows, offset64, ks[|ks| - 1])]
  }

  lemma OneMorePicked(flows: seq<Packets>, offset64: bool, ks: seq<nat>, l: Limits, n: nat)
    requires F.NoneEmpty(flows) && (forall i :: 0 <= i < |ks| ==> ks[i] < |flows|) && n < |ks|
    ensures RecsOf(flows, offset64, Picked(flows, ks[..n + 1], l)) ==
            RecsOf(flows, offset64, Picked(flows, ks[..n], l)) +
            if Wants(flows[ks[n]], l) then [RecOf(flows, offset64, ks[n])] else []
  {
    assert ks[..n + 1][..n] == ks[..n];
    var before, more := Picked(flows, ks[..n], l), Picked(flows, ks[..n + 1], l);
    if Wants(flows[ks[n]], l) {
      assert more == before + [ks[n]] && more[..|before|] == before;
    } else {
      assert more == before;
    }
  }

  // The places found are those of the flows ks.
  ghost predicate PlacesOf(r: seq<U64>, ks: seq<nat>, flows: seq<Packets>, offset64: bool) {
    |r| == |ks| && forall i :: 0 <= i < |ks| ==> ks[i] < |flows| && r[i] == A.EntryPlace(ks[i], offset64)
  }

  // What flow_fetch has put out for these places, if everything is in reach.
  ghost predicate RightRecs(recs: seq<FlowRec>, flows: seq<Packets>, offset64: bool, written: bool, ks: seq<nat>,
                            l: Limits)
    requires F.NoneEmpty(flows) && forall i :: 0 <= i < |ks| ==> ks[i] < |flows|
  {
    forall n :: Folded(n) ==> InReach(flows, offset64, written) ==>
                              recs == RecsOf(flows, offset64, Picked(flows, ks, l))
  }

  // Between two rounds of flow_fetch: the first n places have been popped.
  ghost predicate Fetching(offsets: OrderedSet<U64>, output: OrderedSet<FlowRec>, r: seq<U64>, n: nat)
    reads offsets, output
  {
    && offsets.Valid() && offsets.mode == READ && output.Valid() && output.mode == WRITE && output.e == FlowRecs()
    && n <= |r| && offsets.content == r[n..]
  }

  // flow_fetch: the result has the record of each flow found that is wanted.
  method FetchRecords(results: seq<Byte>, entries: seq<FlowRec>, offset64: bool, written: bool, l: Limits,
                      ghost r: seq<U64>, ghost ks: seq<nat>, ghost flows: seq<Packets>)
    returns (file: seq<Byte>, ghost recs: seq<FlowRec>)
    requires results == Bytes(Offsets(), r) && PlacesOf(r, ks, flows, offset64)
    requires F.NoneEmpty(flows) && entries == F.Entries(flows, offset64)
    ensures file == Bytes(FlowRecs(), recs) && RightRecs(recs, flows, offset64, written, ks, l)
  {
    OffsetsWellFormed();
    FlowRecsWellFormed();
    var offsets := new OrderedSet<U64>.Readable(Offsets(), results, r);
    var output := new OrderedSet<FlowRec>.Writable(FlowRecs(), WRITE);
    assert ks[..0] == [] && r[0..] == r;
    FetchEach(offsets, output, entries, offset64, written, l, r, ks, flows);
    recs := output.content;
    file := Cleanup(output);
  }

  // The loop.
  method FetchEach(offsets: OrderedSet<U64>, output: OrderedSet<FlowRec>, entries: seq<FlowRec>, offset64: bool,
                   written: bool,
                   l: Limits, ghost r: seq<U64>, ghost ks: seq<nat>, ghost flows: seq<Packets>)
    requires PlacesOf(r, ks, flows, offset64) && F.NoneEmpty(flows) && entries == F.Entries(flows, offset64)
    requires Fetching(offsets, output, r, 0) && RightRecs(output.content, flows, offset64, written, ks[..0], l)
    modifies offsets, output
    ensures Fetching(offsets, output, r, |r|) && RightRecs(output.content, flows, offset64, written, ks, l)
  {
    ghost var n := 0;
    var more := true;
    while more
      invariant n <= |r| && Fetching(offsets, output, r, n) && (!more ==> n == |r|)
      invariant RightRecs(output.content, flows, offset64, written, ks[..n], l)
      decreases more, |r| - n
    {
      more := FetchRound(offsets, output, entries, offset64, written, l, r, ks, n, flows);
      n := if more then n + 1 else n;
    }
    assert ks[..n] == ks;
  }

  // One round: the next place, if there is one.
  method FetchRound(offsets: OrderedSet<U64>, output: OrderedSet<FlowRec>, entries: seq<FlowRec>, offset64: bool,
                    written: bool,
                    l: Limits, ghost r: seq<U64>, ghost ks: seq<nat>, ghost n: nat, ghost flows: seq<Packets>)
    returns (more: bool)
    requires PlacesOf(r, ks, flows, offset64) && n <= |r| && F.NoneEmpty(flows) && entries == F.Entries(flows, offset64)
    requires Fetching(offsets, output, r, n) && RightRecs(output.content, flows, offset64, written, ks[..n], l)
    modifies offsets, output
    ensures more <==> n < |r|
    ensures var n1 := if more then n + 1 else n;
      n1 <= |r| && Fetching(offsets, output, r, n1) && RightRecs(output.content, flows, offset64, written, ks[..n1], l)
  {
    var next := offsets.Pop();
    more := next.Got?;
    if more {
      KeepOne(output, entries, offset64, written, l, next.item, ks, n, flows);
    }
  }

  method KeepOne(output: OrderedSet<FlowRec>, entries: seq<FlowRec>, offset64: bool, written: bool, l: Limits,
                 offset: U64,
                 ghost ks: seq<nat>, ghost n: nat, ghost flows: seq<Packets>)
    requires output.Valid() && output.mode == WRITE
    requires F.NoneEmpty(flows) && entries == F.Entries(flows, offset64)
    requires (forall i :: 0 <= i < |ks| ==> ks[i] < |flows|) && n < |ks| && offset == A.EntryPlace(ks[n], offset64)
    requires RightRecs(output.content, flows, offset64, written, ks[..n], l)
    modifies output
    ensures output.Valid() && output.mode == WRITE
    ensures RightRecs(output.content, flows, offset64, written, ks[..n + 1], l)
  {
    ReadsEntry(entries, offset64, written, ks[n]);
    var rec := ReadEntry(entries, offset64, written, offset);
    assert Folded(0);
    if InReach(flows, offset64, written) {
      NextRec(entries, offset64, written, l, ks, n, flows, rec);
    }
    if Keeps(rec.key, l) {
      output.Push(rec);
    }
  }

  lemma NextRec(entries: seq<FlowRec>, offset64: bool, written: bool, l: Limits, ks: seq<nat>, n: nat,
                flows: seq<Packets>, rec: FlowRec)
    requires F.NoneEmpty(flows) && entries == F.Entries(flows, offset64) && InReach(flows, offset64, written)
    requires (forall i :: 0 <= i < |ks| ==> ks[i] < |flows|) && n < |ks| && rec == Cut(entries[ks[n]], written)
    ensures RecsOf(flows, offset64, Picked(flows, ks[..n + 1], l)) ==
            RecsOf(flows, offset64, Picked(flows, ks[..n], l)) + if Keeps(rec.key, l) then [rec] else []
  {
    CutIsSame(flows, offset64, written, ks[n], rec, l);
    OneMorePicked(flows, offset64, ks, l, n);
  }

  lemma CutIsSame(flows: seq<Packets>, offset64: bool, written: bool, k: nat, rec: FlowRec, l: Limits)
    requires F.NoneEmpty(flows) && InReach(flows, offset64, written) && k < |flows|
    requires rec == Cut(F.Entries(flows, offset64)[k], written)
    ensures rec == RecOf(flows, offset64, k) && Keeps(rec.key, l) == Wants(flows[k], l)
  {
    RecIs(flows, offset64, written, k);
  }

  // ---- pcap_fetch ----

  function PacketSize(p: PacketRecord): nat { F.PACKET_HEADER + p.caplen }

  // The packets behind the first n bytes of a capture file's body, and those in its first n.
  function Behind(fcap: Packets, n: nat): Packets {
    if n == 0 || fcap == [] then fcap else Behind(fcap[1..],
                                                  if n >= PacketSize(fcap[0]) then n - PacketSize(fcap[0]) else 0)
  }

  function Within(fcap: Packets, n: nat): Packets {
    if fcap == [] || PacketSize(fcap[0]) > n then [] else [fcap[0]] + Within(fcap[1..], n - PacketSize(fcap[0]))
  }

  lemma FirstBytes(p: PacketRecord, ps: Packets)
    ensures F.Bytes([p] + ps) == PacketSize(p) + F.Bytes(ps)
  {
    assert [p][..0] == [];
    F.BytesAppend([p], ps);
  }

  // ---- The time of the next packet ----

  // tv_sec and tv_usec.
  const STAMP: nat := 8

  // Where the header pointer of a loaded flow stands once its first k packets are written.
  ghost function HeaderAt(ps: Packets, k: nat): nat
    requires k <= |ps|
  {
    F.Bytes(ps[..k])
  }

  // After packet k, fh_write_packet reads the time of the next one, if there is one or not: the read
  // stays in the buffer exactly if k is not the last packet. If it is, fh_eof holds and the flow is
  // done with, so that what was read is not used.
  lemma StampInsideIff(ps: Packets, k: nat)
    requires k < |ps|
    ensures HeaderAt(ps, k + 1) + STAMP <= F.Bytes(ps) <==> k + 1 < |ps|
    ensures HeaderAt(ps, k + 1) >= F.Bytes(ps) <==> k + 1 == |ps|
  {
    var done, rest := ps[..k + 1], ps[k + 1..];
    assert ps == done + rest;
    F.BytesAppend(done, rest);
    if rest != [] {
      assert rest == [rest[0]] + rest[1..];
      FirstBytes(rest[0], rest[1..]);
    }
  }

  lemma {:induction false} BehindIs(a: Packets, b: Packets)
    ensures Behind(a + b, F.Bytes(a)) == b
  {
    if a == [] {
      assert a + b == b;
    } else {
      BehindIs(a[1..], b);
      FirstBytes(a[0], a[1..]);
      assert a == [a[0]] + a[1..] && (a + b)[1..] == a[1..] + b;
    }
  }

  lemma {:induction false} WithinIs(b: Packets, c: Packets)
    ensures Within(b + c, F.Bytes(b)) == b
  {
    if b != [] {
      WithinIs(b[1..], c);
      FirstBytes(b[0], b[1..]);
      assert b == [b[0]] + b[1..] && (b + c)[1..] == b[1..] + c;
    }
  }

  lemma {:induction false} BodySplit(flows: seq<Packets>, k: nat) returns (rest: Packets)
    requires k < |flows|
    ensures F.Body(flows) == F.Body(flows[..k]) + (flows[k] + rest)
    decreases |flows|
  {
    var front := flows[..|flows| - 1];
    if k == |flows| - 1 {
      rest := [];
      assert flows[k] + [] == flows[k];
    } else {
      rest := BodySplit(front, k);
      assert front[..k] == flows[..k];
      var last := flows[|flows| - 1];
      assert F.Body(flows[..k]) + (flows[k] + rest) + last == F.Body(flows[..k]) + (flows[k] + (rest + last));
      rest := rest + last;
    }
  }

  // The packets that a record stands for.
  function Recorded(fcap: Packets, rec: FlowRec): Packets {
    Within(Behind(fcap, if rec.flowOffset >= F.PCAP_HEADER then rec.flowOffset - F.PCAP_HEADER else 0), rec.key.size)
  }

  // fh_load: the packets at the place in the capture file, as many bytes as the record says. It
  // fails if the first packet is not from the time that the record says.
  method Load(fcap: Packets, rec: FlowRec) returns (ok: bool, ps: Packets)
    ensures ps == Recorded(fcap, rec)
    ensures ok <==> ps != [] && F.Stamp(ps[0]) == rec.key.firstTs
  {
    ps := Recorded(fcap, rec);
    ok := ps != [] && F.Stamp(ps[0]) == rec.key.firstTs;
  }

  // Loading a flow by its record gives its packets.
  lemma LoadsFlow(flows: seq<Packets>, offset64: bool, written: bool, k: nat)
    requires F.NoneEmpty(flows) && k < |flows| && InReach(flows, offset64, written)
    ensures Recorded(F.Body(flows), RecOf(flows, offset64, k)) == flows[k]
    ensures F.Stamp(flows[k][0]) == RecOf(flows, offset64, k).key.firstTs
  {
    RecIs(flows, offset64, written, k);
    F.EntryAt(flows, offset64, k);
    var rest := BodySplit(flows, k);
    BehindIs(F.Body(flows[..k]), flows[k] + rest);
    WithinIs(flows[k], rest);
  }

  // Those of the flows, in this order.
  function Chosen(flows: seq<Packets>, ks: seq<nat>): (r: seq<Packets>)
    requires forall i :: 0 <= i < |ks| ==> ks[i] < |flows|
    ensures |r| == |ks| && forall i :: 0 <= i < |ks| ==> r[i] == flows[ks[i]]
  {
    seq(|ks|, i requires 0 <= i < |ks| => flows[ks[i]])
  }

  lemma {:induction false} RecsAt(flows: seq<Packets>, offset64: bool, ks: seq<nat>, i: nat)
    requires F.NoneEmpty(flows) && (forall j :: 0 <= j < |ks| ==> ks[j] < |flows|)
    ensures |RecsOf(flows, offset64, ks)| == |ks|
    ensures i < |ks| ==> RecsOf(flows, offset64, ks)[i] == RecOf(flows, offset64, ks[i])
  {
    if ks != [] {
      RecsAt(flows, offset64, ks[..|ks| - 1], i);
    }
  }

  lemma LoadsKnown(fcap: Packets, rec: FlowRec, offset64: bool, written: bool, k: nat, flows: seq<Packets>)
    requires F.NoneEmpty(flows) && InReach(flows, offset64, written) && fcap == F.Body(flows)
    requires k < |flows| && rec == RecOf(flows, offset64, k)
    ensures Recorded(fcap, rec) == flows[k] && F.Stamp(flows[k][0]) == rec.key.firstTs
  {
    LoadsFlow(flows, offset64, written, k);
  }

  // The flows recorded have been loaded as far as n.
  ghost predicate Loaded(fcap: Packets, recs: seq<FlowRec>, n: nat, loaded: seq<Packets>) {
    n <= |recs| && |loaded| == n && forall i :: 0 <= i < n ==> loaded[i] != [] && loaded[i] == Recorded(fcap, recs[i])
  }

  method LoadAll(fcap: Packets, recs: seq<FlowRec>) returns (ok: bool, loaded: seq<Packets>)
    ensures ok ==> Loaded(fcap, recs, |recs|, loaded)
    ensures ok <==> forall i :: 0 <= i < |recs| ==>
      Recorded(fcap, recs[i]) != [] && F.Stamp(Recorded(fcap, recs[i])[0]) == recs[i].key.firstTs
  {
    loaded := [];
    for i := 0 to |recs|
      invariant Loaded(fcap, recs, i, loaded)
      invariant forall j :: 0 <= j < i ==>
        Recorded(fcap, recs[j]) != [] && F.Stamp(Recorded(fcap, recs[j])[0]) == recs[j].key.firstTs
    {
      var ps;
      ok, ps := Load(fcap, recs[i]);
      if !ok {
        return;
      }
      loaded := loaded + [ps];
    }
    ok := true;
  }

  lemma LoadedRight(fcap: Packets, recs: seq<FlowRec>, offset64: bool, written: bool, ks: seq<nat>, flows: seq<Packets>)
    requires F.NoneEmpty(flows) && InReach(flows, offset64, written) && fcap == F.Body(flows)
    requires (forall j :: 0 <= j < |ks| ==> ks[j] < |flows|) && recs == RecsOf(flows, offset64, ks)
    ensures |recs| == |ks|
    ensures forall i :: 0 <= i < |recs| ==>
      && Recorded(fcap, recs[i]) == flows[ks[i]]
      && flows[ks[i]] != [] && F.Stamp(Recorded(fcap, recs[i])[0]) == recs[i].key.firstTs
  {
    RecsAt(flows, offset64, ks, 0);
    forall i | 0 <= i < |recs|
      ensures Recorded(fcap, recs[i]) == flows[ks[i]] && flows[ks[i]] != []
      ensures F.Stamp(Recorded(fcap, recs[i])[0]) == recs[i].key.firstTs
    {
      RecsAt(flows, offset64, ks, i);
      LoadsKnown(fcap, recs[i], offset64, written, ks[i], flows);
    }
  }

  // pcap_fetch: the packets of all flows recorded, merged.
  method FetchPackets(file: seq<Byte>, fcap: Packets, ghost recs: seq<FlowRec>)
    returns (ok: bool, out: Packets, ghost picks: seq<nat>, ghost loaded: seq<Packets>)
    requires file == Bytes(FlowRecs(), recs)
    ensures ok <==> forall i :: 0 <= i < |recs| ==>
      Recorded(fcap, recs[i]) != [] && F.Stamp(Recorded(fcap, recs[i])[0]) == recs[i].key.firstTs
    ensures ok ==> Loaded(fcap, recs, |recs|, loaded)
    ensures ok ==> Interleaves(out, picks, loaded) && (AllTimeOrdered(loaded) ==> TimeOrdered(out))
  {
    FlowRecsWellFormed();
    var records := new OrderedSet<FlowRec>.Readable(FlowRecs(), file, recs);
    var all := PopAll(records);
    var flows;
    ok, flows := LoadAll(fcap, all);
    loaded := flows;
    out, picks := [], [];
    if ok {
      out, picks := MergeFlows(flows);
    }
  }

  lemma OneMoreInTime(ps: Packets, p: PacketRecord)
    requires TimeOrdered(ps) && forall q <- ps :: InOrder(q, p)
    ensures TimeOrdered(ps + [p]) && ps + [] == ps
  {
    forall i, j | 0 <= i < j < |ps + [p]| ensures InOrder((ps + [p])[i], (ps + [p])[j]) {
      assert (ps + [p])[i] in ps;
    }
  }

  lemma {:induction false} FlowKeepsTime(ps: Packets, rank: IndexTree.Order, r: nat)
    requires TimeOrdered(ps)
    ensures TimeOrdered(B.PacketsOf(ps, rank, r))
  {
    if ps != [] {
      var front, p := ps[..|ps| - 1], ps[|ps| - 1];
      FlowKeepsTime(front, rank, r);
      B.PacketsOfIn(front, rank, r);
      OneMoreInTime(B.PacketsOf(front, rank, r), p);
    }
  }

  // From the places of a search to the packets: all packets of the flows found that are wanted,
  // each once, and in the order of time if they were captured in that order. The read of four
  // bytes for each offset does no harm while the capture file stays below 4 GiB.
  method FetchFound(results: seq<Byte>, index: F.FlowWriter, written: bool, l: Limits,
                    ghost r: seq<U64>, ghost ks: seq<nat>, ghost ps: Packets, ghost rank: IndexTree.Order)
    returns (ok: bool, out: Packets, ghost picks: seq<nat>)
    requires index.Valid() && A.AreFlows(index.flows, ps, rank)
    requires results == Bytes(Offsets(), r) && PlacesOf(r, ks, index.flows, index.offset64)
    ensures InReach(index.flows, index.offset64, written) ==>
      && ok && Interleaves(out, picks, Chosen(index.flows, Picked(index.flows, ks, l)))
      && (TimeOrdered(ps) ==> TimeOrdered(out))
  {
    var file;
    ghost var recs, loaded;
    file, recs := FetchRecords(results, index.entries, index.offset64, written, l, r, ks, index.flows);
    ok, out, picks, loaded := FetchPackets(file, index.fcap, recs);
    if InReach(index.flows, index.offset64, written) {
      FoundAreLoaded(index.fcap, recs, index.offset64, written, l, ks, index.flows, loaded, ok);
      if TimeOrdered(ps) {
        ChosenKeepTime(index.flows, Picked(index.flows, ks, l), ps, rank);
      }
    }
  }

  lemma FoundAreLoaded(fcap: Packets, recs: seq<FlowRec>, offset64: bool, written: bool, l: Limits, ks: seq<nat>,
                       flows: seq<Packets>, loaded: seq<Packets>, ok: bool)
    requires F.NoneEmpty(flows) && InReach(flows, offset64, written) && fcap == F.Body(flows)
    requires (forall j :: 0 <= j < |ks| ==> ks[j] < |flows|) && RightRecs(recs, flows, offset64, written, ks, l)
    requires ok <==> forall i :: 0 <= i < |recs| ==>
      Recorded(fcap, recs[i]) != [] && F.Stamp(Recorded(fcap, recs[i])[0]) == recs[i].key.firstTs
    requires ok ==> Loaded(fcap, recs, |recs|, loaded)
    ensures ok && loaded == Chosen(flows, Picked(flows, ks, l))
  {
    assert Folded(0);
    LoadedRight(fcap, recs, offset64, written, Picked(flows, ks, l), flows);
  }

  lemma ChosenKeepTime(flows: seq<Packets>, ks: seq<nat>, ps: Packets, rank: IndexTree.Order)
    requires A.AreFlows(flows, ps, rank) && TimeOrdered(ps) && forall i :: 0 <= i < |ks| ==> ks[i] < |flows|
    ensures AllTimeOrdered(Chosen(flows, ks))
  {
    var chosen := Chosen(flows, ks);
    forall i | 0 <= i < |chosen| ensures TimeOrdered(chosen[i]) {
      FlowKeepsTime(ps, rank, rank(chosen[i][0]));
    }
  }
}

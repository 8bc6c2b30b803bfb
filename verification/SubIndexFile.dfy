// Writing a sub-index file (indexer/output.c).

module SubIndexFile {
  import opened Folding
  import opened Sequences
  import opened Bits
  import opened Network
  import opened IndexTree
  import opened MergeSort
  import opened LeftFilled
  import opened SubIndex

  // ---- What the records of a tree are ----

  ghost predicate Ascending(s: seq<nat>) {
    forall i, j :: 0 <= i < j < |s| ==> s[i] <= s[j]
  }

  // The offsets of the flows in a node's list.
  ghost function FlowPlaces(n: IndexNode): (r: seq<nat>)
    reads n`flows, n.flows`flowIndexOffset
  {
    PlacesOf(n.flows)
  }

  ghost function PlacesOf(flows: seq<IndexNode>): (r: seq<nat>)
    reads flows`flowIndexOffset
    ensures |r| == |flows| && forall i :: 0 <= i < |flows| ==> r[i] == flows[i].flowIndexOffset
  {
    if flows == [] then [] else [flows[0].flowIndexOffset] + PlacesOf(flows[1..])
  }

  // An offset in the width used for it.
  function Cut(offset: nat, offset64: bool): nat {
    if offset64 then offset % 0x1_0000_0000_0000_0000 else offset % 0x1_0000_0000
  }

  ghost function RecordsOf(key: nat, offsets: seq<nat>, offset64: bool): (r: seq<Entry>)
    ensures |r| == |offsets|
  {
    seq(|offsets|, i requires 0 <= i < |offsets| => Entry(key, Cut(offsets[i], offset64)))
  }

  lemma OneMoreRecord(key: nat, places: seq<nat>, i: nat, offset64: bool)
    requires i < |places|
    ensures RecordsOf(key, places[..i + 1], offset64) ==
            RecordsOf(key, places[..i], offset64) + [Entry(key, Cut(places[i], offset64))]
  {
  }

  // Keys of packets, and offsets cut to the width used, fit in a record.
  lemma {:induction false} FlatFits(h: Header, keys: seq<nat>, groups: seq<seq<nat>>)
    requires h.keyType != FLOW && |keys| == |groups|
    requires forall k :: 0 <= k < |keys| ==> keys[k] < Pow256(KeySize(h.keyType))
    ensures RecordsFit(h, Flat(keys, groups, h.offset64))
  {
    if keys != [] {
      FlatFits(h, keys[..|keys| - 1], groups[..|keys| - 1]);
    }
  }

  lemma KeyValFits(pr: PacketRecord, tt: KeyType)
    requires tt != FLOW
    ensures KeyVal(pr, tt) < Pow256(KeySize(tt))
  {
    BigEndianBound(pr.src.addr, KeySize(tt));
    BigEndianBound(pr.dst.addr, KeySize(tt));
    assert Pow256(2) == 0x1_0000;
  }

  // A group of records for each key, one after the other.
  ghost function Flat(keys: seq<nat>, groups: seq<seq<nat>>, offset64: bool): seq<Entry>
    requires |keys| == |groups|
  {
    if keys == [] then []
    else
      var k := |keys| - 1;
      Flat(keys[..k], groups[..k], offset64) + RecordsOf(keys[k], groups[k], offset64)
  }

  lemma OneMoreGroup(keys: seq<nat>, groups: seq<seq<nat>>, offset64: bool, key: nat, group: seq<nat>)
    requires |keys| == |groups|
    ensures Flat(keys + [key], groups + [group], offset64) == Flat(keys, groups, offset64) +
            RecordsOf(key, group, offset64)
  {
    assert (keys + [key])[..|keys|] == keys && (groups + [group])[..|groups|] == groups;
  }

  // ---- The writer ----

  // How many records there are in all.
  ghost function Count(places: seq<seq<nat>>): nat {
    if places == [] then 0 else Count(places[..|places| - 1]) + |places[|places| - 1]|
  }

  lemma {:induction false} CountOfPrefix(places: seq<seq<nat>>, k: nat)
    requires k < |places|
    ensures Count(places[..k]) + |places[k]| <= Count(places)
    decreases |places|
  {
    var front := places[..|places| - 1];
    if k < |places| - 1 {
      CountOfPrefix(front, k);
      assert front[..k] == places[..k];
    }
  }

  // ---- The order and the contents of the records ----

  ghost predicate Rising(s: seq<nat>) {
    forall i, j :: 0 <= i < j < |s| ==> s[i] < s[j]
  }

  ghost predicate Fit(offsets: seq<nat>, offset64: bool) {
    forall i :: 0 <= i < |offsets| ==> offsets[i] < if offset64 then 0x1_0000_0000_0000_0000 else 0x1_0000_0000
  }

  ghost predicate GroupsFit(groups: seq<seq<nat>>, offset64: bool) {
    forall k :: 0 <= k < |groups| ==> Rising(groups[k]) && Fit(groups[k], offset64)
  }

  // In a tree the keys rise from node to node, and in a sorted list the offsets do.
  lemma {:induction false} FlatInOrder(keys: seq<nat>, groups: seq<seq<nat>>, offset64: bool)
    requires |keys| == |groups| && Rising(keys) && GroupsFit(groups, offset64)
    ensures RecordsInOrder(Flat(keys, groups, offset64))
    ensures forall e <- Flat(keys, groups, offset64) :: keys != [] && e.key <= keys[|keys| - 1]
  {
    if keys != [] {
      var k := |keys| - 1;
      FlatInOrder(keys[..k], groups[..k], offset64);
      GroupAfter(Flat(keys[..k], groups[..k], offset64), keys[k], groups[k], offset64);
    }
  }

  lemma GroupAfter(records: seq<Entry>, key: nat, group: seq<nat>, offset64: bool)
    requires RecordsInOrder(records) && (forall e <- records :: e.key < key)
    requires Rising(group) && Fit(group, offset64)
    ensures RecordsInOrder(records + RecordsOf(key, group, offset64))
    ensures forall e <- records + RecordsOf(key, group, offset64) :: e.key <= key
  {
    var r := records + RecordsOf(key, group, offset64);
    forall i | 0 <= i < |r|
      ensures if i < |records| then r[i] == records[i] && r[i].key < key else r[i] == Entry(key, group[i - |records|])
      ensures r[i].offset < 0x1_0000_0000_0000_0000
    {
      GroupAt(records, key, group, offset64, i);
    }
  }

  lemma GroupAt(records: seq<Entry>, key: nat, group: seq<nat>, offset64: bool, i: nat)
    requires RecordsInOrder(records) && (forall e <- records :: e.key < key) && Fit(group, offset64)
    requires i < |records| + |group|
    ensures var r := records + RecordsOf(key, group, offset64);
      && |r| == |records| + |group| && r[i].offset < 0x1_0000_0000_0000_0000
      && if i < |records| then r[i] == records[i] && r[i].key < key else r[i] == Entry(key, group[i - |records|])
  {
    if i < |records| {
      assert records[i] in records;
    }
  }

  // A record is there exactly when its offset is in the group of its key.
  lemma {:induction false} FlatHolds(keys: seq<nat>, groups: seq<seq<nat>>, offset64: bool, key: nat, offset: nat)
    requires |keys| == |groups| && forall k :: 0 <= k < |groups| ==> Fit(groups[k], offset64)
    ensures Entry(key, offset) in Flat(keys, groups, offset64) <==>
            exists k :: 0 <= k < |keys| && keys[k] == key && offset in groups[k]
  {
    if keys != [] {
      var n := |keys| - 1;
      FlatHolds(keys[..n], groups[..n], offset64, key, offset);
      var last := RecordsOf(keys[n], groups[n], offset64);
      assert Entry(key, offset) in last <==> keys[n] == key && offset in groups[n] by {
        assert forall i :: 0 <= i < |last| ==> last[i] == Entry(keys[n], groups[n][i]);
        if keys[n] == key && offset in groups[n] {
          var i :| 0 <= i < |groups[n]| && groups[n][i] == offset;
          assert last[i] == Entry(key, offset);
        }
      }
    }
  }

  // A sorted list without repetitions rises, and has the elements of any other order of it.
  lemma SortedRises(sorted: seq<nat>, places: seq<nat>)
    requires Ascending(sorted) && multiset(sorted) == multiset(places)
    requires forall i, j :: 0 <= i < j < |places| ==> places[i] != places[j]
    ensures Rising(sorted) && |sorted| == |places| && forall x :: x in sorted <==> x in places
  {
    assert |multiset(sorted)| == |multiset(places)|;
    forall x ensures x in sorted <==> x in places {
      assert x in multiset(sorted) <==> x in multiset(places);
    }
    forall i, j | 0 <= i < j < |sorted| ensures sorted[i] < sorted[j] {
      if sorted[i] == sorted[j] {
        TwiceIn(sorted, i, j);
        OnceIn(places, sorted[i]);
        assert false;
      }
    }
  }

  lemma TwiceIn(s: seq<nat>, i: nat, j: nat)
    requires i < j < |s| && s[i] == s[j]
    ensures multiset(s)[s[i]] >= 2
  {
    assert s == s[..j] + [s[j]] + s[j + 1..];
    assert s[i] in s[..j];
  }

  lemma {:induction false} OnceIn(s: seq<nat>, x: nat)
    requires forall i, j :: 0 <= i < j < |s| ==> s[i] != s[j]
    ensures multiset(s)[x] <= 1
  {
    if s != [] {
      OnceIn(s[1..], x);
      assert s == [s[0]] + s[1..];
    }
  }

  // ---- Lists of flows ----

  // The places along a list.
  ghost function Places(t: Chain, off: Offsets): (r: seq<nat>)
    ensures |r| == |t| && forall i :: 0 <= i < |t| ==> r[i] == off(t[i])
  {
    if t == [] then [] else [off(t[0])] + Places(t[1..], off)
  }

  lemma PlacesOfTwo(a: Chain, b: Chain, off: Offsets)
    ensures Places(a + b, off) == Places(a, off) + Places(b, off)
  {
    var l, r := Places(a + b, off), Places(a, off) + Places(b, off);
    assert |l| == |r|;
    forall j | 0 <= j < |l| ensures l[j] == r[j] {
      assert l[j] == off((a + b)[j]);
    }
  }

  lemma PlaceOfOne(x: FlowListNode, off: Offsets)
    ensures Places([x], off) == [off(x)]
  {
  }

  lemma PlacesAround(t: Chain, i: nat, off: Offsets) returns (a: seq<nat>, b: seq<nat>)
    requires i < |t|
    ensures Places(t, off) == a + [off(t[i])] + b && Places(t[..i] + t[i + 1..], off) == a + b
  {
    assert t == (t[..i] + [t[i]]) + t[i + 1..];
    PlacesOfTwo(t[..i] + [t[i]], t[i + 1..], off);
    PlacesOfTwo(t[..i], [t[i]], off);
    PlaceOfOne(t[i], off);
    PlacesOfTwo(t[..i], t[i + 1..], off);
    a, b := Places(t[..i], off), Places(t[i + 1..], off);
  }

  lemma PlacesWithout(t: Chain, i: nat, off: Offsets)
    requires i < |t|
    ensures multiset(Places(t, off)) == multiset(Places(t[..i] + t[i + 1..], off)) + multiset{off(t[i])}
  {
    var a, b := PlacesAround(t, i, off);
    AroundOne(a, off(t[i]), b);
  }

  lemma AroundOne(a: seq<nat>, x: nat, b: seq<nat>)
    ensures multiset(a + [x] + b) == multiset(a + b) + multiset{x}
  {
  }

  // A permutation has the same places.
  lemma {:induction false} SamePlaces(s: Chain, t: Chain, off: Offsets)
    requires multiset(s) == multiset(t)
    ensures multiset(Places(s, off)) == multiset(Places(t, off))
    decreases |s|
  {
    if s == [] {
      assert t == [] by { assert |multiset(t)| == 0; }
    } else {
      var x := s[0];
      assert x in multiset(t);
      var i :| 0 <= i < |t| && t[i] == x;
      var u := t[..i] + t[i + 1..];
      WithoutFirst(s, t, i);
      SamePlaces(s[1..], u, off);
      PlacesWithout(t, i, off);
    }
  }

  lemma WithoutFirst(s: Chain, t: Chain, i: nat)
    requires multiset(s) == multiset(t) && s != [] && i < |t| && t[i] == s[0]
    ensures multiset(s[1..]) == multiset(t[..i] + t[i + 1..])
  {
    var u := t[..i] + t[i + 1..];
    assert multiset(s) == multiset{s[0]} + multiset(s[1..]) by { assert s == [s[0]] + s[1..]; }
    assert multiset(t) == multiset{t[i]} + multiset(u) by { assert t == t[..i] + [t[i]] + t[i + 1..]; }
    assert multiset(s[1..]) == multiset(s) - multiset{s[0]};
  }

  // The list of a node as it was built while indexing.
  method ListOf(flows: seq<IndexNode>) returns (head: FlowListNode?, ghost s: Chain)
    ensures IsList(head, s) && Distinct(s) && |s| == |flows| && fresh(s)
    ensures forall k :: 0 <= k < |s| ==> s[k].flow == flows[k]
  {
    head, s := null, [];
    var i := |flows|;
    while i > 0
      invariant 0 <= i <= |flows| && |s| == |flows| - i && fresh(s)
      invariant IsList(head, s) && Distinct(s)
      invariant forall k :: 0 <= k < |s| ==> s[k].flow == flows[i + k]
    {
      i := i - 1;
      var node := new FlowListNode(flows[i], head);
      assert IsList(head, s);
      head, s := node, [node] + s;
    }
  }

  // Where the flows of a list are, as a function that does not depend on the heap.
  ghost function PlaceOf(m: map<FlowListNode, nat>): Offsets {
    (x: FlowListNode) => if x in m then m[x] else 0
  }

  lemma ReadsPermuted(off: Offsets, s: Chain, t: Chain)
    requires Reads(off, s) && multiset(s) == multiset(t)
    ensures Reads(off, t) && |t| == |s|
  {
    forall x <- t ensures off(x) == x.flow.flowIndexOffset {
      assert x in multiset(t);
    }
    assert |multiset(s)| == |multiset(t)|;
  }

  lemma PlacesAscend(t: Chain, off: Offsets)
    requires Sorted(t, off)
    ensures Ascending(Places(t, off))
  {
  }

  // The list of a node, sorted by the places of the flows in the flow index.
  method SortedList(flows: seq<IndexNode>, ghost places: seq<nat>)
    returns (head: FlowListNode?, ghost t: Chain, ghost off: Offsets)
    requires |flows| < MAX_NODES && |places| == |flows|
    requires forall k :: 0 <= k < |flows| ==> places[k] == flows[k].flowIndexOffset
    ensures IsList(head, t) && Reads(off, t) && |t| == |flows|
    ensures Ascending(Places(t, off)) && multiset(Places(t, off)) == multiset(places)
  {
    ghost var chain;
    head, chain := ListOf(flows);
    off := ListPlaces(chain, flows, places);
    head, t := MergeSortOffsets(head, chain, off);
    ReadsPermuted(off, chain, t);
    SamePlaces(t, chain, off);
    PlacesAscend(t, off);
  }

  lemma ListPlaces(chain: Chain, flows: seq<IndexNode>, places: seq<nat>) returns (off: Offsets)
    requires |chain| == |flows| == |places| && forall k :: 0 <= k < |chain| ==> chain[k].flow == flows[k]
    requires forall k :: 0 <= k < |flows| ==> places[k] == flows[k].flowIndexOffset
    ensures Reads(off, chain) && Places(chain, off) == places
  {
    off := PlaceOf(map x | x in chain :: x.flow.flowIndexOffset);
  }

  // The keys and the sorted places of the nodes v.
  ghost predicate GroupsOf(tt: KeyType, keys: seq<nat>, groups: seq<seq<nat>>, v: seq<IndexNode>, places: seq<seq<nat>>)
    requires tt != FLOW && |keys| == |groups| == |v| == |places|
  {
    forall k :: 0 <= k < |v| ==>
      keys[k] == KeyVal(v[k].key, tt) && Ascending(groups[k]) && multiset(groups[k]) == multiset(places[k])
  }

  lemma GroupsOneMore(tt: KeyType, keys: seq<nat>, groups: seq<seq<nat>>, v: seq<IndexNode>, places: seq<seq<nat>>,
                      node: IndexNode, sorted: seq<nat>, place: seq<nat>)
    requires tt != FLOW && |keys| == |groups| == |v| == |places| && GroupsOf(tt, keys, groups, v, places)
    requires Ascending(sorted) && multiset(sorted) == multiset(place)
    ensures GroupsOf(tt, keys + [KeyVal(node.key, tt)], groups + [sorted], v + [node], places + [place])
  {
  }

  lemma OneMorePlace(places: seq<seq<nat>>, place: seq<nat>, sorted: seq<nat>)
    requires multiset(sorted) == multiset(place)
    ensures Count(places + [place]) == Count(places) + |sorted|
  {
    assert (places + [place])[..|places|] == places;
    assert |multiset(sorted)| == |multiset(place)|;
  }

  class SubWriter {
    const tt: KeyType
    const total: nat
    const offset64: bool
    var records: seq<Entry>
    var preview: seq<nat>
    var nodeNum: nat
    // The key of each node written and the places of its flows, sorted.
    ghost var keys: seq<nat>
    ghost var groups: seq<seq<nat>>

    // The nodes v have been written, whose flows are at `places`.
    ghost predicate Wrote(v: seq<IndexNode>, places: seq<seq<nat>>)
      reads this
    {
      && Valid() && |keys| == |groups| == |v| == |places| && records == Flat(keys, groups, offset64)
      && |records| == Count(places) && GroupsOf(tt, keys, groups, v, places)
    }

    // Every record so far that belongs on the top levels of the tree of all `total` records
    // is in the preview.
    ghost predicate Valid()
      reads this
    {
      && tt != FLOW && total < MAX_NODES && nodeNum == |records| + 1 && |records| <= total
      && preview == if HasPreview(tt, total) then EveryNth(records, PreviewStep(tt, total)) else []
    }

    constructor (tt: KeyType, total: nat, offset64: bool)
      requires tt != FLOW && total < MAX_NODES
      ensures Valid() && this.tt == tt && this.total == total && this.offset64 == offset64 && Wrote([], [])
    {
      this.tt, this.total, this.offset64 := tt, total, offset64;
      records, preview, nodeNum := [], [], 1;
      keys, groups := [], [];
    }

    // The body of the loop of idx_write_node: a record, and its key for the preview if it is
    // on one of the top levels.
    method WriteRecord(key: nat, offset: nat, pvwDepth: nat)
      requires Valid() && |records| < total && pvwDepth == if HasPreview(tt, total) then PreviewLevels(tt) else 0
      modifies this`records, this`preview, this`nodeNum
      ensures Valid() && records == old(records) + [Entry(key, Cut(offset, offset64))]
    {
      var depth := NodeDepth(nodeNum, total);
      if HasPreview(tt, total) {
        PreviewIsShallow(tt, total);
        TopLevels(nodeNum, DepthOf(total), PreviewLevels(tt));
      }
      if depth <= pvwDepth {
        preview := preview + [key];
      }
      records := records + [Entry(key, Cut(offset, offset64))];
      assert records[..|records| - 1] == old(records);
      nodeNum := nodeNum + 1;
    }

    // idx_write_node: the flows of the node, sorted by their places in the flow index.
    method WriteNode(node: IndexNode, ghost places: seq<nat>) returns (ghost sorted: seq<nat>)
      requires Valid() && |records| + |node.flows| <= total && places == FlowPlaces(node)
      modifies this`records, this`preview, this`nodeNum
      ensures Valid() && Ascending(sorted) && multiset(sorted) == multiset(places)
      ensures records == old(records) + RecordsOf(KeyVal(node.key, tt), sorted, offset64)
    {
      var head;
      ghost var t, off;
      head, t, off := SortedList(node.flows, places);
      sorted := Places(t, off);
      WriteList(node, head, t, off);
    }

    method Output(node: IndexNode, ghost v: seq<IndexNode>, ghost places: seq<seq<nat>>, ghost place: seq<nat>)
      requires Wrote(v, places) && |records| + |node.flows| <= total && place == FlowPlaces(node)
      modifies this
      ensures Wrote(v + [node], places + [place])
    {
      ghost var sorted := WriteNode(node, place);
      OneMoreGroup(keys, groups, offset64, KeyVal(node.key, tt), sorted);
      OneMorePlace(places, place, sorted);
      GroupsOneMore(tt, keys, groups, v, places, node, sorted, place);
      keys, groups := keys + [KeyVal(node.key, tt)], groups + [sorted];
    }

    // What holds between two records, carried along unopened.
    ghost predicate Going()
      reads this
    {
      forall n :: Folded(n) ==> Valid()
    }

    method WriteNext(key: nat, offset: nat, pvwDepth: nat, ghost places: seq<nat>, ghost i: nat,
                     ghost before: seq<Entry>)
      requires Going() && i < |places| && places[i] == offset && |before| + |places| <= total && tt != FLOW
      requires pvwDepth == if HasPreview(tt, total) then PreviewLevels(tt) else 0
      requires records == before + RecordsOf(key, places[..i], offset64)
      modifies this`records, this`preview, this`nodeNum
      ensures Going() && records == before + RecordsOf(key, places[..i + 1], offset64)
    {
      assert Folded(0);
      WriteRecord(key, offset, pvwDepth);
      OneMoreRecord(key, places, i, offset64);
    }

    // The loop of idx_write_node.
    method WriteList(node: IndexNode, head: FlowListNode?, ghost t: Chain, ghost off: Offsets)
      requires Valid() && |records| + |t| <= total && IsList(head, t) && Reads(off, t)
      modifies this`records, this`preview, this`nodeNum
      ensures Valid() && records == old(records) + RecordsOf(KeyVal(node.key, tt), Places(t, off), offset64)
    {
      var pvwDepth := PreviewDepth(tt, total);
      var key := KeyVal(node.key, tt);
      var ln := head;
      ghost var i := 0;
      ghost var places, before := Places(t, off), records;
      while ln != null
        invariant i <= |t| && ln == (if i < |t| then t[i] else null) && Going()
        invariant records == before + RecordsOf(key, places[..i], offset64)
        decreases |t| - i
      {
        AtInList(head, t, off, i);
        WriteNext(key, ln.flow.flowIndexOffset, pvwDepth, places, i, before);
        ln := ln.next;
        i := i + 1;
      }
      assert places[..i] == places && Folded(0);
    }

    static lemma AtInList(head: FlowListNode?, t: Chain, off: Offsets, i: nat)
      requires IsList(head, t) && Reads(off, t) && i < |t|
      ensures t[i].flow.flowIndexOffset == Places(t, off)[i]
      ensures t[i].next == if i + 1 < |t| then t[i + 1] else null
    {
      assert t[i] in t;
    }

    // The preview never needs more than the block set aside for it.
    lemma PreviewFits()
      requires Valid()
      ensures |preview| * KeySize(tt) <= DISK_BLOCK
    {
      if HasPreview(tt, total) {
        PreviewIsShallow(tt, total);
        EveryNthIs(records, PreviewStep(tt, total), 0);
        FewOnTop(tt, total, |records|);
      }
    }
  }

  lemma DivBelow(n: nat, step: nat, p: nat)
    requires step > 0 && n < p * step
    ensures n / step < p
  {
    var q, r := n / step, n % step;
    assert n == q * step + r;
    Times(if q >= p then p else q, q, step);
  }

  lemma BlockOfKeys(tt: KeyType)
    requires tt != FLOW
    ensures Pow2(PreviewLevels(tt)) * KeySize(tt) == DISK_BLOCK
  {
    assert Pow2(8) == 256 && Pow2(10) == 1024 && Pow2(11) == 2048;
  }

  lemma FewOnTop(tt: KeyType, total: nat, n: nat)
    requires HasPreview(tt, total) && n <= total
    ensures n / PreviewStep(tt, total) * KeySize(tt) <= DISK_BLOCK
  {
    DepthOfBounds(total);
    PreviewIsShallow(tt, total);
    Pow2Adds(PreviewLevels(tt), DepthOf(total) - PreviewLevels(tt));
    DivBelow(n, PreviewStep(tt, total), Pow2(PreviewLevels(tt)));
    BlockOfKeys(tt);
    Times(n / PreviewStep(tt, total), Pow2(PreviewLevels(tt)), KeySize(tt));
  }

  lemma Times(a: int, b: int, c: nat)
    requires a <= b
    ensures a * c <= b * c
  {
  }
}

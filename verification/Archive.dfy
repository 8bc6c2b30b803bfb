// From an index set to the files of a capture slot (indexer/output.c).

module Archive {
  import opened Folding
  import opened Sequences
  import opened Network
  import opened IndexTree
  import opened LeftFilled
  import opened SubIndex
  import opened MergeSort
  import opened SubIndexFile
  import opened FlowFile
  import opened IndexBucket
  import opened Walk
  import opened WriteIndex

  // ---- Where the flows are ----

  // The place of each flow in the flow index.
  type Placing = IndexNode -> nat

  ghost predicate PlacedBy(flows: seq<IndexNode>, place: Placing)
    reads flows`flowIndexOffset
  {
    forall f <- flows :: f.flowIndexOffset == place(f)
  }

  ghost function Mapped(flows: seq<IndexNode>, place: Placing): (r: seq<nat>)
    ensures |r| == |flows| && forall i :: 0 <= i < |flows| ==> r[i] == place(flows[i])
  {
    seq(|flows|, i requires 0 <= i < |flows| => place(flows[i]))
  }

  lemma PlacesAreMapped(n: IndexNode, flows: seq<IndexNode>, place: Placing)
    requires n.flows == flows && PlacedBy(flows, place)
    ensures FlowPlaces(n) == Mapped(flows, place)
  {
  }

  // The flows are different ones, at different places that fit the width used for them.
  ghost predicate WellPlaced(flows: seq<IndexNode>, place: Placing, offset64: bool) {
    && (forall f <- flows :: place(f) < if offset64 then 0x1_0000_0000_0000_0000 else 0x1_0000_0000)
    && forall i, j :: 0 <= i < j < |flows| ==> place(flows[i]) != place(flows[j])
  }

  // ---- The lists of a sub-index tree ----

  // The places of the flows of each node.
  ghost function Groups(line: seq<IndexNode>, flows: seq<IndexNode>, tt: KeyType, rank: Order,
                        place: Placing): (r: seq<seq<nat>>)
    ensures |r| == |line|
    ensures forall k :: 0 <= k < |line| ==> r[k] == Mapped(FlowsOf(flows, tt, rank, rank(line[k].key)), place)
  {
    seq(|line|, k requires 0 <= k < |line| => Mapped(FlowsOf(flows, tt, rank, rank(line[k].key)), place))
  }

  // Choosing the flows of one key keeps them in different places.
  lemma {:induction false} StillApart(flows: seq<IndexNode>, tt: KeyType, rank: Order, r: nat, place: Placing,
                                      offset64: bool)
    requires WellPlaced(flows, place, offset64)
    ensures WellPlaced(FlowsOf(flows, tt, rank, r), place, offset64)
  {
    if flows != [] {
      var front, f := flows[..|flows| - 1], flows[|flows| - 1];
      StillApart(front, tt, rank, r, place, offset64);
      FlowsOfIn(front, tt, rank, r);
      assert forall g <- front :: place(g) != place(f);
    }
  }

  lemma GroupsAreGood(line: seq<IndexNode>, flows: seq<IndexNode>, tt: KeyType, rank: Order, place: Placing,
                      offset64: bool)
    requires WellPlaced(flows, place, offset64)
    ensures GoodPlaces(Groups(line, flows, tt, rank, place), offset64)
  {
    var groups := Groups(line, flows, tt, rank, place);
    forall k | 0 <= k < |groups|
      ensures Fit(groups[k], offset64) && forall i, j :: 0 <= i < j < |groups[k]| ==> groups[k][i] != groups[k][j]
    {
      StillApart(flows, tt, rank, rank(line[k].key), place, offset64);
    }
  }

  // The ranks of the nodes of a tree are different.
  ghost predicate RanksRise(line: seq<IndexNode>, rank: Order) {
    forall i, j :: 0 <= i < j < |line| ==> rank(line[i].key) < rank(line[j].key)
  }

  lemma {:induction false} CountAlike(a: seq<seq<nat>>, b: seq<seq<nat>>)
    requires |a| == |b| && forall k :: 0 <= k < |a| ==> |a[k]| == |b[k]|
    ensures Count(a) == Count(b)
  {
    if a != [] {
      CountAlike(a[..|a| - 1], b[..|b| - 1]);
    }
  }

  lemma {:induction false} CountOneLonger(a: seq<seq<nat>>, b: seq<seq<nat>>, at: nat)
    requires |a| == |b| && at < |a| && |b[at]| == |a[at]| + 1
    requires forall k :: 0 <= k < |a| && k != at ==> |a[k]| == |b[k]|
    ensures Count(b) == Count(a) + 1
  {
    if at == |a| - 1 {
      CountAlike(a[..at], b[..at]);
    } else {
      CountOneLonger(a[..|a| - 1], b[..|b| - 1], at);
    }
  }

  lemma {:induction false} CountOfNone(a: seq<seq<nat>>)
    requires forall k :: 0 <= k < |a| ==> a[k] == []
    ensures Count(a) == 0
  {
    if a != [] {
      CountOfNone(a[..|a| - 1]);
    }
  }

  // Each flow that has a key in the tree is in exactly one list.
  lemma {:induction false} ListedOnce(line: seq<IndexNode>, flows: seq<IndexNode>, tt: KeyType, rank: Order,
                                      place: Placing)
    requires RanksRise(line, rank)
    requires forall f <- flows :: Applies(f.key, tt) ==> exists k :: 0 <= k < |line| && rank(line[k].key) == rank(f.key)
    ensures Count(Groups(line, flows, tt, rank, place)) == CountFor(flows, tt)
  {
    var b := Groups(line, flows, tt, rank, place);
    if flows == [] {
      CountOfNone(b);
    } else {
      ListedOnce(line, flows[..|flows| - 1], tt, rank, place);
      OneMoreListed(line, flows, tt, rank, place);
    }
  }

  lemma OneMoreListed(line: seq<IndexNode>, flows: seq<IndexNode>, tt: KeyType, rank: Order, place: Placing)
    requires RanksRise(line, rank) && flows != []
    requires var f := flows[|flows| - 1];
      Applies(f.key, tt) ==> exists k :: 0 <= k < |line| && rank(line[k].key) == rank(f.key)
    ensures Count(Groups(line, flows, tt, rank, place)) ==
            Count(Groups(line, flows[..|flows| - 1], tt, rank, place)) + if Applies(flows[|flows| - 1].key, tt)
              then 1 else 0
  {
    var f, front := flows[|flows| - 1], flows[..|flows| - 1];
    var a, b := Groups(line, front, tt, rank, place), Groups(line, flows, tt, rank, place);
    forall k | 0 <= k < |line|
      ensures |b[k]| == |a[k]| + if Applies(f.key, tt) && rank(line[k].key) == rank(f.key) then 1 else 0
    {
      var r := rank(line[k].key);
      assert FlowsOf(flows, tt, rank, r) == FlowsOf(front, tt, rank, r) + if Applies(f.key, tt) && r == rank(f.key)
             then [f] else [];
    }
    if Applies(f.key, tt) {
      var at :| 0 <= at < |line| && rank(line[at].key) == rank(f.key);
      CountOneLonger(a, b, at);
    } else {
      CountAlike(a, b);
    }
  }

  // ---- One sub-index ----

  // The records are those of the flows that have a key of type tt.
  ghost predicate RecordsOfFlows(records: seq<Entry>, tt: KeyType, flows: seq<IndexNode>, place: Placing)
    requires tt != FLOW
  {
    && RecordsInOrder(records) && |records| == CountFor(flows, tt)
    && forall key: nat, offset: nat :: Entry(key, offset) in records <==>
         exists f <- flows :: Applies(f.key, tt) && KeyVal(f.key, tt) == key && place(f) == offset
  }

  lemma {:induction false} FlowIsListed(flows: seq<IndexNode>, tt: KeyType, rank: Order, r: nat, f: IndexNode)
    requires f in flows && Applies(f.key, tt) && rank(f.key) == r
    ensures f in FlowsOf(flows, tt, rank, r)
  {
    if f != flows[|flows| - 1] {
      FlowIsListed(flows[..|flows| - 1], tt, rank, r, f);
    }
  }

  lemma ListMeans(line: seq<IndexNode>, flows: seq<IndexNode>, tt: KeyType, rank: Order, place: Placing, k: nat,
                  offset: nat)
    requires k < |line|
    ensures offset in Groups(line, flows, tt, rank, place)[k] <==>
      exists f <- flows :: Applies(f.key, tt) && rank(f.key) == rank(line[k].key) && place(f) == offset
  {
    var r := rank(line[k].key);
    var list, group := FlowsOf(flows, tt, rank, r), Groups(line, flows, tt, rank, place)[k];
    FlowsOfIn(flows, tt, rank, r);
    if offset in group {
      var i :| 0 <= i < |group| && group[i] == offset;
      assert list[i] in list;
    }
    if f :| f in flows && Applies(f.key, tt) && rank(f.key) == r && place(f) == offset {
      FlowIsListed(flows, tt, rank, r, f);
      var i :| 0 <= i < |list| && list[i] == f;
      assert group[i] == offset;
    }
  }

  // Nodes and flows of one key are of one rank.
  lemma RankIsKey(a: PacketRecord, b: PacketRecord, tt: KeyType, rank: Order)
    requires tt != FLOW && Ranks(rank, tt) && Applies(a, tt) && Applies(b, tt)
    ensures rank(a) == rank(b) <==> KeyVal(a, tt) == KeyVal(b, tt)
  {
    KeyValOrdersLikeRank(a, b, tt);
    assert rank(a) == Rank(a, tt);
    assert rank(b) == Rank(b, tt);
  }

  // Every flow that has a key of type tt has a node.
  ghost predicate AllHaveNodes(flows: seq<IndexNode>, line: seq<IndexNode>, tt: KeyType, rank: Order) {
    && (forall k :: 0 <= k < |line| ==> Applies(line[k].key, tt))
    && forall f <- flows :: Applies(f.key, tt) ==> exists k :: 0 <= k < |line| && rank(line[k].key) == rank(f.key)
  }

  // Some node of the line with this key has the offset in its group.
  ghost predicate Grouped(line: seq<IndexNode>, groups: seq<seq<nat>>, tt: KeyType, key: nat, offset: nat)
    requires tt != FLOW && |line| == |groups|
  {
    exists k :: 0 <= k < |line| && KeyVal(line[k].key, tt) == key && offset in groups[k]
  }

  lemma GroupedHasFlow(line: seq<IndexNode>, flows: seq<IndexNode>, tt: KeyType, rank: Order, place: Placing,
                       key: nat, offset: nat)
    requires tt != FLOW && Ranks(rank, tt) && AllHaveNodes(flows, line, tt, rank)
    requires Grouped(line, Groups(line, flows, tt, rank, place), tt, key, offset)
    ensures exists f <- flows :: Applies(f.key, tt) && KeyVal(f.key, tt) == key && place(f) == offset
  {
    var k :| 0 <= k < |line| && KeyVal(line[k].key, tt) == key && offset in Groups(line, flows, tt, rank, place)[k];
    ListMeans(line, flows, tt, rank, place, k, offset);
    var f :| f in flows && Applies(f.key, tt) && rank(f.key) == rank(line[k].key) && place(f) == offset;
    RankIsKey(f.key, line[k].key, tt, rank);
  }

  lemma FlowIsGrouped(line: seq<IndexNode>, flows: seq<IndexNode>, tt: KeyType, rank: Order, place: Placing,
                      f: IndexNode)
    requires tt != FLOW && Ranks(rank, tt) && AllHaveNodes(flows, line, tt, rank) && f in flows && Applies(f.key, tt)
    ensures Grouped(line, Groups(line, flows, tt, rank, place), tt, KeyVal(f.key, tt), place(f))
  {
    var k :| 0 <= k < |line| && rank(line[k].key) == rank(f.key);
    RankIsKey(line[k].key, f.key, tt, rank);
    ListMeans(line, flows, tt, rank, place, k, place(f));
  }

  lemma RecordsAreOfFlows(records: seq<Entry>, line: seq<IndexNode>, flows: seq<IndexNode>, tt: KeyType, rank: Order,
                          place: Placing)
    requires tt != FLOW && Ranks(rank, tt) && RightRecords(tt, records, line, Groups(line, flows, tt, rank, place))
    requires RanksRise(line, rank) && AllHaveNodes(flows, line, tt, rank)
    ensures RecordsOfFlows(records, tt, flows, place)
  {
    ListedOnce(line, flows, tt, rank, place);
    var groups := Groups(line, flows, tt, rank, place);
    forall key: nat, offset: nat
      ensures Entry(key, offset) in records <==>
              exists f <- flows :: Applies(f.key, tt) && KeyVal(f.key, tt) == key && place(f) == offset
    {
      assert Entry(key, offset) in records <==> Grouped(line, groups, tt, key, offset);
      if Grouped(line, groups, tt, key, offset) {
        GroupedHasFlow(line, flows, tt, rank, place, key, offset);
      }
      if f :| f in flows && Applies(f.key, tt) && KeyVal(f.key, tt) == key && place(f) == offset {
        FlowIsGrouped(line, flows, tt, rank, place, f);
      }
    }
  }

  lemma TreeLine(root: IndexNode?, t: Tree, tt: KeyType, rank: Order, flows: seq<IndexNode>, line: seq<IndexNode>)
    requires tt != FLOW && Ranks(rank, tt) && Holding(root, t, tt, rank, flows) && line == Inorder(t)
    ensures IsTree(root, t) && DistinctTree(t) && KeysRise(tt, line) && RanksRise(line, rank)
    ensures AllHaveNodes(flows, line, tt, rank)
    ensures forall k :: 0 <= k < |line| ==> line[k].flows == FlowsOf(flows, tt, rank, rank(line[k].key))
  {
    assert SubTree(root, t, tt, rank, flows) by {
      assert Folded(0);
    }
    TreeKeysRise(tt, t, line, rank);
    OrderedIsSorted(t, -1, RANK_LIMIT, rank);
    InorderNodes(t);
    forall f | f in flows && Applies(f.key, tt) ensures exists k ::
      0 <= k < |line| && rank(line[k].key) == rank(f.key) {
      var n :| n in Nodes(t) && rank(n.key) == rank(f.key);
      assert n in line;
    }
    forall k | 0 <= k < |line|
      ensures Applies(line[k].key, tt) && line[k].flows == FlowsOf(flows, tt, rank, rank(line[k].key))
    {
      NodeInLine(t, line, k);
    }
  }

  lemma ListsArePlaced(flows: seq<IndexNode>, line: seq<IndexNode>, tt: KeyType, rank: Order, place: Placing)
    requires PlacedBy(flows, place)
    requires forall k :: 0 <= k < |line| ==> line[k].flows == FlowsOf(flows, tt, rank, rank(line[k].key))
    ensures forall k :: 0 <= k < |line| ==> FlowPlaces(line[k]) == Groups(line, flows, tt, rank, place)[k]
  {
    forall k | 0 <= k < |line| ensures FlowPlaces(line[k]) == Groups(line, flows, tt, rank, place)[k] {
      FlowsOfIn(flows, tt, rank, rank(line[k].key));
      PlacesAreMapped(line[k], FlowsOf(flows, tt, rank, rank(line[k].key)), place);
    }
  }

  // write_index for one of the sub-indexes of an index set.
  method WriteTree(tt: KeyType, root: IndexNode?, records: nat, offset64: bool, ghost t: Tree, ghost rank: Order,
                   ghost flows: seq<IndexNode>, ghost place: Placing, ghost nodes: set<IndexNode>)
    returns (file: IndexFile)
    requires tt != FLOW && Ranks(rank, tt) && Holding(root, t, tt, rank, flows) && nodes == Nodes(t)
    requires PlacedBy(flows, place) && WellPlaced(flows, place, offset64) && records == CountFor(flows, tt) < MAX_NODES
    modifies nodes`left
    ensures WellFormedFile(file) && file.header.keyType == tt && RecordsOfFlows(file.records, tt, flows, place)
  {
    ghost var line := Inorder(t);
    ghost var groups := Groups(line, flows, tt, rank, place);
    TreeLine(root, t, tt, rank, flows, line);
    ListsArePlaced(flows, line, tt, rank, place);
    GroupsAreGood(line, flows, tt, rank, place, offset64);
    ListedOnce(line, flows, tt, rank, place);
    ghost var freed;
    file, freed := WriteSubIndex(tt, root, records, offset64, t, line, nodes, groups);
    RecordsAreOfFlows(file.records, line, flows, tt, rank, place);
  }

  // ---- The flow index ----

  // The flows of some packets: each has all packets with its five-tuple, in the order of
  // arrival; every packet is in one of them; and they are ordered by their five-tuples.
  ghost predicate AreFlows(flows: seq<seq<PacketRecord>>, ps: seq<PacketRecord>, rank: Order) {
    && NoneEmpty(flows)
    && (forall k :: 0 <= k < |flows| ==> flows[k] == PacketsOf(ps, rank, rank(flows[k][0])))
    && (forall p <- ps :: exists k :: 0 <= k < |flows| && p in flows[k])
    && forall i, j :: 0 <= i < j < |flows| ==> rank(flows[i][0]) < rank(flows[j][0])
  }

  // ---- Nothing is lost or written twice ----

  lemma {:induction false} PacketsOfCount(ps: seq<PacketRecord>, rank: Order, r: nat, p: PacketRecord)
    ensures multiset(PacketsOf(ps, rank, r))[p] == if rank(p) == r then multiset(ps)[p] else 0
  {
    if ps != [] {
      PacketsOfCount(ps[..|ps| - 1], rank, r, p);
      assert ps == ps[..|ps| - 1] + [ps[|ps| - 1]];
    }
  }

  // A packet is written with the flow of its five-tuple and with no other.
  lemma {:induction false} WrittenInOne(flows: seq<seq<PacketRecord>>, ps: seq<PacketRecord>, rank: Order,
                                        p: PacketRecord)
    requires NoneEmpty(flows)
    requires forall k :: 0 <= k < |flows| ==> flows[k] == PacketsOf(ps, rank, rank(flows[k][0]))
    requires forall i, j :: 0 <= i < j < |flows| ==> rank(flows[i][0]) < rank(flows[j][0])
    ensures multiset(Body(flows))[p] == if HasFlow(flows, rank, rank(p)) then multiset(ps)[p] else 0
  {
    if flows != [] {
      var front, last := flows[..|flows| - 1], flows[|flows| - 1];
      WrittenInOne(front, ps, rank, p);
      PacketsOfCount(ps, rank, rank(last[0]), p);
      BodyOneMore(flows, p);
      HasOneMore(flows, rank, rank(p));
    }
  }

  ghost predicate HasFlow(flows: seq<seq<PacketRecord>>, rank: Order, r: nat)
    requires NoneEmpty(flows)
  {
    exists k :: 0 <= k < |flows| && rank(flows[k][0]) == r
  }

  lemma BodyOneMore(flows: seq<seq<PacketRecord>>, p: PacketRecord)
    requires flows != []
    ensures multiset(Body(flows))[p] ==
            multiset(Body(flows[..|flows| - 1]))[p] + multiset(flows[|flows| - 1])[p]
  {
  }

  lemma HasOneMore(flows: seq<seq<PacketRecord>>, rank: Order, r: nat)
    requires flows != [] && NoneEmpty(flows)
    requires forall i, j :: 0 <= i < j < |flows| ==> rank(flows[i][0]) < rank(flows[j][0])
    ensures var front, last := flows[..|flows| - 1], flows[|flows| - 1];
      && NoneEmpty(front) && (HasFlow(flows, rank, r) <==> HasFlow(front, rank, r) || rank(last[0]) == r)
      && !(HasFlow(front, rank, r) && rank(last[0]) == r)
  {
    var front, last := flows[..|flows| - 1], flows[|flows| - 1];
    if HasFlow(front, rank, r) {
      var k :| 0 <= k < |front| && rank(front[k][0]) == r;
      assert flows[k] == front[k];
    }
    if HasFlow(flows, rank, r) && rank(last[0]) != r {
      var k :| 0 <= k < |flows| && rank(flows[k][0]) == r;
      assert flows[k] == front[k];
    }
  }

  // The capture file has every packet indexed as often as it was indexed, and the entries of the
  // flow index count them all.
  lemma CaptureIsPermutation(flows: seq<seq<PacketRecord>>, ps: seq<PacketRecord>, rank: Order, offset64: bool)
    requires AreFlows(flows, ps, rank)
    ensures multiset(Body(flows)) == multiset(ps)
    ensures (forall k :: 0 <= k < |flows| ==> |flows[k]| < 0x1_0000_0000) ==>
              FlowFile.Counted(Entries(flows, offset64)) == |ps|
  {
    forall p ensures multiset(Body(flows))[p] == multiset(ps)[p] {
      WrittenInOne(flows, ps, rank, p);
      if p in ps {
        var k :| 0 <= k < |flows| && p in flows[k];
        PacketsOfIn(ps, rank, rank(flows[k][0]));
      }
    }
    SameLength(Body(flows), ps);
    if forall k :: 0 <= k < |flows| ==> |flows[k]| < 0x1_0000_0000 {
      CountedIsBody(flows, offset64);
    }
  }

  lemma SameLength(a: seq<PacketRecord>, b: seq<PacketRecord>)
    requires multiset(a) == multiset(b)
    ensures |a| == |b|
  {
    assert |multiset(a)| == |a| && |multiset(b)| == |b|;
  }

  // Node k of the line is the one of flow k.
  ghost predicate Lines(line: seq<IndexNode>, flows: seq<seq<PacketRecord>>) {
    |line| == |flows| && forall k :: 0 <= k < |line| ==> flows[k] != [] && flows[k][0] == line[k].key
  }

  ghost function FlowPackets(line: seq<IndexNode>, ps: seq<PacketRecord>, rank: Order): (r: seq<seq<PacketRecord>>)
    ensures |r| == |line| && forall k :: 0 <= k < |line| ==> r[k] == PacketsOf(ps, rank, rank(line[k].key))
  {
    seq(|line|, k requires 0 <= k < |line| => PacketsOf(ps, rank, rank(line[k].key)))
  }

  lemma FlowLine(root: IndexNode?, t: Tree, rank: Order, ps: seq<PacketRecord>, line: seq<IndexNode>)
    requires HoldingPackets(root, t, rank, ps) && line == Inorder(t)
    ensures IsTree(root, t) && DistinctTree(t) && RanksRise(line, rank)
    ensures forall k :: 0 <= k < |line| ==> Packets(line[k]) == FlowPackets(line, ps, rank)[k]
    ensures AreFlows(FlowPackets(line, ps, rank), ps, rank) && Lines(line, FlowPackets(line, ps, rank))
  {
    assert FlowTree(root, t, rank, ps) by {
      assert Folded(0);
    }
    OrderedIsSorted(t, -1, RANK_LIMIT, rank);
    OrderedIsDistinct(t, -1, RANK_LIMIT, rank);
    var flows := FlowPackets(line, ps, rank);
    forall k | 0 <= k < |line| ensures Packets(line[k]) == flows[k] && flows[k][0] == line[k].key {
      NodeInLine(t, line, k);
    }
    forall p | p in ps ensures exists k :: 0 <= k < |flows| && p in flows[k] {
      var n :| n in Nodes(t) && rank(n.key) == rank(p);
      InorderNodes(t);
      var k :| 0 <= k < |line| && line[k] == n;
      PacketIsKept(ps, rank, p);
    }
  }

  // Where flow k has its entry.
  function EntryPlace(k: nat, offset64: bool): nat { INDEX_HEADER + k * EntrySize(offset64) }

  // The nodes of the line are placed one entry after the other.
  ghost predicate PlacedInLine(line: seq<IndexNode>, place: Placing, offset64: bool) {
    forall k :: 0 <= k < |line| ==> place(line[k]) == EntryPlace(k, offset64)
  }

  // write_index for the flow tree of an index set.
  method WriteFlows(root: IndexNode?, offset64: bool, ghost t: Tree, ghost rank: Order, ghost ps: seq<PacketRecord>,
                    ghost nodes: set<IndexNode>)
    returns (flow: FlowWriter, ghost place: Placing)
    requires HoldingPackets(root, t, rank, ps) && nodes == Nodes(t)
    modifies nodes`left, nodes`flowIndexOffset
    ensures fresh(flow) && flow.Valid() && flow.offset64 == offset64
    ensures AreFlows(flow.flows, ps, rank) && Lines(Inorder(t), flow.flows) && PlacedInLine(Inorder(t), place, offset64)
    ensures forall n <- nodes :: n.flowIndexOffset == place(n)
  {
    ghost var line := Inorder(t);
    FlowLine(root, t, rank, ps, line);
    flow := WriteFlowIndex(root, offset64, t, line, nodes, FlowPackets(line, ps, rank));
    ghost var m := map n | n in nodes :: n.flowIndexOffset;
    place := n => if n in m then m[n] else 0;
    forall k | 0 <= k < |line| ensures place(line[k]) == EntryPlace(k, offset64) {
      NodeInLine(t, line, k);
    }
  }

  // ---- The flows in the order of time ----

  lemma AddDifferent(ps: seq<PacketRecord>, p: PacketRecord)
    requires Distinct(ps) && p !in ps
    ensures Distinct(ps + [p]) && ps + [] == ps
  {
  }

  lemma {:induction false} FirstOfIn(ps: seq<PacketRecord>, rank: Order)
    requires Distinct(ps)
    ensures Distinct(FirstOf(ps, rank)) && forall p <- FirstOf(ps, rank) :: p in ps
  {
    if ps != [] {
      var front, p := ps[..|ps| - 1], ps[|ps| - 1];
      assert Distinct(front);
      FirstOfIn(front, rank);
      assert forall q <- front :: q != p;
      AddDifferent(FirstOf(front, rank), p);
    }
  }

  lemma {:induction false} AsManyAs<T>(a: seq<T>, b: seq<T>)
    requires forall i, j :: 0 <= i < j < |a| ==> a[i] != a[j]
    requires forall x <- a :: x in b
    ensures |a| <= |b|
    decreases |b|
  {
    if a != [] {
      var x := a[|a| - 1];
      var at := Where(b, x);
      var rest := b[..at] + b[at + 1..];
      forall y | y in a[..|a| - 1] ensures y in rest {
        var i := Where(a[..|a| - 1], y);
        assert a[i] == y != a[|a| - 1];
        var j := Where(b, y);
        assert y == if j < at then rest[j] else rest[j - 1];
      }
      AsManyAs(a[..|a| - 1], rest);
    }
  }

  ghost function Where<T>(s: seq<T>, x: T): (i: nat)
    requires x in s
    ensures i < |s| && s[i] == x
  {
    var i :| 0 <= i < |s| && s[i] == x;
    i
  }

  ghost predicate SameNodes(a: seq<IndexNode>, b: seq<IndexNode>) {
    (forall n <- a :: n in b) && forall n <- b :: n in a
  }

  // The flows in the order of time are those of the flow tree, each once.
  lemma SameFlows(flows: seq<IndexNode>, t: Tree, line: seq<IndexNode>, ps: seq<PacketRecord>, rank: Order)
    requires InTimeOrder(flows, Nodes(t), FirstOf(ps, rank)) && Distinct(ps)
    requires RanksRise(line, rank) && line == Inorder(t)
    ensures |line| == |flows| && forall i, j :: 0 <= i < j < |flows| ==> flows[i] != flows[j]
    ensures SameNodes(flows, line)
    ensures forall f <- flows :: f in Nodes(t)
  {
    assert TimeOrder(flows, Nodes(t), FirstOf(ps, rank)) by {
      assert Folded(0);
    }
    FirstOfIn(ps, rank);
    InorderNodes(t);
    forall i, j | 0 <= i < j < |flows| ensures flows[i] != flows[j] {
      assert flows[i].key != flows[j].key;
    }
    AsManyAs(flows, line);
    AsManyAs(line, flows);
  }

  lemma LineIsWellPlaced(flows: seq<IndexNode>, line: seq<IndexNode>, place: Placing, offset64: bool, wide: bool)
    requires |line| == |flows| && (forall i, j :: 0 <= i < j < |flows| ==> flows[i] != flows[j])
    requires SameNodes(flows, line) && PlacedInLine(line, place, offset64)
    requires EntryPlace(|flows|, offset64) <= if wide then 0x1_0000_0000_0000_0000 else 0x1_0000_0000
    ensures WellPlaced(flows, place, wide)
  {
    forall f | f in flows ensures place(f) < EntryPlace(|flows|, offset64) {
      var k := Where(line, f);
      PlacesRise(k, |flows|, offset64);
    }
    forall i, j | 0 <= i < j < |flows| ensures place(flows[i]) != place(flows[j]) {
      var a := Where(line, flows[i]);
      var b := Where(line, flows[j]);
      PlacesRise(a, b, offset64);
      PlacesRise(b, a, offset64);
    }
  }

  lemma PlacesRise(a: nat, b: nat, offset64: bool)
    ensures a < b ==> EntryPlace(a, offset64) < EntryPlace(b, offset64)
  {
    var w := EntrySize(offset64);
    assert a < b ==> a * w + w <= b * w by {
      if a < b {
        assert b * w == a * w + (b - a) * w;
      }
    }
  }

  lemma PortCount(flows: seq<IndexNode>, tt: KeyType)
    requires tt == SRCPORT || tt == DSTPORT
    ensures CountFor(flows, tt) == |flows|
  {
  }

  // ---- output_bucket ----

  const SUB_INDEXES: seq<KeyType> := [SRCv4, DSTv4, SRCv6, DSTv6, SRCPORT, DSTPORT]

  // The files written, all but the first j, and the trees still to be written.
  ghost predicate Standing(roots: map<KeyType, IndexNode?>, trees: map<KeyType, Tree>, ranks: Ranking,
                           flows: seq<IndexNode>,
                           j: nat, all: set<IndexNode>)
    reads all`left, all`right, all`flows
  {
    && (forall u: KeyType :: u in roots && u in trees && Nodes(trees[u]) <= all && AllOf(trees[u], u))
    && forall i :: j <= i < |SUB_INDEXES| ==>
         var u := SUB_INDEXES[i]; Holding(roots[u], trees[u], u, ranks(u), flows)
  }

  ghost predicate Filed(files: map<KeyType, IndexFile>, flows: seq<IndexNode>, place: Placing, j: nat) {
    forall i :: 0 <= i < j <= |SUB_INDEXES| ==>
      var u := SUB_INDEXES[i];
      && u in files && WellFormedFile(files[u]) && files[u].header.keyType == u
      && RecordsOfFlows(files[u].records, u, flows, place)
  }

  ghost predicate FiledUpTo(files: map<KeyType, IndexFile>, flows: seq<IndexNode>, place: Placing, j: nat) {
    exists m :: Filed(files, flows, place, m) && m == j
  }

  // Which number of records goes into the header.
  function RecordCount(v: Contents, tt: KeyType): nat
    requires tt == SRCPORT || tt == DSTPORT || tt in v.counts
  {
    if tt == SRCPORT || tt == DSTPORT then v.flowCnt else v.counts[tt]
  }

  lemma RightCount(v: Contents, tt: KeyType)
    requires v.flowCnt == |v.timeorder| && v.counts == Tally(v.timeorder) && tt != FLOW
    ensures RecordCount(v, tt) == CountFor(v.timeorder, tt) <= v.flowCnt
  {
    if tt == SRCPORT || tt == DSTPORT {
      PortCount(v.timeorder, tt);
    }
    CountAtMost(v.timeorder, tt);
  }

  lemma {:induction false} CountAtMost(flows: seq<IndexNode>, tt: KeyType)
    ensures CountFor(flows, tt) <= |flows|
  {
    if flows != [] {
      CountAtMost(flows[..|flows| - 1], tt);
    }
  }

  lemma FiledMore(files: map<KeyType, IndexFile>, file: IndexFile, flows: seq<IndexNode>, place: Placing, j: nat)
    requires j < |SUB_INDEXES| && FiledUpTo(files, flows, place, j)
    requires var tt := SUB_INDEXES[j];
      WellFormedFile(file) && file.header.keyType == tt && RecordsOfFlows(file.records, tt, flows, place)
    ensures FiledUpTo(files[SUB_INDEXES[j] := file], flows, place, j + 1)
  {
    assert Filed(files[SUB_INDEXES[j] := file], flows, place, j + 1);
  }

  // One round of the loop of output_bucket.
  method WriteNext(j: nat, v: Contents, wide: bool, ghost trees: map<KeyType, Tree>, ghost ranks: Ranking,
                   ghost place: Placing, ghost all: set<IndexNode>, ghost nodes: set<IndexNode>,
                   files: map<KeyType, IndexFile>)
    returns (files1: map<KeyType, IndexFile>)
    requires j < |SUB_INDEXES| && Standing(v.roots, trees, ranks, v.timeorder, j, all) &&
             nodes == Nodes(trees[SUB_INDEXES[j]])
    requires FiledUpTo(files, v.timeorder, place, j) && forall u :: Ranks(ranks(u), u)
    requires PlacedBy(v.timeorder, place) && WellPlaced(v.timeorder, place, wide)
    requires v.flowCnt == |v.timeorder| < MAX_NODES && v.counts == Tally(v.timeorder)
    modifies nodes`left
    ensures Standing(v.roots, trees, ranks, v.timeorder, j + 1, all) && FiledUpTo(files1, v.timeorder, place, j + 1)
  {
    var tt := SUB_INDEXES[j];
    RightCount(v, tt);
    assert forall u: KeyType :: allocated(Nodes(trees[u]));
    var file := WriteTree(tt, v.roots[tt], RecordCount(v, tt), wide, trees[tt], ranks(tt), v.timeorder, place, nodes);
    files1 := files[tt := file];
    FiledMore(files, file, v.timeorder, place, j);
    forall i | j + 1 <= i < |SUB_INDEXES|
      ensures var u := SUB_INDEXES[i]; Holding(v.roots[u], trees[u], u, ranks(u), v.timeorder)
    {
      var u := SUB_INDEXES[i];
      assert old(Holding(v.roots[u], trees[u], u, ranks(u), v.timeorder));
      assert u != tt && Nodes(trees[u]) !! nodes;
      var kept := Kept(v.roots[u], trees[u], u, ranks(u), v.timeorder);
    }
  }

  lemma OpenedUp(v: Contents, trees: map<KeyType, Tree>, all: set<IndexNode>, ranks: Ranking, ps: seq<PacketRecord>)
    requires Indexed(v, trees, all, ranks, ps)
    ensures Standing(v.roots, trees, ranks, v.timeorder, 0, all)
    ensures HoldingPackets(v.roots[FLOW], trees[FLOW], ranks(FLOW), ps)
  {
    var g := Progress(ps, v.timeorder, v.timeorder, {});
    assert IndexBucket.Stands(v.roots, trees, ranks, g, all) by {
      assert Closed(0);
    }
    forall i | 0 <= i < |SUB_INDEXES|
      ensures var u := SUB_INDEXES[i]; Holding(v.roots[u], trees[u], u, ranks(u), v.timeorder)
    {
      var u := SUB_INDEXES[i];
      assert Holding(v.roots[u], trees[u], u, ranks(u), g.HeldBy(u));
    }
  }

  // The first round: the flow tree, the others beside it.
  method WriteFirst(v: Contents, flow64: bool, ghost trees: map<KeyType, Tree>, ghost ranks: Ranking,
                    ghost ps: seq<PacketRecord>, ghost all: set<IndexNode>, ghost nodes: set<IndexNode>)
    returns (flow: FlowWriter, ghost place: Placing)
    requires Standing(v.roots, trees, ranks, v.timeorder, 0, all) && nodes == Nodes(trees[FLOW])
    requires HoldingPackets(v.roots[FLOW], trees[FLOW], ranks(FLOW), ps)
    modifies nodes`left, nodes`flowIndexOffset
    ensures Standing(v.roots, trees, ranks, v.timeorder, 0, all)
    ensures fresh(flow) && flow.Valid() && flow.offset64 == flow64 && AreFlows(flow.flows, ps, ranks(FLOW))
    ensures Lines(Inorder(trees[FLOW]), flow.flows) && PlacedInLine(Inorder(trees[FLOW]), place, flow64)
    ensures forall n <- nodes :: n.flowIndexOffset == place(n)
  {
    assert forall u: KeyType :: allocated(Nodes(trees[u]));
    flow, place := WriteFlows(v.roots[FLOW], flow64, trees[FLOW], ranks(FLOW), ps, nodes);
    forall i | 0 <= i < |SUB_INDEXES|
      ensures var u := SUB_INDEXES[i]; Holding(v.roots[u], trees[u], u, ranks(u), v.timeorder)
    {
      var u := SUB_INDEXES[i];
      assert old(Holding(v.roots[u], trees[u], u, ranks(u), v.timeorder));
      assert Nodes(trees[u]) !! nodes;
      var kept := Kept(v.roots[u], trees[u], u, ranks(u), v.timeorder);
    }
  }

  // The rounds for the sub-indexes.
  method WriteOthers(v: Contents, wide: bool, ghost trees: map<KeyType, Tree>, ghost ranks: Ranking,
                     ghost place: Placing, ghost all: set<IndexNode>)
    returns (files: map<KeyType, IndexFile>)
    requires Standing(v.roots, trees, ranks, v.timeorder, 0, all) && forall u :: Ranks(ranks(u), u)
    requires PlacedBy(v.timeorder, place) && WellPlaced(v.timeorder, place, wide)
    requires v.flowCnt == |v.timeorder| < MAX_NODES && v.counts == Tally(v.timeorder)
    modifies all`left
    ensures FiledUpTo(files, v.timeorder, place, |SUB_INDEXES|)
  {
    files := map[];
    var j := 0;
    assert Filed(files, v.timeorder, place, 0);
    while j < |SUB_INDEXES|
      invariant j <= |SUB_INDEXES| && Standing(v.roots, trees, ranks, v.timeorder, j, all)
      invariant FiledUpTo(files, v.timeorder, place, j) && PlacedBy(v.timeorder, place)
    {
      files := WriteNext(j, v, wide, trees, ranks, place, all, Nodes(trees[SUB_INDEXES[j]]), files);
      j := j + 1;
    }
  }

  // Flow k has this key in the tree of type tt.
  predicate HasKey(flows: seq<seq<PacketRecord>>, k: nat, tt: KeyType, key: nat)
    requires tt != FLOW
  {
    k < |flows| && flows[k] != [] && Applies(flows[k][0], tt) && KeyVal(flows[k][0], tt) == key
  }

  // A sub-index file for these flows: a record for each flow that has a key, with the place of
  // its entry in the flow index, ordered by key and place.
  ghost predicate FileOfFlows(f: IndexFile, tt: KeyType, flows: seq<seq<PacketRecord>>, flow64: bool)
    requires tt != FLOW
  {
    && WellFormedFile(f) && f.header.keyType == tt && RecordsInOrder(f.records)
    && forall key: nat, offset: nat :: Entry(key, offset) in f.records <==>
         exists k: nat :: HasKey(flows, k, tt, key) && offset == EntryPlace(k, flow64)
  }

  // What a file has at the place of flow k is of flow k.
  lemma FiledAt(f: IndexFile, tt: KeyType, flows: seq<seq<PacketRecord>>, flow64: bool, k: nat)
    requires tt != FLOW && FileOfFlows(f, tt, flows, flow64)
    ensures forall key: nat :: Entry(key, EntryPlace(k, flow64)) in f.records <==> HasKey(flows, k, tt, key)
  {
    forall key: nat | Entry(key, EntryPlace(k, flow64)) in f.records ensures HasKey(flows, k, tt, key) {
      var j: nat :| HasKey(flows, j, tt, key) && EntryPlace(k, flow64) == EntryPlace(j, flow64);
      PlacesRise(j, k, flow64);
      PlacesRise(k, j, flow64);
    }
  }

  // A slot has a record for the source address of flow k in the file of its version, with these
  // bytes as the key, and none in the other.
  lemma SourceIsFiled(files: map<KeyType, IndexFile>, flows: seq<seq<PacketRecord>>, flow64: bool, k: nat)
    requires k < |flows| && flows[k] != []
    requires forall tt: KeyType :: tt != FLOW ==> tt in files && FileOfFlows(files[tt], tt, flows, flow64)
    ensures forall key: nat :: Entry(key, EntryPlace(k, flow64)) in files[SRCv4].records <==>
              flows[k][0].src.vers == 4 && key == BigEndian(flows[k][0].src.addr, 4)
    ensures forall key: nat :: Entry(key, EntryPlace(k, flow64)) in files[SRCv6].records <==>
              flows[k][0].src.vers == 6 && key == BigEndian(flows[k][0].src.addr, 16)
  {
    FiledAt(files[SRCv4], SRCv4, flows, flow64, k);
    FiledAt(files[SRCv6], SRCv6, flows, flow64, k);
  }

  // The same for the destination.
  lemma DestinationIsFiled(files: map<KeyType, IndexFile>, flows: seq<seq<PacketRecord>>, flow64: bool, k: nat)
    requires k < |flows| && flows[k] != []
    requires forall tt: KeyType :: tt != FLOW ==> tt in files && FileOfFlows(files[tt], tt, flows, flow64)
    ensures forall key: nat :: Entry(key, EntryPlace(k, flow64)) in files[DSTv4].records <==>
              flows[k][0].dst.vers == 4 && key == BigEndian(flows[k][0].dst.addr, 4)
    ensures forall key: nat :: Entry(key, EntryPlace(k, flow64)) in files[DSTv6].records <==>
              flows[k][0].dst.vers == 6 && key == BigEndian(flows[k][0].dst.addr, 16)
  {
    FiledAt(files[DSTv4], DSTv4, flows, flow64, k);
    FiledAt(files[DSTv6], DSTv6, flows, flow64, k);
  }

  // And one for each of its ports.
  lemma PortsAreFiled(files: map<KeyType, IndexFile>, flows: seq<seq<PacketRecord>>, flow64: bool, k: nat)
    requires k < |flows| && flows[k] != []
    requires forall tt: KeyType :: tt != FLOW ==> tt in files && FileOfFlows(files[tt], tt, flows, flow64)
    ensures forall key: nat :: Entry(key, EntryPlace(k, flow64)) in files[SRCPORT].records <==>
              key == flows[k][0].srcport
    ensures forall key: nat :: Entry(key, EntryPlace(k, flow64)) in files[DSTPORT].records <==>
              key == flows[k][0].dstport
  {
    FiledAt(files[SRCPORT], SRCPORT, flows, flow64, k);
    FiledAt(files[DSTPORT], DSTPORT, flows, flow64, k);
  }

  lemma FiledAsFlows(f: IndexFile, tt: KeyType, timeorder: seq<IndexNode>, line: seq<IndexNode>,
                     flows: seq<seq<PacketRecord>>, place: Placing, flow64: bool)
    requires tt != FLOW && WellFormedFile(f) && f.header.keyType == tt &&
             RecordsOfFlows(f.records, tt, timeorder, place)
    requires SameNodes(timeorder, line) && Lines(line, flows) && PlacedInLine(line, place, flow64)
    ensures FileOfFlows(f, tt, flows, flow64)
  {
    forall key: nat, offset: nat
      ensures Entry(key, offset) in f.records <==>
              exists k: nat :: HasKey(flows, k, tt, key) && offset == EntryPlace(k, flow64)
    {
      if Entry(key, offset) in f.records {
        var n :| n in timeorder && Applies(n.key, tt) && KeyVal(n.key, tt) == key && place(n) == offset;
        var k := Where(line, n);
        assert HasKey(flows, k, tt, key) && offset == EntryPlace(k, flow64);
      }
      if k: nat :| HasKey(flows, k, tt, key) && offset == EntryPlace(k, flow64) {
        assert line[k] in timeorder;
      }
    }
  }

  // The size of the flow index.
  function IndexSize(flowCnt: nat, flow64: bool): nat { INDEX_HEADER + flowCnt * EntrySize(flow64) }

  // output_bucket: the capture file with the flow index, then the six sub-indexes.
  method OutputBucket(idxs: IndexSet, flow64: bool, ghost ranks: Ranking, ghost ps: seq<PacketRecord>)
    returns (flow: FlowWriter, files: map<KeyType, IndexFile>)
    requires idxs.Indexes(ranks, ps) && Distinct(ps) && forall u :: Ranks(ranks(u), u)
    requires idxs.flowCnt < MAX_NODES && IndexSize(idxs.flowCnt, flow64) <= 0x1_0000_0000_0000_0000
    modifies idxs.all`left, idxs.all`flowIndexOffset
    ensures fresh(flow) && flow.Valid() && flow.offset64 == flow64 && AreFlows(flow.flows, ps, ranks(FLOW))
    ensures |flow.flows| == idxs.flowCnt && multiset(flow.fcap) == multiset(ps)
    ensures forall tt: KeyType :: tt != FLOW ==> tt in files && FileOfFlows(files[tt], tt, flow.flows, flow64)
  {
    flow, files := OutputContents(idxs.Now(), flow64, idxs.trees, ranks, ps, idxs.all);
    CaptureIsPermutation(flow.flows, ps, ranks(FLOW), flow64);
  }

  method OutputContents(v: Contents, flow64: bool, ghost trees: map<KeyType, Tree>, ghost ranks: Ranking,
                        ghost ps: seq<PacketRecord>, ghost all: set<IndexNode>)
    returns (flow: FlowWriter, files: map<KeyType, IndexFile>)
    requires Indexed(v, trees, all, ranks, ps) && Distinct(ps) && forall u :: Ranks(ranks(u), u)
    requires v.flowCnt < MAX_NODES && IndexSize(v.flowCnt, flow64) <= 0x1_0000_0000_0000_0000
    modifies all`left, all`flowIndexOffset
    ensures fresh(flow) && flow.Valid() && flow.offset64 == flow64 && AreFlows(flow.flows, ps, ranks(FLOW))
    ensures |flow.flows| == v.flowCnt
    ensures forall tt: KeyType :: tt != FLOW ==> tt in files && FileOfFlows(files[tt], tt, flow.flows, flow64)
  {
    ghost var place;
    ghost var line := BeforeOutput(v, trees, all, ranks, ps);
    flow, place := WriteFirst(v, flow64, trees, ranks, ps, all, Nodes(trees[FLOW]));
    files := WriteRest(v, flow64, IndexSize(v.flowCnt, flow64) > 0xFFFF_FFFF, flow, trees, ranks, line, place, all);
  }

  // The flows in the order of time are those of the line of the flow tree.
  ghost predicate SameLine(v: Contents, line: seq<IndexNode>, nodes: set<IndexNode>) {
    && SameNodes(v.timeorder, line) && |line| == |v.timeorder| && (forall f <- v.timeorder :: f in nodes)
    && (forall i, j :: 0 <= i < j < |v.timeorder| ==> v.timeorder[i] != v.timeorder[j])
    && v.flowCnt == |v.timeorder| && v.counts == Tally(v.timeorder)
  }

  lemma BeforeOutput(v: Contents, trees: map<KeyType, Tree>, all: set<IndexNode>, ranks: Ranking, ps: seq<PacketRecord>)
    returns (line: seq<IndexNode>)
    requires Indexed(v, trees, all, ranks, ps) && Distinct(ps) && forall u :: Ranks(ranks(u), u)
    ensures Standing(v.roots, trees, ranks, v.timeorder, 0, all)
    ensures HoldingPackets(v.roots[FLOW], trees[FLOW], ranks(FLOW), ps)
    ensures line == Inorder(trees[FLOW]) && SameLine(v, line, Nodes(trees[FLOW])) && Nodes(trees[FLOW]) <= all
  {
    OpenedUp(v, trees, all, ranks, ps);
    line := Inorder(trees[FLOW]);
    FlowLine(v.roots[FLOW], trees[FLOW], ranks(FLOW), ps, line);
    SameFlows(v.timeorder, trees[FLOW], line, ps, ranks(FLOW));
  }

  // The sub-indexes, once the flow index is written.
  method WriteRest(v: Contents, flow64: bool, wide: bool, flow: FlowWriter, ghost trees: map<KeyType, Tree>,
                   ghost ranks: Ranking,
                   ghost line: seq<IndexNode>, ghost place: Placing, ghost all: set<IndexNode>)
    returns (files: map<KeyType, IndexFile>)
    requires Standing(v.roots, trees, ranks, v.timeorder, 0, all) && forall u :: Ranks(ranks(u), u)
    requires SameLine(v, line, Nodes(trees[FLOW])) && (forall n <- Nodes(trees[FLOW]) :: n.flowIndexOffset == place(n))
    requires Lines(line, flow.flows) && PlacedInLine(line, place, flow64) && v.flowCnt < MAX_NODES
    requires IndexSize(v.flowCnt, flow64) <= if wide then 0x1_0000_0000_0000_0000 else 0x1_0000_0000
    modifies all`left
    ensures forall tt: KeyType :: tt != FLOW ==> tt in files && FileOfFlows(files[tt], tt, flow.flows, flow64)
  {
    LineIsWellPlaced(v.timeorder, line, place, flow64, wide);
    files := WriteOthers(v, wide, trees, ranks, place, all);
    AllFiled(files, v.timeorder, line, flow.flows, place, flow64);
  }

  lemma AllFiled(files: map<KeyType, IndexFile>, timeorder: seq<IndexNode>, line: seq<IndexNode>,
                 flows: seq<seq<PacketRecord>>, place: Placing, flow64: bool)
    requires FiledUpTo(files, timeorder, place, |SUB_INDEXES|)
    requires SameNodes(timeorder, line) && Lines(line, flows) && PlacedInLine(line, place, flow64)
    ensures forall tt: KeyType :: tt != FLOW ==> tt in files && FileOfFlows(files[tt], tt, flows, flow64)
  {
    forall tt: KeyType | tt != FLOW ensures tt in files && FileOfFlows(files[tt], tt, flows, flow64) {
      var i := KindAt(tt);
      assert SUB_INDEXES[i] in files;
      FiledAsFlows(files[tt], tt, timeorder, line, flows, place, flow64);
    }
  }

  ghost function KindAt(tt: KeyType): (i: nat)
    requires tt != FLOW
    ensures i < |SUB_INDEXES| && SUB_INDEXES[i] == tt
  {
    match tt
    case SRCv4 => 0
    case DSTv4 => 1
    case SRCv6 => 2
    case DSTv6 => 3
    case SRCPORT => 4
    case DSTPORT => 5
  }
}

// Writing an index: the walk with its output (indexer/output.c).

module WriteIndex {
  import opened Folding
  import opened Bits
  import opened Network
  import opened IndexTree
  import opened Walk
  import opened LeftFilled
  import opened SubIndex
  import opened MergeSort
  import opened SubIndexFile
  import opened FlowFile

  // What there is to write: the packets of each flow, or for each node of a sub-index tree the
  // places of its flows in the flow index.
  datatype Data = Data(packets: seq<seq<PacketRecord>>, places: seq<seq<nat>>)

  // That node k of the line has these data.
  ghost predicate HasData(tt: KeyType, n: IndexNode, data: Data, k: nat)
    reads n`pkts, n`flows, n.flows`flowIndexOffset
  {
    if tt == FLOW then k < |data.packets| && Packets(n) == data.packets[k]
    else k < |data.places| && FlowPlaces(n) == data.places[k]
  }

  // The first nodes of the line, v, have been written, to the flow index or to a sub-index.
  ghost predicate Written(tt: KeyType, flow: FlowWriter?, sub: SubWriter?, v: seq<IndexNode>, data: Data)
    reads flow, sub
  {
    if tt == FLOW then
      flow != null && flow.Valid() && |v| <= |data.packets| && flow.flows == data.packets[..|v|]
    else
      && sub != null && sub.tt == tt && |v| <= |data.places| && Count(data.places) <= sub.total
      && sub.Wrote(v, data.places[..|v|])
  }

  // Every node written knows the place of its entry in the flow index.
  ghost predicate Noted(tt: KeyType, flow: FlowWriter?, v: seq<IndexNode>)
    reads v`flowIndexOffset
  {
    tt == FLOW && flow != null ==>
      forall k :: 0 <= k < |v| ==> v[k].flowIndexOffset == INDEX_HEADER + k * EntrySize(flow.offset64)
  }

  lemma PrefixGrows<X>(s: seq<X>, i: nat)
    requires i < |s|
    ensures s[..i] + [s[i]] == s[..i + 1]
  {
  }

  // The call in the walk that depends on the type of the tree.
  method Output(tt: KeyType, flow: FlowWriter?, sub: SubWriter?, node: IndexNode, ghost v: seq<IndexNode>,
                ghost data: Data)
    requires Written(tt, flow, sub, v, data) && Noted(tt, flow, v) && node !in v && HasData(tt, node, data, |v|)
    modifies flow, sub, (if tt == FLOW then {node} else {})`flowIndexOffset
    ensures Written(tt, flow, sub, v + [node], data) && Noted(tt, flow, v + [node])
  {
    if tt == FLOW {
      PrefixGrows(data.packets, |v|);
      flow.WriteFlow(node);
    } else {
      CountOfPrefix(data.places, |v|);
      PrefixGrows(data.places, |v|);
      sub.Output(node, v, data.places[..|v|], data.places[|v|]);
    }
  }

  // ---- The walk ----

  // free(n): the nodes freed so far, and n, which must not be one of them.
  ghost function Free(n: IndexNode, freed: set<IndexNode>): set<IndexNode>
    requires n !in freed
  {
    freed + {n}
  }

  // No node is listed twice.
  ghost predicate NoneTwice(line: seq<IndexNode>) {
    line == [] || (line[|line| - 1] !in line[..|line| - 1] && NoneTwice(line[..|line| - 1]))
  }

  lemma {:induction false} NotBefore(line: seq<IndexNode>, i: nat)
    requires NoneTwice(line) && i < |line|
    ensures line[i] !in line[..i]
    decreases |line|
  {
    if i < |line| - 1 {
      NotBefore(line[..|line| - 1], i);
      assert line[..|line| - 1][..i] == line[..i];
    }
  }

  ghost predicate PutOn(tt: KeyType, flow: FlowWriter?, sub: SubWriter?, line: seq<IndexNode>, v: seq<IndexNode>,
                        data: Data)
    reads flow, sub, line`flowIndexOffset
  {
    forall n :: Folded(n) ==>
      |v| <= |line| && v == line[..|v|] && Written(tt, flow, sub, v, data) && Noted(tt, flow, v) && NoneTwice(line)
  }

  // The first k nodes of the line have been written.
  ghost predicate Outputs(tt: KeyType, flow: FlowWriter?, sub: SubWriter?, line: seq<IndexNode>, k: nat, data: Data)
    reads flow, sub, line`flowIndexOffset
  {
    k <= |line| && exists v :: v == line[..k] && PutOn(tt, flow, sub, line, v, data)
  }

  // The output leaves the pointers alone.
  method OutputOnly(tt: KeyType, flow: FlowWriter?, sub: SubWriter?, curr: IndexNode, ghost r: Tree, ghost up: Way,
                    ghost line: seq<IndexNode>, ghost k: nat, ghost data: Data)
    requires Settled(curr, r, up) && Outputs(tt, flow, sub, line, k, data) && HasData(tt, curr, data, k)
    requires k < |line| && line[k] == curr
    modifies flow, sub, (if tt == FLOW then {curr} else {})`flowIndexOffset
    ensures Settled(curr, r, up) && Outputs(tt, flow, sub, line, k + 1, data)
  {
    assert allocated(WayNodes(FromLeft(curr, r, up)));
    assert Folded(0);
    NotBefore(line, k);
    PrefixGrows(line, k);
    Output(tt, flow, sub, curr, line[..k], data);
    assert PutOn(tt, flow, sub, line, line[..k + 1], data);
  }

  // Cases 2 to 5, after the pointer to the parent has been set: the output, and the way on.
  method PutOut(tt: KeyType, flow: FlowWriter?, sub: SubWriter?, curr: IndexNode, parent0: IndexNode?,
                ghost r: Tree, ghost up: Way, ghost line: seq<IndexNode>, ghost k: nat, ghost data: Data)
    returns (curr1: IndexNode?, prior: IndexNode?, parent: IndexNode?)
    requires Settled(curr, r, up) && Outputs(tt, flow, sub, line, k, data) && HasData(tt, curr, data, k)
    requires k < |line| && line[k] == curr
    modifies flow, sub, (if tt == FLOW then {curr} else {})`flowIndexOffset
    ensures At(curr1, prior, parent, AfterOutput(curr, r, up))
    ensures Outputs(tt, flow, sub, line, k + 1, data)
  {
    OutputOnly(tt, flow, sub, curr, r, up, line, k, data);
    curr1, prior, parent := MoveOn(curr, parent0, r, up);
  }

  // Cases 2 to 5, but for what is freed.
  method Emit(tt: KeyType, flow: FlowWriter?, sub: SubWriter?, curr: IndexNode, prior: IndexNode?, parent: IndexNode?,
              ghost p: Place, ghost line: seq<IndexNode>, ghost k: nat, ghost data: Data)
    returns (curr1: IndexNode?, prior1: IndexNode?, parent1: IndexNode?)
    requires At(curr, prior, parent, p) && k < |line| && line[k] == curr
    requires if p.Down? then p.t.l.Leaf? else p.way.FromLeft?
    requires Outputs(tt, flow, sub, line, k, data) && HasData(tt, curr, data, k)
    modifies flow, sub, curr`left, (if tt == FLOW then {curr} else {})`flowIndexOffset
    ensures At(curr1, prior1, parent1, Next(p)) && Outputs(tt, flow, sub, line, k + 1, data)
  {
    WhereItIs(curr, prior, parent, p);
    ghost var r, up := if p.Down? then p.t.r else p.way.r, if p.Down? then p.way else p.way.up;
    Settle(curr, prior, parent, p, r, up);
    curr1, prior1, parent1 := PutOut(tt, flow, sub, curr, parent, r, up, line, k, data);
  }

  // One round of the walk.
  method Round(tt: KeyType, flow: FlowWriter?, sub: SubWriter?, curr: IndexNode, prior: IndexNode?, parent: IndexNode?,
               ghost p: Place, ghost line: seq<IndexNode>, ghost k: nat, ghost data: Data, ghost freed: set<IndexNode>)
    returns (curr1: IndexNode?, prior1: IndexNode?, parent1: IndexNode?, ghost freed1: set<IndexNode>)
    requires At(curr, prior, parent, p) && (p.Up? ==> p.way != Root)
    requires Emits(p) != [] ==> k < |line| && Emits(p) == [line[k]] && HasData(tt, line[k], data, k)
    requires Outputs(tt, flow, sub, line, k, data)
    requires tt != FLOW && p.Up? ==> p.prior !in freed
    modifies flow, sub, curr`left, (if tt == FLOW then {curr} else {})`flowIndexOffset
    ensures At(curr1, prior1, parent1, Next(p)) && Outputs(tt, flow, sub, line, k + |Emits(p)|, data)
    ensures freed1 == if tt == FLOW then freed else freed + Frees(p)
  {
    WhereItIs(curr, prior, parent, p);
    freed1 := freed;
    if prior == null && curr.left != null {
      parent1, prior1 := curr, null;
      curr1 := GoLeft(curr, parent, p.t, p.way, Live(p));
    } else if prior != null && prior == curr.right {
      if tt != FLOW {
        freed1 := Free(prior, freed);
      }
      BackFromRight(curr, prior, parent, p);
      prior1, parent1 := curr, parent;
      curr1 := curr.left;
    } else {
      if prior != null && tt != FLOW {
        freed1 := Free(prior, freed);
      }
      curr1, prior1, parent1 := Emit(tt, flow, sub, curr, prior, parent, p, line, k, data);
    }
  }

  lemma {:induction false} JoinedNoneTwice(a: seq<IndexNode>, b: seq<IndexNode>)
    requires NoneTwice(a) && NoneTwice(b) && forall x <- b :: x !in a
    ensures NoneTwice(a + b)
  {
    if b == [] {
      assert a + b == a;
    } else {
      JoinedNoneTwice(a, b[..|b| - 1]);
      assert (a + b)[..|a + b| - 1] == a + b[..|b| - 1];
    }
  }

  lemma SidesApart(t: Tree, x: IndexNode)
    requires t.Bin? && DistinctTree(t)
    ensures x in Inorder(t.r) ==> x !in Inorder(t.l) && x != t.n
    ensures x in Inorder(t.l) ==> x != t.n
  {
    InorderNodes(t.l);
    InorderNodes(t.r);
  }

  lemma {:induction false} InorderNoneTwice(t: Tree)
    requires DistinctTree(t)
    ensures NoneTwice(Inorder(t))
  {
    if t.Bin? {
      InorderNoneTwice(t.l);
      InorderNoneTwice(t.r);
      var left, right := Inorder(t.l) + [t.n], Inorder(t.r);
      SidesApart(t, t.n);
      AloneNotTwice(t.n);
      JoinedNoneTwice(Inorder(t.l), [t.n]);
      forall x | x in right ensures x !in left {
        SidesApart(t, x);
      }
      JoinedNoneTwice(left, right);
    }
  }

  lemma AloneNotTwice(n: IndexNode)
    ensures NoneTwice([n])
  {
  }

  // Between two rounds: the first k nodes have been put out and nothing still needed has been
  // freed.
  ghost predicate Walking(curr: IndexNode?, prior: IndexNode?, parent: IndexNode?, p: Place,
                          line: seq<IndexNode>, k: nat, all: set<IndexNode>, freed: set<IndexNode>, keep: bool)
    reads Live(p)`left, Live(p)`right
  {
    exists q :: q == p && At(curr, prior, parent, q) && Accounts(p, line, k, all, freed, keep)
  }

  method WalkRound(tt: KeyType, flow: FlowWriter?, sub: SubWriter?, curr: IndexNode, prior: IndexNode?,
                   parent: IndexNode?,
                   ghost p: Place, ghost line: seq<IndexNode>, ghost k: nat, ghost data: Data,
                   ghost all: set<IndexNode>, ghost freed: set<IndexNode>)
    returns (curr1: IndexNode?, prior1: IndexNode?, parent1: IndexNode?, ghost p1: Place, ghost k1: nat,
             ghost freed1: set<IndexNode>)
    requires Walking(curr, prior, parent, p, line, k, all, freed, tt == FLOW)
    requires Outputs(tt, flow, sub, line, k, data) && (k < |line| ==> HasData(tt, line[k], data, k))
    modifies flow, sub, all`left, (if tt == FLOW then all else {})`flowIndexOffset
    ensures Walking(curr1, prior1, parent1, p1, line, k1, all, freed1, tt == FLOW)
    ensures Outputs(tt, flow, sub, line, k1, data) && Cost(p1) < Cost(p)
  {
    WhereItIs(curr, prior, parent, p);
    RoundFacts(p, line, k, all, freed, tt == FLOW);
    p1, k1 := Next(p), k + |Emits(p)|;
    assert curr in Live(p);
    curr1, prior1, parent1, freed1 := Round(tt, flow, sub, curr, prior, parent, p, line, k, data, freed);
    assert At(curr1, prior1, parent1, p1);
  }

  // Where the output and the freeing of nodes have come to.
  ghost predicate Accounts(p: Place, line: seq<IndexNode>, k: nat, all: set<IndexNode>, freed: set<IndexNode>,
                           keep: bool) {
    && k <= |line| && Rest(p) == line[k..]
    && if keep then freed == {} && Live(p) <= all else freed + Live(p) == all && forall x <- Live(p) :: x !in freed
  }

  lemma RoundFacts(p: Place, line: seq<IndexNode>, k: nat, all: set<IndexNode>, freed: set<IndexNode>, keep: bool)
    requires DistinctPlace(p) && (p.Up? ==> p.way != Root) && Accounts(p, line, k, all, freed, keep)
    ensures Emits(p) != [] ==> k < |line| && Emits(p) == [line[k]]
    ensures Accounts(Next(p), line, k + |Emits(p)|, all, if keep then freed else freed + Frees(p), keep)
    ensures Cost(Next(p)) < Cost(p) && (p.Up? && !keep ==> p.prior !in freed)
  {
    RoundIsRight(p);
    RoundInLine(p, line, k);
    FreedOnce(Live(p), Frees(p), all, freed);
  }

  lemma FreedOnce(live: set<IndexNode>, now: set<IndexNode>, all: set<IndexNode>, freed: set<IndexNode>)
    requires now <= live
    ensures freed + live == all && (forall x <- live :: x !in freed) ==>
      (freed + now) + (live - now) == all && forall x <- live - now :: x !in freed + now
  {
  }

  // The walk of write_index over a whole tree. Every node is put out once, in order. In a
  // sub-index every node is freed once, and none before it is done with; the nodes of the
  // flow index are all kept.
  method WalkTree(tt: KeyType, flow: FlowWriter?, sub: SubWriter?, root: IndexNode?, ghost t: Tree,
                  ghost line: seq<IndexNode>, ghost all: set<IndexNode>, ghost data: Data)
    returns (ghost freed: set<IndexNode>)
    requires IsTree(root, t) && DistinctTree(t) && line == Inorder(t) && all == Nodes(t)
    requires Outputs(tt, flow, sub, line, 0, data)
    requires forall k :: 0 <= k < |line| ==> HasData(tt, line[k], data, k)
    modifies flow, sub, all`left, (if tt == FLOW then all else {})`flowIndexOffset
    ensures Outputs(tt, flow, sub, line, |line|, data)
    ensures freed == if tt == FLOW then {} else all
  {
    if root != null {
      BeginsAtRoot(root, t);
    }
    var prior;
    ghost var parent, p, k;
    prior, parent, p, k, freed := WalkLoop(tt, flow, sub, root, t, line, all, data);
    EndsAtRoot(prior, parent, p, t, line, k, all, freed, tt == FLOW);
    if prior != null && tt != FLOW {
      freed := Free(prior, freed);
    }
  }

  method WalkLoop(tt: KeyType, flow: FlowWriter?, sub: SubWriter?, root: IndexNode?, ghost t: Tree,
                  ghost line: seq<IndexNode>, ghost all: set<IndexNode>, ghost data: Data)
    returns (prior: IndexNode?, ghost parent1: IndexNode?, ghost p: Place, ghost k: nat, ghost freed: set<IndexNode>)
    requires Begun(root, null, null, Down(t, Root), t, line, 0, all, {}, tt == FLOW) &&
             Outputs(tt, flow, sub, line, 0, data)
    requires forall k :: 0 <= k < |line| ==> HasData(tt, line[k], data, k)
    modifies flow, sub, all`left, (if tt == FLOW then all else {})`flowIndexOffset
    ensures Begun(null, prior, parent1, p, t, line, k, all, freed, tt == FLOW)
    ensures k <= |line| && Outputs(tt, flow, sub, line, k, data)
  {
    var curr, parent: IndexNode? := root, null;
    prior, p, k, freed := null, Down(t, Root), 0, {};
    while curr != null
      invariant Begun(curr, prior, parent, p, t, line, k, all, freed, tt == FLOW)
      invariant k <= |line| && Outputs(tt, flow, sub, line, k, data)
      decreases Cost(p)
    {
      if k < |line| {
        assert old(HasData(tt, line[k], data, k));
        ghost var same := HasData(tt, line[k], data, k);
        assert same;
      }
      curr, prior, parent, p, k, freed := WalkRound(tt, flow, sub, curr, prior, parent, p, line, k, data, all, freed);
    }
    parent1 := parent;
  }

  ghost predicate Begun(curr: IndexNode?, prior: IndexNode?, parent: IndexNode?, p: Place, t: Tree,
                        line: seq<IndexNode>, k: nat, all: set<IndexNode>, freed: set<IndexNode>, keep: bool)
    reads Live(p)`left, Live(p)`right
  {
    if t.Leaf? then curr == null && prior == null && k == 0 && freed == {}
    else exists j :: j == k && Walking(curr, prior, parent, p, line, j, all, freed, keep)
  }

  lemma BeginsAtRoot(root: IndexNode, t: Tree)
    requires IsTree(root, t) && DistinctTree(t)
    ensures forall keep :: Begun(root, null, null, Down(t, Root), t, Inorder(t), 0, Nodes(t), {}, keep)
  {
    assert NoneShared(Down(t, Root));
    assert Stands(root, null, null, Down(t, Root));
    assert At(root, null, null, Down(t, Root));
    assert forall keep :: Accounts(Down(t, Root), Inorder(t), 0, Nodes(t), {}, keep);
    forall keep ensures Begun(root, null, null, Down(t, Root), t, Inorder(t), 0, Nodes(t), {}, keep) {
      assert Walking(root, null, null, Down(t, Root), Inorder(t), 0, Nodes(t), {}, keep);
    }
  }

  // When the walk has come up to the root everything has been put out, and all but the root
  // freed.
  lemma EndsAtRoot(prior: IndexNode?, parent: IndexNode?, p: Place, t: Tree,
                   line: seq<IndexNode>, k: nat, all: set<IndexNode>, freed: set<IndexNode>, keep: bool)
    requires Begun(null, prior, parent, p, t, line, k, all, freed, keep) && k <= |line|
    requires line == Inorder(t) && all == Nodes(t)
    ensures k == |line|
    ensures if t.Leaf? then prior == null && freed == {} == all else prior != null
    ensures t.Bin? ==> if keep then freed == {} else prior !in freed && freed + {prior} == all
  {
    if t.Bin? {
      WhereItIs(null, prior, parent, p);
      assert Rest(p) == [];
    }
  }

  // ---- Whole indexes ----

  // write_index for the flow tree: the capture file and the flow index.
  method WriteFlowIndex(root: IndexNode?, offset64: bool, ghost t: Tree, ghost line: seq<IndexNode>,
                        ghost all: set<IndexNode>,
                        ghost packets: seq<seq<PacketRecord>>)
    returns (flow: FlowWriter)
    requires IsTree(root, t) && DistinctTree(t) && line == Inorder(t) && all == Nodes(t)
    requires |packets| == |line| && forall k :: 0 <= k < |line| ==> Packets(line[k]) == packets[k]
    modifies all`left, all`flowIndexOffset
    ensures fresh(flow) && flow.Valid() && flow.flows == packets && flow.offset64 == offset64
    ensures Noted(FLOW, flow, line)
  {
    flow := new FlowWriter(offset64);
    ghost var data := Data(packets, []);
    InorderNoneTwice(t);
    FlowIndexBegun(flow, line, data);
    ghost var freed := WalkTree(FLOW, flow, null, root, t, line, all, data);
    FlowIndexWritten(flow, line, data);
  }

  lemma FlowIndexBegun(flow: FlowWriter, line: seq<IndexNode>, data: Data)
    requires flow.Valid() && flow.flows == [] && NoneTwice(line)
    ensures Outputs(FLOW, flow, null, line, 0, data)
  {
    assert PutOn(FLOW, flow, null, line, line[..0], data);
  }

  lemma FlowIndexWritten(flow: FlowWriter, line: seq<IndexNode>, data: Data)
    requires Outputs(FLOW, flow, null, line, |line|, data) && |data.packets| == |line|
    ensures flow.Valid() && flow.flows == data.packets && Noted(FLOW, flow, line)
  {
    assert Folded(0);
    assert line[..|line|] == line && data.packets[..|line|] == data.packets;
  }

  // What the places of the flows of a sub-index tree have to be for its records to be in
  // order: different within each list, and within the width used for them.
  ghost predicate GoodPlaces(places: seq<seq<nat>>, offset64: bool) {
    forall k :: 0 <= k < |places| ==>
      Fit(places[k], offset64) && forall i, j :: 0 <= i < j < |places[k]| ==> places[k][i] != places[k][j]
  }

  // The keys of a tree rise from node to node.
  ghost predicate KeysRise(tt: KeyType, line: seq<IndexNode>)
    requires tt != FLOW
  {
    forall i, j :: 0 <= i < j < |line| ==> KeyVal(line[i].key, tt) < KeyVal(line[j].key, tt)
  }

  lemma KeysLikeRanks(a: PacketRecord, b: PacketRecord, tt: KeyType, rank: Order)
    requires tt != FLOW && Ranks(rank, tt) && Applies(a, tt) && Applies(b, tt) && rank(a) < rank(b)
    ensures KeyVal(a, tt) < KeyVal(b, tt)
  {
    KeyValOrdersLikeRank(a, b, tt);
    assert rank(a) == Rank(a, tt);
    assert rank(b) == Rank(b, tt);
  }

  lemma NodeInLine(t: Tree, line: seq<IndexNode>, i: nat)
    requires line == Inorder(t) && i < |line|
    ensures line[i] in Nodes(t)
  {
    InorderNodes(t);
    assert line[i] in line;
  }

  lemma TreeKeysRise(tt: KeyType, t: Tree, line: seq<IndexNode>, rank: Order)
    requires line == Inorder(t) && tt != FLOW && Ranks(rank, tt) && SearchTree(t, rank)
    requires forall n <- Nodes(t) :: Applies(n.key, tt)
    ensures KeysRise(tt, line) && DistinctTree(t)
  {
    OrderedIsSorted(t, -1, RANK_LIMIT, rank);
    OrderedIsDistinct(t, -1, RANK_LIMIT, rank);
    forall i, j | 0 <= i < j < |line| ensures KeyVal(line[i].key, tt) < KeyVal(line[j].key, tt) {
      NodeInLine(t, line, i);
      NodeInLine(t, line, j);
      KeysLikeRanks(line[i].key, line[j].key, tt, rank);
    }
  }

  // The records are in order, and there is one for each key and flow.
  ghost predicate RightRecords(tt: KeyType, records: seq<Entry>, line: seq<IndexNode>, places: seq<seq<nat>>)
    requires tt != FLOW && |line| == |places|
  {
    && RecordsInOrder(records) && |records| == Count(places)
    && forall key: nat, offset: nat :: Entry(key, offset) in records <==>
         exists k :: 0 <= k < |line| && KeyVal(line[k].key, tt) == key && offset in places[k]
  }

  lemma StillFits(group: seq<nat>, places: seq<nat>, offset64: bool)
    requires Fit(places, offset64) && forall x :: x in group <==> x in places
    ensures Fit(group, offset64)
  {
    forall i | 0 <= i < |group| ensures group[i] < if offset64 then 0x1_0000_0000_0000_0000 else 0x1_0000_0000 {
      assert group[i] in places;
    }
  }

  lemma WrittenRecords(sub: SubWriter, line: seq<IndexNode>, places: seq<seq<nat>>)
    requires sub.Wrote(line, places) && GoodPlaces(places, sub.offset64) && KeysRise(sub.tt, line)
    ensures RightRecords(sub.tt, sub.records, line, places)
  {
    var keys, groups := sub.keys, sub.groups;
    forall k | 0 <= k < |groups|
      ensures SubIndexFile.Rising(groups[k]) && Fit(groups[k], sub.offset64) &&
              forall x :: x in groups[k] <==> x in places[k]
    {
      SortedRises(groups[k], places[k]);
      StillFits(groups[k], places[k], sub.offset64);
    }
    FlatInOrder(keys, groups, sub.offset64);
    forall key: nat, offset: nat
      ensures Entry(key, offset) in sub.records <==>
              exists k :: 0 <= k < |line| && KeyVal(line[k].key, sub.tt) == key && offset in places[k]
    {
      FlatHolds(keys, groups, sub.offset64, key, offset);
    }
  }

  // write_index for a sub-index: the file, whose header counts its records and whose preview
  // is cut to what fits in the first block beside the header. All nodes are freed.
  method WriteSubIndex(tt: KeyType, root: IndexNode?, records: nat, offset64: bool, ghost t: Tree,
                       ghost line: seq<IndexNode>,
                       ghost all: set<IndexNode>, ghost places: seq<seq<nat>>)
    returns (file: IndexFile, ghost freed: set<IndexNode>)
    requires tt != FLOW && IsTree(root, t) && DistinctTree(t) && line == Inorder(t) && all == Nodes(t)
    requires |places| == |line| && forall k :: 0 <= k < |line| ==> FlowPlaces(line[k]) == places[k]
    requires KeysRise(tt, line) && GoodPlaces(places, offset64) && Count(places) == records < MAX_NODES
    modifies all`left
    ensures freed == all && file.header == Header(tt, offset64, |file.preview|, records)
    ensures WellFormedFile(file) && RightRecords(tt, file.records, line, places)
  {
    var sub := new SubWriter(tt, records, offset64);
    ghost var data := Data([], places);
    InorderNoneTwice(t);
    assert PutOn(tt, null, sub, line, line[..0], data);
    freed := WalkTree(tt, null, sub, root, t, line, all, data);
    WhollyWritten(tt, sub, line, data);
    WrittenRecords(sub, line, places);
    WrittenFits(sub, line, places);
    file := Finish(sub);
  }

  lemma WhollyWritten(tt: KeyType, sub: SubWriter, line: seq<IndexNode>, data: Data)
    requires tt != FLOW && Outputs(tt, null, sub, line, |line|, data) && |data.places| == |line|
    ensures sub.tt == tt && sub.Wrote(line, data.places)
  {
    assert Folded(0);
    assert line[..|line|] == line && data.places[..|line|] == data.places;
  }

  lemma WrittenFits(sub: SubWriter, line: seq<IndexNode>, places: seq<seq<nat>>)
    requires sub.Wrote(line, places)
    ensures RecordsFit(Header(sub.tt, sub.offset64, 0, 0), sub.records)
  {
    forall k | 0 <= k < |sub.keys| ensures sub.keys[k] < Pow256(KeySize(sub.tt)) {
      KeyValFits(line[k].key, sub.tt);
    }
    FlatFits(Header(sub.tt, sub.offset64, 0, 0), sub.keys, sub.groups);
  }

  // The end of write_index: the header, and as much of the preview as there is room for.
  method Finish(sub: SubWriter) returns (file: IndexFile)
    requires sub.Valid() && |sub.records| == sub.total && RecordsInOrder(sub.records)
    requires RecordsFit(Header(sub.tt, sub.offset64, 0, 0), sub.records)
    ensures file.header == Header(sub.tt, sub.offset64, |file.preview|, sub.total)
    ensures WellFormedFile(file) && file.records == sub.records
  {
    sub.PreviewFits();
    var previewSize := PreviewRoom(sub.tt);
    if previewSize > |sub.preview| {
      previewSize := |sub.preview|;
    }
    file := IndexFile(Header(sub.tt, sub.offset64, previewSize, sub.total), sub.preview[..previewSize], sub.records);
  }
}

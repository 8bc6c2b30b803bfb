// Indexing the packets of a bucket chain (indexer/index.c).

module IndexBucket {
  import opened Folding
  import opened Sequences
  import opened Network
  import opened IndexTree
  import opened Splay
  import opened FlowFile

  // ---- What the trees hold, as filters ----

  // The packets of one flow.
  ghost function PacketsOf(ps: seq<PacketRecord>, rank: Order, r: nat): seq<PacketRecord> {
    if ps == [] then []
    else PacketsOf(ps[..|ps| - 1], rank, r) + if rank(ps[|ps| - 1]) == r then [ps[|ps| - 1]] else []
  }

  // They are those with this rank, in the order of arrival.
  lemma {:induction false} PacketsOfPlaces(ps: seq<PacketRecord>, rank: Order, r: nat) returns (at: seq<nat>)
    ensures PicksOut(ps, at, PacketsOf(ps, rank, r))
    ensures forall n: nat :: n in at <==> n < |ps| && rank(ps[n]) == r
  {
    at := [];
    if ps != [] {
      var m := |ps| - 1;
      at := PacketsOfPlaces(ps[..m], rank, r);
      PicksOutMore(ps[..m], at, PacketsOf(ps[..m], rank, r), ps[m]);
      assert ps[..m] + [ps[m]] == ps;
      at := at + if rank(ps[m]) == r then [m] else [];
    }
  }

  // The flows that a sub-index has under one key, in the order of their first packets.
  ghost function FlowsOf(flows: seq<IndexNode>, tt: KeyType, rank: Order, r: nat): seq<IndexNode> {
    if flows == [] then []
    else
      var f := flows[|flows| - 1];
      FlowsOf(flows[..|flows| - 1], tt, rank, r) + if Applies(f.key, tt) && rank(f.key) == r then [f] else []
  }

  lemma {:induction false} FlowsOfPlaces(flows: seq<IndexNode>, tt: KeyType, rank: Order, r: nat)
    returns (at: seq<nat>)
    ensures PicksOut(flows, at, FlowsOf(flows, tt, rank, r))
    ensures forall n: nat :: n in at <==> n < |flows| && Applies(flows[n].key, tt) && rank(flows[n].key) == r
  {
    at := [];
    if flows != [] {
      var m := |flows| - 1;
      at := FlowsOfPlaces(flows[..m], tt, rank, r);
      PicksOutMore(flows[..m], at, FlowsOf(flows[..m], tt, rank, r), flows[m]);
      assert flows[..m] + [flows[m]] == flows;
      at := at + if Applies(flows[m].key, tt) && rank(flows[m].key) == r then [m] else [];
    }
  }

  lemma OneMorePacket(ps: seq<PacketRecord>, p: PacketRecord, rank: Order, r: nat)
    ensures PacketsOf(ps + [p], rank, r) == PacketsOf(ps, rank, r) + if rank(p) == r then [p] else []
  {
    assert (ps + [p])[..|ps|] == ps;
  }

  lemma OneMoreFlow(flows: seq<IndexNode>, f: IndexNode, tt: KeyType, rank: Order, r: nat)
    ensures FlowsOf(flows + [f], tt, rank, r) ==
            FlowsOf(flows, tt, rank, r) + if Applies(f.key, tt) && rank(f.key) == r then [f] else []
  {
    assert (flows + [f])[..|flows|] == flows;
  }

  lemma {:induction false} PacketsOfIn(ps: seq<PacketRecord>, rank: Order, r: nat)
    ensures forall p <- PacketsOf(ps, rank, r) :: p in ps && rank(p) == r
    ensures (forall p <- ps :: rank(p) != r) ==> PacketsOf(ps, rank, r) == []
  {
    if ps != [] {
      PacketsOfIn(ps[..|ps| - 1], rank, r);
    }
  }

  lemma {:induction false} FlowsOfIn(flows: seq<IndexNode>, tt: KeyType, rank: Order, r: nat)
    ensures forall f <- FlowsOf(flows, tt, rank, r) :: f in flows && Applies(f.key, tt) && rank(f.key) == r
    ensures (forall f <- flows :: Applies(f.key, tt) ==> rank(f.key) != r) ==> FlowsOf(flows, tt, rank, r) == []
  {
    if flows != [] {
      FlowsOfIn(flows[..|flows| - 1], tt, rank, r);
    }
  }

  // ---- One sub-index tree ----

  // The nodes were made for this tree.
  ghost predicate AllOf(t: Tree, tt: KeyType) {
    forall n <- Nodes(t) :: n.kind == tt
  }

  ghost predicate SubTree(root: IndexNode?, t: Tree, tt: KeyType, rank: Order, flows: seq<IndexNode>)
    reads Nodes(t)`left, Nodes(t)`right, Nodes(t)`flows
  {
    && IsTree(root, t) && SearchTree(t, rank) && AllOf(t, tt)
    && (forall n <- Nodes(t) :: Applies(n.key, tt) && n.flows == FlowsOf(flows, tt, rank, rank(n.key)))
    && forall f <- flows :: Applies(f.key, tt) ==> exists n <- Nodes(t) :: rank(n.key) == rank(f.key)
  }

  // Ranks are distinct within a tree.
  lemma {:induction false} SameRankSameNode(t: Tree, lo: int, hi: int, rank: Order, a: IndexNode, b: IndexNode)
    requires Ordered(t, lo, hi, rank) && a in Nodes(t) && b in Nodes(t) && rank(a.key) == rank(b.key)
    ensures a == b
  {
    if t.Bin? {
      OrderedWithin(t.l, lo, rank(t.n.key), rank);
      OrderedWithin(t.r, rank(t.n.key), hi, rank);
      if a in Nodes(t.l) && b in Nodes(t.l) {
        SameRankSameNode(t.l, lo, rank(t.n.key), rank, a, b);
      } else if a in Nodes(t.r) && b in Nodes(t.r) {
        SameRankSameNode(t.r, rank(t.n.key), hi, rank, a, b);
      }
    }
  }

  // splay_tr_insert of a new flow into a sub-index tree.
  method InsertFlow(root: IndexNode?, rec: PacketRecord, flow: IndexNode, tt: KeyType,
                    ghost rank: Order, ghost t: Tree, ghost nodes: set<IndexNode>, ghost flows: seq<IndexNode>)
    returns (root1: IndexNode, ghost t1: Tree)
    requires tt != FLOW && Ranks(rank, tt) && SubTree(root, t, tt, rank, flows) && nodes == Nodes(t)
    requires flow.key == rec && Applies(rec, tt)
    modifies nodes`left, nodes`right, nodes`pkts, nodes`flows
    ensures SubTree(root1, t1, tt, rank, flows + [flow])
    ensures Nodes(t1) == nodes + {root1} && (root1 in nodes || fresh(root1))
  {
    root1, t1 := SplayTrInsert(root, rec, flow, tt, rank, t, nodes);
    OtherRanks(t1, rank, root1, nodes);
    if root1 !in nodes {
      NoFlowsYet(nodes, flows, tt, rank, rank(rec));
    }
    forall n | n in nodes + {root1} ensures Applies(n.key, tt) &&
      n.flows == FlowsOf(flows + [flow], tt, rank, rank(n.key)) {
      OneMoreFlow(flows, flow, tt, rank, rank(n.key));
      assert n in nodes ==> old(n.flows) == FlowsOf(flows, tt, rank, rank(n.key));
    }
    forall f | f in flows + [flow] && Applies(f.key, tt) ensures exists n <- Nodes(t1) :: rank(n.key) == rank(f.key) {
      if f == flow {
        assert rank(root1.key) == rank(f.key);
      } else {
        assert old(exists n <- nodes :: rank(n.key) == rank(f.key));
      }
    }
  }

  lemma OtherRanks(t: Tree, rank: Order, root: IndexNode, nodes: set<IndexNode>)
    requires SearchTree(t, rank) && Nodes(t) == nodes + {root}
    ensures forall n <- nodes :: n != root ==> rank(n.key) != rank(root.key)
  {
    forall n | n in nodes && n != root ensures rank(n.key) != rank(root.key) {
      SameRank(t, rank, n, root);
    }
  }

  // Without a node for a rank there are no flows of that rank.
  lemma NoFlowsYet(nodes: set<IndexNode>, flows: seq<IndexNode>, tt: KeyType, rank: Order, r: nat)
    requires forall n <- nodes :: rank(n.key) != r
    requires forall f <- flows :: Applies(f.key, tt) ==> exists n <- nodes :: rank(n.key) == rank(f.key)
    ensures FlowsOf(flows, tt, rank, r) == []
  {
    FlowsOfIn(flows, tt, rank, r);
  }

  lemma SameRank(t: Tree, rank: Order, a: IndexNode, b: IndexNode)
    requires SearchTree(t, rank) && a in Nodes(t) && b in Nodes(t) && a != b
    ensures rank(a.key) != rank(b.key)
  {
    if rank(a.key) == rank(b.key) {
      SameRankSameNode(t, -1, RANK_LIMIT, rank, a, b);
    }
  }

  // ---- The flow tree ----

  // The packets that start a flow, in order.
  ghost function FirstOf(ps: seq<PacketRecord>, rank: Order): seq<PacketRecord> {
    if ps == [] then []
    else
      var front, p := ps[..|ps| - 1], ps[|ps| - 1];
      FirstOf(front, rank) + if PacketsOf(front, rank, rank(p)) == [] then [p] else []
  }

  lemma OneMoreFirst(ps: seq<PacketRecord>, p: PacketRecord, rank: Order)
    ensures FirstOf(ps + [p], rank) == FirstOf(ps, rank) + if PacketsOf(ps, rank, rank(p)) == [] then [p] else []
  {
    assert (ps + [p])[..|ps|] == ps;
  }

  // Every packet has a node of its rank.
  ghost predicate Covers(nodes: set<IndexNode>, ps: seq<PacketRecord>, rank: Order) {
    forall p <- ps :: exists n <- nodes :: rank(n.key) == rank(p)
  }

  // Every node has exactly the packets of its flow, in the order of arrival.
  ghost predicate FlowTree(root: IndexNode?, t: Tree, rank: Order, ps: seq<PacketRecord>)
    reads Nodes(t)`left, Nodes(t)`right, Nodes(t)`pkts
  {
    && IsTree(root, t) && SearchTree(t, rank) && AllOf(t, FLOW) && Covers(Nodes(t), ps, rank)
    && forall n <- Nodes(t) :: Packets(n) == PacketsOf(ps, rank, rank(n.key))
  }

  // The nodes in the order of the first packets of their flows.
  ghost predicate TimeOrder(flows: seq<IndexNode>, nodes: set<IndexNode>, keys: seq<PacketRecord>) {
    && (forall f <- flows :: f in nodes) && (forall n <- nodes :: n in flows)
    && |flows| == |keys| && (forall i :: 0 <= i < |flows| ==> flows[i].key == keys[i])
  }

  // splay_tr_insert of a packet into the flow tree.
  method InsertPacket(root: IndexNode?, rec: PacketRecord, ghost rank: Order, ghost t: Tree,
                      ghost nodes: set<IndexNode>,
                      ghost ps: seq<PacketRecord>)
    returns (root1: IndexNode, ghost t1: Tree)
    requires Ranks(rank, FLOW) && FlowTree(root, t, rank, ps) && nodes == Nodes(t) && rec !in ps
    modifies nodes`left, nodes`right, nodes`pkts, nodes`flows
    ensures FlowTree(root1, t1, rank, ps + [rec]) && Nodes(t1) == nodes + {root1} && (root1 in nodes || fresh(root1))
    ensures root1.pkts == [] <==> root1 !in nodes
    ensures root1 !in nodes <==> PacketsOf(ps, rank, rank(rec)) == []
    ensures root1 !in nodes ==> root1.key == rec
  {
    ghost var was := map n | n in nodes :: Packets(n);
    forall n | n in nodes ensures rec !in was[n] {
      PacketsOfIn(ps, rank, rank(n.key));
    }
    root1, t1 := SplayPacket(root, rec, rank, t, nodes, was);
    OtherRanks(t1, rank, root1, nodes);
    PacketsOfIn(ps, rank, rank(rec));
    CoversMore(nodes, root1, ps, rec, rank);
    if root1 !in nodes {
      NoPacketsYet(nodes, ps, rank, rank(rec));
    }
    PacketsArrive(nodes, root1, was, ps, rec, rank);
  }

  lemma PacketsArrive(nodes: set<IndexNode>, root: IndexNode, was: map<IndexNode, seq<PacketRecord>>,
                      ps: seq<PacketRecord>,
                      rec: PacketRecord, rank: Order)
    requires nodes == was.Keys && rank(root.key) == rank(rec)
    requires forall n <- nodes :: was[n] == PacketsOf(ps, rank, rank(n.key))
    requires forall n <- nodes :: n != root ==> rank(n.key) != rank(root.key)
    requires root !in nodes ==> PacketsOf(ps, rank, rank(rec)) == []
    requires forall n <- nodes + {root} ::
             Packets(n) == (if n in nodes then was[n] else []) + if n == root then [rec] else []
    ensures forall n <- nodes + {root} :: Packets(n) == PacketsOf(ps + [rec], rank, rank(n.key))
  {
    forall n | n in nodes + {root} ensures Packets(n) == PacketsOf(ps + [rec], rank, rank(n.key)) {
      OneMorePacket(ps, rec, rank, rank(n.key));
    }
  }

  method SplayPacket(root: IndexNode?, rec: PacketRecord, ghost rank: Order, ghost t: Tree, ghost nodes: set<IndexNode>,
                     ghost was: map<IndexNode, seq<PacketRecord>>)
    returns (root1: IndexNode, ghost t1: Tree)
    requires Ranks(rank, FLOW) && IsTree(root, t) && SearchTree(t, rank) && nodes == Nodes(t) == was.Keys
    requires forall n <- nodes :: was[n] == Packets(n) && rec !in was[n]
    modifies nodes`left, nodes`right, nodes`pkts, nodes`flows
    ensures IsTree(root1, t1) && SearchTree(t1, rank) && Nodes(t1) == nodes + {root1} &&
            (root1 in nodes || fresh(root1))
    ensures rank(root1.key) == rank(rec) && (root1 !in nodes ==> root1.key == rec && root1.kind == FLOW) &&
            (root1.pkts == [] <==> root1 !in nodes)
    ensures forall n <- nodes + {root1} ::
      Packets(n) == (if n in nodes then was[n] else []) + if n == root1 then [rec] else []
  {
    root1, t1 := SplayTrInsert(root, rec, null, FLOW, rank, t, nodes);
    assert root1 in nodes ==> was[root1][0] == root1.key && Packets(root1) == was[root1] + [rec];
    forall n | n in nodes + {root1}
      ensures Packets(n) == (if n in nodes then was[n] else []) + if n == root1 then [rec] else []
    {
      assert n in nodes && n != root1 ==> Packets(n) == was[n] + [];
    }
  }

  lemma CoversMore(nodes: set<IndexNode>, root: IndexNode, ps: seq<PacketRecord>, rec: PacketRecord, rank: Order)
    requires Covers(nodes, ps, rank) && rank(root.key) == rank(rec)
    ensures Covers(nodes + {root}, ps + [rec], rank)
  {
    forall p | p in ps + [rec] ensures exists n <- nodes + {root} :: rank(n.key) == rank(p) {
      if p != rec {
        var n :| n in nodes && rank(n.key) == rank(p);
        assert n in nodes + {root};
      }
    }
  }

  ghost predicate Arrivals(flows: seq<IndexNode>, nodes: set<IndexNode>, keys: seq<PacketRecord>) {
    forall n :: Folded(n) ==> TimeOrder(flows, nodes, keys)
  }

  ghost predicate InTimeOrder(flows: seq<IndexNode>, nodes: set<IndexNode>, keys: seq<PacketRecord>) {
    exists k :: Arrivals(flows, nodes, k) && k == keys
  }

  lemma OneMoreInOrder(flows: seq<IndexNode>, nodes: set<IndexNode>, keys: seq<PacketRecord>, f: IndexNode)
    requires InTimeOrder(flows, nodes, keys)
    ensures InTimeOrder(flows + [f], nodes + {f}, keys + [f.key])
  {
    assert Folded(0);
    assert TimeOrder(flows, nodes, keys);
    forall n | n in nodes + {f} ensures n in flows + [f] {
      assert (flows + [f])[|flows|] == f;
    }
    assert Arrivals(flows + [f], nodes + {f}, keys + [f.key]);
  }

  lemma NoPacketsYet(nodes: set<IndexNode>, ps: seq<PacketRecord>, rank: Order, r: nat)
    requires forall n <- nodes :: rank(n.key) != r
    requires Covers(nodes, ps, rank)
    ensures PacketsOf(ps, rank, r) == []
  {
    PacketsOfIn(ps, rank, r);
  }

  // ---- The index set of a bucket chain ----

  type Ranking = KeyType -> Order

  // ---- The trees, as wholes ----

  ghost predicate Kept(root: IndexNode?, t: Tree, tt: KeyType, rank: Order, flows: seq<IndexNode>)
    reads Nodes(t)`left, Nodes(t)`right, Nodes(t)`flows
  {
    forall n :: Folded(n) ==> SubTree(root, t, tt, rank, flows) && AllOf(t, tt)
  }

  ghost predicate KeptPackets(root: IndexNode?, t: Tree, rank: Order, ps: seq<PacketRecord>)
    reads Nodes(t)`left, Nodes(t)`right, Nodes(t)`pkts
  {
    forall n :: Folded(n) ==> FlowTree(root, t, rank, ps) && AllOf(t, FLOW)
  }

  ghost predicate Holding(root: IndexNode?, t: Tree, tt: KeyType, rank: Order, flows: seq<IndexNode>)
    reads Nodes(t)`left, Nodes(t)`right, Nodes(t)`flows
  {
    exists f :: Kept(root, t, tt, rank, f) && f == flows
  }

  ghost predicate HoldingPackets(root: IndexNode?, t: Tree, rank: Order, ps: seq<PacketRecord>)
    reads Nodes(t)`left, Nodes(t)`right, Nodes(t)`pkts
  {
    exists p :: KeptPackets(root, t, rank, p) && p == ps
  }

  // The trees while a new flow is entered in one after the other.
  datatype Progress = Progress(ps: seq<PacketRecord>, flows: seq<IndexNode>, more: seq<IndexNode>, done: set<KeyType>) {
    function HeldBy(tt: KeyType): seq<IndexNode> { if tt in done then more else flows }
  }

  // Every tree consists of nodes of `all` and has its packets or flows.
  ghost predicate Stands(roots: map<KeyType, IndexNode?>, trees: map<KeyType, Tree>, ranks: Ranking, g: Progress,
                         all: set<IndexNode>)
    reads all`left, all`right, all`pkts, all`flows
  {
    && (forall u: KeyType :: u in roots && u in trees && Nodes(trees[u]) <= all && AllOf(trees[u], u))
    && HoldingPackets(roots[FLOW], trees[FLOW], ranks(FLOW), g.ps)
    && forall u: KeyType :: u != FLOW ==> Holding(roots[u], trees[u], u, ranks(u), g.HeldBy(u))
  }

  ghost predicate Sealed(roots: map<KeyType, IndexNode?>, trees: map<KeyType, Tree>, ranks: Ranking, g: Progress,
                         all: set<IndexNode>)
    reads all`left, all`right, all`pkts, all`flows
  {
    forall n :: Closed(n) ==> Stands(roots, trees, ranks, g, all)
  }

  ghost predicate Forest(roots: map<KeyType, IndexNode?>, trees: map<KeyType, Tree>, ranks: Ranking, g: Progress,
                         all: set<IndexNode>)
    reads all`left, all`right, all`pkts, all`flows
  {
    exists h :: Sealed(roots, trees, ranks, h, all) && h == g
  }

  // splay_tr_insert of a new flow into the tree of type tt, the other trees beside it.
  method InsertInto(tt: KeyType, rec: PacketRecord, flow: IndexNode, ghost ranks: Ranking, ghost g: Progress,
                    roots: map<KeyType, IndexNode?>, ghost trees: map<KeyType, Tree>, ghost all: set<IndexNode>)
    returns (roots1: map<KeyType, IndexNode?>, ghost trees1: map<KeyType, Tree>, ghost all1: set<IndexNode>)
    requires FLOW in roots && FLOW in trees && Forest(roots, trees, ranks, g, all) && g.more == g.flows + [flow] &&
             tt !in g.done
    requires tt != FLOW && Ranks(ranks(tt), tt) && flow.key == rec && Applies(rec, tt)
    modifies all`left, all`right, all`pkts, all`flows
    ensures Forest(roots1, trees1, ranks, g.(done := g.done + {tt}), all1)
    ensures FLOW in roots1 && FLOW in trees1 && trees1[FLOW] == trees[FLOW] && all <= all1 && fresh(all1 - all)
  {
    assert Closed(0);
    ghost var nodes, t1 := Nodes(trees[tt]), trees[tt];
    var root1;
    assert forall u: KeyType :: allocated(Nodes(trees[u]));
    root1, t1 := InsertKept(roots[tt], rec, flow, tt, ranks(tt), trees[tt], nodes, g.flows);
    roots1, trees1, all1 := roots[tt := root1], trees[tt := t1], all + {root1};
    forall u: KeyType | u != tt && u != FLOW ensures Holding(roots[u], trees[u], u, ranks(u), g.HeldBy(u)) {
      assert old(Holding(roots[u], trees[u], u, ranks(u), g.HeldBy(u)));
      assert Nodes(trees[u]) !! nodes;
      var kept := Kept(roots[u], trees[u], u, ranks(u), g.HeldBy(u));
    }
    assert old(HoldingPackets(roots[FLOW], trees[FLOW], ranks(FLOW), g.ps));
    assert Nodes(trees[FLOW]) !! nodes;
    ghost var kept := KeptPackets(roots[FLOW], trees[FLOW], ranks(FLOW), g.ps);
    OneRenewed(tt, root1, t1, ranks, g, roots, trees, all);
  }

  lemma OneRenewed(tt: KeyType, root: IndexNode, t: Tree, ranks: Ranking, g: Progress,
                   roots: map<KeyType, IndexNode?>, trees: map<KeyType, Tree>, all: set<IndexNode>)
    requires tt != FLOW && Holding(root, t, tt, ranks(tt), g.more) && AllOf(t, tt) && Nodes(t) <= all + {root}
    requires forall u: KeyType :: u in roots && u in trees && Nodes(trees[u]) <= all && AllOf(trees[u], u)
    requires HoldingPackets(roots[FLOW], trees[FLOW], ranks(FLOW), g.ps)
    requires forall u: KeyType :: u != FLOW && u != tt ==> Holding(roots[u], trees[u], u, ranks(u), g.HeldBy(u))
    ensures Forest(roots[tt := root], trees[tt := t], ranks, g.(done := g.done + {tt}), all + {root})
  {
    var roots1, trees1, g1 := roots[tt := root], trees[tt := t], g.(done := g.done + {tt});
    forall u: KeyType | u != FLOW ensures Holding(roots1[u], trees1[u], u, ranks(u), g1.HeldBy(u)) {
      assert u != tt ==> Holding(roots[u], trees[u], u, ranks(u), g.HeldBy(u));
    }
    assert Sealed(roots1, trees1, ranks, g1, all + {root});
  }

  method InsertKept(root: IndexNode?, rec: PacketRecord, flow: IndexNode, tt: KeyType,
                    ghost rank: Order, ghost t: Tree, ghost nodes: set<IndexNode>, ghost flows: seq<IndexNode>)
    returns (root1: IndexNode, ghost t1: Tree)
    requires tt != FLOW && Ranks(rank, tt) && Holding(root, t, tt, rank, flows) && nodes == Nodes(t)
    requires flow.key == rec && Applies(rec, tt)
    modifies nodes`left, nodes`right, nodes`pkts, nodes`flows
    ensures Holding(root1, t1, tt, rank, flows + [flow]) && AllOf(t1, tt)
    ensures Nodes(t1) == nodes + {root1} && (root1 in nodes || fresh(root1))
  {
    assert Folded(0);
    root1, t1 := InsertFlow(root, rec, flow, tt, rank, t, nodes, flows);
    assert Kept(root1, t1, tt, rank, flows + [flow]);
  }

  // A flow that has no key in a tree is not entered in it.
  lemma NotEntered(root: IndexNode?, t: Tree, tt: KeyType, rank: Order, flows: seq<IndexNode>, flow: IndexNode)
    requires Holding(root, t, tt, rank, flows) && !Applies(flow.key, tt)
    ensures Holding(root, t, tt, rank, flows + [flow])
  {
    assert Folded(0);
    forall n | n in Nodes(t) ensures n.flows == FlowsOf(flows + [flow], tt, rank, rank(n.key)) {
      OneMoreFlow(flows, flow, tt, rank, rank(n.key));
    }
    assert Kept(root, t, tt, rank, flows + [flow]);
  }

  lemma NotInTree(tt: KeyType, flow: IndexNode, ranks: Ranking, g: Progress, roots: map<KeyType, IndexNode?>,
                  trees: map<KeyType, Tree>, all: set<IndexNode>)
    requires Forest(roots, trees, ranks, g, all) && g.more == g.flows + [flow] && tt !in g.done &&
             !Applies(flow.key, tt)
    ensures Forest(roots, trees, ranks, g.(done := g.done + {tt}), all)
  {
    assert Closed(0);
    assert Holding(roots[tt], trees[tt], tt, ranks(tt), g.HeldBy(tt));
    NotEntered(roots[tt], trees[tt], tt, ranks(tt), g.flows, flow);
    var g1 := g.(done := g.done + {tt});
    forall u: KeyType | u != FLOW ensures Holding(roots[u], trees[u], u, ranks(u), g1.HeldBy(u)) {
      assert Holding(roots[u], trees[u], u, ranks(u), g.HeldBy(u));
    }
    assert Sealed(roots, trees, ranks, g1, all);
  }

  // As many flows as have a key in the tree of type tt.
  ghost function CountFor(flows: seq<IndexNode>, tt: KeyType): nat {
    if flows == [] then 0
    else CountFor(flows[..|flows| - 1], tt) + if Applies(flows[|flows| - 1].key, tt) then 1 else 0
  }

  lemma CountOneMore(flows: seq<IndexNode>, f: IndexNode, tt: KeyType)
    ensures CountFor(flows + [f], tt) == CountFor(flows, tt) + if Applies(f.key, tt) then 1 else 0
  {
    assert (flows + [f])[..|flows|] == flows;
  }

  ghost function Counted(counts: map<KeyType, nat>, rec: PacketRecord, tt: KeyType): map<KeyType, nat>
    requires tt in counts
  {
    counts[tt := counts[tt] + if Applies(rec, tt) then 1 else 0]
  }

  // The switch over the IP version of one of the addresses.
  method IndexAddress(v4: KeyType, v6: KeyType, vers: Byte, rec: PacketRecord, flow: IndexNode, ghost ranks: Ranking,
                      ghost g: Progress, roots: map<KeyType, IndexNode?>, counts: map<KeyType, nat>,
                      ghost trees: map<KeyType, Tree>, ghost all: set<IndexNode>)
    returns (roots1: map<KeyType, IndexNode?>, counts1: map<KeyType, nat>, ghost trees1: map<KeyType, Tree>,
             ghost all1: set<IndexNode>)
    requires FLOW in roots && FLOW in trees && Forest(roots, trees, ranks, g, all) && g.more == g.flows + [flow] &&
             flow.key == rec
    requires v4 !in g.done && v6 !in g.done && v4 in counts && v6 in counts
    requires Ranks(ranks(v4), v4) && Ranks(ranks(v6), v6)
    requires (v4 == SRCv4 && v6 == SRCv6 && vers == rec.src.vers) || (v4 == DSTv4 && v6 == DSTv6 &&
                                                                      vers == rec.dst.vers)
    modifies all`left, all`right, all`pkts, all`flows
    ensures Forest(roots1, trees1, ranks, g.(done := g.done + {v4} + {v6}), all1)
    ensures FLOW in roots1 && FLOW in trees1 && trees1[FLOW] == trees[FLOW] && all <= all1 && fresh(all1 - all)
    ensures counts1 == Counted(Counted(counts, rec, v4), rec, v6)
  {
    roots1, counts1, trees1, all1 := roots, counts, trees, all;
    if vers == IPv4 {
      roots1, trees1, all1 := InsertInto(v4, rec, flow, ranks, g, roots1, trees1, all1);
      counts1 := counts1[v4 := counts1[v4] + 1];
    } else {
      NotInTree(v4, flow, ranks, g, roots, trees, all);
    }
    ghost var g1 := g.(done := g.done + {v4});
    if vers == IPv6 {
      roots1, trees1, all1 := InsertInto(v6, rec, flow, ranks, g1, roots1, trees1, all1);
      counts1 := counts1[v6 := counts1[v6] + 1];
    } else {
      NotInTree(v6, flow, ranks, g1, roots1, trees1, all1);
    }
  }

  // The part of index_bucket that enters a new flow in the six sub-index trees.
  method IndexFlow(rec: PacketRecord, flow: IndexNode, ghost ranks: Ranking, ghost g: Progress,
                   roots: map<KeyType, IndexNode?>, counts: map<KeyType, nat>, ghost trees: map<KeyType, Tree>,
                   ghost all: set<IndexNode>)
    returns (roots1: map<KeyType, IndexNode?>, counts1: map<KeyType, nat>, ghost trees1: map<KeyType, Tree>,
             ghost all1: set<IndexNode>)
    requires FLOW in roots && FLOW in trees && Forest(roots, trees, ranks, g, all) && g.done == {} &&
             g.more == g.flows + [flow] && flow.key == rec
    requires SRCv4 in counts && SRCv6 in counts && DSTv4 in counts && DSTv6 in counts
    requires forall u :: Ranks(ranks(u), u)
    modifies all`left, all`right, all`pkts, all`flows
    ensures Forest(roots1, trees1, ranks, Progress(g.ps, g.more, g.more, {}), all1)
    ensures FLOW in roots1 && FLOW in trees1 && trees1[FLOW] == trees[FLOW] && all <= all1 && fresh(all1 - all)
    ensures counts1 == Counted(Counted(Counted(Counted(counts, rec, SRCv4), rec, SRCv6), rec, DSTv4), rec, DSTv6)
  {
    roots1, counts1, trees1, all1 :=
      IndexAddress(SRCv4, SRCv6, rec.src.vers, rec, flow, ranks, g, roots, counts, trees, all);
    ghost var g1 := g.(done := g.done + {SRCv4} + {SRCv6});
    roots1, counts1, trees1, all1 :=
      IndexAddress(DSTv4, DSTv6, rec.dst.vers, rec, flow, ranks, g1, roots1, counts1, trees1, all1);
    ghost var g2 := g1.(done := g1.done + {DSTv4} + {DSTv6});
    roots1, trees1, all1 := IndexPorts(rec, flow, ranks, g2, roots1, trees1, all1);
  }

  method IndexPorts(rec: PacketRecord, flow: IndexNode, ghost ranks: Ranking, ghost g: Progress,
                    roots: map<KeyType, IndexNode?>, ghost trees: map<KeyType, Tree>, ghost all: set<IndexNode>)
    returns (roots1: map<KeyType, IndexNode?>, ghost trees1: map<KeyType, Tree>, ghost all1: set<IndexNode>)
    requires FLOW in roots && FLOW in trees && Forest(roots, trees, ranks, g, all) && g.more == g.flows + [flow] &&
             flow.key == rec
    requires SRCv4 in g.done && SRCv6 in g.done && DSTv4 in g.done && DSTv6 in g.done && SRCPORT !in g.done &&
             DSTPORT !in g.done
    requires Ranks(ranks(SRCPORT), SRCPORT) && Ranks(ranks(DSTPORT), DSTPORT)
    modifies all`left, all`right, all`pkts, all`flows
    ensures Forest(roots1, trees1, ranks, Progress(g.ps, g.more, g.more, {}), all1)
    ensures FLOW in roots1 && FLOW in trees1 && trees1[FLOW] == trees[FLOW] && all <= all1 && fresh(all1 - all)
  {
    roots1, trees1, all1 := InsertInto(SRCPORT, rec, flow, ranks, g, roots, trees, all);
    ghost var g1 := g.(done := g.done + {SRCPORT});
    roots1, trees1, all1 := InsertInto(DSTPORT, rec, flow, ranks, g1, roots1, trees1, all1);
    EnteredEverywhere(roots1, trees1, ranks, g1.(done := g1.done + {DSTPORT}), all1);
  }

  lemma EnteredEverywhere(roots: map<KeyType, IndexNode?>, trees: map<KeyType, Tree>, ranks: Ranking, g: Progress,
                          all: set<IndexNode>)
    requires Forest(roots, trees, ranks, g, all) && forall u: KeyType :: u != FLOW ==> u in g.done
    ensures Forest(roots, trees, ranks, Progress(g.ps, g.more, g.more, {}), all)
  {
    assert Closed(0);
    var g1 := Progress(g.ps, g.more, g.more, {});
    forall u: KeyType | u != FLOW ensures Holding(roots[u], trees[u], u, ranks(u), g1.HeldBy(u)) {
      assert Holding(roots[u], trees[u], u, ranks(u), g.HeldBy(u));
    }
    assert Sealed(roots, trees, ranks, g1, all);
  }

  // splay_tr_insert of a packet into the flow tree, the other trees beside it.
  method InsertToFlows(rec: PacketRecord, ghost ranks: Ranking, ghost g: Progress, roots: map<KeyType, IndexNode?>,
                       ghost trees: map<KeyType, Tree>, ghost nodes: set<IndexNode>, ghost all: set<IndexNode>)
    returns (flow: IndexNode, roots1: map<KeyType, IndexNode?>, ghost trees1: map<KeyType, Tree>,
             ghost all1: set<IndexNode>)
    requires Forest(roots, trees, ranks, g, all) && FLOW in roots && FLOW in trees && nodes == Nodes(trees[FLOW])
    requires Ranks(ranks(FLOW), FLOW) && rec !in g.ps
    modifies all`left, all`right, all`pkts, all`flows
    ensures Forest(roots1, trees1, ranks, g.(ps := g.ps + [rec]), all1) && all <= all1 && fresh(all1 - all)
    ensures FLOW in roots1 && FLOW in trees1 && roots1[FLOW] == flow && Nodes(trees1[FLOW]) == nodes + {flow}
    ensures flow.pkts == [] <==> flow !in nodes
    ensures flow !in nodes <==> PacketsOf(g.ps, ranks(FLOW), ranks(FLOW)(rec)) == []
    ensures flow !in nodes ==> flow.key == rec
  {
    assert Closed(0);
    ghost var t1;
    assert forall u: KeyType :: allocated(Nodes(trees[u]));
    flow, t1 := InsertPacketKept(roots[FLOW], rec, ranks(FLOW), trees[FLOW], nodes, g.ps);
    roots1, trees1, all1 := roots[FLOW := flow], trees[FLOW := t1], all + {flow};
    forall u: KeyType | u != FLOW ensures Holding(roots[u], trees[u], u, ranks(u), g.HeldBy(u)) {
      assert old(Holding(roots[u], trees[u], u, ranks(u), g.HeldBy(u)));
      assert Nodes(trees[u]) !! nodes;
      var kept := Kept(roots[u], trees[u], u, ranks(u), g.HeldBy(u));
    }
    FlowsRenewed(flow, t1, ranks, g, g.ps + [rec], roots, trees, all);
  }

  lemma FlowsRenewed(root: IndexNode, t: Tree, ranks: Ranking, g: Progress, ps: seq<PacketRecord>,
                     roots: map<KeyType, IndexNode?>, trees: map<KeyType, Tree>, all: set<IndexNode>)
    requires HoldingPackets(root, t, ranks(FLOW), ps) && AllOf(t, FLOW) && Nodes(t) <= all + {root}
    requires forall u: KeyType :: u in roots && u in trees && Nodes(trees[u]) <= all && AllOf(trees[u], u)
    requires forall u: KeyType :: u != FLOW ==> Holding(roots[u], trees[u], u, ranks(u), g.HeldBy(u))
    ensures Forest(roots[FLOW := root], trees[FLOW := t], ranks, g.(ps := ps), all + {root})
  {
    var roots1, trees1, g1 := roots[FLOW := root], trees[FLOW := t], g.(ps := ps);
    forall u: KeyType | u != FLOW ensures Holding(roots1[u], trees1[u], u, ranks(u), g1.HeldBy(u)) {
      assert Holding(roots[u], trees[u], u, ranks(u), g.HeldBy(u));
    }
    assert Sealed(roots1, trees1, ranks, g1, all + {root});
  }

  method InsertPacketKept(root: IndexNode?, rec: PacketRecord, ghost rank: Order, ghost t: Tree,
                          ghost nodes: set<IndexNode>,
                          ghost ps: seq<PacketRecord>)
    returns (root1: IndexNode, ghost t1: Tree)
    requires Ranks(rank, FLOW) && HoldingPackets(root, t, rank, ps) && nodes == Nodes(t) && rec !in ps
    modifies nodes`left, nodes`right, nodes`pkts, nodes`flows
    ensures HoldingPackets(root1, t1, rank, ps + [rec]) && AllOf(t1, FLOW)
    ensures Nodes(t1) == nodes + {root1} && (root1 in nodes || fresh(root1))
    ensures root1.pkts == [] <==> root1 !in nodes
    ensures root1 !in nodes <==> PacketsOf(ps, rank, rank(rec)) == []
    ensures root1 !in nodes ==> root1.key == rec
  {
    assert FlowTree(root, t, rank, ps) by {
      assert Folded(0);
    }
    root1, t1 := InsertPacket(root, rec, rank, t, nodes, ps);
    KeepsPackets(root1, t1, rank, ps + [rec]);
  }

  lemma KeepsPackets(root: IndexNode?, t: Tree, rank: Order, ps: seq<PacketRecord>)
    requires FlowTree(root, t, rank, ps)
    ensures HoldingPackets(root, t, rank, ps)
  {
    assert KeptPackets(root, t, rank, ps);
  }

  // ---- index_bucket ----

  // The roots of the trees and the counters of index_set, by type of tree. The flow tree is of
  // type FLOW, and the trees of the ports go without counters.
  datatype Contents = Contents(packetCnt: nat, flowCnt: nat, roots: map<KeyType, IndexNode?>, counts: map<KeyType, nat>,
                               timeorder: seq<IndexNode>)

  // These index the packets ps.
  ghost predicate Indexed(v: Contents, trees: map<KeyType, Tree>, all: set<IndexNode>, ranks: Ranking,
                          ps: seq<PacketRecord>)
    reads all`left, all`right, all`pkts, all`flows
  {
    && Forest(v.roots, trees, ranks, Progress(ps, v.timeorder, v.timeorder, {}), all)
    && FLOW in v.roots && FLOW in trees && InTimeOrder(v.timeorder, Nodes(trees[FLOW]), FirstOf(ps, ranks(FLOW)))
    && v.packetCnt == |ps| && v.flowCnt == |v.timeorder| && v.counts == Tally(v.timeorder)
  }

  class IndexSet {
    var packetCnt: nat
    var flowCnt: nat
    var roots: map<KeyType, IndexNode?>
    var counts: map<KeyType, nat>
    var timeorder: seq<IndexNode>
    ghost var trees: map<KeyType, Tree>
    ghost var all: set<IndexNode>

    function Now(): Contents reads this { Contents(packetCnt, flowCnt, roots, counts, timeorder) }

    ghost predicate Indexes(ranks: Ranking, ps: seq<PacketRecord>)
      reads this, all`left, all`right, all`pkts, all`flows
    {
      exists qs :: Indexed(Now(), trees, all, ranks, qs) && qs == ps
    }

    constructor (ghost ranks: Ranking)
      ensures Indexes(ranks, []) && fresh(all)
    {
      packetCnt, flowCnt, timeorder, all := 0, 0, [], {};
      roots := map[FLOW := null, SRCv4 := null, SRCv6 := null, DSTv4 := null, DSTv6 := null, SRCPORT := null,
                   DSTPORT := null];
      trees := map[FLOW := Leaf, SRCv4 := Leaf, SRCv6 := Leaf, DSTv4 := Leaf, DSTv6 := Leaf, SRCPORT := Leaf,
                   DSTPORT := Leaf];
      counts := map[SRCv4 := 0, SRCv6 := 0, DSTv4 := 0, DSTv6 := 0];
      new;
      forall u: KeyType ensures u in roots && u in trees && roots[u] == null && trees[u] == Leaf {
        match u case FLOW => case SRCv4 => case SRCv6 => case DSTv4 => case DSTv6 => case SRCPORT => case DSTPORT =>
      }
      StartsEmpty(roots, trees, ranks);
      assert Arrivals([], {}, []);
      assert Indexed(Now(), trees, all, ranks, []);
    }

    method Set(v: Contents, ghost trees: map<KeyType, Tree>, ghost all: set<IndexNode>)
      modifies this
      ensures Now() == v && this.trees == trees && this.all == all
    {
      packetCnt, flowCnt, roots, counts, timeorder := v.packetCnt, v.flowCnt, v.roots, v.counts, v.timeorder;
      this.trees, this.all := trees, all;
    }

    // One round of the loop of index_bucket.
    method AddPacket(rec: PacketRecord, ghost ranks: Ranking, ghost ps: seq<PacketRecord>)
      requires Indexes(ranks, ps) && rec !in ps && forall u :: Ranks(ranks(u), u)
      modifies this, all`left, all`right, all`pkts, all`flows
      ensures Indexes(ranks, ps + [rec]) && fresh(all - old(all))
    {
      var v;
      ghost var trees1, all1;
      v, trees1, all1 := AddTo(rec, Now(), ranks, ps, trees, all);
      Set(v, trees1, all1);
      ghost var done := Indexed(v, trees1, all1, ranks, ps + [rec]);
    }
  }

  // Counts the packet, enters it in the flow tree and, when it starts a flow, enters the flow
  // in the time order and in the sub-index trees.
  method AddTo(rec: PacketRecord, v: Contents, ghost ranks: Ranking, ghost ps: seq<PacketRecord>,
               ghost trees: map<KeyType, Tree>, ghost all: set<IndexNode>)
    returns (w: Contents, ghost trees1: map<KeyType, Tree>, ghost all1: set<IndexNode>)
    requires Indexed(v, trees, all, ranks, ps) && rec !in ps && forall u :: Ranks(ranks(u), u)
    modifies all`left, all`right, all`pkts, all`flows
    ensures Indexed(w, trees1, all1, ranks, ps + [rec]) && all <= all1 && fresh(all1 - all)
  {
    ghost var nodes, g, first := Nodes(trees[FLOW]), Progress(ps, v.timeorder, v.timeorder, {}),
      FirstOf(ps, ranks(FLOW));
    OneMoreFirst(ps, rec, ranks(FLOW));
    var flow, roots1;
    flow, roots1, trees1, all1 := InsertToFlows(rec, ranks, g, v.roots, trees, nodes, all);
    w := v.(packetCnt := v.packetCnt + 1, roots := roots1);
    if flow.pkts == [] {
      OneMoreInOrder(v.timeorder, nodes, first, flow);
      var counts1;
      roots1, counts1, trees1, all1 := EnterFlow(rec, flow, ranks, ps + [rec], v.timeorder, roots1, v.counts, trees1,
                                                 all1);
      w := w.(flowCnt := v.flowCnt + 1, roots := roots1, counts := counts1, timeorder := v.timeorder + [flow]);
    } else {
      assert nodes + {flow} == nodes && first + [] == first;
    }
  }

  method EnterFlow(rec: PacketRecord, flow: IndexNode, ghost ranks: Ranking, ghost ps: seq<PacketRecord>,
                   ghost flows: seq<IndexNode>, roots: map<KeyType, IndexNode?>, counts: map<KeyType, nat>,
                   ghost trees: map<KeyType, Tree>, ghost all: set<IndexNode>)
    returns (roots1: map<KeyType, IndexNode?>, counts1: map<KeyType, nat>, ghost trees1: map<KeyType, Tree>,
             ghost all1: set<IndexNode>)
    requires FLOW in roots && FLOW in trees && Forest(roots, trees, ranks, Progress(ps, flows, flows, {}), all) &&
             flow.key == rec
    requires counts == Tally(flows) && forall u :: Ranks(ranks(u), u)
    modifies all`left, all`right, all`pkts, all`flows
    ensures Forest(roots1, trees1, ranks, Progress(ps, flows + [flow], flows + [flow], {}), all1)
    ensures FLOW in roots1 && FLOW in trees1 && trees1[FLOW] == trees[FLOW] && all <= all1 && fresh(all1 - all)
    ensures counts1 == Tally(flows + [flow])
  {
    ghost var g := Progress(ps, flows, flows + [flow], {});
    SoFar(roots, trees, ranks, Progress(ps, flows, flows, {}), g, all);
    roots1, counts1, trees1, all1 := IndexFlow(rec, flow, ranks, g, roots, counts, trees, all);
    TallyOneMore(flows, flow);
  }

  lemma StartsEmpty(roots: map<KeyType, IndexNode?>, trees: map<KeyType, Tree>, ranks: Ranking)
    requires forall u: KeyType :: u in roots && u in trees && roots[u] == null && trees[u] == Leaf
    ensures Forest(roots, trees, ranks, Progress([], [], [], {}), {})
  {
    var g := Progress([], [], [], {});
    forall u: KeyType ensures Holding(roots[u], trees[u], u, ranks(u), g.HeldBy(u)) {
      assert Kept(roots[u], trees[u], u, ranks(u), []);
    }
    assert KeptPackets(roots[FLOW], trees[FLOW], ranks(FLOW), []);
    assert Sealed(roots, trees, ranks, g, {});
  }

  // With nothing done yet, what is to come does not matter.
  lemma SoFar(roots: map<KeyType, IndexNode?>, trees: map<KeyType, Tree>, ranks: Ranking, g: Progress, h: Progress,
              all: set<IndexNode>)
    requires Forest(roots, trees, ranks, g, all) && g.done == h.done == {} && g.flows == h.flows && g.ps == h.ps
    ensures Forest(roots, trees, ranks, h, all)
  {
    assert Closed(0);
    forall u: KeyType | u != FLOW ensures Holding(roots[u], trees[u], u, ranks(u), h.HeldBy(u)) {
      assert Holding(roots[u], trees[u], u, ranks(u), g.HeldBy(u));
    }
    assert Sealed(roots, trees, ranks, h, all);
  }

  // The counters.
  ghost function Tally(flows: seq<IndexNode>): map<KeyType, nat> {
    map[SRCv4 := CountFor(flows, SRCv4), SRCv6 := CountFor(flows, SRCv6),
        DSTv4 := CountFor(flows, DSTv4), DSTv6 := CountFor(flows, DSTv6)]
  }

  lemma TallyOneMore(flows: seq<IndexNode>, f: IndexNode)
    ensures Tally(flows + [f]) ==
      Counted(Counted(Counted(Counted(Tally(flows), f.key, SRCv4), f.key, SRCv6), f.key, DSTv4), f.key, DSTv6)
  {
    var was := Tally(flows);
    var now := Counted(Counted(Counted(Counted(was, f.key, SRCv4), f.key, SRCv6), f.key, DSTv4), f.key, DSTv6);
    forall u | u in {SRCv4, SRCv6, DSTv4, DSTv6} ensures now[u] == CountFor(flows + [f], u) {
      CountOneMore(flows, f, u);
    }
  }

  // ---- What is indexed, by the fields of the packets ----

  // Node n of the tree has the flow in its list, and no other node has.
  ghost predicate ListedAt(t: Tree, f: IndexNode, n: IndexNode)
    reads Nodes(t)`flows
  {
    n in Nodes(t) && f in n.flows && forall m <- Nodes(t) :: f in m.flows ==> m == n
  }

  ghost predicate Unlisted(t: Tree, f: IndexNode)
    reads Nodes(t)`flows
  {
    forall m <- Nodes(t) :: f !in m.flows
  }

  lemma TreeOf(v: Contents, trees: map<KeyType, Tree>, all: set<IndexNode>, ranks: Ranking, ps: seq<PacketRecord>,
               tt: KeyType)
    requires Indexed(v, trees, all, ranks, ps) && tt != FLOW
    ensures tt in trees && tt in v.roots && SubTree(v.roots[tt], trees[tt], tt, ranks(tt), v.timeorder)
  {
    var g := Progress(ps, v.timeorder, v.timeorder, {});
    assert Stands(v.roots, trees, ranks, g, all) by {
      assert Closed(0);
    }
    assert Holding(v.roots[tt], trees[tt], tt, ranks(tt), g.HeldBy(tt));
    assert Folded(0);
  }

  // A flow is in the list of the node of its rank, if its key applies, and in no other.
  lemma ListedByRank(root: IndexNode?, t: Tree, tt: KeyType, rank: Order, flows: seq<IndexNode>, f: IndexNode)
    requires SubTree(root, t, tt, rank, flows) && f in flows
    ensures if Applies(f.key, tt) then exists n <- Nodes(t) :: ListedAt(t, f, n) && rank(n.key) == rank(f.key)
            else Unlisted(t, f)
  {
    forall m | m in Nodes(t) && f in m.flows ensures Applies(f.key, tt) && rank(m.key) == rank(f.key) {
      FlowsOfIn(flows, tt, rank, rank(m.key));
    }
    if Applies(f.key, tt) {
      var n :| n in Nodes(t) && rank(n.key) == rank(f.key);
      FlowInList(flows, tt, rank, f);
      forall m | m in Nodes(t) && f in m.flows ensures m == n {
        if m != n {
          SameRank(t, rank, m, n);
        }
      }
      assert ListedAt(t, f, n);
    }
  }

  lemma {:induction false} FlowInList(flows: seq<IndexNode>, tt: KeyType, rank: Order, f: IndexNode)
    requires f in flows && Applies(f.key, tt)
    ensures f in FlowsOf(flows, tt, rank, rank(f.key))
  {
    if f != flows[|flows| - 1] {
      FlowInList(flows[..|flows| - 1], tt, rank, f);
    }
  }

  // A flow has its source address in the tree of its version, at the node of this address, and in
  // no other tree.
  lemma SourceIsEntered(v: Contents, trees: map<KeyType, Tree>, all: set<IndexNode>, ranks: Ranking,
                        ps: seq<PacketRecord>, f: IndexNode)
    requires Indexed(v, trees, all, ranks, ps) && (forall u :: Ranks(ranks(u), u)) && f in v.timeorder
    ensures SRCv4 in trees && SRCv6 in trees
    ensures if f.key.src.vers == 4 then
              exists n <- Nodes(trees[SRCv4]) ::
                ListedAt(trees[SRCv4], f, n) && n.key.src.addr[..4] == f.key.src.addr[..4]
            else Unlisted(trees[SRCv4], f)
    ensures if f.key.src.vers == 6 then
              exists n <- Nodes(trees[SRCv6]) ::
                ListedAt(trees[SRCv6], f, n) && n.key.src.addr == f.key.src.addr
            else Unlisted(trees[SRCv6], f)
  {
    ListedByAddress(v, trees, all, ranks, ps, f, SRCv4);
    ListedByAddress(v, trees, all, ranks, ps, f, SRCv6);
  }

  // The same for the destination.
  lemma DestinationIsEntered(v: Contents, trees: map<KeyType, Tree>, all: set<IndexNode>, ranks: Ranking,
                             ps: seq<PacketRecord>, f: IndexNode)
    requires Indexed(v, trees, all, ranks, ps) && (forall u :: Ranks(ranks(u), u)) && f in v.timeorder
    ensures DSTv4 in trees && DSTv6 in trees
    ensures if f.key.dst.vers == 4 then
              exists n <- Nodes(trees[DSTv4]) ::
                ListedAt(trees[DSTv4], f, n) && n.key.dst.addr[..4] == f.key.dst.addr[..4]
            else Unlisted(trees[DSTv4], f)
    ensures if f.key.dst.vers == 6 then
              exists n <- Nodes(trees[DSTv6]) ::
                ListedAt(trees[DSTv6], f, n) && n.key.dst.addr == f.key.dst.addr
            else Unlisted(trees[DSTv6], f)
  {
    ListedByAddress(v, trees, all, ranks, ps, f, DSTv4);
    ListedByAddress(v, trees, all, ranks, ps, f, DSTv6);
  }

  // Every flow has both its ports in the trees of ports.
  lemma PortsAreEntered(v: Contents, trees: map<KeyType, Tree>, all: set<IndexNode>, ranks: Ranking,
                        ps: seq<PacketRecord>, f: IndexNode)
    requires Indexed(v, trees, all, ranks, ps) && (forall u :: Ranks(ranks(u), u)) && f in v.timeorder
    ensures SRCPORT in trees && DSTPORT in trees
    ensures exists n <- Nodes(trees[SRCPORT]) :: ListedAt(trees[SRCPORT], f, n) && n.key.srcport == f.key.srcport
    ensures exists n <- Nodes(trees[DSTPORT]) :: ListedAt(trees[DSTPORT], f, n) && n.key.dstport == f.key.dstport
  {
    ListedByAddress(v, trees, all, ranks, ps, f, SRCPORT);
    ListedByAddress(v, trees, all, ranks, ps, f, DSTPORT);
  }

  lemma ListedByAddress(v: Contents, trees: map<KeyType, Tree>, all: set<IndexNode>, ranks: Ranking,
                        ps: seq<PacketRecord>, f: IndexNode, tt: KeyType)
    requires Indexed(v, trees, all, ranks, ps) && (forall u :: Ranks(ranks(u), u)) && f in v.timeorder && tt != FLOW
    ensures tt in trees
    ensures if Applies(f.key, tt) then
              exists n <- Nodes(trees[tt]) ::
                ListedAt(trees[tt], f, n) && SameKey(n.key, f.key, tt)
            else Unlisted(trees[tt], f)
  {
    TreeOf(v, trees, all, ranks, ps, tt);
    ListedByRank(v.roots[tt], trees[tt], tt, ranks(tt), v.timeorder, f);
    if Applies(f.key, tt) {
      var n :| n in Nodes(trees[tt]) && ListedAt(trees[tt], f, n) && ranks(tt)(n.key) == ranks(tt)(f.key);
      assert Rank(n.key, tt) == Rank(f.key, tt);
      RankIsBytes(n.key, f.key, tt);
    }
  }

  predicate SameKey(p: PacketRecord, q: PacketRecord, tt: KeyType)
    requires tt != FLOW
  {
    match tt
    case SRCv4 => p.src.addr[..4] == q.src.addr[..4]
    case SRCv6 => p.src.addr == q.src.addr
    case DSTv4 => p.dst.addr[..4] == q.dst.addr[..4]
    case DSTv6 => p.dst.addr == q.dst.addr
    case SRCPORT => p.srcport == q.srcport
    case DSTPORT => p.dstport == q.dstport
  }

  lemma RankIsBytes(p: PacketRecord, q: PacketRecord, tt: KeyType)
    requires tt != FLOW && Applies(p, tt) && Applies(q, tt)
    ensures Rank(p, tt) == Rank(q, tt) <==> SameKey(p, q, tt)
  {
    IpCmpIsRankOrder(p.src, q.src);
    IpCmpIsRankOrder(p.dst, q.dst);
    IpCmpOnBytes(p.src, q.src);
    IpCmpOnBytes(p.dst, q.dst);
  }

  // Every packet is with exactly one of the flows, whose first packet has the same ports,
  // addresses and protocol, and which has no packet with others.
  lemma PacketHasFlow(v: Contents, trees: map<KeyType, Tree>, all: set<IndexNode>, ranks: Ranking,
                      ps: seq<PacketRecord>, p: PacketRecord)
    requires Indexed(v, trees, all, ranks, ps) && (forall u :: Ranks(ranks(u), u)) && p in ps
    ensures exists f <- v.timeorder :: p in Packets(f)
    ensures forall f <- v.timeorder :: p in Packets(f) <==>
              && f.key.srcport == p.srcport && f.key.dstport == p.dstport && f.key.proto == p.proto
              && SameAddress(f.key.src, p.src) && SameAddress(f.key.dst, p.dst)
  {
    var rank := ranks(FLOW);
    FlowsAreNodes(v, trees, all, ranks, ps);
    PacketIsKept(ps, rank, p);
    forall f | f in v.timeorder ensures p in Packets(f) <==> Rank(f.key, FLOW) == Rank(p, FLOW) {
      assert Packets(f) == PacketsOf(ps, rank, rank(f.key));
      PacketsOfIn(ps, rank, rank(f.key));
      assert rank(f.key) == Rank(f.key, FLOW) && rank(p) == Rank(p, FLOW);
    }
    forall f | f in v.timeorder {
      SameFlowIff(f.key, p);
    }
    var n :| n in Nodes(trees[FLOW]) && rank(n.key) == rank(p);
    assert rank(n.key) == Rank(n.key, FLOW) && rank(p) == Rank(p, FLOW);
  }

  lemma FlowsAreNodes(v: Contents, trees: map<KeyType, Tree>, all: set<IndexNode>, ranks: Ranking,
                      ps: seq<PacketRecord>)
    requires Indexed(v, trees, all, ranks, ps)
    ensures FLOW in v.roots && FLOW in trees && FlowTree(v.roots[FLOW], trees[FLOW], ranks(FLOW), ps)
    ensures (forall f <- v.timeorder :: f in Nodes(trees[FLOW])) && (forall n <- Nodes(trees[FLOW]) :: n in v.timeorder)
  {
    assert Stands(v.roots, trees, ranks, Progress(ps, v.timeorder, v.timeorder, {}), all) by {
      assert Closed(0);
    }
    assert Folded(0);
    assert TimeOrder(v.timeorder, Nodes(trees[FLOW]), FirstOf(ps, ranks(FLOW)));
  }

  lemma {:induction false} PacketIsKept(ps: seq<PacketRecord>, rank: Order, p: PacketRecord)
    requires p in ps
    ensures p in PacketsOf(ps, rank, rank(p))
  {
    if p != ps[|ps| - 1] {
      PacketIsKept(ps[..|ps| - 1], rank, p);
    }
  }

  // The counters by the fields: flow f counts where its address is of that version.
  lemma TallyOnFields(flows: seq<IndexNode>, f: IndexNode)
    ensures var was, now := Tally(flows), Tally(flows + [f]);
      && now[SRCv4] == was[SRCv4] + (if f.key.src.vers == 4 then 1 else 0)
      && now[SRCv6] == was[SRCv6] + (if f.key.src.vers == 6 then 1 else 0)
      && now[DSTv4] == was[DSTv4] + (if f.key.dst.vers == 4 then 1 else 0)
      && now[DSTv6] == was[DSTv6] + (if f.key.dst.vers == 6 then 1 else 0)
  {
    CountOneMore(flows, f, SRCv4);
    CountOneMore(flows, f, SRCv6);
    CountOneMore(flows, f, DSTv4);
    CountOneMore(flows, f, DSTv6);
  }

  // The packets of a chain of buckets.
  ghost function Chained(chain: seq<seq<PacketRecord>>): seq<PacketRecord> {
    if chain == [] then [] else Chained(chain[..|chain| - 1]) + chain[|chain| - 1]
  }

  // One bucket is what it holds, and two chains in a row are what they hold one after the other.
  lemma {:induction false} ChainedOfTwo(a: seq<seq<PacketRecord>>, b: seq<seq<PacketRecord>>, bucket: seq<PacketRecord>)
    ensures Chained(a + b) == Chained(a) + Chained(b) && Chained([bucket]) == bucket
  {
    assert [bucket][..0] == [];
    if b == [] {
      assert a + b == a;
    } else {
      var m := |b| - 1;
      ChainedOfTwo(a, b[..m], bucket);
      assert (a + b)[..|a + b| - 1] == a + b[..m];
      Associates(Chained(a), Chained(b[..m]), b[m]);
    }
  }

  lemma ChainedUpTo(chain: seq<seq<PacketRecord>>, b: nat)
    requires b < |chain|
    ensures Chained(chain[..b + 1]) == Chained(chain[..b]) + chain[b]
  {
    assert chain[..b + 1][..b] == chain[..b];
  }

  lemma {:induction false} ChainedPrefix(chain: seq<seq<PacketRecord>>, b: nat)
    requires b <= |chain|
    ensures Chained(chain[..b]) <= Chained(chain)
    decreases |chain| - b
  {
    if b == |chain| {
      assert chain[..b] == chain;
    } else {
      ChainedUpTo(chain, b);
      ChainedPrefix(chain, b + 1);
    }
  }

  // The next packet is none of those before it.
  lemma NextIsNew(chain: seq<seq<PacketRecord>>, b: nat, i: nat)
    requires b < |chain| && i < |chain[b]| && Distinct(Chained(chain))
    ensures chain[b][i] !in Chained(chain[..b]) + chain[b][..i]
    ensures Chained(chain[..b]) + chain[b][..i] + [chain[b][i]] == Chained(chain[..b]) + chain[b][..i + 1]
  {
    var front, all := Chained(chain[..b]), Chained(chain);
    ChainedUpTo(chain, b);
    ChainedPrefix(chain, b + 1);
    var at := |front| + i;
    assert all[at] == (front + chain[b])[at] == chain[b][i];
    assert front + chain[b][..i] == all[..at];
  }

  // index_bucket. The packets of the chain are records at different addresses.
  method IndexChain(chain: seq<seq<PacketRecord>>, ghost ranks: Ranking) returns (idxs: IndexSet)
    requires Distinct(Chained(chain)) && forall u :: Ranks(ranks(u), u)
    ensures fresh(idxs) && fresh(idxs.all) && idxs.Indexes(ranks, Chained(chain))
  {
    idxs := new IndexSet(ranks);
    var b := 0;
    while b < |chain|
      invariant b <= |chain| && fresh(idxs) && fresh(idxs.all) && idxs.Indexes(ranks, Chained(chain[..b]))
    {
      var i := 0;
      assert Chained(chain[..b]) + chain[b][..0] == Chained(chain[..b]);
      while i < |chain[b]|
        invariant i <= |chain[b]| && fresh(idxs) && fresh(idxs.all)
        invariant idxs.Indexes(ranks, Chained(chain[..b]) + chain[b][..i])
      {
        NextIsNew(chain, b, i);
        idxs.AddPacket(chain[b][i], ranks, Chained(chain[..b]) + chain[b][..i]);
        i := i + 1;
      }
      assert chain[b][..i] == chain[b];
      ChainedUpTo(chain, b);
      b := b + 1;
    }
    assert chain[..b] == chain;
  }
}

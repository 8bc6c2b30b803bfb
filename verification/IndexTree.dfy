// The nodes of the in-memory index and their shapes (indexer/index.h).

module IndexTree {
  import opened Network

  // A node of a flow tree or of a sub-index tree. The linked lists hanging off a node are
  // the sequences `pkts` (packets after the first, flow trees) and `flows` (sub-indexes).
  class IndexNode {
    const key: PacketRecord
    var left: IndexNode?
    var right: IndexNode?
    var pkts: seq<PacketRecord>
    var flows: seq<IndexNode>
    var flowIndexOffset: nat
    // The tree the node was made for.
    ghost const kind: KeyType

    constructor (key: PacketRecord, ghost kind: KeyType)
      ensures this.key == key && this.kind == kind && left == null && right == null
      ensures pkts == [] && flows == []
    {
      this.key, this.kind := key, kind;
      left, right := null, null;
      pkts, flows := [], [];
      flowIndexOffset := 0xbad1_bad2_bad3_bad4;
    }
  }

  // The shape a heap of nodes has: which node is where. The nodes' fields are the heap's.
  datatype Tree = Leaf | Bin(l: Tree, n: IndexNode, r: Tree)

  // The way from a subtree up to the root. While descending, the child pointer of each node
  // passed is overwritten with the pointer to its parent, so the way up is linked through
  // `left` of a node left by the left and through `right` of one left by the right.
  // Each step records which way it went and the subtree on the other side.
  datatype Path = Top | Step(left: bool, n: IndexNode, other: Tree, up: Path)

  ghost function Nodes(t: Tree): set<IndexNode> {
    match t
    case Leaf => {}
    case Bin(l, n, r) => Nodes(l) + {n} + Nodes(r)
  }

  ghost function PathNodes(c: Path): set<IndexNode> {
    match c
    case Top => {}
    case Step(left, n, other, up) => PathNodes(up) + {n} + Nodes(other)
  }

  ghost function Inorder(t: Tree): seq<IndexNode> {
    match t
    case Leaf => []
    case Bin(l, n, r) => Inorder(l) + [n] + Inorder(r)
  }

  // p is the root of a tree of shape t.
  ghost predicate IsTree(p: IndexNode?, t: Tree)
    reads Nodes(t)`left, Nodes(t)`right
  {
    match t
    case Leaf => p == null
    case Bin(l, n, r) => p == n && IsTree(n.left, l) && IsTree(n.right, r)
  }

  // p is the lower end of a chain of reversed pointers of shape c.
  ghost predicate IsPath(p: IndexNode?, c: Path)
    reads PathNodes(c)`left, PathNodes(c)`right
  {
    match c
    case Top => p == null
    case Step(left, n, other, up) =>
      && p == n
      && IsPath(if left then n.left else n.right, up)
      && IsTree(if left then n.right else n.left, other)
  }

  // The order of a tree, as the position of each packet on a line.
  type Order = PacketRecord -> nat

  // rank is the order that gen_cmp compares by in trees of type tt.
  ghost predicate Ranks(rank: Order, tt: KeyType) {
    && (forall p {:trigger Rank(p, tt)} :: rank(p) == Rank(p, tt))
    && (forall p :: rank(p) < RANK_LIMIT)
  }

  function Compare(a: PacketRecord, b: PacketRecord, tt: KeyType, ghost rank: Order): (cmp: int)
    requires Ranks(rank, tt)
    ensures cmp == Sign(rank(a) - rank(b))
  {
    GenCmpIsRankOrder(a, b, tt);
    GenCmp(a, b, tt)
  }

  // Above every rank.
  const RANK_LIMIT: int := 0x1_0000 * 0x1_0000 * (256 * IP_SPAN) * (256 * IP_SPAN) * 256

  // A search tree whose ranks are distinct and lie strictly between lo and hi.
  ghost predicate Ordered(t: Tree, lo: int, hi: int, rank: Order) {
    match t
    case Leaf => true
    case Bin(l, n, r) =>
      && lo < rank(n.key) < hi
      && Ordered(l, lo, rank(n.key), rank) && Ordered(r, rank(n.key), hi, rank)
  }

  ghost predicate SearchTree(t: Tree, rank: Order) { Ordered(t, -1, RANK_LIMIT, rank) }

  // The ranks that belong at the end of a path lie strictly between these two.
  ghost function HoleLo(c: Path, rank: Order): int {
    match c
    case Top => -1
    case Step(left, n, other, up) => if left then HoleLo(up, rank) else rank(n.key)
  }

  ghost function HoleHi(c: Path, rank: Order): int {
    match c
    case Top => RANK_LIMIT
    case Step(left, n, other, up) => if left then rank(n.key) else HoleHi(up, rank)
  }

  ghost predicate OrderedPath(c: Path, rank: Order) {
    match c
    case Top => true
    case Step(left, n, other, up) =>
      && HoleLo(up, rank) < rank(n.key) < HoleHi(up, rank)
      && Ordered(other, if left then rank(n.key) else HoleLo(up, rank),
                        if left then HoleHi(up, rank) else rank(n.key), rank)
      && OrderedPath(up, rank)
  }

  // A search tree taken apart into a subtree and the way up from it.
  ghost predicate Parted(t: Tree, c: Path, rank: Order) {
    Ordered(t, HoleLo(c, rank), HoleHi(c, rank), rank) && OrderedPath(c, rank)
  }

  // The in-order nodes before and after the end of the path.
  ghost function Before(c: Path): seq<IndexNode> {
    match c
    case Top => []
    case Step(left, n, other, up) => if left then Before(up) else Before(up) + Inorder(other) + [n]
  }

  ghost function After(c: Path): seq<IndexNode> {
    match c
    case Top => []
    case Step(left, n, other, up) => if left then [n] + Inorder(other) + After(up) else After(up)
  }

  // All nodes in order, of a tree taken apart into a subtree and the way up from it.
  ghost function Line(t: Tree, c: Path): seq<IndexNode> {
    Before(c) + Inorder(t) + After(c)
  }

  lemma {:induction false} InorderNodes(t: Tree)
    ensures forall x :: x in Inorder(t) <==> x in Nodes(t)
  {
    if t.Bin? {
      InorderNodes(t.l);
      InorderNodes(t.r);
    }
  }

  lemma RankBounded(pr: PacketRecord, tt: KeyType)
    ensures Rank(pr, tt) < RANK_LIMIT
  {
  }

  lemma {:induction false} OrderedWithin(t: Tree, lo: int, hi: int, rank: Order)
    requires Ordered(t, lo, hi, rank)
    ensures forall n <- Nodes(t) :: lo < rank(n.key) < hi
  {
    if t.Bin? {
      OrderedWithin(t.l, lo, rank(t.n.key), rank);
      OrderedWithin(t.r, rank(t.n.key), hi, rank);
    }
  }

  // The nodes on a path lie outside the hole at its end.
  lemma {:induction false} PathOutside(c: Path, rank: Order)
    requires OrderedPath(c, rank)
    ensures forall n <- PathNodes(c) :: rank(n.key) <= HoleLo(c, rank) || rank(n.key) >= HoleHi(c, rank)
  {
    match c
    case Top =>
    case Step(left, n, other, up) =>
      PathOutside(up, rank);
      OrderedWithin(other, if left then rank(n.key) else HoleLo(up, rank),
                           if left then HoleHi(up, rank) else rank(n.key), rank);
  }

  ghost predicate Rising(s: seq<IndexNode>, lo: int, hi: int, rank: Order) {
    && (forall i :: 0 <= i < |s| ==> lo < rank(s[i].key) < hi)
    && (forall i, j :: 0 <= i < j < |s| ==> rank(s[i].key) < rank(s[j].key))
  }

  // An ordered tree lists its nodes in strictly rising order; in particular each node once.
  lemma {:induction false} OrderedIsSorted(t: Tree, lo: int, hi: int, rank: Order)
    requires Ordered(t, lo, hi, rank)
    ensures Rising(Inorder(t), lo, hi, rank)
  {
    if t.Bin? {
      OrderedIsSorted(t.l, lo, rank(t.n.key), rank);
      OrderedIsSorted(t.r, rank(t.n.key), hi, rank);
    }
  }
}

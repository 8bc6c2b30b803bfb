// The walk of write_index over a tree, without a stack and freeing as it goes
// (indexer/output.c).

module Walk {
  import opened IndexTree

  // The way from the current subtree up to the root. Once a node has been entered its `left`
  // is the pointer to its parent.
  datatype Way = Root | FromLeft(n: IndexNode, r: Tree, up: Way) | FromRight(n: IndexNode, child: IndexNode, up: Way)

  // Descending into a subtree, or ascending out of one whose root was `prior`.
  datatype Place = Down(t: Tree, way: Way) | Up(prior: IndexNode, way: Way)

  ghost function WayNodes(w: Way): set<IndexNode> {
    match w
    case Root => {}
    case FromLeft(n, r, up) => {n} + Nodes(r) + WayNodes(up)
    case FromRight(n, child, up) => {n} + WayNodes(up)
  }

  ghost function Live(p: Place): set<IndexNode> {
    match p
    case Down(t, way) => Nodes(t) + WayNodes(way)
    case Up(prior, way) => {prior} + WayNodes(way)
  }

  // p is the lower end of the chain of parent pointers of a way.
  ghost predicate IsWay(p: IndexNode?, w: Way)
    reads WayNodes(w)`left, WayNodes(w)`right
  {
    match w
    case Root => p == null
    case FromLeft(n, r, up) => p == n && IsTree(n.right, r) && IsWay(n.left, up)
    case FromRight(n, child, up) => p == n && n.right == child && IsWay(n.left, up)
  }

  // No node is in two places.
  ghost predicate DistinctTree(t: Tree) {
    match t
    case Leaf => true
    case Bin(l, n, r) =>
      && DistinctTree(l) && DistinctTree(r) && n !in Nodes(l) && n !in Nodes(r)
      && forall x <- Nodes(l) :: x !in Nodes(r)
  }

  // n is where a way that went right says it went.
  ghost predicate Hangs(n: IndexNode, w: Way) {
    w.FromRight? ==> n == w.child
  }

  ghost predicate DistinctWay(w: Way) {
    match w
    case Root => true
    case FromLeft(n, r, up) =>
      && Hangs(n, up) && DistinctTree(r) && n !in Nodes(r) && DistinctWay(up) && n !in WayNodes(up)
      && forall x <- Nodes(r) :: x !in WayNodes(up)
    case FromRight(n, child, up) => Hangs(n, up) && DistinctWay(up) && n !in WayNodes(up)
  }

  ghost predicate DistinctPlace(p: Place) {
    exists q :: q == p && NoneShared(q)
  }

  ghost predicate NoneShared(p: Place) {
    match p
    case Down(t, way) =>
      && t.Bin? && Hangs(t.n, way) && DistinctTree(t) && DistinctWay(way)
      && forall x <- Nodes(t) :: x !in WayNodes(way)
    case Up(prior, way) => Hangs(prior, way) && DistinctWay(way) && prior !in WayNodes(way)
  }

  // What is still to be put out.
  ghost function WayRest(w: Way): seq<IndexNode> {
    match w
    case Root => []
    case FromLeft(n, r, up) => [n] + Inorder(r) + WayRest(up)
    case FromRight(_, _, up) => WayRest(up)
  }

  ghost function Rest(p: Place): seq<IndexNode> {
    match p
    case Down(t, way) => Inorder(t) + WayRest(way)
    case Up(_, way) => WayRest(way)
  }

  // An upper bound on the steps left.
  ghost function Size(t: Tree): nat {
    match t
    case Leaf => 0
    case Bin(l, n, r) => Size(l) + 1 + Size(r)
  }

  ghost function WayCost(w: Way): nat {
    match w
    case Root => 0
    case FromLeft(n, r, up) => 3 * Size(r) + 2 + WayCost(up)
    case FromRight(_, _, up) => 1 + WayCost(up)
  }

  ghost function Cost(p: Place): nat {
    match p
    case Down(t, way) => 3 * Size(t) + WayCost(way)
    case Up(_, way) => WayCost(way)
  }

  // The walk's variables describe a place.
  ghost predicate At(curr: IndexNode?, prior: IndexNode?, parent: IndexNode?, p: Place)
    reads Live(p)`left, Live(p)`right
  {
    exists q :: q == p && Stands(curr, prior, parent, q)
  }

  ghost predicate Stands(curr: IndexNode?, prior: IndexNode?, parent: IndexNode?, p: Place)
    reads Live(p)`left, Live(p)`right
  {
    && DistinctPlace(p)
    && match p
       case Down(t, way) => prior == null && IsTree(curr, t) && IsWay(parent, way)
       case Up(q, way) => prior == q && IsWay(curr, way)
  }

  // Where a node that has been put out leads: into its right subtree or up.
  ghost function AfterOutput(n: IndexNode, r: Tree, up: Way): Place {
    if r.Bin? then Down(r, FromRight(n, r.n, up)) else Up(n, up)
  }

  // The place after one round.
  ghost function Next(p: Place): Place {
    match p
    case Down(Leaf, way) => p
    case Down(Bin(l, n, r), way) =>
      if l.Bin? then Down(l, FromLeft(n, r, way)) else AfterOutput(n, r, way)
    case Up(prior, Root) => p
    case Up(prior, FromLeft(n, r, up)) => AfterOutput(n, r, up)
    case Up(prior, FromRight(n, child, up)) => Up(n, up)
  }

  ghost function Emits(p: Place): seq<IndexNode> {
    match p
    case Down(Leaf, way) => []
    case Down(Bin(l, n, r), way) => if l.Bin? then [] else [n]
    case Up(prior, Root) => []
    case Up(prior, FromLeft(n, r, up)) => [n]
    case Up(prior, FromRight(n, child, up)) => []
  }

  // The node freed in a round, except in the flow index.
  ghost function Frees(p: Place): set<IndexNode> {
    if p.Up? then {p.prior} else {}
  }

  lemma OutputLeadsOn(n: IndexNode, r: Tree, up: Way)
    requires Hangs(n, up) && DistinctTree(r) && DistinctWay(up) && n !in Nodes(r) && n !in WayNodes(up)
    requires forall x <- Nodes(r) :: x !in WayNodes(up)
    ensures DistinctPlace(AfterOutput(n, r, up)) && Cost(AfterOutput(n, r, up)) < 3 * Size(r) + 2 + WayCost(up)
    ensures Rest(AfterOutput(n, r, up)) == Inorder(r) + WayRest(up)
    ensures Live(AfterOutput(n, r, up)) == {n} + Nodes(r) + WayNodes(up)
  {
    assert NoneShared(AfterOutput(n, r, up));
  }

  lemma LeftIsRight(l: Tree, n: IndexNode, r: Tree, way: Way)
    requires NoneShared(Down(Bin(l, n, r), way)) && l.Bin?
    ensures DistinctPlace(Down(l, FromLeft(n, r, way)))
    ensures Rest(Down(l, FromLeft(n, r, way))) == Rest(Down(Bin(l, n, r), way))
    ensures Live(Down(l, FromLeft(n, r, way))) == Live(Down(Bin(l, n, r), way))
  {
    assert NoneShared(Down(l, FromLeft(n, r, way)));
    assert Inorder(l) + [n] + Inorder(r) + WayRest(way) == Inorder(l) + ([n] + Inorder(r) + WayRest(way));
  }

  lemma OutputIsRight(n: IndexNode, l: Tree, r: Tree, way: Way)
    requires NoneShared(Down(Bin(l, n, r), way)) && l.Leaf?
    ensures DistinctPlace(AfterOutput(n, r, way)) && Cost(AfterOutput(n, r, way)) < Cost(Down(Bin(l, n, r), way))
    ensures [n] + Rest(AfterOutput(n, r, way)) == Rest(Down(Bin(l, n, r), way))
    ensures Live(AfterOutput(n, r, way)) == Live(Down(Bin(l, n, r), way))
  {
    OutputLeadsOn(n, r, way);
    assert Inorder(l) + [n] + Inorder(r) + WayRest(way) == [n] + (Inorder(r) + WayRest(way));
  }

  lemma UpIsRight(prior: IndexNode, n: IndexNode, r: Tree, up: Way)
    requires NoneShared(Up(prior, FromLeft(n, r, up)))
    ensures DistinctPlace(AfterOutput(n, r, up)) && Cost(AfterOutput(n, r, up)) < Cost(Up(prior, FromLeft(n, r, up)))
    ensures [n] + Rest(AfterOutput(n, r, up)) == Rest(Up(prior, FromLeft(n, r, up)))
    ensures Live(AfterOutput(n, r, up)) == Live(Up(prior, FromLeft(n, r, up))) - {prior}
  {
    OutputLeadsOn(n, r, up);
    Regroup([n], Inorder(r), WayRest(up));
  }

  lemma Regroup<X>(a: seq<X>, b: seq<X>, c: seq<X>)
    ensures a + b + c == a + (b + c)
  {
  }

  // A round puts out the next node in order if any, keeps all nodes but the one freed, and
  // comes nearer to the end.
  lemma RoundIsRight(p: Place)
    requires DistinctPlace(p) && (p.Up? ==> p.way != Root)
    ensures Emits(p) + Rest(Next(p)) == Rest(p)
    ensures Live(Next(p)) == Live(p) - Frees(p) && Frees(p) <= Live(p)
    ensures Cost(Next(p)) < Cost(p) && DistinctPlace(Next(p))
  {
    match p
    case Down(Bin(l, n, r), way) =>
      if l.Bin? {
        LeftIsRight(l, n, r, way);
      } else {
        OutputIsRight(n, l, r, way);
      }
    case Up(prior, FromLeft(n, r, up)) =>
      UpIsRight(prior, n, r, up);
    case Up(prior, FromRight(n, child, up)) =>
      assert NoneShared(Up(n, up));
  }

  // The same by positions in the line of all nodes, of which the first k have been put out.
  lemma RoundInLine(p: Place, line: seq<IndexNode>, k: nat)
    requires DistinctPlace(p) && (p.Up? ==> p.way != Root) && k <= |line| && Rest(p) == line[k..]
    ensures k + |Emits(p)| <= |line| && Rest(Next(p)) == line[k + |Emits(p)|..]
    ensures Emits(p) != [] ==> Emits(p) == [line[k]]
  {
    RoundIsRight(p);
    var e := Emits(p);
    assert e + Rest(Next(p)) == line[k..];
    assert |e| <= 1 && Rest(Next(p)) == (e + Rest(Next(p)))[|e|..];
    assert e != [] ==> (e + Rest(Next(p)))[0] == e[0];
  }

  lemma {:induction false} OrderedIsDistinct(t: Tree, lo: int, hi: int, rank: Order)
    requires Ordered(t, lo, hi, rank)
    ensures DistinctTree(t)
  {
    if t.Bin? {
      OrderedIsDistinct(t.l, lo, rank(t.n.key), rank);
      OrderedIsDistinct(t.r, rank(t.n.key), hi, rank);
      OrderedWithin(t.l, lo, rank(t.n.key), rank);
      OrderedWithin(t.r, rank(t.n.key), hi, rank);
    }
  }

  // ---- The pointers ----

  // What the walk can tell from its pointers.
  lemma WhereItIs(curr: IndexNode?, prior: IndexNode?, parent: IndexNode?, p: Place)
    requires At(curr, prior, parent, p)
    ensures DistinctPlace(p) && (prior == null <==> p.Down?) && (p.Up? ==> p.prior == prior)
    ensures curr == null <==> p.Up? && p.way == Root
    ensures p.Down? ==> p.t.n == curr && (curr.left != null <==> p.t.l.Bin?)
    ensures p.Up? && p.way != Root ==> p.way.n == curr && (prior == curr.right <==> p.way.FromRight?)
  {
    assert p.Down? ==> IsTree(curr.left, p.t.l);
    if p.Up? && p.way.FromLeft? {
      assert IsTree(curr.right, p.way.r);
      assert prior !in Nodes(p.way.r);
      assert p.way.r.Bin? ==> curr.right in Nodes(p.way.r);
    }
  }

  // Case 6: back from the right.
  lemma BackFromRight(curr: IndexNode, prior: IndexNode, parent: IndexNode?, p: Place)
    requires At(curr, prior, parent, p) && p.Up? && p.way.FromRight?
    ensures At(curr.left, curr, parent, Next(p))
  {
    RoundIsRight(p);
    assert Stands(curr.left, curr, parent, Next(p));
  }

  // Case 1: into the left subtree; the left pointer becomes the pointer to the parent.
  method GoLeft(curr: IndexNode, parent: IndexNode?, ghost t: Tree, ghost way: Way, ghost nodes: set<IndexNode>)
    returns (left: IndexNode)
    requires At(curr, null, parent, Down(t, way)) && t.l.Bin? && nodes == Live(Down(t, way))
    modifies curr`left
    ensures At(left, null, curr, Next(Down(t, way))) && left in nodes
  {
    RoundIsRight(Down(t, way));
    assert IsTree(curr.left, t.l);
    left := curr.left;
    curr.left := parent;
    assert Stands(left, null, curr, Next(Down(t, way)));
  }

  // The left pointer of n leads up and what is on its right is still to come.
  ghost predicate Settled(n: IndexNode, r: Tree, up: Way)
    reads WayNodes(FromLeft(n, r, up))`left, WayNodes(FromLeft(n, r, up))`right
  {
    exists w :: w == FromLeft(n, r, up) && IsWay(n, w) && DistinctPlace(AfterOutput(n, r, up))
  }

  // Cases 2 and 3: there is nothing on the left, and the parent pointer is set all the same.
  method SetParent(curr: IndexNode, parent: IndexNode?, ghost t: Tree, ghost way: Way)
    requires At(curr, null, parent, Down(t, way)) && t.l.Leaf?
    modifies curr`left
    ensures Settled(curr, t.r, way)
  {
    RoundIsRight(Down(t, way));
    curr.left := parent;
    assert IsWay(curr, FromLeft(curr, t.r, way));
  }

  // Cases 4 and 5: back from the left.
  lemma BackFromLeft(curr: IndexNode, prior: IndexNode, parent: IndexNode?, r: Tree, up: Way)
    requires At(curr, prior, parent, Up(prior, FromLeft(curr, r, up)))
    ensures Settled(curr, r, up)
  {
    RoundIsRight(Up(prior, FromLeft(curr, r, up)));
    assert IsWay(curr, FromLeft(curr, r, up));
  }

  // Cases 2 to 5 up to the output.
  method Settle(curr: IndexNode, prior: IndexNode?, parent: IndexNode?, ghost p: Place, ghost r: Tree, ghost up: Way)
    requires At(curr, prior, parent, p)
    requires if p.Down? then p.t.l.Leaf? && p.t.r == r && p.way == up else p.way == FromLeft(curr, r, up)
    modifies curr`left
    ensures Settled(curr, r, up)
  {
    WhereItIs(curr, prior, parent, p);
    if prior == null {
      SetParent(curr, parent, p.t, p.way);
    } else {
      BackFromLeft(curr, prior, parent, r, up);
    }
  }

  // Cases 2 to 5 after the output: down to the right or up.
  method MoveOn(curr: IndexNode, parent0: IndexNode?, ghost r: Tree, ghost up: Way)
    returns (curr1: IndexNode?, prior: IndexNode?, parent: IndexNode?)
    requires Settled(curr, r, up)
    ensures At(curr1, prior, parent, AfterOutput(curr, r, up))
  {
    if curr.right != null {
      parent := curr;
      prior := null;
      curr1 := curr.right;
    } else {
      parent := parent0;
      prior := curr;
      curr1 := curr.left;
    }
    assert Stands(curr1, prior, parent, AfterOutput(curr, r, up));
  }
}

// Insertion into an index tree with splaying (indexer/index.c).

module Splay {
  import opened Network
  import opened IndexTree

  // ---- One splay step on shapes ----

  // A node with one child on the way up, one on the other side.
  ghost function Join(left: bool, inner: Tree, n: IndexNode, other: Tree): Tree {
    if left then Bin(inner, n, other) else Bin(other, n, inner)
  }

  // The subtree after one zig, zig-zig or zig-zag, and the rest of the path.
  ghost function Splayed(t: Tree, c: Path): (Tree, Path)
    requires t.Bin? && c.Step?
  {
    var Bin(a, x, b) := t;
    var Step(left, p, r, up) := c;
    // The child of x that moves to p, and the one that stays or moves to the grandparent.
    var toP, toG := if left then b else a, if left then a else b;
    match up
    case Top => (Join(left, toG, x, Join(left, toP, p, r)), Top)
    case Step(upLeft, g, d, rest) =>
      if left == upLeft then
        (Join(left, toG, x, Join(left, toP, p, Join(left, r, g, d))), rest)
      else
        (Join(left, Join(upLeft, toG, g, d), x, Join(left, toP, p, r)), rest)
  }

  lemma {:induction false} SplayedKeepsOrder(t: Tree, c: Path, rank: Order)
    requires t.Bin? && c.Step? && Parted(t, c, rank)
    ensures var (t', c') := Splayed(t, c);
      && Parted(t', c', rank) && t'.Bin? && t'.n == t.n && c' < c
  {
    var Bin(a, x, b) := t;
    var Step(left, p, r, up) := c;
    var toP, toG := if left then b else a, if left then a else b;
    assert OrderedPath(up, rank);
    match up
    case Top =>
    case Step(upLeft, g, d, rest) =>
      assert OrderedPath(rest, rank);
      var (t', c') := Splayed(t, c);
      if left == upLeft {
        var low := Join(left, r, g, d);
        assert Ordered(low, if left then rank(p.key) else HoleLo(rest, rank),
                            if left then HoleHi(rest, rank) else rank(p.key), rank);
        assert Ordered(Join(left, toP, p, low), if left then rank(x.key) else HoleLo(rest, rank),
                                                if left then HoleHi(rest, rank) else rank(x.key), rank);
      } else {
        assert Ordered(Join(upLeft, toG, g, d), if left then HoleLo(rest, rank) else rank(x.key),
                                                if left then rank(x.key) else HoleHi(rest, rank), rank);
        assert Ordered(Join(left, toP, p, r), if left then rank(x.key) else HoleLo(rest, rank),
                                              if left then HoleHi(rest, rank) else rank(x.key), rank);
      }
  }

  lemma {:induction false} SplayedKeepsNodes(t: Tree, c: Path)
    requires t.Bin? && c.Step?
    ensures var (t', c') := Splayed(t, c);
      Nodes(t') + PathNodes(c') == Nodes(t) + PathNodes(c)
  {
    var Bin(a, x, b) := t;
    var Step(left, p, r, up) := c;
    var toP, toG := if left then b else a, if left then a else b;
    if up.Step? {
      assert Nodes(Join(left, toP, p, Join(left, r, up.n, up.other))) ==
             Nodes(toP) + {p} + (Nodes(r) + {up.n} + Nodes(up.other));
      assert Nodes(Join(up.left, toG, up.n, up.other)) == Nodes(toG) + {up.n} + Nodes(up.other);
    }
    assert Nodes(Join(left, toP, p, r)) == Nodes(toP) + {p} + Nodes(r);
  }

  lemma Regroup(p: seq<IndexNode>, l: seq<IndexNode>, m: seq<IndexNode>, r: seq<IndexNode>, q: seq<IndexNode>)
    ensures p + (l + m + r) + q == (p + l) + m + (r + q)
  {
  }

  // What one splay step moves next to the old subtree in the line: l before it, r after it.
  ghost predicate Absorbs(l: seq<IndexNode>, r: seq<IndexNode>, t: Tree, c: Path)
    requires t.Bin? && c.Step?
  {
    var (t', c') := Splayed(t, c);
    Inorder(t') == l + Inorder(t) + r && Before(c) == Before(c') + l && After(c) == r + After(c')
  }

  lemma {:induction false} ZigAbsorbs(t: Tree, c: Path) returns (l: seq<IndexNode>, r: seq<IndexNode>)
    requires t.Bin? && c.Step? && c.up.Top?
    ensures Absorbs(l, r, t, c)
  {
    var A, B, R := Inorder(t.l), Inorder(t.r), Inorder(c.other);
    if c.left {
      l, r := [], [c.n] + R;
      assert A + [t.n] + (B + [c.n] + R) == [] + (A + [t.n] + B) + r;
    } else {
      l, r := R + [c.n], [];
      assert (R + [c.n] + A) + [t.n] + B == l + (A + [t.n] + B) + [];
      assert Before(c) == [] + l;
    }
  }

  lemma {:induction false} ZigZigAbsorbs(t: Tree, c: Path) returns (l: seq<IndexNode>, r: seq<IndexNode>)
    requires t.Bin? && c.Step? && c.up.Step? && c.left == c.up.left
    ensures Absorbs(l, r, t, c)
  {
    if c.left {
      l, r := ZigZigLeft(t, c);
    } else {
      l, r := ZigZigRight(t, c);
    }
  }

  lemma {:induction false} ZigZigLeft(t: Tree, c: Path) returns (l: seq<IndexNode>, r: seq<IndexNode>)
    requires t.Bin? && c.Step? && c.up.Step? && c.left && c.up.left
    ensures Absorbs(l, r, t, c)
  {
    var A, B, R, D := Inorder(t.l), Inorder(t.r), Inorder(c.other), Inorder(c.up.other);
    var p, g, rest := [c.n], [c.up.n], c.up.up;
    l, r := [], p + R + (g + D);
    assert Inorder(Bin(c.other, c.up.n, c.up.other)) == R + g + D;
    assert Inorder(Bin(t.r, c.n, Bin(c.other, c.up.n, c.up.other))) == B + p + (R + g + D);
    assert A + [t.n] + (B + p + (R + g + D)) == [] + (A + [t.n] + B) + r;
    assert p + R + (g + D + After(rest)) == r + After(rest);
  }

  lemma {:induction false} ZigZigRight(t: Tree, c: Path) returns (l: seq<IndexNode>, r: seq<IndexNode>)
    requires t.Bin? && c.Step? && c.up.Step? && !c.left && !c.up.left
    ensures Absorbs(l, r, t, c)
  {
    var A, B, R, D := Inorder(t.l), Inorder(t.r), Inorder(c.other), Inorder(c.up.other);
    var p, g, rest := [c.n], [c.up.n], c.up.up;
    l, r := D + g + R + p, [];
    assert Inorder(Bin(c.up.other, c.up.n, c.other)) == D + g + R;
    assert Inorder(Bin(Bin(c.up.other, c.up.n, c.other), c.n, t.l)) == (D + g + R) + p + A;
    assert ((D + g + R) + p + A) + [t.n] + B == l + (A + [t.n] + B) + [];
    assert (Before(rest) + D + g) + R + p == Before(rest) + l;
  }

  lemma {:induction false} ZigZagAbsorbs(t: Tree, c: Path) returns (l: seq<IndexNode>, r: seq<IndexNode>)
    requires t.Bin? && c.Step? && c.up.Step? && c.left != c.up.left
    ensures Absorbs(l, r, t, c)
  {
    var A, B, R, D := Inorder(t.l), Inorder(t.r), Inorder(c.other), Inorder(c.up.other);
    var p, g, rest := [c.n], [c.up.n], c.up.up;
    if c.left {
      l, r := D + g, p + R;
      assert (D + g + A) + [t.n] + (B + p + R) == l + (A + [t.n] + B) + r;
      assert Before(rest) + D + g == Before(rest) + l;
    } else {
      l, r := R + p, g + D;
      assert (R + p + A) + [t.n] + (B + g + D) == l + (A + [t.n] + B) + r;
      assert Before(rest) + R + p == Before(rest) + l;
    }
  }

  lemma {:induction false} SplayedKeepsLine(t: Tree, c: Path)
    requires t.Bin? && c.Step?
    ensures Line(Splayed(t, c).0, Splayed(t, c).1) == Line(t, c)
  {
    var l, r;
    if c.up.Top? {
      l, r := ZigAbsorbs(t, c);
    } else if c.left == c.up.left {
      l, r := ZigZigAbsorbs(t, c);
    } else {
      l, r := ZigZagAbsorbs(t, c);
    }
    var c' := Splayed(t, c).1;
    Regroup(Before(c'), l, Inorder(t), r, After(c'));
  }

  // ---- One splay step on the heap ----

  // The lowest step of a path with the pointer into the subtree put back.
  ghost function Inner(t: Tree, c: Path): Tree
    requires c.Step?
  {
    Join(c.left, t, c.n, c.other)
  }

  lemma InnerIsParted(t: Tree, c: Path, rank: Order)
    requires c.Step? && Parted(t, c, rank) && t.Bin?
    ensures Parted(Inner(t, c), c.up, rank)
  {
  }

  // Subtree, lowest step and the path above it share no node.
  lemma LowIsApart(t: Tree, c: Path, rank: Order)
    requires c.Step? && t.Bin? && Parted(t, c, rank)
    ensures c.n != t.n && c.n !in Nodes(t) && c.n !in Nodes(t.l) && c.n !in Nodes(t.r)
    ensures c.n !in Nodes(c.other) && c.n !in PathNodes(c.up)
    ensures t.n !in Nodes(t.l) && t.n !in Nodes(t.r) && t.n !in Nodes(c.other) && t.n !in PathNodes(c.up)
  {
    var Step(left, p, r, up) := c;
    OrderedWithin(t, HoleLo(c, rank), HoleHi(c, rank), rank);
    OrderedWithin(t.l, HoleLo(c, rank), rank(t.n.key), rank);
    OrderedWithin(t.r, rank(t.n.key), HoleHi(c, rank), rank);
    OrderedWithin(r, if left then rank(p.key) else HoleLo(up, rank),
                     if left then HoleHi(up, rank) else rank(p.key), rank);
    PathOutside(up, rank);
  }

  // The node hangs on its parent on the given side.
  ghost predicate Hangs(x: IndexNode, p: IndexNode, left: bool)
    reads p
  {
    p != x && (if left then p.left else p.right) == x && (if left then p.right else p.left) != x
  }

  ghost predicate Holds(p: IndexNode, left: bool, other: Tree)
    reads p, Nodes(other)
  {
    IsTree(if left then p.right else p.left, other)
  }

  ghost predicate Free(x: IndexNode, a: Tree, b: Tree, r: Tree, d: Tree) {
    x !in Nodes(a) && x !in Nodes(b) && x !in Nodes(r) && x !in Nodes(d)
  }

  // Puts back one reversed pointer and returns where it pointed. Which side the child hung
  // on is told by comparing keys, since the pointer itself is gone.
  method RestoreLink(child: IndexNode, p: IndexNode, tt: KeyType, ghost rank: Order, ghost t: Tree, ghost c: Path)
    returns (next: IndexNode?)
    requires t.Bin? && child == t.n && IsPath(p, c) && Parted(t, c, rank) && Ranks(rank, tt)
    modifies p`left, p`right
    ensures Hangs(child, p, c.left) && Holds(p, c.left, c.other) && IsPath(next, c.up)
  {
    LowIsApart(t, c, rank);
    var cmp := Compare(child.key, p.key, tt, rank);
    if cmp < 0 {
      next := p.left;
      p.left := child;
    } else if cmp > 0 {
      next := p.right;
      p.right := child;
    } else {
      assert false;
    }
  }

  // Rotates on the edge between the root and its child.
  method Zig(curr: IndexNode, p: IndexNode, ghost left: bool, ghost a: Tree, ghost b: Tree, ghost r: Tree)
    requires Hangs(curr, p, left) && Free(curr, a, b, r, Leaf) && Free(p, a, b, r, Leaf)
    requires IsTree(curr.left, a) && IsTree(curr.right, b) && Holds(p, left, r)
    modifies curr`left, curr`right, p`left, p`right
    ensures IsTree(curr, if left then Bin(a, curr, Bin(b, p, r)) else Bin(Bin(r, p, a), curr, b))
  {
    if curr == p.left {
      p.left := curr.right;
      curr.right := p;
    } else {
      p.right := curr.left;
      curr.left := p;
    }
  }

  // Zig-zig and zag-zag: the node and its parent hang on the same side.
  method ZigZig(curr: IndexNode, p: IndexNode, gp: IndexNode, ghost left: bool,
                ghost a: Tree, ghost b: Tree, ghost r: Tree, ghost d: Tree)
    requires Hangs(curr, p, left) && Hangs(p, gp, left) && curr != gp
    requires Free(curr, a, b, r, d) && Free(p, a, b, r, d) && Free(gp, a, b, r, d)
    requires IsTree(curr.left, a) && IsTree(curr.right, b) && Holds(p, left, r) && Holds(gp, left, d)
    modifies curr`left, curr`right, p`left, p`right, gp`left, gp`right
    ensures IsTree(curr, if left then Bin(a, curr, Bin(b, p, Bin(r, gp, d)))
                         else Bin(Bin(Bin(d, gp, r), p, a), curr, b))
  {
    if gp.left == p && p.left == curr {
      gp.left := p.right;
      p.right := gp;
      p.left := curr.right;
      curr.right := p;
      assert IsTree(gp, Bin(r, gp, d));
    } else {
      gp.right := p.left;
      p.left := gp;
      p.right := curr.left;
      curr.left := p;
      assert IsTree(gp, Bin(d, gp, r));
    }
  }

  // Zig-zag and zag-zig: the node hangs on side `left` of its parent, the parent on the other.
  method ZigZag(curr: IndexNode, p: IndexNode, gp: IndexNode, ghost left: bool,
                ghost a: Tree, ghost b: Tree, ghost r: Tree, ghost d: Tree)
    requires Hangs(curr, p, left) && Hangs(p, gp, !left) && curr != gp
    requires Free(curr, a, b, r, d) && Free(p, a, b, r, d) && Free(gp, a, b, r, d)
    requires IsTree(curr.left, a) && IsTree(curr.right, b) && Holds(p, left, r) && Holds(gp, !left, d)
    modifies curr`left, curr`right, p`left, p`right, gp`left, gp`right
    ensures IsTree(curr, if left then Bin(Bin(d, gp, a), curr, Bin(b, p, r))
                         else Bin(Bin(r, p, a), curr, Bin(b, gp, d)))
  {
    if gp.left == p && p.right == curr {
      p.right := curr.left;
      gp.left := curr.right;
      curr.left := p;
      curr.right := gp;
    } else {
      p.left := curr.right;
      gp.right := curr.left;
      curr.right := p;
      curr.left := gp;
    }
  }

  // The subtree's root and the two steps above it against everything they carry.
  lemma LowestThreeApart(t: Tree, c: Path, rank: Order)
    requires c.Step? && c.up.Step? && t.Bin? && Parted(t, c, rank)
    ensures t.n != c.n && t.n != c.up.n && c.n != c.up.n
    ensures Free(t.n, t.l, t.r, c.other, c.up.other) && Free(c.n, t.l, t.r, c.other, c.up.other)
    ensures Free(c.up.n, t.l, t.r, c.other, c.up.other)
    ensures t.n !in PathNodes(c.up.up) && c.n !in PathNodes(c.up.up) && c.up.n !in PathNodes(c.up.up)
  {
    LowIsApart(t, c, rank);
    InnerIsParted(t, c, rank);
    LowIsApart(Inner(t, c), c.up, rank);
  }

  // The part of a splay step that has a grandparent, with the parent's pointer put back.
  method SplayTwice(curr: IndexNode, p: IndexNode, gp: IndexNode, tt: KeyType, ghost rank: Order, ghost t: Tree,
                    ghost c: Path)
    returns (next: IndexNode?)
    requires t.Bin? && c.Step? && c.up.Step? && Parted(t, c, rank) && Ranks(rank, tt)
    requires curr == t.n && p == c.n && gp == c.up.n
    requires IsTree(curr.left, t.l) && IsTree(curr.right, t.r) && Hangs(curr, p, c.left) && Holds(p, c.left, c.other)
    requires IsPath(gp, c.up)
    modifies curr`left, curr`right, p`left, p`right, gp`left, gp`right
    ensures IsTree(curr, Splayed(t, c).0) && IsPath(next, Splayed(t, c).1)
  {
    LowestThreeApart(t, c, rank);
    InnerIsParted(t, c, rank);
    assert allocated(Nodes(t.l)) && allocated(Nodes(t.r)) && allocated(Nodes(c.other));
    assert allocated(Nodes(c.up.other)) && allocated(PathNodes(c.up.up));
    next := RestoreLink(p, gp, tt, rank, Inner(t, c), c.up);
    if (gp.left == p && p.left == curr) || (gp.right == p && p.right == curr) {
      ZigZig(curr, p, gp, c.left, t.l, t.r, c.other, c.up.other);
    } else {
      ZigZag(curr, p, gp, c.left, t.l, t.r, c.other, c.up.other);
    }
  }

  // The body of the splay loop. `p` is the parent of `curr`; both pointers from there up are
  // still reversed.
  method SplayStep(curr: IndexNode, p: IndexNode, tt: KeyType, ghost rank: Order, ghost t: Tree, ghost c: Path)
    returns (next: IndexNode?)
    requires t.Bin? && IsTree(curr, t) && IsPath(p, c) && Parted(t, c, rank) && Ranks(rank, tt)
    modifies Nodes(t)`left, Nodes(t)`right, PathNodes(c)`left, PathNodes(c)`right
    ensures IsTree(curr, Splayed(t, c).0) && IsPath(next, Splayed(t, c).1)
  {
    LowIsApart(t, c, rank);
    assert allocated(Nodes(t)) && allocated(PathNodes(c.up)) && allocated(Nodes(c.other));
    var gp := RestoreLink(curr, p, tt, rank, t, c);
    assert IsTree(curr.left, t.l) && IsTree(curr.right, t.r);
    if gp != null {
      next := SplayTwice(curr, p, gp, tt, rank, t, c);
    } else {
      next := null;
      Zig(curr, p, c.left, t.l, t.r, c.other);
    }
  }

  // ---- Insertion ----

  // One step down, with the pointer reversed.
  ghost function Deeper(left: bool, t: Tree, c: Path): (Tree, Path)
    requires t.Bin?
  {
    if left then (t.l, Step(true, t.n, t.r, c)) else (t.r, Step(false, t.n, t.l, c))
  }

  lemma {:induction false} DeeperKeeps(left: bool, t: Tree, c: Path, rank: Order)
    requires t.Bin? && Parted(t, c, rank)
    ensures var (t', c') := Deeper(left, t, c);
      && Parted(t', c', rank)
      && Line(t', c') == Line(t, c)
      && Nodes(t') + PathNodes(c') == Nodes(t) + PathNodes(c)
    ensures t.n !in Nodes(t.l) && t.n !in Nodes(t.r) && t.n !in PathNodes(c)
  {
    OrderedWithin(t.l, HoleLo(c, rank), rank(t.n.key), rank);
    OrderedWithin(t.r, rank(t.n.key), HoleHi(c, rank), rank);
    PathOutside(c, rank);
    var A, B := Inorder(t.l), Inorder(t.r);
    assert Before(c) + A + ([t.n] + B + After(c)) == Before(c) + (A + [t.n] + B) + After(c);
    assert (Before(c) + A + [t.n]) + B + After(c) == Before(c) + (A + [t.n] + B) + After(c);
  }

  method StepDown(curr: IndexNode, p: IndexNode?, left: bool, ghost rank: Order, ghost t: Tree, ghost c: Path)
    returns (next: IndexNode?)
    requires t.Bin? && IsTree(curr, t) && IsPath(p, c) && Parted(t, c, rank)
    modifies curr`left, curr`right
    ensures IsTree(next, Deeper(left, t, c).0) && IsPath(curr, Deeper(left, t, c).1)
  {
    DeeperKeeps(left, t, c, rank);
    if left {
      next := curr.left;
      curr.left := p;
    } else {
      next := curr.right;
      curr.right := p;
    }
  }

  // The key goes where the path ends, or is already there.
  ghost predicate Located(curr: IndexNode, key: PacketRecord, t: Tree, c: Path, tree: Tree, rank: Order) {
    && t.Bin? && t.n == curr && rank(curr.key) == rank(key) && Parted(t, c, rank)
    && if curr in Nodes(tree) then
         Nodes(t) + PathNodes(c) == Nodes(tree) && Line(t, c) == Inorder(tree)
       else
         && curr.key == key && t == Bin(Leaf, curr, Leaf)
         && PathNodes(c) == Nodes(tree) && Before(c) + After(c) == Inorder(tree)
  }

  // The search has reached the subtree t: everything else is on the path.
  ghost predicate Searching(key: PacketRecord, t: Tree, c: Path, tree: Tree, rank: Order) {
    && Parted(t, c, rank) && HoleLo(c, rank) < rank(key) < HoleHi(c, rank)
    && Nodes(t) + PathNodes(c) == Nodes(tree) && Line(t, c) == Inorder(tree)
  }

  lemma SearchGoesDown(key: PacketRecord, t: Tree, c: Path, tree: Tree, rank: Order)
    requires t.Bin? && Searching(key, t, c, tree, rank) && rank(key) != rank(t.n.key)
    ensures var (t', c') := Deeper(rank(key) < rank(t.n.key), t, c); Searching(key, t', c', tree, rank)
    ensures t.n in Nodes(tree)
  {
    DeeperKeeps(rank(key) < rank(t.n.key), t, c, rank);
  }

  lemma FoundIsLocated(key: PacketRecord, t: Tree, c: Path, tree: Tree, rank: Order)
    requires t.Bin? && Searching(key, t, c, tree, rank) && rank(key) == rank(t.n.key)
    ensures Located(t.n, key, t, c, tree, rank) && t.n in Nodes(tree)
  {
  }

  lemma NewIsLocated(key: PacketRecord, curr: IndexNode, c: Path, tree: Tree, rank: Order)
    requires Searching(key, Leaf, c, tree, rank) && curr.key == key && curr !in Nodes(tree)
    ensures Located(curr, key, Bin(Leaf, curr, Leaf), c, tree, rank)
  {
    assert Inorder(Leaf) == [] && Before(c) + [] == Before(c);
    assert Nodes(Leaf) == {};
    assert Ordered(Bin(Leaf, curr, Leaf), HoleLo(c, rank), HoleHi(c, rank), rank);
  }

  // Walks down to the key's place, reversing each pointer on the way, and makes a node there
  // if the key is new.
  method Descend(root: IndexNode?, key: PacketRecord, tt: KeyType, ghost rank: Order, ghost tree: Tree)
    returns (curr: IndexNode, p: IndexNode?, ghost t: Tree, ghost c: Path)
    requires IsTree(root, tree) && SearchTree(tree, rank) && Ranks(rank, tt)
    modifies Nodes(tree)`left, Nodes(tree)`right
    ensures Located(curr, key, t, c, tree, rank) && IsTree(curr, t) && IsPath(p, c)
    ensures curr in Nodes(tree) || (fresh(curr) && curr.kind == tt && curr.pkts == [] && curr.flows == [])
  {
    p, t, c := null, tree, Top;
    assert Before(Top) + Inorder(tree) + After(Top) == Inorder(tree);
    assert Searching(key, t, c, tree, rank);
    if root == null {
      curr := new IndexNode(key, tt);
      NewIsLocated(key, curr, c, tree, rank);
      t := Bin(Leaf, curr, Leaf);
      return;
    }
    curr := root;
    var found := false;
    while !found
      invariant t.Bin? && t.n == curr && IsTree(curr, t) && IsPath(p, c)
      invariant if found then Located(curr, key, t, c, tree, rank) else Searching(key, t, c, tree, rank)
      invariant curr in Nodes(tree) || (found && fresh(curr) && curr.kind == tt && curr.pkts == [] && curr.flows == [])
      decreases !found, t
    {
      assert allocated(Nodes(t)) && allocated(PathNodes(c));
      var cmp := Compare(key, curr.key, tt, rank);
      if cmp == 0 {
        FoundIsLocated(key, t, c, tree, rank);
        found := true;
      } else {
        SearchGoesDown(key, t, c, tree, rank);
        var next := StepDown(curr, p, cmp == -1, rank, t, c);
        p := curr;
        t, c := Deeper(cmp == -1, t, c).0, Deeper(cmp == -1, t, c).1;
        if next == null {
          assert allocated(PathNodes(c));
          curr := new IndexNode(key, tt);
          NewIsLocated(key, curr, c, tree, rank);
          t := Bin(Leaf, curr, Leaf);
          found := true;
        } else {
          curr := next;
        }
      }
    }
  }

  // Rotates the node to the root; the pointers above it are put back on the way.
  method SplayToRoot(curr: IndexNode, p: IndexNode?, tt: KeyType, ghost rank: Order, ghost t: Tree, ghost c: Path)
    returns (ghost top: Tree)
    requires t.Bin? && t.n == curr && IsTree(curr, t) && IsPath(p, c) && Parted(t, c, rank) && Ranks(rank, tt)
    modifies Nodes(t)`left, Nodes(t)`right, PathNodes(c)`left, PathNodes(c)`right
    ensures top.Bin? && top.n == curr && IsTree(curr, top) && SearchTree(top, rank)
    ensures Inorder(top) == Line(t, c) && Nodes(top) == Nodes(t) + PathNodes(c)
  {
    top := t;
    var next := p;
    ghost var rest := c;
    while next != null
      invariant top.Bin? && top.n == curr && IsTree(curr, top) && IsPath(next, rest) && Parted(top, rest, rank)
      invariant Nodes(top) + PathNodes(rest) == Nodes(t) + PathNodes(c) && Line(top, rest) == Line(t, c)
      decreases rest
    {
      SplayedKeepsOrder(top, rest, rank);
      SplayedKeepsNodes(top, rest);
      SplayedKeepsLine(top, rest);
      next := SplayStep(curr, next, tt, rank, top, rest);
      top, rest := Splayed(top, rest).0, Splayed(top, rest).1;
    }
    assert Line(top, Top) == [] + Inorder(top) + [] == Inorder(top);
    assert PathNodes(Top) == {};
  }

  // Where a tree's in-order sequence goes when `x` is inserted: one place, nothing else moves.
  ghost predicate InsertedAt(before: seq<IndexNode>, x: IndexNode, after: seq<IndexNode>, i: nat) {
    i <= |before| && after == before[..i] + [x] + before[i..]
  }

  lemma LocatedInserts(curr: IndexNode, key: PacketRecord, t: Tree, c: Path, tree: Tree, rank: Order)
    requires Located(curr, key, t, c, tree, rank)
    ensures Nodes(t) + PathNodes(c) == Nodes(tree) + {curr}
    ensures curr in Nodes(tree) ==> Line(t, c) == Inorder(tree)
    ensures curr !in Nodes(tree) ==> exists i :: InsertedAt(Inorder(tree), curr, Line(t, c), i)
  {
    if curr !in Nodes(tree) {
      assert Inorder(Leaf) == [] && Inorder(t) == [curr];
      assert InsertedAt(Inorder(tree), curr, Line(t, c), |Before(c)|);
    }
  }

  // The list handling of splay_tr_insert.
  method AppendToList(curr: IndexNode, key: PacketRecord, flow: IndexNode?, tt: KeyType)
    requires tt != FLOW ==> flow != null
    modifies curr`pkts, curr`flows
    ensures curr.pkts == old(curr.pkts) + (if tt == FLOW && key != curr.key then [key] else [])
    ensures curr.flows == old(curr.flows) + (if tt == FLOW then [] else [flow])
  {
    if tt == FLOW {
      if key != curr.key {
        curr.pkts := curr.pkts + [key];
      }
    } else {
      curr.flows := curr.flows + [flow];
    }
  }

  // splay_tr_insert. `key` is the packet being indexed; in sub-index trees `flow` is the flow
  // it starts. The node for the key becomes the root, with the packet or the flow at the end
  // of its list; a tree node with this key is reused, otherwise one new node is linked in.
  method SplayTrInsert(root: IndexNode?, key: PacketRecord, flow: IndexNode?, tt: KeyType,
                       ghost rank: Order, ghost tree: Tree, ghost nodes: set<IndexNode>)
    returns (curr: IndexNode, ghost top: Tree)
    requires IsTree(root, tree) && SearchTree(tree, rank) && Ranks(rank, tt) && nodes == Nodes(tree)
    requires tt != FLOW ==> flow != null
    modifies nodes`left, nodes`right, nodes`pkts, nodes`flows
    ensures top.Bin? && top.n == curr && IsTree(curr, top) && SearchTree(top, rank)
    ensures rank(curr.key) == rank(key) && Nodes(top) == nodes + {curr}
    ensures curr in nodes ==> Inorder(top) == Inorder(tree)
    ensures curr !in nodes ==>
              fresh(curr) && curr.key == key && curr.kind == tt &&
                exists i :: InsertedAt(Inorder(tree), curr, Inorder(top), i)
    ensures forall n <- nodes :: n != curr ==> n.pkts == old(n.pkts) && n.flows == old(n.flows)
    ensures curr.pkts == (if curr in nodes then old(curr.pkts) else []) +
                         (if tt == FLOW && key != curr.key then [key] else [])
    ensures curr.flows == (if curr in nodes then old(curr.flows) else []) + (if tt == FLOW then [] else [flow])
  {
    var p: IndexNode?;
    ghost var t, c;
    curr, p, t, c := Descend(root, key, tt, rank, tree);
    LocatedInserts(curr, key, t, c, tree, rank);
    assert allocated(Nodes(t)) && allocated(PathNodes(c));
    AppendToList(curr, key, flow, tt);
    top := SplayToRoot(curr, p, tt, rank, t, c);
  }
}

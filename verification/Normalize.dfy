// collapse and normalize on the nodes themselves (core/apps/capture_node_api/lib/search/node.py).

module Normalize {
  import opened Sequences
  import opened QueryTrees
  import opened Query
  import opened Collapse

  // ---- The first loop of collapse ----

  // The subtrees still to come, then those put back.
  ghost predicate Halfway(n: Node, rest: seq<Tree>, done: seq<Tree>)
    reads n, NodesAll(rest), NodesAll(done)
  {
    && n.cls != ATOM && n.subtrees == Roots(rest) + Roots(done) && AreTrees(rest, n) && AreTrees(done, n)
    && Apart(rest) && Apart(done) && NodesAll(rest) !! NodesAll(done) && n !in NodesAll(rest) + NodesAll(done)
  }

  // Takes the first of the subtrees out.
  method Detach(n: Node, sub: Node, ghost rest: seq<Tree>, ghost done: seq<Tree>)
    requires Halfway(n, rest, done) && rest != [] && sub == rest[0].n
    modifies n`subtrees, sub`parent
    ensures Halfway(n, rest[1..], done) && Whole(rest[0]) && Nodes(rest[0]) !! NodesAll(rest[1..]) + NodesAll(done)
    ensures n !in Nodes(rest[0])
  {
    RootIn(rest, 0);
    ghost var post := Roots(rest[1..]) + Roots(done);
    FirstRoot(rest, done, post);
    assert allocated(NodesAll(rest[1..])) && allocated(NodesAll(done)) && allocated(Nodes(rest[0]));
    var ok := n.Remove(sub, [], post);
  }

  lemma FirstRoot(rest: seq<Tree>, done: seq<Tree>, post: seq<Node>)
    requires rest != [] && post == Roots(rest[1..]) + Roots(done)
    ensures Roots(rest) + Roots(done) == [] + [rest[0].n] + post && [] + post == post
  {
    assert Roots(rest) == [rest[0].n] + Roots(rest[1..]);
  }

  // Appends one tree.
  method PutBack(n: Node, m: Node, ghost r: Tree, ghost rest: seq<Tree>, ghost done: seq<Tree>)
    requires Halfway(n, rest, done) && r.n == m && NoneTwice(r) && IsTree(r) && n !in Nodes(r)
    requires Nodes(r) !! NodesAll(rest) + NodesAll(done)
    modifies n`subtrees, m`parent
    ensures Halfway(n, rest, done + [r])
  {
    OneTree(r, n);
    NodesOfTwo(done, [r]);
    RootIn([r], 0);
    assert allocated(NodesAll(rest)) && allocated(NodesAll(done)) && allocated(Nodes(r));
    var ok := n.Append(m);
    TreesOfTwo(done, [r], n);
    OneTree(r, n);
    assert Roots(done + [r]) == Roots(done) + [m];
  }

  // The first i of the subtrees kids have gone over from m to n.
  ghost predicate Absorbing(n: Node, m: Node, kids: seq<Tree>, i: nat, rest: seq<Tree>, done: seq<Tree>)
    requires i <= |kids|
    reads n, NodesAll(rest), NodesAll(done + kids[..i]), NodesAll(kids[i..])
  {
    exists d :: d == done + kids[..i] && Halfway(n, rest, d) && AreTrees(kids[i..], m) && Apart(kids[i..])
      && n !in NodesAll(kids[i..]) && NodesAll(kids[i..]) !! NodesAll(rest) + NodesAll(d)
  }

  lemma AbsorbedAll(n: Node, m: Node, kids: seq<Tree>, rest: seq<Tree>, done: seq<Tree>)
    requires Absorbing(n, m, kids, |kids|, rest, done)
    ensures Halfway(n, rest, done + kids)
  {
    assert kids[..|kids|] == kids;
  }

  lemma NoneAbsorbed(n: Node, m: Node, kids: seq<Tree>, rest: seq<Tree>, done: seq<Tree>)
    requires Halfway(n, rest, done) && AreTrees(kids, m) && Apart(kids) && n !in NodesAll(kids)
    requires NodesAll(kids) !! NodesAll(rest) + NodesAll(done)
    ensures Absorbing(n, m, kids, 0, rest, done)
  {
    assert kids[0..] == kids && done + kids[..0] == done;
  }

  // Appends the subtrees of a tree of the same kind.
  method Absorb(n: Node, m: Node, ghost r: Tree, ghost rest: seq<Tree>, ghost done: seq<Tree>)
    requires Halfway(n, rest, done) && r.n == m && r.Op? && NoneTwice(r) && IsTree(r) && n !in Nodes(r)
    requires Nodes(r) !! NodesAll(rest) + NodesAll(done)
    modifies n`subtrees, NodesAll(r.kids)`parent
    ensures Halfway(n, rest, done + r.kids)
  {
    var subs := m.subtrees;
    ghost var kids := r.kids;
    NoneAbsorbed(n, m, kids, rest, done);
    for i := 0 to |subs|
      invariant subs == Roots(kids) && Absorbing(n, m, kids, i, rest, done)
    {
      RootIn(kids, i);
      AbsorbOne(n, subs[i], m, kids, i, rest, done);
    }
    AbsorbedAll(n, m, kids, rest, done);
  }

  method AbsorbOne(n: Node, sub: Node, ghost m: Node, ghost kids: seq<Tree>, ghost i: nat, ghost rest: seq<Tree>,
                   ghost done: seq<Tree>)
    requires i < |kids| && kids[i].n == sub && Absorbing(n, m, kids, i, rest, done)
    modifies n`subtrees, sub`parent
    ensures Absorbing(n, m, kids, i + 1, rest, done)
  {
    ghost var left, d, kid := kids[i..], done + kids[..i], kids[i];
    assert left[0] == kid && left[1..] == kids[i + 1..] && d + [kid] == done + kids[..i + 1];
    RootIn(left, 0);
    OneTree(kid, m);
    NodesOfTwo(d, [kid]);
    assert allocated(NodesAll(left[1..]));
    PutBack(n, sub, kid, rest, d);
    assert Halfway(n, rest, d + [kid]);
  }

  // ---- The second part of collapse: an OR below an AND ----

  ghost predicate Emptying(or: Node, kids: seq<Tree>, i: nat)
    requires i <= |kids|
    reads or, NodesAll(kids[i..]), NodesAll(kids[..i])
  {
    exists d :: d == kids[..i] && Halfway(or, kids[i..], []) && AreTrees(d, null) && Apart(d) &&
                NodesAll(d) !! NodesAll(kids[i..])
      && or !in NodesAll(d)
  }

  method TakeOne(or: Node, sub: Node, ghost kids: seq<Tree>, ghost i: nat)
    requires i < |kids| && sub == kids[i].n && Emptying(or, kids, i)
    modifies or`subtrees, sub`parent
    ensures Emptying(or, kids, i + 1)
  {
    ghost var left, d := kids[i..], kids[..i];
    assert left[0] == kids[i] && left[1..] == kids[i + 1..] && d + [kids[i]] == kids[..i + 1];
    RootIn(left, 0);
    OneTree(kids[i], null);
    NodesOfTwo(d, [kids[i]]);
    assert allocated(NodesAll(d));
    Detach(or, sub, left, []);
    TreesOfTwo(d, [kids[i]], null);
    OneTree(kids[i], null);
    assert Halfway(or, kids[i + 1..], []);
  }

  // Takes all subtrees from the OR.
  method TakeAll(or: Node, ghost t: Tree) returns (subs: seq<Node>)
    requires t.n == or && t.Op? && NoneTwice(t) && IsTree(t)
    modifies or`subtrees, NodesAll(t.kids)`parent
    ensures subs == Roots(t.kids) && or.subtrees == [] && AreTrees(t.kids, null) && Apart(t.kids)
  {
    subs := or.subtrees;
    ghost var kids := t.kids;
    assert kids[0..] == kids && kids[..0] == [] && Roots(kids) + Roots([]) == Roots(kids);
    assert Halfway(or, kids[0..], []);
    for i := 0 to |subs|
      invariant subs == Roots(kids) && Emptying(or, kids, i)
    {
      RootIn(kids, i);
      TakeOne(or, subs[i], kids, i);
    }
    assert kids[|kids|..] == [] && kids[..|kids|] == kids;
  }

  // The AND, whole, and the alternatives that are left, each by itself.
  ghost predicate Beside(t: Tree, left: seq<Tree>)
    reads Nodes(t), NodesAll(left)
  {
    exists l :: l == left && AreTrees(l, null) && Whole(t)
  }

  // The OR so far, u, has an AND for each of the first i alternatives; t is the AND without the
  // OR.
  ghost predicate Spreading(t: Tree, os: seq<Tree>, i: nat, u: Tree)
    requires i <= |os| && t.Op? && u.Op?
    reads Nodes(t), NodesAll(os[i..]), Nodes(u)
  {
    exists left :: left == os[i..] && Beside(t, left) && Whole(u) && Apart(left)
      && u.kind == OR && Spread(t.kids, os[..i], u.kids) && SpreadAsMade(t, os, i, u)
      && Nodes(u) !! Nodes(t) && Nodes(u) !! NodesAll(left) && Nodes(t) !! NodesAll(left)
  }

  // The new ANDs are as made if what they are made from is.
  predicate SpreadAsMade(t: Tree, os: seq<Tree>, i: nat, u: Tree)
    requires i <= |os| && u.Op?
  {
    AsMade(t) && AllAsMade(os) ==> AllAsMade(u.kids)
  }

  lemma SpreadMoreAsMade(t: Tree, os: seq<Tree>, i: nat, u: Tree, q: Tree, u1: Tree)
    requires i < |os| && u.Op? && u1.Op? && u1.kids == u.kids + [q] && SpreadAsMade(t, os, i, u)
    requires AsMade(t) && AsMade(os[i]) ==> AsMade(q)
    ensures SpreadAsMade(t, os, i + 1, u1)
  {
    MadeWith(u.kids, q);
    if AllAsMade(os) {
      MadeAt(os, i);
    }
  }

  lemma NextAlternative(os: seq<Tree>, i: nat)
    requires i < |os| && AreTrees(os[i..], null) && Apart(os[i..])
    ensures Whole(os[i]) && Nodes(os[i]) <= NodesAll(os[i..]) && AreTrees(os[i + 1..], null) && Apart(os[i + 1..])
    ensures NodesAll(os[i + 1..]) <= NodesAll(os[i..]) && Nodes(os[i]) !! NodesAll(os[i + 1..])
    ensures os[..i] + [os[i]] == os[..i + 1]
  {
    assert os[i..][0] == os[i] && os[i..][1..] == os[i + 1..];
  }

  lemma Extended(rest: seq<Tree>, kids: seq<Tree>, n: Node, o: Tree)
    requires AlikeAll(rest, kids)
    ensures Alternative(rest, o, Op(n, AND, kids + [o]))
  {
    assert (kids + [o])[..|rest|] == kids;
  }

  lemma {:induction false} AlikeSelf(ts: seq<Tree>)
    ensures AlikeAll(ts, ts)
  {
    if ts != [] {
      AlikeOne(ts[0]);
      AlikeSelf(ts[1..]);
    }
  }

  lemma {:induction false} AlikeOne(t: Tree)
    ensures Alike(t, t)
  {
    if t.Op? {
      AlikeSelf(t.kids);
    }
  }

  // A copy of the AND, with an alternative.
  method CopyWith(n: Node, written: bool, alt: Node, ghost t: Tree, ghost o: Tree) returns (newAnd: Node, ghost q: Tree)
    requires t.Op? && t.kind == AND && t.n == n && IsTree(t) && o.n == alt && Whole(o) && (written ==> AsMade(t))
    modifies alt`parent
    ensures q.n == newAnd && Whole(q) && Alternative(t.kids, o, q) && (AsMade(o) ==> AsMade(q))
    ensures newAnd in Nodes(q) && fresh(newAnd) && forall x <- Nodes(q) :: x in Nodes(o) || fresh(x)
  {
    ghost var c;
    assert allocated(Nodes(o));
    newAnd, c := Copy(n, written, t);
    q := Adopt(newAnd, alt, c, o);
    MadeWith(c.kids, o);
    Extended(t.kids, c.kids, newAnd, o);
  }

  // The copy goes below the OR.
  method CopyOnto(n: Node, written: bool, or: Node, alt: Node, ghost t: Tree, ghost o: Tree, ghost u: Tree)
    returns (ghost u1: Tree, ghost q: Tree)
    requires t.Op? && t.kind == AND && t.n == n && IsTree(t) && o.n == alt && Whole(o) && (written ==> AsMade(t))
    requires u.Op? && u.n == or && Whole(u) && Nodes(u) !! Nodes(t) && Nodes(u) !! Nodes(o) && Nodes(t) !! Nodes(o)
    modifies or`subtrees, alt`parent
    ensures Alternative(t.kids, o, q) && (AsMade(o) ==> AsMade(q))
    ensures u1 == Op(or, u.kind, u.kids + [q]) && Whole(u1)
    ensures forall x <- Nodes(u1) :: x in Nodes(u) + Nodes(o) || fresh(x)
  {
    assert allocated(Nodes(u)) && allocated(Nodes(o));
    var newAnd;
    newAnd, q := CopyWith(n, written, alt, t, o);
    u1 := Adopt(or, newAnd, u, q);
  }

  // One more AND.
  method CopyFor(n: Node, written: bool, or: Node, alt: Node, ghost t: Tree, ghost os: seq<Tree>, ghost i: nat,
                 ghost u: Tree)
    returns (ghost u1: Tree)
    requires written ==> AsMade(t)
    requires t.Op? && t.kind == AND && u.Op? && t.n == n && u.n == or && i < |os| && os[i].n == alt &&
             Spreading(t, os, i, u)
    modifies or`subtrees, alt`parent
    ensures u1.Op? && u1.n == or && Spreading(t, os, i + 1, u1)
    ensures forall x <- Nodes(u1) :: x in Nodes(u) + Nodes(os[i]) || fresh(x)
  {
    NextAlternative(os, i);
    assert allocated(Nodes(t)) && allocated(NodesAll(os[i + 1..]));
    ghost var q;
    ghost var beside := Beside(t, os[i + 1..]);
    assert beside;
    u1, q := CopyOnto(n, written, or, alt, t, os[i], u);
    beside := Beside(t, os[i + 1..]);
    assert beside;
    SpreadOneMore(t.kids, os[..i], u.kids, os[i], q);
    SpreadMoreAsMade(t, os, i, u, q, u1);
    SpreadSoFar(t, os, i + 1, u1);
  }

  lemma SpreadSoFar(t: Tree, os: seq<Tree>, i: nat, u: Tree)
    requires i <= |os| && t.Op? && u.Op? && Beside(t, os[i..]) && Whole(u) && Apart(os[i..])
    requires u.kind == OR && Spread(t.kids, os[..i], u.kids) && SpreadAsMade(t, os, i, u)
    requires Nodes(u) !! Nodes(t) && Nodes(u) !! NodesAll(os[i..]) && Nodes(t) !! NodesAll(os[i..])
    ensures Spreading(t, os, i, u)
  {
  }

  // The AND itself takes the last alternative.
  method UseFor(n: Node, or: Node, alt: Node, ghost t: Tree, ghost os: seq<Tree>, ghost u: Tree)
    returns (ghost u1: Tree)
    requires t.Op? && t.kind == AND && u.Op? && t.n == n && u.n == or && os != [] && os[|os| - 1].n == alt
    requires Spreading(t, os, |os| - 1, u)
    modifies n`subtrees, n`parent, or`subtrees, alt`parent
    ensures u1.Op? && u1.n == or && u1.kind == OR && Whole(u1) && Spread(t.kids, os, u1.kids)
    ensures SpreadAsMade(t, os, |os|, u1)
    ensures Nodes(u1) == Nodes(u) + Nodes(t) + Nodes(os[|os| - 1])
  {
    ghost var last := |os| - 1;
    NextAlternative(os, last);
    assert allocated(Nodes(u));
    ghost var t1 := Adopt(n, alt, t, os[last]);
    AlikeSelf(t.kids);
    Extended(t.kids, t.kids, n, os[last]);
    SpreadOneMore(t.kids, os[..last], u.kids, os[last], t1);
    assert os[..last + 1] == os;
    u1 := Adopt(or, n, u, t1);
    MadeWith(t.kids, os[last]);
    SpreadMoreAsMade(t, os, last, u, t1, u1);
  }

  lemma StartSpreading(or: Node, t: Tree, os: seq<Tree>)
    requires t.Op? && Whole(t) && or.kind == OR && or.cls != ATOM && or.parent == null && or.subtrees == []
    requires AreTrees(os, null) && Apart(os) && Nodes(t) !! NodesAll(os) && or !in Nodes(t) + NodesAll(os)
    ensures Spreading(t, os, 0, Op(or, OR, []))
  {
    assert os[0..] == os && os[..0] == [] && Roots([]) == [];
    var u := Op(or, OR, []);
    assert Nodes(u) == {or} && Whole(u);
    assert Spread(t.kids, os[..0], u.kids);
    assert Beside(t, os[0..]) && Apart(os[0..]);
  }

  method Distribute(n: Node, written: bool, or: Node, alts: seq<Node>, ghost t: Tree, ghost os: seq<Tree>)
    returns (ghost u: Tree)
    requires written ==> AsMade(t)
    requires t.Op? && t.kind == AND && t.n == n && Whole(t) && os != [] && alts == Roots(os)
    requires or.kind == OR && or.cls != ATOM && or.parent == null && or.subtrees == []
    requires AreTrees(os, null) && Apart(os) && Nodes(t) !! NodesAll(os) && or !in Nodes(t) + NodesAll(os)
    modifies n`subtrees, n`parent, or`subtrees, NodesAll(os)`parent
    ensures u.Op? && u.n == or && u.kind == OR && Whole(u) && Spread(t.kids, os, u.kids) && SpreadAsMade(t, os, |os|, u)
    ensures forall x <- Nodes(u) :: x in Nodes(t) + NodesAll(os) + {or} || fresh(x)
  {
    u := Op(or, OR, []);
    ghost var may := Nodes(t) + NodesAll(os) + {or};
    StartSpreading(or, t, os);
    for i := 0 to |alts| - 1
      invariant u.Op? && u.n == or && Spreading(t, os, i, u)
      invariant forall x <- Nodes(u) :: x in may || fresh(x)
    {
      RootIn(os, i);
      u := CopyFor(n, written, or, alts[i], t, os, i, u);
    }
    RootIn(os, |os| - 1);
    u := UseFor(n, or, alts[|alts| - 1], t, os, u);
  }

  // The subtrees pre and post of an AND, around another that is o.
  ghost predicate Around(n: Node, pre: seq<Tree>, o: Tree, post: seq<Tree>)
    reads NodesAll(pre), NodesAll(post), Nodes(o)`kind, Nodes(o)`inverted, Nodes(o)`subtrees, (Nodes(o) - {o.n})`parent
  {
    && AreTrees(pre, n) && AreTrees(post, n) && IsTree(o) && Apart(pre) && Apart(post) && NoneTwice(o)
    && NodesAll(pre) !! NodesAll(post) && NodesAll(pre) + NodesAll(post) !! Nodes(o) && o.n in Nodes(o)
    && n !in NodesAll(pre) + NodesAll(post) + Nodes(o)
  }

  lemma PartedAt(t: Tree, j: nat)
    requires t.Op? && Whole(t) && j < |t.kids|
    ensures var pre, o, post := t.kids[..j], t.kids[j], t.kids[j + 1..];
      && Around(t.n, pre, o, post) && Roots(t.kids) == Roots(pre) + [o.n] + Roots(post) && o.n !in Roots(pre)
      && Nodes(t) == {t.n} + NodesAll(pre) + NodesAll(post) + Nodes(o)
  {
    var pre, o, post := t.kids[..j], t.kids[j], t.kids[j + 1..];
    assert t.kids == pre + ([o] + post);
    NodesOfTwo(pre, [o] + post);
    NodesOfTwo([o], post);
    TreesOfTwo(pre, [o] + post, t.n);
    TreesOfTwo([o], post, t.n);
    OneTree(o, t.n);
    RootIn([o], 0);
    RootsIn(pre);
    RootsOfThree(pre, o, post);
  }

  lemma JoinedAround(n: Node, kind: Kind, pre: seq<Tree>, o: Tree, post: seq<Tree>)
    requires Around(n, pre, o, post) && n.subtrees == Roots(pre) + Roots(post)
    requires n.kind == kind && kind != ATOM && n.cls != ATOM && n.parent == null
    ensures var rest := Op(n, kind, pre + post);
      Whole(rest) && Nodes(rest) == {n} + NodesAll(pre) + NodesAll(post)
  {
    NodesOfTwo(pre, post);
    TreesOfTwo(pre, post, n);
    RootsOfThree(pre, o, post);
  }

  // Takes the OR at place j out of the AND.
  method TakeOut(n: Node, or: Node, ghost t: Tree, ghost j: nat) returns (ghost rest: Tree)
    requires t.Op? && t.n == n && Whole(t) && j < |t.kids| && or == t.kids[j].n
    modifies n`subtrees, or`parent
    ensures rest == Op(n, t.kind, t.kids[..j] + t.kids[j + 1..]) && Whole(rest) && Whole(t.kids[j])
    ensures Nodes(rest) !! Nodes(t.kids[j]) && Nodes(rest) + Nodes(t.kids[j]) == Nodes(t)
  {
    ghost var pre, o, post := t.kids[..j], t.kids[j], t.kids[j + 1..];
    rest := Op(n, t.kind, pre + post);
    PartedAt(t, j);
    assert allocated(NodesAll(pre)) && allocated(NodesAll(post)) && allocated(Nodes(o));
    var ok := n.Remove(or, Roots(pre), Roots(post));
    JoinedAround(n, t.kind, pre, o, post);
  }

  lemma RootsOfThree(pre: seq<Tree>, o: Tree, post: seq<Tree>)
    ensures Roots(pre + ([o] + post)) == Roots(pre) + [o.n] + Roots(post) &&
            Roots(pre + post) == Roots(pre) + Roots(post)
  {
  }

  // The whole second part: the OR becomes the root.
  method Swap(n: Node, written: bool, or: Node, ghost t: Tree, ghost j: nat) returns (ghost u: Tree)
    requires written ==> AsMade(t)
    requires t.Op? && t.n == n && t.kind == AND && Whole(t) && j < |t.kids| && or == t.kids[j].n
    requires t.kids[j].Op? && t.kids[j].kind == OR && t.kids[j].kids != []
    modifies Nodes(t)
    ensures u.Op? && u.n == or && u.kind == OR && Whole(u) &&
            Spread(t.kids[..j] + t.kids[j + 1..], t.kids[j].kids, u.kids)
    ensures AsMade(t) ==> AsMade(u)
    ensures forall x <- Nodes(u) :: x in Nodes(t) || fresh(x)
  {
    ghost var o := t.kids[j];
    MadeWithout(t, j);
    RootIn(t.kids, j);
    ghost var rest := TakeOut(n, or, t, j);
    assert allocated(Nodes(rest));
    var alts := TakeAll(or, o);
    u := Distribute(n, written, or, alts, rest, o.kids);
  }

  lemma MadeWithout(t: Tree, j: nat)
    requires t.Op? && j < |t.kids|
    ensures AsMade(t) ==> AsMade(t.kids[j]) && AsMade(Op(t.n, t.kind, t.kids[..j] + t.kids[j + 1..]))
  {
    assert t.kids == t.kids[..j] + ([t.kids[j]] + t.kids[j + 1..]);
    FormsOfTwo(t.kids[..j], [t.kids[j]] + t.kids[j + 1..]);
    FormsOfTwo([t.kids[j]], t.kids[j + 1..]);
    FormsOfTwo(t.kids[..j], t.kids[j + 1..]);
    if AsMade(t) {
      MadeAt(t.kids, j);
    }
  }

  // The first of the subtrees that is an OR.
  method FirstOr(n: Node, ghost t: Tree) returns (j: nat)
    requires t.Op? && t.n == n && IsTree(t) && Merged(AND, t.kids)
    ensures j <= |t.kids| && (forall i :: 0 <= i < j ==> t.kids[i].Leaf?) && (j < |t.kids| ==> FlatOr(t.kids[j]))
  {
    j := 0;
    assert allocated(Nodes(t));
    while j < |n.subtrees|
      invariant j <= |t.kids| && IsTree(t) && forall i :: 0 <= i < j ==> t.kids[i].Leaf?
    {
      KidIsTree(t.kids, n, j);
      if n.subtrees[j].kind == OR {
        return;
      }
      j := j + 1;
    }
  }

  // ---- collapse ----

  // What collapse promises.
  ghost predicate CollapsesTo(t: Tree, r: Tree) {
    Flat(r) && SameMeaning(t, r) && SameClauses(t, r) && Weight(r) <= Weight(t) && (AsMade(t) ==> AsMade(r))
  }

  // collapse. The weight grows less with every call, so it ends.
  method CollapseNode(n: Node, written: bool, ghost t: Tree) returns (m: Node, ghost r: Tree)
    requires written ==> AsMade(t)
    requires t.n == n && Whole(t) && Full(t) && NoNots(t)
    modifies Nodes(t)
    ensures r.n == m && Whole(r) && CollapsesTo(t, r)
    ensures forall x <- Nodes(r) :: x in Nodes(t) || fresh(x)
    decreases Weight(t), 2
  {
    if n.cls == ATOM {
      return n, t;
    }
    ghost var t1 := MergeKids(n, written, t);
    assert allocated(Nodes(t1));
    MergedMeans(t, t1);
    m, r := n, t1;
    if n.kind == AND {
      var j := FirstOr(n, t1);
      if j < |n.subtrees| {
        m, r := CollapseSwapped(n, written, n.subtrees[j], t, t1, j);
      }
    }
  }

  lemma MergedMeans(t: Tree, t1: Tree)
    requires t.Op? && t1.Op? && (t.kind == AND || t.kind == OR) && t1.kind == t.kind &&
             Collected(t.kind, t.kids, t1.kids)
    requires t1.n == t.n
    ensures SameMeaning(t, t1) && SameClauses(t, t1) && Weight(t1) <= Weight(t) && (AsMade(t) ==> AsMade(t1))
  {
    forall env: Env ensures Eval(t, env) == Eval(t1, env) {
      assert Joined(t.kind, t1.kids, env) == Joined(t.kind, t.kids, env);
    }
  }

  method CollapseSwapped(n: Node, written: bool, or: Node, ghost t: Tree, ghost t1: Tree, ghost j: nat)
    returns (m: Node, ghost r: Tree)
    requires written ==> AsMade(t)
    requires t.Op? && t.n == n && t.kind == AND && t1.Op? && t1.n == n && t1.kind == AND && Whole(t1) &&
             Collected(AND, t.kids, t1.kids)
    requires j < |t1.kids| && or == t1.kids[j].n && AllLeaves(t1.kids[..j]) && FlatOr(t1.kids[j])
    modifies Nodes(t1)
    ensures r.n == m && Whole(r) && CollapsesTo(t, r)
    ensures forall x <- Nodes(r) :: x in Nodes(t1) || fresh(x)
    decreases Weight(t), 0
  {
    ghost var u := Swap(n, written, or, t1, j);
    CollectedIsSimple(AND, t.kids, t1.kids);
    Distributes(t1, j, u);
    DistributesTerms(t1, j, u);
    m, r := CollapseNode(or, written, u);
    ThroughBoth(t, t1, u, r);
  }

  lemma ThroughBoth(t: Tree, t1: Tree, u: Tree, r: Tree)
    requires t.Op? && t.kind == AND && t1.Op? && t1.kind == AND && t1.n == t.n && Collected(AND, t.kids, t1.kids)
    requires SameMeaning(t1, u) && SameClauses(t1, u) && Weight(u) < Weight(t1) && (AsMade(t1) ==> AsMade(u))
    requires CollapsesTo(u, r)
    ensures CollapsesTo(t, r)
  {
    MergedMeans(t, t1);
    forall env: Env ensures Eval(t, env) == Eval(r, env) {
      assert Eval(t, env) == Eval(t1, env) == Eval(u, env) == Eval(r, env);
    }
  }

  lemma {:induction false} FlatsAreSimple(ts: seq<Tree>)
    requires forall i :: 0 <= i < |ts| ==> Flat(ts[i])
    ensures FullAll(ts) && NoNotsAll(ts)
  {
    if ts != [] {
      FlatIsSimple(ts[0]);
      FlatsAreSimple(ts[1..]);
    }
  }

  lemma CollectedIsSimple(kind: Kind, before: seq<Tree>, done: seq<Tree>)
    requires Collected(kind, before, done)
    ensures FullAll(done) && NoNotsAll(done)
  {
    FlatsAreSimple(done);
  }

  // The first loop of collapse.
  method MergeKids(n: Node, written: bool, ghost t: Tree) returns (ghost t1: Tree)
    requires written ==> AsMade(t)
    requires t.n == n && t.Op? && Whole(t) && Full(t) && NoNots(t)
    modifies Nodes(t)
    ensures t1.Op? && t1.n == n && t1.kind == t.kind && Whole(t1) && Collected(t.kind, t.kids, t1.kids) &&
            n.kind == t.kind
    ensures forall x <- Nodes(t1) :: x in Nodes(t) || fresh(x)
    decreases Weight(t), 1
  {
    var subs := n.subtrees;
    ghost var done := [];
    StartMerging(n, t);
    for k := 0 to |subs|
      invariant subs == Roots(t.kids) && n.parent == null && n.kind == t.kind && Merging(n, t, k, done)
      invariant forall x <- NodesAll(done) :: x in NodesAll(t.kids) || fresh(x)
    {
      RootIn(t.kids, k);
      KidIsLighter(t, k);
      done := MergeKid(n, written, subs[k], t, k, done);
    }
    t1 := Op(n, t.kind, done);
    EndMerging(n, t, done);
  }

  ghost predicate Merging(n: Node, t: Tree, k: nat, done: seq<Tree>)
    requires t.Op? && k <= |t.kids|
    reads n, NodesAll(t.kids[k..]), NodesAll(done)
  {
    exists d :: d == done && Halfway(n, t.kids[k..], d) && Collected(t.kind, t.kids[..k], d)
  }

  lemma StartMerging(n: Node, t: Tree)
    requires t.n == n && t.Op? && Whole(t)
    ensures Merging(n, t, 0, [])
  {
    assert t.kids[0..] == t.kids && t.kids[..0] == [] && Roots(t.kids) + Roots([]) == Roots(t.kids);
    assert Halfway(n, t.kids[0..], []);
  }

  lemma EndMerging(n: Node, t: Tree, done: seq<Tree>)
    requires t.n == n && t.Op? && t.kind != ATOM && n.kind == t.kind && n.parent == null &&
             Merging(n, t, |t.kids|, done)
    ensures Whole(Op(n, t.kind, done)) && Collected(t.kind, t.kids, done)
  {
    assert t.kids[|t.kids|..] == [] && t.kids[..|t.kids|] == t.kids && Roots([]) + Roots(done) == Roots(done);
  }

  // One round of that loop.
  method MergeKid(n: Node, written: bool, sub: Node, ghost t: Tree, ghost k: nat, ghost done: seq<Tree>)
    returns (ghost done1: seq<Tree>)
    requires written ==> AsMade(t)
    requires t.Op? && (t.kind == AND || t.kind == OR) && n.kind == t.kind && k < |t.kids| && sub == t.kids[k].n
    requires Full(t) && NoNots(t) && Merging(n, t, k, done)
    modifies Nodes(t.kids[k]), n`subtrees
    ensures Merging(n, t, k + 1, done1)
    ensures forall x <- NodesAll(done1) :: x in NodesAll(done) + Nodes(t.kids[k]) || fresh(x)
    decreases Weight(t), 0
  {
    ghost var kid, rest := t.kids[k], t.kids[k..];
    assert rest[0] == kid && rest[1..] == t.kids[k + 1..] && t.kids[..k] + [kid] == t.kids[..k + 1];
    FullAt(t.kids, k);
    NoNotsAt(t.kids, k);
    KidIsLighter(t, k);
    Detach(n, sub, rest, done);
    if written {
      MadeAt(t.kids, k);
    }
    ghost var r := CollapseKid(n, written, sub, kid, rest[1..], done);
    CollectMore(t.kind, t.kids[..k], done, kid, r);
    done1 := done + Parts(t.kind, r);
    NodesOfTwo(done, Parts(t.kind, r));
    OneTree(r, n);
  }

  lemma {:induction false} NoNotsAt(ts: seq<Tree>, i: nat)
    requires NoNotsAll(ts) && i < |ts|
    ensures NoNots(ts[i])
  {
    if i > 0 {
      NoNotsAt(ts[1..], i - 1);
    }
  }

  // Collapses a subtree and puts it, or its own subtrees, back.
  method CollapseKid(n: Node, written: bool, sub: Node, ghost kid: Tree, ghost rest: seq<Tree>, ghost done: seq<Tree>)
    returns (ghost r: Tree)
    requires written ==> AsMade(kid)
    requires (n.kind == AND || n.kind == OR) && kid.n == sub && Whole(kid) && Full(kid) && NoNots(kid)
    requires Halfway(n, rest, done) && Nodes(kid) !! NodesAll(rest) + NodesAll(done) && n !in Nodes(kid)
    modifies Nodes(kid), n`subtrees
    ensures CollapsesTo(kid, r) && Halfway(n, rest, done + Parts(n.kind, r))
    ensures forall x <- Nodes(r) :: x in Nodes(kid) || fresh(x)
    decreases Weight(kid), 3
  {
    assert allocated(NodesAll(rest)) && allocated(NodesAll(done));
    var m;
    m, r := CollapseNode(sub, written, kid);
    assert Halfway(n, rest, done);
    if m.kind == n.kind {
      Absorb(n, m, r, rest, done);
    } else {
      PutBack(n, m, r, rest, done);
    }
  }

  // ---- normalize ----

  // The normal form: an OR of ANDs of atoms.
  predicate Normal(t: Tree) { t.Op? && t.kind == OR && t.kids != [] &&
                             forall i :: 0 <= i < |t.kids| ==> Clause(t.kids[i]) }

  // Clauses that are not bare, and those that are, as they are once they have an AND of their own.
  function NotBare(s: seq<Term>): seq<Term> { if s == [] then [] else IfNotBare(s[0]) + NotBare(s[1..]) }

  function Bare(s: seq<Term>): seq<Term> { if s == [] then [] else IfBare(s[0]) + Bare(s[1..]) }

  function IfNotBare(x: Term): seq<Term> { if x.bare then [] else [x] }

  function IfBare(x: Term): seq<Term> { if x.bare then [x.(bare := false)] else [] }

  // Normalize puts those last.
  function BareLast(s: seq<Term>): seq<Term> { NotBare(s) + Bare(s) }

  lemma {:induction false} BareOfTwo(a: seq<Term>, b: seq<Term>)
    ensures NotBare(a + b) == NotBare(a) + NotBare(b) && Bare(a + b) == Bare(a) + Bare(b)
  {
    if a == [] {
      assert a + b == b;
    } else {
      BareOfTwo(a[1..], b);
      assert (a + b)[1..] == a[1..] + b;
      Associates(IfNotBare(a[0]), NotBare(a[1..]), NotBare(b));
      Associates(IfBare(a[0]), Bare(a[1..]), Bare(b));
    }
  }

  lemma {:induction false} NothingBare(s: seq<Term>)
    requires NoneBare(s)
    ensures NotBare(s) == s && Bare(s) == []
  {
    if s != [] {
      NothingBare(s[1..]);
    }
  }

  ghost predicate Wrapped(before: seq<Tree>, stayed: seq<Tree>, moved: seq<Tree>) {
    && (forall env: Env :: Any(stayed + moved, env) == Any(before, env))
    && (forall i :: 0 <= i < |stayed| ==> Clause(stayed[i])) && (forall i :: 0 <= i < |moved| ==> Clause(moved[i]))
    && |stayed| + |moved| == |before|
    && TermsOf(OR, stayed) == NotBare(TermsOf(OR, before)) && TermsOf(OR, moved) == Bare(TermsOf(OR, before))
  }

  lemma AnyWrapped(before: seq<Tree>, stayed: seq<Tree>, moved: seq<Tree>, t: Tree, r: Tree)
    requires Wrapped(before, stayed, moved) && SameMeaning(t, r)
    ensures forall env: Env :: Any(stayed + [r] + moved, env) == Any(before + [t], env) ==
                               Any(stayed + (moved + [r]), env)
  {
    forall env: Env
      ensures Any(stayed + [r] + moved, env) == Any(before + [t], env) == Any(stayed + (moved + [r]), env)
    {
      MeaningOfTwo(stayed, moved, env);
      MeaningOfTwo(stayed, [r], env);
      MeaningOfTwo(stayed + [r], moved, env);
      MeaningOfTwo(moved, [r], env);
      MeaningOfTwo(stayed, moved + [r], env);
      MeaningOfTwo(before, [t], env);
      MeaningOfOne(r, env);
      MeaningOfOne(t, env);
      assert Any(stayed + moved, env) == Any(before, env) && Eval(t, env) == Eval(r, env);
    }
  }

  // An AND stays where it is.
  lemma WrappedStays(before: seq<Tree>, stayed: seq<Tree>, moved: seq<Tree>, t: Tree)
    requires Wrapped(before, stayed, moved) && Clause(t)
    ensures Wrapped(before + [t], stayed + [t], moved)
  {
    AnyWrapped(before, stayed, moved, t, t);
    TermsStay(before, stayed, t);
  }

  lemma TermsStay(before: seq<Tree>, stayed: seq<Tree>, t: Tree)
    requires Clause(t) && TermsOf(OR, stayed) == NotBare(TermsOf(OR, before))
    ensures TermsOf(OR, stayed + [t]) == NotBare(TermsOf(OR, before + [t]))
    ensures Bare(TermsOf(OR, before + [t])) == Bare(TermsOf(OR, before))
  {
    AndIsNotBare(t.kids);
    NothingBare(Terms(t));
    TermsOfTwo(OR, before, [t]);
    TermsOfTwo(OR, stayed, [t]);
    TermsOfOne(OR, t);
    BareOfTwo(TermsOf(OR, before), Terms(t));
    assert Bare(TermsOf(OR, before)) + [] == Bare(TermsOf(OR, before));
  }

  // An atom is moved to the end with an AND around it.
  lemma WrappedMoves(before: seq<Tree>, stayed: seq<Tree>, moved: seq<Tree>, t: Tree, r: Tree)
    requires Wrapped(before, stayed, moved) && t.Leaf? && r.Op? && r.kind == AND && r.kids == [t]
    ensures Wrapped(before + [t], stayed, moved + [r])
  {
    WrapMeans(t, r);
    AnyWrapped(before, stayed, moved, t, r);
    TermsMove(before, moved, t, r);
  }

  lemma TermsMove(before: seq<Tree>, moved: seq<Tree>, t: Tree, r: Tree)
    requires t.Leaf? && r.Op? && r.kind == AND && r.kids == [t] && TermsOf(OR, moved) == Bare(TermsOf(OR, before))
    ensures NotBare(TermsOf(OR, before + [t])) == NotBare(TermsOf(OR, before))
    ensures TermsOf(OR, moved + [r]) == Bare(TermsOf(OR, before + [t]))
  {
    TermsOfTwo(OR, before, [t]);
    TermsOfTwo(OR, moved, [r]);
    TermsOfOne(OR, t);
    TermsOfOne(OR, r);
    BareOfTwo(TermsOf(OR, before), Terms(t));
    WrappedTerm(t, r);
    assert NotBare(TermsOf(OR, before)) + [] == NotBare(TermsOf(OR, before));
  }

  lemma WrappedTerm(t: Tree, r: Tree)
    requires t.Leaf? && r.Op? && r.kind == AND && r.kids == [t]
    ensures NotBare(Terms(t)) == [] && Bare(Terms(t)) == Terms(r)
  {
    TermsOfOne(AND, t);
    var x := Terms(t)[0];
    assert Terms(t) == [x] && [x][1..] == [] && multiset{} + x.lits == x.lits;
    assert Terms(r) == [x.(bare := false)];
  }

  lemma StaysPut(n: Node, stayed: seq<Tree>, rest: seq<Tree>, moved: seq<Tree>)
    requires Midway(n, stayed, rest, moved) && rest != []
    ensures Midway(n, stayed + [rest[0]], rest[1..], moved)
  {
    var r := rest[0];
    OneTree(r, n);
    RootIn(rest, 0);
    TreesOfTwo(stayed, [r], n);
    NodesOfTwo(stayed, [r]);
    RootsShift(stayed, rest, moved);
  }

  lemma RootsShift(stayed: seq<Tree>, rest: seq<Tree>, moved: seq<Tree>)
    requires rest != []
    ensures Roots(stayed) + Roots(rest) + Roots(moved) == Roots(stayed + [rest[0]]) + Roots(rest[1..]) + Roots(moved)
  {
    var first := [rest[0].n];
    assert Roots(stayed + [rest[0]]) == Roots(stayed) + first && Roots(rest) == first + Roots(rest[1..]);
    Associates(Roots(stayed), first, Roots(rest[1..]));
  }

  // Takes the next of the subtrees out, and appends another after them all.
  method TakeNext(root: Node, sub: Node, ghost stayed: seq<Tree>, ghost rest: seq<Tree>, ghost moved: seq<Tree>)
    requires Midway(root, stayed, rest, moved) && rest != [] && sub == rest[0].n && root.cls != ATOM
    modifies root`subtrees, sub`parent
    ensures Midway(root, stayed, rest[1..], moved) && Whole(rest[0]) && root !in Nodes(rest[0])
    ensures Nodes(rest[0]) !! NodesAll(stayed) + NodesAll(rest[1..]) + NodesAll(moved)
  {
    NextHangs(root, stayed, rest, moved);
    RootIn(rest, 0);
    assert allocated(NodesAll(stayed)) && allocated(NodesAll(rest[1..])) && allocated(NodesAll(moved)) &&
           allocated(Nodes(rest[0]));
    var ok := root.Remove(sub, Roots(stayed), Roots(rest[1..]) + Roots(moved));
    assert Roots(stayed) + (Roots(rest[1..]) + Roots(moved)) == Roots(stayed) + Roots(rest[1..]) + Roots(moved);
  }

  method PlaceLast(root: Node, newNode: Node, ghost r: Tree, ghost stayed: seq<Tree>, ghost rest: seq<Tree>,
                   ghost moved: seq<Tree>)
    requires Midway(root, stayed, rest, moved) && r.n == newNode && Whole(r) && root !in Nodes(r) && root.cls != ATOM
    requires Nodes(r) !! NodesAll(stayed) + NodesAll(rest) + NodesAll(moved)
    modifies root`subtrees, newNode`parent
    ensures Midway(root, stayed, rest, moved + [r])
  {
    RootIn([r], 0);
    OneTree(r, null);
    assert allocated(NodesAll(stayed)) && allocated(NodesAll(rest)) && allocated(NodesAll(moved)) &&
           allocated(Nodes(r));
    var ok := root.Append(newNode);
    assert Roots(stayed) + (Roots(rest) + Roots(moved)) == Roots(stayed) + Roots(rest) + Roots(moved);
    PlacedLast(root, stayed, r, rest, moved);
  }

  // An atom on the second level gets an AND of its own.
  method Wrap(root: Node, sub: Node, ghost stayed: seq<Tree>, ghost rest: seq<Tree>, ghost moved: seq<Tree>)
    returns (ghost r: Tree)
    requires Midway(root, stayed, rest, moved) && rest != [] && sub == rest[0].n && rest[0].Leaf? && root.cls != ATOM
    modifies root`subtrees, sub`parent
    ensures r.Op? && r.kind == AND && r.kids == [rest[0]] && Midway(root, stayed, rest[1..], moved + [r])
    ensures forall x <- Nodes(r) :: x == sub || fresh(x)
  {
    TakeNext(root, sub, stayed, rest, moved);
    assert allocated(NodesAll(stayed)) && allocated(NodesAll(rest[1..])) && allocated(NodesAll(moved));
    ghost var midway := Midway(root, stayed, rest[1..], moved);
    assert midway;
    var newNode;
    newNode, r := AndOf(sub, rest[0]);
    midway := Midway(root, stayed, rest[1..], moved);
    assert midway;
    PlaceLast(root, newNode, r, stayed, rest[1..], moved);
  }

  method AndOf(sub: Node, ghost kid: Tree) returns (newNode: Node, ghost r: Tree)
    requires kid.Leaf? && kid.n == sub && Whole(kid)
    modifies sub`parent
    ensures fresh(newNode) && r == Op(newNode, AND, [kid]) && Whole(r) && Nodes(r) == {newNode} + {sub} &&
            newNode.cls != ATOM
  {
    newNode := new Node.Logic(AND);
    assert Roots([]) == [] && [] + [kid] == [kid];
    ghost var empty := Op(newNode, AND, []);
    assert NodesAll([]) == {} && IsTree(empty) && NoneTwice(empty);
    r := Adopt(newNode, sub, empty, kid);
  }

  lemma WrapMeans(kid: Tree, r: Tree)
    requires kid.Leaf? && r.Op? && r.kind == AND && r.kids == [kid]
    ensures Clause(r) && SameMeaning(kid, r)
  {
    forall env: Env ensures Eval(kid, env) == Eval(r, env) {
      MeaningOfOne(kid, env);
    }
  }

  // The second level so far.
  ghost predicate Wrapping(root: Node, t: Tree, k: nat, stayed: seq<Tree>, moved: seq<Tree>)
    requires t.Op? && k <= |t.kids|
    reads root, NodesAll(stayed), NodesAll(t.kids[k..]), NodesAll(moved)
  {
    exists m :: m == moved && Midway(root, stayed, t.kids[k..], m) && Wrapped(t.kids[..k], stayed, m)
  }

  method WrapNext(root: Node, sub: Node, ghost t: Tree, ghost k: nat, ghost stayed: seq<Tree>, ghost moved: seq<Tree>)
    returns (ghost stayed1: seq<Tree>, ghost moved1: seq<Tree>)
    requires t.Op? && k < |t.kids| && sub == t.kids[k].n && LeafOrClause(t.kids[k]) && root.cls != ATOM
    requires Wrapping(root, t, k, stayed, moved)
    modifies root`subtrees, sub`parent
    ensures Wrapping(root, t, k + 1, stayed1, moved1)
  {
    ghost var kid, rest := t.kids[k], t.kids[k..];
    assert rest[0] == kid && rest[1..] == t.kids[k + 1..] && t.kids[..k] + [kid] == t.kids[..k + 1];
    stayed1, moved1 := stayed, moved;
    assert IsTree(rest[0]);
    if sub.kind != AND {
      ghost var r := Wrap(root, sub, stayed, rest, moved);
      WrappedMoves(t.kids[..k], stayed, moved, kid, r);
      moved1 := moved + [r];
    } else {
      StaysPut(root, stayed, rest, moved);
      WrappedStays(t.kids[..k], stayed, moved, kid);
      stayed1 := stayed + [kid];
    }
  }

  ghost predicate NormalFormOf(t: Tree, r: Tree) {
    exists u :: u == r && Normal(u) && SameMeaning(t, u) && Terms(u) == BareLast(Terms(t))
  }

  // The last part of normalize: the second level is made all ANDs.
  method WrapAll(root: Node, ghost t: Tree) returns (ghost r: Tree)
    requires t.n == root && Whole(t) && FlatOr(t)
    modifies Nodes(t)
    ensures r.n == root && Whole(r) && NormalFormOf(t, r)
  {
    var subs := root.subtrees;
    ghost var stayed, moved := [], [];
    StartWrapping(root, t);
    for k := 0 to |subs|
      invariant subs == Roots(t.kids) && root.parent == null && root.kind == OR && Wrapping(root, t, k, stayed, moved)
    {
      RootIn(t.kids, k);
      stayed, moved := WrapNext(root, subs[k], t, k, stayed, moved);
    }
    r := Op(root, OR, stayed + moved);
    EndWrapping(root, t, stayed, moved);
  }

  lemma StartWrapping(root: Node, t: Tree)
    requires t.n == root && t.Op? && Whole(t)
    ensures Wrapping(root, t, 0, [], [])
  {
    assert t.kids[0..] == t.kids && t.kids[..0] == [] && Roots([]) + Roots(t.kids) + Roots([]) == Roots(t.kids);
    assert Midway(root, [], t.kids[0..], []);
  }

  lemma EndWrapping(root: Node, t: Tree, stayed: seq<Tree>, moved: seq<Tree>)
    requires t.n == root && FlatOr(t) && root.parent == null && root.kind == OR && root.cls != ATOM
    requires Wrapping(root, t, |t.kids|, stayed, moved)
    ensures var r := Op(root, OR, stayed + moved); Whole(r) && NormalFormOf(t, r)
  {
    assert t.kids[|t.kids|..] == [] && t.kids[..|t.kids|] == t.kids;
    NodesOfTwo(stayed, moved);
    TreesOfTwo(stayed, moved, root);
    assert Roots(stayed + moved) == Roots(stayed) + Roots([]) + Roots(moved);
    TermsOfTwo(OR, stayed, moved);
    forall env: Env ensures Eval(t, env) == Eval(Op(root, OR, stayed + moved), env) {
      assert Any(stayed + moved, env) == Any(t.kids[..|t.kids|], env);
    }
    var u := Op(root, OR, stayed + moved);
    assert Normal(u) && SameMeaning(t, u) && Terms(u) == BareLast(Terms(t));
  }

  // A root that is no OR gets one above it.
  method OrAbove(n: Node, ghost t: Tree) returns (root: Node, ghost r: Tree)
    requires t.n == n && Whole(t) && Flat(t)
    modifies n`parent
    ensures r.n == root && Whole(r) && FlatOr(r) && SameMeaning(t, r) && SameClauses(t, r)
    ensures forall x <- Nodes(r) :: x in Nodes(t) || fresh(x)
  {
    root, r := n, t;
    if n.kind != OR {
      assert allocated(Nodes(t));
      root := new Node.Logic(OR);
      assert Roots([]) == [] && NodesAll([]) == {} && [] + [t] == [t];
      r := Adopt(root, n, Op(root, OR, []), t);
      TermsOfOne(OR, t);
      forall env: Env ensures Eval(t, env) == Eval(r, env) {
        MeaningOfOne(t, env);
      }
    }
  }

  // The clauses of a search when the NOTs are pushed down and it is multiplied out.
  function Multiplied(t: Tree): seq<Term> { BareLast(Terms(Pushed(t, false))) }

  // normalize. It fails, with a ParseError, exactly for a NOT without exactly one subtree and for
  // a NOT at the root. Otherwise it ends, with an OR of ANDs of atoms, that means what the search
  // meant and has the clauses of the search multiplied out, in this order. With copy as it is written
  // that holds for a search from the parser that has no AND or OR below an odd number of NOTs.
  method NormalizeTree(n: Node, written: bool, ghost t: Tree) returns (ok: bool, root: Node, ghost r: Tree)
    requires t.n == n && Whole(t) && Full(t) && (written ==> AsMade(t) && Upright(t, false))
    modifies Nodes(t)
    ensures ok <==> GoodNots(t) && !IsNot(t)
    ensures ok ==> r.n == root && Whole(r) && Normal(r) && forall env: Env :: Eval(r, env) == EvalPlain(t, env)
    ensures ok ==> Terms(r) == Multiplied(t)
  {
    root := n;
    ghost var nn, c, o;
    ok, nn := CollapseNots(n, false, t, null, [], []);
    r := t;
    if ok {
      var m;
      m, c := CollapseNode(n, written, nn);
      root, o := OrAbove(m, c);
      r := WrapAll(root, o);
      forall env: Env ensures Eval(r, env) == EvalPlain(t, env) {
        assert Eval(nn, env) == Eval(c, env) == Eval(o, env) == Eval(r, env);
      }
    }
  }
}

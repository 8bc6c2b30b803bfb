// Bringing a search into its normal form (core/apps/capture_node_api/lib/search/node.py).

module Query {
  import opened Folding
  import opened QueryTrees

  // ---- collapse_nots ----

  // What the subtrees handled so far mean: turned over, an AND is an OR of what is turned over.
  ghost predicate Carried(kind: Kind, invert: bool, done: seq<Tree>, before: seq<Tree>) {
    forall env: Env :: Joined(if invert then Turned(kind) else kind, done, env) ==
      ((if kind == AND then AllPlain(before, env) else AnyPlain(before, env)) != invert)
  }

  function Turned(kind: Kind): Kind { if kind == AND then OR else AND }

  // What collapse_nots makes of a tree: each NOT gives way to its subtree, which comes after
  // those that stay.
  function Pushed(t: Tree, invert: bool): Tree {
    match t
    case Leaf(n, _) => Leaf(n, invert)
    case Op(n, kind, kids) =>
      if kind == NOT then (if |kids| == 1 then Pushed(kids[0], !invert) else t)
      else Op(n, if invert then Turned(kind) else kind,
              PushedKids(kids, invert, false) + PushedKids(kids, invert, true))
  }

  // Of those subtrees that are NOTs, or of the others.
  function PushedKids(ts: seq<Tree>, invert: bool, nots: bool): seq<Tree> {
    if ts == [] then []
    else
      var last := ts[|ts| - 1];
      PushedKids(ts[..|ts| - 1], invert, nots) + if IsNot(last) == nots then [Pushed(last, invert)] else []
  }

  lemma {:induction false} PlainOfTwo(a: seq<Tree>, b: seq<Tree>, env: Env)
    ensures AllPlain(a + b, env) <==> AllPlain(a, env) && AllPlain(b, env)
    ensures AnyPlain(a + b, env) <==> AnyPlain(a, env) || AnyPlain(b, env)
  {
    if a == [] {
      assert a + b == b;
    } else {
      PlainOfTwo(a[1..], b, env);
      assert (a + b)[1..] == a[1..] + b;
    }
  }

  lemma PlainOfOne(t: Tree, env: Env)
    ensures AllPlain([t], env) == AnyPlain([t], env) == EvalPlain(t, env)
  {
    assert [t][1..] == [];
  }

  lemma CarriedOneMore(kind: Kind, invert: bool, a: seq<Tree>, b: seq<Tree>, r: Tree, before: seq<Tree>, t: Tree)
    requires (kind == AND || kind == OR) && Carried(kind, invert, a + b, before)
    requires forall env: Env :: Eval(r, env) == (EvalPlain(t, env) != invert)
    ensures Carried(kind, invert, a + [r] + b, before + [t]) && Carried(kind, invert, a + (b + [r]), before + [t])
  {
    forall env: Env
      ensures Joined(if invert then Turned(kind) else kind, a + [r] + b, env) ==
              ((if kind == AND then AllPlain(before + [t], env) else AnyPlain(before + [t], env)) != invert)
      ensures Joined(if invert then Turned(kind) else kind, a + (b + [r]), env) ==
              ((if kind == AND then AllPlain(before + [t], env) else AnyPlain(before + [t], env)) != invert)
    {
      assert Joined(if invert then Turned(kind) else kind, a + b, env) ==
              ((if kind == AND then AllPlain(before, env) else AnyPlain(before, env)) != invert);
      MeaningOfTwo(a, b, env);
      MeaningOfTwo(a, [r], env);
      MeaningOfTwo(a + [r], b, env);
      MeaningOfTwo(b, [r], env);
      MeaningOfTwo(a, b + [r], env);
      MeaningOfOne(r, env);
      PlainOfTwo(before, [t], env);
      PlainOfOne(t, env);
    }
  }

  // Where the subtrees are while they are handled one after the other: those that stayed, those
  // to come, those moved to the end in place of a NOT.
  ghost predicate Midway(n: Node, stayed: seq<Tree>, rest: seq<Tree>, moved: seq<Tree>)
    reads n, NodesAll(stayed), NodesAll(rest), NodesAll(moved)
  {
    && n.subtrees == Roots(stayed) + Roots(rest) + Roots(moved)
    && AreTrees(stayed, n) && AreTrees(rest, n) && AreTrees(moved, n)
    && Apart(stayed) && Apart(rest) && Apart(moved)
    && NodesAll(stayed) !! NodesAll(rest) && NodesAll(stayed) !! NodesAll(moved) && NodesAll(rest) !! NodesAll(moved)
    && n !in NodesAll(stayed) + NodesAll(rest) + NodesAll(moved)
  }

  // A tree hanging on p, between the subtrees pre and post.
  ghost predicate Hangs(t: Tree, p: Node?, pre: seq<Node>, post: seq<Node>)
    reads Nodes(t), p
  {
    && NoneTwice(t) && IsTree(t) && t.n.parent == p
    && (p != null ==>
          p !in Nodes(t) && p.cls != ATOM && p.subtrees == pre + [t.n] + post &&
            forall x <- pre + post :: x !in Nodes(t))
  }

  // A NOT taken out of the tree: its subtree goes to the end of the parent's list.
  method PullUp(n: Node, p: Node, ghost t: Tree, ghost pre: seq<Node>, ghost post: seq<Node>) returns (ghost kid: Tree)
    requires t.n == n && t.Op? && |t.kids| == 1 && Hangs(t, p, pre, post)
    modifies p`subtrees, Nodes(t)`parent
    ensures kid == t.kids[0] && t.kids == [kid] && kid.n == n.subtrees[0] && Nodes(kid) <= Nodes(t) && n !in Nodes(kid)
    ensures Hangs(kid, p, pre + post, []) && p.subtrees == pre + post + [kid.n]
  {
    kid := t.kids[0];
    assert t.kids == [kid];
    OneTree(kid, n);
    RootIn(t.kids, 0);
    assert n.subtrees[0] == kid.n && IsTree(kid) && n !in Nodes(kid);
    assert allocated(Nodes(kid));
    var done := p.Remove(n, pre, post);
    assert IsTree(kid);
    done := p.Append(n.subtrees[0]);
    assert IsTree(kid);
  }

  lemma {:induction false} RootsIn(ts: seq<Tree>)
    ensures forall x <- Roots(ts) :: x in NodesAll(ts)
  {
    forall x | x in Roots(ts) ensures x in NodesAll(ts) {
      var i :| 0 <= i < |ts| && Roots(ts)[i] == x;
      RootIn(ts, i);
    }
  }

  lemma {:induction false} GoodNotsAt(ts: seq<Tree>)
    ensures GoodNotsAll(ts) <==> forall i :: 0 <= i < |ts| ==> GoodNots(ts[i])
  {
    if ts != [] {
      GoodNotsAt(ts[1..]);
      assert forall i :: 1 <= i < |ts| ==> ts[i] == ts[1..][i - 1];
      assert GoodNotsAll(ts) ==> forall i :: 1 <= i < |ts| ==> GoodNots(ts[i]);
    }
  }

  lemma NotAllGood(ts: seq<Tree>, k: nat)
    requires k < |ts| && !GoodNots(ts[k])
    ensures !GoodNotsAll(ts)
  {
    GoodNotsAt(ts);
  }

  lemma OneForm(t: Tree)
    ensures GoodNotsAll([t]) <==> GoodNots(t)
    ensures FullAll([t]) <==> Full(t)
    ensures AllAsMade([t]) <==> AsMade(t)
    ensures NoNotsAll([t]) <==> NoNots(t)
  {
    assert [t][1..] == [];
  }

  lemma {:induction false} FullAt(ts: seq<Tree>, i: nat)
    requires FullAll(ts) && i < |ts|
    ensures Full(ts[i])
  {
    if i > 0 {
      FullAt(ts[1..], i - 1);
    }
  }

  predicate IsNot(t: Tree) { t.Op? && t.kind == NOT }

  lemma NextHangs(n: Node, stayed: seq<Tree>, rest: seq<Tree>, moved: seq<Tree>)
    requires Midway(n, stayed, rest, moved) && rest != [] && n.cls != ATOM
    ensures Hangs(rest[0], n, Roots(stayed), Roots(rest[1..]) + Roots(moved))
  {
    RootsIn(stayed);
    RootsIn(rest[1..]);
    RootsIn(moved);
    RootIn(rest, 0);
    assert Roots(rest) == [rest[0].n] + Roots(rest[1..]);
    assert Roots(stayed) + Roots(rest) + Roots(moved) == Roots(stayed) + [rest[0].n] +
           (Roots(rest[1..]) + Roots(moved));
  }

  // One round of the loop over the subtrees.
  method TurnKid(n: Node, sub: Node, invert: bool, ghost stayed: seq<Tree>, ghost rest: seq<Tree>,
                 ghost moved: seq<Tree>)
    returns (ok: bool, ghost r: Tree)
    requires n.cls != ATOM && rest != [] && sub == rest[0].n && Midway(n, stayed, rest, moved)
    modifies Nodes(rest[0]), n`subtrees
    ensures ok <==> GoodNots(rest[0])
    ensures ok ==> Nodes(r) <= Nodes(rest[0]) && NoNots(r) && KeepsForm(rest[0], invert, r) &&
                   r == Pushed(rest[0], invert)
    ensures ok ==> forall env: Env :: Eval(r, env) == (EvalPlain(rest[0], env) != invert)
    ensures ok ==> if IsNot(rest[0]) then Midway(n, stayed, rest[1..], moved + [r])
                   else Midway(n, stayed + [r], rest[1..], moved)
    decreases rest[0], 3
  {
    NextHangs(n, stayed, rest, moved);
    ghost var kid := rest[0];
    assert allocated(NodesAll(stayed)) && allocated(NodesAll(rest[1..])) && allocated(NodesAll(moved));
    ok, r := CollapseNots(sub, invert, kid, n, Roots(stayed), Roots(rest[1..]) + Roots(moved));
    if ok {
      if IsNot(kid) {
        PlacedLast(n, stayed, r, rest[1..], moved);
      } else {
        PlacedAmong(n, stayed, r, rest[1..], moved);
      }
    }
  }

  lemma PlacedLast(n: Node, stayed: seq<Tree>, r: Tree, rest: seq<Tree>, moved: seq<Tree>)
    requires AreTrees(stayed, n) && AreTrees(rest, n) && AreTrees(moved, n)
    requires Apart(stayed) && Apart(rest) && Apart(moved)
    requires NodesAll(stayed) !! NodesAll(rest) && NodesAll(stayed) !! NodesAll(moved) &&
             NodesAll(rest) !! NodesAll(moved)
    requires n !in NodesAll(stayed) + NodesAll(rest) + NodesAll(moved) + Nodes(r)
    requires NoneTwice(r) && IsTree(r) && r.n.parent == n &&
             Nodes(r) !! NodesAll(stayed) + NodesAll(rest) + NodesAll(moved)
    requires n.subtrees == Roots(stayed) + (Roots(rest) + Roots(moved)) + [r.n]
    ensures Midway(n, stayed, rest, moved + [r])
  {
    OneTree(r, n);
    TreesOfTwo(moved, [r], n);
    NodesOfTwo(moved, [r]);
    RootsWith(moved, r);
    Regrouped(Roots(stayed), Roots(rest), Roots(moved), [r.n]);
  }

  lemma RootsWith(ts: seq<Tree>, t: Tree)
    ensures Roots(ts + [t]) == Roots(ts) + [t.n]
  {
  }

  lemma Regrouped<X>(a: seq<X>, b: seq<X>, c: seq<X>, d: seq<X>)
    ensures a + (b + c) + d == a + b + (c + d)
  {
  }

  lemma PlacedAmong(n: Node, stayed: seq<Tree>, r: Tree, rest: seq<Tree>, moved: seq<Tree>)
    requires AreTrees(stayed, n) && AreTrees(rest, n) && AreTrees(moved, n)
    requires Apart(stayed) && Apart(rest) && Apart(moved)
    requires NodesAll(stayed) !! NodesAll(rest) && NodesAll(stayed) !! NodesAll(moved) &&
             NodesAll(rest) !! NodesAll(moved)
    requires n !in NodesAll(stayed) + NodesAll(rest) + NodesAll(moved) + Nodes(r)
    requires NoneTwice(r) && IsTree(r) && r.n.parent == n &&
             Nodes(r) !! NodesAll(stayed) + NodesAll(rest) + NodesAll(moved)
    requires n.subtrees == Roots(stayed) + [r.n] + (Roots(rest) + Roots(moved))
    ensures Midway(n, stayed + [r], rest, moved)
  {
    OneTree(r, n);
    TreesOfTwo(stayed, [r], n);
    NodesOfTwo(stayed, [r]);
    RootsWith(stayed, r);
    assert Roots(stayed) + [r.n] + (Roots(rest) + Roots(moved)) == Roots(stayed) + [r.n] + Roots(rest) + Roots(moved);
  }

  // What else the turned tree keeps.
  predicate KeepsForm(t: Tree, invert: bool, r: Tree) {
    (Full(t) ==> Full(r)) && (AsMade(t) && Upright(t, invert) ==> AsMade(r))
  }

  // collapse_nots. It fails for a NOT without exactly one subtree and for a NOT at the root.
  method CollapseNots(n: Node, invert: bool, ghost t: Tree, ghost p: Node?, ghost pre: seq<Node>, ghost post: seq<Node>)
    returns (ok: bool, ghost r: Tree)
    requires t.n == n && Hangs(t, p, pre, post)
    modifies Nodes(t), (if p == null then {} else {p})`subtrees
    ensures ok <==> GoodNots(t) && (IsNot(t) ==> p != null)
    ensures ok ==> NoneTwice(r) && IsTree(r) && r.n.parent == p && Nodes(r) <= Nodes(t) && NoNots(r)
    ensures ok && p != null ==> p.subtrees == if IsNot(t) then pre + post + [r.n] else pre + [r.n] + post
    ensures ok && !IsNot(t) ==> r.n == n
    ensures ok ==> forall env: Env :: Eval(r, env) == (EvalPlain(t, env) != invert)
    ensures ok ==> KeepsForm(t, invert, r) && r == Pushed(t, invert)
    decreases t, 2
  {
    if n.cls == ATOM {
      n.inverted := invert;
      return true, Leaf(n, invert);
    }
    if n.kind == NOT {
      if |n.subtrees| != 1 {
        return false, t;
      }
      var parent := n.parent;
      if parent == null {
        return false, t;
      }
      ghost var kid := PullUp(n, parent, t, pre, post);
      forall env: Env {
        PlainOfOne(kid, env);
      }
      OneForm(kid);
      UprightKid(t, invert);
      ok, r := CollapseNots(n.subtrees[0], !invert, kid, p, pre + post, []);
      return;
    }
    ok, r := TurnKids(n, invert, t);
  }

  lemma UprightKid(t: Tree, invert: bool)
    requires IsNot(t) && |t.kids| == 1
    ensures Upright(t, invert) ==> Upright(t.kids[0], !invert)
  {
    if Upright(t, invert) {
      UprightAt(t.kids, !invert, 0);
    }
  }

  // What is known of the subtrees handled after k rounds.
  ghost predicate Progressed(t: Tree, invert: bool, k: nat, stayed: seq<Tree>, moved: seq<Tree>)
    requires t.Op? && k <= |t.kids|
  {
    && NodesAll(stayed) + NodesAll(t.kids[k..]) + NodesAll(moved) <= NodesAll(t.kids)
    && Carried(t.kind, invert, stayed + moved, t.kids[..k])
    && NoNotsAll(stayed) && NoNotsAll(moved) && KeepsForms(t, invert, stayed, moved)
    && stayed == PushedKids(t.kids[..k], invert, false) && moved == PushedKids(t.kids[..k], invert, true)
    && |stayed| + |moved| == k && forall i :: 0 <= i < k ==> GoodNots(t.kids[i])
  }

  predicate KeepsForms(t: Tree, invert: bool, stayed: seq<Tree>, moved: seq<Tree>) {
    && (Full(t) ==> FullAll(stayed) && FullAll(moved))
    && (AsMade(t) && Upright(t, invert) ==> AllAsMade(stayed) && AllAsMade(moved))
  }

  lemma FormsOneMore(t: Tree, invert: bool, k: nat, stayed: seq<Tree>, moved: seq<Tree>, r: Tree)
    requires t.Op? && t.kind != NOT && k < |t.kids| && KeepsForms(t, invert, stayed, moved) &&
             KeepsForm(t.kids[k], invert, r)
    ensures KeepsForms(t, invert, stayed, moved + [r]) && KeepsForms(t, invert, stayed + [r], moved)
  {
    FormsOfTwo(stayed, [r]);
    FormsOfTwo(moved, [r]);
    OneForm(r);
    if Full(t) {
      FullAt(t.kids, k);
    }
    if AsMade(t) && Upright(t, invert) {
      MadeAt(t.kids, k);
      UprightAt(t.kids, invert, k);
    }
  }

  lemma OneMoreKid(t: Tree, invert: bool, k: nat, stayed: seq<Tree>, moved: seq<Tree>, r: Tree)
    requires t.Op? && k < |t.kids| && (t.kind == AND || t.kind == OR) && Progressed(t, invert, k, stayed, moved)
    requires var kid := t.kids[k];
      && Nodes(r) <= Nodes(kid) && NoNots(r) && KeepsForm(kid, invert, r) && r == Pushed(kid, invert) && GoodNots(kid)
      && forall env: Env :: Eval(r, env) == (EvalPlain(kid, env) != invert)
    ensures if IsNot(t.kids[k]) then Progressed(t, invert, k + 1, stayed, moved + [r])
            else Progressed(t, invert, k + 1, stayed + [r], moved)
  {
    var kids, kid := t.kids, t.kids[k];
    assert kids[k..] == [kid] + kids[k + 1..] && kids[..k + 1] == kids[..k] + [kid];
    NodesOfTwo([kid], kids[k + 1..]);
    OneTree(kid, null);
    OneTree(r, null);
    NodesOfTwo(stayed, [r]);
    NodesOfTwo(moved, [r]);
    FormsOfTwo(stayed, [r]);
    FormsOfTwo(moved, [r]);
    OneForm(r);
    FormsOneMore(t, invert, k, stayed, moved, r);
    CarriedOneMore(t.kind, invert, stayed, moved, r, kids[..k], kid);
    assert stayed + (moved + [r]) == stayed + moved + [r];
  }

  // All but the node's own kind.
  ghost predicate Turning(n: Node, t: Tree, invert: bool, k: nat, stayed: seq<Tree>, moved: seq<Tree>)
    requires t.Op? && k <= |t.kids|
    reads n, NodesAll(stayed), NodesAll(t.kids[k..]), NodesAll(moved)
  {
    forall q :: Folded(q) ==> Midway(n, stayed, t.kids[k..], moved) && Progressed(t, invert, k, stayed, moved)
  }

  lemma AllGood(n: Node, t: Tree, invert: bool, stayed: seq<Tree>, moved: seq<Tree>)
    requires t.Op? && Turning(n, t, invert, |t.kids|, stayed, moved)
    ensures GoodNotsAll(t.kids)
  {
    assert Folded(0);
    GoodNotsAt(t.kids);
  }

  method TurnNext(n: Node, sub: Node, invert: bool, ghost t: Tree, ghost k: nat, ghost stayed: seq<Tree>,
                  ghost moved: seq<Tree>)
    returns (ok: bool, ghost stayed1: seq<Tree>, ghost moved1: seq<Tree>)
    requires t.Op? && (t.kind == AND || t.kind == OR) && k < |t.kids| && n.cls != ATOM && sub == t.kids[k].n
    requires Turning(n, t, invert, k, stayed, moved)
    modifies Nodes(t.kids[k]), n`subtrees
    ensures ok <==> GoodNots(t.kids[k])
    ensures ok ==> Turning(n, t, invert, k + 1, stayed1, moved1)
    decreases t.kids[k], 4
  {
    assert Folded(0);
    ghost var rest := t.kids[k..];
    assert rest[0] == t.kids[k] && rest[1..] == t.kids[k + 1..];
    ghost var r;
    ok, r := TurnKid(n, sub, invert, stayed, rest, moved);
    stayed1, moved1 := stayed, moved;
    if ok {
      OneMoreKid(t, invert, k, stayed, moved, r);
      if IsNot(t.kids[k]) {
        moved1 := moved + [r];
      } else {
        stayed1 := stayed + [r];
      }
    }
  }

  // The part of collapse_nots for an AND or OR.
  method TurnKids(n: Node, invert: bool, ghost t: Tree) returns (ok: bool, ghost r: Tree)
    requires t.n == n && t.Op? && t.kind != NOT && NoneTwice(t) && IsTree(t)
    modifies Nodes(t)
    ensures n.parent == old(n.parent)
    ensures ok <==> GoodNots(t)
    ensures ok ==> NoneTwice(r) && IsTree(r) && r.n == n && Nodes(r) <= Nodes(t) && NoNots(r)
    ensures ok ==> forall env: Env :: Eval(r, env) == (EvalPlain(t, env) != invert)
    ensures ok ==> KeepsForm(t, invert, r) && r == Pushed(t, invert)
    decreases t, 1
  {
    if invert {
      n.kind := if n.kind == AND then OR else AND;
    }
    StartTurning(n, t, invert);
    ghost var stayed, moved;
    ok, stayed, moved := TurnAll(n, invert, t);
    if !ok {
      return false, t;
    }
    r := EndTurning(n, t, invert, stayed, moved);
  }

  // The loop itself.
  method TurnAll(n: Node, invert: bool, ghost t: Tree)
    returns (ok: bool, ghost stayed: seq<Tree>, ghost moved: seq<Tree>)
    requires t.n == n && t.Op? && (t.kind == AND || t.kind == OR) && n.cls != ATOM && n !in NodesAll(t.kids)
    requires n.subtrees == Roots(t.kids) && Turning(n, t, invert, 0, [], [])
    modifies NodesAll(t.kids), n`subtrees
    ensures ok <==> GoodNotsAll(t.kids)
    ensures ok ==> Turning(n, t, invert, |t.kids|, stayed, moved)
    ensures n.parent == old(n.parent) && n.kind == old(n.kind)
    decreases t, 0
  {
    stayed, moved := [], [];
    var subs := n.subtrees;
    for k := 0 to |subs|
      invariant |subs| == |t.kids| && Turning(n, t, invert, k, stayed, moved)
      invariant n.parent == old(n.parent) && n.kind == old(n.kind)
    {
      RootIn(t.kids, k);
      ok, stayed, moved := TurnNext(n, subs[k], invert, t, k, stayed, moved);
      if !ok {
        NotAllGood(t.kids, k);
        return;
      }
    }
    AllGood(n, t, invert, stayed, moved);
    ok := true;
  }

  lemma StartTurning(n: Node, t: Tree, invert: bool)
    requires t.Op? && n !in NodesAll(t.kids) && Apart(t.kids) && n.subtrees == Roots(t.kids) && AreTrees(t.kids, n)
    ensures Turning(n, t, invert, 0, [], [])
  {
    assert t.kids[0..] == t.kids && t.kids[..0] == [] && [] + Roots(t.kids) + [] == Roots(t.kids);
    assert Midway(n, [], t.kids[0..], []);
  }

  lemma EndTurning(n: Node, t: Tree, invert: bool, stayed: seq<Tree>, moved: seq<Tree>) returns (r: Tree)
    requires t.Op? && t.n == n && (t.kind == AND || t.kind == OR) && n.cls != ATOM &&
             Turning(n, t, invert, |t.kids|, stayed, moved)
    requires n.kind == if invert then Turned(t.kind) else t.kind
    ensures r.n == n
      && NoneTwice(r) && IsTree(r) && Nodes(r) <= Nodes(t) && NoNots(r) && KeepsForm(t, invert, r) &&
         r == Pushed(t, invert) && GoodNotsAll(t.kids)
      && forall env: Env :: Eval(r, env) == (EvalPlain(t, env) != invert)
  {
    var kids := t.kids;
    assert Folded(0);
    r := Op(n, n.kind, stayed + moved);
    assert kids[|kids|..] == [] && kids[..|kids|] == kids;
    GoodNotsAt(kids);
    FormsOfTwo(stayed, moved);
    NodesOfTwo(stayed, moved);
    TreesOfTwo(stayed, moved, n);
    assert Roots(stayed + moved) == Roots(stayed) + Roots([]) + Roots(moved);
    forall env: Env
      ensures Eval(Op(n, n.kind, stayed + moved), env) == (EvalPlain(t, env) != invert)
    {
      assert Joined(if invert then Turned(t.kind) else t.kind, stayed + moved, env) ==
        ((if t.kind == AND then AllPlain(kids[..|kids|], env) else AnyPlain(kids[..|kids|], env)) != invert);
    }
  }
}

// Search trees and their meaning (core/apps/capture_node_api/lib/search/node.py).

module QueryTrees {

  datatype Kind = ATOM | AND | OR | NOT

  // What an atom asks of a flow, by number.
  type Value = nat

  // Which of the values hold for a flow.
  type Env = Value -> bool

  // A node as the parser makes it. `cls` is the class it was made from; `kind` is its `type`,
  // which De Morgan's law may turn over.
  class Node {
    const cls: Kind
    const value: Value
    var kind: Kind
    var inverted: bool
    var parent: Node?
    var subtrees: seq<Node>

    constructor Atom(value: Value, inverted: bool)
      ensures kind == ATOM == cls && this.value == value && this.inverted == inverted && parent == null &&
              subtrees == []
    {
      cls, kind, this.value, this.inverted, parent, subtrees := ATOM, ATOM, value, inverted, null, [];
    }

    constructor Logic(kind: Kind)
      requires kind != ATOM
      ensures this.kind == kind == cls && !inverted && parent == null && subtrees == []
    {
      cls, this.kind, value, inverted, parent, subtrees := kind, kind, 0, false, null, [];
    }

    // append: refused for atoms and for the node itself.
    method Append(node: Node) returns (ok: bool)
      modifies `subtrees, node`parent
      ensures ok <==> cls != ATOM && node != this
      ensures ok ==> subtrees == old(subtrees) + [node] && node.parent == this
      ensures !ok ==> subtrees == old(subtrees) && node.parent == old(node.parent)
    {
      if cls == ATOM || node == this {
        return false;
      }
      subtrees := subtrees + [node];
      node.parent := this;
      ok := true;
    }

    // remove: takes out the first subtree that is this very node.
    method Remove(node: Node, ghost pre: seq<Node>, ghost post: seq<Node>) returns (ok: bool)
      requires (subtrees == pre + [node] + post && node !in pre) || (node !in subtrees && pre == subtrees)
      modifies `subtrees, node`parent
      ensures node.parent == null
      ensures ok <==> node in old(subtrees)
      ensures subtrees == if ok then pre + post else pre
    {
      node.parent := null;
      ghost var all := subtrees;
      for i := 0 to |subtrees|
        invariant subtrees == all && node !in all[..i]
      {
        if subtrees[i] == node {
          assert i == |pre| by {
            FirstPlace(all, pre, node, post, i);
          }
          assert all[..i] == pre && all[i + 1..] == post;
          subtrees := subtrees[..i] + subtrees[i + 1..];
          return true;
        }
      }
      assert all[..|all|] == all;
      ok := false;
    }
  }

  lemma FirstPlace(all: seq<Node>, pre: seq<Node>, node: Node, post: seq<Node>, i: nat)
    requires (all == pre + [node] + post && node !in pre) || (node !in all && pre == all)
    requires i < |all| && all[i] == node && node !in all[..i]
    ensures all == pre + [node] + post && i == |pre|
  {
    assert node in all;
    assert all[|pre|] == node && forall j :: 0 <= j < |pre| ==> all[j] == pre[j];
    assert forall j :: 0 <= j < i ==> all[j] in all[..i];
  }

  // ---- Shapes ----

  // A tree as it hangs on its root: the nodes, what they are, and the order of the subtrees.
  datatype Tree = Leaf(n: Node, inv: bool) | Op(n: Node, kind: Kind, kids: seq<Tree>)

  function Roots(ts: seq<Tree>): (r: seq<Node>)
    ensures |r| == |ts| && forall i :: 0 <= i < |ts| ==> r[i] == ts[i].n
  {
    seq(|ts|, i requires 0 <= i < |ts| => ts[i].n)
  }

  ghost function Nodes(t: Tree): set<Node> {
    match t
    case Leaf(n, _) => {n}
    case Op(n, _, kids) => {n} + NodesAll(kids)
  }

  ghost function NodesAll(ts: seq<Tree>): set<Node> {
    if ts == [] then {} else Nodes(ts[0]) + NodesAll(ts[1..])
  }

  // No node is in two places.
  ghost predicate NoneTwice(t: Tree) {
    t.Op? ==> t.n !in NodesAll(t.kids) && Apart(t.kids)
  }

  ghost predicate Apart(ts: seq<Tree>) {
    ts != [] ==> NoneTwice(ts[0]) && Nodes(ts[0]) !! NodesAll(ts[1..]) && Apart(ts[1..])
  }

  // The nodes are as the shape says, and each subtree knows its parent. What is above the root
  // does not matter.
  ghost predicate IsTree(t: Tree)
    reads Nodes(t)`kind, Nodes(t)`inverted, Nodes(t)`subtrees, (Nodes(t) - {t.n})`parent
  {
    match t
    case Leaf(n, inv) => n.cls == ATOM == n.kind && n.inverted == inv && n.subtrees == []
    case Op(n, kind, kids) =>
      && n.kind == kind && kind != ATOM && n.cls != ATOM && n !in NodesAll(kids)
      && n.subtrees == Roots(kids) && AreTrees(kids, n)
  }

  ghost predicate AreTrees(ts: seq<Tree>, p: Node?)
    reads NodesAll(ts)`kind, NodesAll(ts)`inverted, NodesAll(ts)`subtrees, NodesAll(ts)`parent
  {
    ts != [] ==> IsTree(ts[0]) && ts[0].n.parent == p && AreTrees(ts[1..], p)
  }

  // A tree by itself: no node twice and nothing above.
  ghost predicate Whole(t: Tree)
    reads Nodes(t)
  {
    NoneTwice(t) && IsTree(t) && t.n.parent == null
  }

  lemma {:induction false} NodesOfTwo(a: seq<Tree>, b: seq<Tree>)
    ensures NodesAll(a + b) == NodesAll(a) + NodesAll(b)
    ensures Apart(a + b) <==> Apart(a) && Apart(b) && NodesAll(a) !! NodesAll(b)
  {
    if a == [] {
      assert a + b == b;
    } else {
      NodesOfTwo(a[1..], b);
      assert (a + b)[1..] == a[1..] + b;
    }
  }

  lemma {:induction false} TreesOfTwo(a: seq<Tree>, b: seq<Tree>, p: Node?)
    ensures AreTrees(a + b, p) <==> AreTrees(a, p) && AreTrees(b, p)
  {
    if a == [] {
      assert a + b == b;
    } else {
      TreesOfTwo(a[1..], b, p);
      assert (a + b)[1..] == a[1..] + b;
    }
  }

  lemma {:induction false} RootIn(ts: seq<Tree>, i: nat)
    requires i < |ts|
    ensures ts[i].n in Nodes(ts[i]) && Nodes(ts[i]) <= NodesAll(ts)
  {
    if i > 0 {
      RootIn(ts[1..], i - 1);
    }
  }

  lemma OneTree(t: Tree, p: Node?)
    ensures NodesAll([t]) == Nodes(t) && (Apart([t]) <==> NoneTwice(t))
    ensures AreTrees([t], p) <==> IsTree(t) && t.n.parent == p
  {
    assert [t][1..] == [];
    assert NodesAll([]) == {};
  }

  // ---- Meaning ----

  predicate Eval(t: Tree, env: Env) {
    match t
    case Leaf(n, inv) => env(n.value) != inv
    case Op(_, kind, kids) =>
      if kind == AND then All(kids, env) else if kind == OR then Any(kids, env) else !Any(kids, env)
  }

  predicate All(ts: seq<Tree>, env: Env) {
    ts == [] || (Eval(ts[0], env) && All(ts[1..], env))
  }

  predicate Any(ts: seq<Tree>, env: Env) {
    ts != [] && (Eval(ts[0], env) || Any(ts[1..], env))
  }

  lemma {:induction false} MeaningOfTwo(a: seq<Tree>, b: seq<Tree>, env: Env)
    ensures All(a + b, env) <==> All(a, env) && All(b, env)
    ensures Any(a + b, env) <==> Any(a, env) || Any(b, env)
  {
    if a == [] {
      assert a + b == b;
    } else {
      MeaningOfTwo(a[1..], b, env);
      assert (a + b)[1..] == a[1..] + b;
    }
  }

  lemma MeaningOfOne(t: Tree, env: Env)
    ensures All([t], env) == Any([t], env) == Eval(t, env)
  {
    assert [t][1..] == [];
  }

  // What subtrees mean under an AND or an OR.
  predicate Joined(kind: Kind, ts: seq<Tree>, env: Env) { if kind == AND then All(ts, env) else Any(ts, env) }

  // The meaning without regard to what is noted at the atoms already.
  predicate EvalPlain(t: Tree, env: Env) {
    match t
    case Leaf(n, inv) => env(n.value)
    case Op(_, kind, kids) =>
      if kind == AND then AllPlain(kids, env) else if kind == OR then AnyPlain(kids, env) else !AnyPlain(kids, env)
  }

  predicate AllPlain(ts: seq<Tree>, env: Env) {
    ts == [] || (EvalPlain(ts[0], env) && AllPlain(ts[1..], env))
  }

  predicate AnyPlain(ts: seq<Tree>, env: Env) {
    ts != [] && (EvalPlain(ts[0], env) || AnyPlain(ts[1..], env))
  }

  // No atom is noted as inverted, as in every tree from the parser.
  predicate Fresh(t: Tree) {
    match t
    case Leaf(_, inv) => !inv
    case Op(_, _, kids) => FreshAll(kids)
  }

  predicate FreshAll(ts: seq<Tree>) { ts != [] ==> Fresh(ts[0]) && FreshAll(ts[1..]) }

  lemma {:induction false} PlainIsMeaning(t: Tree, env: Env)
    requires Fresh(t)
    ensures EvalPlain(t, env) == Eval(t, env)
  {
    if t.Op? {
      PlainIsMeaningAll(t.kids, env);
    }
  }

  lemma {:induction false} PlainIsMeaningAll(ts: seq<Tree>, env: Env)
    requires FreshAll(ts)
    ensures AllPlain(ts, env) == All(ts, env) && AnyPlain(ts, env) == Any(ts, env)
  {
    if ts != [] {
      PlainIsMeaning(ts[0], env);
      PlainIsMeaningAll(ts[1..], env);
    }
  }

  // ---- Forms ----

  // Every NOT has exactly one subtree, as collapse_nots asks.
  predicate GoodNots(t: Tree) {
    t.Op? ==> (t.kind == NOT ==> |t.kids| == 1) && GoodNotsAll(t.kids)
  }

  predicate GoodNotsAll(ts: seq<Tree>) { ts != [] ==> GoodNots(ts[0]) && GoodNotsAll(ts[1..]) }

  predicate NoNots(t: Tree) { t.Op? ==> t.kind != NOT && NoNotsAll(t.kids) }

  predicate NoNotsAll(ts: seq<Tree>) { ts != [] ==> NoNots(ts[0]) && NoNotsAll(ts[1..]) }

  // Every AND and OR has something to work on.
  predicate Full(t: Tree) { t.Op? ==> (t.kind != NOT ==> t.kids != []) && t.kind != ATOM && FullAll(t.kids) }

  predicate FullAll(ts: seq<Tree>) { ts != [] ==> Full(ts[0]) && FullAll(ts[1..]) }

  // No operator is another than the one its node was made for.
  predicate AsMade(t: Tree) { t.Op? ==> t.kind == t.n.cls && AllAsMade(t.kids) }

  predicate AllAsMade(ts: seq<Tree>) { ts != [] ==> AsMade(ts[0]) && AllAsMade(ts[1..]) }

  // No AND or OR is below an odd number of NOTs, counting one more if `invert`.
  predicate Upright(t: Tree, invert: bool) {
    t.Op? ==> if t.kind == NOT then UprightAll(t.kids, !invert) else !invert && UprightAll(t.kids, invert)
  }

  predicate UprightAll(ts: seq<Tree>, invert: bool) {
    ts != [] ==> Upright(ts[0], invert) && UprightAll(ts[1..], invert)
  }

  lemma {:induction false} UprightAt(ts: seq<Tree>, invert: bool, i: nat)
    requires UprightAll(ts, invert) && i < |ts|
    ensures Upright(ts[i], invert)
  {
    if i > 0 {
      UprightAt(ts[1..], invert, i - 1);
    }
  }

  lemma {:induction false} MadeAt(ts: seq<Tree>, i: nat)
    requires AllAsMade(ts) && i < |ts|
    ensures AsMade(ts[i])
  {
    if i > 0 {
      MadeAt(ts[1..], i - 1);
    }
  }

  lemma {:induction false} FormsOfTwo(a: seq<Tree>, b: seq<Tree>)
    ensures NoNotsAll(a + b) <==> NoNotsAll(a) && NoNotsAll(b)
    ensures FullAll(a + b) <==> FullAll(a) && FullAll(b)
    ensures AllAsMade(a + b) <==> AllAsMade(a) && AllAsMade(b)
  {
    if a == [] {
      assert a + b == b;
    } else {
      FormsOfTwo(a[1..], b);
      assert (a + b)[1..] == a[1..] + b;
    }
  }
}

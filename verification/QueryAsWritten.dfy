// Where node.py does not do what it is for: the copy of a node whose operator De Morgan's law
// has turned over (core/apps/capture_node_api/lib/search/node.py).

module QueryAsWritten {
  import opened QueryTrees
  import opened Query
  import opened Collapse

  // copy as it is written: a new node of the same class, which has the operator of that class.
  function WrittenCopy(t: Tree): Tree {
    match t
    case Leaf(_, _) => t
    case Op(n, _, kids) => Op(n, n.cls, WrittenCopies(kids))
  }

  function WrittenCopies(ts: seq<Tree>): (rs: seq<Tree>)
    ensures |rs| == |ts|
  {
    if ts == [] then [] else [WrittenCopy(ts[0])] + WrittenCopies(ts[1..])
  }

  // The copy is like the original exactly if no operator in it has been turned over.
  lemma {:induction false} WrittenCopyIsAlike(t: Tree)
    ensures Alike(t, WrittenCopy(t)) <==> AsMade(t)
  {
    if t.Op? {
      WrittenCopiesAreAlike(t.kids);
    }
  }

  lemma {:induction false} WrittenCopiesAreAlike(ts: seq<Tree>)
    ensures AlikeAll(ts, WrittenCopies(ts)) <==> AllAsMade(ts)
  {
    if ts != [] {
      var rs := WrittenCopies(ts);
      assert rs[0] == WrittenCopy(ts[0]) && rs[1..] == WrittenCopies(ts[1..]);
      WrittenCopyIsAlike(ts[0]);
      WrittenCopiesAreAlike(ts[1..]);
    }
  }

  // ---- Distribution as written ----

  // The subtrees of the new OR, for an AND with the subtrees `rest` beside an OR of os: a copy
  // of the AND for each alternative but the last, which the AND itself takes.
  function WrittenSpread(n: Node, rest: seq<Tree>, os: seq<Tree>): seq<Tree> {
    if |os| <= 1 then WrittenLast(n, rest, os)
    else [Op(n, n.cls, WrittenCopies(rest) + [os[0]])] + WrittenSpread(n, rest, os[1..])
  }

  function WrittenLast(n: Node, rest: seq<Tree>, os: seq<Tree>): seq<Tree>
    requires |os| <= 1
  {
    if os == [] then [] else [Op(n, AND, rest + os)]
  }

  // It means the same if there is nothing to copy for, or nothing that is copied, the AND
  // included, has been turned over.
  lemma {:induction false} WrittenSpreadRight(n: Node, rest: seq<Tree>, os: seq<Tree>, env: Env)
    requires os != [] && (|os| == 1 || AsMade(Op(n, AND, rest)))
    ensures Any(WrittenSpread(n, rest, os), env) == (All(rest, env) && Any(os, env))
  {
    if |os| == 1 {
      assert os == [os[0]];
      MeaningOfTwo(rest, os, env);
      MeaningOfOne(os[0], env);
      MeaningOfOne(Op(n, AND, rest + os), env);
    } else {
      var copy := Op(n, n.cls, WrittenCopies(rest) + [os[0]]);
      WrittenSpreadRight(n, rest, os[1..], env);
      WrittenCopiesAreAlike(rest);
      AlikeMeansAll(rest, WrittenCopies(rest));
      MeaningOfTwo(WrittenCopies(rest), [os[0]], env);
      MeaningOfOne(os[0], env);
      MeaningOfTwo([copy], WrittenSpread(n, rest, os[1..]), env);
      MeaningOfOne(copy, env);
      assert All(rest, env) == All(WrittenCopies(rest), env);
    }
  }

  // ---- A search that comes out wrong ----

  // `(c or d) and not (a and b)`: the atoms ask for the values 2, 3, 0 and 1.
  predicate OneOfEach(z: Node, x: Node, w: Node, y: Node, a: Node, b: Node, c: Node, d: Node) {
    && z.cls == AND && x.cls == OR && w.cls == NOT && y.cls == AND
    && a.value == 0 && b.value == 1 && c.value == 2 && d.value == 3
  }

  function TheQuery(z: Node, x: Node, w: Node, y: Node, a: Node, b: Node, c: Node, d: Node): Tree {
    Op(z, AND, [Op(x, OR, [Leaf(c, false), Leaf(d, false)]),
                Op(w, NOT, [Op(y, AND, [Leaf(a, false), Leaf(b, false)])])])
  }

  // De Morgan's law makes the inner AND an OR of inverted atoms.
  function TurnedOr(y: Node, a: Node, b: Node): Tree { Op(y, OR, [Leaf(a, true), Leaf(b, true)]) }

  lemma OneKid(t: Tree, invert: bool)
    ensures PushedKids([t], invert, IsNot(t)) == [Pushed(t, invert)] && PushedKids([t], invert, !IsNot(t)) == []
  {
    assert [t][..0] == [];
  }

  lemma TwoLeaves(a: Node, b: Node, invert: bool)
    ensures PushedKids([Leaf(a, false), Leaf(b, false)], invert, false) == [Leaf(a, invert), Leaf(b, invert)]
    ensures PushedKids([Leaf(a, false), Leaf(b, false)], invert, true) == []
  {
    var ts := [Leaf(a, false), Leaf(b, false)];
    OneKid(Leaf(a, false), invert);
    assert ts[..1] == [Leaf(a, false)];
    assert PushedKids(ts, invert, false) == PushedKids(ts[..1], invert, false) + [Leaf(b, invert)];
    assert PushedKids(ts, invert, true) == PushedKids(ts[..1], invert, true) + [];
  }

  lemma PushedQuery(z: Node, x: Node, w: Node, y: Node, a: Node, b: Node, c: Node, d: Node)
    ensures Pushed(TheQuery(z, x, w, y, a, b, c, d), false) ==
            Op(z, AND, [Op(x, OR, [Leaf(c, false), Leaf(d, false)]), TurnedOr(y, a, b)])
  {
    var or, and := Op(x, OR, [Leaf(c, false), Leaf(d, false)]), Op(y, AND, [Leaf(a, false), Leaf(b, false)]);
    var not := Op(w, NOT, [and]);
    PushedOr(x, c, d);
    PushedNot(w, y, a, b);
    PushedBeside(or, not);
  }

  lemma PushedOr(x: Node, c: Node, d: Node)
    ensures Pushed(Op(x, OR, [Leaf(c, false), Leaf(d, false)]), false) == Op(x, OR, [Leaf(c, false), Leaf(d, false)])
  {
    TwoLeaves(c, d, false);
  }

  lemma PushedNot(w: Node, y: Node, a: Node, b: Node)
    ensures Pushed(Op(w, NOT, [Op(y, AND, [Leaf(a, false), Leaf(b, false)])]), false) == TurnedOr(y, a, b)
  {
    TwoLeaves(a, b, true);
    var and := Op(y, AND, [Leaf(a, false), Leaf(b, false)]);
    assert Pushed(and, true) == TurnedOr(y, a, b);
  }

  // A NOT goes after the other subtree.
  lemma PushedBeside(t: Tree, not: Tree)
    requires !IsNot(t) && IsNot(not)
    ensures PushedKids([t, not], false, false) == [Pushed(t, false)]
    ensures PushedKids([t, not], false, true) == [Pushed(not, false)]
  {
    OneKid(t, false);
    assert [t, not][..1] == [t];
    assert PushedKids([t, not], false, false) == PushedKids([t], false, false) + [];
    assert PushedKids([t, not], false, true) == PushedKids([t], false, true) + [Pushed(not, false)];
  }

  // For a flow with a and c but neither b nor d the search holds, but not what becomes of it:
  // the copy for c has an AND again where the OR of the inverted atoms was.
  lemma WrittenSpreadWrong(z: Node, x: Node, w: Node, y: Node, a: Node, b: Node, c: Node, d: Node)
    requires OneOfEach(z, x, w, y, a, b, c, d)
    ensures var env: Env := v => v == 0 || v == 2;
      && Eval(TheQuery(z, x, w, y, a, b, c, d), env)
      && !Any(WrittenSpread(z, [TurnedOr(y, a, b)], [Leaf(c, false), Leaf(d, false)]), env)
  {
    var env: Env := v => v == 0 || v == 2;
    QueryHolds(z, x, w, y, a, b, c, d, env);
    var rest, cs := [TurnedOr(y, a, b)], [Leaf(c, false), Leaf(d, false)];
    assert rest[1..] == [] && cs[1..] == [Leaf(d, false)];
    assert WrittenCopies(rest) == [WrittenCopy(TurnedOr(y, a, b))];
    CopyFails(y, a, b, env);
    var first, last := Op(z, AND, WrittenCopies(rest) + [cs[0]]), Op(z, AND, rest + cs[1..]);
    MeaningOfTwo(WrittenCopies(rest), [cs[0]], env);
    MeaningOfOne(WrittenCopy(TurnedOr(y, a, b)), env);
    MeaningOfTwo(rest, cs[1..], env);
    MeaningOfOne(cs[1], env);
    assert WrittenSpread(z, rest, cs) == [first] + [last];
    MeaningOfTwo([first], [last], env);
    MeaningOfOne(first, env);
    MeaningOfOne(last, env);
  }

  lemma QueryHolds(z: Node, x: Node, w: Node, y: Node, a: Node, b: Node, c: Node, d: Node, env: Env)
    requires !env(b.value) && env(c.value)
    ensures Eval(TheQuery(z, x, w, y, a, b, c, d), env)
  {
    var ab, cd := [Leaf(a, false), Leaf(b, false)], [Leaf(c, false), Leaf(d, false)];
    assert ab[1..] == [Leaf(b, false)];
    MeaningOfOne(Leaf(b, false), env);
    var or, not := Op(x, OR, cd), Op(w, NOT, [Op(y, AND, ab)]);
    assert !All(ab, env) && Eval(or, env);
    assert [Op(y, AND, ab)][0] == Op(y, AND, ab);
    MeaningOfOne(Op(y, AND, ab), env);
    assert [or, not][1..] == [not];
    MeaningOfOne(not, env);
  }

  lemma CopyFails(y: Node, a: Node, b: Node, env: Env)
    requires y.cls == AND && env(a.value)
    ensures !Eval(WrittenCopy(TurnedOr(y, a, b)), env)
  {
    var ts := [Leaf(a, true), Leaf(b, true)];
    var rs := WrittenCopies(ts);
    assert rs == [WrittenCopy(ts[0])] + WrittenCopies(ts[1..]);
    assert rs[0] == Leaf(a, true) && !All(rs, env);
  }
}

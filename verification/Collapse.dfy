// collapse and copy (core/apps/capture_node_api/lib/search/node.py).

module Collapse {
  import opened Sequences
  import opened QueryTrees

  // ---- Why it ends ----

  // What a tree amounts to when its ANDs are multiplied out. Distribution makes it smaller.
  function Weight(t: Tree): (w: nat)
    ensures w >= 1
  {
    match t
    case Leaf(_, _) => 1
    case Op(_, kind, kids) => if kind == AND then 2 * Product(kids) else 1 + Sum(kids)
  }

  function Product(ts: seq<Tree>): (w: nat)
    ensures w >= 1
  {
    if ts == [] then 1 else
      var a, b := Weight(ts[0]), Product(ts[1..]);
      assert a * b >= 1 by { Times(a, b); }
      a * b
  }

  lemma Times(a: nat, b: nat)
    requires a >= 1 && b >= 1
    ensures a * b >= a && a * b >= b
  {
    assert a * b == (a - 1) * b + b;
    assert a * b == a * (b - 1) + a;
  }

  function Sum(ts: seq<Tree>): nat { if ts == [] then 0 else Weight(ts[0]) + Sum(ts[1..]) }

  function Part(kind: Kind, ts: seq<Tree>): nat { if kind == AND then Product(ts) else Sum(ts) }

  lemma {:induction false} WeightOfTwo(a: seq<Tree>, b: seq<Tree>)
    ensures Product(a + b) == Product(a) * Product(b) && Sum(a + b) == Sum(a) + Sum(b)
  {
    if a == [] {
      assert a + b == b;
    } else {
      WeightOfTwo(a[1..], b);
      assert (a + b)[1..] == a[1..] + b;
      Regroup(Weight(a[0]), Product(a[1..]), Product(b));
    }
  }

  lemma Regroup(x: nat, y: nat, z: nat)
    ensures x * (y * z) == x * y * z
  {
  }

  // ---- Its clauses ----

  // An atom, inverted or not.
  datatype Literal = Literal(value: Value, inverted: bool)

  type Lits = multiset<Literal>

  // A clause of a search that is multiplied out: atoms to be met together. It is bare if it is an
  // atom that is below no AND.
  datatype Term = Term(lits: Lits, bare: bool)

  // The clauses, in the order in which they come when each AND is multiplied out from its first
  // subtree on.
  function Terms(t: Tree): seq<Term> {
    match t
    case Leaf(n, inv) => [Term(multiset{Literal(n.value, inv)}, true)]
    case Op(_, kind, kids) => TermsOf(kind, kids)
  }

  function TermsOf(kind: Kind, ts: seq<Tree>): seq<Term>
    decreases ts
  {
    if kind == AND then if ts == [] then [NO_ATOMS] else Crossed(Terms(ts[0]), TermsOf(kind, ts[1..]))
    else if ts == [] then [] else Terms(ts[0]) + TermsOf(kind, ts[1..])
  }

  const NO_ATOMS := Term(multiset{}, false)

  // Each clause of the first with each of the second.
  function Crossed(a: seq<Term>, b: seq<Term>): seq<Term> {
    if a == [] then [] else Each(a[0].lits, b) + Crossed(a[1..], b)
  }

  function Each(x: Lits, b: seq<Term>): (r: seq<Term>)
    ensures |r| == |b| && forall i :: 0 <= i < |r| ==> r[i] == Term(x + b[i].lits, false)
  {
    seq(|b|, i requires 0 <= i < |b| => Term(x + b[i].lits, false))
  }

  predicate NoneBare(s: seq<Term>) { forall i :: 0 <= i < |s| ==> !s[i].bare }

  lemma {:induction false} CrossedOfTwo(a: seq<Term>, b: seq<Term>, c: seq<Term>)
    ensures Crossed(a + b, c) == Crossed(a, c) + Crossed(b, c)
  {
    if a == [] {
      assert a + b == b;
    } else {
      CrossedOfTwo(a[1..], b, c);
      assert (a + b)[1..] == a[1..] + b;
      Associates(Each(a[0].lits, c), Crossed(a[1..], c), Crossed(b, c));
    }
  }

  lemma EachOfTwo(x: Lits, a: seq<Term>, b: seq<Term>)
    ensures Each(x, a + b) == Each(x, a) + Each(x, b)
  {
  }

  lemma EachTwice(x: Lits, y: Lits, a: seq<Term>)
    ensures Each(x, Each(y, a)) == Each(x + y, a)
  {
    forall i | 0 <= i < |a| ensures Each(x, Each(y, a))[i] == Each(x + y, a)[i] {
      Grouped(x, y, a[i].lits);
    }
  }

  lemma OneSum(x: Lits, y: Lits)
    ensures x + y == y + x
  {
  }

  lemma Grouped(x: Lits, y: Lits, z: Lits)
    ensures x + y + z == x + (y + z)
  {
  }

  lemma {:induction false} CrossedEach(x: Lits, a: seq<Term>, b: seq<Term>)
    ensures Crossed(Each(x, a), b) == Each(x, Crossed(a, b))
  {
    if a != [] {
      CrossedEach(x, a[1..], b);
      assert Each(x, a)[1..] == Each(x, a[1..]);
      EachTwice(x, a[0].lits, b);
      EachOfTwo(x, Each(a[0].lits, b), Crossed(a[1..], b));
    }
  }

  lemma {:induction false} CrossedOfThree(a: seq<Term>, b: seq<Term>, c: seq<Term>)
    ensures Crossed(Crossed(a, b), c) == Crossed(a, Crossed(b, c))
  {
    if a != [] {
      CrossedOfThree(a[1..], b, c);
      CrossedOfTwo(Each(a[0].lits, b), Crossed(a[1..], b), c);
      CrossedEach(a[0].lits, b, c);
    }
  }

  lemma {:induction false} CrossedIsNotBare(a: seq<Term>, b: seq<Term>)
    ensures NoneBare(Crossed(a, b))
  {
    if a != [] {
      CrossedIsNotBare(a[1..], b);
    }
  }

  lemma OneCrossed(x: Term, a: seq<Term>)
    ensures Crossed([x], a) == Each(x.lits, a)
  {
    assert [x][1..] == [];
  }

  lemma {:induction false} CrossedOne(a: seq<Term>, x: Term)
    ensures Crossed(a, [x]) == Each(x.lits, a)
  {
    if a != [] {
      CrossedOne(a[1..], x);
      assert Each(a[0].lits, [x]) == [Term(a[0].lits + x.lits, false)];
      OneSum(a[0].lits, x.lits);
      assert Each(x.lits, a) == [Term(x.lits + a[0].lits, false)] + Each(x.lits, a[1..]);
    }
  }

  lemma NothingMore(a: seq<Term>)
    requires NoneBare(a)
    ensures Each(multiset{}, a) == a
  {
    forall i | 0 <= i < |a| ensures Each(multiset{}, a)[i] == a[i] {
      assert multiset{} + a[i].lits == a[i].lits;
    }
  }

  lemma AndIsNotBare(ts: seq<Tree>)
    ensures NoneBare(TermsOf(AND, ts))
  {
    if ts != [] {
      CrossedIsNotBare(Terms(ts[0]), TermsOf(AND, ts[1..]));
    }
  }

  lemma {:induction false} TermsOfTwo(kind: Kind, a: seq<Tree>, b: seq<Tree>)
    ensures TermsOf(kind, a + b) ==
            if kind == AND then Crossed(TermsOf(kind, a), TermsOf(kind, b)) else TermsOf(kind, a) + TermsOf(kind, b)
  {
    if a == [] {
      assert a + b == b;
      AndIsNotBare(b);
      OneCrossed(NO_ATOMS, TermsOf(AND, b));
      NothingMore(TermsOf(AND, b));
    } else {
      TermsOfTwo(kind, a[1..], b);
      assert (a + b)[1..] == a[1..] + b;
      CrossedOfThree(Terms(a[0]), TermsOf(AND, a[1..]), TermsOf(AND, b));
    }
  }

  lemma TermsOfOne(kind: Kind, t: Tree)
    ensures TermsOf(kind, [t]) == if kind == AND then Each(multiset{}, Terms(t)) else Terms(t)
  {
    assert [t][1..] == [];
    CrossedOne(Terms(t), NO_ATOMS);
  }

  // Multiplied out they have the same clauses in the same order.
  predicate SameClauses(t: Tree, r: Tree) { Terms(t) == Terms(r) }

  predicate SameParts(kind: Kind, ts: seq<Tree>, rs: seq<Tree>) { TermsOf(kind, ts) == TermsOf(kind, rs) }

  lemma OneAlike(kind: Kind, t: Tree, r: Tree)
    requires SameClauses(t, r)
    ensures SameParts(kind, [t], [r])
  {
    TermsOfOne(kind, t);
    TermsOfOne(kind, r);
  }

  lemma PartsOfTwo(kind: Kind, a: seq<Tree>, b: seq<Tree>, c: seq<Tree>, d: seq<Tree>)
    requires SameParts(kind, a, c) && SameParts(kind, b, d)
    ensures SameParts(kind, a + b, c + d)
  {
    TermsOfTwo(kind, a, b);
    TermsOfTwo(kind, c, d);
  }

  lemma WeightOfOne(t: Tree)
    ensures Product([t]) == Sum([t]) == Weight(t)
  {
    assert [t][1..] == [];
  }

  lemma {:induction false} KidIsLighter(t: Tree, i: nat)
    requires t.Op? && i < |t.kids|
    ensures Weight(t.kids[i]) < Weight(t)
  {
    PartAtLeast(t.kids, i);
  }

  lemma {:induction false} PartAtLeast(ts: seq<Tree>, i: nat)
    requires i < |ts|
    ensures Weight(ts[i]) <= Product(ts) && Weight(ts[i]) <= Sum(ts)
  {
    Times(Weight(ts[0]), Product(ts[1..]));
    if i > 0 {
      PartAtLeast(ts[1..], i - 1);
    }
  }

  // ---- Forms ----

  predicate AllLeaves(ts: seq<Tree>) { forall i :: 0 <= i < |ts| ==> ts[i].Leaf? }

  // An AND of atoms.
  predicate Clause(t: Tree) { t.Op? && t.kind == AND && t.kids != [] && AllLeaves(t.kids) }

  predicate LeafOrClause(t: Tree) { t.Leaf? || Clause(t) }

  predicate Clauses(ts: seq<Tree>) { forall i :: 0 <= i < |ts| ==> LeafOrClause(ts[i]) }

  // An atom, an AND of atoms, or an OR of such.
  predicate Flat(t: Tree) { LeafOrClause(t) || FlatOr(t) }

  predicate FlatOr(t: Tree) { t.Op? && t.kind == OR && t.kids != [] && Clauses(t.kids) }

  // What the subtrees of an AND or OR are once they are collapsed and merged.
  predicate Merged(kind: Kind, ts: seq<Tree>) {
    forall i :: 0 <= i < |ts| ==> if kind == AND then ts[i].Leaf? || FlatOr(ts[i]) else LeafOrClause(ts[i])
  }

  ghost predicate SameMeaning(t: Tree, r: Tree) { forall env: Env :: Eval(t, env) == Eval(r, env) }

  // ---- copy ----

  // The same tree on other nodes.
  predicate Alike(t: Tree, r: Tree) {
    match t
    case Leaf(n, inv) => r.Leaf? && r.inv == inv && r.n.value == n.value
    case Op(_, kind, kids) => r.Op? && r.kind == kind && AlikeAll(kids, r.kids)
  }

  predicate AlikeAll(ts: seq<Tree>, rs: seq<Tree>) {
    |ts| == |rs| && (ts != [] ==> Alike(ts[0], rs[0]) && AlikeAll(ts[1..], rs[1..]))
  }

  lemma {:induction false} AlikeMeans(t: Tree, r: Tree)
    requires Alike(t, r)
    ensures SameMeaning(t, r) && Weight(t) == Weight(r) && (Full(t) ==> Full(r)) && (NoNots(t) ==> NoNots(r))
  {
    if t.Op? {
      AlikeMeansAll(t.kids, r.kids);
      forall env: Env ensures Eval(t, env) == Eval(r, env) {
        assert All(t.kids, env) == All(r.kids, env) && Any(t.kids, env) == Any(r.kids, env);
      }
    }
  }

  lemma {:induction false} AlikeMeansAll(ts: seq<Tree>, rs: seq<Tree>)
    requires AlikeAll(ts, rs)
    ensures forall env: Env :: All(ts, env) == All(rs, env) && Any(ts, env) == Any(rs, env)
    ensures Product(ts) == Product(rs) && Sum(ts) == Sum(rs)
    ensures (FullAll(ts) ==> FullAll(rs)) && (NoNotsAll(ts) ==> NoNotsAll(rs))
  {
    if ts != [] {
      AlikeMeans(ts[0], rs[0]);
      AlikeMeansAll(ts[1..], rs[1..]);
      forall env: Env ensures All(ts, env) == All(rs, env) && Any(ts, env) == Any(rs, env) {
        assert Eval(ts[0], env) == Eval(rs[0], env) && All(ts[1..], env) == All(rs[1..], env);
      }
    }
  }

  lemma {:induction false} AlikeOneMore(ts: seq<Tree>, rs: seq<Tree>, t: Tree, r: Tree)
    requires AlikeAll(ts, rs) && Alike(t, r)
    ensures AlikeAll(ts + [t], rs + [r])
  {
    if ts == [] {
      assert [t][1..] == [] && [r][1..] == [];
      assert ts + [t] == [t] && rs + [r] == [r];
    } else {
      AlikeOneMore(ts[1..], rs[1..], t, r);
      assert (ts + [t])[1..] == ts[1..] + [t] && (rs + [r])[1..] == rs[1..] + [r];
    }
  }

  // append of a whole tree to another.
  method Adopt(p: Node, c: Node, ghost t: Tree, ghost r: Tree) returns (ghost u: Tree)
    requires t.n == p && t.Op? && NoneTwice(t) && IsTree(t) && r.n == c && NoneTwice(r) && IsTree(r) &&
             Nodes(t) !! Nodes(r)
    modifies p`subtrees, c`parent
    ensures u == Op(p, t.kind, t.kids + [r]) && NoneTwice(u) && IsTree(u) && Nodes(u) == Nodes(t) + Nodes(r)
  {
    u := Op(p, t.kind, t.kids + [r]);
    OneTree(r, p);
    NodesOfTwo(t.kids, [r]);
    assert allocated(NodesAll(t.kids)) && allocated(Nodes(r));
    var ok := p.Append(c);
    TreesOfTwo(t.kids, [r], p);
    OneTree(r, p);
    assert Roots(t.kids + [r]) == Roots(t.kids) + [c];
  }

  // copy. The copy has the operator the original has now; as it is written, that of the class
  // the original was made from, which is the same if none has been turned over.
  method Copy(n: Node, written: bool, ghost t: Tree) returns (m: Node, ghost r: Tree)
    requires t.n == n && IsTree(t) && (written ==> AsMade(t))
    ensures m == r.n && Whole(r) && Alike(t, r) && AsMade(r) && fresh(Nodes(r))
    decreases t, 1
  {
    if n.cls == ATOM {
      m := new Node.Atom(n.value, n.inverted);
      return m, Leaf(m, t.inv);
    }
    ghost var all := Nodes(t);
    assert allocated(all);
    m := new Node.Logic(if written then n.cls else n.kind);
    r := Op(m, t.kind, []);
    assert Roots([]) == [];
    for i := 0 to |n.subtrees|
      invariant all !! Nodes(r) && IsTree(t) && r.Op? && m == r.n && Whole(r) && r.kind == t.kind && AsMade(r)
      invariant forall x <- Nodes(r) :: fresh(x)
      invariant AlikeAll(t.kids[..i], r.kids)
    {
      r := CopyKid(n, i, written, m, t, r);
    }
    assert t.kids[..|t.kids|] == t.kids;
  }

  method CopyKid(n: Node, i: nat, written: bool, m: Node, ghost t: Tree, ghost r: Tree) returns (ghost u: Tree)
    requires t.n == n && IsTree(t) && t.Op? && i < |t.kids| && m == r.n && r.Op? && Whole(r) && r.kind == t.kind
    requires AlikeAll(t.kids[..i], r.kids) && Nodes(t) !! Nodes(r) && (written ==> AsMade(t)) && AsMade(r)
    modifies m`subtrees
    ensures u.Op? && m == u.n && Whole(u) && u.kind == t.kind && AlikeAll(t.kids[..i + 1], u.kids) && AsMade(u)
    ensures forall x <- Nodes(u) :: x in Nodes(r) || fresh(x)
    decreases t, 0
  {
    KidIsTree(t.kids, n, i);
    var c;
    ghost var q;
    assert allocated(Nodes(r));
    if written {
      MadeAt(t.kids, i);
    }
    c, q := Copy(n.subtrees[i], written, t.kids[i]);
    MadeWith(r.kids, q);
    AlikeOneMore(t.kids[..i], r.kids, t.kids[i], q);
    assert t.kids[..i] + [t.kids[i]] == t.kids[..i + 1];
    u := Adopt(m, c, r, q);
  }

  lemma MadeWith(ts: seq<Tree>, t: Tree)
    ensures AllAsMade(ts + [t]) <==> AllAsMade(ts) && AsMade(t)
  {
    FormsOfTwo(ts, [t]);
    assert [t][1..] == [];
  }

  lemma {:induction false} KidIsTree(ts: seq<Tree>, p: Node?, i: nat)
    requires AreTrees(ts, p) && i < |ts|
    ensures IsTree(ts[i]) && ts[i].n.parent == p && Nodes(ts[i]) <= NodesAll(ts)
  {
    if i > 0 {
      KidIsTree(ts[1..], p, i - 1);
    }
  }

  // ---- Merging: what the rounds of the first loop do ----

  lemma {:induction false} LeavesAreSimple(ts: seq<Tree>)
    requires AllLeaves(ts)
    ensures FullAll(ts) && NoNotsAll(ts)
  {
    if ts != [] {
      LeavesAreSimple(ts[1..]);
    }
  }

  lemma {:induction false} ClausesAreSimple(ts: seq<Tree>)
    requires Clauses(ts)
    ensures FullAll(ts) && NoNotsAll(ts)
  {
    if ts != [] {
      ClausesAreSimple(ts[1..]);
      if ts[0].Op? {
        LeavesAreSimple(ts[0].kids);
      }
    }
  }

  lemma FlatIsSimple(t: Tree)
    requires Flat(t)
    ensures Full(t) && NoNots(t)
  {
    if FlatOr(t) {
      ClausesAreSimple(t.kids);
    } else if t.Op? {
      LeavesAreSimple(t.kids);
    }
  }

  // The subtrees `done` stand for the subtrees `before`.
  ghost predicate Collected(kind: Kind, before: seq<Tree>, done: seq<Tree>) {
    && (forall env: Env :: Joined(kind, done, env) == Joined(kind, before, env))
    && Part(kind, done) <= Part(kind, before) && Merged(kind, done) && (before != [] ==> done != [])
    && SameParts(kind, before, done)
    && (AllAsMade(before) ==> AllAsMade(done))
  }

  // What is put in the list for a collapsed subtree: its own subtrees if it is of the same kind.
  function Parts(kind: Kind, r: Tree): seq<Tree> { if r.Op? && r.kind == kind then r.kids else [r] }

  lemma PartsOfParts(kind: Kind, r: Tree)
    ensures SameParts(kind, [r], Parts(kind, r))
  {
    TermsOfOne(kind, r);
    if kind == AND && r.Op? && r.kind == AND {
      AndIsNotBare(r.kids);
      NothingMore(Terms(r));
    }
  }

  lemma PartsMean(kind: Kind, r: Tree)
    requires Flat(r) && (kind == AND || kind == OR)
    ensures forall env: Env :: Joined(kind, Parts(kind, r), env) == Eval(r, env)
    ensures Part(kind, Parts(kind, r)) <= Weight(r) && Merged(kind, Parts(kind, r)) && Parts(kind, r) != []
    ensures AsMade(r) ==> AllAsMade(Parts(kind, r))
    ensures SameParts(kind, [r], Parts(kind, r))
  {
    WeightOfOne(r);
    PartsOfParts(kind, r);
    MadeWith([], r);
    assert [] + [r] == [r];
    forall env: Env {
      MeaningOfOne(r, env);
    }
  }

  lemma Grows(a: nat, b: nat, c: nat, d: nat)
    requires a <= c && b <= d
    ensures a * b <= c * d
  {
    assert c * d == a * d + (c - a) * d && a * d == a * b + a * (d - b);
    assert (c - a) * d >= 0 && a * (d - b) >= 0;
  }

  lemma PartOfTwo(kind: Kind, a: seq<Tree>, b: seq<Tree>, c: seq<Tree>, d: seq<Tree>)
    requires Part(kind, a) <= Part(kind, c) && Part(kind, b) <= Part(kind, d)
    ensures Part(kind, a + b) <= Part(kind, c + d)
  {
    WeightOfTwo(a, b);
    WeightOfTwo(c, d);
    if kind == AND {
      Grows(Product(a), Product(b), Product(c), Product(d));
    }
  }

  lemma CollectMore(kind: Kind, before: seq<Tree>, done: seq<Tree>, t: Tree, r: Tree)
    requires (kind == AND || kind == OR) && Collected(kind, before, done) && Flat(r) && SameMeaning(t, r) &&
             Weight(r) <= Weight(t)
    requires SameClauses(t, r) && (AsMade(t) ==> AsMade(r))
    ensures Collected(kind, before + [t], done + Parts(kind, r))
  {
    var more := Parts(kind, r);
    PartsMean(kind, r);
    OneAlike(kind, t, r);
    PartsOfTwo(kind, before, [t], done, more);
    WeightOfOne(t);
    PartOfTwo(kind, done, more, before, [t]);
    MadeWith(before, t);
    FormsOfTwo(done, more);
    forall env: Env ensures Joined(kind, done + more, env) == Joined(kind, before + [t], env) {
      MeaningOfTwo(done, more, env);
      MeaningOfTwo(before, [t], env);
      MeaningOfOne(t, env);
      assert Joined(kind, done, env) == Joined(kind, before, env) &&
             Joined(kind, more, env) == Eval(r, env) == Eval(t, env);
    }
  }

  // ---- Distribution: what the second part does ----

  // One of the new ANDs: the rest and one alternative.
  predicate Alternative(rest: seq<Tree>, o: Tree, a: Tree) {
    a.Op? && a.kind == AND && |a.kids| == |rest| + 1 && AlikeAll(rest, a.kids[..|rest|]) && a.kids[|rest|] == o
  }

  predicate Spread(rest: seq<Tree>, os: seq<Tree>, ands: seq<Tree>) {
    |os| == |ands| && (os != [] ==> Alternative(rest, os[0], ands[0]) && Spread(rest, os[1..], ands[1..]))
  }

  lemma {:induction false} AlikeTermsAll(kind: Kind, ts: seq<Tree>, rs: seq<Tree>)
    requires AlikeAll(ts, rs)
    ensures SameParts(kind, ts, rs)
    decreases ts, 0
  {
    if ts != [] {
      AlikeTerms(ts[0], rs[0]);
      AlikeTermsAll(kind, ts[1..], rs[1..]);
    }
  }

  lemma {:induction false} AlikeTerms(t: Tree, r: Tree)
    requires Alike(t, r)
    ensures SameClauses(t, r)
    decreases t, 1
  {
    if t.Op? {
      AlikeTermsAll(t.kind, t.kids, r.kids);
    }
  }

  lemma {:induction false} LeavesAreOne(ts: seq<Tree>)
    requires AllLeaves(ts)
    ensures |TermsOf(AND, ts)| == 1
  {
    if ts != [] {
      LeavesAreOne(ts[1..]);
      OneCrossed(Terms(ts[0])[0], TermsOf(AND, ts[1..]));
      assert [Terms(ts[0])[0]] == Terms(ts[0]);
    }
  }

  lemma OneTerm(o: Tree) returns (y: Term)
    requires LeafOrClause(o)
    ensures Terms(o) == [y]
  {
    if o.Op? {
      LeavesAreOne(o.kids);
    }
    y := Terms(o)[0];
  }

  lemma OneLast(x: Lits, y: Lits, more: seq<Term>)
    ensures Each(y, Each(x, more)) == Each(x, Each(y, more))
  {
    EachTwice(y, x, more);
    EachTwice(x, y, more);
    OneSum(x, y);
  }

  // x is what all clauses of the rest have in common.
  lemma AlternativeTerms(rest: seq<Tree>, o: Tree, a: Tree, x: Lits, more: seq<Term>)
    requires Alternative(rest, o, a) && LeafOrClause(o) && TermsOf(AND, rest) == Each(x, more)
    ensures Terms(a) == Each(x, Crossed(Terms(o), more))
  {
    var copy := a.kids[..|rest|];
    assert a.kids == copy + [o];
    AlikeTermsAll(AND, rest, copy);
    TermsOfTwo(AND, copy, [o]);
    var y := OneTerm(o);
    WithOne(o, y, Each(x, more));
    OneCrossed(y, more);
    OneLast(x, y.lits, more);
  }

  lemma WithOne(o: Tree, y: Term, s: seq<Term>)
    requires Terms(o) == [y]
    ensures Crossed(s, TermsOf(AND, [o])) == Each(y.lits, s)
  {
    TermsOfOne(AND, o);
    assert multiset{} + y.lits == y.lits;
    assert Each(multiset{}, [y]) == [Term(y.lits, false)];
    CrossedOne(s, Term(y.lits, false));
  }

  lemma {:induction false} SpreadTerms(rest: seq<Tree>, os: seq<Tree>, ands: seq<Tree>, x: Lits, more: seq<Term>)
    requires Spread(rest, os, ands) && Clauses(os) && TermsOf(AND, rest) == Each(x, more)
    ensures TermsOf(OR, ands) == Each(x, Crossed(TermsOf(OR, os), more))
  {
    if os != [] {
      AlternativeTerms(rest, os[0], ands[0], x, more);
      SpreadTerms(rest, os[1..], ands[1..], x, more);
      CrossedOfTwo(Terms(os[0]), TermsOf(OR, os[1..]), more);
      EachOfTwo(x, Crossed(Terms(os[0]), more), Crossed(TermsOf(OR, os[1..]), more));
    }
  }

  // Distribution over the first OR neither makes nor loses a clause, and keeps them in order.
  lemma DistributesTerms(t: Tree, j: nat, u: Tree)
    requires t.Op? && t.kind == AND && j < |t.kids| && AllLeaves(t.kids[..j]) && FlatOr(t.kids[j])
    requires u.Op? && u.kind == OR && Spread(t.kids[..j] + t.kids[j + 1..], t.kids[j].kids, u.kids)
    ensures SameClauses(t, u)
  {
    var pre, or, post := t.kids[..j], t.kids[j], t.kids[j + 1..];
    assert t.kids == pre + ([or] + post);
    LeavesAreOne(pre);
    var x, more := TermsOf(AND, pre)[0], TermsOf(AND, post);
    assert TermsOf(AND, pre) == [x];
    TermsOfTwo(AND, pre, post);
    OneCrossed(x, more);
    SpreadTerms(pre + post, or.kids, u.kids, x.lits, more);
    TermsOfTwo(AND, [or], post);
    TermsOfTwo(AND, pre, [or] + post);
    TermsOfOne(AND, or);
    CrossedEach(multiset{}, Terms(or), more);
    CrossedIsNotBare(Terms(or), more);
    NothingMore(Crossed(Terms(or), more));
    OneCrossed(x, TermsOf(AND, [or] + post));
  }

  lemma AlternativeMeans(rest: seq<Tree>, o: Tree, a: Tree)
    requires Alternative(rest, o, a)
    ensures forall env: Env :: Eval(a, env) == (All(rest, env) && Eval(o, env))
    ensures Weight(a) == 2 * (Product(rest) * Weight(o))
    ensures FullAll(rest) && Full(o) ==> Full(a)
    ensures NoNotsAll(rest) && NoNots(o) ==> NoNots(a)
  {
    var copy := a.kids[..|rest|];
    assert a.kids == copy + [o];
    AlikeMeansAll(rest, copy);
    WeightOfTwo(copy, [o]);
    WeightOfOne(o);
    FormsOfTwo(copy, [o]);
    assert [o][1..] == [];
    forall env: Env ensures Eval(a, env) == (All(rest, env) && Eval(o, env)) {
      MeaningOfTwo(copy, [o], env);
      MeaningOfOne(o, env);
      assert All(rest, env) == All(copy, env);
    }
  }

  lemma {:induction false} SpreadMeans(rest: seq<Tree>, os: seq<Tree>, ands: seq<Tree>)
    requires Spread(rest, os, ands)
    ensures forall env: Env :: Any(ands, env) == (All(rest, env) && Any(os, env))
    ensures Sum(ands) == 2 * (Product(rest) * Sum(os))
    ensures FullAll(rest) && FullAll(os) ==> FullAll(ands)
    ensures NoNotsAll(rest) && NoNotsAll(os) ==> NoNotsAll(ands)
  {
    if os != [] {
      AlternativeMeans(rest, os[0], ands[0]);
      SpreadMeans(rest, os[1..], ands[1..]);
      Spreads(Product(rest), Weight(os[0]), Sum(os[1..]));
    }
  }

  lemma Spreads(x: nat, y: nat, z: nat)
    ensures x * (y + z) == x * y + x * z
  {
  }

  lemma {:induction false} SpreadOneMore(rest: seq<Tree>, os: seq<Tree>, ands: seq<Tree>, o: Tree, a: Tree)
    requires Spread(rest, os, ands) && Alternative(rest, o, a)
    ensures Spread(rest, os + [o], ands + [a])
  {
    if os == [] {
      assert os + [o] == [o] && ands + [a] == [a] && [o][1..] == [] && [a][1..] == [];
    } else {
      SpreadOneMore(rest, os[1..], ands[1..], o, a);
      assert (os + [o])[1..] == os[1..] + [o] && (ands + [a])[1..] == ands[1..] + [a];
    }
  }

  // An AND with an OR among its subtrees, and what becomes of it: the same meaning, and lighter.
  lemma Distributes(t: Tree, j: nat, u: Tree)
    requires t.Op? && t.kind == AND && j < |t.kids| && t.kids[j].Op? && t.kids[j].kind == OR && t.kids[j].kids != []
    requires u.Op? && u.kind == OR && Spread(t.kids[..j] + t.kids[j + 1..], t.kids[j].kids, u.kids)
    ensures SameMeaning(t, u) && Weight(u) < Weight(t) && (Full(t) ==> Full(u)) && (NoNots(t) ==> NoNots(u))
  {
    var pre, or, post := t.kids[..j], t.kids[j], t.kids[j + 1..];
    assert t.kids == pre + ([or] + post);
    SpreadMeans(pre + post, or.kids, u.kids);
    WeightOfTwo(pre, post);
    WeightOfTwo([or], post);
    WeightOfTwo(pre, [or] + post);
    WeightOfOne(or);
    FormsOfTwo(pre, [or] + post);
    FormsOfTwo([or], post);
    FormsOfTwo(pre, post);
    assert [or][1..] == [];
    Reorder(Product(pre), Weight(or), Product(post));
    Spreads(Product(pre + post), 1, Sum(or.kids));
    forall env: Env ensures Eval(t, env) == Eval(u, env) {
      MeaningOfTwo(pre, [or] + post, env);
      MeaningOfTwo([or], post, env);
      MeaningOfTwo(pre, post, env);
      MeaningOfOne(or, env);
      assert Any(u.kids, env) == (All(pre + post, env) && Any(or.kids, env));
    }
  }

  lemma Reorder(x: nat, y: nat, z: nat)
    ensures x * (y * z) == x * z * y
  {
    assert y * z == z * y;
    Regroup(x, z, y);
  }
}

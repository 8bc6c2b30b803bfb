// The clauses of a search when it is multiplied out, and what they ask for
// (core/apps/capture_node_api/lib/search/node.py).

module SearchClauses {
  import opened Network
  import opened QueryTrees
  import opened Query
  import opened Collapse
  import opened Normalize
  import opened Prune
  import opened SubSearches

  // ---- The atoms ----

  // What the atoms of a search ask for, by their numbers.
  datatype AtomValue = AtomValue(tt: KeyType, block: Block, port: nat)

  type Table = Value -> AtomValue

  ghost predicate GoodValue(v: AtomValue) {
    && v.tt != FLOW && IsBlock(v.block)
    && (IsIp(v.tt) ==> v.block.width == if v.tt == SRCv4 || v.tt == DSTv4 then 32 else 128)
  }

  ghost predicate GoodTable(table: Table) { forall v :: GoodValue(table(v)) }

  predicate AsksFor(v: AtomValue, p: PacketRecord)
    requires v.tt != FLOW
  {
    Applies(p, v.tt) && if IsIp(v.tt) then Contains(v.block, KeyVal(p, v.tt)) else KeyVal(p, v.tt) == v.port
  }

  function SignedFor(table: Table, x: Literal): Signed {
    var v := table(x.value);
    Signed(RangeOf(v.tt, v.block, v.port), x.inverted)
  }

  // ---- The clauses of a normal form ----

  // The atoms of a clause.
  function LitsOf(ts: seq<Tree>): (r: seq<Literal>)
    requires AllLeaves(ts)
    ensures |r| == |ts| && forall i :: 0 <= i < |r| ==> r[i] == Literal(ts[i].n.value, ts[i].inv)
  {
    seq(|ts|, i requires 0 <= i < |ts| && AllLeaves(ts) => Literal(ts[i].n.value, ts[i].inv))
  }

  lemma {:induction false} LeavesTerms(ts: seq<Tree>)
    requires AllLeaves(ts)
    ensures TermsOf(AND, ts) == [Term(multiset(LitsOf(ts)), false)]
  {
    if ts != [] {
      LeavesTerms(ts[1..]);
      assert LitsOf(ts) == [LitsOf(ts)[0]] + LitsOf(ts[1..]);
      CrossedOne(Terms(ts[0]), Term(multiset(LitsOf(ts[1..])), false));
      OneSum(multiset(LitsOf(ts[1..])), Terms(ts[0])[0].lits);
    }
  }

  lemma {:induction false} ClausesTerms(ts: seq<Tree>)
    requires forall i :: 0 <= i < |ts| ==> Clause(ts[i])
    ensures |TermsOf(OR, ts)| == |ts|
    ensures forall i :: 0 <= i < |ts| ==>
              Clause(ts[i]) && TermsOf(OR, ts)[i] == Term(multiset(LitsOf(ts[i].kids)), false)
  {
    if ts != [] {
      LeavesTerms(ts[0].kids);
      ClausesTerms(ts[1..]);
      assert forall i :: 1 <= i < |ts| ==> ts[i] == ts[1..][i - 1];
    }
  }

  // ---- What the clauses of a search ask for ----

  ghost predicate Spells(w: seq<Signed>, lits: seq<Literal>, table: Table) {
    |lits| == |w| && forall k :: 0 <= k < |w| ==> w[k] == SignedFor(table, lits[k])
  }

  // w has what the atoms in c ask for.
  ghost predicate Arranges(w: seq<Signed>, c: Lits, table: Table) {
    exists lits: seq<Literal> :: multiset(lits) == c && Spells(w, lits, table)
  }

  // The clauses of a search, multiplied out and in their order.
  ghost predicate MultipliedOut(t: Tree, table: Table, was: seq<seq<Signed>>) {
    |was| == |Multiplied(t)| && forall i :: 0 <= i < |was| ==> Arranges(was[i], Multiplied(t)[i].lits, table)
  }

  // What pruning leaves of the clauses of a search.
  ghost predicate LeftOf(t: Tree, table: Table, left: seq<seq<Signed>>) {
    exists was :: MultipliedOut(t, table, was) && LeftFrom(was, left)
  }

  lemma NormalTerms(t: Tree, r: Tree, was: seq<seq<Signed>>, table: Table)
    requires Normal(r) && Terms(r) == Multiplied(t) && |was| == |r.kids|
    requires forall i :: 0 <= i < |was| ==> Arranges(was[i], multiset(LitsOf(r.kids[i].kids)), table)
    ensures MultipliedOut(t, table, was)
  {
    ClausesTerms(r.kids);
  }

  lemma AskedByAtom(w: seq<Signed>, c: Lits, table: Table, k: nat) returns (lit: Literal)
    requires Arranges(w, c, table) && k < |w|
    ensures lit in c && w[k] == SignedFor(table, lit)
  {
    var lits: seq<Literal> :| multiset(lits) == c && Spells(w, lits, table);
    lit := lits[k];
    assert lit in multiset(lits);
  }

  lemma AtomIsAsked(w: seq<Signed>, c: Lits, table: Table, lit: Literal) returns (k: nat)
    requires Arranges(w, c, table) && lit in c
    ensures k < |w| && w[k] == SignedFor(table, lit)
  {
    var lits: seq<Literal> :| multiset(lits) == c && Spells(w, lits, table);
    assert lit in multiset(lits);
    k :| 0 <= k < |lits| && lits[k] == lit;
  }

  // ---- Searches whose atoms all have one sign ----

  // The atoms of a search, each with its sign.
  ghost function Leaves(t: Tree): set<Literal> {
    match t
    case Leaf(n, inv) => {Literal(n.value, inv)}
    case Op(_, _, kids) => LeavesAll(kids)
  }

  ghost function LeavesAll(ts: seq<Tree>): set<Literal> {
    if ts == [] then {} else Leaves(ts[0]) + LeavesAll(ts[1..])
  }

  ghost predicate LitsIn(s: seq<Term>, lits: set<Literal>) {
    forall i, x :: 0 <= i < |s| && x in s[i].lits ==> x in lits
  }

  lemma {:induction false} CrossedIn(a: seq<Term>, b: seq<Term>, lits: set<Literal>)
    requires LitsIn(a, lits) && LitsIn(b, lits)
    ensures LitsIn(Crossed(a, b), lits)
  {
    if a != [] {
      CrossedIn(a[1..], b, lits);
      assert forall x <- a[0].lits :: x in lits;
      assert LitsIn(Each(a[0].lits, b), lits);
    }
  }

  lemma {:induction false} TermsInLeaves(t: Tree)
    ensures LitsIn(Terms(t), Leaves(t))
    decreases t, 1
  {
    if t.Op? {
      TermsInLeavesAll(t.kind, t.kids);
    }
  }

  lemma {:induction false} TermsInLeavesAll(kind: Kind, ts: seq<Tree>)
    ensures LitsIn(TermsOf(kind, ts), LeavesAll(ts))
    decreases ts, 0
  {
    if ts != [] {
      TermsInLeaves(ts[0]);
      TermsInLeavesAll(kind, ts[1..]);
      if kind == AND {
        CrossedIn(Terms(ts[0]), TermsOf(kind, ts[1..]), LeavesAll(ts));
      }
    }
  }

  lemma {:induction false} BareIn(s: seq<Term>, lits: set<Literal>)
    requires LitsIn(s, lits)
    ensures LitsIn(NotBare(s), lits) && LitsIn(Bare(s), lits)
  {
    if s != [] {
      BareIn(s[1..], lits);
    }
  }

  // No two atoms of the search, with the NOTs pushed down, ask for one range with opposite signs.
  ghost predicate SameSigns(t: Tree, table: Table) {
    forall x, y | x in Leaves(Pushed(t, false)) && y in Leaves(Pushed(t, false)) ::
      SignedFor(table, x).sub == SignedFor(table, y).sub ==> x.inverted == y.inverted
  }

  lemma AsksALeaf(t: Tree, table: Table, was: seq<seq<Signed>>, left: seq<seq<Signed>>, i: nat, x: Signed)
    returns (lit: Literal)
    requires MultipliedOut(t, table, was) && LeftFrom(was, left) && i < |left| && x in left[i]
    ensures lit in Leaves(Pushed(t, false)) && x == SignedFor(table, lit)
  {
    var k := LeftIsOf(was, left, i);
    assert Has(left[i], x);
    var n :| 0 <= n < |was[k]| && was[k][n] == x;
    lit := AskedByAtom(was[k], Multiplied(t)[k].lits, table, n);
    TermsInLeaves(Pushed(t, false));
    BareIn(Terms(Pushed(t, false)), Leaves(Pushed(t, false)));
    assert LitsIn(Multiplied(t), Leaves(Pushed(t, false)));
  }

  // Then the signs tell the clauses left apart.
  lemma SameSignsTell(t: Tree, table: Table, left: seq<seq<Signed>>)
    requires LeftOf(t, table, left) && SameSigns(t, table)
    ensures SignsTell(left)
  {
    var was :| MultipliedOut(t, table, was) && LeftFrom(was, left);
    forall i, j, x, y | 0 <= i < |left| && 0 <= j < |left| && x in left[i] && y in left[j] && x.sub == y.sub
      ensures x.inverted == y.inverted
    {
      var a := AsksALeaf(t, table, was, left, i, x);
      var b := AsksALeaf(t, table, was, left, j, y);
    }
    OneSignedTells(left);
  }

  // ---- Searches whose clauses are all in conflict ----

  ghost predicate InConflict(c: Lits, table: Table) {
    exists x, y :: x in c && y in c && Excludes(SignedFor(table, x), SignedFor(table, y))
  }

  ghost predicate AllConflicted(t: Tree, table: Table) {
    forall i :: 0 <= i < |Multiplied(t)| ==> InConflict(Multiplied(t)[i].lits, table)
  }

  lemma ConflictsLike(w: seq<Signed>, c: Lits, table: Table)
    requires Arranges(w, c, table)
    ensures Conflicted(w) <==> InConflict(c, table)
  {
    if Conflicted(w) {
      var i, j :| 0 <= i < |w| && 0 <= j < |w| && Excludes(w[i], w[j]);
      var x := AskedByAtom(w, c, table, i);
      var y := AskedByAtom(w, c, table, j);
    }
    if InConflict(c, table) {
      var x, y :| x in c && y in c && Excludes(SignedFor(table, x), SignedFor(table, y));
      var i := AtomIsAsked(w, c, table, x);
      var j := AtomIsAsked(w, c, table, y);
    }
  }

  lemma AllInConflict(t: Tree, table: Table, was: seq<seq<Signed>>)
    requires MultipliedOut(t, table, was)
    ensures AllConflicted(t, table) <==> forall i :: 0 <= i < |was| ==> Conflicted(was[i])
  {
    forall i | 0 <= i < |was| ensures Conflicted(was[i]) <==> InConflict(Multiplied(t)[i].lits, table) {
      ConflictsLike(was[i], Multiplied(t)[i].lits, table);
    }
  }

  // ---- What is left is determined by the search ----

  lemma {:induction false} SpelledAlike(w: seq<Signed>, v: seq<Signed>, ws: seq<Literal>, vs: seq<Literal>,
                                        table: Table)
    requires Spells(w, ws, table) && Spells(v, vs, table) && multiset(ws) == multiset(vs)
    ensures multiset(w) == multiset(v)
  {
    assert |vs| == |multiset(vs)| == |ws|;
    if ws != [] {
      assert ws[0] in multiset(vs);
      var k :| 0 <= k < |vs| && vs[k] == ws[0];
      RestAlike(ws, vs, k);
      SpellsRest(w, ws, table, 0);
      SpellsRest(v, vs, table, k);
      SpelledAlike(Rest(w, 0), Rest(v, k), Rest(ws, 0), Rest(vs, k), table);
      WithoutOne(w, 0);
      WithoutOne(v, k);
    }
  }

  lemma RestAlike(ws: seq<Literal>, vs: seq<Literal>, k: nat)
    requires multiset(ws) == multiset(vs) && ws != [] && k < |vs| && ws[0] == vs[k]
    ensures multiset(Rest(ws, 0)) == multiset(Rest(vs, k))
  {
    WithoutOne(ws, 0);
    WithoutOne(vs, k);
    assert multiset(Rest(ws, 0)) == multiset(ws) - multiset{ws[0]};
    assert multiset(Rest(vs, k)) == multiset(vs) - multiset{ws[0]};
  }

  function Rest<T>(s: seq<T>, k: nat): seq<T>
    requires k < |s|
  {
    s[..k] + s[k + 1..]
  }

  lemma SpellsRest(w: seq<Signed>, lits: seq<Literal>, table: Table, k: nat)
    requires Spells(w, lits, table) && k < |w|
    ensures Spells(Rest(w, k), Rest(lits, k), table)
  {
  }

  lemma WithoutOne<T>(s: seq<T>, k: nat)
    requires k < |s|
    ensures multiset(s) == multiset{s[k]} + multiset(Rest(s, k))
  {
    assert s == s[..k] + [s[k]] + s[k + 1..];
  }

  lemma ArrangedAlike(w: seq<Signed>, v: seq<Signed>, c: Lits, table: Table)
    requires Arranges(w, c, table) && Arranges(v, c, table)
    ensures multiset(w) == multiset(v)
  {
    var ws: seq<Literal> :| multiset(ws) == c && Spells(w, ws, table);
    var vs: seq<Literal> :| multiset(vs) == c && Spells(v, vs, table);
    SpelledAlike(w, v, ws, vs, table);
  }

  lemma LeftDetermined(t: Tree, table: Table, a: seq<seq<Signed>>, b: seq<seq<Signed>>)
    requires LeftOf(t, table, a) && LeftOf(t, table, b)
    ensures SameInOrder(a, b)
  {
    var was :| MultipliedOut(t, table, was) && LeftFrom(was, a);
    var vas :| MultipliedOut(t, table, vas) && LeftFrom(vas, b);
    forall i | 0 <= i < |was| ensures multiset(was[i]) == multiset(vas[i]) {
      ArrangedAlike(was[i], vas[i], Multiplied(t)[i].lits, table);
    }
    LeftUnique(was, vas, a, b);
  }
}

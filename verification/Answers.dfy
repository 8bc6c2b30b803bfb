// From a search as the parser makes it to the packets of the flows that it asks for: normalize,
// prune, the search description, the search of a slot and the fetching of flows and packets
// (core/apps/capture_node_api/lib/search/node.py, indexer/search/search.c).

module Answers {
  import opened Sequences
  import opened Network
  import opened QueryTrees
  import opened Query
  import opened Collapse
  import opened Normalize
  import opened Prune
  import opened SearchClauses
  import opened Describe
  import opened SubSearches
  import opened Items
  import opened FlowFetch
  import A = Archive
  import B = IndexBucket
  import E = EndToEnd
  import F = FlowFile
  import M = PacketMerge
  import OrderedSets
  import SI = SubIndex

  // ---- The atoms ----

  // Which of the values hold for a flow with this first packet.
  ghost function Holding(table: Table, p: PacketRecord): Env
    requires GoodTable(table)
  {
    (v: Value) => GoodValue(table(v)) && AsksFor(table(v), p)
  }

  // An atom as prune and the description see it.
  ghost predicate AtomLike(a: Atom, t: Tree, table: Table) {
    t.Leaf? && a.inverted == t.inv && AtomValue(a.tt, a.block, a.port) == table(t.n.value)
  }

  ghost predicate ClauseLike(atoms: seq<Atom>, kids: seq<Tree>, table: Table) {
    |atoms| == |kids| && forall i :: 0 <= i < |atoms| ==> AtomLike(atoms[i], kids[i], table)
  }

  lemma LikeIsGood(atoms: seq<Atom>, kids: seq<Tree>, table: Table)
    requires GoodTable(table) && ClauseLike(atoms, kids, table)
    ensures GoodAtoms(atoms)
  {
    forall a | a in atoms ensures GoodAtom(a) {
      var i :| 0 <= i < |atoms| && atoms[i] == a;
      assert AtomLike(atoms[i], kids[i], table) && GoodValue(table(kids[i].n.value));
    }
  }

  lemma {:induction false} ClauseMeans(atoms: seq<Atom>, kids: seq<Tree>, table: Table, p: PacketRecord)
    requires GoodTable(table) && ClauseLike(atoms, kids, table)
    ensures GoodAtoms(atoms) && (MeetsAll(atoms, p) <==> All(kids, Holding(table, p)))
  {
    LikeIsGood(atoms, kids, table);
    if atoms != [] {
      assert AtomLike(atoms[0], kids[0], table) && GoodValue(table(kids[0].n.value));
      assert GoodAtom(atoms[0]) && (Meets(atoms[0], p) <==> Eval(kids[0], Holding(table, p)));
      assert forall i :: 1 <= i < |atoms| ==> AtomLike(atoms[i], kids[i], table);
      ClauseMeans(atoms[1..], kids[1..], table, p);
      assert atoms == [atoms[0]] + atoms[1..];
    }
  }

  // The clauses, one for each AND of a normal form.
  ghost predicate ClausesLike(was: seq<seq<Atom>>, kids: seq<Tree>, table: Table) {
    |was| == |kids| && forall i :: 0 <= i < |was| ==>
                                   kids[i].Op? && kids[i].kind == AND && ClauseLike(was[i], kids[i].kids, table)
  }

  lemma {:induction false} ClausesMean(was: seq<seq<Atom>>, kids: seq<Tree>, table: Table, p: PacketRecord)
    requires GoodTable(table) && ClausesLike(was, kids, table)
    ensures forall i :: 0 <= i < |was| ==> GoodAtoms(was[i])
    ensures FoundBy(was, p) <==> Any(kids, Holding(table, p))
  {
    if was != [] {
      ClauseMeans(was[0], kids[0].kids, table, p);
      assert forall i :: 1 <= i < |was| ==> was[i] == was[1..][i - 1] && kids[i] == kids[1..][i - 1];
      ClausesMean(was[1..], kids[1..], table, p);
      if FoundBy(was, p) {
        var i :| 0 <= i < |was| && MeetsAll(was[i], p);
        assert i > 0 ==> MeetsAll(was[1..][i - 1], p);
      }
      if FoundBy(was[1..], p) {
        var i :| 0 <= i < |was[1..]| && MeetsAll(was[1..][i], p);
        assert MeetsAll(was[i + 1], p);
      }
    }
  }

  // ---- The clauses as values ----

  lemma LikeAsks(atoms: seq<Atom>, kids: seq<Tree>, table: Table)
    requires ClauseLike(atoms, kids, table)
    ensures AllLeaves(kids) && Arranges(Asks(atoms), multiset(LitsOf(kids)), table)
  {
    forall i | 0 <= i < |kids|
      ensures kids[i].Leaf? && AskOf(atoms[i]) == SignedFor(table, Literal(kids[i].n.value, kids[i].inv))
    {
      assert AtomLike(atoms[i], kids[i], table);
    }
    assert Spells(Asks(atoms), LitsOf(kids), table);
  }

  // The atoms of a normal form ask for the clauses of the search.
  lemma NormalIsMultiplied(t: Tree, r: Tree, was: seq<seq<Atom>>, table: Table)
    requires Normal(r) && Terms(r) == Multiplied(t) && ClausesLike(was, r.kids, table)
    ensures MultipliedOut(t, table, AllAsks(was))
  {
    forall i | 0 <= i < |was| ensures Arranges(AllAsks(was)[i], multiset(LitsOf(r.kids[i].kids)), table) {
      LikeAsks(was[i], r.kids[i].kids, table);
    }
    NormalTerms(t, r, AllAsks(was), table);
  }

  // ---- The nodes of a normal form as prune sees them ----

  method AtomFor(n: Node, table: Table, ghost t: Tree) returns (a: Atom)
    requires t.n == n && t.Leaf? && IsTree(t)
    ensures fresh(a) && AtomLike(a, t, table)
  {
    var v := table(n.value);
    a := new Atom(v.tt, v.block, v.port, n.inverted);
  }

  method ClauseFor(n: Node, table: Table, ghost t: Tree) returns (c: AndClause)
    requires t.n == n && Clause(t) && IsTree(t)
    ensures fresh(c) && c.parent == null && Distinct(c.atoms) && ClauseLike(c.atoms, t.kids, table)
  {
    var atoms := [];
    assert allocated(Nodes(t));
    for i := 0 to |n.subtrees|
      invariant IsTree(t) && Distinct(atoms) && (forall x <- atoms :: fresh(x)) && ClauseLike(atoms, t.kids[..i], table)
    {
      KidIsTree(t.kids, n, i);
      assert allocated(atoms);
      var a := AtomFor(n.subtrees[i], table, t.kids[i]);
      assert a !in atoms;
      atoms := atoms + [a];
    }
    assert t.kids[..|t.kids|] == t.kids;
    c := new AndClause(atoms);
  }

  // The clauses made so far.
  ghost predicate Made(root: OrRoot, before: seq<Tree>, table: Table)
    requires GoodTable(table)
    reads root, root.clauses
  {
    exists ts :: ts == before && root.Good() && ClausesLike(AtomsOf(root.clauses), ts, table)
  }

  method RootFor(n: Node, table: Table, ghost t: Tree) returns (root: OrRoot)
    requires t.n == n && Normal(t) && IsTree(t) && GoodTable(table)
    ensures fresh(root) && fresh(root.clauses) && root.Good() && ClausesLike(AtomsOf(root.clauses), t.kids, table)
  {
    assert allocated(Nodes(t));
    root := new OrRoot();
    assert ClausesLike(AtomsOf(root.clauses), t.kids[..0], table);
    for i := 0 to |n.subtrees|
      invariant IsTree(t) && fresh(root) && fresh(root.clauses) && Made(root, t.kids[..i], table)
    {
      AddNext(root, n, table, t, i);
    }
    assert t.kids[..|t.kids|] == t.kids;
  }

  method AddNext(root: OrRoot, n: Node, table: Table, ghost t: Tree, i: nat)
    requires t.n == n && Normal(t) && IsTree(t) && GoodTable(table) && i < |t.kids| && Made(root, t.kids[..i], table)
    modifies root
    ensures exists c :: fresh(c) && root.clauses == old(root.clauses) + [c]
    ensures IsTree(t) && Made(root, t.kids[..i + 1], table)
  {
    assert allocated(Nodes(t));
    KidIsTree(t.kids, n, i);
    AddClause(root, n.subtrees[i], table, t.kids[i], t.kids[..i]);
    assert t.kids[..i] + [t.kids[i]] == t.kids[..i + 1];
  }

  method AddClause(root: OrRoot, n: Node, table: Table, ghost t: Tree, ghost before: seq<Tree>)
    requires t.n == n && Clause(t) && IsTree(t) && GoodTable(table)
    requires Made(root, before, table)
    modifies root
    ensures exists c :: fresh(c) && root.clauses == old(root.clauses) + [c]
    ensures Made(root, before + [t], table)
  {
    assert allocated(root.clauses);
    ghost var was := AtomsOf(root.clauses);
    var c := ClauseFor(n, table, t);
    assert c !in root.clauses;
    LikeIsGood(c.atoms, t.kids, table);
    c.parent := root;
    root.clauses := root.clauses + [c];
    assert AtomsOf(root.clauses) == was + [c.atoms];
    assert root.Good();
    assert ClausesLike(was + [c.atoms], before + [t], table);
  }

  // ---- The answer to a search ----

  // Whether a search, as it was made, asks for a flow.
  ghost predicate Asked(t: Tree, table: Table, flow: M.Packets)
    requires GoodTable(table) && flow != []
  {
    EvalPlain(t, Holding(table, flow[0]))
  }

  // A search for one atom asks for the flows whose address is of its version and has its leading
  // bits, or whose port it is.
  lemma OneAtomAsks(t: Tree, table: Table, flow: M.Packets)
    requires GoodTable(table) && t.Leaf? && flow != []
    ensures var v, p, asked := table(t.n.value), flow[0], Asked(t, table, flow);
      match v.tt
      case FLOW => false
      case SRCv4 => asked <==> p.src.vers == 4 && SharesPrefix(p.src.addr, v.block.base, 32, v.block.prefix)
      case SRCv6 => asked <==> p.src.vers == 6 && SharesPrefix(p.src.addr, v.block.base, 128, v.block.prefix)
      case DSTv4 => asked <==> p.dst.vers == 4 && SharesPrefix(p.dst.addr, v.block.base, 32, v.block.prefix)
      case DSTv6 => asked <==> p.dst.vers == 6 && SharesPrefix(p.dst.addr, v.block.base, 128, v.block.prefix)
      case SRCPORT => asked <==> p.srcport == v.port
      case DSTPORT => asked <==> p.dstport == v.port
  {
    var v := table(t.n.value);
    assert GoodValue(v);
    BlockBits(v.block, KeyVal(flow[0], v.tt));
  }

  // The flows ks, in order, are asked for, and no other is if `all`.
  ghost predicate RightAnswer(t: Tree, table: Table, flows: seq<M.Packets>, ks: seq<nat>, all: bool)
    requires GoodTable(table)
  {
    && F.NoneEmpty(flows) && Rising(ks, |flows|) && (forall k <- ks :: Asked(t, table, flows[k]))
    && (all ==> forall k :: 0 <= k < |flows| && Asked(t, table, flows[k]) ==> k in ks)
  }

  // How a search ends: with an answer, with a ParseError, or not at all because the normal form
  // has more clauses, or a clause more atoms, than the search program can deal with.
  datatype Ending = Answered | ParseError | TooLarge

  ghost predicate NonePositive(c: Tree) { c.Op? && forall i :: 0 <= i < |c.kids| ==> c.kids[i].Leaf? && c.kids[i].inv }

  lemma LikeNonePositive(atoms: seq<Atom>, c: Tree, table: Table)
    requires Clause(c) && ClauseLike(atoms, c.kids, table)
    ensures HasPositive(atoms) <==> !NonePositive(c)
  {
    if HasPositive(atoms) {
      var x :| x in atoms && !x.inverted;
      var i :| 0 <= i < |atoms| && atoms[i] == x;
      assert AtomLike(atoms[i], c.kids[i], table);
    } else {
      forall i | 0 <= i < |c.kids| ensures c.kids[i].Leaf? && c.kids[i].inv {
        assert AtomLike(atoms[i], c.kids[i], table) && atoms[i] in atoms;
      }
    }
  }

  // ---- Searches that are refused, in terms of the search itself ----

  // What holds for a flow that none of the atoms asks for.
  ghost predicate HoldsForNone(t: Tree) { EvalPlain(t, NOTHING) }

  ghost const NOTHING: Env := (v: Value) => false

  // Multiplied out, the search has more clauses, or a clause more atoms, than can be dealt with.
  ghost predicate IsHuge(t: Tree) {
    |Multiplied(t)| >= 0x1_0000 || exists i :: 0 <= i < |Multiplied(t)| && |Multiplied(t)[i].lits| >= 0x1_0000
  }

  lemma {:induction false} AllInverted(ts: seq<Tree>)
    requires AllLeaves(ts)
    ensures All(ts, NOTHING) <==> forall i :: 0 <= i < |ts| ==> ts[i].inv
  {
    if ts != [] {
      AllInverted(ts[1..]);
      assert forall i :: 1 <= i < |ts| ==> ts[i] == ts[1..][i - 1];
    }
  }

  lemma {:induction false} SomeInverted(ts: seq<Tree>)
    requires forall i :: 0 <= i < |ts| ==> Clause(ts[i])
    ensures Any(ts, NOTHING) <==> exists i :: 0 <= i < |ts| && NonePositive(ts[i])
  {
    if ts != [] {
      AllInverted(ts[0].kids);
      SomeInverted(ts[1..]);
      assert forall i :: 1 <= i < |ts| ==> ts[i] == ts[1..][i - 1];
    }
  }

  // A search holds for nothing at all exactly if its normal form has a clause of inverted atoms.
  lemma NothingMeets(t: Tree, r: Tree)
    requires Normal(r) && forall env: Env :: Eval(r, env) == EvalPlain(t, env)
    ensures HoldsForNone(t) <==> exists i :: 0 <= i < |r.kids| && NonePositive(r.kids[i])
  {
    SomeInverted(r.kids);
    assert Eval(r, NOTHING) == EvalPlain(t, NOTHING);
  }

  lemma HugeMeans(t: Tree, r: Tree)
    requires Normal(r) && Terms(r) == Multiplied(t)
    ensures IsHuge(t) <==> |r.kids| >= 0x1_0000 || exists i :: 0 <= i < |r.kids| && |r.kids[i].kids| >= 0x1_0000
  {
    ClausesTerms(r.kids);
    forall i | 0 <= i < |r.kids| ensures |Multiplied(t)[i].lits| == |r.kids[i].kids| {
      assert Multiplied(t)[i].lits == multiset(LitsOf(r.kids[i].kids));
    }
  }

  lemma FoundIsAsked(t: Tree, r: Tree, was: seq<seq<Atom>>, table: Table, p: PacketRecord)
    requires GoodTable(table) && Normal(r) && ClausesLike(was, r.kids, table)
    requires forall env: Env :: Eval(r, env) == EvalPlain(t, env)
    ensures forall i :: 0 <= i < |was| ==> GoodAtoms(was[i])
    ensures FoundBy(was, p) <==> EvalPlain(t, Holding(table, p))
  {
    ClausesMean(was, r.kids, table, p);
    assert Eval(r, Holding(table, p)) == EvalPlain(t, Holding(table, p));
  }

  lemma AnswersRight(t: Tree, r: Tree, was: seq<seq<Atom>>, table: Table, flows: seq<M.Packets>, ks: seq<nat>,
                     left: seq<seq<Signed>>)
    requires GoodTable(table) && Normal(r) && ClausesLike(was, r.kids, table) && Terms(r) == Multiplied(t)
    requires forall env: Env :: Eval(r, env) == EvalPlain(t, env)
    requires RightFlows(flows, ks, was, SignsTell(left)) && LeftFrom(AllAsks(was), left)
    ensures LeftOf(t, table, left) && RightAnswer(t, table, flows, ks, SameSigns(t, table) || SignsTell(left))
  {
    forall k | 0 <= k < |flows| ensures FoundBy(was, flows[k][0]) <==> Asked(t, table, flows[k]) {
      FoundIsAsked(t, r, was, table, flows[k][0]);
    }
    NormalIsMultiplied(t, r, was, table);
    if SameSigns(t, table) {
      SameSignsTell(t, table, left);
    }
  }

  // The answer to a search is determined by it: no other list of flows is one.
  lemma AnswerIsDetermined(t: Tree, table: Table, flows: seq<M.Packets>, ks: seq<nat>, js: seq<nat>,
                           a: seq<seq<Signed>>, b: seq<seq<Signed>>)
    requires LeftOf(t, table, a) && LeftOf(t, table, b) && FirstOnes(flows, ks, a) && FirstOnes(flows, js, b)
    ensures ks == js
  {
    LeftDetermined(t, table, a, b);
    forall k ensures k in ks <==> k in js {
      if 0 <= k < |flows| && FoundFirst(flows[k][0], a) {
        FoundAlike(a, b, flows[k][0]);
      }
      if 0 <= k < |flows| && FoundFirst(flows[k][0], b) {
        FoundAlike(b, a, flows[k][0]);
      }
    }
    RisingUnique(ks, js, |flows|);
  }

  lemma RefusedRightly(t: Tree, r: Tree, was: seq<seq<Atom>>, table: Table)
    requires GoodTable(table) && Normal(r) && ClausesLike(was, r.kids, table) && Terms(r) == Multiplied(t)
    requires forall env: Env :: Eval(r, env) == EvalPlain(t, env)
    ensures forall i :: 0 <= i < |was| ==> GoodAtoms(was[i])
    ensures HoldsForNone(t) <==> exists i :: 0 <= i < |was| && !HasPositive(was[i])
    ensures AllConflicted(t, table) <==> forall i :: 0 <= i < |was| ==> Conflicted(Asks(was[i]))
    ensures (forall p :: !FoundBy(was, p)) <==> forall p :: !EvalPlain(t, Holding(table, p))
  {
    NothingMeets(t, r);
    forall i | 0 <= i < |was| ensures HasPositive(was[i]) <==> !NonePositive(r.kids[i]) {
      LikeNonePositive(was[i], r.kids[i], table);
    }
    forall p ensures FoundBy(was, p) <==> EvalPlain(t, Holding(table, p)) {
      FoundIsAsked(t, r, was, table, p);
    }
    NormalIsMultiplied(t, r, was, table);
    AllInConflict(t, table, AllAsks(was));
  }

  // How a search that can be normalised ends: too large exactly if it is huge; otherwise with a
  // ParseError exactly if it holds for no flow's sake or all its clauses are in conflict, which is
  // only if no flow can match.
  ghost predicate EndsRightly(t: Tree, table: Table, ending: Ending)
    requires GoodTable(table)
  {
    && (ending == TooLarge <==> IsHuge(t))
    && (ending == ParseError <==> !IsHuge(t) && (HoldsForNone(t) || AllConflicted(t, table)))
    && (ending == ParseError ==> HoldsForNone(t) || forall p :: !EvalPlain(t, Holding(table, p)))
  }

  // The part after normalize.
  method AnswerNormal(n: Node, table: Table, files: map<KeyType, SI.IndexFile>, flow64: bool,
                      ghost flows: seq<M.Packets>, ghost t: Tree, ghost normal: Tree)
    returns (ending: Ending, out: seq<Byte>, ghost r: seq<U64>, ghost ks: seq<nat>, ghost left: seq<seq<Signed>>)
    requires normal.n == n && Normal(normal) && IsTree(normal) && GoodTable(table) && E.Files(files, flows, flow64)
    requires Terms(normal) == Multiplied(t) && forall env: Env :: Eval(normal, env) == EvalPlain(t, env)
    ensures EndsRightly(t, table, ending)
    ensures ending == Answered ==> out == OrderedSets.Bytes(Offsets(), r) && PlacesOf(r, ks, flows, flow64)
    ensures ending == Answered ==> LeftOf(t, table, left) && FirstOnes(flows, ks, left)
    ensures ending == Answered ==> RightAnswer(t, table, flows, ks, SameSigns(t, table) || SignsTell(left))
  {
    out, r, ks, left := [], [], [], [];
    var root := RootFor(n, table, normal);
    ghost var was := AtomsOf(root.clauses);
    HugeMeans(t, normal);
    RefusedRightly(t, normal, was, table);
    var large := IsTooLarge(root, table, normal.kids);
    if large {
      return TooLarge, out, r, ks, left;
    }
    var ok;
    ok, out, r, ks, left := Answer(root, files, flow64, flows, was);
    if !ok {
      return ParseError, out, r, ks, left;
    }
    AnswersRight(t, normal, was, table, flows, ks, left);
    ending := Answered;
  }

  method IsTooLarge(root: OrRoot, ghost table: Table, ghost kids: seq<Tree>) returns (large: bool)
    requires ClausesLike(AtomsOf(root.clauses), kids, table)
    ensures large <==> |kids| >= 0x1_0000 || exists i :: 0 <= i < |kids| && |kids[i].kids| >= 0x1_0000
    ensures !large ==> |root.clauses| < 0x1_0000 &&
                       forall i :: 0 <= i < |root.clauses| ==> |root.clauses[i].atoms| < 0x1_0000
  {
    assert forall i :: 0 <= i < |kids| ==>
             ClauseLike(AtomsOf(root.clauses)[i], kids[i].kids, table) && |root.clauses[i].atoms| == |kids[i].kids|;
    if |root.clauses| >= 0x1_0000 {
      return true;
    }
    for i := 0 to |root.clauses|
      invariant forall j :: 0 <= j < i ==> |root.clauses[j].atoms| < 0x1_0000
    {
      if |root.clauses[i].atoms| >= 0x1_0000 {
        return true;
      }
    }
    large := false;
  }

  // From any search of ANDs, ORs, NOTs and atoms to the answer. It ends with a ParseError for a NOT
  // in the wrong place, and as EndsRightly says otherwise. The answer has only places of flows that
  // the search asks for, each once and in order, and all of them if no two of its atoms ask opposite
  // things of one range. For all searches it has those that the first clause of some name
  // finds, of the clauses that are left after pruning.
  method AnswerSearch(n: Node, written: bool, table: Table, files: map<KeyType, SI.IndexFile>, flow64: bool,
                      ghost flows: seq<M.Packets>, ghost t: Tree)
    returns (ending: Ending, out: seq<Byte>, ghost r: seq<U64>, ghost ks: seq<nat>, ghost left: seq<seq<Signed>>)
    requires t.n == n && Whole(t) && Full(t) && (written ==> AsMade(t) && Upright(t, false))
    requires GoodTable(table) && E.Files(files, flows, flow64)
    modifies Nodes(t)
    ensures if GoodNots(t) && !IsNot(t) then EndsRightly(t, table, ending) else ending == ParseError
    ensures ending == Answered ==> out == OrderedSets.Bytes(Offsets(), r) && PlacesOf(r, ks, flows, flow64)
    ensures ending == Answered ==> LeftOf(t, table, left) && FirstOnes(flows, ks, left)
    ensures ending == Answered ==> RightAnswer(t, table, flows, ks, SameSigns(t, table) || SignsTell(left))
  {
    var ok, root;
    ghost var normal;
    ok, root, normal := NormalizeTree(n, written, t);
    if !ok {
      return ParseError, [], [], [], [];
    }
    ending, out, r, ks, left := AnswerNormal(root, table, files, flow64, flows, t, normal);
  }

  // The whole way: packets are captured, indexed and written, a search is answered, and the
  // packets of the flows found, within the limits on time and protocol, are fetched: all packets
  // of each such flow, each packet once, in the order of time if they were captured in that order.
  method CaptureSearchFetch(chain: seq<M.Packets>, flow64: bool, n: Node, written: bool, table: Table, l: Limits,
                            ghost t: Tree)
    returns (ending: Ending, packets: M.Packets, ghost flows: seq<M.Packets>, ghost ks: seq<nat>,
             ghost left: seq<seq<Signed>>, ghost picks: seq<nat>)
    requires Distinct(B.Chained(chain)) &&
             A.IndexSize(E.FlowCount(B.Chained(chain)), flow64) <= 0x1_0000_0000_0000_0000
    requires t.n == n && Whole(t) && Full(t) && (written ==> AsMade(t) && Upright(t, false)) && GoodTable(table)
    modifies Nodes(t)
    ensures A.AreFlows(flows, B.Chained(chain), E.ORDERS(FLOW))
    ensures if GoodNots(t) && !IsNot(t) then EndsRightly(t, table, ending) else ending == ParseError
    ensures ending == Answered ==> LeftOf(t, table, left) && FirstOnes(flows, ks, left)
    ensures ending == Answered ==> RightAnswer(t, table, flows, ks, SameSigns(t, table) || SignsTell(left))
    ensures ending == Answered && InReach(flows, flow64, written) ==>
      && M.Interleaves(packets, picks, Chosen(flows, Picked(flows, ks, l)))
      && (M.TimeOrdered(B.Chained(chain)) ==> M.TimeOrdered(packets))
  {
    packets, picks := [], [];
    assert allocated(Nodes(t));
    ghost var whole := Whole(t);
    var index, files := E.IndexAndWrite(chain, flow64);
    flows := index.flows;
    var results;
    ghost var r;
    whole := whole && Whole(t);
    assert whole;
    ending, results, r, ks, left := AnswerSearch(n, written, table, files, flow64, flows, t);
    if ending == Answered {
      var ok;
      ok, packets, picks := FetchFound(results, index, written, l, r, ks, B.Chained(chain), E.ORDERS(FLOW));
    }
  }
}

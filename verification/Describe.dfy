// From a pruned search to the description that the search program reads
// (core/apps/capture_node_api/lib/search/node.py, make_search_description).

module Describe {
  import opened Network
  import opened Bits
  import opened Prune
  import opened SubSearches
  import opened Items
  import opened Leapfrog
  import opened IndexBucket
  import opened Archive
  import OrderedSets
  import FlowFile
  import opened FlowFetch
  import E = EndToEnd
  import SI = SubIndex

  // The sub-search of an atom finds the flows that the atom names.
  lemma SubFinds(a: Atom, flow: seq<PacketRecord>)
    requires GoodAtom(a) && flow != []
    ensures E.InSub(flow, SubFor(a)) == Names(a, flow[0]) && SubFor(a).start <= SubFor(a).end
  {
  }

  // The references of one AND line are to the sub-searches of its atoms.
  ghost predicate RefersTo(refs: seq<E.Ref>, subs: seq<SubSearch>, atoms: seq<Atom>) {
    && |refs| == |atoms|
    && forall i :: 0 <= i < |refs| ==>
         GoodAtom(atoms[i]) && refs[i].id < |subs| && subs[refs[i].id] == SubFor(atoms[i]) &&
           refs[i].inverted == atoms[i].inverted
  }

  lemma {:induction false} RefersLikeAtoms(s: E.Search, refs: seq<E.Ref>, atoms: seq<Atom>)
    requires RefersTo(refs, s.subs, atoms)
    ensures E.Refers(s, refs) == Subs(Asks(atoms)) && E.Sense(s, refs) == multiset(Asks(atoms))
  {
    if refs != [] {
      assert forall i :: 1 <= i < |refs| ==> refs[i] == refs[1..][i - 1] && atoms[i] == atoms[1..][i - 1];
      RefersLikeAtoms(s, refs[1..], atoms[1..]);
      FirstAsk(atoms);
    }
  }

  lemma FirstAsk(atoms: seq<Atom>)
    requires atoms != []
    ensures Subs(Asks(atoms)) == multiset{SubFor(atoms[0])} + Subs(Asks(atoms[1..]))
    ensures multiset(Asks(atoms)) == multiset{AskOf(atoms[0])} + multiset(Asks(atoms[1..]))
  {
    assert Asks(atoms)[1..] == Asks(atoms[1..]);
    assert Asks(atoms) == [AskOf(atoms[0])] + Asks(atoms[1..]);
  }

  // The lines so far: sub-searches for all atoms, and the first ANDs.
  ghost predicate Describes(s: E.Search, was: seq<seq<Atom>>) {
    && |s.ands| == |was| == |s.names|
    && (forall k :: 0 <= k < |was| ==> GoodAtoms(was[k]) && s.names[k] == E.Digest(Subs(Asks(was[k]))))
    && (forall i :: 0 <= i < |s.subs| ==> s.subs[i].tt != FLOW && s.subs[i].start <= s.subs[i].end)
    && forall k :: 0 <= k < |was| ==> RefersTo(s.ands[k], s.subs, was[k])
  }

  // The inner loop: one line for each atom, and its number.
  method DescribeAtoms(atoms: seq<Atom>, subs: seq<SubSearch>) returns (subs1: seq<SubSearch>, refs: seq<E.Ref>)
    requires GoodAtoms(atoms) && forall i :: 0 <= i < |subs| ==> subs[i].tt != FLOW && subs[i].start <= subs[i].end
    ensures subs <= subs1 && RefersTo(refs, subs1, atoms)
    ensures forall i :: 0 <= i < |subs1| ==> subs1[i].tt != FLOW && subs1[i].start <= subs1[i].end
  {
    subs1, refs := subs, [];
    for i := 0 to |atoms|
      invariant subs <= subs1 && |refs| == i
      invariant forall j :: 0 <= j < i ==>
        GoodAtom(atoms[j]) && refs[j].id < |subs1| && subs1[refs[j].id] == SubFor(atoms[j]) &&
          refs[j].inverted == atoms[j].inverted
      invariant forall j :: 0 <= j < |subs1| ==> subs1[j].tt != FLOW && subs1[j].start <= subs1[j].end
    {
      assert GoodAtom(atoms[i]);
      refs := refs + [E.Ref(|subs1|, atoms[i].inverted)];
      subs1 := subs1 + [SubFor(atoms[i])];
    }
  }

  // The lines of all clauses.
  method DescribeClauses(clauses: seq<AndClause>) returns (s: E.Search)
    requires forall c <- clauses :: c.Good()
    ensures Describes(s, AtomsOf(clauses))
  {
    s := E.Search([], [], []);
    ghost var was := AtomsOf(clauses);
    for k := 0 to |clauses|
      invariant Describes(s, was[..k])
    {
      var clause := clauses[k];
      assert clause.Good();
      var subs, refs := DescribeAtoms(clause.atoms, s.subs);
      OneMoreLine(s, was[..k], clause.atoms, subs, refs);
      assert was[..k] + [clause.atoms] == was[..k + 1];
      s := E.Search(subs, s.ands + [refs], s.names + [E.Digest(Subs(Asks(clause.atoms)))]);
    }
    assert was[..|clauses|] == was;
  }

  // make_search_description, as far as the search itself goes: it can be run, and wants the
  // flows that the pruned search finds.
  method DescribeSearch(root: OrRoot) returns (s: E.Search)
    requires root.Good() && |root.clauses| < 0x1_0000
    requires forall c <- root.clauses :: HasPositive(c.atoms) && |c.atoms| < 0x1_0000
    ensures E.Described(s) && E.Reconciled(s) && forall i :: 0 <= i < |s.subs| ==> s.subs[i].start <= s.subs[i].end
    ensures forall flow: seq<PacketRecord> :: flow != [] ==> (E.Wanted(flow, s) <==> root.Finds(flow[0]))
    ensures E.Named(s) && FindsFirst(s, AllAsks(AtomsOf(root.clauses))) &&
            (E.SignsAgree(s) <==> SignsTell(AllAsks(AtomsOf(root.clauses))))
  {
    s := DescribeClauses(root.clauses);
    ghost var was := AtomsOf(root.clauses);
    forall k | 0 <= k < |was| ensures HasPositive(was[k]) && |was[k]| < 0x1_0000 {
      assert root.clauses[k] in root.clauses;
    }
    IsDescribed(s, was);
    SignsLikeAtoms(s, was);
    FindsFirstOfName(s, was);
    forall flow: seq<PacketRecord> | flow != [] ensures E.Wanted(flow, s) <==> root.Finds(flow[0]) {
      WantsWhatIsFound(s, was, flow);
      FindsByAtoms(root, flow[0]);
    }
  }

  lemma FindsByAtoms(root: OrRoot, p: PacketRecord)
    requires root.Good()
    ensures forall k :: 0 <= k < |root.clauses| ==> GoodAtoms(AtomsOf(root.clauses)[k])
    ensures root.Finds(p) <==> exists k :: 0 <= k < |root.clauses| && MeetsAll(AtomsOf(root.clauses)[k], p)
  {
    var was := AtomsOf(root.clauses);
    forall k | 0 <= k < |was| ensures GoodAtoms(was[k]) {
      assert root.clauses[k] in root.clauses && root.clauses[k].Good();
    }
    if root.Finds(p) {
      var c :| c in root.clauses && c.Good() && MeetsAll(c.atoms, p);
      var k :| 0 <= k < |root.clauses| && root.clauses[k] == c;
      assert MeetsAll(was[k], p);
    }
    if k :| 0 <= k < |was| && MeetsAll(was[k], p) {
      assert root.clauses[k] in root.clauses && root.clauses[k].Good();
    }
  }

  lemma OneMoreLine(s: E.Search, was: seq<seq<Atom>>, atoms: seq<Atom>, subs: seq<SubSearch>, refs: seq<E.Ref>)
    requires Describes(s, was) && s.subs <= subs && RefersTo(refs, subs, atoms)
    requires forall i :: 0 <= i < |subs| ==> subs[i].tt != FLOW && subs[i].start <= subs[i].end
    ensures GoodAtoms(atoms) && Describes(E.Search(subs, s.ands + [refs], s.names + [E.Digest(Subs(Asks(atoms)))]),
                                          was + [atoms])
  {
    forall k | 0 <= k < |was| ensures RefersTo(s.ands[k], subs, was[k]) {
      assert RefersTo(s.ands[k], s.subs, was[k]);
    }
  }

  lemma IsDescribed(s: E.Search, was: seq<seq<Atom>>)
    requires Describes(s, was) && |was| < 0x1_0000
    requires forall k :: 0 <= k < |was| ==> HasPositive(was[k]) && |was[k]| < 0x1_0000
    ensures E.Described(s) && E.Reconciled(s)
  {
    forall a | 0 <= a < |s.ands|
      ensures |s.ands[a]| < 0x1_0000 && exists i :: 0 <= i < |s.ands[a]| && !s.ands[a][i].inverted
    {
      assert RefersTo(s.ands[a], s.subs, was[a]);
      var x :| x in was[a] && !x.inverted;
      var i :| 0 <= i < |was[a]| && was[a][i] == x;
      assert !s.ands[a][i].inverted;
    }
    forall a, i | 0 <= a < |s.ands| && 0 <= i < |s.ands[a]| ensures s.ands[a][i].id < |s.subs| {
      assert RefersTo(s.ands[a], s.subs, was[a]);
    }
  }

  lemma SignsLikeAtoms(s: E.Search, was: seq<seq<Atom>>)
    requires Describes(s, was) && E.Described(s) && E.Reconciled(s)
    ensures E.Named(s) && (E.SignsAgree(s) <==> SignsTell(AllAsks(was)))
  {
    forall a | 0 <= a < |was|
      ensures GoodAtoms(was[a])
      ensures E.Refers(s, s.ands[a]) == Subs(Asks(was[a])) && E.Sense(s, s.ands[a]) == multiset(Asks(was[a]))
    {
      assert RefersTo(s.ands[a], s.subs, was[a]);
      RefersLikeAtoms(s, s.ands[a], was[a]);
    }
    var left := AllAsks(was);
    assert forall a :: 0 <= a < |was| ==> left[a] == Asks(was[a]) && s.names[a] == E.Digest(Subs(left[a]));
  }

  // The search finds a flow exactly if it answers the first clause of some name.
  ghost predicate FindsFirst(s: E.Search, left: seq<seq<Signed>>)
    requires E.Described(s) && E.Reconciled(s)
  {
    exists q :: q == left && FindsTheFirst(s, q)
  }

  ghost predicate FindsTheFirst(s: E.Search, left: seq<seq<Signed>>)
    requires E.Described(s) && E.Reconciled(s)
  {
    forall flow: seq<PacketRecord> :: flow != [] ==> (E.Found(flow, s) <==> FoundFirst(flow[0], left))
  }

  lemma OwnerIsNamesake(s: E.Search, was: seq<seq<Atom>>, a: nat)
    requires Describes(s, was) && a < |was|
    ensures E.Owner(s.names, a) == Namesake(AllAsks(was), a)
  {
    var left := AllAsks(was);
    var b, c := E.Owner(s.names, a), Namesake(left, a);
    assert forall k :: 0 <= k < |was| ==> left[k] == Asks(was[k]) && s.names[k] == E.Digest(Subs(left[k]));
    assert !(b < c) && !(c < b);
  }

  lemma MeetsByAnswers(atoms: seq<Atom>, p: PacketRecord)
    requires GoodAtoms(atoms)
    ensures AnswersAll(p, Asks(atoms)) <==> MeetsAll(atoms, p)
  {
    forall a | a in atoms ensures Answers(p, AskOf(a).sub) == Names(a, p) {
      SubFinds(a, [p]);
    }
    if AnswersAll(p, Asks(atoms)) {
      forall a | a in atoms ensures Meets(a, p) {
        var i :| 0 <= i < |atoms| && atoms[i] == a;
        assert Asks(atoms)[i] in Asks(atoms);
      }
    }
    if MeetsAll(atoms, p) {
      forall x | x in Asks(atoms) ensures Answers(p, x.sub) != x.inverted {
        var i :| 0 <= i < |atoms| && Asks(atoms)[i] == x;
        assert Meets(atoms[i], p);
      }
    }
  }

  lemma FindsFirstOfName(s: E.Search, was: seq<seq<Atom>>)
    requires Describes(s, was) && E.Described(s) && E.Reconciled(s)
    ensures FindsTheFirst(s, AllAsks(was))
  {
    forall flow: seq<PacketRecord> | flow != [] ensures E.Found(flow, s) <==> FoundFirst(flow[0], AllAsks(was)) {
      forall a | 0 <= a < |was|
        ensures E.MeetsAll(flow, s, E.Owner(s.names, a)) <==>
                AnswersAll(flow[0], AllAsks(was)[Namesake(AllAsks(was), a)])
      {
        OwnerIsNamesake(s, was, a);
        MeetsLine(s, was, E.Owner(s.names, a), flow);
        MeetsByAnswers(was[E.Owner(s.names, a)], flow[0]);
      }
    }
  }

  lemma MeetsLine(s: E.Search, was: seq<seq<Atom>>, a: nat, flow: seq<PacketRecord>)
    requires Describes(s, was) && E.Described(s) && E.Reconciled(s) && flow != [] && a < |was|
    ensures GoodAtoms(was[a]) && (E.MeetsAll(flow, s, a) <==> MeetsAll(was[a], flow[0]))
  {
    var refs, atoms := s.ands[a], was[a];
    assert RefersTo(refs, s.subs, atoms);
    forall i | 0 <= i < |refs|
      ensures (E.InSub(flow, s.subs[refs[i].id]) != refs[i].inverted) == Meets(atoms[i], flow[0])
    {
      SubFinds(atoms[i], flow);
    }
    if E.MeetsAll(flow, s, a) {
      forall x | x in atoms ensures Meets(x, flow[0]) {
        var i :| 0 <= i < |atoms| && atoms[i] == x;
        assert E.InSub(flow, s.subs[refs[i].id]) != refs[i].inverted;
      }
    }
  }

  lemma WantsWhatIsFound(s: E.Search, was: seq<seq<Atom>>, flow: seq<PacketRecord>)
    requires Describes(s, was) && E.Described(s) && E.Reconciled(s) && flow != []
    ensures forall k :: 0 <= k < |was| ==> GoodAtoms(was[k])
    ensures E.Wanted(flow, s) <==> exists k :: 0 <= k < |was| && MeetsAll(was[k], flow[0])
  {
    forall k | 0 <= k < |was| ensures GoodAtoms(was[k]) && (E.MeetsAll(flow, s, k) <==> MeetsAll(was[k], flow[0])) {
      MeetsLine(s, was, k, flow);
    }
  }

  // ---- From a normalised search and captured packets to the answer ----

  ghost predicate FoundBy(was: seq<seq<Atom>>, p: PacketRecord)
    requires forall i :: 0 <= i < |was| ==> GoodAtoms(was[i])
  {
    exists i :: 0 <= i < |was| && MeetsAll(was[i], p)
  }

  // Pruning makes nothing longer.
  lemma StaysSmall(root: OrRoot, all: seq<AndClause>, was: seq<seq<Atom>>)
    requires root.Good() && (forall c <- root.clauses :: c in all) && |all| == |was| < 0x1_0000
    requires forall i :: 0 <= i < |was| ==> |was[i]| < 0x1_0000 && root.Treated(all[i], was[i])
    ensures |root.clauses| < 0x1_0000 && forall c <- root.clauses :: |c.atoms| < 0x1_0000
  {
    AsManyAs(root.clauses, all);
    forall c | c in root.clauses ensures |c.atoms| < 0x1_0000 {
      var i :| 0 <= i < |all| && all[i] == c;
      assert root.Treated(all[i], was[i]) && c.Good();
      AsManyAs(c.atoms, was[i]);
    }
  }

  // The flows that the search program finds, among the first n.
  ghost function FoundAt(flows: seq<seq<PacketRecord>>, s: E.Search, n: nat): seq<nat>
    requires E.Described(s) && E.Reconciled(s) && n <= |flows| && FlowFile.NoneEmpty(flows)
  {
    if n == 0 then [] else FoundAt(flows, s, n - 1) + if E.Found(flows[n - 1], s) then [n - 1] else []
  }

  ghost predicate Rising(ks: seq<nat>, n: nat) {
    (forall i, j :: 0 <= i < j < |ks| ==> ks[i] < ks[j]) && forall i :: 0 <= i < |ks| ==> ks[i] < n
  }

  lemma WithoutLast(ks: seq<nat>, n: nat, k: nat)
    requires Rising(ks, n) && ks != []
    ensures k in ks[..|ks| - 1] <==> k in ks && k != ks[|ks| - 1]
    ensures k in ks ==> k <= ks[|ks| - 1]
  {
    if i :| 0 <= i < |ks| && ks[i] == k {
      assert i < |ks| - 1 ==> ks[..|ks| - 1][i] == k;
    }
  }

  // A rising list is determined by what is in it.
  lemma {:induction false} RisingUnique(ks: seq<nat>, js: seq<nat>, n: nat)
    requires Rising(ks, n) && Rising(js, n) && forall k :: k in ks <==> k in js
    ensures ks == js
  {
    var any := if js == [] then 0 else js[0];
    assert js != [] ==> any in js;
    if ks != [] {
      var k, j := |ks| - 1, |js| - 1;
      assert ks[k] in js;
      WithoutLast(js, n, ks[k]);
      WithoutLast(ks, n, js[j]);
      forall x ensures x in ks[..k] <==> x in js[..j] {
        WithoutLast(ks, n, x);
        WithoutLast(js, n, x);
      }
      RisingUnique(ks[..k], js[..j], n);
    }
  }

  lemma {:induction false} FoundAtRises(flows: seq<seq<PacketRecord>>, s: E.Search, n: nat)
    requires E.Described(s) && E.Reconciled(s) && n <= |flows| && FlowFile.NoneEmpty(flows)
    ensures Rising(FoundAt(flows, s, n), n)
    ensures forall k :: 0 <= k < n ==> (k in FoundAt(flows, s, n) <==> E.Found(flows[k], s))
  {
    if n > 0 {
      FoundAtRises(flows, s, n - 1);
    }
  }

  lemma {:induction false} FoundAtPlaces(flows: seq<seq<PacketRecord>>, s: E.Search, flow64: bool, n: nat)
    requires E.Described(s) && E.Reconciled(s) && n <= |flows| && FlowFile.NoneEmpty(flows)
    requires IndexSize(|flows|, flow64) <= 0x1_0000_0000_0000_0000
    ensures PlacesOf(E.LinearFilter(flows, s, flow64, n), FoundAt(flows, s, n), flows, flow64)
  {
    if n > 0 {
      FoundAtPlaces(flows, s, flow64, n - 1);
    }
  }

  // The flows ks, in order, are such as the clauses find, and all of them if `all`.
  ghost predicate RightFlows(flows: seq<seq<PacketRecord>>, ks: seq<nat>, was: seq<seq<Atom>>, all: bool) {
    && FlowFile.NoneEmpty(flows) && Rising(ks, |flows|) && (forall i :: 0 <= i < |was| ==> GoodAtoms(was[i]))
    && (forall k <- ks :: FoundBy(was, flows[k][0]))
    && (all ==> forall k :: 0 <= k < |flows| && FoundBy(was, flows[k][0]) ==> k in ks)
  }

  // A description that can be run.
  predicate Sound(s: E.Search) {
    E.Described(s) && E.Reconciled(s) && forall i :: 0 <= i < |s.subs| ==> s.subs[i].start <= s.subs[i].end
  }

  // The flows ks are those that the first clause of some name finds.
  ghost predicate FirstOnes(flows: seq<seq<PacketRecord>>, ks: seq<nat>, left: seq<seq<Signed>>) {
    && FlowFile.NoneEmpty(flows) && Rising(ks, |flows|)
    && forall k :: 0 <= k < |flows| ==> (k in ks <==> FoundFirst(flows[k][0], left))
  }

  method AnswerDescribed(s: E.Search, files: map<KeyType, SI.IndexFile>, flow64: bool,
                         ghost flows: seq<seq<PacketRecord>>, ghost left: seq<seq<Signed>>)
    returns (out: seq<Byte>, ghost r: seq<U64>, ghost ks: seq<nat>)
    requires Sound(s) && FindsFirst(s, left) && E.Files(files, flows, flow64)
    ensures out == OrderedSets.Bytes(Offsets(), r) && PlacesOf(r, ks, flows, flow64) && FirstOnes(flows, ks, left)
  {
    var ok;
    ok, out := E.RunSearch(files, s, false, flows, flow64);
    r, ks := E.LinearFilter(flows, s, flow64, |flows|), FoundAt(flows, s, |flows|);
    FoundAtRises(flows, s, |flows|);
    FoundAtPlaces(flows, s, flow64, |flows|);
  }

  // The clauses as atoms and as values find the same.
  lemma FoundByAsks(was: seq<seq<Atom>>, p: PacketRecord)
    requires forall i :: 0 <= i < |was| ==> GoodAtoms(was[i])
    ensures FoundByAny(p, AllAsks(was)) <==> FoundBy(was, p)
  {
    forall i | 0 <= i < |was| ensures AnswersAll(p, AllAsks(was)[i]) <==> MeetsAll(was[i], p) {
      MeetsByAnswers(was[i], p);
    }
  }

  // So the answer is right, and complete if the signs tell the clauses left apart.
  lemma FirstOnesAreRight(flows: seq<seq<PacketRecord>>, ks: seq<nat>, was: seq<seq<Atom>>, left: seq<seq<Signed>>)
    requires forall i :: 0 <= i < |was| ==> GoodAtoms(was[i])
    requires LeftFrom(AllAsks(was), left) && FirstOnes(flows, ks, left)
    ensures RightFlows(flows, ks, was, SignsTell(left))
  {
    forall k | 0 <= k < |flows|
      ensures FoundFirst(flows[k][0], left) ==> FoundBy(was, flows[k][0])
      ensures SignsTell(left) && FoundBy(was, flows[k][0]) ==> FoundFirst(flows[k][0], left)
    {
      FirstMeans(left, flows[k][0]);
      LeftMeans(AllAsks(was), left, flows[k][0]);
      FoundByAsks(was, flows[k][0]);
    }
  }

  method DescribeLeft(root: OrRoot) returns (s: E.Search, ghost left: seq<seq<Signed>>)
    requires root.Good() && |root.clauses| < 0x1_0000
    requires forall c <- root.clauses :: HasPositive(c.atoms) && |c.atoms| < 0x1_0000
    ensures left == AllAsks(AtomsOf(root.clauses)) && Sound(s) && FindsFirst(s, left)
  {
    left := AllAsks(AtomsOf(root.clauses));
    s := DescribeSearch(root);
  }

  // What is not searchable finds nothing, or has a clause without a positive atom.
  lemma NotSearchable(was: seq<seq<Atom>>)
    requires (forall i :: 0 <= i < |was| ==> GoodAtoms(was[i])) && !Searchable(was)
    ensures (exists i :: 0 <= i < |was| && !HasPositive(was[i])) || forall p :: !FoundBy(was, p)
  {
    forall p, i | 0 <= i < |was| && Conflicted(Asks(was[i])) ensures !MeetsAll(was[i], p) {
      ConflictMeans(Asks(was[i]), p);
      MeetsByAnswers(was[i], p);
    }
  }

  // The description finds what the first clause of some name finds among those left.
  ghost predicate Ready(s: E.Search, was: seq<seq<Atom>>, left: seq<seq<Signed>>) {
    exists l :: l == left && LeftFrom(AllAsks(was), l) && Sound(s) && FindsFirst(s, l)
  }

  // The first two steps.
  method PruneAndDescribe(root: OrRoot, ghost was: seq<seq<Atom>>)
    returns (ok: bool, s: E.Search, ghost left: seq<seq<Signed>>)
    requires root.Good() && |was| == |root.clauses| < 0x1_0000
    requires forall i :: 0 <= i < |was| ==> root.clauses[i].atoms == was[i] && |was[i]| < 0x1_0000 && GoodAtoms(was[i])
    modifies root, root.clauses
    ensures ok <==> Searchable(was)
    ensures ok ==> Ready(s, was, left)
  {
    left, s := [], E.Search.Search([], [], []);
    ghost var all := root.clauses;
    ok := root.Prune(was);
    if ok {
      StaysSmall(root, all, was);
      s, left := DescribeLeft(root);
    }
  }

  // A search is pruned, described and run on the files of a slot. It fails exactly if a clause has
  // no positive atom or all are in conflict. Otherwise the clauses left are those that are not,
  // pruned and in their order, and the answer is a list of places, each once and in order, of flows
  // that the search as it was finds: of those that the first clause left of some name finds, which
  // are all if no two of the clauses left have the same atoms apart from inversion.
  method Answer(root: OrRoot, files: map<KeyType, SI.IndexFile>, flow64: bool,
                ghost flows: seq<seq<PacketRecord>>, ghost was: seq<seq<Atom>>)
    returns (ok: bool, out: seq<Byte>, ghost r: seq<U64>, ghost ks: seq<nat>, ghost left: seq<seq<Signed>>)
    requires root.Good() && |was| == |root.clauses| < 0x1_0000 && E.Files(files, flows, flow64)
    requires forall i :: 0 <= i < |was| ==> root.clauses[i].atoms == was[i] && |was[i]| < 0x1_0000 && GoodAtoms(was[i])
    modifies root, root.clauses
    ensures !ok ==> (exists i :: 0 <= i < |was| && !HasPositive(was[i])) || forall p :: !FoundBy(was, p)
    ensures ok <==> Searchable(was)
    ensures ok ==> out == OrderedSets.Bytes(Offsets(), r) && PlacesOf(r, ks, flows, flow64)
    ensures ok ==> LeftFrom(AllAsks(was), left) && FirstOnes(flows, ks, left)
    ensures ok ==> RightFlows(flows, ks, was, SignsTell(left))
  {
    out, r, ks := [], [], [];
    var s;
    ok, s, left := PruneAndDescribe(root, was);
    if !ok {
      NotSearchable(was);
    } else {
      out, r, ks := AnswerDescribed(s, files, flow64, flows, left);
      FirstOnesAreRight(flows, ks, was, left);
    }
  }
}

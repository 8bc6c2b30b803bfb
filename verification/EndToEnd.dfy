// Answering a query from the files of a capture slot (indexer/search/search.c), and the way
// from captured packets to the answer.

module EndToEnd {
  import opened Folding
  import opened Sequences
  import opened Network
  import opened Items
  import opened OrderedSets
  import opened Leapfrog
  import opened OffsetUnions
  import opened SearchLib
  import opened SubIndexSearch
  import opened FlowFile
  import opened IndexBucket
  import opened Archive
  import opened SubSearches
  import SI = SubIndex
  import IndexTree
  import MergeSort

  // ---- Searches ----

  // A reference to a sub-search from an AND operation.
  datatype Ref = Ref(id: nat, inverted: bool)

  // The name of the result file of an AND operation: a digest of what it refers to. Digests are
  // taken to be the same only if what they are made of is.
  datatype Name = Digest(of: multiset<SubSearch>)

  datatype Search = Search(subs: seq<SubSearch>, ands: seq<seq<Ref>>, names: seq<Name>)

  // What a search description can say, of a size that the search can deal with.
  predicate Described(s: Search) {
    && (forall i :: 0 <= i < |s.subs| ==> s.subs[i].tt != FLOW)
    && |s.ands| == |s.names| < 0x1_0000
    && forall a :: 0 <= a < |s.ands| ==>
                   |s.ands[a]| < 0x1_0000 && exists i :: 0 <= i < |s.ands[a]| && !s.ands[a][i].inverted
  }

  predicate Reconciled(s: Search) {
    forall a, i :: 0 <= a < |s.ands| && 0 <= i < |s.ands[a]| ==> s.ands[a][i].id < |s.subs|
  }

  // ---- What a search is for ----

  // The flow has a key in the range.
  predicate InSub(flow: seq<PacketRecord>, s: SubSearch)
    requires s.tt != FLOW && flow != []
  {
    Applies(flow[0], s.tt) && s.start <= KeyVal(flow[0], s.tt) <= s.end
  }

  predicate MeetsAll(flow: seq<PacketRecord>, s: Search, a: nat)
    requires Described(s) && Reconciled(s) && a < |s.ands| && flow != []
  {
    forall i :: 0 <= i < |s.ands[a]| ==> InSub(flow, s.subs[s.ands[a][i].id]) != s.ands[a][i].inverted
  }

  predicate Wanted(flow: seq<PacketRecord>, s: Search)
    requires Described(s) && Reconciled(s) && flow != []
  {
    exists a :: 0 <= a < |s.ands| && MeetsAll(flow, s, a)
  }

  // The first AND operation with the name of operation a.
  function Owner(names: seq<Name>, a: nat): (b: nat)
    requires a < |names|
    ensures b <= a && names[b] == names[a] && forall c :: 0 <= c < b ==> names[c] != names[a]
  {
    FirstOfName(names, names[a], 0, a)
  }

  function FirstOfName(names: seq<Name>, name: Name, from: nat, a: nat): (b: nat)
    requires from <= a < |names| && names[a] == name
    ensures from <= b <= a && names[b] == name && forall c :: from <= c < b ==> names[c] != name
    decreases a - from
  {
    if names[from] == name then from else FirstOfName(names, name, from + 1, a)
  }

  // Whether the search program finds the flow. A result file that is there already is not made
  // again, so what counts for an AND operation is the first one of its name.
  predicate Found(flow: seq<PacketRecord>, s: Search)
    requires Described(s) && Reconciled(s) && flow != []
  {
    exists a :: 0 <= a < |s.ands| && MeetsAll(flow, s, Owner(s.names, a))
  }

  // The places of the flows found, by looking at each of the first n.
  function LinearFilter(flows: seq<seq<PacketRecord>>, s: Search, flow64: bool, n: nat): (r: seq<U64>)
    requires Described(s) && Reconciled(s) && n <= |flows| && NoneEmpty(flows)
    requires IndexSize(|flows|, flow64) <= 0x1_0000_0000_0000_0000
  {
    if n == 0 then []
    else
      PlacesRise(n - 1, |flows|, flow64);
      LinearFilter(flows, s, flow64, n - 1) + if Found(flows[n - 1], s) then [EntryPlace(n - 1, flow64)] else []
  }

  lemma {:induction false} FilterTakes(flows: seq<seq<PacketRecord>>, s: Search, flow64: bool, n: nat, k: nat)
    requires Described(s) && Reconciled(s) && k < n <= |flows| && NoneEmpty(flows)
    requires IndexSize(|flows|, flow64) <= 0x1_0000_0000_0000_0000
    requires Found(flows[k], s)
    ensures EntryPlace(k, flow64) in LinearFilter(flows, s, flow64, n)
  {
    if k < n - 1 {
      FilterTakes(flows, s, flow64, n - 1, k);
    }
  }

  lemma {:induction false} FilterTook(flows: seq<seq<PacketRecord>>, s: Search, flow64: bool, n: nat, x: U64)
    returns (k: nat)
    requires Described(s) && Reconciled(s) && n <= |flows| && NoneEmpty(flows)
    requires IndexSize(|flows|, flow64) <= 0x1_0000_0000_0000_0000
    requires x in LinearFilter(flows, s, flow64, n)
    ensures k < n && Found(flows[k], s) && x == EntryPlace(k, flow64)
  {
    if x in LinearFilter(flows, s, flow64, n - 1) {
      k := FilterTook(flows, s, flow64, n - 1, x);
    } else {
      k := n - 1;
    }
  }

  lemma FilterHas(flows: seq<seq<PacketRecord>>, s: Search, flow64: bool, n: nat, x: U64)
    requires Described(s) && Reconciled(s) && n <= |flows| && NoneEmpty(flows)
    requires IndexSize(|flows|, flow64) <= 0x1_0000_0000_0000_0000
    ensures x in LinearFilter(flows, s, flow64, n) <==>
            exists k :: 0 <= k < n && Found(flows[k], s) && x == EntryPlace(k, flow64)
  {
    if x in LinearFilter(flows, s, flow64, n) {
      var k := FilterTook(flows, s, flow64, n, x);
    } else {
      forall k | 0 <= k < n && Found(flows[k], s) ensures x != EntryPlace(k, flow64) {
        FilterTakes(flows, s, flow64, n, k);
      }
    }
  }

  lemma {:induction false} FilterIncreases(flows: seq<seq<PacketRecord>>, s: Search, flow64: bool, n: nat)
    requires Described(s) && Reconciled(s) && n <= |flows| && NoneEmpty(flows)
    requires IndexSize(|flows|, flow64) <= 0x1_0000_0000_0000_0000
    ensures Increasing(LinearFilter(flows, s, flow64, n))
    ensures forall x <- LinearFilter(flows, s, flow64, n) :: x < EntryPlace(n, flow64)
  {
    if n > 0 {
      FilterIncreases(flows, s, flow64, n - 1);
      PlacesRise(n - 1, n, flow64);
      PlacesRise(n - 1, |flows|, flow64);
      OneLarger(LinearFilter(flows, s, flow64, n - 1), EntryPlace(n - 1, flow64));
    }
  }

  lemma OneLarger(s: seq<U64>, x: U64)
    requires Increasing(s) && forall y <- s :: y < x
    ensures Increasing(s + [x]) && s + [] == s
  {
    forall i, j | 0 <= i < j < |s + [x]| ensures (s + [x])[i] < (s + [x])[j] {
      assert (s + [x])[i] == s[i] && s[i] in s;
    }
  }

  lemma HasSome(s: seq<U64>)
    ensures s != [] ==> exists x: U64 :: x in s
  {
    if s != [] {
      assert s[0] in s;
    }
  }

  // An increasing list is determined by what is in it.
  lemma {:induction false} SameContents(a: seq<U64>, b: seq<U64>)
    requires Increasing(a) && Increasing(b) && forall x: U64 :: x in a <==> x in b
    ensures a == b
    decreases |a|
  {
    if a == [] {
      HasSome(b);
    } else {
      HasSome(a);
      var m, n := |a| - 1, |b| - 1;
      assert a[m] in b && b[n] in a;
      assert a[m] == b[n];
      forall x: U64 ensures x in a[..m] <==> x in b[..n] {
        assert x in a <==> x in b;
      }
      SameContents(a[..m], b[..n]);
    }
  }

  // ---- The search of one slot ----

  ghost predicate Files(files: map<KeyType, SI.IndexFile>, flows: seq<seq<PacketRecord>>, flow64: bool) {
    && NoneEmpty(flows) && IndexSize(|flows|, flow64) <= 0x1_0000_0000_0000_0000
    && forall tt: KeyType :: tt != FLOW ==> tt in files && FileOfFlows(files[tt], tt, flows, flow64)
  }

  // r has the places of the flows with a key in the range.
  ghost predicate AnswersSub(r: seq<U64>, flows: seq<seq<PacketRecord>>, s: SubSearch, flow64: bool)
    requires s.tt != FLOW && NoneEmpty(flows)
  {
    forall x: U64 :: x in r <==> exists k :: 0 <= k < |flows| && InSub(flows[k], s) && x == EntryPlace(k, flow64)
  }

  lemma RangeIsSub(f: SI.IndexFile, flows: seq<seq<PacketRecord>>, s: SubSearch, flow64: bool, x: U64)
    requires s.tt != FLOW && NoneEmpty(flows) && FileOfFlows(f, s.tt, flows, flow64)
    ensures InRange(f.records, s.start, s.end, x) <==>
            exists k :: 0 <= k < |flows| && InSub(flows[k], s) && x == EntryPlace(k, flow64)
  {
    if InRange(f.records, s.start, s.end, x) {
      var j :| 0 <= j < |f.records| && s.start <= f.records[j].key <= s.end && f.records[j].offset == x;
      assert SI.Entry(f.records[j].key, x) in f.records;
      var k: nat :| HasKey(flows, k, s.tt, f.records[j].key) && x == EntryPlace(k, flow64);
      assert InSub(flows[k], s);
    }
    if k :| 0 <= k < |flows| && InSub(flows[k], s) && x == EntryPlace(k, flow64) {
      var key := KeyVal(flows[k][0], s.tt);
      assert HasKey(flows, k, s.tt, key);
      assert SI.Entry(key, x) in f.records;
    }
  }

  // As it is written a sub-search fails when it finds the flows with the largest key: no flow is in
  // the range, or some have keys behind it.
  ghost predicate EndsAmong(flows: seq<seq<PacketRecord>>, s: SubSearch)
    requires s.tt != FLOW && NoneEmpty(flows)
  {
    || (forall k :: 0 <= k < |flows| ==> !InSub(flows[k], s))
    || (exists k :: 0 <= k < |flows| && Applies(flows[k][0], s.tt) && KeyVal(flows[k][0], s.tt) > s.end)
  }

  // The records have the keys of the flows.
  lemma RecordOfFlow(f: SI.IndexFile, flows: seq<seq<PacketRecord>>, tt: KeyType, flow64: bool, k: nat) returns (j: nat)
    requires tt != FLOW && NoneEmpty(flows) && FileOfFlows(f, tt, flows, flow64)
    requires k < |flows| && Applies(flows[k][0], tt)
    ensures j < |f.records| && f.records[j].key == KeyVal(flows[k][0], tt)
  {
    assert HasKey(flows, k, tt, KeyVal(flows[k][0], tt));
    var entry := SI.Entry(KeyVal(flows[k][0], tt), EntryPlace(k, flow64));
    assert entry in f.records;
    j :| 0 <= j < |f.records| && f.records[j] == entry;
  }

  lemma FlowOfRecord(f: SI.IndexFile, flows: seq<seq<PacketRecord>>, tt: KeyType, flow64: bool, j: nat) returns (k: nat)
    requires tt != FLOW && NoneEmpty(flows) && FileOfFlows(f, tt, flows, flow64) && j < |f.records|
    ensures k < |flows| && Applies(flows[k][0], tt) && KeyVal(flows[k][0], tt) == f.records[j].key
  {
    assert SI.Entry(f.records[j].key, f.records[j].offset) in f.records;
    k :| HasKey(flows, k, tt, f.records[j].key) && f.records[j].offset == EntryPlace(k, flow64);
  }

  lemma SomeBehind(f: SI.IndexFile, flows: seq<seq<PacketRecord>>, s: SubSearch, flow64: bool)
    requires s.tt != FLOW && NoneEmpty(flows) && FileOfFlows(f, s.tt, flows, flow64)
    requires EndsInside(f.records, s.start, s.end)
    ensures EndsAmong(flows, s)
  {
    if k :| 0 <= k < |flows| && InSub(flows[k], s) {
      var j := RecordOfFlow(f, flows, s.tt, flow64, k);
      var l := FlowOfRecord(f, flows, s.tt, flow64, |f.records| - 1);
    }
  }

  lemma NotBehind(f: SI.IndexFile, flows: seq<seq<PacketRecord>>, s: SubSearch, flow64: bool, l: nat)
    requires s.tt != FLOW && NoneEmpty(flows) && FileOfFlows(f, s.tt, flows, flow64)
    requires f.records != [] && f.records[|f.records| - 1].key <= s.end
    requires l < |flows| && Applies(flows[l][0], s.tt)
    ensures KeyVal(flows[l][0], s.tt) <= s.end
  {
    var i := RecordOfFlow(f, flows, s.tt, flow64, l);
    assert i < |f.records| - 1 ==> f.records[i].key <= f.records[|f.records| - 1].key;
  }

  lemma NoneBehind(f: SI.IndexFile, flows: seq<seq<PacketRecord>>, s: SubSearch, flow64: bool)
    requires s.tt != FLOW && NoneEmpty(flows) && FileOfFlows(f, s.tt, flows, flow64)
    requires !EndsInside(f.records, s.start, s.end)
    ensures !EndsAmong(flows, s)
  {
    var j :| 0 <= j < |f.records| && s.start <= f.records[j].key <= s.end;
    var k := FlowOfRecord(f, flows, s.tt, flow64, j);
    assert InSub(flows[k], s);
    forall l | 0 <= l < |flows| && Applies(flows[l][0], s.tt) ensures KeyVal(flows[l][0], s.tt) <= s.end {
      NotBehind(f, flows, s, flow64, l);
    }
  }

  lemma EndsAmongIff(f: SI.IndexFile, flows: seq<seq<PacketRecord>>, s: SubSearch, flow64: bool)
    requires s.tt != FLOW && NoneEmpty(flows) && FileOfFlows(f, s.tt, flows, flow64)
    ensures EndsInside(f.records, s.start, s.end) <==> EndsAmong(flows, s)
  {
    if EndsInside(f.records, s.start, s.end) {
      SomeBehind(f, flows, s, flow64);
    } else {
      NoneBehind(f, flows, s, flow64);
    }
  }

  // Whether a sub-search gives a result.
  ghost predicate SubEnds(flows: seq<seq<PacketRecord>>, s: SubSearch, written: bool)
    requires NoneEmpty(flows) && s.tt != FLOW
  {
    s.start <= s.end && (written ==> EndsAmong(flows, s))
  }

  // Whether all sub-searches do.
  ghost predicate SubsEnd(flows: seq<seq<PacketRecord>>, subs: seq<SubSearch>, written: bool, n: nat)
    requires NoneEmpty(flows) && n <= |subs| && forall i :: 0 <= i < |subs| ==> subs[i].tt != FLOW
  {
    forall i :: 0 <= i < n ==> SubEnds(flows, subs[i], written)
  }

  // One sub-search: its file has the places of the flows in its range.
  method SearchSub(e: Elements<U64>, files: map<KeyType, SI.IndexFile>, s: SubSearch, written: bool,
                   ghost flows: seq<seq<PacketRecord>>, ghost flow64: bool)
    returns (ok: bool, out: seq<Byte>, ghost r: seq<U64>)
    requires IsOffsets(e) && Files(files, flows, flow64) && s.tt != FLOW
    ensures ok <==> SubEnds(flows, s, written)
    ensures ok ==> Holds(e, out, r) && AnswersSub(r, flows, s, flow64)
  {
    ok, out, r := SearchSubindex(e, files[s.tt], s.start, s.end, written);
    EndsAmongIff(files[s.tt], flows, s, flow64);
    forall x: U64 {
      RangeIsSub(files[s.tt], flows, s, flow64, x);
    }
  }

  // The sub-searches, as the first loop of run_search does them.
  method SearchSubs(e: Elements<U64>, files: map<KeyType, SI.IndexFile>, subs: seq<SubSearch>, written: bool,
                    ghost flows: seq<seq<PacketRecord>>, ghost flow64: bool)
    returns (ok: bool, outs: seq<seq<Byte>>, ghost contents: seq<seq<U64>>)
    requires IsOffsets(e) && Files(files, flows, flow64) && forall i :: 0 <= i < |subs| ==> subs[i].tt != FLOW
    ensures ok <==> SubsEnd(flows, subs, written, |subs|)
    ensures ok ==> |outs| == |contents| == |subs|
    ensures ok ==> forall i :: 0 <= i < |subs| ==>
                               Holds(e, outs[i], contents[i]) && AnswersSub(contents[i], flows, subs[i], flow64)
  {
    outs, contents := [], [];
    for n := 0 to |subs|
      invariant |outs| == |contents| == n
      invariant SubsEnd(flows, subs, written, n)
      invariant forall i :: 0 <= i < n ==>
                            Holds(e, outs[i], contents[i]) && AnswersSub(contents[i], flows, subs[i], flow64)
    {
      var out;
      ghost var r;
      ok, out, r := SearchSub(e, files, subs[n], written, flows, flow64);
      if !ok {
        return false, [], [];
      }
      outs, contents := outs + [out], contents + [r];
    }
    ok := true;
  }

  // r has the places of the flows that meet all of AND operation a.
  ghost predicate AnswersAnd(r: seq<U64>, flows: seq<seq<PacketRecord>>, s: Search, a: nat, flow64: bool)
    requires Described(s) && Reconciled(s) && a < |s.ands| && NoneEmpty(flows)
  {
    forall x: U64 :: x in r <==> exists k :: 0 <= k < |flows| && MeetsAll(flows[k], s, a) && x == EntryPlace(k, flow64)
  }

  ghost predicate SubsAnswered(contents: seq<seq<U64>>, flows: seq<seq<PacketRecord>>, subs: seq<SubSearch>,
                               flow64: bool)
    requires NoneEmpty(flows) && forall i :: 0 <= i < |subs| ==> subs[i].tt != FLOW
  {
    |contents| == |subs| && forall i :: 0 <= i < |subs| ==> AnswersSub(contents[i], flows, subs[i], flow64)
  }

  lemma PlaceTellsFlow(k: nat, l: nat, flow64: bool)
    requires EntryPlace(k, flow64) == EntryPlace(l, flow64)
    ensures k == l
  {
    PlacesRise(k, l, flow64);
    PlacesRise(l, k, flow64);
  }

  // The inputs of an AND operation.
  function Picked<T>(all: seq<T>, refs: seq<Ref>): (r: seq<T>)
    requires forall i :: 0 <= i < |refs| ==> refs[i].id < |all|
    ensures |r| == |refs| && forall i :: 0 <= i < |refs| ==> r[i] == all[refs[i].id]
  {
    seq(|refs|, i requires 0 <= i < |refs| => all[refs[i].id])
  }

  function Inversions(refs: seq<Ref>): (r: seq<bool>)
    ensures |r| == |refs| && forall i :: 0 <= i < |refs| ==> r[i] == refs[i].inverted
  {
    seq(|refs|, i requires 0 <= i < |refs| => refs[i].inverted)
  }

  // At the place of a flow, the sets say what the flow meets.
  lemma AtPlace(contents: seq<seq<U64>>, flows: seq<seq<PacketRecord>>, s: Search, a: nat, flow64: bool, k: nat, x: U64)
    requires Described(s) && Reconciled(s) && a < |s.ands| && NoneEmpty(flows) &&
             SubsAnswered(contents, flows, s.subs, flow64)
    requires k < |flows| && x == EntryPlace(k, flow64)
    ensures Satisfies(Picked(contents, s.ands[a]), Inversions(s.ands[a]), |s.ands[a]|, x) <==> MeetsAll(flows[k], s, a)
  {
    var refs := s.ands[a];
    forall i | 0 <= i < |refs| ensures x in Picked(contents, refs)[i] <==> InSub(flows[k], s.subs[refs[i].id]) {
      var c, sub := contents[refs[i].id], s.subs[refs[i].id];
      assert AnswersSub(c, flows, sub, flow64);
      if x in c {
        var l :| 0 <= l < |flows| && InSub(flows[l], sub) && x == EntryPlace(l, flow64);
        PlaceTellsFlow(k, l, flow64);
      }
    }
  }

  lemma SatisfyingIsMeeting(contents: seq<seq<U64>>, flows: seq<seq<PacketRecord>>, s: Search, a: nat, flow64: bool,
                            x: U64)
    requires Described(s) && Reconciled(s) && a < |s.ands| && NoneEmpty(flows) &&
             SubsAnswered(contents, flows, s.subs, flow64)
    ensures Satisfies(Picked(contents, s.ands[a]), Inversions(s.ands[a]), |s.ands[a]|, x) <==>
            exists k :: 0 <= k < |flows| && MeetsAll(flows[k], s, a) && x == EntryPlace(k, flow64)
  {
    var refs := s.ands[a];
    if Satisfies(Picked(contents, refs), Inversions(refs), |refs|, x) {
      var i :| 0 <= i < |refs| && !refs[i].inverted;
      assert AnswersSub(contents[refs[i].id], flows, s.subs[refs[i].id], flow64);
      assert x in Picked(contents, refs)[i];
      var k :| 0 <= k < |flows| && InSub(flows[k], s.subs[refs[i].id]) && x == EntryPlace(k, flow64);
      AtPlace(contents, flows, s, a, flow64, k, x);
    }
    if k :| 0 <= k < |flows| && MeetsAll(flows[k], s, a) && x == EntryPlace(k, flow64) {
      AtPlace(contents, flows, s, a, flow64, k, x);
    }
  }

  // The AND operations, as the second loop of run_search does them: one whose result file is
  // there is passed over.
  method ResolveAnds(e: Elements<U64>, outs: seq<seq<Byte>>, s: Search, ghost contents: seq<seq<U64>>,
                     ghost flows: seq<seq<PacketRecord>>, ghost flow64: bool)
    returns (ands: seq<seq<Byte>>, ghost answers: seq<seq<U64>>)
    requires IsOffsets(e) && Described(s) && Reconciled(s) && NoneEmpty(flows) &&
             SubsAnswered(contents, flows, s.subs, flow64)
    requires |outs| == |contents| && forall i :: 0 <= i < |outs| ==> Holds(e, outs[i], contents[i])
    ensures |ands| == |answers| == |s.ands|
    ensures forall a :: 0 <= a < |s.ands| ==>
      Holds(e, ands[a], answers[a]) && AnswersAnd(answers[a], flows, s, Owner(s.names, a), flow64)
  {
    var results: map<Name, seq<Byte>> := map[];
    ands, answers := [], [];
    for n := 0 to |s.ands|
      invariant Resolved(results, ands, answers, s, n)
      invariant Answered(e, ands, answers, flows, s, flow64, n)
    {
      var out;
      ghost var r;
      out, results, r := ResolveNext(e, outs, s, n, results, ands, answers, contents, flows, flow64);
      ands, answers := ands + [out], answers + [r];
    }
  }

  // One operation: its result file is made unless it is there.
  method ResolveNext(e: Elements<U64>, outs: seq<seq<Byte>>, s: Search, n: nat, results: map<Name, seq<Byte>>,
                     ghost ands: seq<seq<Byte>>, ghost answers: seq<seq<U64>>, ghost contents: seq<seq<U64>>,
                     ghost flows: seq<seq<PacketRecord>>, ghost flow64: bool)
    returns (out: seq<Byte>, results1: map<Name, seq<Byte>>, ghost r: seq<U64>)
    requires IsOffsets(e) && Described(s) && Reconciled(s) && NoneEmpty(flows) &&
             SubsAnswered(contents, flows, s.subs, flow64)
    requires |outs| == |contents| && (forall i :: 0 <= i < |outs| ==> Holds(e, outs[i], contents[i])) && n < |s.ands|
    requires Resolved(results, ands, answers, s, n) && Answered(e, ands, answers, flows, s, flow64, n)
    ensures Resolved(results1, ands + [out], answers + [r], s, n + 1)
    ensures Answered(e, ands + [out], answers + [r], flows, s, flow64, n + 1)
  {
    var name := s.names[n];
    if name in results {
      OwnerIsEarlier(results, ands, answers, s, n);
      out, results1, r := results[name], results, answers[Owner(s.names, n)];
      ResultThere(e, results, ands, answers, flows, s, flow64, n);
    } else {
      out, r := ResolveAnd(e, outs, s, n, contents, flows, flow64);
      results1 := results[name := out];
      ResultMade(e, results, ands, answers, flows, s, flow64, n, out, r);
    }
  }

  lemma ResultThere(e: Elements<U64>, results: map<Name, seq<Byte>>, ands: seq<seq<Byte>>, answers: seq<seq<U64>>,
                    flows: seq<seq<PacketRecord>>, s: Search, flow64: bool, n: nat)
    requires Described(s) && Reconciled(s) && NoneEmpty(flows) && n < |s.ands| && s.names[n] in results
    requires Resolved(results, ands, answers, s, n) && Answered(e, ands, answers, flows, s, flow64, n)
    requires Owner(s.names, n) < n
    ensures var out, r := results[s.names[n]], answers[Owner(s.names, n)];
      && Resolved(results, ands + [out], answers + [r], s, n + 1)
      && Answered(e, ands + [out], answers + [r], flows, s, flow64, n + 1)
  {
    var b := Owner(s.names, n);
    OwnerIsEarlier(results, ands, answers, s, n);
    assert Holds(e, ands[b], answers[b]) && AnswersAnd(answers[b], flows, s, Owner(s.names, b), flow64);
    OneMoreResolved(results, ands, answers, s, n, ands[b], answers[b]);
    OneMoreAnswered(e, ands, answers, flows, s, flow64, n, ands[b], answers[b]);
  }

  lemma MadeResolved(results: map<Name, seq<Byte>>, ands: seq<seq<Byte>>, answers: seq<seq<U64>>, s: Search, n: nat,
                     out: seq<Byte>, r: seq<U64>)
    requires |s.ands| == |s.names| && n < |s.ands| && s.names[n] !in results && Resolved(results, ands, answers, s, n)
    ensures Resolved(results[s.names[n] := out], ands + [out], answers + [r], s, n + 1) && Owner(s.names, n) == n
  {
    var results1 := results[s.names[n] := out];
    OwnerIsItself(results, ands, answers, s, n);
    forall m | m in results1 ensures m == s.names[n] || exists a :: 0 <= a < n && s.names[a] == m {
      assert m != s.names[n] ==> m in results;
    }
    OneMoreResolved(results1, ands, answers, s, n, out, r);
  }

  lemma ResultMade(e: Elements<U64>, results: map<Name, seq<Byte>>, ands: seq<seq<Byte>>, answers: seq<seq<U64>>,
                   flows: seq<seq<PacketRecord>>, s: Search, flow64: bool, n: nat, out: seq<Byte>, r: seq<U64>)
    requires Described(s) && Reconciled(s) && NoneEmpty(flows) && n < |s.ands| && s.names[n] !in results
    requires Resolved(results, ands, answers, s, n) && Answered(e, ands, answers, flows, s, flow64, n)
    requires Holds(e, out, r) && AnswersAnd(r, flows, s, n, flow64)
    ensures Resolved(results[s.names[n] := out], ands + [out], answers + [r], s, n + 1)
    ensures Answered(e, ands + [out], answers + [r], flows, s, flow64, n + 1)
  {
    MadeResolved(results, ands, answers, s, n, out, r);
    OneMoreAnswered(e, ands, answers, flows, s, flow64, n, out, r);
  }

  // The files there are after n operations.
  ghost predicate Resolved(results: map<Name, seq<Byte>>, ands: seq<seq<Byte>>, answers: seq<seq<U64>>, s: Search,
                           n: nat)
    requires |s.ands| == |s.names| && n <= |s.ands|
  {
    && |ands| == |answers| == n
    && (forall a :: 0 <= a < n ==> s.names[a] in results && results[s.names[a]] == ands[a])
    && forall m <- results :: exists a :: 0 <= a < n && s.names[a] == m
  }

  ghost predicate Answered(e: Elements<U64>, ands: seq<seq<Byte>>, answers: seq<seq<U64>>,
                           flows: seq<seq<PacketRecord>>,
                           s: Search, flow64: bool, n: nat)
    requires Described(s) && Reconciled(s) && NoneEmpty(flows) && n <= |s.ands|
  {
    && |ands| == |answers| == n
    && forall a :: 0 <= a < n ==>
         Holds(e, ands[a], answers[a]) && AnswersAnd(answers[a], flows, s, Owner(s.names, a), flow64)
  }

  lemma OneMoreResolved(results: map<Name, seq<Byte>>, ands: seq<seq<Byte>>, answers: seq<seq<U64>>, s: Search, n: nat,
                        out: seq<Byte>, r: seq<U64>)
    requires |s.ands| == |s.names| && n < |s.ands| && |ands| == |answers| == n
    requires forall a :: 0 <= a < n ==> s.names[a] in results && results[s.names[a]] == ands[a]
    requires forall m <- results :: m == s.names[n] || exists a :: 0 <= a < n && s.names[a] == m
    requires s.names[n] in results && results[s.names[n]] == out
    ensures Resolved(results, ands + [out], answers + [r], s, n + 1)
  {
  }

  lemma OneMoreAnswered(e: Elements<U64>, ands: seq<seq<Byte>>, answers: seq<seq<U64>>, flows: seq<seq<PacketRecord>>,
                        s: Search, flow64: bool, n: nat, out: seq<Byte>, r: seq<U64>)
    requires Described(s) && Reconciled(s) && NoneEmpty(flows) && n < |s.ands|
    requires Answered(e, ands, answers, flows, s, flow64, n)
    requires Holds(e, out, r) && AnswersAnd(r, flows, s, Owner(s.names, n), flow64)
    ensures Answered(e, ands + [out], answers + [r], flows, s, flow64, n + 1)
  {
    var ands1, answers1 := ands + [out], answers + [r];
    forall a | 0 <= a < n + 1
      ensures Holds(e, ands1[a], answers1[a]) && AnswersAnd(answers1[a], flows, s, Owner(s.names, a), flow64)
    {
      if a < n {
        assert Holds(e, ands[a], answers[a]) && ands1[a] == ands[a] && answers1[a] == answers[a];
      }
    }
  }

  lemma OwnerIsEarlier(results: map<Name, seq<Byte>>, ands: seq<seq<Byte>>, answers: seq<seq<U64>>, s: Search, n: nat)
    requires |s.ands| == |s.names| && n < |s.ands| && Resolved(results, ands, answers, s, n) && s.names[n] in results
    ensures Owner(s.names, n) < n && results[s.names[n]] == ands[Owner(s.names, n)]
    ensures Owner(s.names, Owner(s.names, n)) == Owner(s.names, n)
  {
    var a :| 0 <= a < n && s.names[a] == s.names[n];
  }

  lemma OwnerIsItself(results: map<Name, seq<Byte>>, ands: seq<seq<Byte>>, answers: seq<seq<U64>>, s: Search, n: nat)
    requires |s.ands| == |s.names| && n < |s.ands| && Resolved(results, ands, answers, s, n) && s.names[n] !in results
    ensures Owner(s.names, n) == n
  {
  }

  method ResolveAnd(e: Elements<U64>, outs: seq<seq<Byte>>, s: Search, n: nat, ghost contents: seq<seq<U64>>,
                    ghost flows: seq<seq<PacketRecord>>, ghost flow64: bool)
    returns (out: seq<Byte>, ghost r: seq<U64>)
    requires IsOffsets(e) && Described(s) && Reconciled(s) && NoneEmpty(flows) &&
             SubsAnswered(contents, flows, s.subs, flow64)
    requires |outs| == |contents| && (forall i :: 0 <= i < |outs| ==> Holds(e, outs[i], contents[i])) && n < |s.ands|
    ensures Holds(e, out, r) && AnswersAnd(r, flows, s, n, flow64)
  {
    var refs := s.ands[n];
    var ok;
    ok, out, r := AndResults(e, Picked(outs, refs), Inversions(refs), Picked(contents, refs));
    assert ok;
    forall x: U64 {
      SatisfyingIsMeeting(contents, flows, s, n, flow64, x);
    }
  }

  lemma InSomeAnswer(answers: seq<seq<U64>>, flows: seq<seq<PacketRecord>>, s: Search, flow64: bool, x: U64)
    requires Described(s) && Reconciled(s) && NoneEmpty(flows) && |answers| == |s.ands|
    requires forall a :: 0 <= a < |s.ands| ==> AnswersAnd(answers[a], flows, s, Owner(s.names, a), flow64)
    ensures InAny(answers, x) <==> exists k :: 0 <= k < |flows| && Found(flows[k], s) && x == EntryPlace(k, flow64)
  {
    if InAny(answers, x) {
      var a :| 0 <= a < |answers| && x in answers[a];
      assert AnswersAnd(answers[a], flows, s, Owner(s.names, a), flow64);
      var k :| 0 <= k < |flows| && MeetsAll(flows[k], s, Owner(s.names, a)) && x == EntryPlace(k, flow64);
      assert Found(flows[k], s);
    }
    if k :| 0 <= k < |flows| && Found(flows[k], s) && x == EntryPlace(k, flow64) {
      var a :| 0 <= a < |s.ands| && MeetsAll(flows[k], s, Owner(s.names, a));
      assert AnswersAnd(answers[a], flows, s, Owner(s.names, a), flow64);
    }
  }

  lemma AnyIsFound(answers: seq<seq<U64>>, flows: seq<seq<PacketRecord>>, s: Search, flow64: bool, r: seq<U64>)
    requires Described(s) && Reconciled(s) && NoneEmpty(flows) && IndexSize(|flows|, flow64) <= 0x1_0000_0000_0000_0000
    requires |answers| == |s.ands|
    requires forall a :: 0 <= a < |s.ands| ==> AnswersAnd(answers[a], flows, s, Owner(s.names, a), flow64)
    requires Increasing(r) && forall x: U64 :: x in r <==> InAny(answers, x)
    ensures r == LinearFilter(flows, s, flow64, |flows|)
  {
    forall x: U64 ensures x in r <==> x in LinearFilter(flows, s, flow64, |flows|) {
      FilterHas(flows, s, flow64, |flows|, x);
      InSomeAnswer(answers, flows, s, flow64, x);
    }
    FilterIncreases(flows, s, flow64, |flows|);
    SameContents(r, LinearFilter(flows, s, flow64, |flows|));
  }

  // ---- Operations of one name ----

  // What an AND operation says: its sub-searches, each with its sign.
  function Sense(s: Search, refs: seq<Ref>): multiset<Signed>
    requires forall i :: 0 <= i < |refs| ==> refs[i].id < |s.subs|
  {
    if refs == [] then multiset{}
    else multiset{Signed(s.subs[refs[0].id], refs[0].inverted)} + Sense(s, refs[1..])
  }

  // The same without the signs, which is all that the name of an operation is made from.
  function Refers(s: Search, refs: seq<Ref>): multiset<SubSearch>
    requires forall i :: 0 <= i < |refs| ==> refs[i].id < |s.subs|
  {
    if refs == [] then multiset{} else multiset{s.subs[refs[0].id]} + Refers(s, refs[1..])
  }

  lemma {:induction false} SignsCounted(s: Search, refs: seq<Ref>, x: SubSearch)
    requires forall i :: 0 <= i < |refs| ==> refs[i].id < |s.subs|
    ensures Refers(s, refs)[x] == Sense(s, refs)[Signed(x, true)] + Sense(s, refs)[Signed(x, false)]
  {
    if refs != [] {
      SignsCounted(s, refs[1..], x);
    }
  }

  lemma {:induction false} SenseHas(s: Search, refs: seq<Ref>, x: SubSearch, inv: bool)
    requires forall i :: 0 <= i < |refs| ==> refs[i].id < |s.subs|
    ensures Signed(x, inv) in Sense(s, refs) <==>
            exists i :: 0 <= i < |refs| && s.subs[refs[i].id] == x && refs[i].inverted == inv
  {
    if refs != [] {
      SenseHas(s, refs[1..], x, inv);
      assert forall i :: 1 <= i < |refs| ==> refs[i] == refs[1..][i - 1];
    }
  }

  // A flow meets what an operation says, whatever the order and the numbers.
  lemma MeetsSense(flow: seq<PacketRecord>, s: Search, a: nat, b: nat)
    requires Described(s) && Reconciled(s) && a < |s.ands| && b < |s.ands| && flow != []
    requires Sense(s, s.ands[a]) == Sense(s, s.ands[b]) && MeetsAll(flow, s, a)
    ensures MeetsAll(flow, s, b)
  {
    var refs := s.ands[b];
    forall i | 0 <= i < |refs| ensures InSub(flow, s.subs[refs[i].id]) != refs[i].inverted {
      SenseHas(s, refs, s.subs[refs[i].id], refs[i].inverted);
      SenseHas(s, s.ands[a], s.subs[refs[i].id], refs[i].inverted);
    }
  }

  // The names are those of make_search_description.
  ghost predicate Named(s: Search)
    requires Described(s) && Reconciled(s)
  {
    forall a :: 0 <= a < |s.ands| ==> s.names[a] == Digest(Refers(s, s.ands[a]))
  }

  // No two operations differ in the signs alone.
  ghost predicate SignsAgree(s: Search)
    requires Described(s) && Reconciled(s)
  {
    forall a, b :: 0 <= a < |s.ands| && 0 <= b < |s.ands| && s.names[a] == s.names[b] ==>
      Sense(s, s.ands[a]) == Sense(s, s.ands[b])
  }

  // Nothing is found that is not wanted; and all that is wanted is found if no two operations
  // differ in the signs alone.
  lemma FoundIsWanted(flow: seq<PacketRecord>, s: Search)
    requires Described(s) && Reconciled(s) && flow != []
    ensures Found(flow, s) ==> Wanted(flow, s)
    ensures SignsAgree(s) ==> (Found(flow, s) <==> Wanted(flow, s))
  {
    if Wanted(flow, s) && SignsAgree(s) {
      var a :| 0 <= a < |s.ands| && MeetsAll(flow, s, a);
      MeetsSense(flow, s, a, Owner(s.names, a));
    }
  }

  // A flow is lost exactly if it meets some operation, but none that says what the first one of
  // its name says.
  lemma LostIff(flow: seq<PacketRecord>, s: Search)
    requires Described(s) && Reconciled(s) && flow != []
    ensures Wanted(flow, s) && !Found(flow, s) <==>
            && Wanted(flow, s)
            && forall a :: 0 <= a < |s.ands| && MeetsAll(flow, s, a) ==>
                 Sense(s, s.ands[a]) != Sense(s, s.ands[Owner(s.names, a)])
  {
    if a :| 0 <= a < |s.ands| && MeetsAll(flow, s, a) && Sense(s, s.ands[a]) == Sense(s, s.ands[Owner(s.names, a)]) {
      MeetsSense(flow, s, a, Owner(s.names, a));
    }
    if Found(flow, s) {
      var b :| 0 <= b < |s.ands| && MeetsAll(flow, s, Owner(s.names, b));
      SameOwner(s.names, Owner(s.names, b), b);
    }
  }

  // Operations that differ in the signs alone have no flow in common.
  lemma SignsExclude(flow: seq<PacketRecord>, s: Search, a: nat, b: nat)
    requires Described(s) && Reconciled(s) && Named(s) && a < |s.ands| && b < |s.ands| && flow != []
    requires s.names[a] == s.names[b] && Sense(s, s.ands[a]) != Sense(s, s.ands[b])
    ensures !(MeetsAll(flow, s, a) && MeetsAll(flow, s, b))
  {
    var p, q := Sense(s, s.ands[a]), Sense(s, s.ands[b]);
    var x, inv := DifferentSign(s, s.ands[a], s.ands[b]);
    SenseHas(s, s.ands[a], x, inv);
    SenseHas(s, s.ands[b], x, !inv);
  }

  lemma DifferentSign(s: Search, p: seq<Ref>, q: seq<Ref>) returns (x: SubSearch, inv: bool)
    requires forall i :: 0 <= i < |p| ==> p[i].id < |s.subs|
    requires forall i :: 0 <= i < |q| ==> q[i].id < |s.subs|
    requires Refers(s, p) == Refers(s, q) && Sense(s, p) != Sense(s, q)
    ensures Signed(x, inv) in Sense(s, p) && Signed(x, !inv) in Sense(s, q)
  {
    var y: Signed :| Sense(s, p)[y] != Sense(s, q)[y];
    x := y.sub;
    assert y == Signed(x, y.inverted);
    SignsCounted(s, p, x);
    SignsCounted(s, q, x);
    inv := Sense(s, p)[Signed(x, true)] > Sense(s, q)[Signed(x, true)];
  }

  // So a flow that meets only an operation passed over, for another of its name and other
  // signs, is lost.
  lemma LostIf(flow: seq<PacketRecord>, s: Search, a: nat)
    requires Described(s) && Reconciled(s) && Named(s) && a < |s.ands| && flow != [] && MeetsAll(flow, s, a)
    requires Sense(s, s.ands[a]) != Sense(s, s.ands[Owner(s.names, a)])
    requires forall b :: 0 <= b < |s.ands| && s.names[b] != s.names[a] ==> !MeetsAll(flow, s, b)
    ensures Wanted(flow, s) && !Found(flow, s)
  {
    forall b | 0 <= b < |s.ands| ensures !MeetsAll(flow, s, Owner(s.names, b)) {
      OwnerMissed(flow, s, a, b);
    }
  }

  lemma OwnerMissed(flow: seq<PacketRecord>, s: Search, a: nat, b: nat)
    requires Described(s) && Reconciled(s) && Named(s) && a < |s.ands| && b < |s.ands| && flow != [] &&
             MeetsAll(flow, s, a)
    requires Sense(s, s.ands[a]) != Sense(s, s.ands[Owner(s.names, a)])
    requires forall c :: 0 <= c < |s.ands| && s.names[c] != s.names[a] ==> !MeetsAll(flow, s, c)
    ensures !MeetsAll(flow, s, Owner(s.names, b))
  {
    var o := Owner(s.names, b);
    if s.names[b] == s.names[a] {
      SameOwner(s.names, a, b);
      SignsExclude(flow, s, a, o);
    } else {
      assert s.names[o] != s.names[a];
    }
  }

  lemma SameOwner(names: seq<Name>, a: nat, b: nat)
    requires a < |names| && b < |names| && names[a] == names[b]
    ensures Owner(names, a) == Owner(names, b)
  {
  }

  // (src port 80 and dst port 53) or (src port 80 and not dst port 53).
  function PortsSearch(): Search {
    var p80, p53 := SubSearch(SRCPORT, 80, 80), SubSearch(DSTPORT, 53, 53);
    Search.Search([p80, p53, p80, p53], [[Ref(0, false), Ref(1, false)], [Ref(2, false), Ref(3, true)]],
           [Digest(multiset{p80, p53}), Digest(multiset{p80, p53})])
  }

  lemma RefersOfTwo(s: Search, p: Ref, q: Ref)
    requires p.id < |s.subs| && q.id < |s.subs|
    ensures Refers(s, [p, q]) == multiset{s.subs[p.id], s.subs[q.id]}
  {
    assert [p, q][1..] == [q] && [q][1..] == [];
    assert Refers(s, [q]) == multiset{s.subs[q.id]} + Refers(s, []);
  }

  lemma PortsSearchIsSound()
    ensures var s := PortsSearch(); Described(s) && Reconciled(s) && Named(s) &&
                                    Owner(s.names, 0) == Owner(s.names, 1) == 0
  {
    var s := PortsSearch();
    assert !s.ands[0][0].inverted && !s.ands[1][0].inverted;
    RefersOfTwo(s, Ref(0, false), Ref(1, false));
    RefersOfTwo(s, Ref(2, false), Ref(3, true));
  }

  // A flow from port 80 to another port than 53 is asked for and not found.
  lemma PortsSearchLoses(flow: seq<PacketRecord>)
    requires flow != [] && flow[0].srcport == 80 && flow[0].dstport != 53
    ensures var s := PortsSearch();
      Described(s) && Reconciled(s) && Named(s) && Wanted(flow, s) && !Found(flow, s)
  {
    var s := PortsSearch();
    PortsSearchIsSound();
    assert MeetsAll(flow, s, 1);
    assert InSub(flow, s.subs[s.ands[0][1].id]) == s.ands[0][1].inverted;
  }

  // reconcile_subsearches: whether all references are to sub-searches that exist.
  method Reconcile(s: Search) returns (ok: bool)
    ensures ok <==> Reconciled(s)
  {
    for a := 0 to |s.ands|
      invariant forall b, i :: 0 <= b < a && 0 <= i < |s.ands[b]| ==> s.ands[b][i].id < |s.subs|
    {
      for j := 0 to |s.ands[a]|
        invariant forall i :: 0 <= i < j ==> s.ands[a][i].id < |s.subs|
      {
        if s.ands[a][j].id >= |s.subs| {
          return false;
        }
      }
    }
    ok := true;
  }

  // run_search for one slot, with none of its results there at first: the places of the flows
  // found, unless a reference is wrong or a range the wrong way round, or, with the end of the
  // scans as written, a range takes in the largest key.
  method RunSearch(files: map<KeyType, SI.IndexFile>, s: Search, written: bool, ghost flows: seq<seq<PacketRecord>>,
                   ghost flow64: bool)
    returns (ok: bool, out: seq<Byte>)
    requires Described(s) && Files(files, flows, flow64)
    ensures ok <==> Reconciled(s) && SubsEnd(flows, s.subs, written, |s.subs|)
    ensures ok ==> out == OrderedSets.Bytes(Offsets(), LinearFilter(flows, s, flow64, |flows|))
  {
    out := [];
    ok := Reconcile(s);
    if ok {
      var e := Offsets();
      OffsetsAreOffsets();
      var outs, ands;
      ghost var contents, answers, r;
      ok, outs, contents := SearchSubs(e, files, s.subs, written, flows, flow64);
      if ok {
        ands, answers := ResolveAnds(e, outs, s, contents, flows, flow64);
        out, r := OrResults(e, ands, answers);
        AnyIsFound(answers, flows, s, flow64, r);
      }
    }
  }

  // ---- From packets to the answer ----

  ghost const ORDERS: Ranking := tt => p => Rank(p, tt)

  lemma OrdersRank()
    ensures forall tt :: IndexTree.Ranks(ORDERS(tt), tt)
  {
    forall tt, p ensures Rank(p, tt) < IndexTree.RANK_LIMIT {
      IndexTree.RankBounded(p, tt);
    }
  }

  // How many flows some packets make.
  ghost function FlowCount(ps: seq<PacketRecord>): nat { |FirstOf(ps, ORDERS(FLOW))| }

  lemma CountOfFlows(v: Contents, trees: map<KeyType, IndexTree.Tree>, all: set<IndexTree.IndexNode>,
                     ps: seq<PacketRecord>)
    requires Indexed(v, trees, all, ORDERS, ps)
    ensures v.flowCnt == FlowCount(ps)
  {
    assert TimeOrder(v.timeorder, IndexTree.Nodes(trees[FLOW]), FirstOf(ps, ORDERS(FLOW))) by {
      assert Folded(0);
    }
  }

  lemma FewEnough(flowCnt: nat, flow64: bool)
    requires IndexSize(flowCnt, flow64) <= 0x1_0000_0000_0000_0000
    ensures flowCnt < MergeSort.MAX_NODES
  {
  }

  // A chain of buckets indexed and written: the flow index with the capture file, and the files
  // of a slot.
  method IndexAndWrite(chain: seq<seq<PacketRecord>>, flow64: bool)
    returns (flow: FlowWriter, files: map<KeyType, SI.IndexFile>)
    requires Distinct(Chained(chain)) && IndexSize(FlowCount(Chained(chain)), flow64) <= 0x1_0000_0000_0000_0000
    ensures fresh(flow) && flow.Valid() && flow.offset64 == flow64 && AreFlows(flow.flows, Chained(chain), ORDERS(FLOW))
    ensures Files(files, flow.flows, flow64)
  {
    OrdersRank();
    var idxs := IndexChain(chain, ORDERS);
    CountOfFlows(idxs.Now(), idxs.trees, idxs.all, Chained(chain));
    FewEnough(idxs.flowCnt, flow64);
    flow, files := OutputBucket(idxs, flow64, ORDERS, Chained(chain));
  }

  // For every chain of buckets and every search: what comes out after indexing, writing and
  // searching is what looking at each flow in turn finds.
  method IndexAndSearch(chain: seq<seq<PacketRecord>>, flow64: bool, s: Search, written: bool)
    returns (ok: bool, out: seq<Byte>, flow: FlowWriter)
    requires Distinct(Chained(chain)) && Described(s)
    requires IndexSize(FlowCount(Chained(chain)), flow64) <= 0x1_0000_0000_0000_0000
    ensures flow.Valid() && AreFlows(flow.flows, Chained(chain), ORDERS(FLOW))
    ensures IndexSize(|flow.flows|, flow64) <= 0x1_0000_0000_0000_0000
    ensures ok <==> Reconciled(s) && SubsEnd(flow.flows, s.subs, written, |s.subs|)
    ensures ok ==> out == OrderedSets.Bytes(Offsets(), LinearFilter(flow.flows, s, flow64, |flow.flows|))
  {
    var files;
    flow, files := IndexAndWrite(chain, flow64);
    ok, out := RunSearch(files, s, written, flow.flows, flow64);
  }
}

// Unions of sets of flow records, as merge_flows makes them (indexer/search/ordered_set.c,
// indexer/search/merge_flows.c).

module FlowUnions {
  import opened Folding
  import opened Network
  import opened Bits
  import opened Keys
  import opened Items
  import opened OrderedSets
  import opened SkipLinks
  import opened SkipStates
  import opened SkipLists
  import opened UnionRuns
  import opened Unions

  // ---- What a union of flows puts out ----

  // `out` has one record for each flow that occurs among `taken`, in the order of the flows:
  // all records of the flow merged, one after the other.
  ghost predicate FoldsOf(out: seq<FlowRec>, taken: seq<FlowRec>) {
    var e := FlowRecs();
    && StrictlyAscending(e, out)
    && (forall i :: 0 <= i < |out| ==> Merged(e, taken, e.rank(out[i])) == Got(out[i]))
    && forall x <- taken :: exists i :: 0 <= i < |out| && e.rank(out[i]) == e.rank(x)
  }

  lemma {:induction false} SomethingMerged<T(!new)>(e: Elements<T>, s: seq<T>, x: T)
    requires WellFormed(e) && x in s
    ensures Merged(e, s, e.rank(x)).Got? && e.rank(Merged(e, s, e.rank(x)).item) == e.rank(x)
  {
    RankOfMerged(e, s, e.rank(x));
    if x != s[|s| - 1] {
      SomethingMerged(e, s[..|s| - 1], x);
    }
  }

  lemma {:induction false} RankOfMerged<T(!new)>(e: Elements<T>, s: seq<T>, v: nat)
    requires WellFormed(e)
    ensures Merged(e, s, v).Got? ==> e.rank(Merged(e, s, v).item) == v
  {
    if s != [] {
      RankOfMerged(e, s[..|s| - 1], v);
    }
  }

  // os_slist_union for flows: the records of all sets have been taken, each once, and what comes
  // out are the folds of flow_key_merge over the records of one flow.
  lemma FlowUnionIs(run: Run<FlowRec>)
    requires RightRun(FlowRecs(), run) && State(run) == []
    ensures FoldsOf(Coalesce(FlowRecs(), Taken(run)), Taken(run)) &&
            multiset(Taken(run)) == UnionRuns.Total(FirstState(run))
  {
    var e, taken := FlowRecs(), Taken(run);
    var out := Coalesce(e, taken);
    FlowRecsWellFormed();
    PoppedInOrder(e, run);
    RunConserves(e, run);
    CoalesceIsStrict(e, taken);
    forall i | 0 <= i < |out| ensures Merged(e, taken, e.rank(out[i])) == Got(out[i]) {
      CoalesceMerges(e, taken, e.rank(out[i]));
      MergedOfStrict(e, out, i);
    }
    forall x | x in taken ensures exists i :: 0 <= i < |out| && e.rank(out[i]) == e.rank(x) {
      SomethingMerged(e, taken, x);
      CoalesceMerges(e, taken, e.rank(x));
      if forall i :: 0 <= i < |out| ==> e.rank(out[i]) != e.rank(x) {
        NoneOfRank(e, out, e.rank(x));
      }
    }
  }

  // ---- What merging comes to ----

  // The record spans all records of the flow.
  ghost predicate Spans(r: FlowRec, taken: seq<FlowRec>, v: nat) {
    && (forall x <- taken :: FlowKeyRank(x.key) == v ==>
          TsRank(r.key.firstTs) <= TsRank(x.key.firstTs) && TsRank(x.key.lastTs) <= TsRank(r.key.lastTs))
    && (exists x <- taken :: FlowKeyRank(x.key) == v && TsRank(x.key.firstTs) == TsRank(r.key.firstTs))
    && (exists x <- taken :: FlowKeyRank(x.key) == v && TsRank(x.key.lastTs) == TsRank(r.key.lastTs))
  }

  lemma {:induction false} MergedSpans(taken: seq<FlowRec>, v: nat, r: FlowRec)
    requires Merged(FlowRecs(), taken, v) == Got(r)
    ensures Spans(r, taken, v)
  {
    var front, x := taken[..|taken| - 1], taken[|taken| - 1];
    assert taken == front + [x];
    var before := Merged(FlowRecs(), front, v);
    if before.Got? {
      MergedSpans(front, v, before.item);
      MergeFlowKeysMeaning(before.item.key, x.key);
    } else {
      NothingMerged(front, v);
    }
  }

  lemma {:induction false} NothingMerged(taken: seq<FlowRec>, v: nat)
    requires Merged(FlowRecs(), taken, v) == Empty
    ensures forall x <- taken :: FlowKeyRank(x.key) != v
  {
    if taken != [] {
      NothingMerged(taken[..|taken| - 1], v);
    }
  }

  // The packets of all records of a flow.
  ghost function PacketTotal(taken: seq<FlowRec>, v: nat): nat {
    if taken == [] then 0
    else
      var x := taken[|taken| - 1].key;
      PacketTotal(taken[..|taken| - 1], v) + if FlowKeyRank(x) == v then Keys.Total(x.packets, x.packetsPow) else 0
  }

  // As long as they fit in 32 bits the merged record has their exact number.
  lemma {:induction false} MergedCounts(taken: seq<FlowRec>, v: nat)
    requires PacketTotal(taken, v) <= UINT32_MAX
    ensures var r := Merged(FlowRecs(), taken, v);
      if r.Empty? then PacketTotal(taken, v) == 0
        else Keys.Total(r.item.key.packets, r.item.key.packetsPow) == PacketTotal(taken, v)
  {
    if taken != [] {
      var front, x := taken[..|taken| - 1], taken[|taken| - 1].key;
      MergedCounts(front, v);
      var before := Merged(FlowRecs(), front, v);
      if before.Got? && FlowKeyRank(x) == v {
        SmallScale(Keys.Total(before.item.key.packets, before.item.key.packetsPow) + Keys.Total(x.packets,
            x.packetsPow));
      }
    }
  }

  lemma SmallScale(total: nat)
    requires total <= UINT32_MAX
    ensures Keys.Total(Scale(total).mantissa, Scale(total).pow) == total
  {
    assert Pow2(0) == 1;
  }

  // ---- merge_flows ----

  // Only sets have been added so far, and the list has the elements of all of them.
  ghost predicate Gathered<T(!new)>(sl: SkipList<T>, sets: seq<seq<T>>)
    reads sl, sl.listed, sl.arrays
  {
    && WellFormed(sl.e) && sl.e.size <= PAGE_SIZE && sl.Sized(0) && sl.LinkedTo(MAX_SKIP_LIST_LEVELS) &&
       sl.size <= |sets|
    && UnionRuns.Total(ContentsOf(sl.listed)) == UnionRuns.Total(sets)
  }

  // As Gathered; the list, its sets and their links are among `objects`.
  ghost predicate GatheredIn<T(!new)>(sl: SkipList<T>, sets: seq<seq<T>>, objects: set<object>)
    reads sl, sl.listed, sl.arrays
  {
    forall n :: Folded(n) ==>
      Gathered(sl, sets) && sl in objects && AllIn<object>(sl.listed, objects) && AllIn<object>(sl.arrays, objects)
  }

  // A file with these elements in order.
  ghost predicate FileOf<T(!new)>(e: Elements<T>, file: seq<Byte>, content: seq<T>) {
    file == Bytes(e, content) && Ascending(e, content)
  }

  lemma {:induction false} TotalMore<T(!new)>(sets: seq<seq<T>>, c: seq<T>)
    ensures UnionRuns.Total(sets + [c]) == UnionRuns.Total(sets) + multiset(c)
  {
    assert sets + [c] == Inserted(sets, |sets|, c);
    TotalInserted(sets, |sets|, c);
  }

  lemma AddedTotal<T(!new)>(all: seq<seq<T>>, more: seq<seq<T>>, at: nat, sets: seq<seq<T>>, c: seq<T>)
    requires UnionRuns.Total(all) == UnionRuns.Total(sets)
    requires if c == [] then more == all else at <= |all| && more == Inserted(all, at, c)
    ensures UnionRuns.Total(more) == UnionRuns.Total(sets + [c])
  {
    TotalMore(sets, c);
    if c != [] {
      TotalInserted(all, at, c);
    }
  }

  // os_slist_add, as far as the contents and the objects go.
  method AddTo<T(!new)>(sl: SkipList<T>, oset: OrderedSet<T>, ghost all: seq<seq<T>>, ghost objects: set<object>)
    returns (ghost at: nat)
    requires sl.Sized(0) && sl.LinkedTo(MAX_SKIP_LIST_LEVELS) && sl.Loose(oset) && sl.size + 1 < 0x1_0000
    requires all == ContentsOf(sl.listed) && AllIn<object>(sl.listed, objects) &&
             AllIn<object>(sl.arrays, objects) && sl in objects
    modifies objects, oset, oset.skip
    ensures sl.Sized(0) && sl.LinkedTo(MAX_SKIP_LIST_LEVELS) && sl.size <= old(sl.size) + 1
    ensures AllIn<object>(sl.listed, objects + {oset, oset.skip}) &&
            AllIn<object>(sl.arrays, objects + {oset, oset.skip})
    ensures var c := old(oset.content);
      if c == [] then ContentsOf(sl.listed) == all else at <= |all| && ContentsOf(sl.listed) == Inserted(all, at, c)
  {
    ghost var listed, arrays, c := sl.listed, sl.arrays, oset.content;
    at := sl.Add(oset);
    assert ContentsOf(listed) == all;
    if c != [] {
      ContentsInserted(listed, at, oset);
      InsertedAllIn<object>(listed, at, oset, objects + {oset, oset.skip});
      InsertedAllIn<object>(arrays, at + 1, oset.skip, objects + {oset, oset.skip});
    }
  }

  method Gather<T(!new)>(sl: SkipList<T>, oset: OrderedSet<T>, ghost sets: seq<seq<T>>, ghost objects: set<object>)
    requires GatheredIn(sl, sets, objects) && sl.Loose(oset) && |sets| + 1 < 0x1_0000
    modifies objects, oset, oset.skip
    ensures GatheredIn(sl, sets + [old(oset.content)], objects + {oset, oset.skip})
  {
    assert Folded(0);
    ghost var c, all := oset.content, ContentsOf(sl.listed);
    ghost var at := AddTo(sl, oset, all, objects);
    AddedTotal(all, ContentsOf(sl.listed), at, sets, c);
    assert Gathered(sl, sets + [c]);
  }

  method OpenAndGather<T(!new)>(sl: SkipList<T>, file: seq<Byte>, ghost content: seq<T>, ghost sets: seq<seq<T>>,
                                ghost objects: set<object>)
    returns (ghost objects1: set<object>)
    requires GatheredIn(sl, sets, objects) && FileOf(sl.e, file, content) && |sets| + 1 < 0x1_0000
    modifies objects
    ensures GatheredIn(sl, sets + [content], objects1) && fresh(objects1 - objects) && objects <= objects1
  {
    assert WellFormed(sl.e) && sl.e.size <= PAGE_SIZE by {
      assert Folded(0);
    }
    var oset := new OrderedSet<T>.Readable(sl.e, file, content);
    assert sl.Loose(oset);
    Gather(sl, oset, sets, objects);
    objects1 := objects + {oset, oset.skip};
  }

  method EmptyList<T(!new)>(e: Elements<T>) returns (sl: SkipList<T>, ghost objects: set<object>)
    requires WellFormed(e) && e.size <= PAGE_SIZE
    ensures GatheredIn(sl, [], objects) && fresh(objects) && sl.e == e
  {
    sl := new SkipList<T>(e);
    objects := {sl, sl.skip};
    assert Gathered(sl, []);
  }

  // Opens all the files.
  method GatherAll<T(!new)>(e: Elements<T>, files: seq<seq<Byte>>, ghost contents: seq<seq<T>>)
    returns (sl: SkipList<T>, ghost objects: set<object>)
    requires WellFormed(e) && e.size <= PAGE_SIZE && |files| == |contents| < 0x1_0000
    requires forall i :: 0 <= i < |files| ==> FileOf(e, files[i], contents[i])
    ensures GatheredIn(sl, contents, objects) && fresh(objects) && sl.e == e
  {
    sl, objects := EmptyList(e);
    assert contents[..0] == [];
    for i := 0 to |files|
      invariant GatheredIn(sl, contents[..i], objects) && fresh(objects) && sl.e == e
    {
      assert contents[..i] + [contents[i]] == contents[..i + 1];
      objects := OpenAndGather(sl, files[i], contents[i], contents[..i], objects);
    }
    assert contents[..|files|] == contents;
  }

  // The union of the sets gathered, written to a file.
  method UnionFile<T(!new)>(sl: SkipList<T>, ghost sets: seq<seq<T>>, ghost objects: set<object>)
    returns (out: seq<Byte>, ghost run: Run<T>)
    requires GatheredIn(sl, sets, objects)
    modifies objects
    ensures out == Bytes(sl.e, Coalesce(sl.e, Taken(run)))
    ensures RightRun(sl.e, run) && State(run) == [] && UnionRuns.Total(FirstState(run)) == UnionRuns.Total(sets)
  {
    assert Folded(0);
    var outSet := new OrderedSet<T>.Writable(sl.e, WRITE);
    run := Union(sl, outSet);
    out := Cleanup(outSet);
  }

  // merge_flows: the result file has one record for each flow in any of the files, all records
  // of the flow merged.
  method MergeFlowFiles(files: seq<seq<Byte>>, ghost contents: seq<seq<FlowRec>>)
    returns (out: seq<Byte>, ghost r: seq<FlowRec>, ghost taken: seq<FlowRec>)
    requires |files| == |contents| < 0x1_0000 &&
             forall i :: 0 <= i < |files| ==> FileOf(FlowRecs(), files[i], contents[i])
    ensures out == Bytes(FlowRecs(), r) && FoldsOf(r, taken) && multiset(taken) == UnionRuns.Total(contents)
  {
    FlowRecsWellFormed();
    var sl;
    ghost var objects, run;
    sl, objects := GatherAll(FlowRecs(), files, contents);
    out, run := UnionFile(sl, contents, objects);
    FlowUnionIs(run);
    r, taken := Coalesce(FlowRecs(), Taken(run)), Taken(run);
  }
}

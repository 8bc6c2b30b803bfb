// Unions of sets of offsets, as searches use them (indexer/search/ordered_set.c).

module OffsetUnions {
  import opened Network
  import opened Items
  import opened OrderedSets
  import opened SkipLinks
  import opened SkipStates
  import opened SkipLists
  import opened UnionRuns
  import opened Unions
  import opened Leapfrog

  // Elements that are offsets: their order is that of numbers, and equal ones are one.
  ghost predicate IsOffsets(e: Elements<U64>) {
    WellFormed(e) && e.size <= PAGE_SIZE && (forall x :: e.rank(x) == x) && forall x :: e.merge(x, x) == x
  }

  lemma OffsetsAreOffsets()
    ensures IsOffsets(Offsets())
  {
    OffsetsWellFormed();
  }

  ghost predicate InAny(sets: seq<seq<U64>>, x: int) {
    exists i :: 0 <= i < |sets| && x in sets[i]
  }

  lemma {:induction false} IncreasingIsAscending(e: Elements<U64>, s: seq<U64>)
    requires IsOffsets(e) && Increasing(s)
    ensures Ascending(e, s)
  {
    if |s| > 1 {
      IncreasingIsAscending(e, s[1..]);
    }
  }

  lemma {:induction false} MergedOffset(e: Elements<U64>, s: seq<U64>, v: U64)
    requires IsOffsets(e)
    ensures Merged(e, s, v) == if v in s then Got(v) else Empty
  {
    if s != [] {
      MergedOffset(e, s[..|s| - 1], v);
      assert s == s[..|s| - 1] + [s[|s| - 1]];
    }
  }

  lemma InAnyStep(sets: seq<seq<U64>>, x: int)
    requires sets != []
    ensures InAny(sets, x) <==> x in sets[0] || InAny(sets[1..], x)
  {
    if InAny(sets[1..], x) {
      var i :| 0 <= i < |sets[1..]| && x in sets[1..][i];
      assert x in sets[i + 1];
    }
    assert forall i :: 0 < i < |sets| ==> sets[i] == sets[1..][i - 1];
  }

  lemma {:induction false} TotalHolds(sets: seq<seq<U64>>, x: U64)
    ensures x in Total(sets) <==> InAny(sets, x)
  {
    if sets != [] {
      TotalHolds(sets[1..], x);
      InAnyStep(sets, x);
    }
  }

  lemma {:induction false} InAnyInserted(sets: seq<seq<U64>>, at: nat, c: seq<U64>, x: int)
    requires at <= |sets|
    ensures InAny(Inserted(sets, at, c), x) <==> InAny(sets, x) || x in c
  {
    var more := Inserted(sets, at, c);
    assert forall i :: 0 <= i < |sets| ==> sets[i] == more[if i < at then i else i + 1];
    assert more[at] == c;
  }

  // What a union of offsets puts out: each offset of any of the sets once, in order.
  lemma OffsetUnionIs(e: Elements<U64>, run: Run<U64>)
    requires IsOffsets(e) && RightRun(e, run) && State(run) == []
    ensures var r := Coalesce(e, Taken(run));
      Increasing(r) && forall x: U64 :: x in r <==> InAny(FirstState(run), x)
  {
    var taken := Taken(run);
    var r := Coalesce(e, taken);
    PoppedInOrder(e, run);
    RunConserves(e, run);
    CoalesceIsStrict(e, taken);
    assert forall i, j :: 0 <= i < j < |r| ==> e.rank(r[i]) < e.rank(r[j]);
    forall x: U64 ensures x in r <==> InAny(FirstState(run), x) {
      OffsetInUnion(e, run, x);
    }
  }

  lemma OffsetInUnion(e: Elements<U64>, run: Run<U64>, x: U64)
    requires IsOffsets(e) && RightRun(e, run) && multiset(Taken(run)) == Total(FirstState(run))
    requires Ascending(e, Taken(run)) && StrictlyAscending(e, Coalesce(e, Taken(run)))
    ensures x in Coalesce(e, Taken(run)) <==> InAny(FirstState(run), x)
  {
    var taken := Taken(run);
    CoalesceMerges(e, taken, x);
    MergedOffset(e, Coalesce(e, taken), x);
    MergedOffset(e, taken, x);
    assert x in taken <==> x in multiset(taken);
    TotalHolds(FirstState(run), x);
  }

  // ---- Filling a skip list ----

  // Only sets have been added so far, and together they hold the offsets of `sets`.
  ghost predicate Filled(sl: SkipList<U64>, sets: seq<seq<U64>>)
    reads sl, sl.listed, sl.arrays
  {
    && IsOffsets(sl.e) && sl.Sized(0) && sl.LinkedTo(MAX_SKIP_LIST_LEVELS) && sl.size <= |sets|
    && SameOffsets(ContentsOf(sl.listed), sets)
  }

  // The same offsets, and no sets but those (an empty one may be missing).
  ghost predicate SameOffsets(all: seq<seq<U64>>, sets: seq<seq<U64>>) {
    (forall c <- all :: c in sets) && forall x: int :: InAny(all, x) <==> InAny(sets, x)
  }

  // As Filled; the list, its sets and their links are among `objects`.
  ghost predicate Loaded(sl: SkipList<U64>, sets: seq<seq<U64>>, objects: set<object>)
    reads sl, sl.listed, sl.arrays
  {
    exists s :: Filled(sl, s) && s == sets && sl in objects && AllIn<object>(sl.listed, objects) &&
                AllIn<object>(sl.arrays, objects)
  }

  method AddSet(sl: SkipList<U64>, oset: OrderedSet<U64>, ghost sets: seq<seq<U64>>, ghost objects: set<object>)
    requires Loaded(sl, sets, objects) && sl.Loose(oset) && |sets| + 1 < 0x1_0000
    modifies objects, oset, oset.skip
    ensures Loaded(sl, sets + [old(oset.content)], objects + {oset, oset.skip})
    ensures sl.size == old(sl.size) + if old(oset.content) == [] then 0 else 1
  {
    ghost var listed, arrays, c := sl.listed, sl.arrays, oset.content;
    ghost var all := ContentsOf(listed);
    ghost var at := sl.Add(oset);
    assert ContentsOf(listed) == all;
    if c != [] {
      ContentsInserted(listed, at, oset);
      InsertedAllIn<object>(listed, at, oset, objects + {oset, oset.skip});
      InsertedAllIn<object>(arrays, at + 1, oset.skip, objects + {oset, oset.skip});
    }
    AddedHolds(all, ContentsOf(sl.listed), at, sets, c);
    assert Filled(sl, sets + [c]);
  }

  lemma AddedHolds(all: seq<seq<U64>>, more: seq<seq<U64>>, at: nat, sets: seq<seq<U64>>, c: seq<U64>)
    requires SameOffsets(all, sets)
    requires if c == [] then more == all else at <= |all| && more == Inserted(all, at, c)
    ensures SameOffsets(more, sets + [c])
  {
    assert sets + [c] == Inserted(sets, |sets|, c);
    forall x: int ensures InAny(more, x) <==> InAny(sets + [c], x) {
      InAnyInserted(sets, |sets|, c, x);
      if c != [] {
        InAnyInserted(all, at, c, x);
      }
    }
  }

  // The union of the sets added.
  method UnionOffsets(sl: SkipList<U64>, output: OrderedSet<U64>, ghost sets: seq<seq<U64>>)
    requires Filled(sl, sets)
    requires output.Valid() && output.mode != READ && output.e == sl.e && output.content == [] && output !in sl.listed
    modifies sl, sl.listed, sl.arrays, output
    ensures output.Valid() && output.mode == old(output.mode)
    ensures Increasing(output.content) && forall x: U64 :: x in output.content <==> InAny(sets, x)
  {
    ghost var all := ContentsOf(sl.listed);
    assert SameOffsets(all, sets);
    ghost var run := Union(sl, output);
    OffsetUnionIs(sl.e, run);
  }

}

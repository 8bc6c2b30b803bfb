// Answering one sub-search from a sub-index file (indexer/search/subindex.c).

module SubIndexSearch {
  import opened Network
  import opened Items
  import opened OrderedSets
  import opened SkipLinks
  import opened SkipStates
  import opened SkipLists
  import opened Unions
  import opened Leapfrog
  import opened OffsetUnions
  import opened SearchLib
  import SI = SubIndex

  const MAX_OSETS: nat := 1024

  ghost predicate SameKey(r: seq<SI.Entry>, i: nat, n: nat)
    requires i < n <= |r|
  {
    forall j :: i <= j < n ==> r[j].key == r[i].key
  }

  // The offsets of records i to n - 1.
  ghost predicate OffsetsOf(r: seq<SI.Entry>, i: nat, n: nat, c: seq<U64>)
    requires i <= n <= |r|
  {
    |c| == n - i && forall j :: 0 <= j < |c| ==> c[j] == r[i + j].offset
  }

  // The records of one key: their offsets become one ordered set. At the end of the file the
  // read of the next key fails as it is written; otherwise it ends the scan.
  method CollectKey(e: Elements<U64>, r: seq<SI.Entry>, i: nat, written: bool)
    returns (ok: bool, oset: OrderedSet<U64>, n: nat)
    requires IsOffsets(e) && SI.RecordsInOrder(r) && i < |r|
    ensures ok <==> !written || n < |r|
    ensures i < n <= |r| && SameKey(r, i, n) && (n < |r| ==> r[n].key > r[i].key)
    ensures fresh(oset) && fresh(oset.skip) && oset.skip.Length == MAX_SKIP_LIST_LEVELS
    ensures Usable(e, oset) && oset.content != [] && OffsetsOf(r, i, n, oset.content)
  {
    oset := new OrderedSet<U64>.Writable(e, TMP_WRITE);
    n := i;
    var more := true;
    while more
      invariant i <= n <= |r| && (n == i ==> more) && (n > i ==> SameKey(r, i, n))
      invariant if more then n < |r| && r[n].key == r[i].key else n < |r| ==> r[n].key > r[i].key
      invariant oset.Valid() && oset.mode == TMP_WRITE && oset.e == e && OffsetsOf(r, i, n, oset.content)
      decreases more, |r| - n
    {
      oset.Push(r[n].offset);
      n := n + 1;
      more := n < |r| && r[n].key == r[i].key;
    }
    ok := !written || n < |r|;
    oset.ReadMode();
    OffsetsIncrease(r, i, n, oset.content);
    IncreasingIsAscending(e, oset.content);
  }

  lemma OffsetsIncrease(r: seq<SI.Entry>, i: nat, n: nat, c: seq<U64>)
    requires SI.RecordsInOrder(r) && i < n <= |r| && SameKey(r, i, n) && OffsetsOf(r, i, n, c)
    ensures Increasing(c)
  {
    forall j, k | 0 <= j < k < |c| ensures c[j] < c[k] {
      assert r[i + j].key == r[i].key == r[i + k].key;
    }
  }

  // The sets hold the offsets of records m to n - 1.
  ghost predicate Collected(r: seq<SI.Entry>, m: nat, n: nat, sets: seq<seq<U64>>)
  {
    && m <= n <= |r|
    && forall x: U64 :: InAny(sets, x) <==> exists j :: m <= j < n && r[j].offset == x
  }

  lemma CollectedMore(r: seq<SI.Entry>, m: nat, i: nat, n: nat, sets: seq<seq<U64>>, c: seq<U64>)
    requires Collected(r, m, i, sets) && i < n <= |r| && OffsetsOf(r, i, n, c)
    ensures Collected(r, m, n, sets + [c])
  {
    forall x: U64 ensures InAny(sets + [c], x) <==> exists j :: m <= j < n && r[j].offset == x {
      InOneMore(sets, c, x);
      if x in c {
        var j :| 0 <= j < |c| && c[j] == x;
        assert r[i + j].offset == x;
      }
      if j :| i <= j < n && r[j].offset == x {
        assert c[j - i] == x;
      }
    }
  }

  // Where the scan has come to: the skip list holds the offsets of records m to i - 1, in no
  // more sets than are kept apart.
  ghost predicate Scanning(sl: SkipList<U64>, r: seq<SI.Entry>, m: nat, i: nat, sets: seq<seq<U64>>,
                           objects: set<object>)
    reads sl, sl.listed, sl.arrays
  {
    exists s :: Loaded(sl, s, objects) && s == sets && |sets| <= sl.size + 1 && Collected(r, m, i, sets)
  }

  // Merges all sets into a temporary one.
  method MergeSets(sl: SkipList<U64>, ghost sets: seq<seq<U64>>, ghost objects: set<object>)
    returns (merged: OrderedSet<U64>)
    requires Loaded(sl, sets, objects)
    modifies objects
    ensures fresh(merged) && fresh(merged.skip) && merged.skip.Length == MAX_SKIP_LIST_LEVELS && Usable(sl.e, merged)
    ensures IsOffsets(sl.e) && forall x: U64 :: x in merged.content <==> InAny(sets, x)
  {
    merged := new OrderedSet<U64>.Writable(sl.e, TMP_WRITE);
    UnionOffsets(sl, merged, sets);
    merged.ReadMode();
    IncreasingIsAscending(sl.e, merged.content);
  }

  // A new list with one set in it.
  method StartWith(e: Elements<U64>, oset: OrderedSet<U64>) returns (sl: SkipList<U64>, ghost objects: set<object>)
    requires IsOffsets(e) && Usable(e, oset) && oset.skip.Length == MAX_SKIP_LIST_LEVELS
    modifies oset, oset.skip
    ensures Loaded(sl, [] + [old(oset.content)], objects) && sl.e == e && sl.size <= 1
    ensures fresh(objects - {oset, oset.skip})
  {
    sl, objects := NewList(e);
    AddSet(sl, oset, [], objects);
    objects := objects + {oset, oset.skip};
  }

  // Too many sets are merged into one, with which a new list starts.
  method Merge(sl: SkipList<U64>, r: seq<SI.Entry>, m: nat, i: nat, ghost sets: seq<seq<U64>>,
               ghost objects: set<object>)
    returns (sl1: SkipList<U64>, ghost sets1: seq<seq<U64>>, ghost objects1: set<object>)
    requires Scanning(sl, r, m, i, sets, objects)
    modifies objects
    ensures Scanning(sl1, r, m, i, sets1, objects1) && sl1.e == sl.e && sl1.size <= 1 && fresh(objects1)
  {
    var merged := MergeSets(sl, sets, objects);
    sets1 := [] + [merged.content];
    MergedSame(r, m, i, sets, merged.content);
    sl1, objects1 := StartWith(sl.e, merged);
  }

  lemma MergedSame(r: seq<SI.Entry>, m: nat, i: nat, sets: seq<seq<U64>>, c: seq<U64>)
    requires Collected(r, m, i, sets) && forall x: U64 :: x in c <==> InAny(sets, x)
    ensures Collected(r, m, i, [] + [c])
  {
    forall x: U64 ensures InAny([] + [c], x) <==> InAny(sets, x) {
      InOneMore([], c, x);
    }
  }

  // Adds the set of one more key.
  method AddKey(sl: SkipList<U64>, oset: OrderedSet<U64>, r: seq<SI.Entry>, m: nat, i: nat, n: nat,
                ghost sets: seq<seq<U64>>, ghost objects: set<object>)
    returns (ghost sets1: seq<seq<U64>>, ghost objects1: set<object>)
    requires Scanning(sl, r, m, i, sets, objects) && sl.size < MAX_OSETS && sl.Loose(oset)
    requires i < n <= |r| && oset.content != [] && OffsetsOf(r, i, n, oset.content)
    modifies objects, oset, oset.skip
    ensures Scanning(sl, r, m, n, sets1, objects1) && objects1 == objects + {oset, oset.skip}
  {
    ghost var c := oset.content;
    CollectedMore(r, m, i, n, sets, c);
    AddSet(sl, oset, sets, objects);
    sets1, objects1 := sets + [c], objects + {oset, oset.skip};
  }

  // One round of output_matches: the set of the next key, and a merge if there are too many.
  method ScanKey(sl: SkipList<U64>, r: seq<SI.Entry>, m: nat, i: nat, written: bool, ghost sets: seq<seq<U64>>,
                 ghost objects: set<object>)
    returns (ok: bool, sl1: SkipList<U64>, n: nat, ghost sets1: seq<seq<U64>>, ghost objects1: set<object>)
    requires Scanning(sl, r, m, i, sets, objects) && sl.size < MAX_OSETS && IsOffsets(sl.e) &&
             SI.RecordsInOrder(r) && i < |r|
    modifies objects
    ensures ok <==> !written || n < |r|
    ensures i < n <= |r| && SameKey(r, i, n) && (n < |r| ==> r[n].key > r[i].key)
    ensures Scanning(sl1, r, m, n, sets1, objects1) && sl1.e == sl.e && sl1.size < MAX_OSETS
    ensures fresh(objects1 - objects)
  {
    var oset;
    ok, oset, n := CollectKey(sl.e, r, i, written);
    assert sl.Loose(oset);
    sets1, objects1 := AddKey(sl, oset, r, m, i, n, sets, objects);
    sl1 := sl;
    if sl1.size >= MAX_OSETS {
      sl1, sets1, objects1 := Merge(sl1, r, m, n, sets1, objects1);
    }
  }

  // The records from m on whose key is not above `end`.
  ghost predicate UpTo(r: seq<SI.Entry>, m: nat, end: nat, i: nat) {
    m <= i <= |r| && (forall j :: m <= j < i ==> r[j].key <= end) && forall j :: i <= j < |r| ==> r[j].key > end
  }

  lemma KeysAscend(r: seq<SI.Entry>, n: nat, end: nat)
    requires SI.RecordsInOrder(r) && n <= |r| && (n < |r| ==> r[n].key > end)
    ensures forall j :: n <= j < |r| ==> r[j].key > end
  {
  }

  lemma GroupUpTo(r: seq<SI.Entry>, m: nat, i: nat, n: nat, end: nat)
    requires m <= i < n <= |r| && SameKey(r, i, n) && r[i].key <= end && forall j :: m <= j < i ==> r[j].key <= end
    ensures forall j :: m <= j < n ==> r[j].key <= end
  {
  }

  // As written the scan from record m on ends before the file does.
  ghost predicate ScanEnds(r: seq<SI.Entry>, m: nat, end: nat)
    requires m < |r|
  {
    r[m].key > end || r[|r| - 1].key > end
  }

  // The loop of output_matches.
  method ScanAll(e: Elements<U64>, r: seq<SI.Entry>, m: nat, end: nat, written: bool)
    returns (ok: bool, sl: SkipList<U64>, n: nat, ghost sets: seq<seq<U64>>, ghost objects: set<object>)
    requires IsOffsets(e) && SI.RecordsInOrder(r) && m < |r|
    ensures ok <==> !written || ScanEnds(r, m, end)
    ensures sl.e == e && fresh(objects)
    ensures ok ==> Scanning(sl, r, m, n, sets, objects) && UpTo(r, m, end, n)
  {
    sl, objects := NewList(e);
    sets := [];
    n := m;
    while n < |r| && r[n].key <= end
      invariant m <= n <= |r| && (written ==> n < |r|) && forall j :: m <= j < n ==> r[j].key <= end
      invariant Scanning(sl, r, m, n, sets, objects) && sl.e == e && sl.size < MAX_OSETS && fresh(objects)
      decreases |r| - n
    {
      ghost var i := n;
      ok, sl, n, sets, objects := ScanKey(sl, r, m, n, written, sets, objects);
      GroupUpTo(r, m, i, n, end);
      if !ok {
        LastIsMet(r, m, n, end);
        return;
      }
    }
    KeysAscend(r, n, end);
    ok := true;
  }

  lemma LastIsMet(r: seq<SI.Entry>, m: nat, n: nat, end: nat)
    requires m < n == |r| && forall j :: m <= j < n ==> r[j].key <= end
    ensures !ScanEnds(r, m, end)
  {
  }

  // output_matches: the offsets of all records from m on with keys up to `end`, in order. As
  // written it fails exactly when there are such records and the last one is among them.
  method OutputMatches(e: Elements<U64>, r: seq<SI.Entry>, m: nat, end: nat, written: bool, output: OrderedSet<U64>)
    returns (ok: bool, ghost n: nat)
    requires IsOffsets(e) && SI.RecordsInOrder(r) && m < |r|
    requires output.Valid() && output.mode == WRITE && output.e == e && output.content == []
    modifies output
    ensures output.Valid() && output.mode == WRITE && output.e == e
    ensures ok <==> !written || ScanEnds(r, m, end)
    ensures ok ==> UpTo(r, m, end, n) && Increasing(output.content)
    ensures ok ==> forall x: U64 :: x in output.content <==> exists j :: m <= j < n && r[j].offset == x
  {
    var sl, i;
    ghost var objects, sets;
    ok, sl, i, sets, objects := ScanAll(e, r, m, end, written);
    n := i;
    if ok {
      UnionOffsets(sl, output, sets);
    }
  }

  // Keys 1, 3 and 5 are stored: the scan from 3 to 5 fails at the end of the file.
  lemma ScanMeetsEnd()
    ensures var r := [SI.Entry(1, 40), SI.Entry(3, 41), SI.Entry(5, 42)];
      SI.RecordsInOrder(r) && SI.IsFirstAtLeast(r, 3, 2) && !ScanEnds(r, 1, 5) && !EndsInside(r, 3, 5)
  {
    var r := [SI.Entry(1, 40), SI.Entry(3, 41), SI.Entry(5, 42)];
    assert r[1].key == 3;
  }

  // No record is in the range, or the last record is not.
  ghost predicate EndsInside(r: seq<SI.Entry>, start: nat, end: nat) {
    || (forall j :: 0 <= j < |r| ==> !(start <= r[j].key <= end))
    || r[|r| - 1].key > end
  }

  // For the records from the start of a range on, the scan ends in time exactly if the range is
  // empty or there are larger keys.
  lemma ScanEndsIff(r: seq<SI.Entry>, start: nat, end: nat, m: int)
    requires SI.RecordsInOrder(r) && SI.IsFirstAtLeast(r, start, m)
    ensures EndsInside(r, start, end) <==> m == -1 || ScanEnds(r, m - 1, end)
  {
    if m != -1 && r[m - 1].key > end {
      assert forall j :: m - 1 < j < |r| ==> r[m - 1].key <= r[j].key;
    }
  }

  // ---- A whole sub-search ----

  // What a scan of all records would find.
  ghost predicate InRange(r: seq<SI.Entry>, start: nat, end: nat, x: U64) {
    exists j :: 0 <= j < |r| && start <= r[j].key <= end && r[j].offset == x
  }

  lemma RangeIsContiguous(r: seq<SI.Entry>, start: nat, end: nat, m: int, n: nat, x: U64)
    requires SI.IsFirstAtLeast(r, start, m)
    requires m != -1 ==> UpTo(r, m - 1, end, n) && SI.RecordsInOrder(r)
    ensures m == -1 ==> !InRange(r, start, end, x)
    ensures m != -1 ==> (InRange(r, start, end, x) <==> exists j :: m - 1 <= j < n && r[j].offset == x)
  {
    if m != -1 {
      if j :| m - 1 <= j < n && r[j].offset == x {
        assert j > m - 1 ==> r[m - 1].key <= r[j].key;
      }
    }
  }

  // search_subindex: the file of the offsets of all records with keys from start to end, or
  // nothing if the range is the wrong way round, or, as the scan is written, if it takes in the
  // last record.
  method SearchSubindex(e: Elements<U64>, f: SI.IndexFile, start: nat, end: nat, written: bool)
    returns (ok: bool, out: seq<Byte>, ghost r: seq<U64>)
    requires IsOffsets(e) && SI.WellFormedFile(f) && SI.RecordsInOrder(f.records)
    ensures ok <==> start <= end && (!written || EndsInside(f.records, start, end))
    ensures ok ==> Holds(e, out, r) && forall x: U64 :: x in r <==> InRange(f.records, start, end, x)
  {
    if start > end {
      return false, [], [];
    }
    ok := true;
    var output := new OrderedSet<U64>.Writable(e, WRITE);
    var m := SI.FindFirst(f, start);
    ghost var n := 0;
    ScanEndsIff(f.records, start, end, m);
    if m != -1 {
      ok, n := OutputMatches(e, f.records, m - 1, end, written, output);
      if !ok {
        return false, [], [];
      }
    }
    r := output.content;
    forall x: U64 ensures x in r <==> InRange(f.records, start, end, x) {
      RangeIsContiguous(f.records, start, end, m, n, x);
    }
    out := Cleanup(output);
  }
}

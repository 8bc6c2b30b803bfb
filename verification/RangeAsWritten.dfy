// A range search as it is written, the walk to its start and the scan to its end: when it gives the
// flows of the range (indexer/search/subindex.c).

module RangeAsWritten {
  import opened Items
  import opened SubIndex
  import opened SubIndexSearch
  import opened WalkAsWritten
  import opened SubIndexAsWritten

  // Whether search_subindex comes to an end without an error, after a walk that ended like this. A
  // match behind the records leads to a read that fails.
  ghost predicate Finishes(r: seq<Entry>, end: nat, o: Outcome) {
    o.Found? && (o.m == -1 || (1 <= o.m <= |r| && ScanEnds(r, o.m - 1, end)))
  }

  // The offsets it then puts out.
  ghost predicate PutsOut(r: seq<Entry>, end: nat, o: Outcome, x: nat) {
    o.Found? && exists j :: 1 <= o.m <= j + 1 <= |r| && r[j].key <= end && r[j].offset == x
  }

  ghost predicate AnswersRange(r: seq<Entry>, start: nat, end: nat, o: Outcome) {
    Finishes(r, end, o) && forall x: nat :: PutsOut(r, end, o, x) <==> HasInRange(r, start, end, x)
  }

  ghost predicate HasInRange(r: seq<Entry>, start: nat, end: nat, x: nat) {
    exists j :: 0 <= j < |r| && start <= r[j].key <= end && r[j].offset == x
  }

  // No flow has two records in a file.
  ghost predicate OffsetsDiffer(r: seq<Entry>) {
    forall i, j :: 0 <= i < j < |r| ==> r[i].offset != r[j].offset
  }

  // From the right start on, and ending in time, it puts out the range.
  lemma RightStart(r: seq<Entry>, start: nat, end: nat, o: Outcome)
    requires KeysSorted(r) && IsRight(r, start, o) && r != [] && r[|r| - 1].key > end
    ensures AnswersRange(r, start, end, o)
  {
    forall x: nat ensures PutsOut(r, end, o, x) <==> HasInRange(r, start, end, x) {
      if PutsOut(r, end, o, x) {
        var j :| 1 <= o.m <= j + 1 <= |r| && r[j].key <= end && r[j].offset == x;
        assert j > o.m - 1 ==> r[o.m - 1].key <= r[j].key;
      }
    }
  }

  // A record of the range that is passed over, or one before it that is taken in.
  lemma WrongStart(r: seq<Entry>, start: nat, end: nat, lb: nat, o: Outcome)
    requires KeysSorted(r) && OffsetsDiffer(r) && CutAt(r, start, lb) && lb < |r| && r[lb].key <= end
    requires !IsRight(r, start, o)
    ensures !AnswersRange(r, start, end, o)
  {
    if Finishes(r, end, o) {
      assert !(r[lb].key < start);
      assert HasInRange(r, start, end, r[lb].offset);
      FirstIs(r, start, lb);
      assert o.m != lb + 1;
      if 1 <= o.m <= lb {
        assert r[o.m - 1].key < start;
        assert PutsOut(r, end, o, r[o.m - 1].offset);
      }
    }
  }

  // As long as the range has a record, the last one as well, the scan does not finish.
  lemma ScanFails(r: seq<Entry>, start: nat, end: nat, j: nat, o: Outcome)
    requires KeysSorted(r) && j < |r| && start <= r[j].key <= end && r[|r| - 1].key <= end
    ensures !AnswersRange(r, start, end, o)
  {
    assert HasInRange(r, start, end, r[j].offset);
    NoneAbove(r, end);
  }

  lemma NoneAbove(r: seq<Entry>, end: nat)
    requires KeysSorted(r) && r != [] && r[|r| - 1].key <= end
    ensures forall m :: 0 <= m < |r| ==> !ScanEnds(r, m, end)
  {
    assert forall m :: 0 <= m < |r| - 1 ==> r[m].key <= r[|r| - 1].key;
  }

  lemma AnswersIff(r: seq<Entry>, start: nat, end: nat, j: nat, o: Outcome)
    requires KeysSorted(r) && OffsetsDiffer(r) && j < |r| && start <= r[j].key <= end
    ensures AnswersRange(r, start, end, o) <==> IsRight(r, start, o) && r[|r| - 1].key > end
  {
    if r[|r| - 1].key <= end {
      ScanFails(r, start, end, j, o);
    } else if IsRight(r, start, o) {
      RightStart(r, start, end, o);
    } else {
      BelowIsPrefix(r, start);
      var lb := Below(r, start);
      assert lb <= j && (lb < j ==> r[lb].key <= r[j].key);
      WrongStart(r, start, end, lb, o);
    }
  }

  // ---- Ranges with nothing in them ----

  ghost predicate HasSome(r: seq<Entry>, start: nat, end: nat) {
    exists j :: 0 <= j < |r| && start <= r[j].key <= end
  }

  lemma EmptyIff(r: seq<Entry>, start: nat, end: nat, lb: nat, o: Outcome)
    requires KeysSorted(r) && CutAt(r, start, lb) && start <= end && !HasSome(r, start, end)
    ensures AnswersRange(r, start, end, o) <==> Harmless(|r|, lb, o)
  {
    if Harmless(|r|, lb, o) {
      forall j | 0 <= j < |r| && o.m != -1 && o.m <= j + 1 ensures r[j].key > end {
        assert !(r[j].key < start);
      }
    } else if o.Found? && 1 <= o.m <= lb {
      assert r[o.m - 1].key < start;
      assert PutsOut(r, end, o, r[o.m - 1].offset);
    }
  }

  ghost predicate AlwaysAnswers(f: IndexFile, start: nat, end: nat)
    requires WellFormedFile(f)
  {
    forall junk: Junk :: AnswersRange(f.records, start, end, WrittenFind(f, start, junk))
  }

  lemma SomeAnswersIff(f: IndexFile, start: nat, end: nat, j: nat)
    requires WellFormedFile(f) && OffsetsDiffer(f.records) && j < |f.records| && start <= f.records[j].key <= end
    ensures AlwaysAnswers(f, start, end) <==> FileAlwaysRight(f, start) && f.records[|f.records| - 1].key > end
  {
    forall junk: Junk
      ensures AnswersRange(f.records, start, end, WrittenFind(f, start, junk)) <==>
              IsRight(f.records, start, WrittenFind(f, start, junk)) && f.records[|f.records| - 1].key > end
    {
      AnswersIff(f.records, start, end, j, WrittenFind(f, start, junk));
    }
    var anything: Junk := (_: nat) => 0;
    assert AnswersRange(f.records, start, end, WrittenFind(f, start, anything)) ==>
           f.records[|f.records| - 1].key > end;
  }

  lemma SomeRightIff(f: IndexFile, start: nat, end: nat, j: nat)
    requires WellFormedFile(f) && OffsetsDiffer(f.records) && j < |f.records| && start <= f.records[j].key <= end
    ensures Below(f.records, start) <= |f.records|
    ensures AlwaysAnswers(f, start, end) <==>
            RightAsWritten(f.records, start, Below(f.records, start), LevelsLeft(HandsOver(f, start)),
                           SlowFrom(f.header)) &&
            f.records[|f.records| - 1].key > end
  {
    FileSearchRightIff(f, start);
    SomeAnswersIff(f, start, end, j);
  }

  lemma NoneRightIff(f: IndexFile, start: nat, end: nat)
    requires WellFormedFile(f) && start <= end && !HasSome(f.records, start, end)
    ensures AlwaysAnswers(f, start, end) <==>
            NotAstray(|f.records|, Below(f.records, start), LevelsLeft(HandsOver(f, start)), SlowFrom(f.header))
  {
    var r, lb, pv, sl := f.records, Below(f.records, start), LevelsLeft(HandsOver(f, start)), SlowFrom(f.header);
    BelowIsPrefix(r, start);
    HarmlessIff(r, start, pv, sl);
    forall junk: Junk
      ensures AnswersRange(r, start, end, WrittenFind(f, start, junk)) <==>
              Harmless(|r|, lb, WrittenSearch(r, start, pv, sl, junk))
    {
      FindIsSearch(f, start, junk);
      EmptyIff(r, start, end, lb, WrittenFind(f, start, junk));
    }
  }

  // ---- The theorem ----

  // A range search of any file gives the flows of the range, whatever the buffer holds behind the
  // records, exactly if the walk to its start is right and the last record is behind it; or, for a
  // range with nothing in it, if the walk does not go astray.
  lemma RangeSearchRightIff(f: IndexFile, start: nat, end: nat)
    requires WellFormedFile(f) && OffsetsDiffer(f.records) && start <= end
    ensures Below(f.records, start) <= |f.records|
    ensures var r, lb, pv, sl := f.records, Below(f.records, start), LevelsLeft(HandsOver(f, start)),
            SlowFrom(f.header);
      AlwaysAnswers(f, start, end) <==>
      if HasSome(r, start, end) then RightAsWritten(r, start, lb, pv, sl) && r[|r| - 1].key > end
      else NotAstray(|r|, lb, pv, sl)
  {
    BelowIsPrefix(f.records, start);
    if HasSome(f.records, start, end) {
      var j :| 0 <= j < |f.records| && start <= f.records[j].key <= end;
      SomeRightIff(f, start, end, j);
    } else {
      NoneRightIff(f, start, end);
    }
  }
}

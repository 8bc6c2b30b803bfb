// The search through a whole sub-index file as it is written: the way through the preview, and
// when the search finds what it should (indexer/search/subindex.c).

module SubIndexAsWritten {
  import opened Folding
  import opened Bits
  import opened Network
  import opened LeftFilled
  import opened SubIndex
  import opened WalkAsWritten

  // ---- The way below the leaves ----

  // The loop of search_preview as written keeps going left from virtual nodes without looking
  // at the depth. Whether that takes it from here to below the leaves; nIdx is the position in
  // a preview tree of p levels, and `below` the number of levels under position `index`.
  ghost predicate FallsThrough(f: IndexFile, key: nat, p: nat, nIdx: nat, nDepth: nat, index: int, below: nat)
    requires f.header.preview == |f.preview|
    requires nDepth <= p && nIdx <= f.header.preview ==> nIdx >= Pow2(p - nDepth) && below > p - nDepth
    decreases below
  {
    if nDepth > p then false
    else if nIdx > f.header.preview then
      index > f.header.records &&
      (below == 0 || FallsThrough(f, key, p, nIdx, nDepth, index - Pow2(below - 1), below - 1))
    else
      nDepth < p &&
      if key <= f.preview[nIdx - 1] then
        FallsThrough(f, key, p, nIdx - Pow2(p - nDepth - 1), nDepth + 1, index - Pow2(below - 1), below - 1)
      else
        FallsThrough(f, key, p, nIdx + Pow2(p - nDepth - 1), nDepth + 1, index + Pow2(below - 1), below - 1)
  }

  ghost predicate SearchFallsThrough(f: IndexFile, key: nat)
    requires WellFormedFile(f) && f.header.preview > 0
  {
    PreviewWhenSaid(f);
    PreviewFacts(f);
    var p, d := PreviewLevels(f.header.keyType), DepthOf(|f.records|);
    FallsThrough(f, key, p, Pow2(p - 1), 1, Pow2(d - 1), d - 1)
  }

  // A file has a preview exactly when its header says so.
  lemma PreviewWhenSaid(f: IndexFile)
    requires WellFormedFile(f)
    ensures f.header.preview > 0 <==> HasPreview(f.header.keyType, |f.records|)
  {
    var tt, n := f.header.keyType, |f.records|;
    if HasPreview(tt, n) {
      PreviewIsShallow(tt, n);
      EveryNthIs(f.records, PreviewStep(tt, n), 0);
      DepthOfBounds(n);
      Pow2Grows(DepthOf(n) - PreviewLevels(tt), DepthOf(n) - 1);
      AtLeastOne(n, PreviewStep(tt, n));
      RoomOf(tt);
    }
  }

  lemma RoomOf(tt: KeyType)
    requires tt != FLOW
    ensures PreviewLevels(tt) >= 8
    ensures PreviewRoom(tt) == Pow2(PreviewLevels(tt)) - Pow2(PreviewLevels(tt) - 7) > 0
  {
    assert Pow2(1) == 2 && Pow2(3) == 8 && Pow2(4) == 16 && Pow2(8) == 256 && Pow2(10) == 1024 && Pow2(11) == 2048;
  }

  // The preview has all its entries up to the end of the first disk block.
  lemma PreviewFacts(f: IndexFile)
    requires WellFormedFile(f) && HasPreview(f.header.keyType, |f.records|)
    ensures var tt, n := f.header.keyType, |f.records|;
      && f.header.preview > 0 && DepthOf(n) > PreviewLevels(tt) >= 8
      && PreviewRoom(tt) == Pow2(PreviewLevels(tt)) - Pow2(PreviewLevels(tt) - 7)
      && f.header.preview == (if n / PreviewStep(tt, n) <= PreviewRoom(tt) then n / PreviewStep(tt, n)
                              else PreviewRoom(tt))
  {
    PreviewWhenSaid(f);
    RoomOf(f.header.keyType);
    PreviewIsShallow(f.header.keyType, |f.records|);
    EveryNthIs(f.records, PreviewStep(f.header.keyType, |f.records|), 0);
  }

  lemma AtLeastOne(n: nat, step: nat)
    requires 0 < step <= n
    ensures n / step >= 1
  {
    assert n == (n / step) * step + n % step;
  }

  // From an inner position on the search path, past the preview: the walk falls through
  // exactly when no record is left in the subtree.
  ghost predicate InSubtree(lb: nat, index: int, below: nat) {
    Pow2(below) <= index && index - Pow2(below) <= lb < index + Pow2(below)
  }

  lemma {:induction false} VirtualFalls(f: IndexFile, key: nat, p: nat, nIdx: nat, nDepth: nat, index: int,
                                        below: nat, lb: nat)
    requires f.header.preview == |f.preview| && nDepth <= p && nIdx > f.header.preview
    requires InSubtree(lb, index, below) && lb <= f.header.records
    ensures FallsThrough(f, key, p, nIdx, nDepth, index, below) <==> index - Pow2(below) == f.header.records
    decreases below
  {
    assert Pow2(0) == 1;
    if index > f.header.records && below > 0 {
      VirtualFalls(f, key, p, nIdx, nDepth, index - Pow2(below - 1), below - 1, lb);
    }
  }

  // The number of records is a power of two, at least 2^(d - 7), short of 2^d.
  ghost predicate EndsSpine(n: nat, d: nat, high: nat) {
    exists e: nat :: d <= e + 7 && e <= high && n + Pow2(e) == Pow2(d)
  }

  // The walk in the preview, at node nIdx of depth nDepth. If all records are too small, it
  // has come down the right edge of the tree, which leaves the first disk block at depth 8.
  ghost predicate InPreview(n: nat, step: nat, lb: nat, p: nat, d: nat, nIdx: nat, nDepth: nat, index: int) {
    && 1 <= nDepth <= p < d && InSubtree(lb, index, d - nDepth) && lb <= n
    && index == nIdx * step && nIdx >= Pow2(p - nDepth)
    && (lb == n ==> nDepth <= 8 && index + Pow2(d - nDepth) == Pow2(d) && nIdx + Pow2(p - nDepth) == Pow2(p))
  }

  // A file with a preview, the levels of the preview and of the tree, and the distance in
  // records between two entries of the preview.
  ghost predicate Previewed(f: IndexFile, p: nat, d: nat, step: nat) {
    && WellFormedFile(f) && HasPreview(f.header.keyType, |f.records|)
    && p == PreviewLevels(f.header.keyType) && d == DepthOf(|f.records|)
    && step == PreviewStep(f.header.keyType, |f.records|)
  }

  // What is known of the file, carried along unopened by the induction over the preview.
  ghost predicate Known(f: IndexFile, p: nat, d: nat, step: nat) {
    forall n :: Folded(n) ==> Previewed(f, p, d, step)
  }

  // Strictly below the right edge of the tree there is a higher power to go.
  lemma SpineAt(n: nat, d: nat, below: nat, index: int)
    requires index + Pow2(below) == Pow2(d)
    ensures EndsSpine(n, d, below + 1) <==>
            if index <= n then EndsSpine(n, d, below) else d <= below + 8 && index - Pow2(below) == n
  {
    if EndsSpine(n, d, below + 1) && index > n {
      var e: nat :| d <= e + 7 && e <= below + 1 && n + Pow2(e) == Pow2(d);
      if e <= below {
        Pow2Grows(e, below);
      }
    }
  }

  // Node nIdx of the preview is there as long as it fits in the disk block and is real.
  lemma PreviewReaches(f: IndexFile, nIdx: nat)
    requires WellFormedFile(f) && HasPreview(f.header.keyType, |f.records|)
    ensures nIdx <= f.header.preview <==>
            nIdx <= PreviewRoom(f.header.keyType) && nIdx * PreviewStep(f.header.keyType, |f.records|) <= |f.records|
  {
    PreviewFacts(f);
    QuotientReaches(|f.records|, PreviewStep(f.header.keyType, |f.records|), nIdx);
  }

  lemma QuotientReaches(n: nat, step: nat, k: nat)
    requires step > 0
    ensures k <= n / step <==> k * step <= n
  {
    var q := n / step;
    assert n == q * step + n % step;
    if k <= q {
      assert k * step <= q * step;
    } else {
      assert k * step >= (q + 1) * step == q * step + step;
    }
  }

  // Past the preview.
  lemma BeyondPreview(f: IndexFile, key: nat, lb: nat, p: nat, d: nat, step: nat,
                      nIdx: nat, nDepth: nat, index: int)
    requires Known(f, p, d, step) && f.header.preview == |f.preview| &&
             InPreview(|f.records|, step, lb, p, d, nIdx, nDepth, index) && nIdx > f.header.preview
    ensures FallsThrough(f, key, p, nIdx, nDepth, index, d - nDepth) <==>
            lb == |f.records| && EndsSpine(|f.records|, d, d - nDepth + 1)
  {
    assert Folded(0);
    VirtualFalls(f, key, p, nIdx, nDepth, index, d - nDepth, lb);
    PreviewFacts(f);
    PreviewReaches(f, nIdx);
    if lb == |f.records| {
      DownTheEdge(lb, p, d, nIdx, nDepth, index);
    }
  }

  // Down the right edge the walk leaves the preview at a virtual node, or at depth 8 where the
  // disk block ends.
  lemma DownTheEdge(n: nat, p: nat, d: nat, nIdx: nat, nDepth: nat, index: int)
    requires 8 <= p < d && 1 <= nDepth <= 8
    requires index + Pow2(d - nDepth) == Pow2(d) && nIdx + Pow2(p - nDepth) == Pow2(p)
    requires index > n || nIdx > Pow2(p) - Pow2(p - 7)
    ensures EndsSpine(n, d, d - nDepth + 1) <==> index - Pow2(d - nDepth) == n
  {
    SpineAt(n, d, d - nDepth, index);
    if index <= n && nDepth <= 7 {
      Pow2Grows(p - 7, p - nDepth);
      assert false;
    }
  }

  // A node in the preview is a record of the file.
  lemma PreviewNode(f: IndexFile, key: nat, lb: nat, p: nat, d: nat, step: nat, nIdx: nat, nDepth: nat, index: int)
    requires Known(f, p, d, step) && f.header.preview == |f.preview| &&
             InPreview(|f.records|, step, lb, p, d, nIdx, nDepth, index)
    requires nIdx <= f.header.preview && CutAt(f.records, key, lb)
    ensures 1 <= nIdx && (key <= f.preview[nIdx - 1] <==> lb < index) && index <= |f.records|
    ensures 8 <= p && (lb == |f.records| ==> nDepth <= 7)
  {
    assert Folded(0);
    var i := PreviewEntry(f, nIdx);
    PreviewFacts(f);
    PreviewReaches(f, nIdx);
    if nDepth == 8 {
      assert Pow2(p - 7) == 2 * Pow2(p - 8);
    }
  }

  // One level further down in the preview.
  lemma PreviewGoesOn(f: IndexFile, lb: nat, p: nat, d: nat, step: nat, nIdx: nat, nDepth: nat, index: int)
    returns (nIdx1: nat, index1: int)
    requires Known(f, p, d, step) && InPreview(|f.records|, step, lb, p, d, nIdx, nDepth, index)
    requires 8 <= p && (lb == |f.records| ==> nDepth <= 7 && index <= lb) && nDepth < p
    ensures InPreview(|f.records|, step, lb, p, d, nIdx1, nDepth + 1, index1)
    ensures nIdx1 == if lb < index then nIdx - Pow2(p - nDepth - 1) else nIdx + Pow2(p - nDepth - 1)
    ensures index1 == if lb < index then index - Pow2(d - nDepth - 1) else index + Pow2(d - nDepth - 1)
  {
    assert Folded(0);
    PreviewMoves(d, p, step, nIdx, nDepth, index);
    var move := Pow2(p - nDepth - 1);
    if lb < index {
      nIdx1, index1 := nIdx - move, index - Pow2(d - nDepth - 1);
    } else {
      nIdx1, index1 := nIdx + move, index + Pow2(d - nDepth - 1);
    }
  }

  lemma {:induction false} PreviewFallsIff(f: IndexFile, key: nat, lb: nat, p: nat, d: nat, step: nat,
                                           nIdx: nat, nDepth: nat, index: int)
    requires Known(f, p, d, step) && f.header.preview == |f.preview| &&
             InPreview(|f.records|, step, lb, p, d, nIdx, nDepth, index)
    requires CutAt(f.records, key, lb)
    ensures FallsThrough(f, key, p, nIdx, nDepth, index, d - nDepth) <==>
            lb == |f.records| && EndsSpine(|f.records|, d, d - nDepth + 1)
    decreases p - nDepth
  {
    if nIdx > f.header.preview {
      BeyondPreview(f, key, lb, p, d, step, nIdx, nDepth, index);
    } else {
      PreviewNode(f, key, lb, p, d, step, nIdx, nDepth, index);
      if lb == |f.records| {
        SpineAt(lb, d, d - nDepth, index);
      }
      if nDepth == p {
        LastPreviewLevel(f, key, p, nIdx, index, d);
      } else {
        var nIdx1, index1 := PreviewGoesOn(f, lb, p, d, step, nIdx, nDepth, index);
        PreviewFallsIff(f, key, lb, p, d, step, nIdx1, nDepth + 1, index1);
      }
    }
  }

  lemma LastPreviewLevel(f: IndexFile, key: nat, p: nat, nIdx: nat, index: int, d: nat)
    requires f.header.preview == |f.preview| && 1 <= nIdx <= f.header.preview && 8 <= p < d
    ensures !FallsThrough(f, key, p, nIdx, p, index, d - p) && !EndsSpine(|f.records|, d, d - p)
  {
    assert Pow2(0) == 1;
  }

  lemma PreviewStart(f: IndexFile, key: nat, lb: nat)
    requires WellFormedFile(f) && f.header.preview > 0 && lb <= |f.records|
    ensures HasPreview(f.header.keyType, |f.records|)
    ensures var p, d, step := PreviewLevels(f.header.keyType), DepthOf(|f.records|),
            PreviewStep(f.header.keyType, |f.records|);
      && 8 <= p < d && InPreview(|f.records|, step, lb, p, d, Pow2(p - 1), 1, Pow2(d - 1)) && |f.records| > 0
  {
    PreviewWhenSaid(f);
    PreviewFacts(f);
    var p, d := PreviewLevels(f.header.keyType), DepthOf(|f.records|);
    DepthOfBounds(|f.records|);
    Pow2Adds(p - 1, d - p);
  }

  // The search as written leaves the tree exactly when the key is above every record and the
  // record count is 2^d - 2^e, for a tree of depth d, with e within seven of d.
  lemma SearchFallsThroughIff(f: IndexFile, key: nat)
    requires WellFormedFile(f) && f.header.preview > 0
    ensures SearchFallsThrough(f, key) <==>
            && (forall i :: 0 <= i < |f.records| ==> f.records[i].key < key)
            && EndsSpine(|f.records|, DepthOf(|f.records|), DepthOf(|f.records|) - 1)
  {
    BelowIsPrefix(f.records, key);
    FallsFromTheTop(f, key, Below(f.records, key));
    AllBelow(f.records, key, Below(f.records, key));
  }

  lemma AllBelow(r: seq<Entry>, key: nat, lb: nat)
    requires CutAt(r, key, lb)
    ensures lb == |r| <==> forall i :: 0 <= i < |r| ==> r[i].key < key
  {
    if lb < |r| {
      assert r[lb].key >= key;
    }
  }

  lemma FallsFromTheTop(f: IndexFile, key: nat, lb: nat)
    requires WellFormedFile(f) && f.header.preview > 0 && CutAt(f.records, key, lb)
    ensures SearchFallsThrough(f, key) <==>
            lb == |f.records| && EndsSpine(|f.records|, DepthOf(|f.records|), DepthOf(|f.records|) - 1)
  {
    FallsFromTheRoot(f, key, lb);
    DepthOfBounds(|f.records|);
    SpineStops(|f.records|, DepthOf(|f.records|));
  }

  lemma SpineStops(n: nat, d: nat)
    requires n > 0 && d > 0
    ensures EndsSpine(n, d, d) <==> EndsSpine(n, d, d - 1)
  {
  }

  lemma FallsFromTheRoot(f: IndexFile, key: nat, lb: nat)
    requires WellFormedFile(f) && f.header.preview > 0 && CutAt(f.records, key, lb)
    ensures |f.records| > 0
    ensures SearchFallsThrough(f, key) <==>
            lb == |f.records| && EndsSpine(|f.records|, DepthOf(|f.records|), DepthOf(|f.records|))
  {
    PreviewStart(f, key, lb);
    assert Known(f, PreviewLevels(f.header.keyType), DepthOf(|f.records|), PreviewStep(f.header.keyType, |f.records|));
    var n, p, d := |f.records|, PreviewLevels(f.header.keyType), DepthOf(|f.records|);
    PreviewFallsIff(f, key, lb, p, d, PreviewStep(f.header.keyType, n), Pow2(p - 1), 1, Pow2(d - 1));
  }

  // A file with one record for each source port below 2048.
  ghost predicate IsPortsFile(f: IndexFile) {
    && WellFormedFile(f) && f.header.keyType == SRCPORT && |f.records| == 2048
    && forall i :: 0 <= i < 2048 ==> f.records[i].key == i
  }

  lemma PortsFile() returns (f: IndexFile)
    ensures IsPortsFile(f)
  {
    var records := seq(2048, i requires i >= 0 => Entry(i, HEADER_SIZE + i));
    var preview := Truncated(EveryNth(records, PreviewStep(SRCPORT, |records|)), PreviewRoom(SRCPORT));
    f := IndexFile(Header(SRCPORT, false, |preview|, |records|), preview, records);
    assert Pow256(2) == 0x1_0000;
  }

  lemma EndsSpineAt2048()
    ensures EndsSpine(2048, DepthOf(2048), DepthOf(2048) - 1)
  {
    assert Pow2(11) == 2048 && DepthOf(2048) == 12;
    assert 2048 + Pow2(11) == Pow2(12);
  }

  // A search of such a file for the ports from 2048 on leaves the tree.
  lemma SearchAbovePortsFallsThrough() returns (f: IndexFile)
    ensures IsPortsFile(f) && f.header.preview > 0 && SearchFallsThrough(f, 2048)
  {
    f := PortsFile();
    PortsFileHasPreview(f);
    EndsSpineAt2048();
    FallsAboveAll(f, 2048);
  }

  lemma PortsFileHasPreview(f: IndexFile)
    requires IsPortsFile(f)
    ensures f.header.preview > 0
  {
    PreviewWhenSaid(f);
  }

  lemma FallsAboveAll(f: IndexFile, key: nat)
    requires WellFormedFile(f) && f.header.preview > 0 && forall i :: 0 <= i < |f.records| ==> f.records[i].key < key
    requires EndsSpine(|f.records|, DepthOf(|f.records|), DepthOf(|f.records|) - 1)
    ensures SearchFallsThrough(f, key)
  {
    SearchFallsThroughIff(f, key);
  }

  // ---- The whole search ----

  // Where search_preview hands over to search_index, if it does.
  datatype Handover = At(s: PosState) | Gone

  ghost function LeavesPreview(f: IndexFile, key: nat, p: nat, nIdx: nat, nDepth: nat, s: PosState): (h: Handover)
    requires f.header.preview == |f.preview| && Pow2(s.below) <= s.index
    requires nDepth <= p && nIdx <= f.header.preview ==> nIdx >= Pow2(p - nDepth) && s.below > p - nDepth
    ensures h.At? ==> h.s.below <= s.below && Pow2(h.s.below) <= h.s.index
    decreases s.below
  {
    if nDepth > p then At(s)
    else if nIdx > f.header.preview then
      if s.index <= f.header.records then At(s)
      else if s.below == 0 then Gone
      else LeavesPreview(f, key, p, nIdx, nDepth, Left(s))
    else
      var t := Compared(s, key, f.preview[nIdx - 1]);
      if nDepth == p then At(t)
      else LeavesPreview(f, key, p, if key <= f.preview[nIdx - 1] then nIdx - Pow2(p - nDepth - 1)
                                    else nIdx + Pow2(p - nDepth - 1), nDepth + 1, t)
  }

  ghost function HandsOver(f: IndexFile, key: nat): (h: Handover)
    requires WellFormedFile(f)
    ensures h.At? ==> Pow2(h.s.below) <= h.s.index
  {
    var s := Root(|f.records|);
    if f.header.preview > 0 then
      PreviewWhenSaid(f);
      PreviewFacts(f);
      var p := PreviewLevels(f.header.keyType);
      LeavesPreview(f, key, p, Pow2(p - 1), 1, s)
    else At(s)
  }

  lemma StartsInPreview(f: IndexFile, key: nat)
    requires WellFormedFile(f) && f.header.preview > 0
    requires DepthOf(|f.records|) > PreviewLevels(f.header.keyType) >= 1
    ensures var p := PreviewLevels(f.header.keyType);
      HandsOver(f, key) == LeavesPreview(f, key, p, Pow2(p - 1), 1, Root(|f.records|))
  {
  }

  // The number of levels that are left for search_index.
  ghost function LevelsLeft(h: Handover): nat { if h.At? then h.s.below + 1 else 0 }

  // The lowest level at which a subtree is too large to be read at once.
  function FirstSlow(recordSize: nat, b: nat): (c: nat)
    requires recordSize > 0 && forall i :: 0 <= i < b ==> SubtreeBytes(i, recordSize) <= MAX_TREE_BUFFER
    ensures forall i: nat :: SubtreeBytes(i, recordSize) > MAX_TREE_BUFFER <==> c <= i
    decreases MAX_TREE_BUFFER - b
  {
    if SubtreeBytes(b, recordSize) > MAX_TREE_BUFFER then
      LargerAbove(recordSize, b);
      b
    else
      ManyBytes(recordSize, b);
      FirstSlow(recordSize, b + 1)
  }

  lemma {:induction false} MorePower(n: nat)
    ensures Pow2(n) > n
  {
    if n > 0 {
      MorePower(n - 1);
    }
  }

  lemma ManyBytes(recordSize: nat, b: nat)
    requires recordSize > 0
    ensures SubtreeBytes(b, recordSize) > b
  {
    MorePower(b + 1);
    TimesAtLeast(Pow2(b + 1) - 1, 1, recordSize);
  }

  lemma TimesAtLeast(x: nat, y: nat, z: nat)
    requires y <= z
    ensures x * y <= x * z
  {
  }

  lemma LargerAbove(recordSize: nat, b: nat)
    ensures forall i: nat :: b <= i ==> SubtreeBytes(b, recordSize) <= SubtreeBytes(i, recordSize)
  {
    forall i: nat | b <= i ensures SubtreeBytes(b, recordSize) <= SubtreeBytes(i, recordSize) {
      Pow2Grows(b + 1, i + 1);
      TimesAtLeast(recordSize, Pow2(b + 1) - 1, Pow2(i + 1) - 1);
      assert recordSize * (Pow2(b + 1) - 1) == SubtreeBytes(b, recordSize);
      assert recordSize * (Pow2(i + 1) - 1) == SubtreeBytes(i, recordSize);
    }
  }

  ghost function SlowFrom(h: Header): (b: nat)
    requires h.keyType != FLOW
    ensures b > 0 && forall i: nat :: SubtreeBytes(i, RecordSize(h)) > MAX_TREE_BUFFER <==> b <= i
  {
    assert SubtreeBytes(0, RecordSize(h)) <= MAX_TREE_BUFFER by {
      if SubtreeBytes(0, RecordSize(h)) > MAX_TREE_BUFFER {
        LargeTreeIsDeep(0, h);
      }
    }
    FirstSlow(RecordSize(h), 0)
  }

  // search_subindex up to the first match.
  ghost function WrittenFind(f: IndexFile, key: nat, junk: Junk): Outcome
    requires WellFormedFile(f)
  {
    After(f, key, junk, HandsOver(f, key))
  }

  // The end of the walk, from where the preview hands over.
  ghost function After(f: IndexFile, key: nat, junk: Junk, h: Handover): Outcome
    requires f.header.keyType != FLOW && (h.At? ==> Pow2(h.s.below) <= h.s.index)
  {
    if h.Gone? then Lost else WrittenWalk(f.records, key, h.s.below + 1, SlowFrom(f.header), junk, h.s)
  }

  // Past the preview the walk goes left as long as there are no records.
  lemma {:induction false} PastPreviewWalks(f: IndexFile, key: nat, p: nat, nIdx: nat, nDepth: nat, s: PosState,
                                            junk: Junk)
    requires f.header.keyType != FLOW && f.header.records == |f.records| && f.header.preview == |f.preview|
    requires nDepth <= p && nIdx > f.header.preview && Pow2(s.below) <= s.index
    ensures var h := LeavesPreview(f, key, p, nIdx, nDepth, s);
      After(f, key, junk, h) == WrittenWalk(f.records, key, LevelsLeft(h), SlowFrom(f.header), junk, s)
    decreases s.below
  {
    if s.index > f.header.records && s.below > 0 {
      PastPreviewWalks(f, key, p, nIdx, nDepth, Left(s), junk);
    }
  }

  lemma {:induction false} PreviewWalks(f: IndexFile, key: nat, lb: nat, p: nat, d: nat, step: nat,
                                        nIdx: nat, nDepth: nat, s: PosState, junk: Junk)
    requires Known(f, p, d, step) && f.header.preview == |f.preview| && f.header.records == |f.records|
    requires f.header.keyType != FLOW && CutAt(f.records, key, lb)
    requires InPreview(|f.records|, step, lb, p, d, nIdx, nDepth, s.index) && s.below == d - nDepth
    ensures var h := LeavesPreview(f, key, p, nIdx, nDepth, s);
      After(f, key, junk, h) == WrittenWalk(f.records, key, LevelsLeft(h), SlowFrom(f.header), junk, s)
    decreases p - nDepth
  {
    if nIdx > f.header.preview {
      PastPreviewWalks(f, key, p, nIdx, nDepth, s, junk);
    } else {
      var t := ComparedInPreview(f, key, lb, p, d, step, nIdx, nDepth, s);
      var h := LeavesPreview(f, key, p, nIdx, nDepth, s);
      if nDepth == p {
        LastStep(f, key, p, nIdx, s, t);
      } else {
        var nIdx1 := NextInPreview(f, key, lb, p, d, step, nIdx, nDepth, s, t);
        PreviewWalks(f, key, lb, p, d, step, nIdx1, nDepth + 1, t, junk);
      }
      WalksOn(f, key, junk, h, s, t);
    }
  }

  lemma LastStep(f: IndexFile, key: nat, p: nat, nIdx: nat, s: PosState, t: PosState)
    requires f.header.preview == |f.preview| && 1 <= nIdx <= f.header.preview && s.below > 0 && Pow2(s.below) <= s.index
    requires t == Compared(s, key, f.preview[nIdx - 1])
    ensures LeavesPreview(f, key, p, nIdx, p, s) == At(t)
  {
    assert Pow2(0) == 1;
  }

  // A comparison in the preview before the rest of the walk.
  lemma WalksOn(f: IndexFile, key: nat, junk: Junk, h: Handover, s: PosState, t: PosState)
    requires f.header.keyType != FLOW && 0 < s.below && Pow2(s.below) <= s.index <= |f.records|
    requires t == Compared(s, key, f.records[s.index - 1].key)
    requires h.At? ==> h.s.below <= t.below && Pow2(h.s.below) <= h.s.index
    requires After(f, key, junk, h) == WrittenWalk(f.records, key, LevelsLeft(h), SlowFrom(f.header), junk, t)
    ensures After(f, key, junk, h) == WrittenWalk(f.records, key, LevelsLeft(h), SlowFrom(f.header), junk, s)
  {
    WalksThroughPreview(f.records, key, LevelsLeft(h), SlowFrom(f.header), junk, s);
  }

  // The comparison with a key in the preview is one with the key of the record.
  lemma ComparedInPreview(f: IndexFile, key: nat, lb: nat, p: nat, d: nat, step: nat, nIdx: nat, nDepth: nat,
                          s: PosState)
    returns (t: PosState)
    requires Known(f, p, d, step) && f.header.preview == |f.preview| && CutAt(f.records, key, lb)
    requires InPreview(|f.records|, step, lb, p, d, nIdx, nDepth, s.index) && s.below == d - nDepth
    requires nIdx <= f.header.preview
    ensures 1 <= nIdx && s.below > 0 && Pow2(s.below) <= s.index <= |f.records|
    ensures t == Compared(s, key, f.preview[nIdx - 1]) == Compared(s, key, f.records[s.index - 1].key)
  {
    PreviewNode(f, key, lb, p, d, step, nIdx, nDepth, s.index);
    PreviewIsRecord(f, p, d, step, nIdx, s.index);
    t := Compared(s, key, f.preview[nIdx - 1]);
  }

  lemma NextInPreview(f: IndexFile, key: nat, lb: nat, p: nat, d: nat, step: nat, nIdx: nat, nDepth: nat, s: PosState,
                      t: PosState)
    returns (nIdx1: nat)
    requires Known(f, p, d, step) && f.header.preview == |f.preview| && CutAt(f.records, key, lb)
    requires InPreview(|f.records|, step, lb, p, d, nIdx, nDepth, s.index) && s.below == d - nDepth
    requires 1 <= nIdx <= f.header.preview && nDepth < p && s.below > 0 && Pow2(s.below) <= s.index
    requires t == Compared(s, key, f.preview[nIdx - 1])
    ensures InPreview(|f.records|, step, lb, p, d, nIdx1, nDepth + 1, t.index) && t.below == d - nDepth - 1
    ensures nIdx1 >= Pow2(p - nDepth - 1) && s.below > p - nDepth && nIdx >= Pow2(p - nDepth)
    ensures LeavesPreview(f, key, p, nIdx, nDepth, s) == LeavesPreview(f, key, p, nIdx1, nDepth + 1, t)
  {
    PreviewNode(f, key, lb, p, d, step, nIdx, nDepth, s.index);
    var index1;
    nIdx1, index1 := PreviewGoesOn(f, lb, p, d, step, nIdx, nDepth, s.index);
  }

  lemma PreviewIsRecord(f: IndexFile, p: nat, d: nat, step: nat, nIdx: nat, index: int)
    requires Known(f, p, d, step) && 1 <= nIdx <= f.header.preview == |f.preview| && index == nIdx * step
    ensures 1 <= index <= |f.records| && f.preview[nIdx - 1] == f.records[index - 1].key
  {
    assert Folded(0);
    var i := PreviewEntry(f, nIdx);
  }

  // The preview counts for as many levels as it is walked in.
  lemma FindIsSearch(f: IndexFile, key: nat, junk: Junk)
    requires WellFormedFile(f)
    ensures WrittenFind(f, key, junk) ==
            WrittenSearch(f.records, key, LevelsLeft(HandsOver(f, key)), SlowFrom(f.header), junk)
  {
    if f.header.preview > 0 {
      BelowIsPrefix(f.records, key);
      FoundThroughPreview(f, key, Below(f.records, key), junk);
    }
  }

  lemma FoundThroughPreview(f: IndexFile, key: nat, lb: nat, junk: Junk)
    requires WellFormedFile(f) && f.header.preview > 0 && CutAt(f.records, key, lb)
    ensures After(f, key, junk, HandsOver(f, key)) ==
            WrittenSearch(f.records, key, LevelsLeft(HandsOver(f, key)), SlowFrom(f.header), junk)
  {
    PreviewStart(f, key, lb);
    var p, d, step := PreviewLevels(f.header.keyType), DepthOf(|f.records|), PreviewStep(f.header.keyType, |f.records|);
    assert Known(f, p, d, step);
    PreviewWalks(f, key, lb, p, d, step, Pow2(p - 1), 1, Root(|f.records|), junk);
  }

  ghost predicate FileAlwaysRight(f: IndexFile, key: nat)
    requires WellFormedFile(f)
  {
    forall junk: Junk :: IsRight(f.records, key, WrittenFind(f, key, junk))
  }

  // A search of any file as written finds the first record that is not too small exactly under
  // the condition of the walk, with the levels that the preview leaves and those that are too
  // large to be read at once.
  lemma FileSearchRightIff(f: IndexFile, key: nat)
    requires WellFormedFile(f)
    ensures Below(f.records, key) <= |f.records|
    ensures FileAlwaysRight(f, key) <==>
            RightAsWritten(f.records, key, Below(f.records, key), LevelsLeft(HandsOver(f, key)), SlowFrom(f.header))
  {
    var pv, sl := LevelsLeft(HandsOver(f, key)), SlowFrom(f.header);
    forall junk: Junk ensures WrittenFind(f, key, junk) == WrittenSearch(f.records, key, pv, sl, junk) {
      FindIsSearch(f, key, junk);
    }
    assert FileAlwaysRight(f, key) <==> AlwaysRight(f.records, key, pv, sl);
    WrittenSearchRightIff(f.records, key, pv, sl);
  }

  // ---- A file in which the seek misleads ----

  const MANY: nat := 0x8_0000

  // One record for each of 2^19 source addresses of version 6.
  ghost predicate IsAddressFile(f: IndexFile) {
    && WellFormedFile(f) && f.header.keyType == SRCv6 && !f.header.offset64 && |f.records| == MANY
    && forall i :: 0 <= i < MANY ==> f.records[i].key == i
  }

  lemma AddressFile() returns (f: IndexFile)
    ensures IsAddressFile(f)
  {
    var records := seq(MANY, i requires i >= 0 => Entry(i, HEADER_SIZE + i));
    var preview := Truncated(EveryNth(records, PreviewStep(SRCv6, |records|)), PreviewRoom(SRCv6));
    f := IndexFile(Header(SRCv6, false, |preview|, |records|), preview, records);
    Pow256Values();
  }

  // A key below all of those in the preview leads down its left edge.
  lemma {:induction false} DownTheLeft(f: IndexFile, key: nat, p: nat, d: nat, nDepth: nat)
    requires 1 <= nDepth <= p < d && f.header.preview == |f.preview| >= Pow2(p - 1)
    requires forall i :: 0 <= i < |f.preview| ==> key < f.preview[i]
    ensures Pow2(p - nDepth) <= |f.preview| && d - nDepth > p - nDepth
    ensures LeavesPreview(f, key, p, Pow2(p - nDepth), nDepth, PosState(Pow2(d - nDepth), d - nDepth, -1)) ==
            At(PosState(Pow2(d - p - 1), d - p - 1, -1))
    decreases p - nDepth
  {
    Pow2Grows(p - nDepth, p - 1);
    var s := PosState(Pow2(d - nDepth), d - nDepth, -1);
    assert Compared(s, key, f.preview[Pow2(p - nDepth) - 1]) == PosState(Pow2(d - nDepth - 1), d - nDepth - 1, -1);
    if nDepth < p {
      DownTheLeft(f, key, p, d, nDepth + 1);
    }
  }

  lemma AddressDepth()
    ensures DepthOf(MANY) == 20 && Pow2(12) == 4096 && Pow2(11) == 2048 && Pow2(7) == 128 && Pow2(19) == MANY
  {
    assert Pow2(4) == 16 && Pow2(7) == 128 && Pow2(11) == 2048 && Pow2(12) == 4096 && Pow2(16) == 0x1_0000;
    assert Pow2(19) == MANY;
    DepthIs(MANY, 20);
  }

  lemma AddressPreview(f: IndexFile)
    requires IsAddressFile(f)
    ensures f.header.preview == |f.preview| == 128 && forall i :: 0 <= i < |f.preview| ==> 2048 < f.preview[i]
  {
    AddressStep();
    PreviewFacts(f);
    forall i | 0 <= i < |f.preview| ensures 2048 < f.preview[i] {
      var k := PreviewEntry(f, i + 1);
      assert k == (i + 1) * 4096;
    }
  }

  lemma AddressStep()
    ensures HasPreview(SRCv6, MANY) && PreviewLevels(SRCv6) == 8
    ensures PreviewStep(SRCv6, MANY) == 4096 && MANY / PreviewStep(SRCv6, MANY) == 128 <= PreviewRoom(SRCv6)
  {
    AddressDepth();
    RoomOf(SRCv6);
    DivUnique(MANY, 4096, 128, 0);
  }

  lemma AddressesAreLarge(f: IndexFile)
    requires IsAddressFile(f)
    ensures SlowFrom(f.header) == 11
  {
    AddressDepth();
    var sl := SlowFrom(f.header);
    assert SubtreeBytes(10, 20) == 2047 * 20 && SubtreeBytes(11, 20) == 4095 * 20;
    assert SubtreeBytes(10, RecordSize(f.header)) <= MAX_TREE_BUFFER < SubtreeBytes(11, RecordSize(f.header));
  }

  lemma DepthIs(n: nat, d: nat)
    requires d > 0 && Pow2(d - 1) <= n < Pow2(d)
    ensures DepthOf(n) == d
  {
    DepthOfBounds(n);
    if DepthOf(n) < d {
      Pow2Grows(DepthOf(n), d - 1);
    } else if DepthOf(n) > d {
      Pow2Grows(d, DepthOf(n) - 1);
    }
  }

  // Address 2048 is stored, and the search for it stands on record 2048, which has address 2047,
  // looks at the one behind it and takes the wrong one for the match.
  lemma SeekMisleadsInFile() returns (f: IndexFile)
    ensures IsAddressFile(f) && IsFirstAtLeast(f.records, 2048, 2049)
    ensures forall junk: Junk :: !IsRight(f.records, 2048, WrittenFind(f, 2048, junk))
  {
    f := AddressFile();
    forall junk: Junk ensures !IsRight(f.records, 2048, WrittenFind(f, 2048, junk)) {
      MisleadsAt2048(f, junk);
    }
  }

  lemma MisleadsAt2048(f: IndexFile, junk: Junk)
    requires IsAddressFile(f)
    ensures !IsRight(f.records, 2048, WrittenFind(f, 2048, junk))
  {
    FindAt2048(f, junk);
    OnWayAt2048();
    SeekMisleads(f.records, 2048, 2048, 12, 11, junk, PosState(2048, 11, -1));
  }

  lemma FindAt2048(f: IndexFile, junk: Junk)
    requires IsAddressFile(f)
    ensures Pow2(11) == 2048
    ensures WrittenFind(f, 2048, junk) == WrittenWalk(f.records, 2048, 12, 11, junk, PosState(2048, 11, -1))
  {
    AddressDepth();
    HandsOverAt2048(f);
    AddressesAreLarge(f);
  }

  lemma OnWayAt2048()
    ensures Pow2(11) == 2048 && OnWay(MANY, 2048, PosState(2048, 11, -1))
  {
    AddressDepth();
    TrailingZerosOfPow2(11);
  }

  lemma HandsOverAt2048(f: IndexFile)
    requires IsAddressFile(f)
    ensures HandsOver(f, 2048) == At(PosState(2048, 11, -1))
  {
    AddressDepth();
    AddressStep();
    AddressPreview(f);
    DownTheLeft(f, 2048, 8, 20, 1);
    assert Root(MANY) == PosState(MANY, 19, -1);
    StartsInPreview(f, 2048);
  }
}

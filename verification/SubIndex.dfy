// Sub-index files and the search through them (indexer/search/subindex.c).

module SubIndex {
  import opened Bits
  import opened Network
  import opened LeftFilled

  // A record: the key and the offset of a flow in the flow index.
  datatype Entry = Entry(key: nat, offset: nat)

  datatype Header = Header(keyType: KeyType, offset64: bool, preview: nat, records: nat)

  datatype IndexFile = IndexFile(header: Header, preview: seq<nat>, records: seq<Entry>)

  ghost predicate KeysSorted(r: seq<Entry>) {
    forall i, j :: 0 <= i < j < |r| ==> r[i].key <= r[j].key
  }

  // The records are in the order of key and offset, and the offsets fit in 64 bits.
  ghost predicate RecordsInOrder(r: seq<Entry>) {
    && (forall i :: 0 <= i < |r| ==> r[i].offset < 0x1_0000_0000_0000_0000)
    && forall i, j :: 0 <= i < j < |r| ==>
         r[i].key < r[j].key || (r[i].key == r[j].key && r[i].offset < r[j].offset)
  }

  // The keys of the records at positions step, 2 * step, 3 * step, ...
  function EveryNth(r: seq<Entry>, step: nat): seq<nat>
    requires step > 0
  {
    if r == [] then []
    else EveryNth(r[..|r| - 1], step) + (if |r| % step == 0 then [r[|r| - 1].key] else [])
  }

  lemma DivNext(n: nat, step: nat)
    requires n > 0 && step > 0
    ensures n / step == (n - 1) / step + (if n % step == 0 then 1 else 0)
  {
    var q := n / step;
    if n % step == 0 {
      assert n - 1 == (q - 1) * step + (step - 1);
      DivUnique(n - 1, step, q - 1, step - 1);
    } else {
      assert n - 1 == q * step + (n % step - 1);
      DivUnique(n - 1, step, q, n % step - 1);
    }
  }

  // Entry i (from 0) is the key of record (i + 1) * step, and none is missing.
  lemma {:induction false} EveryNthIs(r: seq<Entry>, step: nat, i: nat)
    requires step > 0
    ensures |EveryNth(r, step)| == |r| / step
    ensures i < |EveryNth(r, step)| ==> 1 <= (i + 1) * step <= |r| && EveryNth(r, step)[i] == r[(i + 1) * step - 1].key
  {
    if r == [] {
      DivUnique(0, step, 0, 0);
    } else {
      var n := |r|;
      EveryNthIs(r[..n - 1], step, i);
      DivNext(n, step);
      if i == (n - 1) / step && n % step == 0 {
        assert (i + 1) * step == n;
      }
    }
  }

  // How far apart, in records, the entries of the preview are.
  function PreviewStep(tt: KeyType, records: nat): nat
    requires HasPreview(tt, records)
  {
    PreviewIsShallow(tt, records);
    Pow2(DepthOf(records) - PreviewLevels(tt))
  }

  // The preview entries that fit in the first disk block beside the header.
  function PreviewRoom(tt: KeyType): nat
    requires tt != FLOW
  {
    (DISK_BLOCK - HEADER_SIZE) / KeySize(tt)
  }

  function Truncated(s: seq<nat>, n: nat): seq<nat> {
    if |s| <= n then s else s[..n]
  }

  // Keys and offsets fit in the bytes a record has for them.
  ghost predicate RecordsFit(h: Header, r: seq<Entry>)
    requires h.keyType != FLOW
  {
    forall i :: 0 <= i < |r| ==>
      r[i].key < Pow256(KeySize(h.keyType)) &&
        r[i].offset < if h.offset64 then 0x1_0000_0000_0000_0000 else 0x1_0000_0000
  }

  ghost predicate WellFormedFile(f: IndexFile) {
    && f.header.keyType != FLOW && RecordsFit(f.header, f.records) && |f.records| < 0x1_0000_0000_0000_0000
    && f.header.records == |f.records| && f.header.preview == |f.preview|
    && KeysSorted(f.records)
    && f.preview == (if HasPreview(f.header.keyType, |f.records|)
                     then Truncated(EveryNth(f.records, PreviewStep(f.header.keyType, |f.records|)),
                                    PreviewRoom(f.header.keyType))
                     else [])
  }

  // ---- What a search is for ----

  // m is the position of the first record whose key is at least `key`, or -1.
  ghost predicate IsFirstAtLeast(r: seq<Entry>, key: nat, m: int) {
    if m == -1 then forall i :: 0 <= i < |r| ==> r[i].key < key
    else 1 <= m <= |r| && r[m - 1].key >= key && forall i :: 0 <= i < m - 1 ==> r[i].key < key
  }

  // ---- Positions in the tree ----

  class TreePos {
    var index: nat
    var nodeDepth: nat
    var treeDepth: nat
    var lastMatch: int

    constructor (treeDepth: nat)
      requires treeDepth >= 1
      ensures this.treeDepth == treeDepth && nodeDepth == 1 && index == Pow2(treeDepth - 1) && lastMatch == -1
    {
      this.treeDepth := treeDepth;
      nodeDepth := 1;
      index := Pow2(treeDepth - 1);
      lastMatch := -1;
    }

    // Half the width of the current subtree; its records lie strictly within that distance.
    ghost function Half(): nat
      requires nodeDepth <= treeDepth
      reads this
    {
      Pow2(treeDepth - nodeDepth)
    }

    ghost function State(): PosState
      requires nodeDepth <= treeDepth
      reads this
    {
      PosState(index, treeDepth - nodeDepth, lastMatch)
    }

    method UpdateLeft()
      requires nodeDepth < treeDepth && Pow2(treeDepth - nodeDepth - 1) <= index
      modifies this`index, this`nodeDepth
      ensures nodeDepth == old(nodeDepth) + 1
      ensures index == old(index) - Pow2(treeDepth - nodeDepth)
    {
      nodeDepth := nodeDepth + 1;
      index := index - Pow2(treeDepth - nodeDepth);
    }

    method UpdateRight()
      requires nodeDepth < treeDepth
      modifies this`index, this`nodeDepth
      ensures nodeDepth == old(nodeDepth) + 1
      ensures index == old(index) + Pow2(treeDepth - nodeDepth)
    {
      nodeDepth := nodeDepth + 1;
      index := index + Pow2(treeDepth - nodeDepth);
    }
  }

  // A position by value; `below` is the number of levels under the node.
  datatype PosState = PosState(index: nat, below: nat, lastMatch: int)

  // How many records have a key below `key`.
  ghost function Below(r: seq<Entry>, key: nat): nat {
    if r == [] then 0 else Below(r[..|r| - 1], key) + (if r[|r| - 1].key < key then 1 else 0)
  }

  // In a sorted array they are the first ones.
  lemma {:induction false} BelowIsPrefix(r: seq<Entry>, key: nat)
    requires KeysSorted(r)
    ensures Below(r, key) <= |r|
    ensures forall i :: 0 <= i < |r| ==> (r[i].key < key <==> i < Below(r, key))
  {
    if r != [] {
      BelowIsPrefix(r[..|r| - 1], key);
      assert forall i :: 0 <= i < |r| - 1 ==> r[..|r| - 1][i] == r[i];
    }
  }

  // The search invariant for n records of which the first `lb` are too small. All records
  // left of the current subtree are among those, all real ones right of it are not, and the
  // last match is the nearest of these.
  ghost predicate OnTrack(n: nat, lb: nat, s: PosState) {
    var half := Pow2(s.below);
    && half <= s.index && s.index - half <= lb < s.index + half && lb <= n
    && s.lastMatch == (if s.index + half <= n then s.index + half else -1)
  }

  lemma RootIsOnTrack(n: nat, lb: nat)
    requires lb <= n
    ensures OnTrack(n, lb, PosState(Pow2(DepthOf(n) - 1), DepthOf(n) - 1, -1))
  {
    DepthOfBounds(n);
  }

  // One level down: to the left from a virtual node or one that is large enough (which is
  // then the last match), to the right otherwise.
  lemma StepsStayOnTrack(n: nat, lb: nat, s: PosState)
    requires OnTrack(n, lb, s) && s.below > 0
    ensures var half := Pow2(s.below - 1);
      && half < s.index
      && (s.index > n ==> OnTrack(n, lb, PosState(s.index - half, s.below - 1, s.lastMatch)))
      && (s.index <= n && lb < s.index ==> OnTrack(n, lb, PosState(s.index - half, s.below - 1, s.index)))
      && (s.index <= n && s.index <= lb ==> OnTrack(n, lb, PosState(s.index + half, s.below - 1, s.lastMatch)))
  {
  }

  lemma LeafEndsSearch(r: seq<Entry>, key: nat, s: PosState)
    requires KeysSorted(r) && OnTrack(|r|, Below(r, key), s) && s.below == 0
    ensures IsFirstAtLeast(r, key, if s.index <= |r| && key <= r[s.index - 1].key then s.index else s.lastMatch)
  {
    BelowIsPrefix(r, key);
    assert Pow2(0) == 1;
  }

  // ---- The search ----

  // The records from position `first` on that a buffer holds.
  ghost predicate Holds(buffer: seq<Entry>, r: seq<Entry>, first: nat) {
    1 <= first && first - 1 + |buffer| <= |r| && forall i :: 0 <= i < |buffer| ==> buffer[i] == r[first - 1 + i]
  }

  // A read of `count` records from position `first` on: as many as there are.
  method ReadRecords(f: IndexFile, first: nat, count: nat) returns (r: seq<Entry>)
    requires 1 <= first <= |f.records| + 1
    ensures Holds(r, f.records, first)
    ensures |r| == if first - 1 + count <= |f.records| then count else |f.records| + 1 - first
  {
    r := if first - 1 + count <= |f.records| then f.records[first - 1..first - 1 + count] else f.records[first - 1..];
  }

  // Entry n of the preview is the key of record n * step.
  lemma PreviewEntry(f: IndexFile, n: nat) returns (i: nat)
    requires WellFormedFile(f) && 1 <= n <= f.header.preview
    ensures HasPreview(f.header.keyType, |f.records|)
    ensures i == n * PreviewStep(f.header.keyType, |f.records|)
    ensures 1 <= i <= |f.records| && f.preview[n - 1] == f.records[i - 1].key
  {
    i := n * PreviewStep(f.header.keyType, |f.records|);
    EveryNthIs(f.records, PreviewStep(f.header.keyType, |f.records|), n - 1);
  }

  // The place in the preview tree: node nIdx at depth nDepth is record nIdx * step of the file.
  ghost predicate InStep(d: nat, p: nat, step: nat, nIdx: int, nDepth: nat, index: nat, nodeDepth: nat) {
    && 1 <= p < d && step == Pow2(d - p)
    && 1 <= nDepth == nodeDepth <= p && index == nIdx * step
  }

  // The tree position and the position in the preview tree move together.
  lemma PreviewMoves(d: nat, p: nat, step: nat, nIdx: int, nDepth: nat, index: nat)
    requires InStep(d, p, step, nIdx, nDepth, index, nDepth) && nDepth < p
    ensures (nIdx + Pow2(p - nDepth - 1)) * step == index + Pow2(d - nDepth - 1)
    ensures (nIdx - Pow2(p - nDepth - 1)) * step == index - Pow2(d - nDepth - 1)
  {
    var a := Pow2(p - nDepth - 1);
    Pow2Adds(p - nDepth - 1, d - p);
    assert (nIdx + a) * step == nIdx * step + a * step;
    assert (nIdx - a) * step == nIdx * step - a * step;
  }

  // One comparison of a search: left if the record at the position is large enough, which
  // makes it the last match.
  method Compare(f: IndexFile, pos: TreePos, recordKey: nat, key: nat)
    requires KeysSorted(f.records) && 1 <= pos.nodeDepth < pos.treeDepth
    requires OnTrack(|f.records|, Below(f.records, key), pos.State())
    requires 1 <= pos.index <= |f.records| && recordKey == f.records[pos.index - 1].key
    modifies pos`index, pos`nodeDepth, pos`lastMatch
    ensures pos.nodeDepth == old(pos.nodeDepth) + 1 && OnTrack(|f.records|, Below(f.records, key), pos.State())
    ensures pos.index == if key <= recordKey then old(pos.index) - pos.Half() else old(pos.index) + pos.Half()
  {
    BelowIsPrefix(f.records, key);
    StepsStayOnTrack(|f.records|, Below(f.records, key), pos.State());
    if key <= recordKey {
      pos.lastMatch := pos.index;
      pos.UpdateLeft();
    } else {
      pos.UpdateRight();
    }
  }

  // A virtual node is larger than any key.
  method PassVirtual(n: nat, pos: TreePos, ghost lb: nat)
    requires 1 <= pos.nodeDepth < pos.treeDepth && OnTrack(n, lb, pos.State()) && pos.index > n
    modifies pos`index, pos`nodeDepth
    ensures pos.nodeDepth == old(pos.nodeDepth) + 1 && OnTrack(n, lb, pos.State())
    ensures pos.index == old(pos.index) - pos.Half()
  {
    StepsStayOnTrack(n, lb, pos.State());
    pos.UpdateLeft();
  }

  // One comparison against the preview, moving both positions.
  method ComparePreview(f: IndexFile, pos: TreePos, key: nat, pvwDepth: nat, nIdx: int, nDepth: nat, ghost step: nat)
    returns (next: int)
    requires WellFormedFile(f) && HasPreview(f.header.keyType, |f.records|)
    requires step == PreviewStep(f.header.keyType, |f.records|) && nIdx <= f.header.preview
    requires InStep(pos.treeDepth, pvwDepth, step, nIdx, nDepth, pos.index, pos.nodeDepth)
    requires OnTrack(|f.records|, Below(f.records, key), pos.State())
    modifies pos`index, pos`nodeDepth, pos`lastMatch
    ensures pos.nodeDepth == nDepth + 1 && OnTrack(|f.records|, Below(f.records, key), pos.State())
    ensures nDepth < pvwDepth ==> InStep(pos.treeDepth, pvwDepth, step, next, nDepth + 1, pos.index, pos.nodeDepth)
  {
    assert pos.index >= 1;
    assert nIdx >= 1 by {
      assert nIdx >= 1 || nIdx * step <= 0;
    }
    ghost var i := PreviewEntry(f, nIdx);
    next := nIdx;
    if nDepth < pvwDepth {
      PreviewMoves(pos.treeDepth, pvwDepth, step, nIdx, nDepth, pos.index);
      var move := Pow2(pvwDepth - nDepth - 1);
      next := if key <= f.preview[nIdx - 1] then nIdx - move else nIdx + move;
    }
    Compare(f, pos, f.preview[nIdx - 1], key);
  }

  // search_preview, with the walk past virtual nodes stopped at a leaf and each node that is
  // large enough recorded as the last match. It leaves early where the truncated preview ends.
  method SearchPreview(f: IndexFile, pos: TreePos, key: nat)
    requires WellFormedFile(f) && f.header.preview > 0
    requires pos.treeDepth == DepthOf(|f.records|) && pos.nodeDepth == 1 && pos.index == Pow2(pos.treeDepth - 1)
    requires OnTrack(|f.records|, Below(f.records, key), pos.State())
    modifies pos`index, pos`nodeDepth, pos`lastMatch
    ensures 1 <= pos.nodeDepth <= pos.treeDepth && OnTrack(|f.records|, Below(f.records, key), pos.State())
  {
    ghost var i := PreviewEntry(f, 1);
    PreviewIsShallow(f.header.keyType, |f.records|);
    var pvwDepth := ReaderPreviewDepth(f.header.keyType);
    var nIdx: int := Pow2(pvwDepth - 1);
    var nDepth := 1;
    ghost var step := PreviewStep(f.header.keyType, |f.records|);
    Pow2Adds(pvwDepth - 1, pos.treeDepth - pvwDepth);
    while nDepth <= pvwDepth
      invariant 1 <= pos.nodeDepth <= pos.treeDepth && OnTrack(|f.records|, Below(f.records, key), pos.State())
      invariant nDepth <= pvwDepth ==>
                  nIdx > f.header.preview || InStep(pos.treeDepth, pvwDepth, step, nIdx, nDepth, pos.index,
                                                    pos.nodeDepth)
      decreases pos.treeDepth - pos.nodeDepth
    {
      if nIdx > f.header.preview {
        if pos.index > f.header.records && pos.nodeDepth < pos.treeDepth {
          PassVirtual(|f.records|, pos, Below(f.records, key));
          continue;
        } else {
          return;
        }
      }
      nIdx := ComparePreview(f, pos, key, pvwDepth, nIdx, nDepth, step);
      nDepth := nDepth + 1;
    }
  }

  const MAX_TREE_BUFFER: nat := DISK_BLOCK * 16

  function RecordSize(h: Header): nat
    requires h.keyType != FLOW
  {
    KeySize(h.keyType) + if h.offset64 then 8 else 4
  }

  // The bytes of the subtree under a node with `below` levels under it.
  function SubtreeBytes(below: nat, recordSize: nat): nat { (Pow2(below + 1) - 1) * recordSize }

  lemma LargeTreeIsDeep(below: nat, h: Header)
    requires h.keyType != FLOW && SubtreeBytes(below, RecordSize(h)) > MAX_TREE_BUFFER
    ensures below > 0
  {
    if below == 0 {
      assert Pow2(1) == 2;
    }
  }

  // The first loop of search_index: one record at a time while the subtree is too large to
  // be read at once. Positions count from 1, so record `index` is at offset index - 1.
  method WalkLargeTree(f: IndexFile, pos: TreePos, key: nat)
    requires WellFormedFile(f) && 1 <= pos.nodeDepth <= pos.treeDepth
    requires OnTrack(|f.records|, Below(f.records, key), pos.State())
    modifies pos`index, pos`nodeDepth, pos`lastMatch
    ensures 1 <= pos.nodeDepth <= pos.treeDepth && OnTrack(|f.records|, Below(f.records, key), pos.State())
  {
    var bytesToRead := SubtreeBytes(pos.treeDepth - pos.nodeDepth, RecordSize(f.header));
    while bytesToRead > MAX_TREE_BUFFER
      invariant 1 <= pos.nodeDepth <= pos.treeDepth && OnTrack(|f.records|, Below(f.records, key), pos.State())
      invariant bytesToRead == SubtreeBytes(pos.treeDepth - pos.nodeDepth, RecordSize(f.header))
      decreases pos.treeDepth - pos.nodeDepth
    {
      LargeTreeIsDeep(pos.treeDepth - pos.nodeDepth, f.header);
      if pos.index > f.header.records {
        PassVirtual(|f.records|, pos, Below(f.records, key));
      } else {
        assert pos.index >= 1;
        Compare(f, pos, f.records[pos.index - 1].key, key);
      }
      bytesToRead := SubtreeBytes(pos.treeDepth - pos.nodeDepth, RecordSize(f.header));
    }
  }

  // The second loop of search_index, in the records read from `first` on.
  method SearchBuffer(f: IndexFile, pos: TreePos, key: nat, first: nat, buffer: seq<Entry>)
    requires f.header.records == |f.records| && KeysSorted(f.records)
    requires 1 <= pos.nodeDepth <= pos.treeDepth && OnTrack(|f.records|, Below(f.records, key), pos.State())
    requires first == pos.index - (pos.Half() - 1) && Holds(buffer, f.records, first)
    requires |buffer| == if pos.index + pos.Half() - 1 <= |f.records| then 2 * pos.Half() - 1
             else |f.records| + 1 - first
    modifies pos`index, pos`nodeDepth, pos`lastMatch
    ensures pos.nodeDepth == pos.treeDepth && OnTrack(|f.records|, Below(f.records, key), pos.State())
    ensures first <= pos.index && (pos.index <= |f.records| ==> pos.index < first + |buffer|)
  {
    ghost var end := pos.index + pos.Half();
    while pos.nodeDepth < pos.treeDepth
      invariant 1 <= pos.nodeDepth <= pos.treeDepth && OnTrack(|f.records|, Below(f.records, key), pos.State())
      invariant first + pos.Half() - 1 <= pos.index && pos.index + pos.Half() <= end
      decreases pos.treeDepth - pos.nodeDepth
    {
      if pos.index > f.header.records {
        PassVirtual(|f.records|, pos, Below(f.records, key));
        continue;
      }
      Compare(f, pos, buffer[pos.index - first].key, key);
    }
  }

  // search_index: reads the remaining subtree in one go and finishes the search in it. The
  // number of records read is always the number expected.
  method SearchIndex(f: IndexFile, pos: TreePos, key: nat) returns (ok: bool)
    requires WellFormedFile(f) && 1 <= pos.nodeDepth <= pos.treeDepth
    requires OnTrack(|f.records|, Below(f.records, key), pos.State())
    modifies pos`index, pos`nodeDepth, pos`lastMatch
    ensures ok && IsFirstAtLeast(f.records, key, pos.lastMatch)
  {
    WalkLargeTree(f, pos, key);
    var half := Pow2(pos.treeDepth - pos.nodeDepth);
    var firstRecord := pos.index - (half - 1);
    var buffer := ReadRecords(f, firstRecord, 2 * half - 1);
    var lastRecord := pos.index + (half - 1);
    if f.header.records < lastRecord {
      lastRecord := f.header.records;
    }
    if |buffer| != lastRecord - firstRecord + 1 {
      return false;
    }
    SearchBuffer(f, pos, key, firstRecord, buffer);
    LeafEndsSearch(f.records, key, pos.State());
    if pos.index <= f.header.records && key <= buffer[pos.index - firstRecord].key {
      pos.lastMatch := pos.index;
    }
    ok := true;
  }

  // The search part of search_subindex: the position of the first record whose key is at
  // least `key`, as a scan of all records would find it, or -1.
  method FindFirst(f: IndexFile, key: nat) returns (m: int)
    requires WellFormedFile(f)
    ensures IsFirstAtLeast(f.records, key, m)
  {
    var depth := TreeDepth(f.header.records);
    var pos := new TreePos(depth);
    BelowIsPrefix(f.records, key);
    RootIsOnTrack(|f.records|, Below(f.records, key));
    if f.header.preview != 0 {
      SearchPreview(f, pos, key);
    }
    var ok := SearchIndex(f, pos, key);
    m := pos.lastMatch;
  }

  // The first match is determined by the records, so any two searches agree.
  lemma FirstAtLeastUnique(r: seq<Entry>, key: nat, m1: int, m2: int)
    requires IsFirstAtLeast(r, key, m1) && IsFirstAtLeast(r, key, m2)
    ensures m1 == m2
  {
  }
}

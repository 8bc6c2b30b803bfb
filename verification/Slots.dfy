// The results of a search over several slots: what flow_fetch puts out for each, merged into one
// file (indexer/search/search_lib.c, indexer/search/merge_flows.c).

module Slots {
  import opened Folding
  import opened Network
  import opened Keys
  import opened Items
  import opened OrderedSets
  import opened SkipStates
  import opened PacketMerge
  import opened FlowFetch
  import opened FlowUnions
  import UnionRuns
  import F = FlowFile
  import A = Archive
  import opened Describe

  // The flows of a slot are in the order of the flow tree.
  ghost predicate InTreeOrder(flows: seq<Packets>) {
    && F.NoneEmpty(flows)
    && forall i, j :: 0 <= i < j < |flows| ==> Rank(flows[i][0], FLOW) < Rank(flows[j][0], FLOW)
  }

  // A flow and its record have the same five-tuple.
  lemma RecRank(flows: seq<Packets>, offset64: bool, k: nat)
    requires F.NoneEmpty(flows) && k < |flows|
    ensures FlowRecs().rank(RecOf(flows, offset64, k)) == Rank(flows[k][0], FLOW)
  {
    F.EntryAt(flows, offset64, k);
  }

  lemma RecsInOrder(flows: seq<Packets>, offset64: bool, k: nat, l: nat)
    requires InTreeOrder(flows) && k < l < |flows|
    ensures FlowRecs().rank(RecOf(flows, offset64, k)) <= FlowRecs().rank(RecOf(flows, offset64, l))
  {
    RecRank(flows, offset64, k);
    RecRank(flows, offset64, l);
  }

  lemma {:induction false} RecsAscend(flows: seq<Packets>, offset64: bool, ks: seq<nat>)
    requires InTreeOrder(flows) && Rising(ks, |flows|)
    ensures var recs := RecsOf(flows, offset64, ks);
      |recs| == |ks| && (ks != [] ==> recs[|ks| - 1] == RecOf(flows, offset64, ks[|ks| - 1])) &&
        Ascending(FlowRecs(), recs)
  {
    if ks != [] {
      var n := |ks| - 1;
      RecsAscend(flows, offset64, ks[..n]);
      if n > 0 {
        RecsInOrder(flows, offset64, ks[n - 1], ks[n]);
      }
      AscendingAppend(FlowRecs(), RecsOf(flows, offset64, ks[..n]), RecOf(flows, offset64, ks[n]));
    }
  }

  lemma {:induction false} PickedRises(flows: seq<Packets>, ks: seq<nat>, l: Limits)
    requires F.NoneEmpty(flows) && Rising(ks, |flows|)
    ensures Rising(Picked(flows, ks, l), |flows|) && forall k <- Picked(flows, ks, l) :: k in ks
  {
    if ks != [] {
      var n := |ks| - 1;
      PickedRises(flows, ks[..n], l);
      var before := Picked(flows, ks[..n], l);
      forall i | 0 <= i < |before| ensures before[i] < ks[n] {
        assert before[i] in ks[..n];
      }
    }
  }

  // ---- The slots of a search ----

  // What was found in a slot, by its places, with the flow index of the slot.
  ghost predicate FoundIn(results: seq<Byte>, entries: seq<FlowRec>, offset64: bool, written: bool,
                          r: seq<U64>, ks: seq<nat>, flows: seq<Packets>) {
    && results == Bytes(Offsets(), r) && PlacesOf(r, ks, flows, offset64) && Rising(ks, |flows|)
    && InTreeOrder(flows) && entries == F.Entries(flows, offset64) && InReach(flows, offset64, written)
  }

  // The records that flow_fetch puts out for a slot.
  ghost predicate FetchedAs(recs: seq<FlowRec>, flows: seq<Packets>, offset64: bool, ks: seq<nat>, l: Limits) {
    F.NoneEmpty(flows) && Rising(ks, |flows|) && recs == RecsOf(flows, offset64, Picked(flows, ks, l))
  }

  // flow_fetch for one slot: a file as the merge of slots needs it, the records in the order of
  // their flows.
  method FetchSlot(results: seq<Byte>, entries: seq<FlowRec>, offset64: bool, written: bool, l: Limits,
                   ghost r: seq<U64>, ghost ks: seq<nat>, ghost flows: seq<Packets>)
    returns (file: seq<Byte>, ghost recs: seq<FlowRec>)
    requires FoundIn(results, entries, offset64, written, r, ks, flows)
    ensures FetchedAs(recs, flows, offset64, ks, l) && FileOf(FlowRecs(), file, recs)
  {
    file, recs := FetchRecords(results, entries, offset64, written, l, r, ks, flows);
    assert Folded(0);
    PickedRises(flows, ks, l);
    RecsAscend(flows, offset64, Picked(flows, ks, l));
  }

  // A slot that is done, unopened.
  ghost predicate Done(file: seq<Byte>, recs: seq<FlowRec>, flows: seq<Packets>, offset64: bool, ks: seq<nat>,
                       l: Limits) {
    forall n :: Folded(n) ==> FileOf(FlowRecs(), file, recs) && FetchedAs(recs, flows, offset64, ks, l)
  }

  // One that is not, likewise.
  ghost predicate ToDo(results: seq<Byte>, entries: seq<FlowRec>, offset64: bool, written: bool,
                       r: seq<U64>, ks: seq<nat>, flows: seq<Packets>) {
    forall n :: Folded(n) ==> FoundIn(results, entries, offset64, written, r, ks, flows)
  }

  method DoSlot(results: seq<Byte>, entries: seq<FlowRec>, offset64: bool, written: bool, l: Limits,
                ghost r: seq<U64>, ghost ks: seq<nat>, ghost flows: seq<Packets>)
    returns (file: seq<Byte>, ghost recs: seq<FlowRec>)
    requires ToDo(results, entries, offset64, written, r, ks, flows)
    ensures Done(file, recs, flows, offset64, ks, l)
  {
    assert Folded(0);
    file, recs := FetchSlot(results, entries, offset64, written, l, r, ks, flows);
  }

  ghost predicate DoneUpTo(n: nat, files: seq<seq<Byte>>, recs: seq<seq<FlowRec>>, slots: seq<seq<Packets>>,
                           wide: seq<bool>, kss: seq<seq<nat>>, l: Limits)
    requires n == |files| == |recs| <= |slots| == |wide| == |kss|
  {
    forall i :: 0 <= i < n ==> Done(files[i], recs[i], slots[i], wide[i], kss[i], l)
  }

  lemma AllDone(files: seq<seq<Byte>>, recs: seq<seq<FlowRec>>, slots: seq<seq<Packets>>, wide: seq<bool>,
                kss: seq<seq<nat>>, l: Limits)
    requires |files| == |recs| == |slots| == |wide| == |kss|
    requires DoneUpTo(|slots|, files, recs, slots, wide, kss, l)
    ensures forall i :: 0 <= i < |slots| ==> FileOf(FlowRecs(), files[i], recs[i])
    ensures forall i :: 0 <= i < |slots| ==> FetchedAs(recs[i], slots[i], wide[i], kss[i], l)
  {
    assert Folded(0);
  }

  lemma OneMore(n: nat, files: seq<seq<Byte>>, recs: seq<seq<FlowRec>>, slots: seq<seq<Packets>>, wide: seq<bool>,
                kss: seq<seq<nat>>, l: Limits, file: seq<Byte>, rec: seq<FlowRec>)
    requires n == |files| == |recs| < |slots| == |wide| == |kss|
    requires DoneUpTo(n, files, recs, slots, wide, kss, l) && Done(file, rec, slots[n], wide[n], kss[n], l)
    ensures DoneUpTo(n + 1, files + [file], recs + [rec], slots, wide, kss, l)
  {
  }

  method DoSlots(results: seq<seq<Byte>>, entries: seq<seq<FlowRec>>, wide: seq<bool>, written: bool, l: Limits,
                 ghost rs: seq<seq<U64>>, ghost kss: seq<seq<nat>>, ghost slots: seq<seq<Packets>>)
    returns (files: seq<seq<Byte>>, ghost recs: seq<seq<FlowRec>>)
    requires |results| == |entries| == |wide| == |rs| == |kss| == |slots|
    requires forall i :: 0 <= i < |slots| ==> ToDo(results[i], entries[i], wide[i], written, rs[i], kss[i], slots[i])
    ensures |files| == |recs| == |slots| && DoneUpTo(|slots|, files, recs, slots, wide, kss, l)
  {
    files, recs := [], [];
    for n := 0 to |results|
      invariant |files| == |recs| == n && DoneUpTo(n, files, recs, slots, wide, kss, l)
    {
      var file;
      ghost var rec;
      file, rec := DoSlot(results[n], entries[n], wide[n], written, l, rs[n], kss[n], slots[n]);
      OneMore(n, files, recs, slots, wide, kss, l, file, rec);
      files, recs := files + [file], recs + [rec];
    }
  }

  // A search over several slots: one record for each flow that was found and is within the limits
  // in any of them, all records of the flow merged.
  method FetchSlots(results: seq<seq<Byte>>, entries: seq<seq<FlowRec>>, wide: seq<bool>, written: bool, l: Limits,
                    ghost rs: seq<seq<U64>>, ghost kss: seq<seq<nat>>, ghost slots: seq<seq<Packets>>)
    returns (out: seq<Byte>, ghost merged: seq<FlowRec>, ghost taken: seq<FlowRec>, ghost recs: seq<seq<FlowRec>>)
    requires |results| == |entries| == |wide| == |rs| == |kss| == |slots| < 0x1_0000
    requires forall i :: 0 <= i < |slots| ==> FoundIn(results[i], entries[i], wide[i], written, rs[i], kss[i], slots[i])
    ensures |recs| == |slots| && forall i :: 0 <= i < |slots| ==> FetchedAs(recs[i], slots[i], wide[i], kss[i], l)
    ensures out == Bytes(FlowRecs(), merged) && FoldsOf(merged, taken) && multiset(taken) == UnionRuns.Total(recs)
  {
    assert forall i :: 0 <= i < |slots| ==> ToDo(results[i], entries[i], wide[i], written, rs[i], kss[i], slots[i]);
    var files;
    files, recs := DoSlots(results, entries, wide, written, l, rs, kss, slots);
    AllDone(files, recs, slots, wide, kss, l);
    out, merged, taken := MergeFlowFiles(files, recs);
  }
}

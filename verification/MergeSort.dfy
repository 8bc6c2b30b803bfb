// Sorting a node's flow list by flow offset (indexer/index.c).

module MergeSort {
  import opened Folding
  import opened Sequences
  import opened Bits
  import opened IndexTree

  // An element of a flow list.
  class FlowListNode {
    const flow: IndexNode
    var next: FlowListNode?

    constructor (flow: IndexNode, next: FlowListNode?)
      ensures this.flow == flow && this.next == next
    {
      this.flow, this.next := flow, next;
    }
  }

  type Chain = seq<FlowListNode>

  // The flow offset of each list element while a sort runs.
  type Offsets = FlowListNode -> nat

  ghost predicate Linked(s: Chain)
    reads (set x | x in s)`next
  {
    forall i {:trigger s[i].next} :: 0 <= i < |s| - 1 ==> s[i].next == s[i + 1]
  }

  // h heads a list whose elements are s.
  ghost predicate IsList(h: FlowListNode?, s: Chain)
    reads (set x | x in s)`next
  {
    if s == [] then h == null else h == s[0] && Linked(s) && s[|s| - 1].next == null
  }

  ghost predicate Disjoint(a: Chain, b: Chain) {
    forall x <- a :: x !in b
  }

  ghost predicate Sorted(s: Chain, off: Offsets) {
    forall i, j :: 0 <= i < j < |s| ==> off(s[i]) <= off(s[j])
  }

  ghost predicate Reads(off: Offsets, s: Chain)
    reads (set x | x in s :: x.flow)`flowIndexOffset
  {
    forall x <- s :: off(x) == x.flow.flowIndexOffset
  }

  // ---- Merging two lists ----

  ghost function Merge(s1: Chain, s2: Chain, off: Offsets): Chain {
    if s1 == [] then s2
    else if s2 == [] then s1
    else if off(s1[0]) < off(s2[0]) then [s1[0]] + Merge(s1[1..], s2, off)
    else [s2[0]] + Merge(s1, s2[1..], off)
  }

  lemma {:induction false} MergeKeepsElements(s1: Chain, s2: Chain, off: Offsets)
    ensures multiset(Merge(s1, s2, off)) == multiset(s1) + multiset(s2)
  {
    if s1 != [] && s2 != [] {
      if off(s1[0]) < off(s2[0]) {
        MergeKeepsElements(s1[1..], s2, off);
        assert s1 == [s1[0]] + s1[1..];
      } else {
        MergeKeepsElements(s1, s2[1..], off);
        assert s2 == [s2[0]] + s2[1..];
      }
    }
  }

  lemma SortedCons(x: FlowListNode, s: Chain, off: Offsets)
    requires Sorted(s, off) && forall y <- s :: off(x) <= off(y)
    ensures Sorted([x] + s, off)
  {
  }

  lemma HeadIsLeast(s: Chain, off: Offsets)
    requires Sorted(s, off) && s != []
    ensures Sorted(s[1..], off) && forall y <- s :: off(s[0]) <= off(y)
  {
  }

  lemma {:induction false} MergeIsSorted(s1: Chain, s2: Chain, off: Offsets)
    requires Sorted(s1, off) && Sorted(s2, off)
    ensures Sorted(Merge(s1, s2, off), off)
  {
    if s1 != [] && s2 != [] {
      HeadIsLeast(s1, off);
      HeadIsLeast(s2, off);
      if off(s1[0]) < off(s2[0]) {
        MergeIsSorted(s1[1..], s2, off);
        LeastBeforeMerge(s1[0], s1[1..], s2, off);
      } else {
        MergeIsSorted(s1, s2[1..], off);
        LeastBeforeMerge(s2[0], s1, s2[1..], off);
      }
    }
  }

  lemma LeastBeforeMerge(x: FlowListNode, s1: Chain, s2: Chain, off: Offsets)
    requires Sorted(Merge(s1, s2, off), off) && (forall y <- s1 :: off(x) <= off(y)) &&
             forall y <- s2 :: off(x) <= off(y)
    ensures Sorted([x] + Merge(s1, s2, off), off)
  {
    forall y | y in Merge(s1, s2, off) ensures off(x) <= off(y) {
      MergeElements(s1, s2, off, y);
    }
    SortedCons(x, Merge(s1, s2, off), off);
  }

  lemma DistinctCons(x: FlowListNode, s: Chain)
    requires Distinct(s) && x !in s
    ensures Distinct([x] + s)
  {
  }

  lemma {:induction false} MergeElements(s1: Chain, s2: Chain, off: Offsets, x: FlowListNode)
    ensures x in Merge(s1, s2, off) <==> x in s1 || x in s2
  {
    MergeKeepsElements(s1, s2, off);
    assert x in Merge(s1, s2, off) <==> x in multiset(Merge(s1, s2, off));
    assert x in multiset(s1) + multiset(s2) <==> x in s1 || x in s2;
  }

  lemma {:induction false} MergeIsDistinct(s1: Chain, s2: Chain, off: Offsets)
    requires Distinct(s1) && Distinct(s2) && Disjoint(s1, s2)
    ensures Distinct(Merge(s1, s2, off))
  {
    if s1 != [] && s2 != [] {
      if off(s1[0]) < off(s2[0]) {
        MergeIsDistinct(s1[1..], s2, off);
        MergeElements(s1[1..], s2, off, s1[0]);
        DistinctCons(s1[0], Merge(s1[1..], s2, off));
      } else {
        assert Disjoint(s1, s2[1..]);
        MergeIsDistinct(s1, s2[1..], off);
        MergeElements(s1, s2[1..], off, s2[0]);
        DistinctCons(s2[0], Merge(s1, s2[1..], off));
      }
    }
  }

  // A partly built list: `head` and `tail` are its ends, and null while it is empty.
  ghost predicate Building(head: FlowListNode?, tail: FlowListNode?, done: Chain)
    reads (set x | x in done)`next
  {
    Linked(done) && if done == [] then head == null && tail == null else head == done[0] && tail == done[|done| - 1]
  }

  // `*next_dest = rest`: attaches a list to the one being built.
  method Attach(head: FlowListNode?, tail: FlowListNode?, rest: FlowListNode, ghost done: Chain)
    returns (newHead: FlowListNode)
    requires Building(head, tail, done) && Distinct(done)
    modifies (if tail == null then {} else {tail})`next
    ensures newHead == if done == [] then rest else done[0]
    ensures Linked(done) && (tail != null ==> tail.next == rest)
  {
    if tail == null {
      newHead := rest;
    } else {
      tail.next := rest;
      newHead := head;
    }
  }

  // The elements already taken and the two lists still to be merged.
  ghost predicate Merging(done: Chain, ra: Chain, rb: Chain, all: Chain) {
    && Distinct(done) && Distinct(ra) && Distinct(rb)
    && Disjoint(ra, done) && Disjoint(rb, done) && Disjoint(ra, rb)
    && (forall x <- done :: x in all) && (forall x <- ra :: x in all) && (forall x <- rb :: x in all)
  }

  lemma TakeKeepsParts(done: Chain, ra: Chain, rb: Chain, all: Chain)
    requires Merging(done, ra, rb, all) && ra != [] && rb != []
    ensures Merging(done + [ra[0]], ra[1..], rb, all) && Merging(done + [rb[0]], ra, rb[1..], all)
  {
    assert ra[0] in ra && rb[0] in rb;
    assert forall x <- ra[1..] :: x in ra && x != ra[0];
    assert forall x <- rb[1..] :: x in rb && x != rb[0];
    assert forall x <- done + [ra[0]] :: x in done || x == ra[0];
    assert forall x <- done + [rb[0]] :: x in done || x == rb[0];
  }

  // One step of the merge loop: x goes from its list to the end of the one being built.
  method Take(head: FlowListNode?, tail: FlowListNode?, x: FlowListNode, other: FlowListNode,
              ghost done: Chain, ghost r: Chain, ghost o: Chain)
    returns (newHead: FlowListNode, next: FlowListNode?)
    requires Building(head, tail, done) && IsList(x, r) && r != [] && IsList(other, o)
    requires Distinct(done) && Distinct(r) && Disjoint(r, done) && Disjoint(o, done)
    modifies (if tail == null then {} else {tail})`next
    ensures Building(newHead, x, done + [x]) && IsList(next, r[1..]) && IsList(other, o)
  {
    newHead := Attach(head, tail, x, done);
    assert IsList(x, r) && IsList(other, o);
    next := x.next;
  }

  // Attaching a whole list completes the one being built.
  method Finish(head: FlowListNode?, tail: FlowListNode?, rest: FlowListNode, ghost done: Chain, ghost r: Chain)
    returns (newHead: FlowListNode)
    requires Building(head, tail, done) && IsList(rest, r) && r != [] && Distinct(done) && Disjoint(r, done)
    modifies (if tail == null then {} else {tail})`next
    ensures IsList(newHead, done + r)
  {
    newHead := Attach(head, tail, rest, done);
    assert IsList(rest, r);
    LinkedTogether(done, r);
  }

  lemma LinkedTogether(a: Chain, b: Chain)
    requires Linked(a) && Linked(b) && b != [] && (a != [] ==> a[|a| - 1].next == b[0])
    ensures Linked(a + b)
  {
    var s := a + b;
    forall i | 0 <= i < |s| - 1 ensures s[i].next == s[i + 1] {
      if i < |a| - 1 {
        assert a[i].next == a[i + 1];
      } else if i >= |a| {
        assert b[i - |a|].next == b[i - |a| + 1];
      }
    }
  }

  // Between two steps of the merge: the list built so far, and the two still to be merged.
  ghost predicate Halfway(a: FlowListNode?, b: FlowListNode?, head: FlowListNode?, tail: FlowListNode?,
                          done: Chain, ra: Chain, rb: Chain, s1: Chain, s2: Chain, off: Offsets)
    reads (set x | x in ra)`next, (set x | x in rb)`next, (set x | x in done)`next
  {
    forall n :: Folded(n) ==>
      && IsList(a, ra) && IsList(b, rb) && Building(head, tail, done)
      && Merging(done, ra, rb, s1 + s2) && done + Merge(ra, rb, off) == Merge(s1, s2, off)
      && (done == [] || ra != [] || rb != [])
  }

  // Takes the first element of one list, which goes at the end of the one being built.
  method MergeStep(a: FlowListNode, b: FlowListNode, head: FlowListNode?, tail: FlowListNode?,
                   ghost done: Chain, ghost ra: Chain, ghost rb: Chain, ghost s1: Chain, ghost s2: Chain,
                   ghost off: Offsets)
    returns (a1: FlowListNode?, b1: FlowListNode?, head1: FlowListNode, tail1: FlowListNode,
             ghost done1: Chain, ghost ra1: Chain, ghost rb1: Chain)
    requires Halfway(a, b, head, tail, done, ra, rb, s1, s2, off) && Reads(off, s1 + s2)
    modifies (set x | x in s1 + s2)`next
    ensures Halfway(a1, b1, head1, tail1, done1, ra1, rb1, s1, s2, off)
    ensures |ra1| + |rb1| < |ra| + |rb|
  {
    assert Folded(0);
    MergeTakesFirst(done, ra, rb, off);
    TakeKeepsParts(done, ra, rb, s1 + s2);
    assert a in s1 + s2 && b in s1 + s2;
    a1, b1, ra1, rb1 := a, b, ra, rb;
    if a.flow.flowIndexOffset < b.flow.flowIndexOffset {
      head1, a1 := Take(head, tail, a, b, done, ra, rb);
      tail1, done1, ra1 := a, done + [a], ra[1..];
    } else {
      head1, b1 := Take(head, tail, b, a, done, rb, ra);
      tail1, done1, rb1 := b, done + [b], rb[1..];
    }
  }

  // merge_flow_lists. `tail` stands for the pointer to where the next element goes; null is
  // the address of `head`.
  method MergeFlowLists(h1: FlowListNode?, h2: FlowListNode?, ghost s1: Chain, ghost s2: Chain, ghost off: Offsets)
    returns (head: FlowListNode?)
    requires IsList(h1, s1) && IsList(h2, s2) && Distinct(s1) && Distinct(s2) && Disjoint(s1, s2)
    requires Reads(off, s1 + s2)
    modifies (set x | x in s1 + s2)`next
    ensures IsList(head, Merge(s1, s2, off))
  {
    var a, b := h1, h2;
    ghost var done: Chain, ra, rb := [], s1, s2;
    var tail: FlowListNode? := null;
    head := null;
    while a != null && b != null
      invariant Halfway(a, b, head, tail, done, ra, rb, s1, s2, off)
      decreases |ra| + |rb|
    {
      a, b, head, tail, done, ra, rb := MergeStep(a, b, head, tail, done, ra, rb, s1, s2, off);
    }
    head := FinishMerge(a, b, head, tail, done, ra, rb, s1, s2, off);
  }

  // What is left of either list goes at the end.
  method FinishMerge(a: FlowListNode?, b: FlowListNode?, head: FlowListNode?, tail: FlowListNode?,
                     ghost done: Chain, ghost ra: Chain, ghost rb: Chain, ghost s1: Chain, ghost s2: Chain,
                     ghost off: Offsets)
    returns (h: FlowListNode?)
    requires Halfway(a, b, head, tail, done, ra, rb, s1, s2, off) && (a == null || b == null)
    modifies (set x | x in s1 + s2)`next
    ensures IsList(h, Merge(s1, s2, off))
  {
    assert Folded(0);
    h := head;
    if a != null {
      h := Finish(head, tail, a, done, ra);
    } else if b != null {
      h := Finish(head, tail, b, done, rb);
    }
  }

  lemma MergeTakesFirst(done: Chain, s1: Chain, s2: Chain, off: Offsets)
    requires s1 != [] && s2 != []
    ensures off(s1[0]) < off(s2[0]) ==>
              done + Merge(s1, s2, off) == (done + [s1[0]]) + Merge(s1[1..], s2, off)
    ensures off(s1[0]) >= off(s2[0]) ==>
              done + Merge(s1, s2, off) == (done + [s2[0]]) + Merge(s1, s2[1..], off)
  {
  }

  // ---- Sorting ----

  const MAX_ORDER := 64

  // The nodes that fit in the slots.
  const MAX_NODES := 0x1_0000_0000_0000_0000

  // Slot i holds nothing or a sorted run of exactly 2^i elements, so the filled slots are
  // the binary digits of the number of elements taken in.
  ghost predicate Slots(runs: seq<Chain>, off: Offsets) {
    && |runs| == MAX_ORDER
    && (forall i :: 0 <= i < MAX_ORDER ==> runs[i] == [] || |runs[i]| == Pow2(i))
    && (forall i :: 0 <= i < MAX_ORDER ==> Sorted(runs[i], off) && Distinct(runs[i]))
    && (forall i, j :: 0 <= i < MAX_ORDER && 0 <= j < MAX_ORDER && i != j ==> Disjoint(runs[i], runs[j]))
  }

  ghost function Held(runs: seq<Chain>, n: nat): nat
    requires n <= |runs|
  {
    if n == 0 then 0 else Held(runs, n - 1) + |runs[n - 1]|
  }

  ghost function HeldElements(runs: seq<Chain>, n: nat): multiset<FlowListNode>
    requires n <= |runs|
  {
    if n == 0 then multiset{} else HeldElements(runs, n - 1) + multiset(runs[n - 1])
  }

  lemma {:induction false} HeldUpdate(runs: seq<Chain>, i: nat, x: Chain, n: nat)
    requires i < n <= |runs|
    ensures Held(runs[i := x], n) + |runs[i]| == Held(runs, n) + |x|
    ensures HeldElements(runs[i := x], n) + multiset(runs[i]) == HeldElements(runs, n) + multiset(x)
  {
    if i < n - 1 {
      HeldUpdate(runs, i, x, n - 1);
      var a, b, m := HeldElements(runs[i := x], n - 1), HeldElements(runs, n - 1), multiset(runs[n - 1]);
      assert (a + m) + multiset(runs[i]) == (a + multiset(runs[i])) + m == (b + multiset(x)) + m == (b + m) +
             multiset(x);
    } else {
      HeldSame(runs, runs[i := x], n - 1);
    }
  }

  lemma {:induction false} HeldSame(r1: seq<Chain>, r2: seq<Chain>, n: nat)
    requires n <= |r1| && n <= |r2| && forall i :: 0 <= i < n ==> r1[i] == r2[i]
    ensures Held(r1, n) == Held(r2, n) && HeldElements(r1, n) == HeldElements(r2, n)
  {
    if n > 0 {
      HeldSame(r1, r2, n - 1);
    }
  }

  lemma {:induction false} HeldNothing(runs: seq<Chain>, n: nat)
    requires n <= |runs| && forall i :: 0 <= i < n ==> runs[i] == []
    ensures Held(runs, n) == 0 && HeldElements(runs, n) == multiset{}
  {
    if n > 0 {
      HeldNothing(runs, n - 1);
    }
  }

  // orderLists holds the heads of the runs.
  ghost predicate Stored(orderLists: seq<FlowListNode?>, runs: seq<Chain>, all: set<FlowListNode>)
    reads all`next
  {
    && |orderLists| == |runs| == MAX_ORDER
    && forall i :: 0 <= i < MAX_ORDER ==> Slot(orderLists[i], runs[i], all)
  }

  ghost predicate Slot(h: FlowListNode?, s: Chain, all: set<FlowListNode>)
    reads all`next
  {
    (forall x <- s :: x in all) && IsList(h, s)
  }

  // A list that shares nothing with any slot.
  ghost predicate Loose(c: Chain, runs: seq<Chain>, off: Offsets, all: set<FlowListNode>) {
    && Sorted(c, off) && Distinct(c) && (forall x <- c :: x in all)
    && forall i :: 0 <= i < |runs| ==> Disjoint(c, runs[i])
  }

  ghost predicate OffsetsOf(off: Offsets, all: set<FlowListNode>)
    reads (set x | x in all :: x.flow)`flowIndexOffset
  {
    forall x <- all :: off(x) == x.flow.flowIndexOffset
  }

  lemma LooseMerge(runs: seq<Chain>, order: nat, c: Chain, m: Chain, off: Offsets, all: set<FlowListNode>)
    requires order < MAX_ORDER && Slots(runs, off) && Loose(c, runs, off, all)
    requires (forall x <- runs[order] :: x in all) && (forall x <- m :: x in runs[order] || x in c)
    requires Sorted(m, off) && Distinct(m)
    ensures Slots(runs[order := []], off) && Loose(m, runs[order := []], off, all)
  {
    var rest := runs[order := []];
    forall i | 0 <= i < MAX_ORDER ensures Disjoint(m, rest[i]) {
      assert i != order ==> Disjoint(runs[order], runs[i]);
    }
  }

  lemma FillSlot(runs: seq<Chain>, order: nat, c: Chain, off: Offsets, all: set<FlowListNode>)
    requires order < MAX_ORDER && Slots(runs, off) && runs[order] == [] && Loose(c, runs, off, all) &&
             |c| == Pow2(order)
    ensures Slots(runs[order := c], off)
    ensures Held(runs[order := c], MAX_ORDER) == Held(runs, MAX_ORDER) + |c|
    ensures HeldElements(runs[order := c], MAX_ORDER) == HeldElements(runs, MAX_ORDER) + multiset(c)
  {
    HeldUpdate(runs, order, c, MAX_ORDER);
  }

  // The bookkeeping of a carry; the order stays below 64 while fewer than 2^64 elements exist.
  lemma CarryCounts(runs: seq<Chain>, order: nat, c: Chain, m: Chain)
    requires order < MAX_ORDER == |runs| && |runs[order]| == |c| == Pow2(order)
    requires multiset(m) == multiset(runs[order]) + multiset(c)
    ensures |m| == Pow2(order + 1)
    ensures Held(runs[order := []], MAX_ORDER) + |m| == Held(runs, MAX_ORDER) + |c|
    ensures HeldElements(runs[order := []], MAX_ORDER) + multiset(m) == HeldElements(runs, MAX_ORDER) + multiset(c)
    ensures |m| < MAX_NODES ==> order + 1 < MAX_ORDER
  {
    HeldUpdate(runs, order, [], MAX_ORDER);
    assert |multiset(m)| == |m| == |runs[order]| + |c|;
    assert order + 1 == MAX_ORDER ==> |m| == MAX_NODES by { Pow2Values(); }
    var rest := HeldElements(runs[order := []], MAX_ORDER);
    assert rest + multiset(m) == (rest + multiset(runs[order])) + multiset(c);
  }

  lemma MergeMeans(run: Chain, c: Chain, m: Chain, off: Offsets)
    requires Sorted(run, off) && Sorted(c, off) && Distinct(run) && Distinct(c) && Disjoint(run, c) &&
             m == Merge(run, c, off)
    ensures Sorted(m, off) && Distinct(m) && multiset(m) == multiset(run) + multiset(c)
    ensures forall x <- m :: x in run || x in c
  {
    MergeIsSorted(run, c, off);
    MergeIsDistinct(run, c, off);
    MergeKeepsElements(run, c, off);
    forall x | x in m ensures x in run || x in c { MergeElements(run, c, off, x); }
  }

  // One carry: the run in the slot and the current list become one list of twice the size.
  method Carry(orderLists: seq<FlowListNode?>, curr: FlowListNode, order: nat,
               ghost runs: seq<Chain>, ghost c: Chain, ghost off: Offsets, ghost all: set<FlowListNode>)
    returns (merged: FlowListNode?, ghost m: Chain)
    requires order < MAX_ORDER && Slots(runs, off) && Stored(orderLists, runs, all) && runs[order] != []
    requires IsList(curr, c) && Loose(c, runs, off, all) && OffsetsOf(off, all)
    modifies all`next
    ensures Slots(runs[order := []], off) && Stored(orderLists[order := null], runs[order := []], all)
    ensures IsList(merged, m) && Loose(m, runs[order := []], off, all)
    ensures multiset(m) == multiset(runs[order]) + multiset(c)
  {
    ghost var run := runs[order];
    m := Merge(run, c, off);
    assert Disjoint(run, c);
    MergeMeans(run, c, m, off);
    assert Slot(orderLists[order], run, all);
    LooseMerge(runs, order, c, m, off, all);
    assert forall i :: 0 <= i < MAX_ORDER && i != order ==> Disjoint(runs[i], run) && Disjoint(c, runs[i]);
    merged := MergeFlowLists(orderLists[order], curr, run, c, off);
  }

  // The inner loop of merge_sort_offsets: adds one element, carrying like a binary counter.
  method AddNode(orderLists: seq<FlowListNode?>, node: FlowListNode,
                 ghost runs: seq<Chain>, ghost off: Offsets, ghost all: set<FlowListNode>)
    returns (lists: seq<FlowListNode?>, ghost result: seq<Chain>)
    requires Slots(runs, off) && Stored(orderLists, runs, all) && node in all && node.next == null
    requires Loose([node], runs, off, all) && Held(runs, MAX_ORDER) + 1 < MAX_NODES && OffsetsOf(off, all)
    modifies all`next
    ensures Slots(result, off) && Stored(lists, result, all)
    ensures Held(result, MAX_ORDER) == Held(runs, MAX_ORDER) + 1
    ensures HeldElements(result, MAX_ORDER) == HeldElements(runs, MAX_ORDER) + multiset{node}
  {
    var curr := node;
    var order := 0;
    ghost var c: Chain := [node];
    lists, result := orderLists, runs;
    while lists[order] != null
      invariant 0 <= order < MAX_ORDER
      invariant Slots(result, off) && Stored(lists, result, all)
      invariant IsList(curr, c) && |c| == Pow2(order) && Loose(c, result, off, all)
      invariant Held(result, MAX_ORDER) + |c| == Held(runs, MAX_ORDER) + 1
      invariant HeldElements(result, MAX_ORDER) + multiset(c) == HeldElements(runs, MAX_ORDER) + multiset{node}
      decreases MAX_ORDER - order
    {
      ghost var m;
      curr, m := Carry(lists, curr, order, result, c, off, all);
      CarryCounts(result, order, c, m);
      lists, result := lists[order := null], result[order := []];
      c := m;
      order := order + 1;
    }
    FillSlot(result, order, c, off, all);
    lists, result := lists[order := curr], result[order := c];
  }

  // One step of the final loop: a slot's run is merged into the list so far.
  method MergeSlot(h: FlowListNode, curr: FlowListNode, ghost run: Chain, ghost c: Chain, ghost off: Offsets)
    returns (merged: FlowListNode?, ghost m: Chain)
    requires IsList(h, run) && IsList(curr, c) && Reads(off, run) && Reads(off, c) && Disjoint(run, c)
    requires Sorted(run, off) && Distinct(run) && Sorted(c, off) && Distinct(c)
    modifies (set x | x in run + c)`next
    ensures IsList(merged, m) && Sorted(m, off) && Distinct(m) && multiset(m) == multiset(run) + multiset(c)
    ensures forall x <- m :: x in run || x in c
  {
    MergeIsSorted(run, c, off);
    MergeIsDistinct(run, c, off);
    MergeKeepsElements(run, c, off);
    m := Merge(run, c, off);
    assert forall x <- m :: x in run || x in c by {
      forall x | x in m ensures x in run || x in c { MergeElements(run, c, off, x); }
    }
    merged := MergeFlowLists(h, curr, run, c, off);
  }

  // The list so far and the slots from `order` on.
  ghost predicate Collecting(orderLists: seq<FlowListNode?>, order: nat, curr: FlowListNode?,
                             runs: seq<Chain>, c: Chain, off: Offsets, all: set<FlowListNode>)
    requires order <= MAX_ORDER == |orderLists| == |runs|
    reads all`next
  {
    && Slot(curr, c, all) && Sorted(c, off) && Distinct(c) && multiset(c) == HeldElements(runs, order)
    && (forall i :: order <= i < MAX_ORDER ==> Slot(orderLists[i], runs[i], all))
    && (forall i :: order <= i < MAX_ORDER ==> Disjoint(runs[i], c))
  }

  method TakeSlot(orderLists: seq<FlowListNode?>, order: nat, curr: FlowListNode?,
                  ghost runs: seq<Chain>, ghost c: Chain, ghost off: Offsets, ghost all: set<FlowListNode>)
    returns (next: FlowListNode?, ghost n: Chain)
    requires order < MAX_ORDER == |orderLists| && Slots(runs, off) && OffsetsOf(off, all)
    requires Collecting(orderLists, order, curr, runs, c, off, all)
    modifies all`next
    ensures Collecting(orderLists, order + 1, next, runs, n, off, all)
  {
    assert Slot(orderLists[order], runs[order], all);
    assert forall i :: order < i < MAX_ORDER ==> Disjoint(runs[i], runs[order]);
    if orderLists[order] == null {
      next, n := curr, c;
    } else if curr == null {
      next, n := orderLists[order], runs[order];
    } else {
      next, n := MergeSlot(orderLists[order], curr, runs[order], c, off);
    }
  }

  // The final loop of merge_sort_offsets: merges the filled slots, lowest first.
  method MergeSlots(orderLists: seq<FlowListNode?>, ghost runs: seq<Chain>, ghost off: Offsets,
                    ghost all: set<FlowListNode>)
    returns (curr: FlowListNode?, ghost c: Chain)
    requires Slots(runs, off) && Stored(orderLists, runs, all) && OffsetsOf(off, all)
    modifies all`next
    ensures IsList(curr, c) && Sorted(c, off) && multiset(c) == HeldElements(runs, MAX_ORDER)
  {
    var order := 0;
    curr, c := null, [];
    assert Collecting(orderLists, order, curr, runs, c, off, all);
    while order < MAX_ORDER
      invariant 0 <= order <= MAX_ORDER && OffsetsOf(off, all)
      invariant Collecting(orderLists, order, curr, runs, c, off, all)
    {
      curr, c := TakeSlot(orderLists, order, curr, runs, c, off, all);
      order := order + 1;
    }
  }

  lemma FirstIsLoose(r: Chain, runs: seq<Chain>, off: Offsets, held: set<FlowListNode>)
    requires r != [] && Distinct(r) && forall i :: 0 <= i < |runs| ==> Disjoint(r, runs[i])
    ensures Loose([r[0]], runs, off, held + {r[0]})
    ensures r[0] !in r[1..] && Distinct(r[1..])
    ensures multiset(r) == multiset{r[0]} + multiset(r[1..])
  {
    assert r == [r[0]] + r[1..];
  }

  // Between two elements of merge_sort_offsets: the slots hold `held`, the input still has r.
  ghost predicate Taking(orderLists: seq<FlowListNode?>, rest: FlowListNode?, runs: seq<Chain>, r: Chain,
                         held: set<FlowListNode>, s: Chain, off: Offsets)
    reads (set x | x in s)`next, held`next, (set x | x in r)`next
  {
    && Slots(runs, off) && Stored(orderLists, runs, held)
    && IsList(rest, r) && Distinct(r)
    && (forall x <- r :: x in s && x !in held) && (forall x <- held :: x in s)
    && Held(runs, MAX_ORDER) + |r| == |s|
    && HeldElements(runs, MAX_ORDER) + multiset(r) == multiset(s)
  }

  method TakeElement(orderLists: seq<FlowListNode?>, node: FlowListNode, ghost runs: seq<Chain>, ghost r: Chain,
                     ghost held: set<FlowListNode>, ghost s: Chain, ghost off: Offsets)
    returns (lists: seq<FlowListNode?>, rest: FlowListNode?, ghost result: seq<Chain>)
    requires Taking(orderLists, node, runs, r, held, s, off) && |s| < MAX_NODES && Reads(off, s)
    modifies (set x | x in s)`next
    ensures Taking(lists, rest, result, r[1..], held + {node}, s, off)
  {
    assert forall i :: 0 <= i < MAX_ORDER ==> Slot(orderLists[i], runs[i], held);
    assert forall i :: 0 <= i < MAX_ORDER ==> Disjoint(r, runs[i]);
    FirstIsLoose(r, runs, off, held);
    rest := TakeOff(orderLists, node, runs, r, held);
    lists, result := AddNode(orderLists, node, runs, off, held + {node});
    TookOne(lists, rest, runs, result, r, held, s, off);
  }

  // Takes the first element off the input.
  method TakeOff(orderLists: seq<FlowListNode?>, node: FlowListNode, ghost runs: seq<Chain>, ghost r: Chain,
                 ghost held: set<FlowListNode>)
    returns (rest: FlowListNode?)
    requires IsList(node, r) && r != [] && Distinct(r) && Stored(orderLists, runs, held) && node !in held
    modifies node`next
    ensures node.next == null && IsList(rest, r[1..]) && Stored(orderLists, runs, held + {node})
  {
    rest := node.next;
    node.next := null;
    assert IsList(rest, r[1..]);
    forall i | 0 <= i < MAX_ORDER ensures Slot(orderLists[i], runs[i], held + {node}) {
      assert old(Slot(orderLists[i], runs[i], held));
    }
  }

  lemma TookOne(lists: seq<FlowListNode?>, rest: FlowListNode?, runs: seq<Chain>, result: seq<Chain>, r: Chain,
                held: set<FlowListNode>, s: Chain, off: Offsets)
    requires r != [] && Slots(result, off) && Stored(lists, result, held + {r[0]}) && IsList(rest, r[1..])
    requires Distinct(r) && (forall x <- r :: x in s && x !in held) && forall x <- held :: x in s
    requires |runs| == MAX_ORDER && Held(runs, MAX_ORDER) + |r| == |s| &&
             Held(result, MAX_ORDER) == Held(runs, MAX_ORDER) + 1
    requires HeldElements(runs, MAX_ORDER) + multiset(r) == multiset(s)
    requires HeldElements(result, MAX_ORDER) == HeldElements(runs, MAX_ORDER) + multiset{r[0]}
    ensures Taking(lists, rest, result, r[1..], held + {r[0]}, s, off)
  {
    RestApart(r, held);
    TookCounts(runs, result, r, s);
  }

  lemma TookCounts(runs: seq<Chain>, result: seq<Chain>, r: Chain, s: Chain)
    requires r != [] && |runs| == |result| == MAX_ORDER
    requires Held(runs, MAX_ORDER) + |r| == |s| && Held(result, MAX_ORDER) == Held(runs, MAX_ORDER) + 1
    requires HeldElements(runs, MAX_ORDER) + multiset(r) == multiset(s)
    requires HeldElements(result, MAX_ORDER) == HeldElements(runs, MAX_ORDER) + multiset{r[0]}
    ensures Held(result, MAX_ORDER) + |r[1..]| == |s| &&
            HeldElements(result, MAX_ORDER) + multiset(r[1..]) == multiset(s)
  {
    assert r == [r[0]] + r[1..];
  }

  lemma RestApart(r: Chain, held: set<FlowListNode>)
    requires r != [] && Distinct(r) && forall x <- r :: x !in held
    ensures Distinct(r[1..]) && forall x <- r[1..] :: x in r && x !in held + {r[0]}
  {
    assert forall i :: 0 <= i < |r| - 1 ==> r[1..][i] == r[i + 1];
  }

  // merge_sort_offsets: the same elements, relinked into rising order of flow offset.
  method MergeSortOffsets(head: FlowListNode?, ghost s: Chain, ghost off: Offsets)
    returns (sorted: FlowListNode?, ghost t: Chain)
    requires IsList(head, s) && Distinct(s) && |s| < MAX_NODES && Reads(off, s)
    modifies (set x | x in s)`next
    ensures IsList(sorted, t) && Sorted(t, off) && multiset(t) == multiset(s)
  {
    var orderLists: seq<FlowListNode?> := seq(MAX_ORDER, _ => null);
    ghost var runs: seq<Chain> := seq(MAX_ORDER, _ => []);
    HeldNothing(runs, MAX_ORDER);
    var rest := head;
    ghost var r: Chain, held: set<FlowListNode> := s, {};
    assert Taking(orderLists, rest, runs, r, held, s, off);
    while rest != null
      invariant Taking(orderLists, rest, runs, r, held, s, off) && Reads(off, s)
      decreases |r|
    {
      ghost var node: FlowListNode := rest;
      orderLists, rest, runs := TakeElement(orderLists, rest, runs, r, held, s, off);
      r, held := r[1..], held + {node};
    }
    sorted, t := MergeSlots(orderLists, runs, off, held);
  }
}

// The union of ordered sets (indexer/search/ordered_set.c).

module Unions {
  import opened Items
  import opened OrderedSets
  import opened SkipLinks
  import opened SkipStates
  import opened SkipLists
  import opened UnionRuns

  // ---- The contents of the sets ----

  ghost function ContentsOf<T(!new)>(listed: seq<OrderedSet<T>>): (r: seq<seq<T>>)
    reads listed
    ensures |r| == |listed| && forall i :: 0 <= i < |r| ==> r[i] == listed[i].content
  {
    seq(|listed|, i requires 0 <= i < |listed| reads listed => listed[i].content)
  }

  // The contents with those of a set that has been popped in front.
  ghost function Contents<T(!new)>(listed: seq<OrderedSet<T>>, next: OrderedSet?<T>): seq<seq<T>>
    reads listed, next
  {
    if next == null then [] else [next.content] + ContentsOf(listed)
  }

  lemma ContentsInserted<T(!new)>(listed: seq<OrderedSet<T>>, at: nat, oset: OrderedSet<T>)
    requires at <= |listed|
    ensures ContentsOf(Inserted(listed, at, oset)) == Inserted(ContentsOf(listed), at, oset.content)
  {
  }

  lemma ContentsOrderly<T(!new)>(e: Elements<T>, listed: seq<OrderedSet<T>>)
    requires Ready(e, listed) && InOrder(e, listed)
    ensures Orderly(e, ContentsOf(listed))
  {
    var cs := ContentsOf(listed);
    forall i, j | 0 <= i < j < |cs| ensures e.rank(cs[i][0]) <= e.rank(cs[j][0]) {
      assert Before(i, j);
    }
  }

  // ---- One round ----

  ghost predicate AllIn<X>(s: seq<X>, all: set<X>) {
    forall i :: 0 <= i < |s| ==> s[i] in all
  }

  lemma InsertedAllIn<X>(s: seq<X>, at: nat, x: X, all: set<X>)
    requires AllIn(s, all) && at <= |s| && x in all
    ensures AllIn(Inserted(s, at, x), all)
  {
  }

  // The sets and the arrays of links that a union works on.
  ghost predicate Within<T(!new)>(sl: SkipList<T>, nodes: set<OrderedSet<T>>, rows: set<array<OrderedSet?<T>>>)
    reads sl
  {
    AllIn(sl.listed, nodes) && AllIn(sl.arrays, rows)
  }

  // `next` has been popped from the list, or there was nothing left.
  ghost predicate InFlight<T(!new)>(
      sl: SkipList<T>, next: OrderedSet?<T>, nodes: set<OrderedSet<T>>, rows: set<array<OrderedSet?<T>>>)
    reads sl, sl.listed, sl.arrays, next
  {
    && Within(sl, nodes, rows)
    && if next == null then sl.listed == [] else
         && sl.Sized(1) && sl.LinkedTo(sl.maxLevel) && sl.Loose(next) && next.content != []
         && next in nodes && next.skip in rows
  }

  // Pops the set with the smallest next element, if any set is left.
  method PopNext<T(!new)>(sl: SkipList<T>, ghost nodes: set<OrderedSet<T>>, ghost rows: set<array<OrderedSet?<T>>>)
    returns (next: OrderedSet?<T>)
    requires sl.Sized(0) && sl.LinkedTo(sl.Top()) && Within(sl, nodes, rows)
    modifies sl, sl.skip
    ensures InFlight(sl, next, nodes, rows)
    ensures Contents(sl.listed, next) == old(ContentsOf(sl.listed))
  {
    ghost var listed, arrays := sl.listed, sl.arrays;
    ghost var all := ContentsOf(listed);
    assert listed != [] ==> listed[0].skip == arrays[1];
    next := sl.Pop();
    assert ContentsOf(listed) == all;
    if next != null {
      FirstInFront(listed);
    }
  }

  lemma FirstInFront<T(!new)>(listed: seq<OrderedSet<T>>)
    requires listed != []
    ensures ContentsOf(listed) == [listed[0].content] + ContentsOf(listed[1..])
  {
  }

  // Pops an element from a set that is not in the list.
  method PopItem<T(!new)>(sl: SkipList<T>, next: OrderedSet<T>) returns (item: T)
    requires sl.Sized(1) && sl.LinkedTo(sl.maxLevel) && sl.Loose(next) && next.content != []
    modifies next
    ensures sl.Sized(1) && sl.LinkedTo(sl.maxLevel) && sl.Loose(next)
    ensures item == old(next.content[0]) && next.content == old(next.content[1..])
    ensures ContentsOf(sl.listed) == old(ContentsOf(sl.listed))
  {
    var r := next.Pop();
    item := r.item;
  }

  lemma PlaceOfContents<T(!new)>(e: Elements<T>, listed: seq<OrderedSet<T>>, v: nat, at: nat)
    requires IsPlace(e, listed, v, at)
    ensures PlacedAt(e, ContentsOf(listed), v, at)
  {
  }

  // Puts a set back at its place, or drops it if it is empty.
  method PutBack<T(!new)>(sl: SkipList<T>, next: OrderedSet<T>, ghost nodes: set<OrderedSet<T>>,
                          ghost rows: set<array<OrderedSet?<T>>>)
    returns (ghost at: nat)
    requires sl.Sized(1) && sl.LinkedTo(sl.maxLevel) && sl.Loose(next)
    requires Within(sl, nodes, rows) && next in nodes && next.skip in rows
    modifies sl, sl.arrays, next, next.skip
    ensures sl.Sized(0) && sl.LinkedTo(sl.Top()) && Within(sl, nodes, rows)
    ensures old(next.content) == [] ==> ContentsOf(sl.listed) == old(ContentsOf(sl.listed))
    ensures old(next.content) != [] ==>
      && PlacedAt(sl.e, old(ContentsOf(sl.listed)), sl.e.rank(old(next.content)[0]), at)
      && ContentsOf(sl.listed) == Inserted(old(ContentsOf(sl.listed)), at, old(next.content))
  {
    ghost var listed, arrays := sl.listed, sl.arrays;
    ghost var all := ContentsOf(listed);
    at := sl.Reinsert(next, sl.maxLevel);
    assert ContentsOf(listed) == all;
    if next.content != [] {
      PlaceOfContents(sl.e, listed, sl.e.rank(next.content[0]), at);
      ContentsInserted(listed, at, next);
      InsertedAllIn(listed, at, next, nodes);
      InsertedAllIn(arrays, at + 1, next.skip, rows);
    }
  }

  // One round: takes the smallest element, puts its set back and pops the next one.
  method TakeLeast<T(!new)>(sl: SkipList<T>, next: OrderedSet<T>, ghost nodes: set<OrderedSet<T>>,
                            ghost rows: set<array<OrderedSet?<T>>>)
    returns (item: T, next1: OrderedSet?<T>, ghost at: nat)
    requires InFlight(sl, next, nodes, rows)
    modifies sl, nodes, rows
    ensures InFlight(sl, next1, nodes, rows)
    ensures old(next.content) != [] && item == old(next.content)[0]
    ensures RightRound(sl.e, old(Contents(sl.listed, next)), at)
    ensures Contents(sl.listed, next1) == Stepped(old(Contents(sl.listed, next)), at)
  {
    ghost var cs := Contents(sl.listed, next);
    assert cs[1..] == ContentsOf(sl.listed);
    item := PopItem(sl, next);
    at := PutBack(sl, next, nodes, rows);
    assert sl.arrays[0] == sl.skip;
    next1 := PopNext(sl, nodes, rows);
  }

  // ---- The whole union ----

  lemma CoalesceNext<T>(e: Elements<T>, popped: seq<T>, out: seq<T>, last: T, item: T)
    requires popped != [] && Coalesce(e, popped) == out + [last]
    ensures Coalesce(e, popped + [item]) ==
      if e.rank(last) == e.rank(item) then out + [e.merge(last, item)] else out + [last] + [item]
  {
    assert (popped + [item])[..|popped|] == popped;
    assert (out + [last])[..|out|] == out;
  }

  // All of the result but its last element has been put out.
  ghost predicate Progress<T(!new)>(output: OrderedSet<T>, popped: seq<T>, last: T)
    reads output
  {
    && output.Valid() && output.mode != READ
    && popped != [] && Coalesce(output.e, popped) == output.content + [last]
  }

  // Puts out the last element unless it is to be merged with the new one.
  method Emit<T(!new)>(output: OrderedSet<T>, last: T, item: T, ghost popped: seq<T>) returns (last1: T)
    requires Progress(output, popped, last)
    modifies output
    ensures Progress(output, popped + [item], last1) && output.mode == old(output.mode)
  {
    CoalesceNext(output.e, popped, output.content, last, item);
    if output.e.rank(item) != output.e.rank(last) {
      output.Push(last);
      last1 := item;
    } else {
      last1 := output.e.merge(last, item);
    }
  }

  // The sets are where the run has come to.
  ghost predicate Follows<T(!new)>(sl: SkipList<T>, next: OrderedSet?<T>, run: Run<T>)
    reads sl, sl.listed, next
  {
    RightRun(sl.e, run) && Contents(sl.listed, next) == State(run)
  }

  // A round, and what it does to the run and to the output.
  method Round<T(!new)>(sl: SkipList<T>, next: OrderedSet<T>, ghost run: Run<T>,
                        ghost nodes: set<OrderedSet<T>>, ghost rows: set<array<OrderedSet?<T>>>)
    returns (item: T, next1: OrderedSet?<T>, ghost run1: Run<T>)
    requires InFlight(sl, next, nodes, rows) && Follows(sl, next, run)
    modifies sl, nodes, rows
    ensures InFlight(sl, next1, nodes, rows) && Follows(sl, next1, run1)
    ensures run1.More? && run1.before == run && Taken(run1) == Taken(run) + [item]
  {
    ghost var at;
    item, next1, at := TakeLeast(sl, next, nodes, rows);
    run1 := More(run, at);
  }

  // The loop of os_slist_union.
  ghost predicate Running<T(!new)>(
      sl: SkipList<T>, next: OrderedSet?<T>, output: OrderedSet<T>, last: T, run: Run<T>,
      nodes: set<OrderedSet<T>>, rows: set<array<OrderedSet?<T>>>)
    reads sl, sl.listed, sl.arrays, next, output
  {
    && InFlight(sl, next, nodes, rows) && Follows(sl, next, run)
    && Progress(output, Taken(run), last) && output !in nodes
  }

  // The output is none of the sets.
  method EmitBeside<T(!new)>(
      sl: SkipList<T>, next: OrderedSet?<T>, output: OrderedSet<T>, last: T, item: T,
      ghost popped: seq<T>, ghost run: Run<T>, ghost nodes: set<OrderedSet<T>>, ghost rows: set<array<OrderedSet?<T>>>)
    returns (last1: T)
    requires InFlight(sl, next, nodes, rows) && Follows(sl, next, run) && output !in nodes
    requires Progress(output, popped, last)
    modifies output
    ensures InFlight(sl, next, nodes, rows) && Follows(sl, next, run)
    ensures Progress(output, popped + [item], last1) && output.mode == old(output.mode)
  {
    ghost var listed, arrays := sl.listed, sl.arrays;
    assert output !in listed && output != next;
    ghost var rest := Contents(listed, next);
    last1 := Emit(output, last, item, popped);
    assert Contents(listed, next) == rest;
  }

  method Turn<T(!new)>(sl: SkipList<T>, next: OrderedSet<T>, output: OrderedSet<T>, last: T, ghost run: Run<T>,
                       ghost nodes: set<OrderedSet<T>>, ghost rows: set<array<OrderedSet?<T>>>)
    returns (next1: OrderedSet?<T>, last1: T, ghost run1: Run<T>)
    requires Running(sl, next, output, last, run, nodes, rows)
    modifies sl, nodes, rows, output
    ensures Running(sl, next1, output, last1, run1, nodes, rows) && output.mode == old(output.mode)
    ensures FirstState(run1) == FirstState(run) && |Total(State(run1))| < |Total(State(run))|
  {
    var item;
    item, next1, run1 := Round(sl, next, run, nodes, rows);
    RoundShrinks(sl.e, run1);
    last1 := EmitBeside(sl, next1, output, last, item, Taken(run), run1, nodes, rows);
  }

  // The first element, with which nothing is put out yet.
  method FirstTurn<T(!new)>(sl: SkipList<T>, next: OrderedSet<T>, output: OrderedSet<T>, ghost run: Run<T>,
                            ghost nodes: set<OrderedSet<T>>, ghost rows: set<array<OrderedSet?<T>>>)
    returns (next1: OrderedSet?<T>, last: T, ghost run1: Run<T>)
    requires InFlight(sl, next, nodes, rows) && Follows(sl, next, run) && run.Start? && output !in nodes
    requires output.Valid() && output.mode != READ && output.content == []
    modifies sl, nodes, rows
    ensures Running(sl, next1, output, last, run1, nodes, rows) && output.mode == old(output.mode)
    ensures FirstState(run1) == FirstState(run)
  {
    last, next1, run1 := Round(sl, next, run, nodes, rows);
  }

  method Begin<T(!new)>(sl: SkipList<T>, output: OrderedSet<T>, ghost nodes: set<OrderedSet<T>>,
                        ghost rows: set<array<OrderedSet?<T>>>)
    returns (next: OrderedSet?<T>, ghost run: Run<T>)
    requires sl.Sized(0) && sl.LinkedTo(sl.Top()) && Within(sl, nodes, rows)
    requires output.Valid() && output !in nodes
    modifies sl, rows
    ensures InFlight(sl, next, nodes, rows) && Follows(sl, next, run)
    ensures run == Start(old(ContentsOf(sl.listed))) && output.Valid()
    ensures output.mode == old(output.mode) && output.content == old(output.content)
  {
    ContentsOrderly(sl.e, sl.listed);
    run := Start(ContentsOf(sl.listed));
    assert sl.skip == sl.arrays[0];
    next := PopNext(sl, nodes, rows);
  }

  // The loop, once a set has been popped.
  method Drain<T(!new)>(sl: SkipList<T>, first: OrderedSet<T>, output: OrderedSet<T>, ghost start: Run<T>,
                        ghost nodes: set<OrderedSet<T>>, ghost rows: set<array<OrderedSet?<T>>>)
    returns (ghost run: Run<T>)
    requires InFlight(sl, first, nodes, rows) && Follows(sl, first, start) && start.Start? && output !in nodes
    requires output.Valid() && output.mode != READ && output.content == []
    modifies sl, nodes, rows, output
    ensures RightRun(sl.e, run) && FirstState(run) == FirstState(start) && State(run) == []
    ensures output.Valid() && output.mode == old(output.mode) && output.content == Coalesce(output.e, Taken(run))
  {
    var next, last;
    next, last, run := FirstTurn(sl, first, output, start, nodes, rows);
    while next != null
      invariant Running(sl, next, output, last, run, nodes, rows) && output.mode == old(output.mode)
      invariant FirstState(run) == FirstState(start)
      decreases |Total(State(run))|
    {
      next, last, run := Turn(sl, next, output, last, run, nodes, rows);
    }
    output.Push(last);
  }

  // os_slist_union. The run tells in which order the elements were taken; the output is what
  // they coalesce to.
  method Union<T(!new)>(sl: SkipList<T>, output: OrderedSet<T>) returns (ghost run: Run<T>)
    requires sl.Sized(0) && sl.LinkedTo(sl.Top())
    requires output.Valid() && output.mode != READ && output.e == sl.e && output.content == [] && output !in sl.listed
    modifies sl, sl.listed, sl.arrays, output
    ensures output.Valid() && output.mode == old(output.mode)
    ensures RightRun(sl.e, run) && FirstState(run) == old(ContentsOf(sl.listed)) && State(run) == []
    ensures output.content == Coalesce(sl.e, Taken(run))
  {
    ghost var nodes, rows := set o | o in sl.listed, set a | a in sl.arrays;
    var next;
    next, run := Begin(sl, output, nodes, rows);
    if next != null {
      run := Drain(sl, next, output, run, nodes, rows);
    } else {
      NothingLeft(sl, run, nodes, rows);
    }
  }

  // Without a set there is nothing to take.
  lemma NothingLeft<T(!new)>(sl: SkipList<T>, run: Run<T>, nodes: set<OrderedSet<T>>, rows: set<array<OrderedSet?<T>>>)
    requires InFlight(sl, null, nodes, rows) && Follows(sl, null, run) && run.Start?
    ensures State(run) == [] && Coalesce(sl.e, Taken(run)) == []
  {
  }
}

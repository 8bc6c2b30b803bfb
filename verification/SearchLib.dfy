// Combining the results of sub-searches (indexer/search/search_lib.c).

module SearchLib {
  import opened Folding
  import opened Network
  import opened Items
  import opened OrderedSets
  import opened SkipLinks
  import opened SkipStates
  import opened SkipLists
  import opened Unions
  import opened Leapfrog
  import opened OffsetUnions

  // A result file: the bytes of a strictly increasing sequence of offsets.
  ghost predicate Holds(e: Elements<U64>, file: seq<Byte>, content: seq<U64>) {
    file == Bytes(e, content) && Increasing(content)
  }

  method OpenFile(e: Elements<U64>, file: seq<Byte>, ghost content: seq<U64>) returns (oset: OrderedSet<U64>)
    requires IsOffsets(e) && Holds(e, file, content)
    ensures fresh(oset) && fresh(oset.skip) && Usable(e, oset) && oset.skip.Length == MAX_SKIP_LIST_LEVELS
    ensures oset.content == content
  {
    oset := new OrderedSet<U64>.Readable(e, file, content);
    IncreasingIsAscending(e, content);
  }

  // Opens a result file and adds it to a skip list.
  method OpenAndAdd(sl: SkipList<U64>, file: seq<Byte>, ghost content: seq<U64>, ghost sets: seq<seq<U64>>,
                    ghost objects: set<object>)
    returns (ghost objects1: set<object>)
    requires Loaded(sl, sets, objects) && Holds(sl.e, file, content) && |sets| + 1 < 0x1_0000
    modifies objects
    ensures Loaded(sl, sets + [content], objects1) && fresh(objects1 - objects) && objects <= objects1
  {
    var oset := OpenFile(sl.e, file, content);
    assert sl.Loose(oset);
    AddSet(sl, oset, sets, objects);
    objects1 := objects + {oset, oset.skip};
  }

  method NewList(e: Elements<U64>) returns (sl: SkipList<U64>, ghost objects: set<object>)
    requires IsOffsets(e)
    ensures Loaded(sl, [], objects) && fresh(objects) && sl.e == e && sl.size == 0
  {
    sl := new SkipList<U64>(e);
    objects := {sl, sl.skip};
    assert Filled(sl, []);
  }

  lemma PrefixGrows<X>(s: seq<X>, i: nat)
    requires i < |s|
    ensures s[..i] + [s[i]] == s[..i + 1]
  {
  }

  // or_results: the union of the results of the AND operations.
  method OrResults(e: Elements<U64>, files: seq<seq<Byte>>, ghost contents: seq<seq<U64>>)
    returns (out: seq<Byte>, ghost r: seq<U64>)
    requires IsOffsets(e) && |files| == |contents| < 0x1_0000
    requires forall i :: 0 <= i < |files| ==> Holds(e, files[i], contents[i])
    ensures Holds(e, out, r) && forall x: U64 :: x in r <==> InAny(contents, x)
  {
    var output := new OrderedSet<U64>.Writable(e, WRITE);
    var sl;
    ghost var objects;
    sl, objects := NewList(e);
    objects := OpenAll(sl, files, contents, objects);
    UnionOffsets(sl, output, contents);
    r := output.content;
    out := Cleanup(output);
  }

  // The loop of or_results that opens the files.
  method OpenAll(sl: SkipList<U64>, files: seq<seq<Byte>>, ghost contents: seq<seq<U64>>, ghost objects0: set<object>)
    returns (ghost objects: set<object>)
    requires Loaded(sl, [], objects0) && |files| == |contents| < 0x1_0000
    requires forall i :: 0 <= i < |files| ==> Holds(sl.e, files[i], contents[i])
    modifies objects0
    ensures Loaded(sl, contents, objects) && fresh(objects - objects0)
  {
    objects := objects0;
    assert contents[..0] == [];
    for i := 0 to |files|
      invariant Loaded(sl, contents[..i], objects) && fresh(objects - objects0)
    {
      PrefixGrows(contents, i);
      objects := OpenAndAdd(sl, files[i], contents[i], contents[..i], objects);
    }
    assert contents[..|files|] == contents;
  }

  // ---- and_results ----

  // The regular sets, of which `rest` has not been popped yet.
  ghost predicate RegsReady(e: Elements<U64>, regs: seq<OrderedSet<U64>>, rest: seq<seq<U64>>)
    reads regs
  {
    && |regs| == |rest|
    && (forall i :: 0 <= i < |regs| ==>
          regs[i].Valid() && regs[i].e == e && regs[i].mode == READ && regs[i].content == rest[i])
    && (forall i, j :: 0 <= i < j < |regs| ==> regs[i] != regs[j])
  }

  method PopReg(e: Elements<U64>, regs: seq<OrderedSet<U64>>, j: nat, ghost rest: seq<seq<U64>>)
    returns (r: Popped<U64>, ghost rest1: seq<seq<U64>>)
    requires RegsReady(e, regs, rest) && j < |regs|
    modifies regs[j]
    ensures RegsReady(e, regs, rest1)
    ensures rest[j] == [] ==> r == Empty && rest1 == rest
    ensures rest[j] != [] ==> r == Got(rest[j][0]) && rest1 == rest[j := rest[j][1..]]
  {
    r := regs[j].Pop();
    rest1 := rest[j := regs[j].content];
  }

  // The inverted set, or null when there is none or it has run out. What it still has to say
  // about offsets from `done` on is in `next` and in the set.
  ghost predicate InvReady(e: Elements<U64>, inv: OrderedSet?<U64>, next: U64, all: seq<U64>, done: nat)
    reads inv
  {
    if inv == null then forall v <- all :: v < done else
      && inv.Valid() && inv.e == e && inv.mode == READ && next in all
      && Increasing([next] + inv.content) && (forall v <- inv.content :: v in all)
      && (forall v <- all :: v >= done ==> v == next || v in inv.content)
  }

  // The next inverted offset, or null in place of the set when there is none.
  method NextInverted(e: Elements<U64>, inv: OrderedSet<U64>, next: U64, ghost all: seq<U64>, ghost done: nat)
    returns (inv1: OrderedSet?<U64>, next1: U64)
    requires InvReady(e, inv, next, all, done) && next < done
    modifies inv
    ensures InvReady(e, inv1, next1, all, done) && (inv1 == null ==> next1 == next) && (inv1 == null || inv1 == inv)
    ensures inv1 != null ==> |inv.content| < |old(inv.content)|
  {
    ghost var c := inv.content;
    var r := inv.Pop();
    if r.Empty? {
      assert c == [];
      return null, next;
    }
    assert ([next] + c)[1..] == c == [r.item] + inv.content;
    forall i, j | 0 <= i < j < |c| ensures c[i] < c[j] {
      assert ([next] + c)[i + 1] < ([next] + c)[j + 1];
    }
    inv1, next1 := inv, r.item;
  }

  // Whether `item` is inverted; smaller inverted offsets are dropped.
  method IsInverted(e: Elements<U64>, inv: OrderedSet?<U64>, next: U64, item: U64, ghost all: seq<U64>)
    returns (inv1: OrderedSet?<U64>, next1: U64, hit: bool)
    requires InvReady(e, inv, next, all, item)
    modifies inv
    ensures hit <==> item in all
    ensures InvReady(e, inv1, next1, all, item + 1) && (inv1 == null || inv1 == inv)
  {
    inv1, next1 := inv, next;
    if inv == null {
      hit := false;
    } else {
      while inv1 != null && next1 < item
        invariant InvReady(e, inv1, next1, all, item) && (inv1 == null || inv1 == inv)
        invariant inv1 == null ==> next1 < item
        decreases inv1 != null, if inv1 == null then 0 else |inv1.content|
      {
        inv1, next1 := NextInverted(e, inv1, next1, all, item);
      }
      hit := next1 == item;
      InvertedHere(inv1, next1, item, all);
    }
  }

  lemma InvertedHere(inv: OrderedSet?<U64>, next: U64, item: U64, all: seq<U64>)
    requires if inv == null then next < item && forall v <- all :: v < item else
      && item <= next && next in all && Increasing([next] + inv.content)
      && forall v <- all :: v >= item ==> v == next || v in inv.content
    ensures next == item <==> item in all
  {
    if inv != null {
      var both := [next] + inv.content;
      assert forall i :: 0 <= i < |inv.content| ==> inv.content[i] == both[i + 1] > both[0] == next;
    }
  }

  // What has been put out: the offsets below `done` that are in all regular sets and not
  // inverted.
  ghost predicate Decided(sets: seq<seq<U64>>, all: seq<U64>, r: seq<U64>, done: nat) {
    Increasing(r) && forall x: U64 :: x in r <==> x < done && InAll(sets, x) && x !in all
  }

  ghost predicate OutReady(e: Elements<U64>, output: OrderedSet<U64>, sets: seq<seq<U64>>, all: seq<U64>, done: nat)
    reads output
  {
    output.Valid() && output.mode == WRITE && output.e == e && Decided(sets, all, output.content, done)
  }

  lemma DecidedFurther(sets: seq<seq<U64>>, all: seq<U64>, r: seq<U64>, done: nat, done1: nat)
    requires Decided(sets, all, r, done) && done <= done1 && forall x :: done <= x < done1 ==> !InAll(sets, x)
    ensures Decided(sets, all, r, done1)
  {
  }

  lemma DecidedItem(sets: seq<seq<U64>>, all: seq<U64>, r: seq<U64>, item: U64)
    requires Decided(sets, all, r, item) && InAll(sets, item)
    ensures Decided(sets, all, if item in all then r else r + [item], item + 1)
  {
    var r1 := if item in all then r else r + [item];
    forall i, j | 0 <= i < j < |r1| ensures r1[i] < r1[j] {
      assert r1[i] == r[i] && r[i] in r;
    }
  }

  // When every regular set has the item it is put out unless it is inverted.
  method Deliver(e: Elements<U64>, inv: OrderedSet?<U64>, next: U64, output: OrderedSet<U64>, item: U64,
                 ghost sets: seq<seq<U64>>, ghost all: seq<U64>)
    returns (inv1: OrderedSet?<U64>, next1: U64)
    requires InvReady(e, inv, next, all, item) && OutReady(e, output, sets, all, item) && InAll(sets, item)
    requires inv != output
    modifies inv, output
    ensures InvReady(e, inv1, next1, all, item + 1) && OutReady(e, output, sets, all, item + 1)
    ensures inv1 == null || inv1 == inv
  {
    DecidedItem(sets, all, output.content, item);
    var hit;
    inv1, next1, hit := IsInverted(e, inv, next, item, all);
    if !hit {
      output.Push(item);
    }
  }

  // Pops the current set until it is empty or has an offset that is not below the item.
  method Seek(e: Elements<U64>, regs: seq<OrderedSet<U64>>, item: U64, curr: nat, ghost sets: seq<seq<U64>>,
              ghost s: Search)
    returns (r: Popped<U64>, ghost s1: Search, ghost rest: seq<seq<U64>>)
    requires OnTrack(sets, s) && RegsReady(e, regs, s.rest) && s.count < |regs| && s.item == item && s.curr == curr
    modifies regs
    ensures OnTrack(sets, s1) && RegsReady(e, regs, rest) && s1 == s.(rest := s1.rest)
    ensures if s1.rest[curr] == [] then r == Empty && rest == s1.rest else
      r == Got(s1.rest[curr][0]) && r.item >= item && rest == s1.rest[curr := s1.rest[curr][1..]]
    ensures |Flat(s1.rest)| <= |Flat(s.rest)|
  {
    s1 := s;
    r, rest := PopReg(e, regs, curr, s1.rest);
    while r.Got? && r.item < item
      invariant OnTrack(sets, s1) && RegsReady(e, regs, rest) && s1 == s.(rest := s1.rest)
      invariant if s1.rest[curr] == [] then r == Empty && rest == s1.rest else
        r == Got(s1.rest[curr][0]) && rest == s1.rest[curr := s1.rest[curr][1..]]
      invariant |Flat(s1.rest)| <= |Flat(s.rest)|
      decreases |s1.rest[curr]|
    {
      PassedOver(sets, s1);
      FlatShrinks(s1.rest, curr);
      s1 := s1.(rest := rest);
      r, rest := PopReg(e, regs, curr, s1.rest);
    }
  }

  // All that is left in the sets; its length bounds the work.
  ghost function Flat(rest: seq<seq<U64>>): seq<U64> {
    if rest == [] then [] else rest[0] + Flat(rest[1..])
  }

  lemma {:induction false} FlatShrinks(rest: seq<seq<U64>>, j: nat)
    requires j < |rest| && rest[j] != []
    ensures |Flat(rest[j := rest[j][1..]])| == |Flat(rest)| - 1
  {
    var rest1 := rest[j := rest[j][1..]];
    if j == 0 {
      assert rest1[1..] == rest[1..];
    } else {
      assert rest1[1..] == rest[1..][j - 1 := rest[j][1..]];
      FlatShrinks(rest[1..], j - 1);
    }
  }

  ghost predicate Leaping(e: Elements<U64>, regs: seq<OrderedSet<U64>>, inv: OrderedSet?<U64>, next: U64,
                          output: OrderedSet<U64>,
                          sets: seq<seq<U64>>, all: seq<U64>, s: Search)
    reads regs, inv, output
  {
    && OnTrack(sets, s) && RegsReady(e, regs, s.rest)
    && InvReady(e, inv, next, all, s.done) && OutReady(e, output, sets, all, s.done)
  }

  // The sets of a search are all different.
  ghost predicate Apart(regs: seq<OrderedSet<U64>>, inv: OrderedSet?<U64>, output: OrderedSet<U64>) {
    inv != output && inv !in regs && output !in regs
  }

  // The part of a round before the pop.
  method DeliverIfFound(e: Elements<U64>, regs: seq<OrderedSet<U64>>, inv: OrderedSet?<U64>, next: U64,
                        output: OrderedSet<U64>,
                        item: U64, count: nat, ghost sets: seq<seq<U64>>, ghost all: seq<U64>, ghost s: Search)
    returns (inv1: OrderedSet?<U64>, next1: U64, count1: nat, ghost s1: Search)
    requires Leaping(e, regs, inv, next, output, sets, all, s) && Apart(regs, inv, output)
    requires s.item == item && s.count == count
    modifies inv, output
    ensures Leaping(e, regs, inv1, next1, output, sets, all, s1) && (inv1 == null || inv1 == inv)
    ensures s1 == s.(count := count1, done := s1.done) && count1 < |regs|
  {
    inv1, next1, count1, s1 := inv, next, count, s;
    if count == |regs| {
      FoundInAll(sets, s);
      inv1, next1 := Deliver(e, inv, next, output, item, sets, all);
      count1 := 0;
      s1 := s.(count := 0, done := item + 1);
    }
  }

  // The part of a round with the pop; done with when a regular set has run out.
  method SeekNext(e: Elements<U64>, regs: seq<OrderedSet<U64>>, inv: OrderedSet?<U64>, next: U64,
                  output: OrderedSet<U64>,
                  item: U64, count: nat, curr: nat, ghost sets: seq<seq<U64>>, ghost all: seq<U64>, ghost s: Search)
    returns (more: bool, item1: U64, count1: nat, curr1: nat, ghost s1: Search)
    requires Leaping(e, regs, inv, next, output, sets, all, s) && Apart(regs, inv, output)
    requires s.item == item && s.count == count < |regs| && s.curr == curr
    modifies regs
    ensures !more ==> output.Valid() && output.mode == WRITE && output.e == e
    ensures !more ==> Increasing(output.content) &&
                      forall x: U64 :: x in output.content <==> InAll(sets, x) && x !in all
    ensures more ==> Leaping(e, regs, inv, next, output, sets, all, s1) && |Flat(s1.rest)| < |Flat(s.rest)|
    ensures more ==> s1.item == item1 && s1.count == count1 && s1.curr == curr1
  {
    var r;
    ghost var rest;
    r, s1, rest := Seek(e, regs, item, curr, sets, s);
    item1, count1, curr1 := item, count, curr;
    if r.Empty? {
      more := false;
      forall x: U64 | x >= s.done ensures !InAll(sets, x) {
        RunOut(sets, s1, x);
      }
    } else {
      more := true;
      AdvancedOnTrack(sets, s1);
      FlatShrinks(s1.rest, curr);
      DecidedFurther(sets, all, output.content, s.done, Advanced(s1).done);
      s1 := Advanced(s1);
      if r.item > item {
        item1, count1 := r.item, 0;
      }
      count1 := count1 + 1;
      curr1 := NextSet(curr, |regs|);
    }
  }

  // The loop of and_results.
  method Intersect(e: Elements<U64>, regs: seq<OrderedSet<U64>>, inv0: OrderedSet?<U64>, next0: U64,
                   output: OrderedSet<U64>,
                   ghost sets: seq<seq<U64>>, ghost all: seq<U64>)
    requires IsOffsets(e) && |regs| > 0 && RegsReady(e, regs, sets) &&
             forall i :: 0 <= i < |sets| ==> Increasing(sets[i])
    requires InvReady(e, inv0, next0, all, 0) && Apart(regs, inv0, output)
    requires output.Valid() && output.mode == WRITE && output.e == e && output.content == []
    modifies regs, inv0, output
    ensures output.Valid() && output.mode == WRITE && output.e == e
    ensures Increasing(output.content) && forall x: U64 :: x in output.content <==> InAll(sets, x) && x !in all
  {
    var inv, next := inv0, next0;
    var item: U64, count, curr := 0, 0, 0;
    ghost var s := Search(sets, 0, 0, 0, 0);
    StartOnTrack(sets);
    var more := true;
    while more
      invariant if more then
          && Leaping(e, regs, inv, next, output, sets, all, s)
          && s.item == item && s.count == count && s.curr == curr
        else
          && output.Valid() && output.mode == WRITE && output.e == e
          && Increasing(output.content) && forall x: U64 :: x in output.content <==> InAll(sets, x) && x !in all
      invariant inv == null || inv == inv0
      decreases more, |Flat(s.rest)|
    {
      inv, next, count, s := DeliverIfFound(e, regs, inv, next, output, item, count, sets, all, s);
      more, item, count, curr, s := SeekNext(e, regs, inv, next, output, item, count, curr, sets, all, s);
    }
  }

  // ---- The whole operation ----

  // The contents of the first n inputs that are inverted or that are not.
  ghost function Select(contents: seq<seq<U64>>, inverted: seq<bool>, want: bool, n: nat): (r: seq<seq<U64>>)
    requires n <= |contents| == |inverted|
    ensures |r| <= n
  {
    if n == 0 then []
    else Select(contents, inverted, want, n - 1) + if inverted[n - 1] == want then [contents[n - 1]] else []
  }

  // x is in exactly those of the first n inputs that are not inverted.
  ghost predicate Satisfies(contents: seq<seq<U64>>, inverted: seq<bool>, n: nat, x: U64)
    requires n <= |contents| == |inverted|
  {
    forall i :: 0 <= i < n ==> (x in contents[i] <==> !inverted[i])
  }

  lemma InOneMore(s: seq<seq<U64>>, c: seq<U64>, x: U64)
    ensures InAll(s + [c], x) <==> InAll(s, x) && x in c
    ensures InAny(s + [c], x) <==> InAny(s, x) || x in c
  {
    assert (s + [c])[|s|] == c && forall i :: 0 <= i < |s| ==> (s + [c])[i] == s[i];
  }

  lemma {:induction false} SelectedSatisfies(contents: seq<seq<U64>>, inverted: seq<bool>, n: nat, x: U64)
    requires n <= |contents| == |inverted|
    ensures Satisfies(contents, inverted, n, x) <==>
            InAll(Select(contents, inverted, false, n), x) && !InAny(Select(contents, inverted, true, n), x)
  {
    if n > 0 {
      SelectedSatisfies(contents, inverted, n - 1, x);
      var want := inverted[n - 1];
      InOneMore(Select(contents, inverted, want, n - 1), contents[n - 1], x);
      assert Select(contents, inverted, !want, n) == Select(contents, inverted, !want, n - 1);
      assert Satisfies(contents, inverted, n, x) <==>
             Satisfies(contents, inverted, n - 1, x) && (x in contents[n - 1] <==> !want);
    }
  }

  lemma {:induction false} SelectedIncreasing(contents: seq<seq<U64>>, inverted: seq<bool>, want: bool, n: nat)
    requires n <= |contents| == |inverted| && forall i :: 0 <= i < n ==> Increasing(contents[i])
    ensures forall c <- Select(contents, inverted, want, n) :: Increasing(c)
    ensures (exists i :: 0 <= i < n && inverted[i] == want) ==> Select(contents, inverted, want, n) != []
  {
    if n > 0 {
      SelectedIncreasing(contents, inverted, want, n - 1);
    }
  }

  // After i inputs: the regular ones in a row, the inverted ones in a skip list, all of them
  // among `objects`.
  ghost predicate Opened(sl: SkipList<U64>, regs: seq<OrderedSet<U64>>, contents: seq<seq<U64>>, inverted: seq<bool>,
                         i: nat,
                         objects: set<object>)
    requires i <= |contents| == |inverted|
    reads sl, sl.listed, sl.arrays, regs
  {
    exists o :: o == objects && OpenedIn(sl, regs, contents, inverted, i, o)
  }

  ghost predicate OpenedIn(sl: SkipList<U64>, regs: seq<OrderedSet<U64>>, contents: seq<seq<U64>>,
                           inverted: seq<bool>, i: nat,
                           objects: set<object>)
    requires i <= |contents| == |inverted|
    reads sl, sl.listed, sl.arrays, regs
  {
    forall n :: Folded(n) ==>
      && Loaded(sl, Select(contents, inverted, true, i), objects)
      && RegsReady(sl.e, regs, Select(contents, inverted, false, i))
  }

  lemma NoneOpened(sl: SkipList<U64>, contents: seq<seq<U64>>, inverted: seq<bool>, objects: set<object>)
    requires |contents| == |inverted| && Loaded(sl, [], objects)
    ensures Opened(sl, [], contents, inverted, 0, objects)
  {
    assert Select(contents, inverted, true, 0) == [];
    assert OpenedIn(sl, [], contents, inverted, 0, objects);
  }

  ghost predicate Beside(regs: seq<OrderedSet<U64>>, objects: set<object>, all: set<object>) {
    exists o :: o == objects && RegsApart(regs, o, all)
  }

  ghost predicate RegsApart(regs: seq<OrderedSet<U64>>, objects: set<object>, all: set<object>) {
    objects <= all && forall i :: 0 <= i < |regs| ==> regs[i] in all && regs[i] !in objects
  }

  lemma SelectNext(contents: seq<seq<U64>>, inverted: seq<bool>, i: nat)
    requires i < |contents| == |inverted|
    ensures inverted[i] ==>
      && Select(contents, inverted, true, i + 1) == Select(contents, inverted, true, i) + [contents[i]]
      && Select(contents, inverted, false, i + 1) == Select(contents, inverted, false, i)
    ensures !inverted[i] ==>
      && Select(contents, inverted, true, i + 1) == Select(contents, inverted, true, i)
      && Select(contents, inverted, false, i + 1) == Select(contents, inverted, false, i) + [contents[i]]
  {
  }

  lemma OneMoreReg(e: Elements<U64>, regs: seq<OrderedSet<U64>>, reg: seq<seq<U64>>, oset: OrderedSet<U64>)
    requires RegsReady(e, regs, reg) && oset !in regs && Usable(e, oset)
    ensures RegsReady(e, regs + [oset], reg + [oset.content])
  {
  }

  method OpenRegular(sl: SkipList<U64>, file: seq<Byte>, ghost content: seq<U64>, regs: seq<OrderedSet<U64>>,
                     ghost inv: seq<seq<U64>>, ghost reg: seq<seq<U64>>, ghost objects: set<object>,
                     ghost all: set<object>)
    returns (regs1: seq<OrderedSet<U64>>, ghost all1: set<object>)
    requires Loaded(sl, inv, objects) && RegsReady(sl.e, regs, reg) && RegsApart(regs, objects, all)
    requires IsOffsets(sl.e) && Holds(sl.e, file, content)
    ensures Loaded(sl, inv, objects) && RegsReady(sl.e, regs1, reg + [content]) && RegsApart(regs1, objects, all1)
    ensures fresh(all1 - all)
  {
    var oset := OpenFile(sl.e, file, content);
    assert oset !in regs && RegsReady(sl.e, regs, reg);
    OneMoreReg(sl.e, regs, reg, oset);
    regs1, all1 := regs + [oset], all + {oset};
  }

  // The files hold these contents.
  ghost predicate AllHold(e: Elements<U64>, files: seq<seq<Byte>>, contents: seq<seq<U64>>) {
    exists c :: c == contents && |files| == |c| && forall i :: 0 <= i < |files| ==> Holds(e, files[i], c[i])
  }

  method OpenNext(sl: SkipList<U64>, files: seq<seq<Byte>>, inverted: seq<bool>, i: nat, regs: seq<OrderedSet<U64>>,
                  ghost contents: seq<seq<U64>>, ghost objects: set<object>, ghost all: set<object>)
    returns (regs1: seq<OrderedSet<U64>>, ghost objects1: set<object>, ghost all1: set<object>)
    requires i < |contents| == |inverted| < 0x1_0000 && AllHold(sl.e, files, contents)
    requires Opened(sl, regs, contents, inverted, i, objects) && Beside(regs, objects, all)
    modifies objects
    ensures Opened(sl, regs1, contents, inverted, i + 1, objects1) && Beside(regs1, objects1, all1)
    ensures objects1 <= all1 && fresh(all1 - all)
  {
    assert Folded(0);
    SelectNext(contents, inverted, i);
    if inverted[i] {
      objects1 := OpenAndAdd(sl, files[i], contents[i], Select(contents, inverted, true, i), objects);
      regs1, all1 := regs, all + objects1;
    } else {
      regs1, all1 := OpenRegular(sl, files[i], contents[i], regs, Select(contents, inverted, true, i),
                                 Select(contents, inverted, false, i), objects, all);
      objects1 := objects;
    }
    assert OpenedIn(sl, regs1, contents, inverted, i + 1, objects1) && RegsApart(regs1, objects1, all1);
  }

  // The loop of and_results that opens the files.
  method OpenInputs(sl: SkipList<U64>, files: seq<seq<Byte>>, inverted: seq<bool>, ghost contents: seq<seq<U64>>,
                    ghost objects0: set<object>)
    returns (regs: seq<OrderedSet<U64>>, ghost objects: set<object>, ghost all: set<object>)
    requires |files| == |contents| == |inverted| < 0x1_0000 && AllHold(sl.e, files, contents)
    requires Opened(sl, [], contents, inverted, 0, objects0)
    modifies objects0
    ensures Opened(sl, regs, contents, inverted, |files|, objects) && Beside(regs, objects, all)
    ensures objects <= all && fresh(all - objects0)
  {
    regs, objects, all := [], objects0, objects0;
    assert RegsApart(regs, objects, all);
    for i := 0 to |files|
      invariant Opened(sl, regs, contents, inverted, i, objects) && Beside(regs, objects, all)
      invariant objects <= all && fresh(all - objects0)
    {
      regs, objects, all := OpenNext(sl, files, inverted, i, regs, contents, objects, all);
    }
  }

  // What is to be subtracted: nothing, the one inverted set as it is, or the union of several.
  method MakeInverted(sl: SkipList<U64>, ghost sets: seq<seq<U64>>) returns (inv: OrderedSet?<U64>, ghost all: seq<U64>)
    requires Filled(sl, sets) && forall c <- sets :: Increasing(c)
    modifies sl, sl.listed, sl.arrays
    ensures Increasing(all) && forall x: U64 :: x in all <==> InAny(sets, x)
    ensures inv == null ==> all == []
    ensures inv != null ==> inv.Valid() && inv.e == sl.e && inv.mode == READ && inv.content == all
    ensures inv != null ==> inv in old(sl.listed) || fresh(inv)
  {
    ghost var cs := ContentsOf(sl.listed);
    assert SameOffsets(cs, sets);
    inv, all := null, [];
    if sl.size == 1 {
      all := cs[0];
      inv := sl.Pop();
      sl.Remove();
      OneSet(cs);
    } else if sl.size > 1 {
      inv := new OrderedSet<U64>.Writable(sl.e, TMP_WRITE);
      UnionOffsets(sl, inv, sets);
      inv.ReadMode();
      all := inv.content;
    } else {
      assert cs == [];
    }
  }

  lemma OneSet(cs: seq<seq<U64>>)
    requires |cs| == 1
    ensures forall x: int :: InAny(cs, x) <==> x in cs[0]
  {
  }

  // The first inverted offset, if there is an inverted set that is not empty.
  method FirstInverted(e: Elements<U64>, inv: OrderedSet?<U64>, ghost all: seq<U64>)
    returns (inv1: OrderedSet?<U64>, next: U64)
    requires Increasing(all) && (inv == null ==> all == [])
    requires inv != null ==> inv.Valid() && inv.e == e && inv.mode == READ && inv.content == all
    modifies inv
    ensures InvReady(e, inv1, next, all, 0) && (inv1 == null || inv1 == inv)
  {
    inv1, next := inv, 0;
    if inv != null {
      var r := inv.Pop();
      if r.Empty? {
        inv1 := null;
      } else {
        next := r.item;
        assert all == [next] + inv.content;
      }
    }
  }

  // Opens the inputs and readies what is to be subtracted.
  method OpenSearch(e: Elements<U64>, files: seq<seq<Byte>>, inverted: seq<bool>, ghost contents: seq<seq<U64>>)
    returns (regs: seq<OrderedSet<U64>>, inv: OrderedSet?<U64>, next: U64, ghost all: seq<U64>)
    requires IsOffsets(e) && |files| == |inverted| == |contents| < 0x1_0000
    requires forall i :: 0 <= i < |files| ==> Holds(e, files[i], contents[i])
    ensures fresh(regs) && (inv == null || fresh(inv)) && inv !in regs
    ensures RegsReady(e, regs, Select(contents, inverted, false, |files|)) && InvReady(e, inv, next, all, 0)
    ensures forall x: U64 :: x in all <==> InAny(Select(contents, inverted, true, |files|), x)
  {
    var sl;
    ghost var objects, used;
    sl, objects := NewList(e);
    NoneOpened(sl, contents, inverted, objects);
    regs, objects, used := OpenInputs(sl, files, inverted, contents, objects);
    SelectedIncreasing(contents, inverted, true, |files|);
    inv, next, all := SetUpInverted(sl, regs, contents, inverted, objects, used);
  }

  method SetUpInverted(sl: SkipList<U64>, ghost regs: seq<OrderedSet<U64>>, ghost contents: seq<seq<U64>>,
                       ghost inverted: seq<bool>,
                       ghost objects: set<object>, ghost used: set<object>)
    returns (inv: OrderedSet?<U64>, next: U64, ghost all: seq<U64>)
    requires |contents| == |inverted| && Opened(sl, regs, contents, inverted, |contents|, objects) &&
             RegsApart(regs, objects, used)
    requires forall c <- Select(contents, inverted, true, |contents|) :: Increasing(c)
    modifies objects
    ensures RegsReady(sl.e, regs, Select(contents, inverted, false, |contents|))
    ensures forall x: U64 :: x in all <==> InAny(Select(contents, inverted, true, |contents|), x)
    ensures InvReady(sl.e, inv, next, all, 0)
    ensures inv != null ==> inv !in regs && (inv in objects || fresh(inv))
  {
    assert Folded(0);
    inv, all := MakeInverted(sl, Select(contents, inverted, true, |contents|));
    assert inv !in regs;
    inv, next := FirstInverted(sl.e, inv, all);
  }

  lemma {:induction false} NoneSelected(contents: seq<seq<U64>>, inverted: seq<bool>, n: nat)
    requires n <= |contents| == |inverted|
    ensures Select(contents, inverted, false, n) == [] <==> forall i :: 0 <= i < n ==> inverted[i]
  {
    if n > 0 {
      NoneSelected(contents, inverted, n - 1);
    }
  }

  lemma {:induction false} SelectedMeans(contents: seq<seq<U64>>, inverted: seq<bool>, all: seq<U64>, r: seq<U64>)
    requires |contents| == |inverted|
    requires forall x: U64 :: x in all <==> InAny(Select(contents, inverted, true, |contents|), x)
    requires forall x: U64 :: x in r <==> InAll(Select(contents, inverted, false, |contents|), x) && x !in all
    ensures forall x: U64 :: x in r <==> Satisfies(contents, inverted, |contents|, x)
  {
    forall x: U64 ensures x in r <==> Satisfies(contents, inverted, |contents|, x) {
      SelectedSatisfies(contents, inverted, |contents|, x);
    }
  }

  // ---- The check for a regular input ----

  // Where reg_sets_tail points: at reg_sets, or at the `next` field of the last regular set.
  datatype Tail = Null | AtHead | AtNext(i: nat)

  ghost function TailAfter(inverted: seq<bool>): Tail {
    if inverted == [] then AtHead
    else if inverted[|inverted| - 1] then TailAfter(inverted[..|inverted| - 1])
    else AtNext(|inverted| - 1)
  }

  // The pointer that the check as written looks at is never null. So the check gives the error it is
  // there for exactly if it need not: if there is a regular input. For inverted inputs alone it lets
  // and_results go on, to the first set of an empty list.
  lemma CheckRightIff(inverted: seq<bool>)
    ensures (TailAfter(inverted) == Null <==> forall i :: 0 <= i < |inverted| ==> inverted[i]) <==>
            exists i :: 0 <= i < |inverted| && !inverted[i]
  {
    NeverNull(inverted);
  }

  lemma {:induction false} NeverNull(inverted: seq<bool>)
    ensures TailAfter(inverted) != Null
    ensures TailAfter(inverted) == AtHead <==> forall i :: 0 <= i < |inverted| ==> inverted[i]
  {
    if inverted != [] {
      NeverNull(inverted[..|inverted| - 1]);
    }
  }

  // and_results: the offsets that are in all regular inputs and in none of the inverted ones, or
  // an error if there is no regular input.
  method AndResults(e: Elements<U64>, files: seq<seq<Byte>>, inverted: seq<bool>, ghost contents: seq<seq<U64>>)
    returns (ok: bool, out: seq<Byte>, ghost r: seq<U64>)
    requires IsOffsets(e) && |files| == |inverted| == |contents| < 0x1_0000
    requires forall i :: 0 <= i < |files| ==> Holds(e, files[i], contents[i])
    ensures ok <==> exists i :: 0 <= i < |files| && !inverted[i]
    ensures ok ==> Holds(e, out, r)
    ensures ok ==> forall x: U64 :: x in r <==> Satisfies(contents, inverted, |files|, x)
  {
    var output := new OrderedSet<U64>.Writable(e, WRITE);
    SelectedIncreasing(contents, inverted, false, |files|);
    var regs, inv, next;
    ghost var all;
    regs, inv, next, all := OpenSearch(e, files, inverted, contents);
    ghost var sets := Select(contents, inverted, false, |files|);
    NoneSelected(contents, inverted, |files|);
    ok := |regs| > 0;
    if !ok {
      return false, [], [];
    }
    Intersect(e, regs, inv, next, output, sets, all);
    r := output.content;
    SelectedMeans(contents, inverted, all, r);
    out := Cleanup(output);
  }
}

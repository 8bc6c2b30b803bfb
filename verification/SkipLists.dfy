// The deterministic skip list that orders a union's inputs by their next elements
// (indexer/search/ordered_set.c).

module SkipLists {
  import opened Bits
  import opened Items
  import opened OrderedSets
  import opened SkipLinks
  import opened SkipStates

  // The number of binary digits.
  function BitLength(n: nat): nat {
    if n == 0 then 0 else 1 + BitLength(n / 2)
  }

  lemma {:induction false} BitLengthBounds(n: nat, k: nat)
    ensures n < Pow2(k) <==> BitLength(n) <= k
    decreases n
  {
    if n > 0 && k > 0 {
      BitLengthBounds(n / 2, k - 1);
    }
  }

  // The array of links is never overrun exactly while there are fewer than 65536 sets.
  lemma LevelsFitIff(size: nat)
    ensures BitLength(size) <= MAX_SKIP_LIST_LEVELS <==> size < 0x1_0000
  {
    Pow2Values();
    BitLengthBounds(size, MAX_SKIP_LIST_LEVELS);
  }

  lemma {:induction false} BitLengthGrows(a: nat, b: nat)
    requires a <= b
    ensures BitLength(a) <= BitLength(b)
  {
    if a > 0 {
      BitLengthGrows(a / 2, b / 2);
    }
  }

  class SkipList<T(!new)> {
    const e: Elements<T>
    const skip: array<OrderedSet?<T>>
    var itemsInserted: nat
    var size: nat
    var maxLevel: nat
    // The sets in the list, how many levels of links each has, and these links.
    ghost var listed: seq<OrderedSet<T>>
    ghost var heights: seq<nat>
    ghost var arrays: seq<array<OrderedSet?<T>>>
    ghost var links: seq<seq<OrderedSet?<T>>>

    // `out` sets have been popped and not been put back.
    ghost predicate Sized(out: nat)
      reads this
    {
      size == |listed| + out && maxLevel == BitLength(size) <= MAX_SKIP_LIST_LEVELS
      && |arrays| > 0 && arrays[0] == skip
    }

    // The sets in the list are in order and k levels of links are too.
    ghost predicate LinkedTo(k: nat)
      reads this, listed, arrays
    {
      Sound(e, arrays, listed, heights, links, k)
    }

    // os_slist_init.
    constructor (e: Elements<T>)
      ensures Sized(0) && LinkedTo(MAX_SKIP_LIST_LEVELS) && this.e == e && listed == [] && fresh(skip)
    {
      this.e := e;
      skip := new OrderedSet?<T>[MAX_SKIP_LIST_LEVELS](_ => null);
      itemsInserted, size, maxLevel := 0, 0, 0;
      listed, heights := [], [];
      new;
      arrays, links := [skip], [skip[..]];
    }

    method Recount()
      modifies this`maxLevel
      ensures maxLevel == BitLength(size)
    {
      var items := size;
      maxLevel := 0;
      while items > 0
        invariant maxLevel + BitLength(items) == BitLength(size)
      {
        items := items / 2;
        maxLevel := maxLevel + 1;
      }
    }

    // How many levels of links a new node gets: one every 2^l nodes inserted has links at
    // level l.
    method PickLevels(oset: OrderedSet<T>)
      requires 1 <= maxLevel <= MAX_SKIP_LIST_LEVELS == oset.skip.Length
      modifies oset.skip, oset`skipLevels, this`itemsInserted
      ensures 1 <= oset.skipLevels <= maxLevel
      ensures forall l :: 0 <= l < oset.skipLevels ==> old(itemsInserted) % Pow2(l) == 0
      ensures oset.skipLevels < maxLevel ==> old(itemsInserted) % Pow2(oset.skipLevels) != 0
      ensures itemsInserted == old(itemsInserted) + 1
    {
      var lvl := 0;
      oset.skipLevels := 0;
      while lvl < maxLevel && itemsInserted % Pow2(lvl) == 0
        invariant lvl <= maxLevel && itemsInserted == old(itemsInserted)
        invariant forall l :: 0 <= l < lvl ==> itemsInserted % Pow2(l) == 0
      {
        oset.skip[lvl] := null;
        lvl := lvl + 1;
      }
      assert Pow2(0) == 1 && itemsInserted % 1 == 0;
      oset.skipLevels := lvl;
      itemsInserted := itemsInserted + 1;
    }

    // A walk that is to put oset in place `at`, at level lvl of k.
    ghost predicate Walking(oset: OrderedSet<T>, at: nat, lvl: int, k: nat)
      reads this, listed, arrays, oset, oset.skip
    {
      && Tied(arrays, listed, heights, links) && oset !in listed && oset.skip !in arrays
      && HalfInserted(links, oset.skip[..], listed, null, heights, lvl, k, oset, oset.skipLevels, at)
    }

    // Links oset in behind row p if it has links at this level.
    method LinkHere(oset: OrderedSet<T>, prior: array<OrderedSet?<T>>, next: OrderedSet?<T>, lvl: nat,
                    ghost p: nat, ghost at: nat, ghost k: nat)
      requires Walking(oset, at, lvl, k) && StandsOn(arrays, heights, prior, p, lvl)
      requires p <= at <= Next(heights, p, lvl) && next == links[p][lvl]
      modifies this`links, arrays, oset.skip
      ensures Walking(oset, at, lvl - 1, k) && unchanged(listed)
    {
      ghost var rows, own := links, oset.skip[..];
      if oset.skipLevels > lvl {
        Relink(oset, prior, next, lvl, p);
      }
      DescendLevel(rows, own, listed, null, heights, lvl, k, oset, oset.skipLevels, at, p, links, oset.skip[..]);
    }

    method Relink(oset: OrderedSet<T>, prior: array<OrderedSet?<T>>, next: OrderedSet?<T>, lvl: nat, ghost p: nat)
      requires Tied(arrays, listed, heights, links) && oset.skip !in arrays && p < |arrays| && prior == arrays[p]
      requires lvl < MAX_SKIP_LIST_LEVELS == oset.skip.Length
      modifies this`links, arrays, oset.skip
      ensures Tied(arrays, listed, heights, links) && unchanged(listed)
      ensures oset.skip[..] == old(oset.skip[..])[lvl := next]
      ensures links == old(links)[p := old(links)[p][lvl := oset]]
    {
      prior[lvl] := oset;
      oset.skip[lvl] := next;
      links := links[p := links[p][lvl := oset]];
    }

    // Where the walk could go next at level lvl, and whether an element of rank v goes past
    // it. Peeking at a listed set reads nothing, because its next element is in its buffer.
    lemma Ahead(oset: OrderedSet<T>, v: nat, prior: array<OrderedSet?<T>>, lvl: nat, p: nat, at: nat, k: nat)
      requires Walking(oset, at, lvl, k) && StandsOn(arrays, heights, prior, p, lvl) && p <= at
      requires Ready(e, listed) && IsPlace(e, listed, v, at)
      ensures prior.Length == MAX_SKIP_LIST_LEVELS && lvl < MAX_SKIP_LIST_LEVELS
      ensures prior[lvl] == links[p][lvl]
      ensures var n, next := Next(heights, p, lvl), prior[lvl];
        if next == null then n == |listed| else
          && Usable(e, next) && next.currItem < next.bufferItems
          && StandsOn(arrays, heights, next.skip, n + 1, lvl)
          && (v >= e.rank(next.Current()) <==> n < at)
    {
      assert prior == arrays[p] && prior[..] == links[p];
      assert Linked(links, listed, null, heights, lvl);
      assert prior[lvl] == At(listed, null, Next(heights, p, lvl));
    }

    // One step of the walk: past the next element if it is no larger, otherwise a level down.
    method WalkStep(oset: OrderedSet<T>, v: nat, prior: array<OrderedSet?<T>>, lvl: nat,
                    ghost p: nat, ghost at: nat, ghost k: nat)
      returns (prior1: array<OrderedSet?<T>>, lvl1: int, ghost p1: nat)
      requires Walking(oset, at, lvl, k) && StandsOn(arrays, heights, prior, p, lvl) && p <= at
      requires Ready(e, listed) && IsPlace(e, listed, v, at)
      modifies this`links, arrays, oset.skip
      ensures Walking(oset, at, lvl1, k) && StandsOn(arrays, heights, prior1, p1, lvl1) && p1 <= at
      ensures (lvl1 == lvl && p1 > p) || lvl1 == lvl - 1
      ensures unchanged(listed)
    {
      Ahead(oset, v, prior, lvl, p, at, k);
      var next := prior[lvl];
      if next != null && v >= e.rank(next.Current()) {
        prior1, lvl1, p1 := next.skip, lvl, Next(heights, p, lvl) + 1;
      } else {
        LinkHere(oset, prior, next, lvl, p, at, k);
        prior1, lvl1, p1 := prior, lvl - 1, p;
      }
    }

    // The walk that links oset in: at each level as far as there are elements no larger,
    // then a level down.
    method Place(oset: OrderedSet<T>, v: nat, ghost at: nat, ghost k: nat)
      requires Ready(e, listed) && IsPlace(e, listed, v, at) && maxLevel > 0
      requires Walking(oset, at, maxLevel - 1, k) && arrays[0] == skip
      modifies this`links, arrays, oset.skip
      ensures unchanged(listed) && Walking(oset, at, -1, k)
    {
      var lvl: int := maxLevel - 1;
      var prior := skip;
      ghost var p: nat := 0;
      while lvl >= 0
        invariant Walking(oset, at, lvl, k) && StandsOn(arrays, heights, prior, p, lvl) && p <= at
        invariant unchanged(listed)
        decreases lvl + 1, |listed| - p
      {
        prior, lvl, p := WalkStep(oset, v, prior, lvl, p, at, k);
      }
    }

    // os_slist_remove: a set is gone for good.
    method Remove()
      requires Sized(1)
      modifies this`size, this`maxLevel
      ensures Sized(0) && size == old(size) - 1 && maxLevel <= old(maxLevel)
    {
      size := size - 1;
      Recount();
      BitLengthGrows(size, size + 1);
    }

    // A set that is not in the list and can be put into it.
    ghost predicate Loose(oset: OrderedSet<T>)
      reads this, oset
    {
      Usable(e, oset) && oset !in listed && oset.skip !in arrays && oset.skip.Length == MAX_SKIP_LIST_LEVELS
    }

    // Links oset in at its place at every level.
    method LinkIn(oset: OrderedSet<T>, v: nat, ghost k: nat) returns (ghost at: nat)
      requires LinkedTo(k) && Loose(oset) && arrays[0] == skip
      requires 1 <= maxLevel <= k && oset.skipLevels <= maxLevel
      modifies this`links, arrays, oset.skip
      ensures unchanged(listed) && Walking(oset, at, -1, k) && IsPlace(e, listed, v, at)
    {
      at := PlaceExists(e, listed, v, |listed|);
      HighLevelsDone(links, oset.skip[..], listed, null, heights, maxLevel, k, oset, oset.skipLevels, at);
      Place(oset, v, at, k);
    }

    // The list is now the one with oset in it.
    ghost method Record(oset: OrderedSet<T>, at: nat, k: nat)
      requires Walking(oset, at, -1, k) && Ready(e, listed) && InOrder(e, listed) && oset.skipLevels >= 1
      requires Usable(e, oset) && oset.content != [] && oset.currItem < oset.bufferItems
      requires IsPlace(e, listed, e.rank(oset.content[0]), at)
      modifies this`listed, this`heights, this`arrays, this`links
      ensures LinkedTo(k)
      ensures listed == Inserted(old(listed), at, oset) && arrays == Inserted(old(arrays), at + 1, oset.skip)
    {
      InsertedSound(e, arrays, listed, heights, links, oset, at, k);
      listed, heights, arrays, links := Inserted(listed, at, oset), Inserted(heights, at, oset.skipLevels),
        Inserted(arrays, at + 1, oset.skip), RowsWith(links, at, oset.skip[..]);
    }

    // Levels for oset, and a look at its next element.
    method Prepare(oset: OrderedSet<T>, ghost k: nat) returns (r: Popped<T>)
      requires Sized(1) && LinkedTo(k) && Loose(oset)
      modifies this`itemsInserted, oset, oset.skip
      ensures Sized(1) && LinkedTo(k) && Loose(oset) && unchanged(listed)
      ensures oset.content == old(oset.content) && 1 <= oset.skipLevels <= maxLevel
      ensures r == if oset.content == [] then Empty else Got(oset.content[0])
      ensures oset.content != [] ==> oset.currItem < oset.bufferItems
    {
      PickLevels(oset);
      r := oset.Peek();
    }

    method Insert(oset: OrderedSet<T>, v: nat, ghost k: nat) returns (ghost at: nat)
      requires Sized(1) && LinkedTo(k) && Loose(oset) && oset.content != [] && v == e.rank(oset.content[0])
      requires oset.currItem < oset.bufferItems && 1 <= oset.skipLevels <= maxLevel <= k
      modifies this`listed, this`heights, this`arrays, this`links, arrays, oset.skip
      ensures Sized(0) && LinkedTo(k) && unchanged(old(listed)) && unchanged(oset)
      ensures IsPlace(e, old(listed), v, at)
      ensures listed == Inserted(old(listed), at, oset) && arrays == Inserted(old(arrays), at + 1, oset.skip)
    {
      at := LinkIn(oset, v, k);
      Record(oset, at, k);
    }

    // os_slist_reinsert: puts oset back behind all sets whose next element is no larger, or
    // drops it if it is empty. k levels of links are in order and stay so.
    method Reinsert(oset: OrderedSet<T>, ghost k: nat) returns (ghost at: nat)
      requires Sized(1) && LinkedTo(k) && maxLevel <= k && Loose(oset)
      modifies this, arrays, oset, oset.skip
      ensures Sized(0) && LinkedTo(k) && maxLevel <= old(maxLevel)
      ensures oset.content == old(oset.content) && unchanged(old(listed))
      ensures oset.content == [] ==> listed == old(listed) && arrays == old(arrays)
      ensures oset.content != [] ==>
        && IsPlace(e, old(listed), e.rank(oset.content[0]), at) && size == old(size)
        && listed == Inserted(old(listed), at, oset) && arrays == Inserted(old(arrays), at + 1, oset.skip)
    {
      var r := Prepare(oset, k);
      if r.Empty? {
        Remove();
        at := 0;
      } else {
        at := Insert(oset, e.rank(r.item), k);
      }
    }

    // os_slist_add: a set that has not been in the list. All levels of links are in order
    // while sets are only added.
    method Add(oset: OrderedSet<T>) returns (ghost at: nat)
      requires Sized(0) && LinkedTo(MAX_SKIP_LIST_LEVELS) && Loose(oset) && size + 1 < 0x1_0000
      modifies this, arrays, oset, oset.skip
      ensures Sized(0) && LinkedTo(MAX_SKIP_LIST_LEVELS)
      ensures oset.content == old(oset.content) && unchanged(old(listed))
      ensures oset.content == [] ==> listed == old(listed) && arrays == old(arrays)
      ensures oset.content != [] ==>
        && IsPlace(e, old(listed), e.rank(oset.content[0]), at)
        && listed == Inserted(old(listed), at, oset) && arrays == Inserted(old(arrays), at + 1, oset.skip)
    {
      size := size + 1;
      Recount();
      LevelsFitIff(size);
      at := Reinsert(oset, MAX_SKIP_LIST_LEVELS);
    }

    // The levels whose links have to be in order: those in use, and the lowest.
    ghost function Top(): nat
      reads this
    {
      if maxLevel == 0 then 1 else maxLevel
    }

    // The head takes over the links of the first set, at the levels that it has.
    method Unlink(oset: OrderedSet<T>)
      requires Sized(0) && LinkedTo(maxLevel) && |listed| > 0 && oset == listed[0]
      modifies skip
      ensures unchanged(listed) && Tied(arrays, listed, heights, [skip[..]] + links[1..])
      ensures forall l :: 0 <= l < maxLevel ==>
        skip[l] == if l < heights[0] then links[1][l] else links[0][l]
    {
      var lvl := 0;
      while lvl < maxLevel && lvl < oset.skipLevels
        invariant lvl <= maxLevel && lvl <= heights[0]
        invariant skip != oset.skip && oset.skip[..] == links[1]
        invariant forall l :: 0 <= l < MAX_SKIP_LIST_LEVELS ==>
          skip[l] == if l < lvl then links[1][l] else links[0][l]
      {
        assert Linked(links, listed, null, heights, lvl) && Next(heights, 0, lvl) == 0;
        if skip[lvl] != oset {
          break;
        }
        skip[lvl] := oset.skip[lvl];
        lvl := lvl + 1;
      }
    }

    lemma First()
      requires Sized(0) && LinkedTo(Top())
      ensures skip.Length == MAX_SKIP_LIST_LEVELS && skip[0] == if listed == [] then null else listed[0]
      ensures listed != [] ==> Top() == maxLevel
    {
      assert Linked(links, listed, null, heights, 0) && skip[..] == links[0];
      assert skip[0] == skip[..][0];
      assert listed != [] ==> Next(heights, 0, 0) == 0;
    }

    method TakeFirst(oset: OrderedSet<T>)
      requires Sized(0) && LinkedTo(maxLevel) && listed != [] && oset == listed[0]
      modifies this`listed, this`heights, this`arrays, this`links, skip
      ensures Sized(1) && LinkedTo(maxLevel) && Loose(oset) && unchanged(old(listed))
      ensures listed == old(listed)[1..] && arrays == [skip] + old(arrays)[2..]
    {
      Unlink(oset);
      FirstRemovedTied(arrays, listed, heights, links, skip[..]);
      FirstRemovedSound(e, arrays, listed, heights, links, maxLevel, skip[..]);
      listed, heights, arrays, links := listed[1..], heights[1..], [skip] + arrays[2..], [skip[..]] + links[2..];
    }

    // os_slist_pop: the set whose next element is the smallest, if there is one.
    method Pop() returns (oset: OrderedSet?<T>)
      requires Sized(0) && LinkedTo(Top())
      modifies this`listed, this`heights, this`arrays, this`links, skip
      ensures unchanged(old(listed))
      ensures oset == null <==> old(listed) == []
      ensures oset == null ==> Sized(0) && LinkedTo(Top()) && listed == old(listed) && arrays == old(arrays)
      ensures oset != null ==>
        && Sized(1) && LinkedTo(maxLevel) && Loose(oset)
        && oset == old(listed)[0] && listed == old(listed)[1..] && arrays == [skip] + old(arrays)[2..]
    {
      First();
      oset := skip[0];
      if oset != null {
        TakeFirst(oset);
      }
    }
  }
}

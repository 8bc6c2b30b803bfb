// What holds of the nodes of a skip list (indexer/search/ordered_set.c).

module SkipStates {
  import opened Items
  import opened OrderedSets
  import opened SkipLinks

  ghost predicate Ascending<T>(e: Elements<T>, s: seq<T>) {
    |s| <= 1 || (e.rank(s[0]) <= e.rank(s[1]) && Ascending(e, s[1..]))
  }

  lemma {:induction false} AscendingPairs<T>(e: Elements<T>, s: seq<T>, i: nat, j: nat)
    requires i <= j < |s|
    ensures Ascending(e, s) ==> e.rank(s[i]) <= e.rank(s[j])
  {
    if 0 < i {
      AscendingPairs(e, s[1..], i - 1, j - 1);
    } else if 0 < j {
      AscendingPairs(e, s[1..], 0, j - 1);
    }
  }

  // An element at the end.
  lemma {:induction false} AscendingAppend<T>(e: Elements<T>, s: seq<T>, x: T)
    ensures Ascending(e, s + [x]) <==> Ascending(e, s) && (s != [] ==> e.rank(s[|s| - 1]) <= e.rank(x))
  {
    if |s| > 1 {
      AscendingAppend(e, s[1..], x);
      assert (s + [x])[1..] == s[1..] + [x];
    }
  }

  // The arrays of links of the head and of the nodes, what they hold, and how much of it counts.
  ghost predicate Tied<T(!new)>(
      arrays: seq<array<OrderedSet?<T>>>, listed: seq<OrderedSet<T>>, heights: seq<nat>,
      links: seq<seq<OrderedSet?<T>>>)
    reads arrays, listed
  {
    && |heights| == |listed| && |links| == |arrays| == |listed| + 1
    && (forall i :: 0 <= i < |listed| ==> listed[i].skip == arrays[i + 1] && listed[i].skipLevels == heights[i] >= 1)
    && (forall i :: 0 <= i < |arrays| ==> arrays[i].Length == MAX_SKIP_LIST_LEVELS && arrays[i][..] == links[i])
    && (forall i, j :: 0 <= i < j < |arrays| ==> arrays[i] != arrays[j])
  }

  // The links of the levels below k are in order.
  ghost predicate LinkedBelow<N>(links: seq<seq<N>>, listed: seq<N>, nil: N, heights: seq<nat>, k: nat) {
    && |heights| == |listed| && |links| == |listed| + 1 && k <= MAX_SKIP_LIST_LEVELS
    && Rows(links)
    && forall l :: 0 <= l < k ==> Linked(links, listed, nil, heights, l)
  }

  ghost predicate Usable<T(!new)>(e: Elements<T>, o: OrderedSet<T>)
    reads o
  {
    o.Valid() && o.e == e && o.mode == READ && Ascending(e, o.content)
  }

  // Every set in the list has its next element at hand.
  ghost predicate Ready<T(!new)>(e: Elements<T>, listed: seq<OrderedSet<T>>)
    reads listed
  {
    forall i :: 0 <= i < |listed| ==>
      Usable(e, listed[i]) && listed[i].content != [] && listed[i].currItem < listed[i].bufferItems
  }

  // The rank of a set's next element.
  ghost function Lead<T(!new)>(e: Elements<T>, o: OrderedSet<T>): nat
    reads o
  {
    if o.content == [] then 0 else e.rank(o.content[0])
  }

  ghost predicate Before(i: int, j: int) { i < j }

  // The sets are in the order of their next elements.
  ghost predicate InOrder<T(!new)>(e: Elements<T>, listed: seq<OrderedSet<T>>)
    reads listed
  {
    && (forall i :: 0 <= i < |listed| ==> listed[i].content != [])
    && (forall i, j {:trigger Before(i, j)} :: Before(i, j) && 0 <= i && j < |listed| ==>
          Lead(e, listed[i]) <= Lead(e, listed[j]))
  }

  // Elements before place `at` are no larger than v, those from there on are.
  ghost predicate IsPlace<T(!new)>(e: Elements<T>, listed: seq<OrderedSet<T>>, v: nat, at: nat)
    reads listed
  {
    && at <= |listed|
    && (forall i :: 0 <= i < |listed| ==> listed[i].content != [])
    && (forall i :: 0 <= i < at ==> Lead(e, listed[i]) <= v)
    && (forall i :: at <= i < |listed| ==> Lead(e, listed[i]) > v)
  }

  lemma {:induction false} PlaceExists<T(!new)>(e: Elements<T>, listed: seq<OrderedSet<T>>, v: nat, n: nat)
    returns (at: nat)
    requires InOrder(e, listed) && n <= |listed| && forall i :: n <= i < |listed| ==> Lead(e, listed[i]) > v
    ensures IsPlace(e, listed, v, at)
    decreases n
  {
    if n == 0 || Lead(e, listed[n - 1]) <= v {
      at := n;
      forall i | 0 <= i < n ensures Lead(e, listed[i]) <= v {
        assert i < n - 1 ==> Before(i, n - 1);
      }
    } else {
      at := PlaceExists(e, listed, v, n - 1);
    }
  }

  // The walk stands on row p, which has links at level lvl.
  ghost predicate StandsOn<N>(rows: seq<N>, heights: seq<nat>, prior: N, p: nat, lvl: int) {
    p < |rows| == |heights| + 1 && prior == rows[p] && (p == 0 || heights[p - 1] > lvl)
  }

  lemma InsertedTied<T(!new)>(
      arrays: seq<array<OrderedSet?<T>>>, listed: seq<OrderedSet<T>>, heights: seq<nat>,
      links: seq<seq<OrderedSet?<T>>>,
      oset: OrderedSet<T>, at: nat)
    requires Tied(arrays, listed, heights, links) && at <= |listed| && oset.skip !in arrays
    requires oset.skip.Length == MAX_SKIP_LIST_LEVELS && oset.skipLevels >= 1
    ensures Tied(Inserted(arrays, at + 1, oset.skip), Inserted(listed, at, oset),
                 Inserted(heights, at, oset.skipLevels),
                 RowsWith(links, at, oset.skip[..]))
  {
  }

  lemma InsertedReady<T(!new)>(e: Elements<T>, listed: seq<OrderedSet<T>>, oset: OrderedSet<T>, at: nat)
    requires Ready(e, listed) && Usable(e, oset) && oset.content != [] && oset.currItem < oset.bufferItems
    requires at <= |listed|
    ensures Ready(e, Inserted(listed, at, oset))
  {
  }

  lemma InsertedInOrder<T(!new)>(e: Elements<T>, listed: seq<OrderedSet<T>>, oset: OrderedSet<T>, at: nat)
    requires InOrder(e, listed) && oset.content != [] && IsPlace(e, listed, e.rank(oset.content[0]), at)
    ensures InOrder(e, Inserted(listed, at, oset))
  {
    var more := Inserted(listed, at, oset);
    forall i, j | Before(i, j) && 0 <= i && j < |more|
      ensures Lead(e, more[i]) <= Lead(e, more[j])
    {
      assert i != at && j != at ==> Before(if i < at then i else i - 1, if j < at then j else j - 1);
    }
  }

  lemma InsertedLinked<N>(
      links: seq<seq<N>>, own: seq<N>, listed: seq<N>, nil: N, heights: seq<nat>, k: nat, x: N, h: nat, at: nat)
    requires HalfInserted(links, own, listed, nil, heights, -1, k, x, h, at)
    ensures LinkedBelow(RowsWith(links, at, own), Inserted(listed, at, x), nil, Inserted(heights, at, h), k)
  {
  }

  // The list as a whole, with k levels of links in order.
  ghost predicate Sound<T(!new)>(
      e: Elements<T>, arrays: seq<array<OrderedSet?<T>>>, listed: seq<OrderedSet<T>>, heights: seq<nat>,
      links: seq<seq<OrderedSet?<T>>>, k: nat)
    reads arrays, listed
  {
    && Tied(arrays, listed, heights, links) && Ready(e, listed) && InOrder(e, listed)
    && LinkedBelow(links, listed, null, heights, k)
  }

  lemma InsertedSound<T(!new)>(
      e: Elements<T>, arrays: seq<array<OrderedSet?<T>>>, listed: seq<OrderedSet<T>>, heights: seq<nat>,
      links: seq<seq<OrderedSet?<T>>>, oset: OrderedSet<T>, at: nat, k: nat)
    requires Tied(arrays, listed, heights, links) && Ready(e, listed) && InOrder(e, listed)
    requires oset.skip !in arrays && oset.skip.Length == MAX_SKIP_LIST_LEVELS && oset.skipLevels >= 1
    requires HalfInserted(links, oset.skip[..], listed, null, heights, -1, k, oset, oset.skipLevels, at)
    requires Usable(e, oset) && oset.content != [] && oset.currItem < oset.bufferItems
    requires IsPlace(e, listed, e.rank(oset.content[0]), at)
    ensures Sound(e, Inserted(arrays, at + 1, oset.skip), Inserted(listed, at, oset),
                  Inserted(heights, at, oset.skipLevels),
                  RowsWith(links, at, oset.skip[..]), k)
  {
    InsertedTied(arrays, listed, heights, links, oset, at);
    InsertedReady(e, listed, oset, at);
    InsertedInOrder(e, listed, oset, at);
    InsertedLinked(links, oset.skip[..], listed, null, heights, k, oset, oset.skipLevels, at);
  }

  // Taking the first set off, once the head has its links at the levels it has.
  lemma FirstRemovedLinked<N>(links: seq<seq<N>>, listed: seq<N>, nil: N, heights: seq<nat>, k: nat, head: seq<N>)
    requires |listed| > 0 && LinkedBelow(links, listed, nil, heights, k) && |head| == MAX_SKIP_LIST_LEVELS
    requires forall l :: 0 <= l < k ==> head[l] == if l < heights[0] then links[1][l] else links[0][l]
    ensures LinkedBelow([head] + links[2..], listed[1..], nil, heights[1..], k)
  {
    forall l | 0 <= l < k
      ensures Linked([head] + links[2..], listed[1..], nil, heights[1..], l)
    {
      FirstRemoved(links, listed, nil, heights, l, head);
    }
  }

  lemma FirstRemovedTied<T(!new)>(
      arrays: seq<array<OrderedSet?<T>>>, listed: seq<OrderedSet<T>>, heights: seq<nat>,
      links: seq<seq<OrderedSet?<T>>>, head: seq<OrderedSet?<T>>)
    requires |listed| > 0 && |links| == |listed| + 1 && Tied(arrays, listed, heights, [head] + links[1..])
    ensures Tied([arrays[0]] + arrays[2..], listed[1..], heights[1..], [head] + links[2..])
    ensures listed[0] !in listed[1..] && listed[0].skip !in [arrays[0]] + arrays[2..]
    ensures listed[0].skip.Length == MAX_SKIP_LIST_LEVELS
  {
    assert forall i :: 0 <= i < |links| ==> ([head] + links[1..])[i] == if i == 0 then head else links[i];
    assert forall i :: 0 <= i < |links| - 1 ==> ([head] + links[2..])[i] == if i == 0 then head else links[i + 1];
    assert forall i :: 0 <= i < |arrays| - 1 ==>
                       ([arrays[0]] + arrays[2..])[i] == if i == 0 then arrays[0] else arrays[i + 1];
  }

  lemma FirstRemovedInOrder<T(!new)>(e: Elements<T>, listed: seq<OrderedSet<T>>)
    requires InOrder(e, listed) && listed != []
    ensures InOrder(e, listed[1..])
  {
    forall i, j | Before(i, j) && 0 <= i && j < |listed| - 1
      ensures Lead(e, listed[1..][i]) <= Lead(e, listed[1..][j])
    {
      assert Before(i + 1, j + 1);
    }
  }

  lemma FirstRemovedSound<T(!new)>(
      e: Elements<T>, arrays: seq<array<OrderedSet?<T>>>, listed: seq<OrderedSet<T>>, heights: seq<nat>,
      links: seq<seq<OrderedSet?<T>>>, k: nat, head: seq<OrderedSet?<T>>)
    requires |listed| > 0 && |links| == |listed| + 1 && Tied(arrays, listed, heights, [head] + links[1..])
    requires Ready(e, listed) && InOrder(e, listed) && LinkedBelow(links, listed, null, heights, k)
    requires |head| == MAX_SKIP_LIST_LEVELS
    requires forall l :: 0 <= l < k ==> head[l] == if l < heights[0] then links[1][l] else links[0][l]
    ensures Sound(e, [arrays[0]] + arrays[2..], listed[1..], heights[1..], [head] + links[2..], k)
  {
    FirstRemovedTied(arrays, listed, heights, links, head);
    FirstRemovedLinked(links, listed, null, heights, k, head);
    FirstRemovedInOrder(e, listed);
  }
}

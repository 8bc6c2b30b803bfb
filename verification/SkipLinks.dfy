// The links of a skip list, as rows of pointers (indexer/search/ordered_set.c).

module SkipLinks {

  const MAX_SKIP_LIST_LEVELS: nat := 16

  // Row 0 holds the links of the list's head and row i + 1 those of its element i.

  function Inserted<N>(s: seq<N>, at: nat, x: N): (r: seq<N>)
    requires at <= |s|
    ensures |r| == |s| + 1
    ensures forall i :: 0 <= i < |r| ==> r[i] == if i < at then s[i] else if i == at then x else s[i - 1]
  {
    s[..at] + [x] + s[at..]
  }

  // The first element from i on that has links at level l, or one past the end.
  ghost function Next(heights: seq<nat>, i: nat, l: nat): (j: nat)
    requires i <= |heights|
    ensures i <= j <= |heights| && (j < |heights| ==> heights[j] > l)
    decreases |heights| - i
  {
    if i == |heights| || heights[i] > l then i else Next(heights, i + 1, l)
  }

  lemma {:induction false} NextSkips(heights: seq<nat>, i: nat, l: nat)
    requires i <= |heights|
    ensures forall k :: i <= k < Next(heights, i, l) ==> heights[k] <= l
    decreases |heights| - i
  {
    if i < |heights| && heights[i] <= l {
      NextSkips(heights, i + 1, l);
    }
  }

  lemma NextIs(heights: seq<nat>, i: nat, l: nat, j: nat)
    requires i <= j <= |heights| && (j < |heights| ==> heights[j] > l)
    requires forall k :: i <= k < j ==> heights[k] <= l
    ensures Next(heights, i, l) == j
  {
    NextSkips(heights, i, l);
  }

  function At<N>(list: seq<N>, nil: N, j: nat): N {
    if j < |list| then list[j] else nil
  }

  predicate Rows<N>(links: seq<seq<N>>) {
    forall i :: 0 <= i < |links| ==> |links[i]| == MAX_SKIP_LIST_LEVELS
  }

  // At level l, the head and every element of that height point to the next one of it: the
  // level is the sublist of the elements higher than l, in the order of the list.
  ghost predicate Linked<N>(links: seq<seq<N>>, list: seq<N>, nil: N, heights: seq<nat>, l: nat)
    requires l < MAX_SKIP_LIST_LEVELS && |links| == |list| + 1 && |heights| == |list|
    requires Rows(links)
  {
    forall p {:trigger Next(heights, p, l)} :: 0 <= p <= |list| && (p == 0 || heights[p - 1] > l) ==>
      links[p][l] == At(list, nil, Next(heights, p, l))
  }

  // Inserting an element of height h between the element a walk has stopped at and the next.
  lemma NextAfterInsert(heights: seq<nat>, at: nat, h: nat, l: nat, i: nat)
    requires at <= |heights| && i <= |heights| + 1
    ensures i <= at ==>
      var n := Next(heights, i, l);
      Next(Inserted(heights, at, h), i, l) == if n < at then n else if h > l then at else n + 1
    ensures i > at ==> Next(Inserted(heights, at, h), i, l) == Next(heights, i - 1, l) + 1
  {
    if i > at {
      NextAfter(heights, at, h, l, i);
    } else {
      NextBefore(heights, at, h, l, i);
    }
  }

  lemma NextAfter(heights: seq<nat>, at: nat, h: nat, l: nat, i: nat)
    requires at <= |heights| && at < i <= |heights| + 1
    ensures Next(Inserted(heights, at, h), i, l) == Next(heights, i - 1, l) + 1
  {
    var more := Inserted(heights, at, h);
    var m := Next(heights, i - 1, l);
    NextSkips(heights, i - 1, l);
    assert forall k :: i <= k < m + 1 ==> more[k] == heights[k - 1];
    NextIs(more, i, l, m + 1);
  }

  lemma NextBefore(heights: seq<nat>, at: nat, h: nat, l: nat, i: nat)
    requires at <= |heights| && i <= at
    ensures
      var n := Next(heights, i, l);
      Next(Inserted(heights, at, h), i, l) == if n < at then n else if h > l then at else n + 1
  {
    var more := Inserted(heights, at, h);
    var n := Next(heights, i, l);
    NextSkips(heights, i, l);
    var m := if n < at then n else if h > l then at else n + 1;
    assert forall k :: i <= k < m && k < at ==> more[k] == heights[k];
    assert forall k :: i <= k < m && k > at ==> more[k] == heights[k - 1];
    NextIs(more, i, l, m);
  }

  // The rows after element x with links `own` has come in at `at`.
  function RowsWith<N>(links: seq<seq<N>>, at: nat, own: seq<N>): (r: seq<seq<N>>)
    requires at < |links|
    ensures |r| == |links| + 1
  {
    Inserted(links, at + 1, own)
  }

  // Where a link at level l leads to once x is in the list.
  lemma TargetAfterInsert<N>(list: seq<N>, nil: N, heights: seq<nat>, l: nat, x: N, h: nat, at: nat, q: nat)
    requires |heights| == |list| && at <= |list| && q <= |list| + 1
    ensures var target := At(Inserted(list, at, x), nil, Next(Inserted(heights, at, h), q, l));
      && (q <= at ==>
        var n := Next(heights, q, l);
        target == (if n >= at && h > l then x else At(list, nil, n)))
      && (q > at ==> target == At(list, nil, Next(heights, q - 1, l)))
  {
    NextAfterInsert(heights, at, h, l, q);
  }

  // A walk that has gone as far as row p on its way to `at` has passed all higher rows.
  lemma PassedBefore(heights: seq<nat>, l: nat, at: nat, p: nat, q: nat)
    requires p <= at <= |heights| && at <= Next(heights, p, l) && (p == 0 || heights[p - 1] > l)
    requires q <= at && (q == 0 || heights[q - 1] > l)
    ensures q <= p
    ensures q < p ==> Next(heights, q, l) < at
    ensures Next(heights, at, l) == Next(heights, p, l)
  {
    NextSkips(heights, q, l);
    NextSkips(heights, p, l);
    NextIs(heights, at, l, Next(heights, p, l));
  }

  // What row q holds at that level afterwards.
  lemma RowBecomes<N>(
      links: seq<seq<N>>, own: seq<N>, l: nat, x: N, h: nat, at: nat, p: nat,
      links1: seq<seq<N>>, own1: seq<N>, q: nat)
    requires l < MAX_SKIP_LIST_LEVELS && p <= at < |links| && q <= |links|
    requires |own| == |own1| == MAX_SKIP_LIST_LEVELS && Rows(links)
    requires h > l ==> links1 == links[p := links[p][l := x]] && own1 == own[l := links[p][l]]
    requires h <= l ==> links1 == links && own1 == own
    ensures |RowsWith(links1, at, own1)[q]| == MAX_SKIP_LIST_LEVELS
    ensures RowsWith(links1, at, own1)[q][l] ==
      if q == p && h > l then x
      else if q <= at then links[q][l]
      else if q == at + 1 then (if h > l then links[p][l] else own[l])
      else links[q - 1][l]
  {
  }

  // Where row q has to lead.
  lemma RowLeads<N>(
      links: seq<seq<N>>, own: seq<N>, list: seq<N>, nil: N, heights: seq<nat>, l: nat,
      x: N, h: nat, at: nat, p: nat, q: nat)
    requires l < MAX_SKIP_LIST_LEVELS && |links| == |list| + 1 && |heights| == |list| && at <= |list|
    requires |own| == MAX_SKIP_LIST_LEVELS && Rows(links)
    requires Linked(links, list, nil, heights, l)
    requires p <= at <= Next(heights, p, l) && (p == 0 || heights[p - 1] > l)
    requires q <= |list| + 1 && (q == 0 || Inserted(heights, at, h)[q - 1] > l)
    ensures At(Inserted(list, at, x), nil, Next(Inserted(heights, at, h), q, l)) ==
      if q == p && h > l then x
      else if q <= at then links[q][l]
      else if q == at + 1 then links[p][l]
      else links[q - 1][l]
  {
    TargetAfterInsert(list, nil, heights, l, x, h, at, q);
    if q <= at {
      PassedBefore(heights, l, at, p, q);
    } else if q == at + 1 {
      PassedBefore(heights, l, at, p, p);
    } else {
      assert heights[q - 2] > l;
    }
  }

  // One level of an insertion. Row p is where the walk stopped at this level.
  lemma LevelInserted<N>(
      links: seq<seq<N>>, own: seq<N>, list: seq<N>, nil: N, heights: seq<nat>, l: nat,
      x: N, h: nat, at: nat, p: nat, links1: seq<seq<N>>, own1: seq<N>)
    requires l < MAX_SKIP_LIST_LEVELS && |links| == |list| + 1 && |heights| == |list| && at <= |list|
    requires |own| == |own1| == MAX_SKIP_LIST_LEVELS && Rows(links)
    requires Linked(links, list, nil, heights, l)
    requires p <= at <= Next(heights, p, l) && (p == 0 || heights[p - 1] > l)
    requires h > l ==> links1 == links[p := links[p][l := x]] && own1 == own[l := links[p][l]]
    requires h <= l ==> links1 == links && own1 == own
    ensures Rows(RowsWith(links1, at, own1))
    ensures Linked(RowsWith(links1, at, own1), Inserted(list, at, x), nil, Inserted(heights, at, h), l)
  {
    forall q | 0 <= q <= |links|
      ensures |RowsWith(links1, at, own1)[q]| == MAX_SKIP_LIST_LEVELS
      ensures (q == 0 || Inserted(heights, at, h)[q - 1] > l) ==>
        RowsWith(links1, at, own1)[q][l] == At(Inserted(list, at, x), nil, Next(Inserted(heights, at, h), q, l))
    {
      RowBecomes(links, own, l, x, h, at, p, links1, own1, q);
      if q == 0 || Inserted(heights, at, h)[q - 1] > l {
        RowLeads(links, own, list, nil, heights, l, x, h, at, p, q);
      }
    }
  }

  // What happens to one level leaves the others as they were.
  lemma OtherLevel<N>(links: seq<seq<N>>, links1: seq<seq<N>>, list: seq<N>, nil: N, heights: seq<nat>, l: nat)
    requires l < MAX_SKIP_LIST_LEVELS && |links| == |links1| == |list| + 1 && |heights| == |list|
    requires Rows(links)
    requires Rows(links1)
    requires Linked(links, list, nil, heights, l) && forall p :: 0 <= p < |links| ==> links1[p][l] == links[p][l]
    ensures Linked(links1, list, nil, heights, l)
  {
  }

  // An insertion that has come down to level lvl: the levels above have the new element.
  ghost predicate HalfInserted<N>(
      links: seq<seq<N>>, own: seq<N>, list: seq<N>, nil: N, heights: seq<nat>, lvl: int, k: nat,
      x: N, h: nat, at: nat)
  {
    && -1 <= lvl < k <= MAX_SKIP_LIST_LEVELS == |own|
    && |links| == |list| + 1 && |heights| == |list| && at <= |list|
    && Rows(links)
    && Rows(RowsWith(links, at, own))
    && (forall l :: 0 <= l <= lvl ==> Linked(links, list, nil, heights, l))
    && (forall l :: lvl < l < k ==>
          Linked(RowsWith(links, at, own), Inserted(list, at, x), nil, Inserted(heights, at, h), l))
  }

  lemma RowsAgree<N>(links: seq<seq<N>>, own: seq<N>, at: nat, links1: seq<seq<N>>, own1: seq<N>, l: nat)
    requires at < |links| == |links1| && l < MAX_SKIP_LIST_LEVELS == |own| == |own1|
    requires Rows(links)
    requires Rows(links1)
    requires own1[l] == own[l] && forall p :: 0 <= p < |links| ==> links1[p][l] == links[p][l]
    ensures forall q :: 0 <= q <= |links| ==>
                        |RowsWith(links, at, own)[q]| == |RowsWith(links1, at, own1)[q]| == MAX_SKIP_LIST_LEVELS
    ensures forall q :: 0 <= q <= |links| ==> RowsWith(links1, at, own1)[q][l] == RowsWith(links, at, own)[q][l]
  {
  }

  // One level down.
  lemma DescendLevel<N>(
      links: seq<seq<N>>, own: seq<N>, list: seq<N>, nil: N, heights: seq<nat>, lvl: nat, k: nat,
      x: N, h: nat, at: nat, p: nat, links1: seq<seq<N>>, own1: seq<N>)
    requires HalfInserted(links, own, list, nil, heights, lvl, k, x, h, at)
    requires p <= at <= Next(heights, p, lvl) && (p == 0 || heights[p - 1] > lvl)
    requires h > lvl ==> links1 == links[p := links[p][lvl := x]] && own1 == own[lvl := links[p][lvl]]
    requires h <= lvl ==> links1 == links && own1 == own
    ensures HalfInserted(links1, own1, list, nil, heights, lvl - 1, k, x, h, at)
  {
    assert forall q :: 0 <= q < |links| ==> |links1[q]| == MAX_SKIP_LIST_LEVELS;
    assert forall l, q :: 0 <= l < k && l != lvl && 0 <= q < |links| ==> links1[q][l] == links[q][l];
    LevelInserted(links, own, list, nil, heights, lvl, x, h, at, p, links1, own1);
    forall l | 0 <= l < lvl
      ensures Linked(links1, list, nil, heights, l)
    {
      OtherLevel(links, links1, list, nil, heights, l);
    }
    forall l | lvl < l < k
      ensures Linked(RowsWith(links1, at, own1), Inserted(list, at, x), nil, Inserted(heights, at, h), l)
    {
      RowsAgree(links, own, at, links1, own1, l);
      OtherLevel(RowsWith(links, at, own), RowsWith(links1, at, own1), Inserted(list, at, x), nil,
                 Inserted(heights, at, h), l);
    }
  }

  // Levels that the new element has no links at are done to begin with.
  lemma HighLevelsDone<N>(
      links: seq<seq<N>>, own: seq<N>, list: seq<N>, nil: N, heights: seq<nat>, top: nat, k: nat,
      x: N, h: nat, at: nat)
    requires h <= top <= k <= MAX_SKIP_LIST_LEVELS == |own| && top > 0
    requires |links| == |list| + 1 && |heights| == |list| && at <= |list|
    requires Rows(links)
    requires forall l :: 0 <= l < k ==> Linked(links, list, nil, heights, l)
    ensures HalfInserted(links, own, list, nil, heights, top - 1, k, x, h, at)
  {
    forall q | 0 <= q <= |links|
      ensures |RowsWith(links, at, own)[q]| == MAX_SKIP_LIST_LEVELS
    {
    }
    forall l | top - 1 < l < k
      ensures Linked(RowsWith(links, at, own), Inserted(list, at, x), nil, Inserted(heights, at, h), l)
    {
      var p := LastRow(heights, at, l);
      LevelInserted(links, own, list, nil, heights, l, x, h, at, p, links, own);
    }
  }

  // The last row up to `at` that has a link at level l.
  lemma {:induction false} LastRow(heights: seq<nat>, at: nat, l: nat) returns (p: nat)
    requires at <= |heights|
    ensures p <= at <= Next(heights, p, l) && (p == 0 || heights[p - 1] > l)
    decreases at
  {
    if at == 0 || heights[at - 1] > l {
      p := at;
    } else {
      p := LastRow(heights, at - 1, l);
      var n := Next(heights, p, l);
    }
  }

  // Taking the first element off: the head takes over its links at the levels it has.
  lemma FirstRemoved<N>(links: seq<seq<N>>, list: seq<N>, nil: N, heights: seq<nat>, l: nat, head: seq<N>)
    requires l < MAX_SKIP_LIST_LEVELS && |links| == |list| + 1 && |heights| == |list| > 0
    requires |head| == MAX_SKIP_LIST_LEVELS && Rows(links)
    requires Linked(links, list, nil, heights, l)
    requires head[l] == if l < heights[0] then links[1][l] else links[0][l]
    ensures Rows([head] + links[2..])
    ensures Linked([head] + links[2..], list[1..], nil, heights[1..], l)
  {
    var rows, fewer, shorter := [head] + links[2..], list[1..], heights[1..];
    forall q | 0 <= q <= |fewer| && (q == 0 || shorter[q - 1] > l)
      ensures rows[q][l] == At(fewer, nil, Next(shorter, q, l))
    {
      var n := Next(heights, q + 1, l);
      NextSkips(heights, q + 1, l);
      assert forall k :: q <= k < n - 1 ==> shorter[k] == heights[k + 1];
      NextIs(shorter, q, l, n - 1);
      if q == 0 && heights[0] <= l {
        NextIs(heights, 0, l, n);
      }
    }
  }
}

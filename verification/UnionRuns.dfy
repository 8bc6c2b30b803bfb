// Runs of a union over the contents of its sets (indexer/search/ordered_set.c).

module UnionRuns {
  import opened Items
  import opened OrderedSets
  import opened SkipLinks
  import opened SkipStates

  // ---- What a union puts out ----

  // Neighbours of equal rank made into one element.
  ghost function Coalesce<T>(e: Elements<T>, s: seq<T>): (r: seq<T>)
    ensures s != [] ==> r != []
  {
    if |s| <= 1 then s
    else
      var r := Coalesce(e, s[..|s| - 1]);
      var last, x := r[|r| - 1], s[|s| - 1];
      if e.rank(last) == e.rank(x) then r[..|r| - 1] + [e.merge(last, x)] else r + [x]
  }

  ghost predicate StrictlyAscending<T>(e: Elements<T>, s: seq<T>) {
    forall i, j :: 0 <= i < j < |s| ==> e.rank(s[i]) < e.rank(s[j])
  }

  // All elements of rank v merged from left to right.
  ghost function Merged<T>(e: Elements<T>, s: seq<T>, v: nat): (r: Popped<T>) {
    if s == [] then Empty
    else
      var r, x := Merged(e, s[..|s| - 1], v), s[|s| - 1];
      if e.rank(x) != v then r else if r.Empty? then Got(x) else Got(e.merge(r.item, x))
  }

  // The last element of the result has the rank of the last one of the input.
  lemma {:induction false} CoalesceLast<T(!new)>(e: Elements<T>, s: seq<T>)
    requires WellFormed(e) && s != []
    ensures var r := Coalesce(e, s); e.rank(r[|r| - 1]) == e.rank(s[|s| - 1])
  {
    if |s| > 1 {
      CoalesceLast(e, s[..|s| - 1]);
    }
  }

  lemma {:induction false} CoalesceIsStrict<T(!new)>(e: Elements<T>, s: seq<T>)
    requires WellFormed(e) && Ascending(e, s)
    ensures StrictlyAscending(e, Coalesce(e, s))
  {
    if |s| > 1 {
      var front := s[..|s| - 1];
      assert s == front + [s[|s| - 1]];
      AscendingAppend(e, front, s[|s| - 1]);
      CoalesceIsStrict(e, front);
      CoalesceLast(e, front);
    }
  }

  ghost function MergedWith<T>(e: Elements<T>, r: Popped<T>, x: T, v: nat): Popped<T> {
    if e.rank(x) != v then r else if r.Empty? then Got(x) else Got(e.merge(r.item, x))
  }

  lemma MergedAppend<T>(e: Elements<T>, s: seq<T>, x: T, v: nat)
    ensures Merged(e, s + [x], v) == MergedWith(e, Merged(e, s, v), x, v)
  {
    assert (s + [x])[..|s|] == s;
  }

  // For every rank the result holds one element, all of that rank merged, or none if there
  // are none.
  lemma {:induction false} CoalesceMerges<T(!new)>(e: Elements<T>, s: seq<T>, v: nat)
    requires WellFormed(e) && Ascending(e, s)
    ensures Merged(e, Coalesce(e, s), v) == Merged(e, s, v)
    decreases |s|
  {
    if |s| > 1 {
      var front, x := s[..|s| - 1], s[|s| - 1];
      assert s == front + [x];
      AscendingAppend(e, front, x);
      CoalesceMerges(e, front, v);
      CoalesceIsStrict(e, front);
      MergedAppend(e, front, x, v);
      var r := Coalesce(e, front);
      OneMoreMerges(e, r[..|r| - 1], r[|r| - 1], x, v);
      assert r == r[..|r| - 1] + [r[|r| - 1]];
    }
  }

  lemma OneMoreMerges<T(!new)>(e: Elements<T>, out: seq<T>, last: T, x: T, v: nat)
    requires WellFormed(e) && StrictlyAscending(e, out + [last])
    ensures Merged(e, if e.rank(last) == e.rank(x) then out + [e.merge(last, x)] else out + [last] + [x], v)
         == MergedWith(e, Merged(e, out + [last], v), x, v)
  {
    MergedAppend(e, out, last, v);
    MergedAppend(e, out + [last], x, v);
    MergedAppend(e, out, e.merge(last, x), v);
    if e.rank(last) == e.rank(x) == v {
      forall i | 0 <= i < |out| ensures e.rank(out[i]) != v {
        assert (out + [last])[i] == out[i] && (out + [last])[|out|] == last;
      }
      NoneOfRank(e, out, v);
    }
  }

  lemma {:induction false} NoneOfRank<T>(e: Elements<T>, s: seq<T>, v: nat)
    requires forall i :: 0 <= i < |s| ==> e.rank(s[i]) != v
    ensures Merged(e, s, v) == Empty
  {
    if s != [] {
      NoneOfRank(e, s[..|s| - 1], v);
    }
  }

  // In a strictly ascending sequence there is at most one element of a rank.
  lemma {:induction false} MergedOfStrict<T>(e: Elements<T>, s: seq<T>, i: nat)
    requires StrictlyAscending(e, s) && i < |s|
    ensures Merged(e, s, e.rank(s[i])) == Got(s[i])
  {
    if i == |s| - 1 {
      NoneOfRank(e, s[..|s| - 1], e.rank(s[i]));
    } else {
      MergedOfStrict(e, s[..|s| - 1], i);
    }
  }

  // ---- Runs ----

  // The contents of the sets, the set whose turn it is first. A round takes the first element
  // of the first set and puts the set back at a place among the others, unless it is empty.
  datatype Run<T> = Start(sets: seq<seq<T>>) | More(before: Run<T>, at: nat)

  ghost function Stepped<T>(cs: seq<seq<T>>, at: nat): seq<seq<T>> {
    if cs == [] then []
    else if |cs[0]| <= 1 then cs[1..]
    else if at < |cs| then Inserted(cs[1..], at, cs[0][1..])
    else cs
  }

  ghost function State<T>(run: Run<T>): seq<seq<T>> {
    match run
    case Start(sets) => sets
    case More(before, at) => Stepped(State(before), at)
  }

  ghost function Taken<T>(run: Run<T>): seq<T> {
    match run
    case Start(_) => []
    case More(before, _) =>
      var cs := State(before);
      if cs != [] && cs[0] != [] then Taken(before) + [cs[0][0]] else Taken(before)
  }

  // The sets not yet empty, in the order of their next elements.
  ghost predicate Orderly<T>(e: Elements<T>, cs: seq<seq<T>>) {
    && (forall i :: 0 <= i < |cs| ==> cs[i] != [] && Ascending(e, cs[i]))
    && (forall i, j :: 0 <= i < j < |cs| ==> e.rank(cs[i][0]) <= e.rank(cs[j][0]))
  }

  // `at` is behind the sets whose next element is no larger and before the others.
  ghost predicate PlacedAt<T>(e: Elements<T>, cs: seq<seq<T>>, v: nat, at: nat) {
    && at <= |cs| && (forall i :: 0 <= i < |cs| ==> cs[i] != [])
    && (forall i :: 0 <= i < at ==> e.rank(cs[i][0]) <= v)
    && (forall i :: at <= i < |cs| ==> e.rank(cs[i][0]) > v)
  }

  ghost predicate RightRound<T>(e: Elements<T>, cs: seq<seq<T>>, at: nat) {
    cs != [] && cs[0] != [] && (|cs[0]| > 1 ==> PlacedAt(e, cs[1..], e.rank(cs[0][1]), at))
  }

  ghost predicate RightRun<T>(e: Elements<T>, run: Run<T>) {
    match run
    case Start(sets) => Orderly(e, sets)
    case More(before, at) => RightRun(e, before) && RightRound(e, State(before), at)
  }

  ghost function FirstState<T>(run: Run<T>): seq<seq<T>> {
    match run
    case Start(sets) => sets
    case More(before, _) => FirstState(before)
  }

  lemma {:induction false} RoundKeepsOrder<T>(e: Elements<T>, cs: seq<seq<T>>, at: nat)
    requires Orderly(e, cs) && RightRound(e, cs, at)
    ensures Orderly(e, Stepped(cs, at))
    ensures forall i :: 0 <= i < |Stepped(cs, at)| ==> e.rank(cs[0][0]) <= e.rank(Stepped(cs, at)[i][0])
  {
    var c, rest := cs[0], cs[1..];
    assert forall i :: 0 <= i < |rest| ==> rest[i] == cs[i + 1];
    assert Orderly(e, rest);
    if |c| > 1 {
      assert c[1..][0] == c[1] && e.rank(c[0]) <= e.rank(c[1]);
      InsertedOrderly(e, rest, at, c[1..]);
    }
  }

  lemma {:induction false} InsertedOrderly<T>(e: Elements<T>, rest: seq<seq<T>>, at: nat, c: seq<T>)
    requires Orderly(e, rest) && c != [] && Ascending(e, c) && PlacedAt(e, rest, e.rank(c[0]), at)
    ensures Orderly(e, Inserted(rest, at, c))
  {
  }

  // Along a run the elements come out in order, and none left is smaller than the last one.
  lemma {:induction false} PoppedInOrder<T>(e: Elements<T>, run: Run<T>)
    requires RightRun(e, run)
    ensures Orderly(e, State(run)) && Ascending(e, Taken(run))
    ensures run.More? ==> Taken(run) != []
    ensures run.More? ==> forall i :: 0 <= i < |State(run)| ==>
      e.rank(Taken(run)[|Taken(run)| - 1]) <= e.rank(State(run)[i][0])
  {
    match run
    case Start(_) =>
    case More(before, at) =>
      PoppedInOrder(e, before);
      RoundKeepsOrder(e, State(before), at);
      AscendingAppend(e, Taken(before), State(before)[0][0]);
  }

  ghost function Total<T>(cs: seq<seq<T>>): multiset<T> {
    if cs == [] then multiset{} else multiset(cs[0]) + Total(cs[1..])
  }

  lemma {:induction false} TotalInserted<T>(cs: seq<seq<T>>, at: nat, c: seq<T>)
    requires at <= |cs|
    ensures Total(Inserted(cs, at, c)) == Total(cs) + multiset(c)
  {
    var more := Inserted(cs, at, c);
    if at == 0 {
      assert more[1..] == cs;
    } else {
      TotalInserted(cs[1..], at - 1, c);
      assert more[1..] == Inserted(cs[1..], at - 1, c);
    }
  }

  // A run loses and invents nothing.
  lemma {:induction false} RunConserves<T>(e: Elements<T>, run: Run<T>)
    requires RightRun(e, run)
    ensures multiset(Taken(run)) + Total(State(run)) == Total(FirstState(run))
  {
    match run
    case Start(_) =>
    case More(before, at) =>
      RunConserves(e, before);
      RoundConserves(e, run, before, at);
      assert multiset(Taken(run)) == multiset(Taken(before)) + multiset{State(before)[0][0]};
  }

  // What is taken in one round is gone from the list.
  lemma RoundConserves<T>(e: Elements<T>, run: Run<T>, before: Run<T>, at: nat)
    requires RightRun(e, run) && run == More(before, at)
    ensures Total(State(run)) + multiset{State(before)[0][0]} == Total(State(before))
  {
    var cs := State(before);
    var c, x := cs[0], cs[0][0];
    assert c == [x] + c[1..];
    if |c| == 1 {
      assert multiset(c) == multiset{x};
    } else {
      TotalInserted(cs[1..], at, c[1..]);
    }
  }

  lemma RoundShrinks<T>(e: Elements<T>, run: Run<T>)
    requires RightRun(e, run) && run.More?
    ensures |Total(State(run))| < |Total(State(run.before))|
  {
    var cs, at := State(run.before), run.at;
    var c := cs[0];
    assert c == [c[0]] + c[1..];
    if |c| > 1 {
      TotalInserted(cs[1..], at, c[1..]);
    }
  }
}

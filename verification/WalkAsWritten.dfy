// The walk to the first record of a range as it is written (indexer/search/subindex.c): when it
// finds it, and what becomes of it otherwise.

module WalkAsWritten {
  import opened Bits
  import opened Network
  import opened LeftFilled
  import opened SubIndex

  // How a search ends: with a last match (or none, -1), with a read that fails, or with a step
  // below the leaves, which shifts by minus one and after which nothing is defined.
  datatype Outcome = Found(m: int) | Failed | Lost

  // What lies in the buffer of search_index behind the records that were read.
  type Junk = nat -> nat

  ghost function KeyAt(r: seq<Entry>, junk: Junk, index: nat): nat
    requires index > 0
  {
    if index <= |r| then r[index - 1].key else junk(index)
  }

  ghost function Left(s: PosState): PosState
    requires s.below > 0 && Pow2(s.below) <= s.index
  {
    PosState(s.index - Pow2(s.below - 1), s.below - 1, s.lastMatch)
  }

  ghost function Right(s: PosState): PosState
    requires s.below > 0
  {
    PosState(s.index + Pow2(s.below - 1), s.below - 1, s.lastMatch)
  }

  ghost function Matched(s: PosState): PosState { s.(lastMatch := s.index) }

  // A comparison as in search_preview and in the buffer: a match is a key that is equal.
  ghost function Compared(s: PosState, key: nat, k: nat): PosState
    requires s.below > 0 && Pow2(s.below) <= s.index
  {
    if key > k then Right(s) else if key == k then Left(Matched(s)) else Left(s)
  }

  // From a position to the end. The levels of the tree, counted from the leaves, are those of
  // the preview from pv up, those walked one record at a time from sl up, and those in the
  // buffer. One record at a time the seek goes one record too far. In the buffer, a step left
  // from a virtual node is followed by a comparison, whatever node that leads to.
  ghost function WrittenWalk(r: seq<Entry>, key: nat, pv: nat, sl: nat, junk: Junk, s: PosState): Outcome
    requires Pow2(s.below) <= s.index
    decreases s.below
  {
    if s.below == 0 then
      if pv == 0 && s.index > |r| then Lost
      else if KeyAt(r, junk, s.index) == key then Found(s.index) else Found(s.lastMatch)
    else if pv <= s.below then
      WrittenWalk(r, key, pv, sl, junk, if s.index > |r| then Left(s) else Compared(s, key, r[s.index - 1].key))
    else if sl <= s.below then
      if s.index > |r| then WrittenWalk(r, key, pv, sl, junk, Left(s))
      else if s.index == |r| then Failed
      else WrittenWalk(r, key, pv, sl, junk, if key <= r[s.index].key then Left(Matched(s)) else Right(s))
    else if s.index > |r| then
      if s.below == 1 then Lost
      else WrittenWalk(r, key, pv, sl, junk, Compared(Left(s), key, KeyAt(r, junk, Left(s).index)))
    else WrittenWalk(r, key, pv, sl, junk, Compared(s, key, r[s.index - 1].key))
  }

  lemma WalksThroughPreview(r: seq<Entry>, key: nat, pv: nat, sl: nat, junk: Junk, s: PosState)
    requires pv <= s.below && 0 < s.below && Pow2(s.below) <= s.index <= |r|
    ensures WrittenWalk(r, key, pv, sl, junk, s) ==
            WrittenWalk(r, key, pv, sl, junk, Compared(s, key, r[s.index - 1].key))
  {
  }

  ghost function Root(n: nat): (s: PosState)
    ensures s.index == Pow2(s.below)
  {
    PosState(Pow2(DepthOf(n) - 1), DepthOf(n) - 1, -1)
  }

  ghost function WrittenSearch(r: seq<Entry>, key: nat, pv: nat, sl: nat, junk: Junk): Outcome {
    WrittenWalk(r, key, pv, sl, junk, Root(|r|))
  }

  ghost predicate IsRight(r: seq<Entry>, key: nat, o: Outcome) { o.Found? && IsFirstAtLeast(r, key, o.m) }

  // The first lb records, and only these, have keys below `key`.
  ghost predicate CutAt(r: seq<Entry>, key: nat, lb: nat) {
    lb <= |r| && forall i :: 0 <= i < |r| ==> (r[i].key < key <==> i < lb)
  }

  // ---- The condition ----

  ghost predicate Slow(b: nat, pv: nat, sl: nat) { sl <= b < pv }

  // The node on the way at level b is behind the records.
  ghost predicate PastEnd(n: nat, lb: nat, b: nat) { lb / Pow2(b) == n / Pow2(b) && (n / Pow2(b)) % 2 == 0 }

  // In the buffer no node behind the records follows on another, and there is none on the two
  // lowest levels.
  ghost predicate StaysInside(n: nat, lb: nat, pv: nat, sl: nat) {
    forall b :: 0 <= b < DepthOf(n) && (b == 0 || (b < pv && b < sl)) && PastEnd(n, lb, b) ==>
      b >= 2 && !PastEnd(n, lb, b - 1)
  }

  // The seek on a level that is walked one record at a time misleads neither at record lb nor at
  // the last record, and nothing behind the records is looked at.
  ghost predicate NotAstray(n: nat, lb: nat, pv: nat, sl: nat) {
    && (0 < lb < n ==> !Slow(TrailingZeros(lb), pv, sl))
    && (n > 0 && n - Pow2(TrailingZeros(n)) <= lb ==> !Slow(TrailingZeros(n), pv, sl))
    && StaysInside(n, lb, pv, sl)
  }

  // lb records are too small. The next is recorded: it has the key, or is walked to on a level
  // where larger keys count. And the way does not go astray.
  ghost predicate RightAsWritten(r: seq<Entry>, key: nat, lb: nat, pv: nat, sl: nat)
    requires lb <= |r|
  {
    && (lb == |r| || r[lb].key == key || Slow(TrailingZeros(lb + 1), pv, sl))
    && NotAstray(|r|, lb, pv, sl)
  }

  // ---- Levels and nodes ----

  // The level of a position moves with the walk.
  lemma {:induction false} LevelSteps(index: nat, b: nat)
    requires index > 0 && b > 0 && TrailingZeros(index) == b
    ensures index > Pow2(b - 1)
    ensures TrailingZeros(index - Pow2(b - 1)) == b - 1 && TrailingZeros(index + Pow2(b - 1)) == b - 1
  {
    if b == 1 {
      assert Pow2(0) == 1 && index % 2 == 0;
    } else {
      var half, p := index / 2, Pow2(b - 2);
      LevelSteps(half, b - 1);
      OneMoreZero(half - p);
      OneMoreZero(half + p);
      assert index - Pow2(b - 1) == 2 * (half - p) && index + Pow2(b - 1) == 2 * (half + p);
    }
  }

  lemma OneMoreZero(half: nat)
    requires half > 0
    ensures TrailingZeros(2 * half) == 1 + TrailingZeros(half)
  {
    assert (2 * half) / 2 == half && (2 * half) % 2 == 0;
  }

  // The odd multiple of p next to lb.
  ghost function NodeOf(lb: nat, p: nat): nat
    requires p > 0
  {
    RestAtMost(lb, 2 * p);
    lb - lb % (2 * p) + p
  }

  lemma RestAtMost(n: nat, p: nat)
    requires p > 0
    ensures n % p <= n
  {
    if n < p {
      DivUnique(n, p, 0, n);
    }
  }

  // The node of level b in whose subtree the way to record lb + 1 runs.
  ghost function NodeAt(lb: nat, b: nat): nat { NodeOf(lb, Pow2(b)) }

  // A node is an odd multiple of the power of its level.
  lemma LevelOf(m: nat, b: nat)
    requires m > 0
    ensures TrailingZeros(m) == b <==> m % (2 * Pow2(b)) == Pow2(b)
  {
    TrailingZerosDivide(m, b);
    TrailingZerosDivide(m, b + 1);
    OddMultiple(m, Pow2(b));
  }

  lemma OddMultiple(m: nat, p: nat)
    requires p > 0
    ensures m % p == 0 && m % (2 * p) != 0 <==> m % (2 * p) == p
  {
    var q, x := m / (2 * p), m % (2 * p);
    assert m == q * (2 * p) + x;
    if x < p {
      DivUnique(m, p, 2 * q, x);
    } else {
      DivUnique(m, p, 2 * q + 1, x - p);
    }
  }

  lemma NodeOfIs(lb: nat, p: nat, m: nat)
    requires p > 0
    ensures NodeOf(lb, p) == m <==> m % (2 * p) == p && m - p <= lb < m + p
  {
    if NodeOf(lb, p) == m {
      var q := lb / (2 * p);
      assert lb == q * (2 * p) + lb % (2 * p);
      DivUnique(m, 2 * p, q, p);
    } else if m % (2 * p) == p && m - p <= lb < m + p {
      var q := m / (2 * p);
      assert m == q * (2 * p) + p;
      DivUnique(lb, 2 * p, q, lb - (m - p));
    }
  }

  lemma NodeIs(lb: nat, b: nat, m: nat)
    requires m > 0
    ensures NodeAt(lb, b) == m <==> TrailingZeros(m) == b && m - Pow2(b) <= lb < m + Pow2(b)
  {
    LevelOf(m, b);
    NodeOfIs(lb, Pow2(b), m);
  }

  lemma InBlock(n: nat, p: nat)
    requires p > 0
    ensures (n / p) * p <= n < (n / p) * p + p
  {
  }

  // Two numbers in the same block of p, an even one, are both before the odd multiple in it.
  lemma BeforeNode(n: nat, lb: nat, p: nat)
    requires p > 0 && lb <= n
    ensures lb / p == n / p && (n / p) % 2 == 0 <==> NodeOf(lb, p) > n
  {
    var q, x := lb / (2 * p), lb % (2 * p);
    assert lb == q * (2 * p) + x == (2 * q) * p + x;
    if x < p {
      InEvenBlock(n, lb, p, 2 * q, x);
    } else {
      assert (2 * q + 1) * p == (2 * q) * p + p;
      DivUnique(lb, p, 2 * q + 1, x - p);
      assert !(lb / p == n / p && (n / p) % 2 == 0);
    }
  }

  lemma InEvenBlock(n: nat, lb: nat, p: nat, e: nat, x: nat)
    requires p > 0 && lb <= n && e % 2 == 0 && lb == e * p + x && x < p
    ensures lb / p == n / p && (n / p) % 2 == 0 <==> lb - x + p > n
  {
    DivUnique(lb, p, e, x);
    if n < lb - x + p {
      DivUnique(n, p, e, n - (lb - x));
    } else {
      InBlock(n, p);
    }
  }

  lemma PastEndIs(n: nat, lb: nat, b: nat)
    requires lb <= n
    ensures PastEnd(n, lb, b) <==> NodeAt(lb, b) > n
  {
    BeforeNode(n, lb, Pow2(b));
  }

  lemma {:induction false} LevelAtMost(m: nat)
    requires m > 0
    ensures Pow2(TrailingZeros(m)) <= m
  {
    if m % 2 == 0 {
      LevelAtMost(m / 2);
    }
  }

  lemma LevelInTree(m: nat, n: nat)
    requires 0 < m <= n
    ensures TrailingZeros(m) < DepthOf(n)
  {
    LevelAtMost(m);
    DepthOfBounds(n);
    if TrailingZeros(m) >= DepthOf(n) {
      Pow2Grows(DepthOf(n), TrailingZeros(m));
    }
  }

  // ---- The way to the first record that is not too small ----

  // At this node the walk goes astray, or fails.
  ghost predicate Strays(n: nat, lb: nat, pv: nat, sl: nat, index: nat, b: nat) {
    if Slow(b, pv, sl) && b > 0 then index == n || (index == lb && lb < n)
    else index > n && (b == 0 || (b < pv && b < sl && (b == 1 || index - Pow2(b - 1) > n)))
  }

  // It does, or misses what it should find.
  ghost predicate GoesWrong(r: seq<Entry>, key: nat, lb: nat, pv: nat, sl: nat, index: nat, b: nat)
    requires lb <= |r|
  {
    || Strays(|r|, lb, pv, sl, index, b)
    || (!(Slow(b, pv, sl) && b > 0) && index == lb + 1 <= |r| && r[lb].key != key)
  }

  // On the right way so far.
  ghost predicate AtNode(n: nat, lb: nat, s: PosState) {
    && lb <= n && s.below < DepthOf(n) && Pow2(s.below) <= s.index && TrailingZeros(s.index) == s.below
    && s.index - Pow2(s.below) <= lb < s.index + Pow2(s.below)
  }

  // And with nothing missed: the nearest record on the right is the last match if it is the one
  // that is sought.
  ghost predicate OnWay(n: nat, lb: nat, s: PosState) {
    var right := s.index + Pow2(s.below);
    && AtNode(n, lb, s)
    && if lb == n then s.lastMatch == -1
       else if lb + 1 == right then s.lastMatch == right
       else s.lastMatch == -1 || s.lastMatch >= right
  }

  ghost predicate WayIsRight(r: seq<Entry>, key: nat, lb: nat, pv: nat, sl: nat, b: nat)
    requires lb <= |r|
  {
    forall c :: 0 <= c <= b ==> !GoesWrong(r, key, lb, pv, sl, NodeAt(lb, c), c)
  }

  // The next position on the way.
  ghost function NextOnWay(r: seq<Entry>, key: nat, lb: nat, pv: nat, sl: nat, s: PosState): PosState
    requires s.below > 0 && Pow2(s.below) <= s.index && lb <= |r|
  {
    if s.index > |r| then Left(s)
    else if s.index <= lb then Right(s)
    else if Slow(s.below, pv, sl) || r[s.index - 1].key == key then Left(Matched(s))
    else Left(s)
  }

  lemma StaysOnWay(r: seq<Entry>, key: nat, lb: nat, pv: nat, sl: nat, s: PosState)
    requires KeysSorted(r) && CutAt(r, key, lb) && OnWay(|r|, lb, s) && s.below > 0
    requires !GoesWrong(r, key, lb, pv, sl, s.index, s.below)
    ensures OnWay(|r|, lb, NextOnWay(r, key, lb, pv, sl, s))
  {
    LevelSteps(s.index, s.below);
    if s.index > |r| {
      LeftOnWay(|r|, lb, s);
    } else if s.index > lb {
      assert s.index > lb + 1 || Slow(s.below, pv, sl) || r[lb].key == key;
      if s.index > lb + 1 {
        LeftOnWay(|r|, lb, s);
      }
    }
  }

  lemma LeftOnWay(n: nat, lb: nat, s: PosState)
    requires OnWay(n, lb, s) && s.below > 0 && lb < s.index && (s.index > n || s.index > lb + 1)
    ensures OnWay(n, lb, Left(s)) && (s.index <= n ==> OnWay(n, lb, Left(Matched(s))))
  {
    LevelSteps(s.index, s.below);
  }

  // Where it does not go wrong, the walk takes that step.
  lemma TakesTheWay(r: seq<Entry>, key: nat, lb: nat, pv: nat, sl: nat, junk: Junk, s: PosState)
    requires KeysSorted(r) && CutAt(r, key, lb) && AtNode(|r|, lb, s) && s.below > 0
    requires !Strays(|r|, lb, pv, sl, s.index, s.below)
    ensures Pow2(s.below - 1) <= NextOnWay(r, key, lb, pv, sl, s).index
    ensures WrittenWalk(r, key, pv, sl, junk, s) ==
            WrittenWalk(r, key, pv, sl, junk, NextOnWay(r, key, lb, pv, sl, s))
  {
    LevelSteps(s.index, s.below);
    if s.index <= |r| {
      assert key <= r[s.index - 1].key <==> lb < s.index;
      assert s.index < |r| ==> (key <= r[s.index].key <==> lb <= s.index);
    }
  }

  lemma {:induction false} WalkIsRight(r: seq<Entry>, key: nat, lb: nat, pv: nat, sl: nat, junk: Junk, s: PosState)
    requires KeysSorted(r) && CutAt(r, key, lb) && OnWay(|r|, lb, s) && WayIsRight(r, key, lb, pv, sl, s.below)
    ensures IsRight(r, key, WrittenWalk(r, key, pv, sl, junk, s))
    decreases s.below
  {
    NodeIs(lb, s.below, s.index);
    if s.below == 0 {
      assert Pow2(0) == 1;
    } else {
      TakesTheWay(r, key, lb, pv, sl, junk, s);
      StaysOnWay(r, key, lb, pv, sl, s);
      WalkIsRight(r, key, lb, pv, sl, junk, NextOnWay(r, key, lb, pv, sl, s));
    }
  }

  // ---- Going wrong ----

  // Whatever is in the buffer, a match that is recorded from here on is in this subtree.
  lemma {:induction false} MatchInSubtree(r: seq<Entry>, key: nat, pv: nat, sl: nat, junk: Junk, s: PosState)
    requires Pow2(s.below) <= s.index
    ensures var o := WrittenWalk(r, key, pv, sl, junk, s);
      o.Found? ==> o.m == s.lastMatch || s.index - Pow2(s.below) < o.m < s.index + Pow2(s.below)
    decreases s.below
  {
    assert Pow2(0) == 1;
    if s.below > 0 {
      InBoth(r, key, pv, sl, junk, s, false);
      InBoth(r, key, pv, sl, junk, s, true);
      if s.below > 1 {
        InBoth(r, key, pv, sl, junk, Left(s), false);
        InBoth(r, key, pv, sl, junk, Left(s), true);
      }
    }
  }

  lemma {:induction false} InBoth(r: seq<Entry>, key: nat, pv: nat, sl: nat, junk: Junk, s0: PosState, matched: bool)
    requires s0.below > 0 && Pow2(s0.below) <= s0.index
    ensures var s := if matched then Matched(s0) else s0;
      forall t :: t == Left(s) || t == Right(s) ==>
        var o := WrittenWalk(r, key, pv, sl, junk, t);
        o.Found? ==> o.m == s.lastMatch || s.index - Pow2(s.below) < o.m < s.index + Pow2(s.below)
    decreases s0.below, 0
  {
    var s := if matched then Matched(s0) else s0;
    MatchInSubtree(r, key, pv, sl, junk, Left(s));
    MatchInSubtree(r, key, pv, sl, junk, Right(s));
  }

  // What misleads the walk most: the key itself where nothing should be found, and smaller keys
  // where something should.
  ghost function Misleading(n: nat, lb: nat, key: nat): Junk { (_: nat) => if lb == n then key else 0 }

  // The way goes past the end only if some record is too small.
  lemma SomeAreSmaller(r: seq<Entry>, key: nat, lb: nat, s: PosState)
    requires CutAt(r, key, lb) && OnWay(|r|, lb, s) && r != [] && s.index > |r|
    ensures key > 0
  {
    DepthOfBounds(|r|);
    Pow2Grows(s.below, DepthOf(|r|) - 1);
    assert r[0].key < key;
  }

  lemma MissesHere(r: seq<Entry>, key: nat, lb: nat, pv: nat, sl: nat, junk: Junk, s: PosState)
    requires KeysSorted(r) && CutAt(r, key, lb) && OnWay(|r|, lb, s) && !Slow(s.below, pv, sl)
    requires s.index == lb + 1 <= |r| && r[lb].key != key
    ensures !IsRight(r, key, WrittenWalk(r, key, pv, sl, junk, s))
  {
    if s.below > 0 {
      MatchInSubtree(r, key, pv, sl, junk, Left(s));
    }
    FirstIs(r, key, lb);
  }

  // The only right match.
  lemma FirstIs(r: seq<Entry>, key: nat, lb: nat)
    requires KeysSorted(r) && CutAt(r, key, lb)
    ensures forall m :: IsFirstAtLeast(r, key, m) <==> m == if lb == |r| then -1 else lb + 1
  {
    assert lb < |r| ==> !(r[lb].key < key);
    assert lb > 0 ==> r[lb - 1].key < key;
  }

  lemma SeekMisleads(r: seq<Entry>, key: nat, lb: nat, pv: nat, sl: nat, junk: Junk, s: PosState)
    requires KeysSorted(r) && CutAt(r, key, lb) && OnWay(|r|, lb, s) && Slow(s.below, pv, sl) && s.below > 0
    requires s.index == |r| || (s.index == lb && lb < |r|)
    ensures !IsRight(r, key, WrittenWalk(r, key, pv, sl, junk, s))
  {
    if s.index < |r| {
      assert key <= r[s.index].key;
      MatchInSubtree(r, key, pv, sl, junk, Left(Matched(s)));
    }
    FirstIs(r, key, lb);
  }

  // In the buffer, past the end: on a leaf, below the leaves, or with a comparison where nothing is.
  ghost predicate AtJunk(n: nat, pv: nat, sl: nat, s: PosState) {
    s.index > n &&
    (s.below == 0 || (s.below < pv && s.below < sl && (s.below == 1 || s.index - Pow2(s.below - 1) > n)))
  }

  lemma JunkMisleads(r: seq<Entry>, key: nat, lb: nat, pv: nat, sl: nat, s: PosState)
    requires KeysSorted(r) && CutAt(r, key, lb) && OnWay(|r|, lb, s) && AtJunk(|r|, pv, sl, s)
    ensures !IsRight(r, key, WrittenWalk(r, key, pv, sl, Misleading(|r|, lb, key), s))
  {
    FirstIs(r, key, lb);
    assert Pow2(0) == 1;
    if s.below > 1 && lb == |r| {
      ComparesWithKey(r, key, pv, sl, Misleading(|r|, lb, key), s);
    } else if s.below > 1 {
      SomeAreSmaller(r, key, lb, s);
      ComparesWithLess(r, key, pv, sl, Misleading(|r|, lb, key), s);
    }
  }

  // It takes a node that is not there for a match.
  lemma ComparesWithKey(r: seq<Entry>, key: nat, pv: nat, sl: nat, junk: Junk, s: PosState)
    requires Pow2(s.below) <= s.index && s.below > 1 && AtJunk(|r|, pv, sl, s) && forall i :: junk(i) == key
    ensures var o := WrittenWalk(r, key, pv, sl, junk, s); o.Found? ==> o.m > 0
  {
    MatchInSubtree(r, key, pv, sl, junk, Left(Matched(Left(s))));
  }

  // It turns right where there is nothing on the right.
  lemma ComparesWithLess(r: seq<Entry>, key: nat, pv: nat, sl: nat, junk: Junk, s: PosState)
    requires Pow2(s.below) <= s.index && s.below > 1 && AtJunk(|r|, pv, sl, s) && forall i :: junk(i) < key
    ensures var o := WrittenWalk(r, key, pv, sl, junk, s); o.Found? ==> o.m == s.lastMatch || o.m > |r|
  {
    MatchInSubtree(r, key, pv, sl, junk, Right(Left(s)));
  }

  lemma WrongHere(r: seq<Entry>, key: nat, lb: nat, pv: nat, sl: nat, s: PosState)
    requires KeysSorted(r) && CutAt(r, key, lb) && OnWay(|r|, lb, s)
    requires GoesWrong(r, key, lb, pv, sl, s.index, s.below) && sl > 0
    ensures !IsRight(r, key, WrittenWalk(r, key, pv, sl, Misleading(|r|, lb, key), s))
  {
    if Slow(s.below, pv, sl) {
      SeekMisleads(r, key, lb, pv, sl, Misleading(|r|, lb, key), s);
    } else if s.index > |r| {
      JunkMisleads(r, key, lb, pv, sl, s);
    } else {
      MissesHere(r, key, lb, pv, sl, Misleading(|r|, lb, key), s);
    }
  }

  lemma {:induction false} WalkGoesWrong(r: seq<Entry>, key: nat, lb: nat, pv: nat, sl: nat, s: PosState)
    requires KeysSorted(r) && CutAt(r, key, lb) && OnWay(|r|, lb, s) && sl > 0
    requires !WayIsRight(r, key, lb, pv, sl, s.below)
    ensures !IsRight(r, key, WrittenWalk(r, key, pv, sl, Misleading(|r|, lb, key), s))
    decreases s.below
  {
    NodeIs(lb, s.below, s.index);
    if GoesWrong(r, key, lb, pv, sl, s.index, s.below) {
      WrongHere(r, key, lb, pv, sl, s);
    } else {
      assert s.below > 0 && !WayIsRight(r, key, lb, pv, sl, s.below - 1);
      TakesTheWay(r, key, lb, pv, sl, Misleading(|r|, lb, key), s);
      StaysOnWay(r, key, lb, pv, sl, s);
      WalkGoesWrong(r, key, lb, pv, sl, NextOnWay(r, key, lb, pv, sl, s));
    }
  }

  // ---- The theorem ----

  // The levels at which the way goes wrong, by the numbers alone.
  ghost predicate WrongLevel(r: seq<Entry>, key: nat, lb: nat, pv: nat, sl: nat, b: nat)
    requires lb <= |r|
  {
    if Slow(b, pv, sl) then
      || (|r| > 0 && TrailingZeros(|r|) == b && |r| - Pow2(b) <= lb)
      || (0 < lb < |r| && TrailingZeros(lb) == b)
    else
      || (lb < |r| && TrailingZeros(lb + 1) == b && r[lb].key != key)
      || (PastEnd(|r|, lb, b) && (b == 0 || (b < pv && b < sl && (b == 1 || PastEnd(|r|, lb, b - 1)))))
  }

  lemma WrongAt(r: seq<Entry>, key: nat, lb: nat, pv: nat, sl: nat, b: nat)
    requires lb <= |r| && sl > 0
    ensures GoesWrong(r, key, lb, pv, sl, NodeAt(lb, b), b) <==> WrongLevel(r, key, lb, pv, sl, b)
  {
    if Slow(b, pv, sl) {
      NodeIsRecord(lb, b, |r|);
      NodeIsRecord(lb, b, lb);
    } else {
      NodeIsRecord(lb, b, lb + 1);
      PastEndIs(|r|, lb, b);
      PastEndBelow(|r|, lb, b);
    }
  }

  lemma NodeIsRecord(lb: nat, b: nat, m: nat)
    requires lb <= m
    ensures NodeAt(lb, b) == m <==> m > 0 && TrailingZeros(m) == b && m - Pow2(b) <= lb
  {
    if m > 0 {
      NodeIs(lb, b, m);
    }
  }

  lemma PastEndBelow(n: nat, lb: nat, b: nat)
    requires lb <= n
    ensures b > 0 && NodeAt(lb, b) > n ==> (PastEnd(n, lb, b - 1) <==> NodeAt(lb, b) - Pow2(b - 1) > n)
  {
    if b > 0 && NodeAt(lb, b) > n {
      PastEndIs(n, lb, b - 1);
      LeftOfNode(lb, b);
    }
  }

  lemma LeftOfNode(lb: nat, b: nat)
    requires b > 0 && lb < NodeAt(lb, b)
    ensures NodeAt(lb, b - 1) == NodeAt(lb, b) - Pow2(b - 1)
  {
    var m := NodeAt(lb, b);
    NodeIs(lb, b, m);
    LevelSteps(m, b);
    NodeIs(lb, b - 1, m - Pow2(b - 1));
  }

  lemma RightWay(r: seq<Entry>, key: nat, lb: nat, pv: nat, sl: nat)
    requires lb <= |r| && sl > 0
    ensures WayIsRight(r, key, lb, pv, sl, DepthOf(|r|) - 1) <==> RightAsWritten(r, key, lb, pv, sl)
  {
    if WayIsRight(r, key, lb, pv, sl, DepthOf(|r|) - 1) {
      forall b: nat | b < DepthOf(|r|) ensures !WrongLevel(r, key, lb, pv, sl, b) {
        WrongAt(r, key, lb, pv, sl, b);
      }
      NoLevelWrong(r, key, lb, pv, sl);
    } else {
      var b :| 0 <= b <= DepthOf(|r|) - 1 && GoesWrong(r, key, lb, pv, sl, NodeAt(lb, b), b);
      WrongAt(r, key, lb, pv, sl, b);
      SomeLevelWrong(r, key, lb, pv, sl, b);
    }
  }

  lemma NoLevelWrong(r: seq<Entry>, key: nat, lb: nat, pv: nat, sl: nat)
    requires lb <= |r| && sl > 0 && forall b: nat :: b < DepthOf(|r|) ==> !WrongLevel(r, key, lb, pv, sl, b)
    ensures RightAsWritten(r, key, lb, pv, sl)
  {
    var n := |r|;
    if lb < n {
      LevelInTree(lb + 1, n);
      assert !WrongLevel(r, key, lb, pv, sl, TrailingZeros(lb + 1));
    }
    if 0 < lb < n {
      LevelInTree(lb, n);
      assert !WrongLevel(r, key, lb, pv, sl, TrailingZeros(lb));
    }
    if n > 0 {
      LevelInTree(n, n);
      assert !WrongLevel(r, key, lb, pv, sl, TrailingZeros(n));
    }
    forall b | 0 <= b < DepthOf(n) && (b == 0 || (b < pv && b < sl)) && PastEnd(n, lb, b)
      ensures b >= 2 && !PastEnd(n, lb, b - 1)
    {
      assert !WrongLevel(r, key, lb, pv, sl, b);
    }
  }

  lemma SomeLevelWrong(r: seq<Entry>, key: nat, lb: nat, pv: nat, sl: nat, b: nat)
    requires lb <= |r| && sl > 0 && b < DepthOf(|r|) && WrongLevel(r, key, lb, pv, sl, b)
    ensures !RightAsWritten(r, key, lb, pv, sl)
  {
  }

  lemma RootOnWay(n: nat, lb: nat)
    requires lb <= n
    ensures OnWay(n, lb, Root(n))
  {
    DepthOfBounds(n);
    TrailingZerosOfPow2(DepthOf(n) - 1);
  }

  ghost predicate AlwaysRight(r: seq<Entry>, key: nat, pv: nat, sl: nat) {
    forall junk: Junk :: IsRight(r, key, WrittenSearch(r, key, pv, sl, junk))
  }

  // The search as written finds the first record that is not too small, whatever the buffer holds
  // behind the records, exactly under this condition on the number of records, the number of
  // smaller keys and the next key.
  lemma WrittenSearchRightIff(r: seq<Entry>, key: nat, pv: nat, sl: nat)
    requires KeysSorted(r) && sl > 0
    ensures Below(r, key) <= |r|
    ensures AlwaysRight(r, key, pv, sl) <==> RightAsWritten(r, key, Below(r, key), pv, sl)
  {
    BelowIsPrefix(r, key);
    var lb := Below(r, key);
    RootOnWay(|r|, lb);
    RightWay(r, key, lb, pv, sl);
    if RightAsWritten(r, key, lb, pv, sl) {
      forall junk: Junk ensures IsRight(r, key, WrittenSearch(r, key, pv, sl, junk)) {
        WalkIsRight(r, key, lb, pv, sl, junk, Root(|r|));
      }
    } else {
      WalkGoesWrong(r, key, lb, pv, sl, Root(|r|));
      assert !IsRight(r, key, WrittenSearch(r, key, pv, sl, Misleading(|r|, lb, key)));
    }
  }

  // ---- Where there is nothing to find ----

  // A match that does no harm if the range has nothing in it: none, or a record behind it.
  ghost predicate Harmless(n: nat, lb: nat, o: Outcome) { o.Found? && (o.m == -1 || lb < o.m <= n) }

  ghost predicate WayIsClear(n: nat, lb: nat, pv: nat, sl: nat, b: nat) {
    forall c :: 0 <= c <= b ==> !Strays(n, lb, pv, sl, NodeAt(lb, c), c)
  }

  ghost predicate NotStored(r: seq<Entry>, key: nat) { forall i :: 0 <= i < |r| ==> r[i].key != key }

  lemma StaysAtNode(r: seq<Entry>, key: nat, lb: nat, pv: nat, sl: nat, s: PosState)
    requires AtNode(|r|, lb, s) && s.below > 0
    ensures var t := NextOnWay(r, key, lb, pv, sl, s);
      AtNode(|r|, lb, t) && (t.lastMatch == s.lastMatch || lb < t.lastMatch <= |r|)
  {
    LevelSteps(s.index, s.below);
  }

  lemma {:induction false} WalkIsHarmless(r: seq<Entry>, key: nat, lb: nat, pv: nat, sl: nat, junk: Junk, s: PosState)
    requires KeysSorted(r) && CutAt(r, key, lb) && NotStored(r, key) && AtNode(|r|, lb, s)
    requires Harmless(|r|, lb, Found(s.lastMatch))
    requires WayIsClear(|r|, lb, pv, sl, s.below)
    ensures Harmless(|r|, lb, WrittenWalk(r, key, pv, sl, junk, s))
    decreases s.below
  {
    NodeIs(lb, s.below, s.index);
    if s.below > 0 {
      TakesTheWay(r, key, lb, pv, sl, junk, s);
      StaysAtNode(r, key, lb, pv, sl, s);
      WalkIsHarmless(r, key, lb, pv, sl, junk, NextOnWay(r, key, lb, pv, sl, s));
    }
  }

  // The key everywhere behind the records.
  ghost function Decoy(key: nat): Junk { (_: nat) => key }

  // In the buffer, a match behind the records stays one.
  lemma {:induction false} StaysBehind(r: seq<Entry>, key: nat, pv: nat, sl: nat, s: PosState)
    requires NotStored(r, key) && Pow2(s.below) <= s.index && s.below < pv && s.below < sl && s.lastMatch > |r|
    ensures var o := WrittenWalk(r, key, pv, sl, Decoy(key), s); o.Found? ==> o.m > |r|
    decreases s.below
  {
    if s.below > 0 && s.index <= |r| {
      StaysBehind(r, key, pv, sl, Compared(s, key, r[s.index - 1].key));
    } else if s.below > 1 {
      StaysBehind(r, key, pv, sl, Compared(Left(s), key, KeyAt(r, Decoy(key), Left(s).index)));
    }
  }

  lemma StrayHarms(r: seq<Entry>, key: nat, lb: nat, pv: nat, sl: nat, s: PosState)
    requires KeysSorted(r) && CutAt(r, key, lb) && NotStored(r, key) && AtNode(|r|, lb, s)
    requires Strays(|r|, lb, pv, sl, s.index, s.below)
    ensures !Harmless(|r|, lb, WrittenWalk(r, key, pv, sl, Decoy(key), s))
  {
    if Slow(s.below, pv, sl) && s.below > 0 {
      if s.index < |r| {
        assert key <= r[s.index].key;
        MatchInSubtree(r, key, pv, sl, Decoy(key), Left(Matched(s)));
      }
    } else if s.below > 1 {
      assert KeyAt(r, Decoy(key), Left(s).index) == key;
      StaysBehind(r, key, pv, sl, Left(Matched(Left(s))));
    }
  }

  lemma {:induction false} WalkHarms(r: seq<Entry>, key: nat, lb: nat, pv: nat, sl: nat, s: PosState)
    requires KeysSorted(r) && CutAt(r, key, lb) && NotStored(r, key) && AtNode(|r|, lb, s)
    requires !WayIsClear(|r|, lb, pv, sl, s.below)
    ensures !Harmless(|r|, lb, WrittenWalk(r, key, pv, sl, Decoy(key), s))
    decreases s.below
  {
    NodeIs(lb, s.below, s.index);
    if Strays(|r|, lb, pv, sl, s.index, s.below) {
      StrayHarms(r, key, lb, pv, sl, s);
    } else {
      assert s.below > 0 && !WayIsClear(|r|, lb, pv, sl, s.below - 1);
      TakesTheWay(r, key, lb, pv, sl, Decoy(key), s);
      StaysAtNode(r, key, lb, pv, sl, s);
      WalkHarms(r, key, lb, pv, sl, NextOnWay(r, key, lb, pv, sl, s));
    }
  }

  // Whether the way goes astray does not depend on the next record.
  lemma StraysIff(r: seq<Entry>, key: nat, lb: nat, pv: nat, sl: nat)
    requires lb <= |r| && sl > 0
    ensures NotAstray(|r|, lb, pv, sl) <==> WayIsClear(|r|, lb, pv, sl, DepthOf(|r|) - 1)
  {
    var found := if lb < |r| then r[lb := Entry(key, 0)] else r;
    RightWay(found, key, lb, pv, sl);
    if NotAstray(|r|, lb, pv, sl) {
      assert WayIsRight(found, key, lb, pv, sl, DepthOf(|r|) - 1);
      forall c | 0 <= c <= DepthOf(|r|) - 1 ensures !Strays(|r|, lb, pv, sl, NodeAt(lb, c), c) {
        assert !GoesWrong(found, key, lb, pv, sl, NodeAt(lb, c), c);
      }
    }
  }

  ghost predicate NeverHarms(r: seq<Entry>, key: nat, lb: nat, pv: nat, sl: nat) {
    forall junk: Junk :: Harmless(|r|, lb, WrittenSearch(r, key, pv, sl, junk))
  }

  lemma ClearIsHarmless(r: seq<Entry>, key: nat, lb: nat, pv: nat, sl: nat)
    requires KeysSorted(r) && CutAt(r, key, lb) && NotStored(r, key) && OnWay(|r|, lb, Root(|r|))
    requires WayIsClear(|r|, lb, pv, sl, DepthOf(|r|) - 1)
    ensures NeverHarms(r, key, lb, pv, sl)
  {
    forall junk: Junk ensures Harmless(|r|, lb, WrittenSearch(r, key, pv, sl, junk)) {
      WalkIsHarmless(r, key, lb, pv, sl, junk, Root(|r|));
    }
  }

  // The search for a key that is not stored does no harm to an empty range exactly under the
  // conditions that are left when there is nothing to miss.
  lemma HarmlessIff(r: seq<Entry>, key: nat, pv: nat, sl: nat)
    requires KeysSorted(r) && sl > 0 && NotStored(r, key)
    ensures Below(r, key) <= |r|
    ensures NeverHarms(r, key, Below(r, key), pv, sl) <==> NotAstray(|r|, Below(r, key), pv, sl)
  {
    BelowIsPrefix(r, key);
    var lb := Below(r, key);
    RootOnWay(|r|, lb);
    StraysIff(r, key, lb, pv, sl);
    if NotAstray(|r|, lb, pv, sl) {
      ClearIsHarmless(r, key, lb, pv, sl);
    } else {
      WalkHarms(r, key, lb, pv, sl, Root(|r|));
      assert !Harmless(|r|, lb, WrittenSearch(r, key, pv, sl, Decoy(key)));
    }
  }

  lemma NoneSlow(r: seq<Entry>, key: nat, lb: nat, d: nat)
    requires lb <= |r|
    ensures RightAsWritten(r, key, lb, d, d) <==> (lb == |r| || r[lb].key == key) && StaysInside(|r|, lb, d, d)
  {
    assert forall b :: !Slow(b, d, d);
  }

  // With a file small enough to be read at once, and no preview: the key must be stored or all
  // keys smaller, and the way must stay among the records as above.
  lemma BufferedSearchRightIff(r: seq<Entry>, key: nat)
    requires KeysSorted(r)
    ensures Below(r, key) <= |r|
    ensures var n, lb, d := |r|, Below(r, key), DepthOf(|r|);
      AlwaysRight(r, key, d, d) <==> (lb == n || r[lb].key == key) && StaysInside(n, lb, d, d)
  {
    BelowIsPrefix(r, key);
    var n, lb, d := |r|, Below(r, key), DepthOf(|r|);
    WrittenSearchRightIff(r, key, d, d);
    NoneSlow(r, key, lb, d);
  }

  // ---- Inputs ----

  function Keyed(n: nat): (r: seq<Entry>)
    ensures |r| == n && forall i :: 0 <= i < n ==> r[i] == Entry(i + 1, 32 + i)
  {
    seq(n, i requires i >= 0 => Entry(i + 1, 32 + i))
  }

  // Keys 1, 3 and 5 are stored: the records from key 2 on are the second and the third, but the
  // search for 2 finds none.
  lemma MissesRange(junk: Junk)
    ensures var r := [Entry(1, 40), Entry(3, 41), Entry(5, 42)];
      KeysSorted(r) && WrittenSearch(r, 2, 2, 2, junk) == Found(-1) && IsFirstAtLeast(r, 2, 2)
  {
    var r := [Entry(1, 40), Entry(3, 41), Entry(5, 42)];
    assert Pow2(0) == 1 && Pow2(1) == 2;
    assert DepthOf(3) == 1 + DepthOf(1) == 2;
    assert Compared(Root(3), 2, r[1].key) == PosState(1, 0, -1);
  }

  // Keys 1 to 9 are stored. On the way to 9 the node behind 12 is 10, and neither is there. With
  // zeros behind the records the search turns right at 10 and finds nothing.
  lemma MissesLastOfNine()
    ensures KeysSorted(Keyed(9)) && IsFirstAtLeast(Keyed(9), 9, 9)
    ensures WrittenSearch(Keyed(9), 9, 4, 4, (_: nat) => 0) == Found(-1)
  {
    var r, zeros: Junk := Keyed(9), (_: nat) => 0;
    RootOfNine();
    assert Compared(Root(9), 9, r[7].key) == PosState(12, 2, -1);
    assert WrittenSearch(r, 9, 4, 4, zeros) == WrittenWalk(r, 9, 4, 4, zeros, PosState(12, 2, -1));
    FromTwelve(r, zeros);
  }

  lemma RootOfNine()
    ensures Pow2(1) == 2 && Pow2(2) == 4 && Pow2(3) == 8 && Root(9) == PosState(8, 3, -1)
  {
    assert Pow2(0) == 1 && Pow2(1) == 2 && Pow2(2) == 4 && Pow2(3) == 8;
    assert DepthOf(9) == 1 + DepthOf(4) && DepthOf(4) == 1 + DepthOf(2) && DepthOf(2) == 1 + DepthOf(1);
  }

  lemma FromTwelve(r: seq<Entry>, zeros: Junk)
    requires r == Keyed(9) && zeros(10) == zeros(11) == 0
    ensures Pow2(2) == 4 && WrittenWalk(r, 9, 4, 4, zeros, PosState(12, 2, -1)) == Found(-1)
  {
    assert Pow2(0) == 1 && Pow2(1) == 2 && Pow2(2) == 4;
    assert Compared(Left(PosState(12, 2, -1)), 9, 0) == PosState(11, 0, -1);
    assert WrittenWalk(r, 9, 4, 4, zeros, PosState(11, 0, -1)) == Found(-1);
  }

  // Keys 1 to 5 are stored. The way to 5 ends below the leaves.
  lemma LosesLastOfFive(junk: Junk)
    ensures KeysSorted(Keyed(5)) && WrittenSearch(Keyed(5), 5, 3, 3, junk) == Lost
  {
    var r := Keyed(5);
    assert Pow2(0) == 1 && Pow2(1) == 2 && Pow2(2) == 4;
    assert DepthOf(5) == 1 + DepthOf(2) && DepthOf(2) == 1 + DepthOf(1);
    assert Compared(Root(5), 5, r[3].key) == PosState(6, 1, -1);
  }

  // In an empty file a key can be found that happens to lie in the buffer.
  lemma FindsInEmptyFile(key: nat)
    ensures WrittenSearch([], key, 1, 1, (_: nat) => key) == Found(1) && !IsFirstAtLeast([], key, 1)
  {
    assert Pow2(0) == 1;
    assert Root(0) == PosState(1, 0, -1);
    var none: seq<Entry> := [];
    assert KeyAt(none, (_: nat) => key, 1) == key;
  }

  // Keys 1, 3 and 5 are stored, and the upper of two levels is walked one record at a time: the
  // search for 5 finds 3.
  lemma SeekFindsSmaller(junk: Junk)
    ensures var r := [Entry(1, 40), Entry(3, 41), Entry(5, 42)];
      KeysSorted(r) && WrittenSearch(r, 5, 2, 1, junk) == Found(2) && IsFirstAtLeast(r, 5, 3)
  {
    var r := [Entry(1, 40), Entry(3, 41), Entry(5, 42)];
    assert Pow2(0) == 1 && Pow2(1) == 2;
    assert DepthOf(3) == 1 + DepthOf(1) == 2;
    assert Left(Matched(Root(3))) == PosState(1, 0, 2);
  }

  // Keys 1 and 2 are stored: at the last record there is nothing to read.
  lemma SeekFails(key: nat, junk: Junk)
    ensures KeysSorted(Keyed(2)) && WrittenSearch(Keyed(2), key, 2, 1, junk) == Failed
  {
    assert Pow2(0) == 1 && Pow2(1) == 2;
    assert DepthOf(2) == 1 + DepthOf(1) == 2;
  }
}

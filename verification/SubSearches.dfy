// Sub-searches with their signs, as values: what one says about another, and what pruning leaves
// of a clause of them (core/apps/capture_node_api/lib/search/node.py).

module SubSearches {
  import opened Network

  // The keys of one sub-index from start to end.
  datatype SubSearch = SubSearch(tt: KeyType, start: nat, end: nat)

  // A sub-search, or its opposite.
  datatype Signed = Signed(sub: SubSearch, inverted: bool)

  datatype Topic = SourceAddress | DestinationAddress | SourcePort | DestinationPort | Everything

  function About(tt: KeyType): Topic {
    match tt
    case SRCv4 => SourceAddress
    case SRCv6 => SourceAddress
    case DSTv4 => DestinationAddress
    case DSTv6 => DestinationAddress
    case SRCPORT => SourcePort
    case DSTPORT => DestinationPort
    case FLOW => Everything
  }

  // All keys of the first are keys of the second.
  predicate Within(a: SubSearch, b: SubSearch) { a.tt == b.tt && b.start <= a.start && a.end <= b.end }

  // They have no key in common.
  predicate Apart(a: SubSearch, b: SubSearch) { a.tt != b.tt || a.end < b.start || b.end < a.start }

  // The first says all that the second says, with the same sign.
  predicate StandsFor(x: Signed, y: Signed) {
    x.inverted == y.inverted && if x.inverted then Within(y.sub, x.sub) else Within(x.sub, y.sub)
  }

  // They ask opposite things of one address or port.
  predicate Excludes(x: Signed, y: Signed) {
    && About(x.sub.tt) == About(y.sub.tt)
    && if x.inverted == y.inverted then !x.inverted && Apart(x.sub, y.sub)
       else if x.inverted then Within(y.sub, x.sub) else Within(x.sub, y.sub)
  }

  ghost predicate Conflicted(w: seq<Signed>) {
    exists i, j :: 0 <= i < |w| && 0 <= j < |w| && Excludes(w[i], w[j])
  }

  ghost predicate Has(s: seq<Signed>, x: Signed) { x in s }

  // What pruning leaves of a clause: for each of its sub-searches one that stands for it, and none
  // that another one left stands for.
  ghost predicate PrunedTo(w: seq<Signed>, kept: seq<Signed>) {
    && (forall x {:trigger Has(kept, x)} :: Has(kept, x) ==> x in w)
    && (forall x {:trigger Has(w, x)} :: Has(w, x) ==> exists y :: Has(kept, y) && StandsFor(y, x))
    && (forall i, k :: 0 <= i < |kept| && 0 <= k < |kept| && i != k ==> !StandsFor(kept[i], kept[k]))
  }

  lemma Stands(x: Signed, y: Signed, z: Signed)
    ensures StandsFor(x, x)
    ensures StandsFor(x, y) && StandsFor(y, z) ==> StandsFor(x, z)
    ensures StandsFor(x, y) && StandsFor(y, x) ==> x == y
  {
  }

  // What stands for two that exclude each other excludes each other.
  lemma StillExcludes(x: Signed, y: Signed, a: Signed, b: Signed)
    requires Excludes(x, y) && StandsFor(a, x) && StandsFor(b, y)
    ensures Excludes(a, b)
  {
  }

  // A clause determines what is left of it, up to the order.
  lemma PrunedUnique(w: seq<Signed>, a: seq<Signed>, b: seq<Signed>)
    requires PrunedTo(w, a) && PrunedTo(w, b)
    ensures multiset(a) == multiset(b)
  {
    forall x ensures multiset(a)[x] == multiset(b)[x] {
      if x in a {
        LeftInBoth(w, a, b, x);
      }
      if x in b {
        LeftInBoth(w, b, a, x);
      }
      AtMostOnce(w, a, x);
      AtMostOnce(w, b, x);
    }
  }

  lemma LeftInBoth(w: seq<Signed>, a: seq<Signed>, b: seq<Signed>, x: Signed)
    requires PrunedTo(w, a) && PrunedTo(w, b) && x in a
    ensures x in b
  {
    assert Has(a, x) && Has(w, x);
    var y :| Has(b, y) && StandsFor(y, x);
    assert Has(w, y);
    var z :| Has(a, z) && StandsFor(z, y);
    Stands(z, y, x);
    OnlyItself(w, a, z, x);
    Stands(x, y, x);
  }

  lemma OnlyItself(w: seq<Signed>, kept: seq<Signed>, x: Signed, y: Signed)
    requires PrunedTo(w, kept) && x in kept && y in kept && StandsFor(x, y)
    ensures x == y
  {
    var i :| 0 <= i < |kept| && kept[i] == x;
    var k :| 0 <= k < |kept| && kept[k] == y;
  }

  lemma {:induction false} Twice(s: seq<Signed>, x: Signed)
    requires forall i, k :: 0 <= i < k < |s| ==> s[i] != x || s[k] != x
    ensures multiset(s)[x] <= 1
  {
    if s != [] {
      assert s == s[..|s| - 1] + [s[|s| - 1]];
      Twice(s[..|s| - 1], x);
      if s[|s| - 1] == x {
        assert x !in s[..|s| - 1];
      }
    }
  }

  lemma AtMostOnce(w: seq<Signed>, a: seq<Signed>, x: Signed)
    requires PrunedTo(w, a)
    ensures multiset(a)[x] <= 1
  {
    Stands(x, x, x);
    Twice(a, x);
  }

  // What is left of all clauses, in their order: those that are not in conflict, pruned.
  ghost predicate LeftFrom(was: seq<seq<Signed>>, left: seq<seq<Signed>>) {
    if was == [] then left == []
    else
      var n, m := |was| - 1, |left| - 1;
      if Conflicted(was[n]) then LeftFrom(was[..n], left)
      else left != [] && PrunedTo(was[n], left[m]) && LeftFrom(was[..n], left[..m])
  }

  lemma LeftMore(was: seq<seq<Signed>>, left: seq<seq<Signed>>, w: seq<Signed>, kept: seq<Signed>)
    requires LeftFrom(was, left)
    ensures Conflicted(w) ==> LeftFrom(was + [w], left)
    ensures !Conflicted(w) && PrunedTo(w, kept) ==> LeftFrom(was + [w], left + [kept])
  {
    assert (was + [w])[..|was|] == was && (left + [kept])[..|left|] == left;
  }

  // Clauses in the same order, and the same but for the order in each.
  predicate SameInOrder(a: seq<seq<Signed>>, b: seq<seq<Signed>>) {
    |a| == |b| && forall i :: 0 <= i < |a| ==> multiset(a[i]) == multiset(b[i])
  }

  lemma AlikeIn(w: seq<Signed>, v: seq<Signed>, x: Signed)
    requires multiset(w) == multiset(v)
    ensures x in w <==> x in v
  {
    assert x in multiset(w) <==> x in multiset(v);
  }

  lemma ConflictedAlike(w: seq<Signed>, v: seq<Signed>)
    requires multiset(w) == multiset(v) && Conflicted(w)
    ensures Conflicted(v)
  {
    var i, j :| 0 <= i < |w| && 0 <= j < |w| && Excludes(w[i], w[j]);
    AlikeIn(w, v, w[i]);
    AlikeIn(w, v, w[j]);
    var k :| 0 <= k < |v| && v[k] == w[i];
    var l :| 0 <= l < |v| && v[l] == w[j];
    assert Excludes(v[k], v[l]);
  }

  lemma PrunedAlike(w: seq<Signed>, v: seq<Signed>, kept: seq<Signed>)
    requires multiset(w) == multiset(v) && PrunedTo(w, kept)
    ensures PrunedTo(v, kept)
  {
    forall x ensures x in w <==> x in v {
      AlikeIn(w, v, x);
    }
    forall x | Has(v, x) ensures exists y :: Has(kept, y) && StandsFor(y, x) {
      assert Has(w, x);
    }
  }

  // It is determined by the clauses and their order, up to the order in each.
  lemma {:induction false} LeftUnique(was: seq<seq<Signed>>, vas: seq<seq<Signed>>, a: seq<seq<Signed>>,
                                      b: seq<seq<Signed>>)
    requires SameInOrder(was, vas) && LeftFrom(was, a) && LeftFrom(vas, b)
    ensures SameInOrder(a, b)
  {
    if was != [] {
      var n := |was| - 1;
      if Conflicted(was[n]) {
        ConflictedAlike(was[n], vas[n]);
        LeftUnique(was[..n], vas[..n], a, b);
      } else {
        if Conflicted(vas[n]) {
          ConflictedAlike(vas[n], was[n]);
        }
        LeftUnique(was[..n], vas[..n], a[..|a| - 1], b[..|b| - 1]);
        PrunedAlike(vas[n], was[n], b[|b| - 1]);
        PrunedUnique(was[n], a[|a| - 1], b[|b| - 1]);
      }
    }
  }

  lemma {:induction false} LeftIsOf(was: seq<seq<Signed>>, left: seq<seq<Signed>>, j: nat) returns (i: nat)
    requires LeftFrom(was, left) && j < |left|
    ensures i < |was| && !Conflicted(was[i]) && PrunedTo(was[i], left[j])
  {
    var n := |was| - 1;
    if Conflicted(was[n]) {
      i := LeftIsOf(was[..n], left, j);
    } else if j == |left| - 1 {
      i := n;
    } else {
      i := LeftIsOf(was[..n], left[..|left| - 1], j);
    }
  }

  // ---- Names ----

  // What the name of a clause is made from: its sub-searches without the signs.
  function Subs(c: seq<Signed>): multiset<SubSearch> {
    if c == [] then multiset{} else multiset{c[0].sub} + Subs(c[1..])
  }

  lemma {:induction false} SubsCount(c: seq<Signed>, s: SubSearch)
    ensures Subs(c)[s] == multiset(c)[Signed(s, false)] + multiset(c)[Signed(s, true)]
  {
    if c != [] {
      SubsCount(c[1..], s);
      assert c == [c[0]] + c[1..];
      assert c[0] == Signed(c[0].sub, c[0].inverted);
    }
  }

  // No two clauses have the same sub-searches and differ in the signs.
  ghost predicate SignsTell(left: seq<seq<Signed>>) {
    forall i, j :: 0 <= i < |left| && 0 <= j < |left| ==>
      Subs(left[i]) == Subs(left[j]) ==> multiset(left[i]) == multiset(left[j])
  }

  // No sub-search has both signs in these clauses.
  ghost predicate OneSigned(left: seq<seq<Signed>>) {
    forall i, j, x, y :: 0 <= i < |left| && 0 <= j < |left| && x in left[i] && y in left[j] && x.sub == y.sub ==>
      x.inverted == y.inverted
  }

  lemma OneSignedTells(left: seq<seq<Signed>>)
    requires OneSigned(left)
    ensures SignsTell(left)
  {
    forall i, j | 0 <= i < |left| && 0 <= j < |left| && Subs(left[i]) == Subs(left[j])
      ensures multiset(left[i]) == multiset(left[j])
    {
      forall x ensures multiset(left[i])[x] == multiset(left[j])[x] {
        OneSignedCount(left, i, j, x);
      }
    }
  }

  lemma OneSignedCount(left: seq<seq<Signed>>, i: nat, j: nat, x: Signed)
    requires OneSigned(left) && i < |left| && j < |left| && Subs(left[i]) == Subs(left[j])
    ensures multiset(left[i])[x] == multiset(left[j])[x]
  {
    SubsCount(left[i], x.sub);
    SubsCount(left[j], x.sub);
    var other := Signed(x.sub, !x.inverted);
    NotBoth(left, i, i, x, other);
    NotBoth(left, i, j, x, other);
    NotBoth(left, j, i, x, other);
    NotBoth(left, j, j, x, other);
  }

  lemma NotBoth(left: seq<seq<Signed>>, i: nat, j: nat, x: Signed, y: Signed)
    requires OneSigned(left) && i < |left| && j < |left| && x.sub == y.sub && x.inverted != y.inverted
    ensures multiset(left[i])[x] == 0 || multiset(left[j])[y] == 0
  {
    assert x in left[i] <==> x in multiset(left[i]);
    assert y in left[j] <==> y in multiset(left[j]);
  }

  // The first clause that has the same name.
  ghost function Namesake(left: seq<seq<Signed>>, a: nat): (b: nat)
    requires a < |left|
    ensures b <= a && Subs(left[b]) == Subs(left[a])
    ensures forall c :: 0 <= c < b ==> Subs(left[c]) != Subs(left[a])
  {
    NamesakeFrom(left, a, 0)
  }

  ghost function NamesakeFrom(left: seq<seq<Signed>>, a: nat, from: nat): (b: nat)
    requires from <= a < |left|
    ensures from <= b <= a && Subs(left[b]) == Subs(left[a])
    ensures forall c :: from <= c < b ==> Subs(left[c]) != Subs(left[a])
    decreases a - from
  {
    if Subs(left[from]) == Subs(left[a]) then from else NamesakeFrom(left, a, from + 1)
  }

  // ---- What is found ----

  // The flow with this first packet has a key in the range.
  predicate Answers(p: PacketRecord, s: SubSearch) {
    s.tt != FLOW && Applies(p, s.tt) && s.start <= KeyVal(p, s.tt) <= s.end
  }

  ghost predicate AnswersAll(p: PacketRecord, c: seq<Signed>) { forall x <- c :: Answers(p, x.sub) != x.inverted }

  // The flow answers the first clause of some name.
  ghost predicate FoundFirst(p: PacketRecord, left: seq<seq<Signed>>) {
    exists a :: 0 <= a < |left| && AnswersAll(p, left[Namesake(left, a)])
  }

  ghost predicate FoundByAny(p: PacketRecord, was: seq<seq<Signed>>) {
    exists i :: 0 <= i < |was| && AnswersAll(p, was[i])
  }

  lemma StandsMeans(x: Signed, y: Signed, p: PacketRecord)
    requires StandsFor(x, y) && Answers(p, x.sub) != x.inverted
    ensures Answers(p, y.sub) != y.inverted
  {
  }

  lemma ExcludesMeans(x: Signed, y: Signed, p: PacketRecord)
    requires Excludes(x, y) && Answers(p, x.sub) != x.inverted
    ensures Answers(p, y.sub) == y.inverted
  {
  }

  // A pruned clause means the same, and one in conflict nothing.
  lemma PrunedMeans(w: seq<Signed>, kept: seq<Signed>, p: PacketRecord)
    requires PrunedTo(w, kept)
    ensures AnswersAll(p, w) <==> AnswersAll(p, kept)
  {
    forall x | x in kept && AnswersAll(p, w) ensures Answers(p, x.sub) != x.inverted {
      assert Has(kept, x);
    }
    forall x | x in w && AnswersAll(p, kept) ensures Answers(p, x.sub) != x.inverted {
      assert Has(w, x);
      var y :| Has(kept, y) && StandsFor(y, x);
      StandsMeans(y, x, p);
    }
  }

  lemma ConflictMeans(w: seq<Signed>, p: PacketRecord)
    requires Conflicted(w)
    ensures !AnswersAll(p, w)
  {
    var i, j :| 0 <= i < |w| && 0 <= j < |w| && Excludes(w[i], w[j]);
    if AnswersAll(p, w) {
      ExcludesMeans(w[i], w[j], p);
    }
  }

  // What is left finds what was to be found.
  lemma {:induction false} LeftMeans(was: seq<seq<Signed>>, left: seq<seq<Signed>>, p: PacketRecord)
    requires LeftFrom(was, left)
    ensures FoundByAny(p, was) <==> FoundByAny(p, left)
  {
    if was != [] {
      var n, m := |was| - 1, |left| - 1;
      OneLess(was, p);
      if Conflicted(was[n]) {
        LeftMeans(was[..n], left, p);
        ConflictMeans(was[n], p);
      } else {
        LeftMeans(was[..n], left[..m], p);
        PrunedMeans(was[n], left[m], p);
        OneLess(left, p);
      }
    }
  }

  lemma OneLess(was: seq<seq<Signed>>, p: PacketRecord)
    requires was != []
    ensures FoundByAny(p, was) <==> FoundByAny(p, was[..|was| - 1]) || AnswersAll(p, was[|was| - 1])
  {
    if i :| 0 <= i < |was| - 1 && AnswersAll(p, was[i]) {
      assert AnswersAll(p, was[..|was| - 1][i]);
    }
  }

  // Nothing else is found, and everything if the signs tell the clauses apart.
  lemma FirstMeans(left: seq<seq<Signed>>, p: PacketRecord)
    ensures FoundFirst(p, left) ==> FoundByAny(p, left)
    ensures SignsTell(left) ==> (FoundFirst(p, left) <==> FoundByAny(p, left))
  {
    if SignsTell(left) && FoundByAny(p, left) {
      var a :| 0 <= a < |left| && AnswersAll(p, left[a]);
      SameAnswered(left[a], left[Namesake(left, a)], p);
    }
  }

  lemma SameAnswered(c: seq<Signed>, d: seq<Signed>, p: PacketRecord)
    requires multiset(c) == multiset(d) && AnswersAll(p, c)
    ensures AnswersAll(p, d)
  {
    forall x | x in d ensures Answers(p, x.sub) != x.inverted {
      assert x in multiset(d);
    }
  }

  lemma SubsAlike(c: seq<Signed>, d: seq<Signed>)
    requires multiset(c) == multiset(d)
    ensures Subs(c) == Subs(d)
  {
    forall s ensures Subs(c)[s] == Subs(d)[s] {
      SubsCount(c, s);
      SubsCount(d, s);
    }
  }

  // What is found is determined by the clauses left and their order.
  lemma FoundAlike(a: seq<seq<Signed>>, b: seq<seq<Signed>>, p: PacketRecord)
    requires SameInOrder(a, b) && FoundFirst(p, a)
    ensures FoundFirst(p, b)
  {
    var i :| 0 <= i < |a| && AnswersAll(p, a[Namesake(a, i)]);
    forall j | 0 <= j < |a| ensures Subs(a[j]) == Subs(b[j]) {
      SubsAlike(a[j], b[j]);
    }
    var k := Namesake(a, i);
    assert Namesake(b, i) == k;
    SameAnswered(a[k], b[k], p);
  }
}

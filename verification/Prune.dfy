// Pruning a normalised search (core/apps/capture_node_api/lib/search/node.py).

module Prune {
  import opened Sequences
  import opened Bits
  import opened Network
  import opened SubSearches

  // ---- Blocks of addresses ----

  // A network as in section 3.1 of RFC 4632: all addresses that share a prefix. `width` is the
  // length of an address in bits.
  datatype Net = Net(width: nat, prefix: nat, base: nat)

  type Block = b: Net | b.prefix <= b.width witness Net(0, 0, 0)

  ghost predicate IsBlock(b: Block) { b.base % Size(b) == 0 }

  function Size(b: Block): (n: nat)
    ensures n >= 1
  {
    Pow2(b.width - b.prefix)
  }

  predicate Contains(b: Block, x: nat)
  {
    b.base <= x < b.base + Size(b)
  }

  // Whether the ends of one are in the other.
  predicate Overlaps(a: Block, b: Block)
  {
    Contains(a, b.base) || Contains(a, b.base + Size(b) - 1) || Contains(b, a.base) || Contains(b, a.base + Size(a) - 1)
  }

  lemma Multiple(d: int, size: nat)
    ensures d >= 1 ==> d * size >= size
    ensures d <= 0 ==> d * size <= 0
  {
  }

  // Multiples of a size do not come between one multiple and the next.
  lemma Multiples(a: int, b: int, size: nat)
    requires size >= 1 && a * size < (b + 1) * size
    ensures a <= b && a * size <= b * size
  {
    assert (b + 1) * size == b * size + size;
    assert (a - b) * size == a * size - b * size;
    Multiple(a - b, size);
  }

  lemma Aligned(m: nat, n: nat, k: nat, size: nat)
    requires size >= 1 && m * (k * size) - size < n * size < m * (k * size) + k * size
    ensures m * (k * size) <= n * size && n * size + size <= m * (k * size) + k * size
  {
    var q := m * k;
    assert m * (k * size) == q * size;
    assert (q + k) * size == q * size + k * size;
    assert (n + 1) * size == n * size + size;
    assert (q + k - 1 + 1) * size == (q + k) * size;
    Multiples(q, n, size);
    Multiples(n, q + k - 1, size);
    assert (q + k - 1) * size == (q + k) * size - size;
  }

  lemma AlignedBases(a: nat, b: nat, k: nat, size: nat)
    requires size >= 1 && k * size >= 1 && a % (k * size) == 0 && b % size == 0
    requires a - size < b < a + k * size
    ensures a <= b && b + size <= a + k * size
  {
    var m, n := a / (k * size), b / size;
    assert a == m * (k * size) && b == n * size;
    Aligned(m, n, k, size);
  }

  // Blocks are nested or disjoint: if they overlap, the one with the shorter prefix contains
  // the other.
  lemma NestedOrDisjoint(a: Block, b: Block)
    requires IsBlock(a) && IsBlock(b) && a.width == b.width && a.prefix <= b.prefix
    ensures if Overlaps(a, b) then a.base <= b.base && b.base + Size(b) <= a.base + Size(a)
            else b.base + Size(b) <= a.base || a.base + Size(a) <= b.base
  {
    if Overlaps(a, b) {
      Pow2Adds(b.prefix - a.prefix, b.width - b.prefix);
      AlignedBases(a.base, b.base, Pow2(b.prefix - a.prefix), Size(b));
    }
  }

  // A block starts at a multiple of its size and has the addresses with the same leading bits.
  lemma BlockBits(b: Block, x: nat)
    requires IsBlock(b)
    ensures b.base % Pow2(b.width - b.prefix) == 0
    ensures Contains(b, x) <==> x / Pow2(b.width - b.prefix) == b.base / Pow2(b.width - b.prefix)
  {
    var p := Pow2(b.width - b.prefix);
    var q := b.base / p;
    assert b.base == q * p;
    if Contains(b, x) {
      DivUnique(x, p, q, x - b.base);
    }
    assert x == (x / p) * p + x % p;
  }

  lemma BlocksCompare(a: Block, b: Block)
    requires IsBlock(a) && IsBlock(b) && a.width == b.width
    ensures Overlaps(a, b) && a.prefix <= b.prefix <==> a.base <= b.base && b.base + Size(b) <= a.base + Size(a)
    ensures Overlaps(a, b) <==> a.base < b.base + Size(b) && b.base < a.base + Size(a)
  {
    if a.prefix <= b.prefix {
      NestedOrDisjoint(a, b);
    } else {
      NestedOrDisjoint(b, a);
      LargerBlock(b, a);
    }
  }

  lemma LargerBlock(a: Block, b: Block)
    requires a.prefix < b.prefix && b.width == a.width
    ensures Size(a) > Size(b)
  {
    Pow2Adds(b.prefix - a.prefix, b.width - b.prefix);
    assert Pow2(b.prefix - a.prefix) >= 2;
    Multiple(Pow2(b.prefix - a.prefix) - 1, Size(b));
    assert Pow2(b.prefix - a.prefix) * Size(b) == (Pow2(b.prefix - a.prefix) - 1) * Size(b) + Size(b);
  }

  // ---- Atoms ----

  // A search atom: of the type of its sub-index, with a network or a port. What an atom has
  // no use for is of no account.
  class Atom {
    const tt: KeyType
    const block: Block
    const port: nat
    const inverted: bool

    constructor (tt: KeyType, block: Block, port: nat, inverted: bool)
      ensures this.tt == tt && this.block == block && this.port == port && this.inverted == inverted
    {
      this.tt, this.block, this.port, this.inverted := tt, block, port, inverted;
    }
  }

  predicate IsIp(tt: KeyType) { tt == SRCv4 || tt == SRCv6 || tt == DSTv4 || tt == DSTv6 }

  ghost predicate GoodAtom(a: Atom) {
    a.tt != FLOW && IsBlock(a.block) && (IsIp(a.tt) ==>
                                         a.block.width == if a.tt == SRCv4 || a.tt == DSTv4 then 32 else 128)
  }

  // From first_value to last_value.
  function RangeOf(tt: KeyType, block: Block, port: nat): SubSearch {
    if IsIp(tt) then SubSearch(tt, block.base, block.base + Size(block) - 1) else SubSearch(tt, port, port)
  }

  // From its network address to its broadcast address a network has all addresses with its prefix.
  lemma RangeSize(tt: KeyType, block: Block, port: nat)
    ensures IsIp(tt) ==> var s := RangeOf(tt, block, port);
                         s.start == block.base && s.end - s.start + 1 == Pow2(block.width - block.prefix)
    ensures !IsIp(tt) ==> RangeOf(tt, block, port).start == RangeOf(tt, block, port).end == port
  {
  }

  function SubFor(a: Atom): SubSearch { RangeOf(a.tt, a.block, a.port) }

  // What an atom asks for.
  function AskOf(a: Atom): Signed { Signed(SubFor(a), a.inverted) }

  // Whether a flow is one that the atom names, inversion aside.
  predicate Names(a: Atom, p: PacketRecord)
    requires a.tt != FLOW
  {
    Applies(p, a.tt) && if IsIp(a.tt) then Contains(a.block, KeyVal(p, a.tt)) else KeyVal(p, a.tt) == a.port
  }

  // is_prune_compat.
  predicate Compatible(a: Atom, b: Atom) {
    if IsIp(a.tt) then
      || ((a.tt == SRCv4 || a.tt == SRCv6) && (b.tt == SRCv4 || b.tt == SRCv6))
      || ((a.tt == DSTv4 || a.tt == DSTv6) && (b.tt == DSTv4 || b.tt == DSTv6))
    else a.tt == b.tt
  }

  predicate Intersects(a: Atom, b: Atom)
  {
    if IsIp(a.tt) then a.tt == b.tt && Overlaps(a.block, b.block) else a.port == b.port
  }

  predicate Superset(a: Atom, b: Atom)
  {
    Intersects(a, b) && (IsIp(a.tt) ==> a.block.prefix <= b.block.prefix)
  }

  // The tests of prune are about the ranges of the atoms.
  lemma AtomsCompare(a: Atom, b: Atom)
    requires GoodAtom(a) && GoodAtom(b)
    ensures Compatible(a, b) <==> About(a.tt) == About(b.tt)
    ensures Compatible(a, b) ==> (Superset(a, b) <==> Within(SubFor(b), SubFor(a)))
    ensures Compatible(a, b) ==> (Intersects(a, b) <==> !Apart(SubFor(a), SubFor(b)))
  {
    if IsIp(a.tt) && a.tt == b.tt {
      BlocksCompare(a.block, b.block);
    }
  }

  // An address of `bits` bits has the first `prefix` bits of the address `base`.
  predicate SharesPrefix(addr: seq<Byte>, base: nat, bits: nat, prefix: nat)
    requires prefix <= bits <= 8 * |addr|
  {
    BigEndian(addr, bits / 8) / Pow2(bits - prefix) == base / Pow2(bits - prefix)
  }

  // What an atom names, by the fields of a packet: a version of the address and its leading bits,
  // or a port.
  lemma NamesByFields(a: Atom, p: PacketRecord)
    requires GoodAtom(a)
    ensures a.tt == SRCv4 ==> (Names(a, p) <==>
                               p.src.vers == 4 && SharesPrefix(p.src.addr, a.block.base, 32, a.block.prefix))
    ensures a.tt == SRCv6 ==> (Names(a, p) <==>
                               p.src.vers == 6 && SharesPrefix(p.src.addr, a.block.base, 128, a.block.prefix))
    ensures a.tt == DSTv4 ==> (Names(a, p) <==>
                               p.dst.vers == 4 && SharesPrefix(p.dst.addr, a.block.base, 32, a.block.prefix))
    ensures a.tt == DSTv6 ==> (Names(a, p) <==>
                               p.dst.vers == 6 && SharesPrefix(p.dst.addr, a.block.base, 128, a.block.prefix))
    ensures a.tt == SRCPORT ==> (Names(a, p) <==> p.srcport == a.port)
    ensures a.tt == DSTPORT ==> (Names(a, p) <==> p.dstport == a.port)
  {
    BlockBits(a.block, KeyVal(p, a.tt));
  }

  // A superset names whatever the other names; atoms that do not intersect name nothing in
  // common; and of two that intersect one is a superset, so that intersect, union and subtract,
  // which no atom has, are never called.
  lemma NestedAtoms(a: Atom, b: Atom, p: PacketRecord)
    requires GoodAtom(a) && GoodAtom(b) && Compatible(a, b)
    ensures Superset(a, b) && Names(b, p) ==> Names(a, p)
    ensures !Intersects(a, b) ==> !(Names(a, p) && Names(b, p))
    ensures Intersects(a, b) ==> Superset(a, b) || Superset(b, a)
  {
    if IsIp(a.tt) && a.tt == b.tt {
      if a.block.prefix <= b.block.prefix {
        NestedOrDisjoint(a.block, b.block);
      } else {
        NestedOrDisjoint(b.block, a.block);
      }
    }
  }

  // ---- AND clauses ----

  ghost predicate Meets(a: Atom, p: PacketRecord)
    requires GoodAtom(a)
  {
    Names(a, p) != a.inverted
  }

  ghost predicate GoodAtoms(s: seq<Atom>) { forall a <- s :: GoodAtom(a) }

  // What the atoms ask for.
  function Asks(atoms: seq<Atom>): (r: seq<Signed>)
    ensures |r| == |atoms| && forall i :: 0 <= i < |r| ==> r[i] == AskOf(atoms[i])
  {
    seq(|atoms|, i requires 0 <= i < |atoms| => AskOf(atoms[i]))
  }

  ghost predicate MeetsAll(s: seq<Atom>, p: PacketRecord)
    requires GoodAtoms(s)
  {
    forall a <- s :: Meets(a, p)
  }

  ghost predicate HasPositive(s: seq<Atom>) { exists a <- s :: !a.inverted }

  ghost function Other<T>(y: T, x: T): seq<T> { if y == x then [] else [y] }

  // s without x.
  ghost function Without<T>(s: seq<T>, x: T): seq<T> {
    if s == [] then [] else Other(s[0], x) + Without(s[1..], x)
  }

  lemma {:induction false} WithoutHas<T>(s: seq<T>, x: T)
    ensures forall y <- Without(s, x) :: y in s && y != x
    ensures forall y <- s :: y != x ==> y in Without(s, x)
    ensures x !in s ==> Without(s, x) == s
  {
    if s != [] {
      WithoutHas(s[1..], x);
    }
  }

  lemma {:induction false} TakenOutAt<T>(s: seq<T>, i: nat)
    requires i < |s| && Distinct(s)
    ensures s[..i] + s[i + 1..] == Without(s, s[i])
  {
    assert forall j :: 1 <= j < |s| ==> s[1..][j - 1] == s[j];
    if i == 0 {
      WithoutHas(s[1..], s[0]);
      assert s[0] !in s[1..];
    } else {
      TakenOutAt(s[1..], i - 1);
      assert s[..i] + s[i + 1..] == [s[0]] + (s[1..][..i - 1] + s[1..][i..]);
    }
  }

  lemma {:induction false} StillDistinct<T>(s: seq<T>, x: T)
    requires Distinct(s)
    ensures Distinct(Without(s, x))
  {
    if s != [] {
      StillDistinct(s[1..], x);
      WithoutHas(s[1..], x);
      var r := Without(s[1..], x);
      assert forall j :: 0 <= j < |r| ==> r[j] in s[1..];
    }
  }

  ghost predicate SameAnswers(s: seq<Atom>, t: seq<Atom>)
    requires GoodAtoms(s) && GoodAtoms(t)
  {
    forall p :: MeetsAll(s, p) == MeetsAll(t, p)
  }

  // Taking out an atom that another implies.
  lemma Implied(s: seq<Atom>, a: Atom, b: Atom)
    requires GoodAtoms(s) && a in s && b in s && a != b && forall p :: Meets(b, p) ==> Meets(a, p)
    ensures GoodAtoms(Without(s, a)) && SameAnswers(s, Without(s, a))
    ensures a.inverted == b.inverted ==> (HasPositive(s) <==> HasPositive(Without(s, a)))
  {
    var r := Without(s, a);
    WithoutHas(s, a);
    forall p ensures MeetsAll(s, p) == MeetsAll(r, p) {
      if MeetsAll(r, p) {
        assert Meets(b, p);
      }
    }
    if HasPositive(s) && a.inverted == b.inverted {
      var c :| c in s && !c.inverted;
      assert if c == a then b in r else c in r;
    }
  }

  lemma SupersetImplies(a: Atom, b: Atom)
    requires GoodAtom(a) && GoodAtom(b) && Compatible(a, b) && Superset(a, b)
    ensures !a.inverted && !b.inverted ==> forall p :: Meets(b, p) ==> Meets(a, p)
    ensures a.inverted && b.inverted ==> forall p :: Meets(a, p) ==> Meets(b, p)
    ensures a.inverted && !b.inverted ==> forall p :: !(Meets(a, p) && Meets(b, p))
  {
    forall p ensures Names(b, p) ==> Names(a, p) {
      NestedAtoms(a, b, p);
    }
  }

  lemma NothingInCommon(a: Atom, b: Atom)
    requires GoodAtom(a) && GoodAtom(b) && Compatible(a, b) && !Intersects(a, b) && !a.inverted && !b.inverted
    ensures forall p :: !(Meets(a, p) && Meets(b, p))
  {
    forall p ensures !(Meets(a, p) && Meets(b, p)) {
      NestedAtoms(a, b, p);
    }
  }

  // ---- What pruning leaves ----

  ghost predicate Stands(x: Atom, y: Atom)
    requires GoodAtom(x) && GoodAtom(y)
  {
    StandsFor(AskOf(x), AskOf(y))
  }

  ghost predicate Opposed(x: Atom, y: Atom)
    requires GoodAtom(x) && GoodAtom(y)
  {
    Excludes(AskOf(x), AskOf(y)) || Excludes(AskOf(y), AskOf(x))
  }

  // Neither stands for the other, and they can be asked for together.
  ghost predicate Unrelated(x: Atom, y: Atom)
    requires GoodAtom(x) && GoodAtom(y)
  {
    !Stands(x, y) && !Stands(y, x) && !Opposed(x, y)
  }

  ghost predicate CoveredBy(x: Atom, kept: seq<Atom>)
    requires GoodAtom(x) && GoodAtoms(kept)
  {
    exists y <- kept :: Stands(y, x)
  }

  // For each atom one of those kept stands.
  ghost predicate Covered(all: seq<Atom>, kept: seq<Atom>)
    requires GoodAtoms(all) && GoodAtoms(kept)
  {
    forall x {:trigger CoveredBy(x, kept)} | x in all :: CoveredBy(x, kept)
  }

  lemma CoveredStill(all: seq<Atom>, before: seq<Atom>, kept: seq<Atom>)
    requires GoodAtoms(all) && GoodAtoms(before) && GoodAtoms(kept) && Covered(all, before) && Covered(before, kept)
    ensures Covered(all, kept)
  {
    forall x | x in all ensures CoveredBy(x, kept) {
      assert CoveredBy(x, before);
      var y :| y in before && Stands(y, x);
      assert CoveredBy(y, kept);
      var z :| z in kept && Stands(z, y);
      SubSearches.Stands(AskOf(z), AskOf(y), AskOf(x));
    }
  }

  lemma CoversItself(s: seq<Atom>)
    requires GoodAtoms(s)
    ensures Covered(s, s)
  {
    forall x | x in s ensures CoveredBy(x, s) {
      assert Stands(x, x);
    }
  }

  // Taking out an atom that another stands for.
  lemma CoveredWithout(s: seq<Atom>, a: Atom, b: Atom)
    requires GoodAtoms(s) && a in s && b in s && a != b && Stands(b, a)
    ensures GoodAtoms(Without(s, a)) && Covered(s, Without(s, a))
  {
    WithoutHas(s, a);
    forall x | x in s ensures CoveredBy(x, Without(s, a)) {
      assert if x == a then b in Without(s, a) else x in Without(s, a) && Stands(x, x);
    }
  }

  // What the cases of prune come to: for atoms about one thing the tests tell which stands for
  // which; others are unrelated.
  lemma PairTells(a: Atom, b: Atom)
    requires GoodAtom(a) && GoodAtom(b)
    ensures !Compatible(a, b) ==> Unrelated(a, b)
    ensures Compatible(a, b) && a.inverted == b.inverted && Superset(a, b) ==>
            if a.inverted then Stands(a, b) else Stands(b, a)
    ensures Compatible(a, b) && a.inverted == b.inverted && !Superset(a, b) && !Superset(b, a) ==>
      !Stands(a, b) && !Stands(b, a) && (Opposed(a, b) <==> !a.inverted && !Intersects(a, b))
    ensures Compatible(a, b) && a.inverted && !b.inverted ==>
      !Stands(a, b) && !Stands(b, a) && (Opposed(a, b) <==> Superset(a, b))
  {
    AtomsCompare(a, b);
    AtomsCompare(b, a);
  }

  // Of the pairs of `all` up to (i, j), those still there are unrelated.
  ghost predicate Settled(all: seq<Atom>, kept: seq<Atom>, i: nat, j: nat)
    requires GoodAtoms(all)
  {
    forall k, l :: 0 <= k < l < |all| && (k < i || (k == i && l < j)) && all[k] in kept && all[l] in kept ==>
      Unrelated(all[k], all[l])
  }

  lemma SettledStill(all: seq<Atom>, before: seq<Atom>, kept: seq<Atom>, i: nat, j: nat)
    requires GoodAtoms(all) && Settled(all, before, i, j) && (forall x <- kept :: x in before) && i < j < |all|
    requires all[i] in kept && all[j] in kept ==> Unrelated(all[i], all[j])
    ensures Settled(all, kept, i, j + 1)
  {
  }

  lemma SettledAll(all: seq<Atom>, kept: seq<Atom>, x: Atom, y: Atom)
    requires GoodAtoms(all) && Settled(all, kept, |all|, 0) && x in kept && y in kept && x != y && x in all && y in all
    ensures Unrelated(x, y)
  {
    var k :| 0 <= k < |all| && all[k] == x;
    var l :| 0 <= l < |all| && all[l] == y;
    assert if k < l then Unrelated(all[k], all[l]) else Unrelated(all[l], all[k]);
  }

  lemma SettledAsks(all: seq<Atom>, kept: seq<Atom>, k: nat, l: nat)
    requires GoodAtoms(all) && GoodAtoms(kept) && Distinct(kept) && (forall x <- kept :: x in all)
    requires Settled(all, kept, |all|, 0) && k < |kept| && l < |kept|
    ensures k != l ==> !StandsFor(Asks(kept)[k], Asks(kept)[l])
    ensures !Excludes(Asks(kept)[k], Asks(kept)[l])
  {
    NotItself(kept[k]);
    if k != l {
      SettledAll(all, kept, kept[k], kept[l]);
    }
  }

  lemma NotItself(a: Atom)
    requires GoodAtom(a)
    ensures !Excludes(AskOf(a), AskOf(a))
  {
  }

  lemma CoverAt(all: seq<Atom>, kept: seq<Atom>, i: nat) returns (k: nat)
    requires GoodAtoms(all) && GoodAtoms(kept) && Covered(all, kept) && i < |all|
    ensures k < |kept| && StandsFor(Asks(kept)[k], Asks(all)[i])
  {
    assert all[i] in all && CoveredBy(all[i], kept);
    var y :| y in kept && Stands(y, all[i]);
    k :| 0 <= k < |kept| && kept[k] == y;
  }

  lemma NoConflict(all: seq<Atom>, kept: seq<Atom>, i: nat, j: nat)
    requires GoodAtoms(all) && GoodAtoms(kept) && Distinct(kept) && (forall x <- kept :: x in all)
    requires Covered(all, kept) && Settled(all, kept, |all|, 0) && i < |all| && j < |all|
    ensures !Excludes(Asks(all)[i], Asks(all)[j])
  {
    if Excludes(Asks(all)[i], Asks(all)[j]) {
      var k := CoverAt(all, kept, i);
      var l := CoverAt(all, kept, j);
      StillExcludes(Asks(all)[i], Asks(all)[j], Asks(kept)[k], Asks(kept)[l]);
      SettledAsks(all, kept, k, l);
    }
  }

  lemma AsksChosen(all: seq<Atom>, kept: seq<Atom>, x: Signed)
    requires GoodAtoms(all) && GoodAtoms(kept) && (forall y <- kept :: y in all) && x in Asks(kept)
    ensures x in Asks(all)
  {
    var i :| 0 <= i < |kept| && Asks(kept)[i] == x;
    assert kept[i] in kept;
    var j :| 0 <= j < |all| && all[j] == kept[i];
    assert Asks(all)[j] == x;
  }

  lemma AsksCovered(all: seq<Atom>, kept: seq<Atom>, x: Signed) returns (y: Signed)
    requires GoodAtoms(all) && GoodAtoms(kept) && Covered(all, kept) && x in Asks(all)
    ensures Has(Asks(kept), y) && StandsFor(y, x)
  {
    var i :| 0 <= i < |all| && Asks(all)[i] == x;
    var k := CoverAt(all, kept, i);
    y := Asks(kept)[k];
  }

  lemma InConflict(all: seq<Atom>, i: nat, j: nat)
    requires GoodAtoms(all) && i < |all| && j < |all| && Opposed(all[i], all[j])
    ensures Conflicted(Asks(all))
  {
    assert Excludes(Asks(all)[i], Asks(all)[j]) || Excludes(Asks(all)[j], Asks(all)[i]);
  }

  // When all pairs are settled the clause is pruned, and was not in conflict.
  lemma PrunedInFull(all: seq<Atom>, kept: seq<Atom>)
    requires GoodAtoms(all) && GoodAtoms(kept) && Distinct(kept) && (forall x <- kept :: x in all)
    requires Covered(all, kept) && Settled(all, kept, |all|, 0)
    ensures PrunedTo(Asks(all), Asks(kept)) && !Conflicted(Asks(all))
  {
    forall x | Has(Asks(kept), x) ensures x in Asks(all) {
      AsksChosen(all, kept, x);
    }
    forall x | Has(Asks(all), x) ensures exists y :: Has(Asks(kept), y) && StandsFor(y, x) {
      var y := AsksCovered(all, kept, x);
    }
    forall i, k | 0 <= i < |kept| && 0 <= k < |kept| && i != k ensures !StandsFor(Asks(kept)[i], Asks(kept)[k]) {
      SettledAsks(all, kept, i, k);
    }
    forall i, j | 0 <= i < |all| && 0 <= j < |all| ensures !Excludes(Asks(all)[i], Asks(all)[j]) {
      NoConflict(all, kept, i, j);
    }
  }

  class AndClause {
    var atoms: seq<Atom>
    var parent: OrRoot?

    constructor (atoms: seq<Atom>)
      ensures this.atoms == atoms && parent == null
    {
      this.atoms, parent := atoms, null;
    }

    ghost predicate Good() reads `atoms { GoodAtoms(atoms) && Distinct(atoms) }

    // remove: takes out the first that is this very atom.
    method Remove(atom: Atom) returns (ok: bool)
      requires Distinct(atoms)
      modifies `atoms
      ensures ok <==> atom in old(atoms)
      ensures atoms == Without(old(atoms), atom) && Distinct(atoms)
    {
      StillDistinct(atoms, atom);
      for i := 0 to |atoms|
        invariant atoms == old(atoms) && atom !in atoms[..i]
      {
        if atoms[i] == atom {
          TakenOutAt(atoms, i);
          atoms := atoms[..i] + atoms[i + 1..];
          return true;
        }
      }
      assert atoms[..|atoms|] == atoms;
      WithoutHas(atoms, atom);
      ok := false;
    }

    // One comparison of prune; `gone` when the clause can match nothing.
    method PrunePair(first: Atom, second: Atom) returns (gone: bool)
      requires Good() && GoodAtom(first) && GoodAtom(second) && first != second
      modifies `atoms
      ensures Good() && forall x <- atoms :: x in old(atoms)
      ensures Covered(old(atoms), atoms)
      ensures !gone && first in atoms && second in atoms ==> Unrelated(first, second)
      ensures gone ==> atoms == old(atoms) && first in atoms && second in atoms && Opposed(first, second)
      ensures !gone ==> SameAnswers(old(atoms), atoms) && (HasPositive(atoms) <==> HasPositive(old(atoms)))
      ensures gone ==> HasPositive(old(atoms)) && forall p :: !MeetsAll(old(atoms), p)
    {
      var atom1, atom2 := first, second;
      var ok;
      gone := false;
      PairTells(atom1, atom2);
      PairTells(atom2, atom1);
      CoversItself(atoms);
      if !(Compatible(atom1, atom2) && atom1 in atoms && atom2 in atoms) {
        return;
      }
      WithoutHas(atoms, atom1);
      WithoutHas(atoms, atom2);
      if !(atom1.inverted || atom2.inverted) {
        if Superset(atom1, atom2) {
          SupersetImplies(atom1, atom2);
          CoveredWithout(atoms, atom1, atom2);
          Implied(atoms, atom1, atom2);
          ok := Remove(atom1);
        } else if Superset(atom2, atom1) {
          SupersetImplies(atom2, atom1);
          CoveredWithout(atoms, atom2, atom1);
          Implied(atoms, atom2, atom1);
          ok := Remove(atom2);
        } else if Intersects(atom1, atom2) {
          assert false;
        } else {
          NothingInCommon(atom1, atom2);
          gone := true;
        }
      } else if atom1.inverted && atom2.inverted {
        if Superset(atom1, atom2) {
          SupersetImplies(atom1, atom2);
          CoveredWithout(atoms, atom2, atom1);
          Implied(atoms, atom2, atom1);
          ok := Remove(atom2);
        } else if Superset(atom2, atom1) {
          SupersetImplies(atom2, atom1);
          CoveredWithout(atoms, atom1, atom2);
          Implied(atoms, atom1, atom2);
          ok := Remove(atom1);
        } else if Intersects(atom1, atom2) {
          assert false;
        }
      } else {
        if atom2.inverted {
          atom1, atom2 := atom2, atom1;
        }
        if Superset(atom1, atom2) {
          SupersetImplies(atom1, atom2);
          gone := true;
        } else if Superset(atom2, atom1) {
        } else if Intersects(atom1, atom2) {
          assert false;
        }
      }
    }

    // prune_all: empties the clause and takes it out of the search.
    method PruneAll()
      requires Distinct(atoms) && (parent != null ==> Distinct(parent.clauses) && this in parent.clauses)
      modifies `atoms, `parent, (if parent == null then {} else {parent})`clauses
      ensures atoms == [] && parent == null
      ensures old(parent) != null ==> old(parent).clauses == Without(old(parent.clauses), this)
    {
      var all := atoms;
      for i := 0 to |all|
        invariant Distinct(atoms) && atoms == all[i..]
        invariant parent == old(parent) && (parent != null ==> parent.clauses == old(parent.clauses))
      {
        var ok := Remove(all[i]);
        FirstOut(all[i..]);
      }
      if parent != null {
        var ok := parent.Remove(this);
      }
    }

    // The pairs of `all` up to (i, j) have been compared.
    ghost predicate Comparing(all: seq<Atom>, i: nat, j: nat)
      requires Good()
      reads `atoms
    {
      && GoodAtoms(all) && (forall x <- atoms :: x in all) && SameAnswers(all, atoms)
      && (HasPositive(atoms) <==> HasPositive(all))
      && Covered(all, atoms) && Settled(all, atoms, i, j)
    }

    method CompareNext(all: seq<Atom>, i: nat, j: nat) returns (gone: bool)
      requires Good() && Comparing(all, i, j) && i < j < |all| && Distinct(all)
      modifies `atoms
      ensures Good() && (!gone ==> Comparing(all, i, j + 1))
      ensures gone ==> Conflicted(Asks(all)) && HasPositive(all) && forall p :: !MeetsAll(all, p)
    {
      assert GoodAtom(all[i]) && GoodAtom(all[j]);
      ghost var before := atoms;
      gone := PrunePair(all[i], all[j]);
      if gone {
        InConflict(all, i, j);
        assert forall p :: MeetsAll(all, p) == MeetsAll(before, p);
      } else {
        CoveredStill(all, before, atoms);
        SettledStill(all, before, atoms, i, j);
      }
    }

    // prune: what is left means the same, or the clause is out because nothing can match it.
    // It fails, with a ParseError, exactly if no atom is positive.
    method Prune() returns (r: Outcome)
      requires Good() && (parent != null ==> Distinct(parent.clauses) && this in parent.clauses)
      modifies `atoms, `parent, (if parent == null then {} else {parent})`clauses
      ensures r == NoPositive <==> !HasPositive(old(atoms))
      ensures r == Gone <==> Conflicted(Asks(old(atoms)))
      ensures r == Kept ==> Good() && HasPositive(atoms) && SameAnswers(old(atoms), atoms) &&
                            forall x <- atoms :: x in old(atoms)
      ensures r == Kept ==> PrunedTo(Asks(old(atoms)), Asks(atoms))
      ensures r != Gone ==> parent == old(parent) && (parent != null ==> parent.clauses == old(parent.clauses))
      ensures r == Gone ==> atoms == [] && forall p :: !MeetsAll(old(atoms), p)
      ensures r == Gone && old(parent) != null ==> old(parent).clauses == Without(old(parent.clauses), this)
    {
      var all := atoms;
      CoversItself(all);
      for i := 0 to |all|
        invariant Good() && Comparing(all, i, 0)
        invariant parent == old(parent) && (parent != null ==> parent.clauses == old(parent.clauses))
      {
        for j := i + 1 to |all|
          invariant Good() && Comparing(all, i, j)
          invariant parent == old(parent) && (parent != null ==> parent.clauses == old(parent.clauses))
        {
          var gone := CompareNext(all, i, j);
          if gone {
            PruneAll();
            return Gone;
          }
        }
      }
      PrunedInFull(all, atoms);
      var posAssert := false;
      for k := 0 to |atoms|
        invariant posAssert <==> exists m :: 0 <= m < k && !atoms[m].inverted
      {
        if !atoms[k].inverted {
          posAssert := true;
        }
      }
      r := if posAssert then Kept else NoPositive;
    }
  }

  datatype Outcome = Kept | Gone | NoPositive

  lemma FirstOut<T>(s: seq<T>)
    requires s != [] && Distinct(s)
    ensures Without(s, s[0]) == s[1..] && Distinct(s[1..])
  {
    assert forall j :: 1 <= j < |s| ==> s[1..][j - 1] == s[j];
    WithoutHas(s[1..], s[0]);
    assert s[0] !in s[1..];
  }

  ghost function AtomsOf(clauses: seq<AndClause>): (r: seq<seq<Atom>>)
    reads clauses
    ensures |r| == |clauses| && forall k :: 0 <= k < |r| ==> r[k] == clauses[k].atoms
  {
    seq(|clauses|, k requires 0 <= k < |clauses| reads clauses => clauses[k].atoms)
  }

  // What the clauses ask for.
  ghost function AllAsks(was: seq<seq<Atom>>): (r: seq<seq<Signed>>)
    ensures |r| == |was| && forall i :: 0 <= i < |r| ==> r[i] == Asks(was[i])
  {
    seq(|was|, i requires 0 <= i < |was| => Asks(was[i]))
  }

  // Every clause has a positive atom, and some clause asks no opposite things.
  ghost predicate Searchable(was: seq<seq<Atom>>) { AllPositive(was) && SomeFree(was) }

  ghost predicate AllPositive(was: seq<seq<Atom>>) { forall i :: 0 <= i < |was| ==> HasPositive(was[i]) }

  ghost predicate SomeFree(was: seq<seq<Atom>>) { exists i :: 0 <= i < |was| && !Conflicted(Asks(was[i])) }

  lemma OneMoreAsks(was: seq<seq<Atom>>, w: seq<Atom>)
    ensures AllAsks(was + [w]) == AllAsks(was) + [Asks(w)]
  {
  }

  // Those of `all` that are among `some`, in their order.
  ghost function Staying(all: seq<AndClause>, some: seq<AndClause>): seq<AndClause> {
    if all == [] then []
    else
      var last := all[|all| - 1];
      Staying(all[..|all| - 1], some) + if last in some then [last] else []
  }

  lemma {:induction false} WithoutOfTwo<T>(a: seq<T>, b: seq<T>, x: T)
    ensures Without(a + b, x) == Without(a, x) + Without(b, x)
  {
    if a == [] {
      assert a + b == b;
    } else {
      WithoutOfTwo(a[1..], b, x);
      assert (a + b)[1..] == a[1..] + b;
      Associates(Other(a[0], x), Without(a[1..], x), Without(b, x));
    }
  }

  lemma {:induction false} StayingWithout(all: seq<AndClause>, some: seq<AndClause>, c: AndClause)
    ensures Without(Staying(all, some), c) == Staying(all, Without(some, c))
  {
    WithoutHas(some, c);
    if all != [] {
      var front, last := all[..|all| - 1], all[|all| - 1];
      StayingWithout(front, some, c);
      WithoutOfTwo(Staying(front, some), if last in some then [last] else [], c);
      assert Without([last], c) == if last == c then [] else [last] by {
        assert [last][1..] == [];
      }
    }
  }

  lemma {:induction false} AllStay(all: seq<AndClause>, some: seq<AndClause>)
    requires forall c <- all :: c in some
    ensures Staying(all, some) == all
  {
    if all != [] {
      AllStay(all[..|all| - 1], some);
      assert all == all[..|all| - 1] + [all[|all| - 1]];
    }
  }

  class OrRoot {
    var clauses: seq<AndClause>

    constructor ()
      ensures clauses == []
    {
      clauses := [];
    }

    method Remove(clause: AndClause) returns (ok: bool)
      requires Distinct(clauses)
      modifies `clauses, clause`parent
      ensures ok <==> clause in old(clauses)
      ensures clauses == Without(old(clauses), clause) && Distinct(clauses) && clause.parent == null
    {
      clause.parent := null;
      StillDistinct(clauses, clause);
      for i := 0 to |clauses|
        invariant clauses == old(clauses) && clause !in clauses[..i]
      {
        if clauses[i] == clause {
          TakenOutAt(clauses, i);
          clauses := clauses[..i] + clauses[i + 1..];
          return true;
        }
      }
      assert clauses[..|clauses|] == clauses;
      WithoutHas(clauses, clause);
      ok := false;
    }

    ghost predicate Good()
      reads this, clauses
    {
      Distinct(clauses) && forall c <- clauses :: c.Good() && c.parent == this
    }

    // The search: whether a flow meets all of some clause.
    ghost predicate Finds(p: PacketRecord)
      reads this, clauses
    {
      exists c <- clauses :: c.Good() && MeetsAll(c.atoms, p)
    }

    // The clause c, which had the atoms w, has been pruned: it is still there and means the
    // same, or it is out because nothing could match it.
    ghost predicate Treated(c: AndClause, w: seq<Atom>)
      reads `clauses, c`atoms
    {
      && GoodAtoms(w) && HasPositive(w)
      && (c in clauses <==> !Conflicted(Asks(w)))
      && if c in clauses then GoodAtoms(c.atoms) && HasPositive(c.atoms) && SameAnswers(w, c.atoms) &&
         (forall x <- c.atoms :: x in w) && PrunedTo(Asks(w), Asks(c.atoms))
         else forall p :: !MeetsAll(w, p)
    }

    // The first k clauses have been pruned, the others are as they were.
    ghost predicate Pruning(all: seq<AndClause>, was: seq<seq<Atom>>, k: nat)
      requires k <= |all| == |was|
      reads this, clauses, all
    {
      && Good() && Distinct(all) && (forall c <- clauses :: c in all) && clauses == Staying(all, clauses)
      && (forall i :: 0 <= i < k ==> Treated(all[i], was[i]))
      && forall i :: k <= i < |all| ==> all[i] in clauses && all[i].atoms == was[i]
    }

    method PruneNext(c: AndClause, ghost all: seq<AndClause>, ghost was: seq<seq<Atom>>, ghost k: nat)
      returns (ok: bool)
      requires k < |all| == |was| && c == all[k] && Pruning(all, was, k)
      modifies `clauses, c
      ensures ok <==> HasPositive(was[k])
      ensures ok ==> Pruning(all, was, k + 1)
    {
      WithoutHas(clauses, c);
      StillDistinct(clauses, c);
      StayingWithout(all, clauses, c);
      assert c.Good() && forall i :: 0 <= i < |all| && i != k ==> all[i] != c;
      var r := c.Prune();
      ok := r != NoPositive;
    }

    // What is left when all clauses have been pruned.
    lemma AllPruned(all: seq<AndClause>, was: seq<seq<Atom>>)
      requires |all| == |was| && Pruning(all, was, |all|)
      ensures forall i :: 0 <= i < |was| ==> GoodAtoms(was[i])
      ensures forall p :: Finds(p) <==> exists i :: 0 <= i < |was| && MeetsAll(was[i], p)
      ensures forall c <- clauses :: HasPositive(c.atoms)
    {
      forall i | 0 <= i < |was| ensures GoodAtoms(was[i]) {
        assert Treated(all[i], was[i]);
      }
      forall c | c in clauses ensures HasPositive(c.atoms) {
        var i :| 0 <= i < |all| && all[i] == c;
        assert Treated(all[i], was[i]);
      }
      forall p ensures Finds(p) <==> exists i :: 0 <= i < |was| && MeetsAll(was[i], p) {
        if Finds(p) {
          var c :| c in clauses && c.Good() && MeetsAll(c.atoms, p);
          var i :| 0 <= i < |all| && all[i] == c;
          assert Treated(all[i], was[i]);
        }
        if i :| 0 <= i < |was| && MeetsAll(was[i], p) {
          assert Treated(all[i], was[i]);
          assert all[i] in clauses && all[i].Good();
        }
      }
    }

    lemma SomeLeft(all: seq<AndClause>, was: seq<seq<Atom>>)
      requires |all| == |was| && Pruning(all, was, |all|) && forall i :: 0 <= i < |was| ==> GoodAtoms(was[i])
      ensures clauses != [] <==> SomeFree(was)
    {
      if clauses != [] {
        assert clauses[0] in clauses;
        var i :| 0 <= i < |all| && all[i] == clauses[0];
        assert Treated(all[i], was[i]);
      }
      if i :| 0 <= i < |was| && !Conflicted(Asks(was[i])) {
        assert Treated(all[i], was[i]);
      }
    }

    lemma OneStays(before: seq<AndClause>, c: AndClause, was: seq<seq<Atom>>, w: seq<Atom>)
      requires LeftFrom(AllAsks(was), AllAsks(AtomsOf(before)))
      requires !Conflicted(Asks(w)) && PrunedTo(Asks(w), Asks(c.atoms))
      ensures LeftFrom(AllAsks(was) + [Asks(w)], AllAsks(AtomsOf(before + [c])))
    {
      assert AtomsOf(before + [c]) == AtomsOf(before) + [c.atoms];
      OneMoreAsks(AtomsOf(before), c.atoms);
      LeftMore(AllAsks(was), AllAsks(AtomsOf(before)), Asks(w), Asks(c.atoms));
    }

    // The clauses left are those that are not in conflict, pruned, in their order.
    lemma {:induction false} LeftInOrder(all: seq<AndClause>, was: seq<seq<Atom>>)
      requires |all| == |was| && forall i :: 0 <= i < |was| ==> Treated(all[i], was[i])
      ensures (forall i :: 0 <= i < |was| ==> GoodAtoms(was[i]))
      ensures forall c <- Staying(all, clauses) :: GoodAtoms(c.atoms)
      ensures LeftFrom(AllAsks(was), AllAsks(AtomsOf(Staying(all, clauses))))
    {
      if all != [] {
        var n := |all| - 1;
        LeftInOrder(all[..n], was[..n]);
        assert Treated(all[n], was[n]);
        var before := Staying(all[..n], clauses);
        OneMoreAsks(was[..n], was[n]);
        assert was == was[..n] + [was[n]];
        if all[n] in clauses {
          OneStays(before, all[n], was[..n], was[n]);
        } else {
          LeftMore(AllAsks(was[..n]), AllAsks(AtomsOf(before)), Asks(was[n]), []);
          assert before + [] == before;
        }
      }
    }

    // prune. It fails, with a ParseError, if a clause has no positive atom or nothing is left,
    // which is only if nothing can match the search. Otherwise the search finds what it found,
    // and every clause left has a positive atom.
    method Prune(ghost was: seq<seq<Atom>>) returns (ok: bool)
      requires Good() && |was| == |clauses| &&
               forall i :: 0 <= i < |was| ==> clauses[i].atoms == was[i] && GoodAtoms(was[i])
      modifies this, clauses
      ensures ok ==> Good() && clauses != [] && forall c <- clauses :: HasPositive(c.atoms) && c in old(clauses)
      ensures ok <==> Searchable(was)
      ensures ok ==> forall i :: 0 <= i < |was| ==> Treated(old(clauses[i]), was[i])
      ensures ok ==> LeftFrom(AllAsks(was), AllAsks(AtomsOf(clauses)))
      ensures ok ==> forall p :: Finds(p) <==> exists i :: 0 <= i < |was| && MeetsAll(was[i], p)
      ensures !ok ==> (exists i :: 0 <= i < |was| && !HasPositive(was[i])) ||
                      forall p, i :: 0 <= i < |was| ==> !MeetsAll(was[i], p)
    {
      var all := clauses;
      AllStay(all, clauses);
      for k := 0 to |all|
        invariant Pruning(all, was, k)
        invariant forall i :: 0 <= i < k ==> HasPositive(was[i])
      {
        ok := PruneNext(all[k], all, was, k);
        if !ok {
          assert !AllPositive(was);
          return;
        }
      }
      assert AllPositive(was);
      AllPruned(all, was);
      LeftInOrder(all, was);
      ok := clauses != [];
      SomeLeft(all, was);
    }
  }
}

// The left-filled tree over a sorted record array (indexer/output.c, indexer/search/subindex.c).
// Positions count from 1; a tree of depth d has its root at 2^(d-1), and positions past the
// last record are virtual nodes.

module LeftFilled {
  import opened Bits
  import opened Network

  const DISK_BLOCK: nat := 4096
  const HEADER_SIZE: nat := 32

  // Number of trailing zero bits.
  function TrailingZeros(n: nat): nat
    requires n > 0
  {
    if n % 2 == 1 then 0 else 1 + TrailingZeros(n / 2)
  }

  lemma {:induction false} MultipleHalves(n: nat, p: nat)
    requires p > 0
    ensures n % (2 * p) == 0 <==> n % 2 == 0 && (n / 2) % p == 0
  {
    if n % (2 * p) == 0 {
      var q := n / (2 * p);
      assert n == (2 * p) * q == 2 * (p * q);
      assert n / 2 == p * q == q * p;
      MultipleMod(q, p);
    }
    if n % 2 == 0 && (n / 2) % p == 0 {
      var q := (n / 2) / p;
      assert n / 2 == p * q;
      assert n == (2 * p) * q == q * (2 * p);
      MultipleMod(q, 2 * p);
    }
  }

  lemma MultipleMod(q: nat, p: nat)
    requires p > 0
    ensures (q * p) % p == 0
  {
    DivUnique(q * p, p, q, 0);
  }

  // A number has at least k trailing zeros exactly when 2^k divides it.
  lemma {:induction false} TrailingZerosDivide(n: nat, k: nat)
    requires n > 0
    ensures TrailingZeros(n) >= k <==> n % Pow2(k) == 0
  {
    if k > 0 {
      MultipleHalves(n, Pow2(k - 1));
      if n % 2 == 0 {
        TrailingZerosDivide(n / 2, k - 1);
      }
    }
  }

  lemma {:induction false} TrailingZerosOfPow2(k: nat)
    ensures TrailingZeros(Pow2(k)) == k
  {
    if k > 0 {
      TrailingZerosOfPow2(k - 1);
    }
  }

  // Taking the top bit away leaves the trailing zeros.
  lemma {:induction false} TrailingZerosBelowTop(n: nat, k: nat)
    requires Pow2(k) < n < 2 * Pow2(k)
    ensures TrailingZeros(n - Pow2(k)) == TrailingZeros(n)
  {
    if k > 0 && n % 2 == 0 {
      TrailingZerosBelowTop(n / 2, k - 1);
      assert (n - Pow2(k)) / 2 == n / 2 - Pow2(k - 1);
    }
  }

  // ---- Depth of the tree and of a node ----

  // The least depth, from 1 on, whose perfect tree has room for all records.
  function DepthOf(records: nat): (d: nat)
    ensures d >= 1
  {
    if records <= 1 then 1 else 1 + DepthOf(records / 2)
  }

  lemma {:induction false} DepthOfBounds(records: nat)
    ensures records < Pow2(DepthOf(records))
    ensures records > 0 ==> Pow2(DepthOf(records) - 1) <= records
  {
    assert Pow2(0) == 1 && Pow2(1) == 2;
    if records > 1 {
      DepthOfBounds(records / 2);
    }
  }

  lemma {:induction false} Pow2Grows(a: nat, b: nat)
    requires a <= b
    ensures Pow2(a) <= Pow2(b)
  {
    if a < b {
      Pow2Grows(a, b - 1);
    }
  }

  lemma DepthOfIsLeast(records: nat, d: nat)
    requires d >= 1 && records < Pow2(d)
    ensures DepthOf(records) <= d
  {
    DepthOfBounds(records);
    if d < DepthOf(records) && records > 0 {
      Pow2Grows(d, DepthOf(records) - 1);
    }
  }

  // The depth loop shared by node_depth and search_subindex.
  method TreeDepth(records: nat) returns (depth: nat)
    ensures depth == DepthOf(records)
  {
    DepthOfBounds(records);
    depth := 1;
    var cap := 2;
    while cap - 1 < records
      invariant 1 <= depth <= DepthOf(records) && cap == Pow2(depth)
      decreases DepthOf(records) - depth
    {
      if depth == DepthOf(records) {
        assert false;
      }
      cap := cap * 2;
      depth := depth + 1;
    }
    DepthOfIsLeast(records, depth);
  }

  // node_depth: the depth of the node is the depth of the tree less its trailing zeros.
  // The loop always finds the node, so the error value 0 is never returned.
  method NodeDepth(nodeNum: nat, total: nat) returns (d: nat)
    requires 1 <= nodeNum <= total
    ensures d == DepthOf(total) - TrailingZeros(nodeNum)
    ensures d >= 1
  {
    var depth := TreeDepth(total);
    DepthOfBounds(total);
    var num := nodeNum;
    d := 1;
    while d <= depth
      invariant 1 <= d <= depth
      invariant 1 <= num < 2 * Pow2(depth - d)
      invariant TrailingZeros(num) == TrailingZeros(nodeNum)
    {
      var leftNodes := Pow2(depth - d);
      if leftNodes < num {
        TrailingZerosBelowTop(num, depth - d);
        num := num - leftNodes;
      } else if leftNodes == num {
        TrailingZerosOfPow2(depth - d);
        return d;
      }
      d := d + 1;
    }
    assert false;
  }

  // ---- The preview ----

  function KeySize(tt: KeyType): nat
    requires tt != FLOW
  {
    match tt
    case SRCv4 => 4
    case DSTv4 => 4
    case SRCv6 => 16
    case DSTv6 => 16
    case SRCPORT => 2
    case DSTPORT => 2
  }

  // How many levels a disk block of keys can hold.
  function PreviewLevels(tt: KeyType): nat
    requires tt != FLOW
  {
    match KeySize(tt)
    case 2 => 11
    case 4 => 10
    case _ => 8
  }

  predicate HasPreview(tt: KeyType, records: nat) {
    tt != FLOW && records >= DISK_BLOCK / KeySize(tt)
  }

  // The writer's loop (preview_depth).
  method PreviewDepth(tt: KeyType, total: nat) returns (depth: nat)
    ensures depth == if HasPreview(tt, total) then PreviewLevels(tt) else 0
  {
    if tt == FLOW {
      return 0;
    }
    var base := DISK_BLOCK / KeySize(tt);
    if total < base {
      return 0;
    }
    ghost var n := PreviewLevels(tt) + 1;
    depth := 0;
    assert Pow2(8) == 256 && Pow2(10) == 1024 && Pow2(11) == 2048;
    while base != 0
      invariant 0 <= depth <= n
      invariant base == if depth == n then 0 else Pow2(n - 1 - depth)
      decreases n - depth
    {
      base := base / 2;
      depth := depth + 1;
    }
    return depth - 1;
  }

  // The reader's loop, at the start of search_preview.
  method ReaderPreviewDepth(tt: KeyType) returns (depth: nat)
    requires tt != FLOW
    ensures depth == PreviewLevels(tt)
  {
    var size := DISK_BLOCK / KeySize(tt);
    assert Pow2(8) == 256 && Pow2(10) == 1024 && Pow2(11) == 2048;
    depth := 0;
    var cap := 2;
    while cap - 1 < size
      invariant cap == 2 * Pow2(depth) && depth <= PreviewLevels(tt)
      decreases PreviewLevels(tt) - depth
    {
      if depth == PreviewLevels(tt) {
        assert false;
      }
      Pow2Grows(depth + 1, PreviewLevels(tt));
      cap := cap * 2;
      depth := depth + 1;
    }
    if depth < PreviewLevels(tt) {
      Pow2Grows(depth + 1, PreviewLevels(tt));
    }
  }

  // A tree with a preview is deeper than its preview.
  lemma PreviewIsShallow(tt: KeyType, records: nat)
    requires HasPreview(tt, records)
    ensures DepthOf(records) > PreviewLevels(tt)
  {
    assert Pow2(8) == 256 && Pow2(10) == 1024 && Pow2(11) == 2048;
    DepthOfBounds(records);
    if DepthOf(records) <= PreviewLevels(tt) {
      Pow2Grows(DepthOf(records), PreviewLevels(tt));
    }
  }

  // Node n is on one of the top p levels of a tree of depth d exactly when 2^(d-p) divides n.
  lemma TopLevels(n: nat, d: nat, p: nat)
    requires n > 0 && p <= d
    ensures d - TrailingZeros(n) <= p <==> n % Pow2(d - p) == 0
  {
    TrailingZerosDivide(n, d - p);
  }
}

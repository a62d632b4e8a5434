/** The greedy split of an address range, on numbers: which blocks it yields for
    every range, and why. */
module CidrSplit {
  import opened Ipv6Bytes

  const ADDRESS_BITS: nat := 128
  const FUSE: nat := 512

  datatype Block = Block(first: nat, last: nat, bits: nat)

  /** `n` with its lowest `h` bits cleared. */
  function Floor(n: nat, h: nat): (f: nat)
    ensures f <= n
  {
    if h == 0 then n else 2 * Floor(n / 2, h - 1)
  }

  /** `n` with its lowest `h` bits set. */
  function Ceil(n: nat, h: nat): (c: nat)
    ensures n <= c
  {
    if h == 0 then n else 2 * Ceil(n / 2, h - 1) + 1
  }

  lemma {:induction false} BlockSize(n: nat, h: nat)
    ensures Ceil(n, h) + 1 == Floor(n, h) + P(h)
    decreases h
  {
    if h > 0 {
      BlockSize(n / 2, h - 1);
    }
  }

  lemma {:induction false} FloorMeaning(n: nat, h: nat) returns (q: nat)
    ensures Floor(n, h) == q * P(h) && q * P(h) <= n < (q + 1) * P(h)
  {
    if h == 0 {
      q := n;
    } else {
      q := FloorMeaning(n / 2, h - 1);
      Double(q, P(h - 1));
    }
    Scale(q, 1, P(h));
  }

  lemma Double(q: nat, m: nat)
    ensures 2 * (q * m) == q * (2 * m)
  {
  }

  /** An address whose lowest `h` bits are zero. */
  predicate Aligned(n: nat, h: nat) {
    Floor(n, h) == n
  }

  /** The block after a broadcast reaches at least as far as one bit fewer would have. */
  lemma {:induction false} NextReaches(n: nat, h: nat)
    ensures Ceil(n, h + 1) <= Ceil(Ceil(n, h) + 1, h)
    ensures Aligned(Ceil(n, h) + 1, h)
    decreases h
  {
    if h > 0 {
      NextReaches(n / 2, h - 1);
      assert (Ceil(n, h) + 1) / 2 == Ceil(n / 2, h - 1) + 1;
    }
  }

  /** A larger block holds the smaller one. */
  lemma {:induction false} CeilGrows(n: nat, h: nat, k: nat)
    requires h <= k
    ensures Ceil(n, h) <= Ceil(n, k)
    decreases h
  {
    if h > 0 {
      CeilGrows(n / 2, h - 1, k - 1);
    }
  }

  lemma {:induction false} CeilMonotone(n: nat, m: nat, h: nat)
    requires n <= m
    ensures Ceil(n, h) <= Ceil(m, h) && (m <= Ceil(n, h) ==> Ceil(m, h) == Ceil(n, h))
    decreases h
  {
    if h > 0 {
      CeilMonotone(n / 2, m / 2, h - 1);
    }
  }

  lemma {:induction false} CeilWhole(n: nat, h: nat)
    requires n < P(h)
    ensures Ceil(n, h) == P(h) - 1
    decreases h
  {
    if h > 0 {
      CeilWhole(n / 2, h - 1);
    }
  }

  /** The last address of the block of `n` with a prefix of `bits`. */
  function Broadcast(n: nat, bits: nat): (c: nat)
    requires bits <= ADDRESS_BITS
    ensures n <= c
  {
    Ceil(n, ADDRESS_BITS - bits)
  }

  lemma LongerIsSmaller(n: nat, b: nat, c: nat)
    requires c <= b <= ADDRESS_BITS
    ensures Broadcast(n, b) <= Broadcast(n, c)
  {
    CeilGrows(n, ADDRESS_BITS - b, ADDRESS_BITS - c);
  }

  lemma BroadcastBound(n: nat, b: nat)
    requires n < LIMIT && b <= ADDRESS_BITS
    ensures Broadcast(n, b) < LIMIT && (b == 0 ==> Broadcast(n, b) == LIMIT - 1)
  {
    var h := ADDRESS_BITS;
    PLimit(h);
    CeilWhole(n, h);
    CeilGrows(n, h - b, h);
  }

  /** `k` leading bits of `n` are ones. */
  predicate LeadingOnes(n: nat, k: nat) {
    k <= ADDRESS_BITS && Broadcast(n, k) == LIMIT - 1
  }

  /** How many leading bits are ones, when `k` of them are known to be. */
  function CountOnes(n: nat, k: nat): (r: nat)
    requires n < LIMIT && LeadingOnes(n, k)
    ensures k <= r <= ADDRESS_BITS && LeadingOnes(n, r)
    ensures !LeadingOnes(n, r + 1)
    decreases ADDRESS_BITS - k, n
  {
    if LeadingOnes(n, k + 1) then CountOnes(n, k + 1) else k
  }

  function Ones(n: nat): (r: nat)
    requires n < LIMIT
    ensures r <= ADDRESS_BITS && LeadingOnes(n, r) && !LeadingOnes(n, r + 1)
  {
    BroadcastBound(n, 0);
    CountOnes(n, 0)
  }

  predicate Fits(n: nat, to: nat, b: nat) {
    b <= ADDRESS_BITS && Broadcast(n, b) <= to
  }

  /** The prefix length the inner loop stops at, tried upwards from `b`. */
  function Fit(n: nat, to: nat, b: nat): (r: nat)
    requires n <= to && b <= ADDRESS_BITS
    ensures b <= r && Fits(n, to, r)
    ensures forall c :: b <= c < r ==> !Fits(n, to, c)
    decreases ADDRESS_BITS - b
  {
    if Fits(n, to, b) || b == ADDRESS_BITS then b else Fit(n, to, b + 1)
  }

  /** The prefix length of the next block. */
  function Chosen(n: nat, to: nat): (r: nat)
    requires n <= to < LIMIT
    ensures Fits(n, to, r)
  {
    Fit(n, to, Ones(n))
  }

  /** The last address of the next block. */
  function Reach(n: nat, to: nat): (r: nat)
    requires n <= to < LIMIT
    ensures n <= r <= to
  {
    Broadcast(n, Chosen(n, to))
  }

  /** The next address, wrapping after the last. */
  function Successor(n: nat): nat {
    if n == LIMIT - 1 then 0 else n + 1
  }

  function Split(n: nat, to: nat, fuse: nat): (blocks: seq<Block>)
    requires n < LIMIT && to < LIMIT
    decreases fuse
  {
    if n > to || fuse == 0 then []
    else
      var bits := Chosen(n, to);
      var last := Reach(n, to);
      [Block(n, last, bits)] + Split(Successor(last), to, fuse - 1)
  }

  /** Starting the search at the leading ones loses no shorter prefix. */
  lemma NothingShorterFits(n: nat, to: nat, c: nat)
    requires n <= to < LIMIT - 1 && c < Chosen(n, to)
    ensures !Fits(n, to, c)
  {
    if c < Ones(n) {
      LongerIsSmaller(n, Ones(n), c);
    }
  }

  lemma ChosenPositive(n: nat, to: nat)
    requires n <= to < LIMIT - 1
    ensures Chosen(n, to) > 0
  {
    BroadcastBound(n, 0);
  }

  /** After a block, nothing as short as its prefix fits any more. */
  lemma PrefixGrows(n: nat, to: nat, b: nat, c: nat)
    requires 0 < b <= ADDRESS_BITS && !Fits(n, to, b - 1) && c <= b
    ensures !Fits(Broadcast(n, b) + 1, to, c)
  {
    NextReaches(n, ADDRESS_BITS - b);
    LongerIsSmaller(Broadcast(n, b) + 1, b, c);
  }

  // ----- The whole list

  predicate Whole(b: Block) {
    b.bits <= ADDRESS_BITS && b.last == Broadcast(b.first, b.bits)
  }

  predicate Follows(a: Block, b: Block) {
    b.first == a.last + 1
  }

  /** The blocks tile `[from, to]`: each starts right after the one before. */
  predicate Tiles(blocks: seq<Block>, from: nat, to: nat) {
    && |blocks| > 0 && blocks[0].first == from && blocks[|blocks| - 1].last == to
    && (forall i :: 0 <= i < |blocks| ==> Whole(blocks[i]))
    && (forall i :: 0 < i < |blocks| ==> Follows(blocks[i - 1], blocks[i]))
  }

  /** Prefixes grow strictly, from above `floor`, and every block after the first starts
      on a boundary of its own size. */
  predicate Narrowing(blocks: seq<Block>, floor: int) {
    && (forall i :: 0 <= i < |blocks| ==> floor < blocks[i].bits <= ADDRESS_BITS)
    && (forall i :: 0 < i < |blocks| ==> blocks[i - 1].bits < blocks[i].bits && OnBoundary(blocks[i]))
  }

  predicate OnBoundary(b: Block) {
    b.bits <= ADDRESS_BITS && Aligned(b.first, ADDRESS_BITS - b.bits)
  }

  lemma TilesCons(b: Block, rest: seq<Block>, from: nat, to: nat)
    requires Whole(b) && b.first == from && Tiles(rest, b.last + 1, to)
    ensures Tiles([b] + rest, from, to)
  {
    var all := [b] + rest;
    forall i | 0 < i < |all| ensures Follows(all[i - 1], all[i]) {
      assert all[i] == rest[i - 1];
      if i > 1 {
        assert all[i - 1] == rest[i - 2];
      }
    }
  }

  lemma NarrowingCons(b: Block, rest: seq<Block>, floor: int)
    requires floor < b.bits <= ADDRESS_BITS && Narrowing(rest, b.bits)
    requires |rest| > 0 ==> OnBoundary(rest[0])
    ensures Narrowing([b] + rest, floor)
  {
    var all := [b] + rest;
    forall i | 0 < i < |all| ensures all[i - 1].bits < all[i].bits && OnBoundary(all[i]) {
      assert all[i] == rest[i - 1];
      if i > 1 {
        assert all[i - 1] == rest[i - 2];
      }
    }
  }

  /** An address on a boundary of a larger block is on one of a smaller. */
  lemma {:induction false} AlignedSmaller(n: nat, h: nat, k: nat)
    requires h <= k && Aligned(n, k)
    ensures Aligned(n, h)
    decreases h
  {
    if h > 0 {
      AlignedSmaller(n / 2, h - 1, k - 1);
    }
  }

  lemma BlockEndsOnBoundary(n: nat, b: nat, c: nat)
    requires b <= c <= ADDRESS_BITS
    ensures Aligned(Broadcast(n, b) + 1, ADDRESS_BITS - c)
  {
    NextReaches(n, ADDRESS_BITS - b);
    AlignedSmaller(Broadcast(n, b) + 1, ADDRESS_BITS - c, ADDRESS_BITS - b);
  }

  lemma SplitStep(n: nat, to: nat, fuse: nat, next: nat)
    requires n <= to < LIMIT - 1 && fuse > 0 && next == Reach(n, to) + 1 <= to
    ensures Split(n, to, fuse) == [Block(n, Reach(n, to), Chosen(n, to))] + Split(next, to, fuse - 1)
  {
    var last := Reach(n, to);
    assert Successor(last) == next;
    assert Split(n, to, fuse) == [Block(n, last, Chosen(n, to))] + Split(Successor(last), to, fuse - 1);
  }

  lemma SplitEnds(n: nat, to: nat, fuse: nat)
    requires n <= to < LIMIT - 1 && Reach(n, to) == to
    ensures Split(n, to, fuse) == if fuse == 0 then [] else [Block(n, to, Chosen(n, to))]
  {
  }

  /** No prefix of at most `b` bits fits. */
  predicate NoneUpTo(n: nat, to: nat, b: int) {
    forall c: nat :: c <= b ==> !Fits(n, to, c)
  }

  lemma NextIsNarrower(n: nat, to: nat, next: nat, b: nat)
    requires n <= to < LIMIT - 1 && next == Reach(n, to) + 1 && b == Chosen(n, to)
    ensures NoneUpTo(next, to, b)
  {
    ChosenPositive(n, to);
    NothingShorterFits(n, to, b - 1);
    forall c: nat | c <= b ensures !Fits(next, to, c) {
      PrefixGrows(n, to, b, c);
    }
  }

  /** Each block is the largest that starts where it does and stays in the range. */
  predicate Largest(blocks: seq<Block>, to: nat)
    requires to < LIMIT
  {
    forall i :: 0 <= i < |blocks| ==> blocks[i].first <= to && blocks[i].last == Reach(blocks[i].first, to)
  }

  lemma LargestCons(b: Block, rest: seq<Block>, to: nat)
    requires to < LIMIT && b.first <= to && b.last == Reach(b.first, to) && Largest(rest, to)
    ensures Largest([b] + rest, to)
  {
  }

  predicate Good(blocks: seq<Block>, n: nat, to: nat, floor: int)
    requires to < LIMIT
  {
    Tiles(blocks, n, to) && Narrowing(blocks, floor) && Largest(blocks, to)
  }

  lemma GoodCons(b: Block, rest: seq<Block>, to: nat, floor: int)
    requires b.first <= to < LIMIT && Whole(b) && b.last == Reach(b.first, to) && floor < b.bits
    requires Good(rest, b.last + 1, to, b.bits) && OnBoundary(rest[0])
    ensures Good([b] + rest, b.first, to, floor)
  {
    TilesCons(b, rest, b.first, to);
    NarrowingCons(b, rest, floor);
    LargestCons(b, rest, to);
  }

  lemma GoodStep(n: nat, to: nat, floor: int, rest: seq<Block>)
    requires n <= to < LIMIT - 1 && NoneUpTo(n, to, floor)
    requires Good(rest, Reach(n, to) + 1, to, Chosen(n, to))
    ensures Good([Block(n, Reach(n, to), Chosen(n, to))] + rest, n, to, floor)
  {
    LongerThanFloor(n, to, floor);
    BlockEndsOnBoundary(n, Chosen(n, to), rest[0].bits);
    GoodCons(Block(n, Reach(n, to), Chosen(n, to)), rest, to, floor);
  }

  lemma GoodLast(n: nat, to: nat, floor: int)
    requires n <= to < LIMIT - 1 && NoneUpTo(n, to, floor) && Reach(n, to) == to
    ensures Good([Block(n, to, Chosen(n, to))], n, to, floor)
  {
    assert Fits(n, to, Chosen(n, to));
  }

  lemma GoodEnd(n: nat, to: nat, fuse: nat, floor: int)
    requires n <= to < LIMIT - 1 && NoneUpTo(n, to, floor) && fuse > 0 && Reach(n, to) == to
    ensures Good(Split(n, to, fuse), n, to, floor)
  {
    SplitEnds(n, to, fuse);
    GoodLast(n, to, floor);
  }

  lemma GoodMore(n: nat, to: nat, fuse: nat, floor: int, next: nat)
    requires n <= to < LIMIT - 1 && NoneUpTo(n, to, floor) && fuse > 0 && next == Reach(n, to) + 1 <= to
    requires Good(Split(next, to, fuse - 1), next, to, Chosen(n, to))
    ensures Good(Split(n, to, fuse), n, to, floor)
  {
    SplitStep(n, to, fuse, next);
    GoodStep(n, to, floor, Split(next, to, fuse - 1));
  }

  lemma LongerThanFloor(n: nat, to: nat, floor: int)
    requires n <= to < LIMIT && NoneUpTo(n, to, floor)
    ensures floor < Chosen(n, to) <= ADDRESS_BITS
  {
    assert Fits(n, to, Chosen(n, to));
  }

  lemma {:induction false} SplitGood(n: nat, to: nat, fuse: nat, floor: int)
    requires n <= to < LIMIT - 1 && -1 <= floor <= ADDRESS_BITS
    requires fuse > ADDRESS_BITS - floor && NoneUpTo(n, to, floor)
    ensures Good(Split(n, to, fuse), n, to, floor)
    decreases fuse
  {
    LongerThanFloor(n, to, floor);
    var next := Reach(n, to) + 1;
    if next <= to {
      NextIsNarrower(n, to, next, Chosen(n, to));
      SplitGood(next, to, fuse - 1, Chosen(n, to));
      GoodMore(n, to, fuse, floor, next);
    } else {
      GoodEnd(n, to, fuse, floor);
    }
  }

  lemma {:induction false} NarrowingIsShort(blocks: seq<Block>, floor: int)
    requires Narrowing(blocks, floor) && floor <= ADDRESS_BITS
    ensures |blocks| <= ADDRESS_BITS - floor
    decreases |blocks|
  {
    if |blocks| > 0 {
      var b := blocks[0];
      forall i | 0 <= i < |blocks| - 1 ensures b.bits < blocks[1..][i].bits {
        if i > 0 {
          Later(blocks, floor, i + 1);
        }
      }
      NarrowingIsShort(blocks[1..], b.bits);
    }
  }

  lemma {:induction false} Later(blocks: seq<Block>, floor: int, i: nat)
    requires Narrowing(blocks, floor) && 0 < i < |blocks|
    ensures blocks[0].bits < blocks[i].bits
  {
    if i > 1 {
      Later(blocks, floor, i - 1);
    }
  }

  /** For every range that ends below the last address, the greedy split tiles the range
      exactly, in strictly growing prefixes, so within 128 blocks: the fuse never burns. */
  lemma SplitIsExact(from: nat, to: nat)
    requires from <= to < LIMIT - 1
    ensures Tiles(Split(from, to, FUSE), from, to)
    ensures Narrowing(Split(from, to, FUSE), 0)
    ensures Largest(Split(from, to, FUSE), to)
    ensures |Split(from, to, FUSE)| <= ADDRESS_BITS
  {
    BroadcastBound(from, 0);
    SplitGood(from, to, FUSE, 0);
    NarrowingIsShort(Split(from, to, FUSE), 0);
  }

  // ----- What tiling means for single addresses

  predicate Holds(b: Block, x: nat) {
    b.first <= x <= b.last
  }

  lemma {:induction false} TilesTail(blocks: seq<Block>, from: nat, to: nat)
    requires Tiles(blocks, from, to) && |blocks| > 1
    ensures Tiles(blocks[1..], blocks[0].last + 1, to)
  {
    var rest := blocks[1..];
    assert Follows(blocks[0], blocks[1]);
    forall i | 0 < i < |rest| ensures Follows(rest[i - 1], rest[i]) {
      assert rest[i] == blocks[i + 1] && rest[i - 1] == blocks[i];
    }
  }

  /** Every address of the range is in exactly one block, and no other address in any. */
  lemma {:induction false} TilesPartition(blocks: seq<Block>, from: nat, to: nat, x: nat)
    requires Tiles(blocks, from, to)
    ensures from <= to
    ensures from <= x <= to <==> exists i :: 0 <= i < |blocks| && Holds(blocks[i], x)
    ensures forall i, j :: 0 <= i < |blocks| && 0 <= j < |blocks| && Holds(blocks[i], x) && Holds(blocks[j], x) ==> i == j
    decreases |blocks|
  {
    var b := blocks[0];
    if |blocks| > 1 {
      var rest := blocks[1..];
      TilesTail(blocks, from, to);
      TilesPartition(rest, b.last + 1, to, x);
      assert forall i :: 0 < i < |blocks| ==> blocks[i] == rest[i - 1];
      assert forall i :: 0 <= i < |rest| ==> rest[i] == blocks[i + 1];
    }
  }

  // ----- No exact cover is shorter

  lemma ReachIsFarthest(n: nat, to: nat, b: nat)
    requires n <= to < LIMIT - 1 && Fits(n, to, b)
    ensures Broadcast(n, b) <= Reach(n, to)
  {
    if b < Chosen(n, to) {
      NothingShorterFits(n, to, b);
    } else {
      LongerIsSmaller(n, b, Chosen(n, to));
    }
  }

  lemma ReachMonotone(n: nat, m: nat, to: nat)
    requires n <= m <= to < LIMIT - 1
    ensures Reach(n, to) <= Reach(m, to)
  {
    var b := Chosen(n, to);
    if m <= Broadcast(n, b) {
      CeilMonotone(n, m, ADDRESS_BITS - b);
      ReachIsFarthest(m, to, b);
    }
  }

  lemma {:induction false} TilesEnds(blocks: seq<Block>, from: nat, to: nat)
    requires Tiles(blocks, from, to)
    ensures blocks[0].last <= to
    decreases |blocks|
  {
    if |blocks| > 1 {
      TilesTail(blocks, from, to);
      TilesEnds(blocks[1..], blocks[0].last + 1, to);
    }
  }

  lemma FirstReachesLess(n: nat, m: nat, to: nat, other: seq<Block>)
    requires m <= n <= to < LIMIT - 1 && Reach(n, to) < to
    requires Tiles(other, m, to)
    ensures other[0].last <= Reach(n, to) && |other| > 1
    ensures Tiles(other[1..], other[0].last + 1, to)
  {
    TilesEnds(other, m, to);
    assert Whole(other[0]) && Fits(m, to, other[0].bits);
    ReachIsFarthest(m, to, other[0].bits);
    ReachMonotone(m, n, to);
    TilesTail(other, m, to);
  }

  /** Blocks that each reach as far as they can are at most as many as in any other
      tiling, even one that has the start of this range behind it. */
  lemma {:induction false} LargestIsShortest(blocks: seq<Block>, n: nat, other: seq<Block>, m: nat, to: nat)
    requires m <= n <= to < LIMIT - 1
    requires Tiles(blocks, n, to) && Largest(blocks, to) && Tiles(other, m, to)
    ensures |blocks| <= |other|
    decreases |blocks|
  {
    if |blocks| > 1 {
      TilesTail(blocks, n, to);
      TilesEnds(blocks[1..], blocks[0].last + 1, to);
      FirstReachesLess(n, m, to, other);
      assert Whole(blocks[1]);
      LargestIsShortest(blocks[1..], blocks[0].last + 1, other[1..], other[0].last + 1, to);
    }
  }

  /** No list of blocks that covers the range exactly is shorter than the greedy one. */
  lemma SplitIsShortest(from: nat, to: nat, other: seq<Block>)
    requires from <= to < LIMIT - 1 && Tiles(other, from, to)
    ensures |Split(from, to, FUSE)| <= |other|
  {
    SplitIsExact(from, to);
    LargestIsShortest(Split(from, to, FUSE), from, other, from, to);
  }

  // ----- The last address

  function Everything(n: nat): seq<Block> {
    seq(n, _ => Block(0, LIMIT - 1, 0))
  }

  lemma ZeroHasNoOnes()
    ensures Ones(0) == 0
  {
    var k := Ones(0);
    if k > 0 {
      HalfOfZero(ADDRESS_BITS - 1);
      LongerIsSmaller(0, k, 1);
      BroadcastBound(0, 1);
    }
  }

  lemma WrapStep(n: nat, to: nat, fuse: nat)
    requires n < LIMIT && to == LIMIT - 1 && fuse > 0
    ensures Split(n, to, fuse) == [Block(n, to, Ones(n))] + Split(0, to, fuse - 1)
  {
    assert Fits(n, to, Ones(n));
    assert Chosen(n, to) == Ones(n);
  }

  lemma {:induction false} WrapsForever(fuse: nat)
    ensures Split(0, LIMIT - 1, fuse) == Everything(fuse)
  {
    if fuse > 0 {
      WrapStep(0, LIMIT - 1, fuse);
      ZeroHasNoOnes();
      WrapsForever(fuse - 1);
    }
  }

  lemma HalfOfZero(h: nat)
    requires h == ADDRESS_BITS - 1
    ensures Ceil(0, h) != LIMIT - 1
  {
    CeilWhole(0, h);
    PLimit(h + 1);
  }

  /** A range that ends at the very last address comes out as one block up to it and then
      the whole address space, until the fuse burns. */
  lemma LastAddressWraps(from: nat)
    requires from < LIMIT
    ensures Split(from, LIMIT - 1, FUSE)
         == [Block(from, LIMIT - 1, Ones(from))] + Everything(FUSE - 1)
  {
    var left := FUSE - 1;
    WrapStep(from, LIMIT - 1, left + 1);
    WrapsForever(left);
  }

  /** So the split is exact for precisely the ranges that end below the last address. */
  lemma ExactIffBelowLast(from: nat, to: nat)
    requires from <= to < LIMIT
    ensures Tiles(Split(from, to, FUSE), from, to) <==> to < LIMIT - 1
  {
    if to < LIMIT - 1 {
      SplitIsExact(from, to);
    } else {
      LastAddressWraps(from);
      var blocks := Split(from, to, FUSE);
      assert !Follows(blocks[1], blocks[2]);
    }
  }
}

/** For which ranges the membership test of the blocks listed answers for exactly the range. */
module CidrMembership {
  import opened Ipv6Bytes
  import opened CidrSplit
  import opened CidrBlocks

  // ----- When a range starts on the boundary of its first block

  /** The number of trailing zero bits. */
  function Tz(n: nat): nat
    requires n > 0
  {
    if n % 2 == 1 then 0 else 1 + Tz(n / 2)
  }

  lemma {:induction false} AlignedIffTz(n: nat, h: nat)
    requires n > 0
    ensures Aligned(n, h) <==> h <= Tz(n)
    decreases h
  {
    if h > 0 && n % 2 == 0 {
      AlignedIffTz(n / 2, h - 1);
    }
  }

  lemma {:induction false} ZeroAligned(h: nat)
    ensures Aligned(0, h)
  {
    if h > 0 {
      ZeroAligned(h - 1);
    }
  }

  /** The lowest bit that is set is set already in the block one bit larger. */
  lemma {:induction false} CeilPastTz(n: nat)
    requires n > 0
    ensures Ceil(n, Tz(n) + 1) == Ceil(n, Tz(n))
  {
    if n % 2 == 0 {
      CeilPastTz(n / 2);
    }
  }

  lemma {:induction false} TzBound(n: nat, h: nat)
    requires 0 < n < P(h)
    ensures Tz(n) < h
    decreases h
  {
    if n % 2 == 0 {
      TzBound(n / 2, h - 1);
    }
  }

  /** The range ends before the block in whose middle it would otherwise start. */
  predicate StartsOnBoundary(from: nat, to: nat) {
    from == 0 || to < Ceil(from, Tz(from))
  }

  /** Nothing larger than the block chosen fits. */
  lemma ShorterChoice(from: nat, to: nat, t: nat)
    requires 0 < from <= to < LIMIT - 1 && t == Tz(from) && t < ADDRESS_BITS && ADDRESS_BITS - Chosen(from, to) <= t
    ensures to < Ceil(from, t)
  {
    var c: nat := ADDRESS_BITS - (t + 1);
    NothingShorterFits(from, to, c);
    CeilPastTz(from);
    assert Broadcast(from, c) == Ceil(from, t + 1);
  }

  lemma LongerChoice(from: nat, to: nat, t: nat)
    requires 0 < from <= to < LIMIT - 1 && t < ADDRESS_BITS - Chosen(from, to)
    ensures Ceil(from, t) <= to
  {
    CeilGrows(from, t, ADDRESS_BITS - Chosen(from, to));
  }

  /** The first block starts on its own boundary exactly for these ranges. */
  lemma FirstOnBoundary(from: nat, to: nat)
    requires from <= to < LIMIT - 1
    ensures Aligned(from, ADDRESS_BITS - Chosen(from, to)) <==> StartsOnBoundary(from, to)
  {
    var h: nat := ADDRESS_BITS - Chosen(from, to);
    if from == 0 {
      ZeroAligned(h);
    } else {
      var t := Tz(from);
      PLimit(ADDRESS_BITS);
      TzBound(from, ADDRESS_BITS);
      AlignedIffTz(from, h);
      if h <= t {
        ShorterChoice(from, to, t);
      } else {
        LongerChoice(from, to, t);
      }
    }
  }

  // ----- What the whole list answers for

  ghost predicate SomeAnswers(cidrs: seq<Cidr>, ip: Bytes)
    requires |ip| == 16 && forall i :: 0 <= i < |cidrs| ==> |cidrs[i].mask| == 16
  {
    exists i :: 0 <= i < |cidrs| && Answers(cidrs[i], ip)
  }

  predicate InRange(from: nat, to: nat, ip: Bytes) { from <= Val(ip) <= to }

  /** Past every block that holds `from` and stays in the range. */
  predicate PastBlocks(from: nat, to: nat, x: nat) {
    forall b :: 0 <= b <= ADDRESS_BITS && Broadcast(from, b) <= to ==> x > Broadcast(from, b)
  }

  lemma MasksAreLong(cidrs: seq<Cidr>, blocks: seq<Block>)
    requires WritesAll(cidrs, blocks)
    ensures forall i :: 0 <= i < |cidrs| ==> |cidrs[i].mask| == 16
  {
    forall i | 0 <= i < |cidrs| ensures |cidrs[i].mask| == 16 {
      assert Writes(cidrs[i], blocks[i]);
    }
  }

  /** Which addresses the list answers for, by the range alone: all of it if it starts on a
      boundary, else those past every block that holds its start and stays inside. */
  lemma MembershipOfRange(cidrs: seq<Cidr>, from: nat, to: nat, ip: Bytes)
    requires from <= to < LIMIT - 1 && WritesAll(cidrs, Split(from, to, FUSE)) && |ip| == 16
    ensures forall i :: 0 <= i < |cidrs| ==> |cidrs[i].mask| == 16
    ensures SomeAnswers(cidrs, ip)
        <==> InRange(from, to, ip)
             && (StartsOnBoundary(from, to) || PastBlocks(from, to, Val(ip)))
  {
    FirstBlock(cidrs, from, to);
    MembershipOfList(cidrs, from, to, ip);
    ByTheRange(cidrs, from, to, ip);
  }

  lemma ByTheRange(cidrs: seq<Cidr>, from: nat, to: nat, ip: Bytes)
    requires from <= to < LIMIT - 1 && |ip| == 16 && forall i :: 0 <= i < |cidrs| ==> |cidrs[i].mask| == 16
    requires |cidrs| > 0 && cidrs[0].bits == Chosen(from, to) && Val(cidrs[0].broadcast) == Reach(from, to)
    requires SomeAnswers(cidrs, ip)
        <==> from <= Val(ip) <= to
             && (Aligned(from, ADDRESS_BITS - cidrs[0].bits) || Val(ip) > Val(cidrs[0].broadcast))
    ensures SomeAnswers(cidrs, ip)
        <==> InRange(from, to, ip) && (StartsOnBoundary(from, to) || PastBlocks(from, to, Val(ip)))
  {
    FirstOnBoundary(from, to);
    PastAll(from, to, Val(ip));
  }

  lemma PastAll(from: nat, to: nat, x: nat)
    requires from <= to < LIMIT - 1
    ensures x > Reach(from, to) <==> PastBlocks(from, to, x)
  {
    assert Reach(from, to) == Broadcast(from, Chosen(from, to)) <= to;
    forall b: nat | b <= ADDRESS_BITS && Broadcast(from, b) <= to ensures Broadcast(from, b) <= Reach(from, to) {
      ReachIsFarthest(from, to, b);
    }
  }

  lemma FirstBlock(cidrs: seq<Cidr>, from: nat, to: nat)
    requires from <= to < LIMIT && WritesAll(cidrs, Split(from, to, FUSE))
    ensures |cidrs| > 0 && cidrs[0].bits == Chosen(from, to) && |cidrs[0].network| == 16
    ensures Val(cidrs[0].network) == from && Val(cidrs[0].broadcast) == Reach(from, to)
  {
    SplitHead(from, to, FUSE);
    assert Writes(cidrs[0], Split(from, to, FUSE)[0]);
  }

  lemma SplitHead(n: nat, to: nat, fuse: nat)
    requires n <= to < LIMIT && fuse > 0
    ensures |Split(n, to, fuse)| > 0 && Split(n, to, fuse)[0] == Block(n, Reach(n, to), Chosen(n, to))
  {
  }

  /** Of a range that does not, its own first address is in it and no block answers for it. */
  lemma FirstAddressUnanswered(cidrs: seq<Cidr>, from: nat, to: nat) returns (ip: Bytes)
    requires from <= to < LIMIT - 1 && WritesAll(cidrs, Split(from, to, FUSE)) && !StartsOnBoundary(from, to)
    ensures forall i :: 0 <= i < |cidrs| ==> |cidrs[i].mask| == 16
    ensures |ip| == 16 && Val(ip) == from && InRange(from, to, ip) && !SomeAnswers(cidrs, ip)
  {
    FirstBlock(cidrs, from, to);
    ip := cidrs[0].network;
    MembershipOfRange(cidrs, from, to, ip);
    assert Broadcast(from, ADDRESS_BITS) == from;
  }

  /** Of a range up to the last address, some block answers for every address there is. */
  lemma LastAddressAnswersAll(cidrs: seq<Cidr>, from: nat, to: nat, ip: Bytes)
    requires from < LIMIT && to == LIMIT - 1 && WritesAll(cidrs, Split(from, to, FUSE)) && |ip| == 16
    ensures forall i :: 0 <= i < |cidrs| ==> |cidrs[i].mask| == 16
    ensures SomeAnswers(cidrs, ip)
  {
    MasksAreLong(cidrs, Split(from, to, FUSE));
    LastAddressWraps(from);
    var whole := Block(0, LIMIT - 1, 0);
    assert Split(from, to, FUSE)[1] == whole;
    assert Writes(cidrs[1], whole);
    AddressBound(ip);
    BroadcastBound(0, 0);
    ZeroAligned(ADDRESS_BITS);
    ContainsMeaning(cidrs[1].network, 0, ip);
    assert Answers(cidrs[1], ip);
  }

  /** The list answers for exactly the addresses of the range. */
  ghost predicate ListRight(cidrs: seq<Cidr>, from: nat, to: nat)
    requires forall i :: 0 <= i < |cidrs| ==> |cidrs[i].mask| == 16
  {
    forall ip: Bytes :: |ip| == 16 ==> (SomeAnswers(cidrs, ip) <==> InRange(from, to, ip))
  }

  lemma BeyondLast(from: nat)
    requires 0 < from < LIMIT
    ensures Ceil(from, Tz(from)) <= LIMIT - 1
  {
    PLimit(ADDRESS_BITS);
    TzBound(from, ADDRESS_BITS);
    BroadcastBound(from, ADDRESS_BITS - Tz(from));
  }

  lemma ZeroAddress() returns (ip: Bytes)
    ensures |ip| == 16 && Val(ip) == 0
  {
    ip := Filled(16, 0);
    ValZeros(16);
  }

  /** What is listed for a range answers for exactly its addresses if and only if the range
      is empty, starts at zero, or ends before the last address of the largest block that
      starts where it does. */
  lemma ListRightIff(cidrs: seq<Cidr>, from: nat, to: nat)
    requires from < LIMIT && to < LIMIT && WritesAll(cidrs, Split(from, to, FUSE))
    ensures forall i :: 0 <= i < |cidrs| ==> |cidrs[i].mask| == 16
    ensures ListRight(cidrs, from, to) <==> from > to || StartsOnBoundary(from, to)
  {
    MasksAreLong(cidrs, Split(from, to, FUSE));
    if from > to {
      assert cidrs == [];
    } else if to == LIMIT - 1 {
      forall ip: Bytes | |ip| == 16 ensures SomeAnswers(cidrs, ip) {
        LastAddressAnswersAll(cidrs, from, to, ip);
      }
      LastAddressRight(cidrs, from, to);
    } else {
      forall ip: Bytes | |ip| == 16 && StartsOnBoundary(from, to)
        ensures SomeAnswers(cidrs, ip) <==> InRange(from, to, ip)
      {
        MembershipOfRange(cidrs, from, to, ip);
      }
      if !StartsOnBoundary(from, to) {
        var ip := FirstAddressUnanswered(cidrs, from, to);
      }
    }
  }

  lemma LastAddressRight(cidrs: seq<Cidr>, from: nat, to: nat)
    requires from <= to == LIMIT - 1 && forall i :: 0 <= i < |cidrs| ==> |cidrs[i].mask| == 16
    requires forall ip: Bytes :: |ip| == 16 ==> SomeAnswers(cidrs, ip)
    ensures ListRight(cidrs, from, to) <==> StartsOnBoundary(from, to)
  {
    forall ip: Bytes | |ip| == 16 ensures Val(ip) <= to {
      AddressBound(ip);
    }
    if from > 0 {
      BeyondLast(from);
      var zero := ZeroAddress();
      assert SomeAnswers(cidrs, zero) && !InRange(from, to, zero);
    }
  }
}

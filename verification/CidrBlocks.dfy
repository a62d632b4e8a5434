/** Prefix masks on 16-byte addresses, the methods that build blocks from a range, and
    what the membership test of a block answers. */
module CidrBlocks {
  import opened Ipv6Bytes
  import opened CidrSplit

  // ----- One byte

  /** A byte with its `k` highest bits set. */
  function TopOnes(k: nat): bv8
    requires k <= 8
  {
    match k
    case 0 => 0x00
    case 1 => 0x80
    case 2 => 0xC0
    case 3 => 0xE0
    case 4 => 0xF0
    case 5 => 0xF8
    case 6 => 0xFC
    case 7 => 0xFE
    case _ => 0xFF
  }

  /** The step of the loop that builds it. */
  lemma TopOnesStep(k: nat)
    requires k < 8
    ensures (TopOnes(k) >> 1) | 0x80 == TopOnes(k + 1)
  {
  }

  lemma HalfOr(x: bv8, y: bv8)
    requires y & 0x80 == 0
    ensures (x | ((y << 1) | 1)) >> 1 == (x >> 1) | y && (x | ((y << 1) | 1)) & 1 == 1
  {
  }

  lemma HalfAnd(x: bv8, m: bv8)
    ensures (x & (m << 1)) >> 1 == (x >> 1) & m && (x & (m << 1)) & 1 == 0
  {
  }

  lemma NumHalf(x: bv8)
    ensures Num(x) == 2 * Num(x >> 1) + (if x & 1 == 1 then 1 else 0)
  {
  }

  lemma NumOr(x: bv8, y: bv8)
    requires y & 0x80 == 0
    ensures Num(x | ((y << 1) | 1)) == 2 * Num((x >> 1) | y) + 1
  {
    HalfOr(x, y);
    NumHalf(x | ((y << 1) | 1));
  }

  lemma NumAnd(x: bv8, m: bv8)
    ensures Num(x & (m << 1)) == 2 * Num((x >> 1) & m)
  {
    HalfAnd(x, m);
    NumHalf(x & (m << 1));
  }

  lemma LowBit(n: nat, half: nat, h: nat)
    requires 2 * half <= n <= 2 * half + 1 && h > 0
    ensures Ceil(n, h) == 2 * Ceil(half, h - 1) + 1 && Floor(n, h) == 2 * Floor(half, h - 1)
  {
    assert n / 2 == half;
  }

  lemma LongerMask(k: nat, m: bv8) returns (longer: bv8)
    requires k < 8 && m == TopOnes(k)
    ensures longer == TopOnes(k + 1) && !longer & 0x80 == 0
    ensures m == longer << 1 && !m == (!longer << 1) | 1
  {
    longer := TopOnes(k + 1);
  }

  /** One more host bit, once the mask of one fewer is known to work. */
  lemma HostBit(x: bv8, h: nat, m: bv8, longer: bv8)
    requires h > 0 && !longer & 0x80 == 0 && m == longer << 1 && !m == (!longer << 1) | 1
    requires Ceil(Num(x >> 1), h - 1) == Num((x >> 1) | !longer)
    requires Floor(Num(x >> 1), h - 1) == Num((x >> 1) & longer)
    ensures Ceil(Num(x), h) == Num(x | !m)
    ensures Floor(Num(x), h) == Num(x & m)
  {
    NumOr(x, !longer);
    NumAnd(x, longer);
    NumHalf(x);
    LowBit(Num(x), Num(x >> 1), h);
  }

  lemma NoHostBits(x: bv8, m: bv8)
    requires m == TopOnes(8)
    ensures Num(x) == Num(x | !m) == Num(x & m)
  {
    WholeMask(x);
  }

  /** Masking a byte sets or clears its low bits. */
  lemma {:induction false} HostBits(x: bv8, h: nat, k: nat, m: bv8)
    requires h + k == 8 && m == TopOnes(k)
    ensures Ceil(Num(x), h) == Num(x | !m)
    ensures Floor(Num(x), h) == Num(x & m)
    decreases h
  {
    if h == 0 {
      NoHostBits(x, m);
    } else {
      var longer := LongerMask(k, m);
      HostBits(x >> 1, h - 1, k + 1, longer);
      HostBit(x, h, m, longer);
    }
  }

  lemma WholeMask(x: bv8)
    ensures x | !(0xFF as bv8) == x && x & 0xFF == x && x & 0 == 0 && x | !(0 as bv8) == 0xFF
  {
  }

  /** `n` followed by `h` zero bits. */
  function Shl(n: nat, h: nat): nat {
    if h == 0 then n else 2 * Shl(n, h - 1)
  }

  lemma {:induction false} ShlShl(n: nat, h: nat, k: nat)
    ensures Shl(Shl(n, k), h) == Shl(n, k + h)
    decreases h
  {
    if h > 0 {
      ShlShl(n, h - 1, k);
    }
  }

  lemma {:induction false} ShlIs(n: nat, h: nat)
    ensures Shl(n, h) == n * P(h)
    decreases h
  {
    if h > 0 {
      ShlIs(n, h - 1);
      Double(n, P(h - 1));
    }
  }

  lemma HighStep(w: nat, x: nat, h: nat)
    requires h > 0
    requires Ceil(w + x / 2, h - 1) == w + Ceil(x / 2, h - 1)
    requires Floor(w + x / 2, h - 1) == w + Floor(x / 2, h - 1)
    ensures Ceil(2 * w + x, h) == 2 * w + Ceil(x, h)
    ensures Floor(2 * w + x, h) == 2 * w + Floor(x, h)
  {
    LowBit(x, x / 2, h);
    LowBit(2 * w + x, w + x / 2, h);
  }

  /** Whole multiples of the block pass through. */
  lemma {:induction false} HighBitsPass(t: nat, x: nat, h: nat)
    ensures Ceil(Shl(t, h) + x, h) == Shl(t, h) + Ceil(x, h)
    ensures Floor(Shl(t, h) + x, h) == Shl(t, h) + Floor(x, h)
    decreases h
  {
    if h > 0 {
      HighBitsPass(t, x / 2, h - 1);
      HighStep(Shl(t, h - 1), x, h);
    }
  }

  lemma BytesPass(v: nat, x: nat, h: nat, n: nat)
    requires h <= 8 && n == v * 256 + x
    ensures Ceil(n, h) == v * 256 + Ceil(x, h)
    ensures Floor(n, h) == v * 256 + Floor(x, h)
  {
    var k := 8 - h;
    assert P(8) == 256;
    ShlIs(v, k + h);
    ShlShl(v, h, k);
    HighBitsPass(Shl(v, k), x, h);
  }

  // ----- Whole addresses

  /** Byte `i` of the mask with `bits` leading ones. */
  function MaskByte(bits: nat, i: nat): bv8 {
    if bits >= 8 * i + 8 then 0xFF else if bits <= 8 * i then 0 else TopOnes(bits - 8 * i)
  }

  function MaskBytes(n: nat, bits: nat): (m: Bytes)
    ensures |m| == n
  {
    seq(n, i requires 0 <= i < n => MaskByte(bits, i))
  }

  function OrNot(b: Bytes, m: Bytes): (r: Bytes)
    requires |b| == |m|
    ensures |r| == |b|
  {
    seq(|b|, i requires 0 <= i < |b| => b[i] | !m[i])
  }

  function And(b: Bytes, m: Bytes): (r: Bytes)
    requires |b| == |m|
    ensures |r| == |b|
  {
    seq(|b|, i requires 0 <= i < |b| => b[i] & m[i])
  }

  /** Eight more host bits are one more byte of ones or zeros. */
  lemma HostByte(v: nat, x: nat, h: nat)
    requires x < 256
    ensures Ceil(v * 256 + x, h + 8) == Ceil(v, h) * 256 + 255
    ensures Floor(v * 256 + x, h + 8) == Floor(v, h) * 256
  {
    HostHalf(v * 256 + x, h + 4);
    HostHalf((v * 256 + x) / 16, h);
  }

  lemma HostHalf(n: nat, h: nat)
    ensures Ceil(n, h + 4) == Ceil(n / 16, h) * 16 + 15
    ensures Floor(n, h + 4) == Floor(n / 16, h) * 16
  {
    HostPair(n, h + 2);
    HostPair(n / 4, h);
  }

  lemma HostPair(n: nat, h: nat)
    ensures Ceil(n, h + 2) == Ceil(n / 4, h) * 4 + 3
    ensures Floor(n, h + 2) == Floor(n / 4, h) * 4
  {
    assert Ceil(n, h + 2) == 2 * Ceil(n / 2, h + 1) + 1;
    assert n / 2 / 2 == n / 4;
  }

  lemma FullMask(b: Bytes, bits: nat)
    requires bits >= 8 * |b|
    ensures OrNot(b, MaskBytes(|b|, bits)) == b && And(b, MaskBytes(|b|, bits)) == b
  {
    forall i | 0 <= i < |b| ensures b[i] | !MaskByte(bits, i) == b[i] && b[i] & MaskByte(bits, i) == b[i] {
      WholeMask(b[i]);
    }
  }

  lemma MaskSnoc(front: Bytes, x: bv8, bits: nat)
    ensures var n := |front|; var b := front + [x];
      && OrNot(b, MaskBytes(n + 1, bits)) == OrNot(front, MaskBytes(n, bits)) + [x | !MaskByte(bits, n)]
      && And(b, MaskBytes(n + 1, bits)) == And(front, MaskBytes(n, bits)) + [x & MaskByte(bits, n)]
  {
  }

  lemma NumEnds(x: bv8)
    ensures Num(0) == 0 && Num(0xFF) == 255 && Num(x) < 256
  {
    NumIs(x);
    NumIs(0xFF);
  }

  lemma HostByteMasks(front: Bytes, x: bv8, bits: nat)
    requires bits <= 8 * |front|
    ensures OrNot(front + [x], MaskBytes(|front| + 1, bits)) == OrNot(front, MaskBytes(|front|, bits)) + [0xFF]
    ensures And(front + [x], MaskBytes(|front| + 1, bits)) == And(front, MaskBytes(|front|, bits)) + [0]
  {
    MaskSnoc(front, x, bits);
    WholeMask(x);
  }

  lemma HostByteVal(front: Bytes, x: bv8, c: Bytes, f: Bytes, h: nat)
    requires Val(c) == Ceil(Val(front), h) && Val(f) == Floor(Val(front), h)
    ensures Val(c + [0xFF]) == Ceil(Val(front + [x]), h + 8)
    ensures Val(f + [0]) == Floor(Val(front + [x]), h + 8)
  {
    NumEnds(x);
    ValSnoc(front, x);
    ValSnoc(c, 0xFF);
    ValSnoc(f, 0);
    HostByte(Val(front), Num(x), h);
  }

  /** A byte within the host part. */
  lemma HostByteStep(front: Bytes, x: bv8, bits: nat, h: nat)
    requires bits + h == 8 * |front|
    requires Val(OrNot(front, MaskBytes(|front|, bits))) == Ceil(Val(front), h)
    requires Val(And(front, MaskBytes(|front|, bits))) == Floor(Val(front), h)
    ensures Val(OrNot(front + [x], MaskBytes(|front| + 1, bits))) == Ceil(Val(front + [x]), h + 8)
    ensures Val(And(front + [x], MaskBytes(|front| + 1, bits))) == Floor(Val(front + [x]), h + 8)
  {
    var m := MaskBytes(|front|, bits);
    HostByteMasks(front, x, bits);
    HostByteVal(front, x, OrNot(front, m), And(front, m), h);
  }

  /** The byte that the prefix ends in, or ends with. */
  lemma LastByteStep(front: Bytes, x: bv8, bits: nat, h: nat)
    requires bits + h == 8 * |front| + 8 && h < 8
    ensures Val(OrNot(front + [x], MaskBytes(|front| + 1, bits))) == Ceil(Val(front + [x]), h)
    ensures Val(And(front + [x], MaskBytes(|front| + 1, bits))) == Floor(Val(front + [x]), h)
  {
    var m := MaskByte(bits, |front|);
    LastByteMasks(front, x, bits, m);
    LastMaskByte(|front|, bits);
    HostBits(x, h, 8 - h, m);
    LastByteVal(front, x, x | !m, x & m, h);
  }

  lemma LastByteMasks(front: Bytes, x: bv8, bits: nat, m: bv8)
    requires bits >= 8 * |front| && m == MaskByte(bits, |front|)
    ensures OrNot(front + [x], MaskBytes(|front| + 1, bits)) == front + [x | !m]
    ensures And(front + [x], MaskBytes(|front| + 1, bits)) == front + [x & m]
  {
    MaskSnoc(front, x, bits);
    FullMask(front, bits);
  }

  lemma LastByteVal(front: Bytes, x: bv8, c: bv8, f: bv8, h: nat)
    requires h <= 8 && Ceil(Num(x), h) == Num(c) && Floor(Num(x), h) == Num(f)
    ensures Val(front + [c]) == Ceil(Val(front + [x]), h)
    ensures Val(front + [f]) == Floor(Val(front + [x]), h)
  {
    var v := Val(front);
    ValSnoc(front, x);
    ValSnoc(front, c);
    ValSnoc(front, f);
    BytesPass(v, Num(x), h, Val(front + [x]));
  }

  /** Masking the bytes of an address is setting or clearing its low bits. */
  lemma {:induction false} MaskMeaning(b: Bytes, bits: nat)
    requires bits <= 8 * |b|
    ensures Val(OrNot(b, MaskBytes(|b|, bits))) == Ceil(Val(b), 8 * |b| - bits)
    ensures Val(And(b, MaskBytes(|b|, bits))) == Floor(Val(b), 8 * |b| - bits)
    decreases |b|
  {
    if b != [] {
      var front, x := b[..|b| - 1], b[|b| - 1];
      var h := 8 * |b| - bits;
      assert b == front + [x] && |b| == |front| + 1;
      if bits <= 8 * |front| {
        MaskMeaning(front, bits);
        HostByteStep(front, x, bits, h - 8);
      } else {
        LastByteStep(front, x, bits, h);
      }
    }
  }

  lemma LastMaskByte(n: nat, bits: nat)
    requires 8 * n < bits <= 8 * n + 8
    ensures MaskByte(bits, n) == TopOnes(bits - 8 * n)
  {
  }

  /** The broadcast of an address, byte by byte. */
  lemma BroadcastMeaning(b: Bytes, bits: nat)
    requires |b| == 16 && bits <= ADDRESS_BITS
    ensures Val(OrNot(b, MaskBytes(16, bits))) == Broadcast(Val(b), bits)
  {
    MaskMeaning(b, bits);
  }

  lemma {:induction false} SameValSameBytes(a: Bytes, b: Bytes)
    requires |a| == |b| && Val(a) == Val(b)
    ensures a == b
    decreases |a|
  {
    if a != [] {
      var x, y := a[|a| - 1], b[|b| - 1];
      var v, w := a[..|a| - 1], b[..|b| - 1];
      NumIs(x);
      NumIs(y);
      SameDigits(Val(v), Val(w), Num(x), Num(y));
      NumOrder(x, y);
      SameValSameBytes(v, w);
      assert a == v + [x] && b == w + [y];
    }
  }

  lemma SameDigits(v: nat, w: nat, c: nat, d: nat)
    requires v * 256 + c == w * 256 + d && c < 256 && d < 256
    ensures v == w && c == d
  {
  }

  // ----- Counting leading ones

  lemma LeadingOnesBytes(b: Bytes, k: nat)
    requires |b| == 16 && k <= ADDRESS_BITS
    ensures LeadingOnes(Val(b), k) <==> OrNot(b, MaskBytes(16, k)) == Filled(16, 0xFF)
  {
    var ones := Filled(16, 0xFF);
    BroadcastMeaning(b, k);
    ValOnes(16);
    PLimit(8 * |b|);
    if Val(OrNot(b, MaskBytes(16, k))) == Val(ones) {
      SameValSameBytes(OrNot(b, MaskBytes(16, k)), ones);
    }
  }

  lemma OnesIs(n: nat, k: nat)
    requires n < LIMIT && LeadingOnes(n, k) && !LeadingOnes(n, k + 1)
    ensures Ones(n) == k
  {
    var r := Ones(n);
    BroadcastBound(n, 0);
    if r > k {
      LongerIsSmaller(n, r, k + 1);
      BroadcastBound(n, k + 1);
    } else if r < k {
      LongerIsSmaller(n, k, r + 1);
      BroadcastBound(n, r + 1);
    }
  }

  /** `k` bits are ones when the bytes before byte `i` are full and the last bits of the
      prefix, in byte `i`, are ones. */
  lemma MaskedOnes(b: Bytes, i: nat, k: nat)
    requires |b| == 16 && i < 16 && 8 * i <= k < 8 * i + 8
    requires forall j :: 0 <= j < i ==> b[j] == 0xFF
    requires b[i] | !MaskByte(k, i) == 0xFF
    ensures OrNot(b, MaskBytes(16, k)) == Filled(16, 0xFF)
  {
    forall j | 0 <= j < 16 ensures b[j] | !MaskByte(k, j) == 0xFF {
      WholeMask(b[j]);
    }
  }

  lemma NotMaskedOnes(b: Bytes, i: nat, k: nat)
    requires |b| == 16 && i < 16 && b[i] | !MaskByte(k, i) != 0xFF
    ensures OrNot(b, MaskBytes(16, k)) != Filled(16, 0xFF)
  {
    assert OrNot(b, MaskBytes(16, k))[i] != 0xFF;
  }

  /** All ones before byte `i`, and in it the `c` highest bits but not one more. */
  lemma OnesFromBytes(b: Bytes, i: nat, c: nat)
    requires |b| == 16 && i < 16 && c < 8
    requires forall j :: 0 <= j < i ==> b[j] == 0xFF
    requires b[i] | !TopOnes(c) == 0xFF && b[i] | !TopOnes(c + 1) != 0xFF
    ensures Val(b) < LIMIT && Ones(Val(b)) == 8 * i + c
  {
    var k := 8 * i + c;
    AddressBound(b);
    MaskedOnes(b, i, k);
    NotMaskedOnes(b, i, k + 1);
    LeadingOnesBytes(b, k);
    LeadingOnesBytes(b, k + 1);
    OnesIs(Val(b), k);
  }

  lemma OnesOfAll(b: Bytes)
    requires b == Filled(16, 0xFF)
    ensures Val(b) < LIMIT && Ones(Val(b)) == ADDRESS_BITS
  {
    AddressBound(b);
    FullMask(b, ADDRESS_BITS);
    LeadingOnesBytes(b, ADDRESS_BITS);
    OnesIs(Val(b), ADDRESS_BITS);
  }

  lemma BitSet(x: bv8, j: nat)
    requires j < 8 && x | !TopOnes(7 - j) == 0xFF
    ensures x & ((1 as bv8) << j) != 0 <==> x | !TopOnes(8 - j) == 0xFF
  {
  }

  /** The length of the run of ones at the top of an address. */
  method SubnetBits(subnet: array<bv8>) returns (bits: nat)
    requires subnet.Length == 16
    ensures Val(subnet[..]) < LIMIT && bits == Ones(Val(subnet[..]))
  {
    bits := 0;
    for i := 0 to 16
      invariant bits == 8 * i && forall j :: 0 <= j < i ==> subnet[j] == 0xFF
    {
      if subnet[i] == 0xFF {
        bits := bits + 8;
        continue;
      }
      var b := subnet[i];
      WholeMask(b);
      for j := 8 downto 0
        invariant bits == 8 * i + 8 - j && b | !TopOnes(8 - j) == 0xFF
      {
        BitSet(b, j);
        if b & ((1 as bv8) << j) != 0 {
          bits := bits + 1;
        } else {
          OnesFromBytes(subnet[..], i, 7 - j);
          return;
        }
      }
      WholeMask(b);
      assert false;
    }
    assert subnet[..] == Filled(16, 0xFF);
    OnesOfAll(subnet[..]);
  }

  // ----- Masks and broadcasts, in place

  method MaskFromBits(mask: array<bv8>, bits: nat)
    requires mask.Length == 16
    modifies mask
    ensures mask[..] == MaskBytes(16, bits)
  {
    if bits > 0 {
      for i := 0 to 16
        invariant forall j :: 0 <= j < i ==> mask[j] == 0xFF
      {
        mask[i] := 0xFF;
      }
      if bits < 128 {
        var byteIndex := bits / 8;
        var byteBits := bits % 8;
        for i := byteIndex to 16
          invariant forall j :: 0 <= j < byteIndex ==> mask[j] == 0xFF
          invariant forall j :: byteIndex <= j < i ==> mask[j] == 0
        {
          mask[i] := 0;
        }
        for i := 0 to byteBits
          invariant mask[byteIndex] == TopOnes(i)
          invariant forall j :: 0 <= j < byteIndex ==> mask[j] == 0xFF
          invariant forall j :: byteIndex < j < 16 ==> mask[j] == 0
        {
          TopOnesStep(i);
          mask[byteIndex] := (mask[byteIndex] >> 1) | 0x80;
        }
      }
    } else {
      for i := 0 to 16
        invariant forall j :: 0 <= j < i ==> mask[j] == 0
      {
        mask[i] := 0;
      }
    }
  }

  method SubnetBroadcast(broadcast: array<bv8>, subnet: array<bv8>, bits: nat)
    requires broadcast.Length == 16 && subnet.Length == 16
    modifies broadcast
    ensures broadcast[..] == OrNot(old(subnet[..]), MaskBytes(16, bits))
  {
    var mask := new bv8[16];
    MaskFromBits(mask, bits);
    assert forall j :: 0 <= j < 16 ==> mask[..][j] == MaskByte(bits, j);
    for i := 0 to 16
      invariant forall j :: 0 <= j < 16 ==> mask[j] == MaskByte(bits, j)
      invariant forall j :: i <= j < 16 ==> subnet[j] == old(subnet[j])
      invariant forall j :: 0 <= j < i ==> broadcast[j] == old(subnet[j]) | !MaskByte(bits, j)
    {
      broadcast[i] := subnet[i] | !mask[i];
    }
  }

  // ----- Membership

  lemma DiffersAt(a: Bytes, b: Bytes, i: nat)
    requires i < |a| == |b| && a[i] != b[i]
    ensures a != b
  {
  }

  method CidrBlockContains(network: array<bv8>, mask: array<bv8>, ip: array<bv8>) returns (r: bool)
    requires network.Length == 16 && mask.Length == 16 && ip.Length == 16
    ensures r <==> And(ip[..], mask[..]) == network[..]
  {
    ghost var masked := And(ip[..], mask[..]);
    assert forall j :: 0 <= j < 16 ==> masked[j] == ip[j] & mask[j];
    for i := 0 to 16
      invariant masked[..i] == network[..i]
    {
      if ip[i] & mask[i] != network[i] {
        DiffersAt(masked, network[..], i);
        return false;
      }
    }
    return true;
  }

  lemma {:induction false} FloorIsAligned(n: nat, h: nat)
    ensures Aligned(Floor(n, h), h) && Ceil(Floor(n, h), h) == Ceil(n, h)
    decreases h
  {
    if h > 0 {
      FloorIsAligned(n / 2, h - 1);
    }
  }

  lemma {:induction false} FloorOfMember(net: nat, n: nat, h: nat)
    requires Aligned(net, h) && net <= n <= Ceil(net, h)
    ensures Floor(n, h) == net
    decreases h
  {
    if h > 0 {
      FloorOfMember(net / 2, n / 2, h - 1);
    }
  }

  /** The membership test of a block answers membership in its interval when the network
      address is on the block's own boundary; on any other it answers no to everything. */
  lemma ContainsMeaning(network: Bytes, bits: nat, ip: Bytes)
    requires |network| == 16 && |ip| == 16 && bits <= ADDRESS_BITS
    ensures And(ip, MaskBytes(16, bits)) == network
        <==> Aligned(Val(network), ADDRESS_BITS - bits) && Val(network) <= Val(ip) <= Broadcast(Val(network), bits)
  {
    var h := ADDRESS_BITS - bits;
    var a := And(ip, MaskBytes(16, bits));
    MaskMeaning(ip, bits);
    if a == network {
      FloorIsAligned(Val(ip), h);
    } else if Aligned(Val(network), h) && Val(network) <= Val(ip) <= Ceil(Val(network), h) {
      FloorOfMember(Val(network), Val(ip), h);
      SameValSameBytes(a, network);
      assert false;
    }
  }

  // ----- The splitter

  datatype Cidr = Cidr(network: Bytes, broadcast: Bytes, mask: Bytes, bits: nat)

  /** The bytes of a block. */
  predicate Writes(c: Cidr, b: Block) {
    && |c.network| == 16 && Val(c.network) == b.first
    && |c.broadcast| == 16 && Val(c.broadcast) == b.last
    && c.mask == MaskBytes(16, b.bits) && c.bits == b.bits
  }

  predicate WritesAll(cidrs: seq<Cidr>, blocks: seq<Block>) {
    |cidrs| == |blocks| && forall i :: 0 <= i < |cidrs| ==> Writes(cidrs[i], blocks[i])
  }

  lemma WritesMore(cidrs: seq<Cidr>, blocks: seq<Block>, c: Cidr, b: Block)
    requires WritesAll(cidrs, blocks) && Writes(c, b)
    ensures WritesAll(cidrs + [c], blocks + [b])
  {
  }

  /** One step of the search for the prefix length. */
  lemma TryNext(n: nat, to: nat, bits: nat)
    requires n <= to && bits <= ADDRESS_BITS && !Fits(n, to, bits)
    ensures bits < ADDRESS_BITS && Fit(n, to, bits) == Fit(n, to, bits + 1)
  {
  }

  /** The mask and the last address of one prefix length, and whether it stays in the range. */
  method TryBits(subnet: array<bv8>, to: array<bv8>, mask: array<bv8>, broadcast: array<bv8>, bits: nat)
    returns (fits: bool)
    requires subnet.Length == 16 && to.Length == 16 && mask.Length == 16 && broadcast.Length == 16
    requires bits <= ADDRESS_BITS && mask != subnet && mask != to && mask != broadcast
    requires broadcast != subnet && broadcast != to
    modifies mask, broadcast
    ensures mask[..] == MaskBytes(16, bits) && |broadcast[..]| == 16 && Val(broadcast[..]) == Broadcast(Val(subnet[..]), bits)
    ensures fits <==> Broadcast(Val(subnet[..]), bits) <= Val(to[..])
  {
    MaskFromBits(mask, bits);
    SubnetBroadcast(broadcast, subnet, bits);
    BroadcastMeaning(subnet[..], bits);
    var order := Compare(broadcast, to);
    fits := order <= 0;
  }

  /** The search from the leading ones, and the block it settles on. */
  method NextBlock(subnet: array<bv8>, to: array<bv8>) returns (cidr: Cidr, broadcast: array<bv8>)
    requires subnet.Length == 16 && to.Length == 16 && Val(subnet[..]) <= Val(to[..])
    ensures fresh(broadcast) && broadcast.Length == 16 && broadcast[..] == cidr.broadcast
    ensures Val(to[..]) < LIMIT
    ensures var n, t := Val(subnet[..]), Val(to[..]); Writes(cidr, Block(n, Reach(n, t), Chosen(n, t)))
  {
    ghost var n, t := Val(subnet[..]), Val(to[..]);
    AddressBound(to[..]);
    var mask := new bv8[16];
    broadcast := new bv8[16];
    var bits := SubnetBits(subnet);
    while bits <= ADDRESS_BITS
      invariant bits <= ADDRESS_BITS && Fit(n, t, bits) == Chosen(n, t)
      invariant subnet[..] == old(subnet[..]) && to[..] == old(to[..])
      decreases ADDRESS_BITS - bits
    {
      var fits := TryBits(subnet, to, mask, broadcast, bits);
      if fits {
        cidr := Cidr(subnet[..], broadcast[..], mask[..], bits);
        return;
      }
      TryNext(n, t, bits);
      bits := bits + 1;
    }
    assert false;
  }

  /** What is listed are the first of `all` blocks; the rest is the split from `n`. */
  predicate Listing(cidrs: seq<Cidr>, all: seq<Block>, n: nat, to: nat, fuse: nat) {
    && n < LIMIT && to < LIMIT && |cidrs| <= |all|
    && WritesAll(cidrs, all[..|cidrs|]) && all[|cidrs|..] == Split(n, to, fuse)
  }

  lemma ListStarts(n: nat, to: nat, fuse: nat)
    requires n < LIMIT && to < LIMIT
    ensures Listing([], Split(n, to, fuse), n, to, fuse)
  {
  }

  lemma ListStep(cidrs: seq<Cidr>, all: seq<Block>, n: nat, to: nat, fuse: nat, cidr: Cidr, next: nat)
    requires Listing(cidrs, all, n, to, fuse) && n <= to && fuse > 0
    requires Writes(cidr, Block(n, Reach(n, to), Chosen(n, to))) && next == Successor(Reach(n, to))
    ensures Listing(cidrs + [cidr], all, next, to, fuse - 1)
  {
    var k := |cidrs|;
    var b := Block(n, Reach(n, to), Chosen(n, to));
    assert all[k..] == [b] + Split(next, to, fuse - 1);
    assert all[k] == all[k..][0];
    assert all[..k + 1] == all[..k] + [b];
    assert all[k + 1..] == all[k..][1..];
    WritesMore(cidrs, all[..k], cidr, b);
  }

  lemma ListEnds(cidrs: seq<Cidr>, all: seq<Block>, n: nat, to: nat, fuse: nat)
    requires Listing(cidrs, all, n, to, fuse) && (n > to || fuse == 0)
    ensures WritesAll(cidrs, all)
  {
    assert all[|cidrs|..] == [];
    assert all[..|cidrs|] == all;
  }

  method Copy(a: array<bv8>) returns (b: array<bv8>)
    requires a.Length == 16
    ensures fresh(b) && b.Length == 16 && b[..] == a[..]
  {
    b := new bv8[16];
    for i := 0 to 16
      invariant b[..i] == a[..i]
    {
      b[i] := a[i];
    }
  }

  /** One turn of the splitter: one more block listed, and the address after it. */
  method TakeBlock(cidrs: seq<Cidr>, subnet: array<bv8>, to: array<bv8>, ghost all: seq<Block>, ghost left: nat)
    returns (longer: seq<Cidr>, next: array<bv8>)
    requires subnet.Length == 16 && to.Length == 16 && Val(subnet[..]) <= Val(to[..]) && left > 0
    requires Listing(cidrs, all, Val(subnet[..]), Val(to[..]), left)
    ensures fresh(next) && next.Length == 16
    ensures Listing(longer, all, Val(next[..]), Val(to[..]), left - 1)
  {
    var cidr;
    cidr, next := NextBlock(subnet, to);
    AddressNext(next[..]);
    Next(next);
    ListStep(cidrs, all, Val(subnet[..]), Val(to[..]), left, cidr, Val(next[..]));
    longer := cidrs + [cidr];
  }

  /** Splits a range of addresses into blocks. */
  method CidrFromRange(from: array<bv8>, to: array<bv8>) returns (cidrs: seq<Cidr>)
    requires from.Length == 16 && to.Length == 16
    ensures Val(from[..]) < LIMIT && Val(to[..]) < LIMIT
    ensures WritesAll(cidrs, Split(Val(from[..]), Val(to[..]), FUSE))
  {
    AddressBound(from[..]);
    AddressBound(to[..]);
    var subnet := Copy(from);
    cidrs := [];
    ghost var left := FUSE;
    ghost var all := Split(Val(from[..]), Val(to[..]), left);
    ListStarts(Val(from[..]), Val(to[..]), left);
    var loops := 0;
    var order := Compare(subnet, to);
    while order <= 0 && loops < FUSE
      invariant loops + left == FUSE && subnet.Length == 16
      invariant order <= 0 <==> Val(subnet[..]) <= Val(to[..])
      invariant Listing(cidrs, all, Val(subnet[..]), Val(to[..]), left)
      decreases FUSE - loops
    {
      cidrs, subnet := TakeBlock(cidrs, subnet, to, all, left);
      left := left - 1;
      loops := loops + 1;
      order := Compare(subnet, to);
    }
    ListEnds(cidrs, all, Val(subnet[..]), Val(to[..]), left);
  }

  lemma BlockMeaning(cidrs: seq<Cidr>, blocks: seq<Block>, from: nat, to: nat, i: nat, ip: Bytes)
    requires Tiles(blocks, from, to) && Narrowing(blocks, 0) && WritesAll(cidrs, blocks)
    requires i < |cidrs| && |ip| == 16
    ensures cidrs[0].bits <= ADDRESS_BITS
    ensures And(ip, cidrs[i].mask) == cidrs[i].network
        <==> ((i == 0 ==> Aligned(from, ADDRESS_BITS - cidrs[0].bits))
              && Val(cidrs[i].network) <= Val(ip) <= Val(cidrs[i].broadcast))
  {
    var b := blocks[i];
    assert Writes(cidrs[i], b) && Whole(b) && Writes(cidrs[0], blocks[0]);
    ContainsMeaning(cidrs[i].network, b.bits, ip);
    if i > 0 {
      assert OnBoundary(b);
    }
  }

  /** What the membership test answers for each block of a range: the interval, for every
      block after the first; and for the first only when the range starts on its boundary. */
  lemma ListMeaning(cidrs: seq<Cidr>, from: nat, to: nat, i: nat, ip: Bytes)
    requires from <= to < LIMIT - 1 && WritesAll(cidrs, Split(from, to, FUSE)) && i < |cidrs| && |ip| == 16
    ensures |cidrs| <= ADDRESS_BITS && cidrs[0].bits <= ADDRESS_BITS
    ensures And(ip, cidrs[i].mask) == cidrs[i].network
        <==> ((i == 0 ==> Aligned(from, ADDRESS_BITS - cidrs[0].bits))
              && Val(cidrs[i].network) <= Val(ip) <= Val(cidrs[i].broadcast))
  {
    SplitIsExact(from, to);
    BlockMeaning(cidrs, Split(from, to, FUSE), from, to, i, ip);
  }

  predicate Answers(c: Cidr, ip: Bytes)
    requires |ip| == 16 && |c.mask| == 16
  {
    And(ip, c.mask) == c.network
  }

  /** Which addresses some block of the list answers for: those of the range, but when the
      range does not start on the first block's boundary, none of the first block's. */
  lemma MembershipOfList(cidrs: seq<Cidr>, from: nat, to: nat, ip: Bytes)
    requires from <= to < LIMIT - 1 && WritesAll(cidrs, Split(from, to, FUSE)) && |ip| == 16
    ensures 0 < |cidrs| && cidrs[0].bits <= ADDRESS_BITS
    ensures forall i :: 0 <= i < |cidrs| ==> |cidrs[i].mask| == 16
    ensures (exists i :: 0 <= i < |cidrs| && Answers(cidrs[i], ip))
        <==> (from <= Val(ip) <= to
              && (Aligned(from, ADDRESS_BITS - cidrs[0].bits) || Val(ip) > Val(cidrs[0].broadcast)))
  {
    var blocks := Split(from, to, FUSE);
    var x := Val(ip);
    SplitIsExact(from, to);
    TilesPartition(blocks, from, to, x);
    assert forall i :: 0 <= i < |cidrs| ==> Writes(cidrs[i], blocks[i]);
    forall i | 0 <= i < |cidrs|
      ensures Answers(cidrs[i], ip)
          <==> ((i == 0 ==> Aligned(from, ADDRESS_BITS - cidrs[0].bits)) && Holds(blocks[i], x))
    {
      ListMeaning(cidrs, from, to, i, ip);
    }
    AnswersOfHolds(cidrs, blocks, x, ip, Aligned(from, ADDRESS_BITS - cidrs[0].bits), from, to);
  }

  lemma AnswersOfHolds(cidrs: seq<Cidr>, blocks: seq<Block>, x: nat, ip: Bytes, onBoundary: bool, from: nat, to: nat)
    requires |ip| == 16 && 0 < |cidrs| == |blocks| && forall i :: 0 <= i < |cidrs| ==> |cidrs[i].mask| == 16
    requires forall i :: 0 <= i < |cidrs| ==> (Answers(cidrs[i], ip) <==> ((i == 0 ==> onBoundary) && Holds(blocks[i], x)))
    requires from <= x <= to <==> exists i :: 0 <= i < |blocks| && Holds(blocks[i], x)
    requires forall i, j :: 0 <= i < |blocks| && 0 <= j < |blocks| && Holds(blocks[i], x) && Holds(blocks[j], x) ==> i == j
    requires blocks[0].first == from
    ensures (exists i :: 0 <= i < |cidrs| && Answers(cidrs[i], ip))
        <==> (from <= x <= to && (onBoundary || x > blocks[0].last))
  {
    if from <= x <= to {
      var i :| 0 <= i < |blocks| && Holds(blocks[i], x);
      assert Answers(cidrs[i], ip) <==> ((i == 0 ==> onBoundary) && Holds(blocks[i], x));
      assert i == 0 <==> Holds(blocks[0], x);
    }
  }
}

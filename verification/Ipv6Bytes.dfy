/** 128-bit addresses as 16 bytes in network order, their numeric value, and the
    byte-wise operations on them. */
module Ipv6Bytes {
  type Bytes = seq<bv8>

  const LIMIT: nat := 0x1_0000_0000_0000_0000_0000_0000_0000_0000

  /** Two to the power of `n`. */
  function P(n: nat): (p: nat)
    ensures p >= 1
  {
    if n == 0 then 1 else 2 * P(n - 1)
  }

  lemma {:induction false} PAdd(a: nat, b: nat)
    ensures P(a + b) == P(a) * P(b)
    decreases a
  {
    if a > 0 {
      PAdd(a - 1, b);
    }
  }

  lemma PByte(n: nat)
    ensures P(n + 8) == 256 * P(n)
  {
    assert P(8) == 256;
    PAdd(8, n);
  }

  lemma PSquare(h: nat, v: nat)
    requires P(h) == v
    ensures P(h + h) == v * v
  {
    PAdd(h, h);
  }

  /** Stated of a variable, so that the power is not computed digit by digit. */
  lemma PLimit(n: nat)
    requires n == 128
    ensures P(n) == LIMIT
  {
    var e := n / 16;
    assert P(8) == 256;
    PSquare(e, 256);
    PSquare(e + e, 0x1_0000);
    PSquare(e + e + e + e, 0x1_0000_0000);
    PSquare(8 * e, 0x1_0000_0000_0000_0000);
  }

  /** The value of a byte, bit by bit. */
  function Num(x: bv8): nat
    decreases x
  {
    if x == 0 then 0 else 2 * Num(x >> 1) + (if x & 1 == 1 then 1 else 0)
  }

  lemma Halves(x: bv8)
    ensures x as nat == 2 * (x >> 1) as nat + (if x & 1 == 1 then 1 else 0)
  {
  }

  lemma {:induction false} NumIs(x: bv8)
    ensures Num(x) == x as nat < 256
    decreases x
  {
    if x != 0 {
      NumIs(x >> 1);
      Halves(x);
    }
  }

  /** Byte order is the order of the values. */
  lemma NumOrder(x: bv8, y: bv8)
    ensures (x < y <==> Num(x) < Num(y)) && (x == y <==> Num(x) == Num(y))
  {
    NumIs(x);
    NumIs(y);
  }

  /** The number that a byte string writes, most significant byte first. */
  function Val(b: Bytes): nat {
    if b == [] then 0 else Val(b[..|b| - 1]) * 256 + Num(b[|b| - 1])
  }

  lemma {:induction false} ValBound(b: Bytes)
    ensures Val(b) < P(8 * |b|)
  {
    if b != [] {
      ValBound(b[..|b| - 1]);
      NumIs(b[|b| - 1]);
      PByte(8 * (|b| - 1));
    }
  }

  lemma ValSnoc(b: Bytes, x: bv8)
    ensures Val(b + [x]) == Val(b) * 256 + Num(x)
  {
    assert (b + [x])[..|b|] == b;
  }

  lemma Shift(v: nat, p: nat, w: nat, x: nat)
    ensures (v * p + w) * 256 + x == v * (256 * p) + (w * 256 + x)
  {
  }

  lemma {:induction false} ValConcat(a: Bytes, b: Bytes)
    ensures Val(a + b) == Val(a) * P(8 * |b|) + Val(b)
    decreases |b|
  {
    if b == [] {
      assert a + b == a;
    } else {
      var c, x := b[..|b| - 1], b[|b| - 1];
      ValConcat(a, c);
      assert a + b == (a + c) + [x];
      ValSnoc(a + c, x);
      PByte(8 * |c|);
      Shift(Val(a), P(8 * |c|), Val(c), Num(x));
    }
  }

  function Filled(n: nat, x: bv8): (b: Bytes)
    ensures |b| == n && forall i :: 0 <= i < n ==> b[i] == x
  {
    seq(n, _ => x)
  }

  lemma {:induction false} ValZeros(n: nat)
    ensures Val(Filled(n, 0)) == 0
  {
    if n > 0 {
      ValZeros(n - 1);
      assert Filled(n, 0)[..n - 1] == Filled(n - 1, 0);
    }
  }

  lemma {:induction false} ValOnes(n: nat)
    ensures Val(Filled(n, 0xFF)) == P(8 * n) - 1
  {
    if n > 0 {
      ValOnes(n - 1);
      assert Filled(n, 0xFF)[..n - 1] == Filled(n - 1, 0xFF);
      PByte(8 * (n - 1));
      NumIs(0xFF);
    }
  }

  // ----- Comparison

  /** The order in which memcmp puts byte strings of one length. */
  function CompareBytes(a: Bytes, b: Bytes): int
    requires |a| == |b|
    decreases |a|
  {
    if a == [] then 0
    else if a[0] < b[0] then -1
    else if a[0] > b[0] then 1
    else CompareBytes(a[1..], b[1..])
  }

  lemma ValOne(x: bv8)
    ensures Val([x]) == Num(x)
  {
    assert [x][..0] == [];
  }

  lemma ValFront(b: Bytes, n: nat)
    requires |b| == n + 1
    ensures Val(b) == Val([b[0]]) * P(8 * n) + Val(b[1..]) && Val(b[1..]) < P(8 * n)
  {
    assert b == [b[0]] + b[1..];
    ValConcat([b[0]], b[1..]);
    ValBound(b[1..]);
  }

  lemma SmallerFront(a: Bytes, b: Bytes, n: nat)
    requires |a| == |b| == n + 1 && a[0] < b[0]
    ensures Val(a) < Val(b)
  {
    ValFront(a, n);
    ValFront(b, n);
    assert Val([a[0]]) < Val([b[0]]) by {
      ValOne(a[0]);
      ValOne(b[0]);
      NumOrder(a[0], b[0]);
    }
    Dominates(Val([a[0]]), Val([b[0]]), Val(a[1..]), Val(b[1..]), P(8 * n));
  }

  lemma SameFront(a: Bytes, b: Bytes, n: nat)
    requires |a| == |b| == n + 1 && a[0] == b[0]
    ensures Val(a) - Val(b) == Val(a[1..]) - Val(b[1..])
  {
    ValFront(a, n);
    ValFront(b, n);
  }

  lemma {:induction false} CompareIsOrder(a: Bytes, b: Bytes)
    requires |a| == |b|
    ensures CompareBytes(a, b) <= 0 <==> Val(a) <= Val(b)
    ensures CompareBytes(a, b) >= 0 <==> Val(a) >= Val(b)
    decreases |a|
  {
    if a != [] {
      if a[0] < b[0] {
        SmallerFront(a, b, |a| - 1);
      } else if a[0] > b[0] {
        SmallerFront(b, a, |a| - 1);
      } else {
        SameFront(a, b, |a| - 1);
        CompareIsOrder(a[1..], b[1..]);
      }
    }
  }

  lemma Scale(x: nat, d: nat, m: nat)
    ensures (x + d) * m == x * m + d * m && d * m >= 0
  {
  }

  lemma Dominates(x: nat, y: nat, u: nat, v: nat, m: nat)
    requires u < m && x < y
    ensures x * m + u < y * m + v
  {
    Scale(x, 1, m);
    Scale(x + 1, y - x - 1, m);
  }

  /** The loop that compares byte by byte. */
  method Compare(a: array<bv8>, b: array<bv8>) returns (r: int)
    requires a.Length == 16 && b.Length == 16
    ensures r < 0 <==> Val(a[..]) < Val(b[..])
    ensures r > 0 <==> Val(a[..]) > Val(b[..])
    ensures r == 0 <==> a[..] == b[..]
  {
    CompareIsOrder(a[..], b[..]);
    for i := 0 to 16
      invariant a[..i] == b[..i]
      invariant CompareBytes(a[..], b[..]) == CompareBytes(a[..][i..], b[..][i..])
    {
      assert a[..][i..][1..] == a[..][i + 1..] && b[..][i..][1..] == b[..][i + 1..];
      if a[i] != b[i] {
        return if a[i] > b[i] then 1 else -1;
      }
    }
    return 0;
  }

  // ----- Successor and predecessor, in place

  function NextBytes(b: Bytes): (r: Bytes)
    ensures |r| == |b|
  {
    if b == [] then []
    else
      var x := b[|b| - 1];
      if x == 255 then NextBytes(b[..|b| - 1]) + [0] else b[..|b| - 1] + [x + 1]
  }

  function PrevBytes(b: Bytes): (r: Bytes)
    ensures |r| == |b|
  {
    if b == [] then []
    else
      var x := b[|b| - 1];
      if x == 0 then PrevBytes(b[..|b| - 1]) + [255] else b[..|b| - 1] + [x - 1]
  }

  lemma ByteUp(x: bv8)
    requires x < 255
    ensures Num(x + 1) == Num(x) + 1 < 256
  {
    NumIs(x);
    NumIs(x + 1);
  }

  lemma ByteDown(x: bv8)
    requires x > 0
    ensures Num(x - 1) + 1 == Num(x) < 256
  {
    NumIs(x);
    NumIs(x - 1);
  }

  lemma CarryStops(v: nat, x: nat, p: nat)
    requires v < p && x < 255
    ensures v * 256 + x + 1 != 256 * p
  {
  }

  lemma CarryGoesOn(v: nat, w: nat, p: nat)
    requires v < p && w == if v + 1 == p then 0 else v + 1
    ensures w * 256 == if v * 256 + 256 == 256 * p then 0 else v * 256 + 256
  {
  }

  /** The carry adds one, and wraps only from all ones to zero. */
  lemma {:induction false} NextVal(b: Bytes)
    ensures Val(NextBytes(b)) == if Val(b) + 1 == P(8 * |b|) then 0 else Val(b) + 1
    decreases |b|
  {
    if b != [] {
      var front, x := b[..|b| - 1], b[|b| - 1];
      NextVal(front);
      NextStep(front, x, 8 * |front|);
      assert b == front + [x] && 8 * |b| == 8 * |front| + 8;
    }
  }

  lemma NextStep(front: Bytes, x: bv8, n: nat)
    requires n == 8 * |front|
    requires Val(NextBytes(front)) == if Val(front) + 1 == P(n) then 0 else Val(front) + 1
    ensures var b := front + [x];
            Val(NextBytes(b)) == if Val(b) + 1 == P(n + 8) then 0 else Val(b) + 1
  {
    var b := front + [x];
    assert b[..|b| - 1] == front;
    PByte(n);
    ValBound(front);
    ValSnoc(front, x);
    if x == 255 {
      NumIs(x);
      ValSnoc(NextBytes(front), 0);
      CarryGoesOn(Val(front), Val(NextBytes(front)), P(n));
    } else {
      ByteUp(x);
      ValSnoc(front, x + 1);
      CarryStops(Val(front), Num(x), P(n));
    }
  }

  lemma {:induction false} PrevVal(b: Bytes)
    ensures Val(PrevBytes(b)) == if Val(b) == 0 then P(8 * |b|) - 1 else Val(b) - 1
  {
    if b != [] {
      var front, x := b[..|b| - 1], b[|b| - 1];
      PByte(8 * |front|);
      if x == 0 {
        PrevVal(front);
        NumIs(255);
        ValSnoc(PrevBytes(front), 255);
      } else {
        ByteDown(x);
        ValSnoc(front, x - 1);
      }
    }
  }

  lemma {:induction false} PrevUndoesNext(b: Bytes)
    ensures PrevBytes(NextBytes(b)) == b
  {
    if b != [] {
      var front, x := b[..|b| - 1], b[|b| - 1];
      PrevUndoesNext(front);
      assert b == front + [x];
      if x == 255 {
        assert (NextBytes(front) + [0])[..|front|] == NextBytes(front);
      } else {
        assert (front + [x + 1])[..|front|] == front;
      }
    }
  }

  lemma Carry(b: Bytes, tail: Bytes)
    requires b != [] && b[|b| - 1] == 255
    ensures NextBytes(b) + tail == NextBytes(b[..|b| - 1]) + ([0] + tail)
  {
  }

  lemma Borrow(b: Bytes, tail: Bytes)
    requires b != [] && b[|b| - 1] == 0
    ensures PrevBytes(b) + tail == PrevBytes(b[..|b| - 1]) + ([255] + tail)
  {
  }

  method Next(ip: array<bv8>)
    modifies ip
    ensures ip[..] == NextBytes(old(ip[..]))
  {
    ghost var front, tail: Bytes := ip[..], [];
    var i := ip.Length - 1;
    while i >= 0
      invariant |front| == i + 1 <= ip.Length && ip[..] == front + tail
      invariant NextBytes(old(ip[..])) == NextBytes(front) + tail
    {
      assert ip[i] == front[i];
      if ip[i] == 255 {
        Carry(front, tail);
        ip[i] := 0;
        front, tail := front[..i], [0] + tail;
        assert ip[..] == front + tail;
      } else {
        ip[i] := ip[i] + 1;
        assert ip[..] == NextBytes(front) + tail;
        return;
      }
      i := i - 1;
    }
  }

  method Prev(ip: array<bv8>)
    modifies ip
    ensures ip[..] == PrevBytes(old(ip[..]))
  {
    ghost var front, tail: Bytes := ip[..], [];
    var i := ip.Length - 1;
    while i >= 0
      invariant |front| == i + 1 <= ip.Length && ip[..] == front + tail
      invariant PrevBytes(old(ip[..])) == PrevBytes(front) + tail
    {
      assert ip[i] == front[i];
      if ip[i] == 0 {
        Borrow(front, tail);
        ip[i] := 255;
        front, tail := front[..i], [255] + tail;
        assert ip[..] == front + tail;
      } else {
        ip[i] := ip[i] - 1;
        assert ip[..] == PrevBytes(front) + tail;
        return;
      }
      i := i - 1;
    }
  }

  // ----- With the result in another buffer

  /** How many bytes in front the carry, or the borrow, does not reach. */
  function Spared(b: Bytes, full: bv8): (k: nat)
    ensures k <= |b|
  {
    if b == [] then 0 else if b[|b| - 1] == full then Spared(b[..|b| - 1], full) else |b| - 1
  }

  /** Past the last byte that is not full the successor is zeroes, before it the address. */
  lemma {:induction false} NextShape(b: Bytes, i: int)
    requires -1 <= i < |b| && (forall j :: i < j < |b| ==> b[j] == 255) && (i >= 0 ==> b[i] != 255)
    ensures Spared(b, 255) == (if i < 0 then 0 else i) && (forall j :: i < j < |b| ==> NextBytes(b)[j] == 0)
    ensures i >= 0 ==> NextBytes(b)[i] == b[i] + 1 && NextBytes(b)[..i] == b[..i]
    decreases |b|
  {
    if i < |b| - 1 {
      NextShape(b[..|b| - 1], i);
      assert i >= 0 ==> NextBytes(b)[..i] == NextBytes(b[..|b| - 1])[..i];
    }
  }

  lemma {:induction false} PrevShape(b: Bytes, i: int)
    requires -1 <= i < |b| && (forall j :: i < j < |b| ==> b[j] == 0) && (i >= 0 ==> b[i] != 0)
    ensures Spared(b, 0) == (if i < 0 then 0 else i) && (forall j :: i < j < |b| ==> PrevBytes(b)[j] == 255)
    ensures i >= 0 ==> PrevBytes(b)[i] == b[i] - 1 && PrevBytes(b)[..i] == b[..i]
    decreases |b|
  {
    if i < |b| - 1 {
      PrevShape(b[..|b| - 1], i);
      assert i >= 0 ==> PrevBytes(b)[..i] == PrevBytes(b[..|b| - 1])[..i];
    }
  }

  /** Where the carry or the borrow stops. */
  function LastNot(b: Bytes, full: bv8): (i: int)
    ensures -1 <= i < |b| && (forall j :: i < j < |b| ==> b[j] == full) && (i >= 0 ==> b[i] != full)
  {
    if b == [] then -1 else if b[|b| - 1] != full then |b| - 1 else LastNot(b[..|b| - 1], full)
  }

  /** What a second buffer holds afterwards: the bytes reached, behind what it held before. */
  function Into(was: Bytes, now: Bytes, k: nat): Bytes
    requires k <= |was| == |now|
  {
    was[..k] + now[k..]
  }

  /** So it holds the neighbour exactly when it held the address's own bytes in front. */
  lemma IntoIff(b: Bytes, was: Bytes)
    requires |was| == |b|
    ensures Into(was, NextBytes(b), Spared(b, 255)) == NextBytes(b)
        <==> was[..Spared(b, 255)] == b[..Spared(b, 255)]
    ensures Into(was, PrevBytes(b), Spared(b, 0)) == PrevBytes(b) <==> was[..Spared(b, 0)] == b[..Spared(b, 0)]
  {
    NextShape(b, LastNot(b, 255));
    PrevShape(b, LastNot(b, 0));
    IntoFront(was, NextBytes(b), Spared(b, 255));
    IntoFront(was, PrevBytes(b), Spared(b, 0));
  }

  lemma IntoFront(was: Bytes, now: Bytes, k: nat)
    requires k <= |was| == |now|
    ensures Into(was, now, k) == now <==> was[..k] == now[..k]
  {
    assert now == now[..k] + now[k..];
    assert Into(was, now, k)[..k] == was[..k];
  }

  /** The successor of `ip`, written to `output`, which may be `ip` itself. */
  method NextInto(ip: array<bv8>, output: array<bv8>)
    requires output.Length == ip.Length
    modifies output
    ensures output[..] == Into(old(output[..]), NextBytes(old(ip[..])), Spared(old(ip[..]), 255))
  {
    ghost var b := ip[..];
    var i := ip.Length - 1;
    while i >= 0
      invariant -1 <= i < ip.Length
      invariant forall j :: 0 <= j <= i ==> ip[j] == b[j] && output[j] == old(output[j])
      invariant forall j :: i < j < ip.Length ==> b[j] == 255 && output[j] == 0
    {
      if ip[i] == 255 {
        output[i] := 0;
        i := i - 1;
      } else {
        output[i] := ip[i] + 1;
        break;
      }
    }
    NextShape(b, i);
  }

  /** The predecessor likewise. */
  method PrevInto(ip: array<bv8>, output: array<bv8>)
    requires output.Length == ip.Length
    modifies output
    ensures output[..] == Into(old(output[..]), PrevBytes(old(ip[..])), Spared(old(ip[..]), 0))
  {
    ghost var b := ip[..];
    var i := ip.Length - 1;
    while i >= 0
      invariant -1 <= i < ip.Length
      invariant forall j :: 0 <= j <= i ==> ip[j] == b[j] && output[j] == old(output[j])
      invariant forall j :: i < j < ip.Length ==> b[j] == 0 && output[j] == 255
    {
      if ip[i] == 0 {
        output[i] := 255;
        i := i - 1;
      } else {
        output[i] := ip[i] - 1;
        break;
      }
    }
    PrevShape(b, i);
  }

  lemma AddressBound(b: Bytes)
    requires |b| == 16
    ensures Val(b) < LIMIT
  {
    ValBound(b);
    PLimit(8 * |b|);
  }

  /** On a 16-byte address the successor wraps from the last address to zero. */
  lemma AddressNext(b: Bytes)
    requires |b| == 16
    ensures Val(b) < LIMIT
    ensures Val(NextBytes(b)) == if Val(b) == LIMIT - 1 then 0 else Val(b) + 1
    ensures Val(PrevBytes(b)) == if Val(b) == 0 then LIMIT - 1 else Val(b) - 1
  {
    NextVal(b);
    PrevVal(b);
    ValBound(b);
    PLimit(8 * |b|);
  }
}

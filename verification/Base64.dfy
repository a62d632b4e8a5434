/** Base64 of RFC 4648 section 4: the encoder that makes credentials and the decoder
    that reads digests, which keeps only the last 24 bits of what it has read. */
module Base64 {
  import opened Basics

  const MASK24: int := 0x100_0000

  function Code(v: int): char
    requires 0 <= v < 64
  {
    if v < 26 then ('A' as int + v) as char
    else if v < 52 then ('a' as int + (v - 26)) as char
    else if v < 62 then ('0' as int + (v - 52)) as char
    else if v == 62 then '+' else '/'
  }

  function Value(c: char): int {
    if 'A' <= c <= 'Z' then c as int - 'A' as int
    else if 'a' <= c <= 'z' then c as int - 'a' as int + 26
    else if '0' <= c <= '9' then c as int - '0' as int + 52
    else if c == '+' then 62
    else if c == '/' then 63
    else -1
  }

  predicate Skipped(c: char) { c == '=' || c == '\r' || c == '\n' || c == ' ' || c == '\t' }

  lemma ValueOfCode(v: int)
    requires 0 <= v < 64
    ensures Value(Code(v)) == v && !Skipped(Code(v))
  {
  }

  /** Three bytes, as one number, in four characters. */
  function Quad(v: int): string
    requires 0 <= v < MASK24
  {
    [Code(v / 0x4_0000), Code(v / 0x1000 % 64), Code(v / 0x40 % 64), Code(v % 64)]
  }

  function Triple(b: Bytes): int
    requires |b| == 3
  {
    b[0] as int * 0x1_0000 + b[1] as int * 0x100 + b[2] as int
  }

  /** The end: one byte in two characters and two pads, or two in three and one. */
  function Tail(b: Bytes): string
    requires 0 < |b| < 3
  {
    var v := b[0] as int * 0x1_0000 + (if |b| == 2 then b[1] as int * 0x100 else 0);
    [Code(v / 0x4_0000), Code(v / 0x1000 % 64), if |b| == 2 then Code(v / 0x40 % 64) else '=', '=']
  }

  function Encode(b: Bytes): string {
    if b == [] then "" else if |b| < 3 then Tail(b) else Quad(Triple(b[..3])) + Encode(b[3..])
  }

  /** What is read from `s`, with `acc` the bits read so far and `bits` of them not yet
      given out; nothing if a character does not belong. */
  function Read(s: string, acc: int, bits: int): Option<Bytes>
    requires 0 <= acc < MASK24 && (bits == 0 || bits == 2 || bits == 4 || bits == 6)
    decreases |s|
  {
    if s == "" then Some([])
    else if Skipped(s[0]) then Read(s[1..], acc, bits)
    else if Value(s[0]) < 0 then None
    else
      var now := (acc * 64 + Value(s[0])) % MASK24;
      if bits + 6 < 8 then Read(s[1..], now, bits + 6)
      else
        var rest := Read(s[1..], now, bits - 2);
        if rest.None? then None else Some([Out(now, bits - 2)] + rest.value)
  }

  /** The eight bits above the lowest `bits`. */
  function Out(acc: int, bits: int): Byte
    requires 0 <= acc && (bits == 0 || bits == 2 || bits == 4)
  {
    (if bits == 0 then acc else if bits == 2 then acc / 4 else acc / 16) % 256
  }

  function Decode(s: string): Bytes {
    var r := Read(s, 0, 0);
    if r.Some? then r.value else []
  }

  // ----- The round trip

  /** Six more bits, the oldest dropped. */
  function Shift(acc: int, v: int): (r: int)
    requires 0 <= acc < MASK24 && 0 <= v < 64
    ensures 0 <= r < MASK24 && r % 64 == v
  {
    acc % 0x4_0000 * 64 + v
  }

  lemma MaskIsShift(acc: int, v: int)
    requires 0 <= acc < MASK24 && 0 <= v < 64
    ensures (acc * 64 + v) % MASK24 == Shift(acc, v)
  {
    var q := acc / 0x4_0000;
    assert acc * 64 + v == q * MASK24 + (acc % 0x4_0000 * 64 + v);
  }

  function Prefixed(b: Byte, r: Option<Bytes>): Option<Bytes> {
    if r.None? then None else Some([b] + r.value)
  }

  /** One character that counts. */
  lemma ReadCode(v: int, rest: string, acc: int, bits: int)
    requires 0 <= acc < MASK24 && (bits == 0 || bits == 2 || bits == 4 || bits == 6) && 0 <= v < 64
    ensures Read([Code(v)] + rest, acc, bits)
         == if bits == 0 then Read(rest, Shift(acc, v), 6)
            else Prefixed(Out(Shift(acc, v), bits - 2), Read(rest, Shift(acc, v), bits - 2))
  {
    ValueOfCode(v);
    MaskIsShift(acc, v);
    assert ([Code(v)] + rest)[1..] == rest;
  }

  /** The base-64 digits of a number of 24 bits. */
  lemma Digits(p: int, q: int, r: int, t: int)
    requires 0 <= p < 64 && 0 <= q < 64 && 0 <= r < 64 && 0 <= t < 64
    ensures var v := p * 0x4_0000 + q * 0x1000 + r * 0x40 + t;
            && 0 <= v < MASK24 && v / 0x4_0000 == p && v / 0x1000 % 64 == q && v / 0x40 % 64 == r && v % 64 == t
  {
    var v := p * 0x4_0000 + q * 0x1000 + r * 0x40 + t;
    assert v / 0x40 == p * 0x1000 + q * 0x40 + r;
    assert v / 0x1000 == p * 0x40 + q;
    assert v / 0x4_0000 == p;
  }

  /** The bits of three bytes, six at a time. */
  lemma SixAtATime(a: Byte, b: Byte, c: Byte)
    ensures var v := a as int * 0x1_0000 + b as int * 0x100 + c as int;
            && 0 <= v < MASK24
            && v / 0x4_0000 == a as int / 4
            && v / 0x1000 % 64 == a as int % 4 * 16 + b as int / 16
            && v / 0x40 % 64 == b as int % 16 * 4 + c as int / 64
            && v % 64 == c as int % 64
  {
    var a1, a0 := a as int / 4, a as int % 4;
    var b1, b0 := b as int / 16, b as int % 16;
    var c1, c0 := c as int / 64, c as int % 64;
    assert a as int == 4 * a1 + a0 && b as int == 16 * b1 + b0 && c as int == 64 * c1 + c0;
    Digits(a1, a0 * 16 + b1, b0 * 4 + c1, c0);
  }

  /** Dropping high bits leaves the low ones. */
  lemma LowBits(r: int, v: int)
    requires 0 <= v < 64 && r % 64 == v
    ensures r % 0x4_0000 % 64 == v
  {
    var q, m := r / 0x4_0000, r % 0x4_0000;
    assert r == (0x1000 * q) * 64 + m;
    assert m == m / 64 * 64 + m % 64;
  }

  lemma Above(k: int, x: int, low: int, unit: int)
    requires unit == 4 || unit == 16
    requires 0 <= low < unit
    ensures (unit * (256 * k + x) + low) / unit == 256 * k + x
    ensures 0 <= x < 256 ==> (256 * k + x) % 256 == x
  {
  }

  /** Two characters give the first byte, and leave four bits. */
  lemma OutFour(r1: int, a1: int, a0: int, b1: int)
    requires 0 <= r1 < MASK24 && r1 % 64 == a1
    requires 0 <= a1 < 64 && 0 <= a0 < 4 && 0 <= b1 < 16
    ensures Out(Shift(r1, a0 * 16 + b1), 4) as int == a1 * 4 + a0
  {
    var m := r1 % 0x4_0000;
    LowBits(r1, a1);
    var k := m / 64;
    assert m == 64 * k + a1;
    assert m * 64 + (a0 * 16 + b1) == 16 * (256 * k + (a1 * 4 + a0)) + b1;
    Above(k, a1 * 4 + a0, b1, 16);
  }

  lemma OutTwo(r2: int, a0: int, b1: int, b0: int, c1: int)
    requires 0 <= r2 < MASK24 && r2 % 64 == a0 * 16 + b1
    requires 0 <= a0 < 4 && 0 <= b1 < 16 && 0 <= b0 < 16 && 0 <= c1 < 4
    ensures Out(Shift(r2, b0 * 4 + c1), 2) as int == b1 * 16 + b0
  {
    var m := r2 % 0x4_0000;
    LowBits(r2, a0 * 16 + b1);
    var k := m / 64 * 4 + a0;
    assert m == 16 * k + b1;
    assert m * 64 + (b0 * 4 + c1) == 4 * (256 * k + (b1 * 16 + b0)) + c1;
    Above(k, b1 * 16 + b0, c1, 4);
  }

  lemma OutNone(r3: int, b0: int, c1: int, c0: int)
    requires 0 <= r3 < MASK24 && r3 % 64 == b0 * 4 + c1
    requires 0 <= b0 < 16 && 0 <= c1 < 4 && 0 <= c0 < 64
    ensures Out(Shift(r3, c0), 0) as int == c1 * 64 + c0
  {
    var m := r3 % 0x4_0000;
    LowBits(r3, b0 * 4 + c1);
    var k := m / 64 * 16 + b0;
    assert m == 4 * k + c1;
    assert m * 64 + c0 == 256 * k + (c1 * 64 + c0);
    Above(k, c1 * 64 + c0, 0, 4);
  }

  lemma Halves(x: Byte)
    ensures x as int == x as int / 4 * 4 + x as int % 4 == x as int / 16 * 16 + x as int % 16
         == x as int / 64 * 64 + x as int % 64
    ensures x as int / 4 < 64 && x as int / 16 < 16 && x as int / 64 < 4
  {
  }

  /** The bits of a quad, eight at a time: what was read before does not show. */
  lemma EightAtATime(acc: int, a: Byte, b: Byte, c: Byte)
    requires 0 <= acc < MASK24
    ensures var r1 := Shift(acc, a as int / 4);
            var r2 := Shift(r1, a as int % 4 * 16 + b as int / 16);
            var r3 := Shift(r2, b as int % 16 * 4 + c as int / 64);
            Out(r2, 4) == a && Out(r3, 2) == b && Out(Shift(r3, c as int % 64), 0) == c
  {
    Halves(a);
    Halves(b);
    Halves(c);
    var r1 := Shift(acc, a as int / 4);
    var r2 := Shift(r1, a as int % 4 * 16 + b as int / 16);
    var r3 := Shift(r2, b as int % 16 * 4 + c as int / 64);
    OutFour(r1, a as int / 4, a as int % 4, b as int / 16);
    OutTwo(r2, a as int % 4, b as int / 16, b as int % 16, c as int / 64);
    OutNone(r3, b as int % 16, c as int / 64, c as int % 64);
  }

  /** Four characters read at a byte boundary. */
  lemma ReadFour(p: int, q: int, r: int, t: int, rest: string, acc: int)
    requires 0 <= acc < MASK24
    requires 0 <= p < 64 && 0 <= q < 64 && 0 <= r < 64 && 0 <= t < 64
    ensures var r2 := Shift(Shift(acc, p), q); var r3 := Shift(r2, r); var r4 := Shift(r3, t);
            Read([Code(p), Code(q), Code(r), Code(t)] + rest, acc, 0)
              == Prefixed(Out(r2, 4), Prefixed(Out(r3, 2), Prefixed(Out(r4, 0), Read(rest, r4, 0))))
  {
    var s3 := [Code(t)] + rest;
    var s2 := [Code(r)] + s3;
    var s1 := [Code(q)] + s2;
    assert [Code(p), Code(q), Code(r), Code(t)] + rest == [Code(p)] + s1;
    ReadCode(p, s1, acc, 0);
    ReadCode(q, s2, Shift(acc, p), 6);
    ReadCode(r, s3, Shift(Shift(acc, p), q), 4);
    ReadCode(t, rest, Shift(Shift(Shift(acc, p), q), r), 2);
  }

  lemma Prefix3(b: Bytes, r: Option<Bytes>)
    requires |b| == 3
    ensures Prefixed(b[0], Prefixed(b[1], Prefixed(b[2], r))) == if r.None? then None else Some(b + r.value)
  {
    if r.Some? {
      assert b + r.value == [b[0]] + ([b[1]] + ([b[2]] + r.value));
    }
  }

  /** A whole quad read at a byte boundary gives its three bytes, whatever was read before. */
  lemma ReadQuad(b: Bytes, rest: string, acc: int) returns (after: int)
    requires |b| == 3 && 0 <= acc < MASK24
    ensures 0 <= Triple(b) < MASK24 && 0 <= after < MASK24
    ensures Read(Quad(Triple(b)) + rest, acc, 0)
         == if Read(rest, after, 0).None? then None else Some(b + Read(rest, after, 0).value)
  {
    var v := Triple(b);
    SixAtATime(b[0], b[1], b[2]);
    EightAtATime(acc, b[0], b[1], b[2]);
    var p, q, r, t := v / 0x4_0000, v / 0x1000 % 64, v / 0x40 % 64, v % 64;
    ReadFour(p, q, r, t, rest, acc);
    after := Shift(Shift(Shift(Shift(acc, p), q), r), t);
    Prefix3(b, Read(rest, after, 0));
  }

  lemma ReadPads(s: string, acc: int, bits: int)
    requires 0 <= acc < MASK24 && (bits == 2 || bits == 4) && (s == "=" || s == "==")
    ensures Read(s, acc, bits) == Some([])
  {
    assert s[1..] == "" || s[1..] == "=";
  }

  lemma ReadTwo(p: int, q: int, rest: string, acc: int)
    requires 0 <= acc < MASK24 && 0 <= p < 64 && 0 <= q < 64
    ensures var r2 := Shift(Shift(acc, p), q);
            Read([Code(p), Code(q)] + rest, acc, 0) == Prefixed(Out(r2, 4), Read(rest, r2, 4))
  {
    assert [Code(p), Code(q)] + rest == [Code(p)] + ([Code(q)] + rest);
    ReadCode(p, [Code(q)] + rest, acc, 0);
    ReadCode(q, rest, Shift(acc, p), 6);
  }

  lemma TailOne(a: Byte)
    ensures Tail([a]) == [Code(a as int / 4), Code(a as int % 4 * 16)] + "=="
  {
    SixAtATime(a, 0, 0);
  }

  lemma TailTwo(a: Byte, b: Byte)
    ensures Tail([a, b])
         == [Code(a as int / 4), Code(a as int % 4 * 16 + b as int / 16)] + ([Code(b as int % 16 * 4)] + "=")
  {
    SixAtATime(a, b, 0);
  }

  /** A tail of one byte, spelt out. */
  lemma ReadOne(a: Byte, q: int, pads: string, acc: int)
    requires 0 <= acc < MASK24 && q == a as int % 4 * 16 && pads == "=="
    ensures a as int / 4 < 64 && Read([Code(a as int / 4), Code(q)] + pads, acc, 0) == Some([a])
  {
    EightAtATime(acc, a, 0, 0);
    ReadTwo(a as int / 4, q, pads, acc);
    ReadPads(pads, Shift(Shift(acc, a as int / 4), q), 4);
    assert [a] + [] == [a];
  }

  /** A tail of two bytes, spelt out. */
  lemma ReadTwoBytes(a: Byte, b: Byte, q: int, r: int, pads: string, acc: int)
    requires 0 <= acc < MASK24 && q == a as int % 4 * 16 + b as int / 16 && r == b as int % 16 * 4 && pads == "="
    ensures a as int / 4 < 64 && q < 64
    ensures Read([Code(a as int / 4), Code(q)] + ([Code(r)] + pads), acc, 0) == Some([a, b])
  {
    var r2 := Shift(Shift(acc, a as int / 4), q);
    EightAtATime(acc, a, b, 0);
    ReadTwo(a as int / 4, q, [Code(r)] + pads, acc);
    ReadCode(r, pads, r2, 4);
    ReadPads(pads, Shift(r2, r), 2);
    assert [b] + [] == [b] && [a] + [b] == [a, b];
  }

  lemma ReadTail(b: Bytes, acc: int)
    requires 0 < |b| < 3 && 0 <= acc < MASK24
    ensures Read(Tail(b), acc, 0) == Some(b)
  {
    if |b| == 1 {
      assert b == [b[0]];
      TailOne(b[0]);
      ReadOne(b[0], b[0] as int % 4 * 16, "==", acc);
    } else {
      assert b == [b[0], b[1]];
      TailTwo(b[0], b[1]);
      ReadTwoBytes(b[0], b[1], b[0] as int % 4 * 16 + b[1] as int / 16, b[1] as int % 16 * 4, "=", acc);
    }
  }

  lemma {:induction false} ReadEncode(b: Bytes, acc: int)
    requires 0 <= acc < MASK24
    ensures Read(Encode(b), acc, 0) == Some(b)
    decreases |b|
  {
    if |b| >= 3 {
      var after := ReadQuad(b[..3], Encode(b[3..]), acc);
      ReadEncode(b[3..], after);
      assert b == b[..3] + b[3..];
    } else if b != [] {
      ReadTail(b, acc);
    }
  }

  /** Reading back what was written gives the same bytes. */
  lemma DecodeEncode(b: Bytes)
    ensures Decode(Encode(b)) == b
  {
    ReadEncode(b, 0);
  }

  /** Four characters for every three bytes begun. */
  lemma {:induction false} EncodedLength(b: Bytes)
    ensures |Encode(b)| == (|b| + 2) / 3 * 4
    decreases |b|
  {
    if |b| >= 3 {
      var n := |b| - 3;
      EncodedLength(b[3..]);
      assert (n + 3 + 2) / 3 == (n + 2) / 3 + 1;
    }
  }

  /** No two byte strings are written alike. */
  lemma EncodeInjective(a: Bytes, b: Bytes)
    requires Encode(a) == Encode(b)
    ensures a == b
  {
    DecodeEncode(a);
    DecodeEncode(b);
  }

  // ----- As the program does it

  /** The loop over whole triples, and the rest. */
  method Base64Encode(input: Bytes) returns (out: string)
    ensures out == Encode(input) && Decode(out) == input
  {
    DecodeEncode(input);
    out := "";
    var i := 0;
    assert input[0..] == input && "" + Encode(input) == Encode(input);
    while i + 2 < |input|
      invariant 0 <= i <= |input| && out + Encode(input[i..]) == Encode(input)
    {
      TakeTriple(input, i);
      var v := Triple([input[i], input[i + 1], input[i + 2]]);
      Append(out, Quad(v), Encode(input[i + 3..]));
      out := out + Quad(v);
      i := i + 3;
    }
    var rest := EncodeRest(input, i);
    out := out + rest;
  }

  /** The one or two bytes after the last triple, if any. */
  method EncodeRest(input: Bytes, i: nat) returns (out: string)
    requires i <= |input| <= i + 2
    ensures out == Encode(input[i..])
  {
    if i == |input| {
      return "";
    }
    var two := i + 1 < |input|;
    var v := input[i] as int * 0x1_0000 + (if two then input[i + 1] as int * 0x100 else 0);
    TakeRest(input, i);
    return [Code(v / 0x4_0000), Code(v / 0x1000 % 64), if two then Code(v / 0x40 % 64) else '=', '='];
  }

  lemma Append(a: string, b: string, c: string)
    ensures a + (b + c) == (a + b) + c
  {
  }

  lemma TakeRest(input: Bytes, i: nat)
    requires i < |input| <= i + 2
    ensures var v := input[i] as int * 0x1_0000 + (if i + 1 < |input| then input[i + 1] as int * 0x100 else 0);
            && 0 <= v < MASK24
            && Encode(input[i..])
               == [Code(v / 0x4_0000), Code(v / 0x1000 % 64), if i + 1 < |input| then Code(v / 0x40 % 64) else '=', '=']
  {
    assert input[i..] == if i + 1 < |input| then [input[i], input[i + 1]] else [input[i]];
  }

  lemma TakeTriple(input: Bytes, i: nat)
    requires i + 2 < |input|
    ensures var v := Triple([input[i], input[i + 1], input[i + 2]]);
            0 <= v < MASK24 && Encode(input[i..]) == Quad(v) + Encode(input[i + 3..])
  {
    var rest := input[i..];
    assert rest[..3] == [input[i], input[i + 1], input[i + 2]] && rest[3..] == input[i + 3..];
  }

  /** The loop over the characters; one that does not belong makes the result empty. */
  method Base64Decode(input: string) returns (out: Bytes)
    ensures out == Decode(input)
  {
    out := [];
    var acc, bits := 0, 0;
    assert input[0..] == input;
    assert Read(input, 0, 0).Some? ==> out + Read(input, 0, 0).value == Read(input, 0, 0).value;
    for i := 0 to |input|
      invariant 0 <= acc < MASK24 && (bits == 0 || bits == 2 || bits == 4 || bits == 6)
      invariant Read(input, 0, 0)
             == var rest := Read(input[i..], acc, bits); if rest.None? then None else Some(out + rest.value)
    {
      var c := input[i];
      ghost var before := out;
      assert input[i..][1..] == input[i + 1..];
      if c == '=' || c == '\r' || c == '\n' || c == ' ' || c == '\t' {
        continue;
      }
      var v := Value(c);
      if v < 0 {
        return [];
      }
      acc := (acc * 64 + v) % MASK24;
      bits := bits + 6;
      if bits >= 8 {
        bits := bits - 8;
        out := out + [Out(acc, bits)];
        ghost var rest := Read(input[i + 1..], acc, bits);
        assert rest.Some? ==> before + ([Out(acc, bits)] + rest.value) == out + rest.value;
      }
    }
    assert out + [] == out;
  }
}

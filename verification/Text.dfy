/** Byte-string helpers shared by the HTTP parsers: first-match search, digit
    strings and numbers. A C++ `std::string` is a `string` here; its characters
    stand for bytes. */
module Text {
  const CRLF := "\r\n"
  const NPOS := -1
  const U64_MAX: nat := 0xFFFF_FFFF_FFFF_FFFF

  predicate CrlfAt(s: string, i: int) {
    0 <= i && i + 2 <= |s| && s[i] == '\r' && s[i + 1] == '\n'
  }

  /** `s.find("\r\n", k)`: the first CRLF at or after `k`. */
  function FindCrlf(s: string, k: nat := 0): (i: int)
    ensures i == NPOS || (k <= i && CrlfAt(s, i))
    ensures forall j :: k <= j && (i == NPOS || j < i) ==> !CrlfAt(s, j)
    decreases |s| - k
  {
    if k + 2 > |s| then NPOS
    else if CrlfAt(s, k) then k
    else FindCrlf(s, k + 1)
  }

  lemma FirstCrlf(s: string, i: nat)
    requires CrlfAt(s, i) && forall j :: 0 <= j < i ==> !CrlfAt(s, j)
    ensures FindCrlf(s) == i
  {
    var f := FindCrlf(s);
    assert f != NPOS;
  }

  /** `s.find(c, k)` for one character. */
  function FindChar(s: string, c: char, k: nat := 0): (i: int)
    ensures i == NPOS || (k <= i < |s| && s[i] == c)
    ensures forall j :: k <= j < |s| && (i == NPOS || j < i) ==> s[j] != c
    decreases |s| - k
  {
    if k >= |s| then NPOS
    else if s[k] == c then k
    else FindChar(s, c, k + 1)
  }

  lemma FirstChar(s: string, c: char, i: nat, k: nat)
    requires k <= i < |s| && s[i] == c && forall j :: k <= j < i ==> s[j] != c
    ensures FindChar(s, c, k) == i
  {
    var f := FindChar(s, c, k);
    assert f != NPOS;
  }

  predicate IsDigit(c: char) { '0' <= c <= '9' }

  predicate IsHexDigit(c: char) { IsDigit(c) || 'a' <= c <= 'f' || 'A' <= c <= 'F' }

  function HexDigitValue(c: char): (v: nat)
    requires IsHexDigit(c)
    ensures v < 16
  {
    if IsDigit(c) then c as int - '0' as int
    else if 'a' <= c <= 'f' then c as int - 'a' as int + 10
    else c as int - 'A' as int + 10
  }

  /** True of a string all of whose characters are digits; the empty string included. */
  predicate OnlyDigits(s: string) { forall i :: 0 <= i < |s| ==> IsDigit(s[i]) }

  predicate AllDigits(s: string) { s != "" && OnlyDigits(s) }

  predicate OnlyHex(s: string) { forall i :: 0 <= i < |s| ==> IsHexDigit(s[i]) }

  function DecValue(s: string): nat
    requires OnlyDigits(s)
  {
    if s == "" then 0 else DecValue(s[..|s| - 1]) * 10 + (s[|s| - 1] as int - '0' as int)
  }

  function HexValue(s: string): nat
    requires OnlyHex(s)
  {
    if s == "" then 0 else HexValue(s[..|s| - 1]) * 16 + HexDigitValue(s[|s| - 1])
  }

  function Saturate(n: nat): nat { if n > U64_MAX then U64_MAX else n }

  /** `strtoull(s, nullptr, 10)` on a digit string: overflow yields the largest value. */
  function StrToU64(s: string): nat
    requires OnlyDigits(s)
  {
    Saturate(DecValue(s))
  }

  /** `std::to_string` of an unsigned number. */
  function ToDec(n: nat): (s: string)
    ensures AllDigits(s) && DecValue(s) == n
  {
    var last := [('0' as int + n % 10) as char];
    if n < 10 then
      assert last[..0] == "";
      last
    else
      var s := ToDec(n / 10) + last;
      assert s[..|s| - 1] == ToDec(n / 10);
      s
  }

  /** A lower-case hexadecimal size line, as a chunked sender writes it. */
  function ToHex(n: nat): (s: string)
    ensures s != "" && OnlyHex(s) && HexValue(s) == n
  {
    var d := n % 16;
    var last := [if d < 10 then ('0' as int + d) as char else ('a' as int + d - 10) as char];
    if n < 16 then
      assert last[..0] == "";
      last
    else
      var s := ToHex(n / 16) + last;
      assert s[..|s| - 1] == ToHex(n / 16);
      s
  }

  /** `l` hexadecimal digits are enough for every number below 16 to the `l`. */
  lemma {:induction false} ToHexShort(n: nat, l: nat)
    requires 1 <= l && n < Pow16(l)
    ensures |ToHex(n)| <= l
  {
    if n >= 16 {
      assert Pow16(l) == 16 * Pow16(l - 1);
      ToHexShort(n / 16, l - 1);
    }
  }

  function Pow16(l: nat): (p: nat)
    ensures p >= 1
  {
    if l == 0 then 1 else 16 * Pow16(l - 1)
  }

  function Flatten(parts: seq<string>): string {
    if parts == [] then "" else parts[0] + Flatten(parts[1..])
  }

  lemma {:induction false} FlattenConcat(a: seq<string>, b: seq<string>)
    ensures Flatten(a + b) == Flatten(a) + Flatten(b)
  {
    if a == [] {
      assert a + b == b;
    } else {
      assert (a + b)[1..] == a[1..] + b;
      FlattenConcat(a[1..], b);
    }
  }

  lemma FlattenOne(s: string)
    ensures Flatten([s]) == s
  {
    assert Flatten([s]) == s + Flatten([]);
  }
}

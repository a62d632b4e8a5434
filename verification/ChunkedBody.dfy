/** The chunked-body decoder of a download session: one pass of its decoding
    loop, the loop itself, and what it does to a stream cut into segments. */
module ChunkedBody {
  import opened Text

  /** `m_chunkPendingSize == UINT64_MAX`: the decoder waits for a size line. */
  const NO_SIZE: nat := U64_MAX

  /** The queue limit `m_qCap`; a limit of UINT64_MAX itself would collide with NO_SIZE. */
  type Cap = c: nat | c < NO_SIZE

  datatype BodyError = LineTooLong | EmptySize | NotHex | ChunkTooBig | NoCrlf

  /** `m_pendingBuf` and `m_chunkPendingSize`. */
  datatype Decoder = Decoder(buf: string, size: nat) {
    function Append(data: string): Decoder { this.(buf := buf + data) }
  }

  const Fresh := Decoder("", NO_SIZE)

  datatype Status = More | Done | Bad(error: BodyError)

  /** One pass: either the loop returns, or it continues, perhaps with a chunk's data. */
  datatype Pass = Stop(dec: Decoder, status: Status) | Go(dec: Decoder, out: seq<string>)

  datatype SizeLine = Size(value: nat) | BadSize(error: BodyError)

  /** The hexadecimal size of a line, its extension dropped. */
  function ParseSize(line: string, cap: Cap): (r: SizeLine)
    ensures r.Size? ==> r.value <= cap
  {
    var semi := FindChar(line, ';');
    var digits := if semi == NPOS then line else line[..semi];
    if digits == "" then BadSize(EmptySize)
    else if !OnlyHex(digits) then BadSize(NotHex)
    else
      var n := Saturate(HexValue(digits));
      if n > cap then BadSize(ChunkTooBig) else Size(n)
  }

  function Next(d: Decoder, cap: Cap): (p: Pass)
    ensures p.Go? ==> |p.dec.buf| < |d.buf|
    ensures p.Stop? && p.status.More? ==> p.dec == d
  {
    if d.size == NO_SIZE then
      var lineEnd := FindCrlf(d.buf);
      if lineEnd == NPOS then
        Stop(d, if |d.buf| > 128 then Bad(LineTooLong) else More)
      else
        match ParseSize(d.buf[..lineEnd], cap)
        case BadSize(e) => Stop(d, Bad(e))
        case Size(n) => Go(Decoder(d.buf[lineEnd + 2..], n), [])
    else if d.size == 0 then
      Stop(Decoder("", 0), Done)
    else if |d.buf| < d.size + 2 then
      Stop(d, More)
    else if !CrlfAt(d.buf, d.size) then
      Stop(d, Bad(NoCrlf))
    else
      Go(Decoder(d.buf[d.size + 2..], NO_SIZE), [d.buf[..d.size]])
  }

  datatype Progress = Progress(dec: Decoder, out: seq<string>, status: Status) {
    function After(before: seq<string>): Progress { this.(out := before + out) }
  }

  /** The decoding loop on one buffer. */
  function Decode(d: Decoder, cap: Cap): Progress
    decreases |d.buf|
  {
    match Next(d, cap)
    case Stop(d', st) => Progress(d', [], st)
    case Go(d', out) => Decode(d', cap).After(out)
  }

  /** The segments of a stream handed to the decoder one after another; it is
      not fed again once it has stopped for good. */
  function Feed(d: Decoder, segments: seq<string>, cap: Cap): Progress
    decreases |segments|
  {
    if segments == [] then Progress(d, [], More)
    else
      var r := Decode(d.Append(segments[0]), cap);
      if r.status.More? then Feed(r.dec, segments[1..], cap).After(r.out) else r
  }

  /** Equal outputs and equal verdicts; the same state too while decoding goes on. */
  predicate Same(p: Progress, q: Progress) {
    p.out == q.out && p.status == q.status && (p.status.More? ==> p.dec == q.dec)
  }

  // ----- A longer buffer does not change a pass that was decided

  lemma FindCrlfAppend(s: string, b: string)
    requires FindCrlf(s) != NPOS
    ensures FindCrlf(s + b) == FindCrlf(s)
    ensures (s + b)[..FindCrlf(s)] == s[..FindCrlf(s)]
    ensures (s + b)[FindCrlf(s) + 2..] == s[FindCrlf(s) + 2..] + b
  {
    var e := FindCrlf(s);
    assert forall j :: 0 <= j < e ==> CrlfAt(s + b, j) == CrlfAt(s, j);
    FirstCrlf(s + b, e);
  }

  lemma DataAppend(s: string, n: nat, b: string)
    requires n + 2 <= |s|
    ensures (s + b)[..n] == s[..n] && (s + b)[n + 2..] == s[n + 2..] + b
    ensures CrlfAt(s + b, n) == CrlfAt(s, n)
  {
  }

  predicate Decided(p: Pass) { p.Go? || p.status.Done? || (p.status.Bad? && !p.status.error.LineTooLong?) }

  predicate SamePass(p: Pass, q: Pass, b: string) {
    if p.Go? then q == Go(p.dec.Append(b), p.out) else q.Stop? && q.status == p.status
  }

  lemma NextAppend(d: Decoder, b: string, cap: Cap)
    ensures Decided(Next(d, cap)) ==> SamePass(Next(d, cap), Next(d.Append(b), cap), b)
  {
    if d.size == NO_SIZE && FindCrlf(d.buf) != NPOS {
      FindCrlfAppend(d.buf, b);
    } else if d.size != NO_SIZE && d.size + 2 <= |d.buf| {
      DataAppend(d.buf, d.size, b);
    }
  }

  predicate Splits(d: Decoder, b: string, cap: Cap) {
    var r, whole := Decode(d, cap), Decode(d.Append(b), cap);
    if r.status.More? then whole == Decode(r.dec.Append(b), cap).After(r.out)
    else whole.out == r.out && whole.status == r.status
  }

  lemma AfterAfter(p: Progress, a: seq<string>, b: seq<string>)
    ensures p.After(b).After(a) == p.After(a + b)
    ensures p.After([]) == p
  {
    assert a + (b + p.out) == (a + b) + p.out;
    assert [] + p.out == p.out;
  }

  lemma SplitsStep(d: Decoder, b: string, cap: Cap)
    requires Next(d, cap).Go? && Splits(Next(d, cap).dec, b, cap)
    ensures Splits(d, b, cap)
  {
    NextAppend(d, b, cap);
    var d', out := Next(d, cap).dec, Next(d, cap).out;
    var r, whole' := Decode(d', cap), Decode(d'.Append(b), cap);
    assert Decode(d, cap) == r.After(out);
    assert Decode(d.Append(b), cap) == whole'.After(out);
    AfterAfter(Decode(r.dec.Append(b), cap), out, r.out);
  }

  /** Decoding a buffer and then the rest is decoding both together, unless the
      first part alone was refused for its unfinished size line. */
  lemma {:induction false} DecodeAppend(d: Decoder, b: string, cap: Cap)
    requires Decode(d, cap).status != Bad(LineTooLong)
    ensures Splits(d, b, cap)
    decreases |d.buf|
  {
    if Next(d, cap).Go? {
      DecodeAppend(Next(d, cap).dec, b, cap);
      SplitsStep(d, b, cap);
    } else {
      NextAppend(d, b, cap);
      AfterAfter(Decode(d.Append(b), cap), [], []);
    }
  }

  lemma FeedStep(d: Decoder, segments: seq<string>, rest: string, cap: Cap)
    requires segments != [] && Splits(d.Append(segments[0]), rest, cap)
    requires var r := Decode(d.Append(segments[0]), cap);
             r.status.More? ==> Same(Feed(r.dec, segments[1..], cap), Decode(r.dec.Append(rest), cap))
    ensures Same(Feed(d, segments, cap), Decode(d.Append(segments[0]).Append(rest), cap))
  {
  }

  lemma AppendFlatten(d: Decoder, segments: seq<string>)
    requires segments != []
    ensures d.Append(Flatten(segments)) == d.Append(segments[0]).Append(Flatten(segments[1..]))
  {
    assert d.buf + (segments[0] + Flatten(segments[1..])) == d.buf + segments[0] + Flatten(segments[1..]);
  }

  lemma AppendNothing(d: Decoder, cap: Cap)
    requires Next(d, cap) == Stop(d, More)
    ensures Decode(d.Append(""), cap) == Progress(d, [], More)
  {
    assert d.Append("") == d;
  }

  /** Any fragmentation that never meets the unfinished-line limit decodes like
      the unfragmented stream. */
  lemma {:induction false} FeedIsDecode(d: Decoder, segments: seq<string>, cap: Cap)
    requires Next(d, cap) == Stop(d, More)
    requires Feed(d, segments, cap).status != Bad(LineTooLong)
    ensures Same(Feed(d, segments, cap), Decode(d.Append(Flatten(segments)), cap))
    decreases |segments|
  {
    if segments == [] {
      AppendNothing(d, cap);
    } else {
      var d', rest := d.Append(segments[0]), Flatten(segments[1..]);
      DecodeAppend(d', rest, cap);
      AppendFlatten(d, segments);
      if Decode(d', cap).status.More? {
        DecodeRests(d', cap);
        FeedIsDecode(Decode(d', cap).dec, segments[1..], cap);
      }
      FeedStep(d, segments, rest, cap);
    }
  }

  lemma {:induction false} DecodeRests(d: Decoder, cap: Cap)
    requires Decode(d, cap).status.More?
    ensures Next(Decode(d, cap).dec, cap) == Stop(Decode(d, cap).dec, More)
    decreases |d.buf|
  {
    match Next(d, cap)
    case Stop(_, _) =>
    case Go(d', _) => DecodeRests(d', cap);
  }

  // ----- Which streams decode alike under every fragmentation

  /** Every size line met is at most 127 characters, an unfinished one at most 128. */
  predicate ShortLines(d: Decoder, cap: Cap)
    decreases |d.buf|
  {
    && (d.size == NO_SIZE ==>
          var e := FindCrlf(d.buf); if e == NPOS then |d.buf| <= 128 else e <= 127)
    && (Next(d, cap).Go? ==> ShortLines(Next(d, cap).dec, cap))
  }

  lemma {:induction false} ShortLinesPrefix(d: Decoder, b: string, cap: Cap)
    requires ShortLines(d.Append(b), cap)
    ensures Decode(d, cap).status != Bad(LineTooLong)
    ensures Decode(d, cap).status.More? ==> ShortLines(Decode(d, cap).dec.Append(b), cap)
    decreases |d.buf|
  {
    NextAppend(d, b, cap);
    if Next(d, cap).Go? {
      ShortLinesPrefix(Next(d, cap).dec, b, cap);
    } else if d.size == NO_SIZE && FindCrlf(d.buf) == NPOS {
      var s := d.buf + b;
      var e := FindCrlf(s);
      assert e != NPOS && e + 2 <= |d.buf| ==> CrlfAt(d.buf, e);
    }
  }

  lemma {:induction false} ShortLinesFeed(d: Decoder, segments: seq<string>, cap: Cap)
    requires ShortLines(d.Append(Flatten(segments)), cap)
    ensures Feed(d, segments, cap).status != Bad(LineTooLong)
    decreases |segments|
  {
    if segments != [] {
      var a, rest := segments[0], Flatten(segments[1..]);
      AppendFlatten(d, segments);
      ShortLinesPrefix(d.Append(a), rest, cap);
      var r := Decode(d.Append(a), cap);
      if r.status.More? {
        ShortLinesFeed(r.dec, segments[1..], cap);
      }
    }
  }

  /** A pass that goes on needs only the bytes it consumes. */
  lemma NextPrefix(d: Decoder, n: nat, cap: Cap)
    requires Next(d, cap).Go? && |d.buf| - |Next(d, cap).dec.buf| <= n <= |d.buf|
    ensures var g := Next(d, cap); var c := |d.buf| - |g.dec.buf|;
            Next(d.(buf := d.buf[..n]), cap) == Go(g.dec.(buf := g.dec.buf[..n - c]), g.out)
  {
    var g := Next(d, cap);
    var c := |d.buf| - |g.dec.buf|;
    var s := d.buf[..n];
    if d.size == NO_SIZE {
      var e := FindCrlf(d.buf);
      assert forall j :: 0 <= j < e ==> CrlfAt(s, j) == CrlfAt(d.buf, j);
      FirstCrlf(s, e);
      assert s[..e] == d.buf[..e];
      assert s[e + 2..] == d.buf[e + 2..][..n - c];
    } else {
      assert s[..d.size] == d.buf[..d.size];
      assert s[d.size + 2..] == d.buf[d.size + 2..][..n - c];
    }
  }

  /** A long size line can be cut so that the decoder refuses the stream. */
  lemma {:induction false} LongLineCut(d: Decoder, cap: Cap) returns (cut: nat)
    requires !ShortLines(d, cap) && Decode(d, cap).status == Done
    ensures cut <= |d.buf|
    ensures Decode(d.(buf := d.buf[..cut]), cap).status == Bad(LineTooLong)
    decreases |d.buf|
  {
    var e := FindCrlf(d.buf);
    if d.size == NO_SIZE && (e == NPOS || e > 127) {
      cut := 129;
      var s := d.buf[..cut];
      assert forall j :: 0 <= j && CrlfAt(s, j) ==> CrlfAt(d.buf, j);
      assert FindCrlf(s) == NPOS;
    } else {
      var g := Next(d, cap);
      var rest := LongLineCut(g.dec, cap);
      cut := rest + (|d.buf| - |g.dec.buf|);
      NextPrefix(d, cut, cap);
    }
  }

  lemma FeedTwo(d: Decoder, a: string, b: string, cap: Cap)
    requires Decode(d.Append(a), cap).status.Bad?
    ensures Feed(d, [a, b], cap) == Decode(d.Append(a), cap)
  {
  }

  lemma FlattenTwo(a: string, b: string)
    ensures Flatten([a, b]) == a + b
  {
    FlattenOne(b);
    assert [a, b][1..] == [b];
  }

  lemma RefusingCut(d: Decoder, s: string, cap: Cap) returns (segments: seq<string>)
    requires d.buf == "" && Decode(d.(buf := s), cap).status == Done && !ShortLines(d.(buf := s), cap)
    ensures Flatten(segments) == s
    ensures Feed(d, segments, cap).status == Bad(LineTooLong)
  {
    var cut := LongLineCut(d.(buf := s), cap);
    segments := [s[..cut], s[cut..]];
    FlattenTwo(s[..cut], s[cut..]);
    assert d.buf + s[..cut] == s[..cut];
    FeedTwo(d, s[..cut], s[cut..], cap);
  }

  /** A complete stream decodes alike under every fragmentation exactly when all
      its size lines are at most 127 characters long. */
  lemma FragmentationIndependent(s: string, cap: Cap)
    requires Decode(Fresh.Append(s), cap).status == Done
    ensures (forall segments :: Flatten(segments) == s ==>
               Same(Feed(Fresh, segments, cap), Decode(Fresh.Append(s), cap)))
            <==> ShortLines(Fresh.Append(s), cap)
  {
    var d := Fresh.Append(s);
    if ShortLines(d, cap) {
      forall segments | Flatten(segments) == s
        ensures Same(Feed(Fresh, segments, cap), Decode(d, cap))
      {
        ShortLinesFeed(Fresh, segments, cap);
        FeedIsDecode(Fresh, segments, cap);
      }
    } else {
      assert d.buf == s;
      var segments := RefusingCut(Fresh, s, cap);
      assert !Same(Feed(Fresh, segments, cap), Decode(d, cap));
    }
  }

  // ----- What a terminated stream was

  datatype Chunk = Chunk(line: string, data: string)

  predicate SizeLineOf(line: string, n: nat, cap: Cap) {
    FindCrlf(line) == NPOS && ParseSize(line, cap) == Size(n)
  }

  predicate ValidChunk(c: Chunk, cap: Cap) {
    c.data != "" && SizeLineOf(c.line, |c.data|, cap)
  }

  predicate ValidChunks(cs: seq<Chunk>, cap: Cap) {
    forall i :: 0 <= i < |cs| ==> ValidChunk(cs[i], cap)
  }

  /** RFC 7230 section 4.1: chunks, a zero-size line, and whatever follows it. */
  function Encode(cs: seq<Chunk>, last: string, trailer: string): string {
    if cs == [] then last + CRLF + trailer
    else cs[0].line + CRLF + cs[0].data + CRLF + Encode(cs[1..], last, trailer)
  }

  function EncodeChunks(cs: seq<Chunk>): string {
    if cs == [] then ""
    else
      var c := cs[|cs| - 1];
      EncodeChunks(cs[..|cs| - 1]) + (c.line + CRLF + c.data + CRLF)
  }

  lemma EncodeSnoc(cs: seq<Chunk>, c: Chunk)
    ensures EncodeChunks(cs + [c]) == EncodeChunks(cs) + (c.line + CRLF + c.data + CRLF)
  {
    assert (cs + [c])[..|cs|] == cs;
  }

  lemma {:induction false} EncodeCons(c: Chunk, cs: seq<Chunk>)
    ensures EncodeChunks([c] + cs) == c.line + CRLF + c.data + CRLF + EncodeChunks(cs)
    decreases |cs|
  {
    if cs == [] {
      EncodeSnoc([], c);
      assert [] + [c] == [c] + cs;
    } else {
      var front, last := cs[..|cs| - 1], cs[|cs| - 1];
      EncodeCons(c, front);
      EncodeSnoc([c] + front, last);
      assert [c] + cs == [c] + front + [last];
    }
  }

  lemma {:induction false} EncodeSplits(cs: seq<Chunk>, last: string, trailer: string)
    ensures Encode(cs, last, trailer) == EncodeChunks(cs) + (last + CRLF + trailer)
  {
    if cs != [] {
      EncodeSplits(cs[1..], last, trailer);
      EncodeCons(cs[0], cs[1..]);
      assert [cs[0]] + cs[1..] == cs;
    }
  }

  /** The body that chunks carry. */
  function BodyOf(cs: seq<Chunk>): string {
    if cs == [] then "" else BodyOf(cs[..|cs| - 1]) + cs[|cs| - 1].data
  }

  lemma BodySnoc(cs: seq<Chunk>, c: Chunk)
    ensures BodyOf(cs + [c]) == BodyOf(cs) + c.data
  {
    assert (cs + [c])[..|cs|] == cs;
  }

  function Datas(cs: seq<Chunk>): seq<string> {
    if cs == [] then [] else [cs[0].data] + Datas(cs[1..])
  }

  lemma LineThenCrlf(line: string, rest: string)
    requires FindCrlf(line) == NPOS
    ensures FindCrlf(line + CRLF + rest) == |line|
  {
    var s := line + CRLF + rest;
    forall j | 0 <= j < |line|
      ensures !CrlfAt(s, j)
    {
      if j + 1 < |line| {
        assert s[j] == line[j] && s[j + 1] == line[j + 1];
        assert !CrlfAt(line, j);
      }
    }
    FirstCrlf(s, |line|);
  }

  lemma NextOnLine(line: string, n: nat, rest: string, cap: Cap)
    requires SizeLineOf(line, n, cap)
    ensures Next(Decoder(line + CRLF + rest, NO_SIZE), cap) == Go(Decoder(rest, n), [])
  {
    LineThenCrlf(line, rest);
    var s := line + CRLF + rest;
    assert s[..|line|] == line && s[|line| + 2..] == rest;
  }

  lemma NextOnData(data: string, rest: string, cap: Cap)
    requires 0 < |data| <= cap
    ensures Next(Decoder(data + CRLF + rest, |data|), cap) == Go(Decoder(rest, NO_SIZE), [data])
  {
    var s := data + CRLF + rest;
    assert s[..|data|] == data && s[|data| + 2..] == rest;
  }

  lemma FourParts(line: string, data: string, tail: string)
    ensures line + CRLF + (data + CRLF + tail) == line + CRLF + data + CRLF + tail
  {
  }

  lemma DecodeOneChunk(c: Chunk, rest: string, cap: Cap)
    requires ValidChunk(c, cap)
    ensures Decode(Decoder(c.line + CRLF + c.data + CRLF + rest, NO_SIZE), cap)
         == Decode(Decoder(rest, NO_SIZE), cap).After([c.data])
  {
    FourParts(c.line, c.data, rest);
    NextOnLine(c.line, |c.data|, c.data + CRLF + rest, cap);
    NextOnData(c.data, rest, cap);
    AfterAfter(Decode(Decoder(c.data + CRLF + rest, |c.data|), cap), [], []);
  }

  /** Every chunked encoding decodes to exactly its chunks' data. */
  lemma {:induction false} DecodeEncode(cs: seq<Chunk>, last: string, trailer: string, cap: Cap)
    requires ValidChunks(cs, cap) && SizeLineOf(last, 0, cap)
    ensures Decode(Fresh.Append(Encode(cs, last, trailer)), cap).status == Done
    ensures Decode(Fresh.Append(Encode(cs, last, trailer)), cap).out == Datas(cs)
    decreases |cs|
  {
    FreshAppend(Encode(cs, last, trailer));
    if cs == [] {
      NextOnLine(last, 0, trailer, cap);
    } else {
      var tail := Encode(cs[1..], last, trailer);
      DecodeOneChunk(cs[0], tail, cap);
      DecodeEncode(cs[1..], last, trailer, cap);
      FreshAppend(tail);
    }
  }

  lemma FreshAppend(s: string)
    ensures Fresh.Append(s) == Decoder(s, NO_SIZE)
  {
  }

  lemma FirstLine(s: string, cap: Cap) returns (line: string, n: nat, rest: string)
    requires Decode(Decoder(s, NO_SIZE), cap).status == Done
    ensures SizeLineOf(line, n, cap) && s == line + CRLF + rest
    ensures line == s[..FindCrlf(s)] && n <= cap
    ensures Decode(Decoder(s, NO_SIZE), cap) == Decode(Decoder(rest, n), cap)
  {
    var e := FindCrlf(s);
    line, rest := s[..e], s[e + 2..];
    assert forall j :: CrlfAt(line, j) ==> CrlfAt(s, j) && j < e;
    n := ParseSize(line, cap).value;
    assert Next(Decoder(s, NO_SIZE), cap) == Go(Decoder(rest, n), []);
    AfterAfter(Decode(Decoder(rest, n), cap), [], []);
  }

  lemma FirstData(rest: string, n: nat, cap: Cap) returns (data: string, tail: string)
    requires 0 < n <= cap && Decode(Decoder(rest, n), cap).status == Done
    ensures |data| == n && rest == data + CRLF + tail
    ensures Decode(Decoder(rest, n), cap) == Decode(Decoder(tail, NO_SIZE), cap).After([data])
  {
    data, tail := rest[..n], rest[n + 2..];
    assert Next(Decoder(rest, n), cap) == Go(Decoder(tail, NO_SIZE), [data]);
  }

  /** The first chunk of a stream that starts with a non-zero size line. */
  lemma FirstChunk(s: string, cap: Cap) returns (c: Chunk, tail: string)
    requires Decode(Decoder(s, NO_SIZE), cap).status == Done
    requires var e := FindCrlf(s); e != NPOS && ParseSize(s[..e], cap) != Size(0)
    ensures ValidChunk(c, cap) && s == c.line + CRLF + c.data + CRLF + tail
    ensures Decode(Decoder(s, NO_SIZE), cap) == Decode(Decoder(tail, NO_SIZE), cap).After([c.data])
  {
    var line, n, rest := FirstLine(s, cap);
    var data;
    data, tail := FirstData(rest, n, cap);
    c := Chunk(line, data);
    FourParts(line, data, tail);
  }

  /** A stream the decoder took to its end was a chunked encoding of exactly the
      data it handed on. */
  lemma {:induction false} DecodeSound(s: string, cap: Cap)
    returns (cs: seq<Chunk>, last: string, trailer: string)
    requires Decode(Decoder(s, NO_SIZE), cap).status == Done
    ensures ValidChunks(cs, cap) && SizeLineOf(last, 0, cap)
    ensures s == Encode(cs, last, trailer)
    ensures Decode(Decoder(s, NO_SIZE), cap).out == Datas(cs)
    decreases |s|
  {
    var e := FindCrlf(s);
    if ParseSize(s[..e], cap) == Size(0) {
      cs, last, trailer := [], s[..e], s[e + 2..];
      assert forall j :: CrlfAt(last, j) ==> CrlfAt(s, j) && j < e;
    } else {
      var c, tail := FirstChunk(s, cap);
      var more;
      more, last, trailer := DecodeSound(tail, cap);
      cs := [c] + more;
      assert cs[1..] == more;
    }
  }

  lemma {:induction false} EncodeShort(cs: seq<Chunk>, last: string, trailer: string, cap: Cap)
    requires ValidChunks(cs, cap) && SizeLineOf(last, 0, cap)
    requires |last| <= 127 && forall i :: 0 <= i < |cs| ==> |cs[i].line| <= 127
    ensures ShortLines(Decoder(Encode(cs, last, trailer), NO_SIZE), cap)
    decreases |cs|
  {
    var s := Encode(cs, last, trailer);
    if cs == [] {
      LineThenCrlf(last, trailer);
      NextOnLine(last, 0, trailer, cap);
    } else {
      var c, tail := cs[0], Encode(cs[1..], last, trailer);
      var rest := c.data + CRLF + tail;
      assert s == c.line + CRLF + rest;
      LineThenCrlf(c.line, rest);
      NextOnLine(c.line, |c.data|, rest, cap);
      NextOnData(c.data, tail, cap);
      EncodeShort(cs[1..], last, trailer, cap);
    }
  }

  // ----- The canonical encoding of a body, through any fragmentation

  function Canonical(parts: seq<string>): (cs: seq<Chunk>)
    ensures |cs| == |parts|
    ensures forall i :: 0 <= i < |cs| ==> cs[i] == Chunk(ToHex(|parts[i]|), parts[i])
  {
    if parts == [] then [] else [Chunk(ToHex(|parts[0]|), parts[0])] + Canonical(parts[1..])
  }

  lemma HexSizeLine(n: nat, cap: Cap)
    requires n <= cap
    ensures SizeLineOf(ToHex(n), n, cap) && |ToHex(n)| <= 16
  {
    assert Pow16(16) == U64_MAX + 1 by {
      assert Pow16(4) == 0x1_0000 && Pow16(8) == 0x1_0000_0000 && Pow16(12) == 0x1_0000_0000_0000;
    }
    ToHexShort(n, 16);
    var h := ToHex(n);
    assert FindChar(h, ';') == NPOS by {
      var i := FindChar(h, ';');
      assert i != NPOS ==> IsHexDigit(h[i]);
    }
    assert forall i :: 0 <= i < |h| ==> IsHexDigit(h[i]) && h[i] != '\r';
  }

  lemma {:induction false} DatasCanonical(parts: seq<string>)
    ensures Datas(Canonical(parts)) == parts
  {
    if parts != [] {
      DatasCanonical(parts[1..]);
    }
  }

  /** For every body, every split into non-empty chunks within the queue limit
      and every cut of the encoded stream into segments, the data handed on is
      the body and the decoder ends terminated. */
  lemma ChunkedTransfer(parts: seq<string>, trailer: string, segments: seq<string>, cap: Cap)
    requires forall i :: 0 <= i < |parts| ==> 0 < |parts[i]| <= cap
    requires Flatten(segments) == Encode(Canonical(parts), ToHex(0), trailer)
    ensures var r := Feed(Fresh, segments, cap);
            r.status == Done && r.out == parts && Flatten(r.out) == Flatten(parts)
  {
    var cs, s := Canonical(parts), Flatten(segments);
    forall i | 0 <= i < |cs|
      ensures ValidChunk(cs[i], cap) && |cs[i].line| <= 127
    {
      HexSizeLine(|parts[i]|, cap);
    }
    HexSizeLine(0, cap);
    DecodeEncode(cs, ToHex(0), trailer, cap);
    EncodeShort(cs, ToHex(0), trailer, cap);
    assert Fresh.Append(s) == Decoder(s, NO_SIZE);
    ShortLinesFeed(Fresh, segments, cap);
    FeedIsDecode(Fresh, segments, cap);
    DatasCanonical(parts);
  }
}

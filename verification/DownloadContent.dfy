/** What the file of a download session contains, in every interleaving. */
module DownloadContent {
  import opened Text
  import opened ChunkedBody
  import opened ResponseHead
  import opened DownloadSession
  import opened DownloadSafety

  // ----- What the loop side knows while the gate is open

  /** The content the session resumes from: the `.part` found at creation, until a restart. */
  function Before(s: State): string { if s.conn.restartUsed then "" else s.part0 }

  /** A 200 replaces what was there; every other success continues it. */
  function BaseOf(s: State): string { if s.resp.info.status == 200 then "" else Before(s) }

  predicate HeadPhase(s: State) {
    && s.resp == NoResponse
    && (s.pc.Rest? || s.pc.AtConnect? || s.pc.AtRestart?)
    && (if s.pc.AtRestart? then s.conn.restartUsed
        else s.plan == Before(s) && s.resumedFrom == |Before(s)|)
  }

  predicate WithinQuota(s: State, received: nat) {
    received > 0 || (s.resp.info.hasLength && s.resp.info.length == 0) ==> !OverQuota(s, received)
  }

  /** Framing by length or by the end of the connection. */
  predicate LengthLink(s: State) {
    var r := s.resp;
    && s.plan + r.dec.buf == s.hist.base + s.hist.raw && |s.hist.base| <= |s.plan|
    && r.received == |s.hist.raw| && WithinQuota(s, r.received)
    && (r.info.hasLength ==> r.received <= r.info.length)
    && !r.terminated && !s.pc.AtSlices?
    && (s.pc.AtResidual? || s.pc.AtGate? ==> (r.info.hasLength ==> r.received == r.info.length))
    && (s.pc.AtGate? ==> r.dec.buf == "")
    && (s.pc.Rest? ==> !BodyComplete(r))
  }

  /** Chunked framing: the bytes received are the encoding of the chunks taken,
      then a size line if one is open, then the pending buffer. */
  predicate Framed(dec: Decoder, terminated: bool, h: History, cap: Cap) {
    && ValidChunks(h.chunks, cap)
    && if terminated then
         && dec.buf == "" && SizeLineOf(h.line, 0, cap)
         && h.raw == EncodeChunks(h.chunks) + (h.line + CRLF + h.trailer)
       else if dec.size != NO_SIZE then
         && SizeLineOf(h.line, dec.size, cap)
         && h.raw == EncodeChunks(h.chunks) + (h.line + CRLF + dec.buf)
       else h.raw == EncodeChunks(h.chunks) + dec.buf
  }

  /** A chunk being handed over: what is left of it follows the plan. */
  predicate Slicing(s: State, data: string, size: nat) {
    var d := s.resp.dec;
    && d.size == size && size != NO_SIZE && 0 < size && size + 2 <= |d.buf| && CrlfAt(d.buf, size)
    && |data| <= size && s.plan + data == s.hist.base + (BodyOf(s.hist.chunks) + d.buf[..size])
  }

  predicate ChunkLink(s: State) {
    var r, h := s.resp, s.hist;
    && Framed(r.dec, r.terminated, h, s.cfg.qCap)
    && (if s.pc.AtSlices? then Slicing(s, s.pc.data, s.pc.size) else s.plan == h.base + BodyOf(h.chunks))
    && r.received == |BodyOf(h.chunks)| && WithinQuota(s, r.received)
    && (if r.terminated then s.pc.AtCheck? || s.pc.AtResidual? || s.pc.AtGate?
        else !s.pc.AtResidual? && !s.pc.AtGate?
             && (!s.pc.AtLoop? && !s.pc.AtSlices? ==> Next(r.dec, s.cfg.qCap) == Stop(r.dec, More)))
  }

  predicate Untouched(s: State) {
    && s.hist == History(s.plan, "", [], "", "")
    && s.resp.dec == Fresh && s.resp.received == 0 && !s.resp.terminated
  }

  predicate BodyPhase(s: State) {
    var i := s.resp.info;
    && 200 <= i.status < 300 && s.resumedFrom == |Before(s)|
    && !s.pc.AtConnect? && !s.pc.AtRestart? && !s.pc.AtTerminal?
    && !(i.hasLength && i.chunked) && (i.status == 206 ==> i.hasLength)
    && s.quotaBase == (if i.status == 206 then |Before(s)| else 0)
    && (if s.pc.AtTruncate? then i.status == 200 else s.hist.base == BaseOf(s))
    && (s.pc.AtTruncate? || s.pc.AtMeta? ==> Untouched(s))
    && (if i.chunked then ChunkLink(s) else LengthLink(s))
  }

  predicate ContentInv(s: State) {
    && |s.part0| <= U64_MAX
    && (!s.finished ==>
          && s.cursor == |s.plan|
          && (if s.resp.headerDone then BodyPhase(s) else HeadPhase(s)))
  }

  // ----- Each operation keeps it

  lemma FreshWaits(cap: Cap)
    ensures Next(Fresh, cap) == Stop(Fresh, More)
  {
  }

  lemma FreshLinks(s: State)
    requires Untouched(s) && !s.pc.AtSlices? && !s.pc.AtResidual? && !s.pc.AtGate? && WithinQuota(s, 0)
    requires !s.pc.Rest?
    ensures ChunkLink(s) && LengthLink(s)
  {
    FreshWaits(s.cfg.qCap);
  }

  /** A head just read, its body still to come. */
  predicate JustRead(s: State) {
    && |s.part0| <= U64_MAX && !s.finished && s.cursor == |s.plan| && s.resp.headerDone
    && s.plan == Before(s) && s.resumedFrom == |Before(s)| && Untouched(s)
    && !(s.resp.info.hasLength && s.resp.info.chunked)
    && s.quotaBase == (if s.resp.info.status == 206 then |Before(s)| else 0)
    && !DeclaredTooLarge(s)
  }

  lemma KeepSuccess(s: State, pc: Pc)
    requires JustRead(s) && 200 <= s.resp.info.status < 300
    requires pc.AtTruncate? || pc.AtMeta? || pc.AtConsume?
    requires s.resp.info.status == 206 ==> s.resp.info.hasLength
    requires if pc.AtTruncate? then s.resp.info.status == 200 else s.resp.info.status != 200 || s.resumedFrom == 0
    ensures ContentInv(s.(pc := pc))
  {
    FreshLinks(s.(pc := pc));
  }

  lemma KeepAfterHead(s: State, nextOk: bool, more: string)
    requires JustRead(s)
    ensures ContentInv(AfterHead(s, nextOk, more))
  {
    var status, t := s.resp.info.status, AfterHead(s, nextOk, more);
    if t == s.(pc := t.pc) && (t.pc.AtTruncate? || t.pc.AtMeta? || t.pc.AtConsume?) {
      KeepSuccess(s, t.pc);
    }
  }

  lemma KeepHead(s: State, i: Info, nextOk: bool, metaBytes: nat, more: string)
    requires ContentInv(s) && !s.finished && s.pc.Rest? && !s.resp.headerDone
    ensures ContentInv(ProcessHead(s, i, nextOk, metaBytes, more))
  {
    var t := s.(resp := Response(true, i, metaBytes, 0, Fresh, false),
                quotaBase := if i.status == 206 then s.resumedFrom else 0,
                hist := History(s.plan, "", [], "", ""));
    if !(i.hasLength && i.chunked) && !DeclaredTooLarge(t) {
      KeepAfterHead(t, nextOk, more);
    }
  }

  lemma KeepOpening(s: State)
    requires s.cfg.Valid() && ContentInv(s) && !s.finished
    requires s.pc.AtRestart? || s.pc.AtConnect? || s.pc.AtTruncate? || s.pc.AtMeta?
    ensures ContentInv(DoLoopStep(s))
  {
    if s.pc.AtTruncate? || s.pc.AtMeta? {
      FreshLinks(DoLoopStep(s));
    }
  }

  lemma ThreeParts(a: string, b: string, c: string)
    ensures a + (b + c) == a + b + c
  {
  }

  lemma FramedGrows(dec: Decoder, h: History, data: string, cap: Cap)
    requires Framed(dec, false, h, cap)
    ensures Framed(dec.Append(data), false, h.(raw := h.raw + data), cap)
  {
    ThreeParts(h.line + CRLF, dec.buf, data);
    ThreeParts(EncodeChunks(h.chunks), h.line + CRLF + dec.buf, data);
    ThreeParts(EncodeChunks(h.chunks), dec.buf, data);
  }

  lemma ChunkGrows(s: State, data: string)
    requires ChunkLink(s) && s.pc.AtConsume?
    ensures ChunkLink(s.(resp := s.resp.(dec := s.resp.dec.Append(data)),
                         hist := s.hist.(raw := s.hist.raw + data), pc := AtLoop))
  {
    FramedGrows(s.resp.dec, s.hist, data, s.cfg.qCap);
  }

  lemma KeepConsumeChunked(s: State, data: string)
    requires ContentInv(s) && !s.finished && s.resp.headerDone && s.pc.AtConsume?
    requires s.resp.info.chunked
    ensures ContentInv(Consume(s, data))
  {
    if data != "" {
      ChunkGrows(s, data);
    }
  }

  lemma LengthGrows(s: State, data: string)
    requires LengthLink(s) && s.pc.AtConsume? && data != ""
    requires s.resp.info.hasLength ==> s.resp.received + |data| <= s.resp.info.length
    requires !OverQuota(s, s.resp.received + |data|)
    ensures LengthLink(s.(resp := s.resp.(dec := s.resp.dec.Append(data), received := s.resp.received + |data|),
                          hist := s.hist.(raw := s.hist.raw + data), pc := AtLoop))
  {
    ThreeParts(s.plan, s.resp.dec.buf, data);
    ThreeParts(s.hist.base, s.hist.raw, data);
  }

  lemma KeepConsumeLength(s: State, data: string)
    requires ContentInv(s) && !s.finished && s.resp.headerDone && s.pc.AtConsume?
    requires !s.resp.info.chunked
    ensures ContentInv(Consume(s, data))
  {
    var t := Consume(s, data);
    if data != "" && !t.finished {
      LengthGrows(s, data);
    }
  }

  /** What one pass of the decoder removed from the pending buffer. */
  lemma PassRemoves(d: Decoder, cap: Cap)
    ensures match Next(d, cap)
            case Go(d', out) =>
              if out == [] then
                var line := Removed(d.buf, d'.buf);
                d.size == NO_SIZE && SizeLineOf(line, d'.size, cap) && d'.size <= cap
                && d.buf == line + CRLF + d'.buf
              else
                |out| == 1 && d'.size == NO_SIZE && d.size == |out[0]| && out[0] != ""
                && d.size != NO_SIZE && d.buf == out[0] + CRLF + d'.buf
            case Stop(d', Done) => d.size == 0 && d'.buf == ""
            case Stop(_, _) => true
  {
    if d.size == NO_SIZE {
      var e := FindCrlf(d.buf);
      if e != NPOS {
        assert forall j :: CrlfAt(d.buf[..e], j) ==> CrlfAt(d.buf, j) && j < e;
        assert d.buf == d.buf[..e] + CRLF + d.buf[e + 2..];
      }
    } else if d.size + 2 <= |d.buf| && CrlfAt(d.buf, d.size) {
      assert d.buf == d.buf[..d.size] + CRLF + d.buf[d.size + 2..];
    }
  }

  lemma KeepLine(s: State, d: Decoder)
    requires s.pc.AtLoop? && ChunkLink(s) && !s.resp.terminated
    requires var line := Removed(s.resp.dec.buf, d.buf);
             s.resp.dec.size == NO_SIZE && SizeLineOf(line, d.size, s.cfg.qCap) && d.size <= s.cfg.qCap
             && s.resp.dec.buf == line + CRLF + d.buf
    ensures ChunkLink(s.(resp := s.resp.(dec := d),
                         hist := s.hist.(line := Removed(s.resp.dec.buf, d.buf))))
  {
  }

  lemma ChunkMoves(raw: string, before: string, line: string, data: string, rest: string)
    requires raw == before + (line + CRLF + (data + CRLF + rest))
    ensures raw == before + (line + CRLF + data + CRLF) + rest
  {
    FourParts(line, data, rest);
    ThreeParts(before, line + CRLF + data + CRLF, rest);
  }

  lemma ValidSnoc(cs: seq<Chunk>, c: Chunk, cap: Cap)
    requires ValidChunks(cs, cap) && ValidChunk(c, cap)
    ensures ValidChunks(cs + [c], cap)
  {
  }

  lemma FramedChunk(dec: Decoder, h: History, d: Decoder, data: string, cap: Cap)
    requires Framed(dec, false, h, cap) && dec.size == |data| && dec.size != NO_SIZE && data != ""
    requires dec.buf == data + CRLF + d.buf && d.size == NO_SIZE
    ensures Framed(d, false, h.(chunks := h.chunks + [Chunk(h.line, data)]), cap)
  {
    ValidSnoc(h.chunks, Chunk(h.line, data), cap);
    EncodeSnoc(h.chunks, Chunk(h.line, data));
    ChunkMoves(h.raw, EncodeChunks(h.chunks), h.line, data, d.buf);
  }

  lemma KeepChunk(s: State, d: Decoder, data: string)
    requires s.pc.AtLoop? && ChunkLink(s) && !s.resp.terminated
    requires d.size == NO_SIZE && s.resp.dec.size == |data| && |data| != NO_SIZE && data != ""
    requires s.resp.dec.buf == data + CRLF + d.buf
    ensures ChunkLink(s.(pc := AtSlices(data, |data|)))
  {
    assert s.resp.dec.buf[..|data|] == data;
    ThreeParts(s.hist.base, BodyOf(s.hist.chunks), data);
  }

  lemma KeepChunkPass(s: State)
    requires ContentInv(s) && !s.finished && s.resp.headerDone && s.pc.AtLoop? && s.resp.info.chunked
    ensures ContentInv(ChunkPass(s))
  {
    PassRemoves(s.resp.dec, s.cfg.qCap);
    match Next(s.resp.dec, s.cfg.qCap)
    case Stop(_, _) =>
    case Go(d, out) =>
      if out == [] { KeepLine(s, d); } else { KeepChunk(s, d, out[0]); }
  }

  lemma KeepLengthPass(s: State)
    requires s.cfg.Valid() && ContentInv(s) && !s.finished && s.resp.headerDone
    requires s.pc.AtLoop? && !s.resp.info.chunked
    ensures ContentInv(LengthPass(s))
  {
    var buf, n := s.resp.dec.buf, s.cfg.chunkBytes;
    if n <= |buf| {
      assert s.plan + buf[..n] + buf[n..] == s.plan + buf;
    }
  }

  lemma KeepSlice(s: State, data: string, size: nat, n: nat)
    requires ContentInv(s) && !s.finished && s.resp.headerDone && s.pc == AtSlices(data, size)
    requires n <= |data|
    ensures ContentInv(EnqueueWrite(s, data[..n], s.(pc := AtSlices(data[n..], size))))
  {
    assert s.plan + data[..n] + data[n..] == s.plan + data;
  }

  lemma BufferSplits(buf: string, n: nat)
    requires n + 2 <= |buf| && CrlfAt(buf, n)
    ensures buf == TakeTo(buf, n) + CRLF + DropFrom(buf, n + 2) && |TakeTo(buf, n)| == n
  {
  }

  lemma ChunkEnds(s: State, size: nat)
    requires ChunkLink(s) && s.pc == AtSlices("", size) && !s.resp.terminated
    requires !OverQuota(s, s.resp.received + size)
    ensures ChunkLink(s.(resp := s.resp.(received := s.resp.received + size,
                                         dec := Decoder(DropFrom(s.resp.dec.buf, size + 2), NO_SIZE)),
                         hist := s.hist.(chunks := s.hist.chunks + [Chunk(s.hist.line, TakeTo(s.resp.dec.buf, size))]),
                         pc := AtLoop))
  {
    var d := s.resp.dec;
    var data, rest := TakeTo(d.buf, size), DropFrom(d.buf, size + 2);
    BufferSplits(d.buf, size);
    FramedChunk(d, s.hist, Decoder(rest, NO_SIZE), data, s.cfg.qCap);
    BodySnoc(s.hist.chunks, Chunk(s.hist.line, data));
    assert s.plan + "" == s.plan;
  }

  lemma KeepLastSlice(s: State, size: nat)
    requires s.cfg.Valid() && ContentInv(s) && !s.finished && s.resp.headerDone && s.pc == AtSlices("", size)
    requires s.resp.info.chunked
    ensures ContentInv(Slice(s, "", size))
  {
    if !OverQuota(s, s.resp.received + size) {
      ChunkEnds(s, size);
    }
  }

  lemma KeepResidual(s: State)
    requires ContentInv(s) && !s.finished && s.resp.headerDone && s.pc.AtResidual?
    ensures ContentInv(Residual(s).(pc := AtGate))
  {
    assert s.plan + s.resp.dec.buf + "" == s.plan + s.resp.dec.buf;
  }

  lemma KeepBodyStep(s: State)
    requires s.cfg.Valid() && ContentInv(s) && !s.finished && s.resp.headerDone
    requires s.pc.AtConsume? || s.pc.AtLoop? || s.pc.AtSlices?
    ensures ContentInv(DoLoopStep(s))
  {
    match s.pc
    case AtConsume(more) =>
      if s.resp.info.chunked { KeepConsumeChunked(s, more); } else { KeepConsumeLength(s, more); }
    case AtLoop => if s.resp.info.chunked { KeepChunkPass(s); } else { KeepLengthPass(s); }
    case AtSlices(data, size) =>
      if data == "" { KeepLastSlice(s, size); }
      else { KeepSlice(s, data, size, if |data| < s.cfg.chunkBytes then |data| else s.cfg.chunkBytes); }
  }

  lemma KeepTurn(s: State)
    requires s.cfg.Valid() && ContentInv(s) && !s.finished
    requires s.pc.Rest? || s.pc.AtCheck? || s.pc.AtGate? || s.pc.AtTerminal?
    ensures ContentInv(DoLoopStep(s))
  {
  }

  lemma KeepLoopStep(s: State)
    requires s.cfg.Valid() && ContentInv(s)
    ensures ContentInv(DoLoopStep(s))
  {
    if !s.finished {
      match s.pc
      case AtRestart => KeepOpening(s);
      case AtConnect => KeepOpening(s);
      case AtTruncate(_) => KeepOpening(s);
      case AtMeta(_) => KeepOpening(s);
      case AtConsume(_) => KeepBodyStep(s);
      case AtLoop => KeepBodyStep(s);
      case AtSlices(_, _) => KeepBodyStep(s);
      case AtResidual => KeepResidual(s);
      case _ => KeepTurn(s);
    }
  }

  lemma KeepClosed(s: State)
    requires ContentInv(s) && !s.finished && s.pc.Rest?
    ensures ContentInv(OnClosed(s))
  {
  }

  lemma KeepBody(s: State, data: string)
    requires ContentInv(s) && !s.finished && s.pc.Rest? && s.resp.headerDone
    ensures ContentInv(s.(pc := AtConsume(data)))
  {
  }

  lemma KeepHandle(s: State, e: Event)
    requires ContentInv(s)
    ensures ContentInv(Handle(s, e))
  {
    if !s.finished && s.pc.Rest? {
      match e
      case GotHead(_, Parsed(i), nextOk, metaBytes, more) =>
        if !s.resp.headerDone { KeepHead(s, i, nextOk, metaBytes, more); }
      case GotBody(_, data) => if s.resp.headerDone { KeepBody(s, data); }
      case Closed(_) => KeepClosed(s);
      case _ =>
    }
  }
}

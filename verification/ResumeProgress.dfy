/** A download from this server comes to an end, and gives up only for a reason
    outside the protocol. */
module ResumeProgress {
  import opened Text
  import opened ChunkedBody
  import opened ResponseHead
  import opened DownloadSession
  import opened DownloadSafety
  import opened DownloadContent
  import opened DownloadTheorems
  import opened RangeServer
  import opened Resume

  lemma {:induction false} DecodeChunks(cs: seq<Chunk>, rest: string, cap: Cap)
    requires ValidChunks(cs, cap)
    ensures Decode(Decoder(EncodeChunks(cs) + rest, NO_SIZE), cap)
         == Decode(Decoder(rest, NO_SIZE), cap).After(Datas(cs))
    decreases |cs|
  {
    if cs == [] {
      assert "" + rest == rest;
      AfterAfter(Decode(Decoder(rest, NO_SIZE), cap), [], []);
    } else {
      var c, tail := cs[0], EncodeChunks(cs[1..]) + rest;
      EncodeCons(c, cs[1..]);
      assert [c] + cs[1..] == cs;
      ThreeParts(c.line + CRLF + c.data + CRLF, EncodeChunks(cs[1..]), rest);
      DecodeOneChunk(c, tail, cap);
      DecodeChunks(cs[1..], rest, cap);
      AfterAfter(Decode(Decoder(rest, NO_SIZE), cap), [c.data], Datas(cs[1..]));
    }
  }

  /** What the session has taken and what it holds is what the stream received
      so far decodes to. */
  lemma FramedDecodes(dec: Decoder, h: History, cap: Cap)
    requires Framed(dec, false, h, cap)
    ensures Decode(Decoder(h.raw, NO_SIZE), cap) == Decode(dec, cap).After(Datas(h.chunks))
  {
    if dec.size == NO_SIZE {
      DecodeChunks(h.chunks, dec.buf, cap);
    } else {
      var rest := h.line + CRLF + dec.buf;
      DecodeChunks(h.chunks, rest, cap);
      NextOnLine(h.line, dec.size, dec.buf, cap);
      AfterAfter(Decode(dec, cap), [], []);
    }
  }

  lemma ReplyLength(c: System)
    requires SystemInv(c) && c.s.resp.headerDone && c.framing.ByLength?
    ensures c.s.resp.info.hasLength && !c.s.resp.info.chunked && c.s.resp.info.length == |c.link.reply.body|
  {
    RangePartial(c.link.req, c.link.file);
  }

  lemma RawStreams(c: System)
    requires SystemInv(c) && !c.s.finished && c.s.resp.headerDone && c.s.resp.info.chunked && !c.s.resp.terminated
    ensures Decode(Fresh.Append(c.s.hist.raw), c.s.cfg.qCap) ==
            Decode(c.s.resp.dec, c.s.cfg.qCap).After(Datas(c.s.hist.chunks))
  {
    FramedDecodes(c.s.resp.dec, c.s.hist, c.s.cfg.qCap);
    assert Fresh.Append(c.s.hist.raw) == Decoder(c.s.hist.raw, NO_SIZE);
  }

  lemma StreamReply(c: System)
    requires SystemInv(c) && c.s.resp.headerDone && c.s.resp.info.status == 200 && c.framing.Streamed?
    ensures c.s.resp.info.chunked && c.link.reply.body == BodyText(c.framing, c.link.file.content)
  {
  }

  /** When the whole reply has been delivered and the callback is over, the gate
      is closed: nothing is left waiting for more bytes. */
  lemma ReplyEndsSession(c: System)
    requires SystemInv(c) && FramingFits(c)
    requires c.s.pc.Rest? && c.s.resp.headerDone && c.link.sent == |c.link.reply.body|
    requires c.s.resp.info.status == 200 || c.framing.ByLength?
    ensures c.s.finished
  {
    var s, l := c.s, c.link;
    if !s.finished {
      assert s.hist.raw + "" == s.hist.raw && l.reply.body[..l.sent] == l.reply.body;
      if c.framing.ByLength? {
        ReplyLength(c);
      } else {
        StreamReply(c);
        RawStreams(c);
        StreamedWhole(l.file.content, c.framing, s.cfg.qCap);
      }
      assert false;
    }
  }

  // ----- Why a transfer from this server can fail

  /** Limits set by the caller, a full queue, a lost connection, a timeout; and
      a streamed partial reply, which carries no length. */
  predicate Excusable(framing: Framing, w: Why) {
    w.DeclaredQuota? || w.Quota? || w.Backlog? || w.Lost? || w.GaveUp? || (w.NoRangeOrLength? && framing.Streamed?)
  }

  predicate ExcusableAction(framing: Framing, a: Action) { a.Abort? ==> Excusable(framing, a.why) }

  predicate ExcusablePc(framing: Framing, pc: Pc) { pc.AtTerminal? ==> ExcusableAction(framing, pc.action) }

  /** What the session is told by a reply of this server. */
  predicate ServerHead(s: State, i: Info, framing: Framing) {
    && !(i.hasLength && i.chunked)
    && (i.status == 200 || i.status == 206 || (i.status == 416 && !s.conn.restartUsed))
    && (i.status == 206 ==> i.hasRange && i.rangeFirst == s.resumedFrom && (framing.ByLength? ==> i.hasLength))
  }

  lemma ServerHeads(c: System)
    requires SystemInv(c) && !c.s.finished && c.s.pc.Rest? && !c.s.resp.headerDone && Current(c)
    ensures ServerHead(c.s, LinkInfo(c), c.framing)
  {
    FromMeaning(|Before(c.s)|, c.s.conn.reqMeta, c.link.file);
  }

  lemma HeadExcusable(s: State, i: Info, framing: Framing, nextOk: bool, metaBytes: nat, more: string)
    requires ServerHead(s, i, framing) && s.pc.Rest? && !s.finished
    ensures ExcusablePc(framing, ProcessHead(s, i, nextOk, metaBytes, more).pc)
  {
  }

  lemma BodyFits(c: System)
    requires SystemInv(c) && !c.s.finished && c.s.resp.headerDone
    ensures |c.s.hist.raw| + |Unconsumed(c.s.pc)| <= |c.link.reply.body|
  {
    assert |c.s.hist.raw + Unconsumed(c.s.pc)| == c.link.sent;
  }

  lemma ConsumeExcusable(c: System, more: string)
    requires SystemInv(c) && !c.s.finished && c.s.resp.headerDone && c.s.pc == AtConsume(more)
    ensures ExcusablePc(c.framing, Consume(c.s, more).pc)
  {
    BodyFits(c);
    if c.framing.ByLength? { ReplyLength(c); }
  }

  lemma BadPrefix(d: Decoder, raw: string, whole: string, cap: Cap)
    requires raw <= whole && Decode(d.Append(whole), cap).status == Done && ShortLines(d.Append(whole), cap)
    ensures !Decode(d.Append(raw), cap).status.Bad?
  {
    var rest := whole[|raw|..];
    AppendTwice(d, raw, rest);
    assert raw + rest == whole;
    ShortLinesPrefix(d.Append(raw), rest, cap);
    DecodeAppend(d.Append(raw), rest, cap);
  }

  lemma StreamShort(f: string, framing: Framing, cap: Cap)
    requires framing.Valid() && framing.Streamed? && framing.chunkSize <= cap
    ensures ShortLines(Fresh.Append(BodyText(framing, f)), cap)
  {
    var parts := Cut(f, framing.chunkSize);
    var cs := Canonical(parts);
    forall i | 0 <= i < |cs|
      ensures ValidChunk(cs[i], cap) && |cs[i].line| <= 127
    {
      HexSizeLine(|parts[i]|, cap);
    }
    HexSizeLine(0, cap);
    EncodeShort(cs, ToHex(0), CRLF, cap);
    assert Fresh.Append(BodyText(framing, f)) == Decoder(BodyText(framing, f), NO_SIZE);
  }

  lemma NoBadPass(d: Decoder, before: seq<string>, raw: string, whole: string, cap: Cap)
    requires raw <= whole && Decode(Fresh.Append(raw), cap) == Decode(d, cap).After(before)
    requires Decode(Fresh.Append(whole), cap).status == Done && ShortLines(Fresh.Append(whole), cap)
    ensures Next(d, cap).Stop? ==> !Next(d, cap).status.Bad?
  {
    BadPrefix(Fresh, raw, whole, cap);
  }

  lemma ChunkExcusable(c: System)
    requires SystemInv(c) && FramingFits(c) && !c.s.finished && c.s.resp.headerDone
    requires c.s.pc.AtLoop? && c.s.resp.info.chunked
    ensures ExcusablePc(c.framing, ChunkPass(c.s).pc)
  {
    var s, cap, f := c.s, c.s.cfg.qCap, c.link.file.content;
    RawStreams(c);
    ChunkedIsFull(c);
    StreamedWhole(f, c.framing, cap);
    StreamShort(f, c.framing, cap);
    NoBadPass(s.resp.dec, Datas(s.hist.chunks), s.hist.raw, BodyText(c.framing, f), cap);
    PassVerdict(s, c.framing);
  }

  lemma ChunkedIsFull(c: System)
    requires SystemInv(c) && !c.s.finished && c.s.resp.headerDone && c.s.resp.info.chunked
    ensures c.framing.Streamed? && c.link.reply.body == BodyText(c.framing, c.link.file.content)
  {
    ReplyStatus(c);
  }

  lemma PassVerdict(s: State, framing: Framing)
    requires !s.finished && s.pc.AtLoop?
    requires Next(s.resp.dec, s.cfg.qCap).Stop? ==> !Next(s.resp.dec, s.cfg.qCap).status.Bad?
    ensures ExcusablePc(framing, ChunkPass(s).pc)
  {
  }

  lemma SliceExcusable(s: State, data: string, size: nat, framing: Framing)
    requires s.cfg.Valid() && s.pc == AtSlices(data, size) && !s.finished
    ensures ExcusablePc(framing, Slice(s, data, size).pc)
  {
  }

  lemma LengthExcusable(s: State, framing: Framing)
    requires s.cfg.Valid() && s.pc.AtLoop? && !s.finished
    ensures ExcusablePc(framing, LengthPass(s).pc)
  {
  }

  lemma OtherExcusable(s: State, framing: Framing)
    requires s.cfg.Valid() && !s.finished && !s.pc.AtTerminal?
    requires !s.pc.AtConsume? && !s.pc.AtLoop? && !s.pc.AtSlices?
    ensures ExcusablePc(framing, DoLoopStep(s).pc)
  {
  }

  lemma LoopExcusable(c: System)
    requires SystemInv(c) && FramingFits(c) && !c.s.finished
    ensures ExcusablePc(c.framing, DoLoopStep(c.s).pc)
  {
    match c.s.pc
    case AtConsume(more) => ConsumeExcusable(c, more);
    case AtLoop => if c.s.resp.info.chunked { ChunkExcusable(c); } else { LengthExcusable(c.s, c.framing); }
    case AtSlices(data, size) => SliceExcusable(c.s, data, size, c.framing);
    case _ => OtherExcusable(c.s, c.framing);
  }

  predicate FailureInv(c: System) {
    && ExcusablePc(c.framing, c.s.pc)
    && (forall a :: a in Pending(c.s) ==> ExcusableAction(c.framing, a))
  }

  lemma FailureLoop(c: System, t: State)
    requires FailureInv(c) && LoopFrame(c.s, t) && ExcusablePc(c.framing, t.pc)
    ensures FailureInv(c.(s := t))
  {
    if Queued(c.s, t) {
      PendingGrows(c.s, t, t.q[|c.s.q|]);
    } else {
      assert Pending(t) == Pending(c.s);
    }
  }

  lemma FailureTerminal(c: System)
    requires c.s.cfg.Valid() && FailureInv(c) && c.s.pc.AtTerminal?
    ensures FailureInv(c.(s := DoLoopStep(c.s)))
  {
    var t := DoLoopStep(c.s);
    if Admits(c.s, c.s.pc.action, true) {
      PendingGrows(c.s, t, c.s.pc.action);
    } else {
      assert Pending(t) == Pending(c.s);
    }
  }

  lemma FailureWriter(c: System, res: DiskResult)
    requires FailureInv(c)
    ensures FailureInv(c.(s := Take(c.s))) && FailureInv(c.(s := Did(c.s, res)))
  {
    PendingTake(c.s);
    assert c.s.writer.Busy? ==> Pending(c.s) == [c.s.writer.action] + c.s.q && Pending(Did(c.s, res)) == c.s.q;
  }

  lemma FailureLoopStep(c: System)
    requires SystemInv(c) && FramingFits(c) && FailureInv(c)
    ensures FailureInv(c.(s := DoLoopStep(c.s)))
  {
    if c.s.pc.AtTerminal? {
      FailureTerminal(c);
    } else {
      if !c.s.finished { LoopExcusable(c); }
      FailureLoop(c, DoLoopStep(c.s));
    }
  }

  lemma FailureHandle(c: System, e: Event)
    requires c.s.cfg.Valid() && FailureInv(c) && !e.GotHead? && !e.GotBody?
    ensures FailureInv(c.(s := Handle(c.s, e)))
  {
    if c.s.pc.Rest? && !c.s.finished { FailureLoop(c, Handle(c.s, e)); }
  }

  lemma FailureLocal(c: System, e: Event)
    requires SystemInv(c) && FramingFits(c) && FailureInv(c) && !e.GotHead? && !e.GotBody?
    ensures FailureInv(c.(s := Step(c.s, e)))
  {
    match e
    case LoopStep => FailureLoopStep(c);
    case WriterTake => FailureWriter(c, Good);
    case WriterDid(res) => FailureWriter(c, res);
    case Shutdown => assert Pending(Step(c.s, e)) == Pending(c.s);
    case _ => FailureHandle(c, e);
  }

  lemma FailureHead(c: System, k: nat, nextOk: bool, metaBytes: nat)
    requires SystemInv(c) && FramingFits(c) && FailureInv(c)
    ensures FailureInv(DoHead(c, k, nextOk, metaBytes))
  {
    var s, l := c.s, c.link;
    if DoHead(c, k, nextOk, metaBytes) != c && !s.resp.headerDone {
      ReplyRead(l.req, l.file, c.framing);
      ServerHeads(c);
      HeadExcusable(s, LinkInfo(c), c.framing, nextOk, metaBytes, l.reply.body[..k]);
      FailureLoop(c, ProcessHead(s, LinkInfo(c), nextOk, metaBytes, l.reply.body[..k]));
    }
  }

  lemma FailureBody(c: System, k: nat)
    requires SystemInv(c) && FailureInv(c)
    ensures FailureInv(DoBody(c, k))
  {
    if CanDeliver(c, k) {
      BodyReady(c);
      BodyMove(c, k);
      assert Pending(DoBody(c, k).s) == Pending(c.s);
    }
  }

  lemma FailureMove(c: System, m: Move)
    requires SystemInv(c) && FramingFits(c) && FailureInv(c)
    ensures FailureInv(Do(c, m))
  {
    match m
    case Connect(_) =>
    case DeliverHead(k, nextOk, metaBytes) => FailureHead(c, k, nextOk, metaBytes);
    case DeliverBody(k) => FailureBody(c, k);
    case Hangup => FailureLocal(c, Closed(c.s.conn.epoch));
    case Local(e) => if IsLocal(e) { FailureLocal(c, e); }
  }

  lemma {:induction false} FailureRun(c: System, ms: seq<Move>)
    requires SystemInv(c) && FramingFits(c) && FailureInv(c)
    ensures FailureInv(DoAll(c, ms))
    decreases |ms|
  {
    if ms != [] {
      SystemStep(c, ms[0]);
      FailureMove(c, ms[0]);
      FailureRun(Do(c, ms[0]), ms[1..]);
    }
  }

  /** Against this server the client never refuses a head, a chunk, a length or a
      second restart: every abort it decides on has an outside cause. */
  lemma NoSpuriousFailure(cfg: Config, disk: Disk, framing: Framing, ms: seq<Move>, w: Why)
    requires cfg.Valid() && |PartText(disk)| <= U64_MAX && framing.Valid()
    requires framing.Streamed? ==> framing.chunkSize <= cfg.qCap
    requires var s := DoAll(Begin(cfg, disk, framing), ms).s; s.pc == AtTerminal(Abort(w)) || Abort(w) in Pending(s)
    ensures Excusable(framing, w)
  {
    CreateInv(cfg, disk);
    FailureRun(Begin(cfg, disk, framing), ms);
  }
}

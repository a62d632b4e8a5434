/** Where nothing outside the protocol goes wrong, a download from this server succeeds. */
module ResumeCompletes {
  import opened Basics
  import opened Text
  import opened ChunkedBody
  import opened ResponseHead
  import opened DownloadSession
  import opened DownloadSafety
  import opened DownloadContent
  import opened DownloadTheorems
  import opened RangeServer
  import opened Resume
  import opened ResumeProgress

  // ----- Runs in which nothing outside goes wrong

  /** What the server makes of this request can be taken: the whole file is within the limit,
      so is the text of an error reply, and no partial reply is streamed. */
  predicate Servable(framing: Framing, limit: nat, req: Request, f: File) {
    var r := Effective(req, f);
    && |f.content| <= U64_MAX && (framing.Streamed? ==> !r.partial)
    && (limit > 0 ==> |f.content| <= limit && (r.unsatisfiable ==> |ERROR_416| <= limit))
  }

  /** The slice the loop is about to queue. */
  function Slices(s: State): string {
    match s.pc
    case AtLoop =>
      if !s.resp.info.chunked && s.cfg.chunkBytes <= |s.resp.dec.buf| then s.resp.dec.buf[..s.cfg.chunkBytes] else ""
    case AtSlices(data, _) => TakeTo(data, s.cfg.chunkBytes)
    case _ => ""
  }

  /** A write is about to meet a full queue. */
  predicate WriteRefused(s: State) {
    !s.finished && Slices(s) != "" && !Admits(s, Write(Slices(s)), false)
  }

  /** The disk works, nobody stops the session or cuts its connection, and no write meets a
      full queue. */
  predicate Calm(c: System, m: Move) {
    match m
    case Connect(f) =>
      CanConnect(c, f) ==> Servable(c.framing, c.s.cfg.maxBytes, RequestFor(c.s.resumedFrom, c.s.conn.reqMeta), f)
    case DeliverHead(_, _, _) => true
    case DeliverBody(_) => true
    case Hangup => false
    case Local(e) =>
      e.Start? || (e.LoopStep? && !WriteRefused(c.s)) || e.WriterTake? || e == WriterDid(Good)
  }

  predicate AllCalm(c: System, ms: seq<Move>)
    requires c.s.cfg.Valid() && c.framing.Valid()
    decreases |ms|
  {
    ms == [] || (Calm(c, ms[0]) && AllCalm(Do(c, ms[0]), ms[1..]))
  }

  /** No abort is on its way, and none was delivered. */
  predicate NoAbort(s: State) {
    && !s.writerStop
    && (s.pc.AtTerminal? ==> !s.pc.action.Abort?)
    && (forall a :: a in Pending(s) ==> !a.Abort?)
    && (forall d :: d in s.delivered ==> d.Success?)
  }

  predicate LinkServable(c: System) {
    c.link.epoch > 0 ==> Servable(c.framing, c.s.cfg.maxBytes, c.link.req, c.link.file)
  }

  predicate CalmInv(c: System) {
    SystemInv(c) && FramingFits(c) && NoAbort(c.s) && LinkServable(c)
  }

  lemma AbortFree(s: State, t: State)
    requires NoAbort(s) && LoopFrame(s, t) && (t.pc.AtTerminal? ==> !t.pc.action.Abort?)
    ensures NoAbort(t)
  {
    if Queued(s, t) {
      PendingGrows(s, t, t.q[|s.q|]);
    } else {
      assert Pending(t) == Pending(s);
    }
  }

  // ----- The loop thread

  /** A reply whose body is read is a full one if it is streamed, and within the limit with
      what it continues. */
  lemma BodyWithin(c: System)
    requires CalmInv(c) && !c.s.finished && c.s.resp.headerDone
    ensures c.s.resp.info.chunked ==> c.framing.Streamed? && c.s.resp.info.status == 200 && c.s.quotaBase == 0
    ensures !c.s.resp.info.chunked ==> c.framing.ByLength?
    ensures c.framing.ByLength? ==> c.s.quotaBase + |c.link.reply.body| <= |c.link.file.content|
  {
    ReplyStatus(c);
    RangePartial(c.link.req, c.link.file);
    if c.framing.ByLength? {
      ReplyLength(c);
    }
  }

  lemma CalmConsume(c: System, more: string)
    requires CalmInv(c) && !c.s.finished && c.s.resp.headerDone && c.s.pc == AtConsume(more)
    ensures !Consume(c.s, more).pc.AtTerminal?
  {
    ConsumeExcusable(c, more);
    BodyWithin(c);
    if !c.s.resp.info.chunked {
      LengthWithin(c, more);
    }
  }

  lemma LengthWithin(c: System, more: string)
    requires SystemInv(c) && !c.s.finished && c.s.resp.headerDone && c.s.pc == AtConsume(more)
    requires !c.s.resp.info.chunked
    ensures c.s.resp.received + |more| <= |c.link.reply.body|
  {
    BodyFits(c);
  }

  lemma FlattenAfter(r: Progress, before: seq<string>)
    ensures Flatten(r.After(before).out) == Flatten(before) + Flatten(r.out)
  {
    FlattenConcat(before, r.out);
  }

  /** Decoding more of a stream only adds to what was handed on. */
  lemma PrefixOut(raw: string, whole: string, cap: Cap)
    requires raw <= whole && Decode(Fresh.Append(whole), cap).status == Done && ShortLines(Fresh.Append(whole), cap)
    ensures |Flatten(Decode(Fresh.Append(raw), cap).out)| <= |Flatten(Decode(Fresh.Append(whole), cap).out)|
  {
    var rest, d := whole[|raw|..], Fresh.Append(raw);
    BadPrefix(Fresh, raw, whole, cap);
    AppendTwice(Fresh, raw, rest);
    assert raw + rest == whole;
    DecodeAppend(d, rest, cap);
    var r := Decode(d, cap);
    if r.status.More? {
      FlattenAfter(Decode(r.dec.Append(rest), cap), r.out);
    }
  }

  lemma ChunkReady(d: Decoder, size: nat, cap: Cap)
    requires d.size == size && size != NO_SIZE && 0 < size && size + 2 <= |d.buf| && CrlfAt(d.buf, size)
    ensures |Flatten(Decode(d, cap).out)| >= size
  {
    var data, later := d.buf[..size], Decoder(d.buf[size + 2..], NO_SIZE);
    assert Next(d, cap) == Go(later, [data]);
    FlattenAfter(Decode(later, cap), [data]);
    FlattenOne(data);
  }

  /** The chunk being handed over is still part of the file. */
  lemma ChunkWithin(c: System, size: nat)
    requires CalmInv(c) && !c.s.finished && c.s.resp.headerDone && c.s.pc == AtSlices("", size)
    ensures c.s.resp.received + size <= |c.link.file.content|
  {
    var s, cap, f := c.s, c.s.cfg.qCap, c.link.file.content;
    ChunkedOnly(c);
    ChunkedIsFull(c);
    RawStreams(c);
    StreamedWhole(f, c.framing, cap);
    StreamShort(f, c.framing, cap);
    RawWithin(c);
    PrefixOut(s.hist.raw, c.link.reply.body, cap);
    ChunkReady(s.resp.dec, size, cap);
    FlattenAfter(Decode(s.resp.dec, cap), Datas(s.hist.chunks));
    DatasBody(s.hist.chunks);
  }

  lemma ChunkedOnly(c: System)
    requires SystemInv(c) && !c.s.finished && c.s.resp.headerDone && c.s.pc.AtSlices?
    ensures c.s.resp.info.chunked && !c.s.resp.terminated && Slicing(c.s, c.s.pc.data, c.s.pc.size)
    ensures c.s.resp.received == |BodyOf(c.s.hist.chunks)|
  {
  }

  lemma RawWithin(c: System)
    requires SystemInv(c) && c.s.resp.headerDone
    ensures c.s.hist.raw <= c.link.reply.body
  {
  }

  lemma CalmSlice(c: System, data: string, size: nat)
    requires CalmInv(c) && !c.s.finished && c.s.resp.headerDone && c.s.pc == AtSlices(data, size)
    requires !WriteRefused(c.s)
    ensures !Slice(c.s, data, size).pc.AtTerminal?
  {
    if data == "" {
      ChunkedOnly(c);
      BodyWithin(c);
      ChunkWithin(c, size);
      SliceEnds(c.s, size, c.link.file.content);
    } else {
      SliceDecides(c.s, data, size);
    }
  }

  lemma SliceEnds(s: State, size: nat, content: string)
    requires s.cfg.Valid() && s.pc == AtSlices("", size) && s.quotaBase == 0
    requires s.resp.received + size <= |content| && (s.cfg.maxBytes > 0 ==> |content| <= s.cfg.maxBytes)
    ensures !Slice(s, "", size).pc.AtTerminal?
  {
  }

  lemma SliceDecides(s: State, data: string, size: nat)
    requires s.cfg.Valid() && !s.finished && s.pc == AtSlices(data, size) && data != "" && !WriteRefused(s)
    ensures !Slice(s, data, size).pc.AtTerminal?
  {
  }

  lemma CalmPass(c: System)
    requires CalmInv(c) && !c.s.finished && c.s.resp.headerDone && c.s.pc.AtLoop? && !WriteRefused(c.s)
    ensures !DoLoopStep(c.s).pc.AtTerminal?
  {
    if c.s.resp.info.chunked {
      ChunkExcusable(c);
      PassDecides(c.s);
    } else {
      LengthDecides(c.s);
    }
  }

  lemma PassDecides(s: State)
    requires !s.finished && s.pc.AtLoop?
    ensures ChunkPass(s).pc.AtTerminal? ==> ChunkPass(s).pc.action.Abort? && ChunkPass(s).pc.action.why.BadChunk?
  {
  }

  lemma LengthDecides(s: State)
    requires s.cfg.Valid() && !s.finished && s.pc.AtLoop? && !s.resp.info.chunked && !WriteRefused(s)
    ensures !LengthPass(s).pc.AtTerminal?
  {
  }

  lemma OtherDecides(s: State)
    requires s.cfg.Valid() && !s.pc.AtTerminal? && !s.pc.AtConsume? && !s.pc.AtLoop? && !s.pc.AtSlices?
    ensures DoLoopStep(s).pc.AtTerminal? ==> !DoLoopStep(s).pc.action.Abort?
  {
  }

  lemma ReadingBody(s: State)
    requires ContentInv(s) && !s.finished && (s.pc.AtConsume? || s.pc.AtLoop? || s.pc.AtSlices?)
    ensures s.resp.headerDone
  {
  }

  lemma CalmUnfinished(c: System)
    requires CalmInv(c) && !c.s.finished && !c.s.pc.AtTerminal? && !WriteRefused(c.s)
    ensures DoLoopStep(c.s).pc.AtTerminal? ==> !DoLoopStep(c.s).pc.action.Abort?
  {
    match c.s.pc
    case AtConsume(more) => ReadingBody(c.s); CalmConsume(c, more);
    case AtLoop => ReadingBody(c.s); CalmPass(c);
    case AtSlices(data, size) => ReadingBody(c.s); CalmSlice(c, data, size);
    case _ => OtherDecides(c.s);
  }

  lemma CalmTerminal(s: State)
    requires s.cfg.Valid() && NoAbort(s) && s.pc.AtTerminal?
    ensures NoAbort(DoLoopStep(s))
  {
    var t := DoLoopStep(s);
    if Admits(s, s.pc.action, true) {
      PendingGrows(s, t, s.pc.action);
    } else {
      assert Pending(t) == Pending(s);
    }
  }

  lemma CalmFinished(s: State)
    requires s.cfg.Valid() && NoAbort(s) && s.finished && !s.pc.AtTerminal?
    ensures NoAbort(DoLoopStep(s))
  {
    AbortFree(s, DoLoopStep(s));
  }

  lemma UnfinishedFrame(s: State)
    requires s.cfg.Valid() && GateInv(s) && !s.finished
    ensures LoopFrame(s, DoLoopStep(s)) && !s.pc.AtTerminal?
  {
  }

  lemma CalmLoopState(c: System)
    requires CalmInv(c) && !WriteRefused(c.s)
    ensures NoAbort(DoLoopStep(c.s))
  {
    if c.s.pc.AtTerminal? {
      CalmTerminal(c.s);
    } else if c.s.finished {
      CalmFinished(c.s);
    } else {
      UnfinishedFrame(c.s);
      CalmUnfinished(c);
      AbortFree(c.s, DoLoopStep(c.s));
    }
  }

  lemma CalmTo(c: System, t: State)
    requires CalmInv(c) && SystemInv(c.(s := t)) && NoAbort(t) && t.cfg == c.s.cfg
    ensures CalmInv(c.(s := t))
  {
  }

  lemma LoopMove(c: System)
    requires c.s.cfg.Valid() && c.framing.Valid()
    ensures Do(c, Local(LoopStep)) == c.(s := DoLoopStep(c.s))
  {
  }

  lemma CalmLoop(c: System)
    requires CalmInv(c) && !WriteRefused(c.s)
    ensures CalmInv(Do(c, Local(LoopStep)))
  {
    LoopMove(c);
    SystemStep(c, Local(LoopStep));
    CalmLoopState(c);
    CalmTo(c, DoLoopStep(c.s));
  }

  // ----- The writer, the head and the body

  lemma CalmTake(s: State)
    requires NoAbort(s)
    ensures NoAbort(Take(s))
  {
    PendingTake(s);
  }

  lemma CalmDid(s: State)
    requires NoAbort(s)
    ensures NoAbort(Did(s, Good))
  {
    if s.writer.Busy? {
      assert s.writer.action in Pending(s);
      assert Pending(Did(s, Good)) == s.q;
      assert forall a :: a in s.q ==> a in Pending(s);
    }
  }

  /** What the head says is within the limit, and its body if there is one can be read. */
  predicate HeadTaken(s: State, i: Info) {
    && !(s.cfg.maxBytes > 0 && i.hasLength
         && ((if i.status == 206 then s.resumedFrom else 0) + i.length) % (U64_MAX + 1) > s.cfg.maxBytes)
    && (i.status == 206 ==> i.hasLength)
  }

  lemma CalmHeadState(s: State, i: Info, framing: Framing, nextOk: bool, metaBytes: nat, more: string)
    requires ServerHead(s, i, framing) && HeadTaken(s, i) && s.pc.Rest? && !s.finished && !s.resp.headerDone
    ensures var t := ProcessHead(s, i, nextOk, metaBytes, more);
            !t.pc.AtTerminal?
            && !t.finished && (if i.status == 416 then t.conn.restartUsed && t.pc.AtRestart? && !t.resp.headerDone
                               else t.resp.headerDone && t.conn == s.conn)
  {
  }

  lemma TakenIf(s: State, req: Request, f: File, framing: Framing)
    requires Servable(framing, s.cfg.maxBytes, req, f)
    requires var r := Effective(req, f); r.partial ==> !r.unsatisfiable && s.resumedFrom + r.length == |f.content|
    ensures HeadTaken(s, ReplyInfo(req, f, framing))
  {
    var r := Effective(req, f);
    SmallSum(|f.content|);
    SmallSum(|ERROR_416|);
    if r.unsatisfiable {
      assert ReplyInfo(req, f, framing).length == |ERROR_416|;
    } else if r.partial {
      assert s.resumedFrom + r.length == |f.content|;
    }
  }

  lemma SmallSum(n: nat)
    requires n <= U64_MAX
    ensures n % (U64_MAX + 1) == n
  {
  }

  lemma ServableTaken(c: System)
    requires CalmInv(c) && !c.s.finished && c.s.pc.Rest? && !c.s.resp.headerDone && Current(c)
    ensures HeadTaken(c.s, LinkInfo(c))
  {
    FromMeaning(|Before(c.s)|, c.s.conn.reqMeta, c.link.file);
    RangePartial(c.link.req, c.link.file);
    TakenIf(c.s, c.link.req, c.link.file, c.framing);
  }

  lemma CalmHead(c: System, k: nat, nextOk: bool, metaBytes: nat)
    requires CalmInv(c)
    ensures CalmInv(DoHead(c, k, nextOk, metaBytes))
  {
    var s, l := c.s, c.link;
    SystemStep(c, DeliverHead(k, nextOk, metaBytes));
    if DoHead(c, k, nextOk, metaBytes) != c && !s.resp.headerDone {
      ReplyRead(l.req, l.file, c.framing);
      ServerHeads(c);
      ServableTaken(c);
      CalmHeadState(s, LinkInfo(c), c.framing, nextOk, metaBytes, l.reply.body[..k]);
      AbortFree(s, ProcessHead(s, LinkInfo(c), nextOk, metaBytes, l.reply.body[..k]));
    }
  }

  lemma CalmBody(c: System, k: nat)
    requires CalmInv(c)
    ensures CalmInv(DoBody(c, k))
  {
    SystemStep(c, DeliverBody(k));
    if CanDeliver(c, k) {
      BodyReady(c);
      BodyMove(c, k);
      assert Pending(DoBody(c, k).s) == Pending(c.s);
    }
  }

  lemma CalmStart(c: System)
    requires CalmInv(c)
    ensures CalmInv(Do(c, Local(Start)))
  {
    SystemStep(c, Local(Start));
    assert Pending(Do(c, Local(Start)).s) == Pending(c.s);
  }

  lemma CalmWriter(c: System, e: Event)
    requires CalmInv(c) && (e.WriterTake? || e == WriterDid(Good))
    ensures CalmInv(Do(c, Local(e)))
  {
    SystemStep(c, Local(e));
    CalmTake(c.s);
    CalmDid(c.s);
    CalmTo(c, if e.WriterTake? then Take(c.s) else Did(c.s, Good));
  }

  lemma CalmConnect(c: System, f: File)
    requires CalmInv(c) && Calm(c, Connect(f))
    ensures CalmInv(Do(c, Connect(f)))
  {
    SystemStep(c, Connect(f));
  }

  lemma CalmMove(c: System, m: Move)
    requires CalmInv(c) && Calm(c, m)
    ensures CalmInv(Do(c, m))
  {
    match m
    case Connect(f) => CalmConnect(c, f);
    case DeliverHead(k, nextOk, metaBytes) => CalmHead(c, k, nextOk, metaBytes);
    case DeliverBody(k) => CalmBody(c, k);
    case Local(e) =>
      if e.Start? {
        CalmStart(c);
      } else if e.LoopStep? {
        CalmLoop(c);
      } else {
        CalmWriter(c, e);
      }
  }

  lemma {:induction false} CalmRun(c: System, ms: seq<Move>)
    requires CalmInv(c) && AllCalm(c, ms)
    ensures CalmInv(DoAll(c, ms))
    decreases |ms|
  {
    if ms != [] {
      CalmMove(c, ms[0]);
      CalmRun(Do(c, ms[0]), ms[1..]);
    }
  }

  /** A stream's chunks are within the limit of the client's queue. */
  predicate ChunksFit(framing: Framing, cap: Cap) { framing.Streamed? ==> 0 < framing.chunkSize <= cap }

  lemma CalmBegin(cfg: Config, disk: Disk, framing: Framing)
    requires cfg.Valid() && |PartText(disk)| <= U64_MAX && ChunksFit(framing, cfg.qCap)
    ensures CalmInv(Begin(cfg, disk, framing))
  {
    CreateInv(cfg, disk);
    assert Pending(Create(cfg, disk)) == [];
  }

  // ----- Every complete delivery succeeds

  /** The whole reply has come in and both threads have nothing left to do. */
  predicate Settled(c: System) {
    && c.s.pc.Rest? && c.s.resp.headerDone && c.link.sent == |c.link.reply.body|
    && !c.s.writer.Busy? && (c.s.q == [] || c.s.writer.Ended?)
  }

  /** In a run where nothing outside goes wrong no failure is ever reported; and once the
      whole reply has come in and both threads are done, the file is there, complete. */
  lemma CompleteDeliverySucceeds(cfg: Config, disk: Disk, framing: Framing, ms: seq<Move>)
    requires cfg.Valid() && |PartText(disk)| <= U64_MAX && ChunksFit(framing, cfg.qCap)
    requires AllCalm(Begin(cfg, disk, framing), ms)
    ensures var c := DoAll(Begin(cfg, disk, framing), ms);
            && (forall d :: d in c.s.delivered ==> d.Success?)
            && (Settled(c) && NamesVersion(c.s.part0, c.meta0, c.link.file) ==>
                  c.s.delivered == [Success(|c.link.file.content|)] && c.s.disk.dest == Some(c.link.file.content))
  {
    var c := DoAll(Begin(cfg, disk, framing), ms);
    CalmBegin(cfg, disk, framing);
    CalmRun(Begin(cfg, disk, framing), ms);
    if Settled(c) && NamesVersion(c.s.part0, c.meta0, c.link.file) {
      SettledSucceeds(c);
    }
  }

  lemma SettledSucceeds(c: System)
    requires CalmInv(c) && Reached(c) && Settled(c) && NamesVersion(c.s.part0, c.meta0, c.link.file)
    ensures c.s.delivered == [Success(|c.link.file.content|)] && c.s.disk.dest == Some(c.link.file.content)
  {
    WholeReplyEnds(c);
    DeliveredOnce(c);
    ResumeWithValidator(c, c.s.delivered[0].written);
  }

  lemma WholeReplyEnds(c: System)
    requires CalmInv(c) && c.s.pc.Rest? && c.s.resp.headerDone && c.link.sent == |c.link.reply.body|
    ensures c.s.finished
  {
    if !c.s.finished {
      ReplyStatus(c);
      BodyWithin(c);
      ReplyEndsSession(c);
    }
  }

  lemma DeliveredOnce(c: System)
    requires CalmInv(c) && Settled(c) && c.s.finished
    ensures |c.s.delivered| == 1 && c.s.delivered[0].Success? && Success(c.s.delivered[0].written) in c.s.delivered
  {
    assert c.s.writer.Ended? || Pending(c.s) == [];
    assert |c.s.delivered| == 1 ==> c.s.delivered[0] in c.s.delivered;
  }
}

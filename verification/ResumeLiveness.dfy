/** From wherever an undisturbed download of one file has got to, it can be completed. */
module ResumeLiveness {
  import opened Basics
  import opened Text
  import opened ChunkedBody
  import opened ResponseHead
  import opened DownloadSession
  import opened DownloadSafety
  import opened DownloadContent
  import opened DownloadTheorems
  import opened RangeServer
  import opened Resume
  import opened ResumeProgress
  import opened ResumeCompletes

  // ----- The server has one file throughout

  function FirstRange(c: System, f: File): RangeInfo { Effective(RequestFor(|c.s.part0|, c.meta0), f) }

  predicate ErrorTaken(limit: nat) { limit > 0 ==> |ERROR_416| <= limit }

  /** Connections were made to this file only, and a restart was forced by it. */
  predicate Fixed(c: System, f: File) {
    && (c.link.epoch > 0 ==> c.link.file == f)
    && (c.s.conn.restartUsed ==> FirstRange(c, f).unsatisfiable && ErrorTaken(c.s.cfg.maxBytes))
  }

  predicate OneFile(m: Move, f: File) { m.Connect? ==> m.file == f }

  /** Only the server's refusal of a range makes for a restart. */
  lemma RestartWhy(s: State, i: Info, framing: Framing, nextOk: bool, metaBytes: nat, more: string)
    requires ServerHead(s, i, framing) && s.pc.Rest? && !s.finished
    requires i.status == 416 ==> i.hasLength && i.length == |ERROR_416|
    ensures ProcessHead(s, i, nextOk, metaBytes, more).conn.restartUsed
            ==> s.conn.restartUsed || (i.status == 416 && ErrorTaken(s.cfg.maxBytes))
  {
    SmallSum(|ERROR_416|);
  }

  lemma HeadStatus(c: System)
    requires SystemInv(c) && !c.s.finished && c.s.pc.Rest? && !c.s.resp.headerDone && Current(c)
    ensures LinkInfo(c).status == 416 ==> LinkInfo(c).hasLength && LinkInfo(c).length == |ERROR_416|
    ensures LinkInfo(c).status == 416 ==> FirstRange(c, c.link.file).unsatisfiable
  {
    ServerHeads(c);
  }

  lemma FixedHead(c: System, k: nat, nextOk: bool, metaBytes: nat, f: File)
    requires SystemInv(c) && Fixed(c, f)
    ensures Fixed(DoHead(c, k, nextOk, metaBytes), f)
  {
    var s, l := c.s, c.link;
    if DoHead(c, k, nextOk, metaBytes) != c && !s.resp.headerDone {
      ReplyRead(l.req, l.file, c.framing);
      ServerHeads(c);
      HeadStatus(c);
      RestartWhy(s, LinkInfo(c), c.framing, nextOk, metaBytes, l.reply.body[..k]);
    }
  }

  lemma FixedBody(c: System, k: nat, f: File)
    requires SystemInv(c) && Fixed(c, f)
    ensures Fixed(DoBody(c, k), f)
  {
    if CanDeliver(c, k) {
      BodyReady(c);
      BodyMove(c, k);
    }
  }

  lemma SameConnection(s: State, e: Event)
    requires s.cfg.Valid() && !e.GotHead? && !e.LoopStep?
    ensures Step(s, e).conn.restartUsed == s.conn.restartUsed
  {
  }

  lemma FixedEvent(c: System, e: Event, f: File)
    requires SystemInv(c) && Fixed(c, f) && !e.GotHead?
    ensures Fixed(c.(s := Step(c.s, e)), f)
  {
    if e.LoopStep? {
      StepLinks(c.s);
    } else {
      SameConnection(c.s, e);
    }
  }

  lemma FixedMove(c: System, m: Move, f: File)
    requires SystemInv(c) && Fixed(c, f) && OneFile(m, f)
    ensures Fixed(Do(c, m), f)
  {
    match m
    case Connect(g) =>
    case DeliverHead(k, nextOk, metaBytes) => FixedHead(c, k, nextOk, metaBytes, f);
    case DeliverBody(k) => FixedBody(c, k, f);
    case Hangup => FixedEvent(c, Closed(c.s.conn.epoch), f);
    case Local(e) => if IsLocal(e) { FixedEvent(c, e, f); }
  }

  // ----- What the file must be like

  /** The length of the body that is taken in the end. */
  function SentLength(c: System, f: File): nat {
    if FirstRange(c, f).partial && |c.s.part0| <= |f.content| then |f.content| - |c.s.part0| else |f.content|
  }

  /** The replies for this file can be taken; and a slice fits into the queue, or a body
      with a length is shorter than one. */
  predicate Possible(c: System, f: File) {
    && Servable(c.framing, c.s.cfg.maxBytes, RequestFor(|c.s.part0|, c.meta0), f)
    && (c.framing.ByLength? ==> c.s.cfg.chunkBytes <= c.s.cfg.qCap || SentLength(c, f) < c.s.cfg.chunkBytes)
  }

  /** An undisturbed run against one file. */
  predicate Undisturbed(c: System, ms: seq<Move>, f: File)
    requires c.s.cfg.Valid() && c.framing.Valid()
    decreases |ms|
  {
    ms == [] || (Calm(c, ms[0]) && OneFile(ms[0], f) && Undisturbed(Do(c, ms[0]), ms[1..], f))
  }

  ghost predicate OnTheWay(c: System, f: File) {
    CalmInv(c) && Fixed(c, f) && Possible(c, f)
  }

  lemma WayMove(c: System, m: Move, f: File)
    requires OnTheWay(c, f) && Calm(c, m) && OneFile(m, f)
    ensures OnTheWay(Do(c, m), f)
  {
    CalmMove(c, m);
    FixedMove(c, m, f);
  }

  lemma {:induction false} WayRun(c: System, ms: seq<Move>, f: File)
    requires OnTheWay(c, f) && Undisturbed(c, ms, f)
    ensures OnTheWay(DoAll(c, ms), f)
    decreases |ms|
  {
    if ms != [] {
      WayMove(c, ms[0], f);
      WayRun(Do(c, ms[0]), ms[1..], f);
    }
  }

  lemma {:induction false} UndisturbedAppend(c: System, a: seq<Move>, b: seq<Move>, f: File)
    requires c.s.cfg.Valid() && c.framing.Valid()
    requires Undisturbed(c, a, f) && Undisturbed(DoAll(c, a), b, f)
    ensures Undisturbed(c, a + b, f) && DoAll(c, a + b) == DoAll(DoAll(c, a), b)
    decreases |a|
  {
    if a == [] {
      assert a + b == b;
    } else {
      assert (a + b)[0] == a[0] && (a + b)[1..] == a[1..] + b;
      UndisturbedAppend(Do(c, a[0]), a[1..], b, f);
    }
  }

  // ----- How far it is

  /** The moves of the world still needed, at most. */
  function Distance(c: System): nat {
    var s, l := c.s, c.link;
    if s.finished then 0
    else
      (if s.conn.restartUsed then 0 else 5)
      + (if s.resp.headerDone then (if l.sent < |l.reply.body| then 2 else 1)
         else if s.pc.AtRestart? || s.pc.AtConnect? then 4
         else if s.conn.epoch == 0 then 5
         else if l.epoch < s.conn.epoch then 4
         else 3)
  }

  predicate Unconnected(pc: Pc) { !pc.AtRestart? && !pc.AtConnect? }

  lemma ConsumeUnconnected(s: State, more: string)
    requires s.pc == AtConsume(more)
    ensures Unconnected(Consume(s, more).pc)
  {
  }

  lemma LoopUnconnected(s: State)
    requires s.cfg.Valid() && s.pc.AtLoop?
    ensures Unconnected(ChunkPass(s).pc) && Unconnected(LengthPass(s).pc)
  {
  }

  lemma SliceUnconnected(s: State, data: string, size: nat)
    requires s.cfg.Valid() && s.pc == AtSlices(data, size)
    ensures Unconnected(Slice(s, data, size).pc)
  {
  }

  lemma ConnectOnlyAfterRestart(s: State)
    requires s.cfg.Valid()
    ensures !s.pc.Rest? ==> !DoLoopStep(s).pc.AtRestart? && (DoLoopStep(s).pc.AtConnect? ==> s.pc.AtRestart?)
  {
    match s.pc
    case AtConsume(more) => ConsumeUnconnected(s, more);
    case AtLoop => LoopUnconnected(s);
    case AtSlices(data, size) => SliceUnconnected(s, data, size);
    case _ =>
  }

  lemma LoopNoFarther(c: System)
    requires SystemInv(c)
    ensures Distance(c.(s := DoLoopStep(c.s))) <= Distance(c)
  {
    StepLinks(c.s);
    ConnectOnlyAfterRestart(c.s);
  }

  // ----- A full queue empties

  lemma SlicesShort(c: System, f: File)
    requires OnTheWay(c, f) && !c.s.finished && Slices(c.s) != ""
    ensures |Slices(c.s)| <= c.s.cfg.qCap
  {
    if c.s.pc.AtSlices? {
      ChunkedOnly2(c);
      ChunkFits(c.s);
    } else {
      ReadingBody(c.s);
      SliceOfBody(c, f);
    }
  }

  lemma ChunkedOnly2(c: System)
    requires SystemInv(c) && !c.s.finished && c.s.pc.AtSlices?
    ensures c.s.resp.info.chunked && !c.s.resp.terminated && Slicing(c.s, c.s.pc.data, c.s.pc.size)
    ensures Framed(c.s.resp.dec, false, c.s.hist, c.s.cfg.qCap)
  {
  }

  lemma ChunkFits(s: State)
    requires s.pc.AtSlices? && Slicing(s, s.pc.data, s.pc.size) && Framed(s.resp.dec, false, s.hist, s.cfg.qCap)
    ensures |Slices(s)| <= s.cfg.qCap
  {
  }

  lemma SentBody(c: System, f: File)
    requires SystemInv(c) && Fixed(c, f) && c.framing.ByLength? && c.s.resp.headerDone
    requires c.s.resp.info.status == 200 || c.s.resp.info.status == 206
    ensures |c.link.reply.body| == SentLength(c, f)
  {
    ReplyStatus(c);
    RepliedWith(c);
    ServedLength(c.link.req, c.link.file);
    RestartedWhole(c, f);
  }

  lemma ServedLength(req: Request, f: File)
    ensures var r := Effective(req, f);
            !r.unsatisfiable ==> |Serve(req, f, ByLength).body| == if r.partial then r.length else |f.content|
  {
    RangePartial(req, f);
  }

  lemma RepliedWith(c: System)
    requires SystemInv(c) && c.s.resp.headerDone
    ensures c.link.reply == Serve(c.link.req, c.link.file, c.framing) && RequestMatches(c) && c.link.epoch > 0
    ensures c.s.conn.reqMeta == (if c.s.conn.restartUsed then NoMeta else c.meta0)
  {
  }

  /** After a restart the whole file is sent, and the first range was no partial one. */
  lemma RestartedWhole(c: System, f: File)
    requires Fixed(c, f)
    ensures c.s.conn.restartUsed ==> !FirstRange(c, f).partial
  {
    RangePartial(RequestFor(|c.s.part0|, c.meta0), f);
  }

  lemma SliceOfBody(c: System, f: File)
    requires OnTheWay(c, f) && !c.s.finished && c.s.resp.headerDone && c.s.pc.AtLoop? && Slices(c.s) != ""
    ensures |Slices(c.s)| <= c.s.cfg.qCap
  {
    BodyWithin(c);
    ReplyStatus(c);
    SuccessStatus(c.s);
    SentBody(c, f);
    BufferWithin(c);
  }

  lemma SuccessStatus(s: State)
    requires ContentInv(s) && !s.finished && s.resp.headerDone
    ensures 200 <= s.resp.info.status < 300
  {
  }

  lemma BufferWithin(c: System)
    requires SystemInv(c) && !c.s.finished && c.s.resp.headerDone && c.s.pc.AtLoop? && !c.s.resp.info.chunked
    ensures |c.s.resp.dec.buf| <= |c.link.reply.body|
  {
    BodyFits(c);
    LengthOnly(c.s);
  }

  lemma LengthOnly(s: State)
    requires ContentInv(s) && !s.finished && s.resp.headerDone && s.pc.AtLoop? && !s.resp.info.chunked
    ensures |s.resp.dec.buf| <= |s.hist.raw|
  {
    assert |s.plan + s.resp.dec.buf| == |s.hist.base + s.hist.raw|;
  }

  function WriterLeft(s: State): nat { 2 * |s.q| + (if s.writer.Busy? then 1 else 0) }

  /** The loop stands where it stood. */
  predicate SameStand(s: State, t: State) {
    t.pc == s.pc && t.resp == s.resp && t.conn == s.conn && (s.finished ==> t.finished)
  }

  lemma StandKept(c: System, t: State)
    requires SameStand(c.s, t)
    ensures Left(t) == Left(c.s) && Distance(c.(s := t)) <= Distance(c)
  {
  }

  lemma TakeWorks(s: State)
    requires s.writer.Idle? && !s.writerStop && s.q != []
    ensures SameStand(s, Take(s)) && WriterLeft(Take(s)) < WriterLeft(s)
  {
  }

  lemma DidWorks(s: State)
    requires s.writer.Busy?
    ensures SameStand(s, Did(s, Good)) && WriterLeft(Did(s, Good)) < WriterLeft(s)
  {
  }

  lemma RefusedByOthers(s: State)
    requires WriteRefused(s) && |Slices(s)| <= s.cfg.qCap && !s.writerStop && GateInv(s)
    ensures s.q != [] && !s.writer.Ended?
  {
    assert QBytes([]) == 0;
  }

  /** When a write would be refused the writer has something to do. */
  lemma WriterHasWork(c: System, f: File) returns (m: Move)
    requires OnTheWay(c, f) && WriteRefused(c.s)
    ensures m == Local(WriterTake) || m == Local(WriterDid(Good))
    ensures var d := Do(c, m); Left(d.s) == Left(c.s) && Distance(d) <= Distance(c) && WriterLeft(d.s) < WriterLeft(c.s)
  {
    SlicesShort(c, f);
    RefusedByOthers(c.s);
    m := WriterWorks(c);
  }

  lemma WriterWorks(c: System) returns (m: Move)
    requires c.s.cfg.Valid() && c.framing.Valid() && c.s.q != [] && !c.s.writer.Ended? && !c.s.writerStop
    ensures m == Local(WriterTake) || m == Local(WriterDid(Good))
    ensures var d := Do(c, m); Left(d.s) == Left(c.s) && Distance(d) <= Distance(c) && WriterLeft(d.s) < WriterLeft(c.s)
  {
    if c.s.writer.Busy? {
      m := Local(WriterDid(Good));
      DidWorks(c.s);
      StandKept(c, Did(c.s, Good));
    } else {
      m := Local(WriterTake);
      TakeWorks(c.s);
      StandKept(c, Take(c.s));
    }
  }

  /** The loop comes to rest, no farther from the end. */
  lemma {:induction false} Rests(c: System, f: File) returns (ms: seq<Move>)
    requires OnTheWay(c, f)
    ensures Undisturbed(c, ms, f)
    ensures DoAll(c, ms).s.pc.Rest? && Distance(DoAll(c, ms)) <= Distance(c)
    decreases Left(c.s), WriterLeft(c.s)
  {
    if c.s.pc.Rest? {
      ms := [];
    } else {
      var m;
      if WriteRefused(c.s) {
        m := WriterHasWork(c, f);
      } else {
        m := Local(LoopStep);
        LoopMove(c);
        LoopProgress(c.s);
        LoopNoFarther(c);
      }
      WayMove(c, m, f);
      var more := Rests(Do(c, m), f);
      ms := [m] + more;
    }
  }

  lemma NearerStart(c: System)
    requires SystemInv(c) && !c.s.finished && c.s.pc.Rest? && c.s.conn.epoch == 0
    ensures Distance(Do(c, Local(Start))) < Distance(c)
  {
  }

  lemma NearerConnect(c: System, f: File)
    requires SystemInv(c) && !c.s.finished && c.s.pc.Rest? && c.link.epoch < c.s.conn.epoch && |f.content| <= U64_MAX
    ensures Distance(Do(c, Connect(f))) < Distance(c)
  {
  }

  /** What is asked after a restart is the whole file. */
  lemma RequestServable(c: System, f: File)
    requires OnTheWay(c, f) && !c.s.finished && c.s.pc.Rest? && c.link.epoch < c.s.conn.epoch
    ensures Calm(c, Connect(f))
  {
    FromMeaning(0, NoMeta, f);
  }

  lemma NearerHead(c: System, metaBytes: nat)
    requires CalmInv(c) && !c.s.finished && c.s.pc.Rest? && Current(c) && !c.s.resp.headerDone
    ensures Distance(DoHead(c, 0, false, metaBytes)) < Distance(c)
  {
    ReplyRead(c.link.req, c.link.file, c.framing);
    ServerHeads(c);
    ServableTaken(c);
    CalmHeadState(c.s, LinkInfo(c), c.framing, false, metaBytes, c.link.reply.body[..0]);
  }

  lemma NearerBody(c: System)
    requires SystemInv(c) && !c.s.finished && c.s.pc.Rest? && c.s.resp.headerDone && c.link.sent < |c.link.reply.body|
    ensures Distance(DoBody(c, |c.link.reply.body| - c.link.sent)) < Distance(c)
  {
    var k := |c.link.reply.body| - c.link.sent;
    BodyReady(c);
    BodyMove(c, k);
  }

  lemma RestOfBody(c: System) returns (m: Move)
    requires CalmInv(c) && !c.s.finished && c.s.pc.Rest? && c.s.resp.headerDone
    ensures Calm(c, m) && !m.Connect? && Distance(Do(c, m)) < Distance(c)
  {
    m := DeliverBody(|c.link.reply.body| - c.link.sent);
    if c.link.sent == |c.link.reply.body| { WholeReplyEnds(c); }
    NearerBody(c);
  }

  /** At rest and not finished, the world has a move that brings the end nearer. */
  lemma Nearer(c: System, f: File, metaBytes: nat) returns (m: Move)
    requires OnTheWay(c, f) && !c.s.finished && c.s.pc.Rest?
    ensures Calm(c, m) && OneFile(m, f) && Distance(Do(c, m)) < Distance(c)
  {
    if c.s.resp.headerDone {
      m := RestOfBody(c);
    } else if c.s.conn.epoch == 0 {
      m := Local(Start);
      NearerStart(c);
    } else if c.link.epoch < c.s.conn.epoch {
      m := Connect(f);
      RequestServable(c, f);
      NearerConnect(c, f);
    } else {
      m := DeliverHead(0, false, metaBytes);
      NearerHead(c, metaBytes);
    }
  }

  lemma {:induction false} Finishes(c: System, f: File, metaBytes: nat) returns (ms: seq<Move>)
    requires OnTheWay(c, f)
    ensures Undisturbed(c, ms, f)
    ensures DoAll(c, ms).s.finished && DoAll(c, ms).s.pc.Rest?
    decreases Distance(c)
  {
    ms := Rests(c, f);
    var d := DoAll(c, ms);
    WayRun(c, ms, f);
    if !d.s.finished {
      var m := Nearer(d, f, metaBytes);
      WayMove(d, m, f);
      var more := Finishes(Do(d, m), f, metaBytes);
      assert ([m] + more)[1..] == more;
      UndisturbedAppend(c, ms, [m] + more, f);
      ms := ms + ([m] + more);
    }
  }

  // ----- The writer's part

  function Locals(es: seq<Event>): (ms: seq<Move>)
    ensures |ms| == |es| && forall i :: 0 <= i < |es| ==> ms[i] == Local(es[i])
  {
    seq(|es|, i requires 0 <= i < |es| => Local(es[i]))
  }

  lemma {:induction false} LocalsRun(c: System, es: seq<Event>)
    requires c.s.cfg.Valid() && c.framing.Valid() && forall i :: 0 <= i < |es| ==> IsLocal(es[i])
    ensures DoAll(c, Locals(es)) == c.(s := Run(c.s, es))
    decreases |es|
  {
    if es != [] {
      assert Locals(es)[1..] == Locals(es[1..]);
      LocalsRun(c.(s := Step(c.s, es[0])), es[1..]);
    }
  }

  function Goods(n: nat): (rs: seq<DiskResult>)
    ensures |rs| == n && forall i :: 0 <= i < n ==> rs[i] == Good
  {
    seq(n, _ => Good)
  }

  lemma {:induction false} RoundsGood(rs: seq<DiskResult>)
    requires forall i :: 0 <= i < |rs| ==> rs[i] == Good
    ensures forall i :: 0 <= i < |WriterRounds(rs)| ==>
              WriterRounds(rs)[i] == WriterTake || WriterRounds(rs)[i] == WriterDid(Good)
    decreases |rs|
  {
    if rs != [] {
      RoundsGood(rs[1..]);
    }
  }

  predicate WriterOnly(es: seq<Event>) { forall i :: 0 <= i < |es| ==> es[i] == WriterTake || es[i] == WriterDid(Good) }

  lemma {:induction false} WriterUndisturbed(c: System, es: seq<Event>, f: File)
    requires c.s.cfg.Valid() && c.framing.Valid() && WriterOnly(es)
    ensures Undisturbed(c, Locals(es), f)
    decreases |es|
  {
    if es != [] {
      assert Locals(es)[1..] == Locals(es[1..]);
      WriterUndisturbed(Do(c, Local(es[0])), es[1..], f);
    }
  }

  lemma Writes(c: System, f: File) returns (ms: seq<Move>)
    requires OnTheWay(c, f) && c.s.finished && c.s.pc.Rest?
    ensures Undisturbed(c, ms, f) && |DoAll(c, ms).s.delivered| == 1
  {
    var rs := Goods(|Pending(c.s)| + 1);
    RoundsGood(rs);
    ms := Locals(WriterRounds(rs));
    WriterUndisturbed(c, WriterRounds(rs), f);
    LocalsRun(c, WriterRounds(rs));
    WriterDelivers(c.s, rs);
  }

  // ----- Main results

  lemma Completes(c: System, f: File, metaBytes: nat) returns (ms: seq<Move>)
    requires OnTheWay(c, f)
    ensures Undisturbed(c, ms, f) && OnTheWay(DoAll(c, ms), f)
    ensures |DoAll(c, ms).s.delivered| == 1
  {
    var a := Finishes(c, f, metaBytes);
    WayRun(c, a, f);
    var b := Writes(DoAll(c, a), f);
    UndisturbedAppend(c, a, b, f);
    ms := a + b;
    WayRun(c, ms, f);
  }

  /** What a completed download amounts to: by which reply it came, and what it left. */
  predicate Completed(c: System, f: File) {
    var r := FirstRange(c, f);
    && c.link.file == f && |c.s.delivered| == 1 && c.s.delivered[0].Success?
    && (c.s.conn.restartUsed <==> r.unsatisfiable)
    && c.s.resp.info.status == (if r.partial then 206 else 200)
    && (NamesVersion(c.s.part0, c.meta0, f) ==>
          c.s.delivered == [Success(|f.content|)] && c.s.disk.dest == Some(f.content))
  }

  lemma DeliveredIsSuccess(c: System)
    requires CalmInv(c) && |c.s.delivered| == 1
    ensures c.s.delivered[0].Success? && Success(c.s.delivered[0].written) in c.s.delivered
  {
    assert c.s.delivered[0] in c.s.delivered;
  }

  lemma StatusTold(c: System, f: File, n: nat)
    requires SystemInv(c) && Fixed(c, f) && Success(n) in c.s.delivered
    ensures c.link.file == f && (c.s.conn.restartUsed <==> FirstRange(c, f).unsatisfiable)
    ensures c.s.resp.info.status == (if FirstRange(c, f).partial then 206 else 200)
  {
    SuccessDelivered(c.s, n);
    ReplyStatus(c);
    RangePartial(RequestFor(|c.s.part0|, c.meta0), f);
  }

  lemma WayBegins(cfg: Config, disk: Disk, framing: Framing, f: File)
    requires cfg.Valid() && |PartText(disk)| <= U64_MAX && ChunksFit(framing, cfg.qCap)
    requires Possible(Begin(cfg, disk, framing), f)
    ensures OnTheWay(Begin(cfg, disk, framing), f)
  {
    CalmBegin(cfg, disk, framing);
  }

  /** From wherever an undisturbed run against one file has got to, it can be completed
      without disturbance, if the file is one that can be taken: by appending to the `.part`
      if the server's reply is partial, after a restart if the range is unsatisfiable, from
      the start otherwise; and then the destination is the file, if the `.part` is of the
      version its validator names. */
  lemma DownloadCompletes(cfg: Config, disk: Disk, framing: Framing, f: File, metaBytes: nat, before: seq<Move>)
    returns (more: seq<Move>)
    requires cfg.Valid() && |PartText(disk)| <= U64_MAX && ChunksFit(framing, cfg.qCap)
    requires Possible(Begin(cfg, disk, framing), f) && Undisturbed(Begin(cfg, disk, framing), before, f)
    ensures Undisturbed(Begin(cfg, disk, framing), before + more, f)
    ensures Completed(DoAll(Begin(cfg, disk, framing), before + more), f)
  {
    WayBegins(cfg, disk, framing, f);
    more := CompletesFrom(Begin(cfg, disk, framing), f, metaBytes, before);
    ReachedBy(cfg, disk, framing, before + more);
    CompletedNow(DoAll(Begin(cfg, disk, framing), before + more), f);
  }

  lemma CompletesFrom(b: System, f: File, metaBytes: nat, before: seq<Move>) returns (more: seq<Move>)
    requires OnTheWay(b, f) && Undisturbed(b, before, f)
    ensures Undisturbed(b, before + more, f)
    ensures OnTheWay(DoAll(b, before + more), f) && |DoAll(b, before + more).s.delivered| == 1
  {
    WayRun(b, before, f);
    more := Completes(DoAll(b, before), f, metaBytes);
    UndisturbedAppend(b, before, more, f);
  }

  lemma ReachedBy(cfg: Config, disk: Disk, framing: Framing, ms: seq<Move>)
    requires cfg.Valid() && |PartText(disk)| <= U64_MAX && framing.Valid()
    ensures Reached(DoAll(Begin(cfg, disk, framing), ms))
  {
  }

  lemma FileNow(d: System, n: nat)
    requires Reached(d) && FramingFits(d) && Success(n) in d.s.delivered && |d.s.delivered| == 1
    requires NamesVersion(d.s.part0, d.meta0, d.link.file)
    ensures d.s.delivered == [Success(|d.link.file.content|)] && d.s.disk.dest == Some(d.link.file.content)
  {
    ResumeWithValidator(d, n);
  }

  lemma CompletedNow(d: System, f: File)
    requires OnTheWay(d, f) && Reached(d) && |d.s.delivered| == 1
    ensures Completed(d, f)
  {
    DeliveredIsSuccess(d);
    StatusTold(d, f, d.s.delivered[0].written);
    if NamesVersion(d.s.part0, d.meta0, f) {
      FileNow(d, d.s.delivered[0].written);
    }
  }

  // ----- A partial reply without a length

  lemma StreamedHead(s: State, i: Info, framing: Framing, nextOk: bool, metaBytes: nat, more: string)
    requires s.pc.Rest? && !s.finished && ServerHead(s, i, framing) && (i.status != 416 ==> i.chunked)
    ensures ProcessHead(s, i, nextOk, metaBytes, more).pc == AtTerminal(Abort(NoRangeOrLength)) <==> i.status == 206
  {
  }

  lemma StreamedInfo(req: Request, f: File, framing: Framing)
    requires framing.Streamed?
    ensures var i := ReplyInfo(req, f, framing);
            (i.status == 206 <==> Effective(req, f).partial) && (i.status != 416 ==> i.chunked)
  {
    RangePartial(req, f);
  }

  lemma HeadMove(c: System, k: nat, nextOk: bool, metaBytes: nat)
    requires SystemInv(c) && Current(c) && !c.link.headSent && k <= |c.link.reply.body|
    requires c.s.pc.Rest? && !c.s.finished && !c.s.resp.headerDone
    ensures DoHead(c, k, nextOk, metaBytes).s == ProcessHead(c.s, LinkInfo(c), nextOk, metaBytes, c.link.reply.body[..k])
  {
    ReplyRead(c.link.req, c.link.file, c.framing);
  }

  /** A reply that is streamed is refused for its missing length exactly when it is partial. */
  lemma StreamedPartialRefused(c: System, k: nat, nextOk: bool, metaBytes: nat)
    requires SystemInv(c) && c.framing.Streamed? && Current(c) && !c.link.headSent && k <= |c.link.reply.body|
    requires c.s.pc.Rest? && !c.s.finished && !c.s.resp.headerDone
    ensures DoHead(c, k, nextOk, metaBytes).s.pc == AtTerminal(Abort(NoRangeOrLength))
        <==> Effective(c.link.req, c.link.file).partial
  {
    HeadMove(c, k, nextOk, metaBytes);
    ServerHeads(c);
    StreamedInfo(c.link.req, c.link.file, c.framing);
    StreamedHead(c.s, LinkInfo(c), c.framing, nextOk, metaBytes, c.link.reply.body[..k]);
  }

  lemma ErrorHead(s: State, i: Info, nextOk: bool, metaBytes: nat, more: string)
    requires s.pc.Rest? && !s.finished && !s.conn.restartUsed
    requires i == NoInfo.(status := 416, hasLength := true, length := |ERROR_416|)
    ensures var t := ProcessHead(s, i, nextOk, metaBytes, more);
            if ErrorTaken(s.cfg.maxBytes) then t.pc.AtRestart? else t.pc == AtTerminal(Abort(DeclaredQuota))
  {
    SmallSum(|ERROR_416|);
  }

  /** A range that the server refuses leads to a restart exactly when the text of its refusal
      is within the limit for the download. */
  lemma RefusalRestarts(c: System, k: nat, nextOk: bool, metaBytes: nat)
    requires SystemInv(c) && Current(c) && !c.link.headSent && k <= |c.link.reply.body|
    requires c.s.pc.Rest? && !c.s.finished && !c.s.resp.headerDone && Effective(c.link.req, c.link.file).unsatisfiable
    ensures var t := DoHead(c, k, nextOk, metaBytes).s;
            if ErrorTaken(c.s.cfg.maxBytes) then t.pc.AtRestart? else t.pc == AtTerminal(Abort(DeclaredQuota))
  {
    HeadMove(c, k, nextOk, metaBytes);
    ServerHeads(c);
    ErrorHead(c.s, LinkInfo(c), nextOk, metaBytes, c.link.reply.body[..k]);
  }

  /** For one: a part of one byte, no validators, a file of more than one. */
  lemma StreamedResumeFails(cfg: Config, chunkSize: nat, first: char, f: File)
    requires cfg.Valid() && chunkSize > 0 && 1 < |f.content| <= U64_MAX
    ensures var disk := Disk(Some([first]), None, None);
            var ms := [Local(Start), Connect(f), DeliverHead(0, false, 0)];
            DoAll(Begin(cfg, disk, Streamed(chunkSize)), ms).s.pc == AtTerminal(Abort(NoRangeOrLength))
  {
    var disk := Disk(Some([first]), None, None);
    var b := Begin(cfg, disk, Streamed(chunkSize));
    var c := FirstLink(b, f);
    CreateInv(cfg, disk);
    FirstLinkInv(b, f);
    SecondByteOn(f);
    StreamedPartialRefused(c, 0, false, 0);
    DoAllCons(b, Local(Start), [Connect(f), DeliverHead(0, false, 0)]);
    DoAllCons(Do(b, Local(Start)), Connect(f), [DeliverHead(0, false, 0)]);
    DoAllCons(c, DeliverHead(0, false, 0), []);
  }

  lemma SecondByteOn(f: File)
    requires 1 < |f.content|
    ensures Effective(RequestFor(1, NoMeta), f).partial
  {
    FromMeaning(1, NoMeta, f);
  }

  function FirstLink(b: System, f: File): System
    requires b.s.cfg.Valid() && b.framing.Valid()
  {
    Do(Do(b, Local(Start)), Connect(f))
  }

  lemma FirstLinkInv(b: System, f: File)
    requires SystemInv(b) && b.s == Create(b.s.cfg, Disk(Some(b.s.part0), None, None)) && b.link == Nothing
    requires |f.content| <= U64_MAX
    ensures var c := FirstLink(b, f);
            && SystemInv(c) && c.framing == b.framing && Current(c) && !c.link.headSent
            && c.s.pc.Rest? && !c.s.finished && !c.s.resp.headerDone
            && c.link.file == f && c.link.req == RequestFor(|b.s.part0|, NoMeta)
  {
    SystemStep(b, Local(Start));
    SystemStep(Do(b, Local(Start)), Connect(f));
  }

  lemma DoAllCons(c: System, m: Move, ms: seq<Move>)
    requires c.s.cfg.Valid() && c.framing.Valid()
    ensures DoAll(c, [m] + ms) == DoAll(Do(c, m), ms)
  {
    assert ([m] + ms)[1..] == ms;
  }
}

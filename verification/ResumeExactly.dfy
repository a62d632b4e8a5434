/** For which files, parts and limits a download from this server can give the file at all. */
module ResumeExactly {
  import opened Basics
  import opened Text
  import opened ChunkedBody
  import opened ResponseHead
  import opened DownloadSession
  import opened DownloadSafety
  import opened DownloadContent
  import opened DownloadTheorems
  import opened RangeServer
  import opened Resume
  import opened ResumeProgress
  import opened ResumeCompletes
  import opened ResumeLiveness

  // ----- Slices that no queue takes

  predicate BigSlices(cfg: Config) { cfg.chunkBytes > cfg.qCap }

  /** A finish is on its way, or succeeded. */
  predicate Ending(s: State) {
    (s.pc.AtTerminal? && s.pc.action.Finish?) || EndsFinish(Pending(s)) || exists d :: d in s.delivered && d.Success?
  }

  /** What is kept back is less than a slice, where the loop is between its passes. */
  predicate HeldBack(s: State) {
    s.pc.AtTruncate? || s.pc.AtMeta? || s.pc.AtConsume? || s.pc.AtCheck? || s.pc.AtResidual? || s.pc.Rest?
    ==> |s.resp.dec.buf| < s.cfg.chunkBytes
  }

  /** Nothing of the body was written yet. */
  predicate Unwritten(s: State) {
    && (s.pc.AtMeta? || s.pc.AtConsume? || s.pc.AtLoop? || s.pc.AtCheck? || s.pc.AtResidual? || s.pc.Rest?
        ==> s.plan == BaseOf(s))
    && (s.pc.AtGate? ==> |s.plan| < |BaseOf(s)| + s.cfg.chunkBytes)
  }

  /** With slices larger than the queue nothing is written before the end of a body with a
      length, and what is left for the end is less than a slice. */
  predicate Unbitten(s: State) {
    && (!s.finished && s.resp.headerDone && !s.resp.info.chunked ==> HeldBack(s) && Unwritten(s))
    && (Ending(s) && !s.resp.info.chunked ==> |s.plan| < |BaseOf(s)| + s.cfg.chunkBytes)
  }

  lemma NotEnding(s: State)
    requires Inv(s) && !s.gated
    ensures !Ending(s)
  {
    var p := Pending(s);
    assert forall i :: 0 <= i < |p| ==> !p[i].Terminal();
    assert forall i :: 0 <= i < |s.delivered| ==> !s.delivered[i].Success?;
  }

  lemma PassUnbitten(s: State)
    requires s.cfg.Valid() && BigSlices(s.cfg) && !s.finished && s.pc.AtLoop? && Unwritten(s)
    ensures var t := LengthPass(s); !t.finished ==> HeldBack(t) && Unwritten(t)
  {
  }

  lemma ReadUnbitten(s: State)
    requires s.cfg.Valid() && ContentInv(s) && !s.finished && s.resp.headerDone && !s.resp.info.chunked
    requires HeldBack(s) && Unwritten(s) && (s.pc.AtConsume? || s.pc.AtResidual? || s.pc.AtCheck? || s.pc.AtGate?)
    ensures var t := DoLoopStep(s); !t.finished ==> HeldBack(t) && Unwritten(t)
  {
  }

  lemma OpenUnbitten(s: State)
    requires s.cfg.Valid() && ContentInv(s) && !s.finished && s.resp.headerDone && !s.resp.info.chunked
    requires HeldBack(s) && Unwritten(s) && (s.pc.AtTruncate? || s.pc.AtMeta?)
    ensures var t := DoLoopStep(s); HeldBack(t) && Unwritten(t)
  {
  }

  lemma BodyPcs(s: State)
    requires ContentInv(s) && !s.finished && s.resp.headerDone && !s.resp.info.chunked
    ensures !s.pc.AtRestart? && !s.pc.AtConnect? && !s.pc.AtSlices? && !s.pc.AtTerminal?
  {
  }

  lemma LoopUnbitten(s: State)
    requires Inv(s) && BigSlices(s.cfg) && !s.finished && s.resp.headerDone && !s.resp.info.chunked
    requires HeldBack(s) && Unwritten(s)
    ensures var t := DoLoopStep(s); !t.finished ==> HeldBack(t) && Unwritten(t)
  {
    BodyPcs(s);
    if s.pc.AtLoop? {
      PassUnbitten(s);
    } else if s.pc.AtTruncate? || s.pc.AtMeta? {
      OpenUnbitten(s);
    } else if !s.pc.Rest? {
      ReadUnbitten(s);
    }
  }

  /** The step that closes the gate for good. */
  lemma GateUnbitten(s: State)
    requires s.cfg.Valid() && !s.finished && s.resp.headerDone && !s.resp.info.chunked && Unwritten(s)
    requires DoLoopStep(s).pc.AtTerminal? && DoLoopStep(s).pc.action.Finish?
    requires LoopFrame(s, DoLoopStep(s))
    ensures var t := DoLoopStep(s); |t.plan| < |BaseOf(t)| + t.cfg.chunkBytes
  {
  }

  lemma HeadKept(s: State)
    requires s.cfg.Valid()
    ensures DoLoopStep(s).resp.headerDone == s.resp.headerDone && DoLoopStep(s).resp.info == s.resp.info
  {
    StepLinks(s);
  }

  lemma EndingFrom(s: State, t: State)
    requires Inv(s) && LoopFrame(s, t) && !s.gated && !s.pc.AtTerminal? && Ending(t)
    ensures t.pc.AtTerminal? && t.pc.action.Finish? && !s.finished
  {
    NotEnding(s);
    if Queued(s, t) {
      PendingGrows(s, t, t.q[|s.q|]);
    } else {
      assert Pending(t) == Pending(s);
    }
  }

  lemma LoopStepUnbitten(s: State)
    requires Inv(s) && BigSlices(s.cfg) && Unbitten(s) && !s.gated
    ensures Unbitten(DoLoopStep(s))
  {
    var t := DoLoopStep(s);
    HeadKept(s);
    if !s.finished && s.resp.headerDone && !s.resp.info.chunked {
      LoopUnbitten(s);
    }
    if Ending(t) && !t.resp.info.chunked {
      EndingFrom(s, t);
      GateHeads(s);
      GateUnbitten(s);
    }
  }

  lemma GateHeads(s: State)
    requires Inv(s) && !s.finished && DoLoopStep(s).pc.AtTerminal? && DoLoopStep(s).pc.action.Finish?
    requires !s.pc.AtTerminal? && LoopFrame(s, DoLoopStep(s))
    ensures s.resp.headerDone
  {
  }

  /** Once the gate is closed only the terminal action is handed over. */
  lemma TerminalUnbitten(s: State)
    requires Inv(s) && Unbitten(s) && s.gated
    ensures Unbitten(DoLoopStep(s))
  {
    var t := DoLoopStep(s);
    if s.pc.AtTerminal? {
      if Admits(s, s.pc.action, true) {
        PendingGrows(s, t, s.pc.action);
      } else {
        assert Pending(t) == Pending(s);
      }
    } else {
      assert t == s;
    }
  }

  lemma TakeUnbitten(s: State)
    requires Inv(s) && Unbitten(s)
    ensures Unbitten(Take(s))
  {
    PendingTake(s);
    if Ending(Take(s)) {
      assert Ending(s);
    }
  }

  lemma DidEnding(s: State, res: DiskResult)
    requires Inv(s) && Ending(Did(s, res))
    ensures Ending(s)
  {
    if s.writer.Busy? {
      assert Pending(s) == [s.writer.action] + s.q;
      assert Pending(Did(s, res)) == s.q;
      FinishTail(s.writer.action, s.q);
      if s.writer.action.Finish? { FinishAlone(s); }
    }
  }

  lemma DidUnbitten(s: State, res: DiskResult)
    requires Inv(s) && Unbitten(s)
    ensures Unbitten(Did(s, res))
  {
    if Ending(Did(s, res)) { DidEnding(s, res); }
  }

  lemma HeadUnbitten(s: State, i: Info, nextOk: bool, metaBytes: nat, more: string)
    requires s.cfg.Valid() && ContentInv(s) && !s.finished && s.pc.Rest? && !s.resp.headerDone
    ensures var t := ProcessHead(s, i, nextOk, metaBytes, more);
            && !(t.pc.AtTerminal? && t.pc.action.Finish?)
            && (!t.finished && t.resp.headerDone && !t.resp.info.chunked ==> HeldBack(t) && Unwritten(t))
  {
    var t := s.(resp := Response(true, i, metaBytes, 0, Fresh, false),
                quotaBase := if i.status == 206 then s.resumedFrom else 0,
                hist := History(s.plan, "", [], "", ""));
    NotedUnbitten(t, nextOk, more);
  }

  lemma NotedUnbitten(s: State, nextOk: bool, more: string)
    requires s.cfg.Valid() && !s.finished && s.pc.Rest? && s.resp.dec == Fresh
    requires s.plan == Before(s) && s.resumedFrom == |Before(s)|
    ensures var t := AfterHead(s, nextOk, more);
            && !(t.pc.AtTerminal? && t.pc.action.Finish?)
            && (!t.finished && t.resp.headerDone && !t.resp.info.chunked ==> HeldBack(t) && Unwritten(t))
  {
  }

  lemma HandleUnbitten(s: State, e: Event)
    requires Inv(s) && Unbitten(s) && s.pc.Rest? && !s.finished
    ensures Unbitten(Handle(s, e))
  {
    var t := Handle(s, e);
    if e.GotHead? && Alive(s, e.epoch) && !s.resp.headerDone && e.head.Parsed? {
      HeadUnbitten(s, e.head.info, e.nextOk, e.metaBytes, e.more);
    }
    if Ending(t) {
      EndingFrom(s, t);
    }
  }

  lemma StopUnbitten(s: State)
    requires Unbitten(s)
    ensures Unbitten(s.(writerStop := true))
  {
    assert Pending(s.(writerStop := true)) == Pending(s);
  }

  lemma StepUnbitten(s: State, e: Event)
    requires Inv(s) && BigSlices(s.cfg) && Unbitten(s)
    ensures Unbitten(Step(s, e))
  {
    match e
    case LoopStep => if s.gated { TerminalUnbitten(s); } else { LoopStepUnbitten(s); }
    case WriterTake => TakeUnbitten(s);
    case WriterDid(res) => DidUnbitten(s, res);
    case Shutdown => StopUnbitten(s);
    case _ => if s.pc.Rest? && !s.finished { HandleUnbitten(s, e); }
  }

  /** What a move does to the session is one of its steps. */
  lemma MoveIsStep(c: System, m: Move) returns (e: Event)
    requires c.s.cfg.Valid() && c.framing.Valid()
    ensures Do(c, m).s == Step(c.s, e) || Do(c, m).s == c.s
  {
    match m
    case Connect(_) => e := Start;
    case DeliverHead(k, nextOk, metaBytes) =>
      e := GotHead(c.s.conn.epoch, ParseHead(c.link.reply.head), nextOk, metaBytes, TakeTo(c.link.reply.body, k));
    case DeliverBody(k) =>
      e := if CanDeliver(c, k) then GotBody(c.s.conn.epoch, c.link.reply.body[c.link.sent..c.link.sent + k]) else Start;
    case Hangup => e := Closed(c.s.conn.epoch);
    case Local(event) => e := event;
  }

  lemma MoveUnbitten(c: System, m: Move)
    requires SystemInv(c) && BigSlices(c.s.cfg) && Unbitten(c.s)
    ensures Unbitten(Do(c, m).s)
  {
    var e := MoveIsStep(c, m);
    StepUnbitten(c.s, e);
  }

  lemma {:induction false} RunUnbitten(c: System, ms: seq<Move>)
    requires SystemInv(c) && BigSlices(c.s.cfg) && Unbitten(c.s)
    ensures Unbitten(DoAll(c, ms).s)
    decreases |ms|
  {
    if ms != [] {
      MoveUnbitten(c, ms[0]);
      SystemStep(c, ms[0]);
      RunUnbitten(Do(c, ms[0]), ms[1..]);
    }
  }

  // ----- Runs against one file, however disturbed

  predicate AllOneFile(ms: seq<Move>, f: File) { forall i :: 0 <= i < |ms| ==> OneFile(ms[i], f) }

  lemma {:induction false} RunFixed(c: System, ms: seq<Move>, f: File)
    requires SystemInv(c) && Fixed(c, f) && AllOneFile(ms, f)
    ensures SystemInv(DoAll(c, ms)) && Fixed(DoAll(c, ms), f)
    decreases |ms|
  {
    if ms != [] {
      SystemStep(c, ms[0]);
      FixedMove(c, ms[0], f);
      RunFixed(Do(c, ms[0]), ms[1..], f);
    }
  }

  lemma {:induction false} UndisturbedOneFile(c: System, ms: seq<Move>, f: File)
    requires c.s.cfg.Valid() && c.framing.Valid() && Undisturbed(c, ms, f)
    ensures AllOneFile(ms, f)
    decreases |ms|
  {
    if ms != [] {
      UndisturbedOneFile(Do(c, ms[0]), ms[1..], f);
    }
  }

  /** A success was reported, and the destination is the file. */
  predicate Right(c: System, f: File) {
    (exists d :: d in c.s.delivered && d.Success?) && c.s.disk.dest == Some(f.content)
  }

  // ----- What a success shows

  lemma ServedWithin(c: System, f: File, n: nat)
    requires SystemInv(c) && FramingFits(c) && Fixed(c, f) && Success(n) in c.s.delivered
    requires c.s.disk.dest == Some(f.content)
    ensures Servable(c.framing, c.s.cfg.maxBytes, RequestFor(|c.s.part0|, c.meta0), f)
  {
    SuccessDelivered(c.s, n);
    ReplyStatus(c);
    StatusTold(c, f, n);
    RangePartial(RequestFor(|c.s.part0|, c.meta0), f);
    if c.framing.Streamed? && FirstRange(c, f).partial {
      StreamedInfo(c.link.req, c.link.file, c.framing);
    }
  }

  lemma SliceWithin(c: System, f: File, n: nat)
    requires SystemInv(c) && FramingFits(c) && Fixed(c, f) && Success(n) in c.s.delivered && Unbitten(c.s)
    requires c.framing.ByLength?
    ensures SentLength(c, f) < c.s.cfg.chunkBytes
  {
    SuccessDelivered(c.s, n);
    StatusTold(c, f, n);
    SentBody(c, f);
    ReplyLength(c);
    assert Ending(c.s);
  }

  /** The `.part` is a piece of the file if it is continued. */
  predicate PartFits(c: System, f: File) { FirstRange(c, f).partial ==> c.s.part0 <= f.content }

  lemma ContinuedRightly(c: System, f: File, n: nat)
    requires Reached(c) && FramingFits(c) && Fixed(c, f) && Success(n) in c.s.delivered
    ensures c.s.disk.dest == Some(f.content) <==> PartFits(c, f)
  {
    ReachedInv(c);
    StatusTold(c, f, n);
    RangePartial(RequestFor(|c.s.part0|, c.meta0), f);
    ResumeGivesTheFile(c, n);
  }

  // ----- Main results

  lemma NecessaryFor(cfg: Config, disk: Disk, framing: Framing, f: File, ms: seq<Move>)
    requires cfg.Valid() && |PartText(disk)| <= U64_MAX && ChunksFit(framing, cfg.qCap) && AllOneFile(ms, f)
    requires Right(DoAll(Begin(cfg, disk, framing), ms), f)
    ensures Possible(Begin(cfg, disk, framing), f) && PartFits(Begin(cfg, disk, framing), f)
  {
    var b := Begin(cfg, disk, framing);
    var c := DoAll(b, ms);
    CalmBegin(cfg, disk, framing);
    BeginUnbitten(cfg, disk, framing);
    RunFixed(b, ms, f);
    ReachedBy(cfg, disk, framing, ms);
    var d :| d in c.s.delivered && d.Success?;
    ServedWithin(c, f, d.written);
    ContinuedRightly(c, f, d.written);
    if framing.ByLength? && BigSlices(cfg) {
      SlicesNecessary(b, f, ms, d.written);
    }
  }

  lemma SlicesNecessary(b: System, f: File, ms: seq<Move>, n: nat)
    requires SystemInv(b) && FramingFits(b) && Fixed(b, f) && AllOneFile(ms, f)
    requires b.framing.ByLength? && BigSlices(b.s.cfg) && Unbitten(b.s) && Success(n) in DoAll(b, ms).s.delivered
    ensures SentLength(b, f) < b.s.cfg.chunkBytes
  {
    RunFixed(b, ms, f);
    RunUnbitten(b, ms);
    SliceWithin(DoAll(b, ms), f, n);
  }

  lemma BeginUnbitten(cfg: Config, disk: Disk, framing: Framing)
    ensures Unbitten(Begin(cfg, disk, framing).s)
  {
    assert Pending(Create(cfg, disk)) == [];
  }

  lemma SufficientFor(cfg: Config, disk: Disk, framing: Framing, f: File) returns (ms: seq<Move>)
    requires cfg.Valid() && |PartText(disk)| <= U64_MAX && ChunksFit(framing, cfg.qCap)
    requires Possible(Begin(cfg, disk, framing), f)
    ensures AllOneFile(ms, f)
    ensures var c := DoAll(Begin(cfg, disk, framing), ms);
            c.s.delivered != [] && c.s.delivered[0].Success? && c.s.disk.dest.Some?
            && (c.s.disk.dest == Some(f.content) <==> PartFits(Begin(cfg, disk, framing), f))
  {
    var b := Begin(cfg, disk, framing);
    ms := DownloadCompletes(cfg, disk, framing, f, 0, []);
    assert [] + ms == ms;
    UndisturbedOneFile(b, ms, f);
    var c := DoAll(b, ms);
    CalmBegin(cfg, disk, framing);
    RunFixed(b, ms, f);
    ReachedBy(cfg, disk, framing, ms);
    assert c.s.delivered[0] in c.s.delivered;
    ContinuedRightly(c, f, c.s.delivered[0].written);
    SuccessDelivered(c.s, c.s.delivered[0].written);
  }

  /** A download of one file from this server can end with the file at its destination if
      and only if the replies for it can be taken, its slices fit the queue, and a part that
      the server would continue is a piece of it. */
  lemma CanSucceedIff(cfg: Config, disk: Disk, framing: Framing, f: File)
    requires cfg.Valid() && |PartText(disk)| <= U64_MAX && ChunksFit(framing, cfg.qCap)
    ensures (exists ms :: AllOneFile(ms, f) && Right(DoAll(Begin(cfg, disk, framing), ms), f))
        <==> Possible(Begin(cfg, disk, framing), f) && PartFits(Begin(cfg, disk, framing), f)
  {
    if ms :| AllOneFile(ms, f) && Right(DoAll(Begin(cfg, disk, framing), ms), f) {
      NecessaryFor(cfg, disk, framing, f, ms);
    }
    if Possible(Begin(cfg, disk, framing), f) && PartFits(Begin(cfg, disk, framing), f) {
      var ms := SufficientFor(cfg, disk, framing, f);
      var c := DoAll(Begin(cfg, disk, framing), ms);
      assert c.s.delivered[0] in c.s.delivered;
      assert Right(c, f);
    }
  }

  /** A part that the server continues and that is no piece of the file: there is a run that
      reports success and leaves something else at the destination. */
  lemma WrongPartSucceeds(cfg: Config, disk: Disk, framing: Framing, f: File) returns (ms: seq<Move>)
    requires cfg.Valid() && |PartText(disk)| <= U64_MAX && ChunksFit(framing, cfg.qCap)
    requires Possible(Begin(cfg, disk, framing), f)
    requires 0 < |PartText(disk)| < |f.content| && !(PartText(disk) <= f.content)
    requires IfRangeAllowsPartial(RequestFor(|PartText(disk)|, Begin(cfg, disk, framing).meta0).ifRange, f)
    ensures AllOneFile(ms, f)
    ensures var c := DoAll(Begin(cfg, disk, framing), ms);
            c.s.delivered != [] && c.s.delivered[0].Success? && c.s.disk.dest.Some? && c.s.disk.dest.value != f.content
  {
    FromMeaning(|PartText(disk)|, Begin(cfg, disk, framing).meta0, f);
    ms := SufficientFor(cfg, disk, framing, f);
  }

  /** In particular a request without validators, to a server with a Content-Length. */
  lemma NoValidatorWrong(cfg: Config, part: string, f: File) returns (ms: seq<Move>)
    requires cfg.Valid() && cfg.maxBytes == 0 && cfg.chunkBytes <= cfg.qCap
    requires 0 < |part| < |f.content| <= U64_MAX && !(part <= f.content)
    ensures var c := DoAll(Begin(cfg, Disk(Some(part), None, None), ByLength), ms);
            c.s.delivered != [] && c.s.delivered[0].Success? && c.s.disk.dest.Some? && c.s.disk.dest.value != f.content
  {
    ms := WrongPartSucceeds(cfg, Disk(Some(part), None, None), ByLength, f);
  }
}

/** The main results about a download session: they hold after every sequence of
    events, hence in every interleaving of the loop, the writer and a shutdown. */
module DownloadTheorems {
  import opened Text
  import opened ChunkedBody
  import opened Basics
  import opened ResponseHead
  import opened DownloadSession
  import opened DownloadSafety
  import opened DownloadContent

  // ----- The queue always leads to the planned content

  predicate EndsFinish(p: seq<Action>) { p != [] && p[|p| - 1].Finish? }

  predicate Live(s: State) {
    !s.writer.Ended? && (!s.writerStop || EndsFinish(Pending(s)))
  }

  predicate PlanInv(s: State) {
    Live(s) ==> s.disk.part.Some? && Effects(PartText(s.disk), Pending(s)) == s.plan
  }

  lemma PlanLoop(s: State, t: State)
    requires GateInv(s) && PlanInv(s) && LoopFrame(s, t) && !s.pc.AtTerminal? && (s.gated ==> t == s)
    ensures PlanInv(t)
  {
    if Live(t) && t != s {
      if Queued(s, t) {
        PendingGrows(s, t, t.q[|s.q|]);
        EffectsSnoc(PartText(s.disk), Pending(s), t.q[|s.q|]);
      } else {
        assert Pending(t) == Pending(s);
      }
    }
  }

  lemma PlanTerminal(s: State)
    requires s.cfg.Valid() && GateInv(s) && PlanInv(s) && s.pc.AtTerminal?
    ensures PlanInv(DoLoopStep(s))
  {
    var t := DoLoopStep(s);
    if Admits(s, s.pc.action, true) {
      PendingGrows(s, t, s.pc.action);
      EffectsSnoc(PartText(s.disk), Pending(s), s.pc.action);
    } else {
      assert Pending(t) == Pending(s);
    }
  }

  /** An action that leaves the writer running had its effect on the file. */
  lemma DidHasEffect(s: State, res: DiskResult)
    requires s.writer.Busy? && !Did(s, res).writer.Ended? && s.disk.part.Some?
    ensures Did(s, res).disk.part == Some(Effect(PartText(s.disk), s.writer.action))
  {
  }

  lemma FinishTail(a: Action, q: seq<Action>)
    ensures EndsFinish(q) ==> EndsFinish([a] + q) && ([a] + q)[|q|] == q[|q| - 1]
  {
  }

  lemma PlanDid(s: State, t: State)
    requires PlanInv(s) && s.writer.Busy? && WriterFrame(s, t) && t.q == s.q && !t.writer.Busy?
    requires s.disk.part.Some? && !t.writer.Ended? ==>
               t.disk.part == Some(Effect(PartText(s.disk), s.writer.action))
    ensures PlanInv(t)
  {
    if Live(t) {
      FinishTail(s.writer.action, s.q);
      assert Pending(t) == s.q;
      EffectsFront(PartText(s.disk), s.writer.action, s.q);
    }
  }

  lemma PlanStep(s: State, e: Event)
    requires s.cfg.Valid() && GateInv(s) && PlanInv(s)
    ensures PlanInv(Step(s, e))
  {
    match e
    case WriterTake => PendingTake(s);
    case WriterDid(res) =>
      if s.writer.Busy? {
        if s.disk.part.Some? && !Did(s, res).writer.Ended? { DidHasEffect(s, res); }
        PlanDid(s, Did(s, res));
      }
    case Shutdown => assert Pending(Step(s, e)) == Pending(s);
    case LoopStep =>
      if s.pc.AtTerminal? { PlanTerminal(s); } else { PlanLoop(s, DoLoopStep(s)); }
    case _ => if s.pc.Rest? && !s.finished { PlanLoop(s, Handle(s, e)); }
  }

  // ----- What a finished transfer amounts to

  /** The body of the response as its framing delimits it. */
  function Body(s: State): string {
    if s.resp.info.chunked then BodyOf(s.hist.chunks) else s.hist.raw
  }

  predicate Completed(s: State) {
    var i := s.resp.info;
    && 200 <= i.status < 300 && (i.status == 206 ==> i.hasLength) && s.resp.headerDone
    && s.plan == BaseOf(s) + Body(s)
    && (i.chunked ==> Framed(s.resp.dec, true, s.hist, s.cfg.qCap))
    && (i.hasLength ==> !i.chunked && |s.hist.raw| == i.length)
    && (s.cfg.maxBytes > 0 && (i.status == 200 || i.status == 206) ==> |s.plan| <= s.cfg.maxBytes)
  }

  predicate Fin(s: State, n: nat) { n == |s.plan| && Completed(s) }

  predicate DoneInv(s: State) {
    && (s.pc.AtTerminal? && s.pc.action.Finish? ==> Fin(s, s.pc.action.number))
    && (EndsFinish(Pending(s)) ==> Fin(s, Pending(s)[|Pending(s)| - 1].number))
    && (forall i :: 0 <= i < |s.delivered| && s.delivered[i].Success? ==>
          s.gated && Fin(s, s.delivered[i].written) && s.disk == Disk(None, None, Some(s.plan)))
  }

  lemma GateCompletes(s: State)
    requires ContentInv(s) && !s.finished && s.pc.AtGate?
    ensures Fin(s, s.cursor)
  {
    assert s.plan + "" == s.plan;
  }

  lemma FinKept(s: State, t: State, n: nat)
    requires Fin(s, n) && t.plan == s.plan && t.resp == s.resp && t.hist == s.hist && t.conn == s.conn
    requires t.cfg == s.cfg && t.part0 == s.part0
    ensures Fin(t, n)
  {
  }

  lemma DoneLoop(s: State, t: State)
    requires GateInv(s) && DoneInv(s) && LoopFrame(s, t) && !s.pc.AtTerminal? && !s.gated
    requires t.pc.AtTerminal? && t.pc.action.Finish? ==> Fin(t, t.pc.action.number)
    ensures DoneInv(t)
  {
    GateLoop(s, t);
    var p := Pending(t);
    assert p != [] && p[|p| - 1].Finish? ==> p[|p| - 1].Terminal();
  }

  lemma DoneTerminal(s: State)
    requires s.cfg.Valid() && GateInv(s) && DoneInv(s) && s.pc.AtTerminal?
    ensures DoneInv(DoLoopStep(s))
  {
    var t := DoLoopStep(s);
    if Admits(s, s.pc.action, true) {
      PendingGrows(s, t, s.pc.action);
    } else {
      assert Pending(t) == Pending(s);
    }
  }

  lemma DoneGate(s: State)
    requires s.cfg.Valid() && GateInv(s) && DoneInv(s) && ContentInv(s) && s.pc.AtGate? && !s.finished
    ensures DoneInv(DoLoopStep(s))
  {
    GateCompletes(s);
    FinKept(s, DoLoopStep(s), s.cursor);
    DoneLoop(s, DoLoopStep(s));
  }

  lemma DoneOther(s: State, t: State)
    requires GateInv(s) && DoneInv(s) && LoopFrame(s, t) && !s.pc.AtTerminal?
    requires !s.pc.AtGate? || s.finished
    requires s.gated ==> t == s
    ensures DoneInv(t)
  {
    if !s.gated {
      DoneLoop(s, t);
    }
  }

  lemma DoneLoopStep(s: State)
    requires s.cfg.Valid() && GateInv(s) && DoneInv(s) && ContentInv(s)
    ensures DoneInv(DoLoopStep(s))
  {
    if s.pc.AtTerminal? {
      DoneTerminal(s);
    } else if s.pc.AtGate? && !s.finished {
      DoneGate(s);
    } else {
      DoneOther(s, DoLoopStep(s));
    }
  }

  lemma DoneHandle(s: State, e: Event)
    requires GateInv(s) && DoneInv(s) && s.pc.Rest? && !s.finished
    ensures DoneInv(Handle(s, e))
  {
    DoneLoop(s, Handle(s, e));
  }

  lemma DoneTake(s: State)
    requires DoneInv(s)
    ensures DoneInv(Take(s))
  {
    PendingTake(s);
  }

  lemma FinishAlone(s: State)
    requires GateInv(s) && PlanInv(s) && DoneInv(s) && s.writer.Busy? && s.writer.action.Finish?
    ensures s.q == [] && s.gated && s.disk.part == Some(s.plan) && Fin(s, s.writer.action.number)
  {
    var a := s.writer.action;
    TerminalsTail(a, s.q, s.gated && s.pc.Rest?);
    assert Pending(s) == [a];
    EffectsOne(PartText(s.disk), a);
  }

  lemma DoneDid(s: State, t: State)
    requires GateInv(s) && DoneInv(s) && s.writer.Busy? && WriterFrame(s, t) && t.q == s.q && !t.writer.Busy?
    requires forall d :: d in t.delivered && d.Success? ==>
               s.gated && Fin(s, d.written) && t.disk == Disk(None, None, Some(s.plan))
    ensures DoneInv(t)
  {
    FinishTail(s.writer.action, s.q);
    assert Pending(t) == s.q;
    if EndsFinish(s.q) { FinKept(s, t, s.q[|s.q| - 1].number); }
    forall d | d in t.delivered && d.Success? ensures Fin(t, d.written) { FinKept(s, t, d.written); }
  }

  lemma DoneDidNow(s: State, res: DiskResult)
    requires GateInv(s) && PlanInv(s) && DoneInv(s) && s.writer.Busy?
    ensures DoneInv(Did(s, res))
  {
    var t := Did(s, res);
    assert s.delivered == [];
    if s.writer.action.Finish? {
      FinishAlone(s);
    }
    DoneDid(s, t);
  }

  // ----- Runs

  predicate Inv(s: State) {
    s.cfg.Valid() && GateInv(s) && PlanInv(s) && ContentInv(s) && DoneInv(s) && ConnectionInv(s)
  }

  lemma ConnectionTerminal(s: State)
    requires s.cfg.Valid() && ConnectionInv(s) && s.pc.AtTerminal?
    ensures ConnectionInv(DoLoopStep(s))
  {
  }

  lemma ConnectionStep(s: State, e: Event)
    requires s.cfg.Valid() && ConnectionInv(s)
    ensures ConnectionInv(Step(s, e))
  {
    if s.pc.AtTerminal? && e.LoopStep? {
      ConnectionTerminal(s);
    }
  }

  lemma KeepWriter(s: State, t: State)
    requires ContentInv(s) && WriterFrame(s, t)
    ensures ContentInv(t)
  {
  }

  lemma WriterInv(s: State, e: Event)
    requires Inv(s) && (e.WriterTake? || e.WriterDid?)
    ensures ContentInv(Step(s, e)) && DoneInv(Step(s, e))
  {
    if e.WriterTake? {
      DoneTake(s);
      KeepWriter(s, Take(s));
    } else {
      KeepWriter(s, Did(s, e.result));
      if s.writer.Busy? { DoneDidNow(s, e.result); }
    }
  }

  lemma LoopInv(s: State, e: Event)
    requires Inv(s) && !e.WriterTake? && !e.WriterDid? && !e.Shutdown?
    ensures ContentInv(Step(s, e)) && DoneInv(Step(s, e))
  {
    if e.LoopStep? {
      DoneLoopStep(s);
      KeepLoopStep(s);
    } else {
      KeepHandle(s, e);
      if s.pc.Rest? && !s.finished { DoneHandle(s, e); }
    }
  }

  lemma ShutdownInv(s: State)
    requires Inv(s)
    ensures ContentInv(Step(s, Shutdown)) && DoneInv(Step(s, Shutdown))
  {
    assert Pending(Step(s, Shutdown)) == Pending(s);
  }

  lemma StepInv(s: State, e: Event)
    requires Inv(s)
    ensures Inv(Step(s, e))
  {
    GateStep(s, e);
    PlanStep(s, e);
    ConnectionStep(s, e);
    if e.Shutdown? {
      ShutdownInv(s);
    } else if e.WriterTake? || e.WriterDid? {
      WriterInv(s, e);
    } else {
      LoopInv(s, e);
    }
  }

  lemma CreateInv(cfg: Config, disk: Disk)
    requires cfg.Valid() && |PartText(disk)| <= U64_MAX
    ensures Inv(Create(cfg, disk))
  {
    var s := Create(cfg, disk);
    assert Pending(s) == [];
  }

  lemma {:induction false} RunInv(s: State, es: seq<Event>)
    requires Inv(s)
    ensures Inv(Run(s, es)) && Run(s, es).part0 == s.part0 && Run(s, es).cfg == s.cfg
    decreases |es|
  {
    if es != [] {
      StepInv(s, es[0]);
      RunInv(Step(s, es[0]), es[1..]);
    }
  }

  // ----- Main results

  ghost predicate Reachable(s: State) {
    exists cfg: Config, disk: Disk, es ::
      cfg.Valid() && |PartText(disk)| <= U64_MAX && s == Run(Create(cfg, disk), es)
  }

  lemma ReachableInv(s: State)
    requires Reachable(s)
    ensures Inv(s)
  {
    var cfg: Config, disk: Disk, es :|
      cfg.Valid() && |PartText(disk)| <= U64_MAX && s == Run(Create(cfg, disk), es);
    CreateInv(cfg, disk);
    RunInv(Create(cfg, disk), es);
  }

  /** Until the session is over or shut down, applying the action in hand and the
      queued ones to the file as it is now yields a file as long as the cursor. */
  lemma QueueRefinesPlan(s: State)
    requires Reachable(s) && !s.finished && !s.writerStop
    ensures s.disk.part.Some?
    ensures Effects(PartText(s.disk), Pending(s)) == s.plan && |s.plan| == s.cursor
    ensures s.resp.headerDone && !s.resp.info.chunked ==>
              s.plan + s.resp.dec.buf == s.hist.base + s.hist.raw
  {
    ReachableInv(s);
  }

  lemma SuccessDelivered(s: State, n: nat)
    requires Inv(s) && Success(n) in s.delivered
    ensures Fin(s, n) && s.disk == Disk(None, None, Some(s.plan))
  {
  }

  lemma ChunkedSuccess(s: State)
    requires Completed(s) && s.resp.info.chunked
    ensures s.hist.raw == Encode(s.hist.chunks, s.hist.line, s.hist.trailer)
    ensures Decode(Fresh.Append(s.hist.raw), s.cfg.qCap).status == Done
    ensures Decode(Fresh.Append(s.hist.raw), s.cfg.qCap).out == Datas(s.hist.chunks)
  {
    EncodeSplits(s.hist.chunks, s.hist.line, s.hist.trailer);
    DecodeEncode(s.hist.chunks, s.hist.line, s.hist.trailer, s.cfg.qCap);
  }

  /** A session that reports success left exactly the reported number of bytes at
      the destination: what it resumed from unless a 200 or a restart discarded
      it, then the whole body the response framed, within the quota for 200 and 206. */
  lemma SuccessContent(s: State, n: nat)
    requires Reachable(s) && Success(n) in s.delivered
    ensures var i := s.resp.info;
            && s.disk == Disk(None, None, Some(BaseOf(s) + Body(s))) && n == |BaseOf(s) + Body(s)|
            && 200 <= i.status < 300 && (i.status == 206 ==> i.hasLength) && s.resp.headerDone
            && (i.hasLength ==> |Body(s)| == i.length)
            && (i.chunked ==> Decode(Fresh.Append(s.hist.raw), s.cfg.qCap).status == Done
                              && Decode(Fresh.Append(s.hist.raw), s.cfg.qCap).out == Datas(s.hist.chunks))
            && (s.cfg.maxBytes > 0 && (i.status == 200 || i.status == 206) ==> n <= s.cfg.maxBytes)
  {
    ReachableInv(s);
    SuccessDelivered(s, n);
    if s.resp.info.chunked {
      ChunkedSuccess(s);
    }
  }

  /** At most one delivery and at most one terminal action, which nothing follows;
      a closed gate means that a terminal action is on its way or was handled, or
      that the writer stopped or ended. */
  lemma OneShotGate(s: State)
    requires Reachable(s)
    ensures |s.delivered| <= 1 && (s.writer.Ended? <==> |s.delivered| == 1)
    ensures forall i :: 0 <= i < |Pending(s)| && Pending(s)[i].Terminal() ==> i == |Pending(s)| - 1
    ensures s.finished ==> s.pc.AtTerminal? || EndsTerminal(Pending(s)) || s.writerStop || s.writer.Ended?
    ensures !s.gated ==> !s.pc.AtTerminal? && !EndsTerminal(Pending(s))
  {
    ReachableInv(s);
  }

  /** Connections are bounded by the redirects allowed, plus the first and one restart. */
  lemma ConnectionsBounded(s: State)
    requires Reachable(s)
    ensures s.conn.epoch <= 1 + s.conn.redirectsUsed + (if s.conn.restartUsed then 1 else 0)
    ensures s.conn.epoch <= s.cfg.maxRedirects + 2
  {
    ReachableInv(s);
  }

  /** The writer takes and carries out one action after another, with these results. */
  function WriterRounds(results: seq<DiskResult>): seq<Event> {
    if results == [] then [] else [WriterTake, WriterDid(results[0])] + WriterRounds(results[1..])
  }

  lemma {:induction false} RunAppend(s: State, a: seq<Event>, b: seq<Event>)
    requires s.cfg.Valid()
    ensures Run(s, a).cfg == s.cfg && Run(s, a + b) == Run(Run(s, a), b)
    decreases |a|
  {
    if a == [] {
      assert a + b == b;
    } else {
      assert (a + b)[0] == a[0] && (a + b)[1..] == a[1..] + b;
      RunAppend(Step(s, a[0]), a[1..], b);
    }
  }

  lemma RunRound(s: State, res: DiskResult, rest: seq<Event>)
    requires s.cfg.Valid()
    ensures Run(s, [WriterTake, WriterDid(res)] + rest) == Run(Did(Take(s), res), rest)
  {
    RunAppend(s, [WriterTake, WriterDid(res)], rest);
    assert Run(s, [WriterTake, WriterDid(res)]) == Run(Take(s), [WriterDid(res)]);
  }

  predicate Closing(s: State) { Inv(s) && s.pc.Rest? && (s.finished || s.writerStop) }

  lemma TakeShrinks(s: State, t: State)
    requires Closing(s) && t == Take(s) && Inv(t)
    ensures Closing(t) && (t.writer.Ended? || (t.writer.Busy? && |t.q| < |Pending(s)|))
  {
    PendingTake(s);
  }

  lemma RoundShrinks(s: State, res: DiskResult)
    requires Closing(s)
    ensures var u := Did(Take(s), res); Closing(u) && (u.writer.Ended? || |Pending(u)| < |Pending(s)|)
  {
    var t := Take(s);
    StepInv(s, WriterTake);
    StepInv(t, WriterDid(res));
    TakeShrinks(s, t);
  }

  /** Once the gate is closed or the session stopped, and the loop's callback is
      over, the writer delivers within as many rounds as there are actions left,
      plus one, however the disk behaves. */
  lemma {:induction false} WriterDelivers(s: State, results: seq<DiskResult>)
    requires Closing(s) && |results| > |Pending(s)|
    ensures |Run(s, WriterRounds(results)).delivered| == 1
    decreases |results|
  {
    var res, rest := results[0], WriterRounds(results[1..]);
    RunRound(s, res, rest);
    RoundShrinks(s, res);
    var u := Did(Take(s), res);
    if u.writer.Ended? {
      EndedStays(u, rest);
    } else {
      WriterDelivers(u, results[1..]);
    }
  }

  function LoopSteps(s: State, n: nat): (r: State)
    requires s.cfg.Valid()
    ensures r.cfg == s.cfg
    decreases n
  {
    if n == 0 then s else LoopSteps(DoLoopStep(s), n - 1)
  }

  function Unread(s: State): nat {
    match s.pc
    case AtTruncate(more) => |s.resp.dec.buf| + |more|
    case AtMeta(more) => |s.resp.dec.buf| + |more|
    case AtConsume(more) => |s.resp.dec.buf| + |more|
    case AtLoop => |s.resp.dec.buf|
    case AtSlices(data, size) => |DropFrom(s.resp.dec.buf, size + 2)| + |data|
    case _ => 0
  }

  function Rank(pc: Pc): nat {
    match pc
    case AtTruncate(_) => 9 case AtMeta(_) => 8 case AtConsume(_) => 7 case AtSlices(_, _) => 6
    case AtLoop => 5 case AtCheck => 4 case AtResidual => 3 case AtGate => 2 case AtTerminal(_) => 1
    case AtRestart => 2 case AtConnect => 1 case Rest => 0
  }

  /** What is left of a callback. */
  function Left(s: State): nat { 10 * Unread(s) + Rank(s.pc) }

  lemma ProgressChunk(s: State)
    requires s.pc.AtLoop?
    ensures Left(ChunkPass(s)) < Left(s)
  {
    PassRemoves(s.resp.dec, s.cfg.qCap);
  }

  lemma ProgressLength(s: State)
    requires s.cfg.Valid() && s.pc.AtLoop?
    ensures Left(LengthPass(s)) < Left(s)
  {
  }

  lemma ProgressSlice(s: State, data: string, size: nat)
    requires s.cfg.Valid() && s.pc == AtSlices(data, size)
    ensures Left(Slice(s, data, size)) < Left(s)
  {
  }

  lemma ProgressConsume(s: State, more: string)
    requires s.pc == AtConsume(more)
    ensures Left(Consume(s, more)) < Left(s)
  {
  }

  lemma ProgressOther(s: State)
    requires s.cfg.Valid() && !s.pc.Rest? && !s.pc.AtLoop? && !s.pc.AtSlices? && !s.pc.AtConsume?
    ensures Left(DoLoopStep(s)) < Left(s)
  {
  }

  lemma LoopProgress(s: State)
    requires s.cfg.Valid() && !s.pc.Rest?
    ensures Left(DoLoopStep(s)) < Left(s)
  {
    match s.pc
    case AtLoop => if s.resp.info.chunked { ProgressChunk(s); } else { ProgressLength(s); }
    case AtSlices(data, size) => ProgressSlice(s, data, size);
    case AtConsume(more) => ProgressConsume(s, more);
    case _ => ProgressOther(s);
  }

  lemma LoopStepsOne(s: State, n: nat)
    requires s.cfg.Valid()
    ensures LoopSteps(s, n + 1) == LoopSteps(DoLoopStep(s), n)
  {
  }

  /** Every callback of the loop thread comes to an end. */
  lemma {:induction false} CallbackEnds(s: State) returns (n: nat)
    requires s.cfg.Valid()
    ensures LoopSteps(s, n).pc.Rest?
    decreases Left(s)
  {
    n := 0;
    if !s.pc.Rest? {
      LoopProgress(s);
      n := CallbackEnds(DoLoopStep(s));
      LoopStepsOne(s, n);
      n := n + 1;
    }
  }

  lemma {:induction false} EndedStays(s: State, es: seq<Event>)
    requires Inv(s) && s.writer.Ended?
    ensures Run(s, es).delivered == s.delivered && |s.delivered| == 1
    decreases |es|
  {
    if es != [] {
      StepInv(s, es[0]);
      EndedStep(s, es[0]);
      EndedStays(Step(s, es[0]), es[1..]);
    }
  }

  lemma EndedStep(s: State, e: Event)
    requires Inv(s) && s.writer.Ended?
    ensures Step(s, e).writer.Ended? && Step(s, e).delivered == s.delivered
  {
  }
}

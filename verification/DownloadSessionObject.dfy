/** The rest of a download session as the program keeps it: an object whose head
    handling and writer thread update its fields, where the other thread does not come
    between. The entry points, OnHead and WriterLoop, say what a caller may rely on; the other
    methods are their inner steps, and each says which function of DownloadSession it is. */
module DownloadSessionObject {
  import opened Text
  import opened Basics
  import opened ResponseHead
  import opened ChunkedBody
  import opened DownloadSession
  import opened DownloadSafety
  import opened DownloadContent
  import opened DownloadTheorems

  function Stage(pc: Pc): nat {
    match pc
    case AtRestart => 2
    case AtConnect => 1
    case AtTruncate(_) => 2
    case AtMeta(_) => 1
    case AtTerminal(_) => 1
    case _ => 0
  }

  /** What is left of handling a head, up to the body bytes or the end of the callback. */
  function Settle(s: State): State
    requires s.cfg.Valid()
    decreases Stage(s.pc)
  {
    if Stage(s.pc) == 0 then s else Settle(DoLoopStep(s))
  }

  /** Settling is a few steps of the loop thread. */
  lemma {:induction false} SettleIsRun(s: State) returns (n: nat)
    requires s.cfg.Valid()
    ensures LoopSteps(s, n) == Settle(s)
    decreases Stage(s.pc)
  {
    if Stage(s.pc) == 0 {
      n := 0;
    } else {
      var k := SettleIsRun(DoLoopStep(s));
      n := k + 1;
      LoopStepsOne(s, k);
    }
  }

  /** Settling keeps what every step keeps. */
  lemma {:induction false} SettleInv(s: State)
    requires Inv(s)
    ensures Inv(Settle(s))
    decreases Stage(s.pc)
  {
    if Stage(s.pc) > 0 {
      StepInv(s, LoopStep);
      SettleInv(DoLoopStep(s));
    }
  }

  lemma InvBounds(s: State)
    requires Inv(s)
    ensures s.conn.epoch <= s.cfg.maxRedirects + 2 && |s.delivered| <= 1
    ensures s.pc.AtConsume? && !s.finished ==>
              s.resp.headerDone && 200 <= s.resp.info.status < 300 && s.cursor == |s.plan| && s.hist.base == BaseOf(s)
  {
  }

  /** The connect step by itself. */
  function DoConnect(s: State): State
    requires s.cfg.Valid()
  {
    DoLoopStep(s.(pc := AtConnect))
  }

  lemma SettleRest(s: State)
    requires s.cfg.Valid() && Stage(s.pc) == 0
    ensures Settle(s) == s
  {}

  lemma SettleConnect(s: State)
    requires s.cfg.Valid() && s.pc == AtConnect
    ensures Settle(s) == DoConnect(s)
  {
    SettleRest(DoLoopStep(s));
  }

  lemma SettleRestart(s: State)
    requires s.cfg.Valid() && s.pc == AtRestart
    ensures Settle(s) == DoConnect(Enqueue(s, Truncate, true).(resumedFrom := 0, cursor := 0, plan := "", pc := AtConnect))
  {
    SettleConnect(DoLoopStep(s));
  }

  lemma SettleMeta(s: State, more: string)
    requires s.cfg.Valid() && s.pc == AtMeta(more)
    ensures Settle(s) == Enqueue(s, WriteMeta(s.resp.info.meta, s.resp.metaBytes), true).(pc := AtConsume(more))
  {
    SettleRest(DoLoopStep(s));
  }

  lemma SettleTruncate(s: State, more: string)
    requires s.cfg.Valid() && s.pc == AtTruncate(more)
    ensures Settle(s) == Settle(Enqueue(s, Truncate, true).(cursor := 0, plan := "", hist := s.hist.(base := ""),
                                                            pc := AtMeta(more)))
  {}

  lemma DeliversAsTold(s: State, results: seq<DiskResult>)
    requires Inv(s)
    ensures var t := Run(s, WriterRounds(results));
            && |t.delivered| <= 1
            && (Closing(s) && |results| > |Pending(s)| ==> |t.delivered| == 1)
            && (forall n :: Success(n) in t.delivered ==> t.disk == Disk(None, None, Some(t.plan)) && n == |t.plan|)
  {
    var t := Run(s, WriterRounds(results));
    RunInv(s, WriterRounds(results));
    if Closing(s) && |results| > |Pending(s)| {
      WriterDelivers(s, results);
    }
    forall n | Success(n) in t.delivered ensures t.disk == Disk(None, None, Some(t.plan)) && n == |t.plan| {
      SuccessDelivered(t, n);
    }
  }

  /** The head is noted before anything is decided. */
  function Noted(s: State, i: Info, metaBytes: nat): State {
    s.(resp := Response(true, i, metaBytes, 0, Fresh, false),
       quotaBase := if i.status == 206 then s.resumedFrom else 0,
       hist := History(s.plan, "", [], "", ""), pc := Rest)
  }

  lemma HeadNoted(s: State, t: State, i: Info, nextOk: bool, metaBytes: nat, more: string)
    requires s.pc.Rest? && t == Noted(s, i, metaBytes) && !(i.hasLength && i.chunked)
    ensures DownloadSession.ProcessHead(s, i, nextOk, metaBytes, more)
         == if DeclaredTooLarge(t) then DownloadSession.Fail(t, DeclaredQuota)
            else DownloadSession.AfterHead(t, nextOk, more)
  {
  }

  class Session {
    const cfg: Config
    const part0: string
    var conn: Connection
    var resumedFrom: nat
    var cursor: nat
    var quotaBase: nat
    var resp: Response
    var finished: bool
    var q: seq<Action>
    var writerStop: bool
    var writer: Writer
    var disk: Disk
    var delivered: seq<Delivery>
    ghost var plan: string
    ghost var hist: History
    ghost var gated: bool

    /** The state with the loop thread at `pc`. */
    ghost function View(pc: Pc): State
      reads this
    {
      State(cfg, conn, resumedFrom, cursor, quotaBase, resp, pc, finished, q, writerStop, writer, disk, delivered,
            part0, plan, hist, gated)
    }

    constructor (cfg: Config, disk: Disk)
      requires cfg.Valid()
      ensures View(Rest) == Create(cfg, disk)
    {
      var part := if disk.part.Some? then disk.part.value else "";
      var meta := if part != "" && disk.sidecar.Some? then disk.sidecar.value else NoMeta;
      this.cfg, part0, conn := cfg, part, Connection(0, false, 0, meta);
      resumedFrom, cursor, quotaBase, resp := |part|, |part|, 0, NoResponse;
      finished, q, writerStop, writer, delivered := false, [], false, Idle, [];
      this.disk := disk.(part := Some(part));
      plan, hist, gated := part, History(part, "", [], "", ""), false;
    }

    // ----- The loop thread

    method EnqueueAction(a: Action, force: bool, ghost pc: Pc) returns (ok: bool)
      modifies this
      ensures View(pc) == Enqueue(old(View(pc)), a, force) && ok == Admits(old(View(pc)), a, force)
    {
      if writerStop || (finished && !a.Terminal()) || (!force && !a.Terminal() && QBytes(q) + a.Bytes() > cfg.qCap) {
        return false;
      }
      q := q + [a];
      return true;
    }

    method Fail(why: Why, ghost pc: Pc)
      requires cfg.Valid()
      modifies this
      ensures View(Rest) == Settle(DownloadSession.Fail(old(View(pc)), why))
    {
      if finished {
        return;
      }
      finished, gated := true, true;
      var ok := EnqueueAction(Abort(why), true, Rest);
    }

    method BeginConnect()
      requires cfg.Valid()
      modifies this
      ensures View(Rest) == DoConnect(old(View(AtConnect)))
    {
      if !finished {
        conn := conn.(epoch := conn.epoch + 1);
      }
    }

    /** The response state is cleared, the file is to be emptied, a plain request follows. */
    method RestartOnce(ghost pc: Pc)
      requires cfg.Valid()
      modifies this
      ensures View(Rest) == Settle(DownloadSession.RestartOnce(old(View(pc))))
    {
      if conn.restartUsed {
        Fail(SecondRestart, pc);
      } else {
        ghost var s := DownloadSession.RestartOnce(View(pc));
        conn := conn.(restartUsed := true, reqMeta := NoMeta);
        resp := NoResponse;
        assert View(AtRestart) == s;
        var ok := EnqueueAction(Truncate, true, AtRestart);
        resumedFrom, cursor, plan := 0, 0, "";
        assert View(AtConnect) == Enqueue(s, Truncate, true).(resumedFrom := 0, cursor := 0, plan := "", pc := AtConnect);
        BeginConnect();
        SettleRestart(s);
      }
    }

    method FollowRedirect(nextOk: bool, ghost pc: Pc)
      requires cfg.Valid()
      modifies this
      ensures View(Rest) == Settle(DownloadSession.FollowRedirect(old(View(pc)), nextOk))
    {
      if resp.info.status == 304 || !cfg.followRedirect || !nextOk || conn.redirectsUsed >= cfg.maxRedirects {
        Fail(RedirectRefused, pc);
      } else {
        ghost var s := DownloadSession.FollowRedirect(View(pc), nextOk);
        conn, resp := conn.(redirectsUsed := conn.redirectsUsed + 1), NoResponse;
        assert View(AtConnect) == s;
        BeginConnect();
        SettleConnect(s);
      }
    }

    /** The sidecar and, for a whole file over an old part, an empty file before it. */
    method OpenBody(whole: bool, ghost more: string)
      requires cfg.Valid()
      modifies this
      ensures View(AtConsume(more)) == Settle(old(View(if whole then AtTruncate(more) else AtMeta(more))))
    {
      ghost var s := View(if whole then AtTruncate(more) else AtMeta(more));
      var ok;
      if whole {
        ok := EnqueueAction(Truncate, true, s.pc);
        cursor, plan, hist := 0, "", hist.(base := "");
        SettleTruncate(s, more);
      }
      ghost var t := View(AtMeta(more));
      assert Settle(t) == Settle(s);
      ok := EnqueueAction(WriteMeta(resp.info.meta, resp.metaBytes), true, AtMeta(more));
      SettleMeta(t, more);
    }

    /** What the status of an admitted head asks for; `open` says that its body is read. */
    method AfterHead(nextOk: bool, ghost more: string) returns (open: bool)
      requires cfg.Valid()
      modifies this
      ensures View(if open then AtConsume(more) else Rest) == Settle(DownloadSession.AfterHead(old(View(Rest)), nextOk, more))
    {
      var i := resp.info;
      open := false;
      if i.status == 200 {
        open := true;
        OpenBody(resumedFrom > 0, more);
      } else if i.status == 206 {
        if !i.hasRange || !i.hasLength {
          Fail(NoRangeOrLength, Rest);
        } else if i.rangeFirst == resumedFrom {
          open, cursor := true, resumedFrom;
          OpenBody(false, more);
        } else {
          RestartOnce(Rest);
        }
      } else if i.status == 412 || i.status == 416 {
        RestartOnce(Rest);
      } else if 300 <= i.status < 400 {
        FollowRedirect(nextOk, Rest);
      } else if i.status < 200 || i.status >= 300 {
        Fail(BadStatus, Rest);
      } else {
        open := true;
      }
    }

    method ProcessHead(i: Info, nextOk: bool, metaBytes: nat, ghost more: string) returns (open: bool)
      requires cfg.Valid()
      modifies this
      ensures View(if open then AtConsume(more) else Rest)
           == Settle(DownloadSession.ProcessHead(old(View(Rest)), i, nextOk, metaBytes, more))
    {
      if i.hasLength && i.chunked {
        open := false;
        Fail(BadHead, Rest);
        return;
      }
      ghost var s := View(Rest);
      Note(i, metaBytes);
      HeadNoted(s, View(Rest), i, nextOk, metaBytes, more);
      var over := DeclaredOver();
      if over {
        open := false;
        Fail(DeclaredQuota, Rest);
      } else {
        open := AfterHead(nextOk, more);
      }
    }

    /** What the response declares is held against the quota. */
    method DeclaredOver() returns (over: bool)
      ensures over == DeclaredTooLarge(View(Rest))
    {
      over := cfg.maxBytes > 0 && resp.info.hasLength
              && (quotaBase + resp.info.length) % (U64_MAX + 1) > cfg.maxBytes;
    }

    method Note(i: Info, metaBytes: nat)
      modifies this`resp, this`quotaBase, this`hist
      ensures View(Rest) == Noted(old(View(Rest)), i, metaBytes)
    {
      resp, quotaBase := Response(true, i, metaBytes, 0, Fresh, false), if i.status == 206 then resumedFrom else 0;
      hist := History(plan, "", [], "", "");
    }

    /** A complete head has come in on connection `ep`. Whatever it says, the connections
        stay within their bound; and if its body is to be read, the cursor stands where the
        file as planned ends. */
    method OnHead(ep: nat, head: Verdict, nextOk: bool, metaBytes: nat, ghost more: string) returns (open: bool)
      requires Inv(View(Rest))
      modifies this
      ensures View(if open then AtConsume(more) else Rest)
           == Settle(Handle(old(View(Rest)), GotHead(ep, head, nextOk, metaBytes, more)))
      ensures Inv(View(if open then AtConsume(more) else Rest))
      ensures conn.epoch <= cfg.maxRedirects + 2 && |delivered| <= 1
      ensures open && !finished ==> resp.headerDone && 200 <= resp.info.status < 300 && cursor == |plan|
    {
      StepInv(View(Rest), GotHead(ep, head, nextOk, metaBytes, more));
      SettleInv(Handle(View(Rest), GotHead(ep, head, nextOk, metaBytes, more)));
      open := DecideHead(ep, head, nextOk, metaBytes, more);
      InvBounds(View(if open then AtConsume(more) else Rest));
    }

    method DecideHead(ep: nat, head: Verdict, nextOk: bool, metaBytes: nat, ghost more: string) returns (open: bool)
      requires cfg.Valid()
      modifies this
      ensures View(if open then AtConsume(more) else Rest)
           == Settle(Handle(old(View(Rest)), GotHead(ep, head, nextOk, metaBytes, more)))
    {
      open := false;
      if conn.epoch == ep && conn.epoch > 0 && !finished && !resp.headerDone {
        match head
        case Interim =>
        case Refused => Fail(BadHead, Rest);
        case Parsed(i) => open := ProcessHead(i, nextOk, metaBytes, more);
      }
    }

    // ----- The writer thread

    method End(disk: Disk, d: Delivery, ghost pc: Pc)
      modifies this
      ensures View(pc) == DownloadSession.End(old(View(pc)), disk, d)
    {
      writer, finished, delivered := Ended, true, delivered + [d];
      this.disk := disk;
    }

    /** Executes the action taken from the queue. */
    method Execute(result: DiskResult, ghost pc: Pc)
      requires writer.Busy?
      modifies this
      ensures View(pc) == Did(old(View(pc)), result)
    {
      var a := writer.action;
      writer := Idle;
      match a
      case Write(data) =>
        var n := if result.Good? then |data| else if result.done < |data| then result.done else |data|;
        var part := Some(PartText(disk) + data[..n]);
        assert data[..|data|] == data;
        if result.Good? {
          disk := disk.(part := part);
        } else {
          End(disk.(part := part), Failure, pc);
        }
      case Truncate =>
        if result.Good? {
          disk := disk.(part := Some(""));
        } else {
          End(disk, Failure, pc);
        }
      case WriteMeta(m, _) =>
        if result.Good? {
          disk := disk.(sidecar := Some(m));
        } else if result.done > 0 {
          disk := disk.(sidecar := None);
        }
      case Finish(n) =>
        if result.Good? {
          End(Disk(None, None, disk.part), Success(n), pc);
        } else if result.done == 0 {
          End(disk, Failure, pc);
        } else {
          End(disk.(part := None, sidecar := None), Failure, pc);
        }
      case Abort(_) => End(disk, Failure, pc);
    }

    /** One turn of the writer's loop; without an action and without a stop it goes on waiting. */
    method WriterTurn(result: DiskResult, ghost pc: Pc)
      modifies this
      ensures View(pc) == Did(Take(old(View(pc))), result)
    {
      if writer.Idle? {
        if writerStop {
          End(disk, Failure, pc);
        } else if q != [] {
          writer, q := Busy(q[0]), q[1..];
        }
      }
      if writer.Busy? {
        Execute(result, pc);
      }
    }

    /** The writer's loop with the loop thread at rest between its turns. Once the gate is
        closed or a stop was asked for, it delivers once within as many turns as there are
        actions left, and one more, whatever the disk does; and a success it delivers is the
        whole file. */
    method WriterLoop(results: seq<DiskResult>, ghost pc: Pc)
      requires Inv(View(pc))
      modifies this
      ensures View(pc) == Run(old(View(pc)), WriterRounds(results))
      ensures Inv(View(pc)) && |delivered| <= 1
      ensures pc.Rest? && old(finished || writerStop) && |results| > old(|Pending(View(pc))|) ==> |delivered| == 1
      ensures forall n :: Success(n) in delivered ==> disk == Disk(None, None, Some(plan)) && n == |plan|
    {
      RunInv(View(pc), WriterRounds(results));
      DeliversAsTold(View(pc), results);
      Rounds(results, pc);
    }

    method Rounds(results: seq<DiskResult>, ghost pc: Pc)
      requires cfg.Valid()
      modifies this
      ensures View(pc) == Run(old(View(pc)), WriterRounds(results))
    {
      var i := 0;
      while i < |results|
        invariant i <= |results|
        invariant Run(View(pc), WriterRounds(results[i..])) == Run(old(View(pc)), WriterRounds(results))
      {
        ghost var s := View(pc);
        assert results[i..][0] == results[i] && results[i..][1..] == results[i + 1..];
        RunRound(s, results[i], WriterRounds(results[i + 1..]));
        WriterTurn(results[i], pc);
        i := i + 1;
      }
    }
  }
}

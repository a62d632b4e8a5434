/** Streaming a file as a response body: one block is read on the I/O thread at a time,
    sent on the connection's loop, and the next read waits for a timer and for the
    peer to drain what was sent. Every callback is one step. */
module StreamSender {
  import opened Text
  import opened Basics

  const IDLE_CAP: nat := 250

  /** `watermark` 0 turns the flow control off. */
  datatype Options = Options(chunkSize: nat, watermark: nat, abortMs: nat)

  /** Nothing is being read; a read of `want` bytes is with the I/O thread; or its
      result, absent for an error or the end of the file, is on its way to the loop. */
  datatype Reading = Idle | Asked(want: nat) | Answered(block: Option<string>)

  /** `conn` is what the connection has sent in all, `timers` the calls of Next that are
      scheduled, `out` the body bytes handed to the stream, `finished` the calls of the
      end callback, `looks` each look of a running sender at the clock and at `conn`. */
  datatype State = State(
    opts: Options, file: string, offset: nat, total: nat,
    started: bool, open: bool, pos: nat, stream: bool, remaining: nat, sent: nat,
    fini: bool, closed: bool, inFlight: int, reading: Reading, timers: nat,
    alive: bool, conn: nat, base: nat, lastConn: nat, lastMs: int, now: int, idleMs: nat,
    out: string, finished: nat, looks: seq<Look>)

  datatype Look = Look(at: int, conn: nat)

  function Start(opts: Options, file: string, offset: nat, total: nat, alive: bool, conn: nat, now: int): State {
    State(opts, file, offset, total, false, false, 0, true, total, 0, false, false, 0, Idle, 0,
          alive, conn, 0, 0, 0, now, 0, "", 0, [])
  }

  datatype Event =
    | RunIt(openOk: bool, seekOk: bool)
    | Timer
    | Read(k: nat)
    | ReadDone(sendOk: bool)
    | Drain(n: nat)
    | Disconnect
    | Tick(ms: nat)

  function Chunk(o: Options): nat { if o.chunkSize == 0 then 1 else o.chunkSize }

  function Min(a: nat, b: nat): nat { if a < b then a else b }

  function DoClose(s: State): State {
    if s.closed then s else s.(closed := true, open := false, stream := false, finished := s.finished + 1)
  }

  /** Ends the run once; with a read in flight the closing is left to its answer. */
  function Finish(s: State): State {
    if s.fini then s
    else if s.inFlight == 0 then DoClose(s.(fini := true))
    else s.(fini := true)
  }

  const U64_LIMIT: int := U64_MAX + 1

  /** Whether what was sent is too far ahead of what the connection drained; the sum
      is one of unsigned 64-bit numbers. */
  predicate Ahead(sent: nat, drained: int, watermark: nat) {
    watermark > 0 && sent > (drained + watermark) % U64_LIMIT
  }

  /** The next wait for the peer to drain, in milliseconds. */
  function Backoff(idleMs: nat): nat { if idleMs == 0 then 1 else Min(idleMs * 2, IDLE_CAP) }

  /** How much to ask the disk for. */
  function Want(remaining: nat, o: Options): nat { Min(remaining, Chunk(o)) }

  function Submit(s: State): State {
    s.(idleMs := 0, inFlight := s.inFlight + 1, reading := Asked(Want(s.remaining, s.opts)))
  }

  function Delay(s: State): State {
    s.(idleMs := Backoff(s.idleMs), timers := s.timers + 1)
  }

  function Observe(s: State): State {
    s.(lastMs := if s.conn != s.lastConn then s.now else s.lastMs, lastConn := s.conn,
       looks := s.looks + [Look(s.now, s.conn)])
  }

  predicate Stalled(s: State) {
    s.conn == s.lastConn && s.now - s.lastMs > s.opts.abortMs
  }

  function Next(s: State): State {
    if s.fini then s
    else if !s.stream || s.remaining == 0 then Finish(s)
    else if !s.alive then Submit(s)
    else if Stalled(s) then Finish(s)
    else
      var t := Observe(s);
      if Ahead(t.sent, t.conn - t.base, t.opts.watermark) then Delay(t) else Submit(t)
  }

  /** The handle is placed and the peer's counter noted. */
  function Begin(s: State): State {
    var u := s.(started := true, open := true, pos := s.offset, lastMs := s.now);
    if s.alive then u.(lastConn := s.conn, base := s.conn) else u
  }

  function RunFile(s: State, openOk: bool, seekOk: bool): State {
    if !openOk then Finish(s.(started := true))
    else if s.offset > 0 && !seekOk then Finish(s.(started := true, open := true))
    else Next(Begin(s))
  }

  /** How much of what was asked for the disk gives, at most `k` bytes. */
  function Available(file: string, pos: nat, want: nat, k: nat): (n: nat)
    ensures n > 0 ==> pos + n <= |file| && n <= want
  {
    if pos <= |file| then Min(Min(k, want), |file| - pos) else 0
  }

  /** The I/O thread reads a block. */
  function ReadChunk(s: State, want: nat, k: nat): State {
    var n := if s.open then Available(s.file, s.pos, want, k) else 0;
    if n == 0 then s.(reading := Answered(None))
    else s.(reading := Answered(Some(s.file[s.pos..s.pos + n])), pos := s.pos + n)
  }

  function OnReadDone(s: State, block: Option<string>, sendOk: bool): State {
    var t := s.(inFlight := s.inFlight - 1, reading := Idle);
    if t.fini then (if t.inFlight == 0 then DoClose(t) else t)
    else if block.None? || !t.stream || !sendOk then Finish(t)
    else Advance(t, block.value)
  }

  function Hand(t: State, block: string): State {
    t.(remaining := if t.remaining >= |block| then t.remaining - |block| else 0,
       sent := t.sent + |block|, out := t.out + block)
  }

  function Advance(t: State, block: string): State {
    var u := Hand(t, block);
    if u.remaining == 0 then Finish(u) else u.(timers := u.timers + 1)
  }

  function Step(s: State, e: Event): State {
    match e
    case RunIt(openOk, seekOk) => if s.started then s else RunFile(s, openOk, seekOk)
    case Timer => if s.timers > 0 then Next(s.(timers := s.timers - 1)) else s
    case Read(k) => if s.reading.Asked? then ReadChunk(s, s.reading.want, k) else s
    case ReadDone(sendOk) => if s.reading.Answered? then OnReadDone(s, s.reading.block, sendOk) else s
    case Drain(n) => if s.alive then s.(conn := s.conn + n) else s
    case Disconnect => s.(alive := false)
    case Tick(ms) => s.(now := s.now + ms)
  }

  function Run(s: State, es: seq<Event>): State
    decreases |es|
  {
    if es == [] then s else Run(Step(s, es[0]), es[1..])
  }

  // ----- What every run keeps

  /** One thing at a time will call back: a timer or a read, and nothing after the end. */
  predicate TokenInv(s: State) {
    && s.inFlight == (if s.reading.Idle? then 0 else 1)
    && s.timers + s.inFlight == (if s.started && !s.fini then 1 else 0)
    && s.closed == s.fini && (s.fini ==> s.started)
    && s.finished == (if s.fini then 1 else 0)
    && s.stream == !s.fini && s.open == (s.started && !s.fini)
    && (s.reading.Asked? ==> 0 < s.reading.want <= Chunk(s.opts) && s.reading.want <= s.remaining)
    && (s.timers > 0 ==> s.remaining > 0)
  }

  /** Bytes handed to the stream plus those answered and not yet handed over. */
  function Taken(s: State): string {
    if s.reading.Answered? && s.reading.block.Some? then s.out + s.reading.block.value else s.out
  }

  predicate BytesInv(s: State) {
    && s.sent + s.remaining == s.total && |s.out| == s.sent
    && (s.started && s.open ==> s.pos == s.offset + |Taken(s)|)
    && (Taken(s) != "" ==> s.offset + |Taken(s)| <= |s.file|)
    && (s.offset + |Taken(s)| <= |s.file| ==> Taken(s) == s.file[s.offset..s.offset + |Taken(s)|])
    && (s.reading.Answered? && s.reading.block.Some? ==>
          0 < |s.reading.block.value| <= Chunk(s.opts) && |s.reading.block.value| <= s.remaining)
    && (!s.started ==> s.out == "" && s.reading.Idle?)
  }

  /** A connection that is still alive has not been sent more than the watermark
      ahead, give or take the block last read. */
  predicate FlowInv(s: State) {
    && s.base <= s.conn && s.lastConn <= s.conn
    && (s.alive && s.opts.watermark > 0 ==>
          s.sent <= s.conn - s.base + s.opts.watermark + (if s.reading.Idle? then Chunk(s.opts) else 0))
    && s.idleMs <= IDLE_CAP
  }

  /** Since `lastMs` every look has found what the last one found. */
  predicate LookInv(s: State) {
    && (s.looks != [] ==> s.started) && (s.started ==> s.lastMs <= s.now || !s.open)
    && (forall i :: 0 <= i < |s.looks| ==> s.looks[i].at <= s.now)
    && (forall i :: 0 <= i < |s.looks| ==> s.looks[i].at > s.lastMs ==> s.looks[i].conn == s.lastConn)
  }

  predicate Inv(s: State) { TokenInv(s) && BytesInv(s) && FlowInv(s) && LookInv(s) }

  lemma SubmitInv(s: State)
    requires BytesInv(s) && LookInv(s) && s.started && !s.fini && s.reading.Idle? && s.remaining > 0
    requires s.timers == 0 && s.inFlight == 0 && !s.closed && s.stream && s.open && s.finished == 0
    requires s.base <= s.conn && s.lastConn <= s.conn && s.idleMs <= IDLE_CAP
    requires s.alive && s.opts.watermark > 0 ==> s.sent <= s.conn - s.base + s.opts.watermark
    ensures Inv(Submit(s))
  {
  }

  lemma WrapBound(x: nat)
    ensures x % U64_LIMIT <= x
  {
  }

  lemma NextInv(s: State)
    requires BytesInv(s) && FlowInv(s) && LookInv(s) && s.started && !s.fini && s.reading.Idle?
    requires s.timers == 0 && s.inFlight == 0 && !s.closed && s.stream && s.open && s.finished == 0
    ensures Inv(Next(s))
  {
    WrapBound(s.conn - s.base + s.opts.watermark);
    if s.remaining > 0 && s.alive && !Stalled(s) {
      var t := Observe(s);
      assert LookInv(t);
      if !Ahead(t.sent, t.conn - t.base, t.opts.watermark) {
        SubmitInv(t);
      }
    } else if s.remaining > 0 && !s.alive {
      SubmitInv(s);
    }
  }

  lemma RunFileInv(s: State, openOk: bool, seekOk: bool)
    requires Inv(s) && !s.started
    ensures Inv(RunFile(s, openOk, seekOk))
  {
    if openOk && (s.offset == 0 || seekOk) {
      NextInv(Begin(s));
    }
  }

  lemma SlicesJoin(file: string, a: nat, b: nat, c: nat)
    requires a <= b <= c <= |file|
    ensures file[a..b] + file[b..c] == file[a..c]
  {
  }

  lemma ReadInv(s: State, k: nat)
    requires Inv(s) && s.reading.Asked?
    ensures Inv(ReadChunk(s, s.reading.want, k))
  {
    var t := ReadChunk(s, s.reading.want, k);
    if t.reading.block.Some? {
      var block := t.reading.block.value;
      SlicesJoin(s.file, s.offset, s.pos, s.pos + |block|);
      assert s.out + block == s.file[s.offset..s.offset + |s.out| + |block|];
    }
  }

  lemma ReadDoneInv(s: State, sendOk: bool)
    requires Inv(s) && s.reading.Answered?
    ensures Inv(OnReadDone(s, s.reading.block, sendOk))
  {
    if s.reading.block.None? {
    } else if sendOk {
      AdvanceInv(s, s.reading.block.value);
    } else {
      PrefixOfTaken(s);
    }
  }

  /** What was handed over is a piece of the file even when a block read is dropped. */
  lemma PrefixOfTaken(s: State)
    requires BytesInv(s)
    ensures s.out != "" ==> s.offset + |s.out| <= |s.file|
    ensures s.offset + |s.out| <= |s.file| ==> s.out == s.file[s.offset..s.offset + |s.out|]
  {
    if s.reading.Answered? && s.reading.block.Some? {
      assert Taken(s)[..|s.out|] == s.out;
    }
  }

  lemma AdvanceInv(s: State, block: string)
    requires Inv(s) && s.reading == Answered(Some(block))
    ensures Inv(Advance(s.(inFlight := s.inFlight - 1, reading := Idle), block))
  {
  }

  lemma WorldInv(s: State, e: Event)
    requires Inv(s) && (e.Drain? || e.Disconnect? || e.Tick?)
    ensures Inv(Step(s, e))
  {
  }

  lemma StepInv(s: State, e: Event)
    requires Inv(s)
    ensures Inv(Step(s, e))
  {
    match e
    case RunIt(openOk, seekOk) => if !s.started { RunFileInv(s, openOk, seekOk); }
    case Timer => if s.timers > 0 { NextInv(s.(timers := s.timers - 1)); }
    case Read(k) => if s.reading.Asked? { ReadInv(s, k); }
    case ReadDone(sendOk) => if s.reading.Answered? { ReadDoneInv(s, sendOk); }
    case _ => WorldInv(s, e);
  }

  lemma {:induction false} RunInv(s: State, es: seq<Event>)
    requires Inv(s)
    ensures Inv(Run(s, es))
    decreases |es|
  {
    if es != [] {
      StepInv(s, es[0]);
      RunInv(Step(s, es[0]), es[1..]);
    }
  }

  // ----- Main results

  /** At most one callback is outstanding, and none after the end; the handle is open
      while a read is out; what was handed to the stream is the file from `offset` on, as far
      as it was counted; a live connection is never further ahead than the watermark and one
      block; and the end callback runs once, at the end. */
  predicate Safe(s: State) {
    && s.timers + s.inFlight <= 1 && (s.fini ==> s.timers + s.inFlight == 0)
    && (s.reading.Asked? ==> s.open) && (s.closed ==> !s.open && s.reading.Idle?)
    && s.sent + s.remaining == s.total && |s.out| == s.sent
    && (s.out != "" ==> s.offset + s.sent <= |s.file| && s.out == s.file[s.offset..s.offset + s.sent])
    && (s.alive && s.opts.watermark > 0 ==> s.sent <= (s.conn - s.base) + s.opts.watermark + Chunk(s.opts))
    && s.finished == (if s.fini then 1 else 0)
  }

  lemma InvSafe(s: State)
    ensures Inv(s) ==> Safe(s)
  {
    if Inv(s) {
      PrefixOfTaken(s);
    }
  }

  /** Every run is safe. */
  lemma StreamSafety(opts: Options, file: string, offset: nat, total: nat, alive: bool, conn: nat, now: int,
                     es: seq<Event>)
    ensures Safe(Run(Start(opts, file, offset, total, alive, conn, now), es))
  {
    var s0 := Start(opts, file, offset, total, alive, conn, now);
    assert Inv(s0);
    RunInv(s0, es);
    InvSafe(Run(s0, es));
  }

  /** A sender that gives its peer up as stalled has seen the connection stand still at
      every look since a moment more than `abortMs` ago. */
  lemma StallMeansFrozen(s: State)
    requires Inv(s) && s.timers > 0 && s.alive && !s.fini && Next(s.(timers := s.timers - 1)).fini
    ensures s.now - s.lastMs > s.opts.abortMs
    ensures forall i :: 0 <= i < |s.looks| && s.looks[i].at > s.lastMs ==> s.looks[i].conn == s.conn
  {
  }

  /** What the world does around one call back: time passes, the peer takes `n` bytes,
      the connection may drop, the timer or the read comes back. */
  datatype Turn = Turn(ms: nat, n: nat, drop: bool, k: nat, sendOk: bool)

  function World(s: State, t: Turn): State {
    var u := Step(Step(s, Tick(t.ms)), Drain(t.n));
    if t.drop then Step(u, Disconnect) else u
  }

  function TakeTurn(s: State, t: Turn): State {
    Step(Step(Step(World(s, t), Timer), Read(t.k)), ReadDone(t.sendOk))
  }

  function TakeTurns(s: State, turns: seq<Turn>): State
    decreases |turns|
  {
    if turns == [] then s else TakeTurns(TakeTurn(s, turns[0]), turns[1..])
  }

  /** In how many of the turns the peer takes something. */
  function Drains(turns: seq<Turn>): nat {
    if turns == [] then 0 else (if turns[0].n > 0 then 1 else 0) + Drains(turns[1..])
  }

  /** How long a peer that stands still may go on doing so. */
  function Patience(s: State): nat {
    if s.lastMs <= s.now <= s.lastMs + s.opts.abortMs then s.opts.abortMs + 1 - (s.now - s.lastMs) else 0
  }

  function Unseen(s: State): nat { if s.conn != s.lastConn then 1 else 0 }

  function Times(c: nat, k: nat): nat { if c == 0 then 0 else k + Times(c - 1, k) }

  /** A bound on the turns left, when the peer will take something in `d` of them. */
  function Measure(s: State, d: nat): nat {
    s.remaining + if s.alive then Times(Unseen(s) + d, s.opts.abortMs + 2) + Patience(s) else 0
  }

  function Taking(t: Turn): nat { if t.n > 0 then 1 else 0 }

  lemma {:induction false} TimesGrows(c: nat, d: nat, k: nat)
    requires c <= d
    ensures Times(c, k) <= Times(d, k)
    decreases d
  {
    if c < d {
      TimesGrows(c, d - 1, k);
    }
  }

  lemma DropTurn(s: State, d: nat)
    requires Inv(s)
    ensures var u := Step(s, Disconnect); Inv(u) && Measure(u, d) <= Measure(s, d)
  {
    StepInv(s, Disconnect);
  }

  lemma TickTurn(s: State, ms: nat, d: nat)
    requires Inv(s) && s.started && !s.fini && ms > 0
    ensures var u := Step(s, Tick(ms));
            && Inv(u) && Measure(u, d) <= Measure(s, d)
            && (s.alive && u.now - u.lastMs <= u.opts.abortMs ==> Measure(u, d) < Measure(s, d))
  {
    StepInv(s, Tick(ms));
  }

  lemma DrainTurn(s: State, n: nat, d: nat)
    requires Inv(s)
    ensures var u := Step(s, Drain(n)); Inv(u) && Measure(u, d) <= Measure(s, if n > 0 then d + 1 else d)
  {
    StepInv(s, Drain(n));
    TimesGrows(Unseen(s) + d, Unseen(s) + d + 1, s.opts.abortMs + 2);
    TimesGrows(1 + d, Unseen(s) + d + 1, s.opts.abortMs + 2);
  }

  /** The world does not add to the bound, and a wait that the sender will not take for
      a stall has used some of it. */
  lemma WorldTurn(s: State, t: Turn, d: nat)
    requires Inv(s) && s.started && !s.fini && t.ms > 0
    ensures var u := World(s, t);
            && Inv(u) && u.started && !u.fini && u.timers == s.timers && u.reading == s.reading
            && Measure(u, d) <= Measure(s, d + Taking(t))
            && (u.alive && u.now - u.lastMs <= u.opts.abortMs ==> Measure(u, d) < Measure(s, d + Taking(t)))
  {
    var u := Step(s, Tick(t.ms));
    TickTurn(s, t.ms, d + Taking(t));
    DrainTurn(u, t.n, d);
    DropTurn(Step(u, Drain(t.n)), d);
  }

  /** A timer ends the run, or starts a read, or is set again: then either the peer's
      progress was seen, which spends some of the bound, or its patience is not over. */
  lemma TimerTurn(s: State, d: nat)
    requires Inv(s) && s.timers == 1
    ensures var u := Step(s, Timer);
            && Inv(u) && u.started && Measure(u, d) <= Measure(s, d)
            && (u.fini || u.reading.Asked?
                || (u.timers == 1 && s.alive && u.reading.Idle?
                    && (Measure(u, d) < Measure(s, d) || s.now - s.lastMs <= s.opts.abortMs)))
  {
    StepInv(s, Timer);
  }

  /** A read that is answered ends the run or leaves less to send. */
  lemma ReadTurn(s: State, k: nat, sendOk: bool, d: nat)
    requires Inv(s) && s.started && (s.fini || !s.reading.Idle?)
    ensures var u := Step(Step(s, Read(k)), ReadDone(sendOk));
            Inv(u) && u.started && (u.fini || Measure(u, d) < Measure(s, d))
  {
    if !s.fini {
      var t := Step(s, Read(k));
      StepInv(s, Read(k));
      StepInv(t, ReadDone(sendOk));
      AnswerSpends(t, sendOk, d);
    }
  }

  lemma AnswerSpends(s: State, sendOk: bool, d: nat)
    requires s.reading.Answered? && !s.fini && s.inFlight == 1 && s.timers == 0
    requires s.reading.block.Some? ==> 0 < |s.reading.block.value| <= s.remaining
    ensures var u := Step(s, ReadDone(sendOk)); u.fini || Measure(u, d) < Measure(s, d)
  {
  }

  /** Every turn ends the run or spends some of the bound. */
  lemma TurnSpends(s: State, t: Turn, d: nat)
    requires Inv(s) && s.started && !s.fini && t.ms > 0
    ensures var u := TakeTurn(s, t); Inv(u) && u.started && (u.fini || Measure(u, d) < Measure(s, d + Taking(t)))
  {
    var w := World(s, t);
    WorldTurn(s, t, d);
    if w.reading.Idle? {
      TimerTurn(w, d);
      var v := Step(w, Timer);
      if v.fini || v.reading.Asked? {
        ReadTurn(v, t.k, t.sendOk, d);
      }
    } else {
      ReadTurn(w, t.k, t.sendOk, d);
    }
  }

  lemma StepStaysFinished(s: State, e: Event)
    requires Inv(s) && s.fini
    ensures Inv(Step(s, e)) && Step(s, e).fini
  {
    StepInv(s, e);
  }

  lemma TurnStaysFinished(s: State, t: Turn)
    requires Inv(s) && s.fini
    ensures Inv(TakeTurn(s, t)) && TakeTurn(s, t).fini
  {
    StepStaysFinished(s, Tick(t.ms));
    StepStaysFinished(Step(s, Tick(t.ms)), Drain(t.n));
    StepStaysFinished(Step(Step(s, Tick(t.ms)), Drain(t.n)), Disconnect);
    var u := World(s, t);
    StepStaysFinished(u, Timer);
    StepStaysFinished(Step(u, Timer), Read(t.k));
    StepStaysFinished(Step(Step(u, Timer), Read(t.k)), ReadDone(t.sendOk));
  }

  lemma {:induction false} StaysFinished(s: State, turns: seq<Turn>)
    requires Inv(s) && s.fini
    ensures TakeTurns(s, turns).fini
    decreases |turns|
  {
    if turns != [] {
      TurnStaysFinished(s, turns[0]);
      StaysFinished(TakeTurn(s, turns[0]), turns[1..]);
    }
  }

  /** Every run ends: whatever the disk, the peer and the connection do, after a number
      of turns that the file, the peer's activity and its patience bound, the end
      callback has run. */
  lemma {:induction false} StreamEnds(s: State, turns: seq<Turn>)
    requires Inv(s) && s.started
    requires forall i :: 0 <= i < |turns| ==> turns[i].ms > 0
    requires |turns| > Measure(s, Drains(turns))
    ensures TakeTurns(s, turns).fini
    decreases |turns|
  {
    if s.fini {
      StaysFinished(s, turns);
    } else {
      TurnSpends(s, turns[0], Drains(turns[1..]));
      var u := TakeTurn(s, turns[0]);
      if u.fini {
        StaysFinished(u, turns[1..]);
      } else {
        StreamEnds(u, turns[1..]);
      }
    }
  }
}

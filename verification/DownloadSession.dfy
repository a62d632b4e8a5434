/** One resumable download: the event-loop side that parses the response and
    feeds a bounded action queue, and the writer thread that applies the queue
    to the `.part` file. A step is what one side does between two accesses to
    what both share (the queue, the stop flag, the terminal gate), so every
    sequence of events is one interleaving of the two threads. */
module DownloadSession {
  import opened Text
  import opened ChunkedBody
  import opened Basics
  import opened ResponseHead

  // ----- State

  datatype Config = Config(qCap: Cap, chunkBytes: nat, maxBytes: nat, maxRedirects: nat, followRedirect: bool) {
    predicate Valid() { chunkBytes > 0 && maxRedirects > 0 }
  }

  /** Why the loop gave a transfer up. */
  datatype Why =
    | BadHead | DeclaredQuota | NoRangeOrLength | SecondRestart | RedirectRefused | BadStatus
    | BadChunk(error: BodyError) | TooLong | Quota | Backlog | Lost | GaveUp

  /** `metaBytes` is the length of the sidecar's JSON text. */
  datatype Action =
    | Write(data: string)
    | Truncate
    | WriteMeta(meta: Meta, metaBytes: nat)
    | Finish(number: nat)
    | Abort(why: Why)
  {
    predicate Terminal() { Finish? || Abort? }
    function Bytes(): nat { if Write? then |data| else if WriteMeta? then metaBytes else 0 }
  }

  /** The files of one download: `.part`, `.part.meta` and the destination. */
  datatype Disk = Disk(part: Option<string>, sidecar: Option<Meta>, dest: Option<string>)

  datatype Writer = Idle | Busy(action: Action) | Ended

  datatype Delivery = Success(written: nat) | Failure

  /** What is known of the current response; `dec.buf` is the pending buffer of
      both framings. */
  datatype Response = Response(
    headerDone: bool, info: Info, metaBytes: nat, received: nat, dec: Decoder, terminated: bool)

  const NoResponse := Response(false, NoInfo, 0, 0, Fresh, false)

  /** Where the loop thread stands inside a callback. */
  datatype Pc =
    | Rest
    | AtRestart
    | AtConnect
    | AtTruncate(more: string)
    | AtMeta(more: string)
    | AtConsume(more: string)
    | AtLoop
    | AtSlices(data: string, size: nat)
    | AtCheck
    | AtResidual
    | AtGate
    | AtTerminal(action: Action)

  /** What the current response has amounted to so far, kept for the proofs only:
      the planned content when its head was read, the body bytes received, the
      chunks taken from them, the size line of the open chunk and the trailer. */
  datatype History = History(base: string, raw: string, chunks: seq<Chunk>, line: string, trailer: string)

  /** Connections made, restart and redirects used up, validators to send. */
  datatype Connection = Connection(epoch: nat, restartUsed: bool, redirectsUsed: nat, reqMeta: Meta)

  /** `part0` is the `.part` found at creation, `plan` what it is to become by all
      actions handed over so far, `gated` says that the loop closed the gate;
      like `hist` they are history. */
  datatype State = State(
    cfg: Config, conn: Connection, resumedFrom: nat, cursor: nat, quotaBase: nat, resp: Response,
    pc: Pc, finished: bool, q: seq<Action>, writerStop: bool, writer: Writer, disk: Disk,
    delivered: seq<Delivery>, part0: string, plan: string, hist: History, gated: bool)

  function Create(cfg: Config, disk: Disk): State {
    var part := if disk.part.Some? then disk.part.value else "";
    var meta := if part != "" && disk.sidecar.Some? then disk.sidecar.value else NoMeta;
    State(cfg, Connection(0, false, 0, meta), |part|, |part|, 0, NoResponse,
          Rest, false, [], false, Idle, disk.(part := Some(part)),
          [], part, part, History(part, "", [], "", ""), false)
  }

  // ----- Events

  datatype DiskResult = Good | Broken(done: nat)

  /** A head arrives parsed, with the body bytes that followed it in the same
      segment; `nextOk` says whether its Location resolves to a usable URL and
      `metaBytes` is the length of the sidecar text its validators make. */
  datatype Event =
    | Start
    | GotHead(epoch: nat, head: Verdict, nextOk: bool, metaBytes: nat, more: string)
    | GotBody(epoch: nat, data: string)
    | Closed(epoch: nat)
    | ConnectFailed(epoch: nat)
    | GiveUp
    | LoopStep
    | Shutdown
    | WriterTake
    | WriterDid(result: DiskResult)

  /** What an action makes of the content of the `.part` file. */
  function Effect(content: string, a: Action): string {
    match a
    case Write(data) => content + data
    case Truncate => ""
    case WriteMeta(_, _) => content
    case Finish(_) => content
    case Abort(_) => content
  }

  // ----- What a step of the loop thread may change

  /** Every connection made or about to be made is paid for by the first start, a
      redirect or the one restart. */
  predicate ConnectionInv(s: State) {
    && s.conn.epoch + (if s.pc.AtConnect? || s.pc.AtRestart? then 1 else 0)
         <= 1 + s.conn.redirectsUsed + (if s.conn.restartUsed then 1 else 0)
    && s.conn.redirectsUsed <= s.cfg.maxRedirects
    && (s.pc.AtRestart? ==> s.conn.restartUsed)
  }

  predicate Quiet(s: State, t: State) {
    && t.q == s.q && t.finished == s.finished && t.gated == s.gated && (t.pc.AtTerminal? ==> t.pc == s.pc)
    && (t.plan == s.plan || s.writerStop || s.finished)
  }

  predicate Queued(s: State, t: State) {
    && !s.finished && !s.writerStop && t.finished == s.finished && t.gated == s.gated
    && |t.q| == |s.q| + 1 && t.q == s.q + [t.q[|s.q|]] && !t.q[|s.q|].Terminal()
    && (t.pc.AtTerminal? ==> t.pc == s.pc) && t.plan == Effect(s.plan, t.q[|s.q|])
  }

  predicate GateClosed(s: State, t: State) {
    !s.finished && t.finished && t.gated && t.q == s.q && t.plan == s.plan
    && ((t.pc.AtTerminal? && t.pc.action.Abort?) || (s.pc.AtGate? && t.pc == AtTerminal(Finish(s.cursor))))
  }

  /** A step of the loop thread leaves the writer alone and does one of three
      things to what both threads share: nothing; queue one more action that is
      not terminal while the gate is open; close the gate. The planned content
      follows the queue. */
  predicate LoopFrame(s: State, t: State) {
    && t.cfg == s.cfg && t.part0 == s.part0 && t.writer == s.writer && t.writerStop == s.writerStop
    && t.disk == s.disk && t.delivered == s.delivered
    && (Quiet(s, t) || Queued(s, t) || GateClosed(s, t))
    && (ConnectionInv(s) ==> ConnectionInv(t))
  }

  // ----- The queue and the gate

  function QBytes(q: seq<Action>): nat {
    if q == [] then 0 else QBytes(q[..|q| - 1]) + q[|q| - 1].Bytes()
  }

  predicate Admits(s: State, a: Action, force: bool) {
    && !s.writerStop
    && (s.finished ==> a.Terminal())
    && (force || a.Terminal() || QBytes(s.q) + a.Bytes() <= s.cfg.qCap)
  }

  function Enqueue(s: State, a: Action, force: bool): (r: State)
    ensures r.cfg == s.cfg && r.part0 == s.part0
  {
    if Admits(s, a, force) then s.(q := s.q + [a]) else s
  }

  function Fail(s: State, why: Why): (r: State)
    ensures LoopFrame(s, r)
  {
    if s.finished then s.(pc := Rest)
    else s.(finished := true, gated := true, pc := AtTerminal(Abort(why)))
  }

  function EnqueueWrite(s: State, data: string, next: State): (r: State)
    requires LoopFrame(s, next) && Quiet(s, next)
    ensures LoopFrame(s, r)
  {
    if Admits(s, Write(data), false)
    then Enqueue(next, Write(data), false).(cursor := s.cursor + |data|, plan := s.plan + data)
    else Fail(s, Backlog)
  }

  // ----- Response heads

  function RestartOnce(s: State): (r: State)
    ensures LoopFrame(s, r)
  {
    if s.conn.restartUsed then Fail(s, SecondRestart)
    else s.(conn := s.conn.(restartUsed := true, reqMeta := NoMeta), resp := NoResponse, pc := AtRestart)
  }

  function FollowRedirect(s: State, nextOk: bool): (r: State)
    ensures LoopFrame(s, r)
  {
    if s.resp.info.status == 304 || !s.cfg.followRedirect || !nextOk
       || s.conn.redirectsUsed >= s.cfg.maxRedirects
    then Fail(s, RedirectRefused)
    else s.(conn := s.conn.(redirectsUsed := s.conn.redirectsUsed + 1), resp := NoResponse, pc := AtConnect)
  }

  function AfterHead(s: State, nextOk: bool, more: string): (r: State)
    ensures LoopFrame(s, r)
  {
    var i := s.resp.info;
    if i.status == 200 then
      s.(pc := if s.resumedFrom > 0 then AtTruncate(more) else AtMeta(more))
    else if i.status == 206 then
      if !i.hasRange || !i.hasLength then Fail(s, NoRangeOrLength)
      else if i.rangeFirst == s.resumedFrom then s.(cursor := s.resumedFrom, pc := AtMeta(more))
      else RestartOnce(s)
    else if i.status == 412 || i.status == 416 then RestartOnce(s)
    else if 300 <= i.status < 400 then FollowRedirect(s, nextOk)
    else if i.status < 200 || i.status >= 300 then Fail(s, BadStatus)
    else s.(pc := AtConsume(more))
  }

  predicate DeclaredTooLarge(s: State) {
    var i := s.resp.info;
    s.cfg.maxBytes > 0 && i.hasLength && (s.quotaBase + i.length) % (U64_MAX + 1) > s.cfg.maxBytes
  }

  function ProcessHead(s: State, i: Info, nextOk: bool, metaBytes: nat, more: string): (r: State)
    ensures LoopFrame(s, r)
  {
    if i.hasLength && i.chunked then Fail(s, BadHead) else
    var t := s.(resp := Response(true, i, metaBytes, 0, Fresh, false),
                quotaBase := if i.status == 206 then s.resumedFrom else 0,
                hist := History(s.plan, "", [], "", ""));
    if DeclaredTooLarge(t) then Fail(t, DeclaredQuota) else AfterHead(t, nextOk, more)
  }

  // ----- Body bytes

  predicate OverQuota(s: State, received: nat) {
    s.cfg.maxBytes > 0 && s.quotaBase + received > s.cfg.maxBytes
  }

  function Consume(s: State, data: string): (r: State)
    ensures LoopFrame(s, r)
  {
    var r := s.resp;
    if data == "" || s.finished then s.(pc := AtCheck)
    else if r.info.chunked then
      s.(resp := r.(dec := r.dec.Append(data)), hist := s.hist.(raw := s.hist.raw + data), pc := AtLoop)
    else
      var received := r.received + |data|;
      if r.info.hasLength && received > r.info.length then Fail(s, TooLong)
      else if OverQuota(s, received) then Fail(s, Quota)
      else
        s.(resp := r.(dec := r.dec.Append(data), received := received), hist := s.hist.(raw := s.hist.raw + data),
           pc := AtLoop)
  }

  /** One pass of the chunk decoder inside the session. A whole chunk is handed to
      the queue slice by slice before it leaves the pending buffer. */
  function ChunkPass(s: State): (r: State)
    ensures LoopFrame(s, r)
  {
    var p, h := Next(s.resp.dec, s.cfg.qCap), s.hist;
    match p
    case Stop(_, More) => s.(pc := AtCheck)
    case Stop(d, Done) =>
      s.(resp := s.resp.(dec := d, terminated := true), hist := h.(trailer := s.resp.dec.buf), pc := AtCheck)
    case Stop(_, Bad(e)) => Fail(s, BadChunk(e))
    case Go(d, out) =>
      if out == [] then
        s.(resp := s.resp.(dec := d), hist := h.(line := Removed(s.resp.dec.buf, d.buf)))
      else s.(pc := AtSlices(out[0], |out[0]|))
  }

  function DropFrom(s: string, n: nat): string { if n <= |s| then s[n..] else "" }

  function TakeTo(s: string, n: nat): string { if n <= |s| then s[..n] else s }

  /** The text in front of the CRLF that was removed from `before` to leave `after`. */
  function Removed(before: string, after: string): string {
    if |before| - |after| >= 2 then before[..|before| - |after| - 2] else ""
  }

  function LengthPass(s: State): (r: State)
    requires s.cfg.Valid()
    ensures LoopFrame(s, r)
  {
    var buf := s.resp.dec.buf;
    if |buf| < s.cfg.chunkBytes then s.(pc := AtCheck)
    else
      EnqueueWrite(s, buf[..s.cfg.chunkBytes],
                   s.(resp := s.resp.(dec := s.resp.dec.(buf := buf[s.cfg.chunkBytes..]))))
  }

  function Slice(s: State, data: string, size: nat): (r: State)
    requires s.cfg.Valid()
    ensures LoopFrame(s, r)
  {
    if data != "" then
      var n := if |data| < s.cfg.chunkBytes then |data| else s.cfg.chunkBytes;
      EnqueueWrite(s, data[..n], s.(pc := AtSlices(data[n..], size)))
    else if s.finished then s.(pc := Rest)
    else
      var received, buf := s.resp.received + size, s.resp.dec.buf;
      if OverQuota(s, received) then Fail(s.(resp := s.resp.(received := received)), Quota)
      else
        s.(resp := s.resp.(received := received, dec := Decoder(DropFrom(buf, size + 2), NO_SIZE)),
           hist := s.hist.(chunks := s.hist.chunks + [Chunk(s.hist.line, TakeTo(buf, size))]), pc := AtLoop)
  }

  predicate BodyComplete(r: Response) {
    if r.info.chunked then r.terminated else r.info.hasLength && r.received >= r.info.length
  }

  function Residual(s: State): (r: State)
    ensures LoopFrame(s, r)
  {
    var buf := s.resp.dec.buf;
    if buf == "" then s
    else Enqueue(s, Write(buf), true).(cursor := s.cursor + |buf|, plan := s.plan + buf,
                                       resp := s.resp.(dec := s.resp.dec.(buf := "")))
  }

  /** The file is to be emptied before a plain request. */
  function Restarted(s: State): (r: State)
    requires s.pc.AtRestart?
    ensures LoopFrame(s, r)
  {
    Enqueue(s, Truncate, true).(resumedFrom := 0, cursor := 0, plan := "", pc := AtConnect)
  }

  /** The file is to be emptied for a whole new content. */
  function Truncated(s: State, more: string): (r: State)
    ensures LoopFrame(s, r)
  {
    Enqueue(s, Truncate, true).(cursor := 0, plan := "", hist := s.hist.(base := ""), pc := AtMeta(more))
  }

  /** The validators go to the sidecar. */
  function Described(s: State, more: string): (r: State)
    ensures LoopFrame(s, r)
  {
    Enqueue(s, WriteMeta(s.resp.info.meta, s.resp.metaBytes), true).(pc := AtConsume(more))
  }

  function DoLoopStep(s: State): (r: State)
    requires s.cfg.Valid()
    ensures s.pc.AtTerminal? || LoopFrame(s, r)
    ensures r.cfg == s.cfg && r.part0 == s.part0
    ensures s.pc.Rest? ==> r == s
  {
    match s.pc
    case Rest => s
    case AtRestart => Restarted(s)
    case AtConnect => if s.finished then s.(pc := Rest) else s.(conn := s.conn.(epoch := s.conn.epoch + 1), pc := Rest)
    case AtTruncate(more) => Truncated(s, more)
    case AtMeta(more) => Described(s, more)
    case AtConsume(more) => Consume(s, more)
    case AtLoop => if s.resp.info.chunked then ChunkPass(s) else LengthPass(s)
    case AtSlices(data, size) => Slice(s, data, size)
    case AtCheck => s.(pc := if !s.finished && BodyComplete(s.resp) then AtResidual else Rest)
    case AtResidual => Residual(s).(pc := AtGate)
    case AtGate =>
      if s.finished then s.(pc := Rest)
      else s.(finished := true, gated := true, pc := AtTerminal(Finish(s.cursor)))
    case AtTerminal(a) => Enqueue(s, a, true).(pc := Rest)
  }

  function OnClosed(s: State): (r: State)
    ensures LoopFrame(s, r)
  {
    var r := s.resp;
    if !r.headerDone || (r.info.chunked && !r.terminated)
       || (r.info.hasLength && r.received < r.info.length) then Fail(s, Lost)
    else s.(pc := AtResidual)
  }

  // ----- The writer thread

  /** The writer touches only the queue, the files, its own state, the gate and
      the delivery; it ends exactly when it delivers, and closes the gate then. */
  predicate WriterFrame(s: State, t: State) {
    && t == s.(q := t.q, writer := t.writer, disk := t.disk, delivered := t.delivered, finished := t.finished)
    && t.pc == s.pc && t.gated == s.gated && t.writerStop == s.writerStop
    && (if t.writer.Ended? && !s.writer.Ended?
        then t.finished && |t.delivered| == |s.delivered| + 1 && t.delivered[..|s.delivered|] == s.delivered
        else t.finished == s.finished && t.delivered == s.delivered)
    && (s.writer.Ended? ==> t == s)
  }

  function End(s: State, disk: Disk, d: Delivery): (r: State)
    ensures !s.writer.Ended? ==> WriterFrame(s, r)
  {
    s.(writer := Ended, finished := true, disk := disk, delivered := s.delivered + [d])
  }

  function Take(s: State): (r: State)
    ensures WriterFrame(s, r)
  {
    if !s.writer.Idle? then s
    else if s.writerStop then End(s, s.disk, Failure)
    else if s.q == [] then s
    else s.(writer := Busy(s.q[0]), q := s.q[1..])
  }

  function PartText(d: Disk): string { if d.part.Some? then d.part.value else "" }

  /** The writer's action ends; a broken write left `done` of its bytes in the
      file, a broken sidecar write an unreadable sidecar unless it never opened,
      a broken finish either a failed checksum (both files deleted) or a failed rename. */
  function Did(s: State, res: DiskResult): (r: State)
    ensures WriterFrame(s, r) && r.q == s.q
    ensures s.writer.Busy? ==> !r.writer.Busy? && (s.writer.action.Terminal() ==> r.writer.Ended?)
  {
    if !s.writer.Busy? then s
    else
      var d, t := s.disk, s.(writer := Idle);
      match s.writer.action
      case Write(data) =>
        if res.Good? then t.(disk := d.(part := Some(PartText(d) + data)))
        else
          var n := if res.done < |data| then res.done else |data|;
          End(s, d.(part := Some(PartText(d) + data[..n])), Failure)
      case Truncate =>
        if res.Good? then t.(disk := d.(part := Some(""))) else End(s, d, Failure)
      case WriteMeta(m, _) =>
        if res.Good? then t.(disk := d.(sidecar := Some(m)))
        else if res.done == 0 then t
        else t.(disk := d.(sidecar := None))
      case Finish(n) =>
        if res.Good? then End(s, Disk(None, None, d.part), Success(n))
        else if res.done == 0 then End(s, d, Failure)
        else End(s, d.(part := None, sidecar := None), Failure)
      case Abort(_) => End(s, d, Failure)
  }

  // ----- Steps and runs

  predicate Alive(s: State, epoch: nat) {
    s.pc.Rest? && s.conn.epoch == epoch && s.conn.epoch > 0 && !s.finished
  }

  /** The loop thread enters a callback; only when no other one is under way. */
  function Handle(s: State, e: Event): (r: State)
    ensures s.pc.AtTerminal? || LoopFrame(s, r)
    ensures s.finished || !s.pc.Rest? ==> r == s
  {
    match e
    case Start => if s.pc.Rest? && s.conn.epoch == 0 && !s.finished then s.(conn := s.conn.(epoch := 1)) else s
    case GotHead(ep, head, nextOk, metaBytes, more) =>
      if !Alive(s, ep) || s.resp.headerDone then s
      else (match head
            case Interim => s
            case Refused => Fail(s, BadHead)
            case Parsed(i) => ProcessHead(s, i, nextOk, metaBytes, more))
    case GotBody(ep, data) =>
      if Alive(s, ep) && s.resp.headerDone && data != "" then s.(pc := AtConsume(data)) else s
    case Closed(ep) => if Alive(s, ep) then OnClosed(s) else s
    case ConnectFailed(ep) => if Alive(s, ep) then Fail(s, Lost) else s
    case GiveUp => if s.pc.Rest? && s.conn.epoch > 0 then Fail(s, GaveUp) else s
    case _ => s
  }

  /** An event that is not possible in a state leaves it unchanged. */
  function Step(s: State, e: Event): (r: State)
    requires s.cfg.Valid()
    ensures r.cfg == s.cfg && r.part0 == s.part0
  {
    match e
    case LoopStep => DoLoopStep(s)
    case Shutdown => s.(writerStop := true)
    case WriterTake => Take(s)
    case WriterDid(r) => Did(s, r)
    case _ => Handle(s, e)
  }

  function Run(s: State, es: seq<Event>): State
    requires s.cfg.Valid()
    decreases |es|
  {
    if es == [] then s
    else Run(Step(s, es[0]), es[1..])
  }
}

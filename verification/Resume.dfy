/** The download client and the file server together: the client's requests are
    answered by the server, over any fragmentation, any interleaving of the
    client's threads and any loss of connections. */
module Resume {
  import opened Text
  import opened ChunkedBody
  import opened Basics
  import opened ResponseHead
  import opened DownloadSession
  import opened DownloadSafety
  import opened DownloadContent
  import opened DownloadTheorems
  import opened RangeServer

  /** What the server has for one connection: the request as sent, the file as it
      was then, the reply, and how much of the reply has been delivered. */
  datatype Link = Link(epoch: nat, req: Request, file: File, reply: Reply, headSent: bool, sent: nat)

  datatype System = System(s: State, link: Link, framing: Framing, meta0: Meta)

  datatype Move =
    | Connect(file: File)
    | DeliverHead(bodyBytes: nat, nextOk: bool, metaBytes: nat)
    | DeliverBody(bytes: nat)
    | Hangup
    | Local(event: Event)

  /** The headers of a request that resumes at `n` with these validators. */
  function RequestFor(n: nat, m: Meta): Request {
    if n == 0 then Request("", "")
    else Request(RangeText(From(n)), if m.etag != "" then m.etag else m.lastModified)
  }

  const Nothing := Link(0, Request("", ""), File("", "", ""), Reply(Head(None, []), ""), false, 0)

  function Begin(cfg: Config, disk: Disk, framing: Framing): System {
    var s := Create(cfg, disk);
    System(s, Nothing, framing, s.conn.reqMeta)
  }

  predicate Current(c: System) { c.link.epoch == c.s.conn.epoch && c.s.conn.epoch > 0 }

  predicate CanConnect(c: System, f: File) {
    c.s.pc.Rest? && !c.s.finished && c.link.epoch < c.s.conn.epoch && |f.content| <= U64_MAX
  }

  /** Events of the session that the server and the network do not cause. */
  predicate IsLocal(e: Event) { !e.GotHead? && !e.GotBody? && !e.Closed? }

  predicate SameSetting(c: System, d: System) {
    d.framing == c.framing && d.meta0 == c.meta0 && d.s.cfg == c.s.cfg && d.s.part0 == c.s.part0
  }

  function DoConnect(c: System, f: File): (r: System)
    requires c.framing.Valid()
    ensures SameSetting(c, r)
  {
    if !CanConnect(c, f) then c
    else
      var req := RequestFor(c.s.resumedFrom, c.s.conn.reqMeta);
      c.(link := Link(c.s.conn.epoch, req, f, Serve(req, f, c.framing), false, 0))
  }

  predicate CanDeliver(c: System, k: nat) {
    && Current(c) && c.link.headSent && k > 0 && c.link.sent + k <= |c.link.reply.body|
    && c.s.pc.Rest? && !c.s.finished
  }

  function DoHead(c: System, k: nat, nextOk: bool, metaBytes: nat): (r: System)
    requires c.s.cfg.Valid()
    ensures SameSetting(c, r)
  {
    var s, l := c.s, c.link;
    if !Current(c) || l.headSent || k > |l.reply.body| || !s.pc.Rest? || s.finished then c
    else c.(s := Step(s, GotHead(s.conn.epoch, ParseHead(l.reply.head), nextOk, metaBytes, l.reply.body[..k])),
            link := l.(headSent := true, sent := k))
  }

  function DoBody(c: System, k: nat): (r: System)
    requires c.s.cfg.Valid()
    ensures SameSetting(c, r)
  {
    var s, l := c.s, c.link;
    if !CanDeliver(c, k) then c
    else c.(s := Step(s, GotBody(s.conn.epoch, l.reply.body[l.sent..l.sent + k])), link := l.(sent := l.sent + k))
  }

  function Do(c: System, m: Move): (r: System)
    requires c.s.cfg.Valid() && c.framing.Valid()
    ensures SameSetting(c, r)
  {
    match m
    case Connect(f) => DoConnect(c, f)
    case DeliverHead(k, nextOk, metaBytes) => DoHead(c, k, nextOk, metaBytes)
    case DeliverBody(k) => DoBody(c, k)
    case Hangup => c.(s := Step(c.s, Closed(c.s.conn.epoch)))
    case Local(e) => if IsLocal(e) then c.(s := Step(c.s, e)) else c
  }

  function DoAll(c: System, ms: seq<Move>): (r: System)
    requires c.s.cfg.Valid() && c.framing.Valid()
    ensures SameSetting(c, r)
    decreases |ms|
  {
    if ms == [] then c else DoAll(Do(c, ms[0]), ms[1..])
  }

  // ----- What the client holds of the current reply

  function Unconsumed(pc: Pc): string {
    match pc
    case AtTruncate(more) => more
    case AtMeta(more) => more
    case AtConsume(more) => more
    case _ => ""
  }

  function LinkInfo(c: System): Info { ReplyInfo(c.link.req, c.link.file, c.framing) }

  predicate LinkMade(c: System) {
    var l := c.link;
    l.epoch > 0 ==>
      && |l.file.content| <= U64_MAX && c.framing.Valid() && l.reply == Serve(l.req, l.file, c.framing)
      && l.sent <= |l.reply.body| && (!l.headSent ==> l.sent == 0)
  }

  predicate RequestMatches(c: System) {
    c.link.req == RequestFor(|Before(c.s)|, c.s.conn.reqMeta)
  }

  predicate LinkInv(c: System) {
    var s, l := c.s, c.link;
    && l.epoch <= s.conn.epoch && LinkMade(c)
    && s.conn.reqMeta == (if s.conn.restartUsed then NoMeta else c.meta0)
    && (s.resp.headerDone ==>
          && Current(c) && l.headSent && s.resp.info == LinkInfo(c) && RequestMatches(c)
          && s.hist.raw <= l.reply.body
          && (!s.finished ==> s.hist.raw + Unconsumed(s.pc) == l.reply.body[..l.sent]))
    && (!s.finished && !s.resp.headerDone && s.pc.Rest? && Current(c) ==> !l.headSent && RequestMatches(c))
  }

  predicate SystemInv(c: System) { Inv(c.s) && LinkInv(c) && c.framing.Valid() }

  /** A step of the loop only moves body bytes from the callback into the history. */
  predicate LoopLink(s: State, t: State) {
    && t.resp.headerDone == s.resp.headerDone && t.resp.info == s.resp.info && t.part0 == s.part0
    && t.conn.reqMeta == s.conn.reqMeta && t.conn.restartUsed == s.conn.restartUsed
    && (t.conn.epoch == s.conn.epoch || (s.pc.AtConnect? && !s.finished && t.conn.epoch == s.conn.epoch + 1))
    && s.hist.raw <= t.hist.raw && (s.finished ==> t.hist.raw == s.hist.raw && t.finished)
    && (!t.finished ==> t.hist.raw + Unconsumed(t.pc) == s.hist.raw + Unconsumed(s.pc))
    && (t.hist.raw == s.hist.raw || t.hist.raw == s.hist.raw + Unconsumed(s.pc))
  }

  lemma ConsumeLinks(s: State, more: string)
    requires s.pc == AtConsume(more)
    ensures LoopLink(s, Consume(s, more))
  {
    assert s.hist.raw + "" == s.hist.raw;
  }

  lemma ChunkLinks(s: State)
    requires s.pc.AtLoop?
    ensures LoopLink(s, ChunkPass(s))
  {
    assert s.hist.raw + "" == s.hist.raw;
  }

  lemma LengthLinks(s: State)
    requires s.cfg.Valid() && s.pc.AtLoop?
    ensures LoopLink(s, LengthPass(s))
  {
    assert s.hist.raw + "" == s.hist.raw;
  }

  lemma SliceLinks(s: State, data: string, size: nat)
    requires s.cfg.Valid() && s.pc == AtSlices(data, size)
    ensures LoopLink(s, Slice(s, data, size))
  {
    assert s.hist.raw + "" == s.hist.raw;
  }

  lemma ResidualLinks(s: State)
    requires s.pc.AtResidual?
    ensures LoopLink(s, Residual(s).(pc := AtGate))
  {
    assert s.hist.raw + "" == s.hist.raw;
  }

  lemma OpeningLinks(s: State)
    requires s.cfg.Valid() && (s.pc.AtRestart? || s.pc.AtConnect? || s.pc.AtTruncate? || s.pc.AtMeta?)
    ensures LoopLink(s, DoLoopStep(s))
  {
    assert s.hist.raw + "" == s.hist.raw;
  }

  lemma OtherLinks(s: State)
    requires s.cfg.Valid() && (s.pc.Rest? || s.pc.AtCheck? || s.pc.AtGate? || s.pc.AtTerminal?)
    ensures LoopLink(s, DoLoopStep(s))
  {
    assert s.hist.raw + "" == s.hist.raw;
  }

  lemma StepLinks(s: State)
    requires s.cfg.Valid()
    ensures LoopLink(s, DoLoopStep(s))
  {
    match s.pc
    case AtConsume(more) => ConsumeLinks(s, more);
    case AtLoop => if s.resp.info.chunked { ChunkLinks(s); } else { LengthLinks(s); }
    case AtSlices(data, size) => SliceLinks(s, data, size);
    case AtResidual => ResidualLinks(s);
    case AtRestart => OpeningLinks(s);
    case AtConnect => OpeningLinks(s);
    case AtTruncate(_) => OpeningLinks(s);
    case AtMeta(_) => OpeningLinks(s);
    case _ => OtherLinks(s);
  }

  /** Between responses the loop comes to rest only with a new connection. */
  lemma NewConnection(s: State)
    requires Inv(s) && !s.finished && !s.resp.headerDone && DoLoopStep(s).pc.Rest?
    ensures DoLoopStep(s) == s || DoLoopStep(s).conn.epoch == s.conn.epoch + 1
  {
  }

  lemma LinkLoop(c: System)
    requires SystemInv(c)
    ensures LinkInv(c.(s := DoLoopStep(c.s)))
  {
    var t := DoLoopStep(c.s);
    StepLinks(c.s);
    if !c.s.finished && !c.s.resp.headerDone && t.pc.Rest? { NewConnection(c.s); }
    LinkLoopTo(c, t);
  }

  lemma LinkLoopTo(c: System, t: State)
    requires LinkInv(c) && LoopLink(c.s, t)
    requires !c.s.finished && !c.s.resp.headerDone && t.pc.Rest? ==> t == c.s || t.conn.epoch == c.s.conn.epoch + 1
    requires c.s.resp.headerDone ==> t.conn.epoch == c.s.conn.epoch
    ensures LinkInv(c.(s := t))
  {
  }

  /** What the other callbacks of the loop leave of the response and the connection. */
  predicate Elsewhere(s: State, t: State) {
    && t.resp == s.resp && t.hist == s.hist && t.part0 == s.part0
    && t.conn == s.conn.(epoch := t.conn.epoch) && s.conn.epoch <= t.conn.epoch
    && (t.conn.epoch > s.conn.epoch ==> s.conn.epoch == 0)
    && (s.finished ==> t.finished) && (!t.finished ==> Unconsumed(t.pc) == Unconsumed(s.pc))
    && (t.pc.Rest? ==> s.pc.Rest? || t.finished)
  }

  lemma HandleElsewhere(s: State, e: Event)
    requires !e.GotHead? && !e.GotBody?
    ensures Elsewhere(s, Handle(s, e))
  {
  }

  lemma LinkHandle(c: System, e: Event)
    requires SystemInv(c) && !e.GotHead? && !e.GotBody?
    ensures LinkInv(c.(s := Handle(c.s, e)))
  {
    HandleElsewhere(c.s, e);
  }

  lemma LinkWriter(c: System, t: State)
    requires SystemInv(c) && WriterFrame(c.s, t)
    ensures LinkInv(c.(s := t))
  {
  }

  lemma LinkLocal(c: System, e: Event)
    requires SystemInv(c) && !e.GotHead? && !e.GotBody?
    ensures LinkInv(c.(s := Step(c.s, e)))
  {
    match e
    case LoopStep => LinkLoop(c);
    case WriterTake => LinkWriter(c, Take(c.s));
    case WriterDid(res) => LinkWriter(c, Did(c.s, res));
    case Shutdown =>
    case _ => LinkHandle(c, e);
  }

  lemma LinkConnect(c: System, f: File)
    requires SystemInv(c)
    ensures SystemInv(DoConnect(c, f))
  {
  }

  /** What a head read with body bytes behind it leaves. */
  predicate HeadLink(s: State, t: State, i: Info, more: string) {
    && t.part0 == s.part0 && t.conn.epoch == s.conn.epoch
    && (if t.resp.headerDone then
          t.resp.info == i && t.hist.raw == "" && t.conn == s.conn && (!t.finished ==> Unconsumed(t.pc) == more)
        else
          (if t.finished then t.conn == s.conn
           else !t.pc.Rest? && (s.conn.restartUsed ==> t.conn == s.conn || t.conn.reqMeta == s.conn.reqMeta)
                && t.conn.reqMeta == (if t.conn.restartUsed && !s.conn.restartUsed then NoMeta else s.conn.reqMeta))
          && (s.conn.restartUsed ==> t.conn.restartUsed))
  }

  lemma AfterHeadLinks(s: State, t0: State, nextOk: bool, more: string)
    requires !t0.finished && t0.resp.headerDone && t0.hist.raw == "" && t0.conn == s.conn && t0.part0 == s.part0
    ensures HeadLink(s, AfterHead(t0, nextOk, more), t0.resp.info, more)
  {
  }

  lemma HeadLinks(s: State, i: Info, nextOk: bool, metaBytes: nat, more: string)
    requires !s.finished && !s.resp.headerDone
    ensures HeadLink(s, ProcessHead(s, i, nextOk, metaBytes, more), i, more)
  {
    var t := s.(resp := Response(true, i, metaBytes, 0, Fresh, false),
                quotaBase := if i.status == 206 then s.resumedFrom else 0,
                hist := History(s.plan, "", [], "", ""));
    AfterHeadLinks(s, t, nextOk, more);
  }

  lemma LinkHead(c: System, k: nat, nextOk: bool, metaBytes: nat)
    requires SystemInv(c)
    ensures SystemInv(DoHead(c, k, nextOk, metaBytes))
  {
    var c', s, l := DoHead(c, k, nextOk, metaBytes), c.s, c.link;
    if c' != c {
      var e := GotHead(s.conn.epoch, ParseHead(l.reply.head), nextOk, metaBytes, l.reply.body[..k]);
      StepInv(s, e);
      ReplyRead(l.req, l.file, c.framing);
      if !s.resp.headerDone {
        HeadLinks(s, LinkInfo(c), nextOk, metaBytes, l.reply.body[..k]);
        assert "" + l.reply.body[..k] == l.reply.body[..k];
      }
    }
  }

  lemma BodyPrefix(body: string, sent: nat, k: nat)
    requires sent + k <= |body|
    ensures body[..sent] + "" == body[..sent]
    ensures body[..sent] + body[sent..sent + k] == body[..sent + k]
  {
  }

  lemma LinkBodyTo(c: System, k: nat)
    requires LinkInv(c) && Current(c) && !c.s.finished && c.s.pc.Rest? && c.link.headSent
    requires c.s.resp.headerDone && c.link.sent + k <= |c.link.reply.body|
    requires c.s.hist.raw == c.link.reply.body[..c.link.sent]
    ensures LinkInv(c.(s := c.s.(pc := AtConsume(c.link.reply.body[c.link.sent..c.link.sent + k])),
                       link := c.link.(sent := c.link.sent + k)))
  {
    BodyPrefix(c.link.reply.body, c.link.sent, k);
  }

  lemma BodyReady(c: System)
    requires SystemInv(c) && Current(c) && c.link.headSent && c.s.pc.Rest? && !c.s.finished
    ensures c.s.resp.headerDone && c.s.hist.raw == c.link.reply.body[..c.link.sent]
  {
    assert c.s.hist.raw + "" == c.s.hist.raw;
  }

  lemma BodyMove(c: System, k: nat)
    requires c.s.cfg.Valid() && CanDeliver(c, k) && c.s.resp.headerDone
    ensures DoBody(c, k) ==
            c.(s := c.s.(pc := AtConsume(c.link.reply.body[c.link.sent..c.link.sent + k])),
               link := c.link.(sent := c.link.sent + k))
  {
  }

  lemma LinkBody(c: System, k: nat)
    requires SystemInv(c)
    ensures SystemInv(DoBody(c, k))
  {
    if CanDeliver(c, k) {
      BodyReady(c);
      BodyMove(c, k);
      LinkBodyTo(c, k);
      StepInv(c.s, GotBody(c.s.conn.epoch, c.link.reply.body[c.link.sent..c.link.sent + k]));
    }
  }

  lemma SystemStep(c: System, m: Move)
    requires SystemInv(c)
    ensures SystemInv(Do(c, m))
  {
    match m
    case Connect(f) => LinkConnect(c, f);
    case DeliverHead(k, nextOk, metaBytes) => LinkHead(c, k, nextOk, metaBytes);
    case DeliverBody(k) => LinkBody(c, k);
    case Hangup => StepInv(c.s, Closed(c.s.conn.epoch)); LinkLocal(c, Closed(c.s.conn.epoch));
    case Local(e) => if IsLocal(e) { StepInv(c.s, e); LinkLocal(c, e); }
  }

  lemma {:induction false} SystemRun(c: System, ms: seq<Move>)
    requires SystemInv(c)
    ensures SystemInv(DoAll(c, ms))
    decreases |ms|
  {
    if ms != [] {
      SystemStep(c, ms[0]);
      SystemRun(Do(c, ms[0]), ms[1..]);
    }
  }

  ghost predicate Reached(c: System) {
    exists cfg: Config, disk: Disk, framing: Framing, ms ::
      cfg.Valid() && |PartText(disk)| <= U64_MAX && framing.Valid() && c == DoAll(Begin(cfg, disk, framing), ms)
  }

  lemma ReachedInv(c: System)
    requires Reached(c)
    ensures SystemInv(c)
  {
    var cfg: Config, disk: Disk, framing: Framing, ms :|
      cfg.Valid() && |PartText(disk)| <= U64_MAX && framing.Valid() && c == DoAll(Begin(cfg, disk, framing), ms);
    CreateInv(cfg, disk);
    SystemRun(Begin(cfg, disk, framing), ms);
  }

  // ----- A finished transfer

  lemma FeedOne(s: string, cap: Cap)
    requires Feed(Fresh, [s], cap).status == Done
    ensures Feed(Fresh, [s], cap) == Decode(Fresh.Append(s), cap)
  {
  }

  lemma StreamedWhole(f: string, framing: Framing, cap: Cap)
    requires framing.Valid() && framing.Streamed? && framing.chunkSize <= cap
    ensures var r := Decode(Fresh.Append(BodyText(framing, f)), cap);
            r.status == Done && Flatten(r.out) == f
  {
    var parts, whole := Cut(f, framing.chunkSize), BodyText(framing, f);
    FlattenOne(whole);
    ChunkedTransfer(parts, CRLF, [whole], cap);
    FeedOne(whole, cap);
  }

  lemma AppendTwice(d: Decoder, a: string, b: string)
    ensures d.Append(a).Append(b) == d.Append(a + b)
  {
    assert d.buf + a + b == d.buf + (a + b);
  }

  lemma DonePrefix(d: Decoder, raw: string, whole: string, cap: Cap)
    requires raw <= whole && Decode(d.Append(raw), cap).status == Done
    ensures Decode(d.Append(whole), cap).out == Decode(d.Append(raw), cap).out
  {
    var rest := whole[|raw|..];
    DecodeAppend(d.Append(raw), rest, cap);
    AppendTwice(d, raw, rest);
    assert raw + rest == whole;
  }

  lemma {:induction false} DatasBody(cs: seq<Chunk>)
    ensures Flatten(Datas(cs)) == BodyOf(cs)
    decreases |cs|
  {
    if cs != [] {
      var front, last := cs[..|cs| - 1], cs[|cs| - 1];
      DatasBody(front);
      DatasSnoc(front, last);
      assert front + [last] == cs;
      FlattenConcat(Datas(front), [last.data]);
      FlattenOne(last.data);
    }
  }

  lemma {:induction false} DatasSnoc(cs: seq<Chunk>, c: Chunk)
    ensures Datas(cs + [c]) == Datas(cs) + [c.data]
    decreases |cs|
  {
    if cs == [] {
      assert cs + [c] == [c];
    } else {
      assert (cs + [c])[1..] == cs[1..] + [c];
      DatasSnoc(cs[1..], c);
    }
  }

  /** A request to resume at `n` is for everything from byte `n` on. */
  lemma FromMeaning(n: nat, m: Meta, f: File)
    requires n <= U64_MAX
    ensures var r := Effective(RequestFor(n, m), f);
            && (r.partial <==> 0 < n < |f.content| && IfRangeAllowsPartial(RequestFor(n, m).ifRange, f))
            && (r.partial ==> r.offset == n && n + r.length == |f.content|)
            && (r.unsatisfiable <==> 0 < n && |f.content| <= n && IfRangeAllowsPartial(RequestFor(n, m).ifRange, f))
  {
    if n > 0 {
      ParseParts(ToDec(n), "", |f.content|);
      assert ToDec(n) + "-" + "" == ToDec(n) + "-";
    }
  }

  function TailFrom(s: string, n: nat): string { if n <= |s| then s[n..] else "" }

  /** The bytes the reply carries, out of the file. */
  function Carried(c: System): string {
    if c.s.resp.info.status == 206 then TailFrom(c.link.file.content, |Before(c.s)|) else c.link.file.content
  }

  lemma AppendTail(part: string, content: string)
    requires |part| <= |content|
    ensures part + TailFrom(content, |part|) == content <==> part <= content
  {
    assert content == content[..|part|] + content[|part|..];
    assert (part + TailFrom(content, |part|))[..|part|] == part;
  }

  predicate FramingFits(c: System) { c.framing.Streamed? ==> c.framing.chunkSize <= c.s.cfg.qCap }

  lemma ReplyStatus(c: System)
    requires SystemInv(c) && c.s.resp.headerDone && |c.s.part0| <= U64_MAX
    ensures var s, f := c.s, c.link.file; var r := Effective(c.link.req, f);
            && (s.resp.info.status == 206 <==> r.partial)
            && (s.resp.info.status == 206 ==>
                  !s.conn.restartUsed && s.part0 == Before(s) && 0 < |Before(s)| < |f.content| && |f.content| <= U64_MAX
                  && r.offset == |Before(s)| && r.offset + r.length == |f.content|)
            && (s.resp.info.status == 416 <==> r.unsatisfiable)
            && (s.resp.info.status == 200 || s.resp.info.status == 206 || s.resp.info.status == 416)
            && (s.conn.restartUsed ==> s.resp.info.status == 200)
  {
    FromMeaning(|Before(c.s)|, c.s.conn.reqMeta, c.link.file);
  }

  lemma BodyArrived(c: System, n: nat)
    requires SystemInv(c) && Success(n) in c.s.delivered && FramingFits(c)
    ensures c.s.resp.headerDone && Body(c.s) == Carried(c)
  {
    var s, l := c.s, c.link;
    SuccessDelivered(s, n);
    ReplyStatus(c);
    var r := Effective(l.req, l.file);
    RangePartial(l.req, l.file);
    if c.framing.ByLength? {
      assert l.reply.body == Carried(c);
    } else {
      ChunkedSuccess(s);
      DonePrefix(Fresh, s.hist.raw, l.reply.body, s.cfg.qCap);
      StreamedWhole(l.file.content, c.framing, s.cfg.qCap);
      DatasBody(s.hist.chunks);
    }
  }

  /** A session that succeeds leaves the server's current file at the
      destination, through append, truncation or restart alike, exactly when a
      partial reply found a `.part` that is a prefix of that file. */
  lemma ResumeGivesTheFile(c: System, n: nat)
    requires Reached(c) && Success(n) in c.s.delivered && FramingFits(c)
    ensures var f := c.link.file;
            var partial := !c.s.conn.restartUsed && Effective(RequestFor(|c.s.part0|, c.meta0), f).partial;
            && c.s.disk.dest == Some(if partial then c.s.part0 + TailFrom(f.content, |c.s.part0|) else f.content)
            && (c.s.disk.dest == Some(f.content) <==> (partial ==> c.s.part0 <= f.content))
  {
    ReachedInv(c);
    var s, f := c.s, c.link.file;
    SuccessDelivered(s, n);
    BodyArrived(c, n);
    ReplyStatus(c);
    if s.resp.info.status == 206 {
      AppendTail(s.part0, f.content);
    } else {
      assert "" + f.content == f.content;
    }
  }

  /** The validators of the `.part` name a version it is a prefix of; then the
      file is right whatever the server has now. */
  predicate NamesVersion(part: string, m: Meta, f: File) {
    IfRangeAllowsPartial(RequestFor(|part|, m).ifRange, f) ==> part <= f.content || |f.content| <= |part|
  }

  lemma ResumeWithValidator(c: System, n: nat)
    requires Reached(c) && Success(n) in c.s.delivered && FramingFits(c)
    requires NamesVersion(c.s.part0, c.meta0, c.link.file)
    ensures c.s.disk.dest == Some(c.link.file.content) && n == |c.link.file.content|
  {
    ReachedInv(c);
    SuccessDelivered(c.s, n);
    ResumeGivesTheFile(c, n);
    FromMeaning(|c.s.part0|, c.meta0, c.link.file);
  }
}

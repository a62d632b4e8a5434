/** Saving a request body to disk: the event loop queues blocks within two limits,
    a writer thread puts them into the file, and the result is reported once.
    A step lies between two accesses to what both threads share, so every
    sequence of events is an interleaving. */
module UploadSink {
  import opened Text
  import opened Basics

  const QUEUE_CAP: nat := 128
  const QUEUE_CAP_BYTES: nat := 64 * 1024 * 1024

  /** A result on its way from the writer to the loop, or reported. */
  datatype Outcome = Outcome(ok: bool, tooLarge: bool)

  /** The writer: opening the file, waiting at the queue, holding a block it took,
      about to write it, past the limit, told to end, leaving with its result, or gone. */
  datatype Writer =
    | Opening | Waiting | Holding(block: string) | Writing(block: string) | Over | Ending
    | Leaving(outcome: Outcome) | Gone(outcome: Outcome)

  datatype LoopPc = Rest | AtOverflow

  /** `maxBytes` 0 means no limit; `file` is the destination, absent once deleted.
      The last two fields are history: every block passed in, and whether the
      writer created the file. */
  datatype State = State(
    maxBytes: nat, pc: LoopPc, fini: bool, ended: bool, pending: seq<string>, pendingBytes: nat, stop: bool,
    writer: Writer, written: nat, file: Option<string>, posted: seq<Outcome>, done: seq<Outcome>,
    passed: seq<string>, created: bool)

  function Start(maxBytes: nat, found: Option<string>): State {
    State(maxBytes, Rest, false, false, [], 0, false, Opening, 0, found, [], [], [], false)
  }

  datatype Event =
    | OnData(block: string)
    | OnFinish(error: bool)
    | LoopStep
    | Deliver
    | Open(ok: bool)
    | Pop
    | CheckStop
    | Write(ok: bool)
    | GiveUp
    | End
    | Leave

  function Total(blocks: seq<string>): nat {
    if blocks == [] then 0 else |blocks[0]| + Total(blocks[1..])
  }

  /** The result is reported once. */
  function Finish(s: State, o: Outcome): State {
    if s.fini then s else s.(fini := true, done := s.done + [o])
  }

  predicate Overflows(s: State, block: string) {
    |s.pending| >= QUEUE_CAP || s.pendingBytes + |block| > QUEUE_CAP_BYTES
  }

  /** A block arrives; none does after the end of the request. */
  function Data(s: State, block: string): State {
    if s.pc != Rest || s.ended then s
    else
      var t := s.(passed := s.passed + [block]);
      if s.fini || s.writer.Gone? then t
      else if Overflows(s, block) then t.(pc := AtOverflow)
      else t.(pending := s.pending + [block], pendingBytes := s.pendingBytes + |block|)
  }

  function Overflow(s: State): State {
    Finish(s.(pc := Rest, stop := true, pending := []), Outcome(false, false))
  }

  function Ended(s: State, error: bool): State {
    if s.pc != Rest || s.ended then s
    else if s.fini then s.(ended := true)
    else if error then Finish(s.(ended := true, stop := true, pending := []), Outcome(false, false))
    else s.(ended := true)
  }

  /** The writer takes the oldest block if there is one, else it is told to end. */
  function PopBlock(s: State): State {
    if s.pending != [] then
      s.(writer := Holding(s.pending[0]), pending := s.pending[1..],
         pendingBytes := if s.pendingBytes >= |s.pending[0]| then s.pendingBytes - |s.pending[0]| else 0)
    else if s.stop || s.ended then s.(writer := Ending)
    else s
  }

  function WriteBlock(s: State, block: string, ok: bool): State {
    if !ok then s.(writer := Leaving(Outcome(false, false)), file := None)
    else
      var t := s.(file := Some(Stored(s) + block), written := s.written + |block|);
      t.(writer := if s.maxBytes > 0 && t.written > s.maxBytes then Over else Waiting)
  }

  function Stored(s: State): string { if s.file.Some? then s.file.value else "" }

  function Step(s: State, e: Event): (r: State)
    ensures r.maxBytes == s.maxBytes
  {
    match e
    case OnData(block) => Data(s, block)
    case OnFinish(error) => Ended(s, error)
    case LoopStep => if s.pc == AtOverflow then Overflow(s) else s
    case Deliver =>
      if s.pc == Rest && s.posted != [] then Finish(s.(posted := s.posted[1..]), s.posted[0]) else s
    case Open(ok) =>
      if !s.writer.Opening? then s
      else if ok then s.(writer := Waiting, file := Some(""), created := true)
      else s.(writer := Leaving(Outcome(false, true)))
    case Pop => if s.writer.Waiting? then PopBlock(s) else s
    case CheckStop =>
      if s.writer.Holding? then s.(writer := if s.stop then Ending else Writing(s.writer.block)) else s
    case Write(ok) => if s.writer.Writing? then WriteBlock(s, s.writer.block, ok) else s
    case GiveUp =>
      if s.writer.Over? then s.(pending := [], stop := true, file := None, writer := Leaving(Outcome(false, true)))
      else s
    case End =>
      if !s.writer.Ending? then s
      else if s.stop then s.(writer := Leaving(Outcome(false, false)), file := None)
      else s.(writer := Leaving(Outcome(true, false)))
    case Leave =>
      if s.writer.Leaving? then s.(writer := Gone(s.writer.outcome), posted := s.posted + [s.writer.outcome]) else s
  }

  function Run(s: State, es: seq<Event>): (r: State)
    ensures r.maxBytes == s.maxBytes
    decreases |es|
  {
    if es == [] then s else Run(Step(s, es[0]), es[1..])
  }

  // ----- What every interleaving keeps

  function InHand(w: Writer): string { if w.Holding? || w.Writing? then w.block else "" }

  predicate Kept(w: Writer) { (w.Leaving? || w.Gone?) && w.outcome.ok }

  predicate Spoilt(w: Writer) { (w.Leaving? || w.Gone?) && !w.outcome.ok }

  predicate Active(w: Writer) { !w.Opening? && !w.Leaving? && !w.Gone? }

  /** Nothing has gone wrong so far. */
  predicate Healthy(s: State) { !s.stop && s.pc == Rest && !s.writer.Over? && !Spoilt(s.writer) }

  predicate QueueInv(s: State) {
    && |s.pending| <= QUEUE_CAP && Total(s.pending) <= s.pendingBytes <= QUEUE_CAP_BYTES
    && (!s.stop ==> s.pendingBytes == Total(s.pending))
  }

  predicate FileInv(s: State) {
    && (s.created <==> Active(s.writer) || Kept(s.writer) || (Spoilt(s.writer) && s.created))
    && (s.writer.Opening? ==> s.written == 0)
    && (Active(s.writer) ==> s.file.Some? && s.written == |s.file.value|)
    && (Active(s.writer) && !s.writer.Over? && s.maxBytes > 0 ==> s.written <= s.maxBytes)
    && (Spoilt(s.writer) && s.created ==> s.file.None?)
    && (Healthy(s) ==>
          (if s.created then Stored(s) else "") + (InHand(s.writer) + Flatten(s.pending)) == Flatten(s.passed))
    && (Kept(s.writer) ==>
          && s.ended && !s.stop && s.pc == Rest && s.pending == []
          && s.file == Some(Flatten(s.passed)) && (s.maxBytes > 0 ==> |Flatten(s.passed)| <= s.maxBytes))
    && (s.writer.Ending? && !s.stop ==> s.ended && s.pending == [])
  }

  predicate DoneInv(s: State) {
    && |s.done| == (if s.fini then 1 else 0)
    && (s.pc == AtOverflow ==> !s.ended && !s.fini && !Kept(s.writer))
    && (if s.writer.Gone? then s.posted == [s.writer.outcome] || (s.posted == [] && s.fini) else s.posted == [])
    && (s.fini ==> s.stop || s.writer.Gone?)
    && (s.fini && s.done[0].ok ==> s.writer.Gone? && s.writer.outcome == s.done[0])
    && (s.fini && !s.done[0].ok ==> s.stop || Spoilt(s.writer))
    && (s.stop ==> s.fini || Spoilt(s.writer))
  }

  predicate Inv(s: State) { QueueInv(s) && FileInv(s) && DoneInv(s) }

  lemma {:induction false} TotalAppend(a: seq<string>, b: string)
    ensures Total(a + [b]) == Total(a) + |b|
  {
    if a == [] {
      assert a + [b] == [b];
    } else {
      assert (a + [b])[1..] == a[1..] + [b];
      TotalAppend(a[1..], b);
    }
  }

  lemma FlattenSnoc(a: seq<string>, b: string)
    ensures Flatten(a + [b]) == Flatten(a) + b
  {
    FlattenConcat(a, [b]);
    FlattenOne(b);
  }

  lemma QueuedInv(s: State, block: string)
    requires Inv(s) && s.pc == Rest && !s.ended && !s.fini && !s.writer.Gone? && !Overflows(s, block)
    ensures Inv(s.(passed := s.passed + [block], pending := s.pending + [block],
                   pendingBytes := s.pendingBytes + |block|))
  {
    TotalAppend(s.pending, block);
    if Healthy(s) {
      FlattenSnoc(s.pending, block);
      FlattenSnoc(s.passed, block);
      var content := if s.created then Stored(s) else "";
      assert content + (InHand(s.writer) + (Flatten(s.pending) + block))
          == content + (InHand(s.writer) + Flatten(s.pending)) + block;
    }
  }

  lemma IgnoredInv(s: State, block: string)
    requires Inv(s) && s.pc == Rest && !s.ended && (s.fini || s.writer.Gone? || Overflows(s, block))
    ensures Inv(Data(s, block))
  {
  }

  lemma DataInv(s: State, block: string)
    requires Inv(s)
    ensures Inv(Data(s, block))
  {
    if s.pc == Rest && !s.ended {
      if s.fini || s.writer.Gone? || Overflows(s, block) {
        IgnoredInv(s, block);
      } else {
        QueuedInv(s, block);
      }
    }
  }

  lemma PopInv(s: State)
    requires Inv(s) && s.writer.Waiting?
    ensures Inv(PopBlock(s))
  {
  }

  lemma WriteInv(s: State, block: string, ok: bool)
    requires Inv(s) && s.writer == Writing(block)
    ensures Inv(WriteBlock(s, block, ok))
  {
    assert Stored(s) + block + ("" + Flatten(s.pending)) == Stored(s) + (block + Flatten(s.pending));
  }

  lemma EndInv(s: State)
    requires Inv(s)
    ensures Inv(Step(s, End))
  {
    assert Stored(s) + ("" + "") == Stored(s);
  }

  lemma LoopInv(s: State, e: Event)
    requires Inv(s) && (e.OnFinish? || e.LoopStep? || e.Deliver?)
    ensures Inv(Step(s, e))
  {
  }

  lemma OtherInv(s: State, e: Event)
    requires Inv(s) && (e.Open? || e.CheckStop? || e.GiveUp? || e.Leave?)
    ensures Inv(Step(s, e))
  {
  }

  lemma StepInv(s: State, e: Event)
    requires Inv(s)
    ensures Inv(Step(s, e))
  {
    match e
    case OnData(block) => DataInv(s, block);
    case Pop => if s.writer.Waiting? { PopInv(s); }
    case Write(ok) => if s.writer.Writing? { WriteInv(s, s.writer.block, ok); }
    case End => EndInv(s);
    case OnFinish(_) => LoopInv(s, e);
    case LoopStep => LoopInv(s, e);
    case Deliver => LoopInv(s, e);
    case _ => OtherInv(s, e);
  }

  lemma {:induction false} RunInv(s: State, es: seq<Event>)
    requires Inv(s)
    ensures Inv(Run(s, es))
    decreases |es|
  {
    if es != [] {
      var t := Step(s, es[0]);
      StepInv(s, es[0]);
      RunInv(t, es[1..]);
    }
  }

  lemma StartInv(maxBytes: nat, found: Option<string>)
    ensures Inv(Start(maxBytes, found))
  {
  }

  // ----- Main results

  /** One report at most; the queue within both limits; a positive report only when the
      destination holds every block passed in, in order and within the limit; and a run
      that created the file and did not succeed has deleted it by the time the writer is
      gone. */
  predicate Safe(s: State) {
    && |s.done| <= 1
    && |s.pending| <= 128 && Total(s.pending) <= 64 * 1024 * 1024
    && (forall o :: o in s.done && o.ok ==>
          s.ended && s.file == Some(Flatten(s.passed)) && (s.maxBytes > 0 ==> |Flatten(s.passed)| <= s.maxBytes))
    && (s.writer.Gone? && |s.done| == 1 && s.created ==> (s.done[0].ok <==> s.file.Some?))
    && (s.writer.Gone? && !s.writer.outcome.ok && s.created ==> s.file == None)
  }

  /** Every interleaving is safe. */
  lemma UploadOutcome(maxBytes: nat, found: Option<string>, es: seq<Event>)
    ensures Safe(Run(Start(maxBytes, found), es))
  {
    StartInv(maxBytes, found);
    RunInv(Start(maxBytes, found), es);
  }

  /** How far the writer still is from being gone, given that it is told to end. */
  function Distance(s: State): nat {
    match s.writer
    case Opening => 4 * |s.pending| + 6
    case Waiting => 4 * |s.pending| + 5
    case Holding(_) => 4 * |s.pending| + 8
    case Writing(_) => 4 * |s.pending| + 7
    case Over => 2
    case Ending => 2
    case Leaving(_) => 1
    case Gone(_) => 0
  }

  /** The writer's next step, with the disk behaving as `ok` says. */
  function WriterEvent(s: State, ok: bool): Event {
    match s.writer
    case Opening => Open(ok)
    case Waiting => Pop
    case Holding(_) => CheckStop
    case Writing(_) => Write(ok)
    case Over => GiveUp
    case Ending => End
    case Leaving(_) => Leave
    case Gone(_) => LoopStep
  }

  lemma WriterNearer(s: State, ok: bool)
    requires s.pc == Rest && (s.ended || s.stop) && !s.writer.Gone?
    ensures var t := Step(s, WriterEvent(s, ok));
            t.pc == Rest && (t.ended || t.stop) && Distance(t) < Distance(s)
  {
  }

  /** After the end of the request, or a stop, the writer alone brings the run to
      its one report, whatever the disk does. */
  lemma {:induction false} ReportArrives(s: State, oks: seq<bool>) returns (es: seq<Event>)
    requires Inv(s) && s.pc == Rest && (s.ended || s.stop) && |oks| >= Distance(s)
    ensures |Run(s, es).done| == 1 && Run(s, es).writer.Gone?
    decreases |oks|
  {
    if s.writer.Gone? {
      es := [Deliver];
      StepInv(s, Deliver);
      assert Run(s, es) == Run(Step(s, Deliver), []);
    } else {
      var e := WriterEvent(s, oks[0]);
      StepInv(s, e);
      WriterNearer(s, oks[0]);
      var rest := ReportArrives(Step(s, e), oks[1..]);
      es := [e] + rest;
      assert es[1..] == rest;
    }
  }
}

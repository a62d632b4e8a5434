/** The upload sink as the program keeps it: an object whose callbacks and writer
    update its fields. What a valid sink guarantees is said at Valid. The methods
    that do not require it are inner steps. */
module UploadSinkObject {
  import opened Text
  import opened Basics
  import opened UploadSink

  lemma StoreInv(s: State, ok: bool)
    requires Inv(s)
    ensures Inv(Step(Step(s, CheckStop), Write(ok)))
  {
    StepInv(s, CheckStop);
    StepInv(Step(s, CheckStop), Write(ok));
  }

  lemma EndInvs(s: State)
    requires Inv(s)
    ensures Inv(Step(Step(s, End), Leave))
  {
    StepInv(s, End);
    StepInv(Step(s, End), Leave);
  }

  function Content(file: Option<string>): string { if file.Some? then file.value else "" }

  class Sink {
    const maxBytes: nat
    var fini: bool
    var streamEnded: bool
    var pending: seq<string>
    var pendingBytes: nat
    var wStop: bool
    var writerDead: bool
    var written: nat
    var file: Option<string>
    var posted: seq<Outcome>
    var done: seq<Outcome>
    // where the writer stands, in the program a point of its control flow
    var at: Writer
    ghost var passed: seq<string>
    ghost var created: bool

    ghost function View(): State
      reads this
    {
      State(maxBytes, Rest, fini, streamEnded, pending, pendingBytes, wStop, at, written, file, posted, done,
            passed, created)
    }

    ghost predicate Valid()
      reads this
      ensures Valid() ==>
                && |done| <= 1 && |pending| <= 128 && Total(pending) <= 64 * 1024 * 1024
                && (forall o :: o in done && o.ok ==>
                      streamEnded && file == Some(Flatten(passed)) && (maxBytes > 0 ==> |Flatten(passed)| <= maxBytes))
                && (writerDead && |done| == 1 && created ==> (done[0].ok <==> file.Some?))
    {
      Inv(View()) && writerDead == at.Gone?
    }

    constructor (maxBytes: nat, found: Option<string>)
      ensures Valid() && View() == Start(maxBytes, found)
    {
      this.maxBytes := maxBytes;
      fini, streamEnded, pending, pendingBytes, wStop, writerDead, written := false, false, [], 0, false, false, 0;
      file, posted, done, at, passed, created := found, [], [], Opening, [], false;
    }

    method Finish(o: Outcome)
      modifies this`fini, this`done
      ensures View() == UploadSink.Finish(old(View()), o)
    {
      if fini {
        return;
      }
      fini, done := true, done + [o];
    }

    /** The loop's view of a block: queued, refused for good, or ignored. */
    method OnData(block: string)
      requires Valid() && !streamEnded
      modifies this
      ensures Valid()
      ensures View() == Step(Step(old(View()), UploadSink.OnData(block)), LoopStep)
      ensures old(fini) || old(writerDead) ==> pending == old(pending) && done == old(done)
      ensures !old(fini) && !old(writerDead) ==>
                if fini then wStop && pending == [] && done == [Outcome(false, false)]
                else pending == old(pending) + [block]
    {
      StepInv(View(), UploadSink.OnData(block));
      StepInv(Step(View(), UploadSink.OnData(block)), LoopStep);
      Queue(block);
    }

    method Queue(block: string)
      requires writerDead == at.Gone? && !streamEnded
      modifies this
      ensures View() == Step(Step(old(View()), UploadSink.OnData(block)), LoopStep) && writerDead == old(writerDead)
    {
      passed := passed + [block];
      if fini || writerDead {
        return;
      }
      if |pending| >= QUEUE_CAP || pendingBytes + |block| > QUEUE_CAP_BYTES {
        wStop, pending := true, [];
        Finish(Outcome(false, false));
        return;
      }
      pending, pendingBytes := pending + [block], pendingBytes + |block|;
    }

    method OnFinish(error: bool)
      requires Valid() && !streamEnded
      modifies this
      ensures Valid() && View() == Step(old(View()), UploadSink.OnFinish(error))
      ensures streamEnded && (error ==> fini) && (!error ==> done == old(done) && pending == old(pending))
    {
      StepInv(View(), UploadSink.OnFinish(error));
      if fini {
        streamEnded := true;
        return;
      }
      if error {
        wStop, pending := true, [];
      }
      streamEnded := true;
      if error {
        Finish(Outcome(false, false));
      }
    }

    method Deliver()
      requires Valid() && posted != []
      modifies this
      ensures Valid() && View() == Step(old(View()), UploadSink.Deliver)
      ensures fini && done == if old(fini) then old(done) else [old(posted)[0]]
    {
      StepInv(View(), UploadSink.Deliver);
      var o := posted[0];
      posted := posted[1..];
      Finish(o);
    }

    /** The writer, awake, takes the oldest block or learns that it is to end. */
    method TakeBlock() returns (item: Option<string>)
      requires Valid() && at.Waiting? && (pending != [] || wStop || streamEnded)
      modifies this
      ensures Valid() && View() == Step(old(View()), Pop)
      ensures if item.Some? then at == Holding(item.value) && [item.value] + pending == old(pending)
              else at.Ending? && pending == [] == old(pending)
      ensures file == old(file) && passed == old(passed) && wStop == old(wStop) && streamEnded == old(streamEnded)
      ensures created == old(created)
    {
      StepInv(View(), Pop);
      if pending == [] {
        at := Ending;
        return None;
      }
      item := Some(pending[0]);
      at := Holding(pending[0]);
      pendingBytes, pending := pendingBytes - |pending[0]|, pending[1..];
    }

    /** It drops the block once a stop was asked for, else writes it and looks at
        the limit. */
    method StoreBlock(item: string, diskOk: bool) returns (again: bool)
      requires Valid() && at == Holding(item)
      modifies this
      ensures Valid() && again == at.Waiting?
      ensures View() == Step(Step(old(View()), CheckStop), Write(diskOk))
      ensures at.Waiting? || at.Over? ==> diskOk && !wStop && file == Some(Content(old(file)) + item)
      ensures at.Over? ==> maxBytes > 0 && |file.value| > maxBytes
      ensures at.Leaving? ==> !diskOk && at == Leaving(Outcome(false, false))
      ensures at.Ending? ==> wStop
      ensures at.Waiting? || at.Over? || at.Leaving? || at.Ending?
      ensures passed == old(passed) && wStop == old(wStop) && streamEnded == old(streamEnded) && pending == old(pending)
      ensures created == old(created)
    {
      StoreInv(View(), diskOk);
      Store(item, diskOk);
      again := !wStop && diskOk && !(maxBytes > 0 && written > maxBytes);
    }

    method Store(item: string, diskOk: bool)
      requires at == Holding(item)
      modifies this`file, this`at, this`written
      ensures View() == Step(Step(old(View()), CheckStop), Write(diskOk))
      ensures at == if wStop then Ending
                    else if !diskOk then Leaving(Outcome(false, false))
                    else if maxBytes > 0 && written > maxBytes then Over else Waiting
      ensures at.Waiting? || at.Over? ==> file == Some(Content(old(file)) + item)
    {
      if wStop {
        at := Ending;
      } else if !diskOk {
        file, at := None, Leaving(Outcome(false, false));
      } else {
        file := Some(Content(file) + item);
        written := written + |item|;
        at := if maxBytes > 0 && written > maxBytes then Over else Waiting;
      }
    }

    /** Past the limit the rest of the queue is dropped and the file deleted. */
    method WriterGiveUp()
      requires Valid() && at.Over?
      modifies this
      ensures Valid() && writerDead && View() == Step(Step(old(View()), GiveUp), Leave)
      ensures file == None && at == Gone(Outcome(false, true)) && passed == old(passed) && created == old(created)
    {
      StepInv(View(), GiveUp);
      StepInv(Step(View(), GiveUp), Leave);
      pending, wStop := [], true;
      file := None;
      at := Gone(Outcome(false, true));
      writerDead, posted := true, posted + [Outcome(false, true)];
    }

    /** The end of the writer: the file stays only if no stop was asked for. */
    method WriterEnd()
      requires Valid() && at.Ending?
      modifies this
      ensures Valid() && writerDead && View() == Step(Step(old(View()), End), Leave)
      ensures at == Gone(Outcome(!old(wStop), false)) && passed == old(passed) && created == old(created)
      ensures file == if old(wStop) then None else old(file)
    {
      EndInvs(View());
      Conclude();
    }

    method Conclude()
      requires at.Ending?
      modifies this`file, this`at, this`writerDead, this`posted
      ensures View() == Step(Step(old(View()), End), Leave) && writerDead
      ensures at == Gone(Outcome(!wStop, false)) && file == if wStop then None else old(file)
    {
      var ok := !wStop;
      if !ok {
        file := None;
      }
      at := Gone(Outcome(ok, false));
      writerDead, posted := true, posted + [Outcome(ok, false)];
    }

    /** The writer opens the file, over whatever was there. */
    method WriterOpen(ok: bool)
      requires Valid() && at.Opening?
      modifies this
      ensures Valid() && View() == Step(old(View()), Open(ok))
      ensures if ok then at.Waiting? && created && file == Some("") else at == Leaving(Outcome(false, true))
      ensures passed == old(passed) && wStop == old(wStop) && streamEnded == old(streamEnded) && pending == old(pending)
    {
      StepInv(View(), Open(ok));
      if ok {
        file, at, created := Some(""), Waiting, true;
      } else {
        at := Leaving(Outcome(false, true));
      }
    }

    method WriterLeave()
      requires Valid() && at.Leaving?
      modifies this
      ensures Valid() && writerDead && View() == Step(old(View()), Leave)
      ensures at == Gone(old(at).outcome) && passed == old(passed) && created == old(created)
    {
      StepInv(View(), Leave);
      posted, at, writerDead := posted + [at.outcome], Gone(at.outcome), true;
    }

    /** What is in the file and what waits are the blocks passed in. */
    ghost predicate Carrying()
      reads this
    {
      at.Waiting? && (!wStop ==> file.Some? && file.value + Flatten(pending) == Flatten(passed))
    }

    /** One turn of the writer, which has been told that no more will come. */
    method WriterTurn(diskOk: bool)
      requires Valid() && Carrying() && created && (wStop || streamEnded)
      modifies this
      ensures Valid() && passed == old(passed) && created && (at.Gone? <==> writerDead)
      ensures at.Waiting? ==>
                && Carrying() && created && |pending| < |old(pending)| && diskOk
                && wStop == old(wStop) && streamEnded == old(streamEnded)
      ensures !at.Waiting? ==> at.Gone? && (!at.outcome.ok ==> old(wStop) || !diskOk || TooLong())
    {
      var item := TakeBlock();
      if item.None? {
        WriterEnd();
        return;
      }
      assert !wStop ==> Content(file) + (item.value + Flatten(pending)) == Flatten(passed);
      var again := StoreBlock(item.value, diskOk);
      if at.Over? {
        assert |file.value| + |Flatten(pending)| == |Flatten(passed)|;
        WriterGiveUp();
      } else if at.Ending? {
        WriterEnd();
      } else if at.Leaving? {
        WriterLeave();
      } else {
        assert Content(file) + Flatten(pending) == Flatten(passed);
      }
    }

    ghost predicate TooLong()
      reads this
    {
      maxBytes > 0 && |Flatten(passed)| > maxBytes
    }

    /** The whole writer, once the request has ended or was stopped: it leaves exactly the
        blocks passed in, unless a stop, the disk or the limit is against it; then no file
        that it created is left. */
    method WriterLoop(openOk: bool, disk: seq<bool>)
      requires Valid() && at.Opening? && (wStop || streamEnded) && |disk| > |pending|
      modifies this
      ensures Valid() && writerDead && at.Gone? && passed == old(passed)
      ensures at.outcome.ok ==> file == Some(Flatten(passed)) && !TooLong()
      ensures !at.outcome.ok ==> old(wStop) || !openOk || TooLong() || exists k :: 0 <= k < |disk| && !disk[k]
      ensures !at.outcome.ok && openOk ==> file == None
    {
      WriterOpen(openOk);
      if !openOk {
        WriterLeave();
        return;
      }
      var i := 0;
      while at.Waiting?
        invariant Valid() && passed == old(passed) && (at.Waiting? || (at.Gone? && writerDead))
        invariant i <= |disk| && created
        invariant at.Waiting? ==>
                    && Carrying() && (wStop || streamEnded) && wStop == old(wStop)
                    && |pending| < |disk| - i && forall k :: 0 <= k < i ==> disk[k]
        invariant at.Gone? && !at.outcome.ok ==> old(wStop) || TooLong() || exists k :: 0 <= k < |disk| && !disk[k]
        decreases at.Waiting?, |pending|
      {
        WriterTurn(disk[i]);
        i := i + 1;
      }
    }
  }
}

/** The stream sender as the program keeps it: an object whose callbacks update its
    fields. What a valid sender guarantees is said at Valid. The methods that do not
    require it are inner steps, and each says which function of StreamSender it is. */
module StreamSenderObject {
  import opened Text
  import opened Basics
  import opened StreamSender

  /** The connection and the clock, which the sender only looks at. */
  class Peer {
    var alive: bool
    var bytesSent: nat
    var nowMs: int
  }

  /** What was seen of the peer: its counter at the start and last, and when that moved. */
  datatype Meter = Meter(base: nat, lastConn: nat, lastMs: int)

  class Sender {
    const opts: Options
    const file: string
    const offset: nat
    const total: nat
    const peer: Peer
    var started: bool
    var open: bool
    var pos: nat
    var stream: bool
    var remaining: nat
    var sent: nat
    var fini: bool
    var closed: bool
    var inFlight: int
    var reading: Reading
    var timers: nat
    var meter: Meter
    var idleMs: nat
    var out: string
    var finished: nat
    ghost var looks: seq<Look>

    ghost function View(): State
      reads this, peer
    {
      State(opts, file, offset, total, started, open, pos, stream, remaining, sent, fini, closed, inFlight, reading,
            timers, peer.alive, peer.bytesSent, meter.base, meter.lastConn, meter.lastMs, peer.nowMs, idleMs, out,
            finished, looks)
    }

    ghost predicate Valid()
      reads this, peer
      ensures Valid() ==>
                && timers + inFlight <= 1 && (fini ==> timers + inFlight == 0)
                && (reading.Asked? ==> open) && (closed ==> !open && reading.Idle?)
                && sent + remaining == total && |out| == sent
                && (out != "" ==> offset + sent <= |file| && out == file[offset..offset + sent])
                && (peer.alive && opts.watermark > 0 ==>
                      sent <= (peer.bytesSent - meter.base) + opts.watermark + Chunk(opts))
                && finished == (if fini then 1 else 0)
    {
      InvSafe(View());
      Inv(View())
    }

    constructor (opts: Options, file: string, offset: nat, total: nat, peer: Peer)
      ensures Valid() && this.peer == peer
      ensures View() == Start(opts, file, offset, total, peer.alive, peer.bytesSent, peer.nowMs)
    {
      this.opts, this.file, this.offset, this.total, this.peer := opts, file, offset, total, peer;
      started, open, pos, stream, remaining, sent, fini, closed := false, false, 0, true, total, 0, false, false;
      inFlight, reading, timers, meter, idleMs := 0, Idle, 0, Meter(0, 0, 0), 0;
      out, finished, looks := "", 0, [];
    }

    method DoClose()
      modifies this
      ensures View() == StreamSender.DoClose(old(View()))
    {
      if closed {
        return;
      }
      closed := true;
      open := false;
      stream := false;
      finished := finished + 1;
    }

    method Finish()
      modifies this
      ensures View() == StreamSender.Finish(old(View()))
    {
      if fini {
        return;
      }
      fini := true;
      if inFlight == 0 {
        DoClose();
      }
    }

    /** Hands one read to the I/O thread. */
    method Submit()
      modifies this
      ensures View() == StreamSender.Submit(old(View()))
    {
      idleMs := 0;
      inFlight, reading := inFlight + 1, Asked(Want(remaining, opts));
    }

    /** Looks at the peer: gives up on one that stands still, waits for one that is behind. */
    method LookAtPeer() returns (go: bool)
      requires !fini && peer.alive
      modifies this
      ensures go ==> View() == Observe(old(View()))
      ensures View() == if go then Observe(old(View()))
                        else if Stalled(old(View())) then StreamSender.Finish(old(View()))
                        else Delay(Observe(old(View())))
      ensures go <==> !Stalled(old(View())) && !Ahead(sent, peer.bytesSent - meter.base, opts.watermark)
    {
      var sentNow := peer.bytesSent;
      if sentNow == meter.lastConn && peer.nowMs - meter.lastMs > opts.abortMs {
        Finish();
        return false;
      }
      if sentNow != meter.lastConn {
        meter := meter.(lastConn := sentNow, lastMs := peer.nowMs);
      }
      looks := looks + [Look(peer.nowMs, sentNow)];
      if Ahead(sent, sentNow - meter.base, opts.watermark) {
        idleMs, timers := Backoff(idleMs), timers + 1;
        return false;
      }
      return true;
    }

    method Next()
      modifies this
      ensures View() == StreamSender.Next(old(View()))
    {
      if fini {
      } else if !stream || remaining == 0 {
        Finish();
      } else {
        var go := true;
        if peer.alive {
          go := LookAtPeer();
        }
        if go {
          Submit();
        }
      }
    }

    method Position()
      modifies this
      ensures View() == Begin(old(View()))
    {
      started, open, pos, meter := true, true, offset, meter.(lastMs := peer.nowMs);
      if peer.alive {
        meter := meter.(lastConn := peer.bytesSent, base := peer.bytesSent);
      }
    }

    method Open(openOk: bool, seekOk: bool)
      modifies this
      ensures View() == RunFile(old(View()), openOk, seekOk)
    {
      if !openOk {
        started := true;
        Finish();
      } else if offset > 0 && !seekOk {
        started, open := true, true;
        Finish();
      } else {
        Position();
        Next();
      }
    }

    method Run(openOk: bool, seekOk: bool)
      requires Valid() && !started
      modifies this
      ensures Valid() && View() == Step(old(View()), RunIt(openOk, seekOk))
      ensures out == "" && started && (!openOk ==> fini)
    {
      StepInv(View(), RunIt(openOk, seekOk));
      Open(openOk, seekOk);
    }

    /** The timer that was set fires. */
    method OnTimer()
      requires Valid() && timers > 0
      modifies this
      ensures Valid() && View() == Step(old(View()), Timer)
      ensures out == old(out) && (fini || timers + inFlight == 1)
    {
      StepInv(View(), Timer);
      timers := timers - 1;
      Next();
    }

    /** On the I/O thread: at most `k` bytes come back. */
    method ReadChunk(k: nat)
      requires Valid() && reading.Asked?
      modifies this
      ensures Valid() && View() == Step(old(View()), Read(k))
      ensures reading.Answered? && out == old(out)
      ensures reading.block.Some? ==>
                pos <= |file| && reading.block.value == file[old(pos)..pos] && 0 < |reading.block.value| <= k
    {
      StepInv(View(), Read(k));
      var n := Available(file, pos, reading.want, k);
      reading := Answered(if n == 0 then None else Some(file[pos..pos + n]));
      pos := pos + n;
      assert View() == Step(old(View()), Read(k));
    }

    /** A block went out. */
    method Advance(block: string)
      requires remaining >= |block|
      modifies this
      ensures View() == StreamSender.Advance(old(View()), block)
    {
      remaining, sent, out := remaining - |block|, sent + |block|, out + block;
      assert View() == Hand(old(View()), block);
      if remaining == 0 {
        Finish();
      } else {
        timers := timers + 1;
      }
    }

    method Settle(block: Option<string>, sendOk: bool)
      requires block.Some? ==> remaining >= |block.value|
      modifies this
      ensures View() == StreamSender.OnReadDone(old(View()), block, sendOk)
    {
      inFlight, reading := inFlight - 1, Idle;
      if fini {
        if inFlight == 0 {
          DoClose();
        }
      } else if block.None? || !stream || !sendOk {
        Finish();
      } else {
        Advance(block.value);
      }
    }

    /** The block that was read goes out, or the run ends. */
    method OnReadDone(sendOk: bool)
      requires Valid() && reading.Answered?
      modifies this
      ensures Valid() && View() == Step(old(View()), ReadDone(sendOk))
      ensures out == if old(reading).block.Some? && sendOk then old(out) + old(reading).block.value else old(out)
      ensures fini || (timers == 1 && inFlight == 0)
    {
      StepInv(View(), ReadDone(sendOk));
      Settle(reading.block, sendOk);
    }
  }
}

/** The part of a download session that reads body bytes, as the program keeps
    it: an object whose fields the callbacks update, with the decoding loops and
    the bounded queue. What it does to the queue is stated by the decoder of
    ChunkedBody, whatever that decoder makes of the bytes. */
module DownloadChannel {
  import opened Text
  import opened ChunkedBody
  import opened DownloadSession

  /** The bytes the Write actions of a queue carry. */
  function Payload(q: seq<Action>): string {
    if q == [] then ""
    else
      var a := q[|q| - 1];
      Payload(q[..|q| - 1]) + if a.Write? then a.data else ""
  }

  lemma PayloadSnoc(q: seq<Action>, a: Action)
    ensures Payload(q + [a]) == Payload(q) + (if a.Write? then a.data else "")
    ensures QBytes(q + [a]) == QBytes(q) + a.Bytes()
  {
    assert (q + [a])[..|q|] == q;
  }

  /** `q` is `before` with slices of at most `limit` bytes behind it, carrying `data`. */
  predicate Extends(before: seq<Action>, q: seq<Action>, limit: nat, data: string) {
    && before <= q
    && (forall i :: |before| <= i < |q| ==> q[i].Write? && 0 < |q[i].data| <= limit)
    && Payload(q) == Payload(before) + data
  }

  lemma ExtendsNothing(q: seq<Action>, limit: nat)
    ensures Extends(q, q, limit, Flatten([]))
  {
    assert Payload(q) + "" == Payload(q);
  }

  lemma ExtendsOne(before: seq<Action>, q: seq<Action>, limit: nat, data: string, slice: string)
    requires Extends(before, q, limit, data) && 0 < |slice| <= limit
    ensures Extends(before, q + [Write(slice)], limit, data + slice)
  {
    PayloadSnoc(q, Write(slice));
    assert Payload(before) + data + slice == Payload(before) + (data + slice);
  }

  class BodyReader {
    const cfg: Config
    const quotaBase: nat
    var pendingBuf: string
    var chunkPendingSize: nat
    var chunkTerminated: bool
    var received: nat
    var cursor: nat
    var finished: bool
    var why: Why
    var writerStop: bool
    var q: seq<Action>
    var qBytes: nat

    ghost predicate Valid()
      reads this
    {
      cfg.Valid() && qBytes == QBytes(q)
    }

    ghost function Dec(): Decoder
      reads this
    {
      Decoder(pendingBuf, chunkPendingSize)
    }

    constructor (cfg: Config, quotaBase: nat, resumedFrom: nat)
      requires cfg.Valid()
      ensures Valid() && Dec() == Fresh && !chunkTerminated && q == [] && !finished && !writerStop
      ensures this.cfg == cfg && this.quotaBase == quotaBase && received == 0 && cursor == resumedFrom
    {
      this.cfg, this.quotaBase := cfg, quotaBase;
      pendingBuf, chunkPendingSize, chunkTerminated, received := "", NO_SIZE, false, 0;
      cursor, finished, why, writerStop, q, qBytes := resumedFrom, false, GaveUp, false, [], 0;
    }

    /** Refused once the writer is told to stop, once the gate is closed unless
        terminal, and when a plain action would overfill the queue. */
    method EnqueueAction(a: Action, force: bool) returns (ok: bool)
      requires Valid()
      modifies this`q, this`qBytes
      ensures Valid()
      ensures ok <==> && !writerStop && (finished ==> a.Terminal())
                      && (force || a.Terminal() || QBytes(old(q)) + a.Bytes() <= cfg.qCap)
      ensures q == if ok then old(q) + [a] else old(q)
    {
      var terminal := a.Finish? || a.Abort?;
      if writerStop || (finished && !terminal) || (!force && !terminal && qBytes + a.Bytes() > cfg.qCap) {
        return false;
      }
      PayloadSnoc(q, a);
      qBytes := qBytes + a.Bytes();
      q := q + [a];
      return true;
    }

    /** Closes the gate once; the first cause given is the one reported. */
    method Fail(reason: Why)
      requires Valid()
      modifies this`finished, this`why, this`q, this`qBytes
      ensures Valid() && finished
      ensures why == if old(finished) then old(why) else reason
      ensures q == if old(finished) || writerStop then old(q) else old(q) + [Abort(reason)]
    {
      if finished {
        return;
      }
      finished, why := true, reason;
      var _ := EnqueueAction(Abort(reason), true);
    }

    method EnqueueWrite(data: string) returns (ok: bool)
      requires Valid() && !finished
      modifies this`finished, this`why, this`q, this`qBytes, this`cursor
      ensures Valid() && ok == !finished
      ensures ok <==> !writerStop && QBytes(old(q)) + |data| <= cfg.qCap
      ensures ok ==> q == old(q) + [Write(data)] && cursor == old(cursor) + |data|
      ensures !ok ==> why == Backlog && cursor == old(cursor)
      ensures !ok ==> q == if writerStop then old(q) else old(q) + [Abort(Backlog)]
    {
      ok := EnqueueAction(Write(data), false);
      if ok {
        cursor := cursor + |data|;
      } else {
        Fail(Backlog);
      }
    }

    /** Hands `pendingBuf[..size]` over in slices; a full queue ends the transfer. */
    method HandOver(size: nat)
      requires Valid() && !finished && size <= |pendingBuf|
      modifies this`finished, this`why, this`q, this`qBytes, this`cursor
      ensures Valid()
      ensures !finished ==> Extends(old(q), q, cfg.chunkBytes, pendingBuf[..size]) && cursor == old(cursor) + size
      ensures finished ==> why == Backlog
    {
      var off := 0;
      while off < size
        invariant Valid() && !finished && 0 <= off <= size && cursor == old(cursor) + off
        invariant Extends(old(q), q, cfg.chunkBytes, pendingBuf[..off])
      {
        var n := if size - off < cfg.chunkBytes then size - off else cfg.chunkBytes;
        var slice := pendingBuf[off..off + n];
        ExtendsOne(old(q), q, cfg.chunkBytes, pendingBuf[..off], slice);
        assert pendingBuf[..off] + slice == pendingBuf[..off + n];
        var ok := EnqueueWrite(slice);
        if !ok {
          return;
        }
        off := off + n;
      }
    }

    /** A whole chunk leaves the pending buffer for the queue, within the quota. */
    method TakeChunk()
      requires Valid() && !finished && 0 < chunkPendingSize != NO_SIZE && chunkPendingSize + 2 <= |pendingBuf|
      modifies this
      ensures Valid() && writerStop == old(writerStop) && chunkTerminated == old(chunkTerminated)
      ensures !finished ==>
                && Dec() == Decoder(old(pendingBuf)[old(chunkPendingSize) + 2..], NO_SIZE)
                && Extends(old(q), q, cfg.chunkBytes, old(pendingBuf)[..old(chunkPendingSize)])
                && cursor == old(cursor) + old(chunkPendingSize) && received == old(received) + old(chunkPendingSize)
                && !(cfg.maxBytes > 0 && quotaBase + received > cfg.maxBytes)
      ensures finished ==> why == Backlog || why == Quota
    {
      var size := chunkPendingSize;
      HandOver(size);
      if finished {
        return;
      }
      received := received + size;
      if cfg.maxBytes > 0 && quotaBase + received > cfg.maxBytes {
        Fail(Quota);
        return;
      }
      pendingBuf, chunkPendingSize := pendingBuf[size + 2..], NO_SIZE;
    }

    /** One turn of the decoding loop: what Next says of the pending bytes. */
    method Turn() returns (again: bool)
      requires Valid() && !finished
      modifies this
      ensures Valid() && writerStop == old(writerStop) && (again ==> !finished)
      ensures match Next(old(Dec()), cfg.qCap)
              case Go(d, out) =>
                chunkTerminated == old(chunkTerminated) && again == !finished
                && (if finished then why == Backlog || why == Quota
                    else Dec() == d && Extends(old(q), q, cfg.chunkBytes, Flatten(out))
                         && cursor == old(cursor) + |Flatten(out)| && received == old(received) + |Flatten(out)|)
              case Stop(d, Bad(e)) => !again && finished && why == BadChunk(e)
              case Stop(d, status) =>
                !again && !finished && Dec() == d && q == old(q) && cursor == old(cursor) && received == old(received)
                && chunkTerminated == (old(chunkTerminated) || status.Done?)
    {
      if chunkPendingSize == NO_SIZE {
        var lineEnd := FindCrlf(pendingBuf);
        if lineEnd == NPOS {
          if |pendingBuf| > 128 {
            Fail(BadChunk(LineTooLong));
          }
          return false;
        }
        match ParseSize(pendingBuf[..lineEnd], cfg.qCap)
        case BadSize(e) =>
          Fail(BadChunk(e));
          return false;
        case Size(n) =>
          ExtendsNothing(q, cfg.chunkBytes);
          chunkPendingSize, pendingBuf := n, pendingBuf[lineEnd + 2..];
          return true;
      } else if chunkPendingSize == 0 {
        pendingBuf, chunkTerminated := "", true;
        return false;
      } else if |pendingBuf| < chunkPendingSize + 2 {
        return false;
      } else if !CrlfAt(pendingBuf, chunkPendingSize) {
        Fail(BadChunk(NoCrlf));
        return false;
      }
      FlattenOne(pendingBuf[..chunkPendingSize]);
      TakeChunk();
      return !finished;
    }

    /** The transfer was given up, or the queue has grown by exactly the decoder's
        output `r`, the decoder's state is kept, and the counters follow. */
    ghost predicate Handled(q0: seq<Action>, cursor0: nat, received0: nat, terminated0: bool, r: Progress)
      reads this
    {
      if !finished then
        && !r.status.Bad? && Dec() == r.dec && chunkTerminated == (terminated0 || r.status.Done?)
        && Extends(q0, q, cfg.chunkBytes, Flatten(r.out))
        && cursor == cursor0 + |Flatten(r.out)| && received == received0 + |Flatten(r.out)|
      else why == Backlog || why == Quota || (why.BadChunk? && r.status == Bad(why.error))
    }

    /** Chunked framing does with the pending bytes and the new ones exactly what
        the decoder says; a framing error is the decoder's. */
    method HandleChunked(data: string)
      requires Valid() && !finished && data != ""
      modifies this
      ensures Valid() && writerStop == old(writerStop)
      ensures Handled(old(q), old(cursor), old(received), old(chunkTerminated),
                      Decode(old(Dec()).Append(data), cfg.qCap))
    {
      pendingBuf := pendingBuf + data;
      ghost var start, done := Dec(), [];
      AfterAfter(Decode(start, cfg.qCap), [], []);
      ExtendsNothing(q, cfg.chunkBytes);
      var again := true;
      while again
        invariant Valid() && writerStop == old(writerStop)
        invariant again ==>
            && !finished && chunkTerminated == old(chunkTerminated)
            && Decode(start, cfg.qCap) == Decode(Dec(), cfg.qCap).After(done)
            && Extends(old(q), q, cfg.chunkBytes, Flatten(done))
            && cursor == old(cursor) + |Flatten(done)| && received == old(received) + |Flatten(done)|
        invariant !again ==> Handled(old(q), old(cursor), old(received), old(chunkTerminated), Decode(start, cfg.qCap))
        decreases again, |pendingBuf|
      {
        ghost var before, dec := q, Dec();
        again := Turn();
        match Next(dec, cfg.qCap)
        case Stop(d, status) =>
          assert done + [] == done;
        case Go(d, out) =>
          if !finished {
            AfterAfter(Decode(d, cfg.qCap), done, out);
            ExtendsBoth(old(q), before, q, cfg.chunkBytes, Flatten(done), Flatten(out));
            FlattenConcat(done, out);
            done := done + out;
          }
      }
    }

    /** Whole slices of the pending buffer go to the queue, the rest stays. */
    method Aggregate() returns (ghost sent: string)
      requires Valid() && !finished
      modifies this`finished, this`why, this`q, this`qBytes, this`cursor, this`pendingBuf
      ensures Valid()
      ensures !finished ==>
                && |pendingBuf| < cfg.chunkBytes && sent + pendingBuf == old(pendingBuf)
                && Extends(old(q), q, cfg.chunkBytes, sent) && cursor == old(cursor) + |sent|
      ensures finished ==> why == Backlog
    {
      sent := "";
      assert Payload(q) + sent == Payload(q);
      while |pendingBuf| >= cfg.chunkBytes
        invariant Valid() && !finished
        invariant sent + pendingBuf == old(pendingBuf) && cursor == old(cursor) + |sent|
        invariant Extends(old(q), q, cfg.chunkBytes, sent)
        decreases |pendingBuf|
      {
        var slice := pendingBuf[..cfg.chunkBytes];
        ExtendsOne(old(q), q, cfg.chunkBytes, sent, slice);
        var ok := EnqueueWrite(slice);
        if !ok {
          return;
        }
        assert sent + slice + pendingBuf[cfg.chunkBytes..] == sent + pendingBuf;
        sent := sent + slice;
        pendingBuf := pendingBuf[cfg.chunkBytes..];
      }
    }

    /** Framing by length or by the end of the connection. */
    method HandlePlain(data: string, hasLength: bool, length: nat) returns (ghost sent: string)
      requires Valid() && !finished && data != ""
      modifies this
      ensures Valid() && writerStop == old(writerStop) && received == old(received) + |data|
      ensures !finished ==>
                && (hasLength ==> received <= length) && (cfg.maxBytes > 0 ==> quotaBase + received <= cfg.maxBytes)
                && |pendingBuf| < cfg.chunkBytes && sent + pendingBuf == old(pendingBuf) + data
                && Extends(old(q), q, cfg.chunkBytes, sent) && cursor == old(cursor) + |sent|
      ensures finished ==>
                || why == Backlog
                || (why == TooLong && hasLength && received > length)
                || (why == Quota && cfg.maxBytes > 0 && quotaBase + received > cfg.maxBytes)
    {
      sent := "";
      received := received + |data|;
      if hasLength && received > length {
        Fail(TooLong);
        return;
      }
      if cfg.maxBytes > 0 && quotaBase + received > cfg.maxBytes {
        Fail(Quota);
        return;
      }
      pendingBuf := pendingBuf + data;
      sent := Aggregate();
    }

    /** The end of a transfer: the residue is queued before the gate closes, and
        the Finish action carries the cursor. */
    method Complete()
      requires Valid()
      modifies this
      ensures Valid() && writerStop == old(writerStop)
      ensures old(finished) ==> q == old(q) && finished
      ensures !old(finished) ==>
                finished && pendingBuf == "" && cursor == old(cursor) + |old(pendingBuf)|
                && q == (if writerStop then old(q)
                         else old(q) + (if old(pendingBuf) == "" then [] else [Write(old(pendingBuf))]) + [Finish(cursor)])
    {
      if finished {
        return;
      }
      if pendingBuf != "" {
        cursor := cursor + |pendingBuf|;
        var _ := EnqueueAction(Write(pendingBuf), true);
        pendingBuf := "";
      }
      finished := true;
      var _ := EnqueueAction(Finish(cursor), true);
    }
  }

  lemma ExtendsBoth(a: seq<Action>, b: seq<Action>, c: seq<Action>, limit: nat, x: string, y: string)
    requires Extends(a, b, limit, x) && Extends(b, c, limit, y)
    ensures Extends(a, c, limit, x + y)
  {
    assert Payload(a) + x + y == Payload(a) + (x + y);
    assert forall i :: |a| <= i < |b| ==> c[i] == b[i];
  }
}

/** What every interleaving of a download session keeps. */
module DownloadSafety {
  import opened Text
  import opened ChunkedBody
  import opened ResponseHead
  import opened DownloadSession

  // ----- The queue as a plan for the file

  /** The action in the writer's hands and those still queued. */
  function Pending(s: State): seq<Action> {
    (if s.writer.Busy? then [s.writer.action] else []) + s.q
  }

  function Effects(content: string, actions: seq<Action>): string {
    if actions == [] then content
    else Effect(Effects(content, actions[..|actions| - 1]), actions[|actions| - 1])
  }

  lemma EffectsSnoc(content: string, actions: seq<Action>, a: Action)
    ensures Effects(content, actions + [a]) == Effect(Effects(content, actions), a)
  {
    assert (actions + [a])[..|actions|] == actions;
  }

  lemma EffectsOne(content: string, a: Action)
    ensures Effects(content, [a]) == Effect(content, a)
  {
    EffectsSnoc(content, [], a);
    assert [] + [a] == [a];
  }

  lemma {:induction false} EffectsFront(content: string, a: Action, actions: seq<Action>)
    ensures Effects(content, [a] + actions) == Effects(Effect(content, a), actions)
    decreases |actions|
  {
    if actions == [] {
      EffectsSnoc(content, [], a);
      assert [] + [a] == [a] + actions;
    } else {
      var front, last := actions[..|actions| - 1], actions[|actions| - 1];
      EffectsFront(content, a, front);
      EffectsSnoc(content, [a] + front, last);
      assert [a] + actions == [a] + front + [last];
    }
  }

  // ----- The one-shot gate

  /** A terminal action can only stand last, and only once the gate is closed. */
  predicate TerminalsLast(p: seq<Action>, closed: bool) {
    forall i :: 0 <= i < |p| && p[i].Terminal() ==> i == |p| - 1 && closed
  }

  predicate EndsTerminal(p: seq<Action>) { p != [] && p[|p| - 1].Terminal() }

  lemma TerminalsTail(a: Action, p: seq<Action>, closed: bool)
    requires TerminalsLast([a] + p, closed)
    ensures TerminalsLast(p, closed) && (a.Terminal() ==> p == [])
    ensures EndsTerminal([a] + p) && !a.Terminal() ==> EndsTerminal(p)
  {
    assert forall i :: 0 <= i < |p| ==> p[i] == ([a] + p)[i + 1];
    assert ([a] + p)[0] == a;
  }

  predicate GateInv(s: State) {
    && (s.finished <==> s.gated || s.writer.Ended?)
    && (s.gated ==> s.pc.Rest? || s.pc.AtTerminal?)
    && (s.pc.AtTerminal? ==> s.gated && s.pc.action.Terminal())
    && |s.delivered| == (if s.writer.Ended? then 1 else 0)
    && TerminalsLast(Pending(s), s.gated && s.pc.Rest?)
    && (s.gated && s.pc.Rest? && !s.writerStop && !s.writer.Ended? ==> EndsTerminal(Pending(s)))
  }

  lemma PendingGrows(s: State, t: State, a: Action)
    requires t.writer == s.writer && t.q == s.q + [a]
    ensures Pending(t) == Pending(s) + [a]
  {
  }

  lemma GateLoop(s: State, t: State)
    requires GateInv(s) && LoopFrame(s, t) && !s.pc.AtTerminal? && (s.gated ==> t == s)
    ensures GateInv(t)
  {
    if Queued(s, t) {
      PendingGrows(s, t, t.q[|s.q|]);
    } else if t != s {
      assert Pending(t) == Pending(s);
    }
  }

  lemma GateTerminal(s: State)
    requires s.cfg.Valid() && GateInv(s) && s.pc.AtTerminal?
    ensures GateInv(DoLoopStep(s))
  {
    var t := DoLoopStep(s);
    if Admits(s, s.pc.action, true) {
      PendingGrows(s, t, s.pc.action);
    } else {
      assert Pending(t) == Pending(s);
    }
  }

  lemma PendingTake(s: State)
    ensures Pending(Take(s)) == Pending(s)
  {
    assert s.q != [] ==> [s.q[0]] + s.q[1..] == s.q;
  }

  lemma GateTake(s: State, t: State)
    requires GateInv(s) && WriterFrame(s, t) && Pending(t) == Pending(s)
    ensures GateInv(t)
  {
  }

  lemma GateDid(s: State, t: State)
    requires GateInv(s) && s.writer.Busy? && WriterFrame(s, t) && t.q == s.q && !t.writer.Busy?
    requires s.writer.action.Terminal() ==> t.writer.Ended?
    ensures GateInv(t)
  {
    TerminalsTail(s.writer.action, s.q, s.gated && s.pc.Rest?);
    assert Pending(t) == s.q;
  }

  /** Every event keeps the one-shot gate: at most one terminal action is ever
      enqueued, nothing follows it, and the writer delivers at most once. */
  lemma GateStep(s: State, e: Event)
    requires s.cfg.Valid() && GateInv(s)
    ensures GateInv(Step(s, e))
  {
    match e
    case WriterTake => PendingTake(s); GateTake(s, Take(s));
    case WriterDid(res) => if s.writer.Busy? { GateDid(s, Did(s, res)); }
    case Shutdown => assert Pending(Step(s, e)) == Pending(s);
    case LoopStep =>
      if s.pc.AtTerminal? { GateTerminal(s); } else { GateLoop(s, DoLoopStep(s)); }
    case _ => if s.pc.Rest? && !s.finished { GateLoop(s, Handle(s, e)); }
  }
}

/** The timers of an event loop, with every call made on the loop thread: an entry and
    its event outlive the callback that may be running from them, and are reclaimed by
    the next dispatch. Touching what is gone is modelled as a fault. */
module TimerRegistry {
  type Id = nat
  type Ev = nat

  datatype Entry = Entry(ev: Ev, intervalMs: int, repeat: bool, retired: bool)

  /** `armed` are the events that may be dispatched, `freed` those given back, in order,
      `ids` the entry each event was made for; `faulted` is set by any use of an event
      or entry that is gone. */
  datatype State = State(
    looped: bool, nextId: Id, timers: map<Id, Entry>, retired: seq<Id>, running: Id, once: bool,
    nextEv: Ev, ids: map<Ev, Id>, armed: set<Ev>, freed: seq<Ev>, faulted: bool)

  function Start(): State { State(true, 1, map[], [], 0, false, 0, map[], {}, [], false) }

  datatype Event =
    | Add(intervalMs: int, hasCallback: bool, repeat: bool, made: bool, armedOk: bool)
    | Stop(id: Id)
    | Arm(id: Id, ok: bool)
    | SetInterval(id: Id, intervalMs: int, ok: bool)
    | Remove(id: Id)
    | Dispatch(ev: Ev)
    | Return
    | Exit(order: seq<Id>)

  // ----- The event library

  function Check(s: State, ev: Ev): State { if ev in s.freed then s.(faulted := true) else s }

  function Del(s: State, ev: Ev): State { Check(s, ev).(armed := s.armed - {ev}) }

  function Free(s: State, ev: Ev): State { Del(s, ev).(freed := s.freed + [ev]) }

  function ArmEvent(s: State, ev: Ev, ok: bool): State {
    if ok then Del(s, ev).(armed := s.armed + {ev}) else Del(s, ev)
  }

  // ----- The registry

  predicate Found(s: State, id: Id) { id in s.timers && !s.timers[id].retired }

  function Erase(s: State, id: Id): State { s.(timers := s.timers - {id}) }

  /** A new entry with an event of its own. */
  function Register(s: State, intervalMs: int, repeat: bool): State {
    var id, ev := s.nextId, s.nextEv;
    s.(nextId := id + 1, nextEv := ev + 1, ids := s.ids[ev := id],
       timers := s.timers[id := Entry(ev, intervalMs, repeat, false)])
  }

  /** A timer that cannot be armed goes again. */
  function ArmNew(s: State, id: Id, ev: Ev, armedOk: bool): State {
    var t := ArmEvent(s, ev, armedOk);
    if armedOk then t else Erase(Free(t, ev), id)
  }

  function AddTimer(s: State, intervalMs: int, hasCallback: bool, repeat: bool, made: bool, armedOk: bool): State {
    if intervalMs <= 0 || !hasCallback || !s.looped then s
    else if !made then s.(nextId := s.nextId + 1)
    else ArmNew(Register(s, intervalMs, repeat), s.nextId, s.nextEv, armedOk)
  }

  function StopTimer(s: State, id: Id): State {
    if Found(s, id) && s.timers[id].ev in s.armed then Del(s, s.timers[id].ev) else s
  }

  function ArmTimer(s: State, id: Id, ok: bool): State {
    if Found(s, id) then ArmEvent(s, s.timers[id].ev, ok) else s
  }

  function SetTimerInterval(s: State, id: Id, intervalMs: int, ok: bool): State {
    if intervalMs <= 0 || !Found(s, id) then s
    else
      var e := s.timers[id];
      var t := s.(timers := s.timers[id := e.(intervalMs := intervalMs)]);
      if e.ev in s.armed then ArmEvent(t, e.ev, ok) else t
  }

  function Retire(s: State, id: Id): State
    requires id in s.timers
  {
    s.(timers := s.timers[id := s.timers[id].(retired := true)])
  }

  /** A timer whose callback is running keeps its entry and event until the next dispatch. */
  function RemoveTimer(s: State, id: Id): State {
    if !Found(s, id) then s
    else
      var ev := s.timers[id].ev;
      var t := Del(Retire(s, id), ev);
      if s.running == id then t.(retired := t.retired + [id]) else Erase(Free(t, ev), id)
  }

  /** Frees what is retired, except the timer being dispatched. */
  function Drain(s: State, list: seq<Id>, runningId: Id): State
    decreases |list|
  {
    if list == [] then s
    else
      var id := list[0];
      if id == runningId then Drain(s.(retired := s.retired + [id]), list[1..], runningId)
      else if id !in s.timers then Drain(s, list[1..], runningId)
      else Drain(Erase(Free(s, s.timers[id].ev), id), list[1..], runningId)
  }

  /** The entry the event was made for is there and has it. */
  predicate Owns(s: State, ev: Ev) {
    ev in s.ids && s.ids[ev] in s.timers && s.timers[s.ids[ev]].ev == ev
  }

  /** The retired are reclaimed and the callback begins. */
  function Fire(s: State, id: Id): State
    requires id in s.timers
  {
    var e := s.timers[id];
    var t := s.(armed := if e.repeat then s.armed else s.armed - {e.ev}, retired := []);
    Drain(t, s.retired, id).(running := id, once := !e.repeat)
  }

  /** An event fires: its entry is read. */
  function DispatchEvent(s: State, ev: Ev): State {
    if s.running != 0 || ev !in s.armed then s
    else if !Owns(s, ev) then s.(faulted := true)
    else Fire(s, s.ids[ev])
  }

  /** The callback is over: a timer that fires once retires. The entry is read again. */
  function ReturnFrom(s: State): State {
    if s.running == 0 then s
    else if s.running !in s.timers then s.(faulted := true)
    else
      var id := s.running;
      var t := if s.once && !s.timers[id].retired
               then Del(Retire(s, id), s.timers[id].ev).(retired := s.retired + [id])
               else s;
      t.(running := 0)
  }

  /** Frees the event of every entry. */
  function FreeAll(s: State, ids: seq<Id>): State
    decreases |ids|
  {
    if ids == [] then s
    else FreeAll(if ids[0] in s.timers then Erase(Free(s, s.timers[ids[0]].ev), ids[0]) else s, ids[1..])
  }

  predicate Lists(order: seq<Id>, timers: map<Id, Entry>) { forall id :: id in timers ==> id in order }

  /** The loop has ended, so nothing is on the stack; `order` is how the map lists its keys. */
  function ExitLoop(s: State, order: seq<Id>): State {
    if s.running != 0 || !Lists(order, s.timers) then s
    else FreeAll(s.(looped := false), order).(retired := [], nextId := 1)
  }

  function Step(s: State, e: Event): State {
    match e
    case Add(ms, hasCallback, repeat, made, armedOk) => AddTimer(s, ms, hasCallback, repeat, made, armedOk)
    case Stop(id) => StopTimer(s, id)
    case Arm(id, ok) => ArmTimer(s, id, ok)
    case SetInterval(id, ms, ok) => SetTimerInterval(s, id, ms, ok)
    case Remove(id) => RemoveTimer(s, id)
    case Dispatch(ev) => DispatchEvent(s, ev)
    case Return => ReturnFrom(s)
    case Exit(order) => ExitLoop(s, order)
  }

  function Run(s: State, es: seq<Event>): State
    decreases |es|
  {
    if es == [] then s else Run(Step(s, es[0]), es[1..])
  }

  // ----- What every run keeps

  /** Every event made belongs to one entry or was freed once; only the event of an entry
      that is not retired can fire. */
  predicate EventInv(s: State) {
    && (forall id :: id in s.timers ==> 0 < id < s.nextId && Owned(s, id))
    && (forall ev :: ev in s.armed ==> Owns(s, ev))
    && (forall ev :: 0 <= ev < s.nextEv ==> ev in s.freed || Owns(s, ev))
    && (forall ev :: ev in s.freed ==> ev < s.nextEv)
    && (forall i, j :: 0 <= i < j < |s.freed| ==> s.freed[i] != s.freed[j])
    && s.nextId > 0 && !s.faulted
  }

  predicate Owned(s: State, id: Id)
    requires id in s.timers
  {
    var e := s.timers[id];
    e.ev < s.nextEv && e.ev in s.ids && s.ids[e.ev] == id && e.ev !in s.freed && (e.retired ==> e.ev !in s.armed)
  }

  /** The retired entries are those listed, at most the one whose callback ran last; the
      entry of a running callback is there. */
  predicate RetiredInv(s: State) {
    && (forall id :: id in s.timers ==> (s.timers[id].retired <==> id in s.retired))
    && (forall id :: id in s.retired ==> id in s.timers)
    && |s.retired| <= 1
    && (s.running != 0 ==> s.running in s.timers && (s.retired == [] || s.retired == [s.running]))
  }

  predicate Inv(s: State) { EventInv(s) && RetiredInv(s) }

  lemma StartInv()
    ensures Inv(Start())
  {
  }

  lemma DelInv(s: State, id: Id)
    requires EventInv(s) && id in s.timers
    ensures EventInv(Del(s, s.timers[id].ev)) && s.timers[id].ev !in Del(s, s.timers[id].ev).armed
    ensures Del(s, s.timers[id].ev) == s.(armed := s.armed - {s.timers[id].ev})
  {
  }

  lemma ArmInv(s: State, id: Id, ok: bool)
    requires EventInv(s) && Found(s, id)
    ensures EventInv(ArmEvent(s, s.timers[id].ev, ok))
  {
  }

  /** An entry goes together with its event. */
  lemma EraseInv(s: State, id: Id)
    requires EventInv(s) && id in s.timers
    ensures EventInv(Erase(Free(s, s.timers[id].ev), id))
  {
    var ev := s.timers[id].ev;
    var t := Erase(Free(s, ev), id);
    assert t.freed == s.freed + [ev];
    forall x | x in t.armed ensures Owns(t, x) {
      assert Owns(s, x);
    }
    forall x | 0 <= x < t.nextEv ensures x in t.freed || Owns(t, x) {
      assert x in s.freed || Owns(s, x);
    }
  }

  lemma RetireInv(s: State, id: Id)
    requires EventInv(s) && id in s.timers
    ensures EventInv(Del(Retire(s, id), s.timers[id].ev))
  {
    var t := Del(Retire(s, id), s.timers[id].ev);
    forall x | x in t.armed ensures Owns(t, x) {
      assert Owns(s, x);
    }
    forall x | 0 <= x < t.nextEv ensures x in t.freed || Owns(t, x) {
      assert x in s.freed || Owns(s, x);
    }
  }

  lemma RegisterInv(s: State, ms: int, repeat: bool)
    requires EventInv(s)
    ensures EventInv(Register(s, ms, repeat)) && s.nextId !in s.timers
  {
    var id, ev := s.nextId, s.nextEv;
    var t := Register(s, ms, repeat);
    assert ev !in s.freed && id !in s.timers;
    forall k | k in t.timers ensures 0 < k < t.nextId && Owned(t, k) {
      if k != id {
        assert Owned(s, k);
      } else if ev in s.armed {
        assert Owns(s, ev);
      }
    }
    forall x | x in t.armed ensures Owns(t, x) {
      assert Owns(s, x);
    }
    forall x | 0 <= x < t.nextEv ensures x in t.freed || Owns(t, x) {
      if x != ev {
        assert x in s.freed || Owns(s, x);
      }
    }
  }

  lemma ArmNewInv(s: State, id: Id, armedOk: bool)
    requires Inv(s) && Found(s, id) && s.running != id
    ensures Inv(ArmNew(s, id, s.timers[id].ev, armedOk))
  {
    ArmInv(s, id, armedOk);
    if !armedOk {
      EraseInv(ArmEvent(s, s.timers[id].ev, armedOk), id);
    }
  }

  lemma AddTimerInv(s: State, ms: int, hasCallback: bool, repeat: bool, made: bool, armedOk: bool)
    requires Inv(s)
    ensures Inv(AddTimer(s, ms, hasCallback, repeat, made, armedOk))
  {
    if ms > 0 && hasCallback && s.looped && made {
      RegisterInv(s, ms, repeat);
      ArmNewInv(Register(s, ms, repeat), s.nextId, armedOk);
    }
  }

  /** A timer that was made and armed is a new one, found and armed. */
  lemma AddFinds(s: State, ms: int, repeat: bool)
    requires Inv(s) && ms > 0 && s.looped
    ensures var t := AddTimer(s, ms, true, repeat, true, true);
            s.nextId !in s.timers && Found(t, s.nextId) && t.timers[s.nextId].ev in t.armed
  {
    RegisterInv(s, ms, repeat);
  }

  lemma IntervalInv(s: State, id: Id, ms: int)
    requires Inv(s) && Found(s, id)
    ensures Inv(s.(timers := s.timers[id := s.timers[id].(intervalMs := ms)]))
  {
    var t := s.(timers := s.timers[id := s.timers[id].(intervalMs := ms)]);
    forall x | x in t.armed ensures Owns(t, x) {
      assert Owns(s, x);
    }
    forall x | 0 <= x < t.nextEv ensures x in t.freed || Owns(t, x) {
      assert x in s.freed || Owns(s, x);
    }
  }

  lemma CallInv(s: State, e: Event)
    requires Inv(s) && (e.Stop? || e.Arm? || e.SetInterval?)
    ensures Inv(Step(s, e))
  {
    match e
    case Stop(id) => if Found(s, id) { DelInv(s, id); }
    case Arm(id, ok) => if Found(s, id) { ArmInv(s, id, ok); }
    case SetInterval(id, ms, ok) =>
      if ms > 0 && Found(s, id) {
        IntervalInv(s, id, ms);
        ArmInv(s.(timers := s.timers[id := s.timers[id].(intervalMs := ms)]), id, ok);
      }
  }

  lemma RemoveInv(s: State, id: Id)
    requires Inv(s)
    ensures Inv(RemoveTimer(s, id))
  {
    if Found(s, id) {
      var ev := s.timers[id].ev;
      var t := Del(Retire(s, id), ev);
      RetireInv(s, id);
      if s.running == id {
        assert s.retired == [];
        assert s.retired + [id] == [id];
      } else {
        EraseInv(t, id);
        assert ev !in t.freed;
      }
    }
  }

  lemma ReturnInv(s: State)
    requires Inv(s)
    ensures Inv(ReturnFrom(s))
  {
    if s.running != 0 && s.once && !s.timers[s.running].retired {
      RetireInv(s, s.running);
      assert s.retired == [];
      assert s.retired + [s.running] == [s.running];
    }
  }

  lemma DrainOne(s: State, id: Id, runningId: Id)
    requires EventInv(s) && s.retired == [] && id in s.timers && id != runningId
    ensures Drain(s, [id], runningId) == Erase(Free(s, s.timers[id].ev), id)
  {
    var t := Erase(Free(s, s.timers[id].ev), id);
    var rest: seq<Id> := [id][1..];
    assert rest == [];
    assert Drain(t, rest, runningId) == t;
  }

  lemma DisarmInv(s: State, e: Entry)
    requires EventInv(s)
    ensures EventInv(s.(armed := if e.repeat then s.armed else s.armed - {e.ev}, retired := []))
  {
    var t := s.(armed := if e.repeat then s.armed else s.armed - {e.ev}, retired := []);
    assert forall id :: id in s.timers ==> Owned(s, id);
  }

  lemma Drained(t: State, id: Id, once: bool)
    requires EventInv(t) && t.retired == [] && id in t.timers
    requires forall k :: k in t.timers ==> !t.timers[k].retired
    ensures Inv(t.(running := id, once := once))
  {
    assert forall k :: k in t.timers ==> Owned(t, k);
  }

  /** What is retired is not what fires, so all of it goes. */
  lemma FireInv(s: State, id: Id)
    requires Inv(s) && s.running == 0 && Found(s, id)
    ensures Inv(Fire(s, id))
  {
    var e := s.timers[id];
    var t := s.(armed := if e.repeat then s.armed else s.armed - {e.ev}, retired := []);
    DisarmInv(s, e);
    if s.retired != [] {
      var left := s.retired[0];
      assert s.retired == [left] && left in s.retired && left != id;
      DrainOne(t, left, id);
      EraseInv(t, left);
      Drained(Drain(t, s.retired, id), id, !e.repeat);
    } else {
      Drained(t, id, !e.repeat);
    }
  }

  lemma DispatchInv(s: State, ev: Ev)
    requires Inv(s)
    ensures Inv(DispatchEvent(s, ev))
  {
    if s.running == 0 && ev in s.armed {
      assert Owns(s, ev) && Owned(s, s.ids[ev]);
      FireInv(s, s.ids[ev]);
    }
  }

  lemma {:induction false} FreeAllInv(s: State, order: seq<Id>)
    requires EventInv(s)
    ensures var t := FreeAll(s, order);
            && EventInv(t) && t.nextEv == s.nextEv && t.running == s.running && t.looped == s.looped
            && (forall id :: id in t.timers <==> id in s.timers && id !in order)
    decreases |order|
  {
    if order != [] {
      assert order == [order[0]] + order[1..];
      if order[0] in s.timers {
        EraseInv(s, order[0]);
        FreeAllInv(Erase(Free(s, s.timers[order[0]].ev), order[0]), order[1..]);
      } else {
        FreeAllInv(s, order[1..]);
      }
    }
  }

  /** At the end every event ever made has been freed. */
  lemma ExitFreesAll(s: State, order: seq<Id>)
    requires Inv(s) && s.running == 0 && Lists(order, s.timers)
    ensures var t := ExitLoop(s, order);
            && Inv(t) && t.timers == map[] && t.armed == {} && t.nextEv == s.nextEv
            && (forall ev :: 0 <= ev < t.nextEv ==> ev in t.freed)
            && (forall i, j :: 0 <= i < j < |t.freed| ==> t.freed[i] != t.freed[j])
  {
    var u := FreeAll(s.(looped := false), order);
    FreeAllInv(s.(looped := false), order);
    assert u.timers == map[];
    assert forall ev :: ev in u.armed ==> Owns(u, ev);
    assert u.armed == {};
    forall ev | 0 <= ev < u.nextEv ensures ev in u.freed {
      assert ev in u.freed || Owns(u, ev);
    }
  }

  lemma StepInv(s: State, e: Event)
    requires Inv(s)
    ensures Inv(Step(s, e))
  {
    match e
    case Add(ms, hasCallback, repeat, made, armedOk) => AddTimerInv(s, ms, hasCallback, repeat, made, armedOk);
    case Remove(id) => RemoveInv(s, id);
    case Dispatch(ev) => DispatchInv(s, ev);
    case Return => ReturnInv(s);
    case Exit(order) => if s.running == 0 && Lists(order, s.timers) { ExitFreesAll(s, order); }
    case _ => CallInv(s, e);
  }

  lemma {:induction false} RunInv(s: State, es: seq<Event>)
    requires Inv(s)
    ensures Inv(Run(s, es))
    decreases |es|
  {
    if es != [] {
      StepInv(s, es[0]);
      RunInv(Step(s, es[0]), es[1..]);
    }
  }

  // ----- Main results

  /** Nothing that is gone was ever touched; no event was freed twice; the entry of a
      running callback is there; no more than one timer is waiting to be reclaimed, and
      what waits is a retired entry that cannot fire. */
  predicate Safe(s: State) {
    && !s.faulted && (forall i, j :: 0 <= i < j < |s.freed| ==> s.freed[i] != s.freed[j])
    && (s.running != 0 ==> s.running in s.timers && s.timers[s.running].ev !in s.freed)
    && |s.retired| <= 1
    && (forall id :: id in s.retired ==> id in s.timers && s.timers[id].retired && s.timers[id].ev !in s.armed)
  }

  lemma InvSafe(s: State)
    ensures Inv(s) ==> Safe(s)
  {
    if Inv(s) {
      assert s.running != 0 ==> Owned(s, s.running);
      assert forall id :: id in s.retired ==> Owned(s, id);
    }
  }

  /** Every run is safe. */
  lemma RegistrySafety(es: seq<Event>)
    ensures Safe(Run(Start(), es))
  {
    StartInv();
    RunInv(Start(), es);
    InvSafe(Run(Start(), es));
  }

  /** The timer an event was made for is gone or retired. */
  predicate Dead(s: State, ev: Ev) {
    ev < s.nextEv && (ev in s.freed || (Owns(s, ev) && s.timers[s.ids[ev]].retired))
  }

  lemma DeadIsStill(s: State, ev: Ev)
    requires Inv(s) && Dead(s, ev)
    ensures ev !in s.armed
  {
    assert ev in s.armed ==> Owns(s, ev);
    assert ev in s.armed ==> Owned(s, s.ids[ev]);
  }

  lemma {:induction false} DrainKeeps(s: State, list: seq<Id>, runningId: Id)
    ensures NoRevival(s, Drain(s, list, runningId))
    decreases |list|
  {
    if list != [] {
      var id := list[0];
      if id == runningId {
        DrainKeeps(s.(retired := s.retired + [id]), list[1..], runningId);
      } else if id !in s.timers {
        DrainKeeps(s, list[1..], runningId);
      } else {
        DrainKeeps(Erase(Free(s, s.timers[id].ev), id), list[1..], runningId);
      }
    }
  }

  lemma {:induction false} FreeAllKeeps(s: State, ids: seq<Id>)
    ensures NoRevival(s, FreeAll(s, ids))
    decreases |ids|
  {
    if ids != [] {
      FreeAllKeeps(if ids[0] in s.timers then Erase(Free(s, s.timers[ids[0]].ev), ids[0]) else s, ids[1..]);
    }
  }

  lemma AddKeeps(s: State, ms: int, hasCallback: bool, repeat: bool, made: bool, armedOk: bool)
    ensures NoRevival(s, AddTimer(s, ms, hasCallback, repeat, made, armedOk))
  {
  }

  lemma CallKeeps(s: State, e: Event)
    requires e.Stop? || e.Arm? || e.Return?
    ensures NoRevival(s, Step(s, e))
  {
  }

  lemma IntervalKeeps(s: State, id: Id, ms: int, ok: bool)
    ensures NoRevival(s, SetTimerInterval(s, id, ms, ok))
  {
  }

  lemma RemoveKeeps(s: State, id: Id)
    ensures NoRevival(s, RemoveTimer(s, id))
  {
  }

  lemma DispatchKeeps(s: State, ev: Ev)
    ensures NoRevival(s, DispatchEvent(s, ev))
  {
    if s.running == 0 && ev in s.armed && Owns(s, ev) {
      var id := s.ids[ev];
      var entry := s.timers[id];
      DrainKeeps(s.(armed := if entry.repeat then s.armed else s.armed - {entry.ev}, retired := []), s.retired, id);
    }
  }

  lemma StepKeeps(s: State, e: Event)
    ensures NoRevival(s, Step(s, e))
  {
    match e
    case Add(ms, hasCallback, repeat, made, armedOk) => AddKeeps(s, ms, hasCallback, repeat, made, armedOk);
    case SetInterval(id, ms, ok) => IntervalKeeps(s, id, ms, ok);
    case Remove(id) => RemoveKeeps(s, id);
    case Dispatch(ev) => DispatchKeeps(s, ev);
    case Exit(order) => FreeAllKeeps(s.(looped := false), order);
    case _ => CallKeeps(s, e);
  }

  /** An entry that is not retired was not before, or has a new event. */
  predicate NoRevival(s: State, t: State) {
    && s.nextEv <= t.nextEv
    && forall id :: id in t.timers && !t.timers[id].retired ==>
         t.timers[id].ev >= s.nextEv
         || (id in s.timers && !s.timers[id].retired && s.timers[id].ev == t.timers[id].ev)
  }

  /** Whatever is done, a retired timer's event never fires or is armed again. */
  lemma DeadStays(s: State, e: Event, ev: Ev)
    requires Inv(s) && Dead(s, ev)
    ensures Dead(Step(s, e), ev) && ev !in Step(s, e).armed
  {
    var t := Step(s, e);
    StepInv(s, e);
    StepKeeps(s, e);
    assert ev in t.freed || Owns(t, ev);
    assert forall id :: id in s.timers ==> Owned(s, id);
    DeadIsStill(t, ev);
  }

  lemma {:induction false} DeadForGood(s: State, es: seq<Event>, ev: Ev)
    requires Inv(s) && Dead(s, ev)
    ensures Dead(Run(s, es), ev) && ev !in Run(s, es).armed
    decreases |es|
  {
    if es == [] {
      DeadIsStill(s, ev);
    } else {
      StepInv(s, es[0]);
      DeadStays(s, es[0], ev);
      DeadForGood(Step(s, es[0]), es[1..], ev);
    }
  }

  lemma RemoveEnds(s: State, id: Id)
    ensures forall k :: Found(RemoveTimer(s, id), k) <==> Found(s, k) && k != id
  {
  }
}

/** The timers as the program keeps them: an object whose calls and dispatches update
    its fields. What a valid registry guarantees is said at Valid; that it never meets the
    faults shows in the library calls, which require an event that is not freed. The methods
    that do not require Valid are inner steps of the others. */
module TimerRegistryObject {
  import opened TimerRegistry

  /** The timers that are found. */
  function Live(timers: map<Id, Entry>): set<Id> { set id | id in timers && !timers[id].retired }

  lemma OneLess(s: State, id: Id)
    ensures Live(RemoveTimer(s, id).timers) == Live(s.timers) - {id}
    ensures Found(s, id) <==> id in Live(s.timers)
  {
    RemoveEnds(s, id);
    assert forall k :: k in Live(RemoveTimer(s, id).timers) <==> Found(RemoveTimer(s, id), k);
  }

  /** The loop's fields; the library's side, `armed` and `freed`, is kept with them. */
  class RunLoop {
    var looped: bool
    var nextTimerId: Id
    var timers: map<Id, Entry>
    var retired: seq<Id>
    var runningTimerId: Id
    var once: bool
    var nextEv: Ev
    var ids: map<Ev, Id>
    var armed: set<Ev>
    ghost var freed: seq<Ev>

    ghost function View(): State
      reads this
    {
      State(looped, nextTimerId, timers, retired, runningTimerId, once, nextEv, ids, armed, freed, false)
    }

    ghost predicate Valid()
      reads this
      ensures Valid() ==>
                && (forall i, j :: 0 <= i < j < |freed| ==> freed[i] != freed[j])
                && (runningTimerId != 0 ==>
                      runningTimerId in timers && timers[runningTimerId].ev !in freed)
                && |retired| <= 1
                && (forall id :: id in retired ==> id in timers && timers[id].retired && timers[id].ev !in armed)
    {
      InvSafe(View());
      Inv(View())
    }

    constructor ()
      ensures Valid() && View() == Start()
    {
      looped, nextTimerId, timers, retired, runningTimerId, once := true, 1, map[], [], 0, false;
      nextEv, ids, armed, freed := 0, map[], {}, [];
    }

    method EventDel(ev: Ev)
      requires ev !in freed
      modifies this
      ensures View() == Del(old(View()), ev)
    {
      armed := armed - {ev};
    }

    method EventFree(ev: Ev)
      requires ev !in freed
      modifies this
      ensures View() == Free(old(View()), ev)
    {
      armed := armed - {ev};
      freed := freed + [ev];
    }

    method Arm(ev: Ev, ok: bool)
      requires ev !in freed
      modifies this
      ensures View() == ArmEvent(old(View()), ev, ok)
    {
      EventDel(ev);
      if ok {
        armed := armed + {ev};
      }
    }

    method MakeEntry(intervalMs: int, repeat: bool) returns (id: Id, ev: Ev)
      modifies this
      ensures View() == Register(old(View()), intervalMs, repeat)
      ensures id == old(nextTimerId) && ev == old(nextEv)
    {
      id, ev := nextTimerId, nextEv;
      nextTimerId, nextEv, ids := id + 1, ev + 1, ids[ev := id];
      timers := timers[id := Entry(ev, intervalMs, repeat, false)];
    }

    method Erase(id: Id)
      modifies this
      ensures View() == TimerRegistry.Erase(old(View()), id)
    {
      timers := timers - {id};
    }

    /** `made` and `armedOk` are what the library answers. */
    method AddTimer(intervalMs: int, hasCallback: bool, repeat: bool, made: bool, armedOk: bool) returns (id: Id)
      requires Valid()
      modifies this
      ensures Valid()
      ensures View() == TimerRegistry.AddTimer(old(View()), intervalMs, hasCallback, repeat, made, armedOk)
      ensures id == if intervalMs > 0 && hasCallback && looped && made && armedOk then old(nextTimerId) else 0
      ensures id != 0 ==> id !in old(timers) && Found(View(), id) && timers[id].ev in armed
    {
      AddTimerInv(View(), intervalMs, hasCallback, repeat, made, armedOk);
      if intervalMs > 0 && hasCallback && looped && made && armedOk {
        AddFinds(View(), intervalMs, repeat);
      }
      id := Enlist(intervalMs, hasCallback, repeat, made, armedOk);
    }

    method Enlist(intervalMs: int, hasCallback: bool, repeat: bool, made: bool, armedOk: bool) returns (id: Id)
      requires EventInv(View())
      modifies this
      ensures View() == TimerRegistry.AddTimer(old(View()), intervalMs, hasCallback, repeat, made, armedOk)
      ensures id == if intervalMs > 0 && hasCallback && looped && made && armedOk then old(nextTimerId) else 0
    {
      RegisterInv(View(), intervalMs, repeat);
      if intervalMs <= 0 || !hasCallback || !looped {
        return 0;
      }
      if !made {
        nextTimerId := nextTimerId + 1;
        return 0;
      }
      var ev;
      id, ev := MakeEntry(intervalMs, repeat);
      assert Owned(View(), id);
      Arm(ev, armedOk);
      if !armedOk {
        EventFree(ev);
        Erase(id);
        id := 0;
      }
    }

    method StopTimer(id: Id) returns (stopped: bool)
      requires Valid()
      modifies this
      ensures Valid() && View() == TimerRegistry.StopTimer(old(View()), id)
      ensures stopped <==> Found(old(View()), id) && old(timers)[id].ev in old(armed)
      ensures Found(View(), id) ==> timers[id].ev !in armed
    {
      CallInv(View(), Stop(id));
      if id !in timers || timers[id].retired || timers[id].ev !in armed {
        return false;
      }
      assert Owned(View(), id);
      EventDel(timers[id].ev);
      return true;
    }

    method ArmTimer(id: Id, ok: bool) returns (done: bool)
      requires Valid()
      modifies this
      ensures Valid() && View() == TimerRegistry.ArmTimer(old(View()), id, ok)
      ensures done <==> Found(old(View()), id) && ok
      ensures Found(View(), id) ==> (timers[id].ev in armed <==> done)
    {
      CallInv(View(), TimerRegistry.Arm(id, ok));
      if id !in timers || timers[id].retired {
        return false;
      }
      assert Owned(View(), id);
      Arm(timers[id].ev, ok);
      return ok;
    }

    method MarkRetired(id: Id)
      requires id in timers
      modifies this
      ensures View() == Retire(old(View()), id)
    {
      timers := timers[id := timers[id].(retired := true)];
    }

    method RemoveTimer(id: Id) returns (removed: bool)
      requires Valid()
      modifies this
      ensures Valid() && View() == TimerRegistry.RemoveTimer(old(View()), id)
      ensures removed <==> Found(old(View()), id)
      ensures !Found(View(), id) && (removed ==> (id in timers <==> runningTimerId == id))
    {
      RemoveInv(View(), id);
      if id !in timers || timers[id].retired {
        return false;
      }
      assert Owned(View(), id);
      var ev := timers[id].ev;
      MarkRetired(id);
      EventDel(ev);
      if runningTimerId == id {
        retired := retired + [id];
      } else {
        EventFree(ev);
        Erase(id);
      }
      return true;
    }

    method SetTimerInterval(id: Id, intervalMs: int, ok: bool) returns (done: bool)
      requires Valid()
      modifies this
      ensures Valid() && View() == TimerRegistry.SetTimerInterval(old(View()), id, intervalMs, ok)
      ensures Found(View(), id) && intervalMs > 0 ==> timers[id].intervalMs == intervalMs
    {
      CallInv(View(), SetInterval(id, intervalMs, ok));
      if intervalMs <= 0 || id !in timers || timers[id].retired {
        return false;
      }
      assert Owned(View(), id);
      var e := timers[id];
      timers := timers[id := e.(intervalMs := intervalMs)];
      if e.ev !in armed {
        return true;
      }
      Arm(e.ev, ok);
      return ok;
    }

    /** Removes all timers, also from within the callback of one; `order` is how the map
        lists its keys. */
    method RemoveAllTimers(order: seq<Id>) returns (n: nat)
      requires Valid() && Lists(order, timers)
      modifies this
      ensures Valid() && forall id :: !Found(View(), id)
      ensures runningTimerId == old(runningTimerId) && n == |Live(old(timers))|
    {
      n := 0;
      for i := 0 to |order|
        invariant Valid() && runningTimerId == old(runningTimerId)
        invariant n + |Live(timers)| == |Live(old(timers))|
        invariant forall id :: Found(View(), id) ==> id in order[i..]
      {
        assert order[i..] == [order[i]] + order[i + 1..];
        RemoveEnds(View(), order[i]);
        OneLess(View(), order[i]);
        var removed := RemoveTimer(order[i]);
        if removed {
          n := n + 1;
        }
      }
      assert Live(timers) == {};
    }

    /** Frees what waits to be reclaimed, except the timer being dispatched. */
    method DrainRetired(runningId: Id)
      requires EventInv(View())
      modifies this
      ensures EventInv(View()) && View() == Drain(old(View()).(retired := []), old(retired), runningId)
    {
      var list := retired;
      retired := [];
      ghost var s0 := View();
      assert EventInv(s0);
      assert list[0..] == list;
      for i := 0 to |list|
        invariant EventInv(View()) && Drain(View(), list[i..], runningId) == Drain(s0, list, runningId)
      {
        var id := list[i];
        assert list[i..][1..] == list[i + 1..];
        if id == runningId {
          retired := retired + [id];
        } else if id in timers {
          EraseInv(View(), id);
          assert Owned(View(), id);
          EventFree(timers[id].ev);
          Erase(id);
        }
      }
    }

    /** The library takes the event off its list unless it repeats. */
    method Expire(e: Entry)
      modifies this
      ensures View() == old(View()).(armed := if e.repeat then old(armed) else old(armed) - {e.ev})
    {
      if !e.repeat {
        armed := armed - {e.ev};
      }
    }

    method Enter(id: Id, fires: bool)
      modifies this
      ensures View() == old(View()).(running := id, once := fires)
    {
      runningTimerId, once := id, fires;
    }

    method Fire(id: Id)
      requires Valid() && runningTimerId == 0 && id in timers && !timers[id].retired
      modifies this
      ensures Valid() && View() == TimerRegistry.Fire(old(View()), id)
    {
      FireInv(View(), id);
      var e := timers[id];
      DisarmedInv(View(), e);
      Expire(e);
      DrainRetired(id);
      Enter(id, !e.repeat);
    }

    /** The library fires an event: the first half of the dispatch callback. */
    method OnTimerDispatch(ev: Ev)
      requires Valid() && runningTimerId == 0 && ev in armed
      modifies this
      ensures Valid() && View() == DispatchEvent(old(View()), ev)
      ensures runningTimerId == old(ids)[ev] && runningTimerId in timers
    {
      assert Owns(View(), ev) && Owned(View(), ids[ev]);
      Fire(ids[ev]);
    }

    /** The callback has returned or thrown: the second half. */
    method OnReturn()
      requires Valid() && runningTimerId != 0
      modifies this
      ensures Valid() && View() == ReturnFrom(old(View()))
      ensures runningTimerId == 0 && (old(once) ==> !Found(View(), old(runningTimerId)))
    {
      ReturnInv(View());
      var id := runningTimerId;
      assert Owned(View(), id);
      if once && !timers[id].retired {
        MarkRetired(id);
        EventDel(timers[id].ev);
        retired := retired + [id];
      }
      runningTimerId := 0;
    }
  }

  lemma DisarmedInv(s: State, e: Entry)
    requires EventInv(s)
    ensures EventInv(s.(armed := if e.repeat then s.armed else s.armed - {e.ev}))
  {
    assert forall id :: id in s.timers ==> Owned(s, id);
  }
}

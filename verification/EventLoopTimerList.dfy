/** The timer code as the source has it: 32-bit tick arithmetic that wraps around, lists changed in place.
    Every method is proved to do what EventLoopTimers does over unbounded time. */
module EventLoopTimerList {
  import opened Lists
  import opened TimerRequests
  import opened EventLoopTimers
  import opened WordSize

  /** struct FuriEventLoopTimer; `startTime` is a 32-bit tick count. */
  datatype Record = Record(interval: nat, startTime: nat, nextInterval: nat, request: Request, active: bool,
      periodic: bool)

  /** The record holds the timer, its start reduced to 32 bits. */
  predicate Holds(r: Record, t: Timer) {
    && r.interval == t.interval && r.startTime == t.start % WRAP && r.nextInterval == t.nextInterval
    && r.request == t.request && r.active == t.active && r.periodic == t.periodic
  }

  ghost predicate Mirrors(records: map<nat, Record>, timers: map<nat, Timer>) {
    records.Keys == timers.Keys && forall t :: t in records ==> Holds(records[t], timers[t])
  }

  lemma MirrorsUpdate(records: map<nat, Record>, timers: map<nat, Timer>, t: nat, r: Record, timer: Timer)
    requires Mirrors(records, timers) && Holds(r, timer)
    ensures Mirrors(records[t := r], timers[t := timer])
  {}

  lemma MirrorsRemove(records: map<nat, Record>, timers: map<nat, Timer>, t: nat)
    requires Mirrors(records, timers)
    ensures Mirrors(records - {t}, timers - {t})
  {}

  /** Subtraction of wrapped tick counts is exact within one turn of the counter. */
  lemma ElapsedExact(now: nat, start: nat)
    requires start <= now < start + WRAP
    ensures (now % WRAP - start % WRAP) % WRAP == now - start
  {}

  lemma WrappedSum(a: nat, b: nat)
    ensures (a % WRAP + b) % WRAP == (a + b) % WRAP
  {}

  /** A timer with less time left than the last of a list goes in front of it. */
  lemma InsertPastLast(spec: map<nat, Timer>, list: seq<nat>, tail: seq<nat>, t: nat, now: nat)
    requires list != [] && Known(spec, list) && t in spec
    requires Remaining(spec[t], now) < Remaining(spec[list[|list| - 1]], now)
    ensures InsertByRemaining(spec, list, t, now) + tail ==
        InsertByRemaining(spec, list[..|list| - 1], t, now) + ([list[|list| - 1]] + tail)
  {
    var r := InsertByRemaining(spec, list[..|list| - 1], t, now);
    assert InsertByRemaining(spec, list, t, now) == r + [list[|list| - 1]];
  }

  lemma WrappedMove(start: nat, step: nat)
    requires step < WRAP
    ensures step % WRAP == step && (start % WRAP + step) % WRAP == (start + step) % WRAP
  {}

  /** At the given time every timer listed, and `t`, started less than one turn of the counter ago. */
  ghost predicate Fresh(m: Timers, t: nat, now: nat) {
    Known(m.timers, m.list) && t in m.timers &&
    forall x :: x == t || x in m.list ==> x in m.timers && m.timers[x].start <= now < m.timers[x].start + WRAP
  }

  lemma FreshLater(m: Timers, t: nat, wait: nat)
    requires OkBut(m, t) && CanPass(m, wait)
    ensures Fresh(m, t, m.now + wait)
  {}

  /** The request to start `t` can be carried out. */
  ghost predicate CanStart(m: Timers, t: nat, wait: nat) {
    && m.queue != [] && t == m.queue[0] && t in m.timers && m.timers[t].request == Start
    && Known(m.timers, m.queue) && Known(m.timers, m.list) && Fresh(Taken(m), t, m.now + wait)
  }

  lemma StartPossible(m: Timers, t: nat, wait: nat)
    requires Ok(m) && CanServe(m, wait) && t == m.queue[0] && m.timers[t].request == Start
    ensures CanStart(m, t, wait)
  {
    TakenKeepsOk(m);
    FreshLater(Taken(m), t, wait);
  }

  /** In `m` the periodic timer `t` has been moved on and is yet to be put back. */
  ghost predicate Moved(before: map<nat, Timer>, m: Timers, t: nat, wait: nat) {
    && t in before && before[t].periodic && Running(before[t], m.now) && before[t].Deadline() <= m.now
    && m.timers == before[t := Advanced(before[t], m.now)] && Fresh(m, t, m.now + wait)
  }

  /** In `after`, `read` ticks later, the front timer `t` has been taken off the list and moved on or stopped. */
  ghost predicate FrontOff(before: Timers, after: Timers, t: nat, read: nat, wait: nat) {
    && t in before.timers && before.list != [] && t == before.list[0]
    && after.now == before.now + read && after.list == before.list[1..] && Known(after.timers, after.list)
    && t in after.timers
    && if before.timers[t].periodic then Moved(before.timers, after, t, wait)
       else after.timers == before.timers[t := before.timers[t].(active := false)]
  }

  /** What firing comes to. */
  lemma FrontTaken(m: Timers, t: nat, read: nat, wait: nat)
    requires Ok(m) && CanFire(m, read, wait) && Due(m) == Some(t)
    ensures FrontOff(m, Popped(m, read), t, read, wait)
    ensures Fired(m, read, wait).queue == m.queue && Fired(m, read, wait).now == Popped(m, read).now + wait
    ensures Fired(m, read, wait).timers == Popped(m, read).timers
    ensures Fired(m, read, wait).list == ListAfter(m, Popped(m, read), t, wait)
  {
    assert t in m.list;
    PoppedKeepsOk(m, read);
    if m.timers[t].periodic { FreshLater(Popped(m, read), t, wait); }
  }

  function ListAfter(before: Timers, after: Timers, t: nat, wait: nat): seq<nat>
    requires t in before.timers && t in after.timers && Known(after.timers, after.list)
  {
    if before.timers[t].periodic then Scheduled(Passed(after, wait), t).list else after.list
  }

  class TimerLoop {
    var timers: map<nat, Record>
    var timerList: seq<nat>
    var timerQueue: seq<nat>
    /** xTaskGetTickCount */
    var tickCount: nat

    /** The same timers over unbounded time. */
    ghost var model: Timers

    ghost predicate Valid()
      reads this
    {
      && Ok(model)
      && timerList == model.list && timerQueue == model.queue && tickCount == model.now % WRAP
      && Mirrors(timers, model.timers)
    }

    /** Timer `t` is held by its record and started less than one turn of the counter ago. */
    ghost predicate Timely(t: nat, spec: map<nat, Timer>, now: nat)
      reads this
    {
      t in timers && t in spec && Holds(timers[t], spec[t]) && spec[t].start <= now < spec[t].start + WRAP
    }

    constructor ()
      ensures Valid() && model == Timers(map[], [], [], 0)
    {
      timers, timerList, timerQueue, tickCount := map[], [], [], 0;
      model := Timers(map[], [], [], 0);
    }

    /** furi_event_loop_timer_get_elapsed_time */
    function ElapsedTime(t: nat): nat
      reads this
      requires t in timers
    {
      (tickCount - timers[t].startTime) % WRAP
    }

    /** furi_event_loop_timer_get_remaining_time_private */
    function RemainingTime(t: nat): nat
      reads this
      requires t in timers
    {
      var elapsed := ElapsedTime(t);
      if elapsed < timers[t].interval then timers[t].interval - elapsed else 0
    }

    /** furi_event_loop_timer_is_expired */
    predicate IsExpired(t: nat)
      reads this
      requires t in timers
    {
      ElapsedTime(t) >= timers[t].interval
    }

    /** The wrapping computations give the true elapsed and remaining times of a running timer. */
    lemma TrueTimes(t: nat, timer: Timer, now: nat)
      requires t in timers && Holds(timers[t], timer) && tickCount == now % WRAP
      requires timer.start <= now < timer.start + WRAP
      ensures ElapsedTime(t) == now - timer.start
      ensures RemainingTime(t) == Remaining(timer, now)
      ensures IsExpired(t) <==> timer.Deadline() <= now
    {
      ElapsedExact(now, timer.start);
    }

    /** furi_event_loop_schedule_timer: walks from the back to the last timer that has no more time left. Inside the
        critical section the tick count stands still. */
    method ScheduleTimer(t: nat, ghost spec: map<nat, Timer>, ghost now: nat)
      requires tickCount == now % WRAP && Known(spec, timerList) && Timely(t, spec, now)
      requires forall x :: x in timerList ==> Timely(x, spec, now)
      modifies this`timerList
      ensures timerList == InsertByRemaining(spec, old(timerList), t, now)
    {
      TrueTimes(t, spec[t], now);
      var remaining := RemainingTime(t);
      var list, i := timerList, |timerList|;
      assert list[..i] == list;
      forall k | 0 <= k < |list| ensures Timely(list[k], spec, now) { assert list[k] in timerList; }
      while i > 0 && remaining < RemainingTime(list[i - 1])
        invariant i <= |list| && timerList == list
        invariant InsertByRemaining(spec, list, t, now) == InsertByRemaining(spec, list[..i], t, now) + list[i..]
      {
        TrueTimes(list[i - 1], spec[list[i - 1]], now);
        InsertPastLast(spec, list[..i], list[i..], t, now);
        assert list[..i][..i - 1] == list[..i - 1] && [list[i - 1]] + list[i..] == list[i - 1..];
        i := i - 1;
      }
      if i > 0 {
        TrueTimes(list[i - 1], spec[list[i - 1]], now);
      }
      timerList := list[..i] + [t] + list[i..];
    }

    /** furi_event_loop_get_timer_wait_time */
    method GetWaitTime() returns (wait: nat)
      requires Valid()
      ensures model.list == [] ==> wait == WAIT_FOREVER
      ensures forall t :: t in model.timers && model.timers[t].active ==> wait <= Remaining(model.timers[t], model.now)
      ensures model.list != [] ==>
        exists t :: t in model.timers && model.timers[t].active && wait == Remaining(model.timers[t], model.now)
      ensures model.list != [] ==>
        Due(Passed(model, wait)).Some? && forall earlier :: 0 <= earlier < wait ==> Due(Passed(model, earlier)) == None
    {
      wait := WAIT_FOREVER;
      if timerList != [] {
        WakesWhenDue(model);
        ghost var t := timerList[0];
        assert t in model.list;
        TrueTimes(t, model.timers[t], model.now);
        wait := RemainingTime(timerList[0]);
      }
      forall t | t in model.timers && model.timers[t].active ensures wait <= Remaining(model.timers[t], model.now) {
        WaitTimeIsLeast(model, t);
      }
    }

    /** The tick counter runs on. */
    method Tick(ticks: nat, ghost now: nat)
      requires tickCount == now % WRAP
      modifies this`tickCount
      ensures tickCount == (now + ticks) % WRAP
    {
      WrappedSum(now, ticks);
      tickCount := (tickCount + ticks) % WRAP;
    }

    method Pass(ticks: nat)
      requires Valid() && CanPass(model, ticks)
      modifies this
      ensures Valid() && model == Passed(old(model), ticks)
      ensures timers == old(timers) && timerList == old(timerList) && timerQueue == old(timerQueue)
    {
      PassingKeepsOk(model, ticks);
      Tick(ticks, model.now);
      model := Passed(model, ticks);
    }

    /** furi_event_loop_timer_alloc */
    method AllocTimer(t: nat, periodic: bool)
      requires Valid() && t !in timers
      modifies this
      ensures Valid() && model == Act(old(model), Create(t, periodic))
    {
      CreateKeepsOk(model, t, periodic);
      timers := timers[t := Record(0, 0, 0, NoRequest, false, periodic)];
      model := Act(model, Create(t, periodic));
    }

    /** furi_event_loop_timer_start, _stop and _free: file the request, replacing a pending one. */
    method EnqueueRequest(t: nat, request: Request, interval: nat)
      requires Valid() && t in timers && request != NoRequest
      requires timers[t].request != Free  // checked by the source
      requires request == Start ==> interval < WRAP && (timers[t].periodic ==> interval > 0)
      modifies this
      ensures Valid() && model == Ask(old(model), t, request, interval)
      ensures t in timers && timers[t].request == request && (request == Start ==> timers[t].nextInterval == interval)
    {
      ghost var m := model;
      AskKeepsOk(m, t, request, interval);
      ghost var timer := Ask(m, t, request, interval).timers[t];
      if timers[t].request != NoRequest {
        timerQueue := Without(timerQueue, t);
      } else {
        AbsentWithout(timerQueue, t);
      }
      FileRequest(t, request, interval, timer);
      timerQueue := timerQueue + [t];
      model := Ask(m, t, request, interval);
    }

    method FileRequest(t: nat, request: Request, interval: nat, ghost timer: Timer)
      requires t in timers && Mirrors(timers, model.timers)
      requires timer == model.timers[t].(request := request, nextInterval := if request == Start then interval
          else model.timers[t].nextInterval)
      modifies this`timers
      ensures Mirrors(timers, model.timers[t := timer])
    {
      var r := timers[t];
      if request == Start {
        r := r.(nextInterval := interval);
      }
      r := r.(request := request);
      MirrorsUpdate(timers, model.timers, t, r, timer);
      timers := timers[t := r];
    }

    /** furi_event_loop_timer_restart: a start request with the interval the timer last ran with. */
    method Restart(t: nat)
      requires Valid() && t in timers && timers[t].request != Request.Free && timers[t].interval < WRAP
      requires timers[t].periodic ==> timers[t].interval > 0
      modifies this
      ensures Valid() && model == Ask(old(model), t, Start, old(model).timers[t].interval)
    {
      EnqueueRequest(t, Start, timers[t].interval);
    }

    /** furi_event_loop_process_timer_queue; `delays` are the ticks that pass in each round. */
    method ProcessTimerQueue(delays: seq<Delay>)
      requires Valid() && InTime(model, delays)
      modifies this
      ensures Valid() && model == ProcessQueue(old(model), delays) && timerQueue == []
      ensures AllCarriedOut(old(model), delays, model)
    {
      DrainedTimers(model, delays);
      var round := 0;
      while timerQueue != []
        invariant Valid() && round <= |delays| && InTime(model, delays[round..])
        invariant ProcessQueue(model, delays[round..]) == ProcessQueue(old(model), delays)
        decreases |timerQueue|
      {
        assert delays[round..][0] == delays[round] && delays[round..][1..] == delays[round + 1..];
        ServeNext(delays[round]);
        round := round + 1;
      }
    }

    method ServeNext(d: Delay)
      requires Valid() && model.queue != [] && CanTake(model, d)
      modifies this
      ensures Valid() && model == Served(old(model), d) && |timerQueue| < |old(timerQueue)|
    {
      Pass(d.before);
      ProcessRequest(d.during);
    }

    /** One round of the loop in furi_event_loop_process_timer_queue; `wait` ticks pass between reading the start time
        and putting the timer in the list. */
    method ProcessRequest(wait: nat)
      requires Valid() && CanServe(model, wait)
      modifies this
      ensures Valid() && model == ProcessOne(old(model), wait) && |timerQueue| < |old(timerQueue)|
    {
      ProcessOneKeepsOk(model, wait);
      var t := timerQueue[0];
      TakeOut(t);
      timerQueue := timerQueue[1..];
      if timers[t].request == Start {
        StartPossible(model, t, wait);
        StartTimer(t, wait);
      } else {
        EndTimer(t, wait);
      }
      model := ProcessOne(model, wait);
    }

    /** The stop and the free branch. */
    method EndTimer(t: nat, wait: nat)
      requires Ok(model) && CanServe(model, wait) && t == model.queue[0] && model.timers[t].request != Start
      requires timerList == Taken(model).list && tickCount == model.now % WRAP && Mirrors(timers, model.timers)
      modifies this`timers, this`tickCount
      ensures Mirrors(timers, ProcessOne(model, wait).timers) && timerList == ProcessOne(model, wait).list
      ensures tickCount == ProcessOne(model, wait).now % WRAP
    {
      assert t in model.queue;
      if timers[t].request == Halt {
        var r := timers[t].(active := false, request := NoRequest);
        MirrorsUpdate(timers, model.timers, t, r, Taken(model).timers[t]);
        timers := timers[t := r];
      } else {
        MirrorsRemove(timers, model.timers, t);
        timers := timers - {t};
      }
      Tick(wait, model.now);
    }

    method TakeOut(t: nat)
      requires Valid() && t in timers
      modifies this`timerList
      ensures timerList == Without(model.list, t)
    {
      if timers[t].active {
        timerList := Without(timerList, t);
      } else {
        AbsentWithout(timerList, t);
      }
    }

    method StartTimer(t: nat, wait: nat)
      requires CanStart(model, t, wait)
      requires timerList == Taken(model).list && tickCount == model.now % WRAP && Mirrors(timers, model.timers)
      modifies this`timers, this`timerList, this`tickCount
      ensures Mirrors(timers, ProcessOne(model, wait).timers) && timerList == ProcessOne(model, wait).list
      ensures tickCount == ProcessOne(model, wait).now % WRAP
    {
      SetStart(t, Taken(model).timers);
      Tick(wait, model.now);
      PutInList(t, Taken(model), wait);
    }

    method SetStart(t: nat, ghost after: map<nat, Timer>)
      requires t in model.timers && tickCount == model.now % WRAP && Mirrors(timers, model.timers)
      requires after == model.timers[t := Started(model.timers[t], model.now)]
      modifies this`timers
      ensures Mirrors(timers, after)
    {
      var r := timers[t].(active := true, interval := timers[t].nextInterval, startTime := tickCount, request :=
          NoRequest);
      MirrorsUpdate(timers, model.timers, t, r, after[t]);
      timers := timers[t := r];
    }

    /** Some ticks after the record of `t` was set, the timer is put in the list. */
    method PutInList(t: nat, ghost m: Timers, ghost wait: nat)
      requires Fresh(m, t, m.now + wait) && Mirrors(timers, m.timers)
      requires timerList == m.list && tickCount == (m.now + wait) % WRAP
      modifies this`timerList
      ensures timerList == Scheduled(Passed(m, wait), t).list
    {
      ScheduleTimer(t, m.timers, m.now + wait);
    }

    /** furi_event_loop_process_expired_timers; the result is the timer whose callback runs, if any. `read` ticks pass
        until the elapsed time is read again, and `wait` ticks until the timer is put back. */
    method ProcessExpiredTimers(read: nat, wait: nat) returns (fired: Option<nat>)
      requires Valid() && CanFire(model, read, wait)
      modifies this
      ensures Valid() && model == Fired(old(model), read, wait) && fired == Due(old(model))
    {
      if timerList == [] {
        return None;
      }
      var t := timerList[0];
      assert t in model.list;
      TrueTimes(t, model.timers[t], model.now);
      if !IsExpired(t) {
        return None;
      }
      FireFront(t, read, wait);
      fired := Some(t);
    }

    method FireFront(t: nat, read: nat, wait: nat)
      requires Valid() && CanFire(model, read, wait) && Due(model) == Some(t)
      modifies this
      ensures Valid() && model == Fired(old(model), read, wait)
    {
      FrontTaken(model, t, read, wait);
      FiredKeepsOk(model, read, wait);
      TakeFront(t, read, wait, model, Popped(model, read));
      model := Fired(model, read, wait);
    }

    /** The timer is unlinked, and moved on or stopped. */
    method TakeFront(t: nat, read: nat, wait: nat, ghost before: Timers, ghost after: Timers)
      requires FrontOff(before, after, t, read, wait)
      requires Mirrors(timers, before.timers) && timerList == before.list && tickCount == before.now % WRAP
      modifies this`timers, this`timerList, this`tickCount
      ensures Mirrors(timers, after.timers) && timerList == ListAfter(before, after, t, wait)
      ensures tickCount == (after.now + wait) % WRAP
    {
      timerList := timerList[1..];
      Tick(read, before.now);
      if timers[t].periodic {
        Reschedule(t, wait, before.timers, after);
      } else {
        StopFired(t, wait, before.timers, after.now);
      }
    }

    method StopFired(t: nat, wait: nat, ghost before: map<nat, Timer>, ghost now: nat)
      requires t in before && Mirrors(timers, before) && tickCount == now % WRAP
      modifies this`timers, this`tickCount
      ensures Mirrors(timers, before[t := before[t].(active := false)]) && tickCount == (now + wait) % WRAP
    {
      MirrorsUpdate(timers, before, t, timers[t].(active := false), before[t].(active := false));
      timers := timers[t := timers[t].(active := false)];
      Tick(wait, now);
    }

    /** The periodic branch: the start time moves by whole intervals, in 32-bit arithmetic. */
    method Reschedule(t: nat, wait: nat, ghost before: map<nat, Timer>, ghost m: Timers)
      requires Moved(before, m, t, wait) && Mirrors(timers, before)
      requires timerList == m.list && tickCount == m.now % WRAP
      modifies this`timers, this`timerList, this`tickCount
      ensures Mirrors(timers, m.timers) && timerList == Scheduled(Passed(m, wait), t).list
      ensures tickCount == (m.now + wait) % WRAP
    {
      MoveStart(t, before[t], m.now);
      MirrorsUpdate(old(timers), before, t, timers[t], m.timers[t]);
      Tick(wait, m.now);
      PutInList(t, m, wait);
    }

    method MoveStart(t: nat, ghost timer: Timer, ghost now: nat)
      requires t in timers && Holds(timers[t], timer) && tickCount == now % WRAP
      requires Running(timer, now) && timer.periodic && timer.Deadline() <= now
      modifies this`timers
      ensures t in timers && timers == old(timers)[t := timers[t]] && Holds(timers[t], Advanced(timer, now))
    {
      TrueTimes(t, timer, now);
      NoDrift(timer, now);
      WholeIntervals(now - timer.start, timer.interval);
      var interval, start := timers[t].interval, timers[t].startTime;
      var events := ElapsedTime(t) / interval;
      var product := interval * events;
      WrappedMove(timer.start, product);
      var step := product % WRAP;
      timers := timers[t := timers[t].(startTime := (start + step) % WRAP)];
    }
  }
}

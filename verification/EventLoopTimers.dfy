/** The timer list of furi/core/event_loop_timer.c over unbounded time. The tick counter runs on while a timer is being
    started or fired, and the list is kept by remaining time, which is clipped at zero. */
module EventLoopTimers {
  import opened Lists
  import opened TimerRequests
  import opened WordSize

  /** A timer; `start` is the true, unbounded time at which its current interval began. */
  datatype Timer = Timer(interval: nat, start: nat, nextInterval: nat, request: Request, active: bool, periodic: bool) {
    function Deadline(): nat { start + interval }
  }

  datatype Timers = Timers(timers: map<nat, Timer>, list: seq<nat>, queue: seq<nat>, now: nat)

  const WAIT_FOREVER: nat := 0xFFFF_FFFF

  // ---------- the active list ----------

  predicate Known(timers: map<nat, Timer>, ids: seq<nat>) {
    forall k :: 0 <= k < |ids| ==> ids[k] in timers
  }

  /** The true time left before a timer is due. */
  function Remaining(timer: Timer, now: nat): nat {
    if timer.Deadline() <= now then 0 else timer.Deadline() - now
  }

  /** In order of the time that remains at `now`. */
  predicate Sorted(timers: map<nat, Timer>, list: seq<nat>, now: nat)
    requires Known(timers, list)
  {
    forall j, k :: 0 <= j < k < |list| ==> Remaining(timers[list[j]], now) <= Remaining(timers[list[k]], now)
  }

  /** In order of true deadline, expired timers included. */
  predicate InDeadlineOrder(timers: map<nat, Timer>, list: seq<nat>)
    requires Known(timers, list)
  {
    forall j, k :: 0 <= j < k < |list| ==> timers[list[j]].Deadline() <= timers[list[k]].Deadline()
  }

  /** A list in order at one moment is in order at every later one. */
  lemma SortedLater(timers: map<nat, Timer>, list: seq<nat>, now: nat, later: nat)
    requires Known(timers, list) && Sorted(timers, list, now) && now <= later
    ensures Sorted(timers, list, later)
  {}

  /** What the order means: a timer that is not yet due has its deadline before all behind it. */
  lemma SortedByDeadline(timers: map<nat, Timer>, list: seq<nat>, now: nat)
    requires Known(timers, list)
    ensures Sorted(timers, list, now) <==> forall j, k :: 0 <= j < k < |list| && now < timers[list[j]].Deadline() ==>
      timers[list[j]].Deadline() <= timers[list[k]].Deadline()
  {
    forall j, k | 0 <= j < k < |list|
      ensures Remaining(timers[list[j]], now) <= Remaining(timers[list[k]], now) <==>
        (now < timers[list[j]].Deadline() ==> timers[list[j]].Deadline() <= timers[list[k]].Deadline())
    {}
  }

  /** Puts `t` after every timer that has no more time left, and before every one that has more. */
  function InsertByRemaining(timers: map<nat, Timer>, list: seq<nat>, t: nat, now: nat): seq<nat>
    requires Known(timers, list) && t in timers
  {
    if list == [] then [t]
    else
      var n := |list| - 1;
      if Remaining(timers[list[n]], now) <= Remaining(timers[t], now) then list + [t]
      else InsertByRemaining(timers, list[..n], t, now) + [list[n]]
  }

  lemma InsertSlices(list: seq<nat>, i: nat, t: nat)
    requires i < |list|
    ensures var n := |list| - 1;
      (list[..n][..i] + [t] + list[..n][i..]) + [list[n]] == list[..i] + [t] + list[i..]
  {
    var n := |list| - 1;
    assert list[..n][..i] == list[..i];
    assert list[i..] == list[..n][i..] + [list[n]];
  }

  /** Place `i` is behind those that have no more time left than `t`, and before those that have more. */
  predicate IsPlace(timers: map<nat, Timer>, list: seq<nat>, t: nat, now: nat, i: nat)
    requires Known(timers, list) && t in timers
  {
    && i <= |list|
    && (forall k :: 0 <= k < i ==> Remaining(timers[list[k]], now) <= Remaining(timers[t], now))
    && (forall k :: i <= k < |list| ==> Remaining(timers[t], now) < Remaining(timers[list[k]], now))
  }

  lemma LastPlace(timers: map<nat, Timer>, list: seq<nat>, t: nat, now: nat)
    requires Known(timers, list) && t in timers && Sorted(timers, list, now)
    requires list != [] ==> Remaining(timers[list[|list| - 1]], now) <= Remaining(timers[t], now)
    ensures IsPlace(timers, list, t, now, |list|)
  {}

  lemma EarlierPlace(timers: map<nat, Timer>, list: seq<nat>, t: nat, now: nat, i: nat)
    requires list != [] && Known(timers, list) && t in timers && IsPlace(timers, list[..|list| - 1], t, now, i)
    requires Remaining(timers[t], now) < Remaining(timers[list[|list| - 1]], now)
    ensures IsPlace(timers, list, t, now, i)
  {
    forall k | 0 <= k < i ensures Remaining(timers[list[k]], now) <= Remaining(timers[t], now) {
      assert list[..|list| - 1][k] == list[k];
    }
    forall k | i <= k < |list| - 1 ensures Remaining(timers[t], now) < Remaining(timers[list[k]], now) {
      assert list[..|list| - 1][k] == list[k];
    }
  }

  /** Where the insertion lands: first in, first out among equals. */
  lemma {:induction false} InsertLands(timers: map<nat, Timer>, list: seq<nat>, t: nat, now: nat) returns (i: nat)
    requires Known(timers, list) && t in timers && Sorted(timers, list, now)
    ensures IsPlace(timers, list, t, now, i)
    ensures InsertByRemaining(timers, list, t, now) == list[..i] + [t] + list[i..]
  {
    var n := |list| - 1;
    if list == [] || Remaining(timers[list[n]], now) <= Remaining(timers[t], now) {
      i := |list|;
      LastPlace(timers, list, t, now);
      assert list[..i] == list && list[i..] == [];
    } else {
      i := InsertLands(timers, list[..n], t, now);
      EarlierPlace(timers, list, t, now, i);
      InsertSlices(list, i, t);
    }
  }

  function InsertAt(list: seq<nat>, i: nat, t: nat): (r: seq<nat>)
    requires i <= |list|
    ensures |r| == |list| + 1 && r[i] == t
    ensures forall k :: 0 <= k < i ==> r[k] == list[k]
    ensures forall k :: i <= k < |list| ==> r[k + 1] == list[k]
    ensures forall k :: i < k < |r| ==> r[k] == list[k - 1]
  {
    list[..i] + [t] + list[i..]
  }

  lemma InsertAtElements(list: seq<nat>, i: nat, t: nat)
    requires i <= |list| && Distinct(list) && t !in list
    ensures Distinct(InsertAt(list, i, t))
    ensures forall x :: x in InsertAt(list, i, t) <==> x in list || x == t
  {
    var r := InsertAt(list, i, t);
    forall x | x in list ensures x in r {
      var k :| 0 <= k < |list| && list[k] == x;
      assert r[if k < i then k else k + 1] == x;
    }
    forall x | x in r ensures x in list || x == t {
      var k :| 0 <= k < |r| && r[k] == x;
    }
  }

  lemma InsertAtSorted(timers: map<nat, Timer>, list: seq<nat>, i: nat, t: nat, now: nat)
    requires Known(timers, list) && t in timers && Sorted(timers, list, now) && i <= |list|
    requires forall k :: 0 <= k < i ==> Remaining(timers[list[k]], now) <= Remaining(timers[t], now)
    requires forall k :: i <= k < |list| ==> Remaining(timers[t], now) <= Remaining(timers[list[k]], now)
    ensures Known(timers, InsertAt(list, i, t)) && Sorted(timers, InsertAt(list, i, t), now)
  {}

  predicate Ordered(timers: map<nat, Timer>, list: seq<nat>, now: nat) {
    Known(timers, list) && Distinct(list) && Sorted(timers, list, now)
  }

  lemma InsertKeepsOrder(timers: map<nat, Timer>, list: seq<nat>, t: nat, now: nat)
    requires t in timers && Ordered(timers, list, now) && t !in list
    ensures var r := InsertByRemaining(timers, list, t, now);
      Ordered(timers, r, now) && forall x :: x in r <==> x in list || x == t
  {
    var i := InsertLands(timers, list, t, now);
    assert InsertByRemaining(timers, list, t, now) == InsertAt(list, i, t);
    InsertAtElements(list, i, t);
    InsertAtSorted(timers, list, i, t, now);
  }

  lemma {:induction false} WithoutKeepsSorted(timers: map<nat, Timer>, list: seq<nat>, t: nat, now: nat)
    requires Known(timers, list) && Sorted(timers, list, now)
    ensures Known(timers, Without(list, t)) && Sorted(timers, Without(list, t), now)
    decreases |list|
  {
    if list != [] {
      assert forall k :: 0 <= k < |list| - 1 ==> list[1..][k] == list[k + 1];
      WithoutKeepsSorted(timers, list[1..], t, now);
      var r := Without(list[1..], t);
      forall k | 0 <= k < |r| ensures Remaining(timers[list[0]], now) <= Remaining(timers[r[k]], now) {
        assert r[k] in r;
        assert r[k] in list[1..];
      }
    }
  }

  lemma WithoutKeepsOrder(timers: map<nat, Timer>, list: seq<nat>, t: nat, now: nat)
    requires Ordered(timers, list, now)
    ensures Ordered(timers, Without(list, t), now)
  {
    WithoutKeepsSorted(timers, list, t, now);
    WithoutDistinct(list, t);
  }

  /** Changing a timer that is not on the list leaves the list in order. */
  lemma OrderOfOthers(timers: map<nat, Timer>, timers': map<nat, Timer>, list: seq<nat>, now: nat)
    requires Known(timers, list) && Sorted(timers, list, now)
    requires forall k :: 0 <= k < |list| ==> list[k] in timers' && timers'[list[k]] == timers[list[k]]
    ensures Known(timers', list) && Sorted(timers', list, now)
  {}

  // ---------- operations ----------

  /** furi_event_loop_timer_enqueue_request; `interval` is the next interval of a start request. */
  function Ask(m: Timers, t: nat, request: Request, interval: nat): Timers
    requires t in m.timers
  {
    var timer := m.timers[t].(request := request, nextInterval := if request == Start then interval
        else m.timers[t].nextInterval);
    m.(timers := m.timers[t := timer], queue := Without(m.queue, t) + [t])
  }

  /** The timer after its start request was processed, its start time read as `now`. */
  function Started(timer: Timer, now: nat): Timer {
    timer.(active := true, interval := timer.nextInterval, start := now, request := NoRequest)
  }

  /** A request taken from the queue and acted on; a started timer is yet to be put in the list. */
  function Taken(m: Timers): Timers
    requires m.queue != [] && m.queue[0] in m.timers
  {
    var t := m.queue[0];
    var timer := m.timers[t];
    var timers := match timer.request
      case Start => m.timers[t := Started(timer, m.now)]
      case Halt => m.timers[t := timer.(active := false, request := NoRequest)]
      case Free => m.timers - {t}
      case NoRequest => m.timers;
    m.(timers := timers, list := Without(m.list, t), queue := m.queue[1..])
  }

  function Passed(m: Timers, ticks: nat): Timers {
    m.(now := m.now + ticks)
  }

  /** furi_event_loop_schedule_timer, at the present time. */
  function Scheduled(m: Timers, t: nat): Timers
    requires t in m.timers && Known(m.timers, m.list)
  {
    m.(list := InsertByRemaining(m.timers, m.list, t, m.now))
  }

  lemma TakenKnown(m: Timers)
    requires m.queue != [] && m.queue[0] in m.timers && Known(m.timers, m.list)
    ensures Known(Taken(m).timers, Taken(m).list)
  {
    var list := Taken(m).list;
    assert forall k :: 0 <= k < |list| ==> list[k] in list;
  }

  /** One round of the loop that drains the queue; `wait` ticks pass before a started timer is put in the list. */
  function ProcessOne(m: Timers, wait: nat): Timers
    requires m.queue != [] && Known(m.timers, m.queue) && Known(m.timers, m.list)
  {
    TakenKnown(m);
    var m1 := Passed(Taken(m), wait);
    if m.timers[m.queue[0]].request == Start then Scheduled(m1, m.queue[0]) else m1
  }

  /** A periodic timer moved on by as many whole intervals as have passed. */
  function Advanced(timer: Timer, now: nat): Timer
    requires timer.interval > 0 && timer.start <= now
  {
    timer.(start := timer.start + timer.interval * ((now - timer.start) / timer.interval))
  }

  predicate Expired(m: Timers, t: nat)
    requires t in m.timers
  {
    m.timers[t].Deadline() <= m.now
  }

  /** The timer that fires now, if any. */
  function Due(m: Timers): Option<nat>
    requires Known(m.timers, m.list)
  {
    if m.list == [] || !Expired(m, m.list[0]) then None else Some(m.list[0])
  }

  /** The front timer taken from the list, `read` ticks after it was found to be due. */
  function Popped(m: Timers, read: nat): Timers
    requires Ok(m) && Due(m).Some?
  {
    var t := m.list[0];
    assert t in m.list;
    var timer := m.timers[t];
    var timer' := if timer.periodic then Advanced(timer, m.now + read) else timer.(active := false);
    m.(timers := m.timers[t := timer'], list := m.list[1..], now := m.now + read)
  }

  /** Firing: the elapsed time of a periodic timer is read `read` ticks after it was found to be due, and `wait` ticks
      later it is put back in the list. */
  function Fired(m: Timers, read: nat, wait: nat): Timers
    requires Ok(m)
  {
    if Due(m) == None then m
    else
      var t := m.list[0];
      assert t in m.list;
      var m1 := Passed(Popped(m, read), wait);
      if m.timers[t].periodic then Scheduled(m1, t) else m1
  }

  // ---------- the invariant ----------

  /** A running timer started in the past, less than one turn of the tick counter ago. */
  predicate Running(timer: Timer, now: nat) {
    && timer.start <= now < timer.start + WRAP
    && timer.interval < WRAP
    && (timer.periodic ==> timer.interval > 0)
  }

  /** The queue holds each timer that has a request, once. */
  predicate QueueOk(timers: map<nat, Timer>, queue: seq<nat>) {
    && Known(timers, queue) && Distinct(queue)
    && (forall t :: t in timers ==> (timers[t].request != NoRequest <==> t in queue))
    && (forall t :: t in timers && timers[t].request == Start ==>
          timers[t].nextInterval < WRAP && (timers[t].periodic ==> timers[t].nextInterval > 0))
  }

  predicate AllRunning(timers: map<nat, Timer>, now: nat) {
    forall t :: t in timers && timers[t].active ==> Running(timers[t], now)
  }

  /** The list holds exactly the active timers, but for those of `out`, which are active and not in it. */
  predicate Listed(timers: map<nat, Timer>, list: seq<nat>, out: set<nat>) {
    forall t :: t in timers ==> (timers[t].active <==> t in list || t in out) && (t in out ==> t !in list)
  }

  predicate Ok(m: Timers) {
    && Ordered(m.timers, m.list, m.now) && Listed(m.timers, m.list, {})
    && QueueOk(m.timers, m.queue) && AllRunning(m.timers, m.now)
  }

  /** Time may pass as long as no active timer gets older than one turn of the tick counter. */
  predicate CanPass(m: Timers, ticks: nat) {
    forall t :: t in m.timers && m.timers[t].active ==> m.now + ticks < m.timers[t].start + WRAP
  }

  lemma PassingKeepsOk(m: Timers, ticks: nat)
    requires Ok(m) && CanPass(m, ticks)
    ensures Ok(Passed(m, ticks))
  {
    SortedLater(m.timers, m.list, m.now, m.now + ticks);
  }

  lemma AskKeepsOk(m: Timers, t: nat, request: Request, interval: nat)
    requires Ok(m) && t in m.timers && request != NoRequest
    requires request == Start ==> interval < WRAP && (m.timers[t].periodic ==> interval > 0)
    ensures Ok(Ask(m, t, request, interval))
  {
    var m' := Ask(m, t, request, interval);
    QueueAppend(m.queue, t);
    assert forall k :: 0 <= k < |m'.queue| ==> m'.queue[k] in m'.queue;
    assert forall k :: 0 <= k < |m.list| ==> m'.timers[m.list[k]].Deadline() == m.timers[m.list[k]].Deadline();
  }

  lemma {:induction false} QueueAppend(queue: seq<nat>, t: nat)
    requires Distinct(queue)
    ensures Distinct(Without(queue, t) + [t])
    ensures forall x :: x in Without(queue, t) + [t] <==> x in queue || x == t
  {
    WithoutDistinct(queue, t);
    var r := Without(queue, t);
    assert forall k :: 0 <= k < |r| ==> r[k] in r;
  }

  /** The invariant but for timer `t`, which is active and not in the list yet. */
  predicate OkBut(m: Timers, t: nat) {
    && t in m.timers && Ordered(m.timers, m.list, m.now) && Listed(m.timers, m.list, {t})
    && QueueOk(m.timers, m.queue) && AllRunning(m.timers, m.now)
  }

  lemma ScheduledKeepsOk(m: Timers, t: nat)
    requires OkBut(m, t)
    ensures Ok(Scheduled(m, t))
  {
    InsertKeepsOrder(m.timers, m.list, t, m.now);
  }

  lemma PassingKeepsOkBut(m: Timers, t: nat, ticks: nat)
    requires OkBut(m, t) && CanPass(m, ticks)
    ensures OkBut(Passed(m, ticks), t)
  {
    SortedLater(m.timers, m.list, m.now, m.now + ticks);
  }

  /** Putting that timer in the list, however late, restores the invariant. */
  lemma ScheduledLater(m: Timers, t: nat, wait: nat)
    requires OkBut(m, t) && CanPass(m, wait)
    ensures OkBut(Passed(m, wait), t) && Ok(Scheduled(Passed(m, wait), t))
  {
    PassingKeepsOkBut(m, t, wait);
    ScheduledKeepsOk(Passed(m, wait), t);
  }

  // ---------- requests ----------

  lemma QueueTail(queue: seq<nat>)
    requires queue != [] && Distinct(queue)
    ensures Distinct(queue[1..]) && queue[0] !in queue[1..]
    ensures forall x :: x in queue <==> x == queue[0] || x in queue[1..]
  {}

  /** The first request can be processed with `wait` ticks passing meanwhile. */
  predicate CanServe(m: Timers, wait: nat) {
    m.queue != [] && m.queue[0] in m.timers && CanPass(Taken(m), wait)
  }

  lemma TakenKeepsOk(m: Timers)
    requires Ok(m) && m.queue != []
    ensures m.queue[0] in m.timers && Known(Taken(m).timers, Taken(m).list)
    ensures if m.timers[m.queue[0]].request == Start then OkBut(Taken(m), m.queue[0]) else Ok(Taken(m))
  {
    var t, list := m.queue[0], Without(m.list, m.queue[0]);
    assert t in m.queue;
    WithoutKeepsOrder(m.timers, m.list, t, m.now);
    QueueTail(m.queue);
    assert forall k :: 0 <= k < |list| ==> list[k] in list;
    OrderOfOthers(m.timers, Taken(m).timers, list, m.now);
  }

  lemma ProcessOneKeepsOk(m: Timers, wait: nat)
    requires Ok(m) && CanServe(m, wait)
    ensures Ok(ProcessOne(m, wait))
  {
    TakenKeepsOk(m);
    if m.timers[m.queue[0]].request == Start {
      ScheduledLater(Taken(m), m.queue[0], wait);
    } else {
      PassingKeepsOk(Taken(m), wait);
    }
  }

  // ---------- periodic timers never drift ----------

  /** Dividing `elapsed` by a positive interval: at least one whole interval when it has passed, less than one left
      over. */
  lemma WholeIntervals(elapsed: nat, interval: nat)
    requires interval > 0
    ensures interval * (elapsed / interval) <= elapsed < interval * (elapsed / interval) + interval
    ensures interval <= elapsed ==> elapsed / interval >= 1
  {
    assert elapsed == interval * (elapsed / interval) + elapsed % interval;
    assert elapsed / interval == 0 ==> interval * (elapsed / interval) == 0;
  }

  /** Each firing moves the deadline of a periodic timer by a whole number of intervals, at least one, and leaves it
      after the moment `now` at which the elapsed time was read, and at most one interval away from it. */
  lemma NoDrift(timer: Timer, now: nat)
    requires timer.interval > 0 && timer.start <= now && timer.Deadline() <= now
    ensures exists k :: k >= 1 && WholeMove(timer, Advanced(timer, now), k)
    ensures now < Advanced(timer, now).Deadline() <= now + timer.interval
    ensures Advanced(timer, now).start <= now
  {
    var elapsed := now - timer.start;
    WholeIntervals(elapsed, timer.interval);
    assert WholeMove(timer, Advanced(timer, now), elapsed / timer.interval);
  }

  predicate WholeMove(before: Timer, after: Timer, k: nat) {
    after.Deadline() == before.Deadline() + before.interval * k && after.interval == before.interval
  }

  /** The front timer can fire with `read` and then `wait` ticks passing meanwhile. */
  predicate CanFire(m: Timers, read: nat, wait: nat)
    requires Ok(m)
  {
    Due(m).Some? ==> CanPass(m, read) && CanPass(Popped(m, read), wait)
  }

  /** The front timer taken off the list and changed: the others stay in order. */
  lemma FrontReplaced(m: Timers, timer: Timer)
    requires Ok(m) && m.list != [] && m.list[0] in m.timers && (timer.active ==> Running(timer, m.now))
    requires timer.request == m.timers[m.list[0]].request && timer.nextInterval == m.timers[m.list[0]].nextInterval
    requires timer.periodic == m.timers[m.list[0]].periodic
    ensures var m' := m.(timers := m.timers[m.list[0] := timer], list := m.list[1..]);
      if timer.active then OkBut(m', m.list[0]) else Ok(m')
  {
    QueueTail(m.list);
    OrderOfOthers(m.timers, m.timers[m.list[0] := timer], m.list[1..], m.now);
  }

  lemma AdvancedRuns(timer: Timer, now: nat)
    requires Running(timer, now) && timer.periodic && timer.Deadline() <= now
    ensures Running(Advanced(timer, now), now)
  {
    NoDrift(timer, now);
  }

  lemma FrontChanged(m: Timers, read: nat)
    requires Ok(m) && Due(m).Some? && CanPass(m, read)
    ensures var timer, timer' := m.timers[m.list[0]], Popped(m, read).timers[m.list[0]];
      && timer'.active == timer.periodic == timer'.periodic && timer'.request == timer.request
      && timer'.nextInterval == timer.nextInterval && (timer'.active ==> Running(timer', m.now + read))
  {
    var t := m.list[0];
    assert t in m.list;
    if m.timers[t].periodic { AdvancedRuns(m.timers[t], m.now + read); }
  }

  lemma PoppedKeepsOk(m: Timers, read: nat)
    requires Ok(m) && Due(m).Some? && CanPass(m, read)
    ensures if m.timers[m.list[0]].periodic then OkBut(Popped(m, read), m.list[0]) else Ok(Popped(m, read))
  {
    PassingKeepsOk(m, read);
    FrontChanged(m, read);
    FrontReplaced(Passed(m, read), Popped(m, read).timers[m.list[0]]);
  }

  lemma FiredKeepsOk(m: Timers, read: nat, wait: nat)
    requires Ok(m) && CanFire(m, read, wait)
    ensures Ok(Fired(m, read, wait))
  {
    if Due(m).Some? {
      PoppedKeepsOk(m, read);
      if m.timers[m.list[0]].periodic {
        ScheduledLater(Popped(m, read), m.list[0], wait);
      } else {
        PassingKeepsOk(Popped(m, read), wait);
      }
    }
  }

  // ---------- the front of the list speaks for all timers ----------

  /** No active timer has less time left than the front of the list; when the front is not due, none is. */
  lemma FrontIsEarliest(m: Timers)
    requires Ok(m)
    ensures forall t :: t in m.timers && m.timers[t].active ==>
      m.list != [] && Remaining(m.timers[m.list[0]], m.now) <= Remaining(m.timers[t], m.now)
    ensures Due(m) == None <==> forall t :: t in m.timers && m.timers[t].active ==> !Expired(m, t)
  {
    forall t | t in m.timers && m.timers[t].active
      ensures m.list != [] && Remaining(m.timers[m.list[0]], m.now) <= Remaining(m.timers[t], m.now)
    {
      var k :| 0 <= k < |m.list| && m.list[k] == t;
    }
    if m.list != [] { assert m.list[0] in m.list; }
  }

  /** Sleeping for the front timer's remaining time, or any shorter time, makes no other timer late. */
  lemma WaitTimeIsLeast(m: Timers, t: nat)
    requires Ok(m) && t in m.timers && m.timers[t].active
    ensures m.list != [] && Remaining(m.timers[m.list[0]], m.now) <= Remaining(m.timers[t], m.now)
    ensures forall wait :: 0 <= wait < Remaining(m.timers[m.list[0]], m.now) ==> !Expired(Passed(m, wait), t)
  {
    FrontIsEarliest(m);
  }

  /** Sleeping for the front timer's remaining time ends at the first moment at which a timer is due. */
  lemma WakesWhenDue(m: Timers)
    requires Ok(m) && m.list != []
    ensures m.list[0] in m.timers
    ensures var wait := Remaining(m.timers[m.list[0]], m.now);
      Due(Passed(m, wait)).Some? && forall earlier :: 0 <= earlier < wait ==> Due(Passed(m, earlier)) == None
  {}

  // ---------- draining the request queue ----------

  /** Ticks that pass before a request is taken, and from then until the timer is in the list. */
  datatype Delay = Delay(before: nat, during: nat)

  predicate CanTake(m: Timers, d: Delay) {
    CanPass(m, d.before) && CanServe(Passed(m, d.before), d.during)
  }

  /** One request served, time passing before and meanwhile. */
  function Served(m: Timers, d: Delay): Timers
    requires Ok(m) && CanTake(m, d)
  {
    ProcessOne(Passed(m, d.before), d.during)
  }

  lemma ServedKeepsOk(m: Timers, d: Delay)
    requires Ok(m) && CanTake(m, d)
    ensures Ok(Served(m, d)) && Served(m, d).queue == m.queue[1..]
    ensures Served(m, d).now == m.now + d.before + d.during
  {
    PassingKeepsOk(m, d.before);
    ProcessOneKeepsOk(Passed(m, d.before), d.during);
  }

  /** The queue can be drained with these delays. */
  predicate InTime(m: Timers, delays: seq<Delay>)
    requires Ok(m)
    decreases |delays|
  {
    m.queue == [] ||
    (delays != [] && CanTake(m, delays[0]) && (ServedKeepsOk(m, delays[0]); InTime(Served(m, delays[0]), delays[1..])))
  }

  function ProcessQueue(m: Timers, delays: seq<Delay>): Timers
    requires Ok(m) && InTime(m, delays)
    decreases |delays|
  {
    if m.queue == [] then m
    else
      ServedKeepsOk(m, delays[0]);
      ProcessQueue(Served(m, delays[0]), delays[1..])
  }

  /** After draining, no request is left and the list is in order. */
  lemma {:induction false} DrainedQueue(m: Timers, delays: seq<Delay>)
    requires Ok(m) && InTime(m, delays)
    ensures Ok(ProcessQueue(m, delays)) && ProcessQueue(m, delays).queue == []
    ensures m.now <= ProcessQueue(m, delays).now
    decreases |delays|
  {
    if m.queue != [] {
      ServedKeepsOk(m, delays[0]);
      DrainedQueue(Served(m, delays[0]), delays[1..]);
    }
  }

  function Find(timers: map<nat, Timer>, t: nat): Option<Timer> {
    if t in timers then Some(timers[t]) else None
  }

  /** What becomes of a timer when its request is taken at time `now`. */
  function Obeying(timer: Timer, now: nat): Option<Timer> {
    match timer.request
    case Start => Some(Started(timer, now))
    case Halt => Some(timer.(active := false, request := NoRequest))
    case Free => None
    case NoRequest => Some(timer)
  }

  /** From `m` to `next` the first request is obeyed, and all other timers are left alone. */
  ghost predicate Obeys(m: Timers, d: Delay, next: Timers) {
    && m.queue != [] && next.queue == m.queue[1..] && next.now == m.now + d.before + d.during
    && m.queue[0] in m.timers
    && forall t :: Find(next.timers, t) ==
         if t == m.queue[0] then Obeying(m.timers[m.queue[0]], m.now + d.before) else Find(m.timers, t)
  }

  lemma ServedTimer(m: Timers, d: Delay, t: nat)
    requires Ok(m) && CanTake(m, d)
    ensures m.queue[0] in m.timers
    ensures Find(Served(m, d).timers, t) ==
      if t == m.queue[0] then Obeying(m.timers[m.queue[0]], m.now + d.before) else Find(m.timers, t)
  {
    assert m.queue[0] in m.queue;
  }

  lemma ServedObeys(m: Timers, d: Delay)
    requires Ok(m) && CanTake(m, d)
    ensures Obeys(m, d, Served(m, d))
  {
    ServedKeepsOk(m, d);
    ServedTimer(m, d, m.queue[0]);
    forall t ensures Find(Served(m, d).timers, t) ==
      if t == m.queue[0] then Obeying(m.timers[m.queue[0]], m.now + d.before) else Find(m.timers, t)
    {
      ServedTimer(m, d, t);
    }
  }

  ghost predicate ObeysAt(all: seq<Timers>, delays: seq<Delay>, i: nat) {
    i + 1 < |all| ==> i < |delays| && Obeys(all[i], delays[i], all[i + 1])
  }

  /** The states of a drain, one before each request and the last one. */
  lemma {:induction false} DrainStates(m: Timers, delays: seq<Delay>) returns (all: seq<Timers>)
    requires Ok(m) && InTime(m, delays)
    ensures |all| == |m.queue| + 1 && all[0] == m && all[|m.queue|] == ProcessQueue(m, delays)
    ensures forall i: nat :: ObeysAt(all, delays, i)
    decreases |delays|
  {
    if m.queue == [] {
      all := [m];
    } else {
      ServedKeepsOk(m, delays[0]);
      ServedObeys(m, delays[0]);
      var rest := DrainStates(Served(m, delays[0]), delays[1..]);
      all := [m] + rest;
      DrainBegins(m, delays, rest);
    }
  }

  lemma DrainBegins(m: Timers, delays: seq<Delay>, rest: seq<Timers>)
    requires delays != [] && rest != [] && Obeys(m, delays[0], rest[0])
    requires forall i: nat :: ObeysAt(rest, delays[1..], i)
    ensures forall i: nat :: ObeysAt([m] + rest, delays, i)
  {
    forall i: nat ensures ObeysAt([m] + rest, delays, i) {
      if i > 0 { assert ObeysAt(rest, delays[1..], i - 1); }
    }
  }

  /** The time that passes in the first `k` rounds. */
  function Elapsed(delays: seq<Delay>, k: nat): nat
    requires k <= |delays|
  {
    if k == 0 then 0 else Elapsed(delays, k - 1) + delays[k - 1].before + delays[k - 1].during
  }

  lemma {:induction false} AtRound(all: seq<Timers>, delays: seq<Delay>, k: nat)
    requires k < |all| && forall i: nat :: ObeysAt(all, delays, i)
    ensures k <= |delays| && k <= |all[0].queue|
    ensures all[k].queue == all[0].queue[k..] && all[k].now == all[0].now + Elapsed(delays, k)
  {
    if k > 0 {
      AtRound(all, delays, k - 1);
      assert ObeysAt(all, delays, k - 1);
    }
  }

  /** Rounds for other timers leave a timer alone. */
  lemma {:induction false} TimerKept(all: seq<Timers>, delays: seq<Delay>, t: nat, i: nat, j: nat)
    requires i <= j < |all| && forall l: nat :: ObeysAt(all, delays, l)
    requires forall l :: i <= l < j && all[l].queue != [] ==> all[l].queue[0] != t
    ensures Find(all[j].timers, t) == Find(all[i].timers, t)
    decreases j
  {
    if i < j {
      TimerKept(all, delays, t, i, j - 1);
      assert ObeysAt(all, delays, j - 1);
    }
  }

  /** Draining does nothing to a timer without a request. */
  lemma DrainLeaves(m: Timers, delays: seq<Delay>, t: nat)
    requires Ok(m) && InTime(m, delays) && t !in m.queue
    ensures Find(ProcessQueue(m, delays).timers, t) == Find(m.timers, t)
  {
    var all := DrainStates(m, delays);
    forall l | 0 <= l < |m.queue| && all[l].queue != [] ensures all[l].queue[0] != t { AtRound(all, delays, l); }
    TimerKept(all, delays, t, 0, |m.queue|);
  }

  /** When the request at place `k` of the queue is taken in a drain that begins at `start`. */
  function TakenTime(start: nat, delays: seq<Delay>, k: nat): nat
    requires k < |delays|
  {
    start + Elapsed(delays, k) + delays[k].before
  }

  lemma ObeyedAtRound(m: Timers, d: Delay, next: Timers, t: nat, time: nat)
    requires Obeys(m, d, next) && t == m.queue[0] && time == m.now + d.before
    ensures t in m.timers && Find(next.timers, t) == Obeying(m.timers[t], time)
  {}

  /** Round `k` of a drain, for the timer whose request it takes. */
  lemma RoundOf(all: seq<Timers>, delays: seq<Delay>, t: nat, k: nat)
    requires k + 1 < |all| && forall i: nat :: ObeysAt(all, delays, i)
    requires k < |all[0].queue| && t == all[0].queue[k]
    ensures k < |delays| && t in all[k].timers
    ensures Find(all[k + 1].timers, t) == Obeying(all[k].timers[t], TakenTime(all[0].now, delays, k))
  {
    AtRound(all, delays, k);
    assert ObeysAt(all, delays, k);
    ObeyedAtRound(all[k], delays[k], all[k + 1], t, TakenTime(all[0].now, delays, k));
  }

  lemma OtherRounds(all: seq<Timers>, delays: seq<Delay>, t: nat, k: nat)
    requires k + 1 < |all| && forall i: nat :: ObeysAt(all, delays, i)
    requires k < |all[0].queue| == |all| - 1 && Distinct(all[0].queue) && t == all[0].queue[k]
    ensures Find(all[k].timers, t) == Find(all[0].timers, t)
    ensures Find(all[|all| - 1].timers, t) == Find(all[k + 1].timers, t)
  {
    forall l | 0 <= l < |all| && l != k && all[l].queue != [] ensures all[l].queue[0] != t { AtRound(all, delays, l); }
    TimerKept(all, delays, t, 0, k);
    TimerKept(all, delays, t, k + 1, |all| - 1);
  }

  /** A request was carried out at `time`: a start made the timer run from then on for the interval that was asked for,
      a stop made it stop, and a free made it go. */
  predicate CarriedOut(before: Timer, after: Option<Timer>, time: nat) {
    match before.request
    case Start => after.Some? && after.value.active && after.value.start == time &&
      after.value.interval == before.nextInterval && after.value.periodic == before.periodic &&
      after.value.request == NoRequest
    case Halt => after.Some? && !after.value.active && after.value.request == NoRequest
    case Free => after == None
    case NoRequest => after == Some(before)
  }

  lemma ObeyingCarriesOut(timer: Timer, after: Option<Timer>, time: nat)
    requires after == Obeying(timer, time)
    ensures CarriedOut(timer, after, time)
  {}

  /** Draining does to each timer what its own pending request says, a start taking effect at the moment its request is
      taken. */
  lemma DrainedTimer(m: Timers, delays: seq<Delay>, k: nat)
    requires Ok(m) && InTime(m, delays) && k < |m.queue|
    ensures k < |delays| && m.queue[k] in m.timers
    ensures CarriedOut(m.timers[m.queue[k]], Find(ProcessQueue(m, delays).timers, m.queue[k]),
                       TakenTime(m.now, delays, k))
  {
    var all := DrainStates(m, delays);
    RoundOf(all, delays, m.queue[k], k);
    OtherRounds(all, delays, m.queue[k], k);
    ObeyingCarriesOut(m.timers[m.queue[k]], Find(all[|m.queue|].timers, m.queue[k]), TakenTime(m.now, delays, k));
  }

  /** From `m` to `after` every pending request was carried out when it was taken. */
  ghost predicate AllCarriedOut(m: Timers, delays: seq<Delay>, after: Timers)
    requires Ok(m)
  {
    |m.queue| <= |delays| && forall k :: 0 <= k < |m.queue| ==>
      CarriedOut(m.timers[m.queue[k]], Find(after.timers, m.queue[k]), TakenTime(m.now, delays, k))
  }

  lemma DrainedTimers(m: Timers, delays: seq<Delay>)
    requires Ok(m) && InTime(m, delays)
    ensures AllCarriedOut(m, delays, ProcessQueue(m, delays))
  {
    if m.queue != [] { DrainedTimer(m, delays, |m.queue| - 1); }
    forall k | 0 <= k < |m.queue|
      ensures CarriedOut(m.timers[m.queue[k]], Find(ProcessQueue(m, delays).timers, m.queue[k]),
                         TakenTime(m.now, delays, k))
    {
      DrainedTimer(m, delays, k);
    }
  }

  // ---------- whole runs ----------

  /** Serve is one request of a drain; time passes inside it and inside Fire, and with Pass between any two. */
  datatype Action =
    | Create(timer: nat, periodic: bool)
    | Request(timer: nat, request: Request, interval: nat)
    | Serve(wait: nat)
    | Fire(read: nat, wait: nat)
    | Pass(ticks: nat)

  /** What the callers owe: fresh timers, positive intervals for periodic timers, no timer left unserved for a turn
      of the counter. */
  predicate Allowed(m: Timers, a: Action)
    requires Ok(m)
  {
    match a
    case Create(t, _) => t !in m.timers
    case Request(t, request, interval) => t in m.timers && request != NoRequest &&
      (request == Start ==> interval < WRAP && (m.timers[t].periodic ==> interval > 0))
    case Serve(wait) => CanServe(m, wait)
    case Fire(read, wait) => CanFire(m, read, wait)
    case Pass(ticks) => CanPass(m, ticks)
  }

  function Act(m: Timers, a: Action): (m': Timers)
    requires Ok(m) && Allowed(m, a)
  {
    match a
    case Create(t, periodic) => m.(timers := m.timers[t := Timer(0, 0, 0, NoRequest, false, periodic)])
    case Request(t, request, interval) => Ask(m, t, request, interval)
    case Serve(wait) => ProcessOne(m, wait)
    case Fire(read, wait) => Fired(m, read, wait)
    case Pass(ticks) => Passed(m, ticks)
  }

  lemma CreateKeepsOk(m: Timers, t: nat, periodic: bool)
    requires Ok(m) && t !in m.timers
    ensures Ok(m.(timers := m.timers[t := Timer(0, 0, 0, NoRequest, false, periodic)]))
  {
    OrderOfOthers(m.timers, m.timers[t := Timer(0, 0, 0, NoRequest, false, periodic)], m.list, m.now);
    assert t !in m.list && t !in m.queue;
  }

  /** Every action, whatever time passes inside it, keeps the list in order and the rest of the invariant. */
  lemma ActKeepsOk(m: Timers, a: Action)
    requires Ok(m) && Allowed(m, a)
    ensures Ok(Act(m, a)) && m.now <= Act(m, a).now
  {
    match a
    case Create(t, periodic) => CreateKeepsOk(m, t, periodic);
    case Request(t, request, interval) => AskKeepsOk(m, t, request, interval);
    case Serve(wait) => ProcessOneKeepsOk(m, wait);
    case Fire(read, wait) => FiredKeepsOk(m, read, wait);
    case Pass(ticks) => PassingKeepsOk(m, ticks);
  }

  /** Action `i` of a run. */
  ghost predicate ActsAt(states: seq<Timers>, actions: seq<Action>, i: nat) {
    i < |actions| && i + 1 < |states| ==>
      Ok(states[i]) && Allowed(states[i], actions[i]) && states[i + 1] == Act(states[i], actions[i])
  }

  ghost predicate TimerRun(states: seq<Timers>, actions: seq<Action>) {
    |states| == |actions| + 1 && Ok(states[0]) && forall i: nat :: ActsAt(states, actions, i)
  }

  /** Over every run from a state in order, the list stays in order of remaining time, at each state and at every later
      moment. */
  lemma {:induction false} RunKeepsOk(states: seq<Timers>, actions: seq<Action>, n: nat)
    requires TimerRun(states, actions) && n <= |actions|
    ensures Ok(states[n])
    ensures forall later :: states[n].now <= later ==> Sorted(states[n].timers, states[n].list, later)
  {
    if n > 0 {
      RunKeepsOk(states, actions, n - 1);
      assert ActsAt(states, actions, n - 1);
      ActKeepsOk(states[n - 1], actions[n - 1]);
    }
    forall later | states[n].now <= later ensures Sorted(states[n].timers, states[n].list, later) {
      SortedLater(states[n].timers, states[n].list, states[n].now, later);
    }
  }

  // ---------- true deadlines ----------

  /** Some listed timer is due after `t`, but no later than `now`. */
  predicate Overtaken(timers: map<nat, Timer>, list: seq<nat>, t: nat, now: nat)
    requires Known(timers, list) && t in timers
  {
    exists k :: 0 <= k < |list| && timers[t].Deadline() < timers[list[k]].Deadline() <= now
  }

  lemma DeadlineOrderAt(timers: map<nat, Timer>, list: seq<nat>, i: nat, t: nat)
    requires Known(timers, list) && t in timers && InDeadlineOrder(timers, list) && i <= |list|
    requires forall k :: 0 <= k < i ==> timers[list[k]].Deadline() <= timers[t].Deadline()
    requires forall k :: i <= k < |list| ==> timers[t].Deadline() <= timers[list[k]].Deadline()
    ensures Known(timers, InsertAt(list, i, t)) && InDeadlineOrder(timers, InsertAt(list, i, t))
  {}

  lemma OvertakenIsOutOfOrder(timers: map<nat, Timer>, list: seq<nat>, i: nat, t: nat, now: nat)
    requires Known(timers, list) && t in timers && i <= |list| && Overtaken(timers, list, t, now)
    requires forall k :: i <= k < |list| ==> Remaining(timers[t], now) < Remaining(timers[list[k]], now)
    requires Known(timers, InsertAt(list, i, t))
    ensures !InDeadlineOrder(timers, InsertAt(list, i, t))
  {
    var k :| 0 <= k < |list| && timers[t].Deadline() < timers[list[k]].Deadline() <= now;
    assert k < i && InsertAt(list, i, t)[k] == list[k] && InsertAt(list, i, t)[i] == t;
  }

  /** A timer put in at `now` keeps the list in order of true deadline exactly when no listed timer is due after it and
      has expired too. */
  lemma InsertInDeadlineOrderIff(timers: map<nat, Timer>, list: seq<nat>, t: nat, now: nat)
    requires Known(timers, list) && t in timers && InDeadlineOrder(timers, list) && Distinct(list) && t !in list
    ensures Known(timers, InsertByRemaining(timers, list, t, now))
    ensures InDeadlineOrder(timers, InsertByRemaining(timers, list, t, now)) <==> !Overtaken(timers, list, t, now)
  {
    DeadlineOrderIsSorted(timers, list, now);
    InsertKeepsOrder(timers, list, t, now);
    var i := InsertLands(timers, list, t, now);
    assert InsertByRemaining(timers, list, t, now) == InsertAt(list, i, t);
    if Overtaken(timers, list, t, now) {
      OvertakenIsOutOfOrder(timers, list, i, t, now);
    } else {
      DeadlineOrderAt(timers, list, i, t);
    }
  }

  lemma DeadlineOrderIsSorted(timers: map<nat, Timer>, list: seq<nat>, now: nat)
    requires Known(timers, list) && InDeadlineOrder(timers, list)
    ensures Sorted(timers, list, now)
  {}

  /** The action puts a timer in the list behind one with a later deadline. */
  predicate Overtakes(m: Timers, a: Action)
    requires Ok(m) && Allowed(m, a)
  {
    match a
    case Serve(wait) => m.timers[m.queue[0]].request == Start && IsOvertaken(Taken(m), m.queue[0], m.now + wait)
    case Fire(read, wait) => Due(m).Some? && m.timers[m.list[0]].periodic &&
      IsOvertaken(Popped(m, read), m.list[0], m.now + read + wait)
    case _ => false
  }

  predicate IsOvertaken(m: Timers, t: nat, now: nat) {
    Known(m.timers, m.list) && t in m.timers && Overtaken(m.timers, m.list, t, now)
  }

  lemma DeadlinesOfOthers(timers: map<nat, Timer>, timers': map<nat, Timer>, list: seq<nat>)
    requires Known(timers, list)
    requires forall k :: 0 <= k < |list| ==> list[k] in timers' && timers'[list[k]] == timers[list[k]]
    ensures Known(timers', list) && (InDeadlineOrder(timers', list) <==> InDeadlineOrder(timers, list))
  {}

  /** Putting a timer in the list late. */
  lemma ScheduledInDeadlineOrderIff(m: Timers, t: nat, wait: nat)
    requires OkBut(m, t) && CanPass(m, wait) && InDeadlineOrder(m.timers, m.list)
    ensures var m' := Scheduled(Passed(m, wait), t);
      Known(m'.timers, m'.list) && (InDeadlineOrder(m'.timers, m'.list) <==> !IsOvertaken(m, t, m.now + wait))
  {
    InsertInDeadlineOrderIff(m.timers, m.list, t, m.now + wait);
  }

  lemma {:induction false} WithoutKeepsDeadlineOrder(timers: map<nat, Timer>, list: seq<nat>, t: nat)
    requires Known(timers, list) && InDeadlineOrder(timers, list)
    ensures Known(timers, Without(list, t)) && InDeadlineOrder(timers, Without(list, t))
    decreases |list|
  {
    if list != [] {
      assert forall k :: 0 <= k < |list| - 1 ==> list[1..][k] == list[k + 1];
      WithoutKeepsDeadlineOrder(timers, list[1..], t);
      FirstKeepsDeadlineOrder(timers, list, Without(list[1..], t));
    }
  }

  /** The first of the list before some of the others that are in order. */
  lemma FirstKeepsDeadlineOrder(timers: map<nat, Timer>, list: seq<nat>, rest: seq<nat>)
    requires list != [] && Known(timers, list) && InDeadlineOrder(timers, list)
    requires (forall x :: x in rest ==> x in list[1..]) && Known(timers, rest) && InDeadlineOrder(timers, rest)
    ensures Known(timers, [list[0]] + rest) && InDeadlineOrder(timers, [list[0]] + rest)
  {
    forall k | 0 <= k < |rest| ensures timers[list[0]].Deadline() <= timers[rest[k]].Deadline() {
      assert rest[k] in rest;
      assert rest[k] in list[1..];
    }
  }

  /** An action keeps the order of true deadlines exactly when it puts no timer behind one that is due after it. */
  lemma ActInDeadlineOrderIff(m: Timers, a: Action)
    requires Ok(m) && Allowed(m, a) && InDeadlineOrder(m.timers, m.list)
    ensures Ok(Act(m, a))
    ensures InDeadlineOrder(Act(m, a).timers, Act(m, a).list) <==> !Overtakes(m, a)
  {
    ActKeepsOk(m, a);
    match a
    case Serve(wait) => ServedInDeadlineOrderIff(m, wait);
    case Fire(read, wait) => if Due(m).Some? { FiredInDeadlineOrderIff(m, read, wait); }
    case Request(t, request, interval) =>
      assert forall k :: 0 <= k < |m.list| ==> Act(m, a).timers[m.list[k]].Deadline() == m.timers[m.list[k]].Deadline();
    case Create(t, periodic) => assert t !in m.list;
    case _ =>
  }

  lemma TakenInDeadlineOrder(m: Timers)
    requires Ok(m) && m.queue != [] && m.queue[0] in m.timers && InDeadlineOrder(m.timers, m.list)
    ensures Known(Taken(m).timers, Taken(m).list) && InDeadlineOrder(Taken(m).timers, Taken(m).list)
  {
    var list := Taken(m).list;
    WithoutKeepsDeadlineOrder(m.timers, m.list, m.queue[0]);
    assert forall k :: 0 <= k < |list| ==> list[k] in list;
    DeadlinesOfOthers(m.timers, Taken(m).timers, list);
  }

  lemma ServedInDeadlineOrderIff(m: Timers, wait: nat)
    requires Ok(m) && CanServe(m, wait) && InDeadlineOrder(m.timers, m.list) && Ok(ProcessOne(m, wait))
    ensures InDeadlineOrder(ProcessOne(m, wait).timers, ProcessOne(m, wait).list) <==> !Overtakes(m, Serve(wait))
  {
    TakenKeepsOk(m);
    TakenInDeadlineOrder(m);
    if m.timers[m.queue[0]].request == Start { ScheduledInDeadlineOrderIff(Taken(m), m.queue[0], wait); }
  }

  lemma PoppedInDeadlineOrder(m: Timers, read: nat)
    requires Ok(m) && Due(m).Some? && InDeadlineOrder(m.timers, m.list)
    ensures Known(Popped(m, read).timers, Popped(m, read).list)
    ensures InDeadlineOrder(Popped(m, read).timers, Popped(m, read).list)
  {
    QueueTail(m.list);
    DeadlinesOfOthers(m.timers, Popped(m, read).timers, m.list[1..]);
  }

  lemma FiredInDeadlineOrderIff(m: Timers, read: nat, wait: nat)
    requires Ok(m) && CanFire(m, read, wait) && Due(m).Some? && InDeadlineOrder(m.timers, m.list)
    requires Ok(Fired(m, read, wait))
    ensures InDeadlineOrder(Fired(m, read, wait).timers, Fired(m, read, wait).list) <==>
      !Overtakes(m, Fire(read, wait))
  {
    PoppedKeepsOk(m, read);
    PoppedInDeadlineOrder(m, read);
    if m.timers[m.list[0]].periodic { ScheduledInDeadlineOrderIff(Popped(m, read), m.list[0], wait); }
  }

  /** A timer that is put in the list no later than its own deadline is never out of order. */
  lemma PromptInsertion(timers: map<nat, Timer>, list: seq<nat>, t: nat, now: nat)
    requires Known(timers, list) && t in timers && now <= timers[t].Deadline()
    ensures !Overtaken(timers, list, t, now)
  {}

  /** Over every run the list stays in order of true deadline, as long as no action puts a timer behind one that is due
      after it. */
  lemma {:induction false} RunInDeadlineOrder(states: seq<Timers>, actions: seq<Action>, n: nat)
    requires TimerRun(states, actions) && n <= |actions| && InDeadlineOrder(states[0].timers, states[0].list)
    requires forall j :: 0 <= j < n && Ok(states[j]) && Allowed(states[j], actions[j]) ==>
      !Overtakes(states[j], actions[j])
    ensures Ok(states[n]) && InDeadlineOrder(states[n].timers, states[n].list)
  {
    if n > 0 {
      RunInDeadlineOrder(states, actions, n - 1);
      assert ActsAt(states, actions, n - 1);
      ActInDeadlineOrderIff(states[n - 1], actions[n - 1]);
    }
  }

  /** A timer with no time to run is to be started at 10; another one is due at 11. */
  function AboutToStart(): Timers {
    Timers(map[1 := Timer(0, 0, 0, Start, false, false), 2 := Timer(1, 10, 1, NoRequest, true, false)], [2], [1], 10)
  }

  /** The order is lost when a tick comes while the first one is being started: it is due at 10 and lands behind. */
  lemma LateStart()
    ensures var m := AboutToStart();
      Ok(m) && InDeadlineOrder(m.timers, m.list) && Allowed(m, Serve(1))
      && var m' := Act(m, Serve(1));
        m'.list == [2, 1] && m'.timers[2].Deadline() == 11 && m'.timers[1].Deadline() == 10
  {
    AbsentWithout([2], 1);
    assert InsertByRemaining(Taken(AboutToStart()).timers, [2], 1, 11) == [2] + [1];
  }

  /** A timer of period 1 is due at 10; another one is due at 12. */
  function AboutToFire(): Timers {
    Timers(map[1 := Timer(1, 9, 1, NoRequest, true, true), 2 := Timer(2, 10, 2, NoRequest, true, false)], [1, 2], [],
      10)
  }

  lemma AboutToFireIsOk()
    ensures var m := AboutToFire(); Ok(m) && InDeadlineOrder(m.timers, m.list) && Due(m) == Some(1)
  {}

  /** It is lost, too, when two ticks come while the first one is being put back: it is due at 11 and lands behind. */
  lemma LatePeriod()
    ensures var m := AboutToFire();
      Ok(m) && InDeadlineOrder(m.timers, m.list) && Allowed(m, Fire(0, 2))
      && var m' := Act(m, Fire(0, 2));
        m'.list == [2, 1] && m'.timers[2].Deadline() == 12 && m'.timers[1].Deadline() == 11
  {
    AboutToFireIsOk();
    var timers := Popped(AboutToFire(), 0).timers;
    assert timers[1] == Timer(1, 10, 1, NoRequest, true, true);
    assert AboutToFire().list[1..] == [2];
    assert InsertByRemaining(timers, [2], 1, 12) == [2] + [1];
  }

  // ---------- first in, first out ----------

  ghost predicate Precedes(list: seq<nat>, t: nat, u: nat) {
    exists i, j :: 0 <= i < j < |list| && list[i] == t && list[j] == u
  }

  lemma {:induction false} WithoutKeepsPlace(list: seq<nat>, x: nat, t: nat, u: nat)
    requires Precedes(list, t, u) && x != t && x != u
    ensures Precedes(Without(list, x), t, u)
  {
    var i, j :| 0 <= i < j < |list| && list[i] == t && list[j] == u;
    var tail := Without(list[1..], x);
    assert list[1..][j - 1] == u;
    if i == 0 {
      assert u in tail;
      var k :| 0 <= k < |tail| && tail[k] == u;
      assert Without(list, x) == [t] + tail;
      assert Without(list, x)[0] == t && Without(list, x)[k + 1] == u;
    } else {
      assert list[1..][i - 1] == t;
      WithoutKeepsPlace(list[1..], x, t, u);
      var k, l :| 0 <= k < l < |tail| && tail[k] == t && tail[l] == u;
      var r := Without(list, x);
      var shift := if list[0] == x then 0 else 1;
      assert r[k + shift] == t && r[l + shift] == u;
    }
  }

  lemma InsertKeepsPlace(list: seq<nat>, i: nat, x: nat, t: nat, u: nat)
    requires Precedes(list, t, u) && i <= |list|
    ensures Precedes(list[..i] + [x] + list[i..], t, u)
  {
    var k, l :| 0 <= k < l < |list| && list[k] == t && list[l] == u;
    var r := list[..i] + [x] + list[i..];
    assert r[if k < i then k else k + 1] == t && r[if l < i then l else l + 1] == u;
  }

  lemma ScheduledKeepsPlace(m: Timers, x: nat, t: nat, u: nat)
    requires x in m.timers && Ordered(m.timers, m.list, m.now) && Precedes(m.list, t, u)
    ensures Precedes(Scheduled(m, x).list, t, u)
  {
    var i := InsertLands(m.timers, m.list, x, m.now);
    InsertKeepsPlace(m.list, i, x, t, u);
  }

  /** Processing another timer's request leaves two timers in their order. */
  lemma ProcessKeepsPlace(m: Timers, wait: nat, t: nat, u: nat)
    requires Ok(m) && CanServe(m, wait) && m.queue[0] != t && m.queue[0] != u && Precedes(m.list, t, u)
    ensures Precedes(ProcessOne(m, wait).list, t, u)
  {
    WithoutKeepsPlace(m.list, m.queue[0], t, u);
    TakenKeepsOk(m);
    if m.timers[m.queue[0]].request == Start {
      PassingKeepsOkBut(Taken(m), m.queue[0], wait);
      ScheduledKeepsPlace(Passed(Taken(m), wait), m.queue[0], t, u);
    }
  }

  lemma FrontIsNotLater(list: seq<nat>, t: nat, u: nat)
    requires Distinct(list) && Precedes(list, t, u)
    ensures list[0] != u && (list[0] != t ==> Precedes(list[1..], t, u))
  {
    var i, j :| 0 <= i < j < |list| && list[i] == t && list[j] == u;
    if list[0] != t { assert list[1..][i - 1] == t && list[1..][j - 1] == u; }
  }

  /** A timer never fires while another one is before it in the list, and firing a third leaves the two in their
      order. */
  lemma FireKeepsPlace(m: Timers, read: nat, wait: nat, t: nat, u: nat)
    requires Ok(m) && CanFire(m, read, wait) && Precedes(m.list, t, u)
    ensures Due(m) != Some(u)
    ensures Due(m) != Some(t) ==> Precedes(Fired(m, read, wait).list, t, u)
  {
    FrontIsNotLater(m.list, t, u);
    if Due(m).Some? && Due(m) != Some(t) && m.timers[m.list[0]].periodic {
      PoppedKeepsOk(m, read);
      PassingKeepsOkBut(Popped(m, read), m.list[0], wait);
      ScheduledKeepsPlace(Passed(Popped(m, read), wait), m.list[0], t, u);
    }
  }

  /** Up to state `n` timer `t` does not fire, and no request for either timer is processed. */
  ghost predicate LeftAlone(states: seq<Timers>, actions: seq<Action>, t: nat, u: nat, n: nat)
    requires |states| == |actions| + 1
  {
    forall j :: 0 <= j < n && j < |actions| && Ok(states[j]) ==>
      && (actions[j].Fire? ==> Due(states[j]) != Some(t))
      && (actions[j].Serve? && states[j].queue != [] ==> states[j].queue[0] != t && states[j].queue[0] != u)
  }

  lemma {:induction false} StaysBefore(states: seq<Timers>, actions: seq<Action>, t: nat, u: nat, n: nat)
    requires TimerRun(states, actions) && n <= |actions| && Precedes(states[0].list, t, u)
    requires LeftAlone(states, actions, t, u, n)
    ensures Ok(states[n]) && Precedes(states[n].list, t, u)
  {
    RunKeepsOk(states, actions, n);
    if n > 0 {
      StaysBefore(states, actions, t, u, n - 1);
      assert ActsAt(states, actions, n - 1);
      match actions[n - 1]
      case Fire(read, wait) => FireKeepsPlace(states[n - 1], read, wait, t, u);
      case Serve(wait) => ProcessKeepsPlace(states[n - 1], wait, t, u);
      case _ =>
    }
  }

  /** Timers fire in the order of the list: as long as neither is started, stopped or freed, a timer does not fire
      before one ahead of it, which by `InsertLands` includes those with no more time left scheduled earlier. */
  lemma FiresInOrder(states: seq<Timers>, actions: seq<Action>, t: nat, u: nat, n: nat)
    requires TimerRun(states, actions) && n < |actions| && actions[n].Fire? && Precedes(states[0].list, t, u)
    requires LeftAlone(states, actions, t, u, n)
    ensures Ok(states[n]) && Due(states[n]) != Some(u)
  {
    StaysBefore(states, actions, t, u, n);
    FrontIsNotLater(states[n].list, t, u);
  }
}

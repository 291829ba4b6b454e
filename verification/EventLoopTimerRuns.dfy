/** What a caller of furi_event_loop_timer_start is promised, over every run of EventLoopTimers and in terms of the
    interval that the call asked for: when the timer fires, when it is due, and on which beat a periodic one goes on. */
module EventLoopTimerRuns {
  import opened Lists
  import opened TimerRequests
  import opened EventLoopTimers

  // ---------- from the call to the moment its request is taken ----------

  /** Request `request` of timer `t` is waiting, or none of it is. */
  predicate Asked(m: Timers, t: nat, request: Request, v: nat) {
    t in m.timers && (m.timers[t].request == NoRequest ||
      (m.timers[t].request == request && (request == Start ==> m.timers[t].nextInterval == v)))
  }

  predicate AsksFor(a: Action, t: nat) {
    a.Request? && a.timer == t
  }

  /** The request of `t` is taken from the queue. */
  predicate Takes(m: Timers, a: Action, t: nat) {
    a.Serve? && m.queue != [] && m.queue[0] == t
  }

  lemma AskedStep(m: Timers, a: Action, t: nat, request: Request, v: nat)
    requires Ok(m) && Allowed(m, a) && Asked(m, t, request, v) && !AsksFor(a, t) && !Takes(m, a, t)
    ensures Asked(Act(m, a), t, request, v)
  {
    if a.Fire? { FireLeavesRequests(m, a, t); }
  }

  lemma FireLeavesRequests(m: Timers, a: Action, t: nat)
    requires Ok(m) && a.Fire? && Allowed(m, a) && t in m.timers
    ensures t in Act(m, a).timers && Act(m, a).timers[t].request == m.timers[t].request
    ensures Act(m, a).timers[t].nextInterval == m.timers[t].nextInterval
  {}

  ghost predicate KeepsAsked(states: seq<Timers>, t: nat, request: Request, v: nat, k: nat) {
    k + 1 < |states| && Asked(states[k], t, request, v) ==> Asked(states[k + 1], t, request, v)
  }

  lemma {:induction false} AskedChain(states: seq<Timers>, t: nat, request: Request, v: nat, m: nat, n: nat)
    requires m <= n < |states| && Asked(states[m], t, request, v)
    requires forall k: nat :: m <= k < n ==> KeepsAsked(states, t, request, v, k)
    ensures Asked(states[n], t, request, v)
    decreases n
  {
    if m < n {
      AskedChain(states, t, request, v, m, n - 1);
      assert KeepsAsked(states, t, request, v, n - 1);
    }
  }

  // ---------- from that moment on ----------

  /** Timer `t` fires. */
  predicate Fires(m: Timers, a: Action, t: nat) {
    a.Fire? && Known(m.timers, m.list) && Due(m) == Some(t)
  }

  lemma DueIsActive(m: Timers)
    requires Ok(m)
    ensures Due(m).Some? ==> Due(m).value in m.timers && m.timers[Due(m).value].active
  {
    if m.list != [] { assert m.list[0] in m.list; }
  }

  /** The deadline is the `k`-th beat of an interval of `v` ticks after `begin`. */
  predicate OnBeat(timer: Timer, begin: nat, v: nat, k: nat) {
    k >= 1 && timer.Deadline() == begin + v * k
  }

  /** Timer `t` was started at `begin` for `v` ticks, and has or has not fired since. */
  ghost predicate Kept(m: Timers, t: nat, begin: nat, v: nat, fired: bool) {
    t in m.timers && KeptTimer(m.timers[t], begin, v, fired)
  }

  ghost predicate KeptTimer(timer: Timer, begin: nat, v: nat, fired: bool) {
    && (timer.active <==> timer.periodic || !fired)
    && (timer.active ==> timer.interval == v)
    && (!fired ==> timer.Deadline() == begin + v)
    && (timer.periodic ==> exists k: nat :: OnBeat(timer, begin, v, k))
  }

  lemma TakenTimer(m: Timers, a: Action, t: nat, v: nat)
    requires Ok(m) && Allowed(m, a) && Takes(m, a, t) && Asked(m, t, Start, v)
    ensures Kept(Act(m, a), t, m.now, v, false)
  {
    assert t in m.queue;
    assert OnBeat(Started(m.timers[t], m.now), m.now, v, 1);
  }

  lemma BeatsAdd(begin: nat, v: nat, k: nat, l: nat)
    ensures begin + v * k + v * l == begin + v * (k + l)
  {}

  lemma AdvancedTimer(timer: Timer, now: nat, begin: nat, v: nat)
    requires timer.periodic && timer.active && timer.interval == v > 0 && timer.start <= now && timer.Deadline() <= now
    requires exists k: nat :: OnBeat(timer, begin, v, k)
    ensures KeptTimer(Advanced(timer, now), begin, v, true)
  {
    NoDrift(timer, now);
    var k: nat :| OnBeat(timer, begin, v, k);
    var l: nat :| l >= 1 && WholeMove(timer, Advanced(timer, now), l);
    BeatsAdd(begin, v, k, l);
    assert OnBeat(Advanced(timer, now), begin, v, k + l);
  }

  lemma FiredTimer(m: Timers, a: Action, t: nat, begin: nat, v: nat, fired: bool)
    requires Ok(m) && Allowed(m, a) && Fires(m, a, t) && Kept(m, t, begin, v, fired)
    ensures Kept(Act(m, a), t, begin, v, true)
  {
    assert t in m.list;
    if m.timers[t].periodic { AdvancedTimer(m.timers[t], m.now + a.read, begin, v); }
  }

  lemma OthersKept(m: Timers, a: Action, t: nat)
    requires Ok(m) && Allowed(m, a) && t in m.timers && !Takes(m, a, t) && !Fires(m, a, t)
    ensures t in Act(m, a).timers
    ensures var timer, timer' := m.timers[t], Act(m, a).timers[t];
      timer'.active == timer.active && timer'.periodic == timer.periodic && timer'.interval == timer.interval
        && timer'.start == timer.start
  {}

  lemma KeptStep(m: Timers, a: Action, t: nat, begin: nat, v: nat, fired: bool)
    requires Ok(m) && Allowed(m, a) && !Takes(m, a, t) && Kept(m, t, begin, v, fired)
    ensures Kept(Act(m, a), t, begin, v, fired || Fires(m, a, t))
  {
    if Fires(m, a, t) {
      FiredTimer(m, a, t, begin, v, fired);
    } else {
      OthersKept(m, a, t);
      SameBeat(m.timers[t], Act(m, a).timers[t], begin, v, fired);
    }
  }

  lemma SameBeat(timer: Timer, timer': Timer, begin: nat, v: nat, fired: bool)
    requires timer'.active == timer.active && timer'.periodic == timer.periodic && timer'.interval == timer.interval
    requires timer'.start == timer.start && KeptTimer(timer, begin, v, fired)
    ensures KeptTimer(timer', begin, v, fired)
  {
    if timer.periodic {
      var k: nat :| OnBeat(timer, begin, v, k);
      assert OnBeat(timer', begin, v, k);
    }
  }

  // ---------- over runs ----------

  /** The call at `a` files a request of timer `t`, and it is taken at `s`. */
  predicate RequestedBy(states: seq<Timers>, actions: seq<Action>, t: nat, request: Request, v: nat, a: nat, s: nat) {
    && a < s < |actions| && s < |states|
    && actions[a] == Action.Request(t, request, v)
    && (forall k :: a < k < s ==> !AsksFor(actions[k], t) && !Takes(states[k], actions[k], t))
    && Takes(states[s], actions[s], t)
  }

  /** The call at `a` asks to start timer `t` for `v` ticks, and its request is taken at `s`. */
  predicate StartedBy(states: seq<Timers>, actions: seq<Action>, t: nat, v: nat, a: nat, s: nat) {
    RequestedBy(states, actions, t, Start, v, a, s)
  }

  /** No other request of `t` is taken up to state `n`. */
  predicate LeftRunning(states: seq<Timers>, actions: seq<Action>, t: nat, s: nat, n: nat) {
    s < n <= |actions| < |states| && forall k :: s < k < n ==> !Takes(states[k], actions[k], t)
  }

  /** Timer `t` has fired after `s` and before state `n`. */
  predicate FiredSince(states: seq<Timers>, actions: seq<Action>, t: nat, s: nat, n: nat) {
    exists j :: s < j < n && j < |actions| && j < |states| && Fires(states[j], actions[j], t)
  }

  lemma WaitsToBeTaken(states: seq<Timers>, actions: seq<Action>, t: nat, request: Request, v: nat, a: nat, s: nat)
    requires TimerRun(states, actions) && RequestedBy(states, actions, t, request, v, a, s)
    ensures Ok(states[s]) && Allowed(states[s], actions[s]) && states[s + 1] == Act(states[s], actions[s])
    ensures Asked(states[s], t, request, v) && states[s].timers[t].request == request
  {
    assert ActsAt(states, actions, a);
    forall k: nat | a + 1 <= k < s ensures KeepsAsked(states, t, request, v, k) {
      assert ActsAt(states, actions, k);
      if Asked(states[k], t, request, v) { AskedStep(states[k], actions[k], t, request, v); }
    }
    AskedChain(states, t, request, v, a + 1, s);
    assert ActsAt(states, actions, s);
    assert t in states[s].queue;
  }

  lemma StartTaken(states: seq<Timers>, actions: seq<Action>, t: nat, v: nat, a: nat, s: nat)
    requires TimerRun(states, actions) && StartedBy(states, actions, t, v, a, s)
    ensures Kept(states[s + 1], t, states[s].now, v, false)
  {
    WaitsToBeTaken(states, actions, t, Start, v, a, s);
    TakenTimer(states[s], actions[s], t, v);
  }

  ghost predicate KeptAt(states: seq<Timers>, actions: seq<Action>, t: nat, v: nat, s: nat, n: nat) {
    s < n < |states| && Kept(states[n], t, states[s].now, v, FiredSince(states, actions, t, s, n))
  }

  ghost predicate KeepsOn(states: seq<Timers>, actions: seq<Action>, t: nat, v: nat, s: nat, n: nat) {
    n + 1 < |states| && KeptAt(states, actions, t, v, s, n) ==> KeptAt(states, actions, t, v, s, n + 1)
  }

  lemma KeptNext(states: seq<Timers>, actions: seq<Action>, t: nat, v: nat, s: nat, n: nat)
    requires TimerRun(states, actions) && n < |actions| && !Takes(states[n], actions[n], t)
    ensures KeepsOn(states, actions, t, v, s, n)
  {
    if KeptAt(states, actions, t, v, s, n) {
      assert ActsAt(states, actions, n);
      KeptStep(states[n], actions[n], t, states[s].now, v, FiredSince(states, actions, t, s, n));
      assert FiredSince(states, actions, t, s, n + 1)
        <==> FiredSince(states, actions, t, s, n) || Fires(states[n], actions[n], t);
    }
  }

  lemma {:induction false} KeptChain(states: seq<Timers>, actions: seq<Action>, t: nat, v: nat, s: nat, n: nat)
    requires s < n < |states| && KeptAt(states, actions, t, v, s, s + 1)
    requires forall k: nat :: s < k < n ==> KeepsOn(states, actions, t, v, s, k)
    ensures KeptAt(states, actions, t, v, s, n)
    decreases n
  {
    if s + 1 < n {
      KeptChain(states, actions, t, v, s, n - 1);
      assert KeepsOn(states, actions, t, v, s, n - 1);
    }
  }

  lemma KeptInRun(states: seq<Timers>, actions: seq<Action>, t: nat, v: nat, a: nat, s: nat, n: nat)
    requires TimerRun(states, actions) && StartedBy(states, actions, t, v, a, s)
    requires LeftRunning(states, actions, t, s, n)
    ensures Ok(states[n]) && KeptAt(states, actions, t, v, s, n)
  {
    StartTaken(states, actions, t, v, a, s);
    assert !FiredSince(states, actions, t, s, s + 1);
    forall k: nat | s < k < n ensures KeepsOn(states, actions, t, v, s, k) {
      KeptNext(states, actions, t, v, s, k);
    }
    KeptChain(states, actions, t, v, s, n);
    RunKeepsOk(states, actions, n);
  }

  /** A timer that was asked to start for `v` ticks does not fire before `v` ticks after its request was taken.  Until
      it fires it is active, and it is expired from exactly that moment on, so that the loop finds some timer due. */
  lemma FiresOnTime(states: seq<Timers>, actions: seq<Action>, t: nat, v: nat, a: nat, s: nat, n: nat)
    requires TimerRun(states, actions) && StartedBy(states, actions, t, v, a, s)
    requires LeftRunning(states, actions, t, s, n)
    ensures Ok(states[n]) && t in states[n].timers
    ensures Due(states[n]) == Some(t) ==> states[s].now + v <= states[n].now
    ensures !FiredSince(states, actions, t, s, n) ==>
      && states[n].timers[t].active
      && (Expired(states[n], t) <==> states[s].now + v <= states[n].now)
      && (states[s].now + v <= states[n].now ==> Due(states[n]).Some?)
  {
    KeptInRun(states, actions, t, v, a, s, n);
    FrontIsEarliest(states[n]);
    if Due(states[n]) == Some(t) {
      DueIsActive(states[n]);
      NotBeforeFirstBeat(states[n].timers[t], states[s].now, v, FiredSince(states, actions, t, s, n));
    }
  }

  lemma NotBeforeFirstBeat(timer: Timer, begin: nat, v: nat, fired: bool)
    requires KeptTimer(timer, begin, v, fired) && timer.active
    ensures begin + v <= timer.Deadline()
  {
    if timer.periodic {
      var k: nat :| OnBeat(timer, begin, v, k);
      BeatsAdd(begin, v, 1, k - 1);
      assert v * (k - 1) >= 0;
    }
  }

  /** A one-shot timer fires at most once for each start. */
  lemma OneShotFiresOnce(states: seq<Timers>, actions: seq<Action>, t: nat, v: nat, a: nat, s: nat, n: nat)
    requires TimerRun(states, actions) && StartedBy(states, actions, t, v, a, s)
    requires LeftRunning(states, actions, t, s, n) && FiredSince(states, actions, t, s, n)
    ensures Ok(states[n]) && t in states[n].timers
    ensures !states[n].timers[t].periodic ==> !states[n].timers[t].active && Due(states[n]) != Some(t)
  {
    KeptInRun(states, actions, t, v, a, s, n);
    DueIsActive(states[n]);
  }

  /** A periodic timer goes on until another request of it is taken, and is due on the beats `v`, `2 * v`, ... ticks
      after its request was taken. */
  lemma PeriodicKeepsTheBeat(states: seq<Timers>, actions: seq<Action>, t: nat, v: nat, a: nat, s: nat, n: nat)
    requires TimerRun(states, actions) && StartedBy(states, actions, t, v, a, s)
    requires LeftRunning(states, actions, t, s, n)
    ensures Ok(states[n]) && t in states[n].timers
    ensures states[n].timers[t].periodic ==>
      states[n].timers[t].active && exists k: nat :: OnBeat(states[n].timers[t], states[s].now, v, k)
  {
    KeptInRun(states, actions, t, v, a, s, n);
  }

  /** When it fires, its next beat is the first one after the moment at which the elapsed time was read. */
  lemma NextBeatFollows(states: seq<Timers>, actions: seq<Action>, t: nat, v: nat, a: nat, s: nat, n: nat)
    requires TimerRun(states, actions) && StartedBy(states, actions, t, v, a, s) && n < |actions|
    requires LeftRunning(states, actions, t, s, n) && Fires(states[n], actions[n], t)
    ensures t in states[n].timers && t in states[n + 1].timers
    ensures states[n].timers[t].periodic ==>
      var read := states[n].now + actions[n].read;
      read < states[n + 1].timers[t].Deadline() <= read + v
  {
    KeptInRun(states, actions, t, v, a, s, n);
    assert ActsAt(states, actions, n);
    assert t in states[n].list;
    NextBeat(states[n], actions[n], t);
  }

  lemma NextBeat(m: Timers, a: Action, t: nat)
    requires Ok(m) && Allowed(m, a) && Fires(m, a, t) && t in m.timers
    ensures t in Act(m, a).timers
    ensures m.timers[t].periodic ==>
      m.now + a.read < Act(m, a).timers[t].Deadline() <= m.now + a.read + m.timers[t].interval
  {
    assert t in m.list;
    if m.timers[t].periodic { NoDrift(m.timers[t], m.now + a.read); }
  }

  // ---------- stop and free ----------

  /** Timer `t` exists and is not running. */
  predicate Idle(m: Timers, t: nat) {
    t in m.timers && !m.timers[t].active
  }

  lemma IdleStep(m: Timers, a: Action, t: nat)
    requires Ok(m) && Allowed(m, a) && Idle(m, t) && !Takes(m, a, t)
    ensures Due(m) != Some(t) && Idle(Act(m, a), t)
  {
    DueIsActive(m);
    OthersKept(m, a, t);
  }

  lemma {:induction false} IdleInRun(states: seq<Timers>, actions: seq<Action>, t: nat, s: nat, n: nat)
    requires TimerRun(states, actions) && LeftRunning(states, actions, t, s, n) && Idle(states[s + 1], t)
    ensures Idle(states[n], t)
    decreases n
  {
    if s + 1 < n {
      IdleInRun(states, actions, t, s, n - 1);
      assert ActsAt(states, actions, n - 1);
      IdleStep(states[n - 1], actions[n - 1], t);
    }
  }

  /** When its request is taken, a stopped timer stays where it is and does not run or fire until another request of it
      is taken; a freed timer is gone. */
  lemma StoppedOrFreed(states: seq<Timers>, actions: seq<Action>, t: nat, request: Request, v: nat, a: nat, s: nat,
      n: nat)
    requires TimerRun(states, actions) && RequestedBy(states, actions, t, request, v, a, s)
    requires LeftRunning(states, actions, t, s, n)
    ensures request == Free ==> t !in states[s + 1].timers
    ensures request == Halt ==> Ok(states[n]) && Idle(states[n], t) && Due(states[n]) != Some(t)
  {
    WaitsToBeTaken(states, actions, t, request, v, a, s);
    if request == Halt {
      IdleInRun(states, actions, t, s, n);
      RunKeepsOk(states, actions, n);
      DueIsActive(states[n]);
    }
  }

  // ---------- requests are taken in the order in which they were filed ----------

  lemma QueueAfterAsk(m: Timers, a: Action, t: nat)
    requires Ok(m) && Allowed(m, a) && a.Request? && t in m.queue && t != a.timer
    ensures Precedes(Act(m, a).queue, t, a.timer)
  {
    var rest := Without(m.queue, a.timer);
    assert t in rest;
    var i :| 0 <= i < |rest| && rest[i] == t;
    assert (rest + [a.timer])[i] == t && (rest + [a.timer])[|rest|] == a.timer;
  }

  lemma AskKeepsPlace(queue: seq<nat>, x: nat, t: nat, u: nat)
    requires Precedes(queue, t, u) && x != t && x != u
    ensures Precedes(Without(queue, x) + [x], t, u)
  {
    WithoutKeepsPlace(queue, x, t, u);
    var rest := Without(queue, x);
    var i, j :| 0 <= i < j < |rest| && rest[i] == t && rest[j] == u;
    assert (rest + [x])[i] == t && (rest + [x])[j] == u;
  }

  lemma QueueLeft(m: Timers, a: Action)
    requires Ok(m) && Allowed(m, a)
    ensures a.Serve? ==> m.queue != [] && Act(m, a).queue == m.queue[1..]
    ensures a.Request? ==> Act(m, a).queue == Without(m.queue, a.timer) + [a.timer]
    ensures !a.Serve? && !a.Request? ==> Act(m, a).queue == m.queue
  {}

  lemma PlaceStep(m: Timers, a: Action, t: nat, u: nat)
    requires Ok(m) && Allowed(m, a) && Precedes(m.queue, t, u)
    requires !AsksFor(a, t) && !AsksFor(a, u) && !Takes(m, a, t)
    ensures !Takes(m, a, u) && Precedes(Act(m, a).queue, t, u)
  {
    QueueLeft(m, a);
    FrontIsNotLater(m.queue, t, u);
    if a.Request? { AskKeepsPlace(m.queue, a.timer, t, u); }
  }

  lemma StaysQueued(m: Timers, a: Action, t: nat)
    requires Ok(m) && Allowed(m, a) && t in m.queue && !Takes(m, a, t)
    ensures t in Act(m, a).queue
  {
    QueueLeft(m, a);
    if a.Request? {
      var rest := Without(m.queue, a.timer);
      assert t in rest || t == a.timer;
    }
  }

  /** The last request of `t` waits from call `a` to state `s`. */
  predicate Waits(states: seq<Timers>, actions: seq<Action>, t: nat, a: nat, s: nat) {
    a < s <= |actions| < |states| && AsksFor(actions[a], t)
      && forall k :: a < k < s ==> !AsksFor(actions[k], t) && !Takes(states[k], actions[k], t)
  }

  lemma {:induction false} WaitingIsQueued(states: seq<Timers>, actions: seq<Action>, t: nat, a: nat, s: nat)
    requires TimerRun(states, actions) && Waits(states, actions, t, a, s)
    ensures Ok(states[s]) && t in states[s].queue
    decreases s
  {
    RunKeepsOk(states, actions, s);
    assert ActsAt(states, actions, s - 1);
    if a + 1 < s {
      WaitingIsQueued(states, actions, t, a, s - 1);
      StaysQueued(states[s - 1], actions[s - 1], t);
    } else {
      QueueLeft(states[a], actions[a]);
    }
  }

  lemma {:induction false} WaitsBefore(states: seq<Timers>, actions: seq<Action>, t: nat, u: nat, a: nat, b: nat,
      s: nat)
    requires TimerRun(states, actions) && t != u && a < b
    requires Waits(states, actions, t, a, s) && Waits(states, actions, u, b, s)
    ensures Ok(states[s]) && Precedes(states[s].queue, t, u)
    decreases s
  {
    RunKeepsOk(states, actions, s);
    assert ActsAt(states, actions, s - 1);
    if b + 1 < s {
      WaitsBefore(states, actions, t, u, a, b, s - 1);
      PlaceStep(states[s - 1], actions[s - 1], t, u);
    } else {
      WaitingIsQueued(states, actions, t, a, b);
      QueueAfterAsk(states[b], actions[b], t);
    }
  }

  /** Of two timers whose last requests both wait, the one that asked first has its request taken first. */
  lemma RequestsTakenInOrder(states: seq<Timers>, actions: seq<Action>, t: nat, u: nat, a: nat, b: nat, s: nat)
    requires TimerRun(states, actions) && t != u && a < b && s < |actions|
    requires Waits(states, actions, t, a, s) && Waits(states, actions, u, b, s)
    ensures !Takes(states[s], actions[s], u)
  {
    WaitsBefore(states, actions, t, u, a, b, s);
    FrontIsNotLater(states[s].queue, t, u);
  }
}

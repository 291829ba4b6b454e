/** The event loop with its timed list: the machine of EventLoopModel fires any active timer, the loop fires the one
    that is due. Every run of the loop with the timed list is a run of the machine. */
module EventLoopTimerLink {
  import opened Lists
  import opened TimerRequests
  import opened EventLoopTimers
  import L = EventLoopModel
  import I = EventLoopInvariant
  import R = EventLoopTheorems

  function Untimed(timer: Timer): L.TimerState {
    L.TimerState(timer.request, timer.active, timer.periodic)
  }

  function AllUntimed(timers: map<nat, Timer>): map<nat, L.TimerState> {
    map t | t in timers :: Untimed(timers[t])
  }

  /** `rest` is the state of the loop without its timers. */
  datatype TimedLoop = TimedLoop(rest: L.State, timers: Timers)

  function WithTimers(s: L.State, m: Timers): L.State {
    s.(timers := AllUntimed(m.timers), timerQueue := m.queue)
  }

  /** The state of the machine: the timers without their times. */
  function Whole(l: TimedLoop): L.State { WithTimers(l.rest, l.timers) }

  /** A step of the loop, with what it does to the timed list; time may pass in all other steps, too. */
  predicate CanStep(l: TimedLoop, step: L.Step, a: Action)
    requires Ok(l.timers)
  {
    Allowed(l.timers, a) &&
    match step
    case NewTimer(t, periodic) => L.InApp(l.rest) && a == Create(t, periodic)
    case AskTimer(t, request) => L.InApp(l.rest) && a.Request? && a.timer == t && a.request == request &&
      l.timers.timers[t].request != Request.Free
    case DrainTimer => l.rest.pc == L.DrainTimers && if l.timers.queue == [] then a.Pass? else a.Serve?
    case Fire(t) => l.rest.pc == L.Expiring && Due(l.timers) == Some(t) && a.Fire?
    case Tick => l.rest.pc == L.Expiring && Due(l.timers) == None && a.Pass?
    case _ => L.Enabled(l.rest, step) && a.Pass?
  }

  /** What a timer step does to the rest of the loop. */
  function RestAfterTimer(l: TimedLoop, step: L.Step): L.State {
    match step
    case AskTimer(_, _) => l.rest.(ownNotify := Some(L.Timer))
    case DrainTimer => l.rest.(pc := if l.timers.queue == [] then L.Restoring else L.DrainTimers)
    case Fire(_) => l.rest.(pc := L.App(L.ToLoop))
    case _ => l.rest
  }

  function RestAfter(l: TimedLoop, step: L.Step): L.State
    requires !I.TouchesTimers(step) ==> L.Enabled(l.rest, step)
  {
    if I.TouchesTimers(step) then RestAfterTimer(l, step) else L.Do(l.rest, step)
  }

  function DoStep(l: TimedLoop, step: L.Step, a: Action): TimedLoop
    requires Ok(l.timers) && CanStep(l, step, a)
  {
    TimedLoop(RestAfter(l, step), Act(l.timers, a))
  }

  // ---------- one step ----------

  lemma AskAgrees(l: TimedLoop, t: nat, a: Action)
    requires Ok(l.timers) && a.Request? && CanStep(l, L.AskTimer(t, a.request), a)
    ensures L.Enabled(Whole(l), L.AskTimer(t, a.request))
    ensures L.Do(Whole(l), L.AskTimer(t, a.request)) == Whole(DoStep(l, L.AskTimer(t, a.request), a))
  {}

  lemma CreateAgrees(l: TimedLoop, t: nat, periodic: bool)
    requires Ok(l.timers) && CanStep(l, L.NewTimer(t, periodic), Create(t, periodic))
    ensures L.Enabled(Whole(l), L.NewTimer(t, periodic))
    ensures L.Do(Whole(l), L.NewTimer(t, periodic)) == Whole(DoStep(l, L.NewTimer(t, periodic), Create(t, periodic)))
  {}

  lemma ProcessAgrees(m: Timers, wait: nat)
    requires Ok(m) && CanServe(m, wait)
    ensures m.queue[0] in AllUntimed(m.timers) && m.timers[m.queue[0]].request != NoRequest
    ensures AllUntimed(ProcessOne(m, wait).timers) == L.Process(AllUntimed(m.timers), m.queue[0])
    ensures ProcessOne(m, wait).queue == m.queue[1..]
  {
    assert m.queue[0] in m.queue;
  }

  lemma ServeAgrees(l: TimedLoop, a: Action)
    requires Ok(l.timers) && CanStep(l, L.DrainTimer, a)
    ensures L.Enabled(Whole(l), L.DrainTimer) && L.Do(Whole(l), L.DrainTimer) == Whole(DoStep(l, L.DrainTimer, a))
  {
    if l.timers.queue != [] { ProcessAgrees(l.timers, a.wait); }
  }

  /** The timer that fires by its deadline is one that the machine lets fire, with the same effect. */
  lemma FireAgrees(l: TimedLoop, t: nat, a: Action)
    requires Ok(l.timers) && CanStep(l, L.Fire(t), a)
    ensures L.Enabled(Whole(l), L.Fire(t)) && L.Do(Whole(l), L.Fire(t)) == Whole(DoStep(l, L.Fire(t), a))
  {
    assert t in l.timers.list;
    var timers := Act(l.timers, a).timers;
    assert Untimed(timers[t]) == Untimed(l.timers.timers[t]).(active := l.timers.timers[t].periodic);
  }

  /** The other steps neither see nor change the timers. */
  lemma OthersOutside(s: L.State, step: L.Step, m: Timers)
    requires L.Enabled(s, step) && (I.OutsideLoop(step) || step.LinkNotify? || step.Subscribe? || step.Unsubscribe?)
    requires !I.TouchesTimers(step)
    ensures L.Enabled(WithTimers(s, m), step) && L.Do(WithTimers(s, m), step) == WithTimers(L.Do(s, step), m)
  {}

  lemma OthersRound(s: L.State, step: L.Step, m: Timers)
    requires L.Enabled(s, step) && (step.Begin? || step.Recheck? || step.Finish? || step.End?)
    ensures L.Enabled(WithTimers(s, m), step) && L.Do(WithTimers(s, m), step) == WithTimers(L.Do(s, step), m)
  {}

  lemma OthersRoundEnd(s: L.State, step: L.Step, m: Timers)
    requires L.Enabled(s, step) && (step.MarkEvent? || step.Sync? || step.Restore? || step.Pop?)
    ensures L.Enabled(WithTimers(s, m), step) && L.Do(WithTimers(s, m), step) == WithTimers(L.Do(s, step), m)
  {}

  lemma OthersLoop(s: L.State, step: L.Step, m: Timers)
    requires L.Enabled(s, step) && !I.OutsideLoop(step) && !I.ChangesSubscriptions(step) && !I.AroundItem(step)
    requires !I.TouchesTimers(step)
    ensures L.Enabled(WithTimers(s, m), step) && L.Do(WithTimers(s, m), step) == WithTimers(L.Do(s, step), m)
  {}

  lemma OthersAgree(s: L.State, step: L.Step, m: Timers)
    requires L.Enabled(s, step) && !I.TouchesTimers(step)
    ensures L.Enabled(WithTimers(s, m), step) && L.Do(WithTimers(s, m), step) == WithTimers(L.Do(s, step), m)
  {
    if I.OutsideLoop(step) || step.LinkNotify? || step.Subscribe? || step.Unsubscribe? {
      OthersOutside(s, step, m);
    } else if step.MarkEvent? || step.Sync? || step.Restore? || step.Pop? {
      OthersRoundEnd(s, step, m);
    } else if I.AroundItem(step) || step.End? {
      OthersRound(s, step, m);
    } else {
      OthersLoop(s, step, m);
    }
  }

  lemma OtherStepAgrees(l: TimedLoop, step: L.Step, a: Action)
    requires Ok(l.timers) && CanStep(l, step, a) && !I.TouchesTimers(step)
    ensures R.Moves(Whole(l), step, Whole(DoStep(l, step, a)))
  {
    OthersAgree(l.rest, step, l.timers);
    assert a.Pass?;
  }

  /** Every step of the loop with the timed list is a step of the machine, with the same effect. */
  lemma StepAgrees(l: TimedLoop, step: L.Step, a: Action)
    requires Ok(l.timers) && CanStep(l, step, a)
    ensures R.Moves(Whole(l), step, Whole(DoStep(l, step, a)))
  {
    if step.NewTimer? {
      CreateAgrees(l, step.timer, step.periodic);
    } else if step.AskTimer? {
      AskAgrees(l, step.timer, a);
    } else if step.DrainTimer? {
      ServeAgrees(l, a);
    } else if step.Fire? {
      FireAgrees(l, step.timer, a);
    } else {
      OtherStepAgrees(l, step, a);
    }
  }

  // ---------- the loop can always go on ----------

  /** The step that the loop's own thread takes next: when a wait has timed out, the timer that is due fires. */
  function NextTimedStep(l: TimedLoop): L.Step
    requires Ok(l.timers)
  {
    if l.rest.pc == L.Expiring && Due(l.timers).Some? then L.Fire(Due(l.timers).value) else I.NextStep(Whole(l))
  }

  /** What that step does to the list when no time passes. */
  function AtOnce(step: L.Step, m: Timers): Action {
    if step.Fire? then Action.Fire(0, 0) else if step.DrainTimer? && m.queue != [] then Serve(0) else Pass(0)
  }

  lemma AtOnceIsAllowed(step: L.Step, m: Timers)
    requires Ok(m)
    ensures Allowed(m, AtOnce(step, m))
  {
    if step.Fire? {
      if Due(m).Some? { PoppedKeepsOk(m, 0); }
    } else if step.DrainTimer? && m.queue != [] {
      TakenKeepsOk(m);
    }
  }

  lemma UntimedEnabled(s: L.State, step: L.Step, m: Timers)
    requires L.Enabled(WithTimers(s, m), step) && !I.TouchesTimers(step)
    ensures L.Enabled(s, step)
  {}

  /** Until it stops, the loop with the timed list can take its next step: in particular the one timer that fires is
      there and active. */
  lemma NeverStuck(l: TimedLoop)
    requires Ok(l.timers) && I.Inv(Whole(l)) && l.rest.pc != L.Stopped
    ensures CanStep(l, NextTimedStep(l), AtOnce(NextTimedStep(l), l.timers))
  {
    var step := NextTimedStep(l);
    AtOnceIsAllowed(step, l.timers);
    I.NeverStuck(Whole(l));
    if !I.TouchesTimers(step) { UntimedEnabled(l.rest, step, l.timers); }
  }

  // ---------- whole runs ----------

  ghost predicate StepsAt(loops: seq<TimedLoop>, steps: seq<L.Step>, actions: seq<Action>, i: nat) {
    i < |steps| && i < |actions| && i + 1 < |loops| ==>
      Ok(loops[i].timers) && CanStep(loops[i], steps[i], actions[i]) &&
      loops[i + 1] == DoStep(loops[i], steps[i], actions[i])
  }

  /** A run of the loop with the timed list, from a list in order. */
  ghost predicate TimedRun(loops: seq<TimedLoop>, steps: seq<L.Step>, actions: seq<Action>) {
    && |loops| == |steps| + 1 == |actions| + 1 && Ok(loops[0].timers)
    && forall i: nat :: StepsAt(loops, steps, actions, i)
  }

  function Machine(loops: seq<TimedLoop>): (r: seq<L.State>)
    ensures |r| == |loops| && forall i :: 0 <= i < |loops| ==> r[i] == Whole(loops[i])
  {
    seq(|loops|, i requires 0 <= i < |loops| => Whole(loops[i]))
  }

  function TimedLists(loops: seq<TimedLoop>): (r: seq<Timers>)
    ensures |r| == |loops| && forall i :: 0 <= i < |loops| ==> r[i] == loops[i].timers
  {
    seq(|loops|, i requires 0 <= i < |loops| => loops[i].timers)
  }

  /** Every run of the loop with the timed list is a run of the machine, and a run of the list. */
  lemma TimedRunsAreRuns(loops: seq<TimedLoop>, steps: seq<L.Step>, actions: seq<Action>)
    requires TimedRun(loops, steps, actions)
    ensures R.Run(Machine(loops), steps) && TimerRun(TimedLists(loops), actions)
  {
    forall i: nat ensures R.MovesAt(Machine(loops), steps, i) {
      assert StepsAt(loops, steps, actions, i);
      if i < |steps| { StepAgrees(loops[i], steps[i], actions[i]); }
    }
    R.RecordedIsRun(Machine(loops), steps);
    forall i: nat ensures ActsAt(TimedLists(loops), actions, i) {
      assert StepsAt(loops, steps, actions, i);
    }
  }

  predicate ServesStart(l: TimedLoop, step: L.Step, t: nat) {
    step.DrainTimer? && l.timers.queue != [] && l.timers.queue[0] == t && t in l.timers.timers &&
    l.timers.timers[t].request == Start
  }

  /** Stopping and freeing take effect at once in the loop with the timed list: afterwards the timer that is due is
      never that one, unless a start request for it has been processed. */
  lemma StoppedTimerIsNeverDue(loops: seq<TimedLoop>, steps: seq<L.Step>, actions: seq<Action>, t: nat,
      request: Request, m: nat, n: nat)
    requires TimedRun(loops, steps, actions) && I.Initial(Whole(loops[0])) && m < n < |steps|
    requires steps[m] == L.AskTimer(t, request) && (request == Halt || request == Request.Free)
    requires forall j :: m < j < n ==> !ServesStart(loops[j], steps[j], t)
    ensures steps[n].Fire? ==> Ok(loops[n].timers) && Due(loops[n].timers).Some? && Due(loops[n].timers) != Some(t)
  {
    NotStarted(loops, steps, t, m, n);
    TimedRunsAreRuns(loops, steps, actions);
    R.StopTakesEffectAtOnce(Machine(loops), steps, t, request, m, n);
    FiresWhatIsDue(loops, steps, actions, n);
  }

  lemma NotStarted(loops: seq<TimedLoop>, steps: seq<L.Step>, t: nat, m: nat, n: nat)
    requires |loops| == |steps| + 1 && n < |steps|
    requires forall j :: m < j < n ==> !ServesStart(loops[j], steps[j], t)
    ensures forall j :: m < j < n ==> !R.ProcessesStart(Machine(loops)[j], steps[j], t)
  {
    forall j | m < j < n ensures !R.ProcessesStart(Machine(loops)[j], steps[j], t) {
      assert !ServesStart(loops[j], steps[j], t);
    }
  }

  lemma FiresWhatIsDue(loops: seq<TimedLoop>, steps: seq<L.Step>, actions: seq<Action>, n: nat)
    requires TimedRun(loops, steps, actions) && n < |steps|
    ensures Ok(loops[n].timers) && (steps[n].Fire? ==> Due(loops[n].timers) == Some(steps[n].timer))
  {
    assert StepsAt(loops, steps, actions, n);
  }
}

/** Safety of the event loop over whole runs, in every interleaving of its threads. */
module EventLoopTheorems {
  import opened Lists
  import opened TimerRequests
  import opened EventLoopModel
  import opened EventLoopInvariant

  ghost predicate Moves(s: State, step: Step, s': State) {
    Enabled(s, step) && s' == Do(s, step)
  }

  /** `states` are the states that the steps `steps` lead through. */
  ghost predicate Run(states: seq<State>, steps: seq<Step>)
    decreases |steps|
  {
    |states| == |steps| + 1 &&
    (steps != [] ==> Moves(states[0], steps[0], states[1]) && Run(states[1..], steps[1..]))
  }

  /** Step `i` of a recorded history. */
  ghost predicate MovesAt(states: seq<State>, steps: seq<Step>, i: nat) {
    i < |steps| && i + 1 < |states| ==> Moves(states[i], steps[i], states[i + 1])
  }

  /** A run, step by step. */
  ghost predicate Recorded(states: seq<State>, steps: seq<Step>) {
    |states| == |steps| + 1 && forall i: nat :: MovesAt(states, steps, i)
  }

  lemma {:induction false} RecordedIsRun(states: seq<State>, steps: seq<Step>)
    requires Recorded(states, steps)
    ensures Run(states, steps)
    decreases |steps|
  {
    if steps != [] {
      assert MovesAt(states, steps, 0);
      forall i: nat ensures MovesAt(states[1..], steps[1..], i) {
        assert MovesAt(states, steps, i + 1);
      }
      RecordedIsRun(states[1..], steps[1..]);
    }
  }

  lemma RecordedNext(states: seq<State>, steps: seq<Step>, step: Step, s: State)
    requires Recorded(states, steps) && Moves(states[|steps|], step, s)
    ensures Recorded(states + [s], steps + [step])
  {
    forall i: nat ensures MovesAt(states + [s], steps + [step], i) {
      assert MovesAt(states, steps, i);
    }
  }

  lemma {:induction false} RunKeepsInv(states: seq<State>, steps: seq<Step>, i: nat)
    requires Run(states, steps) && i < |states| && Inv(states[0])
    ensures Inv(states[i])
    decreases i
  {
    if i > 0 {
      StepKeepsInv(states[0], steps[0]);
      RunKeepsInv(states[1..], steps[1..], i - 1);
    }
  }

  lemma {:induction false} RunMoves(states: seq<State>, steps: seq<Step>, i: nat)
    requires Run(states, steps) && i < |steps|
    ensures Moves(states[i], steps[i], states[i + 1])
    decreases i
  {
    if i > 0 { RunMoves(states[1..], steps[1..], i - 1); }
  }

  /** Every state of every run from start-up satisfies the invariant; in particular none is a crash. */
  lemma ReachableStatesOk(states: seq<State>, steps: seq<Step>, i: nat)
    requires Run(states, steps) && i < |states| && Initial(states[0])
    ensures Inv(states[i]) && states[i].pc != Crashed
  {
    InitialInv(states[0]);
    RunKeepsInv(states, steps, i);
  }

  // ---------- readiness and wake-up ----------

  /** No thread is between changing object `o` and notifying it. */
  ghost predicate Settled(s: State, o: nat) {
    forall t :: t in s.notifying ==> s.notifying[t].0 != o
  }

  /** If a level-triggered subscription's level is true and no thread is between changing that object and
      notifying it, the item is on the waiting list or the loop is still busy dispatching it. */
  lemma NoMissedReadiness(states: seq<State>, steps: seq<Step>, n: nat)
    requires Run(states, steps) && n < |states| && Initial(states[0])
    ensures forall o :: o in states[n].tree && LevelTrue(states[n], o) && Settled(states[n], o) ==>
      states[n].tree[o] in states[n].waiting || BeingDispatched(states[n], states[n].tree[o])
  {
    ReachableStatesOk(states, steps, n);
    forall o | o in states[n].tree && LevelTrue(states[n], o) && Settled(states[n], o)
      ensures states[n].tree[o] in states[n].waiting || BeingDispatched(states[n], states[n].tree[o])
    {
      assert Noticed(states[n], o);
    }
  }

  /** In every reachable state, queued work has its bit set, or the loop has taken the bit and is yet to drain,
      resynchronise or restore it, or the loop's own thread is between the push and its notification. */
  lemma NoLostWakeUp(states: seq<State>, steps: seq<Step>, n: nat)
    requires Run(states, steps) && n < |states| && Initial(states[0]) && states[n].pc != Stopped
    ensures states[n].waiting != [] ==>
      Event in states[n].bits || (states[n].pc == Taken && Event in states[n].held) || InEventBranch(states[n])
    ensures states[n].timerQueue != [] ==>
      Timer in states[n].bits || Timer in states[n].held || states[n].pc == DrainTimers ||
        states[n].ownNotify == Some(Timer)
    ensures states[n].pending != [] ==>
      || Pending in states[n].bits || Pending in states[n].held || states[n].pc == DrainPending
      || states[n].pc.InPending() || states[n].ownNotify == Some(Pending)
  {
    ReachableStatesOk(states, steps, n);
  }

  /** The loop goes to sleep only when nothing is queued for it, and no level is true that no thread is about to
      notify. */
  lemma SleepsOnlyWhenIdle(states: seq<State>, steps: seq<Step>, n: nat)
    requires Run(states, steps) && n < |states| && Initial(states[0])
    requires states[n].pc == Waiting && states[n].bits == {}
    ensures var s := states[n];
      && s.waiting == [] && s.timerQueue == [] && s.pending == []
      && forall o :: o in s.tree && LevelTrue(s, o) && s.tree[o] in s.items ==>
          AboutToNotify(s, o, s.items[s.tree[o]].dir)
  {
    ReachableStatesOk(states, steps, n);
    var s := states[n];
    forall o | o in s.tree && LevelTrue(s, o) &&
        s.tree[o] in s.items ensures AboutToNotify(s, o, s.items[s.tree[o]].dir) {
      assert Noticed(s, o);
    }
  }

  // ---------- what single calls do ----------

  /** An operation on a queue or semaphore that makes a level true notifies the event of that level. */
  lemma RisingLevelIsNotified(o: Object, change: Change, dir: Direction)
    requires change.Succeeds(o) && !o.Level(dir) && change.Apply(o).Level(dir)
    ensures change.Notifies() == dir
  {}

  /** A notification puts the item subscribed to that event at the end of the waiting list, unless it is there already,
      and sets the Event bit; no other item enters, leaves or moves. */
  lemma NotifiedItemWaits(s: State, t: nat)
    requires Inv(s) && Enabled(s, LinkNotify(t))
    ensures var (o, dir) := s.notifying[t]; var s' := Do(s, LinkNotify(t));
      if o in s.tree && s.items[s.tree[o]].dir == dir then
        s.tree[o] in s'.waiting && Event in s'.bits &&
          (s'.waiting == s.waiting || s'.waiting == s.waiting + [s.tree[o]])
      else s'.waiting == s.waiting && s'.bits == s.bits
  {
    var o, dir := s.notifying[t].0, s.notifying[t].1;
    if s.links[o].Slot(dir).Some? {
      assert InSlot(s, o, dir, s.links[o].Slot(dir).value);
    }
  }

  /** Unsubscribing undoes subscribing: tree, links, items and waiting list are as before. */
  lemma UnsubscribeUndoesSubscribe(s: State, i: nat, o: nat, dir: Direction, edge: bool)
    requires Inv(s) && Enabled(s, Subscribe(i, o, dir, edge))
    ensures var s1 := DoSubscribe(s, i, o, dir, edge);
      o in s1.tree && s1.tree[o] in s1.items
      && var s2 := DoUnsubscribe(s1, o);
        s2.tree == s.tree && s2.links == s.links && s2.items == s.items && s2.waiting == s.waiting
  {
    NewItemIsNowhere(s, i);
    WaitingRestored(s, i, o, dir, edge);
    LinksRestored(s, i, o, dir, edge);
  }

  lemma WaitingRestored(s: State, i: nat, o: nat, dir: Direction, edge: bool)
    requires i !in s.waiting && o in s.objects && o in s.links
    ensures var s1 := DoSubscribe(s, i, o, dir, edge);
      o in s1.tree && s1.tree[o] == i && i in s1.items && s1.items[i] == Item(o, dir, edge, true)
      && Without(s1.waiting, i) == s.waiting
  {
    AbsentWithout(s.waiting, i);
    PushedThenRemoved(s.waiting, i);
  }

  lemma LinksRestored(s: State, i: nat, o: nat, dir: Direction, edge: bool)
    requires o in s.objects && o in s.links && o !in s.tree && i !in s.items && s.links[o].Slot(dir) == None
    ensures var s1 := DoSubscribe(s, i, o, dir, edge);
      && s1.links[o := s1.links[o].Set(dir, None)] == s.links
      && s1.tree - {o} == s.tree && s1.items - {i} == s.items
      && s1.current == s.current
  {}

  lemma NewItemIsNowhere(s: State, i: nat)
    requires Inv(s) && i !in s.items
    ensures i !in s.waiting && s.current != Some(i)
  {
    UnallocatedIsUnreachable(s, i);
  }

  lemma {:induction false} PushedThenRemoved(q: seq<nat>, i: nat)
    requires i !in q
    ensures Without(q + [i], i) == q
  {
    if q == [] {
      assert Without([i], i) == Without([i][1..], i);
    } else {
      assert (q + [i])[1..] == q[1..] + [i];
      PushedThenRemoved(q[1..], i);
    }
  }

  /** Of the bits taken, each of Event, Timer and Pending is acted on at once, or kept to be restored; unless Stop is
      among them. */
  lemma TakenBitsAreKept(s: State, flag: Flag)
    requires s.pc == Taken && Stop !in s.held && flag in s.held && (flag == Event || flag == Timer || flag == Pending)
    ensures var s' := DoChoose(s);
      flag in s'.held || s'.pc == (if flag == Event then Popping else if flag == Timer then DrainTimers
          else DrainPending)
  {}

  /** A level-triggered item whose level is still true after its callback is put back at the end of the list. */
  lemma TrueLevelIsPutBack(s: State)
    requires Inv(s) && s.pc.Returned? && s.items[s.pc.item].owned && LevelTrue(s, s.items[s.pc.item].source)
    ensures var s1 := DoRecheck(s); var s2 := DoFinish(s1); var s3 := DoEnd(s2);
      s.pc.item in s3.waiting && s3.pc == Pushed && Event in Do(s3, MarkEvent).bits
  {
    assert Registered(s, s.pc.item);
  }

  // ---------- item lifetime ----------

  /** Nothing the loop or a link can follow leads to item `i`. */
  ghost predicate Unreachable(s: State, i: nat) {
    && (forall o :: o in s.tree ==> s.tree[o] != i)
    && (forall o :: o in s.links ==> s.links[o].itemIn != Some(i) && s.links[o].itemOut != Some(i))
    && i !in s.waiting && s.current != Some(i) && InHand(s) != Some(i)
  }

  lemma UnallocatedIsUnreachable(s: State, i: nat)
    requires SubscriptionsOk(s) && i !in s.items
    ensures Unreachable(s, i)
  {
    forall k | 0 <= k < |s.waiting| ensures s.waiting[k] != i { assert Registered(s, s.waiting[k]); }
  }

  /** A step that frees an item frees one that was allocated, and nothing leads to it afterwards. */
  lemma FreedItemsAreUnreachable(s: State, step: Step, i: nat)
    requires Inv(s) && Enabled(s, step) && i in s.items && i !in Do(s, step).items
    ensures Unreachable(Do(s, step), i)
  {
    SubscriptionsStep(s, step);
    UnallocatedIsUnreachable(Do(s, step), i);
  }

  /** No step frees the item whose callback or level check is in progress, even when it is unsubscribed meanwhile;
      an item cancelled that way is freed by the step that ends its dispatch. */
  lemma DispatchedItemStays(s: State, step: Step, i: nat)
    requires Inv(s) && Enabled(s, step) && s.current == Some(i)
    ensures i in Do(s, step).items
  {
    if !ChangesSubscriptions(step) {
      OthersKeepItems(s, step);
    } else if step.Unsubscribe? {
      UnsubscribeKeepsCurrent(s, step.source, i);
    } else if step.End? {
      EndFreesNothingCurrent(s);
    } else {
      AddingKeepsItems(s, step, i);
    }
  }

  lemma UnsubscribeKeepsCurrent(s: State, o: nat, i: nat)
    requires Inv(s) && Enabled(s, Unsubscribe(o)) && s.current == Some(i)
    ensures i in DoUnsubscribe(s, o).items
  {}

  /** When a dispatch ends there is no current item any more. */
  lemma EndFreesNothingCurrent(s: State)
    requires Inv(s) && s.pc.Ending?
    ensures s.current == None
  {}

  lemma AddingKeepsItems(s: State, step: Step, i: nat)
    requires Inv(s) && Enabled(s, step) && s.current == Some(i) && (step.LinkNotify? || step.Subscribe? || step.Pop?)
    ensures i in Do(s, step).items
  {}

  lemma OthersKeepItems(s: State, step: Step)
    requires Enabled(s, step) && !ChangesSubscriptions(step)
    ensures Do(s, step).items == s.items && Do(s, step).waiting == s.waiting
  {
    if OutsideLoop(step) {
      OutsideLeavesSubscriptions(s, step);
    } else if AroundItem(step) {
      RoundLeavesSubscriptions(s, step);
    } else if step.Choose? {
      ChooseLeaves(s);
    } else if step.DrainTimer? {
      DrainTimerLeaves(s);
    } else {
      LoopLeavesSubscriptions(s, step);
    }
  }

  lemma CancelledItemIsFreed(s: State)
    requires Inv(s) && s.pc.Ending? && !s.items[s.pc.item].owned
    ensures Enabled(s, End) && s.pc.item !in Do(s, End).items
  {}

  // ---------- the waiting list is served in order ----------

  lemma {:induction false} WithoutPosition(q: seq<nat>, x: nat, k: nat) returns (k': nat)
    requires k < |q| && q[k] != x
    ensures k' <= k && k' < |Without(q, x)| && Without(q, x)[k'] == q[k]
  {
    if k == 0 {
      k' := 0;
    } else {
      var j := WithoutPosition(q[1..], x, k - 1);
      k' := if q[0] == x then j else j + 1;
    }
  }

  /** A waiting item leaves the list only into dispatch or by being unsubscribed; otherwise it never moves
      back, and every pop moves it forward. */
  lemma WaitingItemAdvances(s: State, step: Step, k: nat) returns (k': nat)
    requires Inv(s) && Enabled(s, step) && k < |s.waiting|
    ensures s.waiting[k] !in Do(s, step).waiting ==>
      || (step.Pop? && Do(s, step).pc == Popped(s.waiting[k]))
      || (step.Unsubscribe? && step.source in s.tree && s.tree[step.source] == s.waiting[k])
    ensures s.waiting[k] in Do(s, step).waiting ==>
      k' < |Do(s, step).waiting| && Do(s, step).waiting[k'] == s.waiting[k] && k' + (if step.Pop? then 1 else 0) <= k
  {
    k' := k;
    if !ChangesSubscriptions(step) {
      OthersKeepItems(s, step);
    } else if step.Pop? {
      if k > 0 { k' := k - 1; }
    } else if step.Unsubscribe? {
      if s.tree[step.source] != s.waiting[k] { k' := WithoutPosition(s.waiting, s.tree[step.source], k); }
    } else {
      QueueGrows(s, step);
    }
  }

  lemma QueueGrows(s: State, step: Step)
    requires Enabled(s, step) && (step.LinkNotify? || step.Subscribe? || step.End?)
    ensures s.waiting <= Do(s, step).waiting
  {}

  function Pops(steps: seq<Step>): nat {
    if steps == [] then 0 else (if steps[0].Pop? then 1 else 0) + Pops(steps[1..])
  }

  /** An item at position k of the waiting list is dispatched or unsubscribed within k + 1 pops:
      as long as it stays on the list, at most k items are popped. */
  lemma {:induction false} ServedWithinPosition(states: seq<State>, steps: seq<Step>, k: nat)
    requires Run(states, steps) && Inv(states[0]) && k < |states[0].waiting|
    requires forall j :: 0 <= j < |states| ==> states[0].waiting[k] in states[j].waiting
    ensures Pops(steps) <= k
    decreases |steps|
  {
    if steps != [] {
      var k' := WaitingItemAdvances(states[0], steps[0], k);
      assert states[0].waiting[k] in states[1].waiting;
      StepKeepsInv(states[0], steps[0]);
      forall j | 0 <= j < |states| - 1 ensures states[1].waiting[k'] in states[1..][j].waiting {
        assert states[1..][j] == states[j + 1];
      }
      ServedWithinPosition(states[1..], steps[1..], k');
    }
  }

  // ---------- pended callbacks run in order ----------

  function PendedBy(step: Step): seq<nat> {
    if step.Pend? then [step.callback] else []
  }

  /** The callbacks pended in the first `n` steps, in order. */
  function Pended(steps: seq<Step>, n: nat): seq<nat>
    requires n <= |steps|
  {
    if n == 0 then [] else Pended(steps, n - 1) + PendedBy(steps[n - 1])
  }

  predicate Begins(s: State, s': State) {
    s'.pc.InPending() && !s.pc.InPending()
  }

  function BegunBy(s: State, s': State): seq<nat> {
    if Begins(s, s') then [s'.pc.back.callback] else []
  }

  /** The pended callbacks that began to run in the first `n` steps, in order. */
  function Begun(states: seq<State>, n: nat): seq<nat>
    requires n < |states|
  {
    if n == 0 then [] else Begun(states, n - 1) + BegunBy(states[n - 1], states[n])
  }

  function OldestFirst(q: seq<nat>): seq<nat> {
    if q == [] then [] else OldestFirst(q[1..]) + [q[0]]
  }

  lemma {:induction false} OldestFirstEnds(q: seq<nat>)
    requires q != []
    ensures OldestFirst(q) == [q[|q| - 1]] + OldestFirst(q[..|q| - 1])
  {
    if |q| > 1 {
      OldestFirstEnds(q[1..]);
      assert q[1..][..|q| - 2] == q[..|q| - 1][1..];
    } else {
      assert q[1..] == [] && q[..|q| - 1] == [];
    }
  }

  /** The queued callbacks that have not begun to run, the newest first. */
  function NotBegun(s: State): seq<nat> {
    if s.pc.InPending() && s.pending != [] then s.pending[..|s.pending| - 1] else s.pending
  }

  predicate TouchesPending(step: Step) {
    step.Pend? || step.NextPending? || step.Return?
  }

  lemma PendingLeft(s: State, step: Step)
    requires ControlOk(s) && Enabled(s, step) && !TouchesPending(step)
    ensures Do(s, step).pending == s.pending && Do(s, step).pc.InPending() == s.pc.InPending()
  {}

  /** What a step does to the callbacks that have not begun. */
  predicate PendingMoves(s: State, step: Step, s': State) {
    if step.Pend? then NotBegun(s') == [step.callback] + NotBegun(s) && !Begins(s, s')
    else if Begins(s, s') then NotBegun(s) == NotBegun(s') + [s'.pc.back.callback]
    else NotBegun(s') == NotBegun(s)
  }

  lemma PendingStep(s: State, step: Step)
    requires ControlOk(s) && Enabled(s, step)
    ensures PendingMoves(s, step, Do(s, step))
  {
    if !TouchesPending(step) { PendingLeft(s, step); }
  }

  lemma PendingRun(states: seq<State>, steps: seq<Step>, n: nat)
    requires Run(states, steps) && Initial(states[0]) && n < |steps|
    ensures PendingMoves(states[n], steps[n], states[n + 1])
  {
    ReachableStatesOk(states, steps, n);
    RunMoves(states, steps, n);
    PendingStep(states[n], steps[n]);
  }

  lemma OldestFirstMoves(s: State, step: Step, s': State)
    requires PendingMoves(s, step, s')
    ensures OldestFirst(NotBegun(s)) + PendedBy(step) == BegunBy(s, s') + OldestFirst(NotBegun(s'))
  {
    if step.Pend? {
      assert ([step.callback] + NotBegun(s))[1..] == NotBegun(s);
    } else if Begins(s, s') {
      OldestFirstEnds(NotBegun(s));
      assert NotBegun(s)[..|NotBegun(s)| - 1] == NotBegun(s');
    }
  }

  ghost predicate PendingMovesAt(states: seq<State>, steps: seq<Step>, j: nat) {
    j < |steps| && j + 1 < |states| ==> PendingMoves(states[j], steps[j], states[j + 1])
  }

  /** Step `i` hands items from `left` on to `after`, as `before` grows at the other end. */
  ghost predicate Hands(before: seq<seq<nat>>, after: seq<seq<nat>>, left: seq<seq<nat>>, i: nat) {
    i + 1 < |before| && i + 1 < |after| && i + 1 < |left| ==>
      exists x, y :: before[i + 1] == before[i] + x && after[i + 1] == after[i] + y && left[i] + x == y + left[i + 1]
  }

  lemma {:induction false} HandedOn(before: seq<seq<nat>>, after: seq<seq<nat>>, left: seq<seq<nat>>, n: nat)
    requires n < |before| == |after| == |left| && before[0] == after[0] == left[0] == []
    requires forall i: nat :: Hands(before, after, left, i)
    ensures before[n] == after[n] + left[n]
  {
    if n > 0 {
      HandedOn(before, after, left, n - 1);
      assert Hands(before, after, left, n - 1);
      var x, y :| before[n] == before[n - 1] + x && after[n] == after[n - 1] + y && left[n - 1] + x == y + left[n];
      Regroup(after[n - 1], left[n - 1], x);
      Regroup(after[n - 1], y, left[n]);
    }
  }

  /** What was pended, what has begun and what has not, at every state of a run. */
  ghost predicate Histories(states: seq<State>, steps: seq<Step>, pended: seq<seq<nat>>, begun: seq<seq<nat>>,
      left: seq<seq<nat>>)
  {
    && |states| == |steps| + 1 == |pended| == |begun| == |left|
    && forall k: nat :: HistoryAt(states, steps, pended, begun, left, k)
  }

  ghost predicate HistoryAt(states: seq<State>, steps: seq<Step>, pended: seq<seq<nat>>, begun: seq<seq<nat>>,
      left: seq<seq<nat>>, k: nat)
  {
    k <= |steps| && k < |states| && k < |pended| && k < |begun| && k < |left| ==>
      && pended[k] == Pended(steps, k) && begun[k] == Begun(states, k)
      && left[k] == OldestFirst(NotBegun(states[k]))
  }

  lemma HistoriesOf(states: seq<State>, steps: seq<Step>)
    returns (pended: seq<seq<nat>>, begun: seq<seq<nat>>, left: seq<seq<nat>>)
    requires |states| == |steps| + 1
    ensures Histories(states, steps, pended, begun, left)
  {
    pended := seq(|states|, i requires 0 <= i <= |steps| => Pended(steps, i));
    begun := seq(|states|, i requires 0 <= i < |states| => Begun(states, i));
    left := seq(|states|, i requires 0 <= i < |states| => OldestFirst(NotBegun(states[i])));
  }

  lemma PendedNext(states: seq<State>, steps: seq<Step>, i: nat)
    requires |states| == |steps| + 1 && i < |steps|
    ensures Pended(steps, i + 1) == Pended(steps, i) + PendedBy(steps[i])
    ensures Begun(states, i + 1) == Begun(states, i) + BegunBy(states[i], states[i + 1])
  {}

  lemma HandsAt(states: seq<State>, steps: seq<Step>, pended: seq<seq<nat>>, begun: seq<seq<nat>>,
      left: seq<seq<nat>>, i: nat)
    requires Histories(states, steps, pended, begun, left) && PendingMovesAt(states, steps, i)
    ensures Hands(pended, begun, left, i)
  {
    if i < |steps| {
      assert HistoryAt(states, steps, pended, begun, left, i);
      assert HistoryAt(states, steps, pended, begun, left, i + 1);
      PendedNext(states, steps, i);
      OldestFirstMoves(states[i], steps[i], states[i + 1]);
    }
  }

  lemma PendedInOrder(states: seq<State>, steps: seq<Step>, n: nat)
    requires n <= |steps| && |states| == |steps| + 1 && NotBegun(states[0]) == []
    requires forall j: nat :: PendingMovesAt(states, steps, j)
    ensures Pended(steps, n) == Begun(states, n) + OldestFirst(NotBegun(states[n]))
  {
    var pended, begun, left := HistoriesOf(states, steps);
    assert HistoryAt(states, steps, pended, begun, left, 0);
    assert HistoryAt(states, steps, pended, begun, left, n);
    forall i: nat ensures Hands(pended, begun, left, i) {
      HandsAt(states, steps, pended, begun, left, i);
    }
    HandedOn(pended, begun, left, n);
  }

  /** Over every run, the k-th callback that runs is the k-th that was pended, and those that have not begun are queued
      in the same order. */
  lemma PendedCallbacksInOrder(states: seq<State>, steps: seq<Step>, n: nat)
    requires Run(states, steps) && Initial(states[0]) && n <= |steps|
    ensures Pended(steps, n) == Begun(states, n) + OldestFirst(NotBegun(states[n]))
  {
    forall j: nat ensures PendingMovesAt(states, steps, j) {
      if j < |steps| { PendingRun(states, steps, j); }
    }
    PendedInOrder(states, steps, n);
  }

  // ---------- stop and free of timers take effect at once ----------

  /** Timer `t` cannot fire: it is gone, inactive, or has a request that is processed before any timer fires. */
  predicate Quiet(s: State, t: nat) {
    t !in s.timers || !s.timers[t].active || t in s.timerQueue
  }

  predicate ProcessesStart(s: State, step: Step, t: nat) {
    step.DrainTimer? && s.timerQueue != [] && s.timerQueue[0] == t && t in s.timers && s.timers[t].request == Start
  }

  lemma QuietDrain(s: State, t: nat)
    requires TimersOk(s) && Enabled(s, DrainTimer) && Quiet(s, t) && !ProcessesStart(s, DrainTimer, t)
    ensures Quiet(DoDrainTimer(s), t)
  {
    if s.timerQueue != [] { assert s.timerQueue[0] in s.timerQueue; }
  }

  /** A quiet timer stays quiet, and does not fire, until a start request for it is processed. */
  lemma QuietStep(s: State, step: Step, t: nat)
    requires Inv(s) && Enabled(s, step) && Quiet(s, t) && !ProcessesStart(s, step, t)
    ensures Quiet(Do(s, step), t) && step != Fire(t)
  {
    if !TouchesTimers(step) {
      TimersLeft(s, step);
    } else if step.DrainTimer? {
      QuietDrain(s, t);
    } else if step.Fire? {
      FireQuiet(s, step.timer, t);
    } else {
      TimerCallQuiet(s, step, t);
    }
  }

  lemma TimerCallQuiet(s: State, step: Step, t: nat)
    requires Enabled(s, step) && Quiet(s, t) && (step.NewTimer? || step.AskTimer?)
    ensures Quiet(Do(s, step), t)
  {}

  lemma FireQuiet(s: State, u: nat, t: nat)
    requires Inv(s) && Enabled(s, Fire(u)) && Quiet(s, t)
    ensures Quiet(Do(s, Fire(u)), t) && u != t
  {}

  lemma QuietStepAt(states: seq<State>, steps: seq<Step>, t: nat, n: nat)
    requires Run(states, steps) && Inv(states[0]) && n < |steps| && Quiet(states[n], t)
    requires !ProcessesStart(states[n], steps[n], t)
    ensures Quiet(states[n + 1], t) && steps[n] != Fire(t)
  {
    RunKeepsInv(states, steps, n);
    RunMoves(states, steps, n);
    QuietStep(states[n], steps[n], t);
  }

  ghost predicate KeepsQuiet(states: seq<State>, t: nat, i: nat) {
    i + 1 < |states| && Quiet(states[i], t) ==> Quiet(states[i + 1], t)
  }

  lemma {:induction false} QuietChain(states: seq<State>, t: nat, m: nat, n: nat)
    requires m <= n < |states| && Quiet(states[m], t) && forall i: nat :: m <= i < n ==> KeepsQuiet(states, t, i)
    ensures Quiet(states[n], t)
    decreases n
  {
    if m < n {
      QuietChain(states, t, m, n - 1);
      assert KeepsQuiet(states, t, n - 1);
    }
  }

  lemma StaysQuiet(states: seq<State>, steps: seq<Step>, t: nat, m: nat, n: nat)
    requires Run(states, steps) && Inv(states[0]) && m <= n < |states| && Quiet(states[m], t)
    requires forall j :: m <= j < n ==> !ProcessesStart(states[j], steps[j], t)
    ensures Quiet(states[n], t)
  {
    forall i: nat | m <= i < n ensures KeepsQuiet(states, t, i) {
      if Quiet(states[i], t) { QuietStepAt(states, steps, t, i); }
    }
    QuietChain(states, t, m, n);
  }

  lemma AskedTimerIsQuiet(s: State, t: nat, request: Request)
    requires Enabled(s, AskTimer(t, request))
    ensures Quiet(Do(s, AskTimer(t, request)), t)
  {}

  /** After a timer's stop or free call its callback never runs again, unless a start request for it is processed
      later. */
  lemma StopTakesEffectAtOnce(states: seq<State>, steps: seq<Step>, t: nat, request: Request, m: nat, n: nat)
    requires Run(states, steps) && Initial(states[0]) && m < n < |steps|
    requires steps[m] == AskTimer(t, request) && (request == Halt || request == Free)
    requires forall j :: m < j < n ==> !ProcessesStart(states[j], steps[j], t)
    ensures steps[n] != Fire(t)
  {
    InitialInv(states[0]);
    RunMoves(states, steps, m);
    AskedTimerIsQuiet(states[m], t, request);
    StaysQuiet(states, steps, t, m + 1, n);
    RunKeepsInv(states, steps, n);
    RunMoves(states, steps, n);
    if steps[n] == Fire(t) { QuietStep(states[n], steps[n], t); }
  }
}

/** What every reachable state of the event loop satisfies. */
module EventLoopInvariant {
  import opened Lists
  import opened TimerRequests
  import opened EventLoopModel

  // ---------- subscriptions and item lifetime ----------

  /** Item `i` is the subscription that the tree holds for its object. */
  ghost predicate Registered(s: State, i: nat) {
    i in s.items && s.items[i].source in s.tree && s.tree[s.items[i].source] == i
  }

  /** Each tree entry is exactly the item in its object's matching link slot. */
  ghost predicate TreeOk(s: State) {
    forall o :: o in s.tree ==>
      && o in s.objects && o in s.links && s.tree[o] in s.items
      && s.items[s.tree[o]].source == o && s.items[s.tree[o]].owned
      && s.links[o].Slot(s.items[s.tree[o]].dir) == Some(s.tree[o])
  }

  ghost predicate LinksOk(s: State) {
    forall o :: o in s.links ==>
      && (s.links[o].itemIn.Some? ==> InSlot(s, o, In, s.links[o].itemIn.value))
      && (s.links[o].itemOut.Some? ==> InSlot(s, o, Out, s.links[o].itemOut.value))
  }

  ghost predicate InSlot(s: State, o: nat, dir: Direction, i: nat) {
    o in s.tree && s.tree[o] == i && i in s.items && s.items[i].dir == dir
  }

  /** The waiting list holds subscribed items, each once. */
  ghost predicate WaitingOk(s: State) {
    && (forall k :: 0 <= k < |s.waiting| ==> Registered(s, s.waiting[k]))
    && Distinct(s.waiting)
  }

  /** The item the loop is working on between taking it off the list and letting go of it. */
  function InHand(s: State): Option<nat> {
    match s.pc
    case App(ToItem(i)) => Some(i)
    case Popped(i) => Some(i)
    case Returned(i) => Some(i)
    case Checked(i, _) => Some(i)
    case Ending(i, _) => Some(i)
    case _ => None
  }

  /** An allocated item is subscribed, or was cancelled from its own callback and is still in hand. */
  ghost predicate ItemsOk(s: State) {
    && (forall i :: i in s.items ==>
         && s.items[i].source in s.objects && s.items[i].source in s.links
         && (if s.items[i].owned then Registered(s, i) else InHand(s) == Some(i) && !s.pc.Popped?))
    && (InHand(s).Some? ==> InHand(s).value in s.items)
    && (s.current.Some? <==> (s.pc.App? && s.pc.back.ToItem?) || s.pc.Returned? || s.pc.Checked?)
    && (s.current.Some? ==> s.current == InHand(s))
    && (s.pc.Ending? ==> (s.pc.status == FreeLater <==> !s.items[s.pc.item].owned))
  }

  ghost predicate SubscriptionsOk(s: State) {
    TreeOk(s) && LinksOk(s) && WaitingOk(s) && ItemsOk(s)
  }

  // ---------- timers ----------

  /** The request queue holds exactly the timers with a pending request, each once. */
  ghost predicate TimersOk(s: State) {
    && Distinct(s.timerQueue)
    && (forall k :: 0 <= k < |s.timerQueue| ==> s.timerQueue[k] in s.timers)
    && (forall t :: t in s.timers ==> (s.timers[t].request != NoRequest <==> t in s.timerQueue))
  }

  // ---------- control ----------

  /** Bits taken and not yet restored exist only between taking them and restoring them. */
  ghost predicate ControlOk(s: State) {
    && (!s.pc.App? ==> LOOP !in s.notifying && s.ownNotify == None)
    && (LOOP in s.notifying ==> s.ownNotify == None)
    && (s.ownNotify.Some? ==> s.ownNotify.value == Timer || s.ownNotify.value == Pending)
    && s.pc != Crashed
    && (s.held != {} ==> s.pc == Taken || InEventBranch(s) || s.pc == Restoring || s.pc == DrainTimers)
    && (s.pc == Taken ==> s.held != {})
    && (s.pc == Expiring ==> s.timerQueue == [])
    && (s.pc.InPending() ==> s.pending != [] && s.pc.back.callback == s.pending[|s.pending| - 1])
  }

  /** Between taking an Event bit and the end of furi_event_loop_sync_flags. */
  predicate InEventBranch(s: State) {
    s.pc == Popping || InHand(s).Some? || s.pc == Pushed || s.pc == Syncing
  }

  // ---------- no lost wake-up ----------

  /** Queued work always has its bit set, or the loop has the bit in hand, or its own thread is about to set it. */
  ghost predicate WakeOk(s: State) {
    s.pc != Stopped ==>
      && (s.waiting != [] ==> Event in s.bits || (s.pc == Taken && Event in s.held) || InEventBranch(s))
      && (s.timerQueue != [] ==>
            Timer in s.bits || Timer in s.held || s.pc == DrainTimers || s.ownNotify == Some(Timer))
      && (s.pending != [] ==>
            || Pending in s.bits || Pending in s.held || s.pc == DrainPending || s.pc.InPending()
            || s.ownNotify == Some(Pending))
  }

  // ---------- no missed readiness ----------

  /** The loop has item `i` in hand and has not finished its last level check, or is about to put it back. */
  predicate BeingDispatched(s: State, i: nat) {
    || s.pc == Popped(i)
    || s.pc == App(ToItem(i))
    || s.pc == Returned(i)
    || s.pc == Checked(i, true)
    || s.pc == Ending(i, Incomplete)
  }

  /** Some thread has changed the object of item `i` and has yet to notify this direction. */
  ghost predicate AboutToNotify(s: State, o: nat, dir: Direction) {
    exists t :: t in s.notifying && s.notifying[t] == (o, dir)
  }

  /** The level-triggered subscription to object `o` has its level true. */
  predicate LevelTrue(s: State, o: nat)
    requires o in s.tree
  {
    && s.tree[o] in s.items && o in s.objects
    && !s.items[s.tree[o]].edge && s.objects[o].Level(s.items[s.tree[o]].dir)
  }

  ghost predicate Noticed(s: State, o: nat)
    requires o in s.tree && s.tree[o] in s.items
  {
    s.tree[o] in s.waiting || BeingDispatched(s, s.tree[o]) || AboutToNotify(s, o, s.items[s.tree[o]].dir)
  }

  ghost predicate ReadinessOk(s: State) {
    forall o :: o in s.tree && LevelTrue(s, o) ==> Noticed(s, o)
  }

  /** Every object has its link, and every operation in progress its object. */
  ghost predicate WiringOk(s: State) {
    s.links.Keys == s.objects.Keys && forall t :: t in s.notifying ==> s.notifying[t].0 in s.links
  }

  ghost predicate Inv(s: State) {
    SubscriptionsOk(s) && TimersOk(s) && ControlOk(s) && WakeOk(s) && ReadinessOk(s) && WiringOk(s)
  }

  // ---------- the initial state ----------

  /** Before any application code ran: objects and their links exist, nothing is subscribed. */
  ghost predicate Initial(s: State) {
    && s.links.Keys == s.objects.Keys
    && (forall o :: o in s.links ==> s.links[o] == Link(None, None))
    && s.tree == map[] && s.items == map[] && s.waiting == [] && s.current == None
    && s.bits == {} && s.held == {} && s.pc == App(Outside)
    && s.notifying == map[] && s.ownNotify == None
    && s.timers == map[] && s.timerQueue == [] && s.pending == []
  }

  lemma InitialInv(s: State)
    requires Initial(s)
    ensures Inv(s)
  {}

  // ---------- steps that touch subscriptions ----------

  lemma PushBackDistinct(q: seq<nat>, i: nat)
    requires Distinct(q)
    ensures Distinct(PushBack(q, i))
    ensures forall x :: x in PushBack(q, i) <==> x in q || x == i
  {}

  /** The waiting list after a registered item was pushed. */
  lemma WaitingAfterPush(s: State, s': State, i: nat)
    requires WaitingOk(s) && s'.waiting == PushBack(s.waiting, i)
    requires Registered(s', i) && forall x :: x in s.waiting && Registered(s, x) ==> Registered(s', x)
    ensures WaitingOk(s')
  {
    PushBackDistinct(s.waiting, i);
    forall k | 0 <= k < |s'.waiting| ensures Registered(s', s'.waiting[k]) {
      assert s'.waiting[k] in s'.waiting;
    }
  }

  lemma SubscribeTree(s: State, i: nat, o: nat, dir: Direction, edge: bool)
    requires TreeOk(s) && LinksOk(s) && Enabled(s, Subscribe(i, o, dir, edge))
    ensures TreeOk(DoSubscribe(s, i, o, dir, edge)) && LinksOk(DoSubscribe(s, i, o, dir, edge))
  {
    AddToTree(s, DoSubscribe(s, i, o, dir, edge), i, o, dir, edge);
  }

  lemma AddToTree(s: State, s': State, i: nat, o: nat, dir: Direction, edge: bool)
    requires TreeOk(s) && LinksOk(s) && i !in s.items && o !in s.tree && o in s.objects && o in s.links
    requires s'.objects == s.objects && s'.items == s.items[i := Item(o, dir, edge, true)]
    requires s'.tree == s.tree[o := i] && s'.links == s.links[o := s.links[o].Set(dir, Some(i))]
    ensures TreeOk(s') && LinksOk(s')
  {
    AddToSlots(s, s', i, o, dir, edge);
  }

  lemma AddToSlots(s: State, s': State, i: nat, o: nat, dir: Direction, edge: bool)
    requires LinksOk(s) && i !in s.items && o !in s.tree && o in s.links
    requires s'.items == s.items[i := Item(o, dir, edge, true)]
    requires s'.tree == s.tree[o := i] && s'.links == s.links[o := s.links[o].Set(dir, Some(i))]
    ensures LinksOk(s')
  {}

  lemma SubscribeWaiting(s: State, i: nat, o: nat, dir: Direction, edge: bool)
    requires WaitingOk(s) && Enabled(s, Subscribe(i, o, dir, edge))
    ensures WaitingOk(DoSubscribe(s, i, o, dir, edge))
  {
    var s' := DoSubscribe(s, i, o, dir, edge);
    assert forall x :: Registered(s, x) ==> Registered(s', x);
    assert Registered(s', i);
    if s'.waiting != s.waiting { WaitingAfterPush(s, s', i); }
  }

  lemma SubscribeItems(s: State, i: nat, o: nat, dir: Direction, edge: bool)
    requires ItemsOk(s) && Enabled(s, Subscribe(i, o, dir, edge))
    ensures ItemsOk(DoSubscribe(s, i, o, dir, edge))
  {
    var s' := DoSubscribe(s, i, o, dir, edge);
    assert InHand(s') == InHand(s) && s'.pc == s.pc && s'.current == s.current;
    forall x | x in s'.items
      ensures s'.items[x].source in s'.objects && s'.items[x].source in s'.links
      ensures if s'.items[x].owned then Registered(s', x) else InHand(s') == Some(x) && !s'.pc.Popped?
    {
      assert x != i ==> x in s.items && (s.items[x].owned ==> Registered(s, x));
    }
  }

  lemma UnsubscribeTree(s: State, o: nat)
    requires TreeOk(s) && LinksOk(s) && Enabled(s, Unsubscribe(o))
    ensures TreeOk(DoUnsubscribe(s, o)) && LinksOk(DoUnsubscribe(s, o))
  {}

  lemma UnsubscribeWaiting(s: State, o: nat)
    requires TreeOk(s) && WaitingOk(s) && Enabled(s, Unsubscribe(o))
    ensures WaitingOk(DoUnsubscribe(s, o))
  {
    var s' := DoUnsubscribe(s, o);
    WithoutDistinct(s.waiting, s.tree[o]);
    forall k | 0 <= k < |s'.waiting| ensures Registered(s', s'.waiting[k]) {
      assert s'.waiting[k] in s'.waiting;
      assert s'.waiting[k] in s.waiting && s'.waiting[k] != s.tree[o];
    }
  }

  lemma UnsubscribeItems(s: State, o: nat)
    requires TreeOk(s) && ItemsOk(s) && Enabled(s, Unsubscribe(o))
    ensures ItemsOk(DoUnsubscribe(s, o))
  {
    var s', i := DoUnsubscribe(s, o), s.tree[o];
    assert InHand(s') == InHand(s) && s'.pc == s.pc && s'.current == s.current;
    assert InHand(s) == Some(i) ==> s.current == Some(i);
    forall x | x in s'.items
      ensures s'.items[x].source in s'.objects && s'.items[x].source in s'.links
      ensures if s'.items[x].owned then Registered(s', x) else InHand(s') == Some(x) && !s'.pc.Popped?
    {
      assert x in s.items && (s.items[x].owned ==> Registered(s, x));
    }
  }

  lemma LinkNotifyKeeps(s: State, t: nat)
    requires SubscriptionsOk(s) && Enabled(s, LinkNotify(t))
    ensures SubscriptionsOk(DoLinkNotify(s, t))
  {
    var s' := DoLinkNotify(s, t);
    var slot := s.links[s.notifying[t].0].Slot(s.notifying[t].1);
    if slot.Some? { WaitingAfterPush(s, s', slot.value); }
  }

  lemma EndTree(s: State)
    requires TreeOk(s) && LinksOk(s) && ItemsOk(s) && Enabled(s, End)
    ensures TreeOk(DoEnd(s)) && LinksOk(DoEnd(s))
  {
    if s.pc.status == FreeLater {
      FreeUnowned(s, DoEnd(s), s.pc.item);
    } else {
      SameTree(s, DoEnd(s));
    }
  }

  lemma FreeUnowned(s: State, s': State, i: nat)
    requires TreeOk(s) && LinksOk(s) && i in s.items && !s.items[i].owned
    requires s'.objects == s.objects && s'.links == s.links && s'.tree == s.tree && s'.items == s.items - {i}
    ensures TreeOk(s') && LinksOk(s')
  {}

  lemma SameTree(s: State, s': State)
    requires TreeOk(s) && LinksOk(s)
    requires s'.objects == s.objects && s'.links == s.links && s'.tree == s.tree && s'.items == s.items
    ensures TreeOk(s') && LinksOk(s')
  {}

  lemma EndWaiting(s: State)
    requires TreeOk(s) && WaitingOk(s) && ItemsOk(s) && Enabled(s, End)
    ensures WaitingOk(DoEnd(s))
  {
    var s', i := DoEnd(s), s.pc.item;
    if s.pc.status == Incomplete {
      WaitingAfterPush(s, s', i);
    } else {
      forall k | 0 <= k < |s'.waiting| ensures Registered(s', s'.waiting[k]) {
        assert Registered(s, s'.waiting[k]);
      }
    }
  }

  lemma EndItems(s: State)
    requires ItemsOk(s) && Enabled(s, End)
    ensures ItemsOk(DoEnd(s))
  {
    var s', i := DoEnd(s), s.pc.item;
    forall x | x in s'.items
      ensures s'.items[x].source in s'.objects && s'.items[x].source in s'.links
      ensures if s'.items[x].owned then Registered(s', x) else InHand(s') == Some(x) && !s'.pc.Popped?
    {
      assert x in s.items && (s.items[x].owned ==> Registered(s, x));
    }
  }

  lemma PopKeepsLists(s: State)
    requires SubscriptionsOk(s) && Enabled(s, Pop)
    ensures TreeOk(DoPop(s)) && LinksOk(DoPop(s)) && WaitingOk(DoPop(s))
  {}

  lemma PopKeepsItems(s: State)
    requires SubscriptionsOk(s) && Enabled(s, Pop)
    ensures ItemsOk(DoPop(s))
  {
    if s.waiting != [] { assert Registered(s, s.waiting[0]); }
  }

  lemma PopKeeps(s: State)
    requires SubscriptionsOk(s) && Enabled(s, Pop)
    ensures SubscriptionsOk(DoPop(s))
  {
    PopKeepsLists(s);
    PopKeepsItems(s);
  }

  // ---------- steps that leave subscriptions alone ----------

  /** The subscription part of the state is untouched. */
  ghost predicate SameSubscriptions(s: State, s': State) {
    s'.objects.Keys == s.objects.Keys && s'.links == s.links && s'.tree == s.tree && s'.items == s.items &&
      s'.waiting == s.waiting
  }

  /** A move within one dispatch: the item stays in hand. */
  ghost predicate SameItem(s: State, s': State) {
    && InHand(s).Some? && InHand(s') == InHand(s) && !s'.pc.Popped?
    && s'.current == (if (s'.pc.App? && s'.pc.back.ToItem?) || s'.pc.Returned? || s'.pc.Checked? then InHand(s')
        else None)
    && (s'.pc.Ending? ==>
          InHand(s').value in s.items && (s'.pc.status == FreeLater <==> !s.items[InHand(s').value].owned))
  }

  /** The control does not move, or moves between places with no item in hand. */
  ghost predicate NoItem(s: State, s': State) {
    s'.current == s.current && (s'.pc == s.pc || (InHand(s) == None && InHand(s') == None))
  }

  lemma SameKeeps(s: State, s': State)
    requires SubscriptionsOk(s) && SameSubscriptions(s, s')
    requires SameItem(s, s') || NoItem(s, s')
    ensures SubscriptionsOk(s')
  {
    assert WaitingOk(s');
    assert ItemsOk(s') by {
      forall x | x in s'.items
        ensures s'.items[x].source in s'.objects && s'.items[x].source in s'.links
        ensures if s'.items[x].owned then Registered(s', x) else InHand(s') == Some(x) && !s'.pc.Popped?
      {
        assert s.items[x].owned ==> Registered(s, x);
      }
    }
  }

  predicate ChangesSubscriptions(step: Step) {
    step.LinkNotify? || step.Subscribe? || step.Unsubscribe? || step.Pop? || step.End?
  }

  /** Steps that any thread or the application takes. */
  predicate OutsideLoop(step: Step) {
    step.ChangeObject? || step.Raise? || step.Pend? || step.NewTimer? || step.AskTimer? || step.NotifyOwn? ||
      step.Return?
  }

  /** Steps of one round of the loop around an item. */
  predicate AroundItem(step: Step) {
    step.Begin? || step.Recheck? || step.Finish? || step.MarkEvent? || step.Sync? || step.Restore?
  }

  lemma ChooseLeaves(s: State)
    requires s.pc == Taken
    ensures SameSubscriptions(s, DoChoose(s)) && NoItem(s, DoChoose(s))
  {}

  lemma DrainTimerLeaves(s: State)
    requires Enabled(s, DrainTimer)
    ensures SameSubscriptions(s, DoDrainTimer(s)) && NoItem(s, DoDrainTimer(s))
  {}

  lemma ReturnLeaves(s: State)
    requires s.pc.App?
    ensures SameSubscriptions(s, DoReturn(s))
    ensures !s.pc.back.ToItem? ==> NoItem(s, DoReturn(s))
  {}

  lemma OutsideLeavesSubscriptions(s: State, step: Step)
    requires Enabled(s, step) && OutsideLoop(step)
    ensures SameSubscriptions(s, Do(s, step))
    ensures !MovesItem(s, step) ==> NoItem(s, Do(s, step))
  {
    if step.Return? { ReturnLeaves(s); }
  }

  lemma RoundLeavesSubscriptions(s: State, step: Step)
    requires Enabled(s, step) && AroundItem(step)
    ensures SameSubscriptions(s, Do(s, step))
    ensures !MovesItem(s, step) ==> NoItem(s, Do(s, step))
  {}

  lemma LoopLeavesSubscriptions(s: State, step: Step)
    requires Enabled(s, step) && (step.Take? || step.NextPending? || step.TimeOut? || step.Fire? || step.Tick?)
    ensures SameSubscriptions(s, Do(s, step)) && NoItem(s, Do(s, step))
  {}

  predicate MovesItem(s: State, step: Step) {
    step.Begin? || step.Recheck? || step.Finish? || (step.Return? && s.pc.App? && s.pc.back.ToItem?)
  }

  lemma ItemMoves(s: State, step: Step)
    requires Enabled(s, step) && MovesItem(s, step)
    requires s.current.Some? ==> s.current == InHand(s)
    requires s.pc.App? && s.pc.back.ToItem? ==> s.current == InHand(s)
    requires s.pc.Returned? ==> s.current == InHand(s)
    ensures SameItem(s, Do(s, step))
  {}

  lemma SubscriptionsStep(s: State, step: Step)
    requires SubscriptionsOk(s) && Enabled(s, step)
    ensures SubscriptionsOk(Do(s, step))
  {
    if !ChangesSubscriptions(step) {
      if OutsideLoop(step) {
        OutsideLeavesSubscriptions(s, step);
      } else if AroundItem(step) {
        RoundLeavesSubscriptions(s, step);
      } else if step.Choose? {
        ChooseLeaves(s);
      } else if step.DrainTimer? {
        DrainTimerLeaves(s);
      } else {
        LoopLeavesSubscriptions(s, step);
      }
      if MovesItem(s, step) { ItemMoves(s, step); }
      SameKeeps(s, Do(s, step));
    } else {
      SubscriptionChangesStep(s, step);
    }
  }

  lemma SubscriptionChangesStep(s: State, step: Step)
    requires SubscriptionsOk(s) && Enabled(s, step) && ChangesSubscriptions(step)
    ensures SubscriptionsOk(Do(s, step))
  {
    match step
    case LinkNotify(t) => LinkNotifyKeeps(s, t);
    case Subscribe(i, o, dir, edge) =>
      SubscribeTree(s, i, o, dir, edge);
      SubscribeWaiting(s, i, o, dir, edge);
      SubscribeItems(s, i, o, dir, edge);
    case Unsubscribe(o) =>
      UnsubscribeTree(s, o);
      UnsubscribeWaiting(s, o);
      UnsubscribeItems(s, o);
    case Pop => PopKeeps(s);
    case End =>
      EndTree(s);
      EndWaiting(s);
      EndItems(s);
  }

  // ---------- timers ----------

  predicate TouchesTimers(step: Step) {
    step.NewTimer? || step.AskTimer? || step.DrainTimer? || step.Fire?
  }

  ghost predicate SameTimers(s: State, s': State) {
    s'.timers == s.timers && s'.timerQueue == s.timerQueue
  }

  lemma TimersLeftOutside(s: State, step: Step)
    requires Enabled(s, step) && (OutsideLoop(step) || step.LinkNotify? || step.Subscribe? || step.Unsubscribe?) &&
        !TouchesTimers(step)
    ensures SameTimers(s, Do(s, step))
  {}

  lemma TimersLeftRound(s: State, step: Step)
    requires Enabled(s, step) && (AroundItem(step) || step.Pop? || step.End?)
    ensures SameTimers(s, Do(s, step))
  {
    if step.MarkEvent? || step.Sync? || step.Restore? || step.Pop? { TimersLeftRoundEnd(s, step); }
  }

  lemma TimersLeftRoundEnd(s: State, step: Step)
    requires Enabled(s, step) && (step.MarkEvent? || step.Sync? || step.Restore? || step.Pop?)
    ensures SameTimers(s, Do(s, step))
  {}

  lemma TimersLeftLoop(s: State, step: Step)
    requires Enabled(s, step) && !OutsideLoop(step) && !ChangesSubscriptions(step) && !AroundItem(step) &&
        !TouchesTimers(step)
    ensures SameTimers(s, Do(s, step))
  {}

  lemma TimersLeft(s: State, step: Step)
    requires Enabled(s, step) && !TouchesTimers(step)
    ensures SameTimers(s, Do(s, step))
  {
    if OutsideLoop(step) || step.LinkNotify? || step.Subscribe? || step.Unsubscribe? {
      TimersLeftOutside(s, step);
    } else if AroundItem(step) || step.Pop? || step.End? {
      TimersLeftRound(s, step);
    } else {
      TimersLeftLoop(s, step);
    }
  }

  lemma AskTimerKeeps(s: State, t: nat, request: Request)
    requires TimersOk(s) && t in s.timers && request != NoRequest
    ensures TimersOk(DoAskTimer(s, t, request))
  {
    var q := Without(s.timerQueue, t);
    WithoutDistinct(s.timerQueue, t);
    assert forall k :: 0 <= k < |q| ==> q[k] in q;
  }

  lemma DrainTimerKeeps(s: State)
    requires TimersOk(s) && Enabled(s, DrainTimer)
    ensures TimersOk(DoDrainTimer(s)) && DoDrainTimer(s).pc != Crashed
  {
    if s.timerQueue != [] {
      var t, q := s.timerQueue[0], s.timerQueue[1..];
      assert forall x :: x in s.timerQueue <==> x == t || x in q;
      assert forall k :: 0 <= k < |q| ==> q[k] == s.timerQueue[k + 1];
      assert t !in q;
      assert t in s.timerQueue;
    }
  }

  lemma FireKeeps(s: State, t: nat)
    requires TimersOk(s) && Enabled(s, Fire(t))
    ensures TimersOk(Do(s, Fire(t)))
  {}

  lemma NewTimerKeeps(s: State, t: nat, periodic: bool)
    requires TimersOk(s) && Enabled(s, NewTimer(t, periodic))
    ensures TimersOk(Do(s, NewTimer(t, periodic)))
  {}

  lemma TimersStep(s: State, step: Step)
    requires TimersOk(s) && Enabled(s, step)
    ensures TimersOk(Do(s, step))
  {
    if TouchesTimers(step) {
      match step
      case NewTimer(t, periodic) => NewTimerKeeps(s, t, periodic);
      case AskTimer(t, request) => AskTimerKeeps(s, t, request);
      case DrainTimer => DrainTimerKeeps(s);
      case Fire(t) => FireKeeps(s, t);
    } else {
      TimersLeft(s, step);
    }
  }

  // ---------- control ----------

  lemma ControlThread(s: State, step: Step)
    requires ControlOk(s) && Enabled(s, step) && (step.ChangeObject? || step.Raise? || step.LinkNotify?)
    ensures ControlOk(Do(s, step))
  {}

  lemma ControlCalls(s: State, step: Step)
    requires ControlOk(s) && Enabled(s, step)
    requires step.Pend? || step.NewTimer? || step.AskTimer? || step.Subscribe? || step.Unsubscribe?
    ensures ControlOk(Do(s, step))
  {}

  lemma ControlOutside(s: State, step: Step)
    requires ControlOk(s) && Enabled(s, step) &&
        (OutsideLoop(step) || step.LinkNotify? || step.Subscribe? || step.Unsubscribe?)
    ensures ControlOk(Do(s, step))
  {
    if step.ChangeObject? || step.Raise? || step.LinkNotify? {
      ControlThread(s, step);
    } else if !step.NotifyOwn? && !step.Return? {
      ControlCalls(s, step);
    }
  }

  lemma ControlRound(s: State, step: Step)
    requires ControlOk(s) && Enabled(s, step) && AroundItem(step)
    ensures ControlOk(Do(s, step))
  {}

  lemma ControlPopEnd(s: State)
    requires ControlOk(s)
    ensures s.pc == Popping ==> ControlOk(DoPop(s))
    ensures s.pc.Ending? ==> ControlOk(DoEnd(s))
  {}

  lemma ControlLoop(s: State, step: Step)
    requires ControlOk(s) && TimersOk(s) && WakeOk(s) && Enabled(s, step)
    requires !OutsideLoop(step) && !AroundItem(step) && !ChangesSubscriptions(step)
    ensures ControlOk(Do(s, step))
  {
    if step.DrainTimer? { DrainTimerKeeps(s); }
    if step.Choose? { ChooseControl(s); }
  }

  lemma SomeBranch(flags: set<Flag>)
    requires flags != {}
    ensures Branch(flags) != Crashed
  {
    var f :| f in flags;
    assert f == Stop || f == Event || f == Timer || f == Pending || f == ThreadFlag;
  }

  lemma ChooseControl(s: State)
    requires ControlOk(s) && s.pc == Taken
    ensures ControlOk(DoChoose(s))
  {
    SomeBranch(s.held);
  }

  lemma ControlStep(s: State, step: Step)
    requires ControlOk(s) && TimersOk(s) && WakeOk(s) && Enabled(s, step)
    ensures ControlOk(Do(s, step))
  {
    if OutsideLoop(step) || step.LinkNotify? || step.Subscribe? || step.Unsubscribe? {
      ControlOutside(s, step);
    } else if AroundItem(step) {
      ControlRound(s, step);
    } else if step.Pop? || step.End? {
      ControlPopEnd(s);
    } else {
      ControlLoop(s, step);
    }
  }

  // ---------- no lost wake-up ----------

  lemma WakeOutside(s: State, step: Step)
    requires WakeOk(s) && ControlOk(s) && Enabled(s, step) && (OutsideLoop(step) || step.LinkNotify? || step.Subscribe?)
    ensures WakeOk(Do(s, step))
  {}

  lemma WakeUnsubscribe(s: State, o: nat)
    requires WakeOk(s) && Enabled(s, Unsubscribe(o))
    ensures WakeOk(DoUnsubscribe(s, o))
  {}

  lemma WakeRound(s: State, step: Step)
    requires WakeOk(s) && ControlOk(s) && Enabled(s, step) && AroundItem(step)
    ensures WakeOk(Do(s, step))
  {}

  lemma WakePopEnd(s: State)
    requires WakeOk(s) && ControlOk(s)
    ensures s.pc == Popping ==> WakeOk(DoPop(s))
    ensures s.pc.Ending? ==> WakeOk(DoEnd(s))
  {}

  lemma WakeLoop(s: State, step: Step)
    requires WakeOk(s) && ControlOk(s) && TimersOk(s) && Enabled(s, step)
    requires !OutsideLoop(step) && !AroundItem(step) && !ChangesSubscriptions(step)
    ensures WakeOk(Do(s, step))
  {
    if step.DrainTimer? { DrainTimerKeeps(s); }
  }

  lemma WakeStep(s: State, step: Step)
    requires WakeOk(s) && ControlOk(s) && TimersOk(s) && Enabled(s, step)
    ensures WakeOk(Do(s, step))
  {
    if OutsideLoop(step) || step.LinkNotify? || step.Subscribe? {
      WakeOutside(s, step);
    } else if step.Unsubscribe? {
      WakeUnsubscribe(s, step.source);
    } else if AroundItem(step) {
      WakeRound(s, step);
    } else if step.Pop? || step.End? {
      WakePopEnd(s);
    } else {
      WakeLoop(s, step);
    }
  }

  // ---------- no missed readiness ----------

  lemma ChangeKeepsReadiness(s: State, t: nat, o: nat, change: Change)
    requires ReadinessOk(s) && Enabled(s, ChangeObject(t, o, change))
    ensures ReadinessOk(Do(s, ChangeObject(t, o, change)))
  {
    var s' := Do(s, ChangeObject(t, o, change));
    forall x | x in s'.tree && LevelTrue(s', x) ensures Noticed(s', x) {
      var dir := s.items[s.tree[x]].dir;
      if x == o && dir == change.Notifies() {
        assert s'.notifying[t] == (o, dir);
      } else {
        assert LevelTrue(s, x) && Noticed(s, x);
        if w :| w in s.notifying && s.notifying[w] == (x, dir) { assert s'.notifying[w] == (x, dir); }
      }
    }
  }

  lemma LinkNotifyKeepsReadiness(s: State, t: nat)
    requires ReadinessOk(s) && TreeOk(s) && Enabled(s, LinkNotify(t))
    ensures ReadinessOk(DoLinkNotify(s, t))
  {
    var s' := DoLinkNotify(s, t);
    forall x | x in s'.tree && LevelTrue(s', x) ensures Noticed(s', x) {
      var dir := s.items[s.tree[x]].dir;
      assert LevelTrue(s, x) && Noticed(s, x);
      if w :| w in s.notifying && s.notifying[w] == (x, dir) {
        if w != t { assert s'.notifying[w] == (x, dir); }
      }
    }
  }

  lemma SubscribeKeepsReadiness(s: State, i: nat, o: nat, dir: Direction, edge: bool)
    requires ReadinessOk(s) && TreeOk(s) && Enabled(s, Subscribe(i, o, dir, edge))
    ensures ReadinessOk(DoSubscribe(s, i, o, dir, edge))
  {
    var s' := DoSubscribe(s, i, o, dir, edge);
    forall x | x in s'.tree && LevelTrue(s', x) ensures Noticed(s', x) {
      if x != o {
        assert LevelTrue(s, x) && Noticed(s, x);
        SameNotifying(s, s', x);
      }
    }
  }

  lemma SameNotifying(s: State, s': State, x: nat)
    requires s'.notifying == s.notifying
    ensures forall dir :: AboutToNotify(s, x, dir) ==> AboutToNotify(s', x, dir)
  {
    forall dir | AboutToNotify(s, x, dir) ensures AboutToNotify(s', x, dir) {
      var w :| w in s.notifying && s.notifying[w] == (x, dir);
      assert s'.notifying[w] == (x, dir);
    }
  }

  lemma UnsubscribeKeepsReadiness(s: State, o: nat)
    requires ReadinessOk(s) && TreeOk(s) && Enabled(s, Unsubscribe(o))
    ensures ReadinessOk(DoUnsubscribe(s, o))
  {
    var s' := DoUnsubscribe(s, o);
    forall x | x in s'.tree && LevelTrue(s', x) ensures Noticed(s', x) {
      assert LevelTrue(s, x) && Noticed(s, x);
      SameNotifying(s, s', x);
    }
  }

  /** A step that changes neither objects, subscriptions nor notifying threads keeps readiness if it drops
      an item from the list or from dispatch only into dispatch, onto the list, or with its level false. */
  lemma ControlKeepsReadiness(s: State, s': State)
    requires ReadinessOk(s) && s'.objects == s.objects && s'.tree == s.tree && s'.notifying == s.notifying
    requires forall o :: o in s.tree && s.tree[o] in s'.items ==>
               s.tree[o] in s.items && s'.items[s.tree[o]] == s.items[s.tree[o]]
    requires forall o ::
               && o in s.tree && LevelTrue(s, o) && s.tree[o] in s'.items
               && (s.tree[o] in s.waiting || BeingDispatched(s, s.tree[o])) ==>
               s.tree[o] in s'.waiting || BeingDispatched(s', s.tree[o])
    ensures ReadinessOk(s')
  {
    forall x | x in s'.tree && LevelTrue(s', x) ensures Noticed(s', x) {
      assert LevelTrue(s, x) && Noticed(s, x);
      SameNotifying(s, s', x);
    }
  }

  lemma PopKeepsReadiness(s: State)
    requires ReadinessOk(s) && s.pc == Popping
    ensures ReadinessOk(DoPop(s))
  {
    ControlKeepsReadiness(s, DoPop(s));
  }

  lemma DispatchKeepsReadiness(s: State, step: Step)
    requires ReadinessOk(s) && SubscriptionsOk(s) && Enabled(s, step) &&
        (step.Begin? || step.Recheck? || step.Finish? || step.End?)
    ensures ReadinessOk(Do(s, step))
  {
    match step
    case Begin => ControlKeepsReadiness(s, DoBegin(s));
    case Recheck => ControlKeepsReadiness(s, DoRecheck(s));
    case Finish => FinishKeepsReadiness(s);
    case End => EndKeepsReadiness(s);
  }

  lemma FinishKeepsReadiness(s: State)
    requires ReadinessOk(s) && TreeOk(s) && Enabled(s, Finish)
    ensures ReadinessOk(DoFinish(s))
  {
    ControlKeepsReadiness(s, DoFinish(s));
  }

  lemma EndKeepsReadiness(s: State)
    requires ReadinessOk(s) && Enabled(s, End)
    ensures ReadinessOk(DoEnd(s))
  {
    PushBackDistinctElements(s.waiting, s.pc.item);
    ControlKeepsReadiness(s, DoEnd(s));
  }

  lemma PushBackDistinctElements(q: seq<nat>, i: nat)
    ensures forall x :: x in PushBack(q, i) <==> x in q || x == i
  {}

  /** The remaining steps move no item. */
  lemma OthersKeepReadiness(s: State, step: Step)
    requires ReadinessOk(s) && Enabled(s, step) && !ChangesSubscriptions(step)
    requires !step.ChangeObject? && !step.Begin? && !step.Recheck? && !step.Finish?
    requires NothingMoved(s, Do(s, step))
    ensures ReadinessOk(Do(s, step))
  {
    ControlKeepsReadiness(s, Do(s, step));
  }

  ghost predicate NothingMoved(s: State, s': State) {
    && s'.objects == s.objects && s'.tree == s.tree && s'.items == s.items && s'.waiting == s.waiting &&
        s'.notifying == s.notifying
    && forall i :: BeingDispatched(s, i) ==> BeingDispatched(s', i)
  }

  lemma NothingMovedOutside(s: State, step: Step)
    requires Enabled(s, step) && OutsideLoop(step) && !step.ChangeObject?
    ensures NothingMoved(s, Do(s, step))
  {}

  lemma NothingMovedRound(s: State, step: Step)
    requires Enabled(s, step) &&
        (step.MarkEvent? || step.Sync? || step.Restore? || step.Choose? || step.Take? || step.TimeOut?)
    ensures NothingMoved(s, Do(s, step))
  {}

  lemma NothingMovedLoop(s: State, step: Step)
    requires Enabled(s, step) && (step.DrainTimer? || step.NextPending? || step.Fire? || step.Tick?)
    ensures NothingMoved(s, Do(s, step))
  {}

  predicate TouchesReadiness(step: Step) {
    ChangesSubscriptions(step) || step.ChangeObject? || step.Begin? || step.Recheck? || step.Finish?
  }

  lemma TouchingReadinessStep(s: State, step: Step)
    requires ReadinessOk(s) && SubscriptionsOk(s) && Enabled(s, step) && TouchesReadiness(step)
    ensures ReadinessOk(Do(s, step))
  {
    match step
    case ChangeObject(t, o, change) => ChangeKeepsReadiness(s, t, o, change);
    case LinkNotify(t) => LinkNotifyKeepsReadiness(s, t);
    case Subscribe(i, o, dir, edge) => SubscribeKeepsReadiness(s, i, o, dir, edge);
    case Unsubscribe(o) => UnsubscribeKeepsReadiness(s, o);
    case Pop => PopKeepsReadiness(s);
    case _ => DispatchKeepsReadiness(s, step);
  }

  lemma ReadinessStep(s: State, step: Step)
    requires ReadinessOk(s) && SubscriptionsOk(s) && Enabled(s, step)
    ensures ReadinessOk(Do(s, step))
  {
    if TouchesReadiness(step) {
      TouchingReadinessStep(s, step);
    } else {
      if OutsideLoop(step) {
        NothingMovedOutside(s, step);
      } else if step.DrainTimer? || step.NextPending? || step.Fire? || step.Tick? {
        NothingMovedLoop(s, step);
      } else {
        NothingMovedRound(s, step);
      }
      OthersKeepReadiness(s, step);
    }
  }

  predicate TouchesWiring(step: Step) {
    step.ChangeObject? || step.LinkNotify? || step.Subscribe? || step.Unsubscribe?
  }

  lemma WiringLeft(s: State, step: Step)
    requires Enabled(s, step) && !TouchesWiring(step)
    ensures Do(s, step).objects == s.objects && Do(s, step).links == s.links && Do(s, step).notifying == s.notifying
  {}

  lemma WiringStep(s: State, step: Step)
    requires WiringOk(s) && Enabled(s, step)
    ensures WiringOk(Do(s, step))
  {
    if !TouchesWiring(step) { WiringLeft(s, step); }
  }

  /** Every step from a state that satisfies the invariant leads to one that does. */
  lemma StepKeepsInv(s: State, step: Step)
    requires Inv(s) && Enabled(s, step)
    ensures Inv(Do(s, step))
  {
    SubscriptionsStep(s, step);
    TimersStep(s, step);
    ControlStep(s, step);
    WakeStep(s, step);
    ReadinessStep(s, step);
    WiringStep(s, step);
  }

  // ---------- the loop's thread is never stuck ----------

  /** The step that the loop's own thread takes next.  In application code this finishes a call that has yet to notify,
      or returns; the application may do more before. */
  function NextStep(s: State): Step {
    match s.pc
    case App(_) => if LOOP in s.notifying then LinkNotify(LOOP) else if s.ownNotify.Some? then NotifyOwn else Return
    case Waiting => if s.bits != {} then Take else TimeOut
    case Taken => Choose
    case Popping => Pop
    case Popped(_) => Begin
    case Returned(_) => Recheck
    case Checked(_, _) => Finish
    case Ending(_, _) => End
    case Pushed => MarkEvent
    case Syncing => Sync
    case Restoring => Restore
    case DrainTimers => DrainTimer
    case DrainPending => NextPending
    case Expiring => Tick
    case Stopped => Tick
    case Crashed => Tick
  }

  /** Until it stops, the loop's thread can always go on: the steps that follow an item never meet a freed one, and
      no request or notification it handles has lost its timer or object. */
  lemma NeverStuck(s: State)
    requires Inv(s) && s.pc != Stopped
    ensures Enabled(s, NextStep(s))
  {
    if s.pc.DrainTimers? && s.timerQueue != [] { assert s.timerQueue[0] in s.timers; }
  }
}

/** furi/core/event_loop.c: fields updated in place, a waiting list linked through its items, and the run loop, with
    the other threads' steps and the application's calls taken from a schedule wherever they may come in between.
    Every object carries its history, which is proved to be a run of EventLoopModel from start-up. */
module EventLoopObject {
  import opened Lists
  import opened TimerRequests
  import opened EventLoopModel
  import opened EventLoopInvariant
  import opened EventLoopTheorems
  import opened EventLoopDispatch
  import opened WaitingLists

  class EventLoop {
    // what surrounds the loop
    var objects: map<nat, Object>
    var links: map<nat, Link>
    var notifying: map<nat, (nat, Direction)>

    // the loop's own fields
    const waitingList: WaitingList
    var tree: map<nat, nat>
    var items: map<nat, Item>
    var currentItem: Option<nat>
    var timers: map<nat, TimerState>
    var timerQueue: seq<nat>
    var pendingQueue: seq<nat>

    // the thread's notification value, the bits taken from it, and the position in the code
    var bits: set<Flag>
    var flags: set<Flag>
    var ownNotify: Option<Flag>
    var pc: Pc

    // what is tried at the gaps between the loop's steps, and the number of gaps so far
    const schedule: nat -> seq<Step>
    var gaps: nat

    /** All states so far, and the steps between them. */
    ghost var states: seq<State>
    ghost var steps: seq<Step>

    ghost function Snapshot(): State
      reads this, waitingList
    {
      State(objects, links, tree, items, waitingList.items, currentItem, bits, flags, pc, notifying, ownNotify,
            timers, timerQueue, pendingQueue)
    }

    /** The history leads from start-up to `s`. */
    ghost predicate History(s: State)
      reads this
    {
      Recorded(states, steps) && Initial(states[0]) && states[|steps|] == s
    }

    ghost predicate Valid()
      reads this, waitingList
    {
      waitingList.Valid() && History(Snapshot())
    }

    /** The history goes on from these states and steps. */
    ghost predicate Continues(before: seq<State>, did: seq<Step>)
      reads this
    {
      before <= states && did <= steps
    }

    /** Exactly this step was added to the history. */
    ghost predicate Took(before: seq<State>, did: seq<Step>, step: Step)
      reads this
    {
      before <= states && steps == did + [step]
    }

    /** The history is a run, so everything proved of runs holds of the object; in particular its state satisfies the
        invariant. */
    lemma HistoryIsRun()
      requires Valid()
      ensures Run(states, steps) && Initial(states[0]) && states[|steps|] == Snapshot() && Inv(Snapshot())
    {
      RecordedIsRun(states, steps);
      ReachableStatesOk(states, steps, |steps|);
    }

    constructor (objects: map<nat, Object>, schedule: nat -> seq<Step>)
      ensures Valid() && fresh(waitingList) && Initial(Snapshot()) && this.objects == objects &&
          this.schedule == schedule
      ensures steps == []
    {
      this.objects := objects;
      this.schedule := schedule;
      gaps := 0;
      links := map o | o in objects :: Link(None, None);
      notifying := map[];
      waitingList := new WaitingList();
      tree, items, currentItem := map[], map[], None;
      timers, timerQueue, pendingQueue := map[], [], [];
      bits, flags, ownNotify, pc := {}, {}, None, App(Outside);
      new;
      states, steps := [Snapshot()], [];
    }

    /** One more step of the history. */
    ghost method Record(s: State, step: Step)
      requires waitingList.Valid() && History(s) && Enabled(s, step) && Snapshot() == Do(s, step)
      modifies this`states, this`steps
      ensures Valid() && states == old(states) + [Snapshot()] && steps == old(steps) + [step]
    {
      RecordedNext(states, steps, step, Snapshot());
      states := states + [Snapshot()];
      steps := steps + [step];
    }

    // ---------- any thread ----------

    /** A successful put, get, acquire, release or reset, before its notification. */
    method ChangeObject(thread: nat, o: nat, change: Change)
      requires Valid() && Enabled(Snapshot(), Step.ChangeObject(thread, o, change))
      modifies this`objects, this`notifying, this`states, this`steps
      ensures Valid() && Took(old(states), old(steps), Step.ChangeObject(thread, o, change))
    {
      ghost var s := Snapshot();
      var object' := objects[o];
      match change {
        case Put => object' := object'.(count := object'.count + 1);
        case Get => object' := object'.(count := object'.count - 1);
        case Reset => object' := object'.(count := 0);
      }
      objects := objects[o := object'];
      notifying := notifying[thread := (o, if change.Put? then In else Out)];
      Record(s, Step.ChangeObject(thread, o, change));
    }

    /** The push in furi_event_loop_item_notify, unless the item's pointers say that it is waiting. */
    method PushItem(item: nat)
      requires waitingList.Valid()
      modifies waitingList
      ensures waitingList.Valid() && waitingList.items == PushBack(old(waitingList.items), item)
    {
      waitingList.WaitingIffListed(item);
      if !waitingList.IsWaiting(item) {
        waitingList.PushBack(item);
      }
    }

    /** furi_event_loop_item_notify inside an outer critical section: push and bit together. */
    method NotifyItem(item: nat)
      requires waitingList.Valid()
      modifies waitingList, this`bits
      ensures waitingList.Valid() && waitingList.items == PushBack(old(waitingList.items), item)
      ensures bits == old(bits) + {Event}
    {
      PushItem(item);
      bits := bits + {Event};
    }

    /** furi_event_loop_link_notify */
    method NotifyLink(thread: nat)
      requires Valid() && thread in notifying
      modifies waitingList, this`bits, this`notifying, this`states, this`steps
      ensures Valid() && Took(old(states), old(steps), LinkNotify(thread)) && notifying == old(notifying) - {thread}
    {
      ghost var s := Snapshot();
      HistoryIsRun();
      NotifySlot(thread);
      Record(s, LinkNotify(thread));
    }

    method NotifySlot(thread: nat)
      requires waitingList.Valid() && thread in notifying && notifying[thread].0 in links
      modifies waitingList, this`bits, this`notifying
      ensures waitingList.Valid() && Snapshot() == DoLinkNotify(old(Snapshot()), thread)
    {
      var (o, event) := notifying[thread];
      notifying := notifying - {thread};
      if event == In {
        if links[o].itemIn.Some? {
          NotifyItem(links[o].itemIn.value);
        }
      } else {
        if links[o].itemOut.Some? {
          NotifyItem(links[o].itemOut.value);
        }
      }
    }

    /** furi_event_loop_stop, or the notification that a thread flag was set. */
    method RaiseFlag(flag: Flag)
      requires Valid() && (flag == Stop || flag == ThreadFlag)
      modifies this`bits, this`states, this`steps
      ensures Valid() && Took(old(states), old(steps), Raise(flag))
    {
      ghost var s := Snapshot();
      bits := bits + {flag};
      Record(s, Raise(flag));
    }

    // ---------- application code on the loop's thread ----------

    /** furi_event_loop_object_subscribe */
    method SubscribeItem(item: nat, o: nat, event: Direction, edge: bool)
      requires Valid() && Enabled(Snapshot(), Subscribe(item, o, event, edge))
      modifies waitingList, this`items, this`tree, this`links, this`bits, this`states, this`steps
      ensures Valid() && Took(old(states), old(steps), Subscribe(item, o, event, edge))
    {
      ghost var s := Snapshot();
      AddItem(item, o, event, edge);
      Record(s, Subscribe(item, o, event, edge));
    }

    method AddItem(item: nat, o: nat, event: Direction, edge: bool)
      requires waitingList.Valid() && o in objects && o in links
      modifies waitingList, this`items, this`tree, this`links, this`bits
      ensures waitingList.Valid() && Snapshot() == DoSubscribe(old(Snapshot()), item, o, event, edge)
    {
      items := items[item := Item(o, event, edge, true)];
      tree := tree[o := item];
      SetSlot(o, event, Some(item));
      if !edge {
        if objects[o].Level(event) {
          NotifyItem(item);
        }
      }
    }

    /** Assigns the slot of a link that belongs to a direction. */
    method SetSlot(o: nat, event: Direction, item: Option<nat>)
      requires o in links
      modifies this`links
      ensures links == old(links)[o := old(links)[o].Set(event, item)]
    {
      if event == In {
        links := links[o := links[o].(itemIn := item)];
      } else {
        links := links[o := links[o].(itemOut := item)];
      }
    }

    /** furi_event_loop_unsubscribe */
    method UnsubscribeObject(o: nat)
      requires Valid() && Enabled(Snapshot(), Unsubscribe(o))
      modifies waitingList, this`items, this`tree, this`links, this`states, this`steps
      ensures Valid() && Took(old(states), old(steps), Unsubscribe(o))
    {
      ghost var s := Snapshot();
      RemoveItem(o);
      Record(s, Unsubscribe(o));
    }

    method RemoveItem(o: nat)
      requires waitingList.Valid() && o in tree && tree[o] in items && o in links
      modifies waitingList, this`items, this`tree, this`links
      ensures waitingList.Valid() && Snapshot() == DoUnsubscribe(old(Snapshot()), o)
    {
      var item := tree[o];
      tree := tree - {o};
      SetSlot(o, items[item].dir, None);
      UnlinkItem(item);
      if currentItem == Some(item) {
        items := items[item := items[item].(owned := false)];
      } else {
        items := items - {item};
      }
    }

    method UnlinkItem(item: nat)
      requires waitingList.Valid()
      modifies waitingList
      ensures waitingList.Valid() && waitingList.items == Without(old(waitingList.items), item)
    {
      waitingList.WaitingIffListed(item);
      if waitingList.IsWaiting(item) {
        waitingList.Unlink(item);
      } else {
        AbsentWithout(waitingList.items, item);
      }
    }

    /** furi_event_loop_pend_callback, up to its notification. */
    method PendCallback(callback: nat)
      requires Valid() && InApp(Snapshot())
      modifies this`pendingQueue, this`ownNotify, this`states, this`steps
      ensures Valid() && Took(old(states), old(steps), Pend(callback))
    {
      ghost var s := Snapshot();
      pendingQueue := [callback] + pendingQueue;
      ownNotify := Some(Pending);
      Record(s, Pend(callback));
    }

    /** furi_event_loop_timer_alloc */
    method AllocTimer(timer: nat, periodic: bool)
      requires Valid() && InApp(Snapshot()) && timer !in timers
      modifies this`timers, this`states, this`steps
      ensures Valid() && Took(old(states), old(steps), NewTimer(timer, periodic))
    {
      ghost var s := Snapshot();
      timers := timers[timer := TimerState(NoRequest, false, periodic)];
      Record(s, NewTimer(timer, periodic));
    }

    /** furi_event_loop_timer_enqueue_request, up to its notification. */
    method EnqueueRequest(timer: nat, request: Request)
      requires Valid() && Enabled(Snapshot(), AskTimer(timer, request))
      modifies this`timers, this`timerQueue, this`ownNotify, this`states, this`steps
      ensures Valid() && Took(old(states), old(steps), AskTimer(timer, request))
    {
      ghost var s := Snapshot();
      FileRequest(timer, request);
      Record(s, AskTimer(timer, request));
    }

    method FileRequest(timer: nat, request: Request)
      requires timer in timers
      modifies this`timers, this`timerQueue, this`ownNotify
      ensures Snapshot() == DoAskTimer(old(Snapshot()), timer, request)
    {
      timers := timers[timer := timers[timer].(request := request)];
      timerQueue := Without(timerQueue, timer);
      timerQueue := timerQueue + [timer];
      ownNotify := Some(Timer);
    }

    /** The furi_event_loop_notify at the end of the calls above. */
    method FinishNotify()
      requires Valid() && ownNotify.Some?
      modifies this`bits, this`ownNotify, this`states, this`steps
      ensures Valid() && Took(old(states), old(steps), NotifyOwn) && ownNotify == None
    {
      ghost var s := Snapshot();
      bits := bits + {ownNotify.value};
      ownNotify := None;
      Record(s, NotifyOwn);
    }

    // ---------- between the loop's steps ----------

    /** The state without the waiting list, which decides whether a step can be taken. */
    function View(): State
      reads this
    {
      State(objects, links, tree, items, [], currentItem, bits, flags, pc, notifying, ownNotify, timers, timerQueue,
        pendingQueue)
    }

    lemma ViewDecides(step: Step)
      ensures Enabled(View(), step) <==> Enabled(Snapshot(), step)
    {}

    /** Whether a step is another thread's, or, inside a callback, a call of the application. */
    predicate MayInterfere(step: Step)
      reads this
    {
      match step
      case ChangeObject(thread, _, _) => thread != LOOP || pc.App?
      case LinkNotify(thread) => thread != LOOP || pc.App?
      case Raise(_) => true
      case Subscribe(_, _, _, _) => true
      case Unsubscribe(_) => true
      case Pend(_) => true
      case NewTimer(_, _) => true
      case AskTimer(_, _) => true
      case NotifyOwn => true
      case _ => false
    }

    method IsPossible(step: Step) returns (possible: bool)
      ensures possible ==> Enabled(Snapshot(), step)
      ensures possible && !pc.App? ==> step.ChangeObject? || step.LinkNotify? || step.Raise? || step.NotifyOwn?
    {
      ViewDecides(step);
      possible := MayInterfere(step) && Enabled(View(), step);
    }

    /** One attempt at interference; what cannot happen now does not. */
    method TryStep(step: Step)
      requires Valid()
      modifies this, waitingList
      ensures Valid() && Untouched(old(pc), old(flags), old(currentItem), old(items), old(timerQueue)) &&
          Continues(old(states), old(steps))
      ensures gaps == old(gaps)
    {
      if step.ChangeObject? || step.LinkNotify? || step.Raise? {
        TryForAnyThread(step);
      } else if step.Subscribe? || step.Unsubscribe? {
        TrySubscriptionCall(step);
      } else if step.Pend? || step.NewTimer? || step.AskTimer? || step.NotifyOwn? {
        TryOtherCall(step);
      }
    }

    /** Where the loop is, and, outside application code, what it holds. */
    ghost predicate Untouched(where: Pc, held: set<Flag>, current: Option<nat>, had: map<nat, Item>, queue: seq<nat>)
      reads this
    {
      pc == where && (pc.App? || (flags == held && currentItem == current && items == had && timerQueue == queue))
    }

    method TryForAnyThread(step: Step)
      requires Valid() && (step.ChangeObject? || step.LinkNotify? || step.Raise?)
      modifies waitingList, this`objects, this`notifying, this`bits, this`states, this`steps
      ensures Valid() && Continues(old(states), old(steps))
    {
      var possible := IsPossible(step);
      if possible {
        match step {
          case ChangeObject(thread, o, change) => ChangeObject(thread, o, change);
          case LinkNotify(thread) => NotifyLink(thread);
          case Raise(flag) => RaiseFlag(flag);
        }
      }
    }

    method TrySubscriptionCall(step: Step)
      requires Valid() && (step.Subscribe? || step.Unsubscribe?)
      modifies waitingList, this`items, this`tree, this`links, this`bits, this`states, this`steps
      ensures Valid() && Continues(old(states), old(steps)) && (pc.App? || items == old(items))
    {
      var possible := IsPossible(step);
      if possible {
        match step {
          case Subscribe(item, o, event, edge) => SubscribeItem(item, o, event, edge);
          case Unsubscribe(o) => UnsubscribeObject(o);
        }
      }
    }

    method TryOtherCall(step: Step)
      requires Valid() && (step.Pend? || step.NewTimer? || step.AskTimer? || step.NotifyOwn?)
      modifies this`timers, this`timerQueue, this`pendingQueue, this`ownNotify, this`bits, this`states, this`steps
      ensures Valid() && Continues(old(states), old(steps)) && (pc.App? || timerQueue == old(timerQueue))
    {
      var possible := IsPossible(step);
      if possible {
        match step {
          case Pend(callback) => PendCallback(callback);
          case NewTimer(timer, periodic) => AllocTimer(timer, periodic);
          case AskTimer(timer, request) => EnqueueRequest(timer, request);
          case NotifyOwn => FinishNotify();
        }
      }
    }

    /** The other threads, and in a callback the application, do what the schedule has for this gap. */
    method Gap()
      requires Valid()
      modifies this, waitingList
      ensures Valid() && Untouched(old(pc), old(flags), old(currentItem), old(items), old(timerQueue)) &&
          Continues(old(states), old(steps))
    {
      var attempts := schedule(gaps);
      gaps := gaps + 1;
      for i := 0 to |attempts|
        invariant Valid() && Untouched(old(pc), old(flags), old(currentItem), old(items), old(timerQueue)) &&
            Continues(old(states), old(steps))
      {
        TryStep(attempts[i]);
      }
    }

    /** The application finishes a call that has yet to notify, and returns. */
    method ReturnFrom()
      requires Valid() && pc.App?
      modifies this, waitingList
      ensures Valid() && pc == AfterReturn(old(pc).back) && Continues(old(states), old(steps))
    {
      Gap();
      FinishCalls();
      ReturnToLoop();
    }

    method FinishCalls()
      requires Valid() && pc.App?
      modifies waitingList, this`bits, this`notifying, this`ownNotify, this`states, this`steps
      ensures Valid() && LOOP !in notifying && ownNotify == None && Continues(old(states), old(steps))
    {
      if LOOP in notifying { NotifyLink(LOOP); }
      if ownNotify.Some? { FinishNotify(); }
    }

    method ReturnToLoop()
      requires Valid() && pc.App? && LOOP !in notifying && ownNotify == None
      modifies this`pendingQueue, this`pc, this`states, this`steps
      ensures Valid() && pc == AfterReturn(old(pc).back) && Took(old(states), old(steps), Return)
    {
      ghost var s := Snapshot();
      GoBack();
      Record(s, Return);
    }

    method GoBack()
      requires pc.App?
      modifies this`pendingQueue, this`pc
      ensures Snapshot() == DoReturn(old(Snapshot()))
    {
      match pc.back {
        case Outside => pc := Waiting;
        case ToItem(i) => pc := Returned(i);
        case ToPending(_) =>
          if pendingQueue != [] { pendingQueue := pendingQueue[..|pendingQueue| - 1]; }
          pc := DrainPending;
        case ToLoop => pc := Waiting;
      }
    }

    // ---------- the steps of the run loop ----------

    /** The loop's thread can take its next step. */
    lemma CanGoOn()
      requires Valid() && pc != Stopped
      ensures Inv(Snapshot()) && Enabled(Snapshot(), NextStep(Snapshot()))
    {
      HistoryIsRun();
      NeverStuck(Snapshot());
    }

    /** xTaskNotifyWaitIndexed returning with bits: all are cleared and kept in a local. */
    method TakeFlags()
      requires Valid() && pc == Waiting && bits != {}
      modifies this`flags, this`bits, this`pc, this`states, this`steps
      ensures Valid() && Took(old(states), old(steps), Take) && pc == Taken
    {
      ghost var s := Snapshot();
      flags := bits;
      bits := {};
      pc := Taken;
      Record(s, Take);
    }

    /** The if chain of furi_event_loop_run; it never gets to the crash at its end. */
    method ChooseBranch()
      requires Valid() && pc == Taken
      modifies this`flags, this`pc, this`states, this`steps
      ensures Valid() && Took(old(states), old(steps), Choose)
      ensures pc == Stopped || pc == Popping || pc == DrainTimers || pc == DrainPending || pc == App(ToLoop)
    {
      ghost var s := Snapshot();
      CanGoOn();
      ActOnFlags();
      Record(s, Choose);
      HistoryIsRun();
    }

    method ActOnFlags()
      modifies this`flags, this`pc
      ensures Snapshot() == DoChoose(old(Snapshot()))
    {
      if Stop in flags {
        pc := Stopped;
        flags := {};
      } else if Event in flags {
        pc := Popping;
        flags := flags - {Event};
      } else if Timer in flags {
        pc := DrainTimers;
        flags := flags - {Timer};
      } else if Pending in flags {
        pc := DrainPending;
        flags := {};
      } else if ThreadFlag in flags {
        pc := App(ToLoop);
        flags := {};
      } else {
        pc := Crashed;
        flags := {};
      }
    }

    /** furi_event_loop_get_waiting_item */
    method GetWaitingItem() returns (item: Option<nat>)
      requires Valid() && pc == Popping
      modifies waitingList, this`pc, this`states, this`steps
      ensures Valid() && Took(old(states), old(steps), Step.Pop)
      ensures item == if old(waitingList.items) == [] then None else Some(old(waitingList.items)[0])
      ensures pc == if item == None then Restoring else Popped(item.value)
    {
      ghost var s := Snapshot();
      item := TakeFirst();
      Record(s, Step.Pop);
    }

    method TakeFirst() returns (item: Option<nat>)
      requires waitingList.Valid()
      modifies waitingList, this`pc
      ensures waitingList.Valid() && Snapshot() == DoPop(old(Snapshot()))
      ensures item == if old(waitingList.items) == [] then None else Some(old(waitingList.items)[0])
    {
      waitingList.EmptyIffNoItems();
      if !waitingList.Empty() {
        var first := waitingList.PopFront();
        item := Some(first);
        pc := Popped(first);
      } else {
        item := None;
        pc := Restoring;
      }
    }

    /** furi_event_loop_process_event up to the callback, if there is one.  The item is never a freed one. */
    method BeginEvent()
      requires Valid() && pc.Popped?
      modifies this`currentItem, this`pc, this`states, this`steps
      ensures Valid() && Took(old(states), old(steps), Begin)
      ensures pc == App(ToItem(old(pc).item)) || pc == Checked(old(pc).item, false)
    {
      ghost var s := Snapshot();
      CanGoOn();
      StartItem(pc.item);
      Record(s, Begin);
    }

    method StartItem(item: nat)
      requires pc == Popped(item) && item in items && items[item].source in objects
      modifies this`currentItem, this`pc
      ensures Snapshot() == DoBegin(old(Snapshot()))
      ensures pc == App(ToItem(item)) || pc == Checked(item, false)
    {
      currentItem := Some(item);
      if items[item].edge {
        pc := App(ToItem(item));
      } else if objects[items[item].source].Level(items[item].dir) {
        pc := App(ToItem(item));
      } else {
        pc := Checked(item, false);
      }
    }

    /** The level check after the callback. */
    method RecheckLevel()
      requires Valid() && pc.Returned?
      modifies this`pc, this`states, this`steps
      ensures Valid() && Took(old(states), old(steps), Recheck) && pc.Checked? && pc.item == old(pc).item
    {
      ghost var s := Snapshot();
      CanGoOn();
      CheckAgain(pc.item);
      Record(s, Recheck);
    }

    method CheckAgain(item: nat)
      requires pc == Returned(item) && item in items && items[item].source in objects
      modifies this`pc
      ensures Snapshot() == DoRecheck(old(Snapshot())) && pc.Checked? && pc.item == item
    {
      if items[item].edge {
        pc := Checked(item, false);
      } else {
        pc := Checked(item, objects[items[item].source].Level(items[item].dir));
      }
    }

    /** The end of furi_event_loop_process_event. */
    method FinishEvent() returns (status: Status)
      requires Valid() && pc.Checked?
      modifies this`currentItem, this`pc, this`states, this`steps
      ensures Valid() && Took(old(states), old(steps), Finish) && pc == Ending(old(pc).item, status)
    {
      ghost var s := Snapshot();
      CanGoOn();
      status := LetGo();
      Record(s, Finish);
    }

    method LetGo() returns (status: Status)
      requires pc.Checked? && pc.item in items
      modifies this`currentItem, this`pc
      ensures Snapshot() == DoFinish(old(Snapshot())) && pc == Ending(old(pc).item, status)
    {
      var item := pc.item;
      status := if pc.again then Incomplete else Complete;
      currentItem := None;
      if !items[item].owned {
        status := FreeLater;
      }
      pc := Ending(item, status);
    }

    /** The status branches of furi_event_loop_process_waiting_list; a freed item is not in the waiting list. */
    method ActOnStatus(item: nat, status: Status)
      requires Valid() && pc == Ending(item, status)
      modifies waitingList, this`items, this`pc, this`states, this`steps
      ensures Valid() && Took(old(states), old(steps), Step.End)
      ensures pc == if status == Incomplete then Pushed else Syncing
      ensures status == FreeLater ==> item !in items && item !in waitingList.items
    {
      ghost var s := Snapshot();
      CanGoOn();
      EndItem(item, status);
      Record(s, Step.End);
      HistoryIsRun();
      if status == FreeLater { UnallocatedIsUnreachable(Snapshot(), item); }
    }

    method EndItem(item: nat, status: Status)
      requires waitingList.Valid() && pc == Ending(item, status)
      modifies waitingList, this`items, this`pc
      ensures waitingList.Valid() && Snapshot() == DoEnd(old(Snapshot()))
      ensures pc == if status == Incomplete then Pushed else Syncing
      ensures status == FreeLater ==> item !in items
    {
      if status == Complete {
        pc := Syncing;
      } else if status == Incomplete {
        PushItem(item);
        pc := Pushed;
      } else {
        items := items - {item};
        pc := Syncing;
      }
    }

    /** The notification after an item was put back. */
    method NotifyPushed()
      requires Valid() && pc == Pushed
      modifies this`bits, this`pc, this`states, this`steps
      ensures Valid() && Took(old(states), old(steps), MarkEvent) && pc == Syncing
    {
      ghost var s := Snapshot();
      bits := bits + {Event};
      pc := Syncing;
      Record(s, MarkEvent);
    }

    /** furi_event_loop_sync_flags */
    method SyncFlags()
      requires Valid() && pc == Syncing
      modifies this`bits, this`pc, this`states, this`steps
      ensures Valid() && Took(old(states), old(steps), Sync) && pc == Restoring
    {
      ghost var s := Snapshot();
      MarkWhileWaiting();
      pc := Restoring;
      Record(s, Sync);
    }

    method MarkWhileWaiting()
      requires waitingList.Valid()
      modifies this`bits
      ensures bits == if waitingList.items == [] then old(bits) else old(bits) + {Event}
    {
      waitingList.EmptyIffNoItems();
      if !waitingList.Empty() {
        bits := bits + {Event};
      }
    }

    /** furi_event_loop_restore_flags */
    method RestoreFlags()
      requires Valid() && pc == Restoring
      modifies this`bits, this`flags, this`pc, this`states, this`steps
      ensures Valid() && Took(old(states), old(steps), Restore) && pc == Waiting
    {
      ghost var s := Snapshot();
      if flags != {} {
        bits := bits + flags;
        flags := {};
      }
      pc := Waiting;
      Record(s, Restore);
    }

    /** One round of furi_event_loop_process_timer_queue; every queued timer exists and has a request. */
    method ProcessTimerRequest()
      requires Valid() && pc == DrainTimers
      modifies this`timers, this`timerQueue, this`pc, this`states, this`steps
      ensures Valid() && Took(old(states), old(steps), DrainTimer)
      ensures pc == if old(timerQueue) == [] then Restoring else DrainTimers
      ensures |timerQueue| == if old(timerQueue) == [] then 0 else |old(timerQueue)| - 1
    {
      ghost var s := Snapshot();
      CanGoOn();
      TakeRequest();
      Record(s, DrainTimer);
      HistoryIsRun();
    }

    method TakeRequest()
      requires pc == DrainTimers && (timerQueue == [] || timerQueue[0] in timers)
      modifies this`timers, this`timerQueue, this`pc
      ensures Snapshot() == DoDrainTimer(old(Snapshot()))
    {
      if timerQueue == [] {
        pc := Restoring;
      } else {
        var timer := timerQueue[0];
        timerQueue := timerQueue[1..];
        DoRequest(timer, timers[timer].request);
      }
    }

    method DoRequest(timer: nat, request: Request)
      requires timer in timers && timers[timer].request == request
      modifies this`timers, this`pc
      ensures timers == Process(old(timers), timer) && pc == if request == NoRequest then Crashed else old(pc)
    {
      if request == Start {
        timers := timers[timer := timers[timer].(request := NoRequest, active := true)];
      } else if request == Halt {
        timers := timers[timer := timers[timer].(request := NoRequest, active := false)];
      } else if request == Request.Free {
        timers := timers - {timer};
      } else {
        pc := Crashed;
      }
    }

    /** The head of the loop in furi_event_loop_process_pending_callbacks. */
    method NextPendingCallback()
      requires Valid() && pc == DrainPending
      modifies this`pc, this`states, this`steps
      ensures Valid() && Took(old(states), old(steps), NextPending)
      ensures pc == if pendingQueue == [] then Waiting else App(ToPending(pendingQueue[|pendingQueue| - 1]))
    {
      ghost var s := Snapshot();
      if pendingQueue == [] {
        pc := Waiting;
      } else {
        pc := App(ToPending(pendingQueue[|pendingQueue| - 1]));
      }
      Record(s, NextPending);
    }

    /** xTaskNotifyWaitIndexed returning without bits. */
    method TimeOutWait()
      requires Valid() && pc == Waiting && bits == {}
      modifies this`pc, this`states, this`steps
      ensures Valid() && Took(old(states), old(steps), TimeOut) && pc == Expiring
      ensures waitingList.items == [] && timerQueue == [] && pendingQueue == []
    {
      ghost var s := Snapshot();
      HistoryIsRun();
      SleepsOnlyWhenIdle(states, steps, |steps|);
      pc := Expiring;
      Record(s, TimeOut);
    }

    /** The part of furi_event_loop_process_expired_timers that decides whether the timer stays active. */
    method FireTimer(timer: nat)
      requires Valid() && pc == Expiring && timer in timers && timers[timer].active
      modifies this`timers, this`pc, this`states, this`steps
      ensures Valid() && Took(old(states), old(steps), Fire(timer)) && pc == App(ToLoop)
    {
      ghost var s := Snapshot();
      if !timers[timer].periodic {
        timers := timers[timer := timers[timer].(active := false)];
      }
      pc := App(ToLoop);
      Record(s, Fire(timer));
    }

    /** furi_event_loop_process_tick */
    method ProcessTick()
      requires Valid() && pc == Expiring
      modifies this`pc, this`states, this`steps
      ensures Valid() && Took(old(states), old(steps), Tick) && pc == App(ToLoop)
    {
      ghost var s := Snapshot();
      pc := App(ToLoop);
      Record(s, Tick);
    }

    // ---------- the functions of the source ----------

    /** furi_event_loop_process_event, callback included: it runs exactly if the item is edge-triggered or its level is
        true when the loop looks at it. */
    method ProcessEvent(item: nat) returns (status: Status)
      requires Valid() && pc == Popped(item)
      modifies this, waitingList
      ensures Valid() && pc == Ending(item, status) && Continues(old(states), old(steps))
      ensures DecidedSince(states, item, |old(steps)|)
    {
      CallBack(item);
      ghost var before := states;
      Gap();
      status := FinishEvent();
      DecidedRemains(before, states, item, |old(steps)|, |old(steps)|);
    }

    /** The callback, unless a level-triggered item's level has gone, and the level check after it. */
    method CallBack(item: nat)
      requires Valid() && pc == Popped(item)
      modifies this, waitingList
      ensures Valid() && pc.Checked? && pc.item == item && Continues(old(states), old(steps))
      ensures DecidedSince(states, item, |old(steps)|)
    {
      Gap();
      DecideEvent(item);
      ghost var before := states;
      if pc.App? {
        CompleteCallback();
        DecidedRemains(before, states, item, |old(steps)|, |old(steps)|);
      }
    }

    method DecideEvent(item: nat)
      requires Valid() && pc == Popped(item)
      modifies this`currentItem, this`pc, this`states, this`steps
      ensures Valid() && Continues(old(states), old(steps))
      ensures pc == App(ToItem(item)) || pc == Checked(item, false)
      ensures forall from: nat :: from <= |old(steps)| ==> DecidedSince(states, item, from)
    {
      BeginEvent();
      DecidedNow(item, |old(steps)|);
    }

    lemma DecidedNow(item: nat, n: nat)
      requires Valid() && |steps| == n + 1 && steps[n] == Begin && states[n].pc == Popped(item)
      ensures forall from: nat :: from <= n ==> DecidedSince(states, item, from)
    {
      HistoryIsRun();
      BeginDecidesRightly(states, steps, item, n);
    }

    method CompleteCallback()
      requires Valid() && pc.App? && pc.back.ToItem?
      modifies this, waitingList
      ensures Valid() && pc.Checked? && pc.item == old(pc).back.item && Continues(old(states), old(steps))
    {
      ReturnFrom();
      Gap();
      RecheckLevel();
    }

    /** furi_event_loop_process_waiting_list: the first waiting item is dispatched.  When it is done, every item that
        is still allocated is subscribed, and the Event bit is set while items wait. */
    method ProcessWaitingList() returns (item: Option<nat>)
      requires Valid() && pc == Popping
      modifies this, waitingList
      ensures Valid() && pc == Restoring && Continues(old(states), old(steps) + [Step.Pop])
      ensures item == if old(waitingList.items) == [] then None else Some(old(waitingList.items)[0])
      ensures item.Some? ==> DecidedSince(states, item.value, |old(steps)|)
      ensures forall i :: i in items ==> Registered(Snapshot(), i)
      ensures waitingList.items != [] ==> Event in bits
    {
      item := GetWaitingItem();
      if item.Some? {
        ghost var n := |steps|;
        DispatchItem(item.value);
        DecidedRemains(states, states, item.value, n, |old(steps)|);
      }
      NothingInHand();
    }

    /** The rest of furi_event_loop_process_waiting_list for one item. */
    method DispatchItem(item: nat)
      requires Valid() && pc == Popped(item)
      modifies this, waitingList
      ensures Valid() && pc == Restoring && Continues(old(states), old(steps))
      ensures DecidedSince(states, item, |old(steps)|)
    {
      var status := ProcessEvent(item);
      ghost var before := states;
      SettleItem(item, status);
      SettleFlags();
      DecidedRemains(before, states, item, |old(steps)|, |old(steps)|);
    }

    method SettleFlags()
      requires Valid() && pc == Syncing
      modifies this, waitingList
      ensures Valid() && pc == Restoring && Continues(old(states), old(steps))
    {
      Gap();
      SyncFlags();
    }

    method SettleItem(item: nat, status: Status)
      requires Valid() && pc == Ending(item, status)
      modifies this, waitingList
      ensures Valid() && pc == Syncing && Continues(old(states), old(steps))
    {
      Gap();
      ActOnStatus(item, status);
      if pc == Pushed { CompletePush(); }
    }

    method CompletePush()
      requires Valid() && pc == Pushed
      modifies this, waitingList
      ensures Valid() && pc == Syncing && Continues(old(states), old(steps))
    {
      Gap();
      NotifyPushed();
    }

    /** Between dispatches no item is in hand, so none is waiting to be freed, and no wake-up is owed. */
    lemma NothingInHand()
      requires Valid() && pc == Restoring
      ensures forall i :: i in items ==> Registered(Snapshot(), i)
      ensures waitingList.items != [] ==> Event in bits
    {
      HistoryIsRun();
    }

    /** furi_event_loop_process_timer_queue */
    method ProcessTimerQueue()
      requires Valid() && pc == DrainTimers
      modifies this, waitingList
      ensures Valid() && pc == Restoring && timerQueue == [] && Continues(old(states), old(steps))
    {
      while pc == DrainTimers
        invariant Valid() && Continues(old(states), old(steps))
        invariant pc == DrainTimers || (pc == Restoring && timerQueue == [])
        decreases pc == DrainTimers, |timerQueue|
      {
        ProcessTimerRequest();
        if pc == DrainTimers { Gap(); }
      }
    }

    /** furi_event_loop_process_pending_callbacks, at most `rounds` of them: a callback may add another one, and so
        on. */
    method ProcessPendingCallbacks(rounds: nat)
      requires Valid() && pc == DrainPending
      modifies this, waitingList
      ensures Valid() && (pc == Waiting || pc == DrainPending) && Continues(old(states), old(steps))
    {
      for i := 0 to rounds
        invariant Valid() && pc == DrainPending && Continues(old(states), old(steps))
      {
        Gap();
        NextPendingCallback();
        if pc == Waiting { return; }
        ReturnFrom();
      }
    }

    /** One round of furi_event_loop_run. `due` is the timer that has expired, if the wait times out. */
    method RunOnce(due: Option<nat>, rounds: nat)
      requires Valid() && pc == Waiting
      modifies this, waitingList
      ensures Valid() && (pc == Waiting || pc == Stopped || pc == DrainPending) && Continues(old(states), old(steps))
    {
      Gap();
      if bits != {} {
        HandleFlags(rounds);
      } else {
        TimeOutWait();
        HandleTimeOut(due);
      }
    }

    method HandleFlags(rounds: nat)
      requires Valid() && pc == Waiting && bits != {}
      modifies this, waitingList
      ensures Valid() && (pc == Waiting || pc == Stopped || pc == DrainPending) && Continues(old(states), old(steps))
    {
      AcceptFlags();
      ChooseBranch();
      FollowBranch(rounds);
    }

    method AcceptFlags()
      requires Valid() && pc == Waiting && bits != {}
      modifies this, waitingList
      ensures Valid() && pc == Taken && Continues(old(states), old(steps))
    {
      TakeFlags();
      Gap();
    }

    method FollowBranch(rounds: nat)
      requires Valid()
      requires pc == Stopped || pc == Popping || pc == DrainTimers || pc == DrainPending || pc == App(ToLoop)
      modifies this, waitingList
      ensures Valid() && (pc == Waiting || pc == Stopped || pc == DrainPending) && Continues(old(states), old(steps))
    {
      if pc == Popping {
        var _ := ProcessWaitingList();
        PutFlagsBack();
      } else if pc == DrainTimers {
        ProcessTimerQueue();
        PutFlagsBack();
      } else if pc == DrainPending {
        ProcessPendingCallbacks(rounds);
      } else if pc == App(ToLoop) {
        ReturnFrom();
      }
    }

    method PutFlagsBack()
      requires Valid() && pc == Restoring
      modifies this, waitingList
      ensures Valid() && pc == Waiting && Continues(old(states), old(steps))
    {
      Gap();
      RestoreFlags();
    }

    method HandleTimeOut(due: Option<nat>)
      requires Valid() && pc == Expiring
      modifies this, waitingList
      ensures Valid() && pc == Waiting && Continues(old(states), old(steps))
    {
      Gap();
      ExpireOrTick(due);
      ReturnFrom();
    }

    method ExpireOrTick(due: Option<nat>)
      requires Valid() && pc == Expiring
      modifies this`timers, this`pc, this`states, this`steps
      ensures Valid() && pc == App(ToLoop) && Continues(old(states), old(steps))
    {
      if due.Some? && due.value in timers && timers[due.value].active {
        FireTimer(due.value);
      } else {
        ProcessTick();
      }
    }

    /** furi_event_loop_run: the application sets up, then round after round, as long as the lists of expired timers
        and of rounds of pending callbacks last. */
    method RunLoop(due: seq<Option<nat>>, rounds: nat)
      requires Valid() && pc == App(Outside)
      modifies this, waitingList
      ensures Valid() && (pc == Waiting || pc == Stopped || pc == DrainPending) && Continues(old(states), old(steps))
    {
      ReturnFrom();
      var i: nat := 0;
      while i < |due| && pc == Waiting
        invariant i <= |due| && Valid() && Continues(old(states), old(steps))
        invariant pc == Waiting || pc == Stopped || pc == DrainPending
      {
        RunOnce(due[i], rounds);
        i := i + 1;
      }
    }

    /** What the loop promises, at every point of every execution. */
    lemma Promises()
      requires Valid()
      ensures pc != Crashed
      ensures forall o :: o in tree && LevelTrue(Snapshot(), o) && Settled(Snapshot(), o) ==>
        tree[o] in waitingList.items || BeingDispatched(Snapshot(), tree[o])
      ensures pc == Waiting && bits == {} ==> waitingList.items == [] && timerQueue == [] && pendingQueue == []
      ensures forall i :: waitingList.IsWaiting(i) ==> i in items && Registered(Snapshot(), i)
    {
      HistoryIsRun();
      NoMissedReadiness(states, steps, |steps|);
      if pc == Waiting && bits == {} { SleepsOnlyWhenIdle(states, steps, |steps|); }
      forall i | waitingList.IsWaiting(i) ensures i in items && Registered(Snapshot(), i) {
        waitingList.WaitingIffListed(i);
        assert i in Snapshot().waiting;
      }
    }
  }
}

/** The event loop of furi/core/event_loop.c as a state machine over its atomic steps.

    One thread runs the loop and the application callbacks; any other thread may change an
    object (message queue or semaphore) and then notify the loop through the object's link.
    Items, objects, timers and threads are named by numbers, standing for their addresses. */
module EventLoopModel {
  import opened Lists
  import opened TimerRequests

  datatype Direction = In | Out

  datatype Flag = Event | Stop | Timer | Pending | ThreadFlag

  /** A message queue or a semaphore, as the loop sees it. */
  datatype Object = Object(count: nat, capacity: nat, resettable: bool) {
    /** furi_message_queue_event_loop_get_level and furi_semaphore_event_loop_get_level */
    predicate Level(dir: Direction) {
      if dir == In then count > 0 else count < capacity
    }
  }

  datatype Change = Put | Get | Reset {
    /** Whether the operation succeeds; a failed one changes and notifies nothing. */
    predicate Succeeds(o: Object) {
      match this
      case Put => o.count < o.capacity
      case Get => o.count > 0
      case Reset => o.resettable
    }

    function Apply(o: Object): Object
      requires Succeeds(o)
    {
      match this
      case Put => o.(count := o.count + 1)
      case Get => o.(count := o.count - 1)
      case Reset => o.(count := 0)
    }

    /** The event that is notified after the change. */
    function Notifies(): Direction { if Put? then In else Out }
  }

  datatype Link = Link(itemIn: Option<nat>, itemOut: Option<nat>) {
    function Slot(dir: Direction): Option<nat> { if dir == In then itemIn else itemOut }

    function Set(dir: Direction, item: Option<nat>): Link {
      if dir == In then this.(itemIn := item) else this.(itemOut := item)
    }
  }

  /** A subscription; `owned` is false once it was cancelled from its own callback. */
  datatype Item = Item(source: nat, dir: Direction, edge: bool, owned: bool)

  datatype TimerState = TimerState(request: Request, active: bool, periodic: bool)

  datatype Status = Complete | Incomplete | FreeLater

  /** Where the loop goes on when application code returns; `callback` is the pended callback that is running. */
  datatype Back = Outside | ToItem(item: nat) | ToPending(callback: nat) | ToLoop

  /** Where the loop's thread is. */
  datatype Pc =
    | App(back: Back)
    | Waiting
    | Taken
    | Popping
    | Popped(item: nat)
    | Returned(item: nat)
    | Checked(item: nat, again: bool)
    | Ending(item: nat, status: Status)
    | Pushed
    | Syncing
    | Restoring
    | DrainTimers
    | DrainPending
    | Expiring
    | Stopped
    | Crashed
  {
    /** A pended callback is running. */
    predicate InPending() { App? && back.ToPending? }
  }

  datatype State = State(
    objects: map<nat, Object>,
    links: map<nat, Link>,
    tree: map<nat, nat>,
    items: map<nat, Item>,
    waiting: seq<nat>,
    current: Option<nat>,
    bits: set<Flag>,
    held: set<Flag>,
    pc: Pc,
    notifying: map<nat, (nat, Direction)>,
    ownNotify: Option<Flag>,
    timers: map<nat, TimerState>,
    timerQueue: seq<nat>,
    pending: seq<nat>)

  /** The loop's own thread among the threads that use objects. */
  const LOOP: nat := 0

  datatype Step =
    // any thread
    | ChangeObject(thread: nat, source: nat, change: Change)
    | LinkNotify(thread: nat)
    | Raise(flag: Flag)
    // application code on the loop's thread
    | Subscribe(item: nat, source: nat, dir: Direction, edge: bool)
    | Unsubscribe(source: nat)
    | Pend(callback: nat)
    | NewTimer(timer: nat, periodic: bool)
    | AskTimer(timer: nat, request: Request)
    | NotifyOwn
    | Return
    // the loop itself
    | Take
    | Choose
    | Pop
    | Begin
    | Recheck
    | Finish
    | End
    | MarkEvent
    | Sync
    | Restore
    | DrainTimer
    | NextPending
    | TimeOut
    | Fire(timer: nat)
    | Tick

  // ---------- when a step can be taken ----------

  /** Application code runs on the loop's thread and is not inside a call that has yet to notify. */
  predicate InApp(s: State) {
    s.pc.App? && LOOP !in s.notifying && s.ownNotify == None
  }

  predicate Enabled(s: State, step: Step) {
    match step
    case ChangeObject(t, o, change) =>
      && t !in s.notifying && o in s.objects && change.Succeeds(s.objects[o])
      && (t == LOOP ==> InApp(s))
    case LinkNotify(t) => t in s.notifying && s.notifying[t].0 in s.links
    case Raise(flag) => flag == Stop || flag == ThreadFlag
    case Subscribe(i, o, dir, edge) => InApp(s) && i !in s.items && o in s.objects && o in s.links && o !in s.tree &&
      s.links[o].Slot(dir) == None
    case Unsubscribe(o) => InApp(s) && o in s.tree && s.tree[o] in s.items && o in s.links
    case Pend(callback) => InApp(s)
    case NewTimer(t, periodic) => InApp(s) && t !in s.timers
    case AskTimer(t, request) => InApp(s) && t in s.timers && s.timers[t].request != Free && request != NoRequest
    case NotifyOwn => s.ownNotify.Some?
    case Return => InApp(s)
    case Take => s.pc == Waiting && s.bits != {}
    case Choose => s.pc == Taken
    case Pop => s.pc == Popping
    case Begin => s.pc.Popped? && s.pc.item in s.items && s.items[s.pc.item].source in s.objects
    case Recheck => s.pc.Returned? && s.pc.item in s.items && s.items[s.pc.item].source in s.objects
    case Finish => s.pc.Checked? && s.pc.item in s.items
    case End => s.pc.Ending?
    case MarkEvent => s.pc == Pushed
    case Sync => s.pc == Syncing
    case Restore => s.pc == Restoring
    case DrainTimer => s.pc == DrainTimers && (s.timerQueue == [] || s.timerQueue[0] in s.timers)
    case NextPending => s.pc == DrainPending
    case TimeOut => s.pc == Waiting && s.bits == {}
    case Fire(t) => s.pc == Expiring && t in s.timers && s.timers[t].active
    case Tick => s.pc == Expiring
  }

  // ---------- what a step does ----------

  function PushBack(waiting: seq<nat>, i: nat): seq<nat> {
    if i in waiting then waiting else waiting + [i]
  }

  /** furi_event_loop_link_notify: push and bit are one critical section. */
  function DoLinkNotify(s: State, t: nat): State
    requires t in s.notifying && s.notifying[t].0 in s.links
  {
    var slot := s.links[s.notifying[t].0].Slot(s.notifying[t].1);
    s.(notifying := s.notifying - {t},
       waiting := if slot == None then s.waiting else PushBack(s.waiting, slot.value),
       bits := if slot == None then s.bits else s.bits + {Event})
  }

  /** furi_event_loop_object_subscribe */
  function DoSubscribe(s: State, i: nat, o: nat, dir: Direction, edge: bool): State
    requires o in s.objects && o in s.links
  {
    var ready := !edge && s.objects[o].Level(dir);
    s.(items := s.items[i := Item(o, dir, edge, true)],
       tree := s.tree[o := i],
       links := s.links[o := s.links[o].Set(dir, Some(i))],
       waiting := if ready then PushBack(s.waiting, i) else s.waiting,
       bits := if ready then s.bits + {Event} else s.bits)
  }

  /** furi_event_loop_unsubscribe: the item is freed at once, unless it is the one being dispatched. */
  function DoUnsubscribe(s: State, o: nat): State
    requires o in s.tree && s.tree[o] in s.items && o in s.links
  {
    var i := s.tree[o];
    s.(tree := s.tree - {o},
       links := s.links[o := s.links[o].Set(s.items[i].dir, None)],
       waiting := Without(s.waiting, i),
       items := if s.current == Some(i) then s.items[i := s.items[i].(owned := false)] else s.items - {i})
  }

  /** furi_event_loop_timer_enqueue_request, up to the notification. */
  function DoAskTimer(s: State, t: nat, request: Request): State
    requires t in s.timers
  {
    s.(timers := s.timers[t := s.timers[t].(request := request)],
       timerQueue := Without(s.timerQueue, t) + [t],
       ownNotify := Some(Timer))
  }

  function DoReturn(s: State): State
    requires s.pc.App?
  {
    s.(pc := AfterReturn(s.pc.back),
       pending := if s.pc.back.ToPending? && s.pending != [] then s.pending[..|s.pending| - 1] else s.pending)
  }

  function AfterReturn(back: Back): Pc {
    match back
    case Outside => Waiting
    case ToItem(i) => Returned(i)
    case ToPending(_) => DrainPending
    case ToLoop => Waiting
  }

  /** The branches of furi_event_loop_run on the bits it took. */
  function DoChoose(s: State): State {
    s.(pc := Branch(s.held), held := RestoredLater(s.held))
  }

  function Branch(flags: set<Flag>): Pc {
    if Stop in flags then Stopped
    else if Event in flags then Popping
    else if Timer in flags then DrainTimers
    else if Pending in flags then DrainPending
    else if ThreadFlag in flags then App(ToLoop)
    else Crashed
  }

  /** Only the Event and Timer branches put the other bits back when they are done. */
  function RestoredLater(flags: set<Flag>): set<Flag> {
    if Stop in flags then {}
    else if Event in flags then flags - {Event}
    else if Timer in flags then flags - {Timer}
    else {}
  }

  function DoPop(s: State): State {
    s.(waiting := if s.waiting == [] then [] else s.waiting[1..],
       pc := if s.waiting == [] then Restoring else Popped(s.waiting[0]))
  }

  function DoBegin(s: State): State
    requires s.pc.Popped? && s.pc.item in s.items && s.items[s.pc.item].source in s.objects
  {
    var i, item := s.pc.item, s.items[s.pc.item];
    var call := item.edge || s.objects[item.source].Level(item.dir);
    s.(current := Some(i), pc := if call then App(ToItem(i)) else Checked(i, false))
  }

  function DoRecheck(s: State): State
    requires s.pc.Returned? && s.pc.item in s.items && s.items[s.pc.item].source in s.objects
  {
    var i := s.pc.item;
    var item := s.items[i];
    s.(pc := Checked(i, !item.edge && s.objects[item.source].Level(item.dir)))
  }

  function DoFinish(s: State): State
    requires s.pc.Checked? && s.pc.item in s.items
  {
    var i := s.pc.item;
    s.(current := None, pc := Ending(i, if !s.items[i].owned then FreeLater else if s.pc.again then Incomplete
        else Complete))
  }

  function DoEnd(s: State): State
    requires s.pc.Ending?
  {
    var i, status := s.pc.item, s.pc.status;
    s.(waiting := if status == Incomplete then PushBack(s.waiting, i) else s.waiting,
       items := if status == FreeLater then s.items - {i} else s.items,
       pc := if status == Incomplete then Pushed else Syncing)
  }

  /** One round of the loop in furi_event_loop_process_timer_queue. */
  function DoDrainTimer(s: State): State
    requires s.timerQueue == [] || s.timerQueue[0] in s.timers
  {
    s.(timerQueue := if s.timerQueue == [] then [] else s.timerQueue[1..],
       timers := if s.timerQueue == [] then s.timers else Process(s.timers, s.timerQueue[0]),
       pc := if s.timerQueue == [] then Restoring
           else if s.timers[s.timerQueue[0]].request == NoRequest then Crashed else DrainTimers)
  }

  function Process(timers: map<nat, TimerState>, t: nat): map<nat, TimerState>
    requires t in timers
  {
    match timers[t].request
    case Start => timers[t := timers[t].(request := NoRequest, active := true)]
    case Halt => timers[t := timers[t].(request := NoRequest, active := false)]
    case Free => timers - {t}
    case NoRequest => timers
  }

  function Do(s: State, step: Step): State
    requires Enabled(s, step)
  {
    match step
    case ChangeObject(t, o, change) =>
      s.(objects := s.objects[o := change.Apply(s.objects[o])], notifying := s.notifying[t := (o, change.Notifies())])
    case LinkNotify(t) => DoLinkNotify(s, t)
    case Raise(flag) => s.(bits := s.bits + {flag})
    case Subscribe(i, o, dir, edge) => DoSubscribe(s, i, o, dir, edge)
    case Unsubscribe(o) => DoUnsubscribe(s, o)
    case Pend(callback) => s.(pending := [callback] + s.pending, ownNotify := Some(Pending))
    case NewTimer(t, periodic) => s.(timers := s.timers[t := TimerState(NoRequest, false, periodic)])
    case AskTimer(t, request) => DoAskTimer(s, t, request)
    case NotifyOwn => s.(bits := s.bits + {s.ownNotify.value}, ownNotify := None)
    case Return => DoReturn(s)
    case Take => s.(held := s.bits, bits := {}, pc := Taken)
    case Choose => DoChoose(s)
    case Pop => DoPop(s)
    case Begin => DoBegin(s)
    case Recheck => DoRecheck(s)
    case Finish => DoFinish(s)
    case End => DoEnd(s)
    case MarkEvent => s.(bits := s.bits + {Event}, pc := Syncing)
    case Sync => s.(bits := if s.waiting == [] then s.bits else s.bits + {Event}, pc := Restoring)
    case Restore => s.(bits := s.bits + s.held, held := {}, pc := Waiting)
    case DrainTimer => DoDrainTimer(s)
    case NextPending =>
      s.(pc := if s.pending == [] then Waiting else App(ToPending(s.pending[|s.pending| - 1])))
    case TimeOut => s.(pc := Expiring)
    case Fire(t) => s.(timers := s.timers[t := s.timers[t].(active := s.timers[t].periodic)], pc := App(ToLoop))
    case Tick => s.(pc := App(ToLoop))
  }
}

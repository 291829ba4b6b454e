/** When the callback of a subscription runs: over every run, from what was subscribed and from the levels at the
    time, without reference to what the single steps of the loop compute. */
module EventLoopDispatch {
  import opened Lists
  import opened EventLoopModel
  import opened EventLoopInvariant
  import opened EventLoopTheorems

  // ---------- the terms of a subscription ----------

  /** Item `i` is a subscription to direction `dir` of object `o`. */
  predicate SubscribedAs(s: State, i: nat, o: nat, dir: Direction, edge: bool) {
    i in s.items && s.items[i].source == o && s.items[i].dir == dir && s.items[i].edge == edge
  }

  lemma TermsKept(s: State, step: Step, i: nat, o: nat, dir: Direction, edge: bool)
    requires Enabled(s, step) && SubscribedAs(s, i, o, dir, edge) && i in Do(s, step).items
    ensures SubscribedAs(Do(s, step), i, o, dir, edge)
  {
    if !ChangesSubscriptions(step) { OthersKeepItems(s, step); }
  }

  ghost predicate KeepsTerms(states: seq<State>, i: nat, o: nat, dir: Direction, edge: bool, k: nat) {
    k + 1 < |states| && SubscribedAs(states[k], i, o, dir, edge) && i in states[k + 1].items ==>
      SubscribedAs(states[k + 1], i, o, dir, edge)
  }

  lemma {:induction false} TermsChain(states: seq<State>, i: nat, o: nat, dir: Direction, edge: bool, m: nat, n: nat)
    requires m <= n < |states| && SubscribedAs(states[m], i, o, dir, edge)
    requires forall k :: m <= k <= n ==> i in states[k].items
    requires forall k: nat :: m <= k < n ==> KeepsTerms(states, i, o, dir, edge, k)
    ensures SubscribedAs(states[n], i, o, dir, edge)
    decreases n
  {
    if m < n {
      TermsChain(states, i, o, dir, edge, m, n - 1);
      assert KeepsTerms(states, i, o, dir, edge, n - 1);
    }
  }

  lemma TermsInRun(states: seq<State>, steps: seq<Step>, i: nat, o: nat, dir: Direction, edge: bool, m: nat, n: nat)
    requires Run(states, steps) && m <= n < |states| && SubscribedAs(states[m], i, o, dir, edge)
    requires forall k :: m <= k <= n ==> i in states[k].items
    ensures SubscribedAs(states[n], i, o, dir, edge)
  {
    forall k: nat | m <= k < n ensures KeepsTerms(states, i, o, dir, edge, k) {
      if SubscribedAs(states[k], i, o, dir, edge) && i in states[k + 1].items {
        RunMoves(states, steps, k);
        TermsKept(states[k], steps[k], i, o, dir, edge);
      }
    }
    TermsChain(states, i, o, dir, edge, m, n);
  }

  lemma SubscribeSetsTerms(s: State, i: nat, o: nat, dir: Direction, edge: bool)
    requires Enabled(s, Subscribe(i, o, dir, edge))
    ensures SubscribedAs(Do(s, Subscribe(i, o, dir, edge)), i, o, dir, edge)
  {}

  // ---------- when a callback begins ----------

  /** The callback of item `i` begins. */
  predicate Calls(s: State, s': State, i: nat) {
    s.pc != App(ToItem(i)) && s'.pc == App(ToItem(i))
  }

  /** The loop, having taken item `i` off the waiting list, decides what to do with it. */
  predicate Decides(s: State, s': State, i: nat) {
    s.pc == Popped(i) && s'.pc != Popped(i)
  }

  /** Item `i` is edge-triggered or its level is true. */
  predicate Ready(s: State, i: nat) {
    i in s.items && s.items[i].source in s.objects
      && (s.items[i].edge || s.objects[s.items[i].source].Level(s.items[i].dir))
  }

  /** At step `j` the loop decides on item `i`, and calls it back exactly if it is ready. */
  predicate DecidesRightly(states: seq<State>, i: nat, j: nat) {
    j + 1 < |states| && Decides(states[j], states[j + 1], i)
      && (Calls(states[j], states[j + 1], i) <==> Ready(states[j], i))
  }

  /** From step `from` on, the loop has decided rightly on item `i`. */
  ghost predicate DecidedSince(states: seq<State>, i: nat, from: nat) {
    exists j :: from <= j && DecidesRightly(states, i, j)
  }

  lemma DecidedRemains(before: seq<State>, states: seq<State>, i: nat, from: nat, from': nat)
    requires before <= states && from' <= from && DecidedSince(before, i, from)
    ensures DecidedSince(states, i, from')
  {
    var j :| from <= j && DecidesRightly(before, i, j);
    assert DecidesRightly(states, i, j);
  }

  /** Steps that other threads and the calls of the application take. */
  predicate StaysPut(step: Step) {
    step.ChangeObject? || step.LinkNotify? || step.Raise? || step.Subscribe? || step.Unsubscribe? || step.Pend?
    || step.NewTimer? || step.AskTimer? || step.NotifyOwn?
  }

  lemma PutStays(s: State, step: Step)
    requires Enabled(s, step) && StaysPut(step)
    ensures Do(s, step).pc == s.pc
  {}

  /** Steps of the loop before and after it has an item. */
  predicate WithoutItem(step: Step) {
    step.Take? || step.Choose? || step.Pop? || step.MarkEvent? || step.Sync? || step.Restore? || step.DrainTimer?
    || step.NextPending? || step.TimeOut? || step.Fire? || step.Tick?
  }

  lemma WithoutItemGoesOn(s: State, step: Step)
    requires Enabled(s, step) && WithoutItem(step)
    ensures !s.pc.Popped? && !s.pc.Returned? && !s.pc.Checked? && !s.pc.Ending?
    ensures NotWithItem(Do(s, step).pc)
  {
    if step.Choose? {
      ChooseGoesOn(s);
    } else if step.DrainTimer? {
      DrainGoesOn(s);
    }
  }

  predicate NotWithItem(pc: Pc) {
    !(pc.App? && pc.back.ToItem?) && !pc.Returned? && !pc.Checked? && !pc.Ending?
  }

  lemma ChooseGoesOn(s: State)
    ensures NotWithItem(DoChoose(s).pc)
  {}

  lemma DrainGoesOn(s: State)
    requires Enabled(s, DrainTimer)
    ensures NotWithItem(DoDrainTimer(s).pc)
  {}

  lemma OnlyBeginDecides(s: State, step: Step, i: nat)
    requires Enabled(s, step)
    ensures Decides(s, Do(s, step), i) ==> step.Begin?
    ensures Calls(s, Do(s, step), i) ==> step.Begin? && s.pc == Popped(i)
  {
    if StaysPut(step) {
      PutStays(s, step);
    } else if WithoutItem(step) {
      WithoutItemGoesOn(s, step);
    } else {
      ItemGoesOn(s, step, i);
    }
  }

  lemma ItemGoesOn(s: State, step: Step, i: nat)
    requires Enabled(s, step) && !StaysPut(step) && !WithoutItem(step)
    ensures Decides(s, Do(s, step), i) ==> step.Begin?
    ensures Calls(s, Do(s, step), i) ==> step.Begin? && s.pc == Popped(i)
  {}

  lemma BeginDecides(s: State, i: nat, o: nat, dir: Direction, edge: bool)
    requires Enabled(s, Begin) && s.pc == Popped(i) && SubscribedAs(s, i, o, dir, edge)
    ensures Decides(s, Do(s, Begin), i)
    ensures o in s.objects && (Calls(s, Do(s, Begin), i) <==> edge || s.objects[o].Level(dir))
  {}

  lemma BeginDecidesRightly(states: seq<State>, steps: seq<Step>, i: nat, n: nat)
    requires Run(states, steps) && Initial(states[0]) && n < |steps| && steps[n] == Begin && states[n].pc == Popped(i)
    ensures DecidesRightly(states, i, n)
  {
    ReachableStatesOk(states, steps, n);
    RunMoves(states, steps, n);
    var item := states[n].items[i];
    BeginDecides(states[n], i, item.source, item.dir, item.edge);
  }

  /** From its subscription on, as long as item `i` is not freed: its callback begins at no other time than when the
      loop decides on it after taking it off the list, and then exactly if it is edge-triggered or its level is true. */
  lemma CalledIffReady(states: seq<State>, steps: seq<Step>, i: nat, o: nat, dir: Direction, edge: bool, m: nat, n: nat)
    requires Run(states, steps) && Initial(states[0]) && m < n < |steps|
    requires steps[m] == Subscribe(i, o, dir, edge) && forall k :: m < k <= n ==> i in states[k].items
    ensures Calls(states[n], states[n + 1], i) ==> Decides(states[n], states[n + 1], i)
    ensures Decides(states[n], states[n + 1], i) ==>
        o in states[n].objects && (Calls(states[n], states[n + 1], i) <==> edge || states[n].objects[o].Level(dir))
  {
    RunMoves(states, steps, m);
    SubscribeSetsTerms(states[m], i, o, dir, edge);
    TermsInRun(states, steps, i, o, dir, edge, m + 1, n);
    RunMoves(states, steps, n);
    OnlyBeginDecides(states[n], steps[n], i);
    if steps[n].Begin? && states[n].pc == Popped(i) { BeginDecides(states[n], i, o, dir, edge); }
  }

  /** A level is true exactly when the operation that its callback waits for succeeds. */
  lemma LevelMeansProgress(o: Object)
    ensures o.Level(In) <==> Get.Succeeds(o)
    ensures o.Level(Out) <==> Put.Succeeds(o)
  {}

  // ---------- a waiting item is called ----------

  /** Item `i` stays subscribed. */
  ghost predicate StaysSubscribed(states: seq<State>, i: nat) {
    forall j :: 0 <= j < |states| ==> Registered(states[j], i)
  }

  /** The loop does not decide on item `i`. */
  predicate Undecided(states: seq<State>, i: nat) {
    forall j :: 0 <= j < |states| - 1 ==> !Decides(states[j], states[j + 1], i)
  }

  lemma TailUndecided(states: seq<State>, i: nat)
    requires states != [] && Undecided(states, i)
    ensures Undecided(states[1..], i)
  {
    forall j | 0 <= j < |states[1..]| - 1 ensures !Decides(states[1..][j], states[1..][j + 1], i) {
      assert !Decides(states[j + 1], states[j + 1 + 1], i);
    }
  }

  lemma TailSubscribed(states: seq<State>, i: nat)
    requires states != [] && StaysSubscribed(states, i)
    ensures StaysSubscribed(states[1..], i)
  {}

  /** Once taken off the list, an item keeps its place until the loop decides on it; nothing is taken off meanwhile. */
  lemma {:induction false} HeldUntilDecided(states: seq<State>, steps: seq<Step>, i: nat)
    requires Run(states, steps) && states[0].pc == Popped(i) && Undecided(states, i)
    ensures states[|steps|].pc == Popped(i) && Pops(steps) == 0
    decreases |steps|
  {
    if steps != [] {
      assert !Decides(states[0], states[0 + 1], i);
      TailUndecided(states, i);
      HeldUntilDecided(states[1..], steps[1..], i);
    }
  }

  /** Where an item that was at position `k` is after a run in which `pops` items were taken off the list. */
  predicate Advanced(s: State, i: nat, k: nat, pops: nat) {
    (i in s.waiting && pops <= k) || (s.pc == Popped(i) && pops <= k + 1)
  }

  lemma {:induction false} WaitsOrIsDecided(states: seq<State>, steps: seq<Step>, i: nat, k: nat)
    requires Run(states, steps) && Inv(states[0]) && k < |states[0].waiting| && states[0].waiting[k] == i
    requires StaysSubscribed(states, i) && Undecided(states, i)
    ensures Advanced(states[|steps|], i, k, Pops(steps))
    decreases |steps|
  {
    if steps != [] {
      var k' := WaitingItemAdvances(states[0], steps[0], k);
      StepKeepsInv(states[0], steps[0]);
      TailUndecided(states, i);
      TailSubscribed(states, i);
      if i in states[1].waiting {
        WaitsOrIsDecided(states[1..], steps[1..], i, k');
      } else {
        assert Registered(states[1], i);
        TakenOff(states[0], steps[0], k);
        HeldUntilDecided(states[1..], steps[1..], i);
      }
    }
  }

  lemma TakenOff(s: State, step: Step, k: nat)
    requires Inv(s) && Enabled(s, step) && k < |s.waiting| && s.waiting[k] !in Do(s, step).waiting
    requires Registered(Do(s, step), s.waiting[k])
    ensures step.Pop? && Do(s, step).pc == Popped(s.waiting[k])
  {
    var _ := WaitingItemAdvances(s, step, k);
    if step.Unsubscribe? { assert Registered(s, s.waiting[k]); }
  }

  /** No callback of item `i` begins. */
  predicate NeverCalled(states: seq<State>, i: nat) {
    forall j :: 0 <= j < |states| - 1 ==> !Calls(states[j], states[j + 1], i)
  }

  /** A notified edge-triggered subscription at position k of the waiting list has its callback begun, or is
      unsubscribed, within k + 1 pops: otherwise it is still on the list after at most k pops, or it was taken off by
      the last of at most k + 1 and the loop's next step begins its callback. */
  lemma EdgeItemIsCalled(states: seq<State>, steps: seq<Step>, i: nat, k: nat)
    requires Run(states, steps) && Inv(states[0]) && k < |states[0].waiting| && states[0].waiting[k] == i
    requires StaysSubscribed(states, i) && NeverCalled(states, i) && states[0].items[i].edge
    ensures (i in states[|steps|].waiting && Pops(steps) <= k)
         || (Pops(steps) <= k + 1 && Enabled(states[|steps|], Begin)
             && Calls(states[|steps|], Do(states[|steps|], Begin), i))
  {
    var o, dir := states[0].items[i].source, states[0].items[i].dir;
    forall j | 0 <= j < |states| - 1 ensures !Decides(states[j], states[j + 1], i) {
      DecidesToCallEdge(states, steps, i, o, dir, j);
    }
    WaitsOrIsDecided(states, steps, i, k);
    TermsInRun(states, steps, i, o, dir, true, 0, |steps|);
    RunKeepsInv(states, steps, |steps|);
    if states[|steps|].pc == Popped(i) {
      NeverStuck(states[|steps|]);
      BeginDecides(states[|steps|], i, o, dir, true);
    }
  }

  lemma DecidesToCallEdge(states: seq<State>, steps: seq<Step>, i: nat, o: nat, dir: Direction, j: nat)
    requires Run(states, steps) && Inv(states[0]) && SubscribedAs(states[0], i, o, dir, true)
    requires StaysSubscribed(states, i) && j < |steps|
    ensures Decides(states[j], states[j + 1], i) ==> Calls(states[j], states[j + 1], i)
  {
    TermsInRun(states, steps, i, o, dir, true, 0, j);
    RunMoves(states, steps, j);
    OnlyBeginDecides(states[j], steps[j], i);
    if steps[j].Begin? && states[j].pc == Popped(i) { BeginDecides(states[j], i, o, dir, true); }
  }

  // ---------- what is put back ----------

  /** The callback of item `i` has ended and the loop decides whether to put it back. */
  predicate Reviews(s: State, s': State, i: nat) {
    s.pc == Returned(i) && s'.pc != Returned(i)
  }

  /** Item `i` is about to be put back. */
  predicate ToBePutBack(s: State, i: nat) {
    s.pc == Checked(i, true) || s.pc == Ending(i, Incomplete)
  }

  /** Item `i` is level-triggered and its level is true. */
  predicate LevelHolds(s: State, i: nat) {
    i in s.items && s.items[i].source in s.objects && !s.items[i].edge
      && s.objects[s.items[i].source].Level(s.items[i].dir)
  }

  lemma ReviewStep(s: State, step: Step, i: nat)
    requires Enabled(s, step)
    ensures Reviews(s, Do(s, step), i) ==> step.Recheck? && (ToBePutBack(Do(s, step), i) <==> LevelHolds(s, i))
    ensures ToBePutBack(Do(s, step), i) ==> ToBePutBack(s, i) || Reviews(s, Do(s, step), i)
  {
    if StaysPut(step) {
      PutStays(s, step);
    } else if WithoutItem(step) {
      WithoutItemGoesOn(s, step);
    } else {
      ItemReviewed(s, step, i);
    }
  }

  lemma ItemReviewed(s: State, step: Step, i: nat)
    requires Enabled(s, step) && !StaysPut(step) && !WithoutItem(step)
    ensures Reviews(s, Do(s, step), i) ==> step.Recheck? && (ToBePutBack(Do(s, step), i) <==> LevelHolds(s, i))
    ensures ToBePutBack(Do(s, step), i) ==> ToBePutBack(s, i) || Reviews(s, Do(s, step), i)
  {}

  /** The loop decides to put item `i` back exactly if it is level-triggered and its level is still true. */
  lemma PutBackIffLevelHolds(states: seq<State>, steps: seq<Step>, i: nat, n: nat)
    requires Run(states, steps) && n < |steps| && Reviews(states[n], states[n + 1], i)
    ensures ToBePutBack(states[n + 1], i) <==> LevelHolds(states[n], i)
  {
    RunMoves(states, steps, n);
    ReviewStep(states[n], steps[n], i);
  }

  /** At step `r` the loop found the level of item `i` true after its callback, and from then to state `n` it was about
      to put the item back. */
  predicate FoundTrue(states: seq<State>, i: nat, r: nat, n: nat) {
    r < n < |states| && Reviews(states[r], states[r + 1], i) && LevelHolds(states[r], i)
      && forall k :: r < k <= n ==> ToBePutBack(states[k], i)
  }

  ghost predicate HasReason(states: seq<State>, i: nat, k: nat) {
    k + 1 < |states| && ToBePutBack(states[k + 1], i) ==>
      ToBePutBack(states[k], i) || (Reviews(states[k], states[k + 1], i) && LevelHolds(states[k], i))
  }

  lemma {:induction false} ReviewBehind(states: seq<State>, i: nat, n: nat) returns (r: nat)
    requires n < |states| && ToBePutBack(states[n], i) && !ToBePutBack(states[0], i)
    requires forall k: nat :: HasReason(states, i, k)
    ensures FoundTrue(states, i, r, n)
    decreases n
  {
    assert HasReason(states, i, n - 1);
    if ToBePutBack(states[n - 1], i) {
      r := ReviewBehind(states, i, n - 1);
    } else {
      r := n - 1;
    }
  }

  lemma ReasonAt(states: seq<State>, steps: seq<Step>, i: nat, k: nat)
    requires Run(states, steps)
    ensures HasReason(states, i, k)
  {
    if k < |steps| {
      RunMoves(states, steps, k);
      ReviewStep(states[k], steps[k], i);
    }
  }

  /** A step puts item `i` on the waiting list. */
  predicate Enters(s: State, s': State, i: nat) {
    i !in s.waiting && i in s'.waiting
  }

  /** Some thread notifies the object and the direction that item `i` is subscribed to. */
  predicate Notified(s: State, step: Step, i: nat) {
    step.LinkNotify? && step.thread in s.notifying && i in s.items
      && s.notifying[step.thread] == (s.items[i].source, s.items[i].dir)
  }

  /** Item `i` is being subscribed as level-triggered to a level that is true. */
  predicate SubscribedReady(s: State, step: Step, i: nat) {
    step.Subscribe? && step.item == i && !step.edge && step.source in s.objects
      && s.objects[step.source].Level(step.dir)
  }

  lemma EntersBy(s: State, step: Step, i: nat)
    requires Inv(s) && Enabled(s, step) && Enters(s, Do(s, step), i)
    ensures Notified(s, step, i) || SubscribedReady(s, step, i) || (step.End? && s.pc == Ending(i, Incomplete))
  {
    if !ChangesSubscriptions(step) {
      OthersKeepItems(s, step);
    } else if step.LinkNotify? {
      EntersByNotification(s, step.thread, i);
    }
  }

  lemma EntersByNotification(s: State, t: nat, i: nat)
    requires Inv(s) && Enabled(s, LinkNotify(t)) && Enters(s, DoLinkNotify(s, t), i)
    ensures Notified(s, LinkNotify(t), i)
  {
    var (o, dir) := s.notifying[t];
    assert s.links[o].Slot(dir) == Some(i);
    assert InSlot(s, o, dir, i);
  }

  /** An item gets on the waiting list by a notification of what it is subscribed to, or, when level-triggered, by being
      subscribed while its level is true or by a check after its callback that found it true.  So an edge-triggered item
      is not put back. */
  lemma WaitsForAReason(states: seq<State>, steps: seq<Step>, i: nat, n: nat)
    requires Run(states, steps) && Initial(states[0]) && n < |steps| && Enters(states[n], states[n + 1], i)
    ensures Notified(states[n], steps[n], i) || SubscribedReady(states[n], steps[n], i)
         || exists r: nat :: FoundTrue(states, i, r, n)
  {
    ReachableStatesOk(states, steps, n);
    RunMoves(states, steps, n);
    EntersBy(states[n], steps[n], i);
    if states[n].pc == Ending(i, Incomplete) {
      forall k: nat ensures HasReason(states, i, k) { ReasonAt(states, steps, i, k); }
      var r := ReviewBehind(states, i, n);
    }
  }

  // ---------- stopping ----------

  /** The Stop bit is set or taken, or the loop has stopped. */
  predicate Stopping(s: State) {
    Stop in s.bits || (s.pc == Taken && Stop in s.held) || s.pc == Stopped
  }

  lemma StoppingStep(s: State, step: Step)
    requires Enabled(s, step) && Stopping(s)
    ensures Stopping(Do(s, step))
    ensures step.Choose? && Stop in s.held ==> Do(s, step).pc == Stopped
  {}

  ghost predicate KeepsStopping(states: seq<State>, k: nat) {
    k + 1 < |states| && Stopping(states[k]) ==> Stopping(states[k + 1])
  }

  lemma {:induction false} StoppingChain(states: seq<State>, m: nat, n: nat)
    requires m <= n < |states| && Stopping(states[m]) && forall k: nat :: m <= k < n ==> KeepsStopping(states, k)
    ensures Stopping(states[n])
    decreases n
  {
    if m < n {
      StoppingChain(states, m, n - 1);
      assert KeepsStopping(states, n - 1);
    }
  }

  /** A stop request is not lost: ever after, its bit is set or taken or the loop has stopped, and whenever the loop
      chooses a branch with the bit taken, it stops. */
  lemma StopIsObeyed(states: seq<State>, steps: seq<Step>, m: nat, n: nat)
    requires Run(states, steps) && m < n < |states| && steps[m] == Raise(Stop)
    ensures Stopping(states[n])
    ensures n < |steps| && states[n].pc == Taken && states[n + 1].pc != Taken && Stop in states[n].held ==>
        states[n + 1].pc == Stopped
  {
    RunMoves(states, steps, m);
    forall k: nat | m + 1 <= k < n ensures KeepsStopping(states, k) {
      RunMoves(states, steps, k);
      if Stopping(states[k]) { StoppingStep(states[k], steps[k]); }
    }
    StoppingChain(states, m + 1, n);
    if n < |steps| {
      RunMoves(states, steps, n);
      StoppingStep(states[n], steps[n]);
    }
  }

  // ---------- a thread flag that is lost ----------

  /** Where the loop goes to act on a flag. */
  function ActsOn(flag: Flag): Pc {
    match flag
    case Event => Popping
    case Stop => Stopped
    case Timer => DrainTimers
    case Pending => DrainPending
    case ThreadFlag => App(ToLoop)
  }

  /** A flag that was taken is neither acted on nor kept for later exactly if it is a thread flag that came together
      with Pending and with neither Event nor Timer: that branch puts nothing back. */
  lemma TakenFlagIsLostIff(s: State, flag: Flag)
    requires Enabled(s, Choose) && flag in s.held && Stop !in s.held
    ensures Do(s, Choose).pc != ActsOn(flag) && flag !in Do(s, Choose).held
       <==> flag == ThreadFlag && Pending in s.held && Event !in s.held && Timer !in s.held
  {}

  /** A loop without objects, items or timers. */
  function Bare(bits: set<Flag>, held: set<Flag>, pc: Pc, ownNotify: Option<Flag>, pending: seq<nat>): State {
    State(map[], map[], map[], map[], [], None, bits, held, pc, map[], ownNotify, map[], [], pending)
  }

  lemma BareCalls(callback: nat)
    ensures Moves(Bare({}, {}, App(Outside), None, []), Pend(callback),
                  Bare({}, {}, App(Outside), Some(Pending), [callback]))
    ensures Moves(Bare({}, {}, App(Outside), Some(Pending), [callback]), NotifyOwn,
                  Bare({Pending}, {}, App(Outside), None, [callback]))
    ensures Moves(Bare({Pending}, {}, App(Outside), None, [callback]), Raise(ThreadFlag),
                  Bare({Pending, ThreadFlag}, {}, App(Outside), None, [callback]))
  {
    assert [callback] + [] == [callback];
  }

  lemma BareRound(callback: nat)
    ensures Moves(Bare({Pending, ThreadFlag}, {}, App(Outside), None, [callback]), Return,
                  Bare({Pending, ThreadFlag}, {}, Waiting, None, [callback]))
    ensures Moves(Bare({Pending, ThreadFlag}, {}, Waiting, None, [callback]), Take,
                  Bare({}, {Pending, ThreadFlag}, Taken, None, [callback]))
    ensures Moves(Bare({}, {Pending, ThreadFlag}, Taken, None, [callback]), Choose,
                  Bare({}, {}, DrainPending, None, [callback]))
  {}

  /** A run from start-up in which a thread flag is lost: it is raised while a callback is pended, and after the loop
      has taken both it is nowhere. */
  lemma LostThreadFlag(callback: nat) returns (states: seq<State>, steps: seq<Step>)
    ensures Run(states, steps) && Initial(states[0]) && Raise(ThreadFlag) in steps
    ensures states[|steps|] == Bare({}, {}, DrainPending, None, [callback])
  {
    steps := [Pend(callback), NotifyOwn, Raise(ThreadFlag), Return, Take, Choose];
    states := [Bare({}, {}, App(Outside), None, []), Bare({}, {}, App(Outside), Some(Pending), [callback]),
      Bare({Pending}, {}, App(Outside), None, [callback]),
      Bare({Pending, ThreadFlag}, {}, App(Outside), None, [callback]),
      Bare({Pending, ThreadFlag}, {}, Waiting, None, [callback]),
      Bare({}, {Pending, ThreadFlag}, Taken, None, [callback]), Bare({}, {}, DrainPending, None, [callback])];
    assert steps[2] == Raise(ThreadFlag);
    BareCalls(callback);
    BareRound(callback);
    forall i: nat ensures MovesAt(states, steps, i) {}
    RecordedIsRun(states, steps);
  }
}

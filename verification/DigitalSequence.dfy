/** lib/digital_signal/digital_sequence.c: transmitting a list of registered signals through the timer ring. */
module DigitalSequences {
  import opened Lists
  import opened Waveform
  import opened Flattening
  import opened TimerRings
  import opened DigitalSignals

  /** DIGITAL_SEQUENCE_BANK_SIZE */
  const BANK_SIZE: nat := 32

  // ---------- how far the DMA gets ----------

  /** Transfers made while the source waits to enqueue its values, up to the n-th; it waits only once the DMA runs, that
      is, from value 126 on. */
  function Transfers(dma: nat -> nat, n: nat): nat {
    if n <= 126 then 0 else Transfers(dma, n - 1) + dma(n - 1)
  }

  /** The wait for value `k` ends because there is space, with at least one value left to play. */
  predicate WaitsWell(dma: nat -> nat, k: nat) {
    1 <= k - Transfers(dma, k + 1) <= 125
  }

  ghost predicate InPace(dma: nat -> nat, n: nat) {
    forall k: nat :: 126 <= k < n ==> WaitsWell(dma, k)
  }

  lemma NextInPace(dma: nat -> nat, n: nat)
    ensures InPace(dma, n + 1) <==> InPace(dma, n) && (126 <= n ==> WaitsWell(dma, n))
  {}

  class DigitalSequence {
    const maxSize: nat
    const ring: TimerRing
    var signals: map<nat, Signal>
    var data: seq<nat>

    ghost predicate Valid()
      reads this
    {
      && |data| <= maxSize
      && (forall k :: k in signals ==> k < BANK_SIZE)
      && (forall i :: 0 <= i < |data| ==> data[i] < BANK_SIZE)
    }

    constructor (maxSize: nat)
      ensures Valid() && this.maxSize == maxSize && signals == map[] && data == []
      ensures fresh(ring) && fresh(ring.data) && ring.Valid() && Idle() && !ring.marked
    {
      this.maxSize := maxSize;
      ring := new TimerRing();
      signals, data := map[], [];
    }

    /** Between transmissions the ring is as digital_sequence_timer_buffer_reset leaves it, or, before the first one, as
        it was allocated. */
    ghost predicate Idle()
      reads this, ring
    {
      ring.clean && !ring.active && ring.sent == ring.played == []
    }

    /** digital_sequence_register_signal; false stands for a failed furi_check. */
    method RegisterSignal(index: nat, signal: Signal) returns (ok: bool)
      requires Valid()
      modifies this`signals
      ensures Valid() && (ok <==> index < BANK_SIZE)
      ensures signals == if ok then old(signals)[index := signal] else old(signals)
    {
      ok := index < BANK_SIZE;
      if ok { signals := signals[index := signal]; }
    }

    /** digital_sequence_add_signal */
    method AddSignal(index: nat) returns (ok: bool)
      requires Valid()
      modifies this`data
      ensures Valid() && (ok <==> index < BANK_SIZE && |old(data)| < maxSize)
      ensures data == if ok then old(data) + [index] else old(data)
    {
      ok := index < BANK_SIZE && |data| < maxSize;
      if ok { data := data + [index]; }
    }

    /** The signals to transmit, in order. */
    ghost function Listed(): (r: seq<Signal>)
      reads this
      requires forall i :: 0 <= i < |data| ==> data[i] in signals
      ensures |r| == |data|
      ensures forall i :: 0 <= i < |data| ==> r[i] == signals[data[i]]
    {
      seq(|data|, i requires 0 <= i < |data| && data[i] in signals reads this => signals[data[i]])
    }

    /** digital_sequence_transmit.  `dma(k)` is how far the DMA gets while the source waits to enqueue value k, and
        `last` how far it gets in the wait at the end.  The transmission is clean when no wait ends by timeout or
        underrun; then the DMA plays exactly the stream, in order. */
    method Transmit(dma: nat -> nat, last: nat) returns (clean: bool, ghost played: seq<nat>)
      requires Valid() && ring.Valid() && Idle() && data != []
      requires (forall i :: 0 <= i < |data| ==> data[i] in signals) && Sendable(Listed())
      modifies ring, ring.data
      ensures AllOk(Listed())
      ensures var n := |Emitted(Listed())|;
        clean <==> InPace(dma, n) && n - Transfers(dma, n) < last && (old(ring.marked) || n > 0)
      ensures clean ==> played == Emitted(Listed())
      ensures clean ==> (played == Stream(Listed()) <==> JoinedRunsLast(Listed()))
      ensures clean && AllBuilt(Listed()) ==> played == Stream(Listed())
      ensures ring.Valid() && Idle() && ring.marked
    {
      WhatIsEmitted(Listed());
      clean, played := Play(dma, last, Listed());
    }

    method Play(dma: nat -> nat, last: nat, ghost listed: seq<Signal>) returns (clean: bool, ghost played: seq<nat>)
      requires ring.Valid() && Idle() && data != [] && Matches(signals, data, listed) && Sendable(listed)
      modifies ring, ring.data
      ensures var n := |Emitted(listed)|;
        clean <==> InPace(dma, n) && n - Transfers(dma, n) < last && (old(ring.marked) || n > 0)
      ensures clean ==> played == Emitted(listed)
      ensures ring.Valid() && Idle() && ring.marked
    {
      ghost var before := ring.marked;
      ghost var plan := PlanAll(listed);
      SendAll(dma, listed, plan, before);
      clean, played := EndPlay(dma, last, before, Emitted(listed));
    }

    /** The end of digital_sequence_transmit, when `values` have been sent. */
    method EndPlay(ghost dma: nat -> nat, last: nat, ghost before: bool, ghost values: seq<nat>)
      returns (clean: bool, ghost played: seq<nat>)
      requires OnPace(dma, before) && ring.active && ring.sent == values
      modifies ring, ring.data
      ensures var n := |values|;
        clean <==> InPace(dma, n) && n - Transfers(dma, n) < last && (before || n > 0)
      ensures clean ==> played == values
      ensures ring.Valid() && Idle() && ring.marked
    {
      ring.Finish(last);
      clean := ring.clean;
      played := ring.played;
      ring.Reset();
    }

    /** The outer loop: signal after signal, with the rounding error handed on. */
    method SendAll(dma: nat -> nat, ghost listed: seq<Signal>, ghost plan: seq<Plan>, ghost before: bool)
      requires Accepting(dma, before) && ring.sent == [] && data != []
      requires Planned(listed, plan) && Matches(signals, data, listed)
      modifies ring, ring.data
      ensures OnPace(dma, before) && ring.active
      ensures |plan[|plan| - 1].steps| > |listed[|plan| - 1].values| && ring.sent == SentAtEnd(listed, plan)
    {
      var bank, order := signals, data;
      var current := SignalAt(bank, order, 0, listed);
      var remainderTicks: int := 0;
      var carry: nat := 0;
      var n: nat := 0;
      while n + 1 < |order|
        invariant n < |order| && current == listed[n] && Accepting(dma, before) && remainderTicks == plan[n].ticks
        invariant |plan[n].steps| > 0 && plan[n].steps[0] == Progress(ring.sent, carry)
      {
        var following := SignalAt(bank, order, n + 1, listed);
        SignalFollows(listed, plan, n);
        carry := SendSignal(current, Some(following), carry, dma, plan[n].steps, before);
        remainderTicks, carry := SettleRemainder(remainderTicks, current.remainder, carry);
        current := following;
        n := n + 1;
      }
      SignalFollows(listed, plan, n);
      var _ := SendSignal(current, None, carry, dma, plan[n].steps, before);
    }

    /** The part of the plan that concerns signal `n`. */
    static lemma SignalFollows(listed: seq<Signal>, plan: seq<Plan>, n: nat)
      requires Planned(listed, plan) && n < |listed|
      ensures listed[n].values != [] && SignalPlanned(listed[n].values, JointAfter(listed, n), plan[n].steps)
      ensures JointAfter(listed, n) == Joint(listed[n], if n + 1 < |listed| then Some(listed[n + 1]) else None)
      ensures -0x8000_0000 <= plan[n].ticks + listed[n].remainder < 0x8000_0000
      ensures n + 1 < |listed| ==>
        var last, ticks := plan[n].steps[|listed[n].values|], plan[n].ticks + listed[n].remainder;
        && plan[n + 1].ticks == AfterBoundary(ticks) && |plan[n + 1].steps| > 0
        && plan[n + 1].steps[0] == Progress(last.sent, last.carry + if ticks >= 781 then 1 else 0)
    {
      assert FollowsOn(listed, plan, n);
    }

    /** The signal at one place of the order of transmission. */
    static method SignalAt(bank: map<nat, Signal>, order: seq<nat>, k: nat,
        ghost listed: seq<Signal>) returns (s: Signal)
      requires k < |order| && Matches(bank, order, listed)
      ensures s == listed[k]
    {
      s := bank[order[k]];
    }

    static ghost predicate Matches(bank: map<nat, Signal>, order: seq<nat>, listed: seq<Signal>) {
      |listed| == |order| && forall i :: 0 <= i < |order| ==> order[i] in bank && bank[order[i]] == listed[i]
    }

    /** The rounding error of the signal just sent, and the tick it adds once it reaches half of one; the sum is signed
        32-bit arithmetic. */
    static method SettleRemainder(remainderTicks: int, remainder: int, carryIn: nat) returns (ticks: int, carry: nat)
      requires -0x8000_0000 <= remainderTicks + remainder < 0x8000_0000
      ensures ticks == AfterBoundary(remainderTicks + remainder)
      ensures carry == carryIn + if remainderTicks + remainder >= 781 then 1 else 0
    {
      ticks, carry := remainderTicks + remainder, carryIn;
      if ticks >= 781 {
        ticks := ticks - 1562;
        carry := carry + 1;
      }
    }

    /** The ring after some values: clean exactly when all waits went well, and read as far as the DMA got. */
    ghost predicate OnPace(dma: nat -> nat, before: bool)
      reads this, ring, ring.data
    {
      && ring.Valid()
      && (ring.clean <==> InPace(dma, |ring.sent|))
      && (ring.clean ==> |ring.played| == Transfers(dma, |ring.sent|))
      && (ring.marked <==> before || ring.sent != [])
    }

    /** The ring accepts another value: reading has begun exactly when it was filled. */
    ghost predicate Accepting(dma: nat -> nat, before: bool)
      reads this, ring, ring.data
    {
      OnPace(dma, before) && (ring.active <==> 126 <= |ring.sent|)
    }

    method Enqueue(reload: nat, dma: nat -> nat, ghost before: bool)
      requires Accepting(dma, before) && reload < TIMER_MAX
      modifies ring, ring.data
      ensures OnPace(dma, before) && ring.active == old(ring.active) && ring.sent == old(ring.sent) + [reload]
    {
      NextInPace(dma, |ring.sent|);
      ring.EnqueuePeriod(reload, dma(|ring.sent|));
    }

    /** Enqueues the value unless it is carried, and starts the DMA when the ring is filled or the data has ended. */
    method EmitPeriod(reload: nat, send: bool, endOfData: bool, dma: nat -> nat, ghost before: bool)
      requires Accepting(dma, before) && (send ==> reload < TIMER_MAX)
      modifies ring, ring.data
      ensures if endOfData then OnPace(dma, before) && ring.active else Accepting(dma, before)
      ensures ring.sent == if send then old(ring.sent) + [reload] else old(ring.sent)
    {
      if send {
        Enqueue(reload, dma, before);
      }
      if !ring.active {
        var filled := ring.writePos >= 128 - 2;
        if filled || endOfData {
          ring.StartDma();
        }
      }
    }

    /** Whether the next signal starts at the level this one ends with. */
    static ghost function Joint(current: Signal, next: Option<Signal>): Option<bool> {
      match next
      case None => None
      case Some(n) => Some(EndLevel(current.startLevel, |current.values|) == n.startLevel)
    }

    /** The inner loop: the periods of one signal, with the carry across signal boundaries. */
    method SendSignal(current: Signal, next: Option<Signal>, carryIn: nat, dma: nat -> nat, ghost steps: seq<Progress>,
        ghost before: bool)
      returns (carry: nat)
      requires Accepting(dma, before) && current.values != []
      requires SignalPlanned(current.values, Joint(current, next), steps) && steps[0] == Progress(ring.sent, carryIn)
      modifies ring, ring.data
      ensures steps[|current.values|] == Progress(ring.sent, carry)
      ensures if next == None then OnPace(dma, before) && ring.active else Accepting(dma, before)
    {
      carry := carryIn;
      var i := 0;
      while i < |current.values|
        invariant i <= |current.values| && steps[i] == Progress(ring.sent, carry)
        invariant if i == |current.values| && next == None then OnPace(dma, before) && ring.active
            else Accepting(dma, before)
      {
        carry := SendPeriod(current, i, next, carry, dma, steps, before);
        i := i + 1;
      }
    }

    /** The body of the inner loop. */
    method SendPeriod(current: Signal, i: nat, next: Option<Signal>, carryIn: nat, dma: nat -> nat,
        ghost steps: seq<Progress>, ghost before: bool)
      returns (carry: nat)
      requires Accepting(dma, before) && i < |current.values|
      requires SignalPlanned(current.values, Joint(current, next), steps) && steps[i] == Progress(ring.sent, carryIn)
      modifies ring, ring.data
      ensures steps[i + 1] == Progress(ring.sent, carry)
      ensures if i + 1 == |current.values| && next == None then OnPace(dma, before) && ring.active
          else Accepting(dma, before)
    {
      assert PeriodPlanned(current.values, Joint(current, next), steps, i);
      var reload := AddWrapped(current.values[i], carryIn);
      carry := CarriedPeriod(current, i, next, reload);
      EmitPeriod(reload, carry == 0, next.None? && i == |current.values| - 1, dma, before);
    }

    /** The decision at a signal boundary; only the last period of a signal is ever carried. */
    method CarriedPeriod(current: Signal, i: nat, next: Option<Signal>, reload: nat) returns (carry: nat)
      requires i < |current.values|
      ensures carry == CarryOver(|current.values|, i, Joint(current, next), reload)
    {
      var isLast := i == |current.values| - 1;
      carry := 0;
      if isLast {
        if next.Some? {
          var endLevel := EndLevel(current.startLevel, |current.values|);
          if endLevel == next.value.startLevel {
            carry := reload;
          }
        } else {
          carry := 1;
        }
      }
    }

    /** The sum of a stored value and the carry, in unsigned 32-bit arithmetic. */
    method AddWrapped(a: nat, b: nat) returns (sum: nat)
      ensures sum == (a + b) % 0x1_0000_0000
      ensures a + b < 0x1_0000_0000 ==> sum == a + b
    {
      sum := (a + b) % 0x1_0000_0000;
    }
  }

  // ---------- the first transmission ----------

  /** A single period is held, so nothing is sent. */
  lemma OnePeriodIsHeld(s: Signal)
    requires s.Ok() && |s.values| == 1 && s.values[0] < 0x1_0000_0000
    ensures Sendable([s]) && Emitted([s]) == []
  {
    var p := Period(s.values[0], s.startLevel);
    assert At(s, s.startLevel) == s;
    EntryAt(s, 0, 0);
    assert Entries(s, 0) == [p];
    assert Heard([s], 1) == [] + [p];
    RunsAppend([], p);
  }

  lemma OnePeriodPace(dma: nat -> nat, n: nat)
    requires n == 0
    ensures InPace(dma, n) && Transfers(dma, n) == 0
  {}

  method TransmitOnePeriod(sequence: DigitalSequence, s: Signal, last: nat) returns (clean: bool)
    requires sequence.Valid() && sequence.data == [0] && sequence.signals == map[0 := s]
    requires sequence.ring.Valid() && sequence.Idle()
    requires s.Ok() && |s.values| == 1 && s.values[0] < 0x1_0000_0000
    modifies sequence.ring, sequence.ring.data
    ensures clean <==> old(sequence.ring.marked) && 0 < last
    ensures sequence.ring.Valid() && sequence.Idle() && sequence.ring.marked
  {
    OnePeriodIsHeld(s);
    OnePeriodPace(k => 0, 0);
    ghost var played;
    clean, played := sequence.Play(k => 0, last, [s]);
  }

  /** On a new sequence the end marker is not in the ring until something is enqueued: a transmission that sends nothing
      waits for its timeout, however long that is, while the same transmission afterwards is clean. */
  method FirstTransmissionHangs(s: Signal, last: nat) returns (first: bool, second: bool)
    requires s.Ok() && |s.values| == 1 && s.values[0] < 0x1_0000_0000
    ensures !first && (second <==> 0 < last)
  {
    var sequence := new DigitalSequence(1);
    var _ := sequence.RegisterSignal(0, s);
    var _ := sequence.AddSignal(0);
    first := TransmitOnePeriod(sequence, s, last);
    second := TransmitOnePeriod(sequence, s, last);
  }

  // ---------- signals built by digital_signal_add_period ----------

  /** A signal object as the sequence reads it. */
  ghost function Finished(signal: DigitalSignal): Signal
    reads signal, signal.data
    requires signal.size <= signal.data.Length
  {
    Signal(signal.startLevel, signal.data[..signal.size], signal.remainder)
  }

  /** Every signal object that holds a period can be transmitted run by run. */
  lemma AddedSignalsAreBuilt(signal: DigitalSignal)
    requires signal.Valid() && signal.size > 0
    ensures Finished(signal).Ok() && Built(Finished(signal))
  {}
}

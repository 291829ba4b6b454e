/** The ring buffer of lib/digital_signal/digital_sequence.c that the timer DMA reads from. */
module TimerRings {

  /** DIGITAL_SEQUENCE_TIMER_MAX marks the end of the data. */
  const TIMER_MAX: nat := 0xFFFF_FFFF

  // The ring has 128 slots (DIGITAL_SEQUENCE_RING_BUFFER_SIZE) of which 2 are kept free.

  lemma SlotsDiffer(a: nat, b: nat)
    requires a < b < a + 128
    ensures a % 128 != b % 128
  {
    var wraps := b / 128 - a / 128;
    assert b - a == 128 * wraps + (b % 128 - a % 128);
  }

  lemma NextSlot(n: nat)
    ensures (n % 128 + 1) % 128 == (n + 1) % 128
  {}

  /** The free count of the source, in terms of how many values are unread. */
  lemma FreeSlots(written: nat, read: nat)
    requires read <= written <= read + 126
    ensures (128 + read % 128 - written % 128) % 128 == if read == written then 0 else 128 - (written - read)
  {
    var wraps := written / 128 - read / 128;
    assert written - read == 128 * wraps + (written % 128 - read % 128);
    assert wraps == 0 || wraps == 1;
  }

  class TimerRing {
    const data: array<nat>
    var writePos: nat
    var readPos: nat
    /** The DMA is running. */
    var active: bool

    // Bookkeeping of the model.

    /** No wait so far ended by timeout or underrun, and the DMA met nothing that was not enqueued. */
    var clean: bool
    /** Something has been written to the ring, so that it holds an end marker; before, it holds zeros. */
    var marked: bool
    /** Everything enqueued since the last reset, and how much of it the DMA has read. */
    var sent: seq<nat>
    ghost var played: seq<nat>

    ghost predicate Valid()
      reads this, data
    {
      && data.Length == 128 && writePos < 128 && readPos < 128
      && (clean ==> if marked then Fifo() else Blank())
    }

    /** Unread values lie between the read and write positions, in order, followed by the end marker. */
    ghost predicate Fifo()
      reads this, data
      requires data.Length == 128 && writePos < 128
    {
      && played <= sent && |sent| - |played| <= 126
      && writePos == |sent| % 128 && readPos == |played| % 128
      && (forall k :: |played| <= k < |sent| ==> data[k % 128] == sent[k])
      && data[writePos] == TIMER_MAX
      && (!active ==> played == [])
      && (forall k :: 0 <= k < |sent| ==> sent[k] < TIMER_MAX)
    }

    /** As allocated: zeros, and no end marker anywhere. */
    ghost predicate Blank()
      reads this, data
      requires data.Length == 128
    {
      && sent == played == [] && writePos == 0 && (!active ==> readPos == 0)
      && forall k :: 0 <= k < 128 ==> data[k] == 0
    }

    constructor ()
      ensures Valid() && clean && !marked && !active && sent == played == [] && fresh(data)
    {
      data := new nat[128](_ => 0);
      writePos, readPos, active, clean, marked := 0, 0, false, true, false;
      sent, played := [], [];
    }

    /** The DMA loads a value that is not the end marker into the timer. */
    method DmaRead() returns (value: nat)
      requires Valid() && clean && active && data[readPos] != TIMER_MAX
      modifies this`readPos, this`played
      ensures Valid()
      ensures marked ==> |old(played)| < |sent| && value == sent[|old(played)|] && played == old(played) + [value]
      ensures !marked ==> value == 0 && played == old(played)
    {
      NextSlot(|played|);
      value := data[readPos];
      if marked { played := played + [value]; }
      readPos := (readPos + 1) % 128;
    }

    /** The DMA makes up to `transfers` transfers; it stops at the end marker. */
    method DmaProgress(transfers: nat)
      requires Valid() && active
      modifies this`readPos, this`played
      ensures Valid() && old(played) <= played
      ensures if clean && marked
          then |played| == if |old(played)| + transfers <= |sent| then |old(played)| + transfers else |sent|
          else played == old(played)
    {
      var n: nat := transfers;
      while clean && n > 0 && data[readPos] != TIMER_MAX
        invariant Valid() && old(played) <= played
        invariant clean && marked ==> |played| <= |sent| && |played| + n == |old(played)| + transfers
        invariant !clean || !marked ==> played == old(played)
      {
        var _ := DmaRead();
        n := n - 1;
      }
      assert clean && marked && n > 0 ==> |played| == |sent|;
    }

    /** Free slots as the source computes them; an empty ring counts as having none. */
    function SizeFree(): nat
      reads this
      requires readPos < 128 && writePos < 128
    {
      (128 + readPos - writePos) % 128
    }

    /** digital_sequence_enqueue_period; while waiting, the DMA makes `transfers` transfers. */
    method EnqueuePeriod(length: nat, transfers: nat)
      requires Valid()
      requires !active ==> |sent| < 126
      requires length < TIMER_MAX
      modifies this, data
      ensures Valid() && marked && active == old(active) && sent == old(sent) + [length]
      ensures clean <==> old(clean) && (active ==> 1 <= |old(sent)| - |old(played)| - transfers <= 125)
      ensures old(played) <= played
      ensures clean ==> |played| == |old(played)| + if active then transfers else 0
    {
      if active {
        AwaitSpace(transfers);
      }
      Write(length);
    }

    /** The wait in digital_sequence_enqueue_period. */
    method AwaitSpace(transfers: nat)
      requires Valid() && active
      modifies this`readPos, this`played, this`clean
      ensures Valid() && old(played) <= played
      ensures clean <==> old(clean) && 1 <= |sent| - |old(played)| - transfers <= 125
      ensures clean ==> marked && |played| == |old(played)| + transfers
    {
      DmaProgress(transfers);
      if clean && marked { FreeSlots(|sent|, |played|); }
      if !marked || SizeFree() <= 2 {
        clean := false;
      }
    }

    /** Stores the value and the end marker behind it. */
    method Write(length: nat)
      requires Valid() && length < TIMER_MAX
      requires clean ==> |sent| - |played| < 126 && (!marked ==> !active)
      modifies this`writePos, this`sent, this`marked, data
      ensures Valid() && marked && sent == old(sent) + [length]
    {
      ghost var n, m := |sent|, |played|;
      NextSlot(n);
      SlotsDiffer(n, n + 1);
      forall k | m <= k < n && n - m < 126 ensures k % 128 != n % 128 && k % 128 != (n + 1) % 128 {
        SlotsDiffer(k, n);
        SlotsDiffer(k, n + 1);
      }
      data[writePos] := length;
      writePos := writePos + 1;
      writePos := writePos % 128;
      data[writePos] := TIMER_MAX;
      sent := sent + [length];
      marked := true;
    }

    /** digital_sequence_start_dma */
    method StartDma()
      requires Valid()
      modifies this`active
      ensures Valid() && active
    {
      active := true;
    }

    /** digital_sequence_finish: the wait ends when the end marker has been loaded, or by timeout, before which the DMA
        makes `transfers` transfers, the marker's included. Nothing is met in a ring that was never written to. */
    method Finish(transfers: nat)
      requires Valid()
      modifies this`readPos, this`played, this`clean
      ensures Valid()
      ensures clean <==> old(clean) && (active ==> marked && |sent| - |old(played)| < transfers)
      ensures clean && active ==> played == sent
      ensures old(clean) ==> old(played) <= played <= sent
    {
      if active && clean {
        var n: nat := transfers;
        while n > 0 && data[readPos] != TIMER_MAX
          invariant Valid() && clean && active && old(played) <= played <= sent && n <= transfers
          invariant marked ==> |played| + n == |old(played)| + transfers
        {
          var _ := DmaRead();
          n := n - 1;
        }
        assert n > 0 ==> marked && |played| == |sent|;
        if n == 0 {
          clean := false;
        }
      }
    }

    /** digital_sequence_timer_buffer_reset, with the DMA stopped before it. */
    method Reset()
      requires Valid()
      modifies this, data
      ensures Valid() && clean && marked && !active && sent == played == []
    {
      data[0] := TIMER_MAX;
      readPos := 0;
      writePos := 0;
      active, clean, marked := false, true, true;
      sent, played := [], [];
    }
  }
}

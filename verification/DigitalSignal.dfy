/** lib/digital_signal/digital_signal.c: periods appended to, or merged into, a fixed-size array. */
module DigitalSignals {
  import opened Waveform
  import opened WordSize

  class DigitalSignal {
    const data: array<nat>
    var startLevel: bool
    var size: nat
    var remainder: int

    /** The periods added so far. */
    ghost var log: seq<Period>

    ghost predicate Valid()
      reads this, data
    {
      size <= data.Length && Stores(log, startLevel, data[..size], remainder)
    }

    /** Every edge lies within half a timer tick of its exact time. */
    ghost predicate AccurateAtEdges()
      reads this, data
      requires size <= data.Length
    {
      Accurate(Runs(log), data[..size])
    }

    /** The signal is accurate exactly when every run, with the remainder carried into it, fits 32 bits; in
        particular when no run is shorter than half a tick or within half a tick of 2^32. */
    lemma AccurateIff()
      requires Valid()
      ensures AccurateAtEdges() <==> RunsFit(Runs(log))
      ensures RunsModerate(Runs(log)) ==> AccurateAtEdges()
    {
      AccurateIffRunsFit(Runs(log));
      if RunsModerate(Runs(log)) { ModerateRunsFit(Runs(log)); }
    }

    /** The duration converted when a period is added at a level: with the last run, if it has that level. */
    function Converted(ticks: nat, level: bool): int
      reads this, data
      requires size <= data.Length
    {
      if size > 0 && level == EndLevel(startLevel, size) then ticks + remainder + (data[size - 1] + 1) * 1562
      else ticks + remainder
    }

    /** Whether adding a period at a level passes the checks of the source: room for a new run, and at least two
        ticks. */
    predicate Accepts(ticks: nat, level: bool)
      reads this, data
      requires size <= data.Length
    {
      && ((size > 0 && level == EndLevel(startLevel, size)) || size < data.Length)
      && Reload(Wrapped(Converted(ticks, level))).0 > 1
    }

    /** The division into whole timer ticks, rounded to the nearest. */
    static method ToTicks(duration: nat) returns (reload: nat, left: int)
      ensures (reload, left) == Reload(duration)
    {
      reload := duration / 1562;
      left := duration - reload * 1562;
      if left >= 781 {
        reload := reload + 1;
        left := left - 1562;
      }
    }

    constructor (maxSize: nat)
      ensures Valid() && fresh(data) && data.Length == maxSize && log == [] && size == remainder == 0 && !startLevel
    {
      data := new nat[maxSize];
      startLevel, size, remainder := false, 0, 0;
      log := [];
    }

    /** digital_signal_set_start_level: the levels alternate from the start level, so all of them change with it. */
    method SetStartLevel(level: bool)
      requires Valid()
      modifies this`startLevel, this`log
      ensures Valid() && startLevel == level
      ensures log == if level == old(startLevel) then old(log) else Inverted(old(log))
    {
      if level != startLevel {
        InvertedRuns(log);
        log := Inverted(log);
      }
      startLevel := level;
    }

    /** digital_signal_add_period; the level is the opposite of the last one, or the start level.
        False stands for a failed furi_check, which stops the program. */
    method AddPeriod(ticks: nat) returns (ok: bool)
      requires Valid() && ticks < WRAP
      modifies this, data
      ensures Valid() && startLevel == old(startLevel)
      ensures ok <==> old(size) < data.Length && Reload(Wrapped(ticks + old(remainder))).0 > 1
      ensures log == if ok then old(log) + [Period(ticks, NextLevel(startLevel, old(size)))] else old(log)
      ensures size == if ok then old(size) + 1 else old(size)
    {
      if size >= data.Length {
        return false;
      }
      var reload, left := ToTicks(Wrapped(ticks + remainder));
      if reload <= 1 {
        return false;
      }
      ghost var values := data[..size];
      StoresAppended(log, startLevel, values, remainder, ticks, (reload, left));
      log := log + [Period(ticks, NextLevel(startLevel, size))];
      data[size] := reload - 1;
      assert data[..size + 1] == values + [reload - 1];
      size := size + 1;
      remainder := left;
      ok := true;
    }

    /** digital_signal_extend_last_period */
    method ExtendLastPeriod(ticks: nat) returns (ok: bool)
      requires Valid() && 0 < size && ticks < WRAP
      modifies this, data
      ensures Valid() && startLevel == old(startLevel) && size == old(size)
      ensures ok <==> Reload(Wrapped(ticks + old(remainder) + (old(data[size - 1]) + 1) * 1562)).0 > 1
      ensures log == if ok then old(log) + [Period(ticks, EndLevel(startLevel, size))] else old(log)
    {
      var reloadOld := data[size - 1] + 1;
      var reload, left := ToTicks(Wrapped(ticks + remainder + reloadOld * 1562));
      if reload <= 1 {
        return false;
      }
      ghost var values := data[..size];
      StoresExtended(log, startLevel, values, remainder, ticks, (reload, left));
      log := log + [Period(ticks, EndLevel(startLevel, size))];
      data[size - 1] := reload - 1;
      assert data[..size] == values[..size - 1] + [reload - 1];
      remainder := left;
      ok := true;
    }

    /** digital_signal_add_period_with_level: the stored signal is the run-length compression of all that was added,
        accurate at every edge exactly when every run fitted. */
    method AddPeriodWithLevel(ticks: nat, level: bool) returns (ok: bool)
      requires Valid() && ticks < WRAP
      modifies this, data
      ensures Valid()
      ensures ok <==> old(Accepts(ticks, level))
      ensures log == if ok then old(log) + [Period(ticks, level)] else old(log)
      ensures size == |Runs(log)| && (log != [] ==> startLevel == log[0].level)
      ensures AccurateAtEdges() <==> RunsFit(Runs(log))
      ensures RunsModerate(Runs(log)) ==> AccurateAtEdges()
    {
      if size == 0 {
        startLevel := level;
        ok := AddPeriod(ticks);
      } else {
        RunsAlternate(log);
        var endLevel := EndLevel(startLevel, size);
        if level != endLevel {
          ok := AddPeriod(ticks);
        } else {
          ok := ExtendLastPeriod(ticks);
        }
      }
      AccurateIff();
    }
  }

  /** A signal that ends 562 units late. */
  method FirstShortPeriod() returns (signal: DigitalSignal)
    ensures fresh(signal) && fresh(signal.data) && signal.Valid() && signal.data.Length == 2 && signal.size == 1
    ensures signal.log == [Period(4124, false)] && !signal.startLevel && signal.remainder == -562
  {
    signal := new DigitalSignal(2);
    ShortAccepted();
    var first := signal.AddPeriod(4124);
    ShortOwes(signal.log, signal.startLevel, signal.data[..signal.size], signal.remainder);
  }

  /** A period shorter than the remainder owed to the one before wraps around: it is accepted, stored as a very
      long one, and no edge after it is right. */
  method ShortPeriodWraps() returns (signal: DigitalSignal)
    ensures fresh(signal) && signal.Valid() && signal.log == [Period(4124, false), Period(0, true)]
    ensures signal.data.Length == 2 && signal.data[..] == [2, 2749658]
    ensures !signal.AccurateAtEdges()
  {
    signal := FirstShortPeriod();
    ShortAccepted();
    var second := signal.AddPeriod(0);
    ShortStored(signal.log, signal.startLevel, signal.data[..signal.size], signal.remainder);
    assert signal.data[..] == signal.data[..signal.size];
  }

  lemma ShortAccepted()
    ensures Reload(Wrapped(4124 + 0)).0 > 1 && Reload(Wrapped(0 + -562)).0 > 1
  {
    ConvertedShort();
  }

  lemma ShortOwes(log: seq<Period>, startLevel: bool, values: seq<nat>, remainder: int)
    requires Stores(log, startLevel, values, remainder) && log == [] + [Period(4124, false)]
    ensures remainder == -562 && log == [Period(4124, false)]
  {
    ShortPeriodRuns();
    ShortRunWraps();
  }

  lemma ShortStored(log: seq<Period>, startLevel: bool, values: seq<nat>, remainder: int)
    requires Stores(log, startLevel, values, remainder) && log == [Period(4124, false)] + [Period(0, true)]
    ensures log == [Period(4124, false), Period(0, true)] && values == [2, 2749658] && !Accurate(Runs(log), values)
  {
    ShortPeriodRuns();
    ShortRunWraps();
    AccurateIffRunsFit(Runs(log));
  }
}

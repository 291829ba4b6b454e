/** Waveforms as lists of periods, their run-length compression, and rounding to timer ticks. */
module Waveform {
  import opened WordSize

  /** A stretch of the output at one level, in units of 10 ps. */
  datatype Period = Period(ticks: nat, level: bool)

  // One timer tick, DIGITAL_SIGNAL_T_TIM, is 1562 of these units, and DIGITAL_SIGNAL_T_TIM_DIV2 is 781.

  function Xor(a: bool, b: bool): bool { a != b }

  function Sum(ns: seq<nat>): nat {
    if ns == [] then 0 else Sum(ns[..|ns| - 1]) + ns[|ns| - 1]
  }

  lemma {:induction false} SumConcat(a: seq<nat>, b: seq<nat>)
    ensures Sum(a + b) == Sum(a) + Sum(b)
  {
    if b == [] {
      assert a + b == a;
    } else {
      assert (a + b)[..|a + b| - 1] == a + b[..|b| - 1];
      SumConcat(a, b[..|b| - 1]);
    }
  }

  // ---------- run-length compression ----------

  /** The runs after a period of `v` ticks that joins the last run, or begins a new one. */
  function Grown(runs: seq<nat>, joins: bool, v: nat): (r: seq<nat>)
    requires joins ==> runs != []
    ensures r != []
  {
    if joins then runs[..|runs| - 1] + [runs[|runs| - 1] + v] else runs + [v]
  }

  predicate JoinsLast(log: seq<Period>, level: bool) {
    log != [] && log[|log| - 1].level == level
  }

  /** The durations of the maximal runs of equal level. */
  function Runs(log: seq<Period>): (r: seq<nat>)
    ensures log != [] ==> r != []
    ensures log == [] ==> r == []
  {
    if log == [] then []
    else
      var n := |log| - 1;
      var r := Runs(log[..n]);
      if n > 0 && log[n - 1].level == log[n].level then r[..|r| - 1] + [r[|r| - 1] + log[n].ticks]
      else r + [log[n].ticks]
  }

  /** The level of the last of `size` alternating runs, the first of which has level `start`. */
  function EndLevel(start: bool, size: nat): bool {
    Xor(start, size % 2 == 0)
  }

  lemma LastAside(a: seq<nat>, b: seq<nat>, last: nat)
    requires b != [] && |a| == |b| && a[..|b| - 1] == b[..|b| - 1] && a[|b| - 1] == last
    ensures a == b[..|b| - 1] + [last]
  {
    assert a == a[..|a| - 1] + [a[|a| - 1]];
  }

  lemma RunsJoined(log: seq<Period>, n: nat, r: seq<nat>)
    requires |log| == n + 1 && n > 0 && log[n - 1].level == log[n].level && r == Runs(log[..n])
    ensures r != [] && |Runs(log)| == |r| && Runs(log)[..|r| - 1] == r[..|r| - 1]
    ensures Runs(log)[|r| - 1] == r[|r| - 1] + log[n].ticks
  {}

  lemma RunsApart(log: seq<Period>, n: nat, r: seq<nat>)
    requires |log| == n + 1 && (n == 0 || log[n - 1].level != log[n].level) && r == Runs(log[..n])
    ensures Runs(log) == r + [log[n].ticks]
  {}

  lemma RunsStretched(log: seq<Period>, p: Period, s: seq<Period>)
    requires s == log + [p] && s[..|log|] == log && log != [] && s[|log| - 1].level == p.level
    ensures Runs(s) == Runs(log)[..|Runs(log)| - 1] + [Runs(log)[|Runs(log)| - 1] + p.ticks]
  {
    RunsJoined(s, |log|, Runs(log));
    LastAside(Runs(s), Runs(log), Runs(log)[|Runs(log)| - 1] + p.ticks);
  }

  lemma RunsAppend(log: seq<Period>, p: Period)
    ensures log != [] && log[|log| - 1].level == p.level ==>
      Runs(log + [p]) == Runs(log)[..|Runs(log)| - 1] + [Runs(log)[|Runs(log)| - 1] + p.ticks]
    ensures log == [] || log[|log| - 1].level != p.level ==> Runs(log + [p]) == Runs(log) + [p.ticks]
  {
    assert (log + [p])[..|log|] == log;
    if log != [] && log[|log| - 1].level == p.level {
      RunsStretched(log, p, log + [p]);
    } else {
      RunsApart(log + [p], |log|, Runs(log));
    }
  }

  lemma RunsGrow(log: seq<Period>, p: Period)
    ensures Runs(log + [p]) == Grown(Runs(log), JoinsLast(log, p.level), p.ticks)
  {
    RunsAppend(log, p);
  }

  lemma EndLevelFlips(start: bool, size: nat)
    ensures EndLevel(start, size + 1) == !EndLevel(start, size)
    ensures EndLevel(start, 1) == start
  {}

  lemma NextRunAlternates(log: seq<Period>, p: Period, start: bool)
    requires log != [] && EndLevel(start, |Runs(log)|) == log[|log| - 1].level
    ensures EndLevel(start, |Runs(log + [p])|) == p.level
  {
    RunsAppend(log, p);
    EndLevelFlips(start, |Runs(log)|);
  }

  /** Compressed runs alternate, so the last level follows from the first and the number of runs. */
  lemma {:induction false} RunsAlternate(log: seq<Period>)
    requires log != []
    ensures EndLevel(log[0].level, |Runs(log)|) == log[|log| - 1].level
  {
    var n := |log| - 1;
    assert log == log[..n] + [log[n]];
    if n > 0 {
      RunsAlternate(log[..n]);
      NextRunAlternates(log[..n], log[n], log[0].level);
    } else {
      RunsAppend([], log[0]);
    }
  }

  /** The level of the logged waveform at time `x`. */
  function LevelAt(log: seq<Period>, x: nat): bool
    requires x < Sum(Ticks(log))
  {
    var n := |log| - 1;
    if Sum(Ticks(log[..n])) <= x then log[n].level
    else LevelAt(log[..n], x)
  }

  function Ticks(log: seq<Period>): seq<nat> {
    seq(|log|, i requires 0 <= i < |log| => log[i].ticks)
  }

  /** The level at time `x` of alternating runs that begin with level `start`. */
  function RunLevelAt(start: bool, runs: seq<nat>, x: nat): bool
    requires x < Sum(runs)
  {
    var n := |runs| - 1;
    if Sum(runs[..n]) <= x then EndLevel(start, |runs|) else RunLevelAt(start, runs[..n], x)
  }

  lemma TicksInit(log: seq<Period>)
    requires log != []
    ensures Ticks(log)[..|log| - 1] == Ticks(log[..|log| - 1])
    ensures Sum(Ticks(log)) == Sum(Ticks(log[..|log| - 1])) + log[|log| - 1].ticks
  {
    assert Ticks(log)[..|log| - 1] == Ticks(log[..|log| - 1]);
  }

  /** Compression keeps the total duration. */
  lemma {:induction false} RunsKeepDuration(log: seq<Period>)
    ensures Sum(Runs(log)) == Sum(Ticks(log))
  {
    if log != [] {
      var n := |log| - 1;
      RunsKeepDuration(log[..n]);
      TicksInit(log);
      var r := Runs(log[..n]);
      if n > 0 && log[n - 1].level == log[n].level {
        assert Runs(log)[..|r| - 1] == r[..|r| - 1];
      } else {
        assert Runs(log)[..|r|] == r;
      }
    }
  }

  /** Compression keeps the waveform: at every time, the alternating runs give the logged level. */
  lemma {:induction false} RunsKeepWaveform(log: seq<Period>, x: nat)
    requires x < Sum(Ticks(log))
    ensures Sum(Runs(log)) == Sum(Ticks(log)) && RunLevelAt(log[0].level, Runs(log), x) == LevelAt(log, x)
  {
    var n := |log| - 1;
    assert log == log[..n] + [log[n]];
    RunsKeepDuration(log);
    if x < Sum(Ticks(log[..n])) {
      RunsKeepWaveform(log[..n], x);
      LevelBefore(log[..n], log[n], x);
    } else {
      LevelInLast(log, x);
    }
  }

  /** A period added at the end changes no level before it. */
  lemma LevelBefore(init: seq<Period>, p: Period, x: nat)
    requires x < Sum(Ticks(init)) == Sum(Runs(init))
    ensures x < Sum(Ticks(init + [p])) && LevelAt(init + [p], x) == LevelAt(init, x)
    ensures var r := Runs(init + [p]);
      x < Sum(r) && RunLevelAt(init[0].level, r, x) == RunLevelAt(init[0].level, Runs(init), x)
  {
    TicksInit(init + [p]);
    assert (init + [p])[..|init|] == init;
    RunsAppend(init, p);
    if init[|init| - 1].level == p.level {
      LastRunStretched(init[0].level, Runs(init), p.ticks, x);
    } else {
      NewRunAfter(init[0].level, Runs(init), p.ticks, x);
    }
  }

  lemma LastRunCovers(log: seq<Period>)
    requires log != []
    ensures Runs(log)[|Runs(log)| - 1] >= log[|log| - 1].ticks
  {
    assert log == log[..|log| - 1] + [log[|log| - 1]];
    RunsAppend(log[..|log| - 1], log[|log| - 1]);
  }

  lemma LevelInLast(log: seq<Period>, x: nat)
    requires log != [] && Sum(Ticks(log[..|log| - 1])) <= x < Sum(Ticks(log))
    ensures Sum(Runs(log)) == Sum(Ticks(log))
    ensures RunLevelAt(log[0].level, Runs(log), x) == LevelAt(log, x) == log[|log| - 1].level
  {
    TicksInit(log);
    RunsKeepDuration(log);
    LastRunCovers(log);
    RunsAlternate(log);
    LastRunReached(log[0].level, Runs(log), log[|log| - 1].ticks, x);
  }

  /** Making the last run longer changes no level before its old end. */
  lemma LastRunStretched(start: bool, r: seq<nat>, more: nat, x: nat)
    requires r != [] && x < Sum(r)
    ensures var s := r[..|r| - 1] + [r[|r| - 1] + more];
      x < Sum(s) && RunLevelAt(start, s, x) == RunLevelAt(start, r, x)
  {
    var s := r[..|r| - 1] + [r[|r| - 1] + more];
    assert s[..|s| - 1] == r[..|r| - 1];
  }

  /** A run added at the end changes no level before it. */
  lemma NewRunAfter(start: bool, r: seq<nat>, more: nat, x: nat)
    requires x < Sum(r)
    ensures x < Sum(r + [more]) && RunLevelAt(start, r + [more], x) == RunLevelAt(start, r, x)
  {
    assert (r + [more])[..|r|] == r;
  }

  /** Within the last `ticks` units the level is that of the last run. */
  lemma LastRunReached(start: bool, r: seq<nat>, ticks: nat, x: nat)
    requires r != [] && ticks <= r[|r| - 1] && Sum(r) - ticks <= x < Sum(r)
    ensures RunLevelAt(start, r, x) == EndLevel(start, |r|)
  {
    assert Sum(r) == Sum(r[..|r| - 1]) + r[|r| - 1];
  }

  // ---------- rounding ----------

  /** The nearest number of timer ticks, and what is left over. */
  function Reload(duration: nat): (r: (nat, int))
    ensures r.0 * 1562 + r.1 == duration
    ensures -781 <= r.1 < 781
  {
    var q := duration / 1562;
    var left := duration - q * 1562;
    if left >= 781 then (q + 1, left - 1562) else (q, left)
  }

  /** Unsigned 32-bit addition of a signed remainder. */
  function Wrapped(n: int): nat { n % WRAP }

  predicate Fits(duration: int) { 0 <= duration < WRAP }

  // ---------- accuracy of stored reload values ----------

  /** The durations that stored values stand for: a value v makes the timer run v + 1 ticks. */
  function Played(data: seq<int>): int {
    if data == [] then 0 else Played(data[..|data| - 1]) + (data[|data| - 1] + 1) * 1562
  }

  /** How far the played runs end from where they should. */
  function Drift(runs: seq<nat>, data: seq<int>): int {
    Sum(runs) - Played(data)
  }

  /** Every edge lies within half a timer tick of its exact time. */
  ghost predicate Accurate(runs: seq<nat>, data: seq<int>) {
    && |runs| == |data|
    && -781 <= Drift(runs, data) < 781
    && (runs != [] ==> Accurate(runs[..|runs| - 1], data[..|data| - 1]))
  }

  lemma {:induction false} AccurateAtEveryEdge(runs: seq<nat>, data: seq<int>, j: nat)
    requires Accurate(runs, data) && j <= |runs|
    ensures -781 <= Sum(runs[..j]) - Played(data[..j]) < 781
  {
    if j == |runs| {
      assert runs[..j] == runs && data[..j] == data;
    } else {
      var n := |runs| - 1;
      AccurateAtEveryEdge(runs[..n], data[..n], j);
      assert runs[..n][..j] == runs[..j] && data[..n][..j] == data[..j];
    }
  }

  // ---------- what is stored ----------

  /** What is stored for a list of runs: each run is converted together with the remainder of those before it,
      in 32-bit arithmetic. */
  function Stored(runs: seq<nat>): (r: (seq<int>, int))
    ensures |r.0| == |runs|
    ensures -781 <= r.1 < 781
  {
    if runs == [] then ([], 0) else Append(Stored(runs[..|runs| - 1]), runs[|runs| - 1])
  }

  /** The conversion of one run after the stored ones. */
  function Append(before: (seq<int>, int), run: nat): (r: (seq<int>, int))
    ensures |r.0| == |before.0| + 1
    ensures -781 <= r.1 < 781
  {
    var converted := Reload(Wrapped(run + before.1));
    (before.0 + [converted.0 - 1], converted.1)
  }

  /** Every run fits 32 bits together with the remainder carried into it. */
  predicate RunsFit(runs: seq<nat>) {
    runs == [] || (RunsFit(runs[..|runs| - 1]) && Fits(runs[|runs| - 1] + Stored(runs[..|runs| - 1]).1))
  }

  /** No run is shorter than half a tick, or so long that half a tick more leaves 32 bits. */
  predicate RunsModerate(runs: seq<nat>) {
    forall i :: 0 <= i < |runs| ==> 781 <= runs[i] <= WRAP - 781
  }

  lemma {:induction false} ModerateRunsFit(runs: seq<nat>)
    requires RunsModerate(runs)
    ensures RunsFit(runs)
  {
    if runs != [] { ModerateRunsFit(runs[..|runs| - 1]); }
  }

  /** Off by a multiple of 2^32 is outside half a tick. */
  lemma WrapShows(duration: int)
    ensures var r := Reload(Wrapped(duration)); -781 <= duration - r.0 * 1562 < 781 <==> Fits(duration)
    ensures Fits(duration) ==> duration - Reload(Wrapped(duration)).0 * 1562 == Reload(Wrapped(duration)).1
  {
    var wraps := duration / WRAP;
    assert duration == WRAP * wraps + Wrapped(duration);
  }

  /** A signal is accurate at every edge exactly when every run fits 32 bits together with the remainder carried
      into it; the remainder is then how far the last edge is off. */
  lemma {:induction false} AccurateIffRunsFit(runs: seq<nat>)
    ensures Accurate(runs, Stored(runs).0) <==> RunsFit(runs)
    ensures RunsFit(runs) ==> Drift(runs, Stored(runs).0) == Stored(runs).1
  {
    if runs != [] {
      var n := |runs| - 1;
      var before := Stored(runs[..n]);
      AccurateIffRunsFit(runs[..n]);
      WrapShows(runs[n] + before.1);
      assert Stored(runs).0[..n] == before.0;
    }
  }

  /** The level of a period added without one: the opposite of the last, or the start level. */
  function NextLevel(startLevel: bool, size: nat): bool {
    if size == 0 then startLevel else !EndLevel(startLevel, size)
  }

  lemma NextLevelDiffers(log: seq<Period>, startLevel: bool, size: nat)
    requires |Runs(log)| == size && (log != [] ==> startLevel == log[0].level)
    ensures if log == [] then NextLevel(startLevel, size) == startLevel
            else NextLevel(startLevel, size) != log[|log| - 1].level
  {
    if log != [] { RunsAlternate(log); }
  }

  /** A run added at the end is converted after all others. */
  lemma StoredAppended(runs: seq<nat>, ticks: nat)
    ensures Stored(runs + [ticks]) == Append(Stored(runs), ticks)
  {
    assert (runs + [ticks])[..|runs|] == runs;
  }

  /** Wrapping twice is wrapping once, so an extended run is converted as if it had been added whole. */
  lemma AppendExtended(before: (seq<int>, int), run: nat, ticks: nat, s: (seq<int>, int), r: (nat, int))
    requires s == Append(before, run) && r == Reload(Wrapped(ticks + s.1 + (s.0[|before.0|] + 1) * 1562))
    ensures Append(before, run + ticks) == (before.0 + [r.0 - 1], r.1)
  {
    assert ticks + s.1 + (s.0[|before.0|] + 1) * 1562 == ticks + Wrapped(run + before.1);
    WrappedSum(run + before.1, ticks);
  }

  lemma WrappedSum(a: int, b: int)
    ensures Wrapped(b + Wrapped(a)) == Wrapped(a + b)
  {}

  // ---------- the other start level ----------

  /** The same periods at the opposite levels. */
  function Inverted(log: seq<Period>): (r: seq<Period>)
    ensures |r| == |log|
  {
    seq(|log|, i requires 0 <= i < |log| => Period(log[i].ticks, !log[i].level))
  }

  /** Inverting a waveform keeps its runs. */
  lemma {:induction false} InvertedRuns(log: seq<Period>)
    ensures Runs(Inverted(log)) == Runs(log)
  {
    if log != [] {
      var before, p := log[..|log| - 1], log[|log| - 1];
      InvertedRuns(before);
      OppositeRuns(before, Inverted(before), p, Period(p.ticks, !p.level));
      assert log == before + [p];
      assert Inverted(log) == Inverted(before) + [Period(p.ticks, !p.level)];
    }
  }

  lemma OppositeRuns(a: seq<Period>, b: seq<Period>, p: Period, q: Period)
    requires |a| == |b| && Runs(a) == Runs(b) && p.ticks == q.ticks && JoinsLast(a, p.level) == JoinsLast(b, q.level)
    ensures Runs(a + [p]) == Runs(b + [q])
  {
    RunsGrow(a, p);
    RunsGrow(b, q);
  }

  lemma {:induction false} InvertedLevel(log: seq<Period>, x: nat)
    requires x < Sum(Ticks(log))
    ensures Ticks(Inverted(log)) == Ticks(log) && LevelAt(Inverted(log), x) == !LevelAt(log, x)
  {
    var n := |log| - 1;
    assert Ticks(Inverted(log)) == Ticks(log);
    assert Inverted(log)[..n] == Inverted(log[..n]) && Ticks(Inverted(log[..n])) == Ticks(log[..n]);
    assert Ticks(log)[..n] == Ticks(log[..n]);
    if x < Sum(Ticks(log[..n])) { InvertedLevel(log[..n], x); }
  }

  // ---------- what a stored signal stands for ----------

  /** Stored values and remainder are those of the runs of the log. */
  ghost predicate Stores(log: seq<Period>, startLevel: bool, values: seq<nat>, remainder: int) {
    && (log != [] ==> startLevel == log[0].level)
    && (values, remainder) == Stored(Runs(log))
    && forall i :: 0 <= i < |values| ==> 0 < values[i] < WRAP
  }

  lemma StoredNewRun(runs: seq<nat>, values: seq<nat>, remainder: int, ticks: nat, r: (nat, int))
    requires (values, remainder) == Stored(runs) && r == Reload(Wrapped(ticks + remainder))
    ensures Stored(runs + [ticks]) == (values + [r.0 - 1], r.1)
  {
    StoredAppended(runs, ticks);
  }

  lemma StoresNewRun(log: seq<Period>, log': seq<Period>, startLevel: bool, values: seq<nat>, remainder: int,
      ticks: nat, r: (nat, int))
    requires Stores(log, startLevel, values, remainder) && r == Reload(Wrapped(ticks + remainder)) && 1 < r.0 <= WRAP
    requires Runs(log') == Runs(log) + [ticks] && log' != [] && startLevel == log'[0].level
    ensures Stores(log', startLevel, values + [r.0 - 1], r.1)
  {
    StoredNewRun(Runs(log), values, remainder, ticks, r);
  }

  lemma StoresAppended(log: seq<Period>, startLevel: bool, values: seq<nat>, remainder: int, ticks: nat, r: (nat, int))
    requires Stores(log, startLevel, values, remainder) && r == Reload(Wrapped(ticks + remainder)) && r.0 > 1
    ensures Stores(log + [Period(ticks, NextLevel(startLevel, |values|))], startLevel, values + [r.0 - 1], r.1)
  {
    NextLevelDiffers(log, startLevel, |values|);
    RunsAppend(log, Period(ticks, NextLevel(startLevel, |values|)));
    assert r.0 <= WRAP;
    StoresNewRun(log, log + [Period(ticks, NextLevel(startLevel, |values|))], startLevel, values, remainder, ticks, r);
  }

  lemma StoresExtended(log: seq<Period>, startLevel: bool, values: seq<nat>, remainder: int, ticks: nat, r: (nat, int))
    requires values != [] && Stores(log, startLevel, values, remainder)
    requires r == Reload(Wrapped(ticks + remainder + (values[|values| - 1] + 1) * 1562)) && r.0 > 1
    ensures Stores(log + [Period(ticks, EndLevel(startLevel, |values|))], startLevel,
                   values[..|values| - 1] + [r.0 - 1], r.1)
  {
    RunsAlternate(log);
    RunsAppend(log, Period(ticks, EndLevel(startLevel, |values|)));
    var runs := Runs(log);
    var n := |runs| - 1;
    AppendExtended(Stored(runs[..n]), runs[n], ticks, (values, remainder), r);
    StoredAppended(runs[..n], runs[n] + ticks);
    assert values[..n] == Stored(runs[..n]).0;
  }

  /** A run shorter than the remainder owed to the one before wraps around. */
  lemma ShortRunWraps()
    ensures Stored([4124]) == ([2], -562) && Stored([4124, 0]) == ([2, 2749658], -624)
    ensures !RunsFit([4124, 0])
  {
    ConvertedShort();
    StoredAppended([], 4124);
    StoredAppended([4124], 0);
    assert [] + [4124] == [4124] && [4124] + [0] == [4124, 0] && [4124, 0][..1] == [4124];
  }

  lemma ConvertedShort()
    ensures Reload(Wrapped(4124 + 0)) == (3, -562) && Append(([], 0), 4124) == ([2], -562)
    ensures Reload(Wrapped(0 + -562)) == (2749659, -624) && Append(([2], -562), 0) == ([2, 2749658], -624)
  {
    assert Wrapped(0 + -562) == 4294966734;
    assert [] + [2] == [2] && [2] + [2749658] == [2, 2749658];
  }

  lemma ShortPeriodRuns()
    ensures Runs([Period(4124, false)]) == [4124] && Runs([Period(4124, false), Period(0, true)]) == [4124, 0]
  {
    RunsAppend([], Period(4124, false));
    RunsAppend([Period(4124, false)], Period(0, true));
    assert [] + [Period(4124, false)] == [Period(4124, false)] && [] + [4124] == [4124] && [4124] + [0] == [4124, 0];
    assert [Period(4124, false)] + [Period(0, true)] == [Period(4124, false), Period(0, true)];
  }
}

/** What a transmission sounds like, signal by signal: its output is each signal's own waveform, one after another. */
module Transmissions {
  import opened Waveform
  import opened Flattening

  /** The durations of one signal's alternating levels, the correction added to the first. */
  function Durations(s: Signal, correction: nat): seq<nat>
    requires s.values != []
  {
    [s.values[0] + correction] + s.values[1..]
  }

  /** When signal `j` begins. */
  function Begin(signals: seq<Signal>, j: nat): nat
    requires j <= |signals| && AllOk(signals)
  {
    if j == 0 then 0 else Begin(signals, j - 1) + Sum(Durations(signals[j - 1], Correction(signals, j - 1)))
  }

  // ---------- levels of concatenated logs ----------

  lemma TicksConcat(a: seq<Period>, b: seq<Period>)
    ensures Sum(Ticks(a + b)) == Sum(Ticks(a)) + Sum(Ticks(b))
  {
    assert Ticks(a + b) == Ticks(a) + Ticks(b);
    SumConcat(Ticks(a), Ticks(b));
  }

  lemma LevelOfInit(log: seq<Period>, x: nat)
    requires log != [] && x < Sum(Ticks(log))
    ensures LevelAt(log, x) == if Sum(Ticks(log[..|log| - 1])) <= x then log[|log| - 1].level
        else LevelAt(log[..|log| - 1], x)
  {}

  lemma {:induction false} LevelInFirst(a: seq<Period>, b: seq<Period>, x: nat)
    requires x < Sum(Ticks(a))
    ensures x < Sum(Ticks(a + b)) && LevelAt(a + b, x) == LevelAt(a, x)
  {
    TicksConcat(a, b);
    if b == [] {
      assert a + b == a;
    } else {
      var n := |b| - 1;
      assert (a + b)[..|a + b| - 1] == a + b[..n];
      TicksConcat(a, b[..n]);
      LevelInFirst(a, b[..n], x);
      LevelOfInit(a + b, x);
    }
  }

  lemma {:induction false} LevelInSecond(a: seq<Period>, b: seq<Period>, x: nat)
    requires x < Sum(Ticks(b))
    ensures Sum(Ticks(a)) + x < Sum(Ticks(a + b)) && LevelAt(a + b, Sum(Ticks(a)) + x) == LevelAt(b, x)
  {
    TicksConcat(a, b);
    var n := |b| - 1;
    assert (a + b)[..|a + b| - 1] == a + b[..n];
    TicksConcat(a, b[..n]);
    LevelOfInit(a + b, Sum(Ticks(a)) + x);
    LevelOfInit(b, x);
    if x < Sum(Ticks(b[..n])) { LevelInSecond(a, b[..n], x); }
  }

  /** Periods of alternating levels are the same waveform as their durations and the first level. */
  lemma {:induction false} AlternatingLevels(log: seq<Period>, start: bool, x: nat)
    requires x < Sum(Ticks(log)) && forall i :: 0 <= i < |log| ==> log[i].level == EndLevel(start, i + 1)
    ensures LevelAt(log, x) == RunLevelAt(start, Ticks(log), x)
  {
    var n := |log| - 1;
    TicksInit(log);
    LevelOfInit(log, x);
    if x < Sum(Ticks(log[..n])) { AlternatingLevels(log[..n], start, x); }
  }

  lemma EntriesLast(s: Signal, correction: nat)
    requires s.values != []
    ensures Ticks(Entries(s, correction)) == Durations(s, correction)
  {}

  lemma {:induction false} FlatLasts(signals: seq<Signal>, j: nat)
    requires AllOk(signals) && j <= |signals|
    ensures Sum(Ticks(Flat(signals, j))) == Begin(signals, j)
  {
    if j > 0 {
      FlatLasts(signals, j - 1);
      EntriesLast(signals[j - 1], Correction(signals, j - 1));
      TicksConcat(Flat(signals, j - 1), Entries(signals[j - 1], Correction(signals, j - 1)));
    }
  }

  lemma {:induction false} FlatContinues(signals: seq<Signal>, j: nat, n: nat) returns (rest: seq<Period>)
    requires j <= n <= |signals|
    ensures Flat(signals, n) == Flat(signals, j) + rest
    decreases n
  {
    if j == n {
      rest := [];
    } else {
      var most := FlatContinues(signals, j, n - 1);
      rest := most + Entries(signals[n - 1], Correction(signals, n - 1));
    }
  }

  /** Inside a log, a part of it keeps its waveform. */
  lemma LevelInPart(log: seq<Period>, a: seq<Period>, e: seq<Period>, rest: seq<Period>, time: nat, x: nat)
    requires log == (a + e) + rest && Sum(Ticks(a)) + x == time && x < Sum(Ticks(e))
    ensures time < Sum(Ticks(log)) && LevelAt(log, time) == LevelAt(e, x)
  {
    LevelInSecond(a, e, x);
    LevelInFirst(a + e, rest, time);
  }

  lemma EntriesLevels(s: Signal, correction: nat, x: nat)
    requires s.values != [] && x < Sum(Durations(s, correction))
    ensures x < Sum(Ticks(Entries(s, correction)))
    ensures LevelAt(Entries(s, correction), x) == RunLevelAt(s.startLevel, Durations(s, correction), x)
  {
    EntriesLast(s, correction);
    AlternatingLevels(Entries(s, correction), s.startLevel, x);
  }

  lemma FlatAround(signals: seq<Signal>, j: nat) returns (rest: seq<Period>)
    requires j < |signals|
    ensures Flat(signals, |signals|) == (Flat(signals, j) + Entries(signals[j], Correction(signals, j))) + rest
  {
    rest := FlatContinues(signals, j + 1, |signals|);
  }

  /** The intended waveform is, from the moment signal `j` begins, the waveform of that signal. */
  lemma SignalsInTurn(signals: seq<Signal>, j: nat, x: nat, time: nat)
    requires AllOk(signals) && j < |signals| && x < Sum(Durations(signals[j], Correction(signals, j)))
    requires time == Begin(signals, j) + x
    ensures time < Sum(Ticks(Flat(signals, |signals|))) == Begin(signals, |signals|)
    ensures LevelAt(Flat(signals, |signals|), time)
         == RunLevelAt(signals[j].startLevel, Durations(signals[j], Correction(signals, j)), x)
  {
    FlatLasts(signals, |signals|);
    FlatLasts(signals, j);
    EntriesLevels(signals[j], Correction(signals, j), x);
    var rest := FlatAround(signals, j);
    LevelInPart(Flat(signals, |signals|), Flat(signals, j), Entries(signals[j], Correction(signals, j)), rest, time, x);
  }

  /** The output, which starts at the first signal's level and changes after each value of the stream, has at every
      moment the level that the signal whose turn it is has then, up to the last run, which is held. */
  lemma OutputIsSignals(signals: seq<Signal>, j: nat, x: nat, time: nat)
    requires AllOk(signals) && j < |signals| && x < Sum(Durations(signals[j], Correction(signals, j)))
    requires time == Begin(signals, j) + x && time < Sum(Stream(signals))
    ensures RunLevelAt(signals[0].startLevel, Stream(signals), time)
         == RunLevelAt(signals[j].startLevel, Durations(signals[j], Correction(signals, j)), x)
  {
    SignalsInTurn(signals, j, x, time);
    OutputFollowsLevel(signals, time);
  }
}

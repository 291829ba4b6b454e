/** What flattening a list of signals into one stream of reload values means. */
module Flattening {
  import opened Lists
  import opened Waveform

  /** A finished signal as the sequence sees it. */
  datatype Signal = Signal(startLevel: bool, values: seq<nat>, remainder: int) {
    ghost predicate Ok() {
      values != [] && -781 <= remainder < 781
    }
  }

  ghost predicate AllOk(signals: seq<Signal>) {
    forall j :: 0 <= j < |signals| ==> signals[j].Ok()
  }

  // ---------- rounding error carried across signals ----------

  /** remainder_ticks after the first `j` signals. */
  function CarriedTicks(signals: seq<Signal>, j: nat): int
    requires j <= |signals|
  {
    if j == 0 then 0 else AfterBoundary(CarriedTicks(signals, j - 1) + signals[j - 1].remainder)
  }

  function AfterBoundary(ticks: int): int {
    if ticks >= 781 then ticks - 1562 else ticks
  }

  /** The one tick added to the first period of signal `j` when enough rounding error has gathered. */
  function Correction(signals: seq<Signal>, j: nat): nat
    requires j <= |signals|
  {
    if j > 0 && CarriedTicks(signals, j - 1) + signals[j - 1].remainder >= 781 then 1 else 0
  }

  function Corrections(signals: seq<Signal>, j: nat): nat
    requires j <= |signals|
  {
    if j == 0 then 0 else Corrections(signals, j - 1) + Correction(signals, j)
  }

  function Remainders(signals: seq<Signal>, j: nat): int
    requires j <= |signals|
  {
    if j == 0 then 0 else Remainders(signals, j - 1) + signals[j - 1].remainder
  }

  /** No rounding error is lost: what was not yet paid out in corrections is still carried, and never reaches
      half a tick upwards; it stays within 32 bits for as many signals as fit a sequence. */
  lemma {:induction false} RemaindersConserved(signals: seq<Signal>, j: nat)
    requires AllOk(signals) && j <= |signals|
    ensures CarriedTicks(signals, j) + 1562 * Corrections(signals, j) == Remainders(signals, j)
    ensures -781 * j <= CarriedTicks(signals, j) < 781
  {
    if j > 0 { RemaindersConserved(signals, j - 1); }
  }

  // ---------- the concatenated periods ----------

  /** The periods of one signal, the correction added to the first. */
  function Entries(s: Signal, correction: nat): (r: seq<Period>)
    ensures |r| == |s.values|
  {
    seq(|s.values|, i requires 0 <= i < |s.values| =>
      Period(s.values[i] + (if i == 0 then correction else 0), EndLevel(s.startLevel, i + 1)))
  }

  lemma EntryAt(s: Signal, correction: nat, i: nat)
    requires i < |s.values|
    ensures Entries(s, correction)[i] == Period(s.values[i] + (if i == 0 then correction
        else 0), EndLevel(s.startLevel, i + 1))
  {}

  /** The periods of the first `j` signals, one after another. */
  function Flat(signals: seq<Signal>, j: nat): seq<Period>
    requires j <= |signals|
  {
    if j == 0 then [] else Flat(signals, j - 1) + Entries(signals[j - 1], Correction(signals, j - 1))
  }

  /** The reload values of a transmission: one per maximal run of constant level, except the last run,
      whose level is held. */
  function Stream(signals: seq<Signal>): seq<nat> {
    var runs := Runs(Flat(signals, |signals|));
    if runs == [] then [] else runs[..|runs| - 1]
  }

  /** The alternating output, started at the first signal's level, follows the intended level throughout. */
  lemma OutputFollowsLevel(signals: seq<Signal>, x: nat)
    requires AllOk(signals) && signals != [] && x < Sum(Stream(signals))
    ensures x < Sum(Ticks(Flat(signals, |signals|)))
    ensures RunLevelAt(signals[0].startLevel, Stream(signals), x) == LevelAt(Flat(signals, |signals|), x)
  {
    var log := Flat(signals, |signals|);
    FlatStarts(signals, |signals|);
    RunsKeepDuration(log);
    assert Sum(Runs(log)) == Sum(Stream(signals)) + Runs(log)[|Runs(log)| - 1];
    RunsKeepWaveform(log, x);
  }

  lemma EntriesEnds(s: Signal, correction: nat)
    requires s.values != []
    ensures Entries(s, correction)[0].level == s.startLevel
    ensures Entries(s, correction)[|s.values| - 1].level == EndLevel(s.startLevel, |s.values|)
  {
    EntryAt(s, correction, 0);
    EntryAt(s, correction, |s.values| - 1);
    EndLevelFlips(s.startLevel, 0);
  }

  lemma {:induction false} FlatStarts(signals: seq<Signal>, j: nat)
    requires AllOk(signals) && 0 < j <= |signals|
    ensures Flat(signals, j) != [] && Flat(signals, j)[0].level == signals[0].startLevel
  {
    if j > 1 {
      FlatStarts(signals, j - 1);
    } else {
      EntriesEnds(signals[0], 0);
      assert Flat(signals, 1) == Flat(signals, 0) + Entries(signals[0], Correction(signals, 0));
    }
  }

  // ---------- the rounds of the inner loop ----------

  /** What the source carries to the next period: nothing inside a signal, the whole run across a boundary between
      equal levels, and a token 1 at the very end, which keeps the last run from being sent. `joint` says whether the
      next signal, if there is one, starts at the level this one ends with. */
  function CarryOver(size: nat, i: nat, joint: Option<bool>, reload: nat): nat {
    if i + 1 != size then 0
    else
      match joint
      case None => 1
      case Some(equal) => if equal then reload else 0
  }

  /** What has been sent, and what is carried to the next period. */
  datatype Progress = Progress(sent: seq<nat>, carry: nat)

  /** One round of the inner loop on the value of period `i`. */
  function After(p: Progress, size: nat, i: nat, joint: Option<bool>, value: nat): Progress {
    var reload := value + p.carry;
    var kept := CarryOver(size, i, joint, reload);
    Progress(if kept == 0 then p.sent + [reload] else p.sent, kept)
  }

  /** The runs after a whole signal: only its first period can join the run before it. */
  function WithSignal(runs: seq<nat>, joins: bool, values: seq<nat>, correction: nat): (r: seq<nat>)
    requires values != [] && (joins ==> runs != [])
    ensures r != [] && |r| == |runs| + |values| - if joins then 1 else 0
  {
    Grown(runs, joins, values[0] + correction) + values[1..]
  }

  /** The runs after the first `n` periods, `first` being those after the first one. */
  ghost predicate RunsAfter(log: seq<Period>, e: seq<Period>, first: seq<nat>, values: seq<nat>, n: nat) {
    0 < n <= |values| == |e| && Runs(log + e[..n]) == first + values[1..n]
  }

  /** Periods `e` of alternating levels with these durations, the first apart. */
  ghost predicate Alternates(e: seq<Period>, values: seq<nat>) {
    |e| == |values| && forall i :: 0 < i < |e| ==> e[i].ticks == values[i] && e[i].level != e[i - 1].level
  }

  lemma AppendRun(log: seq<Period>, p: Period, first: seq<nat>, more: seq<nat>)
    requires log != [] && log[|log| - 1].level != p.level && Runs(log) == first + more
    ensures Runs(log + [p]) == first + (more + [p.ticks])
  {
    RunsAppend(log, p);
    Regroup(first, more, [p.ticks]);
  }

  lemma NextRuns(log: seq<Period>, e: seq<Period>, first: seq<nat>, values: seq<nat>, n: nat)
    requires Alternates(e, values) && n < |values| && RunsAfter(log, e, first, values, n)
    ensures RunsAfter(log, e, first, values, n + 1)
  {
    AppendRun(log + e[..n], e[n], first, values[1..n]);
    assert log + e[..n + 1] == (log + e[..n]) + [e[n]];
    assert values[1..n + 1] == values[1..n] + [values[n]];
  }

  lemma {:induction false} AllRuns(log: seq<Period>, e: seq<Period>, first: seq<nat>, values: seq<nat>, n: nat)
    requires Alternates(e, values) && RunsAfter(log, e, first, values, n)
    ensures RunsAfter(log, e, first, values, |values|)
    decreases |values| - n
  {
    if n < |values| {
      NextRuns(log, e, first, values, n);
      AllRuns(log, e, first, values, n + 1);
    }
  }

  lemma AlternatingRuns(log: seq<Period>, e: seq<Period>, first: seq<nat>, values: seq<nat>)
    requires Alternates(e, values) && values != [] && Runs(log + [e[0]]) == first
    ensures Runs(log + e) == first + values[1..]
  {
    assert e[..1] == [e[0]] && first + values[1..1] == first;
    AllRuns(log, e, first, values, 1);
    assert e[..|values|] == e && values[1..|values|] == values[1..];
  }

  lemma SignalRuns(log: seq<Period>, s: Signal, correction: nat)
    requires s.values != []
    ensures Runs(log + Entries(s, correction)) ==
        WithSignal(Runs(log), JoinsLast(log, s.startLevel), s.values, correction)
  {
    var e := Entries(s, correction);
    EntriesAlternate(s, correction);
    RunsGrow(log, e[0]);
    AlternatingRuns(log, e, Grown(Runs(log), JoinsLast(log, s.startLevel), s.values[0] + correction), s.values);
  }

  lemma EntriesAlternate(s: Signal, correction: nat)
    requires s.values != []
    ensures Alternates(Entries(s, correction), s.values)
    ensures Entries(s, correction)[0] == Period(s.values[0] + correction, s.startLevel)
  {
    EntryAt(s, correction, 0);
    EndLevelFlips(s.startLevel, 0);
    forall i | 0 < i < |s.values|
      ensures Entries(s, correction)[i].ticks == s.values[i]
      ensures Entries(s, correction)[i].level != Entries(s, correction)[i - 1].level
    {
      EntryAt(s, correction, i - 1);
      EntryAt(s, correction, i);
      EndLevelFlips(s.startLevel, i);
    }
  }

  /** The progress before a signal: a run it joins is carried, all others have been sent. */
  function Before(runs: seq<nat>, joins: bool, correction: nat): Progress
    requires joins ==> runs != []
  {
    if joins then Progress(runs[..|runs| - 1], runs[|runs| - 1] + correction) else Progress(runs, correction)
  }

  /** The progress after a signal, whose last run is carried, sent, or held. */
  function AtEnd(runs: seq<nat>, joint: Option<bool>): Progress
    requires runs != []
  {
    match joint
    case None => Progress(runs[..|runs| - 1], 1)
    case Some(equal) => Before(runs, equal && runs[|runs| - 1] != 0, 0)
  }

  /** The progress before period `i` of a signal that begins with the runs `runs`, or after its last one. */
  function ProgressAt(runs: seq<nat>, joins: bool, values: seq<nat>, correction: nat, joint: Option<bool>,
      i: nat): Progress
    requires values != [] && i <= |values| && (joins ==> runs != [])
  {
    var all := WithSignal(runs, joins, values, correction);
    if i == 0 then Before(runs, joins, correction)
    else if i < |values| then Progress(all[..|all| - |values| + i], 0)
    else AtEnd(all, joint)
  }

  /** Every run but the last stays below the end marker 2^32 - 1, and the last, which is not sent, fits 32 bits. */
  ghost predicate Capped(runs: seq<nat>) {
    forall k :: 0 <= k < |runs| ==> if k < |runs| - 1 then runs[k] < 0xFFFF_FFFF else runs[k] <= 0xFFFF_FFFF
  }

  /** `runs` continues `part`: all runs of `part` but the last are there, and the last may have grown. */
  ghost predicate Continues(part: seq<nat>, runs: seq<nat>) {
    && |part| <= |runs|
    && (part != [] ==> part[..|part| - 1] == runs[..|part| - 1] && part[|part| - 1] <= runs[|part| - 1])
  }

  lemma ContinuesThrough(a: seq<nat>, b: seq<nat>, c: seq<nat>)
    requires Continues(a, b) && Continues(b, c)
    ensures Continues(a, c)
  {
    if a != [] {
      var n := |a| - 1;
      assert a[..n] == b[..n] == b[..|b| - 1][..n] == c[..n];
      if n < |b| - 1 { assert b[n] == b[..|b| - 1][n] == c[..|b| - 1][n]; }
    }
  }

  /** The runs of a transmission continue those of its beginning, by another one unless the last run is carried on. */
  ghost predicate Room(part: seq<nat>, joint: Option<bool>, runs: seq<nat>)
    requires part != []
  {
    && Capped(runs) && Continues(part, runs)
    && (joint.Some? && !(joint.value && part[|part| - 1] != 0) ==> |part| < |runs|)
  }

  /** The round on period `i` goes from `steps[i]` to `steps[i + 1]`, and its value fits: it is within 32 bits, and not
      the end marker when it is sent. */
  ghost predicate PeriodPlanned(values: seq<nat>, joint: Option<bool>, steps: seq<Progress>, i: nat) {
    i < |values| && i + 1 < |steps| ==>
      && steps[i + 1] == After(steps[i], |values|, i, joint, values[i])
      && values[i] + steps[i].carry <= 0xFFFF_FFFF
      && (steps[i + 1].carry == 0 ==> values[i] + steps[i].carry < 0xFFFF_FFFF)
  }

  ghost predicate SignalPlanned(values: seq<nat>, joint: Option<bool>, steps: seq<Progress>) {
    |steps| == |values| + 1 && forall i: nat :: PeriodPlanned(values, joint, steps, i)
  }

  /** The value that period `i` makes is its run. */
  lemma PeriodMakesRun(runs: seq<nat>, joins: bool, values: seq<nat>, correction: nat, joint: Option<bool>, i: nat)
    requires i < |values| && (joins ==> runs != [])
    ensures var all, p := WithSignal(runs, joins, values, correction),
        ProgressAt(runs, joins, values, correction, joint, i);
      var k := |all| - |values| + i;
      values[i] + p.carry == all[k] && p.sent == all[..k]
  {
    var all := WithSignal(runs, joins, values, correction);
    var first := Grown(runs, joins, values[0] + correction);
    assert |all| - |values| == |first| - 1;
    if i == 0 {
      assert all[..|first| - 1] == first[..|first| - 1];
    } else {
      assert all[|first| - 1 + i] == values[1..][i - 1];
    }
  }

  /** One round of the inner loop, wherever it is in the signal. */
  lemma PeriodStep(runs: seq<nat>, joins: bool, values: seq<nat>, correction: nat, joint: Option<bool>, i: nat,
      total: seq<nat>)
    requires i < |values| && (joins ==> runs != [])
    requires Room(WithSignal(runs, joins, values, correction), joint, total)
    ensures var p := ProgressAt(runs, joins, values, correction, joint, i);
      var next := ProgressAt(runs, joins, values, correction, joint, i + 1);
      && next == After(p, |values|, i, joint, values[i])
      && values[i] + p.carry <= 0xFFFF_FFFF && (next.carry == 0 ==> values[i] + p.carry < 0xFFFF_FFFF)
  {
    var all := WithSignal(runs, joins, values, correction);
    PeriodMakesRun(runs, joins, values, correction, joint, i);
    RunHandled(all, |values|, i, joint, ProgressAt(runs, joins, values, correction, joint, i), values[i], total);
  }

  /** A round whose value is a run of `all` sends it, or, at the end, carries or holds it. */
  lemma RunHandled(all: seq<nat>, n: nat, i: nat, joint: Option<bool>, p: Progress, value: nat, total: seq<nat>)
    requires i < n <= |all| + 1 && |all| - n + i >= 0 && Room(all, joint, total)
    requires var k := |all| - n + i; value + p.carry == all[k] && p.sent == all[..k]
    ensures var next := After(p, n, i, joint, value);
      && next == (if i + 1 < n then Progress(all[..|all| - n + (i + 1)], 0) else AtEnd(all, joint))
      && value + p.carry <= 0xFFFF_FFFF && (next.carry == 0 ==> value + p.carry < 0xFFFF_FFFF)
  {
    var k := |all| - n + i;
    RunFits(all, joint, total, k);
    assert all[..k] + [all[k]] == all[..k + 1];
    if i + 1 == n { assert all[..k + 1] == all; }
  }

  lemma RunFits(part: seq<nat>, joint: Option<bool>, runs: seq<nat>, k: nat)
    requires k < |part| && Room(part, joint, runs)
    ensures part[k] <= 0xFFFF_FFFF
    ensures k < |part| - 1 || (joint.Some? && !(joint.value && part[k] != 0)) ==> part[k] < 0xFFFF_FFFF
  {
    if k < |part| - 1 { assert part[k] == part[..|part| - 1][k] == runs[..|part| - 1][k]; }
  }

  /** All rounds of a signal. */
  lemma PlanSignal(runs: seq<nat>, joins: bool, values: seq<nat>, correction: nat, joint: Option<bool>, total: seq<nat>)
    returns (steps: seq<Progress>)
    requires values != [] && (joins ==> runs != []) && Room(WithSignal(runs, joins, values, correction), joint, total)
    ensures SignalPlanned(values, joint, steps) && steps[0] == Before(runs, joins, correction)
    ensures steps[|values|] == AtEnd(WithSignal(runs, joins, values, correction), joint)
  {
    steps := seq(|values| + 1, i requires 0 <= i <= |values| => ProgressAt(runs, joins, values, correction, joint, i));
    forall i: nat ensures PeriodPlanned(values, joint, steps, i) {
      if i < |values| { PeriodStep(runs, joins, values, correction, joint, i, total); }
    }
  }

  // ---------- what is really emitted ----------

  /** The level the output has after `log`, when the next signal starts at the level the last one ended with or not.
      A carry of zero is taken for no carry, so a run of length zero is not joined with what follows. */
  function LevelAfter(log: seq<Period>, equal: bool): bool
    requires log != []
  {
    var last := log[|log| - 1].level;
    if equal && Runs(log)[|Runs(log)| - 1] != 0 then last else !last
  }

  predicate Meets(signals: seq<Signal>, j: nat)
    requires 0 < j < |signals|
  {
    EndLevel(signals[j - 1].startLevel, |signals[j - 1].values|) == signals[j].startLevel
  }

  /** The level at which signal `j` is put out. */
  function HeardStart(log: seq<Period>, signals: seq<Signal>, j: nat): bool
    requires j < |signals| && (j > 0 ==> log != [])
  {
    if j == 0 then signals[0].startLevel else LevelAfter(log, Meets(signals, j))
  }

  function At(s: Signal, level: bool): Signal { s.(startLevel := level) }

  /** The periods of the first `j` signals at the levels that are put out. */
  function Heard(signals: seq<Signal>, j: nat): (log: seq<Period>)
    requires j <= |signals| && AllOk(signals)
    ensures j > 0 ==> log != []
  {
    if j == 0 then []
    else
      var log := Heard(signals, j - 1);
      log + Entries(At(signals[j - 1], HeardStart(log, signals, j - 1)), Correction(signals, j - 1))
  }

  /** The reload values that are sent. */
  function Emitted(signals: seq<Signal>): seq<nat>
    requires AllOk(signals)
  {
    var runs := Runs(Heard(signals, |signals|));
    if runs == [] then [] else runs[..|runs| - 1]
  }

  /** Wherever one signal ends at the level the next one starts with, the run that ends there is longer than zero. */
  ghost predicate JoinedRunsLast(signals: seq<Signal>)
    requires AllOk(signals)
  {
    forall j :: 0 < j < |signals| ==> RunLasts(signals, j)
  }

  ghost predicate RunLasts(signals: seq<Signal>, j: nat)
    requires AllOk(signals) && 0 < j < |signals|
  {
    Meets(signals, j) && Flat(signals, j) != [] ==> Runs(Flat(signals, j))[|Runs(Flat(signals, j))| - 1] != 0
  }

  lemma FlatEnds(signals: seq<Signal>, j: nat)
    requires AllOk(signals) && 0 < j <= |signals|
    ensures Flat(signals, j) != []
    ensures var log, s := Flat(signals, j), signals[j - 1]; log[|log| - 1].level == EndLevel(s.startLevel, |s.values|)
  {
    EntriesEnds(signals[j - 1], Correction(signals, j - 1));
  }

  ghost predicate AsMeant(signals: seq<Signal>, j: nat)
    requires AllOk(signals) && j <= |signals|
  {
    Heard(signals, j) == Flat(signals, j)
  }

  lemma FirstAsMeant(signals: seq<Signal>)
    requires AllOk(signals) && signals != []
    ensures AsMeant(signals, 1)
  {
    assert At(signals[0], signals[0].startLevel) == signals[0];
    assert Heard(signals, 1) == Heard(signals, 0) + Entries(signals[0], Correction(signals, 0));
  }

  lemma NextAsMeant(signals: seq<Signal>, j: nat)
    requires AllOk(signals) && 0 < j < |signals| && AsMeant(signals, j) && RunLasts(signals, j)
    ensures AsMeant(signals, j + 1)
  {
    FlatEnds(signals, j);
    assert HeardStart(Heard(signals, j), signals, j) == signals[j].startLevel;
    assert At(signals[j], signals[j].startLevel) == signals[j];
  }

  /** The output is as meant up to the first run of length zero that meets its own level. */
  lemma {:induction false} AsMeantUpTo(signals: seq<Signal>, j: nat)
    requires AllOk(signals) && 0 < j <= |signals| && forall k :: 0 < k < j ==> RunLasts(signals, k)
    ensures AsMeant(signals, j)
  {
    if j == 1 {
      FirstAsMeant(signals);
    } else {
      AsMeantUpTo(signals, j - 1);
      NextAsMeant(signals, j - 1);
    }
  }

  lemma {:induction false} FirstShortRun(signals: seq<Signal>, j: nat) returns (i: nat)
    requires AllOk(signals) && 0 < j < |signals| && !RunLasts(signals, j)
    ensures 0 < i <= j && !RunLasts(signals, i) && forall k :: 0 < k < i ==> RunLasts(signals, k)
  {
    if k :| 0 < k < j && !RunLasts(signals, k) {
      i := FirstShortRun(signals, k);
    } else {
      i := j;
    }
  }

  /** Whether signal `j` joins the run before it in the output. */
  predicate Joins(signals: seq<Signal>, j: nat)
    requires AllOk(signals) && j < |signals|
  {
    j > 0 && Meets(signals, j) && Runs(Heard(signals, j))[|Runs(Heard(signals, j))| - 1] != 0
  }

  lemma HeardRuns(signals: seq<Signal>, j: nat)
    requires AllOk(signals) && j < |signals|
    ensures Joins(signals, j) ==> Runs(Heard(signals, j)) != []
    ensures Runs(Heard(signals, j + 1))
         == WithSignal(Runs(Heard(signals, j)), Joins(signals, j), signals[j].values, Correction(signals, j))
  {
    var log := Heard(signals, j);
    SignalRuns(log, At(signals[j], HeardStart(log, signals, j)), Correction(signals, j));
  }

  lemma FlatRuns(signals: seq<Signal>, j: nat)
    requires AllOk(signals) && 0 < j < |signals|
    ensures |Runs(Flat(signals, j + 1))| == |Runs(Flat(signals, j))| + |signals[j].values| - if Meets(signals, j) then
        1 else 0
  {
    FlatEnds(signals, j);
    SignalRuns(Flat(signals, j), signals[j], Correction(signals, j));
  }

  /** The output never falls behind the intended number of runs. */
  lemma NoFewerRuns(signals: seq<Signal>, j: nat)
    requires AllOk(signals) && 0 < j < |signals|
    ensures |Runs(Heard(signals, j + 1))| - |Runs(Flat(signals, j + 1))| >= |Runs(Heard(signals,
        j))| - |Runs(Flat(signals, j))|
  {
    HeardRuns(signals, j);
    FlatRuns(signals, j);
  }

  lemma HeardNext(signals: seq<Signal>, j: nat)
    requires AllOk(signals) && j < |signals|
    ensures Continues(Runs(Heard(signals, j)), Runs(Heard(signals, j + 1)))
  {
    HeardRuns(signals, j);
  }

  ghost predicate Links(all: seq<seq<nat>>, i: nat) {
    i + 1 < |all| ==> Continues(all[i], all[i + 1])
  }

  lemma {:induction false} ContinuesChain(all: seq<seq<nat>>, j: nat)
    requires j < |all| && forall i: nat :: Links(all, i)
    ensures Continues(all[j], all[|all| - 1])
    decreases |all| - j
  {
    if j + 1 < |all| {
      ContinuesChain(all, j + 1);
      assert Links(all, j);
      ContinuesThrough(all[j], all[j + 1], all[|all| - 1]);
    }
  }

  /** The runs of a whole transmission continue those of its first signals. */
  lemma HeardContinues(signals: seq<Signal>, j: nat)
    requires AllOk(signals) && j <= |signals|
    ensures Continues(Runs(Heard(signals, j)), Runs(Heard(signals, |signals|)))
  {
    var all := seq(|signals| + 1, i requires 0 <= i <= |signals| && AllOk(signals) => Runs(Heard(signals, i)));
    forall i: nat ensures Links(all, i) {
      if i < |signals| { HeardNext(signals, i); }
    }
    ContinuesChain(all, j);
  }

  function JointAfter(signals: seq<Signal>, j: nat): Option<bool>
    requires j < |signals|
  {
    if j + 1 < |signals| then Some(Meets(signals, j + 1)) else None
  }

  lemma HeardRoom(signals: seq<Signal>, j: nat)
    requires AllOk(signals) && j < |signals| && Capped(Runs(Heard(signals, |signals|)))
    ensures Room(Runs(Heard(signals, j + 1)), JointAfter(signals, j), Runs(Heard(signals, |signals|)))
  {
    HeardContinues(signals, j + 1);
    if j + 1 < |signals| {
      HeardRuns(signals, j + 1);
      HeardContinues(signals, j + 2);
    }
  }

  ghost predicate MoreHeard(signals: seq<Signal>, j: nat)
    requires AllOk(signals) && j <= |signals|
  {
    |Runs(Heard(signals, j))| > |Runs(Flat(signals, j))|
  }

  /** The first run of length zero that meets its own level is one run too many. */
  lemma FirstSplit(signals: seq<Signal>, m: nat)
    requires AllOk(signals) && 0 < m < |signals|
    requires AsMeant(signals, m) && !RunLasts(signals, m)
    ensures MoreHeard(signals, m + 1)
  {
    HeardRuns(signals, m);
    FlatRuns(signals, m);
  }

  lemma {:induction false} TooManyRuns(signals: seq<Signal>, j: nat)
    requires AllOk(signals) && 0 < j <= |signals|
    requires MoreHeard(signals, j)
    ensures MoreHeard(signals, |signals|)
    decreases |signals| - j
  {
    if j < |signals| {
      NoFewerRuns(signals, j);
      TooManyRuns(signals, j + 1);
    }
  }

  /** What is sent is one value per maximal run of constant level, exactly when no run of length zero meets a signal
      that starts at its level. */
  lemma EmittedIsStreamIff(signals: seq<Signal>)
    requires AllOk(signals) && signals != []
    ensures Emitted(signals) == Stream(signals) <==> JoinedRunsLast(signals)
  {
    if JoinedRunsLast(signals) {
      AsMeantUpTo(signals, |signals|);
    } else {
      var j :| 0 < j < |signals| && !RunLasts(signals, j);
      MoreEmitted(signals, j);
    }
  }

  lemma MoreEmitted(signals: seq<Signal>, j: nat)
    requires AllOk(signals) && 0 < j < |signals| && !RunLasts(signals, j)
    ensures |Emitted(signals)| > |Stream(signals)|
  {
    var i := FirstShortRun(signals, j);
    AsMeantUpTo(signals, i);
    OneMoreRun(signals, i);
    LastHeld(signals);
  }

  lemma OneMoreRun(signals: seq<Signal>, i: nat)
    requires AllOk(signals) && 0 < i < |signals| && !RunLasts(signals, i)
    requires AsMeant(signals, i)
    ensures MoreHeard(signals, |signals|)
  {
    FirstSplit(signals, i);
    TooManyRuns(signals, i + 1);
  }

  lemma LastHeld(signals: seq<Signal>)
    requires AllOk(signals) && signals != []
    ensures |Emitted(signals)| == |Runs(Heard(signals, |signals|))| - 1
    ensures |Stream(signals)| == |Runs(Flat(signals, |signals|))| - 1
  {
    FlatEnds(signals, |signals|);
  }

  /** A signal as digital_signal_add_period builds it: every stored value is at least 1. */
  predicate Built(s: Signal) {
    forall i :: 0 <= i < |s.values| ==> 0 < s.values[i]
  }

  predicate AllBuilt(signals: seq<Signal>) {
    forall j :: 0 <= j < |signals| ==> Built(signals[j])
  }

  lemma WhatIsEmitted(signals: seq<Signal>)
    requires AllOk(signals) && signals != []
    ensures Emitted(signals) == Stream(signals) <==> JoinedRunsLast(signals)
    ensures AllBuilt(signals) ==> Emitted(signals) == Stream(signals)
  {
    EmittedIsStreamIff(signals);
    if AllBuilt(signals) { BuiltSignalsLast(signals); }
  }

  /** Signals built by adding periods have no run of length zero, so they are always sent run by run. */
  lemma BuiltSignalsLast(signals: seq<Signal>)
    requires AllOk(signals) && AllBuilt(signals)
    ensures JoinedRunsLast(signals)
  {
    forall j | 0 < j < |signals| ensures RunLasts(signals, j) {
      LastRunIsLong(Flat(signals, j - 1), signals[j - 1], Correction(signals, j - 1));
    }
  }

  lemma LastRunIsLong(log: seq<Period>, s: Signal, correction: nat)
    requires s.values != [] && Built(s)
    ensures var r := Runs(log + Entries(s, correction)); r != [] && r[|r| - 1] > 0
  {
    var e, n := Entries(s, correction), |s.values| - 1;
    EntryAt(s, correction, n);
    assert log + e == (log + e[..n]) + [e[n]];
    RunsAppend(log + e[..n], e[n]);
  }

  /** A stored value of zero, which no signal built by adding periods has: two such signals at one level are a single
      run, which should be held, but the first is sent on its own. */
  lemma ZeroRunIsSplit(s: Signal)
    requires s == Signal(true, [0], 0)
    ensures Stream([s, s]) == [] && Emitted([s, s]) == [0]
  {
    FlatTwice(s);
    HeardTwice(s);
  }

  lemma FlatTwice(s: Signal)
    requires s == Signal(true, [0], 0)
    ensures Runs(Flat([s, s], 2)) == [0]
  {
    var e := Period(0, true);
    EntryAt(s, 0, 0);
    assert Entries(s, 0) == [e];
    assert Flat([s, s], 1) == [] + [e];
    RunsAppend([], e);
    RunsAppend([] + [e], e);
  }

  lemma HeardTwice(s: Signal)
    requires s == Signal(true, [0], 0)
    ensures Runs(Heard([s, s], 2)) == [0, 0]
  {
    var e, e' := Period(0, true), Period(0, false);
    EntryAt(At(s, true), 0, 0);
    EntryAt(At(s, false), 0, 0);
    assert Entries(At(s, true), 0) == [e] && Entries(At(s, false), 0) == [e'];
    assert Heard([s, s], 1) == [] + [e];
    RunsAppend([], e);
    RunsAppend([] + [e], e');
  }

  // ---------- the whole transmission ----------

  /** The rounds of one signal, and the rounding error carried before it. */
  datatype Plan = Plan(steps: seq<Progress>, ticks: int)

  ghost predicate FollowsOn(signals: seq<Signal>, plan: seq<Plan>, n: nat) {
    n < |plan| && n < |signals| ==>
      && signals[n].values != [] && SignalPlanned(signals[n].values, JointAfter(signals, n), plan[n].steps)
      && -0x8000_0000 <= plan[n].ticks + signals[n].remainder < 0x8000_0000
      && (n + 1 < |plan| ==>
            var last, ticks := plan[n].steps[|signals[n].values|], plan[n].ticks + signals[n].remainder;
            && plan[n + 1].ticks == AfterBoundary(ticks)
            && |plan[n + 1].steps| > 0
            && plan[n + 1].steps[0] == Progress(last.sent, last.carry + if ticks >= 781 then 1 else 0))
  }

  /** The rounds of a whole transmission. */
  ghost predicate Planned(signals: seq<Signal>, plan: seq<Plan>) {
    && |plan| == |signals| > 0 && plan[0].ticks == 0
    && |plan[0].steps| > 0 && plan[0].steps[0] == Progress([], 0)
    && forall n: nat :: FollowsOn(signals, plan, n)
  }

  ghost predicate Sendable(signals: seq<Signal>) {
    AllOk(signals) && |signals| * 781 <= 0x8000_0000 && Capped(Runs(Heard(signals, |signals|)))
  }

  /** The state of a transmission before signal `n` of the list. */
  ghost predicate AtSignal(signals: seq<Signal>, n: nat, p: Progress, ticks: int)
    requires AllOk(signals)
  {
    && n < |signals| && ticks == CarriedTicks(signals, n)
    && (Joins(signals, n) ==> Runs(Heard(signals, n)) != [])
    && p == Before(Runs(Heard(signals, n)), Joins(signals, n), Correction(signals, n))
  }

  lemma AtFirstSignal(signals: seq<Signal>)
    requires signals != [] && AllOk(signals)
    ensures AtSignal(signals, 0, Progress([], 0), 0)
  {}

  /** The rounds of signal `n`, from the state before it to the state after its last period. */
  lemma PlanOne(signals: seq<Signal>, n: nat, p: Progress, ticks: int) returns (steps: seq<Progress>)
    requires Sendable(signals) && AtSignal(signals, n, p, ticks)
    ensures SignalPlanned(signals[n].values, JointAfter(signals, n), steps) && steps[0] == p
    ensures steps[|signals[n].values|] == AtEnd(Runs(Heard(signals, n + 1)), JointAfter(signals, n))
  {
    HeardRuns(signals, n);
    HeardRoom(signals, n);
    steps := PlanSignal(Runs(Heard(signals, n)), Joins(signals, n), signals[n].values, Correction(signals, n),
                        JointAfter(signals, n), Runs(Heard(signals, |signals|)));
  }

  lemma NextSignal(signals: seq<Signal>, n: nat, last: Progress, ticks: int)
    requires Sendable(signals) && n < |signals| && ticks == CarriedTicks(signals, n) + signals[n].remainder
    requires last == AtEnd(Runs(Heard(signals, n + 1)), JointAfter(signals, n))
    ensures -0x8000_0000 <= ticks < 0x8000_0000
    ensures n + 1 < |signals| ==>
      AtSignal(signals, n + 1, Progress(last.sent, last.carry + if ticks >= 781 then 1 else 0), AfterBoundary(ticks))
  {
    RemaindersConserved(signals, n);
    RemaindersConserved(signals, n + 1);
  }

  /** `plan` covers the first signals, and this is the state after the last of them. */
  ghost predicate PlannedSoFar(signals: seq<Signal>, plan: seq<Plan>)
    requires AllOk(signals)
  {
    && 0 < |plan| <= |signals| && plan[0].ticks == 0
    && |plan[0].steps| > 0 && plan[0].steps[0] == Progress([], 0)
    && forall k: nat :: FollowsOn(signals, plan, k)
  }

  ghost predicate AfterPlan(signals: seq<Signal>, plan: seq<Plan>)
    requires AllOk(signals) && 0 < |plan| <= |signals|
  {
    var n := |plan| - 1;
    && |plan[n].steps| == |signals[n].values| + 1 && plan[n].ticks == CarriedTicks(signals, n)
    && plan[n].steps[|signals[n].values|] == AtEnd(Runs(Heard(signals, n + 1)), JointAfter(signals, n))
  }

  lemma FirstPlan(signals: seq<Signal>, steps: seq<Progress>)
    requires Sendable(signals) && signals != [] && SignalPlanned(signals[0].values, JointAfter(signals, 0), steps)
    requires steps[0] == Progress([], 0)
    ensures PlannedSoFar(signals, [Plan(steps, 0)])
  {
    forall k: nat ensures FollowsOn(signals, [Plan(steps, 0)], k) {}
  }

  /** `next` are the rounds of the signal after signal `n`, which ended with `last` and these remainder ticks. */
  ghost predicate PlannedNext(signals: seq<Signal>, n: nat, last: Progress, ticks: int, next: Plan)
    requires AllOk(signals) && n + 1 < |signals|
  {
    && next.ticks == AfterBoundary(ticks) && next.ticks == CarriedTicks(signals, n + 1)
    && SignalPlanned(signals[n + 1].values, JointAfter(signals, n + 1), next.steps)
    && next.steps[0] == Progress(last.sent, last.carry + if ticks >= 781 then 1 else 0)
    && next.steps[|signals[n + 1].values|] == AtEnd(Runs(Heard(signals, n + 2)), JointAfter(signals, n + 1))
  }

  lemma FollowOne(signals: seq<Signal>, n: nat, last: Progress, ticks: int) returns (next: Plan)
    requires Sendable(signals) && n + 1 < |signals| && ticks == CarriedTicks(signals, n) + signals[n].remainder
    requires last == AtEnd(Runs(Heard(signals, n + 1)), JointAfter(signals, n))
    ensures PlannedNext(signals, n, last, ticks, next)
  {
    NextSignal(signals, n, last, ticks);
    var steps := PlanOne(signals, n + 1, Progress(last.sent, last.carry + if ticks >= 781 then 1
        else 0), AfterBoundary(ticks));
    next := Plan(steps, AfterBoundary(ticks));
  }

  lemma PlanNext(signals: seq<Signal>, plan: seq<Plan>) returns (next: Plan)
    requires Sendable(signals) && PlannedSoFar(signals, plan) && AfterPlan(signals, plan) && |plan| < |signals|
    ensures PlannedSoFar(signals, plan + [next]) && AfterPlan(signals, plan + [next])
  {
    var n := |plan| - 1;
    var last, ticks := plan[n].steps[|signals[n].values|], plan[n].ticks + signals[n].remainder;
    next := FollowOne(signals, n, last, ticks);
    PlanExtended(signals, plan, last, ticks, next);
    PlanEnds(signals, plan, last, ticks, next);
  }

  lemma PlanEnds(signals: seq<Signal>, plan: seq<Plan>, last: Progress, ticks: int, next: Plan)
    requires AllOk(signals) && 0 < |plan| < |signals| && PlannedNext(signals, |plan| - 1, last, ticks, next)
    ensures AfterPlan(signals, plan + [next])
  {
    assert (plan + [next])[|plan|] == next;
  }

  lemma PlanExtended(signals: seq<Signal>, plan: seq<Plan>, last: Progress, ticks: int, next: Plan)
    requires AllOk(signals) && |signals| * 781 <= 0x8000_0000 && PlannedSoFar(signals, plan) && |plan| < |signals|
    requires |plan[|plan| - 1].steps| == |signals[|plan| - 1].values| + 1
    requires last == plan[|plan| - 1].steps[|signals[|plan| - 1].values|]
    requires ticks == plan[|plan| - 1].ticks + signals[|plan| - 1].remainder
    requires PlannedNext(signals, |plan| - 1, last, ticks, next)
    ensures PlannedSoFar(signals, plan + [next])
  {
    var longer, m := plan + [next], |plan|;
    RemaindersConserved(signals, m);
    forall k: nat ensures FollowsOn(signals, longer, k) {
      assert FollowsOn(signals, plan, k);
    }
  }

  lemma {:induction false} PlanRest(signals: seq<Signal>, plan: seq<Plan>) returns (all: seq<Plan>)
    requires Sendable(signals) && PlannedSoFar(signals, plan) && AfterPlan(signals, plan)
    ensures Planned(signals, all) && AfterPlan(signals, all)
    decreases |signals| - |plan|
  {
    if |plan| == |signals| {
      all := plan;
    } else {
      var next := PlanNext(signals, plan);
      all := PlanRest(signals, plan + [next]);
    }
  }

  lemma PlanStart(signals: seq<Signal>) returns (first: Plan)
    requires Sendable(signals) && signals != []
    ensures PlannedSoFar(signals, [first]) && AfterPlan(signals, [first])
  {
    AtFirstSignal(signals);
    var steps := PlanOne(signals, 0, Progress([], 0), 0);
    first := Plan(steps, 0);
    FirstPlan(signals, steps);
  }

  /** What is sent when the last round of the plan is over. */
  function SentAtEnd(signals: seq<Signal>, plan: seq<Plan>): seq<nat>
    requires 0 < |plan| == |signals|
    requires |plan[|plan| - 1].steps| > |signals[|plan| - 1].values|
  {
    plan[|plan| - 1].steps[|signals[|plan| - 1].values|].sent
  }

  lemma EmittedAtEnd(signals: seq<Signal>, plan: seq<Plan>)
    requires AllOk(signals) && 0 < |plan| == |signals| && AfterPlan(signals, plan)
    ensures |plan[|plan| - 1].steps| > |signals[|plan| - 1].values|
    ensures SentAtEnd(signals, plan) == Emitted(signals)
  {}

  /** Every sendable list of signals has a plan, and following it sends what is emitted. */
  lemma PlanAll(signals: seq<Signal>) returns (plan: seq<Plan>)
    requires Sendable(signals) && signals != []
    ensures Planned(signals, plan) && |plan[|plan| - 1].steps| > |signals[|plan| - 1].values|
    ensures SentAtEnd(signals, plan) == Emitted(signals)
  {
    var first := PlanStart(signals);
    plan := PlanRest(signals, [first]);
    EmittedAtEnd(signals, plan);
  }
}

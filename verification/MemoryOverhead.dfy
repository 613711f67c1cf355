/** Non-dataset memory overhead against the eviction budget, with a guard against inconsistent samples. */
module MemoryOverhead {
  import opened Prelude
  import opened Hysteresis

  const WARN_FRACTION := 0.3
  const CRIT_FRACTION := 0.5
  const EVICTION_MIN_FRACTION := WARN_FRACTION
  const NOTE_STREAK: nat := 10

  datatype Input = Input(
    usedMemory: real, usedMemoryOverhead: real, usedMemoryStartup: real, usedMemoryDataset: real,
    datasetPerc: Option<real>, maxmemory: real, noEviction: bool, evictedKeysDelta: int)

  datatype State = State(acked: int, invalidStreak: nat, noted: bool)

  const FRESH: State := State(0, 0, false)

  /** Level ranks: none 0, warning 1, critical 2. An Info note reports a long inconsistent run. */
  datatype Finding = Info | Overhead(level: int, fraction: real, threshold: real)

  predicate Inconsistent(i: Input) {
    || i.usedMemoryOverhead > i.usedMemory || i.usedMemoryDataset > i.usedMemory
    || (i.datasetPerc.Some? && i.datasetPerc.value > 100.0)
  }

  predicate Readable(i: Input) { !Inconsistent(i) && i.maxmemory > 0.0 }

  function Operational(i: Input): real { MaxReal(0.0, i.usedMemoryOverhead - i.usedMemoryStartup) }

  function Fraction(i: Input): real
    requires i.maxmemory > 0.0
  {
    Operational(i) / i.maxmemory
  }

  /** Overhead larger than the data itself while keys are being evicted. */
  predicate Squeezing(i: Input)
    requires i.maxmemory > 0.0
  {
    !i.noEviction && i.evictedKeysDelta > 0 && Fraction(i) >= EVICTION_MIN_FRACTION
      && Operational(i) > i.usedMemoryDataset
  }

  function LevelOf(i: Input): int
    requires i.maxmemory > 0.0
  {
    if Fraction(i) >= CRIT_FRACTION || Squeezing(i) then 2 else if Fraction(i) >= WARN_FRACTION then 1 else 0
  }

  function Threshold(i: Input): real
    requires i.maxmemory > 0.0
  {
    if LevelOf(i) == 2 then (if Fraction(i) >= CRIT_FRACTION then CRIT_FRACTION else EVICTION_MIN_FRACTION)
      else WARN_FRACTION
  }

  function Step(s: State, i: Input): State {
    if Inconsistent(i) then s.(invalidStreak := s.invalidStreak + 1)
    else if i.maxmemory <= 0.0 then State(s.acked, 0, false)
    else State(MinInt(s.acked, LevelOf(i)), 0, false)
  }

  function FindingOf(s: State, i: Input): Option<Finding> {
    if Inconsistent(i) then (if s.invalidStreak + 1 >= NOTE_STREAK && !s.noted then Some(Info) else None)
    else if i.maxmemory <= 0.0 || LevelOf(i) <= s.acked || LevelOf(i) == 0 then None
    else Some(Overhead(LevelOf(i), Fraction(i), Threshold(i)))
  }

  function AckStep(s: State, f: Finding): State {
    match f
    case Info => s.(noted := true)
    case Overhead(level, _, _) => s.(acked := level)
  }

  class MemoryOverheadDetector {
    var ackedLevel: int
    var invalidSampleStreak: nat
    var inconsistencyNoted: bool

    constructor ()
      ensures Model() == FRESH
    {
      ackedLevel, invalidSampleStreak, inconsistencyNoted := 0, 0, false;
    }

    function Model(): State
      reads this
    {
      State(ackedLevel, invalidSampleStreak, inconsistencyNoted)
    }

    method Evaluate(input: Input) returns (finding: Option<Finding>)
      requires ackedLevel >= 0
      modifies this
      ensures Model() == Step(old(Model()), input) && finding == FindingOf(old(Model()), input)
    {
      if Inconsistent(input) {
        invalidSampleStreak := invalidSampleStreak + 1;
        if invalidSampleStreak >= NOTE_STREAK && !inconsistencyNoted {
          return Some(Info);
        }
        return None;
      }
      invalidSampleStreak, inconsistencyNoted := 0, false;
      if input.maxmemory <= 0.0 {
        return None;
      }
      var operational := if input.usedMemoryOverhead - input.usedMemoryStartup > 0.0
                         then input.usedMemoryOverhead - input.usedMemoryStartup else 0.0;
      var fraction := operational / input.maxmemory;
      var squeezing := !input.noEviction && input.evictedKeysDelta > 0 && fraction >= EVICTION_MIN_FRACTION
                       && operational > input.usedMemoryDataset;
      var level := 0;
      if fraction >= CRIT_FRACTION || squeezing {
        level := 2;
      } else if fraction >= WARN_FRACTION {
        level := 1;
      }
      if level < ackedLevel {
        ackedLevel := level;
      }
      if level <= ackedLevel || level == 0 {
        return None;
      }
      var threshold := WARN_FRACTION;
      if level == 2 {
        threshold := if fraction >= CRIT_FRACTION then CRIT_FRACTION else EVICTION_MIN_FRACTION;
      }
      return Some(Overhead(level, fraction, threshold));
    }

    method Acknowledge(finding: Finding)
      modifies this
      ensures Model() == AckStep(old(Model()), finding)
    {
      if finding.Info? {
        inconsistencyNoted := true;
        return;
      }
      ackedLevel := finding.level;
    }
  }

  predicate IsOperational(i: Input, used: real) {
    used >= 0.0 && used >= i.usedMemoryOverhead - i.usedMemoryStartup
    && (used == 0.0 || used == i.usedMemoryOverhead - i.usedMemoryStartup)
  }

  /** The overhead is at least three tenths of the budget and more than the data, while keys are being evicted. */
  predicate Crowds(i: Input, used: real) {
    !i.noEviction && i.evictedKeysDelta > 0 && used >= 0.3 * i.maxmemory && used > i.usedMemoryDataset
  }

  /**
   Which samples are read, and their level: critical from half of the budget, or when the overhead crowds out the data;
   otherwise a warning from three tenths. A finding names the share its level was reached by.
   */
  lemma LevelIs(i: Input, used: real)
    requires IsOperational(i, used)
    ensures Readable(i) <==> && i.maxmemory > 0.0
                             && i.usedMemoryOverhead <= i.usedMemory && i.usedMemoryDataset <= i.usedMemory
                             && (i.datasetPerc.None? || i.datasetPerc.value <= 100.0)
    ensures i.maxmemory > 0.0 ==>
      && (LevelOf(i) == 2 <==> used >= 0.5 * i.maxmemory || Crowds(i, used))
      && (LevelOf(i) == 1 <==> 0.3 * i.maxmemory <= used < 0.5 * i.maxmemory && !Crowds(i, used))
      && 0 <= LevelOf(i) <= 2 && Fraction(i) * i.maxmemory == used
      && Threshold(i) == if used >= 0.5 * i.maxmemory then 0.5 else 0.3
  {
    if i.maxmemory > 0.0 {
      ShareReached(used, i.maxmemory, CRIT_FRACTION);
      ShareReached(used, i.maxmemory, WARN_FRACTION);
    }
  }

  // ---------------------------------------------------------------- runs

  datatype Op = Poll(input: Input) | Acknowledge(finding: Finding)

  function StateAt(run: seq<Op>): State {
    if run == [] then FRESH
    else match run[|run| - 1]
      case Poll(input) => Step(StateAt(run[..|run| - 1]), input)
      case Acknowledge(finding) => AckStep(StateAt(run[..|run| - 1]), finding)
  }

  function EventOf(op: Op): Event {
    match op
    case Poll(i) => if Readable(i) then Assessed(LevelOf(i)) else Gap
    case Acknowledge(Info) => Gap
    case Acknowledge(Overhead(level, _, _)) => Acked(level)
  }

  function EventsOf(run: seq<Op>): seq<Event> {
    if run == [] then [] else EventsOf(run[..|run| - 1]) + [EventOf(run[|run| - 1])]
  }

  /** Over every run, inconsistent and budget-less samples included, the acknowledged level is the tracked one. */
  lemma {:induction false} AckedLevelIsTracked(run: seq<Op>)
    ensures StateAt(run).acked == AckedAfter(EventsOf(run))
  {
    if run != [] {
      AckedLevelIsTracked(run[..|run| - 1]);
      assert EventsOf(run)[..|EventsOf(run)| - 1] == EventsOf(run[..|run| - 1]);
    }
  }

  /** An overhead finding is returned exactly for a readable sample above the last acknowledged level or above a
      lower level assessed since; acknowledged levels are those of findings, so never negative. */
  lemma FindingIff(run: seq<Op>, i: Input)
    requires forall k :: 0 <= k < |run| && run[k].Acknowledge? && run[k].finding.Overhead? ==> run[k].finding.level >= 1
    ensures var events := EventsOf(run);
            FindingOf(StateAt(run), i).Some? && FindingOf(StateAt(run), i).value.Overhead?
            <==> && Readable(i)
                 && (LevelOf(i) > Base(events) || exists k :: 0 <= k < |Since(events)| && Since(events)[k] < LevelOf(i))
  {
    AckedLevelIsTracked(run);
    NeverNegative(run);
    if Readable(i) {
      FiresIff(EventsOf(run), LevelOf(i));
    }
  }

  lemma {:induction false} NeverNegative(run: seq<Op>)
    requires forall k :: 0 <= k < |run| && run[k].Acknowledge? && run[k].finding.Overhead? ==> run[k].finding.level >= 1
    ensures StateAt(run).acked >= 0
  {
    if run != [] {
      NeverNegative(run[..|run| - 1]);
    }
  }

  /** How many polls at the end of the run were inconsistent, acknowledgements aside. */
  function Streak(run: seq<Op>): nat {
    if run == [] then 0
    else match run[|run| - 1]
      case Poll(i) => if Inconsistent(i) then Streak(run[..|run| - 1]) + 1 else 0
      case Acknowledge(_) => Streak(run[..|run| - 1])
  }

  /** Whether a note was acknowledged since the last consistent sample. */
  predicate Noted(run: seq<Op>) {
    run != [] && match run[|run| - 1]
      case Poll(i) => Inconsistent(i) && Noted(run[..|run| - 1])
      case Acknowledge(f) => f.Info? || Noted(run[..|run| - 1])
  }

  lemma {:induction false} StreakIsCounted(run: seq<Op>)
    ensures StateAt(run).invalidStreak == Streak(run) && StateAt(run).noted == Noted(run)
  {
    if run != [] {
      StreakIsCounted(run[..|run| - 1]);
    }
  }

  /** The inconsistency note is due exactly from the tenth inconsistent sample in a row, until acknowledged once. */
  lemma NoteIff(run: seq<Op>, i: Input)
    ensures FindingOf(StateAt(run), i) == Some(Info)
            <==> Inconsistent(i) && Streak(run) + 1 >= 10 && !Noted(run)
  {
    StreakIsCounted(run);
  }
}

/** Event-loop saturation: a band must hold for three readable polls before its finding, and escalates only. */
module LoadSaturation {
  import opened Prelude
  import opened Hysteresis

  const WARN_FRACTION := 0.8
  const CRIT_FRACTION := 0.95
  const CONSECUTIVE_REQUIRED: nat := 3

  /** Average work per cycle and cycles per second; None where the field is missing or not a finite number. */
  datatype Input = Input(durationUsec: Option<real>, cyclesPerSec: Option<real>)

  datatype State = State(acked: int, lastLevel: int, consecutive: nat)

  const FRESH: State := State(0, 0, 0)

  predicate Readable(i: Input) {
    i.durationUsec.Some? && i.cyclesPerSec.Some? && i.durationUsec.value >= 0.0 && i.cyclesPerSec.value >= 0.0
  }

  function BusyFraction(i: Input): real
    requires Readable(i)
  {
    MaxReal(0.0, MinReal(1.0, i.durationUsec.value * i.cyclesPerSec.value / 1000000.0))
  }

  /** Level ranks: none 0, warning 1, critical 2. */
  function Classify(busy: real): int { if busy >= CRIT_FRACTION then 2 else if busy >= WARN_FRACTION then 1 else 0 }

  function LevelOf(i: Input): int
    requires Readable(i)
  {
    Classify(BusyFraction(i))
  }

  function Fold(s: State, level: int): State {
    if level == 0 then FRESH
    else State(MinInt(s.acked, level), level, if level == s.lastLevel then s.consecutive + 1 else 1)
  }

  function Step(s: State, i: Input): State { if Readable(i) then Fold(s, LevelOf(i)) else s }

  /** The level of the finding returned by this poll. */
  function FindingOf(s: State, i: Input): Option<int> {
    if !Readable(i) || LevelOf(i) == 0 then None
    else if Step(s, i).consecutive < CONSECUTIVE_REQUIRED || LevelOf(i) <= Step(s, i).acked then None
    else Some(LevelOf(i))
  }

  class LoadSaturationDetector {
    var ackedLevel: int
    var lastLevel: int
    var consecutive: nat

    constructor ()
      ensures Model() == FRESH
    {
      ackedLevel, lastLevel, consecutive := 0, 0, 0;
    }

    function Model(): State
      reads this
    {
      State(ackedLevel, lastLevel, consecutive)
    }

    method Evaluate(input: Input) returns (finding: Option<int>)
      requires ackedLevel >= 0
      modifies this
      ensures Model() == Step(old(Model()), input) && finding == FindingOf(old(Model()), input)
    {
      if !Readable(input) {
        return None;
      }
      var level := Classify(BusyFraction(input));
      if level == 0 {
        consecutive, lastLevel, ackedLevel := 0, 0, 0;
        return None;
      }
      if level != lastLevel {
        consecutive := 0;
      }
      lastLevel := level;
      consecutive := consecutive + 1;
      if level < ackedLevel {
        ackedLevel := level;
      }
      if consecutive < CONSECUTIVE_REQUIRED {
        return None;
      }
      if level <= ackedLevel {
        return None;
      }
      return Some(level);
    }

    method Acknowledge(level: int)
      modifies this`ackedLevel
      ensures Model() == old(Model()).(acked := level)
    {
      ackedLevel := level;
    }
  }

  /**
   Critical from 95 percent of each second spent working, a warning from 80; missing or negative fields say nothing.
   */
  lemma LevelIs(i: Input)
    ensures Readable(i) <==> exists work, cycles :: i == Input(Some(work), Some(cycles)) && work >= 0.0 && cycles >= 0.0
    ensures Readable(i) ==>
      var busyUsec := i.durationUsec.value * i.cyclesPerSec.value;
      && (LevelOf(i) == 2 <==> busyUsec >= 950000.0)
      && (LevelOf(i) == 1 <==> 800000.0 <= busyUsec < 950000.0) && 0 <= LevelOf(i) <= 2
  {
    if Readable(i) {
      assert i == Input(Some(i.durationUsec.value), Some(i.cyclesPerSec.value));
      ShareOfSecond(i.durationUsec.value * i.cyclesPerSec.value);
    }
  }

  lemma ShareOfSecond(busyUsec: real)
    ensures Classify(MaxReal(0.0, MinReal(1.0, busyUsec / 1000000.0)))
         == if busyUsec >= 950000.0 then 2 else if busyUsec >= 800000.0 then 1 else 0
  {}

  // ---------------------------------------------------------------- runs

  datatype Op = Poll(input: Input) | Acknowledge(level: int)

  function StateAt(run: seq<Op>): State {
    if run == [] then FRESH
    else match run[|run| - 1]
      case Poll(input) => Step(StateAt(run[..|run| - 1]), input)
      case Acknowledge(level) => StateAt(run[..|run| - 1]).(acked := level)
  }

  function EventOf(op: Op): Event {
    match op
    case Poll(i) => if Readable(i) then Assessed(LevelOf(i)) else Gap
    case Acknowledge(level) => Acked(level)
  }

  function EventsOf(run: seq<Op>): seq<Event> {
    if run == [] then [] else EventsOf(run[..|run| - 1]) + [EventOf(run[|run| - 1])]
  }

  /** Findings only ever have levels 1 and 2, so only those are acknowledged. */
  ghost predicate AcksFindings(run: seq<Op>) {
    forall k :: 0 <= k < |run| && run[k].Acknowledge? ==> run[k].level >= 1
  }

  /** Over every run, unreadable polls included, the acknowledged level is the one the shared hysteresis tracks. */
  lemma {:induction false} AckedLevelIsTracked(run: seq<Op>)
    requires AcksFindings(run)
    ensures StateAt(run).acked == AckedAfter(EventsOf(run)) >= 0
  {
    if run != [] {
      AckedLevelIsTracked(run[..|run| - 1]);
      assert EventsOf(run)[..|EventsOf(run)| - 1] == EventsOf(run[..|run| - 1]);
    }
  }

  /** The levels of the readable polls so far. */
  function Trail(run: seq<Op>): seq<int> {
    if run == [] then []
    else match run[|run| - 1]
      case Poll(i) => if Readable(i) then Trail(run[..|run| - 1]) + [LevelOf(i)] else Trail(run[..|run| - 1])
      case Acknowledge(_) => Trail(run[..|run| - 1])
  }

  function Last(t: seq<int>): int { if t == [] then 0 else t[|t| - 1] }

  /** How many entries at the end of the trail equal the last one. */
  function Held(t: seq<int>): nat {
    if t == [] then 0 else if |t| >= 2 && t[|t| - 2] == t[|t| - 1] then Held(t[..|t| - 1]) + 1 else 1
  }

  lemma {:induction false} HoldIsCounted(run: seq<Op>)
    ensures StateAt(run).lastLevel == Last(Trail(run))
    ensures StateAt(run).consecutive == if Last(Trail(run)) == 0 then 0 else Held(Trail(run))
  {
    if run != [] {
      var init, op := run[..|run| - 1], run[|run| - 1];
      HoldIsCounted(init);
      if op.Poll? && Readable(op.input) {
        assert Trail(run)[..|Trail(run)| - 1] == Trail(init);
      }
    }
  }

  lemma HeldThree(t: seq<int>)
    ensures Held(t) >= 3 <==> |t| >= 3 && t[|t| - 1] == t[|t| - 2] == t[|t| - 3]
  {
    if |t| >= 2 && t[|t| - 2] == t[|t| - 1] {
      HeldTwo(t[..|t| - 1]);
    }
  }

  lemma HeldTwo(t: seq<int>)
    ensures Held(t) >= 2 <==> |t| >= 2 && t[|t| - 1] == t[|t| - 2]
  {
    if |t| >= 2 {
      assert Held(t[..|t| - 1]) >= 1;
    }
  }

  /**
   A finding is returned exactly when this sample is readable, it and the two readable ones before it are in the same
   band, and the band is above the last acknowledged level or above a lower band seen since.
   */
  lemma FindingIff(run: seq<Op>, i: Input)
    requires AcksFindings(run)
    ensures var events, t := EventsOf(run), Trail(run);
            FindingOf(StateAt(run), i).Some?
            <==> && Readable(i) && LevelOf(i) > 0 && |t| >= 2 && t[|t| - 1] == t[|t| - 2] == LevelOf(i)
                 && (LevelOf(i) > Base(events) || exists k :: 0 <= k < |Since(events)| && Since(events)[k] < LevelOf(i))
  {
    if Readable(i) {
      AckedLevelIsTracked(run);
      FiresIff(EventsOf(run), LevelOf(i));
      HoldIsCounted(run);
      HeldThree(Trail(run) + [LevelOf(i)]);
      assert (Trail(run) + [LevelOf(i)])[..|Trail(run)|] == Trail(run);
    }
  }
}

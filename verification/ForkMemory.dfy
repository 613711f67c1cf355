/** Copy-on-write memory risk of forked saves: the severity of one poll and its hysteresis. */
module ForkMemory {
  import opened Prelude
  import opened Hysteresis

  const WARN_FRACTION := 0.8
  const CRIT_FRACTION := 0.9
  const WRITE_RATE_PER_SEC := 1000.0

  datatype Level = NoRisk | Warning | Critical

  datatype Kind = Live | Projected

  datatype Input = Input(
    bgsave: bool, aofRewrite: bool, currentCow: Option<real>, rdbLastCow: Option<real>, aofLastCow: Option<real>,
    usedMemory: real, usedMemoryRss: Option<real>, totalSystemMemory: Option<real>, writeRatePerSec: Option<real>)

  datatype Assessment = Assessment(level: Level, kind: Kind)

  function Or<T>(x: Option<T>, fallback: T): T { if x.Some? then x.value else fallback }

  /** A live risk outranks a projected one at the same level. */
  function SeverityScore(a: Assessment): int {
    if a.level == NoRisk then 0
    else (if a.level == Critical then 20 else 10) + if a.kind == Live then 1 else 0
  }

  function Band(peak: real, system: real): Level
    requires system > 0.0
  {
    if peak / system >= CRIT_FRACTION then Critical else if peak / system >= WARN_FRACTION then Warning else NoRisk
  }

  function Assess(i: Input): Assessment {
    var known := i.totalSystemMemory.Some? && i.totalSystemMemory.value > 0.0;
    var basis := Or(i.usedMemoryRss, i.usedMemory);
    if i.bgsave || i.aofRewrite then
      if !known then Assessment(NoRisk, Live)
      else Assessment(Band(basis + Or(i.currentCow, 0.0), i.totalSystemMemory.value), Live)
    else
      var lastCow := MaxReal(Or(i.rdbLastCow, 0.0), Or(i.aofLastCow, 0.0));
      if !known || lastCow <= 0.0 then Assessment(NoRisk, Projected)
      else if i.writeRatePerSec.None? || i.writeRatePerSec.value < WRITE_RATE_PER_SEC then Assessment(NoRisk, Projected)
      else if Band(basis + lastCow, i.totalSystemMemory.value) == NoRisk then Assessment(NoRisk, Projected)
      else Assessment(Warning, Projected)
  }

  class ForkMemoryDetector {
    var ackedLevel: Level
    var ackedKind: Kind

    constructor ()
      ensures Acked() == Assessment(NoRisk, Projected)
    {
      ackedLevel, ackedKind := NoRisk, Projected;
    }

    function Acked(): Assessment
      reads this
    {
      Assessment(ackedLevel, ackedKind)
    }

    method Evaluate(input: Input) returns (finding: Option<Assessment>)
      modifies this
      ensures Acked() == Lowered(old(Acked()), Assess(input))
      ensures finding
              == if SeverityScore(Assess(input)) > SeverityScore(old(Acked())) then Some(Assess(input)) else None
    {
      var a := Assess(input);
      var current := SeverityScore(a);
      if current < SeverityScore(Assessment(ackedLevel, ackedKind)) {
        ackedLevel, ackedKind := a.level, a.kind;
      }
      if current > SeverityScore(Assessment(ackedLevel, ackedKind)) {
        return Some(a);
      }
      return None;
    }

    method Acknowledge(finding: Assessment)
      modifies this
      ensures Acked() == finding
    {
      ackedLevel, ackedKind := finding.level, finding.kind;
    }
  }

  function Lowered(acked: Assessment, a: Assessment): Assessment {
    if SeverityScore(a) < SeverityScore(acked) then a else acked
  }

  /** The memory in use, as the process size if that is known, plus `extra` takes at least this share of the system. */
  ghost predicate Takes(i: Input, extra: real, share: real) {
    && (exists system :: i.totalSystemMemory == Some(system) && system > 0.0
                         && (i.usedMemoryRss.Some? ==> i.usedMemoryRss.value + extra >= share * system)
                         && (i.usedMemoryRss.None? ==> i.usedMemory + extra >= share * system))
  }

  /** The larger of the copies the last two kinds of save made; a missing figure counts as nothing. */
  predicate LastCopy(i: Input, cow: real) {
    && (cow == 0.0 || i.rdbLastCow == Some(cow) || i.aofLastCow == Some(cow))
    && cow >= 0.0 && (i.rdbLastCow.Some? ==> cow >= i.rdbLastCow.value)
    && (i.aofLastCow.Some? ==> cow >= i.aofLastCow.value)
  }

  lemma BandIs(peak: real, system: real)
    requires system > 0.0
    ensures Band(peak, system) == Critical <==> peak >= 0.9 * system
    ensures Band(peak, system) == NoRisk <==> peak < 0.8 * system
  {
    ShareReached(peak, system, CRIT_FRACTION);
    ShareReached(peak, system, WARN_FRACTION);
  }

  /**
   A save in progress is a live risk, critical from nine tenths and a warning from eight tenths of the system memory,
   with the copies made so far. Without one the risk is projected, never more than a warning: that needs eight tenths
   with the larger of the last copies, if there was one, and at least a thousand writes a second.
   */
  lemma AssessmentIs(i: Input, cow: real, last: real)
    requires cow == if i.currentCow.Some? then i.currentCow.value else 0.0
    requires LastCopy(i, last)
    ensures var a, saving := Assess(i), i.bgsave || i.aofRewrite;
            && (a.kind == Live <==> saving)
            && (a.level == Critical <==> saving && Takes(i, cow, 0.9))
            && (a.level == Warning <==>
                  if saving then Takes(i, cow, 0.8) && !Takes(i, cow, 0.9)
                  else
                    && last > 0.0 && i.writeRatePerSec.Some? && i.writeRatePerSec.value >= 1000.0
                    && Takes(i, last, 0.8))
  {
    if i.totalSystemMemory.Some? && i.totalSystemMemory.value > 0.0 {
      var basis, system := Or(i.usedMemoryRss, i.usedMemory), i.totalSystemMemory.value;
      BandIs(basis + cow, system);
      BandIs(basis + last, system);
    }
  }

  /** Severities are ordered by level first; at one level a live risk outranks a projected one. */
  lemma SeverityOrder(a: Assessment, b: Assessment)
    ensures SeverityScore(a) < SeverityScore(b)
       <==> || (a.level == NoRisk && b.level != NoRisk) || (a.level == Warning && b.level == Critical)
            || (a.level == b.level != NoRisk && a.kind == Projected && b.kind == Live)
  {}

  datatype Op = Poll(input: Input) | Acknowledge(finding: Assessment)

  function StateAt(run: seq<Op>): Assessment {
    if run == [] then Assessment(NoRisk, Projected)
    else match run[|run| - 1]
      case Poll(input) => Lowered(StateAt(run[..|run| - 1]), Assess(input))
      case Acknowledge(finding) => finding
  }

  function EventOf(op: Op): Event {
    match op
    case Poll(input) => Assessed(SeverityScore(Assess(input)))
    case Acknowledge(finding) => Acked(SeverityScore(finding))
  }

  function EventsOf(run: seq<Op>): seq<Event> {
    if run == [] then [] else EventsOf(run[..|run| - 1]) + [EventOf(run[|run| - 1])]
  }

  /** Over every run, the acknowledged severity is the one the shared hysteresis tracks. */
  lemma {:induction false} AckedScoreIsTracked(run: seq<Op>)
    ensures SeverityScore(StateAt(run)) == AckedAfter(EventsOf(run))
  {
    if run != [] {
      AckedScoreIsTracked(run[..|run| - 1]);
      assert EventsOf(run)[..|EventsOf(run)| - 1] == EventsOf(run[..|run| - 1]);
    }
  }

  /**
   A poll returns a finding exactly when its severity exceeds the last acknowledged one, or a strictly lower severity
   was assessed since; a live warning is therefore never silenced by an acknowledged projected one.
   */
  lemma FindingIff(run: seq<Op>, input: Input)
    ensures var score, events := SeverityScore(Assess(input)), EventsOf(run);
            score > SeverityScore(StateAt(run))
            <==> score > Base(events) || exists i :: 0 <= i < |Since(events)| && Since(events)[i] < score
  {
    AckedScoreIsTracked(run);
    FiresIff(EventsOf(run), SeverityScore(Assess(input)));
  }
}

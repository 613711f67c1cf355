/**
 Replica output-buffer pressure: the assessment of one replica's buffer against the hard and soft limits, the soft
 breach clock, and the hysteresis of its state entry for as long as the entry lives.
 */
module CobPressure {
  import opened Prelude
  import opened Hysteresis

  const WARN_RATIO := 0.6
  const CRIT_RATIO := 0.9

  datatype Limit = Limit(hardBytes: real, softBytes: real, softSeconds: int)

  datatype Kind = HardApproach | SoftSustained | Aggregate

  /** Level ranks: none 0, warning 1, critical 2. */
  datatype Assessment = Assessment(level: int, kind: Kind, ratio: real, pressured: bool)

  datatype Entry = Entry(acked: int, softSince: Option<int>, lastPressuredAt: Option<int>, lastSeenAt: int)

  function FreshEntry(ts: int): Entry { Entry(0, None, None, ts) }

  predicate HardBreach(omem: real, l: Limit) { l.hardBytes > 0.0 && omem / l.hardBytes >= WARN_RATIO }

  /** A soft breach counts only where the hard limit is not approached and the soft limit is enabled. */
  predicate SoftBreach(omem: real, l: Limit) {
    !HardBreach(omem, l) && l.softBytes > 0.0 && l.softSeconds > 0 && omem >= l.softBytes * WARN_RATIO
  }

  /** The breach clock starts at a soft breach, stands still under hard pressure and is cleared by a calm sample. */
  function SoftClock(since: Option<int>, omem: real, l: Limit, ts: int): Option<int> {
    if HardBreach(omem, l) then since
    else if SoftBreach(omem, l) then (if since.Some? then since else Some(ts))
    else None
  }

  predicate Sustained(since: Option<int>, omem: real, l: Limit, ts: int) {
    SoftBreach(omem, l) && since.Some? && ts - since.value > l.softSeconds * 1000
  }

  function Assess(since: Option<int>, omem: real, l: Limit, ts: int): Assessment {
    var ratio := if l.hardBytes > 0.0 then omem / l.hardBytes else 0.0;
    if HardBreach(omem, l) then Assessment(if ratio >= CRIT_RATIO then 2 else 1, HardApproach, ratio, true)
    else if Sustained(since, omem, l, ts) then Assessment(1, SoftSustained, omem / l.softBytes, true)
    else Assessment(0, HardApproach, ratio, SoftBreach(omem, l))
  }

  function AssessAggregate(mem: real, slaves: int, l: Limit): Assessment {
    AssessCombined(mem, l.hardBytes * slaves as real)
  }

  function AssessCombined(mem: real, combined: real): Assessment {
    var ratio := if combined > 0.0 then mem / combined else 0.0;
    var level := if ratio >= CRIT_RATIO then 2 else if ratio >= WARN_RATIO then 1 else 0;
    Assessment(level, Aggregate, ratio, level != 0)
  }

  /** A higher level is returned as a finding and leaves the entry; a lower one lowers what was acknowledged. */
  function Applied(e: Entry, a: Assessment, ts: int): Entry {
    e.(acked := MinInt(e.acked, a.level), lastPressuredAt := if a.pressured then Some(ts) else None, lastSeenAt := ts)
  }

  class ReplicaPressureState {
    var ackedLevel: int
    var softBreachSince: Option<int>
    var lastPressuredAt: Option<int>
    var lastSeenAt: int

    constructor (timestamp: int)
      ensures Model() == FreshEntry(timestamp)
    {
      ackedLevel, softBreachSince, lastPressuredAt, lastSeenAt := 0, None, None, timestamp;
    }

    function Model(): Entry
      reads this
    {
      Entry(ackedLevel, softBreachSince, lastPressuredAt, lastSeenAt)
    }

    method AssessRatio(omem: real, limit: Limit, ts: int) returns (a: Assessment)
      modifies this`softBreachSince
      ensures softBreachSince == SoftClock(old(softBreachSince), omem, limit, ts)
      ensures a == Assess(softBreachSince, omem, limit, ts)
    {
      var hardRatio := if limit.hardBytes > 0.0 then omem / limit.hardBytes else 0.0;
      if limit.hardBytes > 0.0 && hardRatio >= CRIT_RATIO {
        return Assessment(2, HardApproach, hardRatio, true);
      }
      if limit.hardBytes > 0.0 && hardRatio >= WARN_RATIO {
        return Assessment(1, HardApproach, hardRatio, true);
      }
      if limit.softBytes > 0.0 && limit.softSeconds > 0 && omem >= limit.softBytes * WARN_RATIO {
        if softBreachSince.None? {
          softBreachSince := Some(ts);
        }
        if ts - softBreachSince.value > limit.softSeconds * 1000 {
          return Assessment(1, SoftSustained, omem / limit.softBytes, true);
        }
        return Assessment(0, HardApproach, hardRatio, true);
      }
      softBreachSince := None;
      return Assessment(0, HardApproach, hardRatio, false);
    }

    method ApplyLevel(a: Assessment, ts: int) returns (finding: bool)
      modifies this`ackedLevel, this`lastPressuredAt, this`lastSeenAt
      ensures Model() == Applied(old(Model()), a, ts)
      ensures finding <==> a.level > old(ackedLevel)
    {
      lastSeenAt := ts;
      lastPressuredAt := if a.pressured then Some(ts) else None;
      if a.level > ackedLevel {
        return true;
      }
      if a.level < ackedLevel {
        ackedLevel := a.level;
      }
      return false;
    }

    method Acknowledge(level: int)
      modifies this`ackedLevel
      ensures Model() == old(Model()).(acked := level)
    {
      ackedLevel := level;
    }
  }

  /** The buffer takes at least this share of an enabled limit. */
  predicate Fills(omem: real, bytes: real, share: real) { bytes > 0.0 && omem >= share * bytes }

  /**
   What one sample is assessed as: critical from nine tenths of the hard limit and a warning from six; below that, a
   soft warning if six tenths of an enabled soft limit have been filled for longer than its grace period. The sample
   counts as pressure from six tenths of either limit on, and the ratio is the buffer's share of the limit reached.
   */
  lemma AssessmentIs(since: Option<int>, omem: real, l: Limit, ts: int)
    ensures var a := Assess(since, omem, l, ts);
            var hard, soft := Fills(omem, l.hardBytes, 0.6), l.softSeconds > 0 && Fills(omem, l.softBytes, 0.6);
            var overdue := since.Some? && ts - since.value > l.softSeconds * 1000;
            && (a.level == 2 <==> Fills(omem, l.hardBytes, 0.9))
            && (a.level == 1 <==> !Fills(omem, l.hardBytes, 0.9) && (hard || (soft && overdue)))
            && 0 <= a.level <= 2
            && (a.kind == SoftSustained <==> !hard && soft && overdue) && a.kind != Aggregate
            && (a.pressured <==> hard || soft)
            && (a.kind == SoftSustained ==> a.ratio * l.softBytes == omem)
            && (a.kind == HardApproach && l.hardBytes > 0.0 ==> a.ratio * l.hardBytes == omem)
            && (HardBreach(omem, l) <==> hard) && (SoftBreach(omem, l) <==> !hard && soft)
  {
    RatioIs(omem, l.hardBytes);
    RatioIs(omem, l.softBytes);
  }

  /** Without a view of single replicas, their buffers together are set against the hard limit of all of them. */
  lemma AggregateIs(mem: real, slaves: int, l: Limit, combined: real)
    requires combined == l.hardBytes * slaves as real
    ensures var a := AssessAggregate(mem, slaves, l);
            && (a.level == 2 <==> Fills(mem, combined, 0.9))
            && (a.level == 1 <==> Fills(mem, combined, 0.6) && !Fills(mem, combined, 0.9)) && 0 <= a.level <= 2
            && (a.pressured <==> Fills(mem, combined, 0.6)) && a.kind == Aggregate
            && (combined > 0.0 ==> a.ratio * combined == mem)
  {
    CombinedIs(mem, combined);
    assert AssessAggregate(mem, slaves, l) == AssessCombined(mem, combined);
  }

  lemma CombinedIs(mem: real, combined: real)
    ensures var a := AssessCombined(mem, combined);
            && (a.level == 2 <==> Fills(mem, combined, 0.9))
            && (a.level == 1 <==> Fills(mem, combined, 0.6) && !Fills(mem, combined, 0.9)) && 0 <= a.level <= 2
            && (a.pressured <==> Fills(mem, combined, 0.6)) && a.kind == Aggregate
            && (combined > 0.0 ==> a.ratio * combined == mem)
  {
    RatioIs(mem, combined);
    if combined > 0.0 {
      MulOrder(0.6, 0.9, combined);
    }
  }

  lemma RatioIs(mem: real, bytes: real)
    ensures var ratio := if bytes > 0.0 then mem / bytes else 0.0;
            && (ratio >= CRIT_RATIO <==> Fills(mem, bytes, 0.9)) && (ratio >= WARN_RATIO <==> Fills(mem, bytes, 0.6))
            && (bytes > 0.0 ==> ratio * bytes == mem)
  {
    if bytes > 0.0 {
      ShareReached(mem, bytes, WARN_RATIO);
      ShareReached(mem, bytes, CRIT_RATIO);
    }
  }

  // ---------------------------------------------------------------- the life of one entry

  datatype Op =
    | Observe(omem: real, limit: Limit, ts: int)
    | ObserveAggregate(mem: real, slaves: int, limit: Limit, ts: int)
    | Acknowledge(level: int)

  function AssessmentOf(e: Entry, op: Op): Assessment
    requires !op.Acknowledge?
  {
    match op
    case Observe(omem, l, ts) => Assess(SoftClock(e.softSince, omem, l, ts), omem, l, ts)
    case ObserveAggregate(mem, slaves, l, ts) => AssessAggregate(mem, slaves, l)
  }

  function Step(e: Entry, op: Op): Entry {
    match op
    case Observe(omem, l, ts) => Applied(e, AssessmentOf(e, op), ts).(softSince := SoftClock(e.softSince, omem, l, ts))
    case ObserveAggregate(_, _, _, ts) => Applied(e, AssessmentOf(e, op), ts)
    case Acknowledge(level) => e.(acked := level)
  }

  function EntryAt(born: int, run: seq<Op>): Entry {
    if run == [] then FreshEntry(born) else Step(EntryAt(born, run[..|run| - 1]), run[|run| - 1])
  }

  function EventOf(e: Entry, op: Op): Event {
    if op.Acknowledge? then Acked(op.level) else Assessed(AssessmentOf(e, op).level)
  }

  function EventsOf(born: int, run: seq<Op>): seq<Event> {
    if run == [] then []
    else EventsOf(born, run[..|run| - 1]) + [EventOf(EntryAt(born, run[..|run| - 1]), run[|run| - 1])]
  }

  /** While a replica's entry lives, its acknowledged level is the one the shared hysteresis tracks. */
  lemma {:induction false} AckedLevelIsTracked(born: int, run: seq<Op>)
    ensures EntryAt(born, run).acked == AckedAfter(EventsOf(born, run))
  {
    if run != [] {
      AckedLevelIsTracked(born, run[..|run| - 1]);
      assert EventsOf(born, run)[..|EventsOf(born, run)| - 1] == EventsOf(born, run[..|run| - 1]);
    }
  }

  /**
   A replica's finding is returned exactly above its last acknowledged level or above a lower level assessed since.
   */
  lemma FindingIff(born: int, run: seq<Op>, op: Op)
    requires !op.Acknowledge?
    ensures var e, events := EntryAt(born, run), EventsOf(born, run);
            var level := AssessmentOf(e, op).level;
            (level > e.acked)
            <==> level > Base(events) || exists k :: 0 <= k < |Since(events)| && Since(events)[k] < level
  {
    AckedLevelIsTracked(born, run);
    FiresIff(EventsOf(born, run), AssessmentOf(EntryAt(born, run), op).level);
  }

  /** The last observation of an entry, acknowledgements aside. */
  ghost predicate LastObserved(run: seq<Op>, m: nat) {
    m < |run| && !run[m].Acknowledge? && forall k :: m < k < |run| ==> run[k].Acknowledge?
  }

  /**
   An entry remembers pressure exactly if its last observation was one, with the time of that observation; an observed
   recovery forgets it.
   */
  lemma {:induction false} PressureIsRemembered(born: int, run: seq<Op>, m: nat)
    requires LastObserved(run, m)
    ensures var a := AssessmentOf(EntryAt(born, run[..m]), run[m]);
            && EntryAt(born, run).lastPressuredAt == (if a.pressured then Some(run[m].ts) else None)
            && EntryAt(born, run).lastSeenAt == run[m].ts
  {
    var init := run[..|run| - 1];
    if m < |init| {
      assert LastObserved(init, m);
      assert init[..m] == run[..m];
      PressureIsRemembered(born, init, m);
    } else {
      assert run[..m] == init;
    }
  }

  // ---------------------------------------------------------------- the soft breach clock

  predicate SoftAt(run: seq<Op>, n: nat)
    requires n < |run|
  {
    run[n].Observe? && SoftBreach(run[n].omem, run[n].limit)
  }

  predicate CalmAt(run: seq<Op>, n: nat)
    requires n < |run|
  {
    run[n].Observe? && !HardBreach(run[n].omem, run[n].limit) && !SoftBreach(run[n].omem, run[n].limit)
  }

  /** A soft breach at m, with no calm sample since. */
  ghost predicate BreachOpen(run: seq<Op>, m: nat)
    requires m < |run|
  {
    SoftAt(run, m) && forall k :: m < k < |run| ==> !CalmAt(run, k)
  }

  /** Observations are in time order. */
  ghost predicate InOrder(run: seq<Op>) {
    forall i, j :: 0 <= i < j < |run| && run[i].Observe? && run[j].Observe? ==> run[i].ts <= run[j].ts
  }

  /** The clock shows the earliest soft breach that no calm sample has ended. */
  ghost predicate ClockIs(run: seq<Op>, since: Option<int>) {
    match since
    case None => forall m :: 0 <= m < |run| ==> !BreachOpen(run, m)
    case Some(t) =>
      && (exists m :: 0 <= m < |run| && BreachOpen(run, m) && run[m].ts == t)
      && forall m :: 0 <= m < |run| && BreachOpen(run, m) ==> t <= run[m].ts
  }

  lemma BreachOpenSnoc(run: seq<Op>, op: Op, m: nat)
    requires m < |run|
    ensures BreachOpen(run + [op], m) <==> BreachOpen(run, m) && !CalmAt(run + [op], |run|)
  {
    var all := run + [op];
    assert forall k :: 0 <= k < |run| ==> all[k] == run[k];
    assert forall k :: 0 <= k < |run| ==> (CalmAt(all, k) <==> CalmAt(run, k));
  }

  lemma ClockNext(run: seq<Op>, op: Op, since: Option<int>)
    requires ClockIs(run, since) && InOrder(run + [op])
    ensures ClockIs(run + [op], if op.Observe? then SoftClock(since, op.omem, op.limit, op.ts) else since)
  {
    var all := run + [op];
    forall m | 0 <= m < |run| ensures BreachOpen(all, m) <==> BreachOpen(run, m) && !CalmAt(all, |run|) {
      BreachOpenSnoc(run, op, m);
    }
    assert forall m :: 0 <= m < |run| ==> all[m] == run[m];
    assert BreachOpen(all, |run|) <==> op.Observe? && SoftBreach(op.omem, op.limit);
    if since.Some? {
      var m :| 0 <= m < |run| && BreachOpen(run, m) && run[m].ts == since.value;
      assert all[m].ts == since.value;
    }
  }

  lemma {:induction false} ClockIsFirstBreach(born: int, run: seq<Op>)
    requires InOrder(run)
    ensures ClockIs(run, EntryAt(born, run).softSince)
  {
    if run != [] {
      var init := run[..|run| - 1];
      ClockIsFirstBreach(born, init);
      assert init + [run[|run| - 1]] == run;
      ClockNext(init, run[|run| - 1], EntryAt(born, init).softSince);
    }
  }

  /**
   A soft-sustained warning is assessed exactly when the sample breaches the soft limit and some soft breach more
   than the grace period ago has not been followed by a calm sample; hard-limit samples in between do not end it.
   */
  lemma SoftSustainedIff(born: int, run: seq<Op>, op: Op)
    requires op.Observe? && InOrder(run + [op])
    ensures AssessmentOf(EntryAt(born, run), op).kind == SoftSustained
       <==> && SoftBreach(op.omem, op.limit)
            && exists m :: 0 <= m < |run| && BreachOpen(run, m) && op.ts - run[m].ts > op.limit.softSeconds * 1000
  {
    assert forall m :: 0 <= m < |run| ==> (run + [op])[m] == run[m];
    assert InOrder(run);
    ClockIsFirstBreach(born, run);
  }
}

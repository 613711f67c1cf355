/**
 Client lockout: utilization streaks and refused connections combined into a level that alerts on escalation only,
 with the refusal baseline staged until the alert has been delivered.
 */
module ClientLockout {
  import opened Prelude

  const UTILIZATION_PCT := 85
  const MIN_STREAK: nat := 3

  datatype Input = Input(connected: Option<nat>, maxClients: Option<int>, rejected: Option<int>)

  /** Level ranks: none 0, warning 1, critical 2. */
  datatype State = State(streak: nat, level: int, lastRejected: Option<int>, pendingRejected: Option<int>,
                         lastConnected: Option<nat>)

  const FRESH: State := State(0, 0, None, None, None)

  datatype Finding = Finding(level: int, rejectedDelta: nat, rising: bool, streak: nat)

  predicate Readable(i: Input) { i.connected.Some? && i.maxClients.Some? && i.maxClients.value > 0 }

  function RejectedDelta(s: State, i: Input): nat {
    if i.rejected.None? || s.lastRejected.None? then 0 else MaxInt(0, i.rejected.value - s.lastRejected.value)
  }

  function StreakAfter(s: State, i: Input): nat
    requires Readable(i)
  {
    if i.connected.value * 100 >= UTILIZATION_PCT * i.maxClients.value then s.streak + 1 else 0
  }

  /** CRITICAL needs refusals and sustained utilization, either alone is a WARNING. */
  function LevelOf(s: State, i: Input): int
    requires Readable(i)
  {
    (if RejectedDelta(s, i) > 0 then 1 else 0) + (if StreakAfter(s, i) >= MIN_STREAK then 1 else 0)
  }

  function NextRejected(s: State, i: Input): Option<int> { if i.rejected.None? then s.lastRejected else i.rejected }

  predicate Escalates(s: State, i: Input) { Readable(i) && LevelOf(s, i) > s.level && LevelOf(s, i) > 0 }

  function Evaluated(s: State, i: Input): State {
    if !Readable(i) then s
    else
      var seen := s.(streak := StreakAfter(s, i), lastConnected := i.connected,
                      level := if LevelOf(s, i) == 0 then 0 else s.level);
      if Escalates(s, i) then seen.(pendingRejected := NextRejected(s, i))
      else seen.(lastRejected := NextRejected(s, i))
  }

  function Committed(s: State, level: int): State {
    if s.pendingRejected.None? then s.(level := level)
    else s.(level := level, lastRejected := s.pendingRejected, pendingRejected := None)
  }

  class ClientLockoutDetector {
    var highUtilStreak: nat
    var level: int
    var lastRejected: Option<int>
    var pendingRejected: Option<int>
    var lastConnected: Option<nat>

    constructor ()
      ensures Model() == FRESH
    {
      highUtilStreak, level, lastRejected, pendingRejected, lastConnected := 0, 0, None, None, None;
    }

    function Model(): State
      reads this
    {
      State(highUtilStreak, level, lastRejected, pendingRejected, lastConnected)
    }

    method Evaluate(input: Input) returns (finding: Option<Finding>)
      modifies this
      ensures Model() == Evaluated(old(Model()), input)
      ensures finding.Some? <==> Escalates(old(Model()), input)
      ensures finding.Some? ==>
        && finding.value.level == LevelOf(old(Model()), input)
        && finding.value.rejectedDelta == RejectedDelta(old(Model()), input)
        && finding.value.streak == StreakAfter(old(Model()), input)
        && (finding.value.rising <==> old(lastConnected).Some? && input.connected.value > old(lastConnected).value)
    {
      var rejectedDelta := 0;
      if input.rejected.Some? && lastRejected.Some? && input.rejected.value - lastRejected.value > 0 {
        rejectedDelta := input.rejected.value - lastRejected.value;
      }
      if input.connected.None? || input.maxClients.None? || input.maxClients.value <= 0 {
        return None;
      }
      var nextRejected := if input.rejected.None? then lastRejected else input.rejected;
      var previousConnected := lastConnected;
      lastConnected := input.connected;
      if input.connected.value * 100 >= UTILIZATION_PCT * input.maxClients.value {
        highUtilStreak := highUtilStreak + 1;
      } else {
        highUtilStreak := 0;
      }
      var sustained, refusing := highUtilStreak >= MIN_STREAK, rejectedDelta > 0;
      var assessed := 0;
      if refusing && sustained {
        assessed := 2;
      } else if refusing || sustained {
        assessed := 1;
      }
      var escalated := assessed > level;
      if assessed == 0 {
        level := 0;
      }
      if !escalated || assessed == 0 {
        lastRejected := nextRejected;
        return None;
      }
      pendingRejected := nextRejected;
      var rising := previousConnected.Some? && input.connected.value > previousConnected.value;
      return Some(Finding(assessed, rejectedDelta, rising, highUtilStreak));
    }

    method CommitLevel(delivered: int)
      modifies this
      ensures Model() == Committed(old(Model()), delivered)
    {
      level := delivered;
      if pendingRejected.None? {
        return;
      }
      lastRejected := pendingRejected;
      pendingRejected := None;
    }
  }

  // ---------------------------------------------------------------- runs

  /** One poll, and whether the emit of a finding succeeds, in which case the level is committed. */
  datatype Poll = Poll(input: Input, emitOk: bool)

  predicate Delivers(s: State, p: Poll) { Escalates(s, p.input) && p.emitOk }

  function Step(s: State, p: Poll): State {
    if Delivers(s, p) then Committed(Evaluated(s, p.input), LevelOf(s, p.input)) else Evaluated(s, p.input)
  }

  function StateAt(run: seq<Poll>, n: nat): State
    requires n <= |run|
  {
    if n == 0 then FRESH else Step(StateAt(run, n - 1), run[n - 1])
  }

  /** The counter of refused connections never falls. */
  ghost predicate Counting(run: seq<Poll>) {
    forall i, j :: 0 <= i < j < |run| && run[i].input.rejected.Some? && run[j].input.rejected.Some? ==>
      run[i].input.rejected.value <= run[j].input.rejected.value
  }

  /** How far poll n moves the baseline. */
  function Consumed(run: seq<Poll>, n: nat): int
    requires n < |run|
  {
    var before, after := StateAt(run, n).lastRejected, StateAt(run, n + 1).lastRejected;
    if before.Some? && after.Some? then after.value - before.value else 0
  }

  function ConsumedSince(run: seq<Poll>, m: nat, n: nat): int
    requires m <= n <= |run|
  {
    if n == m then 0 else ConsumedSince(run, m, n - 1) + Consumed(run, n - 1)
  }

  /** The baseline is always some earlier reading of the counter. */
  lemma {:induction false} BaselineIsReading(run: seq<Poll>, n: nat) returns (m: nat)
    requires n <= |run| && StateAt(run, n).lastRejected.Some?
    ensures m < n && run[m].input.rejected == StateAt(run, n).lastRejected
  {
    if StateAt(run, n).lastRejected == StateAt(run, n - 1).lastRejected {
      m := BaselineIsReading(run, n - 1);
    } else {
      m := n - 1;
    }
  }

  lemma {:induction false} BaselineStays(run: seq<Poll>, m: nat, n: nat)
    requires m <= n <= |run| && StateAt(run, m).lastRejected.Some?
    ensures StateAt(run, n).lastRejected.Some?
    decreases n
  {
    if m < n {
      BaselineStays(run, m, n - 1);
    }
  }

  /** The delta a poll reports is exactly the counter's growth since the baseline: nothing was dropped in between. */
  lemma DeltaIsGrowthSinceBaseline(run: seq<Poll>, n: nat)
    requires n < |run| && Counting(run) && StateAt(run, n).lastRejected.Some? && run[n].input.rejected.Some?
    ensures RejectedDelta(StateAt(run, n), run[n].input)
            == run[n].input.rejected.value - StateAt(run, n).lastRejected.value
    ensures Consumed(run, n) in {0, RejectedDelta(StateAt(run, n), run[n].input)}
  {
    var m := BaselineIsReading(run, n);
  }

  /**
   No refusal is lost: from any poll with a baseline on, through unreadable polls and failed emits, the deltas consumed
   sum to the growth of the baseline, none is negative, and what the next reading reports is the rest of the growth.
   */
  lemma RefusalsAreConserved(run: seq<Poll>, m: nat, n: nat)
    requires m <= n < |run| && Counting(run) && StateAt(run, m).lastRejected.Some? && run[n].input.rejected.Some?
    ensures StateAt(run, n).lastRejected.Some?
    ensures ConsumedSince(run, m, n) + RejectedDelta(StateAt(run, n), run[n].input)
         == run[n].input.rejected.value - StateAt(run, m).lastRejected.value
    ensures forall k :: m <= k < n ==> Consumed(run, k) >= 0
  {
    BaselineStays(run, m, n);
    ConsumedTelescopes(run, m, n);
    DeltaIsGrowthSinceBaseline(run, n);
    forall k | m <= k < n ensures Consumed(run, k) >= 0 {
      BaselineStays(run, m, k);
      ConsumedNonNegative(run, k);
    }
  }

  lemma {:induction false} ConsumedTelescopes(run: seq<Poll>, m: nat, n: nat)
    requires m <= n <= |run| && StateAt(run, m).lastRejected.Some? && StateAt(run, n).lastRejected.Some?
    ensures ConsumedSince(run, m, n) == StateAt(run, n).lastRejected.value - StateAt(run, m).lastRejected.value
    decreases n
  {
    if m < n {
      BaselineStays(run, m, n - 1);
      ConsumedTelescopes(run, m, n - 1);
    }
  }

  lemma ConsumedNonNegative(run: seq<Poll>, k: nat)
    requires k < |run| && Counting(run) && StateAt(run, k).lastRejected.Some?
    ensures Consumed(run, k) >= 0
  {
    if run[k].input.rejected.Some? {
      DeltaIsGrowthSinceBaseline(run, k);
    }
  }

  // ---------------------------------------------------------------- what consumes a refusal

  /** A readable poll of level none. */
  predicate Recovers(s: State, i: Input) { Readable(i) && LevelOf(s, i) == 0 }

  /** A finding of at least `level` was delivered at poll m, and no poll from m on to n was a full recovery. */
  ghost predicate DeliveredSince(run: seq<Poll>, m: nat, n: nat, level: int)
    requires m < n <= |run|
  {
    && Delivers(StateAt(run, m), run[m]) && LevelOf(StateAt(run, m), run[m].input) >= level
    && forall k :: m < k < n ==> !Recovers(StateAt(run, k), run[k].input)
  }

  /** The stored level is that of a delivered finding since the last full recovery. */
  lemma {:induction false} LevelWasDelivered(run: seq<Poll>, n: nat) returns (m: nat)
    requires n <= |run| && StateAt(run, n).level > 0
    ensures m < n && DeliveredSince(run, m, n, StateAt(run, n).level)
  {
    if Delivers(StateAt(run, n - 1), run[n - 1]) {
      m := n - 1;
    } else {
      m := LevelWasDelivered(run, n - 1);
    }
  }

  /**
   A refusal is consumed only by a delivered finding that reports it, or while a finding of at least this poll's level
   has been delivered since the last full recovery.
   */
  lemma ConsumptionIsReported(run: seq<Poll>, n: nat) returns (m: nat)
    requires n < |run| && Counting(run) && StateAt(run, n).lastRejected.Some? && Consumed(run, n) > 0
    ensures Readable(run[n].input) && LevelOf(StateAt(run, n), run[n].input) > 0
    ensures Consumed(run, n) == RejectedDelta(StateAt(run, n), run[n].input)
    ensures Delivers(StateAt(run, n), run[n])
         || (m < n && DeliveredSince(run, m, n, LevelOf(StateAt(run, n), run[n].input)))
  {
    m := 0;
    var s, p := StateAt(run, n), run[n];
    DeltaIsGrowthSinceBaseline(run, n);
    if !Delivers(s, p) {
      m := LevelWasDelivered(run, n);
    }
  }

  // ---------------------------------------------------------------- when a finding is returned

  /** At least 85 percent of the clients the server admits are connected. */
  predicate Full(i: Input)
    requires Readable(i)
  {
    i.connected.value * 100 >= 85 * i.maxClients.value
  }

  /** For each readable poll before n, whether it was full. */
  function Trail(run: seq<Poll>, n: nat): seq<bool>
    requires n <= |run|
  {
    if n == 0 then []
    else Trail(run, n - 1) + if Readable(run[n - 1].input) then [Full(run[n - 1].input)] else []
  }

  function TrueAtEnd(t: seq<bool>): nat {
    if t == [] || !t[|t| - 1] then 0 else TrueAtEnd(t[..|t| - 1]) + 1
  }

  /** The streak counts the full polls since the last readable one that was not; unreadable ones do not break it. */
  lemma {:induction false} StreakIsCounted(run: seq<Poll>, n: nat)
    requires n <= |run|
    ensures StateAt(run, n).streak == TrueAtEnd(Trail(run, n))
  {
    if n > 0 {
      StreakIsCounted(run, n - 1);
      if Readable(run[n - 1].input) {
        assert Trail(run, n)[..|Trail(run, n)| - 1] == Trail(run, n - 1);
      } else {
        assert Trail(run, n) == Trail(run, n - 1);
      }
    }
  }

  lemma TwoAtEnd(t: seq<bool>)
    ensures TrueAtEnd(t) >= 2 <==> |t| >= 2 && t[|t| - 1] && t[|t| - 2]
  {
    if |t| >= 2 {
      var u := t[..|t| - 1];
      assert TrueAtEnd(u) >= 1 <==> u[|u| - 1];
      assert u[|u| - 1] == t[|t| - 2];
    } else if t != [] {
      assert t[..|t| - 1] == [];
    }
  }

  /**
   The level of a readable poll adds up two signs: the counter of refusals stands above the baseline, and this poll and
   the two readable ones before it were full.
   */
  lemma LevelIs(run: seq<Poll>, n: nat)
    requires n < |run| && Readable(run[n].input)
    ensures var i, base, t := run[n].input, StateAt(run, n).lastRejected, Trail(run, n);
            var refusing := i.rejected.Some? && base.Some? && i.rejected.value > base.value;
            var sustained := Full(i) && |t| >= 2 && t[|t| - 1] && t[|t| - 2];
            LevelOf(StateAt(run, n), i) == (if refusing && sustained then 2 else if refusing || sustained then 1 else 0)
  {
    StreakIsCounted(run, n);
    TwoAtEnd(Trail(run, n));
  }

  /** What was delivered since the last full recovery is never above the stored level. */
  lemma {:induction false} DeliveredIsStored(run: seq<Poll>, m: nat, n: nat, level: int)
    requires m < n <= |run| && DeliveredSince(run, m, n, level) && level > 0
    ensures StateAt(run, n).level >= level
    decreases n
  {
    if m < n - 1 {
      assert DeliveredSince(run, m, n - 1, level);
      DeliveredIsStored(run, m, n - 1, level);
    }
  }

  /**
   A poll returns a finding exactly when it is readable, of level one or two, and no finding of at least that level has
   been delivered since the last full recovery.
   */
  lemma FindingIff(run: seq<Poll>, n: nat)
    requires n < |run|
    ensures var s, i := StateAt(run, n), run[n].input;
            Escalates(s, i) <==> && Readable(i) && LevelOf(s, i) > 0
                                 && !exists m :: 0 <= m < n && DeliveredSince(run, m, n, LevelOf(s, i))
  {
    var s, i := StateAt(run, n), run[n].input;
    if Readable(i) && LevelOf(s, i) > 0 {
      if m :| 0 <= m < n && DeliveredSince(run, m, n, LevelOf(s, i)) {
        DeliveredIsStored(run, m, n, LevelOf(s, i));
      }
      if s.level > 0 {
        var m := LevelWasDelivered(run, n);
        assert s.level >= LevelOf(s, i) ==> DeliveredSince(run, m, n, LevelOf(s, i));
      }
    }
  }
}

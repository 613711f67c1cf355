/**
 The spike detector of one metric: cooldown, severity thresholds and the consecutive-sample counter.
 Samples are judged by their z-score over the buffered window. A sample below the mean returns before the counter is
 touched, so `consecutive` spikes may have dips between them.
 */
module SpikeDetector {
  import opened Prelude
  import opened MetricStats

  datatype Severity = Warning | Critical

  /** Absolute thresholds default to infinity, here None. */
  datatype Config = Config(
    warningZ: real, criticalZ: real, warningAt: Option<real>, criticalAt: Option<real>,
    required: int, cooldownMs: int, detectDrops: bool)

  /** What one call of the detector sees: whether the buffer is ready, the z-score of the value, the value, the time. */
  datatype Reading = Reading(ready: bool, z: real, value: real, ts: int)

  datatype State = State(lastAlert: Option<int>, count: nat)

  const IDLE: State := State(None, 0)

  predicate Reaches(value: real, threshold: Option<real>) { threshold.Some? && value >= threshold.value }

  /** CRITICAL when either critical threshold is reached, otherwise WARNING when either warning one is. */
  function SeverityOf(c: Config, r: Reading): (s: Option<Severity>)
    ensures s == Some(Critical) <==> Abs(r.z) >= c.criticalZ || Reaches(r.value, c.criticalAt)
    ensures s == None ==> Abs(r.z) < c.warningZ && !Reaches(r.value, c.warningAt)
    ensures s == Some(Warning) ==> Abs(r.z) >= c.warningZ || Reaches(r.value, c.warningAt)
  {
    if Abs(r.z) >= c.criticalZ || Reaches(r.value, c.criticalAt) then Some(Critical)
    else if Abs(r.z) >= c.warningZ || Reaches(r.value, c.warningAt) then Some(Warning)
    else None
  }

  /** A recorded alert time of 0 reads as absent. */
  predicate Cooling(c: Config, st: State, r: Reading) {
    st.lastAlert.Some? && st.lastAlert.value != 0 && r.ts - st.lastAlert.value < c.cooldownMs
  }

  /** Readings that return before the counter is touched. */
  predicate Skipped(c: Config, st: State, r: Reading) {
    !r.ready || Cooling(c, st, r) || (r.z < 0.0 && !c.detectDrops)
  }

  predicate Alerts(c: Config, st: State, r: Reading) {
    !Skipped(c, st, r) && SeverityOf(c, r).Some? && st.count + 1 >= c.required
  }

  function Step(c: Config, st: State, r: Reading): State {
    if Skipped(c, st, r) then st
    else if SeverityOf(c, r).None? then st.(count := 0)
    else if Alerts(c, st, r) then State(Some(r.ts), 0)
    else st.(count := st.count + 1)
  }

  class Detector {
    const config: Config
    var lastAlertTime: Option<int>
    var consecutive: Option<nat>

    constructor (config: Config)
      ensures this.config == config && Model() == IDLE
    {
      this.config := config;
      lastAlertTime, consecutive := None, None;
    }

    function Model(): State
      reads this
    {
      State(lastAlertTime, if consecutive.Some? then consecutive.value else 0)
    }

    method Detect(r: Reading) returns (alert: Option<Severity>)
      modifies this
      ensures Model() == Step(config, old(Model()), r)
      ensures alert == if Alerts(config, old(Model()), r) then SeverityOf(config, r) else None
    {
      alert := None;
      if !r.ready { return; }
      if lastAlertTime.Some? && lastAlertTime.value != 0 && r.ts - lastAlertTime.value < config.cooldownMs { return; }
      if r.z < 0.0 && !config.detectDrops { return; }
      var severity: Option<Severity> := None;
      if Abs(r.z) >= config.criticalZ {
        severity := Some(Critical);
      } else if Abs(r.z) >= config.warningZ {
        severity := Some(Warning);
      }
      if Reaches(r.value, config.criticalAt) {
        severity := Some(Critical);
      } else if Reaches(r.value, config.warningAt) && severity.None? {
        severity := Some(Warning);
      }
      if severity.None? {
        consecutive := None;
        return;
      }
      var count := 1;
      if consecutive.Some? {
        count := consecutive.value + 1;
      }
      consecutive := Some(count);
      if count < config.required { return; }
      lastAlertTime := Some(r.ts);
      consecutive := None;
      alert := severity;
    }
  }

  // ---------------------------------------------------------------- runs

  function StateAt(c: Config, run: seq<Reading>, n: nat): State
    requires n <= |run|
  {
    if n == 0 then IDLE else Step(c, StateAt(c, run, n - 1), run[n - 1])
  }

  predicate SkippedAt(c: Config, run: seq<Reading>, n: nat)
    requires n < |run|
  {
    Skipped(c, StateAt(c, run, n), run[n])
  }

  predicate AlertAt(c: Config, run: seq<Reading>, n: nat)
    requires n < |run|
  {
    Alerts(c, StateAt(c, run, n), run[n])
  }

  predicate HotAt(c: Config, run: seq<Reading>, n: nat)
    requires n < |run|
  {
    !SkippedAt(c, run, n) && SeverityOf(c, run[n]).Some?
  }

  /** The number of judged readings over a threshold in o..n. */
  function Hot(c: Config, run: seq<Reading>, o: nat, n: nat): nat
    requires o <= n <= |run|
  {
    if n == o then 0 else Hot(c, run, o, n - 1) + if HotAt(c, run, n - 1) then 1 else 0
  }

  /** From o on, no reading was judged normal and none alerted. */
  ghost predicate Streak(c: Config, run: seq<Reading>, o: nat, n: nat)
    requires o <= n <= |run|
  {
    forall m :: o <= m < n ==> (SkippedAt(c, run, m) || HotAt(c, run, m)) && !AlertAt(c, run, m)
  }

  lemma {:induction false} CounterCountsStreak(c: Config, run: seq<Reading>, n: nat) returns (o: nat)
    requires n <= |run|
    ensures o <= n && Streak(c, run, o, n) && StateAt(c, run, n).count == Hot(c, run, o, n)
  {
    if n == 0 {
      o := 0;
    } else if AlertAt(c, run, n - 1) || !(SkippedAt(c, run, n - 1) || HotAt(c, run, n - 1)) {
      o := n;
    } else {
      o := CounterCountsStreak(c, run, n - 1);
    }
  }

  /**
   An alert closes a streak of exactly the required number of over-threshold readings (one, if fewer are required)
   with no alert and no normal reading judged in between; readings that are skipped, such as below-mean ones when
   drops are not watched, may lie in between.
   */
  lemma AlertClosesStreak(c: Config, run: seq<Reading>, n: nat) returns (o: nat)
    requires n < |run| && AlertAt(c, run, n)
    ensures o <= n && Streak(c, run, o, n)
    ensures Hot(c, run, o, n + 1) == MaxInt(1, c.required)
  {
    o := CounterCountsStreak(c, run, n);
    CounterBelowRequired(c, run, n);
  }

  /** Poll k is the last before n that alerted. */
  ghost predicate LastAlert(c: Config, run: seq<Reading>, k: nat, n: nat)
    requires n <= |run|
  {
    k < n && AlertAt(c, run, k) && forall m :: k < m < n ==> !AlertAt(c, run, m)
  }

  lemma {:induction false} LastAlertIs(c: Config, run: seq<Reading>, n: nat)
    requires n <= |run|
    ensures StateAt(c, run, n).lastAlert.None? ==> forall k :: 0 <= k < n ==> !AlertAt(c, run, k)
    ensures StateAt(c, run, n).lastAlert.Some? ==>
              exists k: nat :: LastAlert(c, run, k, n) && StateAt(c, run, n).lastAlert.value == run[k].ts
  {
    if n > 0 {
      LastAlertIs(c, run, n - 1);
      if AlertAt(c, run, n - 1) {
        assert LastAlert(c, run, n - 1, n);
      } else if StateAt(c, run, n).lastAlert.Some? {
        var k: nat :| LastAlert(c, run, k, n - 1) && StateAt(c, run, n - 1).lastAlert.value == run[k].ts;
        assert LastAlert(c, run, k, n);
      }
    }
  }

  /**
   A reading goes unjudged exactly when the buffer is not ready, when it lies below the mean and drops are not watched,
   or when the last alert before it was raised at a non-zero time less than the cooldown ago.
   */
  lemma SkippedIff(c: Config, run: seq<Reading>, n: nat)
    requires n < |run|
    ensures SkippedAt(c, run, n)
       <==> || !run[n].ready
            || (run[n].z < 0.0 && !c.detectDrops)
            || exists k: nat :: LastAlert(c, run, k, n) && run[k].ts != 0 && run[n].ts - run[k].ts < c.cooldownMs
  {
    LastAlertIs(c, run, n);
  }

  /** No streak holds more judged readings than the counter shows. */
  lemma {:induction false} CounterCoversStreak(c: Config, run: seq<Reading>, o: nat, n: nat)
    requires o <= n <= |run| && Streak(c, run, o, n)
    ensures Hot(c, run, o, n) <= StateAt(c, run, n).count
    decreases n
  {
    if o < n {
      CounterCoversStreak(c, run, o, n - 1);
    }
  }

  predicate OverThreshold(c: Config, r: Reading) {
    || r.z >= c.warningZ || -r.z >= c.warningZ || r.z >= c.criticalZ || -r.z >= c.criticalZ
    || (c.warningAt.Some? && r.value >= c.warningAt.value) || (c.criticalAt.Some? && r.value >= c.criticalAt.value)
  }

  /**
   A reading alerts exactly when it is judged, reaches one of the four thresholds, and completes a streak of at least
   the required number of such readings, with no alert and no normal reading judged in between.
   */
  lemma AlertIff(c: Config, run: seq<Reading>, n: nat)
    requires n < |run|
    ensures AlertAt(c, run, n)
       <==> && !SkippedAt(c, run, n) && OverThreshold(c, run[n])
            && exists o: nat :: o <= n && Streak(c, run, o, n) && Hot(c, run, o, n) + 1 >= c.required
  {
    var o := CounterCountsStreak(c, run, n);
    forall p: nat | p <= n && Streak(c, run, p, n) ensures Hot(c, run, p, n) <= StateAt(c, run, n).count {
      CounterCoversStreak(c, run, p, n);
    }
  }

  lemma {:induction false} CounterBelowRequired(c: Config, run: seq<Reading>, n: nat)
    requires n <= |run|
    ensures StateAt(c, run, n).count < MaxInt(1, c.required)
  {
    if n > 0 {
      CounterBelowRequired(c, run, n - 1);
    }
  }

  lemma {:induction false} LastAlertRecorded(c: Config, run: seq<Reading>, m: nat, n: nat) returns (k: nat)
    requires m < n <= |run| && AlertAt(c, run, m)
    ensures m <= k < n && AlertAt(c, run, k) && StateAt(c, run, n).lastAlert == Some(run[k].ts)
    decreases n
  {
    if AlertAt(c, run, n - 1) {
      k := n - 1;
    } else {
      k := LastAlertRecorded(c, run, m, n - 1);
    }
  }

  /** With non-decreasing non-zero timestamps, two alerts of one metric are at least the cooldown apart. */
  lemma AlertsAreSpaced(c: Config, run: seq<Reading>, m: nat, n: nat)
    requires m < n < |run| && AlertAt(c, run, m) && AlertAt(c, run, n)
    requires forall i, j :: 0 <= i <= j < |run| ==> run[i].ts <= run[j].ts
    requires forall i :: 0 <= i < |run| ==> run[i].ts != 0
    ensures run[n].ts - run[m].ts >= c.cooldownMs
  {
    var k := LastAlertRecorded(c, run, m, n);
  }

  /**
   A z-score threshold beyond the square root of the window size minus one is unreachable: the detector judges the
   value it has just added, so only an absolute threshold can raise that severity.
   */
  lemma UnreachableThreshold(c: Config, added: seq<Sample>, x: Sample, cap: nat, root: real, ready: bool)
    requires cap > 0 && c.criticalZ > 0.0
    requires var s := Values(Buffered(added + [x], cap));
             IsRoot(root, Variance(s)) && Square(c.criticalZ) > |s| as real - 1.0
    ensures var s := Values(Buffered(added + [x], cap));
            SeverityOf(c, Reading(ready, ZScore(s, root, x.value), x.value, x.timestamp)) == Some(Critical)
            <==> Reaches(x.value, c.criticalAt)
  {
    JudgedZBound(added, x, cap, root);
    var z := ZScore(Values(Buffered(added + [x], cap)), root, x.value);
    assert Square(Abs(z)) == Square(z);
    if Abs(z) >= c.criticalZ {
      SquareOrder(c.criticalZ, Abs(z));
    }
  }
}

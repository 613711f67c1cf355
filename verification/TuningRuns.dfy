/**
 The tuning loop as a feedback controller: each round recommends from the stored history, and an approved
 recommendation is applied and pushed onto that history. Bounds over whole runs.
 */
module TuningRuns {
  import opened Prelude
  import opened TuningPolicy

  // ---------------------------------------------------------------- the stored history

  /** `LPUSH` then `LTRIM 0 9`; either command may fail, and a failure is not fatal to the adjustment. */
  function Record(stored: seq<Entry>, e: Entry, written: bool, trimmed: bool): seq<Entry> {
    if !written then stored else if trimmed then Head([e] + stored) else [e] + stored
  }

  function Head(entries: seq<Entry>): seq<Entry> {
    if |entries| <= HISTORY_MAX then entries else entries[..HISTORY_MAX]
  }

  /** The direction the dispatcher records: a target equal to the current value is recorded as a loosen. */
  function RecordedDirection(from: real, to: real): Direction { if to < from then Tighten else Loosen }

  /** The cache's live threshold and its tuning history list. */
  class TunedCache {
    var threshold: real
    var history: seq<Entry>

    constructor (threshold: real)
      ensures this.threshold == threshold && history == []
    {
      this.threshold := threshold;
      history := [];
    }

    /** The apply step of a category-less threshold proposal; `pushFails` and `trimFails` are the store's failures. */
    method ApplyThresholdAdjust(from: real, to: real, signal: Option<Signal>, metrics: Option<Metrics>,
                                pushFails: bool, trimFails: bool)
      modifies this
      ensures threshold == to
      ensures history == Record(old(history), Entry(RecordedDirection(from, to), from, to, signal, metrics),
                                !pushFails, !trimFails)
    {
      threshold := to;
      var d := if to < from then Tighten else Loosen;
      if !pushFails {
        history := [Entry(d, from, to, signal, metrics)] + history;
        if !trimFails && |history| > HISTORY_MAX {
          history := history[..HISTORY_MAX];
        }
      }
    }

    /** `LRANGE 0 9`; a failed read yields no history. */
    method ReadHistory(readFails: bool) returns (r: seq<Entry>)
      ensures r == if readFails then [] else Head(history)
    {
      if readFails || |history| == 0 {
        return [];
      }
      var n := if |history| < HISTORY_MAX then |history| else HISTORY_MAX;
      return history[..n];
    }
  }

  // ---------------------------------------------------------------- runs

  type Level = x: real | x >= 0.0 witness 0.0

  /**
   What a recommendation rests on: the live threshold and history, the live threshold without its history (the read
   failed), or the threshold and history of some earlier moment, when the proposal was approved later.
   */
  datatype Sight = Live | Unread | Earlier(threshold: Level, history: seq<Entry>)

  /**
   The environment of one round: what the recommendation saw, whether an operator approved it as it is or edited its
   target, and which store commands succeed.
   */
  datatype Round = Round(samples: seq<Sample>, minSamples: int, enterprise: bool, past: PastOutcomes,
                         approved: bool, edited: Option<Level>, signal: Option<Signal>, metrics: Option<Metrics>,
                         seen: Sight, written: bool, trimmed: bool)

  /** `log` lists every applied adjustment, newest first; the service keeps only `stored`. */
  datatype Tuner = Tuner(threshold: real, stored: seq<Entry>, log: seq<Entry>)

  function BaseThreshold(t: Tuner, round: Round): real {
    if round.seen.Earlier? then round.seen.threshold else t.threshold
  }

  function BaseHistory(t: Tuner, round: Round): seq<Entry> {
    match round.seen
    case Live => Head(t.stored)
    case Unread => []
    case Earlier(_, history) => history
  }

  function RecommendRound(t: Tuner, band: real, round: Round): Recommendation {
    Recommend(round.samples, Config(BaseThreshold(t, round), map[], band),
              Request(None, round.minSamples, round.enterprise), BaseHistory(t, round), round.past)
  }

  function Target(t: Tuner, band: real, round: Round): real
    requires RecommendRound(t, band, round).Adjust?
  {
    if round.edited.Some? then round.edited.value else RecommendRound(t, band, round).target
  }

  /** The proposal names the threshold it was made for, and that is what the history records. */
  function Adjusted(t: Tuner, from: real, target: real, round: Round): Tuner {
    var e := Entry(RecordedDirection(from, target), from, target, round.signal, round.metrics);
    Tuner(target, Record(t.stored, e, round.written, round.trimmed), [e] + t.log)
  }

  /** One round. With `strictOnly`, a proposal that would not move the threshold is not applied. */
  function Step(t: Tuner, band: real, round: Round, strictOnly: bool): Tuner {
    var r := RecommendRound(t, band, round);
    if r.Adjust? && round.approved && (strictOnly ==> Target(t, band, round) != BaseThreshold(t, round))
    then Adjusted(t, BaseThreshold(t, round), Target(t, band, round), round)
    else t
  }

  type Stepper = (Tuner, Round) -> Tuner

  function StepWith(band: real, strictOnly: bool): Stepper {
    (t: Tuner, round: Round) => Step(t, band, round, strictOnly)
  }

  function Run(t: Tuner, step: Stepper, rounds: seq<Round>): Tuner
    decreases |rounds|
  {
    if rounds == [] then t else step(Run(t, step, rounds[..|rounds| - 1]), rounds[|rounds| - 1])
  }

  ghost predicate HistoryKept(rounds: seq<Round>) {
    forall r :: r in rounds ==> r.seen == Live && r.edited == None && r.written
  }

  // ---------------------------------------------------------------- what every applied adjustment satisfies

  /** The most an adjustment may move the threshold, given the length of the run it extends. */
  type Limit = (Direction, nat) -> real

  function Cap(d: Direction, band: real): real { if d == Tighten then 2.0 * band else band }

  function DampedLimit(band: real): Limit { (d: Direction, run: nat) => Cap(d, band) * StepFactor(run) }

  function Move(e: Entry): real { if e.d == Tighten then e.from - e.to else e.to - e.from }

  /** What the gates guarantee of an adjustment `e` applied on top of the newest entries `recent`. */
  ghost predicate Gated(e: Entry, recent: seq<Entry>, limit: Limit) {
    var run := LeadingRun(Directions(recent), e.d);
    && 0.0 < Move(e) <= limit(e.d, run)
    && run < VELOCITY_CAP
    && Flips([e.d] + Directions(recent)) < OSCILLATION_CAP
  }

  ghost predicate LogOk(log: seq<Entry>, limit: Limit) {
    log != [] ==>
      && Gated(log[0], Head(log[1..]), limit)
      && (|log| > 1 ==> log[1].to == log[0].from)
      && LogOk(log[1..], limit)
  }

  /** The ten newest applied adjustments are what the next round reads back. */
  ghost predicate Tracks(t: Tuner) { Head(t.stored) == Head(t.log) }

  ghost predicate Inv(t: Tuner, limit: Limit) {
    && t.threshold >= 0.0
    && Tracks(t)
    && LogOk(t.log, limit)
    && (t.log != [] ==> t.log[0].to == t.threshold)
  }

  lemma HeadOfPush(e: Entry, stored: seq<Entry>, log: seq<Entry>, trimmed: bool)
    requires Head(stored) == Head(log)
    ensures Head(Record(stored, e, true, trimmed)) == Head([e] + log)
  {
    if |stored| < HISTORY_MAX {
      assert |Head(log)| < HISTORY_MAX;
      assert stored == Head(stored) == Head(log) == log;
    } else {
      assert ([e] + stored)[..HISTORY_MAX] == [e] + Head(stored)[..HISTORY_MAX - 1];
      assert ([e] + log)[..HISTORY_MAX] == [e] + Head(log)[..HISTORY_MAX - 1];
    }
    assert Head(Head([e] + stored)) == Head([e] + stored);
  }

  /** The round's adjustment is applied, and moves the threshold it was made for. */
  predicate Applies(t: Tuner, band: real, round: Round) {
    RecommendRound(t, band, round).Adjust? && round.approved && Target(t, band, round) != BaseThreshold(t, round)
  }

  function After(t: Tuner, band: real, round: Round): Tuner
    requires Applies(t, band, round)
  {
    Adjusted(t, BaseThreshold(t, round), Target(t, band, round), round)
  }

  /**
   What a round owes the history: an applied adjustment is written, starts from the live threshold, and is one the
   newest true entries allow.
   */
  ghost predicate Honours(t: Tuner, band: real, round: Round) {
    Applies(t, band, round) ==>
      && round.written && (t.log != [] ==> BaseThreshold(t, round) == t.threshold)
      && Gated(After(t, band, round).log[0], Head(t.log), DampedLimit(band))
  }

  lemma TargetNonNegative(t: Tuner, band: real, round: Round)
    requires band >= 0.0 && t.threshold >= 0.0 && RecommendRound(t, band, round).Adjust?
    ensures Target(t, band, round) >= 0.0
  {
    RecommendationBounds(round.samples, Config(BaseThreshold(t, round), map[], band),
                         Request(None, round.minSamples, round.enterprise), BaseHistory(t, round), round.past);
  }

  /** After a strict adjustment the stored history still shows the newest entries exactly when the push succeeded. */
  lemma TracksIffWritten(t: Tuner, limit: Limit, round: Round, from: real, target: real)
    requires Inv(t, limit) && target != from
    ensures Tracks(Adjusted(t, from, target, round)) <==> round.written
  {
    var t' := Adjusted(t, from, target, round);
    if round.written {
      HeadOfPush(t'.log[0], t.stored, t.log, round.trimmed);
    } else if |t.log| >= HISTORY_MAX {
      assert Head(t'.log)[0] == t'.log[0] && Head(t.log)[0] == t.log[0];
      assert Head(t'.log)[1] == t.log[0] && Head(t.log)[1] == t.log[1];
    }
  }

  /** An adjustment recommended from the live history, and not edited, is allowed by the newest true entries. */
  lemma LiveAdjustmentIsGated(t: Tuner, band: real, round: Round)
    requires band >= 0.0 && Inv(t, DampedLimit(band)) && Applies(t, band, round)
    requires round.seen == Live && round.edited == None
    ensures Gated(After(t, band, round).log[0], Head(t.log), DampedLimit(band))
  {
    RecommendationGated(round.samples, Config(t.threshold, map[], band),
                        Request(None, round.minSamples, round.enterprise), Head(t.stored), round.past);
    GatedEntry(t, band, round, RecommendRound(t, band, round));
  }

  /**
   The controller's invariant survives a round exactly when the round honours the history. For an unedited proposal
   made from the live history that comes down to writing the applied adjustment.
   */
  lemma StepKeepsInvIff(t: Tuner, band: real, round: Round)
    requires band >= 0.0 && Inv(t, DampedLimit(band))
    ensures Inv(Step(t, band, round, true), DampedLimit(band)) <==> Honours(t, band, round)
    ensures round.seen == Live && round.edited == None ==>
              (Honours(t, band, round) <==> (Applies(t, band, round) ==> round.written))
  {
    if Applies(t, band, round) {
      var from, target := BaseThreshold(t, round), Target(t, band, round);
      TargetNonNegative(t, band, round);
      TracksIffWritten(t, DampedLimit(band), round, from, target);
      assert Adjusted(t, from, target, round).log[1..] == t.log;
      if round.seen == Live && round.edited == None {
        LiveAdjustmentIsGated(t, band, round);
      }
      if Honours(t, band, round) {
        AdjustedKeepsInv(t, DampedLimit(band), round, from, target);
      }
    }
  }

  lemma GatedEntry(t: Tuner, band: real, round: Round, r: Recommendation)
    requires Tracks(t) && t.threshold >= 0.0
    requires r.Adjust? && r.target != t.threshold && GatedAdjust(t.threshold, band, Head(t.stored), r)
    ensures Gated(Adjusted(t, t.threshold, r.target, round).log[0], Head(t.log), DampedLimit(band))
  {
    assert Adjusted(t, t.threshold, r.target, round).log[0].d == r.direction;
  }

  lemma AdjustedKeepsInv(t: Tuner, limit: Limit, round: Round, from: real, target: real)
    requires Inv(t, limit) && round.written && target >= 0.0 && (t.log != [] ==> from == t.threshold)
    requires Gated(Adjusted(t, from, target, round).log[0], Head(t.log), limit)
    ensures Inv(Adjusted(t, from, target, round), limit)
  {
    var t' := Adjusted(t, from, target, round);
    HeadOfPush(t'.log[0], t.stored, t.log, round.trimmed);
    assert t'.log[1..] == t.log;
  }

  function TunerAfter(threshold: real, band: real, rounds: seq<Round>): Tuner {
    Run(Tuner(threshold, [], []), StepWith(band, true), rounds)
  }

  ghost predicate SoundAfter(threshold: real, band: real, rounds: seq<Round>, n: nat)
    requires n <= |rounds|
  {
    Inv(TunerAfter(threshold, band, rounds[..n]), DampedLimit(band))
  }

  ghost predicate HonouredAt(threshold: real, band: real, rounds: seq<Round>, n: nat)
    requires n < |rounds|
  {
    Honours(TunerAfter(threshold, band, rounds[..n]), band, rounds[n])
  }

  lemma SoundNext(threshold: real, band: real, rounds: seq<Round>, n: nat)
    requires band >= 0.0 && n < |rounds| && SoundAfter(threshold, band, rounds, n)
    ensures SoundAfter(threshold, band, rounds, n + 1) <==> HonouredAt(threshold, band, rounds, n)
  {
    assert rounds[..n + 1][..n] == rounds[..n];
    StepKeepsInvIff(TunerAfter(threshold, band, rounds[..n]), band, rounds[n]);
  }

  lemma {:induction false} SoundWhileHonoured(threshold: real, band: real, rounds: seq<Round>, n: nat)
    requires threshold >= 0.0 && band >= 0.0 && n <= |rounds|
    requires forall k :: 0 <= k < n ==> HonouredAt(threshold, band, rounds, k)
    ensures SoundAfter(threshold, band, rounds, n)
  {
    if n > 0 {
      SoundWhileHonoured(threshold, band, rounds, n - 1);
      SoundNext(threshold, band, rounds, n - 1);
    }
  }

  /** Over a whole run the invariant holds after every round exactly when every round honours the history. */
  lemma RunSoundIff(threshold: real, band: real, rounds: seq<Round>)
    requires threshold >= 0.0 && band >= 0.0
    ensures (forall n :: 0 <= n <= |rounds| ==> SoundAfter(threshold, band, rounds, n))
       <==> (forall n :: 0 <= n < |rounds| ==> HonouredAt(threshold, band, rounds, n))
  {
    if forall n :: 0 <= n <= |rounds| ==> SoundAfter(threshold, band, rounds, n) {
      forall n | 0 <= n < |rounds| ensures HonouredAt(threshold, band, rounds, n) {
        assert SoundAfter(threshold, band, rounds, n) && SoundAfter(threshold, band, rounds, n + 1);
        SoundNext(threshold, band, rounds, n);
      }
    }
    if forall n :: 0 <= n < |rounds| ==> HonouredAt(threshold, band, rounds, n) {
      forall n | 0 <= n <= |rounds| ensures SoundAfter(threshold, band, rounds, n) {
        SoundWhileHonoured(threshold, band, rounds, n);
      }
    }
  }

  lemma {:induction false} RunKeepsInv(threshold: real, band: real, rounds: seq<Round>)
    requires threshold >= 0.0 && band >= 0.0 && HistoryKept(rounds)
    ensures Inv(TunerAfter(threshold, band, rounds), DampedLimit(band))
  {
    if rounds != [] {
      var before := rounds[..|rounds| - 1];
      assert forall r :: r in before ==> r in rounds;
      RunKeepsInv(threshold, band, before);
      StepKeepsInvIff(TunerAfter(threshold, band, before), band, rounds[|rounds| - 1]);
    }
  }

  // ---------------------------------------------------------------- consequences for blocks of the log

  ghost predicate AllIn(entries: seq<Entry>, d: Direction) { forall e :: e in entries ==> e.d == d }

  lemma {:induction false} LogOkSuffix(log: seq<Entry>, limit: Limit, i: nat)
    requires LogOk(log, limit) && i <= |log|
    ensures LogOk(log[i..], limit)
  {
    if i > 0 {
      LogOkSuffix(log[1..], limit, i - 1);
      assert log[1..][i - 1..] == log[i..];
    }
  }

  lemma {:induction false} LeadingRunAtLeast(ds: seq<Direction>, d: Direction, n: nat)
    requires n <= |ds| && forall i :: 0 <= i < n ==> ds[i] == d
    ensures LeadingRun(ds, d) >= n
  {
    if n > 0 {
      LeadingRunAtLeast(ds[1..], d, n - 1);
    }
  }

  lemma {:induction false} FlipsPrefix(ds: seq<Direction>, n: nat)
    requires n <= |ds|
    ensures Flips(ds[..n]) <= Flips(ds)
  {
    if n >= 2 {
      assert ds[..n][1..] == ds[1..][..n - 1];
      FlipsPrefix(ds[1..], n - 1);
    }
  }

  lemma {:induction false} StreakShort(log: seq<Entry>, limit: Limit, n: nat)
    requires LogOk(log, limit) && n <= |log| && n > 0 && AllIn(log[..n], log[0].d)
    ensures n <= VELOCITY_CAP
    ensures LeadingRun(Directions(Head(log[1..])), log[0].d) >= n - 1
  {
    var recent := Head(log[1..]);
    var m := if n - 1 <= |recent| then n - 1 else |recent|;
    forall i | 0 <= i < m ensures Directions(recent)[i] == log[0].d {
      assert recent[i] == log[..n][i + 1];
    }
    LeadingRunAtLeast(Directions(recent), log[0].d, m);
  }

  ghost predicate Antitone(limit: Limit) {
    forall d: Direction, a: nat, b: nat :: a <= b ==> limit(d, b) <= limit(d, a)
  }

  /** The most n steps in a row can move the threshold. */
  function LimitSum(limit: Limit, d: Direction, n: nat): real {
    if n == 0 then 0.0 else limit(d, n - 1) + LimitSum(limit, d, n - 1)
  }

  function Travel(oldest: Entry, newest: Entry, d: Direction): real {
    if d == Tighten then oldest.from - newest.to else newest.to - oldest.from
  }

  /** The newest of n equal steps is damped by the n - 1 before it. */
  lemma {:induction false} NewestStep(log: seq<Entry>, limit: Limit, n: nat, d: Direction)
    requires Antitone(limit) && LogOk(log, limit) && 0 < n <= |log| && AllIn(log[..n], d)
    ensures log[0].d == d && Move(log[0]) <= limit(d, n - 1)
    ensures n > 1 ==> log[1].to == log[0].from && AllIn(log[1..][..n - 1], d)
  {
    assert log[0] == log[..n][0];
    StreakShort(log, limit, n);
    if n > 1 {
      assert forall e :: e in log[1..][..n - 1] ==> e in log[..n];
    }
  }

  lemma {:induction false} StreakTravel(log: seq<Entry>, limit: Limit, n: nat, d: Direction)
    requires Antitone(limit) && LogOk(log, limit) && 0 < n <= |log| && AllIn(log[..n], d)
    ensures Travel(log[n - 1], log[0], d) <= LimitSum(limit, d, n)
  {
    NewestStep(log, limit, n, d);
    if n > 1 {
      StreakTravel(log[1..], limit, n - 1, d);
    } else {
      assert LimitSum(limit, d, 0) == 0.0;
    }
  }

  lemma StepFactorAntitone(a: nat, b: nat)
    requires a <= b
    ensures StepFactor(b) <= StepFactor(a)
  {
    StepFactorBounds(a);
    StepFactorBounds(b);
  }

  lemma DampedLimitAntitone(band: real)
    requires band >= 0.0
    ensures Antitone(DampedLimit(band))
  {
    forall d: Direction, a: nat, b: nat | a <= b ensures DampedLimit(band)(d, b) <= DampedLimit(band)(d, a) {
      StepFactorAntitone(a, b);
      MulMonotone(StepFactor(b), StepFactor(a), Cap(d, band));
    }
  }

  lemma DampedLimitAt(band: real, d: Direction, n: nat)
    ensures DampedLimit(band)(d, n) * (1.0 + n as real * 0.5) == Cap(d, band)
  {
    StepFactorBounds(n);
    Reassociate(Cap(d, band), StepFactor(n), 1.0 + n as real * 0.5);
  }

  lemma Reassociate(a: real, b: real, c: real)
    requires b * c == 1.0
    ensures a * b * c == a
  {
    assert a * b * c == a * (b * c);
  }

  /** 1 + 2/3 + 1/2 + 2/5 + 1/3 = 2.9: five steps of one direction add up to at most 2.9 caps. */
  lemma FiveStepsBound(limit: Limit, d: Direction, cap: real, n: nat)
    requires cap >= 0.0 && n <= VELOCITY_CAP
    requires limit(d, 0) == cap && limit(d, 1) * 1.5 == cap && limit(d, 2) * 2.0 == cap
    requires limit(d, 3) * 2.5 == cap && limit(d, 4) * 3.0 == cap
    ensures LimitSum(limit, d, n) <= 2.9 * cap
  {
    assert LimitSum(limit, d, 1) == limit(d, 0);
    assert LimitSum(limit, d, 2) == limit(d, 0) + limit(d, 1);
    assert LimitSum(limit, d, 3) == limit(d, 0) + limit(d, 1) + limit(d, 2);
    assert LimitSum(limit, d, 4) == limit(d, 0) + limit(d, 1) + limit(d, 2) + limit(d, 3);
    assert LimitSum(limit, d, 5) == limit(d, 0) + limit(d, 1) + limit(d, 2) + limit(d, 3) + limit(d, 4);
  }

  lemma DampedLimitSum(band: real, d: Direction, n: nat)
    requires band >= 0.0 && n <= VELOCITY_CAP
    ensures LimitSum(DampedLimit(band), d, n) <= 2.9 * Cap(d, band)
  {
    DampedLimitAt(band, d, 0);
    DampedLimitAt(band, d, 1);
    DampedLimitAt(band, d, 2);
    DampedLimitAt(band, d, 3);
    DampedLimitAt(band, d, 4);
    FiveStepsBound(DampedLimit(band), d, Cap(d, band), n);
  }

  // ---------------------------------------------------------------- the run theorems

  /** The log of every strict run from an empty history whose history reads and pushes succeed. */
  function RunLog(threshold: real, band: real, rounds: seq<Round>): seq<Entry> {
    TunerAfter(threshold, band, rounds).log
  }

  /** No direction is applied more than five times in a row. */
  lemma NoRunawayStreak(threshold: real, band: real, rounds: seq<Round>, i: nat, j: nat, d: Direction)
    requires threshold >= 0.0 && band >= 0.0 && HistoryKept(rounds)
    requires var log := RunLog(threshold, band, rounds); i <= j <= |log| && AllIn(log[i..j], d)
    ensures j - i <= 5
  {
    var log := RunLog(threshold, band, rounds);
    RunKeepsInv(threshold, band, rounds);
    if i < j {
      LogOkSuffix(log, DampedLimit(band), i);
      assert log[i..][..j - i] == log[i..j];
      assert log[i] == log[i..j][0];
      StreakShort(log[i..], DampedLimit(band), j - i);
    }
  }

  /** Any eleven consecutive adjustments contain at most two direction flips, though only ten are remembered. */
  lemma NoOscillation(threshold: real, band: real, rounds: seq<Round>, i: nat, j: nat)
    requires threshold >= 0.0 && band >= 0.0 && HistoryKept(rounds)
    requires i <= j <= |RunLog(threshold, band, rounds)| && j - i <= 11
    ensures Flips(Directions(RunLog(threshold, band, rounds)[i..j])) <= 2
  {
    RunKeepsInv(threshold, band, rounds);
    BlockFlips(RunLog(threshold, band, rounds), DampedLimit(band), i, j);
  }

  lemma BlockFlips(log: seq<Entry>, limit: Limit, i: nat, j: nat)
    requires LogOk(log, limit) && i <= j <= |log| && j - i <= 11
    ensures Flips(Directions(log[i..j])) <= 2
  {
    if i < j {
      LogOkSuffix(log, limit, i);
      assert log[i..][..j - i] == log[i..j];
      NewestFlips(log[i..], limit, j - i);
    }
  }

  lemma NewestFlips(log: seq<Entry>, limit: Limit, n: nat)
    requires LogOk(log, limit) && 0 < n <= |log| && n <= 11
    ensures Flips(Directions(log[..n])) <= 2
  {
    var recent := Head(log[1..]);
    var ds := [log[0].d] + Directions(recent);
    forall k | 0 <= k < n ensures log[k].d == ds[k] {
      if k > 0 {
        assert recent[k - 1] == log[k];
      }
    }
    assert Directions(log[..n]) == ds[..n];
    FlipsPrefix(ds, n);
  }

  /** A streak of tightenings lowers the threshold by at most 5.8 bands in total; of loosenings, raises it by 2.9. */
  lemma StreakTravelBounded(threshold: real, band: real, rounds: seq<Round>, i: nat, j: nat, d: Direction)
    requires threshold >= 0.0 && band >= 0.0 && HistoryKept(rounds)
    requires var log := RunLog(threshold, band, rounds); i < j <= |log| && AllIn(log[i..j], d)
    ensures var log := RunLog(threshold, band, rounds);
            Travel(log[j - 1], log[i], d) <= (if d == Tighten then 5.8 else 2.9) * band
  {
    var log := RunLog(threshold, band, rounds);
    var rest := SoundSuffix(threshold, band, rounds, i);
    NoRunawayStreak(threshold, band, rounds, i, j, d);
    assert rest[..j - i] == log[i..j] && rest[j - i - 1] == log[j - 1] && rest[0] == log[i];
    SoundStreakTravel(rest, band, j - i, d);
  }

  lemma SoundSuffix(threshold: real, band: real, rounds: seq<Round>, i: nat) returns (rest: seq<Entry>)
    requires threshold >= 0.0 && band >= 0.0 && HistoryKept(rounds) && i <= |RunLog(threshold, band, rounds)|
    ensures rest == RunLog(threshold, band, rounds)[i..] && LogOk(rest, DampedLimit(band))
  {
    rest := RunLog(threshold, band, rounds)[i..];
    RunKeepsInv(threshold, band, rounds);
    LogOkSuffix(RunLog(threshold, band, rounds), DampedLimit(band), i);
  }

  lemma {:induction false} SoundStreakTravel(log: seq<Entry>, band: real, n: nat, d: Direction)
    requires band >= 0.0 && LogOk(log, DampedLimit(band)) && 0 < n <= |log| && AllIn(log[..n], d) && n <= 5
    ensures Travel(log[n - 1], log[0], d) <= 2.9 * Cap(d, band)
  {
    DampedLimitAntitone(band);
    DampedLimitSum(band, d, n);
    StreakTravel(log, DampedLimit(band), n, d);
  }

  /** Consecutive log entries chain, so the travel above is the net move of the live threshold. */
  lemma LogChains(threshold: real, band: real, rounds: seq<Round>, k: nat)
    requires threshold >= 0.0 && band >= 0.0 && HistoryKept(rounds)
    requires k < |RunLog(threshold, band, rounds)|
    ensures var t := TunerAfter(threshold, band, rounds);
            && t.threshold >= 0.0
            && t.log[k].to == (if k == 0 then t.threshold else t.log[k - 1].from)
  {
    RunKeepsInv(threshold, band, rounds);
    if k > 0 {
      LogOkSuffix(RunLog(threshold, band, rounds), DampedLimit(band), k - 1);
    }
  }

  // ---------------------------------------------------------------- why the run theorems need their conditions

  /** The recorded direction is the recommended one exactly when the recommendation moves the threshold. */
  lemma RecordedFaithfullyIffStrict(t: Tuner, band: real, round: Round)
    requires band >= 0.0 && t.threshold >= 0.0 && RecommendRound(t, band, round).Adjust?
    ensures var r, from := RecommendRound(t, band, round), BaseThreshold(t, round);
            RecordedDirection(from, r.target) == r.direction <==> r.target != from
  {
    var _, _ := AdjustOrigin(round.samples, Config(BaseThreshold(t, round), map[], band),
                             Request(None, round.minSamples, round.enterprise), BaseHistory(t, round), round.past);
  }

  /** A window holding one hit far above any threshold in play: it always reads as an uncertain hit. */
  function FarHit(score: real): seq<Sample> { [Sample(score, true, "all", None)] }

  function FarHitRound(score: real, seen: Sight, written: bool): Round {
    Round(FarHit(score), 1, false, PastOutcomes(0, 0), true, None, None, None, seen, written, true)
  }

  lemma FarHitProposes(score: real, threshold: real, band: real)
    requires band >= 0.0 && 0.0 <= threshold < score
    ensures var w := WindowOf(FarHit(score), Config(threshold, map[], band), Request(None, 1, false));
            && |Relevant(FarHit(score), None)| == 1
            && Propose(w) == Some(Proposal(Tighten, MaxReal(0.0, threshold - band * 0.6), UncertainHits))
            && w.threshold == threshold
            && !RecallCostTooHigh(w, MaxReal(0.0, threshold - band * 0.6))
  {
    var s := FarHit(score);
    var w := WindowOf(s, Config(threshold, map[], band), Request(None, 1, false));
    assert s[1..] == [];
    assert w.hits == s;
    assert w.misses == [];
    assert w.UncertainHits() == s;
    assert Rate(1, 1) == 1.0;
    assert Above(s, MaxReal(0.0, threshold - band * 0.6), threshold) == [];
  }

  /** The room n undampened steps of one size take. */
  function Room(n: nat, step: real): real { if n == 0 then 0.0 else step + Room(n - 1, step) }

  /** Without a history to hold it back, a far hit moves the threshold by the full step. */
  lemma BlindStep(t: Tuner, band: real, score: real, seen: Sight, written: bool)
    requires band > 0.0 && band * 0.6 <= t.threshold < score
    requires seen == Unread || (seen == Live && t.stored == [])
    ensures Tightened(t, Step(t, band, FarHitRound(score, seen, written), true), band * 0.6)
    ensures !written ==> Step(t, band, FarHitRound(score, seen, written), true).stored == t.stored
  {
    FarHitRecommends(score, t.threshold, band, []);
  }

  /** If history pushes fail (a tolerated failure), a tightening streak of any length can be applied. */
  lemma UnwrittenHistoryRunsAway(n: nat, band: real) returns (rounds: seq<Round>)
    requires band > 0.0
    ensures forall r :: r in rounds ==> r.seen == Live && !r.written
    ensures var t := TunerAfter(Room(n, band * 0.6), band, rounds);
            |t.log| == n && AllIn(t.log, Tighten)
  {
    var step, blind := StepWith(band, true), (t: Tuner) => t.stored == [];
    forall t: Tuner, score | blind(t) && band * 0.6 <= t.threshold < score
      ensures var t' := step(t, FarHitRound(score, Live, false)); Tightened(t, t', band * 0.6) && blind(t')
    {
      BlindStep(t, band, score, Live, false);
    }
    assert AlwaysTightens(step, band * 0.6, blind, Live, false);
    rounds := TightensForever(n, 0.0, band * 0.6, step, blind, Live, false);
  }

  /** If history reads fail (tolerated as well), the same streak runs away although every entry is written. */
  lemma UnreadHistoryRunsAway(n: nat, band: real) returns (rounds: seq<Round>)
    requires band > 0.0
    ensures forall r :: r in rounds ==> r.seen == Unread && r.written
    ensures var t := TunerAfter(Room(n, band * 0.6), band, rounds);
            |t.log| == n && AllIn(t.log, Tighten)
  {
    var step, blind := StepWith(band, true), (t: Tuner) => true;
    forall t: Tuner, score | blind(t) && band * 0.6 <= t.threshold < score
      ensures var t' := step(t, FarHitRound(score, Unread, true)); Tightened(t, t', band * 0.6) && blind(t')
    {
      BlindStep(t, band, score, Unread, true);
    }
    assert AlwaysTightens(step, band * 0.6, blind, Unread, true);
    rounds := TightensForever(n, 0.0, band * 0.6, step, blind, Unread, true);
  }

  ghost predicate Tightened(t: Tuner, t': Tuner, size: real) {
    && t'.threshold == t.threshold - size
    && |t'.log| == |t.log| + 1 && t'.log[0].d == Tighten && t'.log[1..] == t.log
  }

  /** From every state the next recommendation is blind in, a far hit moves the threshold by the full step. */
  ghost predicate AlwaysTightens(step: Stepper, size: real, blind: Tuner -> bool, seen: Sight, written: bool) {
    forall t: Tuner, score :: blind(t) && size <= t.threshold < score ==>
                                var t' := step(t, FarHitRound(score, seen, written));
                                Tightened(t, t', size) && blind(t')
  }

  lemma TightensOnce(t: Tuner, step: Stepper, size: real, blind: Tuner -> bool, round: Round)
    requires AlwaysTightens(step, size, blind, round.seen, round.written) && blind(t)
    requires |round.samples| > 0 && size <= t.threshold < round.samples[0].score && AllIn(t.log, Tighten)
    requires round == FarHitRound(round.samples[0].score, round.seen, round.written)
    ensures var t' := step(t, round);
            blind(t') && |t'.log| == |t.log| + 1 && AllIn(t'.log, Tighten) && t'.threshold == t.threshold - size
  {
    var t' := step(t, FarHitRound(round.samples[0].score, round.seen, round.written));
    assert Tightened(t, t', size);
    assert t'.log == [t'.log[0]] + t.log;
  }

  lemma {:induction false} TightensForever(n: nat, spare: real, size: real, step: Stepper, blind: Tuner -> bool,
                                           seen: Sight, written: bool) returns (rounds: seq<Round>)
    requires size > 0.0 && spare >= 0.0
    requires AlwaysTightens(step, size, blind, seen, written) && forall x: real :: blind(Tuner(x, [], []))
    ensures forall r :: r in rounds ==> r.seen == seen && r.written == written
    ensures var t := Run(Tuner(spare + Room(n, size), [], []), step, rounds);
            blind(t) && |t.log| == n && AllIn(t.log, Tighten) && t.threshold == spare
  {
    var start := Tuner(spare + Room(n, size), [], []);
    if n == 0 {
      rounds := [];
    } else {
      var before := TightensForever(n - 1, spare + size, size, step, blind, seen, written);
      assert start == Tuner(spare + size + Room(n - 1, size), [], []);
      rounds := OneMore(start, step, before, size, blind, FarHitRound(spare + size + 1.0, seen, written));
    }
  }

  lemma OneMore(start: Tuner, step: Stepper, before: seq<Round>, size: real, blind: Tuner -> bool, round: Round)
    returns (rounds: seq<Round>)
    requires var t := Run(start, step, before);
             && blind(t) && AllIn(t.log, Tighten) && AlwaysTightens(step, size, blind, round.seen, round.written)
             && |round.samples| > 0 && size <= t.threshold < round.samples[0].score
             && round == FarHitRound(round.samples[0].score, round.seen, round.written)
    ensures rounds == before + [round]
    ensures var t, t' := Run(start, step, before), Run(start, step, rounds);
            && blind(t') && |t'.log| == |t.log| + 1 && AllIn(t'.log, Tighten) && t'.threshold == t.threshold - size
  {
    rounds := before + [round];
    assert rounds[..|rounds| - 1] == before;
    TightensOnce(Run(start, step, before), step, size, blind, round);
  }

  lemma FarHitRecommends(score: real, threshold: real, band: real, history: seq<Entry>)
    requires band >= 0.0 && 0.0 <= threshold < score && AllIn(history, Loosen)
    ensures Recommend(FarHit(score), Config(threshold, map[], band), Request(None, 1, false), history,
            PastOutcomes(0, 0))
         == Adjust(Tighten, MaxReal(0.0, threshold - band * 0.6), UncertainHits, 1.0)
  {
    FarHitProposes(score, threshold, band);
    AllLoosenUncapped(history);
  }

  lemma StaleStep(t: Tuner, band: real, threshold: Level)
    requires 0.0 < band * 0.6 <= threshold && AllIn(t.log, Tighten)
    ensures var t' := Step(t, band, FarHitRound(threshold + 1.0, Earlier(threshold, []), true), true);
            |t'.log| == |t.log| + 1 && AllIn(t'.log, Tighten)
  {
    FarHitRecommends(threshold + 1.0, threshold, band, []);
  }

  /** Recommendations that rest on an earlier state, from before any adjustment, are never held back either. */
  lemma {:induction false} StaleRecommendationsRunAway(n: nat, band: real, threshold: Level)
    returns (rounds: seq<Round>)
    requires 0.0 < band * 0.6 <= threshold
    ensures forall r :: r in rounds ==> r.seen == Earlier(threshold, []) && r.edited == None && r.written
    ensures var t := TunerAfter(threshold, band, rounds);
            |t.log| == n && AllIn(t.log, Tighten)
  {
    if n == 0 {
      rounds := [];
    } else {
      var before := StaleRecommendationsRunAway(n - 1, band, threshold);
      rounds := before + [FarHitRound(threshold + 1.0, Earlier(threshold, []), true)];
      assert rounds[..|rounds| - 1] == before;
      StaleStep(TunerAfter(threshold, band, before), band, threshold);
    }
  }

  /** If no-op tightenings are applied, they are recorded as loosenings, and that streak has no bound either. */
  lemma {:induction false} NoOpsRunAway(n: nat, band: real) returns (rounds: seq<Round>)
    requires band >= 0.0
    ensures HistoryKept(rounds)
    ensures var t := Run(Tuner(0.0, [], []), StepWith(band, false), rounds);
            && t.threshold == 0.0 && |t.log| == n && AllIn(t.log, Loosen) && AllIn(t.stored, Loosen)
  {
    if n == 0 {
      rounds := [];
    } else {
      var before := NoOpsRunAway(n - 1, band);
      var round := FarHitRound(1.0, Live, true);
      rounds := before + [round];
      assert rounds[..|rounds| - 1] == before;
      var t := Run(Tuner(0.0, [], []), StepWith(band, false), before);
      FarHitRecommends(1.0, 0.0, band, Head(t.stored));
    }
  }

  lemma {:induction false} FlipsConstant(ds: seq<Direction>, d: Direction)
    requires forall i :: 0 <= i < |ds| ==> ds[i] == d
    ensures Flips(ds) == 0
  {
    if |ds| >= 2 {
      FlipsConstant(ds[1..], d);
    }
  }

  lemma {:induction false} NoLastSame(history: seq<Entry>)
    requires AllIn(history, Loosen)
    ensures LastSame(history, Tighten) == None
  {
    if history != [] {
      NoLastSame(history[1..]);
    }
  }

  lemma AllLoosenUncapped(history: seq<Entry>)
    requires AllIn(history, Loosen)
    ensures Dampen(history, Tighten).factor == 1.0 && !Dampen(history, Tighten).capped
    ensures LastSame(history, Tighten) == None
  {
    NoLastSame(history);
    var ds := Directions(history);
    FlipsConstant(ds, Loosen);
    assert ([Tighten] + ds)[1..] == ds;
    assert LeadingRun(ds, Tighten) == 0;
    assert StepFactor(0) == 1.0;
  }
}

/** The threshold-tuning policy of a semantic cache: the recommendation and its dampening. */
module TuningPolicy {
  // What `thresholdRecommendation` proposes from a window of similarity samples, and how `computeDampening` and
  // `checkLastOutcome` hold it back. Scores, rates and thresholds are real numbers; rounding is not modelled.

  import opened Prelude
  import opened Sorting

  const RECALL_COST_MAX: real := 0.15
  const HISTORY_MAX: nat := 10
  const VELOCITY_CAP: nat := 5
  const OSCILLATION_CAP: nat := 3

  datatype Direction = Tighten | Loosen

  /** `OtherSignal` stands for a recorded signal name the outcome check does not know (such as 'optimal'). */
  datatype Signal = UncertainHits | DistantHits | NearMisses | LowHitRate | OtherSignal

  datatype Metrics = Metrics(hitRate: real, uncertainHitRate: real, distantHitRate: real, nearMissRate: real)

  /** One applied adjustment, as recorded in the tuning history. */
  datatype Entry = Entry(d: Direction, from: real, to: real, signal: Option<Signal>, metrics: Option<Metrics>)

  datatype Sample = Sample(score: real, hit: bool, category: string, cost: Option<real>)

  datatype Config = Config(defaultThreshold: real, categoryThresholds: map<string, real>, band: real)

  datatype Request = Request(category: Option<string>, minSamples: int, enterprise: bool)

  /** How often past proposals with the same signal were judged. */
  datatype PastOutcomes = PastOutcomes(degraded: nat, improved: nat)

  datatype Recommendation =
    | InsufficientData
    | Optimal
    | Adjust(direction: Direction, target: real, signal: Signal, factor: real)

  /** A raw proposal, before the recall guard and the dampening. */
  datatype Proposal = Proposal(direction: Direction, target: real, signal: Signal)

  // ---------------------------------------------------------------- statistics of a window

  function Rate(part: nat, whole: nat): (r: real)
    ensures part <= whole ==> 0.0 <= r <= 1.0
  {
    if whole == 0 then 0.0 else part as real / whole as real
  }

  function Ratio(part: real, whole: real): real {
    if whole > 0.0 then part / whole else 0.0
  }

  function Relevant(samples: seq<Sample>, category: Option<string>): seq<Sample> {
    if category.Some? && category.value != "" then Filter(samples, (s: Sample) => s.category == category.value)
    else samples
  }

  function ThresholdFor(config: Config, category: Option<string>): real {
    if category.Some? && category.value in config.categoryThresholds then config.categoryThresholds[category.value]
    else config.defaultThreshold
  }

  function Hits(samples: seq<Sample>): (r: seq<Sample>) { Filter(samples, (s: Sample) => s.hit) }

  function Misses(samples: seq<Sample>): (r: seq<Sample>) { Filter(samples, (s: Sample) => !s.hit) }

  /** The samples with lo < score <= hi. */
  function Above(samples: seq<Sample>, lo: real, hi: real): (r: seq<Sample>) {
    Filter(samples, (s: Sample) => lo < s.score <= hi)
  }

  function Costed(samples: seq<Sample>): seq<Sample> { Filter(samples, (s: Sample) => s.cost.Some?) }

  function SumCost(samples: seq<Sample>): real {
    if samples == [] then 0.0
    else (match samples[0].cost case None => 0.0 case Some(c) => c) + SumCost(samples[1..])
  }

  /** Sum of score - base. */
  function SumDelta(samples: seq<Sample>, base: real): real {
    if samples == [] then 0.0 else (samples[0].score - base) + SumDelta(samples[1..], base)
  }

  function Scores(samples: seq<Sample>): (r: seq<real>)
    ensures |r| == |samples|
  {
    seq(|samples|, i requires 0 <= i < |samples| => samples[i].score)
  }

  function SortScores(scores: seq<real>): (r: seq<real>)
    ensures |r| == |scores|
  {
    Sort(scores, (x: real, y: real) => x <= y)
  }

  /** The 75th percentile entry: index floor(0.75 n) of the sorted scores. */
  function P75(scores: seq<real>): real
    requires scores != []
  {
    SortScores(scores)[|scores| * 3 / 4]
  }

  /** At most a quarter of the scores lie strictly above the 75th percentile entry. */
  lemma P75Cuts(scores: seq<real>)
    requires scores != []
    ensures 4 * |Filter(scores, (x: real) => x > P75(scores))| <= |scores|
  {
    var le := (x: real, y: real) => x <= y;
    var sorted := SortScores(scores);
    var k := |scores| * 3 / 4;
    SortPermutes(scores, le);
    SortSorts(scores, le);
    FilterPermutes(scores, sorted, (x: real) => x > P75(scores));
    NoneAbovePrefix(sorted, k);
  }

  lemma NoneAbovePrefix(sorted: seq<real>, k: nat)
    requires k < |sorted| && SortedBy(sorted, (x: real, y: real) => x <= y)
    ensures |Filter(sorted, (x: real) => x > sorted[k])| <= |sorted| - k - 1
  {
    var above := (x: real) => x > sorted[k];
    var prefix, suffix := sorted[..k + 1], sorted[k + 1..];
    assert sorted == prefix + suffix;
    FilterConcat(prefix, suffix, above);
    forall i | 0 <= i <= k ensures sorted[i] <= sorted[k] {
    }
    assert forall x :: x in prefix ==> !above(x);
    FilterNone(prefix, above);
  }

  // ---------------------------------------------------------------- the five signals

  datatype Window = Window(hits: seq<Sample>, misses: seq<Sample>, threshold: real, band: real,
                           costTighten: bool, costLoosen: bool)
  {
    function UncertainHits(): seq<Sample> { Filter(hits, (s: Sample) => s.score >= threshold - band) }
    function DistantHits(): seq<Sample> { Filter(hits, (s: Sample) => s.score > threshold / 2.0) }
    function NearMisses(): seq<Sample> { Above(misses, threshold, threshold + band) }
    function CloseMisses(): seq<Sample> { Above(misses, threshold, threshold + band * 2.0) }
    function HitRate(): real { Rate(|hits|, |hits| + |misses|) }
    function UncertainHitRate(): real { Rate(|UncertainHits()|, |hits|) }
    function DistantHitRate(): real { Rate(|DistantHits()|, |hits|) }
    function NearMissRate(): real { Rate(|NearMisses()|, |misses|) }
    function HitCost(): real { SumCost(Costed(hits)) }
    function MissCost(): real { SumCost(Costed(misses)) }
    function UncertainCost(): real { SumCost(Costed(UncertainHits())) }
    function NearMissCost(): real { SumCost(Costed(NearMisses())) }
    function EffectiveUncertain(): real {
      if costTighten then Ratio(UncertainCost(), HitCost()) else UncertainHitRate()
    }
    function EffectiveNearMiss(): real {
      if costLoosen then Ratio(NearMissCost(), MissCost()) else NearMissRate()
    }
    function UncertainFractionOfAll(): real {
      if costTighten then Ratio(UncertainCost(), HitCost() + MissCost()) else UncertainHitRate() * HitRate()
    }
    function Snapshot(): Metrics { Metrics(HitRate(), UncertainHitRate(), DistantHitRate(), NearMissRate()) }
    function AvgNearMissDelta(): real {
      if NearMisses() == [] then 0.0 else SumDelta(NearMisses(), threshold) / |NearMisses()| as real
    }
  }

  /** The raw proposal of a window: signals in the order the service tries them. */
  function Propose(w: Window): Option<Proposal> {
    if w.EffectiveUncertain() > 0.2 then
      if w.UncertainFractionOfAll() > 0.15 then
        Some(Proposal(Tighten, MaxReal(0.0, w.threshold - w.band * 0.6), UncertainHits))
      else None
    else if w.DistantHitRate() > 0.25 && |w.hits| >= 20 then
      if w.HitRate() > 0.8 then
        var goal := P75(Scores(w.hits)) + w.band * 0.3;
        Some(Proposal(Tighten,
                      MinReal(w.threshold, MaxReal(w.threshold - w.band * 2.0, MaxReal(0.0, goal))),
                      DistantHits))
      else None
    else if w.EffectiveNearMiss() > 0.25 then
      Some(Proposal(Loosen, w.threshold + w.AvgNearMissDelta(), NearMisses))
    else if w.HitRate() < 0.05 && |w.misses| >= 20 then
      if Rate(|w.CloseMisses()|, |w.misses|) > 0.1 then
        Some(Proposal(Loosen, w.threshold + w.band * 0.6, LowHitRate))
      else None
    else None
  }

  /** The recall-cost guard: true when a tighten to `target` would lose too many current hits. */
  predicate RecallCostTooHigh(w: Window, target: real) {
    |w.hits| > 0 && Rate(|Above(w.hits, target, w.threshold)|, |w.hits|) > RECALL_COST_MAX
  }

  // ---------------------------------------------------------------- history gates

  function Directions(history: seq<Entry>): (r: seq<Direction>)
    ensures |r| == |history|
    ensures forall i :: 0 <= i < |history| ==> r[i] == history[i].d
  {
    seq(|history|, i requires 0 <= i < |history| => history[i].d)
  }

  /** Length of the run of `d` at the head of a newest-first list of directions. */
  function LeadingRun(ds: seq<Direction>, d: Direction): (n: nat)
    ensures n <= |ds|
  {
    if ds == [] || ds[0] != d then 0 else 1 + LeadingRun(ds[1..], d)
  }

  function Flips(ds: seq<Direction>): nat {
    if |ds| < 2 then 0 else (if ds[0] != ds[1] then 1 else 0) + Flips(ds[1..])
  }

  datatype Dampening = Dampening(factor: real, consecutive: nat, flips: nat, capped: bool)

  function StepFactor(consecutive: nat): real { 1.0 / (1.0 + consecutive as real * 0.5) }

  /** What the dampening decides, in terms of the run at the head and the flips of the extended history. */
  function Dampen(history: seq<Entry>, d: Direction): Dampening {
    var ds := Directions(history);
    var run := LeadingRun(ds, d);
    var flips := Flips([d] + ds);
    var capped := run >= VELOCITY_CAP || flips >= OSCILLATION_CAP;
    Dampening(if capped then 0.0 else StepFactor(run), run, flips, capped)
  }

  /** Counts the same-direction entries at the head of the history. */
  method CountConsecutive(history: seq<Entry>, d: Direction) returns (consecutive: nat)
    ensures consecutive == LeadingRun(Directions(history), d)
  {
    ghost var ds := Directions(history);
    consecutive := 0;
    while consecutive < |history| && history[consecutive].d == d
      invariant consecutive <= |history|
      invariant LeadingRun(ds, d) == consecutive + LeadingRun(ds[consecutive..], d)
    {
      assert ds[consecutive..][1..] == ds[consecutive + 1..];
      consecutive := consecutive + 1;
    }
  }

  /** Counts the direction flips inside the history, then the one the new direction would add. */
  method CountFlips(history: seq<Entry>, d: Direction) returns (flips: nat)
    requires history != []
    ensures flips == Flips([d] + Directions(history))
  {
    ghost var ds := Directions(history);
    flips := 0;
    for i := 1 to |history|
      invariant flips == Flips(ds[..i])
    {
      FlipsSnoc(ds[..i], ds[i]);
      assert ds[..i] + [ds[i]] == ds[..i + 1];
      if history[i].d != history[i - 1].d {
        flips := flips + 1;
      }
    }
    assert ds[..|history|] == ds;
    assert ([d] + ds)[1..] == ds;
    if history[0].d != d {
      flips := flips + 1;
    }
  }

  /** `computeDampening`: both counts, then the two caps, then the progressive factor. */
  method ComputeDampening(history: seq<Entry>, d: Direction) returns (r: Dampening)
    ensures r == Dampen(history, d)
  {
    if |history| == 0 {
      return Dampening(1.0, 0, 0, false);
    }
    var consecutive := CountConsecutive(history, d);
    var flips := CountFlips(history, d);
    if consecutive >= VELOCITY_CAP {
      return Dampening(0.0, consecutive, flips, true);
    }
    if flips >= OSCILLATION_CAP {
      return Dampening(0.0, consecutive, flips, true);
    }
    return Dampening(1.0 / (1.0 + consecutive as real * 0.5), consecutive, flips, false);
  }

  lemma {:induction false} FlipsSnoc(ds: seq<Direction>, d: Direction)
    requires ds != []
    ensures Flips(ds + [d]) == Flips(ds) + (if ds[|ds| - 1] != d then 1 else 0)
  {
    if |ds| == 1 {
      assert ds + [d] == [ds[0], d];
      assert (ds + [d])[1..] == [d];
    } else {
      assert (ds + [d])[1..] == ds[1..] + [d];
      FlipsSnoc(ds[1..], d);
    }
  }

  /** The newest entry in direction `d` that carries a metrics snapshot. */
  function LastSame(history: seq<Entry>, d: Direction): (r: Option<Entry>)
    ensures r.Some? ==> r.value.d == d && r.value.metrics.Some?
  {
    if history == [] then None
    else if history[0].d == d && history[0].metrics.Some? then Some(history[0])
    else LastSame(history[1..], d)
  }

  /** Outcome tracking: true when the last adjustment in this direction did not move its own signal by 20%. */
  predicate LastOutcomeIneffective(history: seq<Entry>, d: Direction, now: Metrics) {
    match LastSame(history, d)
    case None => false
    case Some(e) =>
      match e.signal
      case None => false
      case Some(UncertainHits) => !(now.uncertainHitRate < e.metrics.value.uncertainHitRate * 0.8)
      case Some(DistantHits) => !(now.distantHitRate < e.metrics.value.distantHitRate * 0.8)
      case Some(NearMisses) => !(now.nearMissRate < e.metrics.value.nearMissRate * 0.8)
      case Some(LowHitRate) => !(now.hitRate > e.metrics.value.hitRate * 1.2)
      case Some(OtherSignal) => false
  }

  function Abs(x: real): real { if x >= 0.0 then x else -x }

  /** The dampened target: the step shrinks towards the current threshold, clamped at 0 when tightening. */
  function DampenedTarget(p: Proposal, threshold: real, factor: real): real {
    if factor < 1.0 then
      var step := Abs(p.target - threshold) * factor;
      if p.direction == Tighten then MaxReal(0.0, threshold - step) else threshold + step
    else p.target
  }

  function WindowOf(samples: seq<Sample>, config: Config, request: Request): Window {
    var relevant := Relevant(samples, request.category);
    var hits := Hits(relevant);
    var misses := Misses(relevant);
    Window(hits, misses, ThresholdFor(config, request.category), config.band,
           request.enterprise && |Costed(hits)| >= request.minSamples,
           request.enterprise && |Costed(misses)| >= request.minSamples)
  }

  /** What becomes of a raw proposal: recall guard, outcome check, dampening, historical outcomes. */
  function Vet(w: Window, p: Proposal, history: seq<Entry>, past: PastOutcomes): Recommendation {
    if p.direction == Tighten && RecallCostTooHigh(w, p.target) then Optimal
    else if LastOutcomeIneffective(history, p.direction, w.Snapshot()) then Optimal
    else
      var damp := Dampen(history, p.direction);
      if damp.capped then Optimal
      else if past.degraded >= 2 && past.degraded > past.improved then Optimal
      else Adjust(p.direction, DampenedTarget(p, w.threshold, damp.factor), p.signal, damp.factor)
  }

  /** The whole policy. */
  function Recommend(samples: seq<Sample>, config: Config, request: Request,
                     history: seq<Entry>, past: PastOutcomes): Recommendation
  {
    if |Relevant(samples, request.category)| < request.minSamples then InsufficientData
    else
      var w := WindowOf(samples, config, request);
      match Propose(w)
      case None => Optimal
      case Some(p) => Vet(w, p, history, past)
  }

  /** `thresholdRecommendation` after its reads: the same gates, run on mutable locals in the service's order. */
  method ThresholdRecommendation(samples: seq<Sample>, config: Config, request: Request,
                                 history: seq<Entry>, past: PastOutcomes) returns (r: Recommendation)
    ensures r == Recommend(samples, config, request, history, past)
  {
    if |Relevant(samples, request.category)| < request.minSamples {
      return InsufficientData;
    }
    var w := WindowOf(samples, config, request);
    var recommended := Propose(w);
    if recommended.Some? && recommended.value.direction == Tighten && |w.hits| > 0 {
      if RecallCostTooHigh(w, recommended.value.target) {
        recommended := None;
      }
    }
    if recommended == None {
      return Optimal;
    }
    var p := recommended.value;
    if LastOutcomeIneffective(history, p.direction, w.Snapshot()) {
      return Optimal;
    }
    var dampening := ComputeDampening(history, p.direction);
    if dampening.capped {
      return Optimal;
    }
    var target := DampenedTarget(p, w.threshold, dampening.factor);
    if past.degraded >= 2 && past.degraded > past.improved {
      return Optimal;
    }
    return Adjust(p.direction, target, p.signal, dampening.factor);
  }

  // ---------------------------------------------------------------- bounds of a recommendation

  lemma {:induction false} SumDeltaBounds(samples: seq<Sample>, base: real, band: real)
    requires samples != []
    requires forall s :: s in samples ==> base < s.score <= base + band
    ensures 0.0 < SumDelta(samples, base) <= |samples| as real * band
  {
    var first := samples[0];
    assert first in samples;
    if |samples| == 1 {
      assert SumDelta(samples[1..], base) == 0.0;
    } else {
      SumDeltaBounds(samples[1..], base, band);
    }
  }

  /** The mean distance of the near misses to the threshold lies in (0, band]. */
  lemma NearMissMean(near: seq<Sample>, threshold: real, band: real)
    requires near != []
    requires forall s :: s in near ==> threshold < s.score <= threshold + band
    ensures 0.0 < SumDelta(near, threshold) / |near| as real <= band
  {
    SumDeltaBounds(near, threshold, band);
    QuotientBounds(SumDelta(near, threshold), |near| as real, band);
  }

  lemma CloseMissesNeedBand(w: Window)
    requires w.band >= 0.0 && Rate(|w.CloseMisses()|, |w.misses|) > 0.1
    ensures w.band > 0.0
  {
    if w.CloseMisses() == [] {
      assert false;
    }
    assert w.CloseMisses()[0] in w.CloseMisses();
  }

  ghost predicate WithinOneMove(w: Window, p: Proposal) {
    if p.direction == Tighten
    then MaxReal(0.0, w.threshold - 2.0 * w.band) <= p.target <= w.threshold
    else w.threshold < p.target <= w.threshold + w.band
  }

  /** A raw proposal never moves by more than two bands down or one band up, and never below zero. */
  lemma ProposalBounds(w: Window)
    requires w.threshold >= 0.0 && w.band >= 0.0
    ensures Propose(w).Some? ==> WithinOneMove(w, Propose(w).value)
  {
    if w.EffectiveUncertain() > 0.2 {
    } else if w.DistantHitRate() > 0.25 && |w.hits| >= 20 {
    } else if w.EffectiveNearMiss() > 0.25 {
      NearMissMean(w.NearMisses(), w.threshold, w.band);
    } else if w.HitRate() < 0.05 && |w.misses| >= 20 && Rate(|w.CloseMisses()|, |w.misses|) > 0.1 {
      CloseMissesNeedBand(w);
    }
  }

  lemma StepFactorBounds(n: nat)
    ensures 0.0 < StepFactor(n) <= 1.0
    ensures StepFactor(n) * (1.0 + n as real * 0.5) == 1.0
  {
    QuotientBounds(1.0, 1.0 + n as real * 0.5, 1.0);
  }

  /** Shrinking the step keeps the target between the raw target and the current threshold, scaled by the factor. */
  lemma DampenedBounds(p: Proposal, threshold: real, factor: real)
    requires threshold >= 0.0 && 0.0 < factor <= 1.0
    requires p.direction == Tighten ==> 0.0 <= p.target <= threshold
    requires p.direction == Loosen ==> threshold < p.target
    ensures var t := DampenedTarget(p, threshold, factor);
            if p.direction == Tighten then
              p.target <= t <= threshold && threshold - t == (threshold - p.target) * factor
            else
              threshold < t <= p.target && t - threshold == (p.target - threshold) * factor
  {
    var gap := Abs(p.target - threshold);
    var step := gap * factor;
    MulCongruence(gap, if p.direction == Tighten then threshold - p.target else p.target - threshold, factor);
    if factor < 1.0 {
      if p.direction == Tighten {
        assert DampenedTarget(p, threshold, factor) == threshold - step;
      } else {
        assert gap == p.target - threshold;
        assert step <= gap;
        assert DampenedTarget(p, threshold, factor) == threshold + step;
      }
    } else {
      MulCongruence(factor, 1.0, gap);
    }
  }

  /** How an accepted adjustment relates to the raw proposal it came from. */
  ghost predicate Dampened(w: Window, p: Proposal, r: Recommendation)
    requires r.Adjust?
  {
    && p.direction == r.direction
    && 0.0 < r.factor <= 1.0
    && if r.direction == Tighten then
         && p.target <= r.target <= w.threshold
         && w.threshold - r.target == (w.threshold - p.target) * r.factor
         && !RecallCostTooHigh(w, p.target)
       else
         && w.threshold < r.target <= p.target
         && r.target - w.threshold == (p.target - w.threshold) * r.factor
  }

  lemma TargetDampened(w: Window, p: Proposal, factor: real, r: Recommendation)
    requires w.threshold >= 0.0 && WithinOneMove(w, p) && 0.0 < factor <= 1.0
    requires p.direction == Tighten ==> !RecallCostTooHigh(w, p.target)
    requires r == Adjust(p.direction, DampenedTarget(p, w.threshold, factor), p.signal, factor)
    ensures Dampened(w, p, r)
  {
    DampenedBounds(p, w.threshold, factor);
  }

  lemma VetDampens(w: Window, p: Proposal, history: seq<Entry>, past: PastOutcomes)
    requires w.threshold >= 0.0 && w.band >= 0.0 && WithinOneMove(w, p)
    ensures var r := Vet(w, p, history, past);
            r.Adjust? ==> Dampened(w, p, r) && r.factor == StepFactor(LeadingRun(Directions(history), r.direction))
  {
    var r := Vet(w, p, history, past);
    if r.Adjust? {
      StepFactorBounds(LeadingRun(Directions(history), p.direction));
      TargetDampened(w, p, StepFactor(LeadingRun(Directions(history), p.direction)), r);
    }
  }

  /** Every adjustment is a raw proposal within one move of the threshold, dampened by the run it extends. */
  lemma AdjustOrigin(samples: seq<Sample>, config: Config, request: Request, history: seq<Entry>, past: PastOutcomes)
      returns (w: Window, p: Proposal)
    requires config.band >= 0.0 && ThresholdFor(config, request.category) >= 0.0
    requires Recommend(samples, config, request, history, past).Adjust?
    ensures var r := Recommend(samples, config, request, history, past);
            && w.threshold == ThresholdFor(config, request.category) && w.band == config.band
            && w.hits == Hits(Relevant(samples, request.category))
            && WithinOneMove(w, p) && Dampened(w, p, r)
            && r.factor == StepFactor(LeadingRun(Directions(history), r.direction))
  {
    w := WindowOf(samples, config, request);
    p := Propose(w).value;
    ProposalBounds(w);
    VetDampens(w, p, history, past);
  }

  /** A target nearer to the threshold loses no more hits, so a guarded proposal keeps its 15% bound when dampened. */
  lemma LostHitsBound(w: Window, raw: real, target: real)
    requires raw <= target && !RecallCostTooHigh(w, raw)
    ensures |Above(w.hits, target, w.threshold)| as real <= RECALL_COST_MAX * |w.hits| as real
  {
    FilterMonotone(w.hits, (s: Sample) => target < s.score <= w.threshold, (s: Sample) => raw < s.score <= w.threshold);
    if |w.hits| > 0 {
      var lost := |Above(w.hits, raw, w.threshold)| as real;
      QuotientBounds(lost, |w.hits| as real, RECALL_COST_MAX);
      MulMonotone(lost / |w.hits| as real, RECALL_COST_MAX, |w.hits| as real);
    }
  }

  /**
   For every sample set, cost-weighted or not: a tightening stays within two bands below the threshold and above zero,
   and leaves at most 15% of the hits between its target and the threshold, dampened or not; a loosening stays within
   one band above the threshold and always moves it.
   */
  lemma RecommendationBounds(samples: seq<Sample>, config: Config, request: Request,
                             history: seq<Entry>, past: PastOutcomes)
    requires config.band >= 0.0 && ThresholdFor(config, request.category) >= 0.0
    ensures var threshold, hits := ThresholdFor(config, request.category), Hits(Relevant(samples, request.category));
            var r := Recommend(samples, config, request, history, past);
            && (r.Adjust? && r.direction == Tighten ==>
                  && MaxReal(0.0, threshold - 2.0 * config.band) <= r.target <= threshold
                  && |Above(hits, r.target, threshold)| as real <= RECALL_COST_MAX * |hits| as real)
            && (r.Adjust? && r.direction == Loosen ==> threshold < r.target <= threshold + config.band)
  {
    var r := Recommend(samples, config, request, history, past);
    if r.Adjust? {
      var w, p := AdjustOrigin(samples, config, request, history, past);
      AdjustBounds(w, p, r);
    }
  }

  lemma AdjustBounds(w: Window, p: Proposal, r: Recommendation)
    requires w.threshold >= 0.0 && w.band >= 0.0 && r.Adjust? && WithinOneMove(w, p) && Dampened(w, p, r)
    ensures r.direction == Tighten ==>
      && MaxReal(0.0, w.threshold - 2.0 * w.band) <= r.target <= w.threshold
      && |Above(w.hits, r.target, w.threshold)| as real <= RECALL_COST_MAX * |w.hits| as real
    ensures r.direction == Loosen ==> w.threshold < r.target <= w.threshold + w.band
  {
    if r.direction == Tighten {
      LostHitsBound(w, p.target, r.target);
    }
  }

  /** Two bands down or one band up, times the dampening factor. */
  ghost predicate WithinCap(threshold: real, band: real, r: Recommendation)
    requires r.Adjust?
  {
    if r.direction == Tighten then threshold - r.target <= 2.0 * band * r.factor
    else r.target - threshold <= band * r.factor
  }

  /**
   The size of a recommended step is at most the cap for its direction (two bands down, one band up) times the
   dampening factor of the run it would extend.
   */
  lemma RecommendationStep(samples: seq<Sample>, config: Config, request: Request,
                           history: seq<Entry>, past: PastOutcomes)
    requires config.band >= 0.0 && ThresholdFor(config, request.category) >= 0.0
    ensures var threshold := ThresholdFor(config, request.category);
            var r := Recommend(samples, config, request, history, past);
            r.Adjust? ==>
              && r.factor == StepFactor(LeadingRun(Directions(history), r.direction))
              && WithinCap(threshold, config.band, r)
  {
    var r := Recommend(samples, config, request, history, past);
    if r.Adjust? {
      var w, p := AdjustOrigin(samples, config, request, history, past);
      StepWithinCap(w, p, r);
    }
  }

  lemma StepWithinCap(w: Window, p: Proposal, r: Recommendation)
    requires w.band >= 0.0 && w.threshold >= 0.0 && r.Adjust? && WithinOneMove(w, p) && Dampened(w, p, r)
    ensures WithinCap(w.threshold, w.band, r)
  {}

  /** Everything the gates promise of an adjustment, in terms of the history it extends. */
  ghost predicate GatedAdjust(threshold: real, band: real, history: seq<Entry>, r: Recommendation)
    requires r.Adjust?
  {
    && (if r.direction == Tighten then 0.0 <= r.target <= threshold else threshold < r.target)
    && WithinCap(threshold, band, r)
    && r.factor == StepFactor(LeadingRun(Directions(history), r.direction))
    && LeadingRun(Directions(history), r.direction) < VELOCITY_CAP
    && Flips([r.direction] + Directions(history)) < OSCILLATION_CAP
  }

  lemma RecommendationGated(samples: seq<Sample>, config: Config, request: Request,
                            history: seq<Entry>, past: PastOutcomes)
    requires config.band >= 0.0 && ThresholdFor(config, request.category) >= 0.0
    ensures var r := Recommend(samples, config, request, history, past);
            r.Adjust? ==> GatedAdjust(ThresholdFor(config, request.category), config.band, history, r)
  {
    RecommendationStep(samples, config, request, history, past);
    if Recommend(samples, config, request, history, past).Adjust? {
      var w, p := AdjustOrigin(samples, config, request, history, past);
    }
  }

  /**
   The velocity and oscillation caps decide exactly: a direction is refused if and only if appending it to the
   history would make a sixth step in a row or a third flip.
   */
  lemma CappedIff(history: seq<Entry>, d: Direction)
    ensures Dampen(history, d).capped
       <==> (|history| >= 5 && forall i :: 0 <= i < 5 ==> history[i].d == d) || Flips([d] + Directions(history)) >= 3
  {
    LeadingRunIs(Directions(history), d);
  }

  lemma {:induction false} LeadingRunIs(ds: seq<Direction>, d: Direction)
    ensures var n := LeadingRun(ds, d);
            && (forall i :: 0 <= i < n ==> ds[i] == d)
            && (n < |ds| ==> ds[n] != d)
  {
    if ds != [] && ds[0] == d {
      LeadingRunIs(ds[1..], d);
    }
  }
}

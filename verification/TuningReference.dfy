/** The threshold-tuning policy stated again by counting samples and indexing the history. */
module TuningReference {
  // Nothing here uses the filters, rates and gates the policy is built from: shares are compared by multiplication over
  // counts, the history is read by index, and every constant is written out. The policy is proved to decide the same.

  import opened Prelude
  import opened Sorting
  import opened TuningPolicy

  function CountIf(samples: seq<Sample>, p: Sample -> bool): nat {
    if samples == [] then 0 else (if p(samples[0]) then 1 else 0) + CountIf(samples[1..], p)
  }

  /** The known costs of the samples that satisfy `p`, added up. */
  function CostIf(samples: seq<Sample>, p: Sample -> bool): real {
    if samples == [] then 0.0
    else (if p(samples[0]) && samples[0].cost.Some? then samples[0].cost.value else 0.0) + CostIf(samples[1..], p)
  }

  /** The distances to `base` of the samples that satisfy `p`, added up. */
  function DistanceIf(samples: seq<Sample>, p: Sample -> bool, base: real): real {
    if samples == [] then 0.0
    else (if p(samples[0]) then samples[0].score - base else 0.0) + DistanceIf(samples[1..], p, base)
  }

  // ---------------------------------------------------------------- the window in numbers

  predicate Chosen(s: Sample, category: Option<string>) {
    category == None || category == Some("") || Some(s.category) == category
  }

  /** The threshold in force: the category's own, if it has one. */
  ghost predicate InForce(config: Config, category: Option<string>, threshold: real) {
    || (exists c :: category == Some(c) && c in config.categoryThresholds && config.categoryThresholds[c] == threshold)
    || (threshold == config.defaultThreshold && forall c :: category == Some(c) ==> c !in config.categoryThresholds)
  }

  datatype Tally = Tally(n: nat, hits: nat, misses: nat, uncertain: nat, distant: nat, near: nat, close: nat,
                         costedHits: nat, costedMisses: nat, hitCost: real, missCost: real,
                         uncertainCost: real, nearCost: real)

  ghost function Any(category: Option<string>): Sample -> bool { (s: Sample) => Chosen(s, category) }

  ghost function CostedHit(category: Option<string>): Sample -> bool {
    (s: Sample) => Chosen(s, category) && s.hit && s.cost.Some?
  }

  ghost function CostedMiss(category: Option<string>): Sample -> bool {
    (s: Sample) => Chosen(s, category) && !s.hit && s.cost.Some?
  }

  ghost function Hit(category: Option<string>): Sample -> bool { (s: Sample) => Chosen(s, category) && s.hit }

  ghost function Miss(category: Option<string>): Sample -> bool { (s: Sample) => Chosen(s, category) && !s.hit }

  ghost function Uncertain(category: Option<string>, threshold: real, band: real): Sample -> bool {
    (s: Sample) => Chosen(s, category) && s.hit && s.score >= threshold - band
  }

  ghost function Distant(category: Option<string>, threshold: real): Sample -> bool {
    (s: Sample) => Chosen(s, category) && s.hit && s.score > threshold / 2.0
  }

  ghost function Near(category: Option<string>, threshold: real, reach: real): Sample -> bool {
    (s: Sample) => Chosen(s, category) && !s.hit && threshold < s.score <= threshold + reach
  }

  ghost function TallyOf(samples: seq<Sample>, category: Option<string>, threshold: real, band: real): Tally {
    var uncertain, near := Uncertain(category, threshold, band), Near(category, threshold, band);
    Tally(CountIf(samples, Any(category)),
          CountIf(samples, Hit(category)), CountIf(samples, Miss(category)),
          CountIf(samples, uncertain), CountIf(samples, Distant(category, threshold)),
          CountIf(samples, near), CountIf(samples, Near(category, threshold, band * 2.0)),
          CountIf(samples, CostedHit(category)), CountIf(samples, CostedMiss(category)),
          CostIf(samples, Hit(category)), CostIf(samples, Miss(category)),
          CostIf(samples, uncertain), CostIf(samples, near))
  }

  /** More than this share of the whole, which must not be nothing. */
  predicate Exceeds(part: real, whole: real, share: real) { whole > 0.0 && part > share * whole }

  predicate Most(part: nat, whole: nat, share: real) { Exceeds(part as real, whole as real, share) }

  /** The signal a window raises: the first of four whose leading condition holds decides, alone. */
  function SignalOf(t: Tally, request: Request): Option<Signal> {
    var byHitCost := request.enterprise && t.costedHits >= request.minSamples;
    var byMissCost := request.enterprise && t.costedMisses >= request.minSamples;
    if (if byHitCost then Exceeds(t.uncertainCost, t.hitCost, 0.2) else Most(t.uncertain, t.hits, 0.2)) then
      if (if byHitCost then Exceeds(t.uncertainCost, t.hitCost + t.missCost, 0.15) else Most(t.uncertain, t.n, 0.15))
      then Some(UncertainHits) else None
    else if Most(t.distant, t.hits, 0.25) && t.hits >= 20 then
      if Most(t.hits, t.n, 0.8) then Some(DistantHits) else None
    else if (if byMissCost then Exceeds(t.nearCost, t.missCost, 0.25) else Most(t.near, t.misses, 0.25)) then
      Some(NearMisses)
    else if (t.hits as real) < 0.05 * t.n as real && t.misses >= 20 && Most(t.close, t.misses, 0.1) then
      Some(LowHitRate)
    else None
  }

  function DirectionOf(signal: Signal): Direction {
    match signal
    case UncertainHits => Tighten
    case DistantHits => Tighten
    case NearMisses => Loosen
    case LowHitRate => Loosen
    case OtherSignal => Loosen
  }

  // ---------------------------------------------------------------- counting filters

  lemma {:induction false} CountFilter(samples: seq<Sample>, p: Sample -> bool, q: Sample -> bool, r: Sample -> bool)
    requires forall s :: r(s) <==> p(s) && q(s)
    ensures |Filter(Filter(samples, p), q)| == CountIf(samples, r)
    ensures SumCost(Filter(Filter(samples, p), q)) == CostIf(samples, r)
  {
    if samples != [] {
      CountFilter(samples[1..], p, q, r);
      var rest := Filter(samples[1..], p);
      if p(samples[0]) {
        assert ([samples[0]] + rest)[1..] == rest;
        if q(samples[0]) {
          assert ([samples[0]] + Filter(rest, q))[1..] == Filter(rest, q);
        }
      }
    }
  }

  lemma {:induction false} CountOne(samples: seq<Sample>, p: Sample -> bool, r: Sample -> bool)
    requires forall s :: r(s) <==> p(s)
    ensures |Filter(samples, p)| == CountIf(samples, r)
    ensures SumCost(Filter(samples, p)) == CostIf(samples, r)
  {
    if samples != [] {
      CountOne(samples[1..], p, r);
      if p(samples[0]) {
        assert ([samples[0]] + Filter(samples[1..], p))[1..] == Filter(samples[1..], p);
      }
    }
  }

  lemma {:induction false} FilterTwice(samples: seq<Sample>, p: Sample -> bool, q: Sample -> bool, r: Sample -> bool)
    requires forall s :: r(s) <==> p(s) && q(s)
    ensures Filter(Filter(samples, p), q) == Filter(samples, r)
  {
    if samples != [] {
      FilterTwice(samples[1..], p, q, r);
      var rest := Filter(samples[1..], p);
      if p(samples[0]) {
        assert ([samples[0]] + rest)[1..] == rest;
      }
    }
  }

  lemma {:induction false} FilterAll(samples: seq<Sample>, p: Sample -> bool)
    requires forall s :: p(s)
    ensures Filter(samples, p) == samples
  {
    if samples != [] {
      FilterAll(samples[1..], p);
    }
  }

  lemma {:induction false} CostedCosts(samples: seq<Sample>)
    ensures SumCost(Costed(samples)) == SumCost(samples)
  {
    if samples != [] {
      CostedCosts(samples[1..]);
      if samples[0].cost.Some? {
        assert ([samples[0]] + Costed(samples[1..]))[1..] == Costed(samples[1..]);
      }
    }
  }

  lemma RelevantIsChosen(samples: seq<Sample>, category: Option<string>)
    ensures Relevant(samples, category) == Filter(samples, Any(category))
  {
    var chosen := Any(category);
    if category.Some? && category.value != "" {
      var p := (s: Sample) => s.category == category.value;
      FilterTwice(samples, p, p, chosen);
      FilterTwice(samples, p, p, p);
    } else {
      FilterAll(samples, chosen);
    }
  }

  // ---------------------------------------------------------------- the policy's window is this tally

  lemma WindowIsChosen(samples: seq<Sample>, config: Config, request: Request)
    ensures WindowOf(samples, config, request).hits == Filter(samples, Hit(request.category))
    ensures WindowOf(samples, config, request).misses == Filter(samples, Miss(request.category))
  {
    var category := request.category;
    var chosen := Any(category);
    RelevantIsChosen(samples, category);
    FilterTwice(samples, chosen, (s: Sample) => s.hit, Hit(category));
    FilterTwice(samples, chosen, (s: Sample) => !s.hit, Miss(category));
  }

  lemma UncertainCounts(samples: seq<Sample>, category: Option<string>, w: Window)
    requires w.hits == Filter(samples, Hit(category))
    ensures |w.UncertainHits()| == CountIf(samples, Uncertain(category, w.threshold, w.band))
    ensures w.UncertainCost() == CostIf(samples, Uncertain(category, w.threshold, w.band))
  {
    var near := (s: Sample) => s.score >= w.threshold - w.band;
    CountFilter(samples, Hit(category), near, Uncertain(category, w.threshold, w.band));
    assert w.UncertainHits() == Filter(w.hits, near);
    CostedCosts(w.UncertainHits());
  }

  lemma DistantCounts(samples: seq<Sample>, category: Option<string>, w: Window)
    requires w.hits == Filter(samples, Hit(category))
    ensures |w.DistantHits()| == CountIf(samples, Distant(category, w.threshold))
  {
    var far := (s: Sample) => s.score > w.threshold / 2.0;
    CountFilter(samples, Hit(category), far, Distant(category, w.threshold));
    assert w.DistantHits() == Filter(w.hits, far);
  }

  lemma HitCounts(samples: seq<Sample>, category: Option<string>, hits: seq<Sample>)
    requires hits == Filter(samples, Hit(category))
    ensures |hits| == CountIf(samples, Hit(category)) && SumCost(Costed(hits)) == CostIf(samples, Hit(category))
    ensures |Costed(hits)| == CountIf(samples, CostedHit(category))
  {
    CountOne(samples, Hit(category), Hit(category));
    CountFilter(samples, Hit(category), (s: Sample) => s.cost.Some?, CostedHit(category));
    CostedCosts(hits);
  }

  lemma MissCounts(samples: seq<Sample>, category: Option<string>, misses: seq<Sample>)
    requires misses == Filter(samples, Miss(category))
    ensures |misses| == CountIf(samples, Miss(category)) && SumCost(Costed(misses)) == CostIf(samples, Miss(category))
    ensures |Costed(misses)| == CountIf(samples, CostedMiss(category))
  {
    CountOne(samples, Miss(category), Miss(category));
    CountFilter(samples, Miss(category), (s: Sample) => s.cost.Some?, CostedMiss(category));
    CostedCosts(misses);
  }

  lemma NearCounts(samples: seq<Sample>, category: Option<string>, misses: seq<Sample>, threshold: real, reach: real)
    requires misses == Filter(samples, Miss(category))
    ensures var above := Above(misses, threshold, threshold + reach);
            && |above| == CountIf(samples, Near(category, threshold, reach))
            && SumCost(Costed(above)) == CostIf(samples, Near(category, threshold, reach))
  {
    AboveCounts(samples, Miss(category), misses, threshold, threshold + reach, Near(category, threshold, reach));
  }

  lemma AboveCounts(samples: seq<Sample>, p: Sample -> bool, kept: seq<Sample>, lo: real, hi: real, r: Sample -> bool)
    requires kept == Filter(samples, p) && forall s :: r(s) <==> p(s) && lo < s.score <= hi
    ensures |Above(kept, lo, hi)| == CountIf(samples, r) && SumCost(Costed(Above(kept, lo, hi))) == CostIf(samples, r)
  {
    var between := (s: Sample) => lo < s.score <= hi;
    CountFilter(samples, p, between, r);
    assert Above(kept, lo, hi) == Filter(kept, between);
    CostedCosts(Above(kept, lo, hi));
  }

  lemma HitsMatch(samples: seq<Sample>, category: Option<string>, w: Window, t: Tally)
    requires w.hits == Filter(samples, Hit(category)) && t == TallyOf(samples, category, w.threshold, w.band)
    ensures MatchesHits(w, t)
  {
    UncertainCounts(samples, category, w);
    DistantCounts(samples, category, w);
    HitCounts(samples, category, w.hits);
  }

  lemma MissesMatch(samples: seq<Sample>, category: Option<string>, w: Window, t: Tally)
    requires w.misses == Filter(samples, Miss(category)) && t == TallyOf(samples, category, w.threshold, w.band)
    ensures MatchesMisses(w, t)
  {
    MissCounts(samples, category, w.misses);
    NearCounts(samples, category, w.misses, w.threshold, w.band);
    NearCounts(samples, category, w.misses, w.threshold, w.band * 2.0);
  }

  ghost predicate MatchesHits(w: Window, t: Tally) {
    && |w.hits| == t.hits && |w.UncertainHits()| == t.uncertain && |w.DistantHits()| == t.distant
    && |Costed(w.hits)| == t.costedHits && w.HitCost() == t.hitCost && w.UncertainCost() == t.uncertainCost
  }

  ghost predicate MatchesMisses(w: Window, t: Tally) {
    && |w.misses| == t.misses && |w.NearMisses()| == t.near && |w.CloseMisses()| == t.close
    && |Costed(w.misses)| == t.costedMisses && w.MissCost() == t.missCost && w.NearMissCost() == t.nearCost
  }

  ghost predicate Matches(w: Window, t: Tally) { MatchesHits(w, t) && MatchesMisses(w, t) && t.n == t.hits + t.misses }

  lemma {:induction false} HitsAndMisses(samples: seq<Sample>, category: Option<string>)
    ensures CountIf(samples, Any(category))
         == CountIf(samples, Hit(category)) + CountIf(samples, Miss(category))
  {
    if samples != [] {
      HitsAndMisses(samples[1..], category);
    }
  }

  // ---------------------------------------------------------------- shares by multiplication

  lemma RateCompares(part: nat, whole: nat, share: real)
    requires share >= 0.0
    ensures Rate(part, whole) > share <==> Most(part, whole, share)
    ensures whole > 0 ==> (Rate(part, whole) < share <==> part as real < share * whole as real)
  {
    if whole > 0 {
      var rate := part as real / whole as real;
      QuotientBounds(part as real, whole as real, share);
      MulOrder(rate, share, whole as real);
      MulOrder(share, rate, whole as real);
    }
  }

  lemma RatioCompares(part: real, whole: real, share: real)
    requires share >= 0.0
    ensures Ratio(part, whole) > share <==> Exceeds(part, whole, share)
  {
    if whole > 0.0 {
      QuotientBounds(part, whole, share);
    }
  }

  /** A share of a share is the share of the whole. */
  lemma RateOfRate(part: nat, middle: nat, whole: nat, share: real)
    requires 0 < middle <= whole && share >= 0.0
    ensures Rate(part, middle) * Rate(middle, whole) > share <==> Most(part, whole, share)
  {
    var a, b, c := part as real, middle as real, whole as real;
    QuotientBounds(a, b, share);
    QuotientBounds(b, c, share);
    Chain(a / b, b, b / c, c);
    assert a / b * (b / c) * c == a;
    MulOrder(a / b * (b / c), share, c);
  }

  lemma Chain(x: real, b: real, y: real, c: real)
    requires y * c == b
    ensures x * y * c == x * b
  {
    assert x * y * c == x * (y * c);
  }

  predicate ByHitCost(w: Window, t: Tally, share: real, whole: real, count: nat) {
    if w.costTighten then Exceeds(t.uncertainCost, whole, share) else Most(t.uncertain, count, share)
  }

  lemma UncertainShare(w: Window, t: Tally)
    requires Matches(w, t)
    ensures w.EffectiveUncertain() > 0.2 <==> ByHitCost(w, t, 0.2, t.hitCost, t.hits)
  {
    RateCompares(t.uncertain, t.hits, 0.2);
    RatioCompares(t.uncertainCost, t.hitCost, 0.2);
  }

  lemma UncertainShareOfAll(w: Window, t: Tally)
    requires Matches(w, t) && w.EffectiveUncertain() > 0.2
    ensures w.UncertainFractionOfAll() > 0.15 <==> ByHitCost(w, t, 0.15, t.hitCost + t.missCost, t.n)
  {
    if w.costTighten {
      RatioCompares(t.uncertainCost, t.hitCost + t.missCost, 0.15);
    } else {
      assert t.hits > 0;
      assert w.UncertainFractionOfAll() == Rate(t.uncertain, t.hits) * Rate(t.hits, t.n);
      RateOfRate(t.uncertain, t.hits, t.n, 0.15);
    }
  }

  lemma DistantShares(w: Window, t: Tally)
    requires Matches(w, t)
    ensures w.DistantHitRate() > 0.25 <==> Most(t.distant, t.hits, 0.25)
    ensures w.HitRate() > 0.8 <==> Most(t.hits, t.n, 0.8)
  {
    RateCompares(t.distant, t.hits, 0.25);
    RateCompares(t.hits, t.n, 0.8);
  }

  lemma MissShares(w: Window, t: Tally)
    requires Matches(w, t)
    ensures w.EffectiveNearMiss() > 0.25 <==>
              (if w.costLoosen then Exceeds(t.nearCost, t.missCost, 0.25) else Most(t.near, t.misses, 0.25))
    ensures t.misses > 0 ==> (w.HitRate() < 0.05 <==> (t.hits as real) < 0.05 * t.n as real)
    ensures Rate(|w.CloseMisses()|, |w.misses|) > 0.1 <==> Most(t.close, t.misses, 0.1)
  {
    RateCompares(t.near, t.misses, 0.25);
    RatioCompares(t.nearCost, t.missCost, 0.25);
    RateCompares(t.hits, t.n, 0.05);
    RateCompares(t.close, t.misses, 0.1);
  }

  lemma WindowMatches(samples: seq<Sample>, config: Config, request: Request)
    ensures var w := WindowOf(samples, config, request);
            Matches(w, TallyOf(samples, request.category, w.threshold, w.band))
  {
    var w := WindowOf(samples, config, request);
    var t := TallyOf(samples, request.category, w.threshold, w.band);
    WindowIsChosen(samples, config, request);
    HitsMatch(samples, request.category, w, t);
    MissesMatch(samples, request.category, w, t);
    HitsAndMisses(samples, request.category);
  }

  /** The policy proposes exactly when the reference raises a signal, for that signal and in its direction. */
  lemma ProposesSignal(samples: seq<Sample>, config: Config, request: Request)
    ensures var w := WindowOf(samples, config, request);
            var signal := SignalOf(TallyOf(samples, request.category, w.threshold, w.band), request);
            && (Propose(w).Some? <==> signal.Some?)
            && (Propose(w).Some? ==> signal == Some(Propose(w).value.signal)
                                     && Propose(w).value.direction == DirectionOf(signal.value))
  {
    var w := WindowOf(samples, config, request);
    var t := TallyOf(samples, request.category, w.threshold, w.band);
    WindowMatches(samples, config, request);
    UncertainShare(w, t);
    if w.EffectiveUncertain() > 0.2 {
      UncertainShareOfAll(w, t);
    }
    DistantShares(w, t);
    MissShares(w, t);
  }

  // ---------------------------------------------------------------- targets

  ghost function HitBelow(category: Option<string>, x: real): Sample -> bool {
    (s: Sample) => Chosen(s, category) && s.hit && s.score < x
  }

  ghost function HitUpTo(category: Option<string>, x: real): Sample -> bool {
    (s: Sample) => Chosen(s, category) && s.hit && s.score <= x
  }

  /** A hit score with at most three quarters of the hits below it and more than that up to it. */
  ghost predicate Percentile75(samples: seq<Sample>, category: Option<string>, hits: nat, x: real) {
    CountIf(samples, HitBelow(category, x)) <= hits * 3 / 4 < CountIf(samples, HitUpTo(category, x))
  }

  predicate IsMean(mean: real, count: nat, total: real) { count > 0 && mean * count as real == total }

  /** The undampened target of a signal. */
  ghost predicate RawTarget(samples: seq<Sample>, category: Option<string>, threshold: real, band: real,
                            signal: Signal, raw: real) {
    var t := TallyOf(samples, category, threshold, band);
    match signal
    case UncertainHits => raw == MaxReal(0.0, threshold - 0.6 * band)
    case DistantHits =>
      exists p75 :: Percentile75(samples, category, t.hits, p75)
                    && raw == MinReal(threshold,
                                      MaxReal(threshold - 2.0 * band, MaxReal(0.0, p75 + 0.3 * band)))
    case NearMisses =>
      IsMean(raw - threshold, t.near, DistanceIf(samples, Near(category, threshold, band), threshold))
    case LowHitRate => raw == threshold + 0.6 * band
    case OtherSignal => false
  }

  function CountScores(scores: seq<real>, p: real -> bool): nat {
    if scores == [] then 0 else (if p(scores[0]) then 1 else 0) + CountScores(scores[1..], p)
  }

  lemma {:induction false} CountScoresFilter(scores: seq<real>, p: real -> bool)
    ensures CountScores(scores, p) == |Filter(scores, p)|
  {
    if scores != [] {
      CountScoresFilter(scores[1..], p);
    }
  }

  lemma {:induction false} ScoresCount(samples: seq<Sample>, hits: seq<Sample>, hit: Sample -> bool, p: real -> bool,
                                       r: Sample -> bool)
    requires hits == Filter(samples, hit) && forall s :: r(s) <==> hit(s) && p(s.score)
    ensures CountScores(Scores(hits), p) == CountIf(samples, r)
  {
    if samples == [] {
      assert Scores(hits) == [];
    } else {
      var rest := Filter(samples[1..], hit);
      ScoresCount(samples[1..], rest, hit, p, r);
      if hit(samples[0]) {
        assert Scores(hits) == [samples[0].score] + Scores(rest);
        assert Scores(hits)[1..] == Scores(rest);
      }
    }
  }

  lemma FewBelow(sorted: seq<real>, k: nat, below: real -> bool)
    requires k < |sorted| && SortedBy(sorted, (x: real, y: real) => x <= y)
    requires forall x :: below(x) <==> x < sorted[k]
    ensures |Filter(sorted, below)| <= k
  {
    var prefix, suffix := sorted[..k], sorted[k..];
    assert sorted == prefix + suffix;
    FilterConcat(prefix, suffix, below);
    forall i | k <= i < |sorted| ensures sorted[k] <= sorted[i] {
    }
    assert forall x :: x in suffix ==> !below(x);
    FilterNone(suffix, below);
  }

  lemma ManyUpTo(sorted: seq<real>, k: nat, upTo: real -> bool)
    requires k < |sorted| && SortedBy(sorted, (x: real, y: real) => x <= y)
    requires forall x :: upTo(x) <==> x <= sorted[k]
    ensures k < |Filter(sorted, upTo)|
  {
    var head, tail := sorted[..k + 1], sorted[k + 1..];
    assert sorted == head + tail;
    FilterConcat(head, tail, upTo);
    forall i | 0 <= i <= k ensures sorted[i] <= sorted[k] {
    }
    assert forall x :: x in head ==> upTo(x);
    FilterKeepsAll(head, upTo);
  }

  lemma {:induction false} FilterKeepsAll<T(!new)>(s: seq<T>, p: T -> bool)
    requires forall x :: x in s ==> p(x)
    ensures Filter(s, p) == s
  {
    if s != [] {
      assert forall x :: x in s[1..] ==> x in s;
      FilterKeepsAll(s[1..], p);
      assert s == [s[0]] + s[1..];
    }
  }

  /** The policy's percentile entry is the order statistic the reference asks for. */
  lemma P75IsPercentile(samples: seq<Sample>, category: Option<string>, hits: seq<Sample>)
    requires hits == Filter(samples, Hit(category)) && hits != []
    ensures Percentile75(samples, category, |hits|, P75(Scores(hits)))
  {
    var le := (x: real, y: real) => x <= y;
    var scores, sorted, x := Scores(hits), SortScores(Scores(hits)), P75(Scores(hits));
    var below, upTo := (y: real) => y < x, (y: real) => y <= x;
    SortPermutes(scores, le);
    SortSorts(scores, le);
    FewBelow(sorted, |scores| * 3 / 4, below);
    ManyUpTo(sorted, |scores| * 3 / 4, upTo);
    FilterPermutes(scores, sorted, below);
    FilterPermutes(scores, sorted, upTo);
    CountScoresFilter(scores, below);
    CountScoresFilter(scores, upTo);
    ScoresCount(samples, hits, Hit(category), below, HitBelow(category, x));
    ScoresCount(samples, hits, Hit(category), upTo, HitUpTo(category, x));
  }

  lemma {:induction false} DistanceFilter(samples: seq<Sample>, p: Sample -> bool, q: Sample -> bool,
                                          r: Sample -> bool, base: real)
    requires forall s :: r(s) <==> p(s) && q(s)
    ensures SumDelta(Filter(Filter(samples, p), q), base) == DistanceIf(samples, r, base)
  {
    if samples != [] {
      DistanceFilter(samples[1..], p, q, r, base);
      var rest := Filter(samples[1..], p);
      if p(samples[0]) {
        assert ([samples[0]] + rest)[1..] == rest;
        if q(samples[0]) {
          assert ([samples[0]] + Filter(rest, q))[1..] == Filter(rest, q);
        }
      }
    }
  }

  lemma NearDistance(samples: seq<Sample>, category: Option<string>, misses: seq<Sample>, threshold: real, band: real)
    requires misses == Filter(samples, Miss(category))
    ensures SumDelta(Above(misses, threshold, threshold + band), threshold)
         == DistanceIf(samples, Near(category, threshold, band), threshold)
  {
    var lo, hi := threshold, threshold + band;
    var between := (s: Sample) => lo < s.score <= hi;
    DistanceFilter(samples, Miss(category), between, Near(category, threshold, band), threshold);
    assert Above(misses, lo, hi) == Filter(misses, between);
  }

  lemma MeanOfQuotient(total: real, count: nat)
    requires count > 0
    ensures IsMean(total / count as real, count, total)
  {
    QuotientBounds(total, count as real, 0.0);
  }

  lemma NearMean(w: Window)
    requires w.NearMisses() != []
    ensures IsMean(w.AvgNearMissDelta(), |w.NearMisses()|, SumDelta(w.NearMisses(), w.threshold))
  {
    MeanOfQuotient(SumDelta(w.NearMisses(), w.threshold), |w.NearMisses()|);
  }

  lemma {:induction false} NoCost(samples: seq<Sample>, p: Sample -> bool)
    requires CountIf(samples, p) == 0
    ensures CostIf(samples, p) == 0.0
  {
    if samples != [] {
      NoCost(samples[1..], p);
    }
  }

  /** The raw target of each signal, in the policy's own terms. */
  lemma ProposalShape(w: Window)
    requires Propose(w).Some?
    ensures var p := Propose(w).value;
            match p.signal
            case UncertainHits => p.target == MaxReal(0.0, w.threshold - 0.6 * w.band)
            case DistantHits =>
              |w.hits| >= 20
              && p.target == MinReal(w.threshold, MaxReal(w.threshold - 2.0 * w.band,
                                                          MaxReal(0.0, P75(Scores(w.hits)) + 0.3 * w.band)))
            case NearMisses => w.EffectiveNearMiss() > 0.25 && p.target == w.threshold + w.AvgNearMissDelta()
            case LowHitRate => p.target == w.threshold + 0.6 * w.band
            case OtherSignal => false
  {}

  lemma NearMissesExist(samples: seq<Sample>, category: Option<string>, w: Window, t: Tally)
    requires t == TallyOf(samples, category, w.threshold, w.band)
    requires MatchesMisses(w, t) && w.EffectiveNearMiss() > 0.25
    ensures t.near > 0
  {
    if t.near == 0 {
      NoCost(samples, Near(category, w.threshold, w.band));
    }
    RateCompares(t.near, t.misses, 0.25);
    RatioCompares(t.nearCost, t.missCost, 0.25);
  }

  lemma NearTarget(samples: seq<Sample>, category: Option<string>, w: Window, t: Tally, raw: real)
    requires w.misses == Filter(samples, Miss(category)) && t == TallyOf(samples, category, w.threshold, w.band)
    requires w.EffectiveNearMiss() > 0.25 && raw - w.threshold == w.AvgNearMissDelta()
    ensures RawTarget(samples, category, w.threshold, w.band, NearMisses, raw)
  {
    MissesMatch(samples, category, w, t);
    NearMissesExist(samples, category, w, t);
    NearDistance(samples, category, w.misses, w.threshold, w.band);
    NearMean(w);
  }

  lemma DistantTarget(samples: seq<Sample>, category: Option<string>, w: Window, t: Tally, raw: real)
    requires w.hits == Filter(samples, Hit(category)) && t == TallyOf(samples, category, w.threshold, w.band)
    requires w.hits != []
             && raw == MinReal(w.threshold, MaxReal(w.threshold - 2.0 * w.band,
                                                    MaxReal(0.0, P75(Scores(w.hits)) + 0.3 * w.band)))
    ensures RawTarget(samples, category, w.threshold, w.band, DistantHits, raw)
  {
    HitsMatch(samples, category, w, t);
    P75IsPercentile(samples, category, w.hits);
  }

  /** The policy's raw proposal has the reference's raw target. */
  lemma ProposesTarget(samples: seq<Sample>, category: Option<string>, w: Window)
    requires w.hits == Filter(samples, Hit(category)) && w.misses == Filter(samples, Miss(category))
    requires Propose(w).Some?
    ensures RawTarget(samples, category, w.threshold, w.band, Propose(w).value.signal, Propose(w).value.target)
  {
    var t := TallyOf(samples, category, w.threshold, w.band);
    ProposalShape(w);
    var p := Propose(w).value;
    if p.signal == DistantHits {
      DistantTarget(samples, category, w, t, p.target);
    } else if p.signal == NearMisses {
      NearTarget(samples, category, w, t, p.target);
    }
  }

  lemma {:induction false} CountMonotone(samples: seq<Sample>, p: Sample -> bool, q: Sample -> bool)
    requires forall s :: p(s) ==> q(s)
    ensures CountIf(samples, p) <= CountIf(samples, q)
  {
    if samples != [] {
      CountMonotone(samples[1..], p, q);
    }
  }

  lemma PercentileUnique(samples: seq<Sample>, category: Option<string>, hits: nat, x: real, y: real)
    requires Percentile75(samples, category, hits, x) && Percentile75(samples, category, hits, y)
    ensures x == y
  {
    if x < y {
      CountMonotone(samples, HitUpTo(category, x), HitBelow(category, y));
    } else if y < x {
      CountMonotone(samples, HitUpTo(category, y), HitBelow(category, x));
    }
  }

  lemma MeanUnique(a: real, b: real, count: nat, total: real)
    requires IsMean(a, count, total) && IsMean(b, count, total)
    ensures a == b
  {
    MulOrder(a, b, count as real);
    MulOrder(b, a, count as real);
  }

  /** A signal has one raw target. */
  lemma RawTargetUnique(samples: seq<Sample>, category: Option<string>, threshold: real, band: real, signal: Signal,
                        a: real, b: real)
    requires RawTarget(samples, category, threshold, band, signal, a)
    requires RawTarget(samples, category, threshold, band, signal, b)
    ensures a == b
  {
    var t := TallyOf(samples, category, threshold, band);
    if signal == DistantHits {
      var x :| Percentile75(samples, category, t.hits, x)
               && a == MinReal(threshold, MaxReal(threshold - 2.0 * band, MaxReal(0.0, x + 0.3 * band)));
      var y :| Percentile75(samples, category, t.hits, y)
               && b == MinReal(threshold, MaxReal(threshold - 2.0 * band, MaxReal(0.0, y + 0.3 * band)));
      PercentileUnique(samples, category, t.hits, x, y);
    } else if signal == NearMisses {
      MeanUnique(a - threshold, b - threshold, t.near,
                 DistanceIf(samples, Near(category, threshold, band), threshold));
    }
  }

  // ---------------------------------------------------------------- the gates, by index and by count

  ghost function HitBetween(category: Option<string>, lo: real, hi: real): Sample -> bool {
    (s: Sample) => Chosen(s, category) && s.hit && lo < s.score <= hi
  }

  lemma RecallCounts(samples: seq<Sample>, category: Option<string>, w: Window, raw: real)
    requires w.hits == Filter(samples, Hit(category))
    ensures RecallCostTooHigh(w, raw)
       <==> Most(CountIf(samples, HitBetween(category, raw, w.threshold)), CountIf(samples, Hit(category)), 0.15)
  {
    var lo, hi := raw, w.threshold;
    var between := (s: Sample) => lo < s.score <= hi;
    CountOne(samples, Hit(category), Hit(category));
    CountFilter(samples, Hit(category), between, HitBetween(category, raw, w.threshold));
    assert Above(w.hits, lo, hi) == Filter(w.hits, between);
    RateCompares(|Above(w.hits, lo, hi)|, |w.hits|, 0.15);
  }

  /** Entry `k` is the newest in direction `d` that carries a snapshot of the metrics. */
  predicate NewestSame(history: seq<Entry>, d: Direction, k: nat) {
    && k < |history| && history[k].d == d && history[k].metrics != None
    && forall i :: 0 <= i < k ==> history[i].d != d || history[i].metrics == None
  }

  predicate ShareBelow(part: nat, whole: nat, bound: real) {
    if whole == 0 then 0.0 < bound else part as real < bound * whole as real
  }

  predicate ShareAbove(part: nat, whole: nat, bound: real) {
    if whole == 0 then 0.0 > bound else part as real > bound * whole as real
  }

  /** The metric behind the entry's own signal has moved by a fifth since; an unknown signal is let pass. */
  predicate Improved(e: Entry, t: Tally)
    requires e.metrics.Some?
  {
    match e.signal
    case Some(UncertainHits) => ShareBelow(t.uncertain, t.hits, e.metrics.value.uncertainHitRate * 0.8)
    case Some(DistantHits) => ShareBelow(t.distant, t.hits, e.metrics.value.distantHitRate * 0.8)
    case Some(NearMisses) => ShareBelow(t.near, t.misses, e.metrics.value.nearMissRate * 0.8)
    case Some(LowHitRate) => ShareAbove(t.hits, t.n, e.metrics.value.hitRate * 1.2)
    case _ => true
  }

  lemma ShareIsRate(part: nat, whole: nat, bound: real)
    ensures Rate(part, whole) < bound <==> ShareBelow(part, whole, bound)
    ensures Rate(part, whole) > bound <==> ShareAbove(part, whole, bound)
  {
    if whole > 0 {
      var rate := part as real / whole as real;
      QuotientBounds(part as real, whole as real, bound);
      MulOrder(rate, bound, whole as real);
      MulOrder(bound, rate, whole as real);
    }
  }

  lemma ImprovedIs(w: Window, t: Tally, e: Entry, d: Direction)
    requires Matches(w, t) && e.metrics.Some? && e.d == d
    ensures LastOutcomeIneffective([e], d, w.Snapshot()) <==> !Improved(e, t)
  {
    ShareIsRate(t.uncertain, t.hits, e.metrics.value.uncertainHitRate * 0.8);
    ShareIsRate(t.distant, t.hits, e.metrics.value.distantHitRate * 0.8);
    ShareIsRate(t.near, t.misses, e.metrics.value.nearMissRate * 0.8);
    ShareIsRate(t.hits, t.n, e.metrics.value.hitRate * 1.2);
  }

  lemma {:induction false} LastSameIs(history: seq<Entry>, d: Direction)
    ensures LastSame(history, d) == None ==> forall k: nat :: !NewestSame(history, d, k)
    ensures LastSame(history, d).Some? ==>
              exists k: nat :: NewestSame(history, d, k) && LastSame(history, d) == Some(history[k])
  {
    if history == [] {
    } else if history[0].d == d && history[0].metrics.Some? {
      assert NewestSame(history, d, 0);
    } else {
      LastSameIs(history[1..], d);
      forall k: nat | NewestSame(history, d, k) ensures k > 0 && NewestSame(history[1..], d, k - 1) {
      }
      if LastSame(history, d).Some? {
        var k: nat :| NewestSame(history[1..], d, k) && LastSame(history, d) == Some(history[1..][k]);
        assert NewestSame(history, d, k + 1) && history[k + 1] == history[1..][k];
      }
    }
  }

  lemma NewestSameUnique(history: seq<Entry>, d: Direction, j: nat, k: nat)
    requires NewestSame(history, d, j) && NewestSame(history, d, k)
    ensures j == k
  {}

  lemma OutcomeIs(history: seq<Entry>, d: Direction, w: Window, t: Tally)
    requires Matches(w, t)
    ensures LastOutcomeIneffective(history, d, w.Snapshot())
       <==> exists k: nat :: NewestSame(history, d, k) && !Improved(history[k], t)
  {
    LastSameIs(history, d);
    if LastSame(history, d).Some? {
      var k: nat :| NewestSame(history, d, k) && LastSame(history, d) == Some(history[k]);
      ImprovedIs(w, t, history[k], d);
      forall j: nat | NewestSame(history, d, j) ensures j == k {
        NewestSameUnique(history, d, j, k);
      }
    }
  }

  /** Entry `i` went the other way than the next newer step; the step newer than the newest is one to `d`. */
  predicate FlipAt(history: seq<Entry>, d: Direction, i: nat) {
    i < |history| && history[i].d != (if i == 0 then d else history[i - 1].d)
  }

  ghost function FlipsAt(history: seq<Entry>, d: Direction, n: nat): set<nat> {
    set i: nat | i < n && FlipAt(history, d, i)
  }

  lemma FlipsNext(history: seq<Entry>, d: Direction, n: nat)
    ensures |FlipsAt(history, d, n + 1)| == |FlipsAt(history, d, n)| + (if FlipAt(history, d, n) then 1 else 0)
  {
    if FlipAt(history, d, n) {
      assert FlipsAt(history, d, n + 1) == FlipsAt(history, d, n) + {n};
    } else {
      assert FlipsAt(history, d, n + 1) == FlipsAt(history, d, n);
    }
  }

  lemma {:induction false} FlipsCount(history: seq<Entry>, d: Direction, n: nat)
    requires n <= |history|
    ensures Flips([d] + Directions(history)[..n]) == |FlipsAt(history, d, n)|
  {
    var ds := Directions(history);
    if n == 0 {
      assert FlipsAt(history, d, n) == {};
    } else {
      FlipsCount(history, d, n - 1);
      FlipsNext(history, d, n - 1);
      var steps := [d] + ds[..n - 1];
      assert [d] + ds[..n] == steps + [ds[n - 1]];
      assert steps[n - 1] == if n == 1 then d else history[n - 2].d;
      FlipsSnoc(steps, ds[n - 1]);
    }
  }

  /** The newest `n` entries, and no more, went in direction `d`. */
  predicate RunIs(history: seq<Entry>, d: Direction, n: nat) {
    && n <= |history| && (forall i :: 0 <= i < n ==> history[i].d == d)
    && (n < |history| ==> history[n].d != d)
  }

  /** Everything the service asks of an adjustment for `signal` with the undampened target `raw`. */
  ghost predicate Admitted(samples: seq<Sample>, request: Request, threshold: real, band: real, history: seq<Entry>,
                           past: PastOutcomes, signal: Signal, raw: real) {
    var t := TallyOf(samples, request.category, threshold, band);
    var d := DirectionOf(signal);
    && t.n >= request.minSamples
    && SignalOf(t, request) == Some(signal)
    && RawTarget(samples, request.category, threshold, band, signal, raw)
    && (d == Tighten ==> !Most(CountIf(samples, HitBetween(request.category, raw, threshold)), t.hits, 0.15))
    && (forall k: nat :: NewestSame(history, d, k) ==> Improved(history[k], t))
    && !(|history| >= 5 && forall i :: 0 <= i < 5 ==> history[i].d == d)
    && |FlipsAt(history, d, |history|)| < 3
    && !(past.degraded >= 2 && past.degraded > past.improved)
  }

  /** An adjustment for an admitted signal: its direction, and the raw step shrunk by the run it extends. */
  ghost predicate Answers(threshold: real, band: real, history: seq<Entry>, raw: real, r: Recommendation)
    requires r.Adjust?
  {
    && r.direction == DirectionOf(r.signal)
    && (exists run: nat :: RunIs(history, r.direction, run) && r.factor * (1.0 + run as real * 0.5) == 1.0)
    && (threshold >= 0.0 && band >= 0.0 ==> r.target - threshold == (raw - threshold) * r.factor)
  }

  lemma CappedCounts(history: seq<Entry>, d: Direction)
    ensures Dampen(history, d).capped
       <==> (|history| >= 5 && forall i :: 0 <= i < 5 ==> history[i].d == d) || |FlipsAt(history, d, |history|)| >= 3
  {
    CappedIff(history, d);
    FlipsCount(history, d, |history|);
    assert Directions(history)[..|history|] == Directions(history);
  }

  lemma RunIsLeading(history: seq<Entry>, d: Direction)
    ensures RunIs(history, d, LeadingRun(Directions(history), d))
  {
    LeadingRunIs(Directions(history), d);
  }

  lemma VetAdmits(samples: seq<Sample>, request: Request, w: Window, history: seq<Entry>, past: PastOutcomes,
                  p: Proposal)
    requires w.hits == Filter(samples, Hit(request.category))
    requires var t := TallyOf(samples, request.category, w.threshold, w.band);
             && Matches(w, t) && t.n >= request.minSamples && SignalOf(t, request) == Some(p.signal)
             && p.direction == DirectionOf(p.signal)
    requires RawTarget(samples, request.category, w.threshold, w.band, p.signal, p.target)
    ensures Vet(w, p, history, past).Adjust?
       <==> Admitted(samples, request, w.threshold, w.band, history, past, p.signal, p.target)
  {
    var t := TallyOf(samples, request.category, w.threshold, w.band);
    RecallCounts(samples, request.category, w, p.target);
    OutcomeIs(history, p.direction, w, t);
    CappedCounts(history, p.direction);
  }

  lemma VetScales(w: Window, history: seq<Entry>, past: PastOutcomes, p: Proposal)
    requires Propose(w) == Some(p) && Vet(w, p, history, past).Adjust? && w.threshold >= 0.0 && w.band >= 0.0
    ensures var r := Vet(w, p, history, past);
            r.target - w.threshold == (p.target - w.threshold) * r.factor
  {
    hide Propose;
    hide Vet;
    ProposalBounds(w);
    VetDampens(w, p, history, past);
    var r := Vet(w, p, history, past);
    if r.direction == Tighten {
      MulNegated(w.threshold - p.target, p.target - w.threshold, r.factor);
    }
  }

  lemma MulNegated(a: real, b: real, c: real)
    requires b == -a
    ensures b * c == -(a * c)
  {}

  lemma VetParts(w: Window, history: seq<Entry>, past: PastOutcomes, p: Proposal)
    requires Vet(w, p, history, past).Adjust?
    ensures var r := Vet(w, p, history, past);
            && r.signal == p.signal && r.direction == p.direction
            && r.factor == StepFactor(LeadingRun(Directions(history), p.direction))
  {
    hide LastOutcomeIneffective, RecallCostTooHigh, DampenedTarget;
  }

  lemma VetAnswers(w: Window, history: seq<Entry>, past: PastOutcomes, p: Proposal)
    requires Propose(w) == Some(p) && p.direction == DirectionOf(p.signal) && Vet(w, p, history, past).Adjust?
    ensures Vet(w, p, history, past).signal == p.signal
    ensures Answers(w.threshold, w.band, history, p.target, Vet(w, p, history, past))
  {
    hide Propose, Vet, LeadingRun;
    VetParts(w, history, past, p);
    var run := LeadingRun(Directions(history), p.direction);
    RunIsLeading(history, p.direction);
    StepFactorBounds(run);
    if w.threshold >= 0.0 && w.band >= 0.0 {
      VetScales(w, history, past, p);
    }
  }

  /**
   For every window, configuration, request, history and past: the service recommends an adjustment exactly when one
   signal is raised by the counts and admitted by the recall guard, the outcome of the newest comparable entry, the run
   and flip caps and the past outcomes; it then answers with that signal, its direction, and the raw step times a factor
   fixed by the length of the run. It reports too few samples exactly when there are, and is content otherwise.
   */
  lemma RecommendIff(samples: seq<Sample>, config: Config, request: Request, history: seq<Entry>, past: PastOutcomes,
                     threshold: real)
    requires InForce(config, request.category, threshold)
    ensures var r := Recommend(samples, config, request, history, past);
            && (r.InsufficientData? <==> CountIf(samples, Any(request.category)) < request.minSamples)
            && (r.Adjust? <==> exists signal, raw ::
                  Admitted(samples, request, threshold, config.band, history, past, signal, raw))
            && (forall raw :: r.Adjust?
                              && Admitted(samples, request, threshold, config.band, history, past, r.signal, raw)
                              ==> Answers(threshold, config.band, history, raw, r))
  {
    var w := WindowOf(samples, config, request);
    var t := TallyOf(samples, request.category, w.threshold, w.band);
    RelevantIsChosen(samples, request.category);
    CountOne(samples, Any(request.category), Any(request.category));
    WindowIsChosen(samples, config, request);
    WindowMatches(samples, config, request);
    ProposesSignal(samples, config, request);
    if t.n >= request.minSamples && Propose(w).Some? {
      var p := Propose(w).value;
      ProposesTarget(samples, request.category, w);
      VetAdmits(samples, request, w, history, past, p);
      forall signal, raw | Admitted(samples, request, threshold, config.band, history, past, signal, raw)
        ensures signal == p.signal && raw == p.target {
        RawTargetUnique(samples, request.category, threshold, config.band, signal, raw, p.target);
      }
      if Vet(w, p, history, past).Adjust? {
        VetAnswers(w, history, past, p);
      }
    }
  }
}

/**
 Correlation of anomalies into time windows: stable sort by time, greedy windows anchored at their first event, one
 group per window, the group's id written back into its events.
 */
module Correlator {
  import opened Prelude
  import opened Sorting

  datatype Severity = Info | Warning | Critical

  function Rank(s: Severity): nat { match s case Info => 0 case Warning => 1 case Critical => 2 }

  class AnomalyEvent {
    const id: int
    const timestamp: int
    const severity: Severity
    const metric: int
    var correlationId: Option<nat>
    var relatedMetrics: seq<int>

    constructor (id: int, timestamp: int, severity: Severity, metric: int)
      ensures this.id == id && this.timestamp == timestamp && this.severity == severity && this.metric == metric
      ensures correlationId == None && relatedMetrics == []
    {
      this.id, this.timestamp, this.severity, this.metric := id, timestamp, severity, metric;
      correlationId, relatedMetrics := None, [];
    }
  }

  datatype Group = Group(correlationId: nat, timestamp: int, anomalies: seq<AnomalyEvent>, severity: Severity)

  function Time(e: AnomalyEvent): int { e.timestamp }

  ghost predicate InTimeOrder(s: seq<AnomalyEvent>) {
    forall i, j :: 0 <= i < j < |s| ==> s[i].timestamp <= s[j].timestamp
  }

  function Flush(current: seq<AnomalyEvent>): seq<seq<AnomalyEvent>> { if current == [] then [] else [current] }

  /** What the window loop appends, given the window in progress, its anchor and the events still to come. */
  function Grow(current: seq<AnomalyEvent>, start: int, rest: seq<AnomalyEvent>, width: int): seq<seq<AnomalyEvent>>
    decreases rest
  {
    if rest == [] then Flush(current)
    else if rest[0].timestamp - start <= width then Grow(current + [rest[0]], start, rest[1..], width)
    else Flush(current) + Grow([rest[0]], rest[0].timestamp, rest[1..], width)
  }

  function Windows(sorted: seq<AnomalyEvent>, width: int): seq<seq<AnomalyEvent>> {
    if sorted == [] then [] else Grow([], sorted[0].timestamp, sorted, width)
  }

  function Flatten(windows: seq<seq<AnomalyEvent>>): seq<AnomalyEvent> {
    if windows == [] then [] else windows[0] + Flatten(windows[1..])
  }

  function Related(e: AnomalyEvent, anomalies: seq<AnomalyEvent>): seq<int> {
    if anomalies == [] then []
    else (if anomalies[0].id != e.id then [anomalies[0].metric] else []) + Related(e, anomalies[1..])
  }

  ghost predicate IsEarliest(t: int, s: seq<AnomalyEvent>) {
    (exists i :: 0 <= i < |s| && s[i].timestamp == t) && forall i :: 0 <= i < |s| ==> t <= s[i].timestamp
  }

  ghost predicate IsGravest(sev: Severity, s: seq<AnomalyEvent>) {
    (exists i :: 0 <= i < |s| && s[i].severity == sev) && forall i :: 0 <= i < |s| ==> Rank(s[i].severity) <= Rank(sev)
  }

  function Members(s: seq<AnomalyEvent>): set<AnomalyEvent> { set e | e in s }

  ghost predicate Stamped(g: Group)
    reads Members(g.anomalies)
  {
    forall e :: e in g.anomalies ==>
      e.correlationId == Some(g.correlationId) && e.relatedMetrics == Related(e, g.anomalies)
  }

  ghost predicate Describes(g: Group, window: seq<AnomalyEvent>) {
    g.anomalies == window && IsEarliest(g.timestamp, window) && IsGravest(g.severity, window)
  }

  class Correlator {
    const correlationWindowMs: nat
    /** Stands for the supply of fresh random identifiers. */
    var nextId: nat

    constructor (correlationWindowMs: nat)
      ensures this.correlationWindowMs == correlationWindowMs
    {
      this.correlationWindowMs, nextId := correlationWindowMs, 0;
    }

    method CutWindows(sorted: seq<AnomalyEvent>) returns (windows: seq<seq<AnomalyEvent>>)
      requires sorted != []
      ensures windows == Windows(sorted, correlationWindowMs)
    {
      windows := [];
      var current: seq<AnomalyEvent>, start, i := [], sorted[0].timestamp, 0;
      while i < |sorted|
        invariant 0 <= i <= |sorted|
        invariant windows + Grow(current, start, sorted[i..], correlationWindowMs)
                  == Windows(sorted, correlationWindowMs)
      {
        assert sorted[i..][1..] == sorted[i + 1..];
        if sorted[i].timestamp - start <= correlationWindowMs {
          current := current + [sorted[i]];
        } else {
          if |current| > 0 {
            windows := windows + [current];
          }
          current, start := [sorted[i]], sorted[i].timestamp;
        }
        i := i + 1;
      }
      if |current| > 0 {
        windows := windows + [current];
      }
    }

    method Summarize(anomalies: seq<AnomalyEvent>) returns (earliest: int, gravest: Severity)
      requires anomalies != []
      ensures IsEarliest(earliest, anomalies) && IsGravest(gravest, anomalies)
    {
      earliest, gravest := anomalies[0].timestamp, Info;
      var i := 0;
      while i < |anomalies|
        invariant 0 <= i <= |anomalies|
        invariant i == 0 ==> earliest == anomalies[0].timestamp && gravest == Info
        invariant i > 0 ==> IsEarliest(earliest, anomalies[..i]) && IsGravest(gravest, anomalies[..i])
      {
        ghost var before, seen := anomalies[..i], anomalies[..i + 1];
        assert seen == before + [anomalies[i]] && seen[i] == anomalies[i];
        ghost var e, g := earliest, gravest;
        if anomalies[i].timestamp < earliest {
          earliest := anomalies[i].timestamp;
        }
        if Rank(anomalies[i].severity) > Rank(gravest) {
          gravest := anomalies[i].severity;
        }
        SummaryExtends(before, anomalies[i], e, g, earliest, gravest);
        i := i + 1;
      }
      assert anomalies[..i] == anomalies;
    }

    method CreateGroup(anomalies: seq<AnomalyEvent>) returns (g: Group)
      requires anomalies != []
      modifies Members(anomalies), this`nextId
      ensures Describes(g, anomalies) && g.correlationId == old(nextId) && nextId == old(nextId) + 1
      ensures Stamped(g)
    {
      var id := nextId;
      nextId := nextId + 1;
      var i := 0;
      while i < |anomalies|
        invariant 0 <= i <= |anomalies| && nextId == id + 1
        invariant forall j :: 0 <= j < i ==>
          anomalies[j].correlationId == Some(id) && anomalies[j].relatedMetrics == Related(anomalies[j], anomalies)
      {
        anomalies[i].correlationId := Some(id);
        anomalies[i].relatedMetrics := Related(anomalies[i], anomalies);
        i := i + 1;
      }
      var earliest, gravest := Summarize(anomalies);
      g := Group(id, earliest, anomalies, gravest);
    }

    method CreateGroups(windows: seq<seq<AnomalyEvent>>, anomalies: seq<AnomalyEvent>) returns (groups: seq<Group>)
      requires forall i :: 0 <= i < |windows| ==> windows[i] != [] && Within(windows[i], anomalies)
      requires forall i, j :: 0 <= i < j < |windows| ==> Apart(windows[i], windows[j])
      modifies Members(anomalies), this`nextId
      ensures |groups| == |windows|
      ensures forall i :: 0 <= i < |groups| ==>
        Describes(groups[i], windows[i]) && groups[i].correlationId == old(nextId) + i && Stamped(groups[i])
    {
      groups := [];
      var i := 0;
      while i < |windows|
        invariant 0 <= i <= |windows| && |groups| == i && nextId == old(nextId) + i
        invariant forall j :: 0 <= j < i ==>
          Describes(groups[j], windows[j]) && groups[j].correlationId == old(nextId) + j && Stamped(groups[j])
      {
        assert Within(windows[i], anomalies);
        assert Members(windows[i]) <= Members(anomalies);
        assert forall j :: 0 <= j < i ==> Apart(groups[j].anomalies, windows[i]);
        var g := CreateGroup(windows[i]);
        groups := groups + [g];
        i := i + 1;
      }
    }

    /** One group per greedy window of the time-sorted input, each event stamped with its group's fresh id. */
    method Correlate(anomalies: seq<AnomalyEvent>) returns (groups: seq<Group>)
      modifies Members(anomalies), this`nextId
      ensures var windows := Windows(Sort(anomalies, ByKey(Time)), correlationWindowMs);
              && |groups| == |windows|
              && forall i :: 0 <= i < |groups| ==>
                   Describes(groups[i], windows[i]) && groups[i].correlationId == old(nextId) + i && Stamped(groups[i])
    {
      if |anomalies| == 0 {
        return [];
      }
      var sorted := Sort(anomalies, ByKey(Time));
      ghost var s := SortByTime(anomalies);
      var windows := CutWindows(sorted);
      WindowsCutWell(sorted, correlationWindowMs);
      WindowsApart(windows, correlationWindowMs);
      WindowsWithin(windows, anomalies);
      groups := CreateGroups(windows, anomalies);
    }
  }

  ghost predicate Within(a: seq<AnomalyEvent>, b: seq<AnomalyEvent>) { forall e :: e in a ==> e in b }

  ghost predicate Apart(a: seq<AnomalyEvent>, b: seq<AnomalyEvent>) { forall e :: e in a ==> e !in b }

  lemma SummaryExtends(before: seq<AnomalyEvent>, x: AnomalyEvent, e0: int, g0: Severity, e: int, g: Severity)
    requires before != [] ==> IsEarliest(e0, before) && IsGravest(g0, before)
    requires before == [] ==> e0 == x.timestamp && g0 == Info
    requires e == if x.timestamp < e0 then x.timestamp else e0
    requires g == if Rank(x.severity) > Rank(g0) then x.severity else g0
    ensures IsEarliest(e, before + [x]) && IsGravest(g, before + [x])
  {
    var s := before + [x];
    assert s[|before|] == x && forall i :: 0 <= i < |before| ==> s[i] == before[i];
  }

  lemma SortByTime(anomalies: seq<AnomalyEvent>) returns (sorted: seq<AnomalyEvent>)
    ensures sorted == Sort(anomalies, ByKey(Time)) && InTimeOrder(sorted)
    ensures multiset(sorted) == multiset(anomalies)
  {
    sorted := Sort(anomalies, ByKey(Time));
    SortPermutes(anomalies, ByKey(Time));
    SortSortsByKey(anomalies, Time);
    forall i, j | 0 <= i < j < |sorted| ensures sorted[i].timestamp <= sorted[j].timestamp {
      assert Time(sorted[i]) <= Time(sorted[j]);
    }
  }

  // ---------------------------------------------------------------- the windows

  /** All members lie within `width` of each other. */
  ghost predicate Spans(window: seq<AnomalyEvent>, width: int) {
    forall i, j :: 0 <= i < |window| && 0 <= j < |window| ==> window[i].timestamp - window[j].timestamp <= width
  }

  lemma FlattenFlush(current: seq<AnomalyEvent>, rest: seq<seq<AnomalyEvent>>)
    ensures Flatten(Flush(current) + rest) == current + Flatten(rest)
  {
    assert Flush(current) + rest == if current == [] then rest else [current] + rest;
    assert current != [] ==> ([current] + rest)[1..] == rest;
  }

  /** The windows, laid end to end, are the sorted input. */
  lemma {:induction false} GrowKeepsEvents(current: seq<AnomalyEvent>, start: int, rest: seq<AnomalyEvent>, width: int)
    ensures Flatten(Grow(current, start, rest, width)) == current + rest
    decreases rest
  {
    if rest == [] {
      FlattenFlush(current, []);
    } else if rest[0].timestamp - start <= width {
      GrowKeepsEvents(current + [rest[0]], start, rest[1..], width);
    } else {
      GrowKeepsEvents([rest[0]], rest[0].timestamp, rest[1..], width);
      FlattenFlush(current, Grow([rest[0]], rest[0].timestamp, rest[1..], width));
    }
  }

  /** Every window is non-empty, in time order, anchored at its first event and at most `width` long. */
  ghost predicate Anchored(window: seq<AnomalyEvent>, width: int) {
    && window != [] && InTimeOrder(window)
    && forall i :: 0 <= i < |window| ==> window[i].timestamp - window[0].timestamp <= width
  }

  ghost predicate WellCut(windows: seq<seq<AnomalyEvent>>, width: int) {
    && (forall i :: 0 <= i < |windows| ==> Anchored(windows[i], width))
    && (forall i, j :: 0 <= i < j < |windows| ==> windows[j][0].timestamp - windows[i][0].timestamp > width)
  }

  lemma {:induction false} GrowCutsWell(current: seq<AnomalyEvent>, start: int, rest: seq<AnomalyEvent>, width: int)
    requires Anchored(current, width) && current[0].timestamp == start && InTimeOrder(rest)
    requires rest != [] ==> forall i :: 0 <= i < |current| ==> current[i].timestamp <= rest[0].timestamp
    ensures var w := Grow(current, start, rest, width); WellCut(w, width) && w != [] && w[0][0] == current[0]
    decreases rest
  {
    if rest == [] {
    } else if rest[0].timestamp - start <= width {
      var next := current + [rest[0]];
      assert rest[1..] != [] ==> rest[0].timestamp <= rest[1].timestamp;
      GrowCutsWell(next, start, rest[1..], width);
    } else {
      GrowCutsWell([rest[0]], rest[0].timestamp, rest[1..], width);
    }
  }

  /** The greedy cut of a sorted list: a partition into anchored windows whose anchors are more than `width` apart. */
  lemma WindowsCutWell(sorted: seq<AnomalyEvent>, width: int)
    requires InTimeOrder(sorted) && width >= 0
    ensures WellCut(Windows(sorted, width), width) && Flatten(Windows(sorted, width)) == sorted
    ensures forall i :: 0 <= i < |Windows(sorted, width)| ==> Spans(Windows(sorted, width)[i], width)
  {
    if sorted != [] {
      assert [] + [sorted[0]] == [sorted[0]];
      GrowCutsWell([sorted[0]], sorted[0].timestamp, sorted[1..], width);
      GrowKeepsEvents([], sorted[0].timestamp, sorted, width);
    }
    forall i | 0 <= i < |Windows(sorted, width)| ensures Spans(Windows(sorted, width)[i], width) {
    }
  }

  /** No event belongs to two windows: every member of an earlier window precedes the later window's anchor. */
  lemma WindowsApart(windows: seq<seq<AnomalyEvent>>, width: int)
    requires WellCut(windows, width)
    ensures forall i, j :: 0 <= i < j < |windows| ==> Apart(windows[i], windows[j])
  {
    forall i, j | 0 <= i < j < |windows| ensures Apart(windows[i], windows[j]) {
      assert windows[j][0].timestamp - windows[i][0].timestamp > width;
      BeforeAnchor(windows[i], windows[j], width);
    }
  }

  lemma BeforeAnchor(a: seq<AnomalyEvent>, b: seq<AnomalyEvent>, width: int)
    requires Anchored(a, width) && Anchored(b, width) && b[0].timestamp - a[0].timestamp > width
    ensures Apart(a, b)
  {
    assert forall e :: e in a ==> e.timestamp < b[0].timestamp;
    forall e | e in b ensures e.timestamp >= b[0].timestamp {
      var y :| 0 <= y < |b| && b[y] == e;
    }
  }

  lemma {:induction false} FlattenHolds(windows: seq<seq<AnomalyEvent>>)
    ensures forall i, e :: 0 <= i < |windows| && e in windows[i] ==> e in Flatten(windows)
  {
    if windows != [] {
      FlattenHolds(windows[1..]);
    }
  }

  lemma WindowsWithin(windows: seq<seq<AnomalyEvent>>, anomalies: seq<AnomalyEvent>)
    requires multiset(Flatten(windows)) == multiset(anomalies)
    ensures forall i :: 0 <= i < |windows| ==> Within(windows[i], anomalies)
  {
    FlattenHolds(windows);
    SameMembers(Flatten(windows), anomalies);
  }

  // ---------------------------------------------------------------- no grouping uses fewer groups

  lemma {:induction false} HomeOf(groups: seq<seq<AnomalyEvent>>, e: AnomalyEvent) returns (k: nat)
    requires e in Flatten(groups)
    ensures k < |groups| && e in groups[k]
  {
    if e in groups[0] {
      k := 0;
    } else {
      k := HomeOf(groups[1..], e);
      k := k + 1;
    }
  }

  lemma {:induction false} HomesOf(windows: seq<seq<AnomalyEvent>>, groups: seq<seq<AnomalyEvent>>)
    returns (homes: seq<nat>)
    requires forall i :: 0 <= i < |windows| ==> windows[i] != [] && windows[i][0] in Flatten(groups)
    ensures |homes| == |windows|
    ensures forall i :: 0 <= i < |homes| ==> homes[i] < |groups| && windows[i][0] in groups[homes[i]]
  {
    if windows == [] {
      homes := [];
    } else {
      var k := HomeOf(groups, windows[0][0]);
      homes := HomesOf(windows[1..], groups);
      homes := [k] + homes;
    }
  }

  lemma AnchorsSeparate(windows: seq<seq<AnomalyEvent>>, groups: seq<seq<AnomalyEvent>>, width: int, homes: seq<nat>)
    requires WellCut(windows, width) && forall k :: 0 <= k < |groups| ==> Spans(groups[k], width)
    requires |homes| == |windows|
    requires forall i :: 0 <= i < |homes| ==> homes[i] < |groups| && windows[i][0] in groups[homes[i]]
    ensures forall i, j :: 0 <= i < j < |homes| ==> homes[i] != homes[j]
  {
    forall i, j | 0 <= i < j < |homes| ensures homes[i] != homes[j] {
      assert windows[j][0].timestamp - windows[i][0].timestamp > width;
      var x :| 0 <= x < |groups[homes[i]]| && groups[homes[i]][x] == windows[i][0];
      var y :| 0 <= y < |groups[homes[j]]| && groups[homes[j]][y] == windows[j][0];
    }
  }

  /** The greedy cut is optimal: any grouping of the same events into groups of span `width` has at least as many. */
  lemma GreedyIsMinimal(anomalies: seq<AnomalyEvent>, groups: seq<seq<AnomalyEvent>>, width: nat)
    requires multiset(Flatten(groups)) == multiset(anomalies)
    requires forall k :: 0 <= k < |groups| ==> Spans(groups[k], width)
    ensures |Windows(Sort(anomalies, ByKey(Time)), width)| <= |groups|
  {
    var sorted := SortByTime(anomalies);
    var windows := Windows(sorted, width);
    WindowsCutWell(sorted, width);
    WindowsWithin(windows, Flatten(groups));
    forall i | 0 <= i < |windows| ensures windows[i] != [] && windows[i][0] in Flatten(groups) {
      assert Anchored(windows[i], width) && Within(windows[i], Flatten(groups));
    }
    var homes := HomesOf(windows, groups);
    AnchorsSeparate(windows, groups, width, homes);
    Pigeonhole(homes, |groups|);
  }

  /** The windows of any input partition it, and none spans more than `width`. */
  lemma CorrelationPartitions(anomalies: seq<AnomalyEvent>, width: nat)
    ensures var windows := Windows(Sort(anomalies, ByKey(Time)), width);
            && multiset(Flatten(windows)) == multiset(anomalies)
            && forall i :: 0 <= i < |windows| ==> windows[i] != [] && Spans(windows[i], width)
  {
    var sorted := SortByTime(anomalies);
    WindowsCutWell(sorted, width);
    forall i | 0 <= i < |Windows(sorted, width)| ensures Windows(sorted, width)[i] != [] {
      assert Anchored(Windows(sorted, width)[i], width);
    }
  }

  /**
   The related metrics of an event are those of the events with other ids; with distinct ids, one for each of them.
   */
  lemma {:induction false} RelatedAre(e: AnomalyEvent, anomalies: seq<AnomalyEvent>)
    ensures forall m :: m in Related(e, anomalies)
                        <==> exists i :: 0 <= i < |anomalies| && anomalies[i].id != e.id && anomalies[i].metric == m
    ensures (forall i :: 0 <= i < |anomalies| ==> anomalies[i].id != e.id) ==> |Related(e, anomalies)| == |anomalies|
    ensures (forall i, j :: 0 <= i < j < |anomalies| ==> anomalies[i].id != anomalies[j].id) && e in anomalies ==>
              |Related(e, anomalies)| == |anomalies| - 1
  {
    if anomalies != [] {
      var rest := anomalies[1..];
      RelatedAre(e, rest);
      forall m ensures m in Related(e, anomalies)
                       <==> exists i :: 0 <= i < |anomalies| && anomalies[i].id != e.id && anomalies[i].metric == m {
        if i :| 0 <= i < |anomalies| && anomalies[i].id != e.id && anomalies[i].metric == m {
          assert i > 0 ==> rest[i - 1] == anomalies[i];
        }
        if j :| 0 <= j < |rest| && rest[j].id != e.id && rest[j].metric == m {
          assert anomalies[j + 1] == rest[j];
        }
      }
    }
  }
}

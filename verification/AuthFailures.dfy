/**
 Authentication failures per client address: the growth of each ACL LOG entry inside a sliding window, folded by
 address, and the per-address alert cooldown.
 */
module AuthFailures {
  import opened Prelude
  import opened Sorting

  const AUTH_REASON := "auth"

  /** The identity of a log entry, without the client it currently names. */
  datatype Key = Key(created: int, username: string, reason: string, context: string, object_: string)

  /** One stored row; `address` is the client address parsed from it, empty when it has none. */
  datatype LogEntry = LogEntry(key: Key, count: nat, address: string)

  datatype Sample = Sample(at: int, delta: nat)

  datatype Result = Result(entry: LogEntry, windowCount: nat)

  datatype State = State(lastCount: map<Key, nat>, deltas: map<Key, seq<Sample>>, lastSeenAt: map<Key, int>)

  const EMPTY: State := State(map[], map[], map[])

  function InWindow(samples: seq<Sample>, start: int): seq<Sample> {
    if samples == [] then []
    else if samples[0].at > start then [samples[0]] + InWindow(samples[1..], start)
    else InWindow(samples[1..], start)
  }

  function SumOf(samples: seq<Sample>): nat { if samples == [] then 0 else samples[0].delta + SumOf(samples[1..]) }

  /** What is remembered of one entry between scans. */
  datatype Memory = Memory(count: nat, samples: seq<Sample>, seenAt: int)

  function Recall(st: State, k: Key): Option<Memory> {
    if k in st.lastCount && k in st.lastSeenAt
    then Some(Memory(st.lastCount[k], if k in st.deltas then st.deltas[k] else [], st.lastSeenAt[k]))
    else None
  }

  /**
   A first sighting counts only when the entry was created inside the window; a lower count restarts at zero growth.
   */
  function Growth(m: Option<Memory>, created: int, count: nat, start: int): nat {
    match m
    case None => if created >= start then count else 0
    case Some(mem) => if count > mem.count then count - mem.count else 0
  }

  function Pushed(samples: seq<Sample>, at: int, delta: nat): seq<Sample> {
    if delta > 0 then samples + [Sample(at, delta)] else samples
  }

  function Sight(m: Option<Memory>, created: int, count: nat, now: int, windowMs: int): Memory {
    var before := if m.Some? then m.value.samples else [];
    Memory(count, InWindow(Pushed(before, now, Growth(m, created, count, now - windowMs)), now - windowMs), now)
  }

  function Sighted(st: State, e: LogEntry, now: int, windowMs: int): State {
    var mem := Sight(Recall(st, e.key), e.key.created, e.count, now, windowMs);
    State(st.lastCount[e.key := mem.count],
          if mem.samples == [] then st.deltas - {e.key} else st.deltas[e.key := mem.samples],
          st.lastSeenAt[e.key := now])
  }

  function ResultOf(st: State, e: LogEntry, now: int, windowMs: int): seq<Result> {
    var n := SumOf(Sight(Recall(st, e.key), e.key.created, e.count, now, windowMs).samples);
    if n > 0 then [Result(e, n)] else []
  }

  function Accumulated(st: State, entries: seq<LogEntry>, now: int, windowMs: int): State {
    if entries == [] then st
    else Sighted(Accumulated(st, entries[..|entries| - 1], now, windowMs), entries[|entries| - 1], now, windowMs)
  }

  function Results(st: State, entries: seq<LogEntry>, now: int, windowMs: int): seq<Result> {
    if entries == [] then []
    else
      var init := entries[..|entries| - 1];
      Results(st, init, now, windowMs)
      + ResultOf(Accumulated(st, init, now, windowMs), entries[|entries| - 1], now, windowMs)
  }

  /** Entries not seen for four windows are forgotten. */
  function Pruned(st: State, now: int, windowMs: int): State {
    var gone := set k | k in st.lastSeenAt && st.lastSeenAt[k] <= now - windowMs * 4;
    State(st.lastCount - gone, st.deltas - gone, st.lastSeenAt - gone)
  }

  // ---------------------------------------------------------------- folding by address

  /** A JavaScript map of counters: keys in order of first use. */
  type Counters = seq<(string, nat)>

  function Add(c: Counters, key: string, n: nat): Counters {
    if c == [] then [(key, n)]
    else if c[0].0 == key then [(key, c[0].1 + n)] + c[1..]
    else [c[0]] + Add(c[1..], key, n)
  }

  function Get(c: Counters, key: string): nat {
    if c == [] then 0 else if c[0].0 == key then c[0].1 else Get(c[1..], key)
  }

  function Total(c: Counters): nat { if c == [] then 0 else c[0].1 + Total(c[1..]) }

  datatype Bucket = Bucket(authFailures: nat, usernames: Counters, reasons: Counters)

  const NO_FAILURES: Bucket := Bucket(0, [], [])

  function Charge(b: Bucket, r: Result): Bucket {
    var reason := r.entry.key.reason;
    var charged := b.(reasons := Add(b.reasons, reason, r.windowCount));
    if reason == AUTH_REASON
    then charged.(authFailures := b.authFailures + r.windowCount,
                  usernames := Add(b.usernames, r.entry.key.username, r.windowCount))
    else charged
  }

  function BucketOf(results: seq<Result>, address: string): Bucket {
    if results == [] then NO_FAILURES
    else
      var before, last := BucketOf(results[..|results| - 1], address), results[|results| - 1];
      if last.entry.address == address then Charge(before, last) else before
  }

  datatype Source = Source(address: string, authFailures: nat, usernames: seq<string>, reasons: Counters)

  function Names(c: Counters): seq<string> { if c == [] then [] else [c[0].0] + Names(c[1..]) }

  function Fewer(c: (string, nat)): int { 0 - c.1 }

  function SourceOf(address: string, b: Bucket): Source {
    Source(address, b.authFailures, Names(Sort(b.usernames, ByKey(Fewer))), b.reasons)
  }

  class AuthFailureDetector {
    var lastAlertedAt: map<string, int>
    var lastCount: map<Key, nat>
    var deltas: map<Key, seq<Sample>>
    var lastSeenAt: map<Key, int>

    constructor ()
      ensures Model() == EMPTY && lastAlertedAt == map[]
    {
      lastAlertedAt, lastCount, deltas, lastSeenAt := map[], map[], map[], map[];
    }

    function Model(): State
      reads this`lastCount, this`deltas, this`lastSeenAt
    {
      State(lastCount, deltas, lastSeenAt)
    }

    /** Counts and sightings are always written together; growth is kept only for known entries. */
    ghost predicate Valid()
      reads this`lastCount, this`deltas, this`lastSeenAt
    {
      lastCount.Keys == lastSeenAt.Keys && deltas.Keys <= lastCount.Keys
    }

    method SightEntry(e: LogEntry, now: int, windowMs: int) returns (result: seq<Result>)
      requires Valid()
      modifies this`lastCount, this`deltas, this`lastSeenAt
      ensures Valid() && Model() == Sighted(old(Model()), e, now, windowMs)
      ensures result == ResultOf(old(Model()), e, now, windowMs)
    {
      var windowStart := now - windowMs;
      var delta := 0;
      if e.key !in lastCount {
        delta := if e.key.created >= windowStart then e.count else 0;
      } else if e.count > lastCount[e.key] {
        delta := e.count - lastCount[e.key];
      }
      var samples := if e.key in deltas then deltas[e.key] else [];
      if delta > 0 {
        samples := samples + [Sample(now, delta)];
      }
      lastCount := lastCount[e.key := e.count];
      lastSeenAt := lastSeenAt[e.key := now];
      var inWindow := InWindow(samples, windowStart);
      if |inWindow| > 0 {
        deltas := deltas[e.key := inWindow];
      } else {
        deltas := deltas - {e.key};
      }
      var windowCount, i := 0, 0;
      while i < |inWindow|
        invariant 0 <= i <= |inWindow| && windowCount + SumOf(inWindow[i..]) == SumOf(inWindow)
      {
        assert inWindow[i..][1..] == inWindow[i + 1..];
        windowCount, i := windowCount + inWindow[i].delta, i + 1;
      }
      result := if windowCount > 0 then [Result(e, windowCount)] else [];
    }

    method Accumulate(entries: seq<LogEntry>, now: int, windowMs: int) returns (results: seq<Result>)
      requires Valid()
      modifies this`lastCount, this`deltas, this`lastSeenAt
      ensures Valid() && Model() == Accumulated(old(Model()), entries, now, windowMs)
      ensures results == Results(old(Model()), entries, now, windowMs)
    {
      results := [];
      var i := 0;
      while i < |entries|
        invariant 0 <= i <= |entries| && Valid()
        invariant Model() == Accumulated(old(Model()), entries[..i], now, windowMs)
        invariant results == Results(old(Model()), entries[..i], now, windowMs)
      {
        assert entries[..i + 1][..i] == entries[..i];
        var r := SightEntry(entries[i], now, windowMs);
        results := results + r;
        i := i + 1;
      }
      assert entries[..i] == entries;
    }

    method PruneState(now: int, windowMs: int)
      requires Valid()
      modifies this`lastCount, this`deltas, this`lastSeenAt
      ensures Valid() && Model() == Pruned(old(Model()), now, windowMs)
    {
      var gone := set k | k in lastSeenAt && !(lastSeenAt[k] > now - windowMs * 4);
      lastSeenAt, lastCount, deltas := lastSeenAt - gone, lastCount - gone, deltas - gone;
    }

    /** The sources found are exactly the addresses with at least `minCount` failures, each once, worst first. */
    method Observe(entries: seq<LogEntry>, now: int, windowMs: int, minCount: nat)
      returns (sources: seq<Source>, ghost results: seq<Result>)
      requires Valid()
      modifies this`lastCount, this`deltas, this`lastSeenAt
      ensures Valid() && results == Results(old(Model()), entries, now, windowMs)
      ensures Model() == Pruned(Accumulated(old(Model()), entries, now, windowMs), now, windowMs)
      ensures Distinct(sources)
      ensures forall i, j :: 0 <= i < j < |sources| ==> sources[i].authFailures >= sources[j].authFailures
      ensures forall s :: s in sources <==>
        s.address != "" && (exists r :: r in results && r.entry.address == s.address)
        && s == SourceOf(s.address, BucketOf(results, s.address)) && s.authFailures >= minCount
    {
      var found := Accumulate(entries, now, windowMs);
      results := found;
      var unsorted := FoldByAddress(found, minCount);
      PruneState(now, windowMs);
      sources := Sort(unsorted, ByKey(Worst));
      SortSortsByKey(unsorted, Worst);
      SortPermutes(unsorted, ByKey(Worst));
      SameMembers(unsorted, sources);
      PermutedDistinct(unsorted, sources);
      forall i, j | 0 <= i < j < |sources| ensures sources[i].authFailures >= sources[j].authFailures {
        assert Worst(sources[i]) <= Worst(sources[j]);
      }
    }

    /** Addresses alerted within the cooldown are left out; the others are stamped. */
    method TakeAlertable(sources: seq<Source>, now: int, cooldownMs: int) returns (alertable: seq<Source>)
      modifies this`lastAlertedAt
      ensures lastAlertedAt == Stamped(Fresh(old(lastAlertedAt), now, cooldownMs), sources, now, cooldownMs)
      ensures alertable == Alertable(Fresh(old(lastAlertedAt), now, cooldownMs), sources, now, cooldownMs)
    {
      lastAlertedAt := map a | a in lastAlertedAt && now - lastAlertedAt[a] <= cooldownMs :: lastAlertedAt[a];
      ghost var kept := lastAlertedAt;
      alertable := [];
      var i := 0;
      while i < |sources|
        invariant 0 <= i <= |sources|
        invariant lastAlertedAt == Stamped(kept, sources[..i], now, cooldownMs)
        invariant alertable == Alertable(kept, sources[..i], now, cooldownMs)
      {
        assert sources[..i + 1][..i] == sources[..i];
        var s := sources[i];
        if !(s.address in lastAlertedAt && now - lastAlertedAt[s.address] <= cooldownMs) {
          lastAlertedAt := lastAlertedAt[s.address := now];
          alertable := alertable + [s];
        }
        i := i + 1;
      }
      assert sources[..i] == sources;
    }
  }

  function Worst(s: Source): int { 0 - s.authFailures }

  method FoldByAddress(results: seq<Result>, minCount: nat) returns (sources: seq<Source>)
    ensures Distinct(sources)
    ensures forall s :: s in sources <==>
      s.address != "" && (exists r :: r in results && r.entry.address == s.address)
      && s == SourceOf(s.address, BucketOf(results, s.address)) && s.authFailures >= minCount
  {
    var byAddress := BucketsOf(results);
    sources := [];
    var left := byAddress.Keys;
    while left != {}
      invariant left <= byAddress.Keys && Distinct(sources)
      invariant forall s :: s in sources <==>
        s.address in byAddress && s.address !in left && s == SourceOf(s.address, byAddress[s.address])
          && s.authFailures >= minCount
      decreases |left|
    {
      var a :| a in left;
      if byAddress[a].authFailures >= minCount {
        sources := sources + [SourceOf(a, byAddress[a])];
      }
      left := left - {a};
    }
  }

  method BucketsOf(results: seq<Result>) returns (byAddress: map<string, Bucket>)
    ensures forall a :: a in byAddress <==> a != "" && exists r :: r in results && r.entry.address == a
    ensures forall a :: a in byAddress ==> byAddress[a] == BucketOf(results, a)
  {
    byAddress := map[];
    var i := 0;
    while i < |results|
      invariant 0 <= i <= |results|
      invariant forall a :: a in byAddress <==> a != "" && exists r :: r in results[..i] && r.entry.address == a
      invariant forall a :: a != "" ==>
                              BucketOf(results[..i], a) == if a in byAddress then byAddress[a] else NO_FAILURES
    {
      assert results[..i + 1][..i] == results[..i] && results[..i + 1] == results[..i] + [results[i]];
      var r := results[i];
      if r.entry.address != "" {
        var bucket := if r.entry.address in byAddress then byAddress[r.entry.address] else NO_FAILURES;
        byAddress := byAddress[r.entry.address := Charge(bucket, r)];
      }
      i := i + 1;
    }
    assert results[..i] == results;
  }

  // ---------------------------------------------------------------- cooldown

  function Fresh(alerted: map<string, int>, now: int, cooldownMs: int): map<string, int> {
    map a | a in alerted && now - alerted[a] <= cooldownMs :: alerted[a]
  }

  predicate Cooling(alerted: map<string, int>, a: string, now: int, cooldownMs: int) {
    a in alerted && now - alerted[a] <= cooldownMs
  }

  function Stamped(alerted: map<string, int>, sources: seq<Source>, now: int, cooldownMs: int): map<string, int> {
    if sources == [] then alerted
    else
      var before, s := Stamped(alerted, sources[..|sources| - 1], now, cooldownMs), sources[|sources| - 1];
      if Cooling(before, s.address, now, cooldownMs) then before else before[s.address := now]
  }

  function Alertable(alerted: map<string, int>, sources: seq<Source>, now: int, cooldownMs: int): seq<Source> {
    if sources == [] then []
    else
      var init, s := sources[..|sources| - 1], sources[|sources| - 1];
      var before := Alertable(alerted, init, now, cooldownMs);
      if Cooling(Stamped(alerted, init, now, cooldownMs), s.address, now, cooldownMs) then before else before + [s]
  }

  /** Source counts, per-username counts and the reason breakdown agree. */
  ghost predicate Balanced(b: Bucket) {
    b.authFailures == Get(b.reasons, AUTH_REASON) && b.authFailures == Total(b.usernames)
  }

  lemma {:induction false} AddCounts(c: Counters, key: string, n: nat, other: string)
    ensures Total(Add(c, key, n)) == Total(c) + n
    ensures Get(Add(c, key, n), other) == Get(c, other) + if other == key then n else 0
  {
    if c != [] {
      AddCounts(c[1..], key, n, other);
    }
  }

  /** The failures of an address for one username, or for one reason whatever the username. */
  function UserFailures(results: seq<Result>, address: string, user: string): nat {
    if results == [] then 0
    else
      var r := results[|results| - 1];
      UserFailures(results[..|results| - 1], address, user)
      + if r.entry.address == address && r.entry.key.reason == AUTH_REASON && r.entry.key.username == user
        then r.windowCount else 0
  }

  function ReasonCount(results: seq<Result>, address: string, reason: string): nat {
    if results == [] then 0
    else
      var r := results[|results| - 1];
      ReasonCount(results[..|results| - 1], address, reason)
      + if r.entry.address == address && r.entry.key.reason == reason then r.windowCount else 0
  }

  /**
   For every address, authFailures equals its "auth" reason count and the sum of its per-username counts; every reason
   and every username is counted exactly from the entries that carry it.
   */
  lemma {:induction false} AddressCountsBalance(results: seq<Result>, address: string, reason: string, user: string)
    ensures Balanced(BucketOf(results, address))
    ensures BucketOf(results, address).authFailures == ReasonCount(results, address, AUTH_REASON)
    ensures Get(BucketOf(results, address).reasons, reason) == ReasonCount(results, address, reason)
    ensures Get(BucketOf(results, address).usernames, user) == UserFailures(results, address, user)
  {
    if results != [] {
      var init, r := results[..|results| - 1], results[|results| - 1];
      AddressCountsBalance(init, address, reason, user);
      if r.entry.address == address {
        var b := BucketOf(init, address);
        AddCounts(b.reasons, r.entry.key.reason, r.windowCount, reason);
        AddCounts(b.reasons, r.entry.key.reason, r.windowCount, AUTH_REASON);
        AddCounts(b.usernames, r.entry.key.username, r.windowCount, user);
      }
    }
  }

  // ---------------------------------------------------------------- the window count telescopes

  datatype Sighting = Sighting(now: int, created: int, count: nat)

  /** The memory of an entry after a run of sightings. */
  function MemoryAt(run: seq<Sighting>, windowMs: int): Option<Memory> {
    if run == [] then None
    else
      var x := run[|run| - 1];
      Some(Sight(MemoryAt(run[..|run| - 1], windowMs), x.created, x.count, x.now, windowMs))
  }

  /** Time never runs backwards. */
  ghost predicate Timely(run: seq<Sighting>) {
    |run| >= 2 ==> Timely(run[..|run| - 1]) && run[|run| - 2].now <= run[|run| - 1].now
  }

  /** Neither does the count ever fall. */
  ghost predicate Steady(run: seq<Sighting>) {
    Timely(run) && (|run| >= 2 ==> Steady(run[..|run| - 1]) && run[|run| - 2].count <= run[|run| - 1].count)
  }

  /** The growth of every sighting, never pruned. */
  function GrowthLog(run: seq<Sighting>, windowMs: int): seq<Sample> {
    if run == [] then []
    else
      var init, x := run[..|run| - 1], run[|run| - 1];
      Pushed(GrowthLog(init, windowMs), x.now, Growth(MemoryAt(init, windowMs), x.created, x.count, x.now - windowMs))
  }

  /** What the first sighting does not count: everything for an old entry, nothing for one created in the window. */
  function Baseline(first: Sighting, windowMs: int): nat {
    if first.created >= first.now - windowMs then 0 else first.count
  }

  /** The count at the last sighting at or before `start`, or the baseline if there is none. */
  function CountAt(run: seq<Sighting>, start: int, windowMs: int): nat
    requires run != []
  {
    if run[|run| - 1].now <= start then run[|run| - 1].count
    else if |run| == 1 then Baseline(run[0], windowMs)
    else CountAt(run[..|run| - 1], start, windowMs)
  }

  lemma {:induction false} InWindowTwice(s: seq<Sample>, a: int, b: int)
    requires a <= b
    ensures InWindow(InWindow(s, a), b) == InWindow(s, b)
  {
    if s != [] {
      InWindowTwice(s[1..], a, b);
    }
  }

  lemma {:induction false} InWindowAppend(s: seq<Sample>, x: Sample, start: int)
    ensures InWindow(s + [x], start) == InWindow(s, start) + InWindow([x], start)
  {
    if s == [] {
      assert [] + [x] == [x];
    } else {
      assert (s + [x])[1..] == s[1..] + [x];
      InWindowAppend(s[1..], x, start);
    }
  }

  lemma {:induction false} SumAppend(s: seq<Sample>, t: seq<Sample>)
    ensures SumOf(s + t) == SumOf(s) + SumOf(t)
  {
    if s == [] {
      assert s + t == t;
    } else {
      assert (s + t)[1..] == s[1..] + t;
      SumAppend(s[1..], t);
    }
  }

  lemma SumPushed(s: seq<Sample>, at: int, delta: nat, start: int)
    ensures SumOf(InWindow(Pushed(s, at, delta), start)) == SumOf(InWindow(s, start)) + if at > start then delta else 0
  {
    if delta > 0 {
      InWindowAppend(s, Sample(at, delta), start);
      assert [Sample(at, delta)][1..] == [];
      SumAppend(InWindow(s, start), InWindow([Sample(at, delta)], start));
    }
  }

  lemma PushedWindow(kept: seq<Sample>, log: seq<Sample>, a: int, b: int, at: int, delta: nat)
    requires kept == InWindow(log, a) && a <= b
    ensures InWindow(Pushed(kept, at, delta), b) == InWindow(Pushed(log, at, delta), b)
  {
    InWindowTwice(log, a, b);
    InWindowAppend(kept, Sample(at, delta), b);
    InWindowAppend(log, Sample(at, delta), b);
  }

  /** Pruning the samples loses nothing the window still needs. */
  lemma {:induction false} SamplesAreRecentLog(run: seq<Sighting>, windowMs: int)
    requires run != [] && Timely(run)
    ensures MemoryAt(run, windowMs).value.samples == InWindow(GrowthLog(run, windowMs), run[|run| - 1].now - windowMs)
    ensures MemoryAt(run, windowMs).value.count == run[|run| - 1].count
  {
    var init, x := run[..|run| - 1], run[|run| - 1];
    if init != [] {
      SamplesAreRecentLog(init, windowMs);
      PushedWindow(MemoryAt(init, windowMs).value.samples, GrowthLog(init, windowMs), init[|init| - 1].now - windowMs,
                   x.now - windowMs, x.now, Growth(MemoryAt(init, windowMs), x.created, x.count, x.now - windowMs));
    }
  }

  lemma {:induction false} LogTelescopes(run: seq<Sighting>, start: int, windowMs: int)
    requires run != [] && Steady(run)
    ensures CountAt(run, start, windowMs) <= run[|run| - 1].count
    ensures SumOf(InWindow(GrowthLog(run, windowMs), start)) == run[|run| - 1].count - CountAt(run, start, windowMs)
  {
    var init, x := run[..|run| - 1], run[|run| - 1];
    var delta := Growth(MemoryAt(init, windowMs), x.created, x.count, x.now - windowMs);
    SumPushed(GrowthLog(init, windowMs), x.now, delta, start);
    if init != [] {
      LogTelescopes(init, start, windowMs);
      SamplesAreRecentLog(init, windowMs);
    }
  }

  /**
   For an entry with non-decreasing counts, the window count of a sighting is the current count minus the count at the
   last sighting at or before the start of the window, or minus the first-sighting baseline.
   */
  lemma WindowCountTelescopes(run: seq<Sighting>, windowMs: int)
    requires run != [] && Steady(run)
    ensures var now := run[|run| - 1].now;
            SumOf(MemoryAt(run, windowMs).value.samples)
              == run[|run| - 1].count - CountAt(run, now - windowMs, windowMs)
  {
    SamplesAreRecentLog(run, windowMs);
    LogTelescopes(run, run[|run| - 1].now - windowMs, windowMs);
  }

  // ---------------------------------------------------------------- scans refine sightings

  datatype Scan = Scan(entries: seq<LogEntry>, now: int)

  function StateAfter(scans: seq<Scan>, windowMs: int): State {
    if scans == [] then EMPTY
    else
      var s := scans[|scans| - 1];
      Pruned(Accumulated(StateAfter(scans[..|scans| - 1], windowMs), s.entries, s.now, windowMs), s.now, windowMs)
  }

  /** The sightings of one entry in one scan and over all scans. */
  function SightingsIn(entries: seq<LogEntry>, now: int, k: Key): seq<Sighting> {
    if entries == [] then []
    else
      var e := entries[|entries| - 1];
      SightingsIn(entries[..|entries| - 1], now, k) + if e.key == k then [Sighting(now, k.created, e.count)] else []
  }

  function SightingsOf(scans: seq<Scan>, k: Key): seq<Sighting> {
    if scans == [] then []
    else SightingsOf(scans[..|scans| - 1], k) + SightingsIn(scans[|scans| - 1].entries, scans[|scans| - 1].now, k)
  }

  ghost predicate Coherent(st: State) { st.lastCount.Keys == st.lastSeenAt.Keys && st.deltas.Keys <= st.lastCount.Keys }

  lemma MemorySnoc(run: seq<Sighting>, x: Sighting, windowMs: int)
    ensures MemoryAt(run + [x], windowMs) == Some(Sight(MemoryAt(run, windowMs), x.created, x.count, x.now, windowMs))
  {
    assert (run + [x])[..|run|] == run;
  }

  /** One scan's effect on the memory of one entry. */
  function EntryMemory(m: Option<Memory>, entries: seq<LogEntry>, now: int, windowMs: int, k: Key): Option<Memory> {
    if entries == [] then m
    else
      var before, e := EntryMemory(m, entries[..|entries| - 1], now, windowMs, k), entries[|entries| - 1];
      if e.key == k then Some(Sight(before, k.created, e.count, now, windowMs)) else before
  }

  lemma {:induction false} AccumulatedRecalls(st: State, entries: seq<LogEntry>, now: int, windowMs: int, k: Key)
    requires Coherent(st)
    ensures Coherent(Accumulated(st, entries, now, windowMs))
    ensures Recall(Accumulated(st, entries, now, windowMs), k) == EntryMemory(Recall(st, k), entries, now, windowMs, k)
  {
    if entries != [] {
      var init := entries[..|entries| - 1];
      AccumulatedRecalls(st, init, now, windowMs, k);
    }
  }

  lemma {:induction false} EntryMemoryIsRun(before: seq<Sighting>, entries: seq<LogEntry>, now: int, windowMs: int,
                                            k: Key)
    ensures EntryMemory(MemoryAt(before, windowMs), entries, now, windowMs, k)
         == MemoryAt(before + SightingsIn(entries, now, k), windowMs)
  {
    if entries == [] {
      assert before + SightingsIn(entries, now, k) == before;
    } else {
      var init, e := entries[..|entries| - 1], entries[|entries| - 1];
      EntryMemoryIsRun(before, init, now, windowMs, k);
      var sofar, x := before + SightingsIn(init, now, k), Sighting(now, k.created, e.count);
      if e.key == k {
        MemorySnoc(sofar, x, windowMs);
        assert before + SightingsIn(entries, now, k) == sofar + [x];
      } else {
        assert before + SightingsIn(entries, now, k) == sofar;
      }
    }
  }

  /** The entry is in every scan. */
  ghost predicate AlwaysPresent(scans: seq<Scan>, k: Key) {
    scans != [] ==>
      && AlwaysPresent(scans[..|scans| - 1], k)
      && SightingsIn(scans[|scans| - 1].entries, scans[|scans| - 1].now, k) != []
  }

  lemma {:induction false} SightingsEndNow(entries: seq<LogEntry>, now: int, k: Key)
    requires SightingsIn(entries, now, k) != []
    ensures var s := SightingsIn(entries, now, k); s[|s| - 1].now == now
  {
    if entries[|entries| - 1].key != k {
      SightingsEndNow(entries[..|entries| - 1], now, k);
    }
  }

  lemma SeenAtLast(run: seq<Sighting>, windowMs: int)
    requires run != []
    ensures MemoryAt(run, windowMs).value.seenAt == run[|run| - 1].now
  {}

  /** An entry present in every scan is never forgotten: the state remembers exactly its run of sightings. */
  lemma {:induction false} StateRemembersSightings(scans: seq<Scan>, windowMs: int, k: Key)
    requires AlwaysPresent(scans, k) && windowMs > 0
    ensures Coherent(StateAfter(scans, windowMs))
    ensures Recall(StateAfter(scans, windowMs), k) == MemoryAt(SightingsOf(scans, k), windowMs)
  {
    if scans != [] {
      var init, s := scans[..|scans| - 1], scans[|scans| - 1];
      StateRemembersSightings(init, windowMs, k);
      ScanRemembers(StateAfter(init, windowMs), SightingsOf(init, k), s, windowMs, k);
    }
  }

  lemma ScanRemembers(st: State, run: seq<Sighting>, s: Scan, windowMs: int, k: Key)
    requires Coherent(st) && Recall(st, k) == MemoryAt(run, windowMs) && windowMs > 0
    requires SightingsIn(s.entries, s.now, k) != []
    ensures var next := Pruned(Accumulated(st, s.entries, s.now, windowMs), s.now, windowMs);
            Coherent(next) && Recall(next, k) == MemoryAt(run + SightingsIn(s.entries, s.now, k), windowMs)
  {
    AccumulatedRecalls(st, s.entries, s.now, windowMs, k);
    EntryMemoryIsRun(run, s.entries, s.now, windowMs, k);
    SightingsEndNow(s.entries, s.now, k);
    SeenAtLast(run + SightingsIn(s.entries, s.now, k), windowMs);
    PrunedStillRecalls(Accumulated(st, s.entries, s.now, windowMs), s.now, windowMs, k);
  }

  lemma PrunedStillRecalls(st: State, now: int, windowMs: int, k: Key)
    requires Coherent(st) && Recall(st, k).Some? && Recall(st, k).value.seenAt == now && windowMs > 0
    ensures Coherent(Pruned(st, now, windowMs)) && Recall(Pruned(st, now, windowMs), k) == Recall(st, k)
  {
  }

  /** The telescoping count over whole scans: what the state holds for an entry present in every one of them. */
  lemma ScannedWindowTelescopes(scans: seq<Scan>, windowMs: int, k: Key)
    requires scans != [] && AlwaysPresent(scans, k) && windowMs > 0 && Steady(SightingsOf(scans, k))
    ensures var run := SightingsOf(scans, k);
            var held := Recall(StateAfter(scans, windowMs), k);
            && run != [] && held.Some?
            && SumOf(held.value.samples) == run[|run| - 1].count - CountAt(run, run[|run| - 1].now - windowMs, windowMs)
  {
    hide Accumulated, Pruned, SumOf, CountAt;
    StateRemembersSightings(scans, windowMs, k);
    WindowCountTelescopes(SightingsOf(scans, k), windowMs);
  }

  // ---------------------------------------------------------------- alerts are spaced

  /** One call of the alert filter: which sources were offered, and when. */
  datatype Offer = Offer(sources: seq<Source>, now: int)

  function AlertsAfter(offers: seq<Offer>, cooldownMs: int): map<string, int> {
    if offers == [] then map[]
    else
      var o := offers[|offers| - 1];
      Stamped(Fresh(AlertsAfter(offers[..|offers| - 1], cooldownMs), o.now, cooldownMs), o.sources, o.now, cooldownMs)
  }

  function AlertsIn(offers: seq<Offer>, n: nat, cooldownMs: int): seq<Source>
    requires n < |offers|
  {
    var recent := Fresh(AlertsAfter(offers[..n], cooldownMs), offers[n].now, cooldownMs);
    Alertable(recent, offers[n].sources, offers[n].now, cooldownMs)
  }

  ghost predicate Alerted(offers: seq<Offer>, n: nat, a: string, cooldownMs: int)
    requires n < |offers|
  {
    exists s :: s in AlertsIn(offers, n, cooldownMs) && s.address == a
  }

  /** Within one call: an address is stamped exactly when it was cooling already or is alerted now. */
  lemma {:induction false} StampsAlerts(alerted: map<string, int>, sources: seq<Source>, now: int, cooldownMs: nat,
                                        a: string)
    requires a in alerted ==> now - alerted[a] <= cooldownMs
    ensures a in alerted ==>
      && a in Stamped(alerted, sources, now, cooldownMs)
      && Stamped(alerted, sources, now, cooldownMs)[a] == alerted[a]
    ensures a !in alerted ==>
      && (a in Stamped(alerted, sources, now, cooldownMs) <==> exists s :: s in sources && s.address == a)
      && (a in Stamped(alerted, sources, now, cooldownMs) ==> Stamped(alerted, sources, now, cooldownMs)[a] == now)
    ensures (exists s :: s in Alertable(alerted, sources, now, cooldownMs) && s.address == a)
       <==> a !in alerted && exists s :: s in sources && s.address == a
  {
    if sources != [] {
      var init, last := sources[..|sources| - 1], sources[|sources| - 1];
      StampsAlerts(alerted, init, now, cooldownMs, a);
      assert sources == init + [last];
    }
  }

  ghost predicate Monotone(offers: seq<Offer>) {
    forall i, j :: 0 <= i < j < |offers| ==> offers[i].now <= offers[j].now
  }

  /** While the cooldown of an alert runs, its stamp is kept. */
  lemma {:induction false} StampKept(offers: seq<Offer>, m: nat, n: nat, a: string, cooldownMs: nat)
    requires m < n <= |offers| && Alerted(offers, m, a, cooldownMs) && Monotone(offers)
    requires forall i :: m < i < n ==> offers[i].now - offers[m].now <= cooldownMs
    ensures a in AlertsAfter(offers[..n], cooldownMs) && AlertsAfter(offers[..n], cooldownMs)[a] == offers[m].now
    decreases n
  {
    var before := AlertsAfter(offers[..n - 1], cooldownMs);
    var o := offers[n - 1];
    assert offers[..n][..n - 1] == offers[..n - 1];
    StampsAlerts(Fresh(before, o.now, cooldownMs), o.sources, o.now, cooldownMs, a);
    if m < n - 1 {
      StampKept(offers, m, n - 1, a, cooldownMs);
    }
  }

  ghost predicate Offered(offers: seq<Offer>, n: nat, a: string)
    requires n < |offers|
  {
    exists s :: s in offers[n].sources && s.address == a
  }

  /** Every stamp was set by an earlier call that alerted the address. */
  lemma {:induction false} StampOrigin(offers: seq<Offer>, n: nat, a: string, cooldownMs: nat)
    requires n <= |offers| && a in AlertsAfter(offers[..n], cooldownMs)
    ensures exists m :: 0 <= m < n && Alerted(offers, m, a, cooldownMs)
                        && AlertsAfter(offers[..n], cooldownMs)[a] == offers[m].now
    decreases n
  {
    if n > 0 {
      var before, o := AlertsAfter(offers[..n - 1], cooldownMs), offers[n - 1];
      assert offers[..n][..n - 1] == offers[..n - 1];
      var cooling := Fresh(before, o.now, cooldownMs);
      StampsAlerts(cooling, o.sources, o.now, cooldownMs, a);
      if a in cooling {
        StampOrigin(offers, n - 1, a, cooldownMs);
      } else {
        assert Alerted(offers, n - 1, a, cooldownMs);
      }
    }
  }

  /** An offered address is alerted exactly when every earlier call that alerted it is more than the cooldown ago. */
  lemma AlertedIff(offers: seq<Offer>, n: nat, a: string, cooldownMs: nat)
    requires n < |offers| && Monotone(offers)
    ensures Alerted(offers, n, a, cooldownMs)
       <==> Offered(offers, n, a)
            && forall m :: 0 <= m < n && Alerted(offers, m, a, cooldownMs) ==>
                             offers[n].now - offers[m].now > cooldownMs
  {
    var before := AlertsAfter(offers[..n], cooldownMs);
    StampsAlerts(Fresh(before, offers[n].now, cooldownMs), offers[n].sources, offers[n].now, cooldownMs, a);
    if m :| 0 <= m < n && Alerted(offers, m, a, cooldownMs) && offers[n].now - offers[m].now <= cooldownMs {
      StampKept(offers, m, n, a, cooldownMs);
    }
    if a in before {
      StampOrigin(offers, n, a, cooldownMs);
    }
  }

  /** Two alerts for one address are always more than the cooldown apart. */
  lemma AlertsAreSpaced(offers: seq<Offer>, m: nat, n: nat, a: string, cooldownMs: nat)
    requires m < n < |offers| && Monotone(offers)
    requires Alerted(offers, m, a, cooldownMs) && Alerted(offers, n, a, cooldownMs)
    ensures offers[n].now - offers[m].now > cooldownMs
  {
    AlertedIff(offers, n, a, cooldownMs);
  }
}

/** What a scan of the access log counts, read off the counts of every scan before it. */
module AuthCounts {
  // The window count of an entry adds up the rises of its counter inside the window, whatever the counter does: a fall
  // counts as nothing. An entry missing for four windows is forgotten, and its next sighting is a first one again.

  import opened Prelude
  import opened Sorting
  import opened AuthFailures

  /**
   The rise of the counter at one sighting; a first one counts in full only if the entry is younger than the window.
   */
  function RiseAt(run: seq<Sighting>, i: nat, windowMs: int): nat
    requires i < |run|
  {
    if i == 0 then (if run[0].created >= run[0].now - windowMs then run[0].count else 0)
    else if run[i].count > run[i - 1].count then run[i].count - run[i - 1].count
    else 0
  }

  /** The rises of the first n sightings that lie after `start`. */
  function RisesSince(run: seq<Sighting>, n: nat, start: int, windowMs: int): nat
    requires n <= |run|
  {
    if n == 0 then 0
    else RisesSince(run, n - 1, start, windowMs) + if run[n - 1].now > start then RiseAt(run, n - 1, windowMs) else 0
  }

  lemma {:induction false} RisesOfPrefix(run: seq<Sighting>, n: nat, m: nat, start: int, windowMs: int)
    requires n <= m <= |run|
    ensures RisesSince(run[..m], n, start, windowMs) == RisesSince(run, n, start, windowMs)
  {
    if n > 0 {
      RisesOfPrefix(run, n - 1, m, start, windowMs);
    }
  }

  lemma {:induction false} LogHoldsRises(run: seq<Sighting>, start: int, windowMs: int)
    requires Timely(run)
    ensures SumOf(InWindow(GrowthLog(run, windowMs), start)) == RisesSince(run, |run|, start, windowMs)
  {
    if run != [] {
      var n := |run| - 1;
      var init, x := run[..n], run[n];
      LogHoldsRises(init, start, windowMs);
      RisesOfPrefix(run, n, n, start, windowMs);
      if init != [] {
        SamplesAreRecentLog(init, windowMs);
      }
      var rise := Growth(MemoryAt(init, windowMs), x.created, x.count, x.now - windowMs);
      SumPushed(GrowthLog(init, windowMs), x.now, rise, start);
    }
  }

  /** What is remembered of an entry adds up to the rises of its counter inside the window. */
  lemma WindowCountIs(run: seq<Sighting>, windowMs: int)
    requires run != [] && Timely(run)
    ensures SumOf(MemoryAt(run, windowMs).value.samples)
         == RisesSince(run, |run|, run[|run| - 1].now - windowMs, windowMs)
  {
    SamplesAreRecentLog(run, windowMs);
    LogHoldsRises(run, run[|run| - 1].now - windowMs, windowMs);
  }

  // ---------------------------------------------------------------- over whole scans

  /** The sightings of an entry since it was last missing for four windows. */
  function KnownSightings(scans: seq<Scan>, k: Key, windowMs: int): seq<Sighting> {
    if scans == [] then []
    else
      var s := scans[|scans| - 1];
      var all := KnownSightings(scans[..|scans| - 1], k, windowMs) + SightingsIn(s.entries, s.now, k);
      if all != [] && all[|all| - 1].now <= s.now - 4 * windowMs then [] else all
  }

  lemma PruneForgets(st: State, now: int, windowMs: int, k: Key)
    requires Coherent(st)
    ensures Coherent(Pruned(st, now, windowMs))
    ensures var m := Recall(st, k);
            Recall(Pruned(st, now, windowMs), k) == if m.Some? && m.value.seenAt <= now - windowMs * 4 then None else m
  {}

  /** In every run of scans the state remembers exactly those sightings. */
  lemma {:induction false} StateKnows(scans: seq<Scan>, windowMs: int, k: Key)
    ensures Coherent(StateAfter(scans, windowMs))
    ensures Recall(StateAfter(scans, windowMs), k) == MemoryAt(KnownSightings(scans, k, windowMs), windowMs)
  {
    hide Accumulated, EntryMemory, Pruned, SightingsIn;
    if scans != [] {
      var init, s := scans[..|scans| - 1], scans[|scans| - 1];
      var before, run := StateAfter(init, windowMs), KnownSightings(init, k, windowMs);
      StateKnows(init, windowMs, k);
      AccumulatedRecalls(before, s.entries, s.now, windowMs, k);
      EntryMemoryIsRun(run, s.entries, s.now, windowMs, k);
      var all := run + SightingsIn(s.entries, s.now, k);
      if all != [] {
        SeenAtLast(all, windowMs);
      }
      PruneForgets(Accumulated(before, s.entries, s.now, windowMs), s.now, windowMs, k);
    }
  }

  ghost predicate InOrder(scans: seq<Scan>) {
    scans != [] ==>
      && InOrder(scans[..|scans| - 1])
      && (|scans| >= 2 ==> scans[|scans| - 2].now <= scans[|scans| - 1].now)
  }

  lemma TimelySnoc(run: seq<Sighting>, x: Sighting)
    requires Timely(run) && (run != [] ==> run[|run| - 1].now <= x.now)
    ensures Timely(run + [x])
  {
    assert (run + [x])[..|run|] == run;
  }

  lemma {:induction false} SightingsTimely(run: seq<Sighting>, entries: seq<LogEntry>, now: int, k: Key)
    requires Timely(run) && (run != [] ==> run[|run| - 1].now <= now)
    ensures var all := run + SightingsIn(entries, now, k);
            Timely(all) && (all != [] ==> all[|all| - 1].now <= now)
  {
    hide Timely;
    if entries == [] {
      assert run + SightingsIn(entries, now, k) == run;
    } else {
      var init, e := entries[..|entries| - 1], entries[|entries| - 1];
      SightingsTimely(run, init, now, k);
      if e.key == k {
        var x := Sighting(now, k.created, e.count);
        TimelySnoc(run + SightingsIn(init, now, k), x);
        assert run + SightingsIn(entries, now, k) == run + SightingsIn(init, now, k) + [x];
      } else {
        assert SightingsIn(entries, now, k) == SightingsIn(init, now, k);
      }
    }
  }

  lemma {:induction false} KnownTimely(scans: seq<Scan>, k: Key, windowMs: int)
    requires InOrder(scans)
    ensures var run := KnownSightings(scans, k, windowMs);
            Timely(run) && (run != [] ==> run[|run| - 1].now <= scans[|scans| - 1].now)
  {
    if scans != [] {
      var init, s := scans[..|scans| - 1], scans[|scans| - 1];
      KnownTimely(init, k, windowMs);
      SightingsTimely(KnownSightings(init, k, windowMs), s.entries, s.now, k);
    }
  }

  /** The sightings of entry i of a scan, itself included. */
  function SightingsUpTo(scans: seq<Scan>, entries: seq<LogEntry>, now: int, i: nat, windowMs: int): seq<Sighting>
    requires i < |entries|
  {
    KnownSightings(scans, entries[i].key, windowMs) + SightingsIn(entries[..i + 1], now, entries[i].key)
  }

  /** The failures of entry i inside the window. */
  function RecentFailures(scans: seq<Scan>, entries: seq<LogEntry>, now: int, i: nat, windowMs: int): nat
    requires i < |entries|
  {
    var run := SightingsUpTo(scans, entries, now, i, windowMs);
    RisesSince(run, |run|, now - windowMs, windowMs)
  }

  /** One result for each of the first n entries that has any. */
  function Expected(scans: seq<Scan>, entries: seq<LogEntry>, now: int, n: nat, windowMs: int): seq<Result>
    requires n <= |entries|
  {
    if n == 0 then []
    else
      var count := RecentFailures(scans, entries, now, n - 1, windowMs);
      Expected(scans, entries, now, n - 1, windowMs) + if count > 0 then [Result(entries[n - 1], count)] else []
  }

  lemma UpToTimely(scans: seq<Scan>, entries: seq<LogEntry>, now: int, i: nat, windowMs: int)
    requires i < |entries| && InOrder(scans + [Scan(entries, now)])
    ensures var run := SightingsUpTo(scans, entries, now, i, windowMs);
            run != [] && Timely(run) && run[|run| - 1] == Sighting(now, entries[i].key.created, entries[i].count)
  {
    var k := entries[i].key;
    assert (scans + [Scan(entries, now)])[..|scans|] == scans;
    KnownTimely(scans, k, windowMs);
    SightingsTimely(KnownSightings(scans, k, windowMs), entries[..i + 1], now, k);
    assert entries[..i + 1][..i] == entries[..i];
  }

  /** Entry i of the scan is sighted with exactly the memory its earlier sightings leave. */
  lemma MemoryUpTo(scans: seq<Scan>, entries: seq<LogEntry>, now: int, i: nat, windowMs: int)
    requires i < |entries|
    ensures var e, st := entries[i], Accumulated(StateAfter(scans, windowMs), entries[..i], now, windowMs);
            var sighted := Sight(Recall(st, e.key), e.key.created, e.count, now, windowMs);
            MemoryAt(SightingsUpTo(scans, entries, now, i, windowMs), windowMs) == Some(sighted)
  {
    hide Sight, Recall, Sighted;
    var e := entries[i];
    var known := KnownSightings(scans, e.key, windowMs);
    StateKnows(scans, windowMs, e.key);
    AccumulatedRecalls(StateAfter(scans, windowMs), entries[..i], now, windowMs, e.key);
    EntryMemoryIsRun(known, entries[..i], now, windowMs, e.key);
    assert entries[..i + 1][..i] == entries[..i];
    var x := Sighting(now, e.key.created, e.count);
    assert SightingsUpTo(scans, entries, now, i, windowMs) == known + SightingsIn(entries[..i], now, e.key) + [x];
    MemorySnoc(known + SightingsIn(entries[..i], now, e.key), x, windowMs);
  }

  lemma OneResult(scans: seq<Scan>, entries: seq<LogEntry>, now: int, i: nat, windowMs: int)
    requires i < |entries| && InOrder(scans + [Scan(entries, now)])
    ensures var count := RecentFailures(scans, entries, now, i, windowMs);
            var st := Accumulated(StateAfter(scans, windowMs), entries[..i], now, windowMs);
            ResultOf(st, entries[i], now, windowMs) == (if count > 0 then [Result(entries[i], count)] else [])
  {
    hide Sight, Recall, Accumulated, RisesSince, MemoryAt;
    UpToTimely(scans, entries, now, i, windowMs);
    MemoryUpTo(scans, entries, now, i, windowMs);
    WindowCountIs(SightingsUpTo(scans, entries, now, i, windowMs), windowMs);
  }

  /**
   After any run of scans in time order, the next one returns for each entry, in order, the rises of its counter inside
   the window, and nothing for an entry without any.
   */
  lemma {:induction false} ResultsAre(scans: seq<Scan>, entries: seq<LogEntry>, now: int, n: nat, windowMs: int)
    requires n <= |entries| && InOrder(scans + [Scan(entries, now)])
    ensures Results(StateAfter(scans, windowMs), entries[..n], now, windowMs)
         == Expected(scans, entries, now, n, windowMs)
  {
    if n > 0 {
      ResultsAre(scans, entries, now, n - 1, windowMs);
      OneResult(scans, entries, now, n - 1, windowMs);
      assert entries[..n][..n - 1] == entries[..n - 1];
    }
  }

  // ---------------------------------------------------------------- the usernames of a source

  lemma {:induction false} AddNames(c: Counters, key: string, n: nat, other: string)
    requires Distinct(Names(c))
    ensures Distinct(Names(Add(c, key, n)))
    ensures other in Names(Add(c, key, n)) <==> other in Names(c) || other == key
  {
    if c != [] {
      assert Names(c)[1..] == Names(c[1..]) && c[0].0 == Names(c)[0];
      if c[0].0 != key {
        AddNames(c[1..], key, n, other);
        AddNames(c[1..], key, n, c[0].0);
        assert c[0].0 !in Names(c[1..]);
        assert Add(c, key, n)[1..] == Add(c[1..], key, n);
      } else {
        assert Add(c, key, n)[1..] == c[1..];
      }
    }
  }

  lemma {:induction false} NamesAre(c: Counters)
    ensures |Names(c)| == |c| && forall i :: 0 <= i < |c| ==> Names(c)[i] == c[i].0
  {
    if c != [] {
      NamesAre(c[1..]);
    }
  }

  lemma {:induction false} GetIs(c: Counters, i: nat)
    requires i < |c| && Distinct(Names(c))
    ensures Get(c, c[i].0) == c[i].1
  {
    NamesAre(c);
    if i > 0 {
      assert Names(c)[0] != Names(c)[i] && Names(c)[1..] == Names(c[1..]);
      GetIs(c[1..], i - 1);
    }
  }

  lemma {:induction false} UsersListed(results: seq<Result>, address: string, user: string)
    ensures Distinct(Names(BucketOf(results, address).usernames))
    ensures user in Names(BucketOf(results, address).usernames)
       <==> exists r :: r in results && r.entry.address == address && r.entry.key.reason == "auth"
                        && r.entry.key.username == user
  {
    if results != [] {
      var init, r := results[..|results| - 1], results[|results| - 1];
      UsersListed(init, address, user);
      AddNames(BucketOf(init, address).usernames, r.entry.key.username, r.windowCount, user);
      assert results == init + [r];
    }
  }

  /** The usernames of a source are those its failures name, each once, the most attempted first. */
  lemma UsernamesAre(results: seq<Result>, address: string)
    ensures var names := SourceOf(address, BucketOf(results, address)).usernames;
            && Distinct(names)
            && (forall u :: u in names
                            <==> exists r :: r in results && r.entry.address == address && r.entry.key.reason == "auth"
                                             && r.entry.key.username == u)
            && forall i, j :: 0 <= i < j < |names| ==>
                 UserFailures(results, address, names[i]) >= UserFailures(results, address, names[j])
  {
    var b := BucketOf(results, address);
    var sorted := Sort(b.usernames, ByKey(Fewer));
    UsersListed(results, address, "");
    SortPermutes(b.usernames, ByKey(Fewer));
    SortSortsByKey(b.usernames, Fewer);
    NamesPermute(b.usernames, sorted);
    SameMembers(Names(b.usernames), Names(sorted));
    PermutedDistinct(Names(b.usernames), Names(sorted));
    forall u ensures u in Names(sorted) <==> exists r :: r in results && r.entry.address == address
                                                         && r.entry.key.reason == "auth" && r.entry.key.username == u {
      UsersListed(results, address, u);
    }
    NamesAre(sorted);
    forall i | 0 <= i < |sorted| ensures UserFailures(results, address, Names(sorted)[i]) == sorted[i].1 {
      CountOfName(results, address, sorted, i);
    }
    forall i, j | 0 <= i < j < |sorted|
      ensures UserFailures(results, address, Names(sorted)[i]) >= UserFailures(results, address, Names(sorted)[j]) {
      assert Fewer(sorted[i]) <= Fewer(sorted[j]);
    }
  }

  lemma {:induction false} NamesPermute(a: Counters, b: Counters)
    requires multiset(a) == multiset(b)
    ensures multiset(Names(a)) == multiset(Names(b))
  {
    SameSize(a, b);
    if a != [] {
      var left, right := MatchHead(a, b);
      NamesPermute(a[1..], left + right);
      NamesMiddle(left, a[0], right);
      NamesConcat(left, right);
    }
  }

  lemma NamesMiddle(left: Counters, x: (string, nat), right: Counters)
    ensures Names(left + [x] + right) == Names(left) + [x.0] + Names(right)
  {
    NamesConcat(left + [x], right);
    NamesConcat(left, [x]);
    assert [x][1..] == [];
  }

  lemma {:induction false} NamesConcat(a: Counters, b: Counters)
    ensures Names(a + b) == Names(a) + Names(b)
  {
    if a == [] {
      assert a + b == b;
    } else {
      assert (a + b)[1..] == a[1..] + b;
      NamesConcat(a[1..], b);
    }
  }

  lemma CountOfName(results: seq<Result>, address: string, sorted: Counters, i: nat)
    requires i < |sorted| && multiset(sorted) == multiset(BucketOf(results, address).usernames)
    ensures i < |Names(sorted)| && UserFailures(results, address, Names(sorted)[i]) == sorted[i].1
  {
    var c := BucketOf(results, address).usernames;
    NamesAre(sorted);
    SameMembers(sorted, c);
    assert sorted[i] in c;
    var j: nat :| j < |c| && c[j] == sorted[i];
    UsersListed(results, address, "");
    GetIs(c, j);
    AddressCountsBalance(results, address, "auth", sorted[i].0);
  }
}

/** Failover churn read off the snapshots: whose observation is believed, and which changes are counted. */
module FailoverReference {
  // The state of a shard stands for its newest believed observation. One of a lower epoch is not believed, nor one that
  // hands the shard to another node at the same epoch while the old owner still claims it and is flagged unhealthy.

  import opened Prelude
  import opened Sorting
  import opened Strings
  import opened FailoverChurn

  predicate Flagged(n: Node) {
    "fail" in n.flags || "fail?" in n.flags || "handshake" in n.flags || "noaddr" in n.flags
  }

  predicate ClaimsSlots(n: Node) { "master" in n.flags && n.slots != [] }

  /** The key of a shard lists its slot ranges by their start. */
  ghost predicate IsKey(k: ShardKey, slots: seq<(int, int)>) {
    multiset(k) == multiset(slots) && forall i, j :: 0 <= i < j < |k| ==> k[i].0 <= k[j].0
  }

  /** The node is a healthy primary of the shard and makes the observation. */
  ghost predicate Shown(n: Node, k: ShardKey, o: Observation) {
    && ClaimsSlots(n) && !Flagged(n) && CanonicalSlotKey(n.slots) == k
    && o == Observation(k, n.id, n.configEpoch, n.migrating > 0 || n.importing > 0)
  }

  lemma KeyIs(slots: seq<(int, int)>)
    ensures IsKey(CanonicalSlotKey(slots), slots)
  {
    var k := CanonicalSlotKey(slots);
    SortPermutes(slots, ByKey(RangeStart));
    SortSortsByKey(slots, RangeStart);
    forall i, j | 0 <= i < j < |k| ensures k[i].0 <= k[j].0 {
      assert RangeStart(k[i]) <= RangeStart(k[j]);
    }
  }

  lemma FlaggedIs(n: Node)
    ensures Flagged(n) <==> Unhealthy(n)
  {
    if f :| f in n.flags * UNHEALTHY {
      assert f in UNHEALTHY;
    }
    if Flagged(n) {
      var f :| f in n.flags && f in UNHEALTHY;
      assert f in n.flags * UNHEALTHY;
    }
  }

  /**
   A shard is observed exactly when a healthy primary claims it. The observation is that of one of these with the
   highest epoch, and of several with that epoch the one whose id comes first.
   */
  lemma OwnerIs(nodes: seq<Node>, k: ShardKey)
    ensures k in Owners(nodes) <==> exists n, o :: n in nodes && Shown(n, k, o)
    ensures k in Owners(nodes) ==>
      && (exists n :: n in nodes && Shown(n, k, Owners(nodes)[k]))
      && forall n, o :: n in nodes && Shown(n, k, o) ==>
           || o.configEpoch < Owners(nodes)[k].configEpoch
           || (o.configEpoch == Owners(nodes)[k].configEpoch && AtMost(Owners(nodes)[k].ownerId, o.ownerId))
  {
    OwnersAreBest(nodes, k);
    forall n: Node ensures Flagged(n) <==> Unhealthy(n) {
      FlaggedIs(n);
    }
    forall n, o ensures Shown(n, k, o) <==> Claims(n, k) && Observe(n) == o {
    }
    if k in Owners(nodes) {
      var n :| n in nodes && Claims(n, k) && Observe(n) == Owners(nodes)[k];
      assert Shown(n, k, Owners(nodes)[k]);
      forall m, o | m in nodes && Shown(m, k, o)
        ensures o.configEpoch < Owners(nodes)[k].configEpoch
             || (o.configEpoch == Owners(nodes)[k].configEpoch && AtMost(Owners(nodes)[k].ownerId, o.ownerId)) {
        assert !Beats(Observe(m), Owners(nodes)[k]);
        PrecedesTotal(o.ownerId, Owners(nodes)[k].ownerId);
      }
    }
  }

  // ---------------------------------------------------------------- which observation is believed

  /** The node still claims slots in this snapshot, flagged unhealthy. */
  ghost predicate StillClaims(nodes: seq<Node>, id: string) {
    exists n :: n in nodes && n.id == id && ClaimsSlots(n) && Flagged(n)
  }

  /** After an observation of `owner` at `epoch`, this one is believed. */
  ghost predicate Believed(epoch: int, owner: string, o: Observation, nodes: seq<Node>) {
    || o.configEpoch > epoch
    || (o.configEpoch == epoch && (o.ownerId == owner || !StillClaims(nodes, owner)))
  }

  lemma ClaimantsAre(nodes: seq<Node>, id: string)
    ensures id in Claimants(nodes) <==> StillClaims(nodes, id)
  {
    forall n: Node ensures Flagged(n) <==> Unhealthy(n) {
      FlaggedIs(n);
    }
    if n :| n in nodes && UnhealthyClaimant(n) && n.id == id {
      assert StillClaims(nodes, id);
    }
  }

  lemma BelievedIff(s: ShardState, o: Observation, nodes: seq<Node>)
    ensures Believed(s.lastEpoch, s.lastOwner, o, nodes) <==> !Flap(s, o, Claimants(nodes))
  {
    ClaimantsAre(nodes, s.lastOwner);
  }

  ghost predicate ObservedAt(run: seq<Op>, m: nat, k: ShardKey) {
    m < |run| && run[m].Evaluate? && k in Owners(run[m].nodes)
  }

  function ObservationAt(run: seq<Op>, m: nat, k: ShardKey): Observation
    requires ObservedAt(run, m, k)
  {
    Owners(run[m].nodes)[k]
  }

  ghost predicate Knows(run: seq<Op>, n: nat, k: ShardKey) { n <= |run| && ShardAt(run[..n], k).Some? }

  ghost predicate BelievedAfter(run: seq<Op>, k: ShardKey, r: nat, m: nat) {
    && ObservedAt(run, r, k) && ObservedAt(run, m, k)
    && Believed(ObservationAt(run, r, k).configEpoch, ObservationAt(run, r, k).ownerId, ObservationAt(run, m, k),
                run[m].nodes)
  }

  /**
   Poll m is the newest of the first n whose observation of the shard was believed: it discovered the shard or was
   believed after the newest before it, the shard was known from then on, and nothing observed since was believed.
   */
  ghost predicate Newest(run: seq<Op>, k: ShardKey, m: nat, n: nat)
    decreases n
  {
    && m < n <= |run| && ObservedAt(run, m, k)
    && (forall j :: m < j <= n ==> Knows(run, j, k))
    && (forall j :: m < j < n ==> !BelievedAfter(run, k, m, j))
    && (!Knows(run, m, k) || exists r: nat :: Newest(run, k, r, m) && BelievedAfter(run, k, r, m))
  }

  lemma NewestBefore(run: seq<Op>, k: ShardKey, m: nat, n: nat, end: nat)
    requires Newest(run, k, m, end) && m < n <= end
    ensures Newest(run, k, m, n)
  {}

  lemma {:induction false} NewestUnique(run: seq<Op>, k: ShardKey, a: nat, b: nat, n: nat)
    requires Newest(run, k, a, n) && Newest(run, k, b, n)
    ensures a == b
    decreases n
  {
    if a != b {
      var first, second := MinInt(a, b), MaxInt(a, b);
      NewestBefore(run, k, first, second, n);
      var r: nat :| Newest(run, k, r, second) && BelievedAfter(run, k, r, second);
      NewestUnique(run, k, first, r, second);
    }
  }

  lemma AtPrefix(run: seq<Op>, n: nat, k: ShardKey)
    requires n < |run|
    ensures ShardAt(run[..n + 1], k) == ShardOp(ShardAt(run[..n], k), run[n], k)
  {
    assert run[..n + 1][..n] == run[..n];
  }

  lemma NewestGoesOn(run: seq<Op>, k: ShardKey, m: nat, n: nat)
    requires n < |run| && Newest(run, k, m, n) && Knows(run, n + 1, k)
    ensures BelievedAfter(run, k, m, n) ==> Newest(run, k, n, n + 1)
    ensures !BelievedAfter(run, k, m, n) ==> Newest(run, k, m, n + 1)
  {}

  /** The state holds what poll m observed. */
  ghost predicate Holds(run: seq<Op>, k: ShardKey, m: nat, n: nat) {
    && ObservedAt(run, m, k) && Knows(run, n, k)
    && ShardAt(run[..n], k).value.lastEpoch == ObservationAt(run, m, k).configEpoch
    && ShardAt(run[..n], k).value.lastOwner == ObservationAt(run, m, k).ownerId
  }

  lemma HoldsNext(run: seq<Op>, k: ShardKey, m: nat, n: nat)
    requires n < |run| && Holds(run, k, m, n) && Knows(run, n + 1, k)
    ensures BelievedAfter(run, k, m, n) ==> Holds(run, k, n, n + 1)
    ensures !BelievedAfter(run, k, m, n) ==> Holds(run, k, m, n + 1)
  {
    AtPrefix(run, n, k);
    if ObservedAt(run, n, k) {
      BelievedIff(ShardAt(run[..n], k).value, ObservationAt(run, n, k), run[n].nodes);
    }
  }

  /** In every run the state of a known shard holds the epoch and the owner of its newest believed observation. */
  lemma {:induction false} StateIsNewest(run: seq<Op>, k: ShardKey, n: nat) returns (m: nat)
    requires Knows(run, n, k)
    ensures Newest(run, k, m, n) && Holds(run, k, m, n)
  {
    AtPrefix(run, n - 1, k);
    if !Knows(run, n - 1, k) {
      m := n - 1;
    } else {
      m := StateIsNewest(run, k, n - 1);
      NewestGoesOn(run, k, m, n - 1);
      HoldsNext(run, k, m, n - 1);
      if BelievedAfter(run, k, m, n - 1) {
        m := n - 1;
      }
    }
  }

  // ---------------------------------------------------------------- how long a shard is known

  ghost predicate LastObserved(run: seq<Op>, k: ShardKey, m: nat, n: nat) {
    m < n <= |run| && ObservedAt(run, m, k) && forall j :: m < j < n ==> !ObservedAt(run, j, k)
  }

  /** Poll m observed the shard last, and no snapshot since came more than two minutes later. */
  ghost predicate Lasting(run: seq<Op>, k: ShardKey, m: nat, n: nat) {
    LastObserved(run, k, m, n) && forall j :: m < j < n && run[j].Evaluate? ==> run[j].ts - run[m].ts <= 120000
  }

  ghost predicate KnownOk(run: seq<Op>, k: ShardKey, n: nat) {
    && (Knows(run, n, k) <==> exists m: nat :: Lasting(run, k, m, n))
    && forall m: nat :: Knows(run, n, k) && LastObserved(run, k, m, n) ==>
         ShardAt(run[..n], k).value.lastSeenAt == run[m].ts
  }

  lemma LastingNext(run: seq<Op>, k: ShardKey, m: nat, n: nat)
    requires n < |run| && !ObservedAt(run, n, k) && m < n
    ensures LastObserved(run, k, m, n + 1) <==> LastObserved(run, k, m, n)
    ensures Lasting(run, k, m, n + 1) <==>
              Lasting(run, k, m, n) && (run[n].Evaluate? ==> run[n].ts - run[m].ts <= 120000)
  {}

  lemma KnownUnobserved(run: seq<Op>, k: ShardKey, n: nat)
    requires n < |run| && KnownOk(run, k, n) && !ObservedAt(run, n, k)
    ensures KnownOk(run, k, n + 1)
  {
    AtPrefix(run, n, k);
    forall m: nat | m < n
      ensures LastObserved(run, k, m, n + 1) <==> LastObserved(run, k, m, n)
      ensures Lasting(run, k, m, n + 1)
         <==> Lasting(run, k, m, n) && (run[n].Evaluate? ==> run[n].ts - run[m].ts <= 120000) {
      LastingNext(run, k, m, n);
    }
    if Knows(run, n, k) {
      var m: nat :| Lasting(run, k, m, n);
      assert ShardAt(run[..n], k).value.lastSeenAt == run[m].ts;
      assert Knows(run, n + 1, k) <==> (run[n].Evaluate? ==> run[n].ts - run[m].ts <= 120000);
      var end := n + 1;
      forall i: nat | Lasting(run, k, i, end) ensures i == m {
      }
    }
  }

  lemma KnownObserved(run: seq<Op>, k: ShardKey, n: nat)
    requires ObservedAt(run, n, k)
    ensures KnownOk(run, k, n + 1)
  {
    AtPrefix(run, n, k);
    assert Lasting(run, k, n, n + 1);
  }

  /** A shard is known exactly when it was observed and no snapshot since lacked it more than two minutes later. */
  lemma {:induction false} KnownIff(run: seq<Op>, k: ShardKey, n: nat)
    requires n <= |run|
    ensures Knows(run, n, k) <==> exists m: nat :: Lasting(run, k, m, n)
    ensures KnownOk(run, k, n)
  {
    if n > 0 {
      KnownIff(run, k, n - 1);
      if ObservedAt(run, n - 1, k) {
        KnownObserved(run, k, n - 1);
      } else {
        KnownUnobserved(run, k, n - 1);
      }
    }
  }

  // ---------------------------------------------------------------- which changes are counted

  /** Poll m is a counted observation of the shard: of a known one, not resharding, and believed. */
  ghost predicate CountedAt(run: seq<Op>, k: ShardKey, m: nat) {
    && ObservedAt(run, m, k) && !ObservationAt(run, m, k).resharding
    && exists r: nat :: Newest(run, k, r, m) && BelievedAfter(run, k, r, m)
  }

  /** It shows a new owner, or a higher epoch, than the newest one believed before it. */
  ghost predicate ChangeAt(run: seq<Op>, k: ShardKey, m: nat, flips: bool) {
    && CountedAt(run, k, m)
    && exists r: nat :: Newest(run, k, r, m) && ObservedAt(run, r, k)
                        && if flips then ObservationAt(run, m, k).ownerId != ObservationAt(run, r, k).ownerId
                           else ObservationAt(run, m, k).configEpoch > ObservationAt(run, r, k).configEpoch
  }

  function Change(flips: bool): (ShardState, Observation) -> bool { if flips then Flip else Bump }

  lemma CountedIff(run: seq<Op>, k: ShardKey, m: nat)
    requires ObservedAt(run, m, k)
    ensures CountedAt(run, k, m)
       <==> Knows(run, m, k) && Counted(ShardAt(run[..m], k).value, ObservationAt(run, m, k), Claimants(run[m].nodes))
  {
    if Knows(run, m, k) {
      var r := StateIsNewest(run, k, m);
      BelievedIff(ShardAt(run[..m], k).value, ObservationAt(run, m, k), run[m].nodes);
      forall i: nat | Newest(run, k, i, m) ensures i == r {
        NewestUnique(run, k, i, r, m);
      }
    }
  }

  lemma ChangeIff(run: seq<Op>, k: ShardKey, m: nat, flips: bool)
    requires m < |run|
    ensures ChangeAt(run, k, m, flips) <==> Shows(ShardAt(run[..m], k), run[m], k, Change(flips))
  {
    if ObservedAt(run, m, k) {
      CountedIff(run, k, m);
      if Knows(run, m, k) {
        var r := StateIsNewest(run, k, m);
        forall i: nat | Newest(run, k, i, m) ensures i == r {
          NewestUnique(run, k, i, r, m);
        }
      }
    }
  }

  /** The changes counted before poll n since the shard was discovered or last acknowledged. */
  ghost function ChangesBefore(run: seq<Op>, k: ShardKey, n: nat, flips: bool): seq<nat>
    requires n <= |run|
  {
    if n == 0 || !Knows(run, n - 1, k) || (run[n - 1].Ack? && run[n - 1].key == k) then []
    else ChangesBefore(run, k, n - 1, flips) + if ChangeAt(run, k, n - 1, flips) then [n - 1] else []
  }

  ghost predicate Standing(run: seq<Op>, k: ShardKey, m: nat, n: nat, flips: bool) {
    && m < n <= |run| && ChangeAt(run, k, m, flips)
    && forall j :: m < j < n ==> Knows(run, j, k) && !(run[j].Ack? && run[j].key == k)
  }

  lemma {:induction false} ChangesAre(run: seq<Op>, k: ShardKey, n: nat, flips: bool)
    requires n <= |run|
    ensures var at := ChangesBefore(run, k, n, flips);
            && (forall m: nat :: m in at <==> Standing(run, k, m, n, flips))
            && (forall i, j :: 0 <= i < j < |at| ==> at[i] < at[j]) && Within(at, n)
  {
    hide ChangeAt, Knows;
    if n > 0 {
      ChangesAre(run, k, n - 1, flips);
      forall m: nat | m < n - 1
        ensures Standing(run, k, m, n, flips)
           <==> Standing(run, k, m, n - 1, flips) && Knows(run, n - 1, k)
                && !(run[n - 1].Ack? && run[n - 1].key == k) {
      }
      if ChangeAt(run, k, n - 1, flips) {
        CountedIsKnown(run, k, n - 1, flips);
      }
    }
  }

  lemma CountedIsKnown(run: seq<Op>, k: ShardKey, m: nat, flips: bool)
    requires ChangeAt(run, k, m, flips)
    ensures Knows(run, m, k) && run[m].Evaluate?
  {
    var r: nat :| Newest(run, k, r, m) && BelievedAfter(run, k, r, m);
  }

  ghost predicate Within(at: seq<nat>, n: nat) { forall i :: 0 <= i < |at| ==> at[i] < n }

  function TimesAt(run: seq<Op>, at: seq<nat>): seq<int>
    requires Within(at, |run|)
  {
    if at == [] then [] else [run[at[0]].ts] + TimesAt(run, at[1..])
  }

  lemma {:induction false} TimesSnoc(run: seq<Op>, at: seq<nat>, m: nat)
    requires Within(at, |run|) && m < |run|
    ensures TimesAt(run, at + [m]) == TimesAt(run, at) + [run[m].ts]
  {
    if at == [] {
      assert [] + [m] == [m];
    } else {
      assert (at + [m])[1..] == at[1..] + [m];
      TimesSnoc(run, at[1..], m);
    }
  }

  /** The log holds the times of those changes. */
  lemma {:induction false} LogIs(run: seq<Op>, k: ShardKey, n: nat, flips: bool)
    requires n <= |run|
    ensures Within(ChangesBefore(run, k, n, flips), |run|)
    ensures Log(run[..n], k, Change(flips)) == TimesAt(run, ChangesBefore(run, k, n, flips))
  {
    if n > 0 {
      var init := run[..n - 1];
      assert run[..n][..n - 1] == init;
      LogIs(run, k, n - 1, flips);
      ChangeIff(run, k, n - 1, flips);
      var at := ChangesBefore(run, k, n - 1, flips);
      TimesSnoc(run, at, n - 1);
      assert at + [] == at;
    }
  }

  function RecentOf(run: seq<Op>, at: seq<nat>, ts: int): (r: seq<nat>)
    requires Within(at, |run|)
    ensures forall m: nat :: m in r <==> m in at && ts - run[m].ts <= 60000
  {
    if at == [] then []
    else
      assert at[0] in at;
      (if ts - run[at[0]].ts <= 60000 then [at[0]] else []) + RecentOf(run, at[1..], ts)
  }

  lemma {:induction false} RecentCounts(run: seq<Op>, at: seq<nat>, ts: int)
    requires Within(at, |run|) && forall i, j :: 0 <= i < j < |at| ==> at[i] < at[j]
    ensures var r := RecentOf(run, at, ts);
            |InWindow(TimesAt(run, at), ts)| == |r| && forall i, j :: 0 <= i < j < |r| ==> r[i] < r[j]
  {
    if at != [] {
      var rest := RecentOf(run, at[1..], ts);
      RecentCounts(run, at[1..], ts);
      assert TimesAt(run, at)[1..] == TimesAt(run, at[1..]);
      forall j | 0 <= j < |rest| ensures at[0] < rest[j] {
        assert rest[j] in at[1..];
      }
    }
  }

  /** Poll m counts at poll n: a change that still stands there and is at most a minute old. */
  ghost predicate CountsAt(run: seq<Op>, k: ShardKey, m: nat, n: nat, flips: bool)
    requires n < |run|
  {
    Standing(run, k, m, n + 1, flips) && run[n].ts - run[m].ts <= 60000
  }

  ghost predicate ThreeCount(run: seq<Op>, k: ShardKey, n: nat, flips: bool)
    requires n < |run|
  {
    exists a, b, c :: 0 <= a < b < c && CountsAt(run, k, a, n, flips) && CountsAt(run, k, b, n, flips)
                      && CountsAt(run, k, c, n, flips)
  }

  lemma ThreeInOrder(at: seq<nat>, a: nat, b: nat, c: nat)
    requires (forall i, j :: 0 <= i < j < |at| ==> at[i] < at[j]) && a in at && b in at && c in at && a < b < c
    ensures |at| >= 3
  {}

  /** Three members in an ascending list of the polls that count. */
  lemma ThreeMembers(run: seq<Op>, k: ShardKey, n: nat, flips: bool, at: seq<nat>)
    requires n < |run| && forall i, j :: 0 <= i < j < |at| ==> at[i] < at[j]
    requires forall m: nat :: m in at <==> CountsAt(run, k, m, n, flips)
    ensures |at| >= 3 <==> ThreeCount(run, k, n, flips)
  {
    hide CountsAt;
    if |at| >= 3 {
      assert at[0] in at && at[1] in at && at[2] in at;
    }
    if a, b, c :| 0 <= a < b < c && CountsAt(run, k, a, n, flips) && CountsAt(run, k, b, n, flips)
                  && CountsAt(run, k, c, n, flips) {
      ThreeInOrder(at, a, b, c);
    }
  }

  lemma ThreeIff(run: seq<Op>, k: ShardKey, n: nat, flips: bool)
    requires n < |run|
    ensures |InWindow(Log(run[..n + 1], k, Change(flips)), run[n].ts)| >= 3 <==> ThreeCount(run, k, n, flips)
  {
    hide Log, ChangesBefore, TimesAt, RecentOf, InWindow, ChangeAt, Knows;
    var at := ChangesBefore(run, k, n + 1, flips);
    LogIs(run, k, n + 1, flips);
    ChangesAre(run, k, n + 1, flips);
    RecentCounts(run, at, run[n].ts);
    ThreeMembers(run, k, n, flips, RecentOf(run, at, run[n].ts));
  }

  /**
   In every run in time order: a snapshot reports a shard exactly when its observation is counted, and three counted
   changes of owner, or three counted rises of the epoch, lie within the last minute, the present one included, with no
   acknowledgement and no forgetting of the shard in between.
   */
  lemma ReportIff(start: int, run: seq<Op>, k: ShardKey, n: nat)
    requires n < |run| && ObservedAt(run, n, k) && Timely(start, run[..n + 1])
    ensures k in Findings(StateAt(run[..n]), Owners(run[n].nodes), Claimants(run[n].nodes), run[n].ts)
       <==> CountedAt(run, k, n) && (ThreeCount(run, k, n, true) || ThreeCount(run, k, n, false))
  {
    var nodes, ts := run[n].nodes, run[n].ts;
    assert run[..n + 1][..n] == run[..n];
    assert run[..n] + [Evaluate(nodes, ts)] == run[..n + 1];
    FindingIff(start, run[..n], nodes, ts, k);
    CountedIff(run, k, n);
    ThreeIff(run, k, n, true);
    ThreeIff(run, k, n, false);
  }

  // ---------------------------------------------------------------- what a report says

  ghost function CountedPolls(run: seq<Op>, k: ShardKey, n: nat, flips: bool): set<nat>
    requires n < |run|
  {
    set m: nat | m <= n && CountsAt(run, k, m, n, flips)
  }

  lemma {:induction false} AscendingSize(at: seq<nat>, members: set<nat>)
    requires (forall i, j :: 0 <= i < j < |at| ==> at[i] < at[j]) && forall m :: m in at <==> m in members
    ensures |at| == |members|
    decreases |at|
  {
    if at == [] {
      assert members == {};
    } else {
      var init, last := at[..|at| - 1], at[|at| - 1];
      assert at == init + [last] && last in at;
      AscendingSize(init, members - {last});
    }
  }

  lemma CountIs(run: seq<Op>, k: ShardKey, n: nat, flips: bool)
    requires n < |run|
    ensures |InWindow(Log(run[..n + 1], k, Change(flips)), run[n].ts)| == |CountedPolls(run, k, n, flips)|
  {
    hide Log, ChangesBefore, TimesAt, RecentOf, InWindow, ChangeAt, Knows;
    var at := ChangesBefore(run, k, n + 1, flips);
    LogIs(run, k, n + 1, flips);
    ChangesAre(run, k, n + 1, flips);
    RecentCounts(run, at, run[n].ts);
    AscendingSize(RecentOf(run, at, run[n].ts), CountedPolls(run, k, n, flips));
  }

  /** The epoch a known shard was discovered or last acknowledged with, and those of the counted rises since. */
  ghost function EpochsShown(run: seq<Op>, k: ShardKey, n: nat): seq<int>
    requires n <= |run|
  {
    if !Knows(run, n, k) then []
    else
      assert n > 0;
      if !Knows(run, n - 1, k) then [ShardAt(run[..n], k).value.lastEpoch]
      else if run[n - 1].Ack? && run[n - 1].key == k then [ShardAt(run[..n - 1], k).value.lastEpoch]
      else EpochsShown(run, k, n - 1)
           + if ChangeAt(run, k, n - 1, false) then [ObservationAt(run, n - 1, k).configEpoch] else []
  }

  function NewestSix(s: seq<int>): seq<int> { if |s| <= 6 then s else s[|s| - 6..] }

  lemma PushKeepsSix(s: seq<int>, epoch: int)
    ensures PushTrail(NewestSix(s), epoch) == NewestSix(s + [epoch])
  {}

  lemma TrailNext(run: seq<Op>, k: ShardKey, n: nat, shown: seq<int>)
    requires n < |run| && Knows(run, n, k) && Knows(run, n + 1, k) && !(run[n].Ack? && run[n].key == k)
    requires ShardAt(run[..n], k).value.epochTrail == NewestSix(shown)
    ensures ShardAt(run[..n + 1], k).value.epochTrail
         == NewestSix(shown + if ChangeAt(run, k, n, false) then [ObservationAt(run, n, k).configEpoch] else [])
  {
    AtPrefix(run, n, k);
    ChangeIff(run, k, n, false);
    PushKeepsSix(shown, if ObservedAt(run, n, k) then ObservationAt(run, n, k).configEpoch else 0);
    assert shown + [] == shown;
  }

  /** The trail of a shard is the newest six of these epochs. */
  lemma {:induction false} TrailIs(run: seq<Op>, k: ShardKey, n: nat)
    requires Knows(run, n, k)
    ensures ShardAt(run[..n], k).value.epochTrail == NewestSix(EpochsShown(run, k, n))
  {
    AtPrefix(run, n - 1, k);
    if Knows(run, n - 1, k) {
      TrailIs(run, k, n - 1);
      if !(run[n - 1].Ack? && run[n - 1].key == k) {
        TrailNext(run, k, n - 1, EpochsShown(run, k, n - 1));
      }
    }
  }

  /**
   A report names the shard and its believed owner, the larger of the two numbers of counted changes, and the newest six
   epochs the shard has been shown with.
   */
  lemma ReportSays(start: int, run: seq<Op>, k: ShardKey, n: nat)
    requires n < |run| && ObservedAt(run, n, k) && Timely(start, run[..n + 1])
    requires k in Findings(StateAt(run[..n]), Owners(run[n].nodes), Claimants(run[n].nodes), run[n].ts)
    ensures var f := Findings(StateAt(run[..n]), Owners(run[n].nodes), Claimants(run[n].nodes), run[n].ts)[k];
            && f.shardKey == k && f.ownerId == ObservationAt(run, n, k).ownerId
            && f.changes == MaxInt(|CountedPolls(run, k, n, true)|, |CountedPolls(run, k, n, false)|)
            && f.epochTrail == NewestSix(EpochsShown(run, k, n + 1))
  {
    var nodes, ts := run[n].nodes, run[n].ts;
    assert run[..n + 1][..n] == run[..n];
    assert run[..n] + [Evaluate(nodes, ts)] == run[..n + 1];
    OwnersKeyed(nodes);
    ShardAtIsLook(run[..n], k);
    ChangesAgree(start, run[..n], nodes, ts, k);
    CountIs(run, k, n, true);
    CountIs(run, k, n, false);
    AtPrefix(run, n, k);
    TrailIs(run, k, n + 1);
  }
}

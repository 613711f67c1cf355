/**
 Gossip-mode failover churn: one observation per shard from a CLUSTER NODES snapshot, folded into a per-shard state
 that counts epoch bumps and owner flips inside a one-minute window until a finding is acknowledged.
 */
module FailoverChurn {
  import opened Prelude
  import opened Sorting
  import opened Strings

  const WINDOW_MS := 60000
  const MIN_CHANGES: nat := 3
  const SHARD_STATE_TTL_MS := 2 * WINDOW_MS
  const ESCALATION_HORIZON_MS := 2 * WINDOW_MS
  const EPOCH_TRAIL_LIMIT: nat := 6
  const UNHEALTHY: set<string> := {"fail", "fail?", "handshake", "noaddr"}

  datatype Node = Node(id: string, flags: set<string>, slots: seq<(int, int)>, configEpoch: int, migrating: nat,
                       importing: nat)

  /** The slot ranges of a shard, sorted by their start. */
  type ShardKey = seq<(int, int)>

  datatype Observation = Observation(shardKey: ShardKey, ownerId: string, configEpoch: int, resharding: bool)

  datatype ShardState = ShardState(
    lastEpoch: int, lastOwner: string, epochBumpTimes: seq<int>, ownerFlipTimes: seq<int>, epochTrail: seq<int>,
    lastFireAt: Option<int>, lastSeenAt: int)

  datatype Severity = Warning | Critical

  datatype Finding = Finding(shardKey: ShardKey, ownerId: string, changes: nat, epochTrail: seq<int>,
                             severity: Severity)

  predicate Unhealthy(n: Node) { n.flags * UNHEALTHY != {} }

  predicate LivePrimary(n: Node) { "master" in n.flags && n.slots != [] && !Unhealthy(n) }

  predicate UnhealthyClaimant(n: Node) { "master" in n.flags && n.slots != [] && Unhealthy(n) }

  function RangeStart(range: (int, int)): int { range.0 }

  function CanonicalSlotKey(slots: seq<(int, int)>): ShardKey { Sort(slots, ByKey(RangeStart)) }

  function Observe(n: Node): Observation {
    Observation(CanonicalSlotKey(n.slots), n.id, n.configEpoch, n.migrating > 0 || n.importing > 0)
  }

  /** The higher epoch owns a contested shard; at equal epochs the lexically smaller id does. */
  predicate Beats(a: Observation, b: Observation) {
    a.configEpoch > b.configEpoch || (a.configEpoch == b.configEpoch && Precedes(a.ownerId, b.ownerId))
  }

  function Consider(owners: map<ShardKey, Observation>, n: Node): map<ShardKey, Observation> {
    var o := Observe(n);
    if LivePrimary(n) && (o.shardKey !in owners || Beats(o, owners[o.shardKey])) then owners[o.shardKey := o]
    else owners
  }

  function Owners(nodes: seq<Node>): map<ShardKey, Observation> {
    if nodes == [] then map[] else Consider(Owners(nodes[..|nodes| - 1]), nodes[|nodes| - 1])
  }

  function Claimants(nodes: seq<Node>): set<string> { set n | n in nodes && UnhealthyClaimant(n) :: n.id }

  function InWindow(times: seq<int>, ts: int): seq<int> {
    if times == [] then []
    else if ts - times[0] <= WINDOW_MS then [times[0]] + InWindow(times[1..], ts)
    else InWindow(times[1..], ts)
  }

  // ---------------------------------------------------------------- one shard

  function Discovered(o: Observation, ts: int): ShardState {
    ShardState(o.configEpoch, o.ownerId, [], [], [o.configEpoch], None, ts)
  }

  /** A lower epoch, or at an equal epoch a new owner while the old one is an unhealthy claimant, is a health flap. */
  predicate Flap(s: ShardState, o: Observation, claimants: set<string>) {
    || o.configEpoch < s.lastEpoch
    || (o.configEpoch == s.lastEpoch && o.ownerId != s.lastOwner && s.lastOwner in claimants)
  }

  predicate Counted(s: ShardState, o: Observation, claimants: set<string>) { !Flap(s, o, claimants) && !o.resharding }

  predicate Bump(s: ShardState, o: Observation) { o.configEpoch > s.lastEpoch }

  predicate Flip(s: ShardState, o: Observation) { o.ownerId != s.lastOwner }

  function Push(times: seq<int>, changed: bool, ts: int): seq<int> { if changed then times + [ts] else times }

  function PushTrail(trail: seq<int>, epoch: int): seq<int> {
    var grown := trail + [epoch];
    if |grown| > EPOCH_TRAIL_LIMIT then grown[1..] else grown
  }

  function Count(s: ShardState, o: Observation, ts: int): ShardState {
    s.(lastEpoch := o.configEpoch, lastOwner := o.ownerId, lastSeenAt := ts,
       epochBumpTimes := InWindow(Push(s.epochBumpTimes, Bump(s, o), ts), ts),
       ownerFlipTimes := InWindow(Push(s.ownerFlipTimes, Flip(s, o), ts), ts),
       epochTrail := if Bump(s, o) then PushTrail(s.epochTrail, o.configEpoch) else s.epochTrail)
  }

  function ShardStep(prev: Option<ShardState>, o: Observation, claimants: set<string>, ts: int): ShardState {
    match prev
    case None => Discovered(o, ts)
    case Some(s) =>
      if Flap(s, o, claimants) then s.(lastSeenAt := ts)
      else if o.resharding then s.(lastEpoch := o.configEpoch, lastOwner := o.ownerId, lastSeenAt := ts)
      else Count(s, o, ts)
  }

  function Changes(s: ShardState): nat { MaxInt(|s.epochBumpTimes|, |s.ownerFlipTimes|) }

  function FindingFor(prev: Option<ShardState>, o: Observation, claimants: set<string>, ts: int): Option<Finding> {
    if prev.None? || !Counted(prev.value, o, claimants) then None
    else
      var s := Count(prev.value, o, ts);
      if Changes(s) < MIN_CHANGES then None
      else
        var continued := s.lastFireAt.Some? && ts - s.lastFireAt.value <= ESCALATION_HORIZON_MS;
        Some(Finding(o.shardKey, o.ownerId, Changes(s), s.epochTrail, if continued then Critical else Warning))
  }

  function Acknowledged(s: ShardState, ts: int): ShardState {
    s.(epochBumpTimes := [], ownerFlipTimes := [], epochTrail := [s.lastEpoch], lastFireAt := Some(ts))
  }

  // ---------------------------------------------------------------- all shards

  type StateMap = map<ShardKey, ShardState>

  function Look(state: StateMap, k: ShardKey): Option<ShardState> { if k in state then Some(state[k]) else None }

  predicate Expired(s: ShardState, ts: int) { ts - s.lastSeenAt > SHARD_STATE_TTL_MS }

  /** Observed shards take a step; absent ones are kept until their state expires. */
  function NextState(state: StateMap, owners: map<ShardKey, Observation>, claimants: set<string>, ts: int): StateMap {
    map k | k in state.Keys + owners.Keys && (k in owners || !Expired(state[k], ts)) ::
      if k in owners then ShardStep(Look(state, k), owners[k], claimants, ts) else state[k]
  }

  function Findings(state: StateMap, owners: map<ShardKey, Observation>, claimants: set<string>,
                    ts: int): map<ShardKey, Finding> {
    map k | k in owners && FindingFor(Look(state, k), owners[k], claimants, ts).Some? ::
      FindingFor(Look(state, k), owners[k], claimants, ts).value
  }

  class FailoverChurnDetector {
    var state: StateMap

    constructor ()
      ensures state == map[]
    {
      state := map[];
    }

    static method ExtractShardOwnership(nodes: seq<Node>)
      returns (order: seq<ShardKey>, owners: map<ShardKey, Observation>)
      ensures owners == Owners(nodes)
      ensures forall i, j :: 0 <= i < j < |order| ==> order[i] != order[j]
      ensures forall k :: k in order <==> k in owners
    {
      order, owners := [], map[];
      var i := 0;
      while i < |nodes|
        invariant 0 <= i <= |nodes| && owners == Owners(nodes[..i])
        invariant forall i, j :: 0 <= i < j < |order| ==> order[i] != order[j]
        invariant forall k :: k in order <==> k in owners
      {
        assert nodes[..i + 1][..i] == nodes[..i];
        var candidate := nodes[i];
        if LivePrimary(candidate) {
          var o := Observe(candidate);
          if o.shardKey !in owners {
            order := order + [o.shardKey];
            owners := owners[o.shardKey := o];
          } else if Beats(o, owners[o.shardKey]) {
            owners := owners[o.shardKey := o];
          }
        }
        i := i + 1;
      }
      assert nodes[..i] == nodes;
    }

    /** Folds one observation into its shard's state. */
    method Fold(o: Observation, claimants: set<string>, ts: int) returns (finding: Option<Finding>)
      modifies this
      ensures state == old(state)[o.shardKey := ShardStep(Look(old(state), o.shardKey), o, claimants, ts)]
      ensures finding == FindingFor(Look(old(state), o.shardKey), o, claimants, ts)
    {
      finding := None;
      if o.shardKey !in state {
        state := state[o.shardKey := Discovered(o, ts)];
        return;
      }
      var s := state[o.shardKey].(lastSeenAt := ts);
      state := state[o.shardKey := s];
      if o.configEpoch < s.lastEpoch { return; }
      if o.configEpoch == s.lastEpoch && o.ownerId != s.lastOwner && s.lastOwner in claimants { return; }
      if o.resharding {
        state := state[o.shardKey := s.(lastEpoch := o.configEpoch, lastOwner := o.ownerId)];
        return;
      }
      var bumps, flips, trail := s.epochBumpTimes, s.ownerFlipTimes, s.epochTrail;
      if o.configEpoch > s.lastEpoch {
        bumps := bumps + [ts];
        trail := trail + [o.configEpoch];
        if |trail| > EPOCH_TRAIL_LIMIT {
          trail := trail[1..];
        }
      }
      if o.ownerId != s.lastOwner {
        flips := flips + [ts];
      }
      bumps, flips := InWindow(bumps, ts), InWindow(flips, ts);
      s := ShardState(o.configEpoch, o.ownerId, bumps, flips, trail, s.lastFireAt, ts);
      state := state[o.shardKey := s];
      var changes := if |bumps| >= |flips| then |bumps| else |flips|;
      if changes < MIN_CHANGES { return; }
      var continued := s.lastFireAt.Some? && ts - s.lastFireAt.value <= ESCALATION_HORIZON_MS;
      finding := Some(Finding(o.shardKey, o.ownerId, changes, trail, if continued then Critical else Warning));
    }

    method FoldAll(order: seq<ShardKey>, owners: map<ShardKey, Observation>, claimants: set<string>, ts: int)
      returns (findings: map<ShardKey, Finding>)
      requires forall i, j :: 0 <= i < j < |order| ==> order[i] != order[j]
      requires forall k :: k in order <==> k in owners
      requires forall k :: k in owners ==> owners[k].shardKey == k
      modifies this
      ensures Folded(old(state), Stepped(old(state), owners, claimants, ts), order, state)
      ensures findings == Findings(old(state), owners, claimants, ts)
    {
      findings := map[];
      ghost var before := state;
      ghost var stepped, all := Stepped(state, owners, claimants, ts), Findings(state, owners, claimants, ts);
      var i := 0;
      while i < |order|
        invariant 0 <= i <= |order|
        invariant Folded(before, stepped, order[..i], state) && Gathered(all, order[..i], findings)
      {
        findings := FoldNext(order, i, owners[order[i]], claimants, ts, findings, before, stepped, all);
        i := i + 1;
      }
      assert order[..i] == order;
      GatheredAll(all, order, findings);
    }

    method FoldNext(order: seq<ShardKey>, i: nat, o: Observation, claimants: set<string>, ts: int,
                    found: map<ShardKey, Finding>, ghost before: StateMap, ghost stepped: StateMap,
                    ghost all: map<ShardKey, Finding>)
      returns (findings: map<ShardKey, Finding>)
      requires i < |order| && o.shardKey == order[i] && order[i] in stepped
      requires Folded(before, stepped, order[..i], state) && Gathered(all, order[..i], found)
      requires stepped[order[i]] == ShardStep(Look(state, order[i]), o, claimants, ts)
      requires FindingFor(Look(state, order[i]), o, claimants, ts) == Found(all, order[i])
      modifies this
      ensures Folded(before, stepped, order[..i + 1], state) && Gathered(all, order[..i + 1], findings)
    {
      ghost var was := state;
      var finding := Fold(o, claimants, ts);
      findings := if finding.Some? then found[order[i] := finding.value] else found;
      GatheredNext(all, order, i, found, finding, findings);
    }

    method Evaluate(nodes: seq<Node>, ts: int) returns (findings: map<ShardKey, Finding>)
      modifies this
      ensures state == NextState(old(state), Owners(nodes), Claimants(nodes), ts)
      ensures findings == Findings(old(state), Owners(nodes), Claimants(nodes), ts)
    {
      var order, owners := ExtractShardOwnership(nodes);
      OwnersKeyed(nodes);
      ghost var before := state;
      findings := FoldAll(order, owners, Claimants(nodes), ts);
      ghost var folded := state;
      state := map k | k in state && !(k !in owners && Expired(state[k], ts)) :: state[k];
      ExpiryEnds(before, owners, Claimants(nodes), ts, order, folded, state);
    }

    method Acknowledge(shardKey: ShardKey, ts: int)
      modifies this
      ensures state == AckState(old(state), shardKey, ts)
    {
      if shardKey !in state { return; }
      var s := state[shardKey];
      state := state[shardKey := s.(epochBumpTimes := [], ownerFlipTimes := [], epochTrail := [s.lastEpoch],
        lastFireAt := Some(ts))];
    }
  }

  function AckState(state: StateMap, k: ShardKey, ts: int): StateMap {
    if k in state then state[k := Acknowledged(state[k], ts)] else state
  }

  function Stepped(state: StateMap, owners: map<ShardKey, Observation>, claimants: set<string>, ts: int): StateMap {
    map k | k in owners :: ShardStep(Look(state, k), owners[k], claimants, ts)
  }

  /** The shards folded so far have taken their step; the others are as before. */
  ghost predicate Folded(before: StateMap, stepped: StateMap, done: seq<ShardKey>, state: StateMap) {
    && (forall k :: k in done ==> k in stepped)
    && (forall k :: k in state <==> k in before || k in done)
    && (forall k :: k in done ==> state[k] == stepped[k])
    && (forall k :: k in before && k !in done ==> state[k] == before[k])
  }

  ghost predicate Gathered(all: map<ShardKey, Finding>, done: seq<ShardKey>, found: map<ShardKey, Finding>) {
    forall k :: (k in found <==> k in done && k in all) && (k in found ==> found[k] == all[k])
  }

  lemma GatheredNext(all: map<ShardKey, Finding>, order: seq<ShardKey>, i: nat, was: map<ShardKey, Finding>,
                     finding: Option<Finding>, found: map<ShardKey, Finding>)
    requires i < |order| && Gathered(all, order[..i], was)
    requires finding == Found(all, order[i])
    requires found == if finding.Some? then was[order[i] := finding.value] else was
    ensures Gathered(all, order[..i + 1], found)
  {
    assert order[..i + 1] == order[..i] + [order[i]];
  }

  lemma ExpiryEnds(before: StateMap, owners: map<ShardKey, Observation>, claimants: set<string>, ts: int,
                   order: seq<ShardKey>, folded: StateMap, after: StateMap)
    requires Folded(before, Stepped(before, owners, claimants, ts), order, folded)
    requires forall k :: k in order <==> k in owners
    requires after == map k | k in folded && !(k !in owners && Expired(folded[k], ts)) :: folded[k]
    ensures after == NextState(before, owners, claimants, ts)
  {
    var stepped, next := Stepped(before, owners, claimants, ts), NextState(before, owners, claimants, ts);
    forall k ensures k in after <==> k in next
             ensures k in after && k in next ==> after[k] == next[k] {
      if k in owners {
        assert k in order && folded[k] == stepped[k];
      } else {
        assert k !in order && (k in folded <==> k in before);
      }
    }
  }

  lemma {:induction false} OwnersKeyed(nodes: seq<Node>)
    ensures forall k :: k in Owners(nodes) ==> Owners(nodes)[k].shardKey == k
  {
    if nodes != [] {
      OwnersKeyed(nodes[..|nodes| - 1]);
    }
  }

  function Found(all: map<ShardKey, Finding>, k: ShardKey): Option<Finding> { if k in all then Some(all[k]) else None }

  lemma GatheredAll(all: map<ShardKey, Finding>, order: seq<ShardKey>, found: map<ShardKey, Finding>)
    requires Gathered(all, order, found) && forall k :: k in all ==> k in order
    ensures found == all
  {}

  // ---------------------------------------------------------------- the snapshot's order does not matter

  predicate Claims(n: Node, k: ShardKey) { LivePrimary(n) && CanonicalSlotKey(n.slots) == k }

  /** Some live primary of shard `k` makes the observation, and none makes one that beats it. */
  ghost predicate IsBest(nodes: seq<Node>, k: ShardKey, o: Observation) {
    && (exists n :: n in nodes && Claims(n, k) && Observe(n) == o)
    && (forall n :: n in nodes && Claims(n, k) ==> !Beats(Observe(n), o))
  }

  lemma BeatsTransitive(a: Observation, b: Observation, c: Observation)
    requires Beats(a, b) && Beats(b, c)
    ensures Beats(a, c)
  {
    if a.configEpoch == b.configEpoch == c.configEpoch {
      PrecedesTransitive(a.ownerId, b.ownerId, c.ownerId);
    }
  }

  lemma BestGrows(nodes: seq<Node>, x: Node, k: ShardKey, o: Observation)
    requires IsBest(nodes, k, o) && Claims(x, k)
    ensures IsBest(nodes + [x], k, if Beats(Observe(x), o) then Observe(x) else o)
  {
    var all, best := nodes + [x], if Beats(Observe(x), o) then Observe(x) else o;
    assert x in all;
    forall n | n in all && Claims(n, k) ensures !Beats(Observe(n), best) {
      if n == x && best == Observe(x) {
        PrecedesIsStrict(x.id);
      } else if Beats(Observe(n), best) && Beats(Observe(x), o) {
        BeatsTransitive(Observe(n), Observe(x), o);
      }
    }
  }

  lemma FirstIsBest(nodes: seq<Node>, x: Node, k: ShardKey)
    requires Claims(x, k) && forall n :: n in nodes ==> !Claims(n, k)
    ensures IsBest(nodes + [x], k, Observe(x))
  {
    assert x in nodes + [x];
    PrecedesIsStrict(x.id);
  }

  /** A shard is observed exactly when a live primary claims it, and its owner is the best of its claimants. */
  lemma {:induction false} OwnersAreBest(nodes: seq<Node>, k: ShardKey)
    ensures k in Owners(nodes) <==> exists n :: n in nodes && Claims(n, k)
    ensures k in Owners(nodes) ==> IsBest(nodes, k, Owners(nodes)[k])
  {
    if nodes != [] {
      var init, x := nodes[..|nodes| - 1], nodes[|nodes| - 1];
      assert nodes == init + [x];
      OwnersAreBest(init, k);
      if Claims(x, k) {
        assert x in nodes;
        if k in Owners(init) {
          BestGrows(init, x, k, Owners(init)[k]);
        } else {
          FirstIsBest(init, x, k);
        }
      } else {
        assert forall n :: n in nodes && Claims(n, k) ==> n in init;
      }
    }
  }

  ghost predicate DistinctIds(nodes: seq<Node>) {
    forall i, j :: 0 <= i < j < |nodes| ==> nodes[i].id != nodes[j].id
  }

  lemma BestIsUnique(a: seq<Node>, b: seq<Node>, k: ShardKey, o: Observation, p: Observation)
    requires DistinctIds(a) && (forall n :: n in a <==> n in b) && IsBest(a, k, o) && IsBest(b, k, p)
    ensures o == p
  {
    var n :| n in a && Claims(n, k) && Observe(n) == o;
    var m :| m in b && Claims(m, k) && Observe(m) == p;
    PrecedesTotal(n.id, m.id);
    var i :| 0 <= i < |a| && a[i] == n;
    var j :| 0 <= j < |a| && a[j] == m;
  }

  /** Every permutation of a snapshot with distinct ids gives the same next state and the same findings. */
  lemma OrderIndependent(a: seq<Node>, b: seq<Node>, state: StateMap, ts: int)
    requires multiset(a) == multiset(b) && DistinctIds(a)
    ensures Owners(a) == Owners(b) && Claimants(a) == Claimants(b)
    ensures NextState(state, Owners(a), Claimants(a), ts) == NextState(state, Owners(b), Claimants(b), ts)
    ensures Findings(state, Owners(a), Claimants(a), ts) == Findings(state, Owners(b), Claimants(b), ts)
  {
    SameMembers(a, b);
    forall k ensures k in Owners(a) <==> k in Owners(b)
             ensures k in Owners(a) && k in Owners(b) ==> Owners(a)[k] == Owners(b)[k] {
      OwnersAreBest(a, k);
      OwnersAreBest(b, k);
      if k in Owners(a) && k in Owners(b) {
        BestIsUnique(a, b, k, Owners(a)[k], Owners(b)[k]);
      }
    }
    assert Owners(a) == Owners(b);
    assert Claimants(a) == Claimants(b);
  }

  // ---------------------------------------------------------------- runs

  datatype Op = Evaluate(nodes: seq<Node>, ts: int) | Ack(key: ShardKey, ts: int)

  function Step(state: StateMap, op: Op): StateMap {
    match op
    case Evaluate(nodes, ts) => NextState(state, Owners(nodes), Claimants(nodes), ts)
    case Ack(key, ts) => AckState(state, key, ts)
  }

  function StateAt(run: seq<Op>): StateMap {
    if run == [] then map[] else Step(StateAt(run[..|run| - 1]), run[|run| - 1])
  }

  /** The effect of one operation on the state of one shard. */
  function ShardOp(prev: Option<ShardState>, op: Op, k: ShardKey): Option<ShardState> {
    match op
    case Evaluate(nodes, ts) =>
      if k in Owners(nodes) then Some(ShardStep(prev, Owners(nodes)[k], Claimants(nodes), ts))
      else if prev.Some? && Expired(prev.value, ts) then None
      else prev
    case Ack(key, ts) => if key == k && prev.Some? then Some(Acknowledged(prev.value, ts)) else prev
  }

  function ShardAt(run: seq<Op>, k: ShardKey): Option<ShardState> {
    if run == [] then None else ShardOp(ShardAt(run[..|run| - 1], k), run[|run| - 1], k)
  }

  lemma {:induction false} ShardAtIsLook(run: seq<Op>, k: ShardKey)
    ensures Look(StateAt(run), k) == ShardAt(run, k)
  {
    if run != [] {
      ShardAtIsLook(run[..|run| - 1], k);
    }
  }

  function Clock(start: int, run: seq<Op>): int { if run == [] then start else run[|run| - 1].ts }

  ghost predicate Timely(start: int, run: seq<Op>) {
    run != [] ==> Timely(start, run[..|run| - 1]) && Clock(start, run[..|run| - 1]) <= run[|run| - 1].ts
  }

  /** Whether this operation is a counted observation of shard `k` that shows the change. */
  predicate Shows(prev: Option<ShardState>, op: Op, k: ShardKey, change: (ShardState, Observation) -> bool) {
    && op.Evaluate? && k in Owners(op.nodes) && prev.Some?
    && Counted(prev.value, Owners(op.nodes)[k], Claimants(op.nodes)) && change(prev.value, Owners(op.nodes)[k])
  }

  /** The times of all changes counted since the shard was discovered or last acknowledged; never pruned. */
  function Log(run: seq<Op>, k: ShardKey, change: (ShardState, Observation) -> bool): seq<int> {
    if run == [] then []
    else
      var init, op := run[..|run| - 1], run[|run| - 1];
      var prev := ShardAt(init, k);
      if prev.None? || (op.Ack? && op.key == k) then []
      else Push(Log(init, k, change), Shows(prev, op, k, change), op.ts)
  }

  lemma {:induction false} WindowTwice(times: seq<int>, a: int, b: int)
    requires a <= b
    ensures InWindow(InWindow(times, a), b) == InWindow(times, b)
  {
    if times != [] {
      WindowTwice(times[1..], a, b);
    }
  }

  lemma {:induction false} WindowAppend(times: seq<int>, ts: int)
    ensures InWindow(times + [ts], ts) == InWindow(times, ts) + [ts]
  {
    if times == [] {
      assert [] + [ts] == [ts];
    } else {
      assert (times + [ts])[1..] == times[1..] + [ts];
      WindowAppend(times[1..], ts);
    }
  }

  /** Two lists of times agree on the window before `ts`. */
  ghost predicate Agree(kept: seq<int>, log: seq<int>, ts: int) { InWindow(kept, ts) == InWindow(log, ts) }

  lemma AgreeLater(kept: seq<int>, log: seq<int>, a: int, b: int)
    requires Agree(kept, log, a) && a <= b
    ensures Agree(kept, log, b)
  {
    WindowTwice(kept, a, b);
    WindowTwice(log, a, b);
  }

  lemma AgreePush(kept: seq<int>, log: seq<int>, a: int, b: int, changed: bool)
    requires Agree(kept, log, a) && a <= b
    ensures InWindow(Push(kept, changed, b), b) == InWindow(Push(log, changed, b), b)
    ensures Agree(InWindow(Push(kept, changed, b), b), Push(log, changed, b), b)
  {
    AgreeLater(kept, log, a, b);
    WindowAppend(kept, b);
    WindowAppend(log, b);
    WindowTwice(Push(kept, changed, b), b, b);
  }

  /** In every reachable state the pruned change times agree with the full logs. */
  lemma {:induction false} TimesAgree(start: int, run: seq<Op>, k: ShardKey)
    requires Timely(start, run) && ShardAt(run, k).Some?
    ensures Agree(ShardAt(run, k).value.epochBumpTimes, Log(run, k, Bump), Clock(start, run))
    ensures Agree(ShardAt(run, k).value.ownerFlipTimes, Log(run, k, Flip), Clock(start, run))
  {
    var init, op := run[..|run| - 1], run[|run| - 1];
    var prev := ShardAt(init, k);
    if prev.Some? && !(op.Ack? && op.key == k) {
      TimesAgree(start, init, k);
      StepAgrees(prev.value, op, k, Log(init, k, Bump), Log(init, k, Flip), Clock(start, init));
    }
  }

  lemma StepAgrees(s: ShardState, op: Op, k: ShardKey, bumps: seq<int>, flips: seq<int>, clock: int)
    requires Agree(s.epochBumpTimes, bumps, clock) && Agree(s.ownerFlipTimes, flips, clock) && clock <= op.ts
    requires ShardOp(Some(s), op, k).Some? && !(op.Ack? && op.key == k)
    ensures var t := ShardOp(Some(s), op, k).value;
            && Agree(t.epochBumpTimes, Push(bumps, Shows(Some(s), op, k, Bump), op.ts), op.ts)
            && Agree(t.ownerFlipTimes, Push(flips, Shows(Some(s), op, k, Flip), op.ts), op.ts)
  {
    AgreeLater(s.epochBumpTimes, bumps, clock, op.ts);
    AgreeLater(s.ownerFlipTimes, flips, clock, op.ts);
    if op.Evaluate? && k in Owners(op.nodes) && Counted(s, Owners(op.nodes)[k], Claimants(op.nodes)) {
      AgreePush(s.epochBumpTimes, bumps, clock, op.ts, Bump(s, Owners(op.nodes)[k]));
      AgreePush(s.ownerFlipTimes, flips, clock, op.ts, Flip(s, Owners(op.nodes)[k]));
    }
  }

  /** The time of the last acknowledgement of the shard since it was discovered. */
  function LastAck(run: seq<Op>, k: ShardKey): Option<int> {
    if run == [] then None
    else
      var init, op := run[..|run| - 1], run[|run| - 1];
      if ShardAt(init, k).None? then None
      else if op.Ack? && op.key == k then Some(op.ts)
      else LastAck(init, k)
  }

  lemma {:induction false} FireTimeIsLastAck(run: seq<Op>, k: ShardKey)
    requires ShardAt(run, k).Some?
    ensures ShardAt(run, k).value.lastFireAt == LastAck(run, k)
  {
    var init := run[..|run| - 1];
    if ShardAt(init, k).Some? {
      FireTimeIsLastAck(init, k);
    }
  }

  /** The counted changes of the next observation, as the pruned state and as the full logs see them. */
  lemma ChangesAgree(start: int, run: seq<Op>, nodes: seq<Node>, ts: int, k: ShardKey)
    requires Timely(start, run) && Clock(start, run) <= ts && k in Owners(nodes)
    requires ShardAt(run, k).Some? && Counted(ShardAt(run, k).value, Owners(nodes)[k], Claimants(nodes))
    ensures var after := run + [Evaluate(nodes, ts)];
            var s := Count(ShardAt(run, k).value, Owners(nodes)[k], ts);
            && s.epochBumpTimes == InWindow(Log(after, k, Bump), ts)
            && s.ownerFlipTimes == InWindow(Log(after, k, Flip), ts)
  {
    var after, s, o := run + [Evaluate(nodes, ts)], ShardAt(run, k).value, Owners(nodes)[k];
    assert after[..|after| - 1] == run;
    TimesAgree(start, run, k);
    AgreePush(s.epochBumpTimes, Log(run, k, Bump), Clock(start, run), ts, Bump(s, o));
    AgreePush(s.ownerFlipTimes, Log(run, k, Flip), Clock(start, run), ts, Flip(s, o));
  }

  /**
   A shard is reported exactly when this snapshot is a counted observation of a known shard (no lower epoch, no
   health flap, no resharding) and three epoch bumps or three owner flips were counted within the last minute since
   its last acknowledgement.
   */
  lemma FindingIff(start: int, run: seq<Op>, nodes: seq<Node>, ts: int, k: ShardKey)
    requires Timely(start, run) && Clock(start, run) <= ts && k in Owners(nodes)
    ensures var after, prev := run + [Evaluate(nodes, ts)], ShardAt(run, k);
            k in Findings(StateAt(run), Owners(nodes), Claimants(nodes), ts)
            <==> && prev.Some? && Counted(prev.value, Owners(nodes)[k], Claimants(nodes))
                 && (|InWindow(Log(after, k, Bump), ts)| >= 3 || |InWindow(Log(after, k, Flip), ts)| >= 3)
  {
    ShardAtIsLook(run, k);
    if ShardAt(run, k).Some? && Counted(ShardAt(run, k).value, Owners(nodes)[k], Claimants(nodes)) {
      ChangesAgree(start, run, nodes, ts, k);
    }
  }

  /** A finding is CRITICAL exactly when the shard's last acknowledgement is at most two windows old. */
  lemma CriticalIffRecentAck(run: seq<Op>, nodes: seq<Node>, ts: int, k: ShardKey)
    requires k in Findings(StateAt(run), Owners(nodes), Claimants(nodes), ts)
    ensures Findings(StateAt(run), Owners(nodes), Claimants(nodes), ts)[k].severity == Critical
       <==> LastAck(run, k).Some? && ts - LastAck(run, k).value <= 120000
  {
    ShardAtIsLook(run, k);
    FireTimeIsLastAck(run, k);
  }

  // ---------------------------------------------------------------- epochs only rise

  ghost predicate Rising(s: seq<int>) { forall i, j :: 0 <= i < j < |s| ==> s[i] < s[j] }

  ghost predicate TrailOk(s: ShardState) {
    Rising(s.epochTrail) && 0 < |s.epochTrail| <= 6 && s.epochTrail[|s.epochTrail| - 1] <= s.lastEpoch
  }

  /** A retained shard's epoch trail is a strictly increasing list of at most six epochs, none above the last epoch. */
  lemma {:induction false} TrailRises(run: seq<Op>, k: ShardKey)
    requires ShardAt(run, k).Some?
    ensures TrailOk(ShardAt(run, k).value)
  {
    var init := run[..|run| - 1];
    if ShardAt(init, k).Some? {
      TrailRises(init, k);
      OpKeepsTrail(ShardAt(init, k).value, run[|run| - 1], k);
    }
  }

  lemma OpKeepsTrail(s: ShardState, op: Op, k: ShardKey)
    requires TrailOk(s) && ShardOp(Some(s), op, k).Some?
    ensures TrailOk(ShardOp(Some(s), op, k).value) && s.lastEpoch <= ShardOp(Some(s), op, k).value.lastEpoch
  {}

  /** While a shard's state is retained its last epoch never decreases. */
  lemma {:induction false} EpochNeverFalls(run: seq<Op>, k: ShardKey, m: nat, n: nat)
    requires m <= n <= |run| && forall j :: m <= j <= n ==> ShardAt(run[..j], k).Some?
    ensures ShardAt(run[..m], k).value.lastEpoch <= ShardAt(run[..n], k).value.lastEpoch
    decreases n
  {
    if m < n {
      EpochNeverFalls(run, k, m, n - 1);
      assert run[..n][..n - 1] == run[..n - 1];
      TrailRises(run[..n - 1], k);
      OpKeepsTrail(ShardAt(run[..n - 1], k).value, run[n - 1], k);
    }
  }
}

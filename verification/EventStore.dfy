/** Events of the tracked persistence gate: ring, storage feed, one step per await. */
module EventStore {
  // Emitted events live in a bounded in-memory ring and, when the save succeeds, as a row of the storage feed. The gate
  // keeps one event id per signature, emits only when that event is no longer open, and resolves it on recovery, while
  // operators dismiss events and other detectors push theirs. The ids are lost when the connection is removed, and the
  // ring with them when the process restarts. A run is any sequence of actions.

  import opened Prelude

  const RING_MAX: nat := 1000
  const FEED_LIMIT: nat := 100

  datatype Event = Event(id: nat, resolved: bool, persisted: bool)

  /**
   `rows` maps the id of a stored event of this gate to whether it is resolved; `stamps` holds the poll timestamp of
   every emitted event. `saving` is the event whose save is in flight; `unsettled` are the events whose save was
   reported lost or cut off by a restart. `owner` remembers which signature an event was emitted for.
   */
  datatype Store = Store(ring: seq<Event>, rows: map<nat, bool>, stamps: map<nat, int>, ids: map<string, nat>,
                         saving: Option<(string, nat)>, unsettled: set<nat>, owner: map<nat, string>, nextId: nat)

  const EMPTY: Store := Store([], map[], map[], map[], None, {}, map[], 0)

  /** What the storage lookup of a check answers, when it is asked. */
  datatype Reply = ReadFailed | Feed(ids: set<nat>)

  /**
   The reply of a check and the fate of storage calls are choices of the environment. `LateRow` stores the row of a
   save that was reported lost. `Forget` is the removal of the connection between two polls. The last three are the
   halves of a durable dismissal or recovery when something comes between them: the row is closed, then the ring copy
   is flipped, then the id is dropped.
   */
  datatype Action =
    | Check(sig: string, ts: int, reply: Reply)
    | SaveDone(ok: bool)
    | LateRow(late: nat)
    | Resolve(id: nat, fails: bool)
    | Recover(lost: string, fails: bool)
    | ForeignPush
    | ClearResolved
    | Prune(row: nat)
    | Forget
    | Restart
    | CloseRow(row: nat)
    | FlipCopy(copy: nat)
    | Untrack(gone: string)

  function Find(ring: seq<Event>, id: nat): (r: Option<Event>)
    ensures r.Some? ==> r.value in ring && r.value.id == id
    ensures r.None? ==> forall e :: e in ring ==> e.id != id
  {
    if ring == [] then None else if ring[0].id == id then Some(ring[0]) else Find(ring[1..], id)
  }

  function Push(ring: seq<Event>, e: Event): seq<Event> {
    var grown := ring + [e];
    if |grown| > RING_MAX then grown[|grown| - RING_MAX..] else grown
  }

  function MarkResolved(ring: seq<Event>, id: nat): (r: seq<Event>)
    ensures |r| == |ring|
    ensures forall i :: 0 <= i < |ring| ==>
              r[i] == if ring[i].id == id then ring[i].(resolved := true) else ring[i]
  {
    seq(|ring|, i requires 0 <= i < |ring| => if ring[i].id == id then ring[i].(resolved := true) else ring[i])
  }

  function MarkPersisted(ring: seq<Event>, id: nat): (r: seq<Event>)
    ensures |r| == |ring|
    ensures forall i :: 0 <= i < |ring| ==>
              r[i] == if ring[i].id == id then ring[i].(persisted := true) else ring[i]
  {
    seq(|ring|, i requires 0 <= i < |ring| => if ring[i].id == id then ring[i].(persisted := true) else ring[i])
  }

  function OpenRows(s: Store): set<nat> { set id | id in s.rows && !s.rows[id] }

  function StampOf(s: Store, id: nat): int { if id in s.stamps then s.stamps[id] else 0 }

  /**
   A hundred open rows (all, if there are fewer), newest first by timestamp. Rows of one poll share its timestamp and
   the query names no second order, so any choice among equally old rows is a feed.
   */
  ghost predicate IsFeed(s: Store, feed: set<nat>) {
    && feed <= OpenRows(s)
    && |feed| == (if |OpenRows(s)| < FEED_LIMIT then |OpenRows(s)| else FEED_LIMIT)
    && forall i, j :: i in feed && j in OpenRows(s) - feed ==> StampOf(s, i) >= StampOf(s, j)
  }

  /** The storage is asked only about a tracked event the ring no longer holds. */
  predicate Asked(s: Store, sig: string) { sig in s.ids && Find(s.ring, s.ids[sig]).None? }

  ghost predicate LegalReply(s: Store, reply: Reply) { reply.Feed? ==> IsFeed(s, reply.ids) }

  /** The gate's dedupe: the ring decides while it holds the event, the storage reply once it was evicted. */
  predicate StillOpen(s: Store, id: nat, reply: Reply) {
    match Find(s.ring, id)
    case Some(e) => !e.resolved
    case None => reply.ReadFailed? || id in reply.ids
  }

  datatype Outcome = Resolved | Retry | Gone

  function ResolveOutcome(s: Store, id: nat, fails: bool): Outcome {
    match Find(s.ring, id)
    case Some(e) => if !e.persisted then Resolved else if fails || id !in s.rows then Retry else Resolved
    case None => if fails then Retry else if id in s.rows then Resolved else Gone
  }

  /** An event whose ring copy is not known to be stored: a resolve flips that copy and leaves the storage alone. */
  predicate MemoryOnly(s: Store, id: nat) { Find(s.ring, id).Some? && !Find(s.ring, id).value.persisted }

  function ResolveEvent(s: Store, id: nat, fails: bool): Store {
    if ResolveOutcome(s, id, fails) != Resolved then s
    else s.(ring := MarkResolved(s.ring, id),
            rows := if id in s.rows && !MemoryOnly(s, id) then s.rows[id := true] else s.rows)
  }

  /** Emission up to the save: drop the stale id, push the event, leave its save in flight. */
  function Emit(s: Store, sig: string, ts: int): Store {
    s.(ids := s.ids - {sig}, ring := Push(s.ring, Event(s.nextId, false, false)), stamps := s.stamps[s.nextId := ts],
       saving := Some((sig, s.nextId)), owner := s.owner[s.nextId := sig], nextId := s.nextId + 1)
  }

  /** The save settled: a stored event becomes a row and its ring copy durable; either way its id is tracked. */
  function Settle(s: Store, sig: string, id: nat, ok: bool): Store {
    s.(rows := if ok then s.rows[id := false] else s.rows,
       ring := if ok then MarkPersisted(s.ring, id) else s.ring,
       unsettled := if ok then s.unsettled else s.unsettled + {id},
       ids := s.ids[sig := id], saving := None)
  }

  predicate Suppressed(s: Store, sig: string, reply: Reply) {
    s.saving.Some? || (sig in s.ids && StillOpen(s, s.ids[sig], reply))
  }

  function Step(s: Store, a: Action): Store {
    match a
    case Check(sig, ts, reply) => if Suppressed(s, sig, reply) then s else Emit(s, sig, ts)
    case SaveDone(ok) => if s.saving.None? then s else Settle(s, s.saving.value.0, s.saving.value.1, ok)
    case LateRow(id) =>
      if id in s.unsettled then s.(rows := s.rows[id := false], unsettled := s.unsettled - {id}) else s
    case Resolve(id, fails) => ResolveEvent(s, id, fails)
    case Recover(sig, fails) =>
      if s.saving.Some? || sig !in s.ids then s
      else
        var s' := ResolveEvent(s, s.ids[sig], fails);
        if ResolveOutcome(s, s.ids[sig], fails) == Retry then s' else s'.(ids := s'.ids - {sig})
    case ForeignPush => s.(ring := Push(s.ring, Event(s.nextId, false, false)), nextId := s.nextId + 1)
    case ClearResolved => s.(ring := Filter(s.ring, (e: Event) => !e.resolved))
    case Prune(id) => s.(rows := s.rows - {id})
    case Forget => if s.saving.Some? then s else s.(ids := map[])
    case Restart =>
      s.(ids := map[], ring := [], saving := None,
         unsettled := if s.saving.Some? then s.unsettled + {s.saving.value.1} else s.unsettled)
    case CloseRow(id) => s.(rows := if id in s.rows then s.rows[id := true] else s.rows)
    case FlipCopy(id) =>
      if id in OpenRows(s) || MemoryOnly(s, id) then s else s.(ring := MarkResolved(s.ring, id))
    case Untrack(sig) =>
      if s.saving.Some? || sig !in s.ids || IsOpen(s, s.ids[sig]) then s else s.(ids := s.ids - {sig})
  }

  function Run(s: Store, actions: seq<Action>): Store {
    if actions == [] then s else Step(Run(s, actions[..|actions| - 1]), actions[|actions| - 1])
  }

  // ---------------------------------------------------------------- open events

  /** An event is open while the ring or the storage feed would still show it unresolved. */
  predicate IsOpen(s: Store, id: nat) {
    (exists e :: e in s.ring && e.id == id && !e.resolved) || id in OpenRows(s)
  }

  ghost predicate OneOpenPerSignature(s: Store) {
    forall a, b :: a in s.owner && b in s.owner && s.owner[a] == s.owner[b] && IsOpen(s, a) && IsOpen(s, b) ==> a == b
  }

  ghost predicate RingOrdered(ring: seq<Event>, bound: nat) {
    && (forall i, j :: 0 <= i < j < |ring| ==> ring[i].id < ring[j].id)
    && (forall e :: e in ring ==> e.id < bound)
  }

  ghost predicate SavingOk(s: Store) {
    s.saving.Some? ==>
      var (sig, id) := s.saving.value;
      && sig !in s.ids && id in s.owner && s.owner[id] == sig && id !in s.rows && id !in s.unsettled
      && (forall e :: e in s.ring && e.id == id ==> !e.persisted)
  }

  /** What every run keeps, whether or not it keeps one open event per signature. */
  ghost predicate Shape(s: Store) {
    && RingOrdered(s.ring, s.nextId)
    && (forall id :: id in s.rows || id in s.unsettled ==> id in s.owner)
    && (forall id :: id in s.unsettled ==> id !in s.rows)
    && (forall id :: id in s.owner ==> id < s.nextId)
    && (forall sig :: sig in s.ids ==> s.ids[sig] in s.owner && s.owner[s.ids[sig]] == sig)
    && SavingOk(s)
  }

  // ---------------------------------------------------------------- every step keeps the shape

  lemma PushKeepsOrder(ring: seq<Event>, bound: nat)
    requires RingOrdered(ring, bound)
    ensures RingOrdered(Push(ring, Event(bound, false, false)), bound + 1)
    ensures var r := Push(ring, Event(bound, false, false));
            && Event(bound, false, false) in r
            && forall e :: e in r ==> e in ring || e == Event(bound, false, false)
  {
    var grown := ring + [Event(bound, false, false)];
    var r := Push(ring, Event(bound, false, false));
    assert r[|r| - 1] == Event(bound, false, false);
    forall e | e in r ensures e in ring || e == Event(bound, false, false) {
      assert e in grown;
    }
  }

  lemma SameId(ring: seq<Event>, bound: nat, a: Event, b: Event)
    requires RingOrdered(ring, bound) && a in ring && b in ring && a.id == b.id
    ensures a == b
  {}

  lemma PersistedFrom(ring: seq<Event>, id: nat, e: Event)
    requires e in MarkPersisted(ring, id)
    ensures e.id != id ==> e in ring
    ensures e.id == id ==> e.persisted && (e in ring || e.(persisted := false) in ring)
  {
    var r := MarkPersisted(ring, id);
    var i :| 0 <= i < |r| && r[i] == e;
    assert ring[i] in ring;
  }

  lemma MarkedFrom(ring: seq<Event>, id: nat, e: Event)
    requires e in MarkResolved(ring, id)
    ensures e.id != id ==> e in ring
    ensures e.id == id ==> e.resolved && (e in ring || e.(resolved := false) in ring)
  {
    var r := MarkResolved(ring, id);
    var i :| 0 <= i < |r| && r[i] == e;
    assert ring[i] in ring;
  }

  lemma {:induction false} FilterKeepsOrder(ring: seq<Event>, bound: nat, p: Event -> bool)
    requires RingOrdered(ring, bound)
    ensures RingOrdered(Filter(ring, p), bound)
  {
    if ring != [] {
      var rest := Filter(ring[1..], p);
      FilterKeepsOrder(ring[1..], bound, p);
      forall j | 0 <= j < |rest| ensures ring[0].id < rest[j].id {
        assert rest[j] in ring[1..];
      }
    }
  }

  lemma MarkingKeepsOrder(ring: seq<Event>, id: nat, bound: nat)
    requires RingOrdered(ring, bound)
    ensures RingOrdered(MarkResolved(ring, id), bound) && RingOrdered(MarkPersisted(ring, id), bound)
  {
    forall e | e in MarkResolved(ring, id) ensures e.id < bound {
      MarkedFrom(ring, id, e);
    }
    forall e | e in MarkPersisted(ring, id) ensures e.id < bound {
      PersistedFrom(ring, id, e);
    }
  }

  lemma EmitKeepsShape(s: Store, sig: string, ts: int)
    requires Shape(s) && s.saving.None?
    ensures Shape(Emit(s, sig, ts))
  {
    PushKeepsOrder(s.ring, s.nextId);
  }

  lemma SettleKeepsShape(s: Store, ok: bool)
    requires Shape(s) && s.saving.Some?
    ensures Shape(Step(s, SaveDone(ok)))
  {
    MarkingKeepsOrder(s.ring, s.saving.value.1, s.nextId);
  }

  lemma ResolveKeepsShape(s: Store, id: nat, fails: bool)
    requires Shape(s)
    ensures Shape(ResolveEvent(s, id, fails))
  {
    MarkingKeepsOrder(s.ring, id, s.nextId);
    forall e | e in MarkResolved(s.ring, id) && s.saving.Some? && e.id == s.saving.value.1 ensures !e.persisted {
      MarkedFrom(s.ring, id, e);
    }
  }

  lemma FlipKeepsShape(s: Store, id: nat)
    requires Shape(s)
    ensures Shape(Step(s, FlipCopy(id)))
  {
    MarkingKeepsOrder(s.ring, id, s.nextId);
    forall e | e in MarkResolved(s.ring, id) && s.saving.Some? && e.id == s.saving.value.1 ensures !e.persisted {
      MarkedFrom(s.ring, id, e);
    }
  }

  lemma StepKeepsShape(s: Store, a: Action)
    requires Shape(s)
    ensures Shape(Step(s, a))
  {
    match a
    case Check(sig, ts, reply) =>
      if !Suppressed(s, sig, reply) {
        EmitKeepsShape(s, sig, ts);
      }
    case SaveDone(ok) =>
      if s.saving.Some? {
        SettleKeepsShape(s, ok);
      }
    case Resolve(id, fails) => ResolveKeepsShape(s, id, fails);
    case Recover(sig, fails) =>
      if sig in s.ids {
        ResolveKeepsShape(s, s.ids[sig], fails);
      }
    case ForeignPush => PushKeepsOrder(s.ring, s.nextId);
    case ClearResolved => FilterKeepsOrder(s.ring, s.nextId, (e: Event) => !e.resolved);
    case FlipCopy(id) => FlipKeepsShape(s, id);
    case _ =>
  }

  // ---------------------------------------------------------------- what a step opens

  /** The event a step opens, if any: one it emits, or one whose row it stores. */
  function Opens(s: Store, a: Action): Option<nat> {
    match a
    case Check(sig, _, reply) => if Suppressed(s, sig, reply) then None else Some(s.nextId)
    case SaveDone(ok) => if ok && s.saving.Some? then Some(s.saving.value.1) else None
    case LateRow(id) => if id in s.unsettled then Some(id) else None
    case _ => None
  }

  /** The signature of the event a step opens. */
  function OpenedFor(s: Store, a: Action): string
    requires Shape(s) && Opens(s, a).Some?
  {
    if a.Check? then a.sig else s.owner[Opens(s, a).value]
  }

  /** What the ring keeps when one more event is pushed. */
  function Kept(ring: seq<Event>): seq<Event> {
    if |ring| < RING_MAX then ring else ring[|ring| - RING_MAX + 1..]
  }

  /** The event is open and stays so when the step pushes another one onto the ring. */
  predicate Outlasts(s: Store, id: nat) {
    (exists e :: e in Kept(s.ring) && e.id == id && !e.resolved) || id in OpenRows(s)
  }

  /**
   The steps that cost the guarantee: an event is opened while another one of its signature is open, and stays so.
   */
  ghost predicate Hazard(s: Store, a: Action)
    requires Shape(s)
  {
    && Opens(s, a).Some?
    && exists id :: id in s.owner && id != Opens(s, a).value && s.owner[id] == OpenedFor(s, a)
                    && (if a.Check? then Outlasts(s, id) else IsOpen(s, id))
  }

  lemma PushIsKept(ring: seq<Event>, e: Event)
    ensures Push(ring, e) == Kept(ring) + [e]
  {}

  lemma EmitOpens(s: Store, sig: string, ts: int, id: nat)
    requires Shape(s)
    ensures IsOpen(Emit(s, sig, ts), id) <==> id == s.nextId || Outlasts(s, id)
  {
    var e0 := Event(s.nextId, false, false);
    PushIsKept(s.ring, e0);
    assert (Kept(s.ring) + [e0])[|Kept(s.ring)|] == e0;
    assert forall e :: e in Kept(s.ring) + [e0] <==> e in Kept(s.ring) || e == e0;
  }

  lemma SettleOpens(s: Store, id: nat)
    requires Shape(s) && s.saving.Some?
    ensures IsOpen(Step(s, SaveDone(true)), id) <==> id == s.saving.value.1 || IsOpen(s, id)
  {
    var ring, saved := s.ring, s.saving.value.1;
    var ring' := MarkPersisted(ring, saved);
    forall e | e in ring' && e.id == id && !e.resolved && id != saved ensures e in ring {
      PersistedFrom(ring, saved, e);
    }
    forall e | e in ring && e.id == id && id != saved ensures e in ring' {
      var i :| 0 <= i < |ring| && ring[i] == e;
      assert ring'[i] == e;
    }
  }

  lemma FlippedCloses(ring: seq<Event>, id: nat, e: Event)
    requires e in MarkResolved(ring, id) && !e.resolved
    ensures e in ring && e.id != id
  {
    MarkedFrom(ring, id, e);
  }

  lemma ResolveOpensNothing(s: Store, k: nat, fails: bool, id: nat)
    requires IsOpen(ResolveEvent(s, k, fails), id)
    ensures IsOpen(s, id)
  {
    if ResolveOutcome(s, k, fails) == Resolved {
      if e :| e in MarkResolved(s.ring, k) && e.id == id && !e.resolved {
        FlippedCloses(s.ring, k, e);
      }
    }
  }

  lemma FlipOpensNothing(s: Store, k: nat, id: nat)
    requires IsOpen(Step(s, FlipCopy(k)), id)
    ensures IsOpen(s, id)
  {
    if k !in OpenRows(s) && !MemoryOnly(s, k) {
      if e :| e in MarkResolved(s.ring, k) && e.id == id && !e.resolved {
        FlippedCloses(s.ring, k, e);
      }
    }
  }

  lemma PushOpensNothing(s: Store, id: nat)
    requires Shape(s) && IsOpen(Step(s, ForeignPush), id)
    ensures IsOpen(s, id) || id == s.nextId
  {
    PushKeepsOrder(s.ring, s.nextId);
  }

  predicate Housekeeping(a: Action) {
    a.ClearResolved? || a.Prune? || a.Forget? || a.Restart? || a.CloseRow? || a.Untrack?
  }

  lemma HousekeepingOpensNothing(s: Store, a: Action, id: nat)
    requires Housekeeping(a) && IsOpen(Step(s, a), id)
    ensures IsOpen(s, id)
  {}

  /** Steps that open nothing leave at most the open events there were. */
  lemma NothingOpens(s: Store, a: Action, id: nat)
    requires Shape(s) && Opens(s, a).None? && IsOpen(Step(s, a), id)
    ensures IsOpen(s, id) || id == s.nextId
  {
    match a
    case Resolve(k, fails) => ResolveOpensNothing(s, k, fails, id);
    case Recover(sig, fails) =>
      if s.saving.None? && sig in s.ids {
        assert IsOpen(ResolveEvent(s, s.ids[sig], fails), id);
        ResolveOpensNothing(s, s.ids[sig], fails, id);
      }
    case FlipCopy(k) => FlipOpensNothing(s, k, id);
    case ForeignPush => PushOpensNothing(s, id);
    case SaveDone(_) =>
    case Check(_, _, _) =>
    case LateRow(_) =>
    case _ => HousekeepingOpensNothing(s, a, id);
  }

  lemma LateRowOpens(s: Store, late: nat, id: nat)
    requires late in s.unsettled
    ensures IsOpen(Step(s, LateRow(late)), id) <==> id == late || IsOpen(s, id)
  {}

  lemma ResolveKeepsOwner(s: Store, id: nat, fails: bool)
    ensures ResolveEvent(s, id, fails)
            == s.(ring := ResolveEvent(s, id, fails).ring, rows := ResolveEvent(s, id, fails).rows)
  {}

  lemma OwnersKept(s: Store, a: Action)
    ensures Step(s, a).owner == if a.Check? && Opens(s, a).Some? then s.owner[s.nextId := a.sig] else s.owner
  {
    match a
    case Resolve(id, fails) => ResolveKeepsOwner(s, id, fails);
    case Recover(sig, fails) =>
      if sig in s.ids {
        ResolveKeepsOwner(s, s.ids[sig], fails);
      }
    case _ =>
  }

  /** A step that opens an event leaves exactly that one and the ones that stay open. */
  lemma OpensExactly(s: Store, a: Action, id: nat)
    requires Shape(s) && Opens(s, a).Some?
    ensures IsOpen(Step(s, a), id)
       <==> id == Opens(s, a).value || (if a.Check? then Outlasts(s, id) else IsOpen(s, id))
  {
    match a
    case Check(sig, ts, _) => EmitOpens(s, sig, ts, id);
    case SaveDone(_) => SettleOpens(s, id);
    case LateRow(late) => LateRowOpens(s, late, id);
  }

  // ---------------------------------------------------------------- the theorem

  ghost predicate Inv(s: Store) { Shape(s) && OneOpenPerSignature(s) }

  lemma KeptOpen(s: Store, id: nat)
    requires Outlasts(s, id)
    ensures IsOpen(s, id)
  {
    if e :| e in Kept(s.ring) && e.id == id && !e.resolved {
      assert e in s.ring;
    }
  }

  /** A hazard leaves two open events of one signature. */
  lemma HazardDoublesUp(s: Store, a: Action)
    requires Shape(s) && Hazard(s, a)
    ensures !OneOpenPerSignature(Step(s, a))
  {
    var s', added := Step(s, a), Opens(s, a).value;
    var id :| id in s.owner && id != added && s.owner[id] == OpenedFor(s, a)
              && (if a.Check? then Outlasts(s, id) else IsOpen(s, id));
    OwnersKept(s, a);
    OpensExactly(s, a, id);
    OpensExactly(s, a, added);
    assert s'.owner[id] == s'.owner[added];
  }

  lemma SafeStepKeepsInv(s: Store, a: Action)
    requires Inv(s) && !Hazard(s, a)
    ensures Inv(Step(s, a))
  {
    var s' := Step(s, a);
    StepKeepsShape(s, a);
    OwnersKept(s, a);
    forall x, y | x in s'.owner && y in s'.owner && s'.owner[x] == s'.owner[y] && IsOpen(s', x) && IsOpen(s', y)
      ensures x == y
    {
      if Opens(s, a).Some? {
        OpensExactly(s, a, x);
        OpensExactly(s, a, y);
        OnlyOpened(s, a, x, y);
      } else {
        NothingOpens(s, a, x);
        NothingOpens(s, a, y);
      }
    }
  }

  lemma OnlyOpened(s: Store, a: Action, x: nat, y: nat)
    requires Inv(s) && !Hazard(s, a) && Opens(s, a).Some?
    requires var o := Step(s, a).owner; x in o && y in o && o[x] == o[y]
    requires x == Opens(s, a).value || (if a.Check? then Outlasts(s, x) else IsOpen(s, x))
    requires y == Opens(s, a).value || (if a.Check? then Outlasts(s, y) else IsOpen(s, y))
    ensures x == y
  {
    OwnersKept(s, a);
    if a.Check? && x != Opens(s, a).value && y != Opens(s, a).value {
      KeptOpen(s, x);
      KeptOpen(s, y);
    }
  }

  /** From a sound state a step keeps at most one open event per signature exactly when it is not a hazard. */
  lemma StepKeepsOneOpenIff(s: Store, a: Action)
    requires Inv(s)
    ensures OneOpenPerSignature(Step(s, a)) <==> !Hazard(s, a)
    ensures Inv(Step(s, a)) <==> !Hazard(s, a)
  {
    if Hazard(s, a) {
      HazardDoublesUp(s, a);
    } else {
      SafeStepKeepsInv(s, a);
    }
  }

  lemma {:induction false} RunKeepsShape(actions: seq<Action>)
    ensures Shape(Run(EMPTY, actions))
  {
    if actions != [] {
      RunKeepsShape(actions[..|actions| - 1]);
      StepKeepsShape(Run(EMPTY, actions[..|actions| - 1]), actions[|actions| - 1]);
    }
  }

  ghost predicate HazardAt(actions: seq<Action>, n: nat)
    requires n < |actions|
  {
    RunKeepsShape(actions[..n]);
    Hazard(Run(EMPTY, actions[..n]), actions[n])
  }

  ghost predicate NoHazard(actions: seq<Action>) { forall n :: 0 <= n < |actions| ==> !HazardAt(actions, n) }

  lemma HazardFreePrefix(actions: seq<Action>, n: nat)
    requires NoHazard(actions) && n <= |actions|
    ensures NoHazard(actions[..n])
  {
    forall k | 0 <= k < n ensures !HazardAt(actions[..n], k) {
      assert actions[..n][..k] == actions[..k];
      assert !HazardAt(actions, k);
    }
  }

  lemma {:induction false} HazardFreeRunKeepsInv(actions: seq<Action>)
    requires NoHazard(actions)
    ensures Inv(Run(EMPTY, actions))
  {
    if actions != [] {
      var n := |actions| - 1;
      HazardFreePrefix(actions, n);
      HazardFreeRunKeepsInv(actions[..n]);
      assert !HazardAt(actions, n);
      SafeStepKeepsInv(Run(EMPTY, actions[..n]), actions[n]);
    }
  }

  /** The first n actions meet no hazard, and n is the whole run or the next action is the first hazard. */
  lemma {:induction false} FirstHazard(actions: seq<Action>) returns (n: nat)
    ensures n <= |actions| && NoHazard(actions[..n])
    ensures n < |actions| ==> HazardAt(actions, n)
  {
    if actions == [] {
      n := 0;
    } else {
      var before := actions[..|actions| - 1];
      n := FirstHazard(before);
      assert before[..n] == actions[..n];
      if n == |before| && !HazardAt(actions, n) {
        n := n + 1;
        forall k | 0 <= k < |actions| ensures !HazardAt(actions, k) {
          if k < |before| {
            assert before[..k] == actions[..k];
            assert !HazardAt(before, k);
          }
        }
        assert actions[..n] == actions;
      }
    }
  }

  /**
   Through ring eviction, lost and late saves, failed and retried resolves, operator dismissals, cleanups, row pruning,
   removals of the connection and restarts in any order: every state a run reaches has at most one open event per
   signature exactly when no step is a hazard.
   */
  lemma AtMostOneOpenEventIff(actions: seq<Action>)
    ensures (forall n :: 0 <= n <= |actions| ==> OneOpenPerSignature(Run(EMPTY, actions[..n]))) <==> NoHazard(actions)
  {
    var n := FirstHazard(actions);
    HazardFreeRunKeepsInv(actions[..n]);
    if n < |actions| {
      StepKeepsOneOpenIff(Run(EMPTY, actions[..n]), actions[n]);
      assert actions[..n + 1][..n] == actions[..n];
      assert !OneOpenPerSignature(Run(EMPTY, actions[..n + 1]));
    } else {
      assert actions[..n] == actions;
      forall m | 0 <= m <= |actions| ensures OneOpenPerSignature(Run(EMPTY, actions[..m])) {
        HazardFreePrefix(actions, m);
        HazardFreeRunKeepsInv(actions[..m]);
      }
    }
  }
}

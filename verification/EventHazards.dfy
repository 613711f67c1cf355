/** When the tracked gate opens a second event: the situations, how runs get into them, and runs that do. */
module EventHazards {
  import opened Prelude
  import opened EventStore

  // ---------------------------------------------------------------- what makes a check unsafe

  /** The ring holds the event (resolved, if that is asked for). */
  ghost predicate HasCopy(s: Store, id: nat, resolved: bool) {
    exists e :: e in s.ring && e.id == id && (resolved ==> e.resolved)
  }

  /** The ring shows the event resolved while its row is open. */
  ghost predicate Stale(s: Store, id: nat) { id in OpenRows(s) && HasCopy(s, id, true) }

  /** The event left the ring, and the storage reply does not list its open row. */
  ghost predicate Missed(s: Store, id: nat, reply: Reply) {
    Find(s.ring, id).None? && id in OpenRows(s) && reply.Feed? && id !in reply.ids
  }

  function NoOlder(s: Store, id: nat): set<nat> {
    set j | j in OpenRows(s) && j != id && StampOf(s, j) >= StampOf(s, id)
  }

  /** The event left the ring, and at least a hundred other open rows are no older than its own. */
  predicate Buried(s: Store, id: nat) {
    Find(s.ring, id).None? && id in OpenRows(s) && |NoOlder(s, id)| >= FEED_LIMIT
  }

  lemma {:induction false} Oldest(s: Store, ids: set<nat>) returns (id: nat)
    requires ids != {}
    ensures id in ids && forall j :: j in ids ==> StampOf(s, id) <= StampOf(s, j)
    decreases ids
  {
    id :| id in ids;
    if ids != {id} {
      var other := Oldest(s, ids - {id});
      if StampOf(s, other) < StampOf(s, id) {
        id := other;
      }
    }
  }

  /** The n newest of some rows, ties broken one way or another. */
  lemma {:induction false} Newest(s: Store, ids: set<nat>, n: nat) returns (top: set<nat>)
    requires n <= |ids|
    ensures top <= ids && |top| == n
    ensures forall i, j :: i in top && j in ids - top ==> StampOf(s, i) >= StampOf(s, j)
    decreases ids
  {
    if n == |ids| {
      top := ids;
    } else {
      var last := Oldest(s, ids);
      top := Newest(s, ids - {last}, n);
    }
  }

  lemma SubsetSize(a: set<nat>, b: set<nat>)
    requires a <= b
    ensures |a| <= |b| && (|a| == |b| ==> a == b)
  {
    assert b == a + (b - a);
    assert |b| == |a| + |b - a|;
  }

  /** An evicted open row can be missing from the feed exactly when it is buried; some feed always exists. */
  lemma MissableIffBuried(s: Store, id: nat)
    requires Find(s.ring, id).None? && id in OpenRows(s)
    ensures (exists feed :: IsFeed(s, feed) && id !in feed) <==> Buried(s, id)
  {
    if feed :| IsFeed(s, feed) && id !in feed {
      MissedIsBuried(s, id, feed);
    }
    if Buried(s, id) {
      SubsetSize(NoOlder(s, id), OpenRows(s));
      var feed := Newest(s, NoOlder(s, id), FEED_LIMIT);
      assert IsFeed(s, feed) && id !in feed;
    }
  }

  lemma MissedIsBuried(s: Store, id: nat, feed: set<nat>)
    requires id in OpenRows(s) && IsFeed(s, feed) && id !in feed
    ensures |NoOlder(s, id)| >= FEED_LIMIT
  {
    SubsetSize(feed, OpenRows(s));
    assert feed <= NoOlder(s, id);
    SubsetSize(feed, NoOlder(s, id));
  }

  lemma FeedExists(s: Store) returns (feed: set<nat>)
    ensures IsFeed(s, feed)
  {
    feed := Newest(s, OpenRows(s), if |OpenRows(s)| < FEED_LIMIT then |OpenRows(s)| else FEED_LIMIT);
  }

  predicate Tracked(s: Store, id: nat) {
    id in s.owner && ((s.owner[id] in s.ids && s.ids[s.owner[id]] == id) || s.saving == Some((s.owner[id], id)))
  }

  /** An open event the gate does not know to be its signature's. */
  predicate Forgotten(s: Store, id: nat) { id in s.owner && IsOpen(s, id) && !Tracked(s, id) }

  /** A forgotten event of the signature that stays open through the push of another one. */
  ghost predicate LeftBehind(s: Store, sig: string) {
    exists id :: id in s.owner && s.owner[id] == sig && Forgotten(s, id) && Outlasts(s, id)
  }

  lemma UniqueCopy(s: Store, id: nat)
    requires Shape(s) && Find(s.ring, id).Some?
    ensures forall e :: e in s.ring && e.id == id ==> e == Find(s.ring, id).value
  {
    forall e | e in s.ring && e.id == id ensures e == Find(s.ring, id).value {
      SameId(s.ring, s.nextId, e, Find(s.ring, id).value);
    }
  }

  /** The tracked event of a signature is open although the dedupe does not see it. */
  ghost predicate Unseen(s: Store, sig: string, reply: Reply) {
    sig in s.ids && (Stale(s, s.ids[sig]) || Missed(s, s.ids[sig], reply))
  }

  lemma UnseenIff(s: Store, sig: string, reply: Reply)
    requires Shape(s) && sig in s.ids && s.saving.None?
    ensures Unseen(s, sig, reply) <==> Outlasts(s, s.ids[sig]) && !StillOpen(s, s.ids[sig], reply)
  {
    var id := s.ids[sig];
    if Find(s.ring, id).Some? {
      UniqueCopy(s, id);
    }
    if e :| e in Kept(s.ring) && e.id == id && !e.resolved {
      assert e in s.ring;
    }
  }

  /**
   A check opens a second event exactly when it gets past the dedupe while the tracked event is stale or missed, or
   while a forgotten event of its signature is left behind.
   */
  lemma HazardIff(s: Store, sig: string, ts: int, reply: Reply)
    requires Inv(s)
    ensures Hazard(s, Check(sig, ts, reply))
       <==> !Suppressed(s, sig, reply) && (Unseen(s, sig, reply) || LeftBehind(s, sig))
  {
    if s.saving.None? && sig in s.ids {
      UnseenIff(s, sig, reply);
    }
    forall id | Outlasts(s, id) ensures IsOpen(s, id) {
      KeptOpen(s, id);
    }
    if !Suppressed(s, sig, reply) && Unseen(s, sig, reply) {
      assert s.owner[s.ids[sig]] == sig;
    }
  }

  /** A forgotten open event means that the tracked one, if any, is closed, so that only a failed read suppresses. */
  lemma LeftBehindIsUnsafe(s: Store, sig: string, reply: Reply)
    requires Inv(s) && s.saving.None? && LeftBehind(s, sig) && reply.Feed? && IsFeed(s, reply.ids)
    ensures !Suppressed(s, sig, reply)
  {
    var id :| id in s.owner && s.owner[id] == sig && Forgotten(s, id) && Outlasts(s, id);
    if sig in s.ids {
      var known := s.ids[sig];
      assert !IsOpen(s, known);
      assert known !in OpenRows(s);
    }
  }

  /**
   Whatever the storage answers, checking a signature keeps one open event exactly when its tracked event is neither
   stale nor buried and no forgotten event of it is left behind. All of this can be read off the state before the check.
   */
  lemma CheckIsSafeIff(s: Store, sig: string, ts: int)
    requires Inv(s) && s.saving.None?
    ensures (forall reply :: LegalReply(s, reply) ==> OneOpenPerSignature(Step(s, Check(sig, ts, reply))))
       <==> InSight(s, sig)
  {
    forall reply ensures OneOpenPerSignature(Step(s, Check(sig, ts, reply))) <==> !Hazard(s, Check(sig, ts, reply)) {
      StepKeepsOneOpenIff(s, Check(sig, ts, reply));
    }
    if InSight(s, sig) {
      forall reply | LegalReply(s, reply) ensures !Hazard(s, Check(sig, ts, reply)) {
        InSightIsSafe(s, sig, ts, reply);
      }
    } else {
      var reply := UnsafeReply(s, sig, ts);
      assert LegalReply(s, reply);
    }
  }

  /** Nothing in the store hides an open event of the signature from the gate's dedupe. */
  ghost predicate InSight(s: Store, sig: string) {
    && (sig in s.ids ==> !Stale(s, s.ids[sig]) && !Buried(s, s.ids[sig]))
    && !LeftBehind(s, sig)
  }

  lemma InSightIsSafe(s: Store, sig: string, ts: int, reply: Reply)
    requires Inv(s) && InSight(s, sig) && (Asked(s, sig) ==> LegalReply(s, reply))
    ensures !Hazard(s, Check(sig, ts, reply))
  {
    HazardIff(s, sig, ts, reply);
    if sig in s.ids && Missed(s, s.ids[sig], reply) {
      MissedIsBuried(s, s.ids[sig], reply.ids);
    }
  }

  lemma UnsafeReply(s: Store, sig: string, ts: int) returns (reply: Reply)
    requires Inv(s) && s.saving.None? && !InSight(s, sig)
    ensures LegalReply(s, reply) && Hazard(s, Check(sig, ts, reply))
  {
    var feed := FeedExists(s);
    reply := Feed(feed);
    if LeftBehind(s, sig) {
      LeftBehindIsUnsafe(s, sig, reply);
    } else if Buried(s, s.ids[sig]) {
      MissableIffBuried(s, s.ids[sig]);
      feed :| IsFeed(s, feed) && s.ids[sig] !in feed;
      reply := Feed(feed);
    } else {
      assert Find(s.ring, s.ids[sig]).Some?;
      UniqueCopy(s, s.ids[sig]);
    }
    HazardIff(s, sig, ts, reply);
  }

  // ---------------------------------------------------------------- how events become stale or forgotten

  /** The step resolves this event by recovery of its signature. */
  predicate Recovers(s: Store, a: Action, id: nat) {
    a.Recover? && s.saving.None? && a.lost in s.ids && s.ids[a.lost] == id
  }

  /** The step resolves this event, as a dismissal or as a recovery. */
  predicate Resolves(s: Store, a: Action, id: nat) { (a.Resolve? && a.id == id) || Recovers(s, a, id) }

  /** A dismissal that reaches an event whose save is in flight while the ring still holds it. */
  ghost predicate Races(s: Store, a: Action) {
    a.Resolve? && s.saving.Some? && s.saving.value.1 == a.id && HasCopy(s, a.id, false)
  }

  ghost predicate DismissedInFlight(s: Store) { s.saving.Some? && HasCopy(s, s.saving.value.1, true) }

  /** A ring copy that is not known to be stored, of an event whose row is there. */
  ghost predicate Phantom(s: Store, id: nat) { id in s.rows && exists e :: e in s.ring && e.id == id && !e.persisted }

  lemma ResolveCopies(s: Store, id: nat, fails: bool, e: Event)
    requires Shape(s) && e in ResolveEvent(s, id, fails).ring && e.resolved
    ensures HasCopy(s, e.id, true) || (e.id == id && ResolveOutcome(s, id, fails) == Resolved && HasCopy(s, id, false))
  {
    if ResolveOutcome(s, id, fails) == Resolved {
      MarkedFrom(s.ring, id, e);
    }
  }

  lemma FlipCopies(s: Store, id: nat, e: Event)
    requires e in Step(s, FlipCopy(id)).ring && e.resolved
    ensures HasCopy(s, e.id, true) || (e.id == id && id !in OpenRows(s) && !MemoryOnly(s, id))
  {
    if id !in OpenRows(s) && !MemoryOnly(s, id) {
      MarkedFrom(s.ring, id, e);
    }
  }

  lemma SaveCopies(s: Store, ok: bool, e: Event)
    requires e in Step(s, SaveDone(ok)).ring && e.resolved
    ensures HasCopy(s, e.id, true)
  {
    if s.saving.Some? && ok {
      PersistedFrom(s.ring, s.saving.value.1, e);
    }
  }

  lemma PushCopies(s: Store, a: Action, e: Event)
    requires Shape(s) && (a.ForeignPush? || a.Check?) && e in Step(s, a).ring && e.resolved
    ensures HasCopy(s, e.id, true)
  {
    PushKeepsOrder(s.ring, s.nextId);
  }

  lemma HousekeepingCopies(s: Store, a: Action, e: Event)
    requires (Housekeeping(a) || a.LateRow?) && e in Step(s, a).ring && e.resolved
    ensures HasCopy(s, e.id, true)
  {}

  /** Resolved ring copies after a step: they were resolved before, or the step resolved or flipped that event. */
  lemma ResolvedCopies(s: Store, a: Action, e: Event)
    requires Shape(s) && e in Step(s, a).ring && e.resolved
    ensures HasCopy(s, e.id, true)
            || (Resolves(s, a, e.id) && HasCopy(s, e.id, false)
                && exists fails :: ResolveOutcome(s, e.id, fails) == Resolved && a.fails == fails)
            || (a == FlipCopy(e.id) && e.id !in OpenRows(s) && !MemoryOnly(s, e.id))
  {
    match a
    case SaveDone(ok) => SaveCopies(s, ok, e);
    case Resolve(id, fails) => ResolveCopies(s, id, fails, e);
    case Recover(sig, fails) =>
      if s.saving.None? && sig in s.ids {
        ResolveCopies(s, s.ids[sig], fails, e);
      }
    case FlipCopy(id) => FlipCopies(s, id, e);
    case Check(_, _, _) => PushCopies(s, a, e);
    case ForeignPush => PushCopies(s, a, e);
    case _ => HousekeepingCopies(s, a, e);
  }

  /** A row that is open after a step was open before, or the step stored it. */
  lemma OpenRowOrigin(s: Store, a: Action, id: nat)
    requires id in OpenRows(Step(s, a))
    ensures id in OpenRows(s) || (Opens(s, a) == Some(id) && !a.Check?)
  {
    match a
    case Resolve(k, fails) =>
    case Recover(sig, fails) =>
    case _ =>
  }

  /** The row of an event whose ring copy a dismissal or recovery flipped stays open exactly if it was a phantom. */
  lemma ResolvedRow(s: Store, a: Action, id: nat)
    requires Shape(s) && Resolves(s, a, id) && HasCopy(s, id, false) && ResolveOutcome(s, id, a.fails) == Resolved
    ensures id in OpenRows(Step(s, a)) <==> id in OpenRows(s) && MemoryOnly(s, id)
    ensures HasCopy(Step(s, a), id, true)
  {
    ResolvedKeepsCopy(s, id);
    assert Step(s, a).ring == ResolveEvent(s, id, a.fails).ring && Step(s, a).rows == ResolveEvent(s, id, a.fails).rows;
  }

  lemma ResolvedKeepsCopy(s: Store, id: nat)
    requires HasCopy(s, id, false)
    ensures exists e :: e in MarkResolved(s.ring, id) && e.id == id && e.resolved
  {
    var e :| e in s.ring && e.id == id;
    var i :| 0 <= i < |s.ring| && s.ring[i] == e;
    assert MarkResolved(s.ring, id)[i] in MarkResolved(s.ring, id);
  }

  lemma PersistedKeepsCopy(s: Store, id: nat)
    requires HasCopy(s, id, true)
    ensures exists e :: e in MarkPersisted(s.ring, id) && e.id == id && e.resolved
  {
    var e :| e in s.ring && e.id == id && e.resolved;
    var i :| 0 <= i < |s.ring| && s.ring[i] == e;
    assert MarkPersisted(s.ring, id)[i] in MarkPersisted(s.ring, id);
  }

  /** The step stores the row of an event whose ring copy is already resolved. */
  ghost predicate StoresDismissed(s: Store, a: Action, id: nat) {
    Opens(s, a) == Some(id) && !a.Check? && HasCopy(s, id, true)
  }

  /** The step flips the ring copy of an event that is stored without the gate knowing, and leaves its row open. */
  ghost predicate FlipsPhantom(s: Store, a: Action, id: nat) {
    Resolves(s, a, id) && MemoryOnly(s, id) && id in OpenRows(s)
  }

  /** A step makes an event stale exactly by storing the row of a dismissed event, or by flipping a phantom. */
  lemma BecomesStaleIff(s: Store, a: Action, id: nat)
    requires Shape(s) && !Stale(s, id)
    ensures Stale(Step(s, a), id) <==> StoresDismissed(s, a, id) || FlipsPhantom(s, a, id)
  {
    if Stale(Step(s, a), id) {
      var e :| e in Step(s, a).ring && e.id == id && e.resolved;
      ResolvedCopies(s, a, e);
      OpenRowOrigin(s, a, id);
      if Resolves(s, a, id) && HasCopy(s, id, false) && ResolveOutcome(s, id, a.fails) == Resolved {
        ResolvedRow(s, a, id);
      }
    }
    if StoresDismissed(s, a, id) {
      PersistedKeepsCopy(s, id);
    }
    if FlipsPhantom(s, a, id) {
      assert HasCopy(s, id, false) by {
        assert Find(s.ring, id).value in s.ring;
      }
      ResolvedRow(s, a, id);
    }
  }

  lemma FoundUnpersisted(s: Store, id: nat)
    requires Shape(s) && s.saving.Some? && s.saving.value.1 == id && HasCopy(s, id, false)
    ensures MemoryOnly(s, id)
  {}

  /** An event becomes dismissed in flight only by a racing dismissal. */
  lemma BecomesDismissed(s: Store, a: Action)
    requires Shape(s) && DismissedInFlight(Step(s, a))
    ensures Step(s, a).saving == s.saving && (DismissedInFlight(s) || Races(s, a))
  {
    var s' := Step(s, a);
    var e :| e in s'.ring && e.id == s'.saving.value.1 && e.resolved;
    ResolvedCopies(s, a, e);
    SavingKept(s, a);
    CopyKept(s, a, e);
    if HasCopy(s, e.id, false) && s.saving == s'.saving {
      FoundUnpersisted(s, e.id);
    }
  }

  lemma SavingKept(s: Store, a: Action)
    requires Shape(s) && Step(s, a).saving.Some?
    ensures Step(s, a).saving == s.saving || (a.Check? && Step(s, a) == Emit(s, a.sig, a.ts))
    ensures Step(s, a).saving == s.saving || forall e :: e in s.ring ==> e.id != Step(s, a).saving.value.1
  {}

  /** Ring copies come from the ring, but for the event just pushed. */
  lemma CopyKept(s: Store, a: Action, e: Event)
    requires Shape(s) && e in Step(s, a).ring
    ensures HasCopy(s, e.id, false) || e.id == s.nextId
  {
    match a
    case SaveDone(ok) =>
      if s.saving.Some? && ok {
        PersistedFrom(s.ring, s.saving.value.1, e);
      }
    case Resolve(id, fails) =>
      if ResolveOutcome(s, id, fails) == Resolved {
        MarkedFrom(s.ring, id, e);
      }
    case Recover(sig, fails) =>
      if s.saving.None? && sig in s.ids && ResolveOutcome(s, s.ids[sig], fails) == Resolved {
        MarkedFrom(s.ring, s.ids[sig], e);
      }
    case FlipCopy(id) =>
      if id !in OpenRows(s) && !MemoryOnly(s, id) {
        MarkedFrom(s.ring, id, e);
      }
    case Check(_, _, _) => PushKeepsOrder(s.ring, s.nextId);
    case ForeignPush => PushKeepsOrder(s.ring, s.nextId);
    case _ =>
  }

  /** An unpersisted ring copy was unpersisted before, unless it was just pushed; a reported save persists it. */
  lemma UnpersistedKept(s: Store, a: Action, e: Event)
    requires Shape(s) && e in Step(s, a).ring && !e.persisted && e.id != s.nextId
    ensures exists e0 :: e0 in s.ring && e0.id == e.id && !e0.persisted
    ensures a == SaveDone(true) && s.saving.Some? ==> e.id != s.saving.value.1
  {
    match a
    case SaveDone(ok) =>
      if s.saving.Some? && ok {
        PersistedFrom(s.ring, s.saving.value.1, e);
      }
    case Resolve(id, fails) =>
      if ResolveOutcome(s, id, fails) == Resolved {
        MarkedFrom(s.ring, id, e);
      }
    case Recover(sig, fails) =>
      if s.saving.None? && sig in s.ids && ResolveOutcome(s, s.ids[sig], fails) == Resolved {
        MarkedFrom(s.ring, s.ids[sig], e);
      }
    case FlipCopy(id) =>
      if id !in OpenRows(s) && !MemoryOnly(s, id) {
        MarkedFrom(s.ring, id, e);
      }
    case Check(_, _, _) => PushKeepsOrder(s.ring, s.nextId);
    case ForeignPush => PushKeepsOrder(s.ring, s.nextId);
    case _ =>
  }

  lemma RowOrigin(s: Store, a: Action, id: nat)
    requires id in Step(s, a).rows
    ensures id in s.rows || a == LateRow(id) || (a == SaveDone(true) && s.saving.Some? && s.saving.value.1 == id)
  {
    match a
    case Resolve(k, fails) =>
    case Recover(sig, fails) =>
    case _ =>
  }

  /** An event becomes a phantom only when the row of its lost save is stored after all. */
  lemma BecomesPhantom(s: Store, a: Action, id: nat)
    requires Shape(s) && Phantom(Step(s, a), id)
    ensures Phantom(s, id) || (a == LateRow(id) && id in s.unsettled)
  {
    var e :| e in Step(s, a).ring && e.id == id && !e.persisted;
    RowOrigin(s, a, id);
    UnpersistedKept(s, a, e);
  }

  /** What drops the id of an event that stays open: losing all ids, or recovering a phantom. */
  ghost predicate DropsOpen(s: Store, a: Action, id: nat) {
    && Tracked(s, id)
    && ((a.Forget? && s.saving.None?) || a.Restart? || (Recovers(s, a, id) && MemoryOnly(s, id)))
    && IsOpen(Step(s, a), id)
  }

  /**
   A step makes an event forgotten exactly when it drops the id of an event that stays open (removal of the connection,
   a restart, or the recovery of a phantom), or stores the late row of an event the gate no longer tracks.
   */
  lemma BecomesForgottenIff(s: Store, a: Action, id: nat)
    requires Inv(s) && !Hazard(s, a) && !Forgotten(s, id)
    ensures Forgotten(Step(s, a), id)
            <==> DropsOpen(s, a, id) || (a == LateRow(id) && id in s.unsettled && !Tracked(s, id))
  {
    OwnersKept(s, a);
    if Forgotten(Step(s, a), id) {
      ForgottenOrigin(s, a, id);
    }
    if a.Forget? || a.Restart? {
      assert DropsOpen(s, a, id) ==> Forgotten(Step(s, a), id);
    } else if DropsOpen(s, a, id) {
      assert a.lost == s.owner[id];
    }
  }

  lemma RecoveredClosed(s: Store, id: nat, fails: bool)
    requires Shape(s) && ResolveOutcome(s, id, fails) != Retry && !MemoryOnly(s, id)
    ensures !IsOpen(ResolveEvent(s, id, fails), id)
  {
    if e :| e in ResolveEvent(s, id, fails).ring && e.id == id && !e.resolved {
      if ResolveOutcome(s, id, fails) == Resolved {
        FlippedCloses(s.ring, id, e);
      }
    }
  }

  /** An emission forgets no event that stays open: the ids it drops belong to its own signature. */
  lemma EmissionForgetsNothing(s: Store, sig: string, ts: int, reply: Reply, id: nat)
    requires Inv(s) && !Suppressed(s, sig, reply) && !Hazard(s, Check(sig, ts, reply)) && !Forgotten(s, id)
    ensures !Forgotten(Emit(s, sig, ts), id)
  {
    EmitOpens(s, sig, ts, id);
    if id in s.owner && Outlasts(s, id) {
      KeptOpen(s, id);
    }
  }

  lemma StoringForgets(s: Store, a: Action, id: nat)
    requires Shape(s) && (a.SaveDone? || a.LateRow?) && !Forgotten(s, id) && Forgotten(Step(s, a), id)
    ensures a == LateRow(id) && id in s.unsettled && !Tracked(s, id)
  {
    if Opens(s, a).Some? {
      OpensExactly(s, a, id);
    } else {
      NothingOpens(s, a, id);
    }
  }

  lemma RecoveryForgets(s: Store, a: Action, id: nat)
    requires Shape(s) && a.Recover? && !Forgotten(s, id) && Forgotten(Step(s, a), id)
    ensures Tracked(s, id) && Recovers(s, a, id) && MemoryOnly(s, id)
  {
    NothingOpens(s, a, id);
    if Recovers(s, a, id) && !MemoryOnly(s, id) && ResolveOutcome(s, id, a.fails) != Retry {
      RecoveredClosed(s, id, a.fails);
    }
  }

  lemma ForgottenOrigin(s: Store, a: Action, id: nat)
    requires Inv(s) && !Hazard(s, a) && !Forgotten(s, id) && Forgotten(Step(s, a), id)
    ensures DropsOpen(s, a, id) || (a == LateRow(id) && id in s.unsettled && !Tracked(s, id))
  {
    OwnersKept(s, a);
    match a
    case Check(sig, ts, reply) =>
      if !Suppressed(s, sig, reply) {
        EmissionForgetsNothing(s, sig, ts, reply, id);
      }
    case SaveDone(_) => StoringForgets(s, a, id);
    case LateRow(_) => StoringForgets(s, a, id);
    case Recover(_, _) => RecoveryForgets(s, a, id);
    case _ => NothingOpens(s, a, id);
  }

  // ---------------------------------------------------------------- causes in a run

  ghost predicate RacedAt(actions: seq<Action>, i: nat, id: nat)
    requires i < |actions|
  {
    Races(Run(EMPTY, actions[..i]), actions[i]) && actions[i].id == id
  }

  ghost predicate SavedAt(actions: seq<Action>, j: nat, id: nat)
    requires j < |actions|
  {
    var s := Run(EMPTY, actions[..j]);
    actions[j] == SaveDone(true) && s.saving.Some? && s.saving.value.1 == id
  }

  /** The row of the event's lost save was stored by step j. */
  ghost predicate LateAt(actions: seq<Action>, j: nat, id: nat)
    requires j < |actions|
  {
    actions[j] == LateRow(id) && id in Run(EMPTY, actions[..j]).unsettled
  }

  /** Step j lost all ids while the event was open. */
  ghost predicate LostAt(actions: seq<Action>, j: nat, id: nat)
    requires j < |actions|
  {
    (actions[j].Forget? || actions[j].Restart?) && IsOpen(Run(EMPTY, actions[..j + 1]), id)
  }

  lemma {:induction false} DismissalNeedsRace(actions: seq<Action>) returns (i: nat)
    requires DismissedInFlight(Run(EMPTY, actions))
    ensures i < |actions| && RacedAt(actions, i, Run(EMPTY, actions).saving.value.1)
  {
    var n := |actions| - 1;
    var before := actions[..n];
    RunKeepsShape(before);
    BecomesDismissed(Run(EMPTY, before), actions[n]);
    if DismissedInFlight(Run(EMPTY, before)) {
      i := DismissalNeedsRace(before);
      assert before[..i] == actions[..i];
    } else {
      i := n;
    }
  }

  lemma {:induction false} PhantomNeedsLateRow(actions: seq<Action>, id: nat) returns (j: nat)
    requires Phantom(Run(EMPTY, actions), id)
    ensures j < |actions| && LateAt(actions, j, id)
  {
    var n := |actions| - 1;
    var before := actions[..n];
    RunKeepsShape(before);
    BecomesPhantom(Run(EMPTY, before), actions[n], id);
    if Phantom(Run(EMPTY, before), id) {
      j := PhantomNeedsLateRow(before, id);
      assert before[..j] == actions[..j];
    } else {
      j := n;
    }
  }

  ghost predicate LateRowOf(actions: seq<Action>, id: nat) { exists j :: 0 <= j < |actions| && LateAt(actions, j, id) }

  ghost predicate RacedSaveOf(actions: seq<Action>, id: nat) {
    exists i, j :: 0 <= i < j < |actions| && RacedAt(actions, i, id) && SavedAt(actions, j, id)
  }

  lemma CausesExtend(actions: seq<Action>, n: nat, id: nat)
    requires n <= |actions|
    ensures LateRowOf(actions[..n], id) ==> LateRowOf(actions, id)
    ensures RacedSaveOf(actions[..n], id) ==> RacedSaveOf(actions, id)
  {
    var before := actions[..n];
    if j :| 0 <= j < |before| && LateAt(before, j, id) {
      assert before[..j] == actions[..j] && LateAt(actions, j, id);
    }
    if i, j :| 0 <= i < j < |before| && RacedAt(before, i, id) && SavedAt(before, j, id) {
      assert before[..i] == actions[..i] && RacedAt(actions, i, id);
      assert before[..j] == actions[..j] && SavedAt(actions, j, id);
    }
  }

  /**
   In a run an event is stale only if a dismissal reached it while its save was in flight and the save succeeded, or if
   the row of its lost save was stored after all.
   */
  lemma {:induction false} StaleNeedsCause(actions: seq<Action>, id: nat)
    requires Stale(Run(EMPTY, actions), id)
    ensures RacedSaveOf(actions, id) || LateRowOf(actions, id)
  {
    var n := |actions| - 1;
    var before, a := actions[..n], actions[n];
    var s := Run(EMPTY, before);
    RunKeepsShape(before);
    CausesExtend(actions, n, id);
    if Stale(s, id) {
      StaleNeedsCause(before, id);
    } else {
      BecomesStaleIff(s, a, id);
      if a == SaveDone(true) {
        var i := DismissalNeedsRace(before);
        assert before[..i] == actions[..i] && RacedAt(actions, i, id) && SavedAt(actions, n, id);
      } else if a.LateRow? {
        assert LateAt(actions, n, id);
      } else {
        var j := PhantomNeedsLateRow(before, id);
      }
    }
  }

  /**
   In a hazard-free run an event is forgotten only if all ids were lost while it was open (removal of the connection or
   restart), or if the row of its lost save was stored after all.
   */
  lemma {:induction false} ForgottenNeedsCause(actions: seq<Action>, id: nat)
    requires NoHazard(actions) && Forgotten(Run(EMPTY, actions), id)
    ensures (exists j :: 0 <= j < |actions| && LostAt(actions, j, id)) || LateRowOf(actions, id)
  {
    var n := |actions| - 1;
    var before, a := actions[..n], actions[n];
    var s := Run(EMPTY, before);
    HazardFreePrefix(actions, n);
    HazardFreeRunKeepsInv(before);
    CausesExtend(actions, n, id);
    if Forgotten(s, id) {
      ForgottenNeedsCause(before, id);
      if j :| 0 <= j < |before| && LostAt(before, j, id) {
        assert before[..j + 1] == actions[..j + 1] && LostAt(actions, j, id);
      }
    } else {
      assert !HazardAt(actions, n);
      BecomesForgottenIff(s, a, id);
      if a.Forget? || a.Restart? {
        assert actions[..n + 1] == actions && LostAt(actions, n, id);
      } else if a.LateRow? {
        assert LateAt(actions, n, id);
      } else {
        var j := PhantomNeedsLateRow(before, id);
      }
    }
  }

  // ---------------------------------------------------------------- runs that meet none of it

  /** The lookup of check n was answered in the state after m actions, and nothing was opened in between. */
  ghost predicate ReadAt(actions: seq<Action>, m: nat, n: nat)
    requires m <= n < |actions| && actions[n].Check?
  {
    var asked, sig := Run(EMPTY, actions[..m]), actions[n].sig;
    && (forall k :: m <= k < n ==> Opens(Run(EMPTY, actions[..k]), actions[k]).None?)
    && Asked(asked, sig) && sig in Run(EMPTY, actions[..n]).ids && asked.ids[sig] == Run(EMPTY, actions[..n]).ids[sig]
    && LegalReply(asked, actions[n].reply) && !Buried(asked, asked.ids[sig])
  }

  /**
   No racing dismissal, no late row, no loss of ids while an event is open; and a check that asks the storage got a
   legal answer at a moment its event was not buried.
   */
  ghost predicate Careful(actions: seq<Action>, n: nat)
    requires n < |actions|
  {
    var s, a := Run(EMPTY, actions[..n]), actions[n];
    && !Races(s, a) && !(a.LateRow? && a.late in s.unsettled)
    && (a.Forget? || a.Restart? ==> forall id :: id in s.owner ==> !IsOpen(Step(s, a), id))
    && (a.Check? && Asked(s, a.sig) ==> exists m :: 0 <= m <= n && ReadAt(actions, m, n))
  }

  ghost predicate Tidy(s: Store) {
    Inv(s) && !DismissedInFlight(s) && forall id :: !Stale(s, id) && !Forgotten(s, id) && !Phantom(s, id)
  }

  lemma OpenRowsStep(s: Store, a: Action)
    requires Opens(s, a).None?
    ensures OpenRows(Step(s, a)) <= OpenRows(s)
  {
    forall id | id in OpenRows(Step(s, a)) ensures id in OpenRows(s) {
      OpenRowOrigin(s, a, id);
    }
  }

  lemma {:induction false} OpenRowsShrink(actions: seq<Action>, m: nat, n: nat)
    requires m <= n <= |actions| && forall k :: m <= k < n ==> Opens(Run(EMPTY, actions[..k]), actions[k]).None?
    ensures OpenRows(Run(EMPTY, actions[..n])) <= OpenRows(Run(EMPTY, actions[..m]))
    decreases n
  {
    if m < n {
      OpenRowsShrink(actions, m, n - 1);
      assert actions[..n][..n - 1] == actions[..n - 1];
      OpenRowsStep(Run(EMPTY, actions[..n - 1]), actions[n - 1]);
    }
  }

  lemma ReadIsNotMissed(actions: seq<Action>, m: nat, n: nat)
    requires m <= n < |actions| && actions[n].Check? && ReadAt(actions, m, n)
    ensures !Missed(Run(EMPTY, actions[..n]), Run(EMPTY, actions[..n]).ids[actions[n].sig], actions[n].reply)
  {
    var asked, s := Run(EMPTY, actions[..m]), Run(EMPTY, actions[..n]);
    var id := s.ids[actions[n].sig];
    OpenRowsShrink(actions, m, n);
    if Missed(s, id, actions[n].reply) {
      MissedIsBuried(asked, id, actions[n].reply.ids);
    }
  }

  lemma SaveIsSafe(s: Store)
    requires Inv(s) && forall id :: !Forgotten(s, id)
    ensures !Hazard(s, SaveDone(true))
  {
    forall id | id in s.owner && s.saving.Some? && s.owner[id] == s.saving.value.0 && IsOpen(s, id)
      ensures id == s.saving.value.1
    {
      assert !Forgotten(s, id);
    }
  }

  lemma CarefulIsSafe(actions: seq<Action>, n: nat)
    requires n < |actions| && Tidy(Run(EMPTY, actions[..n])) && Careful(actions, n)
    ensures !Hazard(Run(EMPTY, actions[..n]), actions[n])
  {
    var s, a := Run(EMPTY, actions[..n]), actions[n];
    if a.Check? {
      HazardIff(s, a.sig, a.ts, a.reply);
      if Asked(s, a.sig) {
        var m :| 0 <= m <= n && ReadAt(actions, m, n);
        ReadIsNotMissed(actions, m, n);
      }
    } else if a == SaveDone(true) {
      SaveIsSafe(s);
    }
  }

  lemma CarefulStep(actions: seq<Action>, n: nat)
    requires n < |actions| && Tidy(Run(EMPTY, actions[..n])) && Careful(actions, n)
    ensures Tidy(Step(Run(EMPTY, actions[..n]), actions[n]))
  {
    var s, a := Run(EMPTY, actions[..n]), actions[n];
    CarefulIsSafe(actions, n);
    SafeStepKeepsInv(s, a);
    if DismissedInFlight(Step(s, a)) {
      BecomesDismissed(s, a);
    }
    forall id ensures !Stale(Step(s, a), id) && !Forgotten(Step(s, a), id) && !Phantom(Step(s, a), id) {
      StaysTidy(s, a, id);
    }
  }

  lemma StaysTidy(s: Store, a: Action, id: nat)
    requires Tidy(s) && !Hazard(s, a) && !Races(s, a) && !(a.LateRow? && a.late in s.unsettled)
    requires a.Forget? || a.Restart? ==> forall id :: id in s.owner ==> !IsOpen(Step(s, a), id)
    ensures !Stale(Step(s, a), id) && !Forgotten(Step(s, a), id) && !Phantom(Step(s, a), id)
  {
    BecomesStaleIff(s, a, id);
    BecomesForgottenIff(s, a, id);
    if Phantom(Step(s, a), id) {
      BecomesPhantom(s, a, id);
    }
    if id in s.rows {
      NotPhantom(s, id);
    }
  }

  lemma NotPhantom(s: Store, id: nat)
    requires !Phantom(s, id) && id in s.rows
    ensures !MemoryOnly(s, id)
  {}

  /** A careful run has at most one open event per signature in every state. */
  lemma {:induction false} AtMostOneOpenEvent(actions: seq<Action>)
    requires forall n :: 0 <= n < |actions| ==> Careful(actions, n)
    ensures Tidy(Run(EMPTY, actions)) && OneOpenPerSignature(Run(EMPTY, actions))
  {
    if actions != [] {
      var n := |actions| - 1;
      forall k | 0 <= k < n ensures Careful(actions[..n], k) {
        CarefulPrefix(actions, n, k);
      }
      AtMostOneOpenEvent(actions[..n]);
      CarefulStep(actions, n);
    }
  }

  lemma ReadPrefix(actions: seq<Action>, n: nat, m: nat, k: nat)
    requires m <= k < n <= |actions| && actions[k].Check? && ReadAt(actions, m, k)
    ensures ReadAt(actions[..n], m, k)
  {
    var before := actions[..n];
    assert before[..k] == actions[..k] && before[..m] == actions[..m];
    forall i | m <= i < k ensures Opens(Run(EMPTY, before[..i]), before[i]).None? {
      assert before[..i] == actions[..i];
    }
  }

  lemma CarefulPrefix(actions: seq<Action>, n: nat, k: nat)
    requires k < n <= |actions| && Careful(actions, k)
    ensures Careful(actions[..n], k)
  {
    var before := actions[..n];
    assert before[..k] == actions[..k] && before[k] == actions[k];
    if m :| 0 <= m <= k && actions[k].Check? && ReadAt(actions, m, k) {
      ReadPrefix(actions, n, m, k);
    }
  }

  // ---------------------------------------------------------------- all of it is reached

  lemma RunSnoc(s: Store, actions: seq<Action>, a: Action)
    ensures Run(s, actions + [a]) == Step(Run(s, actions), a)
  {
    assert (actions + [a])[..|actions|] == actions;
  }

  /** Emit, dismiss while the save is in flight, complete the save, check again. */
  function RacedRun(sig: string): seq<Action> {
    [Check(sig, 0, ReadFailed)] + [Resolve(0, false)] + [SaveDone(true)] + [Check(sig, 1, ReadFailed)]
  }

  /** A dismissal that lands on an event being saved ends in two open events: its row, and the re-emitted one. */
  lemma RacedDismissalDoublesUp(sig: string)
    ensures var s := Run(EMPTY, RacedRun(sig));
            && s.owner == map[0 := sig, 1 := sig] && IsOpen(s, 0) && IsOpen(s, 1) && !OneOpenPerSignature(s)
  {
    var a1, a2, a3, a4 := Check(sig, 0, ReadFailed), Resolve(0, false), SaveDone(true), Check(sig, 1, ReadFailed);
    RunSnoc(EMPTY, [], a1);
    assert [] + [a1] == [a1];
    RunSnoc(EMPTY, [a1], a2);
    RunSnoc(EMPTY, [a1] + [a2], a3);
    RunSnoc(EMPTY, [a1] + [a2] + [a3], a4);
    var s1 := Emit(EMPTY, sig, 0);
    assert s1.ring == [Event(0, false, false)];
    var s2 := Step(s1, a2);
    assert s2.ring == [Event(0, true, false)];
    var s3 := Step(s2, a3);
    assert s3.ring == [Event(0, true, true)];
    var s4 := Step(s3, a4);
    assert s4.ring == [Event(0, true, true), Event(1, false, false)];
    assert s4.ring[1] in s4.ring;
    assert s4.owner[0] == s4.owner[1];
  }

  /** Emit and save, lose all ids, check again. */
  function ForgottenRun(sig: string, loss: Action): seq<Action> {
    [Check(sig, 0, ReadFailed)] + [SaveDone(true)] + [loss] + [Check(sig, 1, ReadFailed)]
  }

  /** After the removal of the connection or a restart an open event is emitted a second time. */
  lemma LostIdsDoubleUp(sig: string, loss: Action)
    requires loss.Forget? || loss.Restart?
    ensures var s := Run(EMPTY, ForgottenRun(sig, loss));
            && s.owner == map[0 := sig, 1 := sig] && IsOpen(s, 0) && IsOpen(s, 1) && !OneOpenPerSignature(s)
  {
    var a1, a2, a4 := Check(sig, 0, ReadFailed), SaveDone(true), Check(sig, 1, ReadFailed);
    RunSnoc(EMPTY, [], a1);
    assert [] + [a1] == [a1];
    RunSnoc(EMPTY, [a1], a2);
    RunSnoc(EMPTY, [a1] + [a2], loss);
    RunSnoc(EMPTY, [a1] + [a2] + [loss], a4);
    var s1 := Emit(EMPTY, sig, 0);
    assert s1.ring == [Event(0, false, false)];
    var s3 := Step(Step(s1, a2), loss);
    assert s3.rows == map[0 := false] && s3.ids == map[] && s3.nextId == 1;
    var s4 := Step(s3, a4);
    assert s4.ring[|s4.ring| - 1] == Event(1, false, false);
    assert s4.ring[|s4.ring| - 1] in s4.ring;
    assert s4.owner[0] == s4.owner[1] && 0 in OpenRows(s4);
  }

  /** Emit, report the save lost, store its row after all, dismiss the ring copy, check again. */
  function LateRun(sig: string): seq<Action> {
    [Check(sig, 0, ReadFailed)] + [SaveDone(false)] + [LateRow(0)] + [Resolve(0, false)] + [Check(sig, 1, ReadFailed)]
  }

  /** A dismissal of an event whose save was wrongly reported lost leaves its row open, and it is emitted again. */
  lemma LateRowDoublesUp(sig: string)
    ensures var s := Run(EMPTY, LateRun(sig));
            && s.owner == map[0 := sig, 1 := sig] && IsOpen(s, 0) && IsOpen(s, 1) && !OneOpenPerSignature(s)
  {
    var a1, a2, a3, a4, a5 :=
      Check(sig, 0, ReadFailed), SaveDone(false), LateRow(0), Resolve(0, false), Check(sig, 1, ReadFailed);
    RunSnoc(EMPTY, [], a1);
    assert [] + [a1] == [a1];
    RunSnoc(EMPTY, [a1], a2);
    RunSnoc(EMPTY, [a1] + [a2], a3);
    RunSnoc(EMPTY, [a1] + [a2] + [a3], a4);
    RunSnoc(EMPTY, [a1] + [a2] + [a3] + [a4], a5);
    var s1 := Emit(EMPTY, sig, 0);
    assert s1.ring == [Event(0, false, false)];
    var s3 := Step(Step(s1, a2), a3);
    assert s3.ring == s1.ring && s3.rows == map[0 := false] && s3.ids == map[sig := 0];
    var s4 := Step(s3, a4);
    assert s4.ring == [Event(0, true, false)] && s4.rows == s3.rows;
    var s5 := Step(s4, a5);
    assert s5.ring == [Event(0, true, false), Event(1, false, false)];
    assert s5.ring[1] in s5.ring;
    assert s5.owner[0] == s5.owner[1] && 0 in OpenRows(s5);
  }

  function Name(i: nat): string { seq(i, _ => 's') }

  /** One poll at time 0 that emits and saves n findings. */
  function Filling(n: nat): seq<Action> {
    if n == 0 then [] else Filling(n - 1) + [Check(Name(n - 1), 0, ReadFailed)] + [SaveDone(true)]
  }

  function Pushing(n: nat): seq<Action> { if n == 0 then [] else Pushing(n - 1) + [ForeignPush] }

  /** The state after that poll. */
  ghost predicate Filled(s: Store, n: nat) {
    && s.nextId == n && s.saving == None
    && |s.ring| == n && (forall i :: 0 <= i < n ==> s.ring[i] == Event(i, false, true))
    && (forall id: nat :: id < n ==> id in s.rows && !s.rows[id] && StampOf(s, id) == 0)
    && (forall id: nat :: id < n ==> id in s.owner && s.owner[id] == Name(id))
    && (forall id: nat :: id < n ==> Name(id) in s.ids && s.ids[Name(id)] == id)
    && (forall id :: id in s.rows ==> id < n)
    && (forall sig :: sig in s.ids ==> exists i: nat :: i < n && sig == Name(i))
  }

  lemma {:induction false} FillingFills(n: nat)
    requires n <= RING_MAX
    ensures Filled(Run(EMPTY, Filling(n)), n)
  {
    if n > 0 {
      FillingFills(n - 1);
      RunSnoc(EMPTY, Filling(n - 1), Check(Name(n - 1), 0, ReadFailed));
      RunSnoc(EMPTY, Filling(n - 1) + [Check(Name(n - 1), 0, ReadFailed)], SaveDone(true));
      FillOne(Run(EMPTY, Filling(n - 1)), n - 1, Name(n - 1));
    }
  }

  lemma NamesDiffer(n: nat)
    ensures forall i: nat :: Name(i) == Name(n) ==> i == n
  {
    forall i: nat | Name(i) == Name(n) ensures i == n {
      assert |Name(i)| == i && |Name(n)| == n;
    }
  }

  lemma FillOne(s: Store, n: nat, sig: string)
    requires Filled(s, n) && n < RING_MAX && sig == Name(n)
    ensures Filled(Step(Step(s, Check(sig, 0, ReadFailed)), SaveDone(true)), n + 1)
  {
    NamesDiffer(n);
    assert sig !in s.ids;
    var s1 := Step(s, Check(sig, 0, ReadFailed));
    assert s1 == Emit(s, sig, 0);
    assert s1.ring == s.ring + [Event(n, false, false)];
    var s2 := Step(s1, SaveDone(true));
    assert s2 == Settle(s1, sig, n, true);
    forall i | 0 <= i <= n ensures s2.ring[i] == Event(i, false, true) {
      assert i < n ==> s1.ring[i] == s.ring[i];
    }
  }

  /** The ring holds the newest events of the `next` emitted so far, up to its capacity. */
  ghost predicate HoldsNewest(ring: seq<Event>, next: nat) {
    && |ring| == (if next < RING_MAX then next else RING_MAX)
    && forall i :: 0 <= i < |ring| ==> ring[i].id == next - |ring| + i
  }

  lemma PushKeepsNewest(ring: seq<Event>, next: nat)
    requires HoldsNewest(ring, next)
    ensures HoldsNewest(Push(ring, Event(next, false, false)), next + 1)
  {}

  ghost predicate Pushed(s: Store, s': Store, m: nat) {
    s' == s.(ring := s'.ring, nextId := s.nextId + m) && HoldsNewest(s'.ring, s'.nextId)
  }

  lemma {:induction false} PushingPushes(s: Store, m: nat)
    requires HoldsNewest(s.ring, s.nextId)
    ensures Pushed(s, Run(s, Pushing(m)), m)
  {
    if m > 0 {
      PushingPushes(s, m - 1);
      RunSnoc(s, Pushing(m - 1), ForeignPush);
      var before := Run(s, Pushing(m - 1));
      PushKeepsNewest(before.ring, before.nextId);
    }
  }

  lemma {:induction false} RunConcat(s: Store, a: seq<Action>, b: seq<Action>)
    ensures Run(s, a + b) == Run(Run(s, a), b)
    decreases |b|
  {
    if b == [] {
      assert a + b == a;
    } else {
      assert (a + b)[..|a + b| - 1] == a + b[..|b| - 1];
      RunConcat(s, a, b[..|b| - 1]);
    }
  }

  lemma {:induction false} CountBelow(ids: set<nat>, n: nat)
    requires forall i: nat :: i in ids <==> i < n
    ensures |ids| == n
  {
    if n == 0 {
      assert ids == {};
    } else {
      CountBelow(ids - {n - 1}, n - 1);
    }
  }

  /** Every row the storage holds is open and equally old, and none of them is in the ring. */
  lemma PushedOut(s: Store, s': Store, n: nat, k: nat)
    requires Filled(s, n) && Pushed(s, s', RING_MAX) && k < n && n > FEED_LIMIT
    ensures Buried(s', k) && forall j :: j in OpenRows(s') ==> StampOf(s', j) == StampOf(s', k)
    ensures Name(k) in s'.ids && s'.ids[Name(k)] == k && k in s'.owner && s'.owner[k] == Name(k)
    ensures s'.saving.None? && k < s'.nextId
  {
    forall j ensures StampOf(s', j) == StampOf(s, j) {
    }
    CountBelow(OpenRows(s'), n);
    assert NoOlder(s', k) == OpenRows(s') - {k};
  }

  lemma MissedReEmits(s: Store, sig: string, ts: int, reply: Reply)
    requires s.saving.None? && sig in s.ids && Missed(s, s.ids[sig], reply)
    requires s.ids[sig] in s.owner && s.owner[s.ids[sig]] == sig && s.ids[sig] < s.nextId
    ensures var s', id := Step(s, Check(sig, ts, reply)), s.ids[sig];
            && id in s'.owner && s.nextId in s'.owner && s'.owner[id] == s'.owner[s.nextId] == sig && id != s.nextId
            && IsOpen(s', id) && IsOpen(s', s.nextId)
  {
    var s' := Step(s, Check(sig, ts, reply));
    assert s'.ring[|s'.ring| - 1] == Event(s.nextId, false, false);
    assert s'.ring[|s'.ring| - 1] in s'.ring;
  }

  /**
   One poll emits more than a hundred findings and a thousand later pushes evict them. All their rows are equally old,
   so the storage may leave any one of them out of its feed, and the next check of that finding opens a second event.
   */
  lemma BuriedEventDoublesUp(n: nat, k: nat) returns (feed: set<nat>)
    requires FEED_LIMIT < n <= RING_MAX && k < n
    ensures var before := Run(EMPTY, Filling(n) + Pushing(RING_MAX));
            && Buried(before, k) && IsFeed(before, feed)
            && forall j :: j in OpenRows(before) ==> StampOf(before, j) == StampOf(before, k)
    ensures !OneOpenPerSignature(Run(EMPTY, Filling(n) + Pushing(RING_MAX) + [Check(Name(k), 1, Feed(feed))]))
  {
    FillingFills(n);
    RunConcat(EMPTY, Filling(n), Pushing(RING_MAX));
    PushingPushes(Run(EMPTY, Filling(n)), RING_MAX);
    var before := Run(EMPTY, Filling(n) + Pushing(RING_MAX));
    PushedOut(Run(EMPTY, Filling(n)), before, n, k);
    MissableIffBuried(before, k);
    feed :| IsFeed(before, feed) && k !in feed;
    RunSnoc(EMPTY, Filling(n) + Pushing(RING_MAX), Check(Name(k), 1, Feed(feed)));
    MissedReEmits(before, Name(k), 1, Feed(feed));
  }
}

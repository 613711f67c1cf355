/** What a tracked poll closes and what it leaves open, read off its findings. */
module GateRecovery {
  import opened Prelude
  import opened EventStore
  import opened EventHazards
  import opened PersistenceGate

  // ---------------------------------------------------------------- one event through the steps of a poll

  /**
   The event has the same owner and the same row in both stores, and its ring copy is unchanged or evicted; it is not
   evicted by `pushes` pushes that the ring has room for.
   */
  ghost predicate Carried(s: Store, s': Store, id: nat, pushes: nat) {
    && id in s.owner && id in s'.owner && s'.owner[id] == s.owner[id]
    && (id in s'.rows <==> id in s.rows) && (id in s.rows ==> s'.rows[id] == s.rows[id])
    && (Find(s'.ring, id) == Find(s.ring, id) || Find(s'.ring, id) == None)
    && (|s.ring| + pushes <= RING_MAX ==>
          Find(s'.ring, id) == Find(s.ring, id) && |s'.ring| <= |s.ring| + pushes)
  }

  lemma CarriedOn(s: Store, t: Store, u: Store, id: nat, m: nat, n: nat)
    requires Carried(s, t, id, m) && Carried(t, u, id, n)
    ensures Carried(s, u, id, m + n)
  {}

  lemma {:induction false} FindConcat(a: seq<Event>, b: seq<Event>, id: nat)
    ensures Find(a + b, id) == if Find(a, id).Some? then Find(a, id) else Find(b, id)
  {
    if a == [] {
      assert a + b == b;
    } else {
      assert (a + b)[1..] == a[1..] + b;
      FindConcat(a[1..], b, id);
    }
  }

  lemma FindPushed(ring: seq<Event>, e: Event, bound: nat, id: nat)
    requires RingOrdered(ring, bound) && id != e.id
    ensures Find(Push(ring, e), id) == Find(ring, id) || Find(Push(ring, e), id) == None
    ensures |ring| < RING_MAX ==> Find(Push(ring, e), id) == Find(ring, id) && |Push(ring, e)| == |ring| + 1
  {
    PushIsKept(ring, e);
    FindConcat(Kept(ring), [e], id);
    var gone := ring[..|ring| - |Kept(ring)|];
    assert gone + Kept(ring) == ring;
    FindConcat(gone, Kept(ring), id);
    if Find(gone, id).Some? {
      NotTwice(gone, Kept(ring), bound, id);
    }
  }

  lemma NotTwice(a: seq<Event>, b: seq<Event>, bound: nat, id: nat)
    requires RingOrdered(a + b, bound) && Find(a, id).Some?
    ensures Find(b, id).None?
  {
    var i: nat :| i < |a| && a[i] == Find(a, id).value;
    forall j | 0 <= j < |b| ensures b[j].id != id {
      assert (a + b)[i] == a[i] && (a + b)[|a| + j] == b[j];
    }
  }

  lemma {:induction false} FindPersisted(ring: seq<Event>, saved: nat, id: nat)
    requires id != saved
    ensures Find(MarkPersisted(ring, saved), id) == Find(ring, id)
  {
    if ring != [] {
      assert MarkPersisted(ring, saved)[1..] == MarkPersisted(ring[1..], saved);
      FindPersisted(ring[1..], saved, id);
    }
  }

  lemma {:induction false} FindResolved(ring: seq<Event>, closed: nat, id: nat)
    ensures id != closed ==> Find(MarkResolved(ring, closed), id) == Find(ring, id)
    ensures id == closed && Find(ring, id).Some? ==>
              Find(MarkResolved(ring, closed), id) == Some(Find(ring, id).value.(resolved := true))
    ensures id == closed && Find(ring, id).None? ==> Find(MarkResolved(ring, closed), id) == None
  {
    if ring != [] {
      assert MarkResolved(ring, closed)[1..] == MarkResolved(ring[1..], closed);
      FindResolved(ring[1..], closed, id);
    }
  }

  /** An event is open exactly when its row is, or when its ring copy is unresolved. */
  lemma OpenIff(s: Store, id: nat)
    requires Shape(s)
    ensures IsOpen(s, id) <==> id in OpenRows(s) || (Find(s.ring, id).Some? && !Find(s.ring, id).value.resolved)
  {
    if Find(s.ring, id).Some? {
      UniqueCopy(s, id);
    }
  }

  ghost predicate Sound(s: Store) { Shape(s) && s.saving.None? }

  lemma EmitSound(s: Store, poll: Poll, sig: string)
    requires Sound(s)
    ensures Sound(EmitTracked(s, poll, sig))
  {
    hide Shape;
    StepKeepsShape(s, Check(sig, poll.ts, ReplyTo(poll, sig)));
    StepKeepsShape(EventStore.Step(s, Check(sig, poll.ts, ReplyTo(poll, sig))), SaveDone(sig !in poll.saveFails));
  }

  lemma EmitKeepsIds(s: Store, poll: Poll, sig: string, other: string)
    requires s.saving.None? && other != sig
    ensures var s' := EmitTracked(s, poll, sig);
            (other in s'.ids <==> other in s.ids) && (other in s.ids ==> s'.ids[other] == s.ids[other])
  {}

  lemma EmitCarries(s: Store, poll: Poll, sig: string, id: nat)
    requires Sound(s) && id in s.owner
    ensures var s' := EmitTracked(s, poll, sig);
            Sound(s') && Carried(s, s', id, 1)
  {
    EmitSound(s, poll, sig);
    if !EventStore.Suppressed(s, sig, ReplyTo(poll, sig)) {
      var e := Event(s.nextId, false, false);
      assert id < s.nextId;
      FindPushed(s.ring, e, s.nextId, id);
      FindPersisted(Push(s.ring, e), s.nextId, id);
    }
  }

  lemma FindingCarries(g: Gate, poll: Poll, sig: string, minPersist: int, id: nat)
    requires Sound(g.store) && id in g.store.owner
    ensures var s' := OnFinding(g, poll, sig, minPersist, true).store;
            && Sound(s') && Carried(g.store, s', id, if Emits(g, poll, sig, minPersist, true) then 1 else 0)
            && forall other :: other != sig ==> (other in s'.ids <==> other in g.store.ids)
                                                && (other in g.store.ids ==> s'.ids[other] == g.store.ids[other])
  {
    hide EmitTracked;
    EmitCarries(g.store, poll, sig, id);
    forall other | other != sig
      ensures var ids, ids' := g.store.ids, EmitTracked(g.store, poll, sig).ids;
              (other in ids' <==> other in ids) && (other in ids ==> ids'[other] == ids[other]) {
      EmitKeepsIds(g.store, poll, sig, other);
    }
  }

  /** The findings of a poll carry every event, and leave the ids of signatures they do not list alone. */
  lemma {:induction false} FindingsCarry(g: Gate, poll: Poll, k: nat, minPersist: int, id: nat)
    requires k <= |poll.findings| && Sound(g.store) && id in g.store.owner
    ensures var (g', emitted) := OnFindings(g, poll, k, minPersist, true);
            && Sound(g'.store) && Carried(g.store, g'.store, id, |emitted|)
            && forall sig :: sig !in poll.findings ==>
                               (sig in g'.store.ids <==> sig in g.store.ids)
                               && (sig in g.store.ids ==> g'.store.ids[sig] == g.store.ids[sig])
  {
    hide OnFinding, Emits, Shape;
    if k > 0 {
      FindingsCarry(g, poll, k - 1, minPersist, id);
      var before := OnFindings(g, poll, k - 1, minPersist, true).0;
      var emits := if Emits(before, poll, poll.findings[k - 1], minPersist, true) then 1 else 0;
      FindingCarries(before, poll, poll.findings[k - 1], minPersist, id);
      CarriedOn(g.store, before.store, OnFindings(g, poll, k, minPersist, true).0.store, id,
                |OnFindings(g, poll, k - 1, minPersist, true).1|, emits);
    }
  }

  // ---------------------------------------------------------------- the recovery pass

  lemma ResolvedCarries(s: Store, closed: nat, fails: bool, id: nat)
    requires Shape(s) && id != closed && id in s.owner
    ensures Carried(s, ResolveEvent(s, closed, fails), id, 0)
  {
    FindResolved(s.ring, closed, id);
  }

  /** The recovery of one signature leaves every event but the one tracked for it as it was. */
  lemma RecoverCarries(s: Store, poll: Poll, sig: string, id: nat)
    requires Sound(s) && id in s.owner
    requires sig in s.ids && !Held(poll, sig) ==> s.ids[sig] != id
    ensures Sound(RecoverOne(s, poll, sig)) && Carried(s, RecoverOne(s, poll, sig), id, 0)
  {
    hide Shape;
    RecoverKeepsShape(s, poll, sig);
    if sig in s.ids && !Held(poll, sig) {
      ResolvedCarries(s, s.ids[sig], sig in poll.resolveFails, id);
    }
  }

  lemma RecoverKeepsIds(s: Store, poll: Poll, sig: string, other: string)
    ensures other in RecoverOne(s, poll, sig).ids ==>
              other in s.ids && RecoverOne(s, poll, sig).ids[other] == s.ids[other]
    ensures other in s.ids && (other != sig || Held(poll, other)) ==> other in RecoverOne(s, poll, sig).ids
  {
    if sig in s.ids {
      ResolveKeepsOwner(s, s.ids[sig], sig in poll.resolveFails);
    }
  }

  lemma {:induction false} PassKeepsIds(s: Store, poll: Poll, k: nat, sig: string)
    requires k <= |poll.order|
    ensures sig in RecoverAll(s, poll, k).ids ==> sig in s.ids && RecoverAll(s, poll, k).ids[sig] == s.ids[sig]
    ensures sig in s.ids && (Held(poll, sig) || sig !in poll.order[..k]) ==> sig in RecoverAll(s, poll, k).ids
  {
    hide RecoverOne;
    if k > 0 {
      PassKeepsIds(s, poll, k - 1, sig);
      RecoverKeepsIds(RecoverAll(s, poll, k - 1), poll, poll.order[k - 1], sig);
      assert poll.order[..k] == poll.order[..k - 1] + [poll.order[k - 1]];
    }
  }

  /** The recovery pass leaves every event as it was that is not tracked for a signature the poll does not hold. */
  lemma {:induction false} PassCarries(s: Store, poll: Poll, k: nat, id: nat)
    requires k <= |poll.order| && Sound(s) && id in s.owner
    requires forall sig :: sig in s.ids && s.ids[sig] == id && sig in poll.order[..k] ==> Held(poll, sig)
    ensures Sound(RecoverAll(s, poll, k)) && Carried(s, RecoverAll(s, poll, k), id, 0)
  {
    hide RecoverOne, Shape;
    if k > 0 {
      assert poll.order[..k] == poll.order[..k - 1] + [poll.order[k - 1]];
      PassCarries(s, poll, k - 1, id);
      var before, sig := RecoverAll(s, poll, k - 1), poll.order[k - 1];
      PassKeepsIds(s, poll, k - 1, sig);
      RecoverCarries(before, poll, sig, id);
      CarriedOn(s, before, RecoverAll(s, poll, k), id, 0, 0);
    }
  }

  /** The ring copy, if there is one, says it is stored exactly when the row is there. */
  predicate Coherent(s: Store, id: nat) {
    Find(s.ring, id).Some? ==> (Find(s.ring, id).value.persisted <==> id in s.rows)
  }

  predicate Copied(s: Store, id: nat, persisted: bool) {
    Find(s.ring, id).Some? && Find(s.ring, id).value.persisted == persisted
  }

  /** The recovery is put off: the storage call fails, or finds no row for an event said to be stored. */
  predicate PutOff(s: Store, id: nat, fails: bool) {
    if fails then !Copied(s, id, false) else Copied(s, id, true) && id !in s.rows
  }

  lemma RecoverPutOff(s: Store, poll: Poll, sig: string)
    requires Sound(s) && sig in s.ids && PutOff(s, s.ids[sig], sig in poll.resolveFails)
    ensures RecoverOne(s, poll, sig) == s
  {}

  lemma RecoverDone(s: Store, poll: Poll, sig: string)
    requires Sound(s) && sig in s.ids && !Held(poll, sig) && !PutOff(s, s.ids[sig], sig in poll.resolveFails)
    ensures var id, s' := s.ids[sig], RecoverOne(s, poll, sig);
            && sig !in s'.ids
            && (Find(s.ring, id).Some? ==> Find(s'.ring, id) == Some(Find(s.ring, id).value.(resolved := true)))
            && (Find(s.ring, id).None? ==> Find(s'.ring, id).None?)
            && (id in OpenRows(s') <==> Copied(s, id, false) && id in OpenRows(s))
  {
    FindResolved(s.ring, s.ids[sig], s.ids[sig]);
  }

  /**
   What one recovery closes. A ring copy not known to be stored is flipped without asking the storage; otherwise a
   failed storage call leaves everything for the next poll. The event stays open in the two incoherent cases only: the
   flipped copy has an open row after all, or a copy said to be stored has none and is not flipped.
   */
  lemma RecoverClosesIff(s: Store, poll: Poll, sig: string)
    requires Sound(s) && sig in s.ids && !Held(poll, sig)
    ensures var id, s' := s.ids[sig], RecoverOne(s, poll, sig);
            && (PutOff(s, id, sig in poll.resolveFails) ==> s' == s)
            && (!PutOff(s, id, sig in poll.resolveFails) ==>
                  sig !in s'.ids && (IsOpen(s', id) <==> Copied(s, id, false) && id in OpenRows(s)))
  {
    hide RecoverOne;
    if PutOff(s, s.ids[sig], sig in poll.resolveFails) {
      RecoverPutOff(s, poll, sig);
    } else {
      RecoverDone(s, poll, sig);
      RecoverKeepsShape(s, poll, sig);
      OpenIff(RecoverOne(s, poll, sig), s.ids[sig]);
    }
  }

  lemma RecoverKeepsShape(s: Store, poll: Poll, sig: string)
    requires Shape(s)
    ensures Shape(RecoverOne(s, poll, sig))
  {
    StepKeepsShape(s, Recover(sig, sig in poll.resolveFails));
  }

  lemma RecoverOpensNothing(s: Store, poll: Poll, sig: string, id: nat)
    requires !IsOpen(s, id)
    ensures !IsOpen(RecoverOne(s, poll, sig), id)
  {
    if sig in s.ids && s.saving.None? && IsOpen(ResolveEvent(s, s.ids[sig], sig in poll.resolveFails), id) {
      ResolveOpensNothing(s, s.ids[sig], sig in poll.resolveFails, id);
    }
  }

  lemma {:induction false} PassCloses(s: Store, poll: Poll, k: nat, sig: string)
    requires k <= |poll.order| && Sound(s) && sig in poll.order[..k]
    requires sig in s.ids && !Held(poll, sig) && sig !in poll.resolveFails && Coherent(s, s.ids[sig])
    ensures !IsOpen(RecoverAll(s, poll, k), s.ids[sig]) && sig !in RecoverAll(s, poll, k).ids
  {
    hide RecoverOne, Shape;
    var id, before := s.ids[sig], RecoverAll(s, poll, k - 1);
    assert poll.order[..k] == poll.order[..k - 1] + [poll.order[k - 1]];
    if sig in poll.order[..k - 1] {
      PassCloses(s, poll, k - 1, sig);
      RecoverOpensNothing(before, poll, poll.order[k - 1], id);
      RecoverKeepsIds(before, poll, poll.order[k - 1], sig);
    } else {
      OwnersTracked(s, id, sig);
      PassCarries(s, poll, k - 1, id);
      PassKeepsIds(s, poll, k - 1, sig);
      RecoverClosesIff(before, poll, sig);
    }
  }

  lemma OwnersTracked(s: Store, id: nat, sig: string)
    requires Shape(s) && sig in s.ids && s.ids[sig] == id
    ensures id in s.owner && forall other :: other in s.ids && s.ids[other] == id ==> other == sig
  {}

  // ---------------------------------------------------------------- a whole poll

  /** A removal or a restart leaves a sound store. */
  lemma InterruptionSound(g: Gate, poll: Poll)
    requires Sound(g.store)
    ensures Sound(Opening(g, poll).store)
  {
    StepKeepsShape(g.store, EventStore.Forget);
    StepKeepsShape(g.store, Restart);
  }

  /**
   After a tracked poll nothing is open of what was tracked for a signature the poll neither found nor had to preserve:
   the event is closed and its id dropped, if the pass reaches the signature, its storage call works, and the ring copy
   of the event, if any, tells truly whether the event is stored.
   */
  lemma RecoveryCloses(g: Gate, poll: Poll, minPersist: int, sig: string)
    requires Sound(g.store) && poll.since == Continued
    requires sig in g.store.ids && sig in poll.order && sig !in poll.findings && sig !in poll.preserved
    requires sig !in poll.resolveFails && Coherent(g.store, g.store.ids[sig])
    ensures var after := PollStep(g, poll, minPersist, true).0.store;
            !IsOpen(after, g.store.ids[sig]) && sig !in after.ids
  {
    hide Shape, RecoverAll, OnFindings;
    var id, opening := g.store.ids[sig], Opening(g, poll);
    var found := OnFindings(opening, poll, |poll.findings|, minPersist, true).0.store;
    OwnersTracked(g.store, id, sig);
    FindingsCarry(opening, poll, |poll.findings|, minPersist, id);
    assert poll.order[..|poll.order|] == poll.order;
    PassCloses(found, poll, |poll.order|, sig);
  }

  /**
   Every other event a tracked poll leaves as it was: one of a signature the poll found or preserved, and one that is
   not the tracked event of its signature. Its row does not change; its ring copy does not either, unless the pushes
   of the poll evict it, which they do not while the ring has room for what the poll emits.
   */
  lemma OthersUntouched(g: Gate, poll: Poll, minPersist: int, id: nat)
    requires Sound(g.store) && poll.since == Continued && id in g.store.owner
    requires var sig := g.store.owner[id];
             Held(poll, sig) || sig !in g.store.ids || g.store.ids[sig] != id
    ensures var (g', emitted) := PollStep(g, poll, minPersist, true);
            && Carried(g.store, g'.store, id, |emitted|)
            && (IsOpen(g.store, id) ==> IsOpen(g'.store, id) || Find(g'.store.ring, id).None?)
            && (IsOpen(g.store, id) && (id in OpenRows(g.store) || |g.store.ring| + |emitted| <= RING_MAX) ==>
                  IsOpen(g'.store, id))
  {
    var opening := Opening(g, poll);
    var (found, emitted) := OnFindings(opening, poll, |poll.findings|, minPersist, true);
    FindingsCarry(opening, poll, |poll.findings|, minPersist, id);
    forall sig | sig in found.store.ids && found.store.ids[sig] == id ensures Held(poll, sig) {
    }
    PassCarries(found.store, poll, |poll.order|, id);
    CarriedOn(g.store, found.store, RecoverAll(found.store, poll, |poll.order|), id, |emitted|, 0);
    OpenIff(g.store, id);
    OpenIff(RecoverAll(found.store, poll, |poll.order|), id);
  }

  // ---------------------------------------------------------------- what a step of any run closes

  /** The only ways an open event is closed: it is resolved, or what still shows it open is dropped. */
  ghost predicate Closes(s: Store, a: EventStore.Action, id: nat) {
    match a
    case Resolve(k, fails) => k == id && (fails ==> Copied(s, id, false))
    case Recover(sig, fails) => sig in s.ids && s.ids[sig] == id && (fails ==> Copied(s, id, false))
    case Check(_, _, _) => id !in OpenRows(s) && |s.ring| >= 1000
    case ForeignPush => id !in OpenRows(s) && |s.ring| >= 1000
    case Prune(row) => row == id && !ShowsOpen(s, id)
    case Restart => id !in OpenRows(s)
    case CloseRow(row) => row == id && !ShowsOpen(s, id)
    case FlipCopy(copy) => copy == id && id !in OpenRows(s)
    case _ => false
  }

  predicate ShowsOpen(s: Store, id: nat) { Find(s.ring, id).Some? && !Find(s.ring, id).value.resolved }

  lemma {:induction false} UnresolvedStays(ring: seq<Event>, bound: nat, id: nat)
    requires RingOrdered(ring, bound)
    ensures Find(ring, id).Some? && !Find(ring, id).value.resolved ==>
              Find(Filter(ring, (e: Event) => !e.resolved), id) == Find(ring, id)
  {
    if ring != [] {
      UnresolvedStays(ring[1..], bound, id);
    }
  }

  lemma ResolveClosesOnly(s: Store, k: nat, fails: bool, id: nat)
    requires Shape(s) && IsOpen(s, id) && !IsOpen(ResolveEvent(s, k, fails), id)
    ensures k == id && (fails ==> Copied(s, id, false))
  {
    FindResolved(s.ring, k, id);
    ResolveKeepsShape(s, k, fails);
    OpenIff(s, id);
    OpenIff(ResolveEvent(s, k, fails), id);
  }

  lemma PushClosesOnly(s: Store, a: EventStore.Action, id: nat)
    requires Shape(s) && IsOpen(s, id) && (a.Check? || a.ForeignPush?) && !IsOpen(EventStore.Step(s, a), id)
    requires id in s.owner
    ensures id !in OpenRows(s) && |s.ring| >= 1000
  {
    StepKeepsShape(s, a);
    FindPushed(s.ring, Event(s.nextId, false, false), s.nextId, id);
    OpenIff(s, id);
    OpenIff(EventStore.Step(s, a), id);
  }

  lemma MarkClosesOnly(s: Store, a: EventStore.Action, id: nat)
    requires Shape(s) && IsOpen(s, id) && (a.SaveDone? || a.FlipCopy?) && !IsOpen(EventStore.Step(s, a), id)
    ensures a == FlipCopy(id) && id !in OpenRows(s)
  {
    StepKeepsShape(s, a);
    OpenIff(s, id);
    OpenIff(EventStore.Step(s, a), id);
    if a.FlipCopy? {
      FindResolved(s.ring, a.copy, id);
    } else if a.ok && s.saving.Some? {
      SettleOpens(s, id);
    }
  }

  lemma DropClosesOnly(s: Store, a: EventStore.Action, id: nat)
    requires Shape(s) && IsOpen(s, id) && !IsOpen(EventStore.Step(s, a), id)
    requires a.ClearResolved? || a.Prune? || a.Forget? || a.Restart? || a.CloseRow? || a.Untrack? || a.LateRow?
    ensures Closes(s, a, id)
  {
    StepKeepsShape(s, a);
    OpenIff(s, id);
    OpenIff(EventStore.Step(s, a), id);
    if a.ClearResolved? {
      UnresolvedStays(s.ring, s.nextId, id);
    }
  }

  /**
   In any state a run reaches, a step closes an open event only by resolving it, or by dropping the last thing that
   shows it open: its ring copy when the ring is full or the process restarts, its row when that is pruned or closed.
   */
  lemma ClosedNeedsCause(s: Store, a: EventStore.Action, id: nat)
    requires Shape(s) && id in s.owner && IsOpen(s, id) && !IsOpen(EventStore.Step(s, a), id)
    ensures Closes(s, a, id)
  {
    match a
    case Resolve(k, fails) => ResolveClosesOnly(s, k, fails, id);
    case Recover(sig, fails) =>
      if sig in s.ids && s.saving.None? {
        assert !IsOpen(ResolveEvent(s, s.ids[sig], fails), id);
        ResolveClosesOnly(s, s.ids[sig], fails, id);
      }
    case Check(_, _, _) => PushClosesOnly(s, a, id);
    case ForeignPush => PushClosesOnly(s, a, id);
    case SaveDone(_) => MarkClosesOnly(s, a, id);
    case FlipCopy(_) => MarkClosesOnly(s, a, id);
    case _ => DropClosesOnly(s, a, id);
  }
}

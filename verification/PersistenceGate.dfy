/** The persistence-gated dedupe pipeline shared by the topology detectors. */
module PersistenceGate {
  // A signature must be present for a grace period before its event is emitted, repeats are suppressed, and recovery
  // re-arms it. A signature whose source could not be observed in a poll is preserved, neither forgotten nor recovered.

  import opened Prelude
  import opened EventStore
  import opened EventHazards

  /** What happened to the connection since the poll before. */
  datatype Interruption = Continued | Removed | Restarted

  /** One poll: what was found, what could not be observed, what storage lookups answer, and which writes fail. */
  datatype Poll = Poll(since: Interruption, findings: seq<string>, ts: int, preserved: set<string>,
                       replies: map<string, Reply>, saveFails: set<string>, resolveFails: set<string>,
                       order: seq<string>)

  /** The answer to the lookup of one signature's event; without one the read fails. */
  function ReplyTo(poll: Poll, sig: string): Reply { if sig in poll.replies then poll.replies[sig] else ReadFailed }

  datatype Gate = Gate(firstSeen: map<string, int>, active: set<string>, store: Store)

  predicate Held(poll: Poll, sig: string) { sig in poll.findings || sig in poll.preserved }

  /** Removing the connection drops all three maps; a restart empties the ring as well. */
  function Interrupted(g: Gate, since: Interruption): Gate {
    match since
    case Continued => g
    case Removed => Gate(map[], {}, EventStore.Step(g.store, EventStore.Forget))
    case Restarted => Gate(map[], {}, EventStore.Step(g.store, Restart))
  }

  function StillSeen(firstSeen: map<string, int>, poll: Poll): map<string, int> {
    map sig | sig in firstSeen && Held(poll, sig) :: firstSeen[sig]
  }

  function SeenAt(g: Gate, poll: Poll, sig: string): int {
    if sig in g.firstSeen then g.firstSeen[sig] else poll.ts
  }

  /** Push and save of one tracked event, uninterrupted. */
  function EmitTracked(store: Store, poll: Poll, sig: string): Store {
    EventStore.Step(EventStore.Step(store, Check(sig, poll.ts, ReplyTo(poll, sig))), SaveDone(sig !in poll.saveFails))
  }

  /** The dedupe: a tracked gate asks whether its event is open, an untracked one whether it already alerted. */
  predicate Suppressed(g: Gate, poll: Poll, sig: string, tracked: bool) {
    if tracked then sig in g.store.ids && StillOpen(g.store, g.store.ids[sig], ReplyTo(poll, sig))
    else sig in g.active
  }

  predicate Emits(g: Gate, poll: Poll, sig: string, minPersist: int, tracked: bool) {
    poll.ts - SeenAt(g, poll, sig) >= minPersist && !Suppressed(g, poll, sig, tracked)
  }

  /** One finding of a poll. */
  function OnFinding(g: Gate, poll: Poll, sig: string, minPersist: int, tracked: bool): Gate {
    var seen := g.(firstSeen := g.firstSeen[sig := SeenAt(g, poll, sig)]);
    if poll.ts - SeenAt(g, poll, sig) < minPersist then seen
    else if Suppressed(g, poll, sig, tracked) then seen.(active := seen.active + {sig})
    else
      seen.(active := seen.active + {sig},
            store := if tracked then EmitTracked(g.store, poll, sig) else EventStore.Step(g.store, ForeignPush))
  }

  /** The first k findings of a poll: the gate they leave and the signatures they emit. */
  function OnFindings(g: Gate, poll: Poll, k: nat, minPersist: int, tracked: bool): (r: (Gate, seq<string>))
    requires k <= |poll.findings|
  {
    if k == 0 then (g, [])
    else
      var (before, emitted) := OnFindings(g, poll, k - 1, minPersist, tracked);
      var sig := poll.findings[k - 1];
      (OnFinding(before, poll, sig, minPersist, tracked),
       if Emits(before, poll, sig, minPersist, tracked) then emitted + [sig] else emitted)
  }

  function RecoverOne(store: Store, poll: Poll, sig: string): Store {
    if sig in store.ids && !Held(poll, sig) then EventStore.Step(store, Recover(sig, sig in poll.resolveFails))
    else store
  }

  function RecoverAll(store: Store, poll: Poll, k: nat): Store
    requires k <= |poll.order|
  {
    if k == 0 then store else RecoverOne(RecoverAll(store, poll, k - 1), poll, poll.order[k - 1])
  }

  /** The gate a poll starts its findings with: after the interruption, without the recovered signatures. */
  function Opening(g0: Gate, poll: Poll): Gate {
    var g := Interrupted(g0, poll.since);
    g.(firstSeen := StillSeen(g.firstSeen, poll))
  }

  /** One whole poll. `order` is the iteration order of the tracked ids. */
  function PollStep(g: Gate, poll: Poll, minPersist: int, tracked: bool): (r: (Gate, seq<string>)) {
    var (found, emitted) := OnFindings(Opening(g, poll), poll, |poll.findings|, minPersist, tracked);
    var store := if tracked then RecoverAll(found.store, poll, |poll.order|) else found.store;
    (Gate(found.firstSeen, (set sig | sig in found.active && Held(poll, sig)), store), emitted)
  }

  /** The gate of one connection, with the service's per-poll loops. */
  class TopologyGate {
    var firstSeen: map<string, int>
    var active: set<string>
    var store: Store

    constructor ()
      ensures Model() == Gate(map[], {}, EMPTY)
    {
      firstSeen, active, store := map[], {}, EMPTY;
    }

    function Model(): Gate
      reads this
    {
      Gate(firstSeen, active, store)
    }

    method ForgetRecovered(poll: Poll)
      modifies this`firstSeen
      ensures firstSeen == StillSeen(old(firstSeen), poll)
    {
      var todo := firstSeen.Keys;
      while todo != {}
        invariant todo <= firstSeen.Keys
        invariant forall sig :: sig in firstSeen ==> sig in old(firstSeen) && firstSeen[sig] == old(firstSeen)[sig]
        invariant forall sig :: sig in old(firstSeen) && (sig in todo || Held(poll, sig)) ==> sig in firstSeen
        invariant forall sig :: sig in firstSeen && sig !in todo ==> Held(poll, sig)
        decreases |todo|
      {
        var sig :| sig in todo;
        if sig !in poll.findings && sig !in poll.preserved {
          firstSeen := firstSeen - {sig};
        }
        todo := todo - {sig};
      }
    }

    method Interrupt(since: Interruption)
      modifies this
      ensures Model() == Interrupted(old(Model()), since)
    {
      match since
      case Continued =>
      case Removed =>
        firstSeen, active := map[], {};
        store := EventStore.Step(store, EventStore.Forget);
      case Restarted =>
        firstSeen, active := map[], {};
        store := EventStore.Step(store, Restart);
    }

    method Observe(poll: Poll, minPersist: int, tracked: bool) returns (emitted: seq<string>)
      modifies this
      ensures (Model(), emitted) == PollStep(old(Model()), poll, minPersist, tracked)
    {
      ghost var entry := Model();
      Interrupt(poll.since);
      ForgetRecovered(poll);
      ghost var start := Model();
      emitted := [];
      for k := 0 to |poll.findings|
        invariant (Model(), emitted) == OnFindings(start, poll, k, minPersist, tracked)
      {
        var sig := poll.findings[k];
        var seenAt := if sig in firstSeen then firstSeen[sig] else poll.ts;
        var suppressed := if tracked then sig in store.ids && StillOpen(store, store.ids[sig], ReplyTo(poll, sig))
                          else sig in active;
        if sig !in firstSeen {
          firstSeen := firstSeen[sig := poll.ts];
        } else {
          assert firstSeen == firstSeen[sig := seenAt];
        }
        if poll.ts - seenAt >= minPersist {
          if !suppressed {
            if tracked {
              store := EventStore.Step(store, Check(sig, poll.ts, ReplyTo(poll, sig)));
              store := EventStore.Step(store, SaveDone(sig !in poll.saveFails));
            } else {
              store := EventStore.Step(store, ForeignPush);
            }
            emitted := emitted + [sig];
          }
          active := active + {sig};
        }
      }
      if tracked {
        ghost var found := store;
        for k := 0 to |poll.order|
          invariant store == RecoverAll(found, poll, k)
          invariant firstSeen == OnFindings(start, poll, |poll.findings|, minPersist, tracked).0.firstSeen
          invariant active == OnFindings(start, poll, |poll.findings|, minPersist, tracked).0.active
        {
          var sig := poll.order[k];
          if sig in store.ids && sig !in poll.findings && sig !in poll.preserved {
            store := EventStore.Step(store, Recover(sig, sig in poll.resolveFails));
          }
        }
      }
      active := set sig | sig in active && (sig in poll.findings || sig in poll.preserved);
      ghost var after := PollStep(entry, poll, minPersist, tracked);
      assert start == Opening(entry, poll);
      assert active == after.0.active;
    }
  }

  // ---------------------------------------------------------------- runs of polls

  const START: Gate := Gate(map[], {}, EMPTY)

  function GateAfter(polls: seq<Poll>, minPersist: int, tracked: bool): Gate {
    if polls == [] then START
    else PollStep(GateAfter(polls[..|polls| - 1], minPersist, tracked), polls[|polls| - 1], minPersist, tracked).0
  }

  /** The signatures emitted by poll n of a run. */
  function EmittedAt(polls: seq<Poll>, n: nat, minPersist: int, tracked: bool): seq<string>
    requires n < |polls|
  {
    PollStep(GateAfter(polls[..n], minPersist, tracked), polls[n], minPersist, tracked).1
  }

  /** Present or preserved in every poll from k up to, but not including, n, with no interruption in between. */
  ghost predicate HeldSince(polls: seq<Poll>, sig: string, k: nat, n: nat)
    requires n <= |polls|
  {
    forall m :: k <= m < n ==> Held(polls[m], sig) && (m > k ==> polls[m].since == Continued)
  }

  /** Poll k is the first that found the signature in the presence it has in the polls up to n. */
  ghost predicate FoundFirst(polls: seq<Poll>, sig: string, k: nat, n: nat)
    requires n <= |polls|
  {
    && k < n && sig in polls[k].findings && HeldSince(polls, sig, k, n)
    && forall j :: 0 <= j < k && sig in polls[j].findings ==> !HeldSince(polls, sig, j, n)
  }

  /** The clock runs from the first finding of an unbroken presence; without such a finding there is none. */
  ghost predicate ClockOk(polls: seq<Poll>, firstSeen: map<string, int>, sig: string) {
    if sig in firstSeen
    then exists k: nat :: FoundFirst(polls, sig, k, |polls|) && firstSeen[sig] == polls[k].ts
    else forall k :: 0 <= k < |polls| && sig in polls[k].findings ==> !HeldSince(polls, sig, k, |polls|)
  }

  lemma HeldSinceSnoc(polls: seq<Poll>, poll: Poll, sig: string, k: nat)
    requires k < |polls|
    ensures HeldSince(polls + [poll], sig, k, |polls| + 1)
       <==> HeldSince(polls, sig, k, |polls|) && Held(poll, sig) && poll.since == Continued
  {
    var all := polls + [poll];
    assert all[|polls|] == poll;
    assert forall m :: k <= m < |polls| ==> all[m] == polls[m];
  }

  lemma HeldNow(polls: seq<Poll>, poll: Poll, sig: string)
    ensures HeldSince(polls + [poll], sig, |polls|, |polls| + 1) <==> Held(poll, sig)
  {
    assert (polls + [poll])[|polls|] == poll;
  }

  /** One more poll moves the first finding of a presence as it moves the clock. */
  lemma FirstFindingSnoc(polls: seq<Poll>, poll: Poll, firstSeen: map<string, int>, after: map<string, int>,
                         sig: string)
    requires ClockOk(polls, firstSeen, sig)
    requires var stays := sig in firstSeen && Held(poll, sig) && poll.since == Continued;
             && (sig in after <==> stays || sig in poll.findings)
             && (sig in after ==> after[sig] == if stays then firstSeen[sig] else poll.ts)
    ensures ClockOk(polls + [poll], after, sig)
  {
    var all, n := polls + [poll], |polls|;
    forall k: nat | k < n ensures all[k] == polls[k]
      && (HeldSince(all, sig, k, n + 1)
          <==> HeldSince(polls, sig, k, n) && Held(poll, sig) && poll.since == Continued) {
      HeldSinceSnoc(polls, poll, sig, k);
    }
    HeldNow(polls, poll, sig);
    if sig in firstSeen && Held(poll, sig) && poll.since == Continued {
      var k: nat :| FoundFirst(polls, sig, k, n) && firstSeen[sig] == polls[k].ts;
      assert FoundFirst(all, sig, k, n + 1);
    } else if sig in poll.findings {
      assert FoundFirst(all, sig, n, n + 1);
    }
  }

  lemma FindingSetsClock(g: Gate, poll: Poll, sig: string, minPersist: int, tracked: bool)
    ensures OnFinding(g, poll, sig, minPersist, tracked).firstSeen == g.firstSeen[sig := SeenAt(g, poll, sig)]
  {
    hide Suppressed, EmitTracked;
  }

  /** Within a poll the clock of a signature changes only when it is found for the first time. */
  lemma {:induction false} ClocksWithinPoll(g: Gate, poll: Poll, k: nat, minPersist: int, tracked: bool, sig: string)
    requires k <= |poll.findings|
    ensures var firstSeen := OnFindings(g, poll, k, minPersist, tracked).0.firstSeen;
            && (sig in firstSeen <==> sig in g.firstSeen || sig in poll.findings[..k])
            && (sig in firstSeen ==> firstSeen[sig] == SeenAt(g, poll, sig))
  {
    hide OnFinding, Emits;
    if k > 0 {
      ClocksWithinPoll(g, poll, k - 1, minPersist, tracked, sig);
      var before := OnFindings(g, poll, k - 1, minPersist, tracked).0;
      FindingSetsClock(before, poll, poll.findings[k - 1], minPersist, tracked);
      assert poll.findings[..k] == poll.findings[..k - 1] + [poll.findings[k - 1]];
    }
  }

  lemma {:induction false} RunClocks(polls: seq<Poll>, minPersist: int, tracked: bool, sig: string)
    ensures ClockOk(polls, GateAfter(polls, minPersist, tracked).firstSeen, sig)
  {
    if polls != [] {
      var before, poll := polls[..|polls| - 1], polls[|polls| - 1];
      var g := GateAfter(before, minPersist, tracked);
      RunClocks(before, minPersist, tracked, sig);
      ClocksWithinPoll(Opening(g, poll), poll, |poll.findings|, minPersist, tracked, sig);
      assert poll.findings[..|poll.findings|] == poll.findings;
      FirstFindingSnoc(before, poll, g.firstSeen, GateAfter(polls, minPersist, tracked).firstSeen, sig);
      assert before + [poll] == polls;
    }
  }

  /** The presence of a finding of poll n is at least minPersist old. */
  ghost predicate Persisted(polls: seq<Poll>, sig: string, n: nat, minPersist: int)
    requires n < |polls|
  {
    exists k: nat :: FoundFirst(polls, sig, k, n + 1) && polls[n].ts - polls[k].ts >= minPersist
  }

  lemma FoundFirstUnique(polls: seq<Poll>, sig: string, j: nat, k: nat, n: nat)
    requires n <= |polls| && FoundFirst(polls, sig, j, n) && FoundFirst(polls, sig, k, n)
    ensures j == k
  {}

  lemma PrefixHeld(polls: seq<Poll>, sig: string, k: nat, n: nat)
    requires k <= n <= |polls|
    ensures HeldSince(polls[..n], sig, k, n) <==> HeldSince(polls, sig, k, n)
  {
    assert forall m :: k <= m < n ==> polls[..n][m] == polls[m];
  }

  lemma PrefixFoundFirst(polls: seq<Poll>, sig: string, k: nat, n: nat)
    requires n <= |polls|
    ensures FoundFirst(polls[..n], sig, k, n) <==> FoundFirst(polls, sig, k, n)
  {
    forall j: nat | j < n ensures polls[..n][j] == polls[j]
      && (HeldSince(polls[..n], sig, j, n) <==> HeldSince(polls, sig, j, n)) {
      PrefixHeld(polls, sig, j, n);
    }
  }

  lemma ClockOfFinding(polls: seq<Poll>, n: nat, g: Gate, minPersist: int, sig: string)
    requires n < |polls| && sig in polls[n].findings && ClockOk(polls[..n], g.firstSeen, sig)
    ensures var at := SeenAt(Opening(g, polls[n]), polls[n], sig);
            polls[n].ts - at >= minPersist <==> Persisted(polls, sig, n, minPersist)
  {
    var poll, end := polls[n], n + 1;
    var at := SeenAt(Opening(g, poll), poll, sig);
    FirstFindingSnoc(polls[..n], poll, g.firstSeen, Opening(g, poll).firstSeen[sig := at], sig);
    assert polls[..n] + [poll] == polls[..end];
    var k: nat :| FoundFirst(polls[..end], sig, k, end) && at == polls[..end][k].ts;
    PrefixFoundFirst(polls, sig, k, end);
    forall i: nat | FoundFirst(polls, sig, i, end) ensures i == k {
      FoundFirstUnique(polls, sig, i, k, end);
    }
  }

  /** The age the gate gives a finding, at any point of its poll, is the age of its presence. */
  lemma AgeIsPresence(polls: seq<Poll>, n: nat, j: nat, minPersist: int, tracked: bool, sig: string)
    requires n < |polls| && j <= |polls[n].findings| && sig in polls[n].findings
    ensures var g := OnFindings(Opening(GateAfter(polls[..n], minPersist, tracked), polls[n]), polls[n], j, minPersist,
                                tracked).0;
            polls[n].ts - SeenAt(g, polls[n], sig) >= minPersist <==> Persisted(polls, sig, n, minPersist)
  {
    hide OnFindings;
    var poll, g := polls[n], GateAfter(polls[..n], minPersist, tracked);
    ClocksWithinPoll(Opening(g, poll), poll, j, minPersist, tracked, sig);
    RunClocks(polls[..n], minPersist, tracked, sig);
    ClockOfFinding(polls, n, g, minPersist, sig);
  }

  /** A poll emits a signature exactly at those of its findings that pass the gate. */
  lemma {:induction false} EmittedWithinPoll(g: Gate, poll: Poll, k: nat, minPersist: int, tracked: bool, sig: string)
    requires k <= |poll.findings|
    ensures sig in OnFindings(g, poll, k, minPersist, tracked).1
       <==> exists j :: 0 <= j < k && poll.findings[j] == sig
                        && Emits(OnFindings(g, poll, j, minPersist, tracked).0, poll, sig, minPersist, tracked)
  {
    hide OnFinding, Emits;
    if k > 0 {
      EmittedWithinPoll(g, poll, k - 1, minPersist, tracked, sig);
    }
  }

  /**
   In every run, each emission follows at least minPersist of uninterrupted presence: some earlier poll, that long
   ago, found the signature, and every poll since found it or could not observe it.
   */
  lemma EmissionNeedsPersistence(polls: seq<Poll>, n: nat, minPersist: int, tracked: bool, sig: string)
    requires n < |polls| && sig in EmittedAt(polls, n, minPersist, tracked)
    ensures sig in polls[n].findings && Persisted(polls, sig, n, minPersist)
  {
    var poll := polls[n];
    var opening := Opening(GateAfter(polls[..n], minPersist, tracked), poll);
    EmittedWithinPoll(opening, poll, |poll.findings|, minPersist, tracked, sig);
    var j :| 0 <= j < |poll.findings| && poll.findings[j] == sig
             && Emits(OnFindings(opening, poll, j, minPersist, tracked).0, poll, sig, minPersist, tracked);
    AgeIsPresence(polls, n, j, minPersist, tracked, sig);
  }

  // ---------------------------------------------------------------- the untracked gate

  lemma {:induction false} ActiveWithinPoll(g: Gate, poll: Poll, k: nat, minPersist: int, tracked: bool)
    requires k <= |poll.findings|
    ensures var (g', emitted) := OnFindings(g, poll, k, minPersist, tracked);
            && g.active <= g'.active
            && (forall sig :: sig in emitted ==> sig in g'.active)
            && (!tracked ==> forall sig :: sig in emitted ==> sig !in g.active)
            && (!tracked ==> forall i, j :: 0 <= i < j < |emitted| ==> emitted[i] != emitted[j])
  {
    if k > 0 {
      ActiveWithinPoll(g, poll, k - 1, minPersist, tracked);
    }
  }

  /** An emitted signature stays active while it is held. */
  lemma {:induction false} EmittedStaysActive(polls: seq<Poll>, i: nat, n: nat, minPersist: int, sig: string)
    requires i < n <= |polls| && sig in EmittedAt(polls, i, minPersist, false) && HeldSince(polls, sig, i, n)
    ensures sig in GateAfter(polls[..n], minPersist, false).active
    decreases n
  {
    var poll := polls[n - 1];
    assert polls[..n][..n - 1] == polls[..n - 1];
    var g := GateAfter(polls[..n - 1], minPersist, false);
    ActiveWithinPoll(Opening(g, poll), poll, |poll.findings|, minPersist, false);
    if i < n - 1 {
      EmittedStaysActive(polls, i, n - 1, minPersist, sig);
    }
  }

  /**
   Without event-id tracking a poll emits a signature at most once, and two polls that emit it are separated by one
   in which it was neither found nor preserved, or by an interruption that dropped the gate's memory.
   */
  lemma EmissionsAreSeparated(polls: seq<Poll>, i: nat, n: nat, minPersist: int, sig: string)
    requires i < n < |polls|
    requires sig in EmittedAt(polls, i, minPersist, false) && sig in EmittedAt(polls, n, minPersist, false)
    ensures exists m :: i < m <= n && (polls[m].since != Continued || (m < n && !Held(polls[m], sig)))
  {
    EmissionNeedsPersistence(polls, i, minPersist, false, sig);
    if HeldSince(polls, sig, i, n) {
      EmittedStaysActive(polls, i, n, minPersist, sig);
    }
    var poll := polls[n];
    var g := GateAfter(polls[..n], minPersist, false);
    ActiveWithinPoll(Opening(g, poll), poll, |poll.findings|, minPersist, false);
  }

  /** Until its first finding of a poll, a signature is active if it was. */
  lemma {:induction false} ActiveBeforeFound(g: Gate, poll: Poll, k: nat, minPersist: int, sig: string)
    requires k <= |poll.findings| && sig !in poll.findings[..k]
    ensures sig in OnFindings(g, poll, k, minPersist, false).0.active <==> sig in g.active
  {
    if k > 0 {
      assert poll.findings[..k] == poll.findings[..k - 1] + [poll.findings[k - 1]];
      ActiveBeforeFound(g, poll, k - 1, minPersist, sig);
    }
  }

  lemma {:induction false} ActivatedIsEmitted(g: Gate, poll: Poll, k: nat, minPersist: int, sig: string)
    requires k <= |poll.findings| && sig in OnFindings(g, poll, k, minPersist, false).0.active
    ensures sig in g.active || sig in OnFindings(g, poll, k, minPersist, false).1
  {
    if k > 0 && sig in OnFindings(g, poll, k - 1, minPersist, false).0.active {
      ActivatedIsEmitted(g, poll, k - 1, minPersist, sig);
    }
  }

  /** Poll m emitted the signature, and its presence has not been broken up to poll n. */
  ghost predicate AlertStands(polls: seq<Poll>, sig: string, m: nat, n: nat, minPersist: int)
    requires n <= |polls|
  {
    m < n && sig in EmittedAt(polls, m, minPersist, false) && HeldSince(polls, sig, m, n)
  }

  lemma {:induction false} ActiveIsAlerted(polls: seq<Poll>, n: nat, minPersist: int, sig: string)
    requires n <= |polls| && sig in GateAfter(polls[..n], minPersist, false).active
    ensures exists m: nat :: AlertStands(polls, sig, m, n, minPersist)
  {
    if n > 0 {
      var poll := polls[n - 1];
      assert polls[..n][..n - 1] == polls[..n - 1];
      var opening := Opening(GateAfter(polls[..n - 1], minPersist, false), poll);
      ActivatedIsEmitted(opening, poll, |poll.findings|, minPersist, sig);
      if sig in opening.active {
        ActiveIsAlerted(polls, n - 1, minPersist, sig);
        var m: nat :| AlertStands(polls, sig, m, n - 1, minPersist);
        assert AlertStands(polls, sig, m, n, minPersist);
      } else {
        assert AlertStands(polls, sig, n - 1, n, minPersist);
      }
    }
  }

  lemma FirstIndex(sigs: seq<string>, sig: string) returns (j: nat)
    requires sig in sigs
    ensures j < |sigs| && sigs[j] == sig && sig !in sigs[..j]
  {
    j := 0;
    while sigs[j] != sig
      invariant j < |sigs| && sig !in sigs[..j]
      decreases |sigs| - j
    {
      assert sigs[..j + 1] == sigs[..j] + [sigs[j]];
      assert sig in sigs[j..];
      j := j + 1;
    }
  }

  /**
   Without event-id tracking, in every run: a poll emits a signature exactly when it finds it, its unbroken presence
   began at least minPersist ago, and no poll of that presence has emitted it yet.
   */
  lemma UntrackedEmitsIff(polls: seq<Poll>, n: nat, minPersist: int, sig: string)
    requires n < |polls|
    ensures sig in EmittedAt(polls, n, minPersist, false)
       <==> sig in polls[n].findings && Persisted(polls, sig, n, minPersist)
            && !exists m: nat :: m < n && sig in EmittedAt(polls, m, minPersist, false)
                                 && HeldSince(polls, sig, m, n + 1)
  {
    var poll := polls[n];
    var g := GateAfter(polls[..n], minPersist, false);
    var opening := Opening(g, poll);
    if sig in EmittedAt(polls, n, minPersist, false) {
      EmissionNeedsPersistence(polls, n, minPersist, false, sig);
      ActiveWithinPoll(opening, poll, |poll.findings|, minPersist, false);
      forall m: nat | m < n && sig in EmittedAt(polls, m, minPersist, false) ensures !HeldSince(polls, sig, m, n + 1) {
        if HeldSince(polls, sig, m, n) {
          EmittedStaysActive(polls, m, n, minPersist, sig);
        }
      }
    } else if sig in poll.findings && Persisted(polls, sig, n, minPersist) {
      var j := FirstIndex(poll.findings, sig);
      AgeIsPresence(polls, n, j, minPersist, false, sig);
      ActiveBeforeFound(opening, poll, j, minPersist, sig);
      EmittedWithinPoll(opening, poll, |poll.findings|, minPersist, false, sig);
      assert sig in opening.active;
      ActiveIsAlerted(polls, n, minPersist, sig);
      var m: nat :| AlertStands(polls, sig, m, n, minPersist);
      assert HeldSince(polls, sig, m, n + 1);
    }
  }

  lemma OneEmissionPerPoll(polls: seq<Poll>, n: nat, minPersist: int, a: nat, b: nat)
    requires n < |polls| && a < b < |EmittedAt(polls, n, minPersist, false)|
    ensures EmittedAt(polls, n, minPersist, false)[a] != EmittedAt(polls, n, minPersist, false)[b]
  {
    var g := GateAfter(polls[..n], minPersist, false);
    ActiveWithinPoll(Opening(g, polls[n]), polls[n], |polls[n].findings|, minPersist, false);
  }

  // ---------------------------------------------------------------- the tracked gate

  /** An event of the signature is open, other than a forgotten one that the next push evicts. */
  ghost predicate AnyOpen(store: Store, sig: string) {
    exists id :: id in store.owner && store.owner[id] == sig && IsOpen(store, id)
                 && (Forgotten(store, id) ==> Outlasts(store, id))
  }

  /**
   A tracked gate emits a finding exactly when it is past its grace period and no event of its signature is open (but
   for a forgotten one that this very push evicts), provided nothing hides an open event and a lookup, if it makes one,
   is answered by a legal feed.
   */
  lemma TrackedEmitsIffNothingOpen(g: Gate, poll: Poll, sig: string, minPersist: int)
    requires Inv(g.store) && g.store.saving.None? && InSight(g.store, sig)
    requires Asked(g.store, sig) ==> ReplyTo(poll, sig).Feed? && LegalReply(g.store, ReplyTo(poll, sig))
    ensures Emits(g, poll, sig, minPersist, true)
       <==> poll.ts - SeenAt(g, poll, sig) >= minPersist && !AnyOpen(g.store, sig)
  {
    var store, reply := g.store, ReplyTo(poll, sig);
    InSightIsSafe(store, sig, poll.ts, reply);
    HazardIff(store, sig, poll.ts, reply);
    if sig in store.ids {
      UnseenIff(store, sig, reply);
      SeenIsOpen(store, sig, reply);
    }
  }

  /**
   Finding j of poll n of a tracked run is emitted exactly when its unbroken presence began at least minPersist ago and
   no event of it is open, on the same proviso.
   */
  lemma TrackedEmitsIff(polls: seq<Poll>, n: nat, j: nat, minPersist: int)
    requires n < |polls| && j < |polls[n].findings|
    requires var poll := polls[n];
             var opening := Opening(GateAfter(polls[..n], minPersist, true), poll);
             var store := OnFindings(opening, poll, j, minPersist, true).0.store;
             && Inv(store) && store.saving.None? && InSight(store, poll.findings[j])
             && (Asked(store, poll.findings[j]) ==>
                   ReplyTo(poll, poll.findings[j]).Feed? && LegalReply(store, ReplyTo(poll, poll.findings[j])))
    ensures var poll, opening := polls[n], Opening(GateAfter(polls[..n], minPersist, true), polls[n]);
            var (g, emitted) := OnFindings(opening, poll, j, minPersist, true);
            var sig := poll.findings[j];
            && (Persisted(polls, sig, n, minPersist) && !AnyOpen(g.store, sig) ==>
                  OnFindings(opening, poll, j + 1, minPersist, true).1 == emitted + [sig])
            && (!Persisted(polls, sig, n, minPersist) || AnyOpen(g.store, sig) ==>
                  OnFindings(opening, poll, j + 1, minPersist, true).1 == emitted)
  {
    var poll, opening := polls[n], Opening(GateAfter(polls[..n], minPersist, true), polls[n]);
    var sig := poll.findings[j];
    AgeIsPresence(polls, n, j, minPersist, true, sig);
    TrackedEmitsIffNothingOpen(OnFindings(opening, poll, j, minPersist, true).0, poll, sig, minPersist);
  }

  /** What the dedupe takes for open is open, and a tracked event that is open is taken for open. */
  lemma SeenIsOpen(store: Store, sig: string, reply: Reply)
    requires Inv(store) && store.saving.None? && sig in store.ids && InSight(store, sig)
    requires Asked(store, sig) ==> reply.Feed? && LegalReply(store, reply)
    ensures StillOpen(store, store.ids[sig], reply) <==> IsOpen(store, store.ids[sig])
  {
    var id := store.ids[sig];
    if Find(store.ring, id).Some? {
      UniqueCopy(store, id);
    } else if id in OpenRows(store) && id !in reply.ids {
      MissedIsBuried(store, id, reply.ids);
    }
  }

  /** At each finding of the poll the storage answers legally and nothing hides the tracked event. */
  ghost predicate ClearView(g: Gate, poll: Poll, minPersist: int) {
    forall k :: 0 <= k < |poll.findings| ==>
                  var store := OnFindings(g, poll, k, minPersist, true).0.store;
                  && InSight(store, poll.findings[k])
                  && (Asked(store, poll.findings[k]) ==> LegalReply(store, ReplyTo(poll, poll.findings[k])))
  }

  /** Saving the event a sound check has just emitted opens no second one. */
  lemma EmittedSaveIsSafe(store: Store, sig: string, ts: int, reply: Reply, ok: bool)
    requires Inv(store) && store.saving.None? && Inv(EventStore.Step(store, Check(sig, ts, reply)))
    ensures !Hazard(EventStore.Step(store, Check(sig, ts, reply)), SaveDone(ok))
  {
    if !EventStore.Suppressed(store, sig, reply) {
      EmitOpens(store, sig, ts, store.nextId);
    }
  }

  lemma FindingKeepsStore(g: Gate, poll: Poll, sig: string, minPersist: int)
    requires Inv(g.store) && g.store.saving.None?
    requires InSight(g.store, sig) && (Asked(g.store, sig) ==> LegalReply(g.store, ReplyTo(poll, sig)))
    ensures var store := OnFinding(g, poll, sig, minPersist, true).store;
            Inv(store) && store.saving.None?
  {
    var check := Check(sig, poll.ts, ReplyTo(poll, sig));
    InSightIsSafe(g.store, sig, poll.ts, ReplyTo(poll, sig));
    SafeStepKeepsInv(g.store, check);
    EmittedSaveIsSafe(g.store, sig, poll.ts, ReplyTo(poll, sig), sig !in poll.saveFails);
    SafeStepKeepsInv(EventStore.Step(g.store, check), SaveDone(sig !in poll.saveFails));
  }

  /** The store after the first k findings of the poll. */
  ghost predicate SoundAfter(g: Gate, poll: Poll, minPersist: int, k: nat)
    requires k <= |poll.findings|
  {
    var store := OnFindings(g, poll, k, minPersist, true).0.store;
    Inv(store) && store.saving.None?
  }

  lemma NextFindingSound(g: Gate, poll: Poll, k: nat, minPersist: int)
    requires k < |poll.findings| && SoundAfter(g, poll, minPersist, k) && ClearView(g, poll, minPersist)
    ensures SoundAfter(g, poll, minPersist, k + 1)
  {
    FindingKeepsStore(OnFindings(g, poll, k, minPersist, true).0, poll, poll.findings[k], minPersist);
  }

  lemma FindingsKeepStore(g: Gate, poll: Poll, minPersist: int)
    requires SoundAfter(g, poll, minPersist, 0) && ClearView(g, poll, minPersist)
    ensures SoundAfter(g, poll, minPersist, |poll.findings|)
  {
    var sound := (k: nat) => k <= |poll.findings| && SoundAfter(g, poll, minPersist, k);
    forall k: nat | k < |poll.findings| && sound(k) ensures sound(k + 1) {
      NextFindingSound(g, poll, k, minPersist);
    }
    CountUp(|poll.findings|, sound);
  }

  lemma {:induction false} RecoveriesKeepStore(store: Store, poll: Poll, k: nat)
    requires k <= |poll.order| && Inv(store) && store.saving.None?
    ensures Inv(RecoverAll(store, poll, k)) && RecoverAll(store, poll, k).saving.None?
  {
    if k > 0 {
      RecoveriesKeepStore(store, poll, k - 1);
      var before := RecoverAll(store, poll, k - 1);
      SafeStepKeepsInv(before, Recover(poll.order[k - 1], poll.order[k - 1] in poll.resolveFails));
    }
  }

  /** An interruption opens nothing, though it may leave open events forgotten. */
  lemma InterruptionKeepsStore(g: Gate, since: Interruption)
    requires Inv(g.store) && g.store.saving.None?
    ensures Inv(Interrupted(g, since).store) && Interrupted(g, since).store.saving.None?
  {
    if since == Removed {
      SafeStepKeepsInv(g.store, EventStore.Forget);
    } else if since == Restarted {
      SafeStepKeepsInv(g.store, Restart);
    }
  }

  /** A whole tracked poll, whatever storage calls fail in it, keeps the one-open-event invariant. */
  lemma TrackedPollKeepsOneOpen(g: Gate, poll: Poll, minPersist: int)
    requires Inv(g.store) && g.store.saving.None? && ClearView(Opening(g, poll), poll, minPersist)
    ensures var g' := PollStep(g, poll, minPersist, true).0;
            Inv(g'.store) && g'.store.saving.None? && OneOpenPerSignature(g'.store)
  {
    var opening := Opening(g, poll);
    InterruptionKeepsStore(g, poll.since);
    FindingsKeepStore(opening, poll, minPersist);
    RecoveriesKeepStore(OnFindings(opening, poll, |poll.findings|, minPersist, true).0.store, poll, |poll.order|);
  }

  /** So does a run of such polls, through every removal of the connection and every restart between them. */
  lemma {:induction false} TrackedRunKeepsOneOpen(polls: seq<Poll>, minPersist: int)
    requires forall n :: 0 <= n < |polls| ==>
                           ClearView(Opening(GateAfter(polls[..n], minPersist, true), polls[n]), polls[n], minPersist)
    ensures var store := GateAfter(polls, minPersist, true).store;
            Inv(store) && store.saving.None? && OneOpenPerSignature(store)
  {
    if polls != [] {
      var n := |polls| - 1;
      forall k | 0 <= k < n
        ensures ClearView(Opening(GateAfter(polls[..n][..k], minPersist, true), polls[..n][k]), polls[..n][k],
                minPersist)
      {
        assert polls[..n][..k] == polls[..k];
      }
      TrackedRunKeepsOneOpen(polls[..n], minPersist);
      TrackedPollKeepsOneOpen(GateAfter(polls[..n], minPersist, true), polls[n], minPersist);
    }
  }
}

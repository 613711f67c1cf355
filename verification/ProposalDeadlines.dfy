/** Deadlines of a cache proposal, and what each kind of request does when it runs alone. */
module ProposalDeadlines {
  // Approval needs a read strictly before the deadline, edit and rejection one up to it, and the sweep a time from it
  // on. The statements are about the actions of a run and the clock each carries; the last part spells out, for every
  // fate of the awaited calls, the row, the audits and the dispatches one undisturbed request leaves behind.

  import opened Prelude
  import opened ProposalLifecycle

  /** The first step of request `pid`, action `r` of the run, finds the row pending. */
  ghost predicate ReadsPending(row: Row, actions: seq<Action>, r: nat, pid: nat, start: Proc) {
    && r < |actions| && actions[r].Advance? && actions[r].pid == pid && IsStart(start)
    && var before := Run(Initial(row), actions[..r]);
       before.row.status == Pending && pid in before.procs && before.procs[pid] == start
  }

  /** An approval must be read before the deadline; an edit or a rejection may be read at it. */
  predicate InTime(start: Proc, now: int, expiresAt: int) {
    if start.ApproveStart? then now < expiresAt else now <= expiresAt
  }

  ghost predicate TimelyRead(row: Row, actions: seq<Action>, pid: nat, start: Proc) {
    exists r: nat :: ReadsPending(row, actions, r, pid, start) && InTime(start, actions[r].now, row.expiresAt)
  }

  /** What an accepted edit does: it replaces the proposed value of its own kind of proposal, within fixed bounds. */
  ghost predicate Edited(original: Payload, edits: Edits, edited: Payload) {
    || (exists current, old_, x ::
          original == ThresholdAdjust(current, old_) && edits == Edits(Some(x), None) && 0.0 <= x <= 2.0
          && edited == ThresholdAdjust(current, x))
    || (exists current, old_, x ::
          original == ToolTtlAdjust(current, old_) && edits == Edits(None, Some(x)) && 10 <= x <= 86400
          && edited == ToolTtlAdjust(current, x))
  }

  lemma EditIff(original: Payload, edits: Edits, edited: Payload)
    ensures EditPayload(original, edits) == Some(edited) <==> Edited(original, edits, edited)
  {
    if EditPayload(original, edits) == Some(edited) {
      match original
      case ThresholdAdjust(current, old_) => assert edits == Edits(Some(edits.newThreshold.value), None);
      case ToolTtlAdjust(current, old_) => assert edits == Edits(None, Some(edits.newTtlSeconds.value));
      case Invalidate(_, _) =>
    }
  }

  ghost predicate Sweeps(row: Row, actions: seq<Action>, r: nat, pid: nat) {
    && r < |actions| && actions[r].Sweep? && actions[r].pid == pid && row.expiresAt <= actions[r].now
    && Run(Initial(row), actions[..r]).row.status == Pending
  }

  /** A request that may bring the row to `status` with `payload`, and did its first read in time. */
  ghost predicate Entitled(row: Row, actions: seq<Action>, pid: nat, status: Status, payload: Payload) {
    match status
    case Approved =>
      || (TimelyRead(row, actions, pid, ApproveStart) && payload == row.payload)
      || (exists e :: TimelyRead(row, actions, pid, EditStart(e)) && Edited(row.payload, e, payload))
    case Rejected => TimelyRead(row, actions, pid, RejectStart) && payload == row.payload
    case Expired => (exists r: nat :: Sweeps(row, actions, r, pid)) && payload == row.payload
    case _ => false
  }

  // ---------------------------------------------------------------- the decision was in time

  lemma ReadStays(row: Row, init: seq<Action>, a: Action, pid: nat, start: Proc)
    requires TimelyRead(row, init, pid, start)
    ensures TimelyRead(row, init + [a], pid, start)
  {
    var r: nat :| ReadsPending(row, init, r, pid, start) && InTime(start, init[r].now, row.expiresAt);
    assert (init + [a])[..r] == init[..r];
    assert ReadsPending(row, init + [a], r, pid, start);
  }

  lemma EntitlementStays(row: Row, init: seq<Action>, a: Action, pid: nat, status: Status, payload: Payload)
    requires Entitled(row, init, pid, status, payload)
    ensures Entitled(row, init + [a], pid, status, payload)
  {
    match status
    case Approved =>
      if TimelyRead(row, init, pid, ApproveStart) && payload == row.payload {
        ReadStays(row, init, a, pid, ApproveStart);
      } else {
        var e :| TimelyRead(row, init, pid, EditStart(e)) && Edited(row.payload, e, payload);
        ReadStays(row, init, a, pid, EditStart(e));
      }
    case Rejected => ReadStays(row, init, a, pid, RejectStart);
    case Expired =>
      var r: nat :| Sweeps(row, init, r, pid);
      assert (init + [a])[..r] == init[..r];
      assert Sweeps(row, init + [a], r, pid);
    case _ =>
  }

  /** What the compare-and-set a request stands before would do, it is entitled to. */
  ghost predicate CasEntitled(row: Row, actions: seq<Action>, pid: nat, p: Proc) {
    match p
    case ApproveCas => Entitled(row, actions, pid, Approved, row.payload)
    case EditCas(q) => Entitled(row, actions, pid, Approved, q)
    case RejectCas => Entitled(row, actions, pid, Rejected, row.payload)
    case _ => true
  }

  ghost predicate DeadlineInv(row: Row, actions: seq<Action>, s: Sys) {
    && s.row.expiresAt == row.expiresAt
    && (forall pid :: pid in s.procs ==> CasEntitled(row, actions, pid, s.procs[pid]))
    && (s.winner.Some? ==> Branch(s).Some? && Entitled(row, actions, s.winner.value, Branch(s).value, s.row.payload))
  }

  lemma EntitlementsStay(row: Row, init: seq<Action>, a: Action, s: Sys)
    requires DeadlineInv(row, init, s)
    ensures DeadlineInv(row, init + [a], s)
  {
    forall pid | pid in s.procs ensures CasEntitled(row, init + [a], pid, s.procs[pid]) {
      match s.procs[pid]
      case ApproveCas => EntitlementStays(row, init, a, pid, Approved, row.payload);
      case EditCas(q) => EntitlementStays(row, init, a, pid, Approved, q);
      case RejectCas => EntitlementStays(row, init, a, pid, Rejected, row.payload);
      case _ =>
    }
    if s.winner.Some? {
      EntitlementStays(row, init, a, s.winner.value, Branch(s).value, s.row.payload);
    }
  }

  /** The read that moves a request to its compare-and-set entitles it. */
  lemma ReadEntitles(row: Row, init: seq<Action>, a: Action)
    requires var s := Run(Initial(row), init);
             && Inv(s, row.payload) && s.row.expiresAt == row.expiresAt
             && a.Advance? && a.pid in s.procs && IsStart(s.procs[a.pid])
    ensures var s := Run(Initial(row), init);
            CasEntitled(row, init + [a], a.pid, Step(s, a).procs[a.pid])
  {
    var s := Run(Initial(row), init);
    var start, actions := s.procs[a.pid], init + [a];
    assert actions[..|init|] == init;
    if s.row.status == Pending {
      assert ReadsPending(row, actions, |init|, a.pid, start);
      if InTime(start, a.now, row.expiresAt) {
        assert TimelyRead(row, actions, a.pid, start);
        if start.EditStart? && EditPayload(s.row.payload, start.edits).Some? {
          EditIff(row.payload, start.edits, EditPayload(s.row.payload, start.edits).value);
        }
      }
    }
  }

  /** A request stands before its compare-and-set because it did already or just did its first read. */
  lemma DeciderOrigin(s: Sys, a: Action, pid: nat)
    requires pid in Step(s, a).procs && IsDecider(Step(s, a).procs[pid])
    ensures pid in s.procs
    ensures s.procs[pid] == Step(s, a).procs[pid] || (a.Advance? && a.pid == pid && IsStart(s.procs[pid]))
  {
    if a.Advance? && a.pid == pid && pid in s.procs && !IsStart(s.procs[pid]) {
      MovesOn(s, a);
    }
  }

  lemma MovesOn(s: Sys, a: Action)
    requires a.Advance? && a.pid in s.procs && !IsStart(s.procs[a.pid])
    ensures !IsDecider(Step(s, a).procs[a.pid])
  {}

  lemma StepKeepsCasEntitled(row: Row, init: seq<Action>, a: Action, pid: nat)
    requires row.status == Pending
    requires Inv(Run(Initial(row), init), row.payload) && DeadlineInv(row, init, Run(Initial(row), init))
    requires pid in Step(Run(Initial(row), init), a).procs
    ensures CasEntitled(row, init + [a], pid, Step(Run(Initial(row), init), a).procs[pid])
  {
    var s := Run(Initial(row), init);
    var p := Step(s, a).procs[pid];
    if IsDecider(p) {
      DeciderOrigin(s, a, pid);
      if s.procs[pid] == p {
        EntitlementsStay(row, init, a, s);
      } else {
        ReadEntitles(row, init, a);
      }
    }
  }

  /** The step that decides the proposal, and what it makes of the row. */
  ghost predicate DecidedBy(s: Sys, a: Action, row: Row) {
    if a.Sweep? then s.row.expiresAt <= a.now && row == s.row.(status := Expired)
    else
      && a.Advance? && a.pid in s.procs
      && match s.procs[a.pid]
         case ApproveCas => row == s.row.(status := Approved)
         case EditCas(q) => row == s.row.(status := Approved, payload := q)
         case RejectCas => row == s.row.(status := Rejected)
         case _ => false
  }

  lemma WinnerOrigin(s: Sys, a: Action, original: Payload)
    requires Inv(s, original) && Step(s, a).winner != s.winner
    ensures s.row.status == Pending && s.row.payload == original && Step(s, a).winner == Some(a.pid)
    ensures DecidedBy(s, a, Step(s, a).row) && Step(s, a).history == [Pending, Step(s, a).row.status]
  {
    assert s.row.status == Pending;
    assert s.history == [Pending];
  }

  lemma WinnerKept(s: Sys, a: Action, original: Payload)
    requires Inv(s, original) && s.winner.Some?
    ensures Step(s, a).winner == s.winner && Branch(s).Some? && Branch(Step(s, a)) == Branch(s)
    ensures Step(s, a).row.payload == s.row.payload
  {
    StepFreezesPayload(s, a);
    StepExtendsHistory(s, a);
    DecidedHasBranch(s, original);
    if Step(s, a).winner != s.winner {
      WinnerOrigin(s, a, original);
    }
  }

  lemma WinnerEntitled(row: Row, init: seq<Action>, a: Action)
    requires row.status == Pending
    requires Inv(Run(Initial(row), init), row.payload) && DeadlineInv(row, init, Run(Initial(row), init))
    requires Step(Run(Initial(row), init), a).winner.Some?
    ensures var s' := Step(Run(Initial(row), init), a);
            Branch(s').Some? && Entitled(row, init + [a], s'.winner.value, Branch(s').value, s'.row.payload)
  {
    var s := Run(Initial(row), init);
    EntitlementsStay(row, init, a, s);
    if s.winner.Some? {
      WinnerKept(s, a, row.payload);
    } else {
      WinnerOrigin(s, a, row.payload);
      if a.Sweep? {
        assert (init + [a])[..|init|] == init;
        assert Sweeps(row, init + [a], |init|, a.pid);
      } else {
        assert CasEntitled(row, init + [a], a.pid, s.procs[a.pid]);
      }
    }
  }

  lemma DeadlineKept(s: Sys, a: Action)
    ensures Step(s, a).row.expiresAt == s.row.expiresAt
  {}

  lemma StepKeepsDeadlineInv(row: Row, init: seq<Action>, a: Action)
    requires row.status == Pending
    requires Inv(Run(Initial(row), init), row.payload) && DeadlineInv(row, init, Run(Initial(row), init))
    ensures DeadlineInv(row, init + [a], Step(Run(Initial(row), init), a))
  {
    var s' := Step(Run(Initial(row), init), a);
    DeadlineKept(Run(Initial(row), init), a);
    forall pid | pid in s'.procs ensures CasEntitled(row, init + [a], pid, s'.procs[pid]) {
      StepKeepsCasEntitled(row, init, a, pid);
    }
    if s'.winner.Some? {
      WinnerEntitled(row, init, a);
    }
  }

  lemma {:induction false} RunKeepsDeadlineInv(row: Row, actions: seq<Action>)
    requires row.status == Pending
    ensures DeadlineInv(row, actions, Run(Initial(row), actions))
  {
    RunKeepsInv(row, actions);
    if actions != [] {
      var init, a := actions[..|actions| - 1], actions[|actions| - 1];
      RunKeepsDeadlineInv(row, init);
      RunKeepsInv(row, init);
      StepKeepsDeadlineInv(row, init, a);
      assert init + [a] == actions;
    }
  }

  /**
   Under every interleaving: whoever decided the proposal was entitled to. An approval was first read before the
   deadline, an edit or a rejection at the latest at it, and the sweep expired the row no earlier; and the payload is
   the original one, or what one accepted edit read in time makes of it.
   */
  lemma DecisionInTime(row: Row, actions: seq<Action>)
    requires row.status == Pending
    ensures var s := Run(Initial(row), actions);
            && (s.winner.Some? <==> s.row.status != Pending)
            && (s.winner.Some? ==> Branch(s).Some?
                                   && Entitled(row, actions, s.winner.value, Branch(s).value, s.row.payload))
  {
    RunKeepsInv(row, actions);
    RunKeepsDeadlineInv(row, actions);
  }

  // ---------------------------------------------------------------- a timely request settles the proposal

  /** The request asks for a decision this proposal admits. */
  ghost predicate Admissible(start: Proc, payload: Payload) {
    match start
    case ApproveStart => true
    case RejectStart => true
    case EditStart(e) => exists q :: Edited(payload, e, q)
    case _ => false
  }

  lemma TimelyGoesOn(s: Sys, pid: nat, now: int, ok: bool)
    requires s.row.status == Pending && pid in s.procs
    requires IsStart(s.procs[pid]) && Admissible(s.procs[pid], s.row.payload)
    requires InTime(s.procs[pid], now, s.row.expiresAt)
    ensures var s' := Step(s, Advance(pid, now, ok));
            s'.row == s.row && IsDecider(s'.procs[pid])
  {
    if s.procs[pid].EditStart? {
      var q :| Edited(s.row.payload, s.procs[pid].edits, q);
      EditIff(s.row.payload, s.procs[pid].edits, q);
    }
  }

  lemma DeciderWaits(s: Sys, a: Action, pid: nat)
    requires s.row.status == Pending && Step(s, a).row.status == Pending
    requires pid in s.procs && IsDecider(s.procs[pid])
    ensures pid in Step(s, a).procs && IsDecider(Step(s, a).procs[pid])
  {}

  /** While the proposal is pending, a request that read it in time still stands before its compare-and-set. */
  lemma {:induction false} TimelyWaits(row: Row, actions: seq<Action>, r: nat, pid: nat, start: Proc)
    requires row.status == Pending && ReadsPending(row, actions, r, pid, start)
    requires InTime(start, actions[r].now, row.expiresAt) && Admissible(start, row.payload)
    requires Run(Initial(row), actions).row.status == Pending
    ensures pid in Run(Initial(row), actions).procs && IsDecider(Run(Initial(row), actions).procs[pid])
    decreases |actions|
  {
    var init, a := actions[..|actions| - 1], actions[|actions| - 1];
    var s := Run(Initial(row), init);
    RunKeepsInv(row, init);
    RunKeepsDeadlineInv(row, init);
    if r == |init| {
      assert actions[..r] == init;
      TimelyGoesOn(s, pid, a.now, a.ok);
    } else {
      assert init[..r] == actions[..r];
      if s.row.status != Pending {
        StepFreezesPayload(s, a);
      }
      TimelyWaits(row, init, r, pid, start);
      DeciderWaits(s, a, pid);
    }
  }

  /**
   An approval, a rejection or an acceptable edit that read the proposal pending in time never ends with it undecided.
   */
  lemma TimelyRequestSettles(row: Row, actions: seq<Action>, pid: nat, start: Proc)
    requires row.status == Pending && TimelyRead(row, actions, pid, start) && Admissible(start, row.payload)
    requires pid in Run(Initial(row), actions).procs && Run(Initial(row), actions).procs[pid] == Done
    ensures Run(Initial(row), actions).row.status != Pending
  {
    var r: nat :| ReadsPending(row, actions, r, pid, start) && InTime(start, actions[r].now, row.expiresAt);
    if Run(Initial(row), actions).row.status == Pending {
      TimelyWaits(row, actions, r, pid, start);
    }
  }

  // ---------------------------------------------------------------- one request alone

  /**
   Request `pid` starts and takes `n` steps undisturbed: step `i` at time `clock(i)`, its call having fate `ok(i)`.
   */
  function After(s: Sys, pid: nat, start: Proc, clock: nat -> int, ok: nat -> bool, n: nat): Sys {
    if n == 0 then Step(s, Spawn(pid, start))
    else Step(After(s, pid, start, clock, ok, n - 1), Advance(pid, clock(n - 1), ok(n - 1)))
  }

  function Alone(pid: nat, start: Proc, clock: nat -> int, ok: nat -> bool, n: nat): seq<Action> {
    if n == 0 then [Spawn(pid, start)]
    else Alone(pid, start, clock, ok, n - 1) + [Advance(pid, clock(n - 1), ok(n - 1))]
  }

  /** The undisturbed request is a run like any other. */
  lemma {:induction false} AloneIsARun(s: Sys, pid: nat, start: Proc, clock: nat -> int, ok: nat -> bool, n: nat)
    ensures After(s, pid, start, clock, ok, n) == Run(s, Alone(pid, start, clock, ok, n))
  {
    if n == 0 {
      RunSnoc(s, [], Spawn(pid, start));
      assert [] + [Spawn(pid, start)] == [Spawn(pid, start)];
    } else {
      AloneIsARun(s, pid, start, clock, ok, n - 1);
      RunSnoc(s, Alone(pid, start, clock, ok, n - 1), Advance(pid, clock(n - 1), ok(n - 1)));
    }
  }

  lemma {:induction false} DoneStays(s: Sys, pid: nat, start: Proc, clock: nat -> int, ok: nat -> bool, m: nat, n: nat)
    requires m <= n && pid in After(s, pid, start, clock, ok, m).procs
    requires After(s, pid, start, clock, ok, m).procs[pid] == Done
    ensures After(s, pid, start, clock, ok, n) == After(s, pid, start, clock, ok, m)
  {
    hide Step;
    if m < n {
      DoneStays(s, pid, start, clock, ok, m, n - 1);
      StepOfDone(After(s, pid, start, clock, ok, n - 1), Advance(pid, clock(n - 1), ok(n - 1)));
    }
  }

  lemma StepOfDone(s: Sys, a: Action)
    requires a.Advance? && a.pid in s.procs && s.procs[a.pid] == Done
    ensures Step(s, a) == s
  {}

  /** The shared state is `s` with this row and these appended audits and dispatches, and the request is done. */
  ghost predicate Leaves(s: Sys, s': Sys, pid: nat, row: Row, audits: seq<AuditKind>, dispatches: seq<Payload>) {
    && s'.row == row && s'.audits == s.audits + audits && s'.dispatches == s.dispatches + dispatches
    && s'.procs == s.procs[pid := Done]
  }

  function When<T>(b: bool, x: T): seq<T> { if b then [x] else [] }

  /**
   What a won approval of `row` leaves: if the audit of the decision was written, a dispatch of the payload, a row
   applied or failed as the dispatch went, and the audit of that if it was written; otherwise just the approved row.
   */
  ghost predicate LeavesApproved(s: Sys, s': Sys, pid: nat, row: Row, kind: AuditKind, audited: bool, sent: bool,
                                 written: bool) {
    if audited
    then Leaves(s, s', pid, row.(status := if sent then Applied else Failed),
                [kind] + When(written, if sent then AppliedAudit else FailedAudit), [row.payload])
    else Leaves(s, s', pid, row.(status := Approved), [], [])
  }

  lemma AuditStep(t: Sys, pid: nat, kind: AuditKind, now: int, ok: bool)
    requires pid in t.procs && t.row.status == Approved && t.procs[pid] == DecisionAudit(kind, Some(t.row))
    ensures ok ==> Step(t, Advance(pid, now, ok)) == Goto(t.(audits := t.audits + [kind]), pid, Dispatching(t.row))
    ensures !ok ==> Step(t, Advance(pid, now, ok)) == Goto(t, pid, Done)
  {}

  lemma DispatchStep(t: Sys, pid: nat, now: int, ok: bool)
    requires pid in t.procs && t.procs[pid] == Dispatching(t.row)
    ensures Step(t, Advance(pid, now, ok))
         == Goto(t.(dispatches := t.dispatches + [t.row.payload], senders := t.senders + {pid}), pid,
                 Dispatched(t.row, ok))
  {}

  lemma FinishStep(t: Sys, pid: nat, now: int, ok: bool, sent: bool)
    requires pid in t.procs && t.procs[pid] == Dispatched(t.row, sent) && t.row.status == Approved
    ensures var status := if sent then Applied else Failed;
            Step(t, Advance(pid, now, ok)) == Goto(t.(row := t.row.(status := status), history := t.history + [status]),
                                                   pid, ApplyAudit(if sent then AppliedAudit else FailedAudit))
  {}

  lemma OutcomeStep(t: Sys, pid: nat, now: int, ok: bool, kind: AuditKind)
    requires pid in t.procs && t.procs[pid] == ApplyAudit(kind)
    ensures Step(t, Advance(pid, now, ok)) == Goto(t.(audits := t.audits + When(ok, kind)), pid, Done)
  {
    assert t.audits + [] == t.audits;
  }

  lemma ThreeStepsLeave(t0: Sys, t1: Sys, t2: Sys, t3: Sys, pid: nat, sent: bool, written: bool, a: Action, b: Action,
                        c: Action)
    requires a.Advance? && a.pid == pid && a.ok == sent && b.Advance? && b.pid == pid
    requires c.Advance? && c.pid == pid && c.ok == written
    requires t0.row.status == Approved && pid in t0.procs && t0.procs[pid] == Dispatching(t0.row)
    requires t1 == Step(t0, a) && t2 == Step(t1, b) && t3 == Step(t2, c)
    ensures Leaves(t0, t3, pid, t0.row.(status := if sent then Applied else Failed),
                   When(written, if sent then AppliedAudit else FailedAudit), [t0.row.payload])
  {
    DispatchStep(t0, pid, a.now, sent);
    FinishStep(t1, pid, b.now, b.ok, sent);
    OutcomeStep(t2, pid, c.now, written, if sent then AppliedAudit else FailedAudit);
  }

  /** The steps from the dispatch on: dispatch, final compare-and-set, audit of the outcome. */
  lemma DispatchAlone(s: Sys, pid: nat, start: Proc, clock: nat -> int, ok: nat -> bool, m: nat)
    requires var t := After(s, pid, start, clock, ok, m);
             t.row.status == Approved && pid in t.procs && t.procs[pid] == Dispatching(t.row)
    ensures var t := After(s, pid, start, clock, ok, m);
            Leaves(t, After(s, pid, start, clock, ok, m + 3), pid,
                   t.row.(status := if ok(m) then Applied else Failed),
                   When(ok(m + 2), if ok(m) then AppliedAudit else FailedAudit), [t.row.payload])
  {
    ThreeStepsLeave(After(s, pid, start, clock, ok, m), After(s, pid, start, clock, ok, m + 1),
                    After(s, pid, start, clock, ok, m + 2), After(s, pid, start, clock, ok, m + 3),
                    pid, ok(m), ok(m + 2), Advance(pid, clock(m), ok(m)), Advance(pid, clock(m + 1), ok(m + 1)),
                    Advance(pid, clock(m + 2), ok(m + 2)));
  }

  lemma AuditedAlone(s: Sys, pid: nat, start: Proc, clock: nat -> int, ok: nat -> bool, m: nat, kind: AuditKind, t: Sys)
    requires t == After(s, pid, start, clock, ok, m) && ok(m)
    requires t.row.status == Approved && pid in t.procs && t.procs[pid] == DecisionAudit(kind, Some(t.row))
    ensures Leaves(t, After(s, pid, start, clock, ok, m + 4), pid,
                   t.row.(status := if ok(m + 1) then Applied else Failed),
                   [kind] + When(ok(m + 3), if ok(m + 1) then AppliedAudit else FailedAudit), [t.row.payload])
  {
    AuditStep(t, pid, kind, clock(m), ok(m));
    var t1 := After(s, pid, start, clock, ok, m + 1);
    DispatchAlone(s, pid, start, clock, ok, m + 1);
    LeavesAfter(t, t1, After(s, pid, start, clock, ok, m + 4), pid, kind, ok(m + 1),
                When(ok(m + 3), if ok(m + 1) then AppliedAudit else FailedAudit));
  }

  lemma UnauditedAlone(s: Sys, pid: nat, start: Proc, clock: nat -> int, ok: nat -> bool, m: nat, kind: AuditKind,
                       t: Sys)
    requires t == After(s, pid, start, clock, ok, m) && !ok(m)
    requires t.row.status == Approved && pid in t.procs && t.procs[pid] == DecisionAudit(kind, Some(t.row))
    ensures Leaves(t, After(s, pid, start, clock, ok, m + 4), pid, t.row, [], [])
  {
    AuditStep(t, pid, kind, clock(m), ok(m));
    LeavesNow(t, After(s, pid, start, clock, ok, m + 1), pid);
    DoneStays(s, pid, start, clock, ok, m + 1, m + 4);
  }

  /** The steps from a won approval on: the audit of the decision, then the dispatch if that was written. */
  lemma ApprovedAlone(s: Sys, pid: nat, start: Proc, clock: nat -> int, ok: nat -> bool, m: nat, kind: AuditKind,
                      t: Sys)
    requires t == After(s, pid, start, clock, ok, m)
    requires t.row.status == Approved && pid in t.procs && t.procs[pid] == DecisionAudit(kind, Some(t.row))
    ensures LeavesApproved(t, After(s, pid, start, clock, ok, m + 4), pid, t.row, kind, ok(m), ok(m + 1), ok(m + 3))
  {
    if ok(m) {
      AuditedAlone(s, pid, start, clock, ok, m, kind, t);
    } else {
      UnauditedAlone(s, pid, start, clock, ok, m, kind, t);
    }
  }

  lemma LeavesNow(t: Sys, t1: Sys, pid: nat)
    requires t1 == Goto(t, pid, Done)
    ensures Leaves(t, t1, pid, t.row, [], [])
  {}

  lemma LeavesAfter(t: Sys, t1: Sys, u: Sys, pid: nat, kind: AuditKind, sent: bool, outcome: seq<AuditKind>)
    requires t1 == Goto(t.(audits := t.audits + [kind]), pid, Dispatching(t.row))
    requires Leaves(t1, u, pid, t.row.(status := if sent then Applied else Failed), outcome, [t.row.payload])
    ensures Leaves(t, u, pid, t.row.(status := if sent then Applied else Failed), [kind] + outcome, [t.row.payload])
  {}

  /** The two steps to a won decision of a pending row. */
  lemma DecidedAlone(s: Sys, pid: nat, start: Proc, clock: nat -> int, ok: nat -> bool, row: Row, kind: AuditKind)
    requires pid !in s.procs && s.row.status == Pending && IsStart(start) && InTime(start, clock(0), s.row.expiresAt)
    requires match start
             case ApproveStart => row == s.row.(status := Approved) && kind == ApprovedAudit
             case EditStart(e) =>
               row.status == Approved && row.expiresAt == s.row.expiresAt && Edited(s.row.payload, e, row.payload)
               && kind == EditedAudit
             case RejectStart => row == s.row.(status := Rejected) && kind == RejectedAudit
             case _ => false
    ensures var t := After(s, pid, start, clock, ok, 2);
            && t.row == row && t.audits == s.audits && t.dispatches == s.dispatches
            && t.procs == s.procs[pid := DecisionAudit(kind, if row.status == Approved then Some(row) else None)]
  {
    var t0, t1 := After(s, pid, start, clock, ok, 0), After(s, pid, start, clock, ok, 1);
    assert t0 == Goto(s, pid, start);
    if start.EditStart? {
      EditIff(s.row.payload, start.edits, row.payload);
    }
    var cas := if start.ApproveStart? then ApproveCas else if start.EditStart? then EditCas(row.payload) else RejectCas;
    assert t1 == Goto(t0, pid, cas);
    assert After(s, pid, start, clock, ok, 2) == Step(t1, Advance(pid, clock(1), ok(1)));
  }

  lemma RefusedAlone(s: Sys, pid: nat, start: Proc, clock: nat -> int, ok: nat -> bool, n: nat)
    requires pid !in s.procs && s.row.status == Pending && n > 0 && IsStart(start) && !start.EvaluateStart?
    requires !InTime(start, clock(0), s.row.expiresAt) || !Admissible(start, s.row.payload)
    ensures Leaves(s, After(s, pid, start, clock, ok, n), pid, s.row, [], [])
  {
    if start.EditStart? && EditPayload(s.row.payload, start.edits).Some? {
      EditIff(s.row.payload, start.edits, EditPayload(s.row.payload, start.edits).value);
    }
    DoneStays(s, pid, start, clock, ok, 1, n);
  }

  lemma SameStart(s: Sys, t: Sys, u: Sys, pid: nat, row: Row, kind: AuditKind, audited: bool, sent: bool, written: bool)
    requires t.audits == s.audits && t.dispatches == s.dispatches && t.procs.Keys == s.procs.Keys + {pid}
    requires forall q :: q in s.procs && q != pid ==> t.procs[q] == s.procs[q]
    requires LeavesApproved(t, u, pid, row, kind, audited, sent, written)
    ensures LeavesApproved(s, u, pid, row, kind, audited, sent, written)
  {
    assert t.procs[pid := Done] == s.procs[pid := Done];
  }

  lemma WonAlone(s: Sys, pid: nat, start: Proc, clock: nat -> int, ok: nat -> bool, n: nat, row: Row, kind: AuditKind)
    requires pid !in s.procs && s.row.status == Pending && InTime(start, clock(0), s.row.expiresAt) && n >= 6
    requires row.status == Approved && row.expiresAt == s.row.expiresAt
    requires (start.ApproveStart? && row.payload == s.row.payload && kind == ApprovedAudit)
          || (start.EditStart? && Edited(s.row.payload, start.edits, row.payload) && kind == EditedAudit)
    ensures LeavesApproved(s, After(s, pid, start, clock, ok, n), pid, row, kind, ok(2), ok(3), ok(5))
  {
    hide After;
    var t := After(s, pid, start, clock, ok, 2);
    DecidedAlone(s, pid, start, clock, ok, row, kind);
    ApprovedAlone(s, pid, start, clock, ok, 2, kind, t);
    SameStart(s, t, After(s, pid, start, clock, ok, 6), pid, row, kind, ok(2), ok(3), ok(5));
    DoneStays(s, pid, start, clock, ok, 6, n);
  }

  /**
   An approval alone: before the deadline it approves the row and carries that through; from then on it does nothing.
   */
  lemma ApproveAlone(s: Sys, pid: nat, clock: nat -> int, ok: nat -> bool, n: nat)
    requires pid !in s.procs && s.row.status == Pending && n >= 6
    ensures var s' := After(s, pid, ApproveStart, clock, ok, n);
            if s.row.expiresAt <= clock(0) then Leaves(s, s', pid, s.row, [], [])
            else LeavesApproved(s, s', pid, s.row.(status := Approved), ApprovedAudit, ok(2), ok(3), ok(5))
  {
    if s.row.expiresAt <= clock(0) {
      RefusedAlone(s, pid, ApproveStart, clock, ok, n);
    } else {
      WonAlone(s, pid, ApproveStart, clock, ok, n, s.row.(status := Approved), ApprovedAudit);
    }
  }

  /**
   An edit alone: an acceptable one read no later than the deadline approves the row with the edited payload, which is
   then what is dispatched; any other leaves everything as it was.
   */
  lemma EditAlone(s: Sys, pid: nat, edits: Edits, clock: nat -> int, ok: nat -> bool, n: nat)
    requires pid !in s.procs && s.row.status == Pending && n >= 6
    ensures var s' := After(s, pid, EditStart(edits), clock, ok, n);
            && (clock(0) > s.row.expiresAt || !Admissible(EditStart(edits), s.row.payload) ==>
                  Leaves(s, s', pid, s.row, [], []))
            && (forall q :: clock(0) <= s.row.expiresAt && Edited(s.row.payload, edits, q) ==>
                  LeavesApproved(s, s', pid, s.row.(status := Approved, payload := q), EditedAudit,
                                 ok(2), ok(3), ok(5)))
  {
    var start := EditStart(edits);
    if clock(0) > s.row.expiresAt || !Admissible(EditStart(edits), s.row.payload) {
      RefusedAlone(s, pid, start, clock, ok, n);
    }
    forall q | clock(0) <= s.row.expiresAt && Edited(s.row.payload, edits, q)
      ensures LeavesApproved(s, After(s, pid, start, clock, ok, n), pid, s.row.(status := Approved, payload := q),
                             EditedAudit, ok(2), ok(3), ok(5)) {
      WonAlone(s, pid, start, clock, ok, n, s.row.(status := Approved, payload := q), EditedAudit);
    }
  }

  /** A rejection alone: read no later than the deadline it rejects the row and audits that; it never dispatches. */
  lemma RejectAlone(s: Sys, pid: nat, clock: nat -> int, ok: nat -> bool, n: nat)
    requires pid !in s.procs && s.row.status == Pending && n >= 3
    ensures var s' := After(s, pid, RejectStart, clock, ok, n);
            if clock(0) > s.row.expiresAt then Leaves(s, s', pid, s.row, [], [])
            else Leaves(s, s', pid, s.row.(status := Rejected), When(ok(2), RejectedAudit), [])
  {
    if clock(0) > s.row.expiresAt {
      RefusedAlone(s, pid, RejectStart, clock, ok, n);
    } else {
      DecidedAlone(s, pid, RejectStart, clock, ok, s.row.(status := Rejected), RejectedAudit);
        DoneStays(s, pid, RejectStart, clock, ok, 3, n);
    }
  }

  lemma TurnedAway(s: Sys, pid: nat, start: Proc, clock: nat -> int, ok: nat -> bool, n: nat)
    requires pid !in s.procs && s.row.status != Pending && n >= 1 && IsStart(start) && !start.EvaluateStart?
    requires start.ApproveStart? ==> s.row.status != Approved
    ensures Leaves(s, After(s, pid, start, clock, ok, n), pid, s.row, [], [])
  {
    var t0 := After(s, pid, start, clock, ok, 0);
    assert t0 == Goto(s, pid, start);
    assert After(s, pid, start, clock, ok, 1) == Goto(t0, pid, Done);
    DoneStays(s, pid, start, clock, ok, 1, n);
  }

  lemma HandedOn(s: Sys, pid: nat, clock: nat -> int, ok: nat -> bool, n: nat)
    requires pid !in s.procs && s.row.status == Approved && n >= 4
    ensures Leaves(s, After(s, pid, ApproveStart, clock, ok, n), pid,
                   s.row.(status := if ok(1) then Applied else Failed),
                   When(ok(3), if ok(1) then AppliedAudit else FailedAudit), [s.row.payload])
  {
    var t0, t := After(s, pid, ApproveStart, clock, ok, 0), After(s, pid, ApproveStart, clock, ok, 1);
    assert t0 == Goto(s, pid, ApproveStart);
    assert t == Goto(t0, pid, Dispatching(s.row));
    DispatchAlone(s, pid, ApproveStart, clock, ok, 1);
    assert t.procs[pid := Done] == s.procs[pid := Done];
    DoneStays(s, pid, ApproveStart, clock, ok, 4, n);
  }

  /**
   A request for a row already decided: an approval dispatches an approved row as it stands, anything else is refused.
   */
  lemma SettledAlone(s: Sys, pid: nat, start: Proc, clock: nat -> int, ok: nat -> bool, n: nat)
    requires pid !in s.procs && s.row.status != Pending && n >= 4
    requires start.ApproveStart? || start.EditStart? || start.RejectStart?
    ensures var s' := After(s, pid, start, clock, ok, n);
            if start.ApproveStart? && s.row.status == Approved
            then Leaves(s, s', pid, s.row.(status := if ok(1) then Applied else Failed),
                        When(ok(3), if ok(1) then AppliedAudit else FailedAudit), [s.row.payload])
            else Leaves(s, s', pid, s.row, [], [])
  {
    if start.ApproveStart? && s.row.status == Approved {
      HandedOn(s, pid, clock, ok, n);
    } else {
      TurnedAway(s, pid, start, clock, ok, n);
    }
  }

  /** The evaluation of an applied proposal alone adds its audit and changes nothing; any other row it leaves alone. */
  lemma EvaluateAlone(s: Sys, pid: nat, clock: nat -> int, ok: nat -> bool, n: nat)
    requires pid !in s.procs && n >= 3
    ensures Leaves(s, After(s, pid, EvaluateStart, clock, ok, n), pid, s.row,
                   When(s.row.status == Applied && ok(1), EvaluatedAudit), [])
  {
    var t0, t1 := After(s, pid, EvaluateStart, clock, ok, 0), After(s, pid, EvaluateStart, clock, ok, 1);
    assert t0 == Goto(s, pid, EvaluateStart);
    if s.row.status == Applied {
      var t2 := After(s, pid, EvaluateStart, clock, ok, 2);
      assert t1 == Goto(t0, pid, EvaluateAudit);
      assert t2 == Step(t1, Advance(pid, clock(1), ok(1)));
      if ok(1) {
        assert After(s, pid, EvaluateStart, clock, ok, 3).procs[pid] == Done;
        DoneStays(s, pid, EvaluateStart, clock, ok, 3, n);
      } else {
        DoneStays(s, pid, EvaluateStart, clock, ok, 2, n);
      }
    } else {
      assert t1 == Goto(t0, pid, Done);
      DoneStays(s, pid, EvaluateStart, clock, ok, 1, n);
    }
  }

  /** The sweep alone: from the deadline on it expires a pending row and audits that; before, it leaves no trace. */
  lemma SweepAlone(s: Sys, pid: nat, now: int, later: int, ok: bool)
    requires pid !in s.procs
    ensures var s' := Run(s, [Sweep(pid, now), Advance(pid, later, ok)]);
            if s.row.status == Pending && s.row.expiresAt <= now
            then Leaves(s, s', pid, s.row.(status := Expired), When(ok, ExpiredAudit), [])
            else s' == s
  {
    RunTwo(s, Sweep(pid, now), Advance(pid, later, ok));
  }
}

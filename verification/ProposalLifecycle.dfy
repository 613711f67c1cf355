/** The lifecycle of one cache proposal as interleaved requests over one row. */
module ProposalLifecycle {
  // Approve, edit-and-approve, reject, the expiry sweep, apply and the outcome evaluation are asynchronous requests
  // that race on one stored row through compare-and-set. Every await is an interleaving point: a request is a program
  // counter, and a run is any sequence of single steps of any requests.

  import opened Prelude

  datatype Status = Pending | Approved | Rejected | Expired | Applied | Failed

  datatype Payload =
    | ThresholdAdjust(current: real, proposed: real)
    | ToolTtlAdjust(currentTtl: int, proposedTtl: int)
    | Invalidate(filter: string, estimated: int)

  datatype Edits = Edits(newThreshold: Option<real>, newTtlSeconds: Option<int>)

  datatype Row = Row(status: Status, payload: Payload, expiresAt: int)

  datatype AuditKind =
    | ApprovedAudit | EditedAudit | RejectedAudit | ExpiredAudit
    | AppliedAudit | FailedAudit | EvaluatedAudit

  /** The payload an edit produces; None where the service refuses the edit. */
  function EditPayload(p: Payload, e: Edits): Option<Payload> {
    match p
    case Invalidate(_, _) => None
    case ThresholdAdjust(current, _) =>
      if e.newThreshold.None? || e.newTtlSeconds.Some? || !(0.0 <= e.newThreshold.value <= 2.0) then None
      else Some(ThresholdAdjust(current, e.newThreshold.value))
    case ToolTtlAdjust(currentTtl, _) =>
      if e.newTtlSeconds.None? || e.newThreshold.Some? || !(10 <= e.newTtlSeconds.value <= 86400) then None
      else Some(ToolTtlAdjust(currentTtl, e.newTtlSeconds.value))
  }

  // ---------------------------------------------------------------- the stored row

  /** Compare-and-set: the new row if the current status is expected, None otherwise. */
  function CasRow(row: Row, expected: set<Status>, status: Status, payload: Option<Payload>): Option<Row> {
    if row.status in expected
    then Some(row.(status := status, payload := if payload.Some? then payload.value else row.payload))
    else None
  }

  predicate Expirable(row: Row, now: int) { row.status == Pending && row.expiresAt <= now }

  function ExpireRow(row: Row, now: int): Row {
    if Expirable(row, now) then row.(status := Expired) else row
  }

  /** The storage adapter's proposal table; each method is one atomic storage command. */
  class ProposalTable {
    var rows: map<string, Row>

    constructor ()
      ensures rows == map[]
    {
      rows := map[];
    }

    method UpdateStatus(id: string, expected: set<Status>, status: Status, payload: Option<Payload>)
      returns (updated: Option<Row>)
      modifies this
      ensures updated == if id in old(rows) then CasRow(old(rows)[id], expected, status, payload) else None
      ensures rows == if updated.Some? then old(rows)[id := updated.value] else old(rows)
    {
      if id !in rows || rows[id].status !in expected {
        return None;
      }
      var row := rows[id];
      row := row.(status := status);
      if payload.Some? {
        row := row.(payload := payload.value);
      }
      rows := rows[id := row];
      return Some(row);
    }

    /** Expires every pending row whose deadline has passed and reports which. */
    method ExpireBefore(now: int) returns (expired: set<string>)
      modifies this
      ensures rows == map id | id in old(rows) :: ExpireRow(old(rows)[id], now)
      ensures expired == set id | id in old(rows) && Expirable(old(rows)[id], now)
    {
      expired := {};
      var todo := rows.Keys;
      while todo != {}
        invariant todo <= old(rows).Keys && rows.Keys == old(rows).Keys
        invariant forall id :: id in todo ==> rows[id] == old(rows)[id]
        invariant forall id :: id in old(rows) && id !in todo ==> rows[id] == ExpireRow(old(rows)[id], now)
        invariant expired == set id | id in old(rows) && id !in todo && Expirable(old(rows)[id], now)
        decreases |todo|
      {
        var id :| id in todo;
        if rows[id].status == Pending && rows[id].expiresAt <= now {
          rows := rows[id := rows[id].(status := Expired)];
          expired := expired + {id};
        }
        todo := todo - {id};
      }
    }
  }

  // ---------------------------------------------------------------- requests as program counters

  datatype Proc =
    | ApproveStart
    | ApproveCas
    | ApproveReread
    | EditStart(edits: Edits)
    | EditCas(newPayload: Payload)
    | RejectStart
    | RejectCas
    | DecisionAudit(kind: AuditKind, approved: Option<Row>)
    | Dispatching(view: Row)
    | Dispatched(sent: Row, ok: bool)
    | ApplyAudit(outcome: AuditKind)
    | EvaluateStart
    | EvaluateAudit
    | EvaluateCas
    | Done

  /** `audits` and `dispatches` are append-only; `history`, `winner` and `senders` are bookkeeping for the claims. */
  datatype Sys = Sys(row: Row, procs: map<nat, Proc>, audits: seq<AuditKind>, dispatches: seq<Payload>,
                     history: seq<Status>, winner: Option<nat>, senders: set<nat>)

  datatype Action =
    | Spawn(pid: nat, start: Proc)
    | Sweep(pid: nat, now: int)
    | Advance(pid: nat, now: int, ok: bool)

  predicate IsStart(p: Proc) { p.ApproveStart? || p.EditStart? || p.RejectStart? || p.EvaluateStart? }

  function Initial(row: Row): Sys { Sys(row, map[], [], [], [row.status], None, {}) }

  function Goto(s: Sys, pid: nat, p: Proc): Sys { s.(procs := s.procs[pid := p]) }

  function SetRow(s: Sys, row: Row): Sys {
    s.(row := row, history := if row.status == s.row.status then s.history else s.history + [row.status])
  }

  function AppendAudit(s: Sys, kind: AuditKind, ok: bool): Sys {
    if ok then s.(audits := s.audits + [kind]) else s
  }

  predicate ApprovedOrLater(status: Status) { status == Approved || status == Applied || status == Failed }

  /** Where `runApply` goes with a row: an already applied or failed one is returned as it is. */
  function ApplyNext(view: Row): Proc { if view.status == Approved then Dispatching(view) else Done }

  /** The decision compare-and-set of approve, edit and reject: only a pending row can be decided. */
  function Decide(s: Sys, pid: nat, status: Status, payload: Option<Payload>, kind: AuditKind, lost: Proc): Sys {
    match CasRow(s.row, {Pending}, status, payload)
    case None => Goto(s, pid, lost)
    case Some(row) =>
      Goto(SetRow(s, row).(winner := Some(pid)), pid,
           DecisionAudit(kind, if status == Approved then Some(row) else None))
  }

  /** The final compare-and-set of apply; a failed outcome is audited even when it lost. */
  function Finish(s: Sys, pid: nat, ok: bool): Sys {
    var status := if ok then Applied else Failed;
    match CasRow(s.row, {Approved}, status, None)
    case Some(row) => Goto(SetRow(s, row), pid, ApplyAudit(if ok then AppliedAudit else FailedAudit))
    case None => Goto(s, pid, if ok then Done else ApplyAudit(FailedAudit))
  }

  /** One step of one request. `now` is the clock, `ok` the fate of the awaited call. */
  function AdvanceProc(s: Sys, pid: nat, p: Proc, now: int, ok: bool): Sys {
    match p
    case ApproveStart =>
      if ApprovedOrLater(s.row.status) then Goto(s, pid, ApplyNext(s.row))
      else if s.row.status != Pending || s.row.expiresAt <= now then Goto(s, pid, Done)
      else Goto(s, pid, ApproveCas)
    case ApproveCas => Decide(s, pid, Approved, None, ApprovedAudit, ApproveReread)
    case ApproveReread =>
      if ApprovedOrLater(s.row.status) then Goto(s, pid, ApplyNext(s.row)) else Goto(s, pid, Done)
    case EditStart(edits) =>
      var edited := EditPayload(s.row.payload, edits);
      if s.row.status != Pending || s.row.expiresAt < now || edited.None? then Goto(s, pid, Done)
      else Goto(s, pid, EditCas(edited.value))
    case EditCas(newPayload) => Decide(s, pid, Approved, Some(newPayload), EditedAudit, Done)
    case RejectStart =>
      if s.row.status != Pending || s.row.expiresAt < now then Goto(s, pid, Done) else Goto(s, pid, RejectCas)
    case RejectCas => Decide(s, pid, Rejected, None, RejectedAudit, Done)
    case DecisionAudit(kind, approved) =>
      // A failed append throws, so nothing is dispatched by this request.
      Goto(AppendAudit(s, kind, ok), pid, if ok && approved.Some? then ApplyNext(approved.value) else Done)
    case Dispatching(view) =>
      Goto(s.(dispatches := s.dispatches + [view.payload], senders := s.senders + {pid}), pid, Dispatched(view, ok))
    case Dispatched(_, sentOk) => Finish(s, pid, sentOk)
    case ApplyAudit(kind) => Goto(AppendAudit(s, kind, ok), pid, Done)
    case EvaluateStart => Goto(s, pid, if s.row.status == Applied then EvaluateAudit else Done)
    case EvaluateAudit => Goto(AppendAudit(s, EvaluatedAudit, ok), pid, if ok then EvaluateCas else Done)
    case EvaluateCas =>
      // Rewrites the applied result only; status and payload stay.
      (match CasRow(s.row, {Applied}, Applied, None)
       case None => Goto(s, pid, Done)
       case Some(row) => Goto(SetRow(s, row), pid, Done))
    case Done => s
  }

  function Step(s: Sys, a: Action): Sys {
    match a
    case Spawn(pid, start) => if pid in s.procs || !IsStart(start) then s else Goto(s, pid, start)
    case Sweep(pid, now) =>
      if pid in s.procs || !Expirable(s.row, now) then s
      else Goto(SetRow(s, ExpireRow(s.row, now)).(winner := Some(pid)), pid, DecisionAudit(ExpiredAudit, None))
    case Advance(pid, now, ok) =>
      if pid !in s.procs then s else AdvanceProc(s, pid, s.procs[pid], now, ok)
  }

  function Run(s: Sys, actions: seq<Action>): Sys {
    if actions == [] then s else Step(Run(s, actions[..|actions| - 1]), actions[|actions| - 1])
  }

  // ---------------------------------------------------------------- the invariant

  predicate IsDecision(kind: AuditKind) {
    kind == ApprovedAudit || kind == EditedAudit || kind == RejectedAudit || kind == ExpiredAudit
  }

  function Decisions(audits: seq<AuditKind>): seq<AuditKind> { Filter(audits, IsDecision) }

  /** pending -> one of approved/rejected/expired, and approved -> at most one of applied/failed. */
  ghost predicate LegalHistory(h: seq<Status>) {
    && 1 <= |h| <= 3
    && h[0] == Pending
    && (|h| > 1 ==> h[1] == Approved || h[1] == Rejected || h[1] == Expired)
    && (|h| > 2 ==> h[1] == Approved && (h[2] == Applied || h[2] == Failed))
  }

  /** The payload is what some accepted edit makes of the original. */
  ghost predicate EditOf(original: Payload, edited: Payload) { exists e :: EditPayload(original, e) == Some(edited) }

  /** A decision audit names the branch the row took, and the payload that branch froze. */
  ghost predicate Matches(kind: AuditKind, row: Row, original: Payload) {
    match kind
    case ApprovedAudit => ApprovedOrLater(row.status) && row.payload == original
    case EditedAudit => ApprovedOrLater(row.status) && EditOf(original, row.payload)
    case RejectedAudit => row.status == Rejected && row.payload == original
    case ExpiredAudit => row.status == Expired && row.payload == original
    case AppliedAudit => row.status == Applied
    case FailedAudit => ApprovedOrLater(row.status)
    case EvaluatedAudit => row.status == Applied
  }

  /** What a program counter may assume about the shared row. */
  ghost predicate ProcOk(s: Sys, pid: nat, p: Proc, original: Payload) {
    match p
    case EditCas(newPayload) => pid !in s.senders && EditOf(original, newPayload)
    case DecisionAudit(kind, approved) =>
      && s.winner == Some(pid) && IsDecision(kind) && Decisions(s.audits) == [] && pid !in s.senders
      && Matches(kind, s.row, original)
      && (approved.Some? ==> approved.value.status == Approved && ApprovedOrLater(s.row.status)
                             && approved.value.payload == s.row.payload)
    case Dispatching(view) =>
      && pid !in s.senders && view.status == Approved
      && ApprovedOrLater(s.row.status) && view.payload == s.row.payload
    case Dispatched(view, _) => ApprovedOrLater(s.row.status) && pid in s.senders
    case ApplyAudit(kind) => !IsDecision(kind) && Matches(kind, s.row, original)
    case EvaluateAudit => s.row.status == Applied
    case EvaluateCas => s.row.status == Applied
    case Done => true
    case _ => pid !in s.senders
  }

  ghost predicate Inv(s: Sys, original: Payload) {
    && LegalHistory(s.history) && s.history[|s.history| - 1] == s.row.status
    && (!ApprovedOrLater(s.row.status) ==> s.row.payload == original && s.dispatches == [])
    && (forall p :: p in s.dispatches ==> p == s.row.payload)
    && |s.dispatches| == |s.senders| && s.senders <= s.procs.Keys
    && |Decisions(s.audits)| <= 1
    && (s.winner == None <==> s.row.status == Pending)
    && (s.winner == None ==> s.audits == [])
    && (forall k :: k in s.audits ==> Matches(k, s.row, original))
    && (forall pid :: pid in s.procs ==> ProcOk(s, pid, s.procs[pid], original))
  }

  /** Requests other than the moving one keep their assumptions when the row only moves forward. */
  ghost predicate Forward(s: Sys, s': Sys) {
    || s'.row == s.row
    || s.row.status == Pending
    || (s.row.status == Approved && ApprovedOrLater(s'.row.status) && s'.row.payload == s.row.payload)
  }

  lemma OthersKeep(s: Sys, s': Sys, pid: nat, original: Payload)
    requires Inv(s, original) && Forward(s, s')
    requires s.procs.Keys + {pid} == s'.procs.Keys && forall q :: q in s.procs && q != pid ==> s'.procs[q] == s.procs[q]
    requires s'.senders == s.senders || s'.senders == s.senders + {pid}
    requires s.row.status != Pending ==> s'.winner == s.winner
    requires s.winner != Some(pid) ==> Decisions(s'.audits) == Decisions(s.audits)
    ensures forall q :: q in s.procs && q != pid ==> ProcOk(s', q, s'.procs[q], original)
  {
    forall q | q in s.procs && q != pid ensures ProcOk(s', q, s'.procs[q], original) {
      assert ProcOk(s, q, s.procs[q], original);
    }
  }

  lemma AuditsKeep(s: Sys, s': Sys, original: Payload)
    requires Inv(s, original) && Forward(s, s') && s'.audits == s.audits
    ensures forall k :: k in s'.audits ==> Matches(k, s'.row, original)
  {
    if s.row.status != Pending {
      forall k | k in s.audits ensures Matches(k, s'.row, original) {
        assert Matches(k, s.row, original);
      }
    }
  }

  /** The state after a won decision. */
  function Won(s: Sys, pid: nat, row: Row, kind: AuditKind): Sys {
    Goto(SetRow(s, row).(winner := Some(pid)), pid,
      DecisionAudit(kind, if row.status == Approved then Some(row) else None))
  }

  lemma WonKeepsInv(s: Sys, pid: nat, row: Row, kind: AuditKind, original: Payload)
    requires Inv(s, original) && s.row.status == Pending && pid !in s.senders
    requires row.status == Approved || row.status == Rejected || row.status == Expired
    requires IsDecision(kind) && Matches(kind, row, original)
    requires row.status != Approved ==> row.payload == original
    ensures Inv(Won(s, pid, row, kind), original)
  {
    var s' := Won(s, pid, row, kind);
    assert s.history == [Pending];
    OthersKeep(s, s', pid, original);
    assert ProcOk(s', pid, s'.procs[pid], original);
  }

  lemma DecideKeepsInv(s: Sys, pid: nat, status: Status, payload: Option<Payload>, kind: AuditKind, lost: Proc,
                       original: Payload)
    requires Inv(s, original) && pid in s.procs && pid !in s.senders
    requires lost == Done || lost == ApproveReread
    requires (status == Approved && kind == ApprovedAudit && payload == None)
          || (status == Approved && kind == EditedAudit && payload.Some? && EditOf(original, payload.value))
          || (status == Rejected && kind == RejectedAudit && payload == None)
    ensures Inv(Decide(s, pid, status, payload, kind, lost), original)
  {
    match CasRow(s.row, {Pending}, status, payload)
    case None => GotoKeepsInv(s, pid, lost, original);
    case Some(row) => WonKeepsInv(s, pid, row, kind, original);
  }

  lemma FinishKeepsInv(s: Sys, pid: nat, ok: bool, original: Payload)
    requires Inv(s, original) && pid in s.procs && s.procs[pid].Dispatched?
    ensures Inv(Finish(s, pid, ok), original)
  {
    assert ProcOk(s, pid, s.procs[pid], original);
    match CasRow(s.row, {Approved}, if ok then Applied else Failed, None)
    case None => GotoKeepsInv(s, pid, if ok then Done else ApplyAudit(FailedAudit), original);
    case Some(row) => FinishedKeepsInv(s, pid, row, if ok then AppliedAudit else FailedAudit, original);
  }

  lemma FinishedKeepsInv(s: Sys, pid: nat, row: Row, kind: AuditKind, original: Payload)
    requires Inv(s, original) && s.row.status == Approved && row.payload == s.row.payload && pid in s.procs
    requires (row.status == Applied && kind == AppliedAudit) || (row.status == Failed && kind == FailedAudit)
    ensures Inv(Goto(SetRow(s, row), pid, ApplyAudit(kind)), original)
  {
    var s' := Goto(SetRow(s, row), pid, ApplyAudit(kind));
    OthersKeep(s, s', pid, original);
    AuditsKeep(s, s', original);
    assert s'.history == s.history + [row.status];
  }

  lemma DecisionsSnoc(audits: seq<AuditKind>, kind: AuditKind)
    ensures Decisions(audits + [kind]) == Decisions(audits) + (if IsDecision(kind) then [kind] else [])
  {
    FilterConcat(audits, [kind], IsDecision);
  }

  lemma AuditKeepsInv(s: Sys, pid: nat, kind: AuditKind, ok: bool, next: Proc, original: Payload)
    requires Inv(s, original) && pid in s.procs && Matches(kind, s.row, original)
    requires IsDecision(kind) ==> s.winner == Some(pid) && Decisions(s.audits) == []
    requires s.row.status != Pending
    requires !next.DecisionAudit? && (next.Dispatching? || next.Done? || next.EvaluateCas?)
    requires ProcOk(s, pid, next, original)
    ensures Inv(Goto(AppendAudit(s, kind, ok), pid, next), original)
  {
    var s' := Goto(AppendAudit(s, kind, ok), pid, next);
    DecisionsSnoc(s.audits, kind);
    OthersKeep(s, s', pid, original);
  }

  lemma GotoKeepsInv(s: Sys, pid: nat, next: Proc, original: Payload)
    requires Inv(s, original) && ProcOk(s, pid, next, original)
    ensures Inv(Goto(s, pid, next), original)
  {
    OthersKeep(s, Goto(s, pid, next), pid, original);
  }

  lemma DispatchKeepsInv(s: Sys, pid: nat, ok: bool, original: Payload)
    requires Inv(s, original) && pid in s.procs && s.procs[pid].Dispatching?
    ensures Inv(AdvanceProc(s, pid, s.procs[pid], 0, ok), original)
  {
    var s' := AdvanceProc(s, pid, s.procs[pid], 0, ok);
    assert ProcOk(s, pid, s.procs[pid], original);
    OthersKeep(s, s', pid, original);
  }

  predicate IsRead(p: Proc) {
    p.ApproveStart? || p.ApproveReread? || p.EditStart? || p.RejectStart? || p.EvaluateStart? || p.EvaluateCas?
  }

  lemma ReadKeepsInv(s: Sys, pid: nat, now: int, ok: bool, original: Payload)
    requires Inv(s, original) && pid in s.procs && IsRead(s.procs[pid])
    ensures Inv(AdvanceProc(s, pid, s.procs[pid], now, ok), original)
  {
    var p := s.procs[pid];
    assert ProcOk(s, pid, p, original);
    var s' := AdvanceProc(s, pid, p, now, ok);
    var next := s'.procs[pid];
    assert s' == Goto(s, pid, next);
    assert ProcOk(s, pid, next, original);
    GotoKeepsInv(s, pid, next, original);
  }

  lemma DecisionKeepsInv(s: Sys, pid: nat, now: int, ok: bool, original: Payload)
    requires Inv(s, original) && pid in s.procs
    requires s.procs[pid].ApproveCas? || s.procs[pid].EditCas? || s.procs[pid].RejectCas?
    ensures Inv(AdvanceProc(s, pid, s.procs[pid], now, ok), original)
  {
    assert ProcOk(s, pid, s.procs[pid], original);
    match s.procs[pid]
    case ApproveCas => DecideKeepsInv(s, pid, Approved, None, ApprovedAudit, ApproveReread, original);
    case EditCas(newPayload) => DecideKeepsInv(s, pid, Approved, Some(newPayload), EditedAudit, Done, original);
    case RejectCas => DecideKeepsInv(s, pid, Rejected, None, RejectedAudit, Done, original);
  }

  lemma AnyAuditKeepsInv(s: Sys, pid: nat, now: int, ok: bool, original: Payload)
    requires Inv(s, original) && pid in s.procs
    requires s.procs[pid].DecisionAudit? || s.procs[pid].ApplyAudit? || s.procs[pid].EvaluateAudit?
    ensures Inv(AdvanceProc(s, pid, s.procs[pid], now, ok), original)
  {
    assert ProcOk(s, pid, s.procs[pid], original);
    match s.procs[pid]
    case DecisionAudit(kind, approved) =>
      AuditKeepsInv(s, pid, kind, ok, if ok && approved.Some? then ApplyNext(approved.value) else Done, original);
    case ApplyAudit(kind) => AuditKeepsInv(s, pid, kind, ok, Done, original);
    case EvaluateAudit => AuditKeepsInv(s, pid, EvaluatedAudit, ok, if ok then EvaluateCas else Done, original);
  }

  lemma AdvanceKeepsInv(s: Sys, pid: nat, now: int, ok: bool, original: Payload)
    requires Inv(s, original) && pid in s.procs
    ensures Inv(AdvanceProc(s, pid, s.procs[pid], now, ok), original)
  {
    match s.procs[pid]
    case ApproveCas => DecisionKeepsInv(s, pid, now, ok, original);
    case EditCas(_) => DecisionKeepsInv(s, pid, now, ok, original);
    case RejectCas => DecisionKeepsInv(s, pid, now, ok, original);
    case Dispatched(_, sentOk) => FinishKeepsInv(s, pid, sentOk, original);
    case Dispatching(_) => DispatchKeepsInv(s, pid, ok, original);
    case DecisionAudit(_, _) => AnyAuditKeepsInv(s, pid, now, ok, original);
    case ApplyAudit(_) => AnyAuditKeepsInv(s, pid, now, ok, original);
    case EvaluateAudit => AnyAuditKeepsInv(s, pid, now, ok, original);
    case Done =>
    case _ => ReadKeepsInv(s, pid, now, ok, original);
  }

  lemma StepKeepsInv(s: Sys, a: Action, original: Payload)
    requires Inv(s, original)
    ensures Inv(Step(s, a), original)
  {
    match a
    case Spawn(pid, start) =>
      if pid !in s.procs && IsStart(start) {
        GotoKeepsInv(s, pid, start, original);
      }
    case Sweep(pid, now) =>
      if pid !in s.procs && Expirable(s.row, now) {
        WonKeepsInv(s, pid, ExpireRow(s.row, now), ExpiredAudit, original);
      }
    case Advance(pid, now, ok) =>
      if pid in s.procs {
        AdvanceKeepsInv(s, pid, now, ok, original);
      }
  }

  lemma {:induction false} RunKeepsInv(row: Row, actions: seq<Action>)
    requires row.status == Pending
    ensures Inv(Run(Initial(row), actions), row.payload)
  {
    if actions != [] {
      RunKeepsInv(row, actions[..|actions| - 1]);
      StepKeepsInv(Run(Initial(row), actions[..|actions| - 1]), actions[|actions| - 1], row.payload);
    }
  }

  // ---------------------------------------------------------------- the run theorems

  /** Under every interleaving a proposal's status only ever follows the legal path. */
  lemma StatusFollowsLegalPath(row: Row, actions: seq<Action>)
    requires row.status == Pending
    ensures var s := Run(Initial(row), actions);
            LegalHistory(s.history) && s.history[|s.history| - 1] == s.row.status
  {
    RunKeepsInv(row, actions);
  }

  /** The decision a run took, if it took one. */
  function Branch(s: Sys): Option<Status> { if |s.history| > 1 then Some(s.history[1]) else None }

  lemma StepExtendsHistory(s: Sys, a: Action)
    ensures s.history <= Step(s, a).history
  {}

  lemma {:induction false} HistoryExtends(s: Sys, actions: seq<Action>, n: nat)
    requires n <= |actions|
    ensures Run(s, actions[..n]).history <= Run(s, actions).history
    decreases |actions|
  {
    if n < |actions| {
      var before := actions[..|actions| - 1];
      HistoryExtends(s, before, n);
      assert before[..n] == actions[..n];
      StepExtendsHistory(Run(s, before), actions[|actions| - 1]);
    } else {
      assert actions[..n] == actions;
    }
  }

  /** Once a run has decided a proposal, no continuation changes its payload or its branch. */
  lemma DecisionIsFinal(row: Row, actions: seq<Action>, n: nat)
    requires row.status == Pending && n <= |actions|
    requires Run(Initial(row), actions[..n]).row.status != Pending
    ensures var before, after := Run(Initial(row), actions[..n]), Run(Initial(row), actions);
            && Branch(before).Some? && Branch(after) == Branch(before)
            && before.row.payload == after.row.payload
  {
    RunKeepsInv(row, actions[..n]);
    HistoryExtends(Initial(row), actions, n);
    PayloadFrozen(Initial(row), actions, n);
    DecidedHasBranch(Run(Initial(row), actions[..n]), row.payload);
  }

  lemma DecidedHasBranch(s: Sys, original: Payload)
    requires Inv(s, original) && s.row.status != Pending
    ensures Branch(s).Some?
  {}

  lemma StepFreezesPayload(s: Sys, a: Action)
    requires s.row.status != Pending
    ensures Step(s, a).row.status != Pending && Step(s, a).row.payload == s.row.payload
  {}

  lemma {:induction false} PayloadFrozen(s: Sys, actions: seq<Action>, n: nat)
    requires n <= |actions| && Run(s, actions[..n]).row.status != Pending
    ensures Run(s, actions).row.status != Pending
    ensures Run(s, actions).row.payload == Run(s, actions[..n]).row.payload
    decreases |actions|
  {
    if n < |actions| {
      var before := actions[..|actions| - 1];
      assert before[..n] == actions[..n];
      PayloadFrozen(s, before, n);
      StepFreezesPayload(Run(s, before), actions[|actions| - 1]);
    } else {
      assert actions[..n] == actions;
    }
  }

  /**
   Nothing rejected or expired is ever dispatched, and every dispatch, however many there are, carries the payload
   the winning approval froze: the original one, or the result of one accepted edit of it.
   */
  lemma DispatchesCarryFrozenPayload(row: Row, actions: seq<Action>, i: nat)
    requires row.status == Pending && i < |Run(Initial(row), actions).dispatches|
    ensures var s := Run(Initial(row), actions);
            && ApprovedOrLater(s.row.status) && Branch(s) == Some(Approved)
            && s.dispatches[i] == s.row.payload
  {
    RunKeepsInv(row, actions);
    DispatchFrozen(Run(Initial(row), actions), row.payload, i);
  }

  lemma DispatchFrozen(s: Sys, original: Payload, i: nat)
    requires Inv(s, original) && i < |s.dispatches|
    ensures ApprovedOrLater(s.row.status) && Branch(s) == Some(Approved) && s.dispatches[i] == s.row.payload
  {
    assert s.dispatches[i] in s.dispatches;
  }

  /** At most one decision audit exists, and it names the branch the row took and the payload that branch froze. */
  lemma OneDecisionAudit(row: Row, actions: seq<Action>)
    requires row.status == Pending
    ensures var s := Run(Initial(row), actions);
            && |Decisions(s.audits)| <= 1
            && (forall k :: k in Decisions(s.audits) ==> Matches(k, s.row, row.payload))
  {
    RunKeepsInv(row, actions);
  }

  /** A request dispatches at most once: there are exactly as many dispatches as requests that dispatched. */
  lemma OneDispatchPerRequest(row: Row, actions: seq<Action>)
    requires row.status == Pending
    ensures var s := Run(Initial(row), actions);
            |s.dispatches| == |s.senders| && s.senders <= s.procs.Keys
  {
    RunKeepsInv(row, actions);
  }

  // ---------------------------------------------------------------- how often a proposal is dispatched

  /** The step reads the row for an approve request and finds it already approved. */
  predicate FindsApproved(s: Sys, a: Action) {
    && a.Advance? && a.pid in s.procs && s.row.status == Approved
    && (s.procs[a.pid].ApproveStart? || s.procs[a.pid].ApproveReread?)
  }

  /** The requests of a run that were handed a row some other request had approved. */
  function FoundApproved(s: Sys, actions: seq<Action>): set<nat> {
    if actions == [] then {}
    else
      var init, last := actions[..|actions| - 1], actions[|actions| - 1];
      FoundApproved(s, init) + if FindsApproved(Run(s, init), last) then {last.pid} else {}
  }

  predicate IsApproval(kind: AuditKind) { kind == ApprovedAudit || kind == EditedAudit }

  /** The winner's approval was audited, which is what lets the winner go on to dispatch. */
  predicate ApprovalAudited(s: Sys) { ApprovedAudit in s.audits || EditedAudit in s.audits }

  predicate PastDecision(p: Proc) { p.DecisionAudit? || p.Dispatching? || p.Dispatched? || p.ApplyAudit? || p.Done? }

  /** Only the winner and the requests that found the row approved ever reach the dispatch. */
  ghost predicate Cleared(s: Sys, pid: nat) { pid in s.procs && (s.procs[pid].Dispatching? || pid in s.senders) }

  ghost predicate DispatchInv(s: Sys, found: set<nat>) {
    && (forall pid :: Cleared(s, pid) ==> pid in found || s.winner == Some(pid))
    && (forall pid :: pid in found ==> Cleared(s, pid) && s.winner != Some(pid))
    && (forall pid :: pid in s.procs && s.procs[pid].DecisionAudit? ==>
                        (s.procs[pid].approved.Some? <==> IsApproval(s.procs[pid].kind)))
    && (s.winner.Some? && s.winner.value in s.procs && !s.procs[s.winner.value].DecisionAudit? ==>
          (ApprovalAudited(s) <==> Cleared(s, s.winner.value)))
    && (s.winner.Some? ==> s.winner.value in s.procs && PastDecision(s.procs[s.winner.value]))
  }

  /** A step that only moves one request, keeps the bookkeeping and clears nobody. */
  lemma QuietStepKeepsDispatchInv(s: Sys, s': Sys, pid: nat, found: set<nat>)
    requires DispatchInv(s, found)
    requires s'.winner == s.winner && s'.senders == s.senders && pid in s'.procs
             && s'.procs == s.procs[pid := s'.procs[pid]]
    requires ApprovalAudited(s') == ApprovalAudited(s)
    requires !s'.procs[pid].Dispatching? && !s'.procs[pid].DecisionAudit?
    requires pid in s.procs ==> !s.procs[pid].Dispatching? && !s.procs[pid].DecisionAudit?
    requires pid in s.procs && PastDecision(s.procs[pid]) ==> PastDecision(s'.procs[pid])
    requires pid !in s.procs ==> pid !in s.senders
    ensures DispatchInv(s', found)
  {
    forall q ensures Cleared(s', q) <==> Cleared(s, q) {
    }
  }

  lemma WonKeepsDispatchInv(s: Sys, pid: nat, row: Row, kind: AuditKind, original: Payload, found: set<nat>)
    requires Inv(s, original) && DispatchInv(s, found) && s.row.status == Pending && pid !in s.senders
    requires pid in s.procs ==> !s.procs[pid].Dispatching? && !s.procs[pid].DecisionAudit?
    requires IsApproval(kind) <==> row.status == Approved
    ensures DispatchInv(Won(s, pid, row, kind), found)
  {
    var s' := Won(s, pid, row, kind);
    forall q ensures Cleared(s', q) <==> Cleared(s, q) {
    }
  }

  lemma ClearedKeepsDispatchInv(s: Sys, s': Sys, pid: nat, found: set<nat>)
    requires DispatchInv(s, found) && s'.winner == s.winner && pid in s.procs && !s.procs[pid].DecisionAudit?
    requires pid in s'.procs && s'.procs == s.procs[pid := s'.procs[pid]] && !s'.procs[pid].DecisionAudit?
    requires s'.senders == s.senders || s'.senders == s.senders + {pid}
    requires s'.audits == s.audits && Cleared(s', pid) && s.winner != Some(pid)
    ensures DispatchInv(s', found + {pid})
  {
    forall q ensures Cleared(s', q) <==> Cleared(s, q) || q == pid {
    }
  }

  lemma SendKeepsDispatchInv(s: Sys, pid: nat, ok: bool, found: set<nat>)
    requires DispatchInv(s, found) && pid in s.procs && s.procs[pid].Dispatching?
    ensures DispatchInv(AdvanceProc(s, pid, s.procs[pid], 0, ok), found)
  {
    var s' := AdvanceProc(s, pid, s.procs[pid], 0, ok);
    forall q ensures Cleared(s', q) <==> Cleared(s, q) {
    }
  }

  lemma AuditKeepsDispatchInv(s: Sys, pid: nat, ok: bool, original: Payload, found: set<nat>)
    requires Inv(s, original) && DispatchInv(s, found) && pid in s.procs && s.procs[pid].DecisionAudit?
    ensures DispatchInv(AdvanceProc(s, pid, s.procs[pid], 0, ok), found)
  {
    var s' := AdvanceProc(s, pid, s.procs[pid], 0, ok);
    assert ProcOk(s, pid, s.procs[pid], original);
    NoApprovalYet(s);
    assert ApprovalAudited(s') <==> ok && IsApproval(s.procs[pid].kind);
    forall q | q != pid ensures Cleared(s', q) <==> Cleared(s, q) {
    }
  }

  lemma NoApprovalYet(s: Sys)
    requires Decisions(s.audits) == []
    ensures !ApprovalAudited(s)
  {
    assert forall k :: k in s.audits && IsDecision(k) ==> k in Decisions(s.audits);
  }

  lemma StepKeepsDispatchInv(s: Sys, a: Action, original: Payload, found: set<nat>)
    requires Inv(s, original) && DispatchInv(s, found)
    ensures DispatchInv(Step(s, a), found + if FindsApproved(s, a) then {a.pid} else {})
  {
    match a
    case Spawn(pid, start) =>
      if pid !in s.procs && IsStart(start) {
        QuietStepKeepsDispatchInv(s, Step(s, a), pid, found);
      }
    case Sweep(pid, now) =>
      if pid !in s.procs && Expirable(s.row, now) {
        WonKeepsDispatchInv(s, pid, ExpireRow(s.row, now), ExpiredAudit, original, found);
      }
    case Advance(pid, now, ok) =>
      if pid in s.procs {
        AdvanceKeepsDispatchInv(s, pid, now, ok, original, found);
      }
  }

  predicate IsDecider(p: Proc) { p.ApproveCas? || p.EditCas? || p.RejectCas? }

  lemma DecideKeepsDispatchInv(s: Sys, pid: nat, original: Payload, found: set<nat>)
    requires Inv(s, original) && DispatchInv(s, found) && pid in s.procs && IsDecider(s.procs[pid])
    requires s.row.status == Pending
    ensures DispatchInv(AdvanceProc(s, pid, s.procs[pid], 0, true), found)
  {
    assert ProcOk(s, pid, s.procs[pid], original);
    match s.procs[pid]
    case ApproveCas => WonKeepsDispatchInv(s, pid, s.row.(status := Approved), ApprovedAudit, original, found);
    case EditCas(p) =>
      WonKeepsDispatchInv(s, pid, s.row.(status := Approved, payload := p), EditedAudit, original, found);
    case RejectCas => WonKeepsDispatchInv(s, pid, s.row.(status := Rejected), RejectedAudit, original, found);
  }

  lemma QuietAudit(s: Sys, kind: AuditKind, ok: bool)
    requires !IsDecision(kind)
    ensures ApprovalAudited(AppendAudit(s, kind, ok)) == ApprovalAudited(s)
  {}

  lemma QuietAdvanceKeepsDispatchInv(s: Sys, pid: nat, now: int, ok: bool, original: Payload, found: set<nat>)
    requires Inv(s, original) && DispatchInv(s, found) && pid in s.procs
    requires !FindsApproved(s, Advance(pid, now, ok)) && (IsDecider(s.procs[pid]) ==> s.row.status != Pending)
    requires !s.procs[pid].Dispatching? && !s.procs[pid].DecisionAudit? && !s.procs[pid].Done?
    ensures DispatchInv(AdvanceProc(s, pid, s.procs[pid], now, ok), found)
  {
    var p, s' := s.procs[pid], AdvanceProc(s, pid, s.procs[pid], now, ok);
    assert ProcOk(s, pid, p, original);
    hide Inv, DispatchInv;
    if p.ApplyAudit? {
      QuietAudit(s, p.outcome, ok);
    }
    assert ApprovalAudited(s') == ApprovalAudited(s);
    assert s'.procs == s.procs[pid := s'.procs[pid]];
    QuietStepKeepsDispatchInv(s, s', pid, found);
  }

  lemma FindKeepsDispatchInv(s: Sys, pid: nat, now: int, ok: bool, found: set<nat>)
    requires DispatchInv(s, found) && FindsApproved(s, Advance(pid, now, ok))
    ensures DispatchInv(AdvanceProc(s, pid, s.procs[pid], now, ok), found + {pid})
  {
    ClearedKeepsDispatchInv(s, AdvanceProc(s, pid, s.procs[pid], now, ok), pid, found);
  }

  lemma AdvanceKeepsDispatchInv(s: Sys, pid: nat, now: int, ok: bool, original: Payload, found: set<nat>)
    requires Inv(s, original) && DispatchInv(s, found) && pid in s.procs
    ensures DispatchInv(AdvanceProc(s, pid, s.procs[pid], now, ok),
                        found + if FindsApproved(s, Advance(pid, now, ok)) then {pid} else {})
  {
    if FindsApproved(s, Advance(pid, now, ok)) {
      FindKeepsDispatchInv(s, pid, now, ok, found);
    } else {
      assert found + {} == found;
      match s.procs[pid]
      case Dispatching(_) => SendKeepsDispatchInv(s, pid, ok, found);
      case DecisionAudit(_, _) => AuditKeepsDispatchInv(s, pid, ok, original, found);
      case Done =>
      case _ =>
        if IsDecider(s.procs[pid]) && s.row.status == Pending {
          DecideKeepsDispatchInv(s, pid, original, found);
        } else {
          QuietAdvanceKeepsDispatchInv(s, pid, now, ok, original, found);
        }
    }
  }

  lemma {:induction false} RunKeepsDispatchInv(row: Row, actions: seq<Action>)
    requires row.status == Pending
    ensures Inv(Run(Initial(row), actions), row.payload)
    ensures DispatchInv(Run(Initial(row), actions), FoundApproved(Initial(row), actions))
  {
    RunKeepsInv(row, actions);
    if actions != [] {
      var init, last := actions[..|actions| - 1], actions[|actions| - 1];
      RunKeepsDispatchInv(row, init);
      StepKeepsDispatchInv(Run(Initial(row), init), last, row.payload, FoundApproved(Initial(row), init));
    }
  }

  /** The winner's own contribution to the requests that dispatched. */
  function WinnerSent(s: Sys): nat { if s.winner.Some? && s.winner.value in s.senders then 1 else 0 }

  lemma CountSenders(s: Sys, found: set<nat>)
    requires DispatchInv(s, found) && s.senders <= s.procs.Keys
    ensures |s.senders| == |s.senders * found| + WinnerSent(s)
    ensures |s.senders * found| <= |found|
  {
    forall pid | pid in s.senders ensures pid in found || s.winner == Some(pid) {
      assert Cleared(s, pid);
    }
    if WinnerSent(s) == 1 {
      assert s.senders == s.senders * found + {s.winner.value};
    } else {
      assert s.senders == s.senders * found;
    }
    assert found == s.senders * found + (found - s.senders);
  }

  /** No request stands between its clearance and its dispatch. */
  ghost predicate Settled(s: Sys) {
    forall pid :: pid in s.procs ==> !s.procs[pid].Dispatching? && !s.procs[pid].DecisionAudit?
  }

  /**
   Once no request is on its way to a dispatch, the number of dispatches is exactly the number of requests that found
   the row approved, plus one if the winning approval was audited.
   */
  lemma SettledDispatchCount(row: Row, actions: seq<Action>)
    requires row.status == Pending && Settled(Run(Initial(row), actions))
    ensures var s := Run(Initial(row), actions);
            |s.dispatches| == |FoundApproved(Initial(row), actions)| + if ApprovalAudited(s) then 1 else 0
  {
    var s, found := Run(Initial(row), actions), FoundApproved(Initial(row), actions);
    RunKeepsDispatchInv(row, actions);
    CountSenders(s, found);
    forall pid | pid in found ensures pid in s.senders {
      assert Cleared(s, pid);
    }
    assert s.senders * found == found;
    if s.winner.None? {
      assert s.audits == [];
    } else {
      assert ApprovalAudited(s) <==> Cleared(s, s.winner.value);
    }
  }

  /**
   Besides the winner, only requests that read the row as already approved dispatch. So once no request is on its way to
   a dispatch, the proposal was dispatched at most once exactly when nobody found it approved, or just one request did
   and the winning approval was not audited.
   */
  lemma AtMostOneDispatchIff(row: Row, actions: seq<Action>)
    requires row.status == Pending
    ensures var s, found := Run(Initial(row), actions), FoundApproved(Initial(row), actions);
            && |s.dispatches| <= 1 + |found|
            && (Settled(s) ==>
                  (|s.dispatches| <= 1 <==> |found| == 0 || (|found| == 1 && !ApprovalAudited(s))))
  {
    RunKeepsDispatchInv(row, actions);
    CountSenders(Run(Initial(row), actions), FoundApproved(Initial(row), actions));
    if Settled(Run(Initial(row), actions)) {
      SettledDispatchCount(row, actions);
    }
  }

  // ---------------------------------------------------------------- what the protocol does not give

  /** Requests 1 and 2 both approve; 2 reads the row after 1 won and dispatches too; its dispatch fails. */
  function OverlappingApprovals(): seq<Action> {
    [Spawn(1, ApproveStart), Spawn(2, ApproveStart), Advance(1, 0, true), Advance(1, 0, true)]
    + [Advance(2, 0, true), Advance(2, 0, false), Advance(1, 0, true), Advance(1, 0, true)]
    + [Advance(1, 0, true), Advance(1, 0, true), Advance(2, 0, true), Advance(2, 0, true)]
  }

  lemma RunConcat(s: Sys, a: seq<Action>, b: seq<Action>)
    ensures Run(s, a + b) == Run(Run(s, a), b)
    decreases |b|
  {
    if b == [] {
      assert a + b == a;
    } else {
      assert (a + b)[..|a + b| - 1] == a + b[..|b| - 1];
      RunConcat(s, a, b[..|b| - 1]);
    }
  }

  lemma RunTwo(s: Sys, a: Action, b: Action)
    ensures Run(s, [a, b]) == Step(Step(s, a), b)
  {
    assert [a, b] == [a] + [b] && [a] == [] + [a];
    RunSnoc(s, [a], b);
    RunSnoc(s, [], a);
  }

  lemma RunSnoc(s: Sys, actions: seq<Action>, a: Action)
    ensures Run(s, actions + [a]) == Step(Run(s, actions), a)
  {
    assert (actions + [a])[..|actions|] == actions;
  }

  lemma RunFour(s: Sys, a: Action, b: Action, c: Action, d: Action)
    ensures Run(s, [a, b, c, d]) == Step(Step(Step(Step(s, a), b), c), d)
  {
    RunConcat(s, [a, b], [c, d]);
    assert [a, b] + [c, d] == [a, b, c, d];
    RunTwo(s, a, b);
    RunTwo(Run(s, [a, b]), c, d);
  }

  /**
   Two overlapping approvals can both dispatch, because an approval that finds the row approved is handed it as it
   is; and the loser's failure is audited although the row was applied.
   */
  lemma TwoApprovalsCanBothDispatch(payload: Payload)
    ensures var s := Run(Initial(Row(Pending, payload, 10)), OverlappingApprovals());
            && s.dispatches == [payload, payload] && s.row.status == Applied
            && s.audits == [ApprovedAudit, AppliedAudit, FailedAudit]
  {
    var s0 := Initial(Row(Pending, payload, 10));
    var a1 := [Spawn(1, ApproveStart), Spawn(2, ApproveStart), Advance(1, 0, true), Advance(1, 0, true)];
    var a2 := [Advance(2, 0, true), Advance(2, 0, false), Advance(1, 0, true), Advance(1, 0, true)];
    var a3 := [Advance(1, 0, true), Advance(1, 0, true), Advance(2, 0, true), Advance(2, 0, true)];
    RunConcat(s0, a1 + a2, a3);
    RunConcat(s0, a1, a2);
    var approved := Row(Approved, payload, 10);
    var s1 := FirstApprovalWins(s0);
    var s2 := BothDispatch(s1, approved);
    BothFinish(s2, approved);
  }

  lemma FirstApprovalWins(s: Sys) returns (s': Sys)
    requires s == Initial(Row(Pending, s.row.payload, 10))
    ensures s' == Run(s, [Spawn(1, ApproveStart), Spawn(2, ApproveStart), Advance(1, 0, true), Advance(1, 0, true)])
    ensures s' == Sys(s.row.(status := Approved),
                      map[1 := DecisionAudit(ApprovedAudit, Some(s.row.(status := Approved))), 2 := ApproveStart],
                      [], [], [Pending, Approved], Some(1), {})
  {
    RunFour(s, Spawn(1, ApproveStart), Spawn(2, ApproveStart), Advance(1, 0, true), Advance(1, 0, true));
    s' := Run(s, [Spawn(1, ApproveStart), Spawn(2, ApproveStart), Advance(1, 0, true), Advance(1, 0, true)]);
  }

  lemma BothDispatch(s: Sys, row: Row) returns (s': Sys)
    requires row.status == Approved
    requires s == Sys(row, map[1 := DecisionAudit(ApprovedAudit, Some(row)), 2 := ApproveStart],
                      [], [], [Pending, Approved], Some(1), {})
    ensures s' == Run(s, [Advance(2, 0, true), Advance(2, 0, false), Advance(1, 0, true), Advance(1, 0, true)])
    ensures s' == Sys(row, map[1 := Dispatched(row, true), 2 := Dispatched(row, false)],
                      [ApprovedAudit], [row.payload, row.payload], [Pending, Approved], Some(1), {1, 2})
  {
    RunFour(s, Advance(2, 0, true), Advance(2, 0, false), Advance(1, 0, true), Advance(1, 0, true));
    s' := Run(s, [Advance(2, 0, true), Advance(2, 0, false), Advance(1, 0, true), Advance(1, 0, true)]);
  }

  lemma BothFinish(s: Sys, row: Row)
    requires row.status == Approved
    requires s == Sys(row, map[1 := Dispatched(row, true), 2 := Dispatched(row, false)],
                      [ApprovedAudit], [row.payload, row.payload], [Pending, Approved], Some(1), {1, 2})
    ensures var s' := Run(s, [Advance(1, 0, true), Advance(1, 0, true), Advance(2, 0, true), Advance(2, 0, true)]);
            && s'.dispatches == [row.payload, row.payload] && s'.row.status == Applied
            && s'.audits == [ApprovedAudit, AppliedAudit, FailedAudit]
  {
    RunFour(s, Advance(1, 0, true), Advance(1, 0, true), Advance(2, 0, true), Advance(2, 0, true));
  }
}

/**
 The Raft health watch of one connection: the leaderless (quorum loss) watch with its timeout-scaled windows, and
 the election churn counter. One poll of CLUSTER INFO is one step.
 */
module RaftWatch {
  import opened Prelude

  const DEFAULT_NODE_TIMEOUT_MS := 15000
  const MAX_NODE_TIMEOUT_MS := 300000
  const RECOVERED_FLOOR_MS := 30000
  const FIRE_MARGIN_MS := 10000
  const RECHECK_POLLS: nat := 60
  const CHURN_WINDOW_MS := 60000
  const CHURN_MIN_ELECTIONS: nat := 3

  datatype Role = Leader | Follower | Candidate | PreCandidate | OtherRole

  datatype RaftState = RaftState(role: Role, term: int, commitIndex: int)

  predicate Seeking(r: RaftState) { r.role == Candidate || r.role == PreCandidate }

  /**
   One poll. `raft` is None in gossip mode; `fetched` is the cluster-node-timeout a lookup would return in this poll;
   `pinned` says whether the feed already shows an active outage; `resolveOk` whether resolving outages succeeds.
   */
  datatype Poll = Poll(ts: int, raft: Option<RaftState>, fetched: Option<int>, pinned: bool, resolveOk: bool)

  /** An open watch: since when, from which commit index, and the last seeking poll. */
  datatype Open = Open(since: int, commit: int, lastSeeking: int)

  datatype Watch = Watch(open: Option<Open>, confirmed: bool, nodeTimeout: Option<int>, recheck: nat)

  const FRESH: Watch := Watch(None, false, None, 0)

  /** The election churn counter: the last term seen and the times of recent elections. */
  datatype Churn = Churn(prevTerm: Option<int>, elections: seq<int>)

  const CALM: Churn := Churn(None, [])

  datatype Windows = Windows(recoveredMs: int, fireMs: int)

  /** The node timeout is cached once readable; until then the lookup is retried every sixty polls. */
  function LookUp(w: Watch, fetched: Option<int>): Watch {
    if w.nodeTimeout.Some? then w
    else if w.recheck > 0 then w.(recheck := w.recheck - 1)
    else if fetched.Some? && fetched.value > 0 then w.(nodeTimeout := fetched, recheck := 0)
    else w.(recheck := RECHECK_POLLS)
  }

  function WindowsOf(w: Watch): Windows {
    var timeout := if w.nodeTimeout.Some? then w.nodeTimeout.value else DEFAULT_NODE_TIMEOUT_MS;
    var effective := MinInt(MAX_NODE_TIMEOUT_MS, timeout);
    var recoveredMs := MaxInt(RECOVERED_FLOOR_MS, 3 * effective);
    Windows(recoveredMs, recoveredMs + MaxInt(FIRE_MARGIN_MS, effective))
  }

  // ---------------------------------------------------------------- election churn

  function Recent(c: Churn, r: RaftState, ts: int): seq<int> {
    var grown := if c.prevTerm.Some? && r.term > c.prevTerm.value then c.elections + [ts] else c.elections;
    Filter(grown, (t: int) => t >= ts - CHURN_WINDOW_MS)
  }

  predicate ChurnWarning(c: Churn, poll: Poll) {
    poll.raft.Some? && |Recent(c, poll.raft.value, poll.ts)| >= CHURN_MIN_ELECTIONS
  }

  /** Elections are remembered until a warning is emitted or the node leaves Raft mode. */
  function ChurnStep(c: Churn, poll: Poll): Churn {
    match poll.raft
    case None => CALM
    case Some(r) => Churn(Some(r.term), if ChurnWarning(c, poll) then [] else Recent(c, r, poll.ts))
  }

  // ---------------------------------------------------------------- the leaderless watch

  /** Leadership, commit progress past the opening value, or a quiet spell of recoveredMs since the last seek. */
  predicate Recovered(w: Watch, r: RaftState, ts: int, recoveredMs: int) {
    || r.role == Leader
    || (w.open.Some? && r.commitIndex > w.open.value.commit)
    || (w.open.Some? && !Seeking(r) && ts - w.open.value.lastSeeking >= recoveredMs)
  }

  predicate Watching(w: Watch, r: RaftState, ts: int, recoveredMs: int) {
    !Recovered(w, r, ts, recoveredMs) && (Seeking(r) || w.open.Some?)
  }

  function Extend(w: Watch, r: RaftState, ts: int): Open {
    match w.open
    case None => Open(ts, r.commitIndex, ts)
    case Some(o) => if Seeking(r) then o.(lastSeeking := ts) else o
  }

  /** Whether this poll confirms the outage or finds it confirmed: old enough, and seeking unless already confirmed. */
  predicate Fires(w: Watch, poll: Poll) {
    && poll.raft.Some?
    && var r := poll.raft.value;
       var win := WindowsOf(LookUp(w, poll.fetched));
       && Watching(w, r, poll.ts, win.recoveredMs)
       && poll.ts - Extend(w, r, poll.ts).since >= win.fireMs
       && (Seeking(r) || w.confirmed)
  }

  /** A CRITICAL is emitted when the outage is confirmed and nothing is pinned. */
  predicate Critical(w: Watch, poll: Poll) { Fires(w, poll) && !poll.pinned }

  function ResolveFlag(confirmed: bool, poll: Poll): bool { confirmed && !poll.resolveOk }

  function Step(w: Watch, poll: Poll): Watch {
    match poll.raft
    case None => w.(open := None, confirmed := ResolveFlag(w.confirmed, poll))
    case Some(r) =>
      var w1 := LookUp(w, poll.fetched);
      if Watching(w, r, poll.ts, WindowsOf(w1).recoveredMs)
      then w1.(open := Some(Extend(w, r, poll.ts)), confirmed := w.confirmed || Fires(w, poll))
      else w1.(open := None, confirmed := ResolveFlag(w.confirmed, poll))
  }

  /** The watch of one connection, as the service's per-connection map entries. */
  class RaftHealthDetector {
    var prevTerm: Option<int>
    var termChanges: seq<int>
    var leaderlessSince: Option<int>
    var watchCommit: Option<int>
    var lastSeeking: Option<int>
    var leaderlessActive: bool
    var nodeTimeoutMs: Option<int>
    var recheck: nat

    constructor ()
      ensures Valid() && Model() == FRESH && ChurnModel() == CALM
    {
      prevTerm, termChanges := None, [];
      leaderlessSince, watchCommit, lastSeeking := None, None, None;
      leaderlessActive, nodeTimeoutMs, recheck := false, None, 0;
    }

    /** The three watch entries are set and cleared together. */
    ghost predicate Valid()
      reads this
    {
      (leaderlessSince.Some? <==> watchCommit.Some?) && (leaderlessSince.Some? <==> lastSeeking.Some?)
    }

    ghost function Model(): Watch
      reads this
      requires Valid()
    {
      Watch(if leaderlessSince.Some? then Some(Open(leaderlessSince.value, watchCommit.value, lastSeeking.value))
        else None,
            leaderlessActive, nodeTimeoutMs, recheck)
    }

    function ChurnModel(): Churn
      reads this
    {
      Churn(prevTerm, termChanges)
    }

    method LeaderlessWindows(fetched: Option<int>) returns (win: Windows)
      requires Valid()
      modifies this`nodeTimeoutMs, this`recheck
      ensures Valid() && Model() == LookUp(old(Model()), fetched)
      ensures win == WindowsOf(Model())
    {
      if nodeTimeoutMs == None {
        if recheck > 0 {
          recheck := recheck - 1;
        } else if fetched.Some? && fetched.value > 0 {
          nodeTimeoutMs := fetched;
          recheck := 0;
        } else {
          recheck := RECHECK_POLLS;
        }
      }
      var timeout := if nodeTimeoutMs.Some? then nodeTimeoutMs.value else DEFAULT_NODE_TIMEOUT_MS;
      var effective := if timeout < MAX_NODE_TIMEOUT_MS then timeout else MAX_NODE_TIMEOUT_MS;
      var recoveredMs := if 3 * effective > RECOVERED_FLOOR_MS then 3 * effective else RECOVERED_FLOOR_MS;
      win := Windows(recoveredMs, recoveredMs + if effective > FIRE_MARGIN_MS then effective else FIRE_MARGIN_MS);
    }

    method CloseWatch(poll: Poll)
      requires leaderlessSince.Some? ==> watchCommit.Some?
      modifies this`leaderlessSince, this`watchCommit, this`lastSeeking, this`leaderlessActive
      ensures leaderlessSince == None && watchCommit == None && lastSeeking == None
      ensures leaderlessActive == ResolveFlag(old(leaderlessActive), poll)
    {
      leaderlessSince, watchCommit, lastSeeking := None, None, None;
      if leaderlessActive {
        if poll.resolveOk {
          leaderlessActive := false;
        }
      }
    }

    method DetectChurn(poll: Poll, state: RaftState) returns (warn: bool)
      requires poll.raft == Some(state)
      modifies this`prevTerm, this`termChanges
      ensures ChurnModel() == ChurnStep(old(ChurnModel()), poll)
      ensures warn == ChurnWarning(old(ChurnModel()), poll)
    {
      var grown := termChanges;
      if prevTerm.Some? && state.term > prevTerm.value {
        grown := grown + [poll.ts];
      }
      prevTerm := Some(state.term);
      termChanges := Filter(grown, (t: int) => t >= poll.ts - CHURN_WINDOW_MS);
      warn := |termChanges| >= CHURN_MIN_ELECTIONS;
      if warn {
        termChanges := [];
      }
    }

    method DetectLeaderless(poll: Poll, state: RaftState) returns (critical: bool)
      requires Valid() && poll.raft == Some(state)
      modifies this`leaderlessSince, this`watchCommit, this`lastSeeking, this`leaderlessActive
      modifies this`nodeTimeoutMs, this`recheck
      ensures Valid() && Model() == Step(old(Model()), poll)
      ensures critical == Critical(old(Model()), poll)
    {
      critical := false;
      var win := LeaderlessWindows(poll.fetched);
      var seeking := state.role == Candidate || state.role == PreCandidate;
      var watching := leaderlessSince.Some?;
      var madeProgress := watching && state.commitIndex > watchCommit.value;
      var settled := watching && !seeking && poll.ts - lastSeeking.value >= win.recoveredMs;
      if seeking {
        lastSeeking := Some(poll.ts);
      }
      var recovered := state.role == Leader || madeProgress || settled;
      if !recovered && (seeking || watching) {
        if !watching {
          leaderlessSince, watchCommit := Some(poll.ts), Some(state.commitIndex);
        }
        if poll.ts - leaderlessSince.value >= win.fireMs && (seeking || leaderlessActive) {
          leaderlessActive := true;
          critical := !poll.pinned;
        }
      } else {
        CloseWatch(poll);
      }
    }

    method DetectRaftHealth(poll: Poll) returns (churn: bool, critical: bool)
      requires Valid()
      modifies this
      ensures Valid() && Model() == Step(old(Model()), poll) && ChurnModel() == ChurnStep(old(ChurnModel()), poll)
      ensures churn == ChurnWarning(old(ChurnModel()), poll)
      ensures critical == Critical(old(Model()), poll)
    {
      if poll.raft == None {
        prevTerm, termChanges := None, [];
        CloseWatch(poll);
        return false, false;
      }
      churn := DetectChurn(poll, poll.raft.value);
      critical := DetectLeaderless(poll, poll.raft.value);
    }
  }

  // ---------------------------------------------------------------- runs

  function StateAt(polls: seq<Poll>, n: nat): Watch
    requires n <= |polls|
  {
    if n == 0 then FRESH else Step(StateAt(polls, n - 1), polls[n - 1])
  }

  function WindowsAt(polls: seq<Poll>, n: nat): Windows
    requires n < |polls|
  {
    WindowsOf(LookUp(StateAt(polls, n), polls[n].fetched))
  }

  predicate SeekingAt(polls: seq<Poll>, n: nat)
    requires n < |polls|
  {
    polls[n].raft.Some? && (polls[n].raft.value.role == Candidate || polls[n].raft.value.role == PreCandidate)
  }

  /** The timestamp of the last seeking poll among o..m, given that poll o seeks. */
  function LastSeek(polls: seq<Poll>, o: nat, m: nat): int
    requires o <= m < |polls|
  {
    if m == o || SeekingAt(polls, m) then polls[m].ts else LastSeek(polls, o, m - 1)
  }

  /** Poll m shows no sign of quorum for a watch opened at poll o. */
  ghost predicate Leaderless(polls: seq<Poll>, o: nat, m: nat)
    requires o <= m < |polls| && polls[o].raft.Some?
  {
    && polls[m].raft.Some? && polls[m].raft.value.role != Leader
    && polls[m].raft.value.commitIndex <= polls[o].raft.value.commitIndex
    && (SeekingAt(polls, m) || polls[m].ts - LastSeek(polls, o, m) < WindowsAt(polls, m).recoveredMs)
  }

  /** The watch that is open after n polls was opened by poll o. */
  ghost predicate OpenedAt(polls: seq<Poll>, o: nat, n: nat)
    requires n <= |polls|
  {
    && o < n && SeekingAt(polls, o)
    && StateAt(polls, o).open.None?
    && StateAt(polls, n).open == Some(Open(polls[o].ts, polls[o].raft.value.commitIndex, LastSeek(polls, o, n - 1)))
    && (forall m :: o <= m < n ==> Leaderless(polls, o, m))
    && (forall m :: o < m <= n ==> StateAt(polls, m).open.Some?)
  }

  lemma OpenAfterStep(w: Watch, poll: Poll)
    requires Step(w, poll).open.Some?
    ensures poll.raft.Some? && (Seeking(poll.raft.value) || w.open.Some?)
    ensures !Recovered(w, poll.raft.value, poll.ts, WindowsOf(LookUp(w, poll.fetched)).recoveredMs)
    ensures Step(w, poll).open == Some(Extend(w, poll.raft.value, poll.ts))
  {}

  lemma {:induction false} OpenWatchHasOpening(polls: seq<Poll>, n: nat) returns (o: nat)
    requires n <= |polls| && StateAt(polls, n).open.Some?
    ensures OpenedAt(polls, o, n)
  {
    OpenAfterStep(StateAt(polls, n - 1), polls[n - 1]);
    if StateAt(polls, n - 1).open.None? {
      o := n - 1;
    } else {
      o := OpenWatchHasOpening(polls, n - 1);
      OpeningExtends(polls, o, n);
    }
  }

  lemma OpeningExtends(polls: seq<Poll>, o: nat, n: nat)
    requires 0 < n <= |polls| && OpenedAt(polls, o, n - 1) && StateAt(polls, n).open.Some?
    ensures OpenedAt(polls, o, n)
  {
    OpenAfterStep(StateAt(polls, n - 1), polls[n - 1]);
    assert Leaderless(polls, o, n - 1);
  }

  /** With no watch open, one opens exactly at a seeking poll. */
  lemma OpensIffSeeking(polls: seq<Poll>, n: nat)
    requires n < |polls| && StateAt(polls, n).open.None?
    ensures StateAt(polls, n + 1).open.Some? <==> SeekingAt(polls, n)
    ensures SeekingAt(polls, n) ==> OpenedAt(polls, n, n + 1)
  {}

  /** An open watch stays open exactly while the polls show no sign of quorum. */
  lemma StaysOpenIffLeaderless(polls: seq<Poll>, o: nat, n: nat)
    requires n < |polls| && OpenedAt(polls, o, n)
    ensures StateAt(polls, n + 1).open.Some? <==> Leaderless(polls, o, n)
    ensures Leaderless(polls, o, n) ==> OpenedAt(polls, o, n + 1)
  {
    if StateAt(polls, n + 1).open.Some? {
      OpeningExtends(polls, o, n + 1);
    }
  }

  lemma FiringStaysOpen(w: Watch, poll: Poll)
    requires Fires(w, poll)
    ensures Step(w, poll).open == Some(Extend(w, poll.raft.value, poll.ts))
    ensures poll.ts - Step(w, poll).open.value.since >= WindowsOf(LookUp(w, poll.fetched)).fireMs
    ensures Seeking(poll.raft.value) || w.confirmed
  {}

  lemma ConfirmingFires(w: Watch, poll: Poll)
    requires !w.confirmed && Step(w, poll).confirmed
    ensures Fires(w, poll)
  {}

  /**
   Every quorum-loss CRITICAL comes from a watch opened by a seeking poll at least fireMs earlier, since when no poll
   saw the node leading, its commit index past the opening value, or quiet for recoveredMs since its last seek (with
   the windows in force at that poll); and the node seeks at the emitting poll unless the outage was confirmed before.
   */
  lemma CriticalNeedsHeldWatch(polls: seq<Poll>, n: nat) returns (o: nat)
    requires n < |polls| && Critical(StateAt(polls, n), polls[n])
    ensures OpenedAt(polls, o, n + 1)
    ensures polls[n].ts - polls[o].ts >= WindowsAt(polls, n).fireMs
    ensures SeekingAt(polls, n) || StateAt(polls, n).confirmed
  {
    FiringStaysOpen(StateAt(polls, n), polls[n]);
    o := OpenWatchHasOpening(polls, n + 1);
  }

  /** An outage becomes confirmed only at a seeking poll of a watch that has been open for fireMs. */
  lemma ConfirmationNeedsSeeking(polls: seq<Poll>, n: nat) returns (o: nat)
    requires n < |polls| && !StateAt(polls, n).confirmed && StateAt(polls, n + 1).confirmed
    ensures SeekingAt(polls, n) && OpenedAt(polls, o, n + 1)
    ensures polls[n].ts - polls[o].ts >= WindowsAt(polls, n).fireMs
  {
    ConfirmingFires(StateAt(polls, n), polls[n]);
    FiringStaysOpen(StateAt(polls, n), polls[n]);
    o := OpenWatchHasOpening(polls, n + 1);
  }

  /** Poll c seeks in a watch that has been open for fireMs; this is what confirms an outage. */
  ghost predicate Confirms(polls: seq<Poll>, c: nat)
    requires c < |polls|
  {
    && SeekingAt(polls, c)
    && exists o: nat :: OpenedAt(polls, o, c + 1) && polls[c].ts - polls[o].ts >= WindowsAt(polls, c).fireMs
  }

  /** Poll m leaves no watch open and every open outage resolved. */
  ghost predicate Clears(polls: seq<Poll>, m: nat)
    requires m < |polls|
  {
    StateAt(polls, m + 1).open.None? && polls[m].resolveOk
  }

  /** Some poll before n confirmed an outage that no poll since has cleared. */
  ghost predicate Carried(polls: seq<Poll>, n: nat)
    requires n <= |polls|
  {
    exists c :: 0 <= c < n && Confirms(polls, c) && forall m :: c < m < n ==> !Clears(polls, m)
  }

  lemma ConfirmsIff(polls: seq<Poll>, c: nat)
    requires c < |polls|
    ensures Confirms(polls, c) <==> SeekingAt(polls, c) && Fires(StateAt(polls, c), polls[c])
  {
    if SeekingAt(polls, c) && Fires(StateAt(polls, c), polls[c]) {
      FiringStaysOpen(StateAt(polls, c), polls[c]);
      var o := OpenWatchHasOpening(polls, c + 1);
    }
    if Confirms(polls, c) {
      var o: nat :| OpenedAt(polls, o, c + 1) && polls[c].ts - polls[o].ts >= WindowsAt(polls, c).fireMs;
      OpenAfterStep(StateAt(polls, c), polls[c]);
    }
  }

  lemma ConfirmationStep(w: Watch, poll: Poll)
    ensures Step(w, poll).confirmed
       <==> Fires(w, poll) || (w.confirmed && !(Step(w, poll).open.None? && poll.resolveOk))
  {}

  lemma CarriedStep(polls: seq<Poll>, n: nat)
    requires n < |polls|
    ensures Carried(polls, n + 1) <==> Confirms(polls, n) || (Carried(polls, n) && !Clears(polls, n))
  {
    hide Confirms, Clears;
    if Carried(polls, n + 1) && !Confirms(polls, n) {
      var c :| 0 <= c < n + 1 && Confirms(polls, c) && forall m :: c < m < n + 1 ==> !Clears(polls, m);
      assert !Clears(polls, n);
    }
    if Carried(polls, n) && !Clears(polls, n) {
      var c :| 0 <= c < n && Confirms(polls, c) && forall m :: c < m < n ==> !Clears(polls, m);
      assert forall m :: c < m < n + 1 ==> !Clears(polls, m);
    }
  }

  /** The confirmation flag says exactly that an uncleared confirmation is being carried. */
  lemma {:induction false} ConfirmedIffCarried(polls: seq<Poll>, n: nat)
    requires n <= |polls|
    ensures StateAt(polls, n).confirmed <==> Carried(polls, n)
  {
    if n > 0 {
      ConfirmedIffCarried(polls, n - 1);
      CarriedStep(polls, n - 1);
      FlagStep(polls, n - 1);
    }
  }

  lemma FlagStep(polls: seq<Poll>, n: nat)
    requires n < |polls|
    ensures StateAt(polls, n + 1).confirmed
       <==> Confirms(polls, n) || (StateAt(polls, n).confirmed && !Clears(polls, n))
  {
    ConfirmsIff(polls, n);
    ConfirmationStep(StateAt(polls, n), polls[n]);
  }

  /** While a watch is open, its confirmation is the one it opened with or one of its own old seeking polls. */
  lemma {:induction false} ConfirmedInWatch(polls: seq<Poll>, o: nat, n: nat)
    requires o <= n < |polls| && OpenedAt(polls, o, n + 1)
    ensures StateAt(polls, n).confirmed
       <==> StateAt(polls, o).confirmed || exists c :: o <= c < n && OldSeek(polls, o, c)
    decreases n
  {
    if o < n {
      OpeningBefore(polls, o, n);
      ConfirmedInWatch(polls, o, n - 1);
      ConfirmationStep(StateAt(polls, n - 1), polls[n - 1]);
      FiresInWatch(polls, o, n - 1);
      assert StateAt(polls, n).confirmed <==> StateAt(polls, n - 1).confirmed || OldSeek(polls, o, n - 1);
      if c :| o <= c < n && OldSeek(polls, o, c) {
        assert c < n - 1 || OldSeek(polls, o, n - 1);
      }
    }
  }

  lemma OpeningBefore(polls: seq<Poll>, o: nat, n: nat)
    requires o < n < |polls| && OpenedAt(polls, o, n + 1)
    ensures OpenedAt(polls, o, n)
  {
    var p := OpenWatchHasOpening(polls, n);
  }

  /** Poll c seeks, fireMs or more after the watch was opened by poll o. */
  ghost predicate OldSeek(polls: seq<Poll>, o: nat, c: nat)
    requires o < |polls| && c < |polls|
  {
    SeekingAt(polls, c) && polls[c].ts - polls[o].ts >= WindowsAt(polls, c).fireMs
  }

  lemma FiresInWatch(polls: seq<Poll>, o: nat, n: nat)
    requires o <= n < |polls| && OpenedAt(polls, o, n + 1)
    ensures Fires(StateAt(polls, n), polls[n])
       <==> polls[n].ts - polls[o].ts >= WindowsAt(polls, n).fireMs
            && (SeekingAt(polls, n) || StateAt(polls, n).confirmed)
  {
    OpenAfterStep(StateAt(polls, n), polls[n]);
  }

  /**
   Any poll of a watch raises a CRITICAL exactly when the watch is fireMs old, nothing is pinned, and the node seeks at
   that poll or the outage was confirmed: in the watch, by an old seeking poll, or before it opened.
   */
  lemma CriticalIff(polls: seq<Poll>, o: nat, n: nat)
    requires o <= n < |polls| && OpenedAt(polls, o, n + 1)
    ensures Critical(StateAt(polls, n), polls[n])
       <==> && !polls[n].pinned && polls[n].ts - polls[o].ts >= WindowsAt(polls, n).fireMs
            && (SeekingAt(polls, n) || Carried(polls, o) || exists c :: o <= c < n && OldSeek(polls, o, c))
  {
    FiresInWatch(polls, o, n);
    ConfirmedInWatch(polls, o, n);
    ConfirmedIffCarried(polls, o);
  }

  /**
   A poll of a watch that has not raised a CRITICAL yet raises one exactly when the watch is fireMs old, nothing is
   pinned, and the node seeks at that poll - or an earlier confirmation stands in for seeking: one carried into the
   watch from before it opened, or an old seeking poll of the watch itself that was silenced by a pinned outage.
   */
  lemma FirstCriticalIff(polls: seq<Poll>, o: nat, n: nat)
    requires o <= n < |polls| && OpenedAt(polls, o, n + 1)
    requires forall m :: o <= m < n ==> !Critical(StateAt(polls, m), polls[m])
    ensures Critical(StateAt(polls, n), polls[n])
       <==> && !polls[n].pinned && polls[n].ts - polls[o].ts >= WindowsAt(polls, n).fireMs
            && (|| SeekingAt(polls, n)
                || Carried(polls, o)
                || exists c :: o <= c < n && OldSeek(polls, o, c) && polls[c].pinned)
  {
    CriticalIff(polls, o, n);
    forall c | o <= c < n && OldSeek(polls, o, c) ensures polls[c].pinned {
      OpenedSince(polls, o, c, n);
      FiresInWatch(polls, o, c);
      assert !Critical(StateAt(polls, c), polls[c]);
    }
  }

  lemma {:induction false} OpenedSince(polls: seq<Poll>, o: nat, c: nat, n: nat)
    requires o <= c <= n < |polls| && OpenedAt(polls, o, n + 1)
    ensures OpenedAt(polls, o, c + 1)
    decreases n
  {
    if c < n {
      OpeningBefore(polls, o, n);
      OpenedSince(polls, o, c, n - 1);
    }
  }

  function PollAt(ts: int, role: Role, pinned: bool, resolveOk: bool): Poll {
    Poll(ts, Some(RaftState(role, 1, 7)), None, pinned, resolveOk)
  }

  /**
   A confirmation that a failed resolve left behind lets a later watch raise its first CRITICAL on a poll where the
   node is not seeking: outage, recovery whose resolve fails, a second spell of seeking, then a quiet poll.
   */
  function StaleConfirmation(): seq<Poll> {
    [PollAt(0, Candidate, false, true), PollAt(60000, Candidate, false, true), PollAt(61000, Leader, true, false),
     PollAt(62000, Candidate, true, true), PollAt(130000, Candidate, true, true), PollAt(131000, Follower, false, true)]
  }

  /** The watch after each poll of that run. */
  function StaleStates(): seq<Watch> {
    [FRESH, Watch(Some(Open(0, 7, 0)), false, None, 60), Watch(Some(Open(0, 7, 60000)), true, None, 59),
     Watch(None, true, None, 58), Watch(Some(Open(62000, 7, 62000)), true, None, 57),
     Watch(Some(Open(62000, 7, 130000)), true, None, 56), Watch(Some(Open(62000, 7, 130000)), true, None, 55)]
  }

  lemma StaleStep(n: nat)
    requires n < 6
    ensures Step(StaleStates()[n], StaleConfirmation()[n]) == StaleStates()[n + 1]
  {
    if n == 0 {} else if n == 1 {} else if n == 2 {} else if n == 3 {} else if n == 4 {} else {}
  }

  lemma {:induction false} StaleStatesReached(n: nat)
    requires n <= 6
    ensures StateAt(StaleConfirmation(), n) == StaleStates()[n]
  {
    if n > 0 {
      StaleStatesReached(n - 1);
      StaleStep(n - 1);
    }
  }

  lemma StaleWatchOpened()
    ensures OpenedAt(StaleConfirmation(), 3, 6)
  {
    var polls := StaleConfirmation();
    StaleStatesReached(6);
    var o := OpenWatchHasOpening(polls, 6);
    forall n | n <= 6 ensures StateAt(polls, n).open.Some? <==> n !in {0, 3} {
      StaleStatesReached(n);
      if n == 0 {} else if n == 3 {} else if n <= 2 {} else {}
    }
    assert StateAt(polls, 3).open.None? && StateAt(polls, o).open.None?;
    assert forall m :: o < m <= 6 ==> StateAt(polls, m).open.Some?;
  }

  lemma StaleConfirmationFiresQuietly()
    ensures var polls := StaleConfirmation();
            && OpenedAt(polls, 3, 6) && StateAt(polls, 3).confirmed
            && !SeekingAt(polls, 5) && Critical(StateAt(polls, 5), polls[5])
            && forall m :: 3 <= m < 5 ==> !Critical(StateAt(polls, m), polls[m])
  {
    StaleWatchOpened();
    StaleStatesReached(3);
    StaleStatesReached(5);
    assert StaleConfirmation()[3].pinned && StaleConfirmation()[4].pinned;
    assert Critical(StaleStates()[5], StaleConfirmation()[5]);
  }

  /**
   A seeking poll confirms the outage while another one is pinned; the next poll is quiet and finds nothing pinned.
   */
  function PinnedConfirmation(): seq<Poll> {
    [PollAt(0, Candidate, false, true), PollAt(60000, Candidate, true, true), PollAt(61000, Follower, false, true)]
  }

  lemma PinnedConfirmationFiresQuietly()
    ensures var polls := PinnedConfirmation();
            && OpenedAt(polls, 0, 3) && !Carried(polls, 0)
            && !SeekingAt(polls, 2) && Critical(StateAt(polls, 2), polls[2])
            && forall m :: 0 <= m < 2 ==> !Critical(StateAt(polls, m), polls[m])
  {
    var polls := PinnedConfirmation();
    assert StateAt(polls, 1) == Watch(Some(Open(0, 7, 0)), false, None, 60);
    assert StateAt(polls, 2) == Watch(Some(Open(0, 7, 60000)), true, None, 59);
    assert StateAt(polls, 3) == Watch(Some(Open(0, 7, 60000)), true, None, 58);
    var o := OpenWatchHasOpening(polls, 3);
    assert StateAt(polls, o).open.None?;
  }

  // ---------------------------------------------------------------- election churn over runs

  function ChurnAt(polls: seq<Poll>, n: nat): Churn
    requires n <= |polls|
  {
    if n == 0 then CALM else ChurnStep(ChurnAt(polls, n - 1), polls[n - 1])
  }

  /** The term rose from one Raft poll to the next. */
  ghost predicate ElectionAt(polls: seq<Poll>, m: nat)
    requires m < |polls|
  {
    m > 0 && polls[m - 1].raft.Some? && polls[m].raft.Some? && polls[m].raft.value.term > polls[m - 1].raft.value.term
  }

  ghost predicate Within(at: seq<nat>, n: nat) { forall i :: 0 <= i < |at| ==> at[i] < n }

  function TimesOf(polls: seq<Poll>, at: seq<nat>): (r: seq<int>)
    requires Within(at, |polls|)
    ensures |r| == |at|
  {
    if at == [] then [] else [polls[at[0]].ts] + TimesOf(polls, at[1..])
  }

  ghost predicate Ascending(at: seq<nat>) { forall i, j :: 0 <= i < j < |at| ==> at[i] < at[j] }

  /** The polls of a list that are recent enough. */
  function KeptPolls(polls: seq<Poll>, at: seq<nat>, cutoff: int): (kept: seq<nat>)
    requires Within(at, |polls|)
    ensures forall k :: k in kept <==> k in at && polls[k].ts >= cutoff
  {
    if at == [] then []
    else
      assert at[0] in at;
      (if polls[at[0]].ts >= cutoff then [at[0]] else []) + KeptPolls(polls, at[1..], cutoff)
  }

  lemma {:induction false} KeptAscend(polls: seq<Poll>, at: seq<nat>, cutoff: int)
    requires Within(at, |polls|) && Ascending(at)
    ensures Ascending(KeptPolls(polls, at, cutoff))
  {
    if at != [] {
      var rest := KeptPolls(polls, at[1..], cutoff);
      KeptAscend(polls, at[1..], cutoff);
      forall i | 0 <= i < |rest| ensures at[0] < rest[i] {
        assert rest[i] in at[1..];
      }
    }
  }

  lemma {:induction false} KeptTimes(polls: seq<Poll>, at: seq<nat>, cutoff: int)
    requires Within(at, |polls|) && Within(KeptPolls(polls, at, cutoff), |polls|)
    ensures TimesOf(polls, KeptPolls(polls, at, cutoff)) == Filter(TimesOf(polls, at), (t: int) => t >= cutoff)
  {
    if at != [] {
      var rest := KeptPolls(polls, at[1..], cutoff);
      forall i | 0 <= i < |rest| ensures rest[i] < |polls| {
        assert rest[i] in at[1..];
      }
      KeptTimes(polls, at[1..], cutoff);
      assert TimesOf(polls, at)[1..] == TimesOf(polls, at[1..]);
      assert ([at[0]] + rest)[1..] == rest && [] + rest == rest;
    }
  }

  lemma {:induction false} TimesSnoc(polls: seq<Poll>, at: seq<nat>, n: nat)
    requires n < |polls| && Within(at, |polls|)
    ensures TimesOf(polls, at + [n]) == TimesOf(polls, at) + [polls[n].ts]
  {
    if at != [] {
      assert (at + [n])[1..] == at[1..] + [n];
      TimesSnoc(polls, at[1..], n);
    }
  }

  lemma PrevTermAt(polls: seq<Poll>, n: nat)
    requires n <= |polls|
    ensures ChurnAt(polls, n).prevTerm
         == if n > 0 && polls[n - 1].raft.Some? then Some(polls[n - 1].raft.value.term) else None
  {}

  /** Poll m makes the counter forget: a churn warning, or a reply without Raft state. */
  ghost predicate Resets(polls: seq<Poll>, m: nat)
    requires m < |polls|
  {
    polls[m].raft.None? || ChurnWarning(ChurnAt(polls, m), polls[m])
  }

  /** Poll m saw an election in the minute before poll n, and nothing made the counter forget it before poll n. */
  ghost predicate CountsAt(polls: seq<Poll>, m: nat, n: nat)
    requires m <= n < |polls|
  {
    ElectionAt(polls, m) && polls[n].ts - polls[m].ts <= 60000 && forall k :: m <= k < n ==> !Resets(polls, k)
  }

  ghost predicate Timely(polls: seq<Poll>) { forall i, j :: 0 <= i < j < |polls| ==> polls[i].ts <= polls[j].ts }

  /** These polls count at poll n, and while time never runs backwards no others do. */
  ghost predicate Counted(polls: seq<Poll>, n: nat, at: seq<nat>)
    requires n < |polls|
  {
    && Ascending(at) && Within(at, n + 1)
    && (forall m :: m in at ==> CountsAt(polls, m, n))
    && (Timely(polls) ==> forall m :: 0 <= m <= n && CountsAt(polls, m, n) ==> m in at)
  }

  /** The polls whose elections the counter remembers when poll n comes. */
  ghost predicate RememberedBefore(polls: seq<Poll>, n: nat, before: seq<nat>)
    requires n < |polls|
  {
    if n > 0 && !Resets(polls, n - 1) then Counted(polls, n - 1, before) else before == []
  }

  function Grown(n: nat, before: seq<nat>, election: bool): seq<nat> {
    if election then before + [n] else before
  }

  lemma GrownOk(polls: seq<Poll>, n: nat, before: seq<nat>)
    requires n < |polls| && RememberedBefore(polls, n, before)
    ensures Ascending(Grown(n, before, ElectionAt(polls, n)))
    ensures Within(Grown(n, before, ElectionAt(polls, n)), n + 1)
  {}

  /** What counts at poll n is what counted before, unless it grew too old, and an election at poll n itself. */
  lemma CountsNext(polls: seq<Poll>, m: nat, n: nat)
    requires m < n < |polls|
    ensures !Resets(polls, n - 1) && CountsAt(polls, m, n - 1) && polls[n].ts - polls[m].ts <= 60000
            ==> CountsAt(polls, m, n)
    ensures CountsAt(polls, m, n) && Timely(polls) ==> !Resets(polls, n - 1) && CountsAt(polls, m, n - 1)
  {
  }

  lemma CountedNext(polls: seq<Poll>, n: nat, before: seq<nat>, at: seq<nat>)
    requires n < |polls| && RememberedBefore(polls, n, before)
    requires forall k :: k in at
                         <==> k in Grown(n, before, ElectionAt(polls, n)) && polls[n].ts - polls[k].ts <= 60000
    ensures forall m :: m in at ==> m <= n && CountsAt(polls, m, n)
    ensures Timely(polls) ==> forall m :: 0 <= m <= n && CountsAt(polls, m, n) ==> m in at
  {
    forall m: nat ensures m in at ==> m <= n && CountsAt(polls, m, n)
                  ensures Timely(polls) && m <= n && CountsAt(polls, m, n) ==> m in at {
      if m < n {
        CountsNext(polls, m, n);
      }
    }
  }

  lemma RecentIsKept(polls: seq<Poll>, n: nat, c: Churn, before: seq<nat>, election: bool)
    requires n < |polls| && polls[n].raft.Some? && Within(before, |polls|) && c.elections == TimesOf(polls, before)
    requires election <==> c.prevTerm.Some? && polls[n].raft.value.term > c.prevTerm.value
    requires Within(KeptPolls(polls, Grown(n, before, election), polls[n].ts - CHURN_WINDOW_MS), |polls|)
    ensures Recent(c, polls[n].raft.value, polls[n].ts)
         == TimesOf(polls, KeptPolls(polls, Grown(n, before, election), polls[n].ts - CHURN_WINDOW_MS))
  {
    TimesSnoc(polls, before, n);
    KeptTimes(polls, Grown(n, before, election), polls[n].ts - CHURN_WINDOW_MS);
  }

  lemma CountedIsRecent(polls: seq<Poll>, n: nat, before: seq<nat>) returns (at: seq<nat>)
    requires n < |polls| && polls[n].raft.Some? && RememberedBefore(polls, n, before)
    requires Within(before, |polls|) && ChurnAt(polls, n).elections == TimesOf(polls, before)
    ensures Counted(polls, n, at) && Within(at, |polls|)
    ensures Recent(ChurnAt(polls, n), polls[n].raft.value, polls[n].ts) == TimesOf(polls, at)
  {
    var election := ElectionAt(polls, n);
    GrownOk(polls, n, before);
    at := KeptPolls(polls, Grown(n, before, election), polls[n].ts - CHURN_WINDOW_MS);
    CountedNext(polls, n, before, at);
    KeptAscend(polls, Grown(n, before, election), polls[n].ts - CHURN_WINDOW_MS);
    KeptWithin(polls, Grown(n, before, election), polls[n].ts - CHURN_WINDOW_MS, n + 1);
    PrevTermAt(polls, n);
    RecentIsKept(polls, n, ChurnAt(polls, n), before, election);
  }

  lemma KeptWithin(polls: seq<Poll>, at: seq<nat>, cutoff: int, bound: nat)
    requires Within(at, |polls|) && Within(at, bound)
    ensures Within(KeptPolls(polls, at, cutoff), bound)
  {
    var kept := KeptPolls(polls, at, cutoff);
    forall i | 0 <= i < |kept| ensures kept[i] < bound {
      assert kept[i] in at;
    }
  }

  /** The times the counter holds at poll n belong to exactly the polls that count there. */
  lemma {:induction false} RecentElections(polls: seq<Poll>, n: nat) returns (at: seq<nat>)
    requires n < |polls| && polls[n].raft.Some?
    ensures Counted(polls, n, at) && Within(at, |polls|)
    ensures Recent(ChurnAt(polls, n), polls[n].raft.value, polls[n].ts) == TimesOf(polls, at)
    decreases n
  {
    var before: seq<nat> := [];
    if n > 0 && !Resets(polls, n - 1) {
      before := RecentElections(polls, n - 1);
    }
    at := CountedIsRecent(polls, n, before);
  }

  ghost predicate ThreeCount(polls: seq<Poll>, n: nat)
    requires n < |polls|
  {
    exists a, b, c :: 0 <= a < b < c <= n && CountsAt(polls, a, n) && CountsAt(polls, b, n) && CountsAt(polls, c, n)
  }

  lemma ThreeInOrder(at: seq<nat>, a: nat, b: nat, c: nat)
    requires Ascending(at) && a in at && b in at && c in at && a < b < c
    ensures |at| >= 3
  {}

  /**
   A poll that warns of churn has three distinct polls of the last minute that saw the term rise, none of them before
   the last warning or the last reply without Raft state; and while time never runs backwards, three such polls force
   the warning.
   */
  lemma ChurnWarnsIff(polls: seq<Poll>, n: nat)
    requires n < |polls| && polls[n].raft.Some?
    ensures ChurnWarning(ChurnAt(polls, n), polls[n]) ==> ThreeCount(polls, n)
    ensures Timely(polls) ==> (ChurnWarning(ChurnAt(polls, n), polls[n]) <==> ThreeCount(polls, n))
  {
    var at := RecentElections(polls, n);
    if |at| >= 3 {
      assert at[0] in at && at[1] in at && at[2] in at;
      assert CountsAt(polls, at[0], n) && CountsAt(polls, at[1], n) && CountsAt(polls, at[2], n);
    }
    if Timely(polls) && ThreeCount(polls, n) {
      var a, b, c :| 0 <= a < b < c <= n && CountsAt(polls, a, n) && CountsAt(polls, b, n) && CountsAt(polls, c, n);
      ThreeInOrder(at, a, b, c);
    }
  }
}

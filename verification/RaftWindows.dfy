/** The windows of the leaderless watch, read off the polls and what their timeout lookups return. */
module RaftWindows {
  // A lookup that returns nothing is followed by sixty Raft polls without one, so lookups fall on every sixty-first
  // Raft poll until one succeeds. The first success fixes the node timeout for the life of the connection.

  import opened Prelude
  import opened RaftWatch

  const LOOKUP_PERIOD: nat := 61

  /** The polls before n that reported Raft state. */
  function RaftPolls(polls: seq<Poll>, n: nat): nat
    requires n <= |polls|
  {
    if n == 0 then 0 else RaftPolls(polls, n - 1) + if polls[n - 1].raft.Some? then 1 else 0
  }

  /** A lookup is made in poll m unless an earlier one succeeded. */
  ghost predicate DueAt(polls: seq<Poll>, m: nat) {
    m < |polls| && polls[m].raft.Some? && RaftPolls(polls, m) % LOOKUP_PERIOD == 0
  }

  ghost predicate ReadableAt(polls: seq<Poll>, m: nat) {
    DueAt(polls, m) && polls[m].fetched.Some? && polls[m].fetched.value > 0
  }

  /** The node timeout known after the polls before n: what the first due and positive lookup returned. */
  ghost predicate Known(polls: seq<Poll>, n: nat, timeout: Option<int>) {
    if timeout.None? then forall m: nat :: m < n ==> !ReadableAt(polls, m)
    else
      exists m: nat :: m < n && ReadableAt(polls, m) && polls[m].fetched == timeout
                       && forall k: nat :: k < m ==> !ReadableAt(polls, k)
  }

  /** The countdown after c Raft polls without a timeout. */
  function Countdown(c: nat): nat { if c % LOOKUP_PERIOD == 0 then 0 else LOOKUP_PERIOD - c % LOOKUP_PERIOD }

  lemma CountdownNext(c: nat)
    ensures c % LOOKUP_PERIOD == 0 ==> Countdown(c + 1) == 60
    ensures c % LOOKUP_PERIOD != 0 ==> Countdown(c) > 0 && Countdown(c + 1) == Countdown(c) - 1
  {}

  ghost predicate LookupOk(polls: seq<Poll>, n: nat, w: Watch)
    requires n <= |polls|
  {
    Known(polls, n, w.nodeTimeout) && (w.nodeTimeout.None? ==> w.recheck == Countdown(RaftPolls(polls, n)))
  }

  lemma KnownNext(polls: seq<Poll>, n: nat, timeout: Option<int>)
    requires n < |polls| && Known(polls, n, timeout)
    ensures Known(polls, n + 1, if timeout.None? && ReadableAt(polls, n) then polls[n].fetched else timeout)
  {
    if timeout.None? && ReadableAt(polls, n) {
      assert forall k: nat :: k < n ==> !ReadableAt(polls, k);
    } else if timeout.Some? {
      var m: nat :| m < n && ReadableAt(polls, m) && polls[m].fetched == timeout
                    && forall k: nat :: k < m ==> !ReadableAt(polls, k);
    }
  }

  /** In a Raft poll the lookup leaves what the polls up to and including it make known. */
  lemma LookupNext(polls: seq<Poll>, n: nat, w: Watch)
    requires n < |polls| && polls[n].raft.Some? && LookupOk(polls, n, w)
    ensures LookupOk(polls, n + 1, LookUp(w, polls[n].fetched))
  {
    KnownNext(polls, n, w.nodeTimeout);
    CountdownNext(RaftPolls(polls, n));
  }

  lemma StepLooksUp(w: Watch, poll: Poll)
    ensures var looked := if poll.raft.Some? then LookUp(w, poll.fetched) else w;
            Step(w, poll).nodeTimeout == looked.nodeTimeout && Step(w, poll).recheck == looked.recheck
  {}

  lemma {:induction false} StateLooksUp(polls: seq<Poll>, n: nat)
    requires n <= |polls|
    ensures LookupOk(polls, n, StateAt(polls, n))
  {
    if n > 0 {
      StateLooksUp(polls, n - 1);
      StepLooksUp(StateAt(polls, n - 1), polls[n - 1]);
      KnownNext(polls, n - 1, StateAt(polls, n - 1).nodeTimeout);
      if polls[n - 1].raft.Some? {
        LookupNext(polls, n - 1, StateAt(polls, n - 1));
      } else {
        assert Known(polls, n, StateAt(polls, n).nodeTimeout);
      }
    }
  }

  /** Fifteen seconds while no timeout is known, else the known one capped at five minutes. */
  predicate Capped(timeout: Option<int>, effective: int) {
    match timeout
    case None => effective == 15000
    case Some(ms) => effective <= ms && effective <= 300000 && (effective == ms || effective == 300000)
  }

  /** The node timeout the watch goes by at poll n. */
  ghost predicate EffectiveTimeout(polls: seq<Poll>, n: nat, effective: int) {
    var end := n + 1;
    exists timeout: Option<int> :: Known(polls, end, timeout) && Capped(timeout, effective)
  }

  /** The larger of two. */
  predicate IsLarger(x: int, a: int, b: int) { x >= a && x >= b && (x == a || x == b) }

  lemma KnownOnce(polls: seq<Poll>, n: nat, a: Option<int>, b: Option<int>)
    requires Known(polls, n, a) && Known(polls, n, b)
    ensures a == b
  {
    if a.Some? && b.Some? {
      var i: nat :| i < n && ReadableAt(polls, i) && polls[i].fetched == a
                    && forall k: nat :: k < i ==> !ReadableAt(polls, k);
      var j: nat :| j < n && ReadableAt(polls, j) && polls[j].fetched == b
                    && forall k: nat :: k < j ==> !ReadableAt(polls, k);
      assert i == j;
    }
  }

  /**
   At every Raft poll of every run there is one effective node timeout; the recovery window is the larger of thirty
   seconds and three times that timeout, and the watch must be older than the window by the larger of ten seconds and
   it.
   */
  lemma WindowsFollowTimeout(polls: seq<Poll>, n: nat)
    requires n < |polls| && polls[n].raft.Some?
    ensures exists effective :: EffectiveTimeout(polls, n, effective)
    ensures var win := WindowsAt(polls, n);
            forall effective :: EffectiveTimeout(polls, n, effective) ==>
                                  && IsLarger(win.recoveredMs, 30000, 3 * effective)
                                  && IsLarger(win.fireMs - win.recoveredMs, 10000, effective)
  {
    StateLooksUp(polls, n);
    LookupNext(polls, n, StateAt(polls, n));
    var end, known := n + 1, LookUp(StateAt(polls, n), polls[n].fetched).nodeTimeout;
    var capped := if known.None? then 15000 else if known.value < 300000 then known.value else 300000;
    assert EffectiveTimeout(polls, n, capped);
    forall effective | EffectiveTimeout(polls, n, effective) ensures effective == capped {
      var timeout: Option<int> :| Known(polls, end, timeout) && Capped(timeout, effective);
      KnownOnce(polls, end, timeout, known);
    }
  }
}

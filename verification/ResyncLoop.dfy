/** A replica looping on full resync: failed sync attempts counted inside one unbroken link-down window. */
module ResyncLoop {
  import opened Prelude

  const MIN_WINDOW_MS := 300000
  const MIN_CYCLES: nat := 2

  /**
   `linkDown` holds for a replica whose link is down; `emitOk` says whether a finding's emit succeeds, and is
   acknowledged.
   */
  datatype Poll = Poll(linkDown: bool, downSince: Option<int>, syncing: bool, ts: int, emitOk: bool)

  datatype State = State(start: Option<int>, lastDown: Option<int>, wasSyncing: bool, failedCycles: nat, alerted: bool)

  const CLEAR: State := State(None, None, false, 0, false)

  predicate Below(reading: Option<int>, last: Option<int>) { reading.Some? && last.Some? && reading.value < last.value }

  function Folded(s: State, p: Poll): State {
    if !p.linkDown then CLEAR
    else
      var t := if Below(p.downSince, s.lastDown) then CLEAR else s;
      State(if t.start.Some? then t.start else Some(p.ts),
            if p.downSince.Some? then p.downSince else t.lastDown,
            p.syncing,
            t.failedCycles + if t.wasSyncing && !p.syncing then 1 else 0,
            t.alerted)
  }

  predicate Due(s: State, ts: int) {
    s.start.Some? && ts - s.start.value >= MIN_WINDOW_MS && s.failedCycles >= MIN_CYCLES && !s.alerted
  }

  predicate Fires(s: State, p: Poll) { p.linkDown && Due(Folded(s, p), p.ts) }

  function Step(s: State, p: Poll): State {
    if Fires(s, p) && p.emitOk then Folded(s, p).(alerted := true) else Folded(s, p)
  }

  class ResyncLoopDetector {
    var downWindowStart: Option<int>
    var lastDownSinceSeconds: Option<int>
    var syncWasInProgress: bool
    var failedCycles: nat
    var alerted: bool

    constructor ()
      ensures Model() == CLEAR
    {
      downWindowStart, lastDownSinceSeconds, syncWasInProgress, failedCycles, alerted := None, None, false, 0, false;
    }

    function Model(): State
      reads this
    {
      State(downWindowStart, lastDownSinceSeconds, syncWasInProgress, failedCycles, alerted)
    }

    method Reset()
      modifies this
      ensures Model() == CLEAR
    {
      downWindowStart, lastDownSinceSeconds, syncWasInProgress, failedCycles, alerted := None, None, false, 0, false;
    }

    method Evaluate(p: Poll) returns (finding: bool)
      modifies this
      ensures Model() == Folded(old(Model()), p) && finding == Fires(old(Model()), p)
    {
      if !p.linkDown {
        Reset();
        return false;
      }
      if lastDownSinceSeconds.Some? && p.downSince.Some? && p.downSince.value < lastDownSinceSeconds.value {
        Reset();
      }
      if p.downSince.Some? {
        lastDownSinceSeconds := p.downSince;
      }
      if downWindowStart.None? {
        downWindowStart := Some(p.ts);
      }
      if syncWasInProgress && !p.syncing {
        failedCycles := failedCycles + 1;
      }
      syncWasInProgress := p.syncing;
      finding := p.ts - downWindowStart.value >= MIN_WINDOW_MS && failedCycles >= MIN_CYCLES && !alerted;
    }

    method Acknowledge()
      modifies this`alerted
      ensures Model() == old(Model()).(alerted := true)
    {
      alerted := true;
    }
  }

  // ---------------------------------------------------------------- runs

  function StateAt(run: seq<Poll>): State {
    if run == [] then CLEAR else Step(StateAt(run[..|run| - 1]), run[|run| - 1])
  }

  /** The last reading of the server's link-down counter. */
  function LastDown(w: seq<Poll>): Option<int> {
    if w == [] then None else if w[|w| - 1].downSince.Some? then w[|w| - 1].downSince else LastDown(w[..|w| - 1])
  }

  /** The polls of the current link-down window: since the link was last up, or its down counter last fell. */
  function Window(run: seq<Poll>): seq<Poll> {
    if run == [] then []
    else Continue(Window(run[..|run| - 1]), run[|run| - 1])
  }

  function Continue(w: seq<Poll>, p: Poll): seq<Poll> {
    if !p.linkDown then [] else if Below(p.downSince, LastDown(w)) then [p] else w + [p]
  }

  /** Sync attempts that ended inside the window. */
  function FailedAttempts(w: seq<Poll>): nat {
    if |w| < 2 then 0
    else FailedAttempts(w[..|w| - 1]) + if w[|w| - 2].syncing && !w[|w| - 1].syncing then 1 else 0
  }

  ghost predicate DueAfter(w: seq<Poll>) {
    w != [] && w[|w| - 1].ts - w[0].ts >= 300000 && FailedAttempts(w) >= 2
  }

  /** Some poll of the window was due and its emit succeeded. */
  ghost predicate AlertedIn(w: seq<Poll>) { exists n :: 0 < n <= |w| && DueAfter(w[..n]) && w[n - 1].emitOk }

  ghost predicate Summarizes(s: State, w: seq<Poll>) {
    && (w == [] ==> s == CLEAR)
    && (w != [] ==>
          && s.start == Some(w[0].ts) && s.lastDown == LastDown(w) && s.wasSyncing == w[|w| - 1].syncing
          && s.failedCycles == FailedAttempts(w) && (s.alerted <==> AlertedIn(w)))
  }

  lemma AlertedSnoc(w: seq<Poll>, p: Poll)
    ensures AlertedIn(w + [p]) <==> AlertedIn(w) || (DueAfter(w + [p]) && p.emitOk)
  {
    var all := w + [p];
    assert all[..|all|] == all && all[|all| - 1] == p;
    forall n | 0 < n <= |w| ensures all[..n] == w[..n] && all[n - 1] == w[n - 1] {
    }
  }

  lemma SummaryExtends(s: State, w: seq<Poll>, p: Poll)
    requires Summarizes(s, w) && p.linkDown && !Below(p.downSince, s.lastDown)
    ensures Summarizes(Step(s, p), w + [p])
    ensures Fires(s, p) <==> DueAfter(w + [p]) && !AlertedIn(w)
  {
    var all := w + [p];
    assert all[..|all| - 1] == w;
    AlertedSnoc(w, p);
    if w == [] {
      assert all[0] == p && !AlertedIn(w);
    } else {
      assert all[0] == w[0] && all[|all| - 2] == w[|w| - 1];
    }
  }

  /** One poll continues the window the state summarizes, or starts a new one, and fires by that window alone. */
  lemma SummaryContinues(s: State, w: seq<Poll>, p: Poll)
    requires Summarizes(s, w)
    ensures Summarizes(Step(s, p), Continue(w, p))
    ensures Fires(s, p) <==> p.linkDown && DueAfter(Continue(w, p)) && !AlertedIn(Earlier(Continue(w, p)))
  {
    assert s.lastDown == LastDown(w);
    if p.linkDown {
      if Below(p.downSince, LastDown(w)) {
        SummaryExtends(CLEAR, [], p);
        assert [] + [p] == [p] && Earlier([p]) == [];
        assert Folded(s, p) == Folded(CLEAR, p);
      } else {
        SummaryExtends(s, w, p);
        assert Earlier(w + [p]) == w;
      }
    }
  }

  /** The window before its last poll. */
  function Earlier(w: seq<Poll>): seq<Poll> { if w == [] then [] else w[..|w| - 1] }

  /** In every run the detector's state is a summary of the current window. */
  lemma {:induction false} StateSummarizesWindow(run: seq<Poll>)
    ensures Summarizes(StateAt(run), Window(run))
  {
    if run != [] {
      StateSummarizesWindow(run[..|run| - 1]);
      SummaryContinues(StateAt(run[..|run| - 1]), Window(run[..|run| - 1]), run[|run| - 1]);
    }
  }

  /**
   A poll fires exactly when its window has lasted five minutes and contains two failed sync attempts, and no earlier
   poll of that window delivered a finding.
   */
  lemma FiresIff(run: seq<Poll>, p: Poll)
    ensures var w := Window(run + [p]);
            Fires(StateAt(run), p) <==> p.linkDown && DueAfter(w) && !AlertedIn(Earlier(w))
  {
    assert (run + [p])[..|run|] == run;
    StateSummarizesWindow(run);
    SummaryContinues(StateAt(run), Window(run), p);
  }

  /** The link is down at every poll, and the server's counter never falls from one reading to a later one. */
  ghost predicate Unbroken(w: seq<Poll>) {
    && (forall i :: 0 <= i < |w| ==> w[i].linkDown)
    && (forall i, j :: 0 <= i < j < |w| && w[i].downSince.Some? && w[j].downSince.Some? ==>
          w[i].downSince.value <= w[j].downSince.value)
  }

  lemma {:induction false} LastDownIsGreatest(w: seq<Poll>)
    requires Unbroken(w)
    ensures forall i :: 0 <= i < |w| && w[i].downSince.Some? ==>
              LastDown(w).Some? && w[i].downSince.value <= LastDown(w).value
  {
    if w != [] {
      LastDownIsGreatest(w[..|w| - 1]);
    }
  }

  lemma ContinueUnbroken(w: seq<Poll>, p: Poll)
    requires Unbroken(w)
    ensures Unbroken(Continue(w, p))
  {
    LastDownIsGreatest(w);
  }

  /** Every window is unbroken. */
  lemma {:induction false} WindowIsUnbroken(run: seq<Poll>)
    ensures Unbroken(Window(run))
  {
    if run != [] {
      WindowIsUnbroken(run[..|run| - 1]);
      ContinueUnbroken(Window(run[..|run| - 1]), run[|run| - 1]);
    }
  }

  // ---------------------------------------------------------------- where a window starts

  /** Poll j is the last before poll o that read the server's counter, and the link was down from j on. */
  ghost predicate LastReading(run: seq<Poll>, j: nat, o: nat)
    requires o <= |run|
  {
    && j < o && run[j].downSince.Some? && (forall m :: j <= m < o ==> run[m].linkDown)
    && forall m :: j < m < o ==> run[m].downSince.None?
  }

  /** The counter reads less at poll o than it last did: the link was up in between, unseen. */
  ghost predicate Fell(run: seq<Poll>, o: nat)
    requires o < |run|
  {
    run[o].downSince.Some?
    && exists j: nat :: LastReading(run, j, o) && run[o].downSince.value < run[j].downSince.value
  }

  /** Poll o begins a stretch with the link down. */
  ghost predicate Begins(run: seq<Poll>, o: nat)
    requires o < |run|
  {
    run[o].linkDown && (o == 0 || !run[o - 1].linkDown || Fell(run, o))
  }

  /** The stretch that began at poll o lasts to the end of the run. */
  ghost predicate LastsFrom(run: seq<Poll>, o: nat) {
    && o < |run| && Begins(run, o) && (forall m :: o <= m < |run| ==> run[m].linkDown)
    && forall m :: o < m < |run| ==> !Begins(run, m)
  }

  lemma {:induction false} LastDownReads(run: seq<Poll>, o: nat)
    requires o <= |run| && forall m :: o <= m < |run| ==> run[m].linkDown
    ensures LastDown(run[o..]).None? ==> forall j :: o <= j < |run| ==> run[j].downSince.None?
    ensures LastDown(run[o..]).Some? ==>
              exists j: nat :: o <= j && LastReading(run, j, |run|) && run[j].downSince == LastDown(run[o..])
    decreases |run|
  {
    if o < |run| {
      var init, n := run[..|run| - 1], |run| - 1;
      assert run[o..][..n - o] == init[o..];
      LastDownReads(init, o);
      if run[n].downSince.Some? {
        assert LastReading(run, n, |run|);
      } else if LastDown(init[o..]).Some? {
        var j: nat :| o <= j && LastReading(init, j, n) && init[j].downSince == LastDown(init[o..]);
        assert LastReading(run, j, |run|);
      }
    }
  }

  lemma LastReadingUnique(run: seq<Poll>, i: nat, j: nat, o: nat)
    requires o <= |run| && LastReading(run, i, o) && LastReading(run, j, o)
    ensures i == j
  {}

  /** The counter of the window in progress has fallen exactly if it reads less than it last did. */
  lemma BelowIsFall(run: seq<Poll>, p: Poll, o: nat)
    requires LastsFrom(run, o) && p.linkDown
    ensures Below(p.downSince, LastDown(run[o..])) <==> Fell(run + [p], |run|)
  {
    var all, n := run + [p], |run|;
    LastDownReads(run, o);
    forall j: nat ensures LastReading(all, j, n) <==> LastReading(run, j, n) {
      assert forall m :: 0 <= m < n ==> all[m] == run[m];
    }
    if LastDown(run[o..]).Some? {
      var j: nat :| o <= j && LastReading(run, j, n) && run[j].downSince == LastDown(run[o..]);
      forall i: nat | LastReading(run, i, n) ensures i == j {
        LastReadingUnique(run, i, j, n);
      }
      assert LastReading(all, j, n) && all[j] == run[j];
    } else {
      forall j: nat ensures !LastReading(run, j, n) {
        assert run[o].downSince.None?;
      }
    }
  }

  lemma BeginsInPrefix(run: seq<Poll>, p: Poll, o: nat)
    requires o < |run|
    ensures Begins(run + [p], o) <==> Begins(run, o)
  {
    var all := run + [p];
    forall j: nat ensures LastReading(all, j, o) <==> LastReading(run, j, o) {
      assert forall m :: 0 <= m < o ==> all[m] == run[m];
    }
    assert forall m :: 0 <= m <= o ==> all[m] == run[m];
  }

  lemma LastsOn(run: seq<Poll>, p: Poll, o: nat)
    requires LastsFrom(run, o) && p.linkDown && !Fell(run + [p], |run|)
    ensures LastsFrom(run + [p], o)
  {
    var all := run + [p];
    forall m: nat | m < |run| ensures Begins(all, m) <==> Begins(run, m) {
      BeginsInPrefix(run, p, m);
    }
    assert all[|run|] == p && forall m :: 0 <= m < |run| ==> all[m] == run[m];
  }

  lemma StartsNow(run: seq<Poll>, p: Poll)
    requires p.linkDown && (run == [] || !run[|run| - 1].linkDown || Fell(run + [p], |run|))
    ensures LastsFrom(run + [p], |run|) && (run + [p])[|run|..] == [p]
  {
    assert (run + [p])[|run|] == p;
    assert run != [] ==> (run + [p])[|run| - 1] == run[|run| - 1];
  }

  lemma StretchGoesOn(run: seq<Poll>, p: Poll, o: nat)
    requires LastsFrom(run, o) && p.linkDown
    ensures Continue(run[o..], p) == [p] ==> exists k: nat :: LastsFrom(run + [p], k) && (run + [p])[k..] == [p]
    ensures Continue(run[o..], p) != [p] ==> LastsFrom(run + [p], o) && (run + [p])[o..] == Continue(run[o..], p)
  {
    BelowIsFall(run, p, o);
    if Fell(run + [p], |run|) {
      StartsNow(run, p);
    } else {
      LastsOn(run, p, o);
      assert (run + [p])[o..] == run[o..] + [p];
    }
  }

  /**
   With the link up there is no window; with it down, the window is the stretch since the poll where the link was first
   seen down, or where the server's counter last read less than before.
   */
  lemma {:induction false} WindowIs(run: seq<Poll>)
    ensures run == [] || !run[|run| - 1].linkDown ==> Window(run) == []
    ensures run != [] && run[|run| - 1].linkDown ==> exists o: nat :: LastsFrom(run, o) && Window(run) == run[o..]
  {
    hide Begins, Below, LastDown;
    if run != [] && run[|run| - 1].linkDown {
      var init, p := run[..|run| - 1], run[|run| - 1];
      WindowIs(init);
      assert init + [p] == run;
      if init == [] || !init[|init| - 1].linkDown {
        StartsNow(init, p);
        assert Window(run) == Continue([], p) == [p];
      } else {
        var o: nat :| LastsFrom(init, o) && Window(init) == init[o..];
        StretchGoesOn(init, p, o);
      }
    }
  }
}

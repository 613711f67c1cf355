/**
 The membership history of one connection: which node ids are present, which have departed and since when, and which
 of them reintroduce themselves after having been forgotten.
 */
module GhostHistory {
  import opened Prelude
  import opened Sorting

  const MIN_ABSENT_POLLS: nat := 2
  const MIN_ABSENT_MS := 60000
  const DEPARTED_RETENTION_MS := 6 * 60 * 60 * 1000
  const MAX_DEPARTED: nat := 512
  const NON_LIVE: set<string> := {"fail", "fail?", "noaddr"}

  datatype Line = Line(id: string, flags: set<string>)

  datatype Entry = Entry(departedAt: int, absentPolls: nat)

  datatype Rejoin = Rejoin(nodeId: string, departedAt: int, returnedAt: int, absentPolls: nat)

  datatype History = History(present: set<string>, departed: map<string, Entry>)

  predicate IsLive(line: Line) { line.flags * NON_LIVE == {} }

  function Seen(nodes: seq<Line>): set<string> { set n | n in nodes :: n.id }

  function Live(nodes: seq<Line>): set<string> { set n | n in nodes && IsLive(n) :: n.id }

  /** Ids still missing age their absence. */
  function Aged(departed: map<string, Entry>, seen: set<string>): map<string, Entry> {
    map x | x in departed ::
      if x in seen then departed[x] else Entry(departed[x].departedAt, departed[x].absentPolls + 1)
  }

  function Without(departed: map<string, Entry>, gone: set<string>): map<string, Entry> {
    map x | x in departed && x !in gone :: departed[x]
  }

  /** A return counts after two absent polls and a minute of absence. */
  predicate Convincing(e: Entry, ts: int) { e.absentPolls >= MIN_ABSENT_POLLS && ts - e.departedAt >= MIN_ABSENT_MS }

  function RejoinOf(x: string, e: Entry, ts: int): Rejoin { Rejoin(x, e.departedAt, ts, e.absentPolls) }

  ghost predicate Reported(departed: map<string, Entry>, live: set<string>, ts: int, r: Rejoin) {
    && r.nodeId in departed && r.nodeId in live && Convincing(departed[r.nodeId], ts)
    && r == RejoinOf(r.nodeId, departed[r.nodeId], ts)
  }

  /** A view that collapses to at most one id while two or more vanish is read as a reset, not as departures. */
  predicate ViewReset(h: History, nodes: seq<Line>) { |h.present - Seen(nodes)| >= 2 && |Seen(nodes)| <= 1 }

  function PresentAfter(h: History, nodes: seq<Line>): set<string> {
    set x | x in Seen(nodes) && (x in h.present || x !in h.departed || x in Live(nodes))
  }

  /** Ids that were present and are no longer listed depart now. */
  function Departing(h: History, nodes: seq<Line>, ts: int): map<string, Entry> {
    map x | x in h.present - Seen(nodes) :: Entry(ts, 1)
  }

  /** The departures after the poll, before eviction: the aged ones still gone and the new ones, or none at a reset. */
  function DepartedAfter(h: History, nodes: seq<Line>, ts: int): map<string, Entry> {
    if ViewReset(h, nodes) then map[] else Without(Aged(h.departed, Seen(nodes)), Live(nodes)) + Departing(h, nodes, ts)
  }

  function Recent(departed: map<string, Entry>, ts: int): map<string, Entry> {
    map x | x in departed && ts - departed[x].departedAt <= DEPARTED_RETENTION_MS :: departed[x]
  }

  /** `kept` is what the ceiling leaves of `all`: everything, or the newest 512. */
  ghost predicate Newest(all: map<string, Entry>, kept: map<string, Entry>) {
    && (forall x :: x in kept ==> x in all && kept[x] == all[x])
    && |kept| == MinInt(MAX_DEPARTED, |all|)
    && (forall x, y :: x in all && x !in kept && y in kept ==> all[x].departedAt <= kept[y].departedAt)
  }

  /** One poll; which of several equally old departures the ceiling drops is left open. */
  ghost predicate Step(h: History, nodes: seq<Line>, ts: int, h': History) {
    h'.present == PresentAfter(h, nodes) && Newest(Recent(DepartedAfter(h, nodes, ts), ts), h'.departed)
  }

  // ---------------------------------------------------------------- one poll, line by line

  /** One line: an id not departed becomes present; a departed one returns when the line is live. */
  function LineStep(h: History, line: Line): History {
    if line.id !in h.departed then h.(present := h.present + {line.id})
    else if IsLive(line) then History(h.present + {line.id}, h.departed - {line.id})
    else h
  }

  function LineFinding(h: History, line: Line, ts: int): seq<Rejoin> {
    if line.id in h.departed && IsLive(line) && Convincing(h.departed[line.id], ts)
    then [RejoinOf(line.id, h.departed[line.id], ts)]
    else []
  }

  function FoldLines(h: History, nodes: seq<Line>): History {
    if nodes == [] then h else LineStep(FoldLines(h, nodes[..|nodes| - 1]), nodes[|nodes| - 1])
  }

  function FoldFindings(h: History, nodes: seq<Line>, ts: int): seq<Rejoin> {
    if nodes == [] then []
    else
      var init := nodes[..|nodes| - 1];
      FoldFindings(h, init, ts) + LineFinding(FoldLines(h, init), nodes[|nodes| - 1], ts)
  }

  function Depart(h: History, seen: set<string>, ts: int): History {
    var departing := h.present - seen;
    var departed := if |departing| >= 2 && |seen| <= 1 then map[]
      else h.departed + map x | x in departing :: Entry(ts, 1);
    History(h.present - departing, departed)
  }

  class GhostMembershipHistory {
    var present: set<string>
    var departed: map<string, Entry>

    constructor ()
      ensures Model() == History({}, map[])
    {
      present, departed := {}, map[];
    }

    function Model(): History
      reads this
    {
      History(present, departed)
    }

    method Observe(nodes: seq<Line>, ts: int) returns (findings: seq<Rejoin>)
      requires Disjoint(Model())
      modifies this
      ensures Step(old(Model()), nodes, ts, Model()) && Disjoint(Model())
      ensures forall r :: r in findings <==> Reported(old(Model()).departed, Live(nodes), ts, r)
      ensures DistinctNodes(findings)
    {
      var seen := Seen(nodes);
      ghost var h := Model();
      departed := Aged(departed, seen);
      findings := Fold(nodes, ts);
      DepartMissing(seen, ts);
      PollEffect(h, nodes, ts);
      FindingsAre(History(h.present, Aged(h.departed, seen)), nodes, ts);
      ReportedWhenAged(h.departed, nodes, ts);
      EvictStaleDepartures(ts);
    }

    method Fold(nodes: seq<Line>, ts: int) returns (findings: seq<Rejoin>)
      modifies this
      ensures Model() == FoldLines(old(Model()), nodes) && findings == FoldFindings(old(Model()), nodes, ts)
    {
      findings := [];
      var i := 0;
      while i < |nodes|
        invariant 0 <= i <= |nodes|
        invariant Model() == FoldLines(old(Model()), nodes[..i])
        invariant findings == FoldFindings(old(Model()), nodes[..i], ts)
      {
        assert nodes[..i + 1][..i] == nodes[..i];
        var node := nodes[i];
        if node.id !in departed {
          present := present + {node.id};
        } else if IsLive(node) {
          var entry := departed[node.id];
          departed := departed - {node.id};
          present := present + {node.id};
          if entry.absentPolls >= MIN_ABSENT_POLLS && ts - entry.departedAt >= MIN_ABSENT_MS {
            findings := findings + [Rejoin(node.id, entry.departedAt, ts, entry.absentPolls)];
          }
        }
        i := i + 1;
      }
      assert nodes[..i] == nodes;
    }

    method DepartMissing(seen: set<string>, ts: int)
      modifies this
      ensures Model() == Depart(old(Model()), seen, ts)
    {
      var departing := present - seen;
      var viewReset := |departing| >= 2 && |seen| <= 1;
      present := present - departing;
      if viewReset {
        departed := map[];
      } else {
        departed := departed + map x | x in departing :: Entry(ts, 1);
      }
    }

    method EvictStaleDepartures(ts: int)
      modifies this`departed
      ensures Newest(Recent(old(departed), ts), departed)
    {
      departed := Recent(departed, ts);
      if |departed| <= MAX_DEPARTED { return; }
      var all := departed;
      var ids := ListKeys(all);
      var age := (x: string) => if x in all then all[x].departedAt else 0;
      var oldestFirst := Sort(ids, ByKey(age));
      var excess := |all| - MAX_DEPARTED;
      var dropped := set x | x in oldestFirst[..excess];
      departed := all - dropped;
      SortPermutes(ids, ByKey(age));
      SortSortsByKey(ids, age);
      DropOldest(all, ids, oldestFirst, age, excess, dropped);
    }
  }

  /** The keys of a map in some order, each once. */
  method ListKeys(m: map<string, Entry>) returns (ids: seq<string>)
    ensures Distinct(ids) && |ids| == |m| && forall x :: x in ids <==> x in m
  {
    ids := [];
    var left := m.Keys;
    while left != {}
      invariant left <= m.Keys && Distinct(ids) && |ids| + |left| == |m|
      invariant forall x :: x in ids <==> x in m && x !in left
      decreases |left|
    {
      var x :| x in left;
      ids, left := ids + [x], left - {x};
    }
  }

  ghost predicate Disjoint(h: History) { h.present !! h.departed.Keys }

  lemma {:induction false} DistinctSize(s: seq<string>)
    requires Distinct(s)
    ensures |set x | x in s| == |s|
  {
    if s != [] {
      DistinctSize(s[1..]);
      assert (set x | x in s) == (set x | x in s[1..]) + {s[0]};
    }
  }

  lemma DropOldest(all: map<string, Entry>, ids: seq<string>, sorted: seq<string>, age: string -> int, excess: nat,
                   dropped: set<string>)
    requires Distinct(ids) && |ids| == |all| == MAX_DEPARTED + excess && forall x :: x in ids <==> x in all
    requires multiset(sorted) == multiset(ids)
    requires forall i, j :: 0 <= i < j < |sorted| ==> age(sorted[i]) <= age(sorted[j])
    requires forall x :: x in all ==> age(x) == all[x].departedAt
    requires |sorted| == |ids| && dropped == set x | x in sorted[..excess]
    ensures Newest(all, all - dropped)
  {
    PermutedDistinct(ids, sorted);
    SameMembers(ids, sorted);
    DistinctPrefix(sorted, excess);
    KeptSize(all, dropped);
    DroppedAreOlder(all, sorted, age, excess, dropped);
  }

  lemma DistinctPrefix(s: seq<string>, n: nat)
    requires Distinct(s) && n <= |s|
    ensures |set x | x in s[..n]| == n
  {
    DistinctSize(s[..n]);
  }

  lemma DroppedAreOlder(all: map<string, Entry>, sorted: seq<string>, age: string -> int, excess: nat,
                        dropped: set<string>)
    requires excess <= |sorted| && forall x :: x in all ==> x in sorted && age(x) == all[x].departedAt
    requires forall i, j :: 0 <= i < j < |sorted| ==> age(sorted[i]) <= age(sorted[j])
    requires dropped == set x | x in sorted[..excess]
    ensures forall x, y :: x in all && x in dropped && y in all && y !in dropped ==>
                              all[x].departedAt <= all[y].departedAt
  {
    forall x, y | x in all && x in dropped && y in all && y !in dropped ensures all[x].departedAt <= all[y].departedAt {
      OlderFirst(sorted, age, excess, x, y);
    }
  }

  lemma KeptSize(all: map<string, Entry>, dropped: set<string>)
    requires dropped <= all.Keys
    ensures |all - dropped| == |all| - |dropped|
  {
    assert (all - dropped).Keys == all.Keys - dropped;
  }

  lemma OlderFirst(sorted: seq<string>, age: string -> int, excess: nat, x: string, y: string)
    requires excess <= |sorted| && forall i, j :: 0 <= i < j < |sorted| ==> age(sorted[i]) <= age(sorted[j])
    requires x in sorted[..excess] && y in sorted && y !in sorted[..excess]
    ensures age(x) <= age(y)
  {
    forall n | 0 <= n < excess ensures sorted[n] != y {
      assert sorted[..excess][n] == sorted[n];
    }
    var i :| 0 <= i < excess && sorted[..excess][i] == x;
    var j :| 0 <= j < |sorted| && sorted[j] == y;
  }

  lemma OneMoreLine(nodes: seq<Line>)
    requires nodes != []
    ensures var init, last := nodes[..|nodes| - 1], nodes[|nodes| - 1];
            && Seen(nodes) == Seen(init) + {last.id}
            && Live(nodes) == Live(init) + if IsLive(last) then {last.id} else {}
  {
    assert nodes == nodes[..|nodes| - 1] + [nodes[|nodes| - 1]];
  }

  /** Reading all lines: only the sets of listed and of live ids matter, not the order or repetition of lines. */
  lemma {:induction false} FoldIs(h: History, nodes: seq<Line>)
    ensures FoldLines(h, nodes).departed == Without(h.departed, Live(nodes))
    ensures FoldLines(h, nodes).present
            == h.present + set x | x in Seen(nodes) && (x !in h.departed || x in Live(nodes))
  {
    if nodes != [] {
      FoldIs(h, nodes[..|nodes| - 1]);
      OneMoreLine(nodes);
    }
  }

  ghost predicate DistinctNodes(f: seq<Rejoin>) { forall i, j :: 0 <= i < j < |f| ==> f[i].nodeId != f[j].nodeId }

  lemma DistinctAppend(f: seq<Rejoin>, g: seq<Rejoin>)
    requires DistinctNodes(f) && |g| <= 1 && forall i :: 0 <= i < |f| && g != [] ==> f[i].nodeId != g[0].nodeId
    ensures DistinctNodes(f + g)
  {}

  lemma {:induction false} FindingsAre(h: History, nodes: seq<Line>, ts: int)
    ensures forall r :: r in FoldFindings(h, nodes, ts) <==> Reported(h.departed, Live(nodes), ts, r)
    ensures DistinctNodes(FoldFindings(h, nodes, ts))
  {
    if nodes != [] {
      var init, last := nodes[..|nodes| - 1], nodes[|nodes| - 1];
      FindingsAre(h, init, ts);
      FoldIs(h, init);
      OneMoreLine(nodes);
      var f, g := FoldFindings(h, init, ts), LineFinding(FoldLines(h, init), last, ts);
      assert forall r :: r in f + g <==> r in f || r in g;
      forall i | 0 <= i < |f| ensures f[i].nodeId in Live(init) {
        assert f[i] in f;
      }
      assert g != [] ==> |g| == 1 && g[0].nodeId == last.id && last.id !in Live(init);
      DistinctAppend(f, g);
    }
  }

  lemma ReportedWhenAged(departed: map<string, Entry>, nodes: seq<Line>, ts: int)
    ensures forall r :: Reported(Aged(departed, Seen(nodes)), Live(nodes), ts, r)
                        <==> Reported(departed, Live(nodes), ts, r)
  {
    assert Live(nodes) <= Seen(nodes);
  }

  lemma PollEffect(h: History, nodes: seq<Line>, ts: int)
    requires Disjoint(h)
    ensures var h1 := Depart(FoldLines(History(h.present, Aged(h.departed, Seen(nodes))), nodes), Seen(nodes), ts);
            h1 == History(PresentAfter(h, nodes), DepartedAfter(h, nodes, ts)) && Disjoint(h1)
  {
    var folded := FoldLines(History(h.present, Aged(h.departed, Seen(nodes))), nodes);
    FoldIs(History(h.present, Aged(h.departed, Seen(nodes))), nodes);
    DepartEffect(h, nodes, ts, folded);
  }

  lemma DepartEffect(h: History, nodes: seq<Line>, ts: int, folded: History)
    requires Disjoint(h) && folded.departed == Without(Aged(h.departed, Seen(nodes)), Live(nodes))
    requires folded.present == h.present + set x | x in Seen(nodes) && (x !in h.departed || x in Live(nodes))
    ensures Depart(folded, Seen(nodes), ts) == History(PresentAfter(h, nodes), DepartedAfter(h, nodes, ts))
    ensures PresentAfter(h, nodes) !! DepartedAfter(h, nodes, ts).Keys
  {
    var seen := Seen(nodes);
    assert Live(nodes) <= seen;
    assert folded.present - seen == h.present - seen;
    assert folded.present - (h.present - seen) == PresentAfter(h, nodes);
  }

  // ---------------------------------------------------------------- runs

  datatype Poll = Poll(nodes: seq<Line>, ts: int)

  /** The states of a run of polls from an empty history. */
  ghost predicate Trace(states: seq<History>, polls: seq<Poll>) {
    && |states| == |polls| + 1 && states[0] == History({}, map[])
    && forall i :: 0 <= i < |polls| ==> StepAt(states, polls, i)
  }

  ghost predicate StepAt(states: seq<History>, polls: seq<Poll>, i: nat)
    requires |states| == |polls| + 1 && i < |polls|
  {
    Step(states[i], polls[i].nodes, polls[i].ts, states[i + 1])
  }

  lemma NewestAll(all: map<string, Entry>, kept: map<string, Entry>)
    requires Newest(all, kept) && |all| <= MAX_DEPARTED
    ensures kept == all
  {
    assert kept.Keys <= all.Keys && |kept.Keys| == |kept| && |all.Keys| == |all|;
    SubsetOfSameSize(kept.Keys, all.Keys);
  }

  lemma {:induction false} SubsetOfSameSize(a: set<string>, b: set<string>)
    requires a <= b && |a| == |b|
    ensures a == b
  {
    if a != {} {
      var x :| x in a;
      SubsetOfSameSize(a - {x}, b - {x});
      assert a == a - {x} + {x} && b == b - {x} + {x};
    }
  }

  lemma {:induction false} AlwaysDisjoint(states: seq<History>, polls: seq<Poll>, n: nat)
    requires Trace(states, polls) && n <= |polls|
    ensures Disjoint(states[n])
  {
    if n > 0 {
      AlwaysDisjoint(states, polls, n - 1);
      assert StepAt(states, polls, n - 1);
    }
  }

  /**
   After every poll of every run, present and departed ids are disjoint, at most 512 departures are kept, none older
   than the retention window, and none dropped by the ceiling is newer than one kept.
   */
  lemma HistoryStaysBounded(states: seq<History>, polls: seq<Poll>, n: nat)
    requires Trace(states, polls) && n < |polls|
    ensures Disjoint(states[n + 1]) && |states[n + 1].departed| <= 512
    ensures var h := states[n + 1];
            forall x :: x in h.departed ==> polls[n].ts - h.departed[x].departedAt <= 21600000
    ensures Newest(Recent(DepartedAfter(states[n], polls[n].nodes, polls[n].ts), polls[n].ts), states[n + 1].departed)
  {
    AlwaysDisjoint(states, polls, n + 1);
    assert StepAt(states, polls, n);
  }

  /** The number of polls from d up to n that did not list the id. */
  function Unlisted(polls: seq<Poll>, x: string, d: nat, n: nat): nat
    requires d <= n <= |polls|
  {
    if n == d then 0 else Unlisted(polls, x, d, n - 1) + if x in Seen(polls[n - 1].nodes) then 0 else 1
  }

  /** The id was present before poll d, went missing at it, and has not been listed live in d..n since. */
  ghost predicate Gone(states: seq<History>, polls: seq<Poll>, x: string, d: nat, n: nat)
    requires |states| == |polls| + 1
  {
    && d < n <= |polls|
    && x in states[d].present && x !in Seen(polls[d].nodes)
    && forall m :: d <= m < n ==> x !in Live(polls[m].nodes)
  }

  /** The entry a departure at poll d has after poll n - 1. */
  function EntrySince(polls: seq<Poll>, x: string, d: nat, n: nat): Entry
    requires d < n <= |polls|
  {
    Entry(polls[d].ts, Unlisted(polls, x, d, n))
  }

  lemma DepartureStepAt(states: seq<History>, polls: seq<Poll>, i: nat, x: string)
    requires Trace(states, polls) && i < |polls| && x in states[i + 1].departed
    ensures x in states[i].departed ==>
      x !in Live(polls[i].nodes)
      && states[i + 1].departed[x] == AgedEntry(states[i].departed[x], x in Seen(polls[i].nodes))
    ensures x !in states[i].departed ==>
      x in states[i].present && x !in Seen(polls[i].nodes) && states[i + 1].departed[x] == Entry(polls[i].ts, 1)
  {
    assert StepAt(states, polls, i);
    AlwaysDisjoint(states, polls, i);
  }

  function AgedEntry(e: Entry, seen: bool): Entry {
    if seen then e else Entry(e.departedAt, e.absentPolls + 1)
  }

  /** Every remembered departure began at some poll that stopped listing a present id. */
  lemma {:induction false} DepartureOf(states: seq<History>, polls: seq<Poll>, x: string, n: nat) returns (d: nat)
    requires Trace(states, polls) && n <= |polls| && x in states[n].departed
    ensures Gone(states, polls, x, d, n) && states[n].departed[x] == EntrySince(polls, x, d, n)
  {
    DepartureStepAt(states, polls, n - 1, x);
    if x in states[n - 1].departed {
      d := DepartureOf(states, polls, x, n - 1);
    } else {
      d := n - 1;
      assert Unlisted(polls, x, d, d) == 0;
    }
  }

  /**
   Every reported rejoin belongs to a departure of a previously present id: unlisted in at least two polls since
   (the reported number of them), never listed live in between, and gone for at least a minute.
   */
  lemma RejoinHasDeparture(states: seq<History>, polls: seq<Poll>, n: nat, r: Rejoin) returns (d: nat)
    requires Trace(states, polls) && n < |polls|
    requires Reported(states[n].departed, Live(polls[n].nodes), polls[n].ts, r)
    ensures Gone(states, polls, r.nodeId, d, n)
    ensures r == RejoinOf(r.nodeId, EntrySince(polls, r.nodeId, d, n), polls[n].ts)
    ensures Unlisted(polls, r.nodeId, d, n) >= 2 && polls[n].ts - polls[d].ts >= 60000
  {
    d := DepartureOf(states, polls, r.nodeId, n);
  }

  /** Two reported rejoins of one id belong to different departures: the later one began after the first return. */
  lemma RejoinsHaveOwnDepartures(states: seq<History>, polls: seq<Poll>, m: nat, n: nat, a: Rejoin, b: Rejoin)
    returns (d: nat, e: nat)
    requires Trace(states, polls) && m < n < |polls| && a.nodeId == b.nodeId
    requires Reported(states[m].departed, Live(polls[m].nodes), polls[m].ts, a)
    requires Reported(states[n].departed, Live(polls[n].nodes), polls[n].ts, b)
    ensures Gone(states, polls, a.nodeId, d, m) && Gone(states, polls, a.nodeId, e, n) && d < m < e < n
  {
    d := RejoinHasDeparture(states, polls, m, a);
    e := RejoinHasDeparture(states, polls, n, b);
    assert a.nodeId in Live(polls[m].nodes);
  }

  /** Nothing made the history forget between polls d and n: no view reset, no expiry, no overflow. */
  ghost predicate Remembers(states: seq<History>, polls: seq<Poll>, d: nat, n: nat)
    requires |states| == |polls| + 1 && d < n <= |polls|
  {
    forall m :: d <= m < n ==>
      && (|states[m].present - Seen(polls[m].nodes)| < 2 || |Seen(polls[m].nodes)| > 1)
      && polls[m].ts - polls[d].ts <= 21600000
      && |Recent(DepartedAfter(states[m], polls[m].nodes, polls[m].ts), polls[m].ts)| <= 512
  }

  lemma DepartureKept(h: History, nodes: seq<Line>, ts: int, h': History, x: string, e: Entry)
    requires Step(h, nodes, ts, h') && Disjoint(h) && !ViewReset(h, nodes)
    requires |Recent(DepartedAfter(h, nodes, ts), ts)| <= MAX_DEPARTED && ts - e.departedAt <= DEPARTED_RETENTION_MS
    requires if x in h.departed then x !in Live(nodes) && e == Aged(h.departed, Seen(nodes))[x]
             else x in h.present && x !in Seen(nodes) && e == Entry(ts, 1)
    ensures x in h'.departed && h'.departed[x] == e
  {
    var all := DepartedAfter(h, nodes, ts);
    assert x in all && all[x] == e;
    NewestAll(Recent(all, ts), h'.departed);
  }

  lemma DepartureKeptAt(states: seq<History>, polls: seq<Poll>, i: nat, x: string, e: Entry)
    requires Trace(states, polls) && i < |polls| && !ViewReset(states[i], polls[i].nodes)
    requires |Recent(DepartedAfter(states[i], polls[i].nodes, polls[i].ts), polls[i].ts)| <= MAX_DEPARTED
    requires polls[i].ts - e.departedAt <= DEPARTED_RETENTION_MS
    requires if x in states[i].departed
             then x !in Live(polls[i].nodes) && e == AgedEntry(states[i].departed[x], x in Seen(polls[i].nodes))
             else x in states[i].present && x !in Seen(polls[i].nodes) && e == Entry(polls[i].ts, 1)
    ensures x in states[i + 1].departed && states[i + 1].departed[x] == e
  {
    assert StepAt(states, polls, i);
    AlwaysDisjoint(states, polls, i);
    DepartureKept(states[i], polls[i].nodes, polls[i].ts, states[i + 1], x, e);
  }

  lemma PresentNotDeparted(states: seq<History>, polls: seq<Poll>, i: nat, x: string)
    requires Trace(states, polls) && i <= |polls| && x in states[i].present
    ensures x !in states[i].departed
  {
    AlwaysDisjoint(states, polls, i);
  }

  ghost predicate Held(states: seq<History>, polls: seq<Poll>, x: string, d: nat, n: nat)
    requires |states| == |polls| + 1 && d <= n <= |polls|
  {
    n > d ==> x in states[n].departed && states[n].departed[x] == EntrySince(polls, x, d, n)
  }

  lemma HeldNext(states: seq<History>, polls: seq<Poll>, x: string, d: nat, i: nat, n: nat)
    requires Trace(states, polls) && d <= i < n && Gone(states, polls, x, d, n) && Remembers(states, polls, d, n)
    requires Held(states, polls, x, d, i)
    ensures Held(states, polls, x, d, i + 1)
  {
    if i == d {
      PresentNotDeparted(states, polls, d, x);
      assert Unlisted(polls, x, d, d) == 0;
    }
    DepartureKeptAt(states, polls, i, x, EntrySince(polls, x, d, i + 1));
  }

  lemma DepartureIsHeld(states: seq<History>, polls: seq<Poll>, x: string, d: nat, n: nat)
    requires Trace(states, polls) && Gone(states, polls, x, d, n) && Remembers(states, polls, d, n)
    ensures x in states[n].departed && states[n].departed[x] == EntrySince(polls, x, d, n)
  {
    forall i | d <= i < n && Held(states, polls, x, d, i) ensures Held(states, polls, x, d, i + 1) {
      HeldNext(states, polls, x, d, i, n);
    }
    HeldThrough(states, polls, x, d, n);
  }

  lemma {:induction false} HeldThrough(states: seq<History>, polls: seq<Poll>, x: string, d: nat, n: nat)
    requires |states| == |polls| + 1 && d <= n <= |polls|
    requires forall i :: d <= i < n && Held(states, polls, x, d, i) ==> Held(states, polls, x, d, i + 1)
    ensures Held(states, polls, x, d, n)
    decreases n
  {
    if n > d {
      HeldThrough(states, polls, x, d, n - 1);
      assert Held(states, polls, x, d, n - 1 + 1);
    }
  }

  /** Conversely a return after two unlisted polls and a minute is reported, unless the history was made to forget. */
  lemma ReturnIsReported(states: seq<History>, polls: seq<Poll>, x: string, d: nat, n: nat)
    requires Trace(states, polls) && n < |polls| && Gone(states, polls, x, d, n) && Remembers(states, polls, d, n)
    requires x in Live(polls[n].nodes)
    requires Unlisted(polls, x, d, n) >= 2 && polls[n].ts - polls[d].ts >= 60000
    ensures Reported(states[n].departed, Live(polls[n].nodes), polls[n].ts,
                     RejoinOf(x, EntrySince(polls, x, d, n), polls[n].ts))
  {
    DepartureIsHeld(states, polls, x, d, n);
  }

  /** Poll n lists the id, on a line that carries none of the flags of a node that is gone, if that is asked for. */
  ghost predicate Lists(poll: Poll, x: string, live: bool) {
    exists line :: line in poll.nodes && line.id == x
                   && (live ==> "fail" !in line.flags && "fail?" !in line.flags && "noaddr" !in line.flags)
  }

  lemma ListsIs(poll: Poll, x: string)
    ensures x in Seen(poll.nodes) <==> Lists(poll, x, false)
    ensures x in Live(poll.nodes) <==> Lists(poll, x, true)
  {
    forall line: Line
      ensures IsLive(line) <==> "fail" !in line.flags && "fail?" !in line.flags && "noaddr" !in line.flags {
      if "fail" !in line.flags && "fail?" !in line.flags && "noaddr" !in line.flags {
        assert line.flags * NON_LIVE == {};
      } else {
        var f :| f in line.flags && f in NON_LIVE;
        assert f in line.flags * NON_LIVE;
      }
    }
  }

  /**
   After a poll exactly those ids are present that it lists live, and those it lists in any state that were not departed
   before.
   */
  lemma PresentIff(states: seq<History>, polls: seq<Poll>, n: nat, x: string)
    requires Trace(states, polls) && n < |polls|
    ensures x in states[n + 1].present
       <==> Lists(polls[n], x, true) || (Lists(polls[n], x, false) && x !in states[n].departed)
  {
    assert StepAt(states, polls, n);
    AlwaysDisjoint(states, polls, n);
    ListsIs(polls[n], x);
  }
}

/**
 The sliding-window rate limiter: per key a bucket of recent reservations that is pruned from the front, released by
 token, and consulted before each grant. It is compared with a ledger that is never pruned.
 */
module RateLimiter {
  import opened Prelude

  datatype Entry = Entry(ts: int, token: nat)

  datatype Check = Check(allowed: bool, retryAfterMs: int, remaining: int)

  datatype State = State(buckets: map<string, seq<Entry>>, nextToken: nat)

  datatype Rules = Rules(limit: nat, windowMs: nat)

  const EMPTY: State := State(map[], 1)

  function Events(st: State, key: string): seq<Entry> { if key in st.buckets then st.buckets[key] else [] }

  /** Pruning: entries at or before the cutoff are dropped from the front. */
  function Drop(events: seq<Entry>, cutoff: int): seq<Entry> {
    if events != [] && events[0].ts <= cutoff then Drop(events[1..], cutoff) else events
  }

  function Pruned(st: State, key: string, cutoff: int): State {
    if Drop(Events(st, key), cutoff) == Events(st, key) then st
    else st.(buckets := st.buckets[key := Drop(Events(st, key), cutoff)])
  }

  /**
   The answer of a check at `ts` on the pruned events. A limit of 0 makes an empty bucket full, and reading its oldest
   entry throws.
   */
  function Answer(r: Rules, events: seq<Entry>, ts: int): Option<Check> {
    if |events| < r.limit then Some(Check(true, 0, r.limit - |events|))
    else if events == [] then None
    else Some(Check(false, MaxInt(0, events[0].ts + r.windowMs - ts), 0))
  }

  function Recorded(r: Rules, st: State, key: string, ts: int): State {
    var live := Drop(Events(st, key), ts - r.windowMs);
    State(st.buckets[key := live + [Entry(ts, st.nextToken)]], st.nextToken + 1)
  }

  function RemoveToken(events: seq<Entry>, token: nat): seq<Entry> {
    if events == [] then []
    else if events[0].token == token then events[1..]
    else [events[0]] + RemoveToken(events[1..], token)
  }

  function Released(st: State, key: string, token: nat): State {
    var left := RemoveToken(Events(st, key), token);
    if left == Events(st, key) then st
    else if left == [] then st.(buckets := st.buckets - {key})
    else st.(buckets := st.buckets[key := left])
  }

  class SlidingWindowRateLimiter {
    const rules: Rules
    var buckets: map<string, seq<Entry>>
    var nextToken: nat

    constructor (limit: nat, windowMs: nat)
      ensures rules == Rules(limit, windowMs) && Model() == EMPTY
    {
      rules := Rules(limit, windowMs);
      buckets, nextToken := map[], 1;
    }

    function Model(): State
      reads this
    {
      State(buckets, nextToken)
    }

    method Prune(key: string, cutoff: int) returns (events: seq<Entry>)
      modifies this`buckets
      ensures Model() == Pruned(old(Model()), key, cutoff)
      ensures events == Events(Model(), key) == Drop(Events(old(Model()), key), cutoff)
    {
      var existing := if key in buckets then buckets[key] else [];
      var firstFresh := 0;
      while firstFresh < |existing| && existing[firstFresh].ts <= cutoff
        invariant 0 <= firstFresh <= |existing|
        invariant Drop(existing[firstFresh..], cutoff) == Drop(existing, cutoff)
      {
        assert existing[firstFresh..][1..] == existing[firstFresh + 1..];
        firstFresh := firstFresh + 1;
      }
      assert existing[firstFresh..] == Drop(existing, cutoff);
      if firstFresh == 0 {
        return existing;
      }
      events := existing[firstFresh..];
      buckets := buckets[key := events];
    }

    /** None where the service throws. */
    method CheckAt(key: string, now: int) returns (c: Option<Check>)
      modifies this`buckets
      ensures Model() == Pruned(old(Model()), key, now - rules.windowMs)
      ensures c == Answer(rules, Drop(Events(old(Model()), key), now - rules.windowMs), now)
    {
      var events := Prune(key, now - rules.windowMs);
      if |events| >= rules.limit {
        if |events| == 0 {
          return None;
        }
        var wait := events[0].ts + rules.windowMs - now;
        return Some(Check(false, if wait > 0 then wait else 0, 0));
      }
      return Some(Check(true, 0, rules.limit - |events|));
    }

    method Record(key: string, now: int) returns (token: nat)
      modifies this
      ensures Model() == Recorded(rules, old(Model()), key, now) && token == old(nextToken)
    {
      var events := Prune(key, now - rules.windowMs);
      token := nextToken;
      nextToken := nextToken + 1;
      buckets := buckets[key := events + [Entry(now, token)]];
    }

    /** The clock is read twice: once by the check, once by the record. */
    method Reserve(key: string, t1: int, t2: int) returns (c: Option<Check>, token: Option<nat>)
      modifies this
      ensures var events := Drop(Events(old(Model()), key), t1 - rules.windowMs);
              && Model() == Reserved(rules, old(Model()), key, t1, t2)
              && (token.Some? <==> |events| < rules.limit)
              && (token.Some?
                ==> token.value == old(nextToken) && c == Some(Check(true, 0, rules.limit - |events| - 1)))
              && (token.None? ==> c == Answer(rules, events, t1) && (c.Some? ==> !c.value.allowed))
    {
      c := CheckAt(key, t1);
      token := None;
      if c.None? || !c.value.allowed {
        return;
      }
      var t := Record(key, t2);
      token := Some(t);
      c := Some(c.value.(remaining := if c.value.remaining - 1 > 0 then c.value.remaining - 1 else 0));
    }

    static method FindIndex(events: seq<Entry>, token: nat) returns (idx: nat)
      ensures idx <= |events| && RemoveToken(events, token) == events[..idx] + RemoveToken(events[idx..], token)
      ensures idx < |events| ==> events[idx].token == token
    {
      idx := 0;
      while idx < |events| && events[idx].token != token
        invariant 0 <= idx <= |events|
        invariant RemoveToken(events, token) == events[..idx] + RemoveToken(events[idx..], token)
      {
        assert events[idx..][1..] == events[idx + 1..];
        assert events[..idx + 1] == events[..idx] + [events[idx]];
        idx := idx + 1;
      }
    }

    method Release(key: string, token: nat)
      modifies this`buckets
      ensures Model() == Released(old(Model()), key, token)
    {
      if key !in buckets || |buckets[key]| == 0 { return; }
      var events := buckets[key];
      var idx := FindIndex(events, token);
      if idx == |events| {
        assert events[..idx] == events;
        return;
      }
      assert events[idx..][1..] == events[idx + 1..];
      events := events[..idx] + events[idx + 1..];
      assert events == RemoveToken(buckets[key], token);
      buckets := if |events| == 0 then buckets - {key} else buckets[key := events];
    }
  }

  function Reserved(r: Rules, st: State, key: string, t1: int, t2: int): State {
    var checked := Pruned(st, key, t1 - r.windowMs);
    if |Events(checked, key)| >= r.limit then checked else Recorded(r, checked, key, t2)
  }

  lemma {:induction false} DropTwice(events: seq<Entry>, cutoff: int)
    ensures Drop(Drop(events, cutoff), cutoff) == Drop(events, cutoff)
  {
    if events != [] && events[0].ts <= cutoff {
      DropTwice(events[1..], cutoff);
    }
  }

  // ---------------------------------------------------------------- runs

  /** A check, a plain record, a reservation, a release. */
  datatype Op =
    | Look(key: string, t: int)
    | Record(key: string, t: int)
    | Reserve(key: string, t1: int, t2: int)
    | Release(key: string, token: nat)

  function Step(r: Rules, st: State, op: Op): State {
    match op
    case Look(key, t) => Pruned(st, key, t - r.windowMs)
    case Record(key, t) => Recorded(r, st, key, t)
    case Reserve(key, t1, t2) => Reserved(r, st, key, t1, t2)
    case Release(key, token) => Released(st, key, token)
  }

  function Run(r: Rules, ops: seq<Op>): State {
    if ops == [] then EMPTY else Step(r, Run(r, ops[..|ops| - 1]), ops[|ops| - 1])
  }

  /** The clock after a run that started at `start`. */
  function Clock(start: int, ops: seq<Op>): int {
    if ops == [] then start
    else match ops[|ops| - 1]
      case Look(_, t) => t
      case Record(_, t) => t
      case Reserve(_, _, t2) => t2
      case Release(_, _) => Clock(start, ops[..|ops| - 1])
  }

  /** Every clock reading is at least the one before it. */
  ghost predicate Timely(start: int, ops: seq<Op>) {
    ops != [] ==>
      && Timely(start, ops[..|ops| - 1])
      && match ops[|ops| - 1]
         case Look(_, t) => Clock(start, ops[..|ops| - 1]) <= t
         case Record(_, t) => Clock(start, ops[..|ops| - 1]) <= t
         case Reserve(_, t1, t2) => Clock(start, ops[..|ops| - 1]) <= t1 <= t2
         case Release(_, _) => true
  }

  predicate Granted(r: Rules, st: State, key: string, t1: int) {
    |Drop(Events(st, key), t1 - r.windowMs)| < r.limit
  }

  function Without(s: seq<Entry>, token: nat): seq<Entry> {
    if s == [] then []
    else if s[0].token != token then [s[0]] + Without(s[1..], token)
    else Without(s[1..], token)
  }

  /** The token a step hands out, with its time: a record always does, a reservation when it is granted. */
  function Issued(r: Rules, st: State, op: Op): Option<Entry> {
    match op
    case Look(_, _) => None
    case Record(_, t) => Some(Entry(t, st.nextToken))
    case Reserve(key, t1, t2) => if Granted(r, st, key, t1) then Some(Entry(t2, st.nextToken)) else None
    case Release(_, _) => None
  }

  /** What one step does to the ledger of `key`: every entry is kept until it is released. */
  function Book(r: Rules, st: State, op: Op, key: string, ledger: seq<Entry>): seq<Entry> {
    if op.key != key then ledger
    else if op.Release? then Without(ledger, op.token)
    else match Issued(r, st, op)
      case None => ledger
      case Some(e) => ledger + [e]
  }

  /** The entries of `key` that the run never released, in order: nothing is ever pruned here. */
  function Ledger(r: Rules, ops: seq<Op>, key: string): seq<Entry> {
    if ops == [] then []
    else Book(r, Run(r, ops[..|ops| - 1]), ops[|ops| - 1], key, Ledger(r, ops[..|ops| - 1], key))
  }

  /** Of these, the reservations that were granted; plain records ask nobody. */
  function Grants(r: Rules, ops: seq<Op>, key: string): seq<Entry> {
    if ops == [] then []
    else
      var init, op := ops[..|ops| - 1], ops[|ops| - 1];
      if op.Record? then Grants(r, init, key) else Book(r, Run(r, init), op, key, Grants(r, init, key))
  }

  function Newer(s: seq<Entry>, cutoff: int): seq<Entry> {
    if s == [] then []
    else if s[0].ts > cutoff then [s[0]] + Newer(s[1..], cutoff)
    else Newer(s[1..], cutoff)
  }

  /**
   Entries in grant order: times from `from` to `clock` never fall, tokens from `first` rise and stay below `next`.
   */
  ghost predicate Orderly(s: seq<Entry>, from: int, first: nat, clock: int, next: nat) {
    && from <= clock && first <= next
    && (s != [] ==> from <= s[0].ts && first <= s[0].token && Orderly(s[1..], s[0].ts, s[0].token + 1, clock, next))
  }

  /** What one step does to the bucket of `key`. */
  function Keep(r: Rules, st: State, op: Op, key: string, bucket: seq<Entry>): seq<Entry> {
    if op.key != key then bucket
    else match op
      case Look(_, t) => Drop(bucket, t - r.windowMs)
      case Record(_, t) => Drop(bucket, t - r.windowMs) + [Entry(t, st.nextToken)]
      case Reserve(_, t1, t2) =>
        var live := Drop(bucket, t1 - r.windowMs);
        if |live| < r.limit then Drop(live, t2 - r.windowMs) + [Entry(t2, st.nextToken)] else live
      case Release(_, token) => RemoveToken(bucket, token)
  }

  lemma StepKeeps(r: Rules, st: State, op: Op, key: string)
    ensures Events(Step(r, st, op), key) == Keep(r, st, op, key, Events(st, key))
    ensures Step(r, st, op).nextToken == st.nextToken + if Issued(r, st, op).Some? then 1 else 0
  {}

  // ---------------------------------------------------------------- buckets as filters

  lemma {:induction false} OrderlyWider(s: seq<Entry>, from: int, first: nat, clock: int, next: nat,
                                        from': int, first': nat, clock': int, next': nat)
    requires Orderly(s, from, first, clock, next)
    requires from' <= from && first' <= first && clock <= clock' && next <= next'
    ensures Orderly(s, from', first', clock', next')
  {
    if s != [] {
      OrderlyWider(s[1..], s[0].ts, s[0].token + 1, clock, next, s[0].ts, s[0].token + 1, clock', next');
    }
  }

  lemma {:induction false} DropIsNewer(s: seq<Entry>, cutoff: int, from: int, first: nat, clock: int, next: nat)
    requires Orderly(s, from, first, clock, next)
    ensures Drop(s, cutoff) == Newer(s, cutoff) && Orderly(Drop(s, cutoff), from, first, clock, next)
  {
    if s != [] {
      if s[0].ts <= cutoff {
        DropIsNewer(s[1..], cutoff, s[0].ts, s[0].token + 1, clock, next);
        OrderlyWider(Drop(s[1..], cutoff), s[0].ts, s[0].token + 1, clock, next, from, first, clock, next);
      } else {
        AllNewer(s, cutoff, s[0].ts, s[0].token, clock, next);
      }
    }
  }

  lemma {:induction false} AllNewer(s: seq<Entry>, cutoff: int, from: int, first: nat, clock: int, next: nat)
    requires Orderly(s, from, first, clock, next) && from > cutoff
    ensures Newer(s, cutoff) == s
  {
    if s != [] {
      AllNewer(s[1..], cutoff, s[0].ts, s[0].token + 1, clock, next);
    }
  }

  lemma {:induction false} NewerTwice(s: seq<Entry>, a: int, b: int)
    requires a <= b
    ensures Newer(Newer(s, a), b) == Newer(s, b)
  {
    if s != [] {
      NewerTwice(s[1..], a, b);
    }
  }

  lemma {:induction false} WithoutAbsent(s: seq<Entry>, token: nat, from: int, first: nat, clock: int, next: nat)
    requires Orderly(s, from, first, clock, next) && token < first
    ensures Without(s, token) == s
  {
    if s != [] {
      WithoutAbsent(s[1..], token, s[0].ts, s[0].token + 1, clock, next);
    }
  }

  lemma {:induction false} RemoveIsWithout(s: seq<Entry>, token: nat, from: int, first: nat, clock: int, next: nat)
    requires Orderly(s, from, first, clock, next)
    ensures RemoveToken(s, token) == Without(s, token)
  {
    if s != [] {
      if s[0].token == token {
        WithoutAbsent(s[1..], token, s[0].ts, s[0].token + 1, clock, next);
      } else {
        RemoveIsWithout(s[1..], token, s[0].ts, s[0].token + 1, clock, next);
      }
    }
  }

  lemma {:induction false} WithoutOrderly(s: seq<Entry>, token: nat, from: int, first: nat, clock: int, next: nat)
    requires Orderly(s, from, first, clock, next)
    ensures Orderly(Without(s, token), from, first, clock, next)
  {
    if s != [] {
      WithoutOrderly(s[1..], token, s[0].ts, s[0].token + 1, clock, next);
      OrderlyWider(Without(s[1..], token), s[0].ts, s[0].token + 1, clock, next, from, first, clock, next);
    }
  }

  lemma {:induction false} AppendOrderly(s: seq<Entry>, from: int, first: nat, clock: int, next: nat)
    requires Orderly(s, from, first, clock, next)
    ensures Orderly(s + [Entry(clock, next)], from, first, clock, next + 1)
  {
    if s == [] {
      assert [] + [Entry(clock, next)] == [Entry(clock, next)];
    } else {
      assert (s + [Entry(clock, next)])[1..] == s[1..] + [Entry(clock, next)];
      AppendOrderly(s[1..], s[0].ts, s[0].token + 1, clock, next);
    }
  }

  lemma {:induction false} NewerAppend(s: seq<Entry>, e: Entry, cutoff: int)
    ensures Newer(s + [e], cutoff) == Newer(s, cutoff) + Newer([e], cutoff)
  {
    if s == [] {
      assert [] + [e] == [e];
    } else {
      assert (s + [e])[1..] == s[1..] + [e];
      NewerAppend(s[1..], e, cutoff);
    }
  }

  lemma {:induction false} NewerWithout(s: seq<Entry>, token: nat, cutoff: int)
    ensures Newer(Without(s, token), cutoff) == Without(Newer(s, cutoff), token)
  {
    if s != [] {
      NewerWithout(s[1..], token, cutoff);
    }
  }

  // ---------------------------------------------------------------- pruning loses nothing that matters

  /** The bucket agrees with the unpruned ledger on everything newer than the window before the clock. */
  ghost predicate Agrees(r: Rules, start: int, bucket: seq<Entry>, ledger: seq<Entry>, clock: int, next: nat) {
    && Orderly(bucket, start, 0, clock, next) && Orderly(ledger, start, 0, clock, next)
    && Newer(bucket, clock - r.windowMs) == Newer(ledger, clock - r.windowMs)
  }

  lemma AgreesLater(r: Rules, start: int, bucket: seq<Entry>, ledger: seq<Entry>, clock: int, next: nat, later: int,
                    next': nat)
    requires Agrees(r, start, bucket, ledger, clock, next) && clock <= later && next <= next'
    ensures Drop(bucket, later - r.windowMs) == Newer(bucket, later - r.windowMs) == Newer(ledger, later - r.windowMs)
    ensures Agrees(r, start, bucket, ledger, later, next')
  {
    DropIsNewer(bucket, later - r.windowMs, start, 0, clock, next);
    NewerTwice(bucket, clock - r.windowMs, later - r.windowMs);
    NewerTwice(ledger, clock - r.windowMs, later - r.windowMs);
    OrderlyWider(bucket, start, 0, clock, next, start, 0, later, next');
    OrderlyWider(ledger, start, 0, clock, next, start, 0, later, next');
  }

  lemma AgreesDrop(r: Rules, start: int, bucket: seq<Entry>, ledger: seq<Entry>, clock: int, next: nat)
    requires Agrees(r, start, bucket, ledger, clock, next)
    ensures Agrees(r, start, Drop(bucket, clock - r.windowMs), ledger, clock, next)
  {
    DropIsNewer(bucket, clock - r.windowMs, start, 0, clock, next);
    NewerTwice(bucket, clock - r.windowMs, clock - r.windowMs);
  }

  lemma AgreesAppend(r: Rules, start: int, bucket: seq<Entry>, ledger: seq<Entry>, clock: int, next: nat)
    requires Agrees(r, start, bucket, ledger, clock, next)
    ensures Agrees(r, start, bucket + [Entry(clock, next)], ledger + [Entry(clock, next)], clock, next + 1)
  {
    NewerAppend(bucket, Entry(clock, next), clock - r.windowMs);
    NewerAppend(ledger, Entry(clock, next), clock - r.windowMs);
    AppendOrderly(bucket, start, 0, clock, next);
    AppendOrderly(ledger, start, 0, clock, next);
  }

  lemma AgreesRelease(r: Rules, start: int, bucket: seq<Entry>, ledger: seq<Entry>, clock: int, next: nat, token: nat)
    requires Agrees(r, start, bucket, ledger, clock, next)
    ensures Agrees(r, start, RemoveToken(bucket, token), Without(ledger, token), clock, next)
  {
    RemoveIsWithout(bucket, token, start, 0, clock, next);
    NewerWithout(bucket, token, clock - r.windowMs);
    NewerWithout(ledger, token, clock - r.windowMs);
    WithoutOrderly(bucket, token, start, 0, clock, next);
    WithoutOrderly(ledger, token, start, 0, clock, next);
  }

  lemma AgreesReserve(r: Rules, start: int, bucket: seq<Entry>, ledger: seq<Entry>, clock: int, next: nat, t1: int,
                      t2: int)
    requires Agrees(r, start, bucket, ledger, clock, next) && clock <= t1 <= t2
    ensures var kept := Drop(bucket, t1 - r.windowMs);
            && Agrees(r, start, kept, ledger, t2, next)
            && Agrees(r, start, Drop(kept, t2 - r.windowMs) + [Entry(t2, next)], ledger + [Entry(t2, next)], t2,
              next + 1)
  {
    var kept := Drop(bucket, t1 - r.windowMs);
    AgreesLater(r, start, bucket, ledger, clock, next, t1, next);
    AgreesDrop(r, start, bucket, ledger, t1, next);
    AgreesLater(r, start, kept, ledger, t1, next, t2, next);
    AgreesDrop(r, start, kept, ledger, t2, next);
    AgreesAppend(r, start, Drop(kept, t2 - r.windowMs), ledger, t2, next);
  }

  lemma AgreesLook(r: Rules, start: int, bucket: seq<Entry>, ledger: seq<Entry>, clock: int, next: nat, t: int)
    requires Agrees(r, start, bucket, ledger, clock, next) && clock <= t
    ensures Agrees(r, start, Drop(bucket, t - r.windowMs), ledger, t, next)
  {
    AgreesLater(r, start, bucket, ledger, clock, next, t, next);
    AgreesDrop(r, start, bucket, ledger, t, next);
  }

  lemma AgreesRecord(r: Rules, start: int, bucket: seq<Entry>, ledger: seq<Entry>, clock: int, next: nat, t: int)
    requires Agrees(r, start, bucket, ledger, clock, next) && clock <= t
    ensures Agrees(r, start, Drop(bucket, t - r.windowMs) + [Entry(t, next)], ledger + [Entry(t, next)], t, next + 1)
  {
    AgreesLook(r, start, bucket, ledger, clock, next, t);
    AgreesAppend(r, start, Drop(bucket, t - r.windowMs), ledger, t, next);
  }

  ghost predicate TimelyOp(op: Op, clock: int, later: int) {
    match op
    case Look(_, t) => clock <= t == later
    case Record(_, t) => clock <= t == later
    case Reserve(_, t1, t2) => clock <= t1 <= t2 == later
    case Release(_, _) => later == clock
  }

  lemma AgreesOp(r: Rules, start: int, st: State, op: Op, bucket: seq<Entry>, ledger: seq<Entry>, clock: int,
                 later: int)
    requires Agrees(r, start, bucket, ledger, clock, st.nextToken) && bucket == Events(st, op.key)
    requires TimelyOp(op, clock, later)
    ensures var next := st.nextToken + if Issued(r, st, op).Some? then 1 else 0;
            Agrees(r, start, Keep(r, st, op, op.key, bucket), Book(r, st, op, op.key, ledger), later, next)
  {
    match op
    case Look(_, t) => AgreesLook(r, start, bucket, ledger, clock, st.nextToken, t);
    case Record(_, t) => AgreesRecord(r, start, bucket, ledger, clock, st.nextToken, t);
    case Reserve(_, t1, t2) => AgreesReserve(r, start, bucket, ledger, clock, st.nextToken, t1, t2);
    case Release(_, token) => AgreesRelease(r, start, bucket, ledger, clock, st.nextToken, token);
  }

  /** In every reachable state the pruned bucket of every key agrees with its full ledger. */
  lemma {:induction false} BucketsAgree(r: Rules, start: int, ops: seq<Op>, key: string)
    requires Timely(start, ops)
    ensures Agrees(r, start, Events(Run(r, ops), key), Ledger(r, ops, key), Clock(start, ops), Run(r, ops).nextToken)
  {
    if ops != [] {
      var init, op := ops[..|ops| - 1], ops[|ops| - 1];
      BucketsAgree(r, start, init, key);
      var st, bucket, ledger := Run(r, init), Events(Run(r, init), key), Ledger(r, init, key);
      StepKeeps(r, st, op, key);
      assert TimelyOp(op, Clock(start, init), Clock(start, ops));
      if op.key == key {
        AgreesOp(r, start, st, op, bucket, ledger, Clock(start, init), Clock(start, ops));
      } else {
        AgreesLater(r, start, bucket, ledger, Clock(start, init), st.nextToken, Clock(start, ops),
          Run(r, ops).nextToken);
      }
    }
  }

  /**
   Pruning is transparent: in every run under a non-decreasing clock, a reservation is granted exactly when fewer
   than `limit` never-released entries of its key, out of all ever made, fall within the last window.
   */
  lemma GrantedIffLedgerHasRoom(r: Rules, start: int, ops: seq<Op>, key: string, t1: int)
    requires Timely(start, ops) && Clock(start, ops) <= t1
    ensures Granted(r, Run(r, ops), key, t1) <==> |Newer(Ledger(r, ops, key), t1 - r.windowMs)| < r.limit
  {
    BucketsAgree(r, start, ops, key);
    var next := Run(r, ops).nextToken;
    AgreesLater(r, start, Events(Run(r, ops), key), Ledger(r, ops, key), Clock(start, ops), next, t1, next);
  }

  /**
   What a check answers in any such run. With fewer than `limit` live entries it allows, and says how many are left;
   with `limit` or more it refuses, until the oldest of them leaves the window; with a limit of 0 and none it fails.
   */
  lemma AnswerIs(r: Rules, start: int, ops: seq<Op>, key: string, t: int)
    requires Timely(start, ops) && Clock(start, ops) <= t
    ensures var live := Newer(Ledger(r, ops, key), t - r.windowMs);
            var answer := Answer(r, Drop(Events(Run(r, ops), key), t - r.windowMs), t);
            && (answer.None? <==> r.limit == 0 && live == [])
            && (answer.Some? ==>
                  && (answer.value.allowed <==> |live| < r.limit)
                  && answer.value.remaining == (if |live| < r.limit then r.limit - |live| else 0)
                  && (answer.value.allowed ==> answer.value.retryAfterMs == 0)
                  && (!answer.value.allowed ==>
                        live != [] && answer.value.retryAfterMs == live[0].ts + r.windowMs - t > 0))
  {
    BucketsAgree(r, start, ops, key);
    var next := Run(r, ops).nextToken;
    AgreesLater(r, start, Events(Run(r, ops), key), Ledger(r, ops, key), Clock(start, ops), next, t, next);
    NewerAreNewer(Ledger(r, ops, key), t - r.windowMs);
  }

  lemma {:induction false} NewerAreNewer(s: seq<Entry>, cutoff: int)
    ensures forall e :: e in Newer(s, cutoff) ==> e.ts > cutoff
  {
    if s != [] {
      NewerAreNewer(s[1..], cutoff);
    }
  }

  // ---------------------------------------------------------------- the limit

  function Within(s: seq<Entry>, a: int, b: int): seq<Entry> {
    if s == [] then []
    else if a <= s[0].ts < b then [s[0]] + Within(s[1..], a, b)
    else Within(s[1..], a, b)
  }

  /** `g` is what is left of `s` after dropping some entries. */
  ghost predicate Sub(g: seq<Entry>, s: seq<Entry>) {
    g == [] || (s != [] && ((g[0] == s[0] && Sub(g[1..], s[1..])) || Sub(g, s[1..])))
  }

  lemma {:induction false} SubAppend(g: seq<Entry>, s: seq<Entry>, e: Entry)
    requires Sub(g, s)
    ensures Sub(g, s + [e]) && Sub(g + [e], s + [e])
    decreases |s|
  {
    if s == [] {
      assert s + [e] == g + [e] == [e] && [e][1..] == [];
    } else {
      assert (s + [e])[1..] == s[1..] + [e];
      if g == [] {
        SubAppend(g, s[1..], e);
      } else if g[0] == s[0] && Sub(g[1..], s[1..]) {
        assert (g + [e])[1..] == g[1..] + [e];
        SubAppend(g[1..], s[1..], e);
      } else {
        SubAppend(g, s[1..], e);
      }
    }
  }

  lemma {:induction false} SubWithout(g: seq<Entry>, s: seq<Entry>, token: nat)
    requires Sub(g, s)
    ensures Sub(Without(g, token), Without(s, token))
    decreases |s|
  {
    if g != [] {
      if g[0] == s[0] && Sub(g[1..], s[1..]) {
        SubWithout(g[1..], s[1..], token);
      } else {
        SubWithout(g, s[1..], token);
        SubTail(Without(g, token), s[0], Without(s[1..], token));
      }
    }
  }

  lemma SubTail(g: seq<Entry>, e: Entry, s: seq<Entry>)
    requires Sub(g, s)
    ensures Sub(g, [e] + s)
  {
    assert ([e] + s)[1..] == s;
  }

  lemma {:induction false} SubWithin(g: seq<Entry>, s: seq<Entry>, a: int, b: int)
    requires Sub(g, s)
    ensures |Within(g, a, b)| <= |Within(s, a, b)|
    decreases |s|
  {
    if g != [] {
      if g[0] == s[0] && Sub(g[1..], s[1..]) {
        SubWithin(g[1..], s[1..], a, b);
      } else {
        SubWithin(g, s[1..], a, b);
      }
    }
  }

  lemma {:induction false} GrantsInLedger(r: Rules, ops: seq<Op>, key: string)
    ensures Sub(Grants(r, ops, key), Ledger(r, ops, key))
  {
    if ops != [] {
      var init, op := ops[..|ops| - 1], ops[|ops| - 1];
      GrantsInLedger(r, init, key);
      match Issued(r, Run(r, init), op)
      case Some(e) => SubAppend(Grants(r, init, key), Ledger(r, init, key), e);
      case None =>
        if op.Release? {
          SubWithout(Grants(r, init, key), Ledger(r, init, key), op.token);
        }
    }
  }

  /** Any half-open interval of the window's length holds at most `limit` never-released grants of a key. */
  lemma {:induction false} WindowNeverOverfull(r: Rules, start: int, ops: seq<Op>, key: string, a: int)
    requires Timely(start, ops)
    ensures |Within(Grants(r, ops, key), a, a + r.windowMs)| <= r.limit
  {
    if ops != [] {
      var init, op := ops[..|ops| - 1], ops[|ops| - 1];
      WindowNeverOverfull(r, start, init, key, a);
      if !op.Record? {
        GrantKeepsLimit(r, start, init, op, key, a);
      }
    }
  }

  lemma GrantKeepsLimit(r: Rules, start: int, init: seq<Op>, op: Op, key: string, a: int)
    requires Timely(start, init) && !op.Record?
    requires op.Reserve? ==> Clock(start, init) <= op.t1 <= op.t2
    requires |Within(Grants(r, init, key), a, a + r.windowMs)| <= r.limit
    ensures |Within(Book(r, Run(r, init), op, key, Grants(r, init, key)), a, a + r.windowMs)| <= r.limit
  {
    var grants, ledger := Grants(r, init, key), Ledger(r, init, key);
    if op.key == key && op.Release? {
      WithinWithout(grants, op.token, a, a + r.windowMs);
    } else if op.key == key && op.Reserve? && Granted(r, Run(r, init), key, op.t1) {
      GrantedIffLedgerHasRoom(r, start, init, key, op.t1);
      WithinAppend(grants, Entry(op.t2, Run(r, init).nextToken), a, a + r.windowMs);
      if a <= op.t2 < a + r.windowMs {
        GrantsInLedger(r, init, key);
        SubWithin(grants, ledger, a, a + r.windowMs);
        WithinIsNewer(ledger, a, a + r.windowMs, op.t1 - r.windowMs);
      }
    }
  }

  lemma {:induction false} WithinWithout(s: seq<Entry>, token: nat, a: int, b: int)
    ensures |Within(Without(s, token), a, b)| <= |Within(s, a, b)|
  {
    if s != [] {
      WithinWithout(s[1..], token, a, b);
    }
  }

  lemma {:induction false} WithinIsNewer(s: seq<Entry>, a: int, b: int, cutoff: int)
    requires cutoff < a
    ensures |Within(s, a, b)| <= |Newer(s, cutoff)|
  {
    if s != [] {
      WithinIsNewer(s[1..], a, b, cutoff);
    }
  }

  lemma {:induction false} WithinAppend(s: seq<Entry>, e: Entry, a: int, b: int)
    ensures |Within(s + [e], a, b)| == |Within(s, a, b)| + if a <= e.ts < b then 1 else 0
  {
    if s == [] {
      assert [] + [e] == [e];
    } else {
      assert (s + [e])[1..] == s[1..] + [e];
      WithinAppend(s[1..], e, a, b);
    }
  }

  // ---------------------------------------------------------------- retryAfterMs is exact

  /** What a denied caller is told to wait. */
  function RetryAfter(r: Rules, st: State, key: string, t: int): int
    requires Drop(Events(st, key), t - r.windowMs) != []
  {
    Answer(r, Drop(Events(st, key), t - r.windowMs), t).value.retryAfterMs
  }

  /** A continuation without records and releases of `key` whose clock readings stay within [from, until). */
  ghost predicate Impatient(ops: seq<Op>, key: string, from: int, until: int) {
    forall i :: 0 <= i < |ops| && ops[i].key == key ==>
      match ops[i]
      case Look(_, t) => from <= t < until
      case Record(_, _) => false
      case Reserve(_, t1, t2) => from <= t1 < until
      case Release(_, _) => false
  }

  function Continue(r: Rules, st: State, ops: seq<Op>): State
    decreases |ops|
  {
    if ops == [] then st else Step(r, Continue(r, st, ops[..|ops| - 1]), ops[|ops| - 1])
  }

  lemma {:induction false} RunContinues(r: Rules, before: seq<Op>, after: seq<Op>)
    ensures Run(r, before + after) == Continue(r, Run(r, before), after)
    decreases |after|
  {
    if after == [] {
      assert before + after == before;
    } else {
      assert (before + after)[..|before + after| - 1] == before + after[..|after| - 1];
      RunContinues(r, before, after[..|after| - 1]);
    }
  }

  /** A full bucket whose entries are all still inside the window at every reading before `until`. */
  ghost predicate Full(r: Rules, events: seq<Entry>, from: int, until: int) {
    |events| >= r.limit && events != [] && events[0].ts + r.windowMs == until > from
  }

  lemma FullDenies(r: Rules, events: seq<Entry>, from: int, until: int, t: int)
    requires Full(r, events, from, until) && from <= t
    ensures t < until ==> Drop(events, t - r.windowMs) == events && Answer(r, events, t).value.retryAfterMs == until - t
    ensures t == until ==> Drop(events, t - r.windowMs) == Drop(events, events[0].ts)
  {}

  lemma {:induction false} DropShrinks(events: seq<Entry>, cutoff: int)
    ensures |Drop(events, cutoff)| <= |events|
  {
    if events != [] {
      DropShrinks(events[1..], cutoff);
    }
  }

  lemma {:induction false} FullStaysFull(r: Rules, st: State, key: string, from: int, until: int, ops: seq<Op>)
    requires Full(r, Drop(Events(st, key), from - r.windowMs), from, until) && Impatient(ops, key, from, until)
    ensures Drop(Events(Continue(r, st, ops), key), from - r.windowMs) == Drop(Events(st, key), from - r.windowMs)
    decreases |ops|
  {
    if ops != [] {
      var init, op := ops[..|ops| - 1], ops[|ops| - 1];
      FullStaysFull(r, st, key, from, until, init);
      StepKeeps(r, Continue(r, st, init), op, key);
      if op.key == key {
        FullStepKeeps(r, Continue(r, st, init), op, key, from, until);
      }
    }
  }

  lemma FullStepKeeps(r: Rules, st: State, op: Op, key: string, from: int, until: int)
    requires Full(r, Drop(Events(st, key), from - r.windowMs), from, until) && Impatient([op], key, from, until)
    requires op.key == key
    ensures Drop(Keep(r, st, op, key, Events(st, key)), from - r.windowMs) == Drop(Events(st, key), from - r.windowMs)
  {
    var bucket, t := Events(st, key), if op.Look? then op.t else op.t1;
    assert [op][0] == op;
    FullDenies(r, Drop(bucket, from - r.windowMs), from, until, t);
    DropLater(bucket, from - r.windowMs, t - r.windowMs);
    DropTwice(bucket, from - r.windowMs);
  }

  lemma {:induction false} DropLater(events: seq<Entry>, a: int, b: int)
    requires a <= b
    ensures Drop(Drop(events, a), b) == Drop(events, b)
  {
    if events != [] && events[0].ts <= a {
      DropLater(events[1..], a, b);
    }
  }

  lemma {:induction false} DropHead(events: seq<Entry>, cutoff: int)
    ensures Drop(events, cutoff) != [] ==> Drop(events, cutoff)[0].ts > cutoff
  {
    if events != [] && events[0].ts <= cutoff {
      DropHead(events[1..], cutoff);
    }
  }

  /** A denial that does not throw finds the bucket full, and its wait is positive. */
  lemma DenialMeansFull(r: Rules, st: State, key: string, t: int)
    requires !Granted(r, st, key, t) && Drop(Events(st, key), t - r.windowMs) != []
    ensures RetryAfter(r, st, key, t) > 0
    ensures Full(r, Drop(Events(st, key), t - r.windowMs), t, t + RetryAfter(r, st, key, t))
  {
    DropHead(Events(st, key), t - r.windowMs);
  }

  /**
   What a denied caller is told: in every continuation without a record or release of the key, every attempt before
   t + retryAfterMs is denied, and an attempt at that instant is granted exactly when the bucket has room once its
   oldest entries are gone.
   */
  lemma RetryAfterIff(r: Rules, st: State, key: string, t: int, later: seq<Op>)
    requires !Granted(r, st, key, t) && Drop(Events(st, key), t - r.windowMs) != []
    requires Impatient(later, key, t, t + RetryAfter(r, st, key, t))
    ensures var live, until := Drop(Events(st, key), t - r.windowMs), t + RetryAfter(r, st, key, t);
            && (forall u :: t <= u < until ==> !Granted(r, Continue(r, st, later), key, u))
            && (Granted(r, Continue(r, st, later), key, until) <==> |Drop(live, live[0].ts)| < r.limit)
  {
    var live, until := Drop(Events(st, key), t - r.windowMs), t + RetryAfter(r, st, key, t);
    DenialMeansFull(r, st, key, t);
    FullStaysFull(r, st, key, t, until, later);
    var events := Events(Continue(r, st, later), key);
    forall u | t <= u <= until
      ensures Granted(r, Continue(r, st, later), key, u) <==> u == until && |Drop(live, live[0].ts)| < r.limit
    {
      FullDenies(r, live, t, until, u);
      DropLater(events, t - r.windowMs, u - r.windowMs);
    }
  }

  /** With a limit of 1 and two plain records a denied caller is sent back too early. */
  lemma OverfullWaitIsTooShort(key: string)
    ensures var r, ops := Rules(1, 10), [Record(key, 0), Record(key, 1)];
            && Timely(0, ops) && Clock(0, ops) <= 2 && !Granted(r, Run(r, ops), key, 2)
            && Drop(Events(Run(r, ops), key), 2 - r.windowMs) != []
            && !Granted(r, Run(r, ops), key, 2 + RetryAfter(r, Run(r, ops), key, 2))
  {
    var r, ops := Rules(1, 10), [Record(key, 0), Record(key, 1)];
    var s1, s2 := State(map[key := [Entry(0, 1)]], 2), State(map[key := [Entry(0, 1), Entry(1, 2)]], 3);
    assert ops[..1] == [Record(key, 0)] && ops[..1][..0] == [];
    assert Drop([Entry(0, 1)], -9) == [Entry(0, 1)];
    assert [] + [Entry(0, 1)] == [Entry(0, 1)] && [Entry(0, 1)] + [Entry(1, 2)] == [Entry(0, 1), Entry(1, 2)];
    assert Step(r, EMPTY, Record(key, 0)) == s1 && Step(r, s1, Record(key, 1)) == s2;
    assert Run(r, ops[..1]) == s1 && Run(r, ops) == s2;
    assert [Entry(0, 1), Entry(1, 2)][1..] == [Entry(1, 2)];
  }

  /** A run without plain records of the key. */
  ghost predicate Unrecorded(ops: seq<Op>, key: string) {
    forall i :: 0 <= i < |ops| ==> !(ops[i].Record? && ops[i].key == key)
  }

  lemma {:induction false} UnrecordedLedger(r: Rules, ops: seq<Op>, key: string)
    requires Unrecorded(ops, key)
    ensures Grants(r, ops, key) == Ledger(r, ops, key)
  {
    if ops != [] {
      UnrecordedLedger(r, ops[..|ops| - 1], key);
    }
  }

  lemma {:induction false} NewestAreWithin(s: seq<Entry>, t: int, windowMs: nat, from: int, first: nat, next: nat)
    requires Orderly(s, from, first, t, next)
    ensures |Newer(s, t - windowMs)| <= |Within(s, t - windowMs + 1, t + 1)|
  {
    if s != [] {
      NewestAreWithin(s[1..], t, windowMs, s[0].ts, s[0].token + 1, next);
    }
  }

  /**
   Without plain records a bucket never holds more than `limit` live entries, so a denial's retryAfterMs is exact:
   absent a release, every attempt before that instant is denied, and an attempt at that instant is granted.
   */
  lemma RetryAfterIsExact(r: Rules, start: int, ops: seq<Op>, key: string, t: int, later: seq<Op>)
    requires Timely(start, ops) && Clock(start, ops) <= t && r.limit > 0 && !Granted(r, Run(r, ops), key, t)
    requires Unrecorded(ops, key)
    requires Impatient(later, key, t, t + RetryAfter(r, Run(r, ops), key, t))
    ensures var until := t + RetryAfter(r, Run(r, ops), key, t);
            && (forall u :: t <= u < until ==> !Granted(r, Run(r, ops + later), key, u))
            && Granted(r, Run(r, ops + later), key, until)
  {
    var st := Run(r, ops);
    var live := Drop(Events(st, key), t - r.windowMs);
    RunContinues(r, ops, later);
    RetryAfterIff(r, st, key, t, later);
    LiveWithinLimit(r, start, ops, key, t);
    DropShrinks(live[1..], live[0].ts);
  }

  lemma LiveWithinLimit(r: Rules, start: int, ops: seq<Op>, key: string, t: int)
    requires Timely(start, ops) && Clock(start, ops) <= t && Unrecorded(ops, key)
    ensures |Drop(Events(Run(r, ops), key), t - r.windowMs)| <= r.limit
  {
    var st, ledger, clock := Run(r, ops), Ledger(r, ops, key), Clock(start, ops);
    BucketsAgree(r, start, ops, key);
    AgreesLater(r, start, Events(st, key), ledger, clock, st.nextToken, t, st.nextToken);
    UnrecordedLedger(r, ops, key);
    WindowNeverOverfull(r, start, ops, key, t - r.windowMs + 1);
    NewestAreWithin(ledger, t, r.windowMs, start, 0, st.nextToken);
  }
}

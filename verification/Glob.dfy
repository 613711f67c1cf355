/**
 Glob patterns as the server matches keys against them, the escaping of literal text, and the invalidations that
 scan for an escaped prefix and delete what the scan returns.
 */
module Glob {
  import opened Prelude

  // ---------------------------------------------------------------- the matcher

  datatype ClassResult = ClassResult(hit: bool, rest: string)

  predicate InRange(c: char, a: char, b: char) { (a <= c <= b) || (b <= c <= a) }

  /** Reads a character class after its opening bracket (and caret); an unterminated class ends with the pattern. */
  function ScanClass(p: string, c: char, hit: bool): (r: ClassResult)
    ensures |r.rest| <= |p|
    decreases |p|
  {
    if p == [] then ClassResult(hit, [])
    else if |p| >= 2 && p[0] == '\\' then ScanClass(p[2..], c, hit || p[1] == c)
    else if p[0] == ']' then ClassResult(hit, p[1..])
    else if |p| >= 3 && p[1] == '-' then ScanClass(p[3..], c, hit || InRange(c, p[0], p[2]))
    else ScanClass(p[1..], c, hit || p[0] == c)
  }

  function MatchClass(p: string, c: char): (r: ClassResult)
    ensures |r.rest| <= |p|
  {
    if p != [] && p[0] == '^' then
      var r := ScanClass(p[1..], c, false);
      ClassResult(!r.hit, r.rest)
    else ScanClass(p, c, false)
  }

  /** Whether the whole string matches the whole pattern. */
  predicate Matches(p: string, s: string)
    decreases |s|, |p|
  {
    if p == [] then s == []
    else if p[0] == '*' then Matches(p[1..], s) || (s != [] && Matches(p, s[1..]))
    else if s == [] then false
    else if p[0] == '?' then Matches(p[1..], s[1..])
    else if p[0] == '[' then
      var r := MatchClass(p[1..], s[0]);
      r.hit && Matches(r.rest, s[1..])
    else if p[0] == '\\' && |p| >= 2 then p[1] == s[0] && Matches(p[2..], s[1..])
    else p[0] == s[0] && Matches(p[1..], s[1..])
  }

  // ---------------------------------------------------------------- escaping

  predicate IsSpecial(c: char) { c in ['\\', '*', '?', '[', ']'] }

  function EscapeChar(c: char): string { if IsSpecial(c) then ['\\', c] else [c] }

  function Escape(value: string): string {
    if value == [] then [] else EscapeChar(value[0]) + Escape(value[1..])
  }

  lemma {:induction false} EscapeConcat(a: string, b: string)
    ensures Escape(a + b) == Escape(a) + Escape(b)
  {
    if a == [] {
      assert a + b == b;
    } else {
      assert (a + b)[1..] == a[1..] + b;
      EscapeConcat(a[1..], b);
    }
  }

  lemma {:induction false} PlainTextUnescaped(a: string)
    requires forall i :: 0 <= i < |a| ==> !IsSpecial(a[i])
    ensures Escape(a) == a
  {
    if a != [] {
      PlainTextUnescaped(a[1..]);
    }
  }

  /**
   An escaped text followed by any pattern matches exactly the strings that start with the text and go on to match.
   */
  lemma {:induction false} EscapedPrefix(v: string, rest: string, s: string)
    ensures Matches(Escape(v) + rest, s) <==> v <= s && Matches(rest, s[|v|..])
    decreases |v|
  {
    if v == [] {
      assert Escape(v) + rest == rest;
    } else {
      assert Escape(v) + rest == EscapeChar(v[0]) + (Escape(v[1..]) + rest);
      if s != [] {
        EscapedPrefix(v[1..], rest, s[1..]);
        assert v[1..] <= s[1..] && v[0] == s[0] <==> v <= s by {
          assert v == [v[0]] + v[1..] && s == [s[0]] + s[1..];
        }
        assert v <= s ==> s[1..][|v[1..]|..] == s[|v|..];
      }
    }
  }

  lemma {:induction false} StarMatchesAll(s: string)
    ensures Matches("*", s)
  {
    assert "*"[1..] == [];
    if s != [] {
      StarMatchesAll(s[1..]);
    }
  }

  /** A key matches an escaped value followed by `*` exactly when it starts with the value. */
  lemma PrefixPatternIsExact(v: string, key: string)
    ensures Matches(Escape(v) + "*", key) <==> v <= key
  {
    EscapedPrefix(v, "*", key);
    if v <= key {
      StarMatchesAll(key[|v|..]);
    }
  }

  // ---------------------------------------------------------------- invalidation patterns

  datatype Filter = Tool(value: string) | KeyPrefix(value: string) | Session(value: string)

  function PatternFor(prefix: string, f: Filter): string {
    match f
    case Tool(v) => Escape(prefix) + ":tool:" + Escape(v) + ":*"
    case KeyPrefix(v) => Escape(prefix) + ":" + Escape(v) + "*"
    case Session(v) => Escape(prefix) + ":session:" + Escape(v) + "*"
  }

  /** The literal text the invalidation is meant to select by. */
  function Intended(prefix: string, f: Filter): string {
    match f
    case Tool(v) => prefix + ":tool:" + v + ":"
    case KeyPrefix(v) => prefix + ":" + v
    case Session(v) => prefix + ":session:" + v
  }

  lemma EscapeAround(prefix: string, text: string, v: string)
    requires forall i :: 0 <= i < |text| ==> !IsSpecial(text[i])
    ensures Escape(prefix + text + v) == Escape(prefix) + text + Escape(v)
  {
    EscapeConcat(prefix + text, v);
    EscapeConcat(prefix, text);
    PlainTextUnescaped(text);
  }

  lemma PatternIsEscapedIntent(prefix: string, f: Filter)
    ensures PatternFor(prefix, f) == Escape(Intended(prefix, f)) + "*"
  {
    match f
    case Tool(v) =>
      EscapeConcat(prefix + ":tool:" + v, ":");
      EscapeAround(prefix, ":tool:", v);
      PlainTextUnescaped(":");
      assert ":" + "*" == ":*";
    case KeyPrefix(v) => EscapeAround(prefix, ":", v);
    case Session(v) => EscapeAround(prefix, ":session:", v);
  }

  /** Every invalidation pattern matches exactly the keys with the intended literal prefix, whatever the values hold. */
  lemma InvalidationIsExact(prefix: string, f: Filter, key: string)
    ensures Matches(PatternFor(prefix, f), key) <==> Intended(prefix, f) <= key
  {
    PatternIsEscapedIntent(prefix, f);
    PrefixPatternIsExact(Intended(prefix, f), key);
  }

  /** The server behind an invalidation: the replies its SCAN will give, the last of which carries cursor 0. */
  class Store {
    const pattern: string
    const replies: seq<seq<string>>
    var deleted: seq<string>
    /** How many keys the server has said it removed. */
    var removed: nat

    constructor (pattern: string, replies: seq<seq<string>>)
      requires replies != []
      ensures this.pattern == pattern && this.replies == replies && deleted == [] && removed == 0
    {
      this.pattern, this.replies, deleted, removed := pattern, replies, [], 0;
    }

    method Scan(cursor: nat) returns (next: nat, keys: seq<string>)
      requires cursor < |replies|
      ensures keys == replies[cursor] && next == if cursor + 1 == |replies| then 0 else cursor + 1
    {
      keys := replies[cursor];
      next := if cursor + 1 == |replies| then 0 else cursor + 1;
    }

    method Del(keys: seq<string>) returns (n: nat)
      modifies this`deleted, this`removed
      ensures deleted == old(deleted) + keys && n <= |keys| && removed == old(removed) + n
    {
      deleted := deleted + keys;
      n :| 0 <= n <= |keys|;
      removed := removed + n;
    }
  }

  function AllKeys(replies: seq<seq<string>>): seq<string> {
    if replies == [] then [] else AllKeys(replies[..|replies| - 1]) + replies[|replies| - 1]
  }

  /** Deletes every key of every reply, and nothing else; the count is what the server removed. */
  method ScanAndDelete(store: Store) returns (count: nat)
    requires store.replies != []
    modifies store
    ensures store.deleted == old(store.deleted) + AllKeys(store.replies)
    ensures count == store.removed - old(store.removed) <= |AllKeys(store.replies)|
  {
    var cursor, started := 0, false;
    ghost var pos := 0;
    count := 0;
    while !started || cursor != 0
      invariant pos <= |store.replies| && (started <==> pos > 0)
      invariant cursor == if pos == |store.replies| then 0 else pos
      invariant store.deleted == old(store.deleted) + AllKeys(store.replies[..pos])
                && count == store.removed - old(store.removed) <= |AllKeys(store.replies[..pos])|
      decreases |store.replies| - pos
    {
      var keys: seq<string>;
      cursor, keys := store.Scan(cursor);
      started := true;
      assert store.replies[..pos + 1][..pos] == store.replies[..pos];
      if |keys| > 0 {
        var removed := store.Del(keys);
        count := count + removed;
      }
      pos := pos + 1;
    }
    assert store.replies[..pos] == store.replies;
  }

  lemma {:induction false} AllKeysFrom(replies: seq<seq<string>>, key: string)
    requires key in AllKeys(replies)
    ensures exists i :: 0 <= i < |replies| && key in replies[i]
  {
    var last := |replies| - 1;
    if key !in replies[last] {
      AllKeysFrom(replies[..last], key);
    }
  }

  /** When the scan returns only matching keys, an invalidation deletes only keys with the intended prefix. */
  lemma OnlyIntendedKeysDeleted(prefix: string, f: Filter, replies: seq<seq<string>>, key: string)
    requires forall i, k :: 0 <= i < |replies| && k in replies[i] ==> Matches(PatternFor(prefix, f), k)
    requires key in AllKeys(replies)
    ensures Intended(prefix, f) <= key
  {
    AllKeysFrom(replies, key);
    var i :| 0 <= i < |replies| && key in replies[i];
    InvalidationIsExact(prefix, f, key);
  }

  // ---------------------------------------------------------------- catch-all patterns

  predicate MatchesEverything(p: string) { p != [] && forall i :: 0 <= i < |p| ==> p[i] == '*' }

  lemma {:induction false} EmptyNeedsStars(p: string)
    ensures Matches(p, []) <==> forall i :: 0 <= i < |p| ==> p[i] == '*'
  {
    if p != [] && p[0] == '*' {
      EmptyNeedsStars(p[1..]);
      assert forall i :: 1 <= i < |p| ==> p[i] == p[1..][i - 1];
    }
  }

  lemma {:induction false} StarsMatchAll(p: string, s: string)
    requires MatchesEverything(p)
    ensures Matches(p, s)
    decreases |s|
  {
    if s == [] {
      EmptyNeedsStars(p);
    } else {
      StarsMatchAll(p, s[1..]);
    }
  }

  lemma UnmatchedBy(p: string) returns (s: string)
    requires !MatchesEverything(p)
    ensures !Matches(p, s)
  {
    if p == [] {
      s := ['a'];
    } else {
      EmptyNeedsStars(p);
      s := [];
    }
  }

  ghost predicate MatchesAll(p: string) { forall s: string :: Matches(p, s) }

  /** The catch-all test holds exactly for the patterns that match every string, the empty one included. */
  lemma CatchAllIff(p: string)
    ensures MatchesEverything(p) <==> MatchesAll(p)
  {
    if MatchesEverything(p) {
      forall s: string ensures Matches(p, s) {
        StarsMatchAll(p, s);
      }
    } else {
      var s := UnmatchedBy(p);
    }
  }
}

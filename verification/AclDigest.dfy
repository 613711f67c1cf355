/**
 ACL digests: tokenizing ACL LIST lines with selectors kept whole, a per-user hash over the sorted rules, the XOR of
 all users as the node's digest, and the comparison of nodes in one replication group. The hash is a parameter.
 */
module AclDigest {
  import opened Prelude
  import opened Sorting
  import opened Strings

  const DIGEST_BYTES: nat := 8

  /** Eight bytes. */
  type Digest = d: seq<bv8> | |d| == DIGEST_BYTES witness [0, 0, 0, 0, 0, 0, 0, 0]

  type Hash = string -> Digest

  const EMPTY_DIGEST: Digest := [0, 0, 0, 0, 0, 0, 0, 0]

  function Xor(a: Digest, b: Digest): (r: Digest)
    ensures forall i :: 0 <= i < DIGEST_BYTES ==> r[i] == a[i] ^ b[i]
  {
    seq(DIGEST_BYTES, i requires 0 <= i < DIGEST_BYTES => a[i] ^ b[i])
  }

  method XorBytes(left: Digest, right: Digest) returns (r: Digest)
    ensures r == Xor(left, right)
  {
    var out: seq<bv8>, i := [], 0;
    while i < DIGEST_BYTES
      invariant 0 <= i <= DIGEST_BYTES && |out| == i
      invariant forall j :: 0 <= j < i ==> out[j] == left[j] ^ right[j]
    {
      out := out + [left[i] ^ right[i]];
      i := i + 1;
    }
    r := out;
  }

  function Deepen(c: char, depth: nat): nat {
    if c == '(' then depth + 1 else if c == ')' && depth > 0 then depth - 1 else depth
  }

  function Flush(current: string): seq<string> { if current == [] then [] else [current] }

  /** The tokens of `rest` when `current` has been read so far at parenthesis depth `depth`. */
  function Scan(rest: string, current: string, depth: nat): seq<string>
    decreases |rest|
  {
    if rest == [] then Flush(current)
    else if IsSpace(rest[0]) && Deepen(rest[0], depth) == 0 then Flush(current) + Scan(rest[1..], [], 0)
    else Scan(rest[1..], current + [rest[0]], Deepen(rest[0], depth))
  }

  function Tokenize(line: string): seq<string> { Scan(line, [], 0) }

  method TokenizeAclLine(line: string) returns (tokens: seq<string>)
    ensures tokens == Tokenize(line)
  {
    tokens := [];
    var current, depth, i := "", 0, 0;
    while i < |line|
      invariant 0 <= i <= |line| && 0 <= depth
      invariant tokens + Scan(line[i..], current, depth) == Tokenize(line)
    {
      var c := line[i];
      assert line[i..][0] == c && line[i..][1..] == line[i + 1..];
      if c == '(' {
        depth := depth + 1;
      }
      if c == ')' && depth > 0 {
        depth := depth - 1;
      }
      if IsSpace(c) && depth == 0 {
        if current != "" {
          tokens := tokens + [current];
          current := "";
        }
      } else {
        current := current + [c];
      }
      i := i + 1;
    }
    if current != "" {
      tokens := tokens + [current];
    }
  }

  function Join(parts: seq<string>): string {
    if parts == [] then "" else if |parts| == 1 then parts[0] else parts[0] + " " + Join(parts[1..])
  }

  // ---------------------------------------------------------------- tokens survive joining

  function DepthAfter(t: string, depth: nat): nat
    decreases |t|
  {
    if t == [] then depth else DepthAfter(t[1..], Deepen(t[0], depth))
  }

  /** Reading `t` from `depth` meets no separator. */
  predicate Unbroken(t: string, depth: nat)
    decreases |t|
  {
    t == [] || (!(IsSpace(t[0]) && Deepen(t[0], depth) == 0) && Unbroken(t[1..], Deepen(t[0], depth)))
  }

  /** Non-empty unbroken tokens, each but the last closing the parentheses it opened. */
  predicate TokenList(tokens: seq<string>) {
    tokens == []
    || (tokens[0] != [] && Unbroken(tokens[0], 0) && (|tokens| > 1 ==> DepthAfter(tokens[0], 0) == 0)
      && TokenList(tokens[1..]))
  }

  lemma {:induction false} ReadOne(t: string, c: char, depth: nat)
    ensures DepthAfter(t + [c], depth) == Deepen(c, DepthAfter(t, depth))
    ensures Unbroken(t + [c], depth)
       <==> Unbroken(t, depth) && !(IsSpace(c) && Deepen(c, DepthAfter(t, depth)) == 0)
    decreases |t|
  {
    if t == [] {
      assert [] + [c] == [c];
    } else {
      assert (t + [c])[1..] == t[1..] + [c];
      ReadOne(t[1..], c, Deepen(t[0], depth));
    }
  }

  /** What the tokenizer yields is a token list. */
  lemma {:induction false} ScanYieldsTokens(rest: string, current: string, depth: nat)
    requires Unbroken(current, 0) && DepthAfter(current, 0) == depth
    ensures TokenList(Scan(rest, current, depth))
    decreases |rest|
  {
    if rest != [] {
      if IsSpace(rest[0]) && Deepen(rest[0], depth) == 0 {
        ScanYieldsTokens(rest[1..], [], 0);
        assert (Flush(current) + Scan(rest[1..], [], 0))[|Flush(current)|..] == Scan(rest[1..], [], 0);
      } else {
        ReadOne(current, rest[0], 0);
        ScanYieldsTokens(rest[1..], current + [rest[0]], Deepen(rest[0], depth));
      }
    }
  }

  lemma {:induction false} ScanReads(t: string, rest: string, current: string, depth: nat)
    requires Unbroken(t, depth)
    ensures Scan(t + rest, current, depth) == Scan(rest, current + t, DepthAfter(t, depth))
    decreases |t|
  {
    if t == [] {
      assert t + rest == rest && current + t == current;
    } else {
      assert (t + rest)[1..] == t[1..] + rest && current + t == current + [t[0]] + t[1..];
      ScanReads(t[1..], rest, current + [t[0]], Deepen(t[0], depth));
    }
  }

  /** Joining a token list with spaces and tokenizing it again gives it back. */
  lemma {:induction false} JoinedTokensReturn(tokens: seq<string>)
    requires TokenList(tokens)
    ensures Tokenize(Join(tokens)) == tokens
  {
    if tokens != [] {
      var t := tokens[0];
      assert [] + t == t;
      if |tokens| == 1 {
        ScanReads(t, [], [], 0);
        assert t + [] == t;
      } else {
        JoinedTokensReturn(tokens[1..]);
        assert Join(tokens) == t + (" " + Join(tokens[1..]));
        ScanReads(t, " " + Join(tokens[1..]), [], 0);
      }
    }
  }

  /** Tokenizing the space-joined tokens of any line, balanced or not, returns the same tokens. */
  lemma RetokenizeIsIdentity(line: string)
    ensures Tokenize(Join(Tokenize(line))) == Tokenize(line)
  {
    ScanYieldsTokens(line, [], 0);
    JoinedTokensReturn(Tokenize(line));
  }

  // ---------------------------------------------------------------- lines, rules, user digests

  datatype User = User(username: string, rules: seq<string>)

  predicate IsUserWord(t: string) {
    |t| == 4 && t[0] in "uU" && t[1] in "sS" && t[2] in "eE" && t[3] in "rR"
  }

  function ParseAclLine(line: string): Option<User> {
    var tokens := Tokenize(line);
    if |tokens| < 2 || !IsUserWord(tokens[0]) then None else Some(User(tokens[1], tokens[2..]))
  }

  /** The non-empty pieces between runs of white space. */
  function Words(rest: string, current: string): seq<string>
    decreases |rest|
  {
    if rest == [] then Flush(current)
    else if IsSpace(rest[0]) then Flush(current) + Words(rest[1..], [])
    else Words(rest[1..], current + [rest[0]])
  }

  /** A selector `(...)` has its own rules sorted; any other rule stays as it is. */
  function NormalizeAclRule(rule: string): string {
    if |rule| < 2 || rule[0] != '(' || rule[|rule| - 1] != ')' then rule
    else "(" + Join(Sort(Words(rule[1..|rule| - 1], []), AtMost)) + ")"
  }

  function MapRules(rules: seq<string>): seq<string> {
    if rules == [] then [] else [NormalizeAclRule(rules[0])] + MapRules(rules[1..])
  }

  function UserDigest(h: Hash, username: string, rules: seq<string>): Digest {
    h(username + "\n" + Join(Sort(MapRules(rules), AtMost)))
  }

  lemma SortIgnoresOrder(a: seq<string>, b: seq<string>)
    requires multiset(a) == multiset(b)
    ensures Sort(a, AtMost) == Sort(b, AtMost)
  {
    AtMostIsOrder();
    assert Total(AtMost) && Transitive(AtMost) && Antisymmetric(AtMost);
    SortForgetsOrder(a, b, AtMost);
  }

  lemma {:induction false} MapRulesConcat(a: seq<string>, b: seq<string>)
    ensures MapRules(a + b) == MapRules(a) + MapRules(b)
  {
    if a == [] {
      assert a + b == b;
    } else {
      assert (a + b)[1..] == a[1..] + b;
      MapRulesConcat(a[1..], b);
    }
  }

  lemma {:induction false} MapRulesPermutes(a: seq<string>, b: seq<string>)
    requires multiset(a) == multiset(b)
    ensures multiset(MapRules(a)) == multiset(MapRules(b))
  {
    SameSize(a, b);
    if a != [] {
      var left, right := MatchHead(a, b);
      MapRulesPermutes(a[1..], left + right);
      MapRulesConcat(left, right);
      MapRulesMiddle(left, a[0], right);
    }
  }

  lemma MapRulesMiddle(left: seq<string>, x: string, right: seq<string>)
    ensures MapRules(left + [x] + right) == MapRules(left) + [NormalizeAclRule(x)] + MapRules(right)
  {
    MapRulesConcat(left + [x], right);
    MapRulesConcat(left, [x]);
  }

  /** A user's digest does not depend on the order of its rules. */
  lemma RuleOrderIrrelevant(h: Hash, username: string, a: seq<string>, b: seq<string>)
    requires multiset(a) == multiset(b)
    ensures UserDigest(h, username, a) == UserDigest(h, username, b)
  {
    MapRulesPermutes(a, b);
    SortIgnoresOrder(MapRules(a), MapRules(b));
  }

  predicate Word(t: string) { t != [] && forall i :: 0 <= i < |t| ==> !IsSpace(t[i]) }

  lemma {:induction false} WordsRead(t: string, rest: string, current: string)
    requires forall i :: 0 <= i < |t| ==> !IsSpace(t[i])
    ensures Words(t + rest, current) == Words(rest, current + t)
    decreases |t|
  {
    if t == [] {
      assert t + rest == rest && current + t == current;
    } else {
      assert (t + rest)[1..] == t[1..] + rest && current + t == current + [t[0]] + t[1..];
      WordsRead(t[1..], rest, current + [t[0]]);
    }
  }

  lemma {:induction false} JoinedWordsReturn(parts: seq<string>)
    requires forall i :: 0 <= i < |parts| ==> Word(parts[i])
    ensures Words(Join(parts), []) == parts
  {
    if parts != [] {
      var t := parts[0];
      assert [] + t == t;
      if |parts| == 1 {
        WordsRead(t, [], []);
        assert t + [] == t;
      } else {
        JoinedWordsReturn(parts[1..]);
        assert Join(parts) == t + (" " + Join(parts[1..]));
        WordsRead(t, " " + Join(parts[1..]), []);
      }
    }
  }

  function Selector(parts: seq<string>): string { "(" + Join(parts) + ")" }

  /** A selector's normal form does not depend on the order of the rules inside it. */
  lemma SelectorOrderIrrelevant(a: seq<string>, b: seq<string>)
    requires multiset(a) == multiset(b) && forall i :: 0 <= i < |a| ==> Word(a[i])
    ensures NormalizeAclRule(Selector(a)) == NormalizeAclRule(Selector(b))
  {
    forall i | 0 <= i < |b| ensures Word(b[i]) {
      assert b[i] in multiset(a);
      assert b[i] in a;
    }
    assert Selector(a)[1..|Selector(a)| - 1] == Join(a) && Selector(b)[1..|Selector(b)| - 1] == Join(b);
    JoinedWordsReturn(a);
    JoinedWordsReturn(b);
    SortIgnoresOrder(a, b);
  }

  /** Reordering the rules inside one selector of a user leaves the user's digest unchanged. */
  lemma SelectorRulesIrrelevant(h: Hash, username: string, before: seq<string>, after: seq<string>, a: seq<string>,
                                b: seq<string>)
    requires multiset(a) == multiset(b) && forall i :: 0 <= i < |a| ==> Word(a[i])
    ensures UserDigest(h, username, before + [Selector(a)] + after)
            == UserDigest(h, username, before + [Selector(b)] + after)
  {
    SelectorOrderIrrelevant(a, b);
    MapRulesMiddle(before, Selector(a), after);
    MapRulesMiddle(before, Selector(b), after);
  }

  // ---------------------------------------------------------------- node digests

  datatype Entry = Entry(username: string, digest: Digest)

  /** The users of a reply with their digests, in line order; lines that do not parse are skipped. */
  function Entries(h: Hash, lines: seq<string>): seq<Entry> {
    if lines == [] then []
    else
      var rest := Entries(h, lines[1..]);
      var user := ParseAclLine(lines[0]);
      if user.None? then rest
      else [Entry(user.value.username, UserDigest(h, user.value.username, user.value.rules))] + rest
  }

  function XorAll(entries: seq<Entry>): Digest {
    if entries == [] then EMPTY_DIGEST else Xor(entries[0].digest, XorAll(entries[1..]))
  }

  /** The one key a plain object does not take: assigning a text to it is silently ignored. */
  const PROTO := "__proto__"

  /** The record of user digests: the last line of a user wins, and a user of that name is not recorded. */
  function Digests(entries: seq<Entry>): map<string, Digest> {
    if entries == [] then map[]
    else
      var init, last := Digests(entries[..|entries| - 1]), entries[|entries| - 1];
      if last.username == PROTO then init else init[last.username := last.digest]
  }

  lemma XorZero(a: Digest)
    ensures Xor(a, EMPTY_DIGEST) == a && Xor(EMPTY_DIGEST, a) == a
  {}

  lemma {:induction false} XorConcat(a: seq<Entry>, b: seq<Entry>)
    ensures XorAll(a + b) == Xor(XorAll(a), XorAll(b))
  {
    if a == [] {
      assert a + b == b;
      XorZero(XorAll(b));
    } else {
      assert (a + b)[1..] == a[1..] + b;
      XorConcat(a[1..], b);
    }
  }

  lemma {:induction false} EntriesConcat(h: Hash, a: seq<string>, b: seq<string>)
    ensures Entries(h, a + b) == Entries(h, a) + Entries(h, b)
  {
    if a == [] {
      assert a + b == b;
    } else {
      assert (a + b)[1..] == a[1..] + b;
      EntriesConcat(h, a[1..], b);
    }
  }

  method NodeAclDigest(h: Hash, lines: seq<string>) returns (digest: Digest, userDigests: map<string, Digest>)
    ensures digest == XorAll(Entries(h, lines)) && userDigests == Digests(Entries(h, lines))
  {
    digest, userDigests := EMPTY_DIGEST, map[];
    var i := 0;
    while i < |lines|
      invariant 0 <= i <= |lines|
      invariant digest == XorAll(Entries(h, lines[..i])) && userDigests == Digests(Entries(h, lines[..i]))
    {
      ghost var done := Entries(h, lines[..i]);
      assert lines[..i + 1] == lines[..i] + [lines[i]] && [lines[i]][1..] == [];
      EntriesConcat(h, lines[..i], [lines[i]]);
      var user := ParseAclLine(lines[i]);
      if user.Some? {
        var d := UserDigest(h, user.value.username, user.value.rules);
        if user.value.username != PROTO {
          userDigests := userDigests[user.value.username := d];
        }
        ghost var e := Entry(user.value.username, d);
        assert Entries(h, lines[..i + 1]) == done + [e];
        FoldOne(done, e);
        digest := XorBytes(digest, d);
      } else {
        assert Entries(h, lines[..i + 1]) == done;
      }
      i := i + 1;
    }
    assert lines[..i] == lines;
  }

  lemma FoldOne(done: seq<Entry>, e: Entry)
    ensures XorAll(done + [e]) == Xor(XorAll(done), e.digest)
    ensures Digests(done + [e]) == if e.username == PROTO then Digests(done) else Digests(done)[e.username := e.digest]
  {
    XorConcat(done, [e]);
    assert [e][1..] == [];
    XorZero(e.digest);
  }

  // ---------------------------------------------------------------- rule order in the text of a reply

  /** What a list of lines yields: the node digest and the record of user digests. */
  ghost predicate SameDigests(h: Hash, a: seq<string>, b: seq<string>) {
    XorAll(Entries(h, a)) == XorAll(Entries(h, b)) && Digests(Entries(h, a)) == Digests(Entries(h, b))
  }

  lemma LineSwap(h: Hash, before: seq<string>, la: string, lb: string, after: seq<string>)
    requires Entries(h, [la]) == Entries(h, [lb])
    ensures SameDigests(h, before + [la] + after, before + [lb] + after)
  {
    EntriesConcat(h, before + [la], after);
    EntriesConcat(h, before, [la]);
    EntriesConcat(h, before + [lb], after);
    EntriesConcat(h, before, [lb]);
  }

  /** Two lines whose tokens after `user <name>` are permutations of each other leave the digests of a reply equal. */
  lemma TokenOrderIrrelevant(h: Hash, before: seq<string>, la: string, lb: string, after: seq<string>)
    requires |Tokenize(la)| >= 2 && |Tokenize(lb)| >= 2 && Tokenize(la)[..2] == Tokenize(lb)[..2]
    requires multiset(Tokenize(la)[2..]) == multiset(Tokenize(lb)[2..])
    ensures SameDigests(h, before + [la] + after, before + [lb] + after)
  {
    var ta, tb := Tokenize(la), Tokenize(lb);
    assert ta[0] == ta[..2][0] && ta[1] == ta[..2][1] && tb[0] == tb[..2][0] && tb[1] == tb[..2][1];
    RuleOrderIrrelevant(h, ta[1], ta[2..], tb[2..]);
    assert [la][1..] == [] && [lb][1..] == [];
    LineSwap(h, before, la, lb, after);
  }

  /** A token that can stand anywhere in a line: not empty, unbroken, its parentheses closed. */
  predicate Closed(t: string) { t != [] && Unbroken(t, 0) && DepthAfter(t, 0) == 0 }

  ghost predicate AllClosed(tokens: seq<string>) { forall t :: t in tokens ==> Closed(t) }

  /** The line of a user in an ACL LIST reply. */
  function UserLine(username: string, rules: seq<string>): string { Join(["user", username] + rules) }

  lemma {:induction false} ClosedTokens(tokens: seq<string>)
    requires AllClosed(tokens)
    ensures TokenList(tokens)
  {
    if tokens != [] {
      assert tokens[0] in tokens;
      ClosedTokens(tokens[1..]);
    }
  }

  lemma LineTokens(username: string, rules: seq<string>)
    requires Closed(username) && AllClosed(rules)
    ensures Tokenize(UserLine(username, rules)) == ["user", username] + rules
  {
    var tokens := ["user", username] + rules;
    PlainToken("user");
    ClosedTokens(tokens);
    JoinedTokensReturn(tokens);
  }

  /** Text without parentheses and white space is a token. */
  lemma {:induction false} PlainToken(t: string)
    requires forall i :: 0 <= i < |t| ==> t[i] != '(' && t[i] != ')' && !IsSpace(t[i])
    ensures Unbroken(t, 0) && DepthAfter(t, 0) == 0
    decreases |t|
  {
    if t != [] {
      PlainToken(t[1..]);
    }
  }

  /** Reordering a user's rules in the text of an ACL LIST reply changes neither the node digest nor the record. */
  lemma NodeIgnoresRuleOrder(h: Hash, before: seq<string>, username: string, a: seq<string>, b: seq<string>,
                             after: seq<string>)
    requires Closed(username) && AllClosed(a) && multiset(a) == multiset(b)
    ensures SameDigests(h, before + [UserLine(username, a)] + after, before + [UserLine(username, b)] + after)
  {
    forall t | t in b ensures Closed(t) {
      assert t in multiset(b) && t in multiset(a);
    }
    LineTokens(username, a);
    LineTokens(username, b);
    assert (["user", username] + a)[2..] == a && (["user", username] + b)[2..] == b;
    assert (["user", username] + a)[..2] == (["user", username] + b)[..2];
    TokenOrderIrrelevant(h, before, UserLine(username, a), UserLine(username, b), after);
  }

  /** So does reordering the rules inside one of a user's selectors. */
  lemma NodeIgnoresSelectorOrder(h: Hash, before: seq<string>, username: string, left: seq<string>, a: seq<string>,
                                 b: seq<string>, right: seq<string>, after: seq<string>)
    requires Closed(username) && AllClosed(left) && AllClosed(right) && multiset(a) == multiset(b)
    requires Closed(Selector(a)) && Closed(Selector(b)) && forall t :: t in a ==> Word(t)
    ensures SameDigests(h, before + [UserLine(username, left + [Selector(a)] + right)] + after,
                        before + [UserLine(username, left + [Selector(b)] + right)] + after)
  {
    var ra, rb := left + [Selector(a)] + right, left + [Selector(b)] + right;
    LineTokens(username, ra);
    LineTokens(username, rb);
    assert (["user", username] + ra)[2..] == ra && (["user", username] + rb)[2..] == rb;
    SelectorRulesIrrelevant(h, username, left, right, a, b);
    assert [UserLine(username, ra)][1..] == [] && [UserLine(username, rb)][1..] == [];
    LineSwap(h, before, UserLine(username, ra), UserLine(username, rb), after);
  }

  // ---------------------------------------------------------------- line order

  lemma {:induction false} XorMiddle(left: seq<Entry>, x: Entry, right: seq<Entry>)
    ensures XorAll(left + [x] + right) == Xor(x.digest, XorAll(left + right))
  {
    if left == [] {
      assert left + [x] + right == [x] + right && left + right == right;
    } else {
      assert (left + [x] + right)[1..] == left[1..] + [x] + right && (left + right)[1..] == left[1..] + right;
      XorMiddle(left[1..], x, right);
    }
  }

  lemma {:induction false} XorPermutes(a: seq<Entry>, b: seq<Entry>)
    requires multiset(a) == multiset(b)
    ensures XorAll(a) == XorAll(b)
  {
    SameSize(a, b);
    if a != [] {
      var left, right := MatchHead(a, b);
      XorPermutes(a[1..], left + right);
      XorMiddle(left, a[0], right);
    }
  }

  lemma {:induction false} EntriesPermute(h: Hash, a: seq<string>, b: seq<string>)
    requires multiset(a) == multiset(b)
    ensures multiset(Entries(h, a)) == multiset(Entries(h, b))
  {
    SameSize(a, b);
    if a != [] {
      var left, right := MatchHead(a, b);
      EntriesPermute(h, a[1..], left + right);
      EntriesConcat(h, left, right);
      EntriesConcat(h, left + [a[0]], right);
      EntriesConcat(h, left, [a[0]]);
      EntriesConcat(h, [a[0]], a[1..]);
      assert [a[0]] + a[1..] == a;
    }
  }

  ghost predicate DistinctNames(entries: seq<Entry>) {
    forall i, j :: 0 <= i < j < |entries| ==> entries[i].username != entries[j].username
  }

  lemma {:induction false} DigestsHold(entries: seq<Entry>)
    requires DistinctNames(entries)
    ensures forall e: Entry :: e in entries && e.username != PROTO
                               <==> e.username in Digests(entries) && Digests(entries)[e.username] == e.digest
  {
    if entries != [] {
      var init, last := entries[..|entries| - 1], entries[|entries| - 1];
      DigestsHold(init);
      assert entries == init + [last];
      forall e: Entry ensures e in entries && e.username != PROTO
                              <==> e.username in Digests(entries) && Digests(entries)[e.username] == e.digest {
        if e in init {
          assert e.username != last.username;
        }
        assert e in entries <==> e in init || e == last;
      }
    }
  }

  lemma {:induction false} DistinctOnce(entries: seq<Entry>, e: Entry)
    requires DistinctNames(entries)
    ensures multiset(entries)[e] == if e in entries then 1 else 0
  {
    if entries != [] {
      DistinctOnce(entries[1..], e);
      assert entries == [entries[0]] + entries[1..];
      if entries[0] == e {
        assert e !in entries[1..];
      }
    }
  }

  /** Every user has one line, and none is called `__proto__`. */
  ghost predicate Recordable(entries: seq<Entry>) {
    DistinctNames(entries) && forall i :: 0 <= i < |entries| ==> entries[i].username != PROTO
  }

  /** Such lists with the same digest per user have the same entries. */
  lemma DigestsDetermineEntries(a: seq<Entry>, b: seq<Entry>)
    requires Recordable(a) && Recordable(b) && Digests(a) == Digests(b)
    ensures multiset(a) == multiset(b)
  {
    DigestsHold(a);
    DigestsHold(b);
    forall e: Entry ensures multiset(a)[e] == multiset(b)[e] {
      DistinctOnce(a, e);
      DistinctOnce(b, e);
    }
  }

  /** The node digest ignores the order of the lines; so do the user digests when usernames are distinct. */
  lemma LineOrderIrrelevant(h: Hash, a: seq<string>, b: seq<string>)
    requires multiset(a) == multiset(b)
    ensures XorAll(Entries(h, a)) == XorAll(Entries(h, b))
    ensures DistinctNames(Entries(h, a)) && DistinctNames(Entries(h, b))
            ==> Digests(Entries(h, a)) == Digests(Entries(h, b))
  {
    EntriesPermute(h, a, b);
    var ea, eb := Entries(h, a), Entries(h, b);
    XorPermutes(ea, eb);
    if DistinctNames(ea) && DistinctNames(eb) {
      DigestsHold(ea);
      DigestsHold(eb);
      DigestsAreEqual(ea, eb);
    }
  }

  lemma DigestsAreEqual(a: seq<Entry>, b: seq<Entry>)
    requires DistinctNames(a) && DistinctNames(b) && multiset(a) == multiset(b)
    ensures Digests(a) == Digests(b)
  {
    DigestsHold(a);
    DigestsHold(b);
    forall e: Entry ensures e in a <==> e in b {
      assert e in a <==> e in multiset(a);
      assert e in b <==> e in multiset(b);
    }
    forall u ensures u in Digests(a) <==> u in Digests(b)
             ensures u in Digests(a) && u in Digests(b) ==> Digests(a)[u] == Digests(b)[u] {
      if u in Digests(a) {
        assert Entry(u, Digests(a)[u]) in a;
      }
      if u in Digests(b) {
        assert Entry(u, Digests(b)[u]) in b;
      }
    }
  }

  // ---------------------------------------------------------------- what a digest difference means

  predicate Lists(entries: seq<Entry>, u: string) {
    entries != [] && (entries[0].username == u || Lists(entries[1..], u))
  }

  /** The first entry of a list leaves no trace in the record: a later line replaces it, or its name is not taken. */
  predicate Covered(entries: seq<Entry>)
    requires entries != []
  {
    entries[0].username == PROTO || Lists(entries[1..], entries[0].username)
  }

  /** The entries the record shows, and those it does not show although they are part of the node digest. */
  function Shown(entries: seq<Entry>): seq<Entry> {
    if entries == [] then []
    else if Covered(entries) then Shown(entries[1..])
    else [entries[0]] + Shown(entries[1..])
  }

  function Hidden(entries: seq<Entry>): seq<Entry> {
    if entries == [] then []
    else if Covered(entries) then [entries[0]] + Hidden(entries[1..])
    else Hidden(entries[1..])
  }

  lemma XorSwap(a: Digest, b: Digest, c: Digest)
    ensures Xor(a, Xor(b, c)) == Xor(Xor(a, b), c) && Xor(a, Xor(b, c)) == Xor(b, Xor(a, c))
  {}

  lemma {:induction false} XorOfShownAndHidden(entries: seq<Entry>)
    ensures XorAll(entries) == Xor(XorAll(Shown(entries)), XorAll(Hidden(entries)))
  {
    if entries == [] {
      XorZero(EMPTY_DIGEST);
    } else {
      var shown, hidden := XorAll(Shown(entries[1..])), XorAll(Hidden(entries[1..]));
      XorOfShownAndHidden(entries[1..]);
      XorSwap(entries[0].digest, shown, hidden);
      assert Covered(entries) ==> Hidden(entries)[1..] == Hidden(entries[1..]);
      assert !Covered(entries) ==> Shown(entries)[1..] == Shown(entries[1..]);
    }
  }

  lemma {:induction false} ListsIff(entries: seq<Entry>, u: string)
    ensures Lists(entries, u) <==> exists i :: 0 <= i < |entries| && entries[i].username == u
  {
    if entries != [] {
      ListsIff(entries[1..], u);
      if i :| 0 <= i < |entries| && entries[i].username == u {
        assert i > 0 ==> entries[1..][i - 1].username == u;
      }
      if j :| 0 <= j < |entries[1..]| && entries[1..][j].username == u {
        assert entries[j + 1].username == u;
      }
    }
  }

  lemma {:induction false} ShownRecordable(entries: seq<Entry>)
    ensures Recordable(Shown(entries))
    ensures forall u :: Lists(Shown(entries), u) ==> Lists(entries, u)
  {
    if entries != [] {
      ShownRecordable(entries[1..]);
      if !Covered(entries) {
        var rest := Shown(entries[1..]);
        assert Shown(entries)[1..] == rest;
        forall j | 0 <= j < |rest| ensures rest[j].username != entries[0].username {
          ListsIff(rest, rest[j].username);
          assert Lists(entries[1..], rest[j].username);
        }
      }
    }
  }

  lemma {:induction false} ListsSnoc(entries: seq<Entry>, e: Entry, u: string)
    ensures Lists(entries + [e], u) <==> Lists(entries, u) || u == e.username
  {
    if entries == [] {
      assert [] + [e] == [e] && [e][1..] == [];
    } else {
      assert (entries + [e])[1..] == entries[1..] + [e];
      ListsSnoc(entries[1..], e, u);
    }
  }

  lemma {:induction false} RecordedIff(entries: seq<Entry>, u: string)
    ensures u in Digests(entries) <==> u != PROTO && Lists(entries, u)
    decreases |entries|
  {
    if entries != [] {
      var init, last := entries[..|entries| - 1], entries[|entries| - 1];
      RecordedIff(init, u);
      ListsSnoc(init, last, u);
      assert init + [last] == entries;
    }
  }

  lemma {:induction false} DigestsCons(e: Entry, rest: seq<Entry>)
    ensures Digests([e] + rest)
         == if Covered([e] + rest) then Digests(rest) else Digests(rest)[e.username := e.digest]
    decreases |rest|
  {
    assert ([e] + rest)[1..] == rest;
    if rest == [] {
      assert [e] + rest == [e] && [e][..0] == [];
    } else {
      var init, last := rest[..|rest| - 1], rest[|rest| - 1];
      assert rest == init + [last] && ([e] + rest)[..|rest|] == [e] + init && ([e] + init)[1..] == init;
      DigestsCons(e, init);
      ListsSnoc(init, last, e.username);
      RecordedIff(init, e.username);
    }
  }

  lemma {:induction false} RecordShowsShown(entries: seq<Entry>)
    ensures Digests(Shown(entries)) == Digests(entries)
  {
    if entries != [] {
      RecordShowsShown(entries[1..]);
      assert entries == [entries[0]] + entries[1..];
      DigestsCons(entries[0], entries[1..]);
      if !Covered(entries) {
        ShownRecordable(entries);
        DigestsCons(entries[0], Shown(entries[1..]));
        assert Shown(entries)[1..] == Shown(entries[1..]);
        ShownRecordable(entries[1..]);
        assert !Covered(Shown(entries));
      }
    }
  }

  /**
   Equal user digests force equal node digests exactly as far as the lines agree that the record does not show: all
   but the last line of a repeated user, and every line of a user called `__proto__`.
   */
  lemma NodeDigestsAgreeIff(a: seq<Entry>, b: seq<Entry>)
    requires Digests(a) == Digests(b)
    ensures XorAll(a) == XorAll(b) <==> XorAll(Hidden(a)) == XorAll(Hidden(b))
  {
    ShownRecordable(a);
    ShownRecordable(b);
    RecordShowsShown(a);
    RecordShowsShown(b);
    DigestsDetermineEntries(Shown(a), Shown(b));
    XorPermutes(Shown(a), Shown(b));
    XorOfShownAndHidden(a);
    XorOfShownAndHidden(b);
    XorCancels(XorAll(Shown(a)), XorAll(Hidden(a)), XorAll(Hidden(b)));
  }

  lemma XorCancels(a: Digest, b: Digest, c: Digest)
    ensures Xor(a, b) == Xor(a, c) <==> b == c
  {
    XorSwap(a, a, b);
    XorSwap(a, a, c);
    XorSelf(a);
    XorZero(b);
    XorZero(c);
  }

  lemma {:induction false} RecordableHidesNothing(entries: seq<Entry>)
    requires Recordable(entries)
    ensures Hidden(entries) == []
  {
    if entries != [] {
      RecordableHidesNothing(entries[1..]);
      ListsIff(entries[1..], entries[0].username);
    }
  }

  /** When every user has one line and none is called `__proto__`, equal user digests force equal node digests. */
  lemma UserDigestsForceNodeDigest(a: seq<Entry>, b: seq<Entry>)
    requires Recordable(a) && Recordable(b) && Digests(a) == Digests(b)
    ensures XorAll(a) == XorAll(b)
  {
    RecordableHidesNothing(a);
    RecordableHidesNothing(b);
    NodeDigestsAgreeIff(a, b);
  }

  function Rest(entries: seq<Entry>, u: string): seq<Entry> {
    if entries == [] then []
    else if entries[0].username == u then Rest(entries[1..], u)
    else [entries[0]] + Rest(entries[1..], u)
  }

  /** The digest of one user in a list, zero when absent. */
  function Share(entries: seq<Entry>, u: string): Digest {
    if entries == [] then EMPTY_DIGEST else if entries[0].username == u then entries[0].digest
      else Share(entries[1..], u)
  }

  lemma {:induction false} RestHolds(entries: seq<Entry>, u: string)
    ensures forall e: Entry :: e in Rest(entries, u) <==> e in entries && e.username != u
    ensures DistinctNames(entries) ==> DistinctNames(Rest(entries, u))
  {
    if entries != [] {
      RestHolds(entries[1..], u);
      if DistinctNames(entries) && entries[0].username != u {
        var rest := Rest(entries[1..], u);
        forall j | 0 <= j < |rest| ensures rest[j].username != entries[0].username {
          assert rest[j] in entries[1..];
        }
      }
    }
  }

  lemma {:induction false} RestSame(entries: seq<Entry>, u: string)
    requires forall i :: 0 <= i < |entries| ==> entries[i].username != u
    ensures Rest(entries, u) == entries
  {
    if entries != [] {
      RestSame(entries[1..], u);
    }
  }

  lemma {:induction false} XorSplits(entries: seq<Entry>, u: string)
    requires DistinctNames(entries)
    ensures XorAll(entries) == Xor(Share(entries, u), XorAll(Rest(entries, u)))
  {
    if entries == [] {
      XorZero(EMPTY_DIGEST);
    } else if entries[0].username == u {
      RestSame(entries[1..], u);
    } else {
      XorSplits(entries[1..], u);
      assert Rest(entries, u)[1..] == Rest(entries[1..], u);
    }
  }

  /**
   Drift in a single user is never masked: when two nodes with distinct usernames agree on every other user, their
   node digests are equal exactly when that user's digests are (an absent user counting as zero).
   */
  lemma SingleUserDriftShows(a: seq<Entry>, b: seq<Entry>, u: string)
    requires DistinctNames(a) && DistinctNames(b)
    requires forall e: Entry :: e.username != u ==> (e in a <==> e in b)
    ensures XorAll(a) == XorAll(b) <==> Share(a, u) == Share(b, u)
  {
    XorSplits(a, u);
    XorSplits(b, u);
    RestsAgree(a, b, u);
  }

  lemma RestsAgree(a: seq<Entry>, b: seq<Entry>, u: string)
    requires DistinctNames(a) && DistinctNames(b)
    requires forall e: Entry :: e.username != u ==> (e in a <==> e in b)
    ensures XorAll(Rest(a, u)) == XorAll(Rest(b, u))
  {
    RestHolds(a, u);
    RestHolds(b, u);
    SameEntries(Rest(a, u), Rest(b, u));
    XorPermutes(Rest(a, u), Rest(b, u));
  }

  lemma SameEntries(a: seq<Entry>, b: seq<Entry>)
    requires DistinctNames(a) && DistinctNames(b) && forall e: Entry :: e in a <==> e in b
    ensures multiset(a) == multiset(b)
  {
    forall e: Entry ensures multiset(a)[e] == multiset(b)[e] {
      DistinctOnce(a, e);
      DistinctOnce(b, e);
    }
  }

  /** Without distinct usernames the node digests can differ although every user digest agrees. */
  lemma RepeatedUserHidesDrift(e: Entry)
    requires e.digest != EMPTY_DIGEST && e.username != PROTO
    ensures Digests([e]) == Digests([e, e]) && XorAll([e]) != XorAll([e, e])
  {
    assert [e, e][..1] == [e] && [e, e][1..] == [e] && [e][1..] == [] && [e][..0] == [];
    XorZero(e.digest);
    XorSelf(e.digest);
  }

  /** With distinct usernames they can differ too, if one is `__proto__`. */
  lemma UnrecordedUserHidesDrift(e: Entry)
    requires e.digest != EMPTY_DIGEST && e.username == PROTO
    ensures DistinctNames([e]) && Digests([e]) == Digests([]) && XorAll([e]) != XorAll([])
  {
    assert [e][..0] == [] && [e][1..] == [];
    XorZero(e.digest);
  }

  lemma XorSelf(a: Digest)
    ensures Xor(a, a) == EMPTY_DIGEST
  {}
}

/** What an ACL digest keeps: the user, and the grant its rules amount to. */
module AclGrants {
  // A grant is a bag: plain rules as they are, a selector as the bag of the words inside it. Two users hash the same
  // text exactly when they are the same user with the same grant, provided no rule falls apart when its words are
  // sorted.

  import opened Prelude
  import opened Sorting
  import opened Strings
  import opened AclDigest
  import opened AclDrift

  datatype Grant = Plain(rule: string) | Choice(words: multiset<string>)

  predicate IsSelector(rule: string) { |rule| >= 2 && rule[0] == '(' && rule[|rule| - 1] == ')' }

  function Inside(rule: string): string
    requires |rule| >= 2
  {
    rule[1..|rule| - 1]
  }

  ghost function Meaning(rule: string): Grant {
    if IsSelector(rule) then Choice(multiset(Words(Inside(rule), []))) else Plain(rule)
  }

  ghost function Granted(rules: seq<string>): multiset<Grant> {
    if rules == [] then multiset{} else multiset{Meaning(rules[0])} + Granted(rules[1..])
  }

  // ---------------------------------------------------------------- normal forms and meanings

  lemma {:induction false} WordsAreWords(rest: string, current: string)
    requires forall i :: 0 <= i < |current| ==> !IsSpace(current[i])
    ensures forall i :: 0 <= i < |Words(rest, current)| ==> Word(Words(rest, current)[i])
    decreases |rest|
  {
    if rest != [] {
      if IsSpace(rest[0]) {
        WordsAreWords(rest[1..], []);
      } else {
        WordsAreWords(rest[1..], current + [rest[0]]);
      }
    }
  }

  lemma SortedWords(words: seq<string>)
    requires forall i :: 0 <= i < |words| ==> Word(words[i])
    ensures Words(Join(Sort(words, AtMost)), []) == Sort(words, AtMost)
    ensures multiset(Sort(words, AtMost)) == multiset(words)
  {
    var sorted := Sort(words, AtMost);
    SortPermutes(words, AtMost);
    forall i | 0 <= i < |sorted| ensures Word(sorted[i]) {
      assert sorted[i] in multiset(sorted);
      assert sorted[i] in words;
    }
    JoinedWordsReturn(sorted);
  }

  lemma NormalFormMeans(rule: string)
    ensures Meaning(NormalizeAclRule(rule)) == Meaning(rule)
  {
    if IsSelector(rule) {
      var words := Words(Inside(rule), []);
      WordsAreWords(Inside(rule), []);
      SortedWords(words);
      var normal := NormalizeAclRule(rule);
      assert normal == "(" + Join(Sort(words, AtMost)) + ")";
      assert Inside(normal) == Join(Sort(words, AtMost));
    }
  }

  lemma SameMeaningSameForm(a: string, b: string)
    requires Meaning(a) == Meaning(b)
    ensures NormalizeAclRule(a) == NormalizeAclRule(b)
  {
    if IsSelector(a) {
      SortIgnoresOrder(Words(Inside(a), []), Words(Inside(b), []));
    }
  }

  lemma {:induction false} NormalFormsGrant(rules: seq<string>)
    ensures Granted(MapRules(rules)) == Granted(rules)
  {
    if rules != [] {
      NormalFormMeans(rules[0]);
      NormalFormsGrant(rules[1..]);
      assert MapRules(rules)[1..] == MapRules(rules[1..]);
    }
  }

  lemma {:induction false} GrantedMiddle(left: seq<string>, x: string, right: seq<string>)
    ensures Granted(left + [x] + right) == Granted(left + right) + multiset{Meaning(x)}
  {
    if left == [] {
      assert left + [x] + right == [x] + right && ([x] + right)[1..] == right && left + right == right;
    } else {
      assert (left + [x] + right)[1..] == left[1..] + [x] + right && (left + right)[1..] == left[1..] + right;
      GrantedMiddle(left[1..], x, right);
    }
  }

  lemma {:induction false} GrantedPermutes(a: seq<string>, b: seq<string>)
    requires multiset(a) == multiset(b)
    ensures Granted(a) == Granted(b)
  {
    SameSize(a, b);
    if a != [] {
      var left, right := MatchHead(a, b);
      GrantedPermutes(a[1..], left + right);
      GrantedMiddle(left, a[0], right);
    }
  }

  lemma {:induction false} GrantedBy(rules: seq<string>, g: Grant) returns (i: nat)
    requires g in Granted(rules)
    ensures i < |rules| && Meaning(rules[i]) == g
  {
    if Meaning(rules[0]) == g {
      i := 0;
    } else {
      i := GrantedBy(rules[1..], g);
      i := i + 1;
    }
  }

  lemma TakeGrant(rules: seq<string>, g: Grant) returns (left: seq<string>, x: string, right: seq<string>)
    requires g in Granted(rules)
    ensures rules == left + [x] + right && Meaning(x) == g
    ensures Granted(left + right) == Granted(rules) - multiset{g}
  {
    var i := GrantedBy(rules, g);
    left, x, right := rules[..i], rules[i], rules[i + 1..];
    assert rules == left + [x] + right;
    GrantedMiddle(left, x, right);
  }

  lemma NothingGranted(rules: seq<string>)
    ensures Granted(rules) == multiset{} ==> rules == []
  {
    if rules != [] {
      assert Meaning(rules[0]) in Granted(rules);
    }
  }

  /** Rules with the same grant have the same normal forms. */
  lemma {:induction false} GrantFixesForms(a: seq<string>, b: seq<string>)
    requires Granted(a) == Granted(b)
    ensures multiset(MapRules(a)) == multiset(MapRules(b))
  {
    hide Meaning, NormalizeAclRule;
    if a == [] {
      NothingGranted(b);
    } else {
      assert Meaning(a[0]) in Granted(b);
      var left, x, right := TakeGrant(b, Meaning(a[0]));
      GrantFixesForms(a[1..], left + right);
      SameMeaningSameForm(a[0], x);
      MapRulesMiddle(left, x, right);
      MapRulesConcat(left, right);
    }
  }

  // ---------------------------------------------------------------- the hashed text

  /** The rule is still one token when the words of a selector are sorted. */
  predicate Canonical(rule: string) { Closed(NormalizeAclRule(rule)) }

  ghost predicate AllCanonical(rules: seq<string>) { forall r :: r in rules ==> Canonical(r) }

  function UserText(username: string, rules: seq<string>): string {
    username + "\n" + Join(Sort(MapRules(rules), AtMost))
  }

  lemma {:induction false} RestUnbroken(t: string, rest: string, depth: nat)
    requires Unbroken(t + rest, depth)
    ensures Unbroken(rest, DepthAfter(t, depth))
    decreases |t|
  {
    if t == [] {
      assert t + rest == rest;
    } else {
      assert (t + rest)[1..] == t[1..] + rest;
      RestUnbroken(t[1..], rest, Deepen(t[0], depth));
    }
  }

  /** A name that is a token ends at the first line break outside parentheses. */
  lemma NamesEndAlike(u: string, v: string, a: string, b: string)
    requires Closed(u) && Closed(v) && u + "\n" + a == v + "\n" + b
    ensures |v| <= |u|
  {
    if |u| < |v| {
      var rest := v[|u|..];
      assert u == (u + "\n" + a)[..|u|] == (v + "\n" + b)[..|u|] == v[..|u|];
      assert v == u + rest;
      assert rest[0] == (v + "\n" + b)[|u|] == (u + "\n" + a)[|u|] == '\n';
      RestUnbroken(u, rest, 0);
    }
  }

  lemma SplitText(u: string, v: string, a: string, b: string)
    requires Closed(u) && Closed(v) && u + "\n" + a == v + "\n" + b
    ensures u == v && a == b
  {
    NamesEndAlike(u, v, a, b);
    NamesEndAlike(v, u, b, a);
    var text := u + "\n" + a;
    assert u == text[..|u|] == v;
    assert a == text[|u| + 1..] == b;
  }

  lemma {:induction false} FormsClosed(rules: seq<string>)
    requires AllCanonical(rules)
    ensures AllClosed(MapRules(rules))
  {
    if rules != [] {
      assert rules[0] in rules;
      FormsClosed(rules[1..]);
    }
  }

  /** The joined normal forms can be told apart again. */
  lemma SortedFormsReturn(rules: seq<string>)
    requires AllCanonical(rules)
    ensures Tokenize(Join(Sort(MapRules(rules), AtMost))) == Sort(MapRules(rules), AtMost)
  {
    var forms, sorted := MapRules(rules), Sort(MapRules(rules), AtMost);
    FormsClosed(rules);
    SortPermutes(forms, AtMost);
    SameMembers(sorted, forms);
    ClosedTokens(sorted);
    JoinedTokensReturn(sorted);
  }

  /** The hashed text is the same exactly for the same user with the same grant. */
  lemma UserTextIff(u: string, a: seq<string>, v: string, b: seq<string>)
    requires Closed(u) && Closed(v) && AllCanonical(a) && AllCanonical(b)
    ensures UserText(u, a) == UserText(v, b) <==> u == v && Granted(a) == Granted(b)
  {
    if UserText(u, a) == UserText(v, b) {
      SplitText(u, v, Join(Sort(MapRules(a), AtMost)), Join(Sort(MapRules(b), AtMost)));
      SortedFormsReturn(a);
      SortedFormsReturn(b);
      SortPermutes(MapRules(a), AtMost);
      SortPermutes(MapRules(b), AtMost);
      GrantedPermutes(MapRules(a), MapRules(b));
      NormalFormsGrant(a);
      NormalFormsGrant(b);
    } else if u == v && Granted(a) == Granted(b) {
      GrantFixesForms(a, b);
      SortIgnoresOrder(MapRules(a), MapRules(b));
    }
  }

  /** The hash gives these two texts different digests if they differ. */
  ghost predicate Separates(h: Hash, x: string, y: string) { h(x) == h(y) ==> x == y }

  /** Under a hash without a collision on their texts, two users' digests agree exactly for one user with one grant. */
  lemma UserDigestsAgreeIff(h: Hash, u: string, a: seq<string>, v: string, b: seq<string>)
    requires Closed(u) && Closed(v) && AllCanonical(a) && AllCanonical(b)
    requires Separates(h, UserText(u, a), UserText(v, b))
    ensures UserDigest(h, u, a) == UserDigest(h, v, b) <==> u == v && Granted(a) == Granted(b)
  {
    UserTextIff(u, a, v, b);
  }

  lemma EveryHashAgreesIff(u: string, a: seq<string>, v: string, b: seq<string>)
    requires Closed(u) && Closed(v) && AllCanonical(a) && AllCanonical(b)
    ensures (forall h: Hash :: UserDigest(h, u, a) == UserDigest(h, v, b)) <==> u == v && Granted(a) == Granted(b)
  {
    UserTextIff(u, a, v, b);
    var text := UserText(u, a);
    var other: Digest := [1, 0, 0, 0, 0, 0, 0, 0];
    var h: Hash := (x: string) => if x == text then EMPTY_DIGEST else other;
    if forall h: Hash :: UserDigest(h, u, a) == UserDigest(h, v, b) {
      assert UserDigest(h, u, a) == UserDigest(h, v, b);
    }
  }

  // ---------------------------------------------------------------- which rules are canonical

  predicate NoParens(t: string) { forall i :: 0 <= i < |t| ==> t[i] != '(' && t[i] != ')' }

  /** A selector holds no parentheses inside; other rules are as they come. */
  predicate Flat(rule: string) { Closed(rule) && (IsSelector(rule) ==> NoParens(Inside(rule))) }

  lemma {:induction false} WordsWithoutParens(rest: string, current: string)
    requires NoParens(rest) && NoParens(current)
    ensures forall i :: 0 <= i < |Words(rest, current)| ==> NoParens(Words(rest, current)[i])
    decreases |rest|
  {
    if rest != [] {
      if IsSpace(rest[0]) {
        WordsWithoutParens(rest[1..], []);
      } else {
        WordsWithoutParens(rest[1..], current + [rest[0]]);
      }
    }
  }

  lemma {:induction false} JoinWithoutParens(parts: seq<string>)
    requires forall i :: 0 <= i < |parts| ==> NoParens(parts[i])
    ensures NoParens(Join(parts))
  {
    if |parts| > 1 {
      JoinWithoutParens(parts[1..]);
    }
  }

  /** Inside parentheses, text without any stays at its depth and is not broken by spaces. */
  lemma {:induction false} ReadInside(t: string, depth: nat)
    requires NoParens(t) && depth > 0
    ensures Unbroken(t, depth) && DepthAfter(t, depth) == depth
    decreases |t|
  {
    if t != [] {
      ReadInside(t[1..], depth);
    }
  }

  lemma WrappedIsClosed(t: string)
    requires NoParens(t)
    ensures Closed("(" + t + ")")
  {
    ReadInside(t, 1);
    ReadOne(t, ')', 1);
    assert ("(" + t + ")")[1..] == t + [')'];
  }

  lemma FlatIsCanonical(rule: string)
    requires Flat(rule)
    ensures Canonical(rule)
  {
    if IsSelector(rule) {
      var words := Words(Inside(rule), []);
      var sorted := Sort(words, AtMost);
      WordsWithoutParens(Inside(rule), []);
      SortPermutes(words, AtMost);
      SameMembers(sorted, words);
      forall i | 0 <= i < |sorted| ensures NoParens(sorted[i]) {
        assert sorted[i] in words;
      }
      JoinWithoutParens(sorted);
      WrappedIsClosed(Join(sorted));
    }
  }

  // ---------------------------------------------------------------- from one user to the node and the group

  lemma LineEntry(h: Hash, u: string, rules: seq<string>)
    requires Closed(u) && AllClosed(rules)
    ensures Entries(h, [UserLine(u, rules)]) == [Entry(u, UserDigest(h, u, rules))]
  {
    LineTokens(u, rules);
    assert (["user", u] + rules)[2..] == rules && [UserLine(u, rules)][1..] == [];
  }

  /** Two replies that differ in one user's line have equal node digests exactly if the two lines grant the same. */
  lemma NodeDigestsAgreeIffGrants(h: Hash, before: seq<string>, u: string, a: seq<string>, b: seq<string>,
                                  after: seq<string>)
    requires Closed(u) && AllClosed(a) && AllClosed(b) && AllCanonical(a) && AllCanonical(b)
    requires Separates(h, UserText(u, a), UserText(u, b))
    ensures var one, other := before + [UserLine(u, a)] + after, before + [UserLine(u, b)] + after;
            XorAll(Entries(h, one)) == XorAll(Entries(h, other)) <==> Granted(a) == Granted(b)
  {
    var x, y := Entry(u, UserDigest(h, u, a)), Entry(u, UserDigest(h, u, b));
    var left, right := Entries(h, before), Entries(h, after);
    LineEntry(h, u, a);
    LineEntry(h, u, b);
    EntriesConcat(h, before + [UserLine(u, a)], after);
    EntriesConcat(h, before, [UserLine(u, a)]);
    EntriesConcat(h, before + [UserLine(u, b)], after);
    EntriesConcat(h, before, [UserLine(u, b)]);
    XorMiddle(left, x, right);
    XorMiddle(left, y, right);
    XorCommutes(x.digest, XorAll(left + right));
    XorCommutes(y.digest, XorAll(left + right));
    XorCancels(XorAll(left + right), x.digest, y.digest);
    UserDigestsAgreeIff(h, u, a, u, b);
  }

  lemma XorCommutes(a: Digest, b: Digest)
    ensures Xor(a, b) == Xor(b, a)
  {
    XorSwap(a, b, EMPTY_DIGEST);
    XorZero(a);
    XorZero(b);
  }

  lemma {:induction false} LineRecorded(h: Hash, lines: seq<string>, u: string, rules: seq<string>)
    requires Closed(u) && AllClosed(rules) && UserLine(u, rules) in lines
    ensures Entry(u, UserDigest(h, u, rules)) in Entries(h, lines)
  {
    var line := UserLine(u, rules);
    var i :| 0 <= i < |lines| && lines[i] == line;
    assert lines == lines[..i] + [line] + lines[i + 1..];
    EntriesConcat(h, lines[..i] + [line], lines[i + 1..]);
    EntriesConcat(h, lines[..i], [line]);
    LineEntry(h, u, rules);
  }

  /**
   In a replication group, where every reply lists each user once and none called `__proto__`: a user with one line on
   each of two nodes has equal digests on them exactly if the two lines grant the same. If they do not, the user is
   among those a drift report of the group names.
   */
  lemma GrantDriftIsNamed(h: Hash, group: seq<DriftNode>, lists: seq<seq<string>>, i: nat, j: nat, u: string,
                          a: seq<string>, b: seq<string>, names: seq<string>)
    requires i < j < |group| && AllReadFrom(h, lists, group) && NamesExactly(names, group)
    requires Recordable(Entries(h, lists[i])) && Recordable(Entries(h, lists[j]))
    requires Closed(u) && AllClosed(a) && AllClosed(b) && AllCanonical(a) && AllCanonical(b)
    requires UserLine(u, a) in lists[i] && UserLine(u, b) in lists[j]
    requires Separates(h, UserText(u, a), UserText(u, b))
    ensures DigestOf(group[i], u) == DigestOf(group[j], u) <==> Granted(a) == Granted(b)
    ensures Granted(a) != Granted(b) ==> u in names
  {
    LineRecorded(h, lists[i], u, a);
    LineRecorded(h, lists[j], u, b);
    DigestsHold(Entries(h, lists[i]));
    DigestsHold(Entries(h, lists[j]));
    UserDigestsAgreeIff(h, u, a, u, b);
    var x, y := Entry(u, UserDigest(h, u, a)), Entry(u, UserDigest(h, u, b));
    assert x.username != PROTO && y.username != PROTO;
  }

  // ---------------------------------------------------------------- where the text is not enough

  lemma OneWordForm(t: string)
    requires Word(t)
    ensures NormalizeAclRule("(" + t + ")") == "(" + t + ")" && Meaning("(" + t + ")") == Choice(multiset{t})
  {
    JoinedWordsReturn([t]);
    assert Inside("(" + t + ")") == t;
    assert Words(t, []) == [t];
  }

  lemma SortTwo(x: string, y: string)
    ensures Sort([x, y], AtMost) == if AtMost(x, y) then [x, y] else [y, x]
    ensures Join([x, y]) == x + " " + y
  {
    hide AtMost;
    assert [x, y][1..] == [y] && [y][1..] == [];
    assert Sort([y], AtMost) == [y];
    assert Insert(x, [], AtMost) == [x] && [x] + [y] == [x, y] && [y] + [x] == [y, x];
  }

  lemma FirstDecides(a: string, b: string)
    requires a != [] && b != [] && a[0] < b[0]
    ensures AtMost(a, b) && !AtMost(b, a)
  {}

  lemma NestedWords()
    ensures Words(Inside("((z #a))"), []) == ["(z", "#a)"] && Sort(["(z", "#a)"], AtMost) == ["#a)", "(z"]
    ensures Join(["#a)", "(z"]) == "#a) (z"
  {
    var words := ["(z", "#a)"];
    FirstDecides("#a)", "(z");
    SortTwo("(z", "#a)");
    SortTwo("#a)", "(z");
    assert Join(words) == "(z #a)" == Inside("((z #a))");
    JoinedWordsReturn(words);
  }

  lemma NestedForm()
    ensures NormalizeAclRule("((z #a))") == "(#a) (z)" && Meaning("((z #a))") == Choice(multiset{"(z", "#a)"})
  {
    hide Words, Sort, Join;
    NestedWords();
    assert "(" + "#a) (z" + ")" == "(#a) (z)";
  }

  lemma NestedIsClosed()
    ensures Closed("((z #a))")
  {
    ReadInside("z #a", 2);
    ReadOne("z #a", ')', 2);
    ReadOne("z #a" + [')'], ')', 1);
    assert "((z #a))"[1..][1..] == "z #a" + [')'] + [')'];
  }

  lemma FlatForms()
    ensures MapRules(["(#a)", "(z)"]) == ["(#a)", "(z)"] && Closed("(#a)") && Closed("(z)")
  {
    hide NormalizeAclRule;
    assert "(#a)" == "(" + "#a" + ")" && "(z)" == "(" + "z" + ")";
    OneWordForm("#a");
    OneWordForm("z");
    WrappedIsClosed("#a");
    WrappedIsClosed("z");
    var two := ["(#a)", "(z)"];
    assert two[1..] == ["(z)"] && two[1..][1..] == [];
  }

  lemma NestedText(u: string)
    ensures UserText(u, ["((z #a))"]) == UserText(u, ["(#a)", "(z)"])
  {
    hide NormalizeAclRule, Insert;
    var nested, two := ["((z #a))"], ["(#a)", "(z)"];
    NestedForm();
    FlatForms();
    assert nested[1..] == [] && MapRules(nested) == ["(#a) (z)"];
    assert "(#a)"[1..] == "#a)" && "(z)"[1..] == "z)";
    FirstDecides("#a)", "z)");
    SortTwo("(#a)", "(z)");
    SortOne("(#a) (z)");
  }

  lemma SortOne(x: string)
    ensures Sort([x], AtMost) == [x] && Join([x]) == x
  {
    assert [x][1..] == [];
  }

  lemma NestedGrant()
    ensures Granted(["((z #a))"]) != Granted(["(#a)", "(z)"])
  {
    hide Meaning;
    GrantedMiddle([], "((z #a))", []);
    GrantedMiddle(["(#a)"], "(z)", []);
    assert [] + ["((z #a))"] + [] == ["((z #a))"] && ["(#a)"] + ["(z)"] + [] == ["(#a)", "(z)"];
    assert ["(#a)"] + [] == ["(#a)"];
    GrantedMiddle([], "(#a)", []);
    assert [] + ["(#a)"] + [] == ["(#a)"];
    assert |Granted(["(#a)", "(z)"])| == 2 && |Granted(["((z #a))"])| == 1;
  }

  /** A selector nested in a selector falls apart when its words are sorted, and then reads like two selectors. */
  lemma NestedSelectorsCollide(h: Hash, u: string)
    ensures var nested, two := ["((z #a))"], ["(#a)", "(z)"];
            && AllClosed(nested) && AllClosed(two) && Granted(nested) != Granted(two)
            && UserDigest(h, u, nested) == UserDigest(h, u, two)
  {
    hide Closed, Granted, Join, Sort, MapRules;
    NestedIsClosed();
    FlatForms();
    NestedText(u);
    NestedGrant();
  }
}

/** Where an ACL line is cut into tokens, by position, and which lines name a user. */
module AclTokens {
  import opened Prelude
  import opened Strings
  import opened AclDigest

  /** Opening less closing parentheses. */
  function Excess(t: string): int {
    if t == [] then 0
    else Excess(t[..|t| - 1]) + match t[|t| - 1] case '(' => 1 case ')' => -1 case _ => 0
  }

  /** How many parentheses are open after a text; closing one that none is open for does nothing. */
  ghost predicate Open(t: string, depth: nat) {
    && (exists j: nat :: j <= |t| && Excess(t[j..]) == depth)
    && forall j: nat :: j <= |t| ==> Excess(t[j..]) <= depth
  }

  lemma DepthSnoc(t: string, c: char)
    ensures DepthAfter(t + [c], 0) == Deepen(c, DepthAfter(t, 0))
  {
    ReadOne(t, c, 0);
  }

  lemma ExcessSnoc(t: string, c: char, j: nat)
    requires j <= |t|
    ensures Excess((t + [c])[j..]) == Excess(t[j..]) + match c case '(' => 1 case ')' => -1 case _ => 0
  {
    assert (t + [c])[j..] == t[j..] + [c];
    assert (t[j..] + [c])[..|t[j..]|] == t[j..];
  }

  /** The tokenizer's depth is the number of open parentheses. */
  lemma {:induction false} DepthIsOpen(t: string)
    ensures Open(t, DepthAfter(t, 0))
  {
    if t == [] {
      assert Excess(t[0..]) == 0;
    } else {
      var init, c := t[..|t| - 1], t[|t| - 1];
      assert t == init + [c];
      DepthIsOpen(init);
      DepthSnoc(init, c);
      var i: nat :| i <= |init| && Excess(init[i..]) == DepthAfter(init, 0);
      ExcessSnoc(init, c, i);
      assert t[|t|..] == [] && Excess(t[|t|..]) == 0;
      forall j: nat | j <= |t| ensures Excess(t[j..]) <= DepthAfter(t, 0) {
        if j < |t| {
          ExcessSnoc(init, c, j);
        }
      }
    }
  }

  lemma OpenOnce(t: string, a: nat, b: nat)
    requires Open(t, a) && Open(t, b)
    ensures a == b
  {}

  /** White space outside all parentheses. */
  ghost predicate Separates(line: string, i: nat)
    requires i < |line|
  {
    IsSpace(line[i]) && Open(line[..i + 1], 0)
  }

  lemma SeparatesIff(line: string, i: nat)
    requires i < |line|
    ensures Separates(line, i) <==> IsSpace(line[i]) && Deepen(line[i], DepthAfter(line[..i], 0)) == 0
    ensures DepthAfter(line[..i + 1], 0) == Deepen(line[i], DepthAfter(line[..i], 0))
  {
    assert line[..i + 1] == line[..i] + [line[i]];
    DepthSnoc(line[..i], line[i]);
    DepthIsOpen(line[..i + 1]);
    if Open(line[..i + 1], 0) {
      OpenOnce(line[..i + 1], 0, DepthAfter(line[..i + 1], 0));
    }
  }

  /** A stretch of the line without separators that cannot be made longer. */
  ghost predicate Stretch(line: string, from: nat, to: nat) {
    && from < to <= |line| && (forall i :: from <= i < to ==> !Separates(line, i))
    && (from > 0 ==> Separates(line, from - 1)) && (to < |line| ==> Separates(line, to))
  }

  /** The cuts are the maximal stretches of the line from `start` on, in order, and miss only separators. */
  ghost predicate Cuts(line: string, start: nat, cuts: seq<(nat, nat)>)
    decreases |cuts|
  {
    if cuts == [] then forall i :: start <= i < |line| ==> Separates(line, i)
    else
      var (from, to) := cuts[0];
      && start <= from && Stretch(line, from, to) && (forall i :: start <= i < from ==> Separates(line, i))
      && Cuts(line, to, cuts[1..])
  }

  ghost predicate Tokens(line: string, tokens: seq<string>, cuts: seq<(nat, nat)>) {
    && |tokens| == |cuts|
    && forall i :: 0 <= i < |cuts| ==> cuts[i].0 <= cuts[i].1 <= |line| && tokens[i] == line[cuts[i].0..cuts[i].1]
  }

  /** What is still to be read at `pos`, with the stretch from `from` in progress. */
  function ScanFrom(line: string, from: nat, pos: nat): seq<string>
    requires from <= pos <= |line|
  {
    Scan(line[pos..], line[from..pos], DepthAfter(line[..pos], 0))
  }

  lemma ScanFromNext(line: string, from: nat, pos: nat)
    requires from <= pos < |line|
    ensures Separates(line, pos) ==>
              var rest := ScanFrom(line, pos + 1, pos + 1);
              ScanFrom(line, from, pos) == (if from == pos then [] else [line[from..pos]]) + rest
    ensures !Separates(line, pos) ==> ScanFrom(line, from, pos) == ScanFrom(line, from, pos + 1)
  {
    SeparatesIff(line, pos);
    assert line[pos..][0] == line[pos] && line[pos..][1..] == line[pos + 1..];
    assert line[pos + 1..pos + 1] == [] && line[from..pos] + [line[pos]] == line[from..pos + 1];
  }

  lemma OneMoreCut(line: string, from: nat, to: nat, rest: seq<(nat, nat)>, tokens: seq<string>)
    requires Stretch(line, from, to) && Cuts(line, to, rest) && Tokens(line, tokens, rest)
    ensures Cuts(line, from, [(from, to)] + rest) && Tokens(line, [line[from..to]] + tokens, [(from, to)] + rest)
  {
    assert ([(from, to)] + rest)[1..] == rest;
  }

  lemma AfterSeparator(line: string, pos: nat, cuts: seq<(nat, nat)>)
    requires pos < |line| && Separates(line, pos) && Cuts(line, pos + 1, cuts)
    ensures Cuts(line, pos, cuts)
  {}

  lemma {:induction false} ScanCuts(line: string, from: nat, pos: nat) returns (cuts: seq<(nat, nat)>)
    requires from <= pos <= |line| && (forall i :: from <= i < pos ==> !Separates(line, i))
    requires from > 0 ==> Separates(line, from - 1)
    ensures Cuts(line, from, cuts) && Tokens(line, ScanFrom(line, from, pos), cuts)
    decreases |line| - pos
  {
    hide Separates, Scan, DepthAfter;
    if pos == |line| {
      cuts := LastCut(line, from);
    } else {
      ScanFromNext(line, from, pos);
      if Separates(line, pos) {
        cuts := ScanCuts(line, pos + 1, pos + 1);
        AfterSeparator(line, pos, cuts);
        if from < pos {
          OneMoreCut(line, from, pos, cuts, ScanFrom(line, pos + 1, pos + 1));
          cuts := [(from, pos)] + cuts;
        }
      } else {
        cuts := ScanCuts(line, from, pos + 1);
      }
    }
  }

  lemma LastCut(line: string, from: nat) returns (cuts: seq<(nat, nat)>)
    requires from <= |line| && (forall i :: from <= i < |line| ==> !Separates(line, i))
    requires from > 0 ==> Separates(line, from - 1)
    ensures Cuts(line, from, cuts) && Tokens(line, ScanFrom(line, from, |line|), cuts)
  {
    cuts := [];
    if from < |line| {
      assert Cuts(line, |line|, cuts);
      OneMoreCut(line, from, |line|, cuts, []);
      cuts := [(from, |line|)];
    }
  }

  /** The tokens of any line are exactly its maximal stretches between white space outside all parentheses. */
  lemma TokenizeCuts(line: string)
    ensures exists cuts :: Cuts(line, 0, cuts) && Tokens(line, Tokenize(line), cuts)
  {
    var cuts := ScanCuts(line, 0, 0);
    assert line[0..] == line && line[0..0] == [] && line[..0] == [];
    assert ScanFrom(line, 0, 0) == Tokenize(line);
  }

  /** A line names a user exactly when its first token is the word "user" in any case, and another token follows. */
  lemma ParseIff(line: string, u: string, rules: seq<string>)
    ensures ParseAclLine(line) == Some(User(u, rules))
       <==> exists word :: Tokenize(line) == [word, u] + rules && |word| == 4
                           && forall i :: 0 <= i < 4 ==> word[i] == "user"[i] || word[i] == "USER"[i]
  {
    var tokens := Tokenize(line);
    if ParseAclLine(line) == Some(User(u, rules)) {
      assert tokens == [tokens[0], u] + rules;
    }
    if word :| tokens == [word, u] + rules && |word| == 4
               && forall i :: 0 <= i < 4 ==> word[i] == "user"[i] || word[i] == "USER"[i] {
      assert tokens[2..] == rules;
      assert "user" == ['u', 's', 'e', 'r'] && "USER" == ['U', 'S', 'E', 'R'];
    }
  }
}

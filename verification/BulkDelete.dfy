/**
 Bulk delete: every target's keyspace is walked with SCAN, matched keys are counted, sampled and, in execute mode,
 unlinked batch by batch, under a key cap and with cancellation checked before every batch.
 */
module BulkDelete {
  import opened Prelude
  import opened Strings
  import Glob

  const DEFAULT_COUNT := 500
  const MIN_COUNT := 1
  const MAX_COUNT := 10000
  const DEFAULT_SAMPLE_LIMIT: nat := 100
  const MIN_BATCH_PAUSE_MS := 0
  const MAX_BATCH_PAUSE_MS := 60000
  const DEFAULT_PREVIEW_MAX_KEYS: nat := 10000
  const DEFAULT_PREVIEW_SAMPLE_LIMIT: nat := 50

  /** `maxKeys` is None for an unbounded run. */
  datatype Params = Params(execute: bool, maxKeys: Option<nat>, sampleLimit: nat)

  datatype NodeProgress = NodeProgress(target: nat, matched: nat, deleted: nat, batches: nat, cursorDone: bool)

  /** The key lists one full SCAN of a target returns, in order; the last reply carries the final cursor. */
  type Script = seq<seq<string>>

  function Keys(script: Script): seq<string> {
    if script == [] then [] else Keys(script[..|script| - 1]) + script[|script| - 1]
  }

  function Total(perNode: seq<NodeProgress>, f: NodeProgress -> nat): nat {
    if perNode == [] then 0 else Total(perNode[..|perNode| - 1], f) + f(perNode[|perNode| - 1])
  }

  function MatchedOf(n: NodeProgress): nat { n.matched }

  function DeletedOf(n: NodeProgress): nat { n.deleted }

  function BatchesOf(n: NodeProgress): nat { n.batches }

  /** The keys counted so far, in the order they were read. */
  function Taken(scripts: seq<Script>, perNode: seq<NodeProgress>): seq<string>
    requires |perNode| <= |scripts|
    requires forall i :: 0 <= i < |perNode| ==> perNode[i].matched <= |Keys(scripts[i])|
  {
    if perNode == [] then []
    else
      var last := |perNode| - 1;
      Taken(scripts, perNode[..last]) + Keys(scripts[last])[..perNode[last].matched]
  }

  function Prefix(s: seq<string>, n: nat): seq<string> { if |s| <= n then s else s[..n] }

  /** The servers behind the scan targets: what each scan will return, and what has been unlinked on each. */
  class Keyspace {
    const scripts: seq<Script>
    var unlinked: seq<seq<string>>
    /** How many keys each server has said it removed. */
    var removed: seq<nat>

    constructor (scripts: seq<Script>)
      requires forall i :: 0 <= i < |scripts| ==> scripts[i] != []
      ensures this.scripts == scripts && Valid()
      ensures unlinked == seq(|scripts|, i => []) && removed == seq(|scripts|, i => 0)
    {
      this.scripts := scripts;
      unlinked, removed := seq(|scripts|, i => []), seq(|scripts|, i => 0);
    }

    ghost predicate Valid()
      reads this`unlinked, this`removed
    {
      |unlinked| == |removed| == |scripts| && forall i :: 0 <= i < |scripts| ==> scripts[i] != []
    }

    /** A reply's cursor is 0 when the scan is complete. */
    method Scan(t: nat, cursor: nat) returns (next: nat, keys: seq<string>)
      requires t < |scripts| && cursor < |scripts[t]|
      ensures keys == scripts[t][cursor] && next == if cursor + 1 == |scripts[t]| then 0 else cursor + 1
    {
      keys := scripts[t][cursor];
      next := if cursor + 1 == |scripts[t]| then 0 else cursor + 1;
    }

    /** Keys may have vanished meanwhile, so the count of removed keys can be smaller. */
    method Unlink(t: nat, keys: seq<string>) returns (n: nat)
      requires t < |unlinked| == |removed|
      modifies this`unlinked, this`removed
      ensures unlinked == old(unlinked)[t := old(unlinked)[t] + keys]
      ensures n <= |keys| && removed == old(removed)[t := old(removed)[t] + n]
    {
      unlinked := unlinked[t := unlinked[t] + keys];
      n :| 0 <= n <= |keys|;
      removed := removed[t := removed[t] + n];
    }
  }

  /** The counters of a run that has started |perNode| targets. */
  ghost predicate Sound(p: Params, scripts: seq<Script>, perNode: seq<NodeProgress>, matched: nat, deleted: nat,
                        batches: nat, sampleKeys: seq<string>) {
    && |perNode| <= |scripts|
    && (forall i :: 0 <= i < |perNode| ==> perNode[i].matched <= |Keys(scripts[i])|)
    && matched == Total(perNode, MatchedOf) && deleted == Total(perNode, DeletedOf)
      && batches == Total(perNode, BatchesOf)
    && sampleKeys == Prefix(Taken(scripts, perNode), p.sampleLimit)
    && (p.maxKeys.Some? ==> matched <= p.maxKeys.value)
    && (deleted > 0 ==> p.execute) && deleted <= matched
  }

  /** In execute mode exactly the counted keys of each target have been unlinked; in a dry run none. */
  ghost predicate UnlinkedExactly(p: Params, scripts: seq<Script>, perNode: seq<NodeProgress>,
                                  unlinked: seq<seq<string>>) {
    && |unlinked| == |scripts| && |perNode| <= |scripts|
    && (forall i :: 0 <= i < |perNode| ==>
          && perNode[i].matched <= |Keys(scripts[i])|
          && unlinked[i] == if p.execute then Keys(scripts[i])[..perNode[i].matched] else [])
    && (forall i :: |perNode| <= i < |scripts| ==> unlinked[i] == [])
  }

  /** How many replies with keys the first `matched` keys of a scan begin. */
  function Begun(script: Script, matched: nat): nat {
    if script == [] then 0
    else
      var init, last := script[..|script| - 1], script[|script| - 1];
      Begun(init, matched) + if last != [] && |Keys(init)| < matched then 1 else 0
  }

  /**
   Every started target goes by its own number, reports what its server removed, and counts a batch per reply begun.
   */
  ghost predicate Tallied(scripts: seq<Script>, perNode: seq<NodeProgress>, removed: seq<nat>) {
    && |removed| == |scripts| && |perNode| <= |scripts|
    && (forall i :: 0 <= i < |perNode| ==>
          && perNode[i].target == i && perNode[i].deleted == removed[i]
          && perNode[i].batches == Begun(scripts[i], perNode[i].matched))
    && forall i :: |perNode| <= i < |scripts| ==> removed[i] == 0
  }

  class BulkDeleteProgress {
    var matched: nat
    var deleted: nat
    var batches: nat
    var nodesTotal: nat
    var nodesDone: nat
    var truncated: bool
    var cancelled: bool
    var sampleKeys: seq<string>
    var perNode: seq<NodeProgress>

    constructor (nodesTotal: nat)
      ensures matched == deleted == batches == nodesDone == 0 && this.nodesTotal == nodesTotal
      ensures !truncated && !cancelled && sampleKeys == [] && perNode == []
    {
      matched, deleted, batches, this.nodesTotal, nodesDone := 0, 0, 0, nodesTotal, 0;
      truncated, cancelled, sampleKeys, perNode := false, false, [], [];
    }

    ghost predicate Valid(p: Params, ks: Keyspace)
      reads this`matched, this`deleted, this`batches, this`sampleKeys, this`perNode, ks`unlinked, ks`removed
    {
      && ks.Valid()
      && Sound(p, ks.scripts, perNode, matched, deleted, batches, sampleKeys)
      && UnlinkedExactly(p, ks.scripts, perNode, ks.unlinked) && Tallied(ks.scripts, perNode, ks.removed)
    }
  }

  // ---------------------------------------------------------------- one batch

  lemma KeysPrefix(script: Script, pos: nat)
    requires pos < |script|
    ensures Keys(script[..pos + 1]) == Keys(script[..pos]) + script[pos]
  {
    assert script[..pos + 1][..pos] == script[..pos];
  }

  lemma {:induction false} KeysOfPrefix(script: Script, pos: nat)
    requires pos <= |script|
    ensures Keys(script[..pos]) <= Keys(script)
  {
    if pos < |script| {
      KeysOfPrefix(script[..|script| - 1], pos);
      assert script[..|script| - 1][..pos] == script[..pos];
    } else {
      assert script[..pos] == script;
    }
  }

  /** Reading `n` more keys of the target last started. */
  lemma SoundNext(p: Params, scripts: seq<Script>, perNode: seq<NodeProgress>, matched: nat, deleted: nat, batches: nat,
                  sampleKeys: seq<string>, node: NodeProgress, n: nat, removed: nat)
    requires perNode != [] && Sound(p, scripts, perNode, matched, deleted, batches, sampleKeys)
    requires var last := |perNode| - 1;
             && perNode[last].matched + n <= |Keys(scripts[last])|
             && node.matched == perNode[last].matched + n && node.deleted == perNode[last].deleted + removed
             && node.batches == perNode[last].batches + 1
    requires removed <= n && (removed > 0 ==> p.execute) && (p.maxKeys.Some? ==> matched + n <= p.maxKeys.value)
    ensures var last := |perNode| - 1;
            var from := perNode[last].matched;
            Sound(p, scripts, perNode[last := node], matched + n, deleted + removed, batches + 1,
                  Prefix(sampleKeys + Keys(scripts[last])[from..from + n], p.sampleLimit))
  {
    var last := |perNode| - 1;
    var from, next := perNode[last].matched, perNode[last := node];
    assert next[..last] == perNode[..last];
    var before, keys := Taken(scripts, perNode[..last]), Keys(scripts[last]);
    assert Taken(scripts, next) == Taken(scripts, perNode) + keys[from..from + n] by {
      assert before + keys[..from + n] == (before + keys[..from]) + keys[from..from + n];
    }
  }

  lemma UnlinkedNext(p: Params, scripts: seq<Script>, perNode: seq<NodeProgress>, unlinked: seq<seq<string>>,
                     node: NodeProgress, n: nat)
    requires perNode != [] && UnlinkedExactly(p, scripts, perNode, unlinked)
    requires var last := |perNode| - 1;
             perNode[last].matched + n <= |Keys(scripts[last])| && node.matched == perNode[last].matched + n
    ensures var last := |perNode| - 1;
            var from := perNode[last].matched;
            var done := if p.execute then unlinked[last := unlinked[last] + Keys(scripts[last])[from..from + n]]
              else unlinked;
            UnlinkedExactly(p, scripts, perNode[last := node], done)
  {
    var last := |perNode| - 1;
    var from, keys := perNode[last].matched, Keys(scripts[last]);
    assert keys[..from] + keys[from..from + n] == keys[..from + n];
  }

  /** A newly started target adds nothing. */
  lemma StartTarget(p: Params, scripts: seq<Script>, perNode: seq<NodeProgress>, matched: nat, deleted: nat,
                    batches: nat, sampleKeys: seq<string>, unlinked: seq<seq<string>>)
    requires |perNode| < |scripts| && Sound(p, scripts, perNode, matched, deleted, batches, sampleKeys)
    requires UnlinkedExactly(p, scripts, perNode, unlinked)
    ensures var next := perNode + [NodeProgress(|perNode|, 0, 0, 0, false)];
            Sound(p, scripts, next, matched, deleted, batches, sampleKeys)
              && UnlinkedExactly(p, scripts, next, unlinked)
  {
    var next := perNode + [NodeProgress(|perNode|, 0, 0, 0, false)];
    assert next[..|perNode|] == perNode;
    assert Taken(scripts, next) == Taken(scripts, perNode);
  }

  method Sample(progress: BulkDeleteProgress, keys: seq<string>, limit: nat)
    requires |progress.sampleKeys| <= limit
    modifies progress`sampleKeys
    ensures progress.sampleKeys == Prefix(old(progress.sampleKeys) + keys, limit)
  {
    var i := 0;
    while i < |keys| && |progress.sampleKeys| < limit
      invariant 0 <= i <= |keys| && |progress.sampleKeys| <= limit
      invariant progress.sampleKeys == old(progress.sampleKeys) + keys[..i]
    {
      assert keys[..i + 1] == keys[..i] + [keys[i]];
      progress.sampleKeys := progress.sampleKeys + [keys[i]];
      i := i + 1;
    }
    assert i < |keys| ==> old(progress.sampleKeys) + keys[..i] == (old(progress.sampleKeys) + keys)[..limit];
    assert keys[..|keys|] == keys;
  }

  /** Counts, samples and (in execute mode) unlinks some keys of the target last started. */
  method ApplyBatch(ks: Keyspace, p: Params, progress: BulkDeleteProgress, keys: seq<string>)
    returns (node: NodeProgress, removed: nat)
    requires progress.perNode != [] && |progress.perNode| <= |ks.unlinked| == |ks.removed|
    requires |progress.sampleKeys| <= p.sampleLimit
    modifies progress`matched, progress`deleted, progress`batches, progress`sampleKeys, progress`perNode, ks`unlinked,
             ks`removed
    ensures removed <= |keys| && (removed > 0 ==> p.execute)
    ensures progress.matched == old(progress.matched) + |keys| && progress.deleted == old(progress.deleted) + removed
    ensures progress.batches == old(progress.batches) + 1
    ensures progress.sampleKeys == Prefix(old(progress.sampleKeys) + keys, p.sampleLimit)
    ensures var last := |old(progress.perNode)| - 1;
            var was := old(progress.perNode)[last];
            && node == was.(matched := was.matched + |keys|, deleted := was.deleted + removed,
              batches := was.batches + 1)
            && progress.perNode == old(progress.perNode)[last := node]
            && ks.unlinked == (if p.execute then old(ks.unlinked)[last := old(ks.unlinked)[last] + keys]
                               else old(ks.unlinked))
            && ks.removed == old(ks.removed)[last := old(ks.removed)[last] + removed]
  {
    var last := |progress.perNode| - 1;
    node := progress.perNode[last];
    progress.matched := progress.matched + |keys|;
    node := node.(matched := node.matched + |keys|);
    Sample(progress, keys, p.sampleLimit);
    removed := 0;
    if p.execute {
      removed := ks.Unlink(last, keys);
      progress.deleted := progress.deleted + removed;
      node := node.(deleted := node.deleted + removed);
    }
    progress.batches := progress.batches + 1;
    node := node.(batches := node.batches + 1);
    progress.perNode := progress.perNode[last := node];
  }

  /** Some keys of the next reply begin one more reply. */
  lemma {:induction false} BegunNext(script: Script, pos: nat, n: nat)
    requires pos < |script| && 0 < n <= |script[pos]|
    ensures Begun(script, |Keys(script[..pos])| + n) == Begun(script, |Keys(script[..pos])|) + 1
    decreases |script|
  {
    var init, last := script[..|script| - 1], script[|script| - 1];
    if pos < |init| {
      assert init[..pos] == script[..pos];
      BegunNext(init, pos, n);
      KeysPrefix(init, pos);
      KeysOfPrefix(init, pos + 1);
    } else {
      assert script[..pos] == init;
      BegunAll(init, |Keys(init)|, |Keys(init)| + n);
    }
  }

  /** Once all keys of a scan are taken, every reply has been begun. */
  lemma {:induction false} BegunAll(script: Script, m: nat, n: nat)
    requires |Keys(script)| <= m && |Keys(script)| <= n
    ensures Begun(script, m) == Begun(script, n)
  {
    if script != [] {
      BegunAll(script[..|script| - 1], m, n);
    }
  }

  lemma TalliedNext(scripts: seq<Script>, perNode: seq<NodeProgress>, removed: seq<nat>, pos: nat, node: NodeProgress,
                    n: nat, gone: nat)
    requires perNode != [] && Tallied(scripts, perNode, removed)
    requires var last := |perNode| - 1;
             && pos < |scripts[last]| && perNode[last].matched == |Keys(scripts[last][..pos])|
             && 0 < n <= |scripts[last][pos]|
             && node == perNode[last].(matched := perNode[last].matched + n, deleted := perNode[last].deleted + gone,
                                       batches := perNode[last].batches + 1)
    ensures var last := |perNode| - 1;
            Tallied(scripts, perNode[last := node], removed[last := removed[last] + gone])
  {
    BegunNext(scripts[|perNode| - 1], pos, n);
  }

  lemma {:induction false} NothingBegun(script: Script)
    ensures Begun(script, 0) == 0
  {
    if script != [] {
      NothingBegun(script[..|script| - 1]);
    }
  }

  /** All three together, for the keys of a batch. */
  lemma BatchNext(p: Params, scripts: seq<Script>, perNode: seq<NodeProgress>, matched: nat, deleted: nat, batches: nat,
                  sampleKeys: seq<string>, unlinked: seq<seq<string>>, removed: seq<nat>, node: NodeProgress,
                  keys: seq<string>, gone: nat, pos: nat)
    requires perNode != [] && Sound(p, scripts, perNode, matched, deleted, batches, sampleKeys)
    requires UnlinkedExactly(p, scripts, perNode, unlinked) && Tallied(scripts, perNode, removed)
    requires var last := |perNode| - 1;
             var from := perNode[last].matched;
             && pos < |scripts[last]| && from == |Keys(scripts[last][..pos])| && 0 < |keys| <= |scripts[last][pos]|
             && from + |keys| <= |Keys(scripts[last])| && keys == Keys(scripts[last])[from..from + |keys|]
             && node == perNode[last].(matched := from + |keys|, deleted := perNode[last].deleted + gone,
                                       batches := perNode[last].batches + 1)
    requires gone <= |keys| && (gone > 0 ==> p.execute)
    requires p.maxKeys.Some? ==> matched + |keys| <= p.maxKeys.value
    ensures var last := |perNode| - 1;
            var next := perNode[last := node];
            && Sound(p, scripts, next, matched + |keys|, deleted + gone, batches + 1,
                     Prefix(sampleKeys + keys, p.sampleLimit))
            && UnlinkedExactly(p, scripts, next,
                               if p.execute then unlinked[last := unlinked[last] + keys] else unlinked)
            && Tallied(scripts, next, removed[last := removed[last] + gone])
  {
    hide Sound, UnlinkedExactly, Tallied;
    SoundNext(p, scripts, perNode, matched, deleted, batches, sampleKeys, node, |keys|, gone);
    UnlinkedNext(p, scripts, perNode, unlinked, node, |keys|);
    TalliedNext(scripts, perNode, removed, pos, node, |keys|, gone);
  }

  /** A batch that continues the target last started keeps every counter right. */
  method TakeBatch(ks: Keyspace, p: Params, progress: BulkDeleteProgress, keys: seq<string>, ghost pos: nat)
    requires progress.Valid(p, ks) && progress.perNode != []
    requires var last := |progress.perNode| - 1;
             pos < |ks.scripts[last]| && progress.perNode[last].matched == |Keys(ks.scripts[last][..pos])|
             && keys <= ks.scripts[last][pos]
    requires var last := |progress.perNode| - 1;
             var from := progress.perNode[last].matched;
             from + |keys| <= |Keys(ks.scripts[last])| && keys == Keys(ks.scripts[last])[from..from + |keys|]
    requires p.maxKeys.Some? ==> progress.matched + |keys| <= p.maxKeys.value
    modifies progress`matched, progress`deleted, progress`batches, progress`sampleKeys, progress`perNode, ks`unlinked,
             ks`removed
    ensures progress.Valid(p, ks) && progress.matched == old(progress.matched) + |keys|
    ensures var last := |old(progress.perNode)| - 1;
            && |progress.perNode| == last + 1 && progress.perNode[..last] == old(progress.perNode)[..last]
            && progress.perNode[last].matched == old(progress.perNode)[last].matched + |keys|
            && progress.perNode[last].cursorDone == old(progress.perNode)[last].cursorDone
  {
    if |keys| > 0 {
      ghost var m, d, b, s, u := progress.matched, progress.deleted, progress.batches, progress.sampleKeys, ks.unlinked;
      ghost var nodes, gone := progress.perNode, ks.removed;
      var node, removed := ApplyBatch(ks, p, progress, keys);
      BatchNext(p, ks.scripts, nodes, m, d, b, s, u, gone, node, keys, removed, pos);
    }
  }

  // ---------------------------------------------------------------- one target

  /** Where the walk of target t stands: `pos` replies have been read and all their keys taken. */
  ghost predicate Reading(ks: Keyspace, progress: BulkDeleteProgress, t: nat, pos: nat, cursor: nat)
    reads progress`perNode
  {
    && t < |ks.scripts| && |progress.perNode| == t + 1 && pos <= |ks.scripts[t]|
    && cursor == (if pos == |ks.scripts[t]| then 0 else pos)
    && progress.perNode[t].matched == |Keys(ks.scripts[t][..pos])| && !progress.perNode[t].cursorDone
  }

  /** Some of the next reply's keys continue the target's key list. */
  lemma ReplyContinues(script: Script, pos: nat, from: nat, keys: seq<string>)
    requires pos < |script| && from == |Keys(script[..pos])| && keys <= script[pos]
    ensures from + |keys| <= |Keys(script)| && keys == Keys(script)[from..from + |keys|]
    ensures keys == script[pos] ==> |Keys(script[..pos + 1])| == from + |keys|
  {
    KeysPrefix(script, pos);
    KeysOfPrefix(script, pos + 1);
    assert Keys(script[..pos + 1])[from..from + |keys|] == keys;
  }

  method TakeReply(ks: Keyspace, t: nat, p: Params, progress: BulkDeleteProgress, cursor: nat, ghost pos: nat,
                   keys: seq<string>, next: nat)
    requires progress.Valid(p, ks) && Reading(ks, progress, t, pos, cursor) && pos < |ks.scripts[t]|
    requires keys <= ks.scripts[t][pos] && (p.maxKeys.Some? ==> progress.matched + |keys| <= p.maxKeys.value)
    requires next == if pos + 1 == |ks.scripts[t]| then 0 else pos + 1
    modifies progress`matched, progress`deleted, progress`batches, progress`sampleKeys, progress`perNode, ks`unlinked,
             ks`removed
    ensures progress.Valid(p, ks) && progress.matched == old(progress.matched) + |keys|
    ensures |progress.perNode| == t + 1 && progress.perNode[..t] == old(progress.perNode)[..t]
    ensures !progress.perNode[t].cursorDone
    ensures keys == ks.scripts[t][pos] ==> Reading(ks, progress, t, pos + 1, next)
  {
    ReplyContinues(ks.scripts[t], pos, progress.perNode[t].matched, keys);
    TakeBatch(ks, p, progress, keys, pos);
  }

  /** Reads one reply of target t and takes its keys, cut to what the cap leaves. */
  method ScanOnce(ks: Keyspace, t: nat, p: Params, progress: BulkDeleteProgress, cursor: nat, ghost pos: nat)
    returns (next: nat, stopAll: bool)
    requires progress.Valid(p, ks) && Reading(ks, progress, t, pos, cursor) && pos < |ks.scripts[t]|
    requires !progress.truncated && (p.maxKeys.Some? ==> progress.matched < p.maxKeys.value)
    modifies progress`matched, progress`deleted, progress`batches, progress`sampleKeys, progress`perNode,
             progress`truncated, ks`unlinked, ks`removed
    ensures progress.Valid(p, ks) && |progress.perNode| == t + 1 && progress.perNode[..t] == old(progress.perNode)[..t]
    ensures stopAll <==> progress.truncated
    ensures progress.truncated ==> p.maxKeys == Some(progress.matched)
    ensures !progress.perNode[t].cursorDone
    ensures !stopAll ==> Reading(ks, progress, t, pos + 1, next)
  {
    var keys: seq<string>;
    next, keys := ks.Scan(t, cursor);
    if p.maxKeys.Some? && |keys| > p.maxKeys.value - progress.matched {
      keys := keys[..p.maxKeys.value - progress.matched];
      progress.truncated := true;
    }
    TakeReply(ks, t, p, progress, cursor, pos, keys, next);
    stopAll := progress.truncated && p.maxKeys.Some? && progress.matched >= p.maxKeys.value;
  }

  /** What holds while a target is walked. */
  ghost predicate Walking(ks: Keyspace, p: Params, progress: BulkDeleteProgress, t: nat, started: seq<NodeProgress>,
                          stopAll: bool)
    reads progress, ks
  {
    && progress.Valid(p, ks) && |progress.perNode| == t + 1 <= |ks.scripts| && progress.perNode[..t] == started
    && (stopAll <==> progress.truncated || progress.cancelled)
    && (progress.truncated ==> p.maxKeys == Some(progress.matched))
    && !progress.perNode[t].cursorDone
  }

  /**
   Of the cancellation checks numbered from..upTo none but the last answered true, and the run counts as cancelled
   exactly when that one did: a true answer is never followed by another check, and so never by another batch.
   */
  ghost predicate StoppedBy(isCancelled: nat -> bool, from: nat, upTo: nat, cancelled: bool) {
    && from <= upTo
    && (forall n: nat :: from <= n < upTo - 1 ==> !isCancelled(n))
    && (cancelled <==> from < upTo && isCancelled(upTo - 1))
  }

  /** Walks one target; `checks` numbers the cancellation checks of the whole run. */
  method WalkTarget(ks: Keyspace, t: nat, p: Params, progress: BulkDeleteProgress, isCancelled: nat -> bool,
                    checks0: nat)
    returns (stopAll: bool, checks: nat)
    requires |progress.perNode| == t + 1 && Walking(ks, p, progress, t, progress.perNode[..t], false)
    requires progress.perNode[t].matched == 0
    modifies progress`matched, progress`deleted, progress`batches, progress`sampleKeys, progress`perNode,
             progress`truncated, progress`cancelled, ks`unlinked, ks`removed
    ensures Walking(ks, p, progress, t, old(progress.perNode)[..t], stopAll)
    ensures checks0 < checks && StoppedBy(isCancelled, checks0, checks, progress.cancelled)
    ensures !stopAll ==> progress.perNode[t].matched == |Keys(ks.scripts[t])|
  {
    hide UnlinkedExactly, Tallied, Total, Taken;
    var cursor, started := 0, false;
    ghost var pos := 0;
    stopAll, checks := false, checks0;
    while !stopAll && (!started || cursor != 0)
      invariant Walking(ks, p, progress, t, old(progress.perNode)[..t], stopAll)
      invariant checks0 <= checks && (started || stopAll ==> checks0 < checks)
      invariant StoppedBy(isCancelled, checks0, checks, progress.cancelled)
      invariant !stopAll ==> Reading(ks, progress, t, pos, cursor) && (started <==> pos > 0)
      decreases !stopAll, |ks.scripts[t]| - pos
    {
      checks := checks + 1;
      if isCancelled(checks - 1) {
        progress.cancelled, stopAll := true, true;
      } else if p.maxKeys.Some? && p.maxKeys.value - progress.matched <= 0 {
        progress.truncated, stopAll := true, true;
      } else {
        cursor, stopAll := ScanOnce(ks, t, p, progress, cursor, pos);
        started := true;
        pos := pos + 1;
      }
    }
    if !stopAll {
      assert ks.scripts[t][..pos] == ks.scripts[t];
    }
  }

  // ---------------------------------------------------------------- the whole run

  /** Every started target but possibly the last was finished, and a finished target's every key was taken. */
  ghost predicate DoneSoFar(scripts: seq<Script>, perNode: seq<NodeProgress>, nodesDone: nat) {
    && |perNode| <= |scripts| && nodesDone <= |perNode| <= nodesDone + 1
    && forall i :: 0 <= i < |perNode| ==>
         && (perNode[i].cursorDone <==> i < nodesDone)
         && (perNode[i].cursorDone ==> perNode[i].matched == |Keys(scripts[i])|)
  }

  method Start(ks: Keyspace, p: Params, progress: BulkDeleteProgress)
    requires progress.Valid(p, ks) && |progress.perNode| < |ks.scripts|
    modifies progress`perNode
    ensures progress.Valid(p, ks)
    ensures progress.perNode == old(progress.perNode) + [NodeProgress(|old(progress.perNode)|, 0, 0, 0, false)]
  {
    StartTarget(p, ks.scripts, progress.perNode, progress.matched, progress.deleted, progress.batches,
                progress.sampleKeys, ks.unlinked);
    NothingBegun(ks.scripts[|progress.perNode|]);
    progress.perNode := progress.perNode + [NodeProgress(|progress.perNode|, 0, 0, 0, false)];
  }

  /** Marking the last target done touches no counter. */
  lemma DoneKeepsSound(p: Params, scripts: seq<Script>, perNode: seq<NodeProgress>, matched: nat, deleted: nat,
                       batches: nat, sampleKeys: seq<string>, unlinked: seq<seq<string>>, done: bool)
    requires perNode != [] && Sound(p, scripts, perNode, matched, deleted, batches, sampleKeys)
    requires UnlinkedExactly(p, scripts, perNode, unlinked)
    ensures var last := |perNode| - 1;
            var next := perNode[last := perNode[last].(cursorDone := done)];
            && Sound(p, scripts, next, matched, deleted, batches, sampleKeys)
            && UnlinkedExactly(p, scripts, next, unlinked)
  {
    var last := |perNode| - 1;
    var next := perNode[last := perNode[last].(cursorDone := done)];
    assert next[..last] == perNode[..last];
  }

  method Finish(ks: Keyspace, p: Params, progress: BulkDeleteProgress, done: bool)
    requires progress.Valid(p, ks) && progress.perNode != []
    modifies progress`perNode
    ensures progress.Valid(p, ks)
    ensures var last := |old(progress.perNode)| - 1;
            progress.perNode == old(progress.perNode)[last := old(progress.perNode)[last].(cursorDone := done)]
  {
    var last := |progress.perNode| - 1;
    DoneKeepsSound(p, ks.scripts, progress.perNode, progress.matched, progress.deleted, progress.batches,
                   progress.sampleKeys, ks.unlinked, done);
    progress.perNode := progress.perNode[last := progress.perNode[last].(cursorDone := done)];
  }

  /** What holds between targets, when t of them have been started. */
  ghost predicate Between(ks: Keyspace, p: Params, progress: BulkDeleteProgress, t: nat, stopAll: bool)
    reads progress, ks
  {
    && progress.Valid(p, ks) && |progress.perNode| == t <= |ks.scripts|
    && (stopAll <==> progress.truncated || progress.cancelled)
    && (progress.truncated ==> p.maxKeys == Some(progress.matched))
    && DoneSoFar(ks.scripts, progress.perNode, progress.nodesDone)
    && (!stopAll ==> progress.nodesDone == t)
  }

  lemma DoneNext(scripts: seq<Script>, before: seq<NodeProgress>, after: seq<NodeProgress>, t: nat, done: bool)
    requires DoneSoFar(scripts, before, t) && |before| == t < |scripts| && |after| == t + 1 && after[..t] == before
    requires after[t].cursorDone == done && (done ==> after[t].matched == |Keys(scripts[t])|)
    ensures DoneSoFar(scripts, after, if done then t + 1 else t)
  {
    forall i | 0 <= i < t ensures after[i] == before[i] {
      assert after[..t][i] == after[i];
    }
  }

  method FinishTarget(ks: Keyspace, p: Params, progress: BulkDeleteProgress, t: nat, ghost before: seq<NodeProgress>,
                      stopAll: bool)
    requires Walking(ks, p, progress, t, before, stopAll) && DoneSoFar(ks.scripts, before, t)
    requires progress.nodesDone == t && (!stopAll ==> progress.perNode[t].matched == |Keys(ks.scripts[t])|)
    modifies progress`perNode, progress`nodesDone
    ensures Between(ks, p, progress, t + 1, stopAll)
  {
    Finish(ks, p, progress, !stopAll);
    assert progress.perNode[..t] == before;
    DoneNext(ks.scripts, before, progress.perNode, t, !stopAll);
    if progress.perNode[t].cursorDone {
      progress.nodesDone := progress.nodesDone + 1;
    }
  }

  method StartTargetWalk(ks: Keyspace, t: nat, p: Params, progress: BulkDeleteProgress)
    requires t < |ks.scripts| && Between(ks, p, progress, t, false)
    modifies progress`perNode
    ensures |progress.perNode| == t + 1 && progress.perNode[..t] == old(progress.perNode)
    ensures Walking(ks, p, progress, t, old(progress.perNode), false) && progress.perNode[t].matched == 0
  {
    Start(ks, p, progress);
    assert progress.perNode[..t] == old(progress.perNode);
  }

  method RunTarget(ks: Keyspace, t: nat, p: Params, progress: BulkDeleteProgress, isCancelled: nat -> bool,
                   checks0: nat)
    returns (stopAll: bool, checks: nat)
    requires t < |ks.scripts| && Between(ks, p, progress, t, false)
    modifies progress, ks`unlinked, ks`removed
    ensures Between(ks, p, progress, t + 1, stopAll) && progress.nodesTotal == old(progress.nodesTotal)
    ensures checks0 < checks && StoppedBy(isCancelled, checks0, checks, progress.cancelled)
  {
    ghost var before := progress.perNode;
    StartTargetWalk(ks, t, p, progress);
    stopAll, checks := WalkTarget(ks, t, p, progress, isCancelled, checks0);
    FinishTarget(ks, p, progress, t, before, stopAll);
  }

  /**
   A bulk delete over any targets with cancellation at any check: the counters are the sums over the targets, the cap
   holds and a truncated run has used it up, exactly the counted keys were unlinked (none in a dry run), and a run
   neither truncated nor cancelled has finished every target and taken every key any scan returned.
   */
  method RunBulkDelete(ks: Keyspace, p: Params, progress: BulkDeleteProgress, isCancelled: nat -> bool)
    returns (ghost checks: nat)
    requires ks.Valid() && ks.unlinked == seq(|ks.scripts|, i => []) && ks.removed == seq(|ks.scripts|, i => 0)
    requires progress.matched == progress.deleted == progress.batches == progress.nodesDone == 0
    requires !progress.truncated && !progress.cancelled && progress.sampleKeys == [] && progress.perNode == []
    modifies progress, ks`unlinked, ks`removed
    ensures progress.Valid(p, ks) && progress.nodesTotal == |ks.scripts|
    ensures progress.truncated ==> p.maxKeys == Some(progress.matched)
    ensures StoppedBy(isCancelled, 0, checks, progress.cancelled)
    ensures DoneSoFar(ks.scripts, progress.perNode, progress.nodesDone)
    ensures !progress.truncated && !progress.cancelled ==> progress.nodesDone == |ks.scripts|
  {
    progress.nodesTotal := |ks.scripts|;
    var t, stopAll, asked := 0, false, 0;
    while t < |ks.scripts| && !stopAll
      invariant 0 <= t <= |ks.scripts| && Between(ks, p, progress, t, stopAll) && progress.nodesTotal == |ks.scripts|
      invariant StoppedBy(isCancelled, 0, asked, progress.cancelled)
    {
      stopAll, asked := RunTarget(ks, t, p, progress, isCancelled, asked);
      t := t + 1;
    }
    checks := asked;
  }

  // ---------------------------------------------------------------- what a finished run has done

  lemma {:induction false} ReplyKeysTaken(script: Script, i: nat, key: string)
    requires i < |script| && key in script[i]
    ensures key in Keys(script)
  {
    if i < |script| - 1 {
      ReplyKeysTaken(script[..|script| - 1], i, key);
    }
  }

  /**
   When every target is done, an execute run has unlinked every key that any scan returned. So if each scan returned
   all keys that matched throughout it, none of those remains.
   */
  lemma CompleteRunLeavesNoMatch(p: Params, scripts: seq<Script>, perNode: seq<NodeProgress>, nodesDone: nat,
                                 unlinked: seq<seq<string>>, matching: seq<set<string>>)
    requires UnlinkedExactly(p, scripts, perNode, unlinked) && DoneSoFar(scripts, perNode, nodesDone)
    requires p.execute && nodesDone == |scripts| == |matching|
    requires forall t, key :: 0 <= t < |scripts| && key in matching[t] ==>
                                 exists i :: 0 <= i < |scripts[t]| && key in scripts[t][i]
    ensures forall t :: 0 <= t < |scripts| ==> unlinked[t] == Keys(scripts[t])
    ensures forall t, key :: 0 <= t < |scripts| && key in matching[t] ==> key in unlinked[t]
  {
    forall t | 0 <= t < |scripts| ensures unlinked[t] == Keys(scripts[t]) {
      assert perNode[t].cursorDone;
    }
    forall t, key | 0 <= t < |scripts| && key in matching[t] ensures key in unlinked[t] {
      var i :| 0 <= i < |scripts[t]| && key in scripts[t][i];
      ReplyKeysTaken(scripts[t], i, key);
    }
  }

  // ---------------------------------------------------------------- request normalization

  /** A JavaScript number: finite, or one of NaN and the infinities. */
  datatype Number = Finite(value: real) | NotFinite

  datatype Request = Request(pattern: string, count: Option<Number>, batchPauseMs: Option<Number>,
                             maxKeys: Option<Number>, confirmDeleteAll: bool)

  datatype Normalized = Refused(reason: Reason) | Accepted(pattern: string, count: int, batchPauseMs: int,
                                params: Params)

  datatype Reason = EmptyPattern | UnconfirmedCatchAll

  function Trunc(x: real): int { if x >= 0.0 then x.Floor else -((-x).Floor) }

  function ClampInt(value: Option<Number>, min: int, max: int, fallback: int): int {
    if value.None? || value.value.NotFinite? then fallback
    else MinInt(max, MaxInt(min, Trunc(value.value.value)))
  }

  function TrimLeft(s: string): string { if s != [] && IsSpace(s[0]) then TrimLeft(s[1..]) else s }

  function TrimRight(s: string): string { if s != [] && IsSpace(s[|s| - 1]) then TrimRight(s[..|s| - 1]) else s }

  function NormalizeBulkDeleteParams(r: Request, execute: bool): Normalized {
    var pattern := TrimRight(TrimLeft(r.pattern));
    if pattern == [] then Refused(EmptyPattern)
    else if Glob.MatchesEverything(pattern) && !r.confirmDeleteAll then Refused(UnconfirmedCatchAll)
    else
      var cap :=
        if r.maxKeys.Some? && r.maxKeys.value.Finite? && r.maxKeys.value.value > 0.0
          then Some(Trunc(r.maxKeys.value.value))
        else if execute then None else Some(DEFAULT_PREVIEW_MAX_KEYS);
      Accepted(pattern, ClampInt(r.count, MIN_COUNT, MAX_COUNT, DEFAULT_COUNT),
               ClampInt(r.batchPauseMs, MIN_BATCH_PAUSE_MS, MAX_BATCH_PAUSE_MS, MIN_BATCH_PAUSE_MS),
               Params(execute, cap, if execute then DEFAULT_SAMPLE_LIMIT else DEFAULT_PREVIEW_SAMPLE_LIMIT))
  }

  predicate AllSpace(s: string) { forall i :: 0 <= i < |s| ==> IsSpace(s[i]) }

  /** `t` is the text of `s` between its first and its last character that is not white space. */
  ghost predicate TrimmedTo(s: string, t: string) {
    && t != [] && !IsSpace(t[0]) && !IsSpace(t[|t| - 1])
    && exists left, right :: AllSpace(left) && AllSpace(right) && s == left + t + right
  }

  lemma {:induction false} TrimLeftSplits(s: string) returns (left: string)
    ensures AllSpace(left) && s == left + TrimLeft(s)
    ensures TrimLeft(s) != [] ==> !IsSpace(TrimLeft(s)[0])
  {
    left := [];
    if s != [] && IsSpace(s[0]) {
      left := TrimLeftSplits(s[1..]);
      left := [s[0]] + left;
    }
  }

  lemma {:induction false} TrimRightSplits(s: string) returns (right: string)
    ensures AllSpace(right) && s == TrimRight(s) + right
    ensures TrimRight(s) != [] ==> !IsSpace(TrimRight(s)[|TrimRight(s)| - 1])
  {
    right := [];
    if s != [] && IsSpace(s[|s| - 1]) {
      right := TrimRightSplits(s[..|s| - 1]);
      right := right + [s[|s| - 1]];
      assert s == s[..|s| - 1] + [s[|s| - 1]];
    }
  }

  lemma TrimIs(s: string)
    ensures var t := TrimRight(TrimLeft(s));
            if t == [] then AllSpace(s) else TrimmedTo(s, t)
  {
    var left := TrimLeftSplits(s);
    var right := TrimRightSplits(TrimLeft(s));
    var t := TrimRight(TrimLeft(s));
    assert s == left + t + right;
    if t != [] {
      assert TrimLeft(s)[0] == t[0];
    }
  }

  lemma TrimmedOnce(s: string, t: string, u: string)
    requires TrimmedTo(s, t) && TrimmedTo(s, u)
    ensures t == u
  {
    var a, b :| AllSpace(a) && AllSpace(b) && s == a + t + b;
    var c, d :| AllSpace(c) && AllSpace(d) && s == c + u + d;
    assert s[|a|] == t[0] && s[|c|] == u[0];
    assert |a| == |c|;
    assert s[|s| - |b| - 1] == t[|t| - 1] && s[|s| - |d| - 1] == u[|u| - 1];
    assert |b| == |d|;
    assert t == s[|a|..|s| - |b|] == u;
  }

  lemma NotTrimmable(s: string, t: string)
    requires AllSpace(s)
    ensures !TrimmedTo(s, t)
  {
    if a, b :| t != [] && s == a + t + b {
      assert s[|a|] == t[0];
    }
  }

  /** `n` is `x` without its fraction. */
  predicate Whole(x: real, n: int) {
    if x >= 0.0 then n as real <= x < n as real + 1.0 else n as real - 1.0 < x <= n as real
  }

  /** `n` is the whole part of the requested number brought into range, or the fallback if no finite one was given. */
  ghost predicate Clamped(value: Option<Number>, min: int, max: int, fallback: int, n: int) {
    match value
    case Some(Finite(x)) =>
      exists m :: Whole(x, m) && n == if m < min then min else if m > max then max else m
    case _ => n == fallback
  }

  lemma TruncIsWhole(x: real)
    ensures Whole(x, Trunc(x))
  {}

  lemma ClampIs(value: Option<Number>, min: int, max: int, fallback: int)
    requires min <= max
    ensures Clamped(value, min, max, fallback, ClampInt(value, min, max, fallback))
  {
    if value.Some? && value.value.Finite? {
      TruncIsWhole(value.value.value);
    }
  }

  /** The cap of a run: the whole part of a positive request; otherwise none to execute, ten thousand to preview. */
  ghost predicate CappedAt(requested: Option<Number>, execute: bool, cap: Option<int>) {
    match requested
    case Some(Finite(x)) =>
      if x > 0.0 then cap.Some? && Whole(x, cap.value) else cap == if execute then None else Some(10000)
    case _ => cap == if execute then None else Some(10000)
  }

  predicate OnlyStars(t: string) { t != [] && forall i :: 0 <= i < |t| ==> t[i] == '*' }

  /**
   What a request becomes. It is refused if its pattern is blank, or trims to stars only without the confirmation;
   otherwise it is accepted with the trimmed pattern, the requested count and pause cut to whole numbers in range, the
   requested cap, and the sample limit of its mode.
   */
  lemma NormalizationIs(r: Request, execute: bool)
    ensures var n := NormalizeBulkDeleteParams(r, execute);
            && (n == Refused(EmptyPattern) <==> AllSpace(r.pattern))
            && (n == Refused(UnconfirmedCatchAll)
                <==> !r.confirmDeleteAll && exists t :: TrimmedTo(r.pattern, t) && OnlyStars(t))
            && (n.Accepted? ==>
                  && TrimmedTo(r.pattern, n.pattern)
                  && Clamped(r.count, 1, 10000, 500, n.count) && Clamped(r.batchPauseMs, 0, 60000, 0, n.batchPauseMs)
                  && CappedAt(r.maxKeys, execute, n.params.maxKeys)
                  && n.params.execute == execute && n.params.sampleLimit == if execute then 100 else 50)
  {
    var t := TrimRight(TrimLeft(r.pattern));
    TrimIs(r.pattern);
    ClampIs(r.count, MIN_COUNT, MAX_COUNT, DEFAULT_COUNT);
    ClampIs(r.batchPauseMs, MIN_BATCH_PAUSE_MS, MAX_BATCH_PAUSE_MS, MIN_BATCH_PAUSE_MS);
    if r.maxKeys.Some? && r.maxKeys.value.Finite? {
      TruncIsWhole(r.maxKeys.value.value);
    }
    if t != [] && AllSpace(r.pattern) {
      NotTrimmable(r.pattern, t);
    }
    forall u | TrimmedTo(r.pattern, u) ensures t == u {
      if t == [] {
        NotTrimmable(r.pattern, u);
      } else {
        TrimmedOnce(r.pattern, t, u);
      }
    }
  }
}

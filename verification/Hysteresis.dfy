/**
 The escalate-and-acknowledge hysteresis shared by the fork-memory, memory-overhead, load and output-buffer detectors:
 an acknowledged severity that drops with every lower assessment and rises only by an acknowledged emit.
 */
module Hysteresis {
  import opened Prelude

  /** What happens to one detector: a readable assessment, an acknowledged emit, or a poll it could not read. */
  datatype Event = Assessed(score: int) | Acked(score: int) | Gap

  function Track(acked: int, e: Event): int {
    match e
    case Assessed(score) => MinInt(acked, score)
    case Acked(score) => score
    case Gap => acked
  }

  function AckedAfter(run: seq<Event>): int {
    if run == [] then 0 else Track(AckedAfter(run[..|run| - 1]), run[|run| - 1])
  }

  /** The severity last acknowledged, zero at the start. */
  function Base(run: seq<Event>): int {
    if run == [] then 0
    else match run[|run| - 1]
      case Acked(score) => score
      case _ => Base(run[..|run| - 1])
  }

  /** The severities assessed since then. */
  function Since(run: seq<Event>): seq<int> {
    if run == [] then []
    else match run[|run| - 1]
      case Assessed(score) => Since(run[..|run| - 1]) + [score]
      case Acked(_) => []
      case Gap => Since(run[..|run| - 1])
  }

  ghost predicate IsLeast(x: int, base: int, others: seq<int>) {
    && x <= base && (forall i :: 0 <= i < |others| ==> x <= others[i])
    && (x == base || exists i :: 0 <= i < |others| && others[i] == x)
  }

  lemma LeastExtends(x: int, base: int, others: seq<int>, next: int)
    requires IsLeast(x, base, others)
    ensures IsLeast(MinInt(x, next), base, others + [next])
  {
    var all := others + [next];
    assert all[|others|] == next && forall i :: 0 <= i < |others| ==> all[i] == others[i];
  }

  /** The acknowledged severity is the least of the last acknowledged one and all assessed since. */
  lemma {:induction false} AckedIsMinimum(run: seq<Event>)
    ensures IsLeast(AckedAfter(run), Base(run), Since(run))
  {
    if run != [] {
      var init, last := run[..|run| - 1], run[|run| - 1];
      AckedIsMinimum(init);
      if last.Assessed? {
        LeastExtends(AckedAfter(init), Base(init), Since(init), last.score);
      }
    }
  }

  /** A finding is returned when the assessed severity exceeds the acknowledged one. */
  predicate Fires(run: seq<Event>, score: int) { score > AckedAfter(run) }

  /** A severity fires exactly when it exceeds the last acknowledged one or something assessed since was lower. */
  lemma FiresIff(run: seq<Event>, score: int)
    ensures Fires(run, score) <==> score > Base(run) || exists i :: 0 <= i < |Since(run)| && Since(run)[i] < score
  {
    AckedIsMinimum(run);
    if AckedAfter(run) != Base(run) {
      var i :| 0 <= i < |Since(run)| && Since(run)[i] == AckedAfter(run);
      assert Fires(run, score) ==> Since(run)[i] < score;
    }
  }

  ghost predicate NoAck(more: seq<Event>) { forall i :: 0 <= i < |more| ==> !more[i].Acked? }

  /** Until something is acknowledged, a severity that fired keeps firing, whatever is assessed in between. */
  lemma {:induction false} RecursUntilAcked(run: seq<Event>, more: seq<Event>, score: int)
    requires Fires(run, score) && NoAck(more)
    ensures Fires(run + more, score)
    decreases |more|
  {
    if more == [] {
      assert run + more == run;
    } else {
      var init := more[..|more| - 1];
      RecursUntilAcked(run, init, score);
      assert (run + more)[..|run + more| - 1] == run + init;
    }
  }

  /** After an acknowledgement the same severity stays silent until a strictly lower one is assessed. */
  lemma {:induction false} SilentUntilDrop(run: seq<Event>, score: int, more: seq<Event>)
    requires NoAck(more) && forall i :: 0 <= i < |more| && more[i].Assessed? ==> more[i].score >= score
    ensures AckedAfter(run + [Acked(score)] + more) == score && !Fires(run + [Acked(score)] + more, score)
    decreases |more|
  {
    var all := run + [Acked(score)] + more;
    if more == [] {
      assert all[..|all| - 1] == run && all[|all| - 1] == Acked(score);
    } else {
      var init := more[..|more| - 1];
      SilentUntilDrop(run, score, init);
      assert all[..|all| - 1] == run + [Acked(score)] + init && all[|all| - 1] == more[|more| - 1];
    }
  }
}

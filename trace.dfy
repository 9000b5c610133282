/** The trace tail of `job_last`: `trace.split("\n").splice(-5)`. */
module Trace {
  import opened Text

  /** How many lines of the trace the job card keeps. */
  const TailLines := 5

  predicate IsSuffix(a: string, b: string) {
    |a| <= |b| && b[|b| - |a|..] == a
  }

  /**
   * `splice(-5)` removes and returns the elements from index `max(n - 5, 0)` on, so the tail is
   * the last `min(5, n)` lines of the trace, in their original order.
   */
  function TraceTail(trace: string): (tail: seq<string>)
    ensures var lines := SplitOn(trace, '\n');
      && |tail| == (if |lines| < TailLines then |lines| else TailLines)
      && tail == lines[|lines| - |tail|..]
  {
    var lines := SplitOn(trace, '\n');
    var start := if |lines| < TailLines then 0 else |lines| - TailLines;
    lines[start..]
  }

  /** Joining a suffix of the pieces gives a suffix of the joined text. */
  lemma {:induction false} JoinDropIsSuffix(pieces: seq<string>, k: nat, sep: string)
    requires k < |pieces|
    ensures IsSuffix(Join(pieces[k..], sep), Join(pieces, sep))
  {
    if k > 0 {
      assert |pieces| >= 2;
      JoinDropIsSuffix(pieces[1..], k - 1, sep);
      assert pieces[1..][k - 1..] == pieces[k..];
      var whole := Join(pieces, sep);
      var tail := Join(pieces[1..], sep);
      assert whole == (pieces[0] + sep) + tail;
      var part := Join(pieces[k..], sep);
      assert whole[|whole| - |tail|..] == tail;
      assert whole[|whole| - |part|..] == tail[|tail| - |part|..];
    }
  }

  /** The lines the job card shows are, joined back, the end of the trace. */
  lemma TailIsEndOfTrace(trace: string)
    ensures IsSuffix(Join(TraceTail(trace), "\n"), trace)
  {
    var lines := SplitOn(trace, '\n');
    JoinSplitOn(trace, '\n');
    JoinDropIsSuffix(lines, |lines| - |TraceTail(trace)|, "\n");
  }

  /** A trace of at most five lines is shown whole. */
  lemma ShortTraceShownWhole(trace: string)
    requires |SplitOn(trace, '\n')| <= TailLines
    ensures Join(TraceTail(trace), "\n") == trace
  {
    var lines := SplitOn(trace, '\n');
    assert TraceTail(trace) == lines;
    JoinSplitOn(trace, '\n');
  }
}

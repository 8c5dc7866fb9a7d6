/**
  What the driver does to the GPIO bank, as a trace of events, and what the
  chip sees of such a trace: the value buffer written out at each commit.
 */
module Wire {
  import opened Gpio

  /**
    `Set` stages one line level in the value buffer, `Commit` writes the
    value buffer out to the requested lines in one operation, `Hold600us` is the 600 microsecond
    wait that makes the chip latch on its own.
   */
  datatype Event = Set(line: Line, level: bool) | Commit | Hold600us

  /** Number of occurrences of an event in a trace. */
  function Count(trace: seq<Event>, e: Event): nat
    decreases |trace|
  {
    if |trace| == 0 then 0
    else (if trace[0] == e then 1 else 0) + Count(trace[1..], e)
  }

  lemma {:induction false} CountAppend(t1: seq<Event>, t2: seq<Event>, e: Event)
    ensures Count(t1 + t2, e) == Count(t1, e) + Count(t2, e)
    decreases |t1|
  {
    if |t1| == 0 {
      assert t1 + t2 == t2;
    } else {
      assert (t1 + t2)[0] == t1[0];
      assert (t1 + t2)[1..] == t1[1..] + t2;
      CountAppend(t1[1..], t2, e);
    }
  }

  /** Effect of one event on the value buffer. */
  function Apply(lines: Bits, e: Event): Bits
  {
    match e
    case Set(line, level) => SetLine(lines, line, level)
    case _ => lines
  }

  /** The buffer after a trace, and the buffer written out by each commit, in order. */
  datatype Observed = Observed(final: Bits, commits: seq<Bits>)

  function Replay(lines: Bits, trace: seq<Event>): (o: Observed)
    ensures |o.commits| == Count(trace, Commit)
    decreases |trace|
  {
    if |trace| == 0 then Observed(lines, [])
    else
      var rest := Replay(Apply(lines, trace[0]), trace[1..]);
      if trace[0] == Commit then Observed(rest.final, [lines] + rest.commits)
      else rest
  }

  lemma ReplaySingle(lines: Bits, e: Event)
    ensures Replay(lines, [e]) == Observed(Apply(lines, e), if e == Commit then [lines] else [])
  {
    assert [e][1..] == [];
  }

  /** Replaying two traces back to back is replaying their concatenation. */
  lemma {:induction false} ReplayAppend(lines: Bits, t1: seq<Event>, t2: seq<Event>)
    ensures var o1 := Replay(lines, t1);
            var o2 := Replay(o1.final, t2);
            Replay(lines, t1 + t2) == Observed(o2.final, o1.commits + o2.commits)
    decreases |t1|
  {
    if |t1| == 0 {
      assert t1 + t2 == t2;
    } else {
      assert (t1 + t2)[0] == t1[0];
      assert (t1 + t2)[1..] == t1[1..] + t2;
      ReplayAppend(Apply(lines, t1[0]), t1[1..], t2);
    }
  }
}

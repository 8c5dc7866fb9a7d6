/**
  The frame serialiser of the NU801 driver: every channel's 16-bit PWM value
  shifted out MSB first over the clock and data lines, followed by one of the
  two latch mechanisms of the chip.
 */
module Frame {
  import opened Gpio
  import opened Wire
  import opened Pwm

  /** Each channel is one 16-bit PWM value. */
  const ChannelBits: nat := 16

  /**
    One pass of the inner bit loop: stage the data bit and a high clock,
    commit, optionally hold the clock high for 600 microseconds, then stage a
    low clock and commit again.
   */
  function BitCycle(level: bool, hold: bool): (cycle: seq<Event>)
    ensures |cycle| == 5 + (if hold then 1 else 0)
    ensures cycle[0] == Set(Sdi, level) && cycle[1] == Set(Cki, true) && cycle[2] == Commit
    ensures cycle[|cycle| - 2] == Set(Cki, false) && cycle[|cycle| - 1] == Commit
    ensures cycle[3] == Hold600us <==> hold
  {
    [Set(Sdi, level), Set(Cki, true), Commit]
    + (if hold then [Hold600us] else [])
    + [Set(Cki, false), Commit]
  }

  /**
    The inner loop `for (bit = 0x8000; bit; bit >>= 1)` for one channel, with
    `bits` passes left: the current mask is `1 << (bits - 1)`, so the loop
    ends when `bits` reaches 0, and `bit == 1` exactly when `bits == 1`.
   */
  function ShiftOut(hw: nat, bits: nat, lastChannel: bool, lei: int): (trace: seq<Event>)
    ensures |trace| == 5 * bits + (if lastChannel && lei < 0 && bits > 0 then 1 else 0)
    decreases bits
  {
    if bits == 0 then []
    else
      BitCycle(Bit(hw, bits - 1), lastChannel && bits == 1 && lei < 0)
      + ShiftOut(hw, bits - 1, lastChannel, lei)
  }

  /** The outer loop, over channels `i` to `|brightness| - 1`. */
  function SendChannels(brightness: seq<int>, i: nat, lei: int): (trace: seq<Event>)
    requires i <= |brightness|
    ensures |trace| == 80 * (|brightness| - i) + (if lei < 0 && i < |brightness| then 1 else 0)
    decreases |brightness| - i
  {
    if i == |brightness| then []
    else
      ShiftOut(HwVal(brightness[i]), ChannelBits, i == |brightness| - 1, lei)
      + SendChannels(brightness, i + 1, lei)
  }

  /** The explicit latch pulse, sent when a latch line is wired. */
  function LatchPulse(lei: int): (pulse: seq<Event>)
    ensures lei < 0 ==> pulse == []
    ensures lei >= 0 ==> |pulse| == 4 && pulse[0] == Set(Lei, true) && pulse[2] == Set(Lei, false)
    ensures lei >= 0 ==> pulse[1] == Commit && pulse[3] == Commit
  {
    if lei >= 0 then [Set(Lei, true), Commit, Set(Lei, false), Commit] else []
  }

  /**
    One frame for the channels `brightness[0..]`, channel 0 first. `lei` is
    the latch line offset; it is an `int` here so that both latch tests can be
    written as they read in the source.
   */
  function HandleLeds(brightness: seq<int>, lei: int): (trace: seq<Event>)
    ensures Count(trace, Commit) == 32 * |brightness| + (if lei >= 0 then 2 else 0)
  {
    SendChannelsIsSerialise(brightness, 0, lei);
    assert brightness[0..] == brightness;
    SerialiseCounts(DataBits(brightness), lei < 0);
    LatchCounts(lei);
    CountAppend(SendChannels(brightness, 0, lei), LatchPulse(lei), Commit);
    SendChannels(brightness, 0, lei) + LatchPulse(lei)
  }

  // ---------------------------------------------------------------------
  // Reference definitions

  /** Bits `bits - 1` down to 0 of `hw`, most significant first. */
  function MsbFirst(hw: nat, bits: nat): seq<bool>
  {
    seq(bits, k requires 0 <= k < bits => Bit(hw, bits - 1 - k))
  }

  /** The data bits of a frame: each channel's hardware value MSB first, channel 0 first. */
  function DataBits(brightness: seq<int>): (d: seq<bool>)
    ensures |d| == ChannelBits * |brightness|
    decreases |brightness|
  {
    if |brightness| == 0 then []
    else MsbFirst(HwVal(brightness[0]), ChannelBits) + DataBits(brightness[1..])
  }

  /**
    Flat serialiser: one clock cycle per data bit, with the 600 microsecond
    hold on the final bit when `pseudoLatch` is set.
   */
  function Serialise(data: seq<bool>, pseudoLatch: bool): seq<Event>
    decreases |data|
  {
    if |data| == 0 then []
    else BitCycle(data[0], pseudoLatch && |data| == 1) + Serialise(data[1..], pseudoLatch)
  }

  /**
    The lines as committed on the rising clock edge of a data bit: the clock
    high, the bit on the data line, every other line as before.
   */
  function ClockHigh(lines: Bits, level: bool): (r: Bits)
    ensures r[Offset(Cki)] && r[Offset(Sdi)] == level
    ensures forall j :: 0 <= j < Width && j != Offset(Cki) && j != Offset(Sdi) ==> r[j] == lines[j]
  {
    SetLine(SetLine(lines, Sdi, level), Cki, true)
  }

  /** The lines as committed on the falling clock edge of a data bit. */
  function ClockLow(lines: Bits, level: bool): Bits
  {
    SetLine(SetLine(lines, Sdi, level), Cki, false)
  }

  // ---------------------------------------------------------------------
  // The nested loops are the flat serialiser

  lemma {:induction false} ShiftOutIsSerialise(hw: nat, bits: nat, lastChannel: bool, lei: int)
    ensures ShiftOut(hw, bits, lastChannel, lei) == Serialise(MsbFirst(hw, bits), lastChannel && lei < 0)
    decreases bits
  {
    if bits > 0 {
      var m := MsbFirst(hw, bits);
      assert m[0] == Bit(hw, bits - 1);
      assert m[1..] == MsbFirst(hw, bits - 1);
      ShiftOutIsSerialise(hw, bits - 1, lastChannel, lei);
    }
  }

  lemma {:induction false} SerialiseAppend(d1: seq<bool>, d2: seq<bool>, pseudoLatch: bool)
    ensures Serialise(d1 + d2, pseudoLatch)
            == Serialise(d1, pseudoLatch && |d2| == 0) + Serialise(d2, pseudoLatch)
    decreases |d1|
  {
    if |d1| == 0 {
      assert d1 + d2 == d2;
    } else {
      assert (d1 + d2)[0] == d1[0];
      assert (d1 + d2)[1..] == d1[1..] + d2;
      SerialiseAppend(d1[1..], d2, pseudoLatch);
    }
  }

  lemma {:induction false} SendChannelsIsSerialise(brightness: seq<int>, i: nat, lei: int)
    requires i <= |brightness|
    ensures SendChannels(brightness, i, lei) == Serialise(DataBits(brightness[i..]), lei < 0)
    decreases |brightness| - i
  {
    if i < |brightness| {
      var hw := HwVal(brightness[i]);
      var m := MsbFirst(hw, ChannelBits);
      var tail := DataBits(brightness[i + 1..]);
      var last := i == |brightness| - 1;
      var x := ShiftOut(hw, ChannelBits, last, lei);
      var y := SendChannels(brightness, i + 1, lei);
      assert SendChannels(brightness, i, lei) == x + y;
      assert x == Serialise(m, last && lei < 0) by {
        ShiftOutIsSerialise(hw, ChannelBits, last, lei);
      }
      assert y == Serialise(tail, lei < 0) by {
        SendChannelsIsSerialise(brightness, i + 1, lei);
      }
      assert Serialise(m + tail, lei < 0) == Serialise(m, last && lei < 0) + Serialise(tail, lei < 0) by {
        assert (|tail| == 0) == last;
        SerialiseAppend(m, tail, lei < 0);
      }
      assert DataBits(brightness[i..]) == m + tail by {
        var rest := brightness[i..];
        assert rest[0] == brightness[i];
        assert rest[1..] == brightness[i + 1..];
      }
    } else {
      assert brightness[i..] == [];
    }
  }

  /** A frame is the flat serialisation of its data bits followed by the explicit latch. */
  lemma HandleLedsIsSerialise(brightness: seq<int>, lei: int)
    ensures HandleLeds(brightness, lei) == Serialise(DataBits(brightness), lei < 0) + LatchPulse(lei)
  {
    SendChannelsIsSerialise(brightness, 0, lei);
    assert brightness[0..] == brightness;
  }

  // ---------------------------------------------------------------------
  // Properties of the flat serialiser

  lemma CountSingle(x: Event, e: Event)
    ensures Count([x], e) == if x == e then 1 else 0
  {
    assert [x][1..] == [];
  }

  /** How often any event `e` occurs in one bit cycle. */
  lemma BitCycleCount(level: bool, hold: bool, e: Event)
    ensures Count(BitCycle(level, hold), e)
            == (if e == Set(Sdi, level) then 1 else 0)
               + (if e == Set(Cki, true) then 1 else 0)
               + (if e == Commit then 2 else 0)
               + (if e == Set(Cki, false) then 1 else 0)
               + (if hold && e == Hold600us then 1 else 0)
  {
    var h: seq<Event> := if hold then [Hold600us] else [];
    var sdi: seq<Event> := [Set(Sdi, level)];
    var up: seq<Event> := [Set(Cki, true)];
    var commit: seq<Event> := [Commit];
    var down: seq<Event> := [Set(Cki, false)];
    assert BitCycle(level, hold) == sdi + (up + (commit + (h + (down + commit))));
    CountAppend(down, commit, e);
    CountAppend(h, down + commit, e);
    CountAppend(commit, h + (down + commit), e);
    CountAppend(up, commit + (h + (down + commit)), e);
    CountAppend(sdi, up + (commit + (h + (down + commit))), e);
    CountSingle(Set(Sdi, level), e);
    CountSingle(Set(Cki, true), e);
    CountSingle(Commit, e);
    CountSingle(Set(Cki, false), e);
    if hold {
      CountSingle(Hold600us, e);
    }
  }

  /**
    The instances of `BitCycleCount` that the serialiser's counts need,
    stated once here so that the induction step of `SerialiseCounts` works
    with ground facts rather than the general per-event formula.
   */
  lemma BitCycleCounts(level: bool, hold: bool)
    ensures var c := BitCycle(level, hold);
            && Count(c, Commit) == 2
            && Count(c, Set(Cki, true)) == 1
            && Count(c, Set(Cki, false)) == 1
            && Count(c, Set(Sdi, level)) == 1
            && Count(c, Set(Sdi, !level)) == 0
            && Count(c, Set(Lei, true)) == 0
            && Count(c, Set(Lei, false)) == 0
            && Count(c, Hold600us) == (if hold then 1 else 0)
  {
    BitCycleCount(level, hold, Commit);
    BitCycleCount(level, hold, Set(Cki, true));
    BitCycleCount(level, hold, Set(Cki, false));
    BitCycleCount(level, hold, Set(Sdi, level));
    BitCycleCount(level, hold, Set(Sdi, !level));
    BitCycleCount(level, hold, Set(Lei, true));
    BitCycleCount(level, hold, Set(Lei, false));
    BitCycleCount(level, hold, Hold600us);
  }

  lemma {:induction false} SerialiseCounts(data: seq<bool>, pseudoLatch: bool)
    ensures var s := Serialise(data, pseudoLatch);
            && Count(s, Commit) == 2 * |data|
            && Count(s, Set(Cki, true)) == |data|
            && Count(s, Set(Cki, false)) == |data|
            && Count(s, Set(Sdi, true)) + Count(s, Set(Sdi, false)) == |data|
            && Count(s, Set(Lei, true)) == 0
            && Count(s, Set(Lei, false)) == 0
            && Count(s, Hold600us) == (if pseudoLatch && |data| > 0 then 1 else 0)
    decreases |data|
  {
    if |data| > 0 {
      var f := pseudoLatch && |data| == 1;
      BitCycleCounts(data[0], f);
      SerialiseCounts(data[1..], pseudoLatch);
      var c := BitCycle(data[0], f);
      var r := Serialise(data[1..], pseudoLatch);
      forall e: Event
        ensures Count(c + r, e) == Count(c, e) + Count(r, e)
      {
        CountAppend(c, r, e);
      }
    }
  }

  /** Rewriting clock and data overrides whatever the previous bit left on them. */
  lemma Restage(lines: Bits, previous: bool, level: bool)
    ensures ClockHigh(ClockLow(lines, previous), level) == ClockHigh(lines, level)
    ensures ClockLow(ClockLow(lines, previous), level) == ClockLow(lines, level)
  {
  }

  /** The first half of a bit cycle: stage the bit and a high clock, then commit. */
  lemma RiseOnWire(lines: Bits, level: bool)
    ensures Replay(lines, [Set(Sdi, level), Set(Cki, true), Commit])
            == Observed(ClockHigh(lines, level), [ClockHigh(lines, level)])
  {
    var staged := SetLine(lines, Sdi, level);
    var hi := ClockHigh(lines, level);
    ReplaySingle(lines, Set(Sdi, level));
    ReplaySingle(staged, Set(Cki, true));
    ReplaySingle(hi, Commit);
    ReplayAppend(staged, [Set(Cki, true)], [Commit]);
    ReplayAppend(lines, [Set(Sdi, level)], [Set(Cki, true)] + [Commit]);
    assert [Set(Sdi, level), Set(Cki, true), Commit] == [Set(Sdi, level)] + ([Set(Cki, true)] + [Commit]);
  }

  /** The second half of a bit cycle: stage a low clock, then commit. */
  lemma FallOnWire(lines: Bits, level: bool)
    ensures Replay(ClockHigh(lines, level), [Set(Cki, false), Commit])
            == Observed(ClockLow(lines, level), [ClockLow(lines, level)])
  {
    var hi := ClockHigh(lines, level);
    var lo := ClockLow(lines, level);
    ReplaySingle(hi, Set(Cki, false));
    SetLineTwice(SetLine(lines, Sdi, level), Cki, true, false);
    ReplaySingle(lo, Commit);
    ReplayAppend(hi, [Set(Cki, false)], [Commit]);
    assert [Set(Cki, false), Commit] == [Set(Cki, false)] + [Commit];
  }

  lemma BitCycleOnWire(lines: Bits, level: bool, hold: bool)
    ensures Replay(lines, BitCycle(level, hold))
            == Observed(ClockLow(lines, level), [ClockHigh(lines, level), ClockLow(lines, level)])
  {
    var rise: seq<Event> := [Set(Sdi, level), Set(Cki, true), Commit];
    var h: seq<Event> := if hold then [Hold600us] else [];
    var fall: seq<Event> := [Set(Cki, false), Commit];
    var hi := ClockHigh(lines, level);
    var lo := ClockLow(lines, level);
    assert Replay(hi, h + fall) == Observed(lo, [lo]) by {
      if hold {
        ReplaySingle(hi, Hold600us);
      }
      FallOnWire(lines, level);
      ReplayAppend(hi, h, fall);
    }
    assert Replay(lines, rise + (h + fall)) == Observed(lo, [hi, lo]) by {
      RiseOnWire(lines, level);
      ReplayAppend(lines, rise, h + fall);
    }
    assert BitCycle(level, hold) == rise + (h + fall);
  }

  /**
    `commits` are the commits of clocking out `data` from `lines`: for each
    bit a rising-edge commit followed by a falling-edge commit.
   */
  ghost predicate Clocked(lines: Bits, data: seq<bool>, commits: seq<Bits>)
  {
    && |commits| == 2 * |data|
    && forall k :: 0 <= k < |data| ==>
         commits[2 * k] == ClockHigh(lines, data[k]) && commits[2 * k + 1] == ClockLow(lines, data[k])
  }

  lemma ClockedCons(lines: Bits, level: bool, rest: seq<bool>, commits: seq<Bits>)
    requires Clocked(ClockLow(lines, level), rest, commits)
    ensures Clocked(lines, [level] + rest,
                    [ClockHigh(lines, level), ClockLow(lines, level)] + commits)
  {
    var data := [level] + rest;
    var all := [ClockHigh(lines, level), ClockLow(lines, level)] + commits;
    forall k | 0 <= k < |data|
      ensures all[2 * k] == ClockHigh(lines, data[k]) && all[2 * k + 1] == ClockLow(lines, data[k])
    {
      if k > 0 {
        assert all[2 * k] == commits[2 * (k - 1)];
        assert all[2 * k + 1] == commits[2 * (k - 1) + 1];
        assert data[k] == rest[k - 1];
        Restage(lines, level, data[k]);
      }
    }
  }

  /**
    What the chip sees of a flat serialisation: two commits per data bit, the
    first with the clock high and the bit on the data line, the second with
    the clock low and the same bit still on the data line.
   */
  lemma {:induction false} SerialiseOnWire(lines: Bits, data: seq<bool>, pseudoLatch: bool)
    ensures Clocked(lines, data, Replay(lines, Serialise(data, pseudoLatch)).commits)
    ensures Replay(lines, Serialise(data, pseudoLatch)).final
            == if |data| == 0 then lines else ClockLow(lines, data[|data| - 1])
    decreases |data|
  {
    if |data| > 0 {
      var f := pseudoLatch && |data| == 1;
      var after := ClockLow(lines, data[0]);
      var rest := data[1..];
      var c := BitCycle(data[0], f);
      var r := Serialise(rest, pseudoLatch);
      var o2 := Replay(after, r);
      assert Replay(lines, Serialise(data, pseudoLatch))
             == Observed(o2.final, [ClockHigh(lines, data[0]), after] + o2.commits) by {
        assert Serialise(data, pseudoLatch) == c + r;
        BitCycleOnWire(lines, data[0], f);
        ReplayAppend(lines, c, r);
      }
      SerialiseOnWire(after, rest, pseudoLatch);
      assert data == [data[0]] + rest;
      ClockedCons(lines, data[0], rest, o2.commits);
      if |rest| > 0 {
        Restage(lines, data[0], data[|data| - 1]);
      }
    }
  }

  lemma LatchCounts(lei: int)
    ensures var p := LatchPulse(lei);
            && Count(p, Commit) == (if lei >= 0 then 2 else 0)
            && Count(p, Set(Lei, true)) == (if lei >= 0 then 1 else 0)
            && Count(p, Set(Lei, false)) == (if lei >= 0 then 1 else 0)
            && Count(p, Set(Cki, true)) == 0
            && Count(p, Set(Cki, false)) == 0
            && Count(p, Set(Sdi, true)) == 0
            && Count(p, Set(Sdi, false)) == 0
            && Count(p, Hold600us) == 0
  {
    if lei >= 0 {
      var a: seq<Event> := [Set(Lei, true)];
      var b: seq<Event> := [Commit];
      var c: seq<Event> := [Set(Lei, false)];
      assert LatchPulse(lei) == a + (b + (c + b));
      forall e: Event
        ensures Count(LatchPulse(lei), e) == Count(a, e) + 2 * Count(b, e) + Count(c, e)
      {
        CountAppend(c, b, e);
        CountAppend(b, c + b, e);
        CountAppend(a, b + (c + b), e);
        CountSingle(Set(Lei, true), e);
        CountSingle(Commit, e);
        CountSingle(Set(Lei, false), e);
      }
    }
  }

  lemma LatchOnWire(lines: Bits, lei: int)
    requires lei >= 0
    ensures var hi := SetLine(lines, Lei, true);
            Replay(lines, LatchPulse(lei)).commits == [hi, SetLine(hi, Lei, false)]
  {
    var hi := SetLine(lines, Lei, true);
    var lo := SetLine(hi, Lei, false);
    var up: seq<Event> := [Set(Lei, true)];
    var commit: seq<Event> := [Commit];
    var down: seq<Event> := [Set(Lei, false)];
    ReplaySingle(lines, Set(Lei, true));
    ReplaySingle(hi, Commit);
    ReplaySingle(hi, Set(Lei, false));
    ReplaySingle(lo, Commit);
    ReplayAppend(hi, down, commit);
    ReplayAppend(hi, commit, down + commit);
    ReplayAppend(lines, up, commit + (down + commit));
    assert LatchPulse(lei) == up + (commit + (down + commit));
  }

  // ---------------------------------------------------------------------
  // Properties of a frame

  /** The k-th data bit of channel c is bit 15 - k of its hardware value. */
  lemma {:induction false} DataBitsMsbFirst(brightness: seq<int>, c: nat, k: nat)
    requires c < |brightness| && k < ChannelBits
    ensures DataBits(brightness)[ChannelBits * c + k] == Bit(HwVal(brightness[c]), 15 - k)
    decreases c
  {
    if c > 0 {
      DataBitsMsbFirst(brightness[1..], c - 1, k);
      assert brightness[1..][c - 1] == brightness[c];
    }
  }

  /** Clock and data-line events of a data stream followed by the latch `lei` selects. */
  lemma StreamClockCounts(d: seq<bool>, lei: int)
    ensures var t := Serialise(d, lei < 0) + LatchPulse(lei);
            && Count(t, Set(Cki, true)) == |d|
            && Count(t, Set(Cki, false)) == |d|
            && Count(t, Set(Sdi, true)) + Count(t, Set(Sdi, false)) == |d|
  {
    var s := Serialise(d, lei < 0);
    var p := LatchPulse(lei);
    assert Count(s + p, Set(Cki, true)) == |d| by {
      SerialiseCounts(d, lei < 0);
      LatchCounts(lei);
      CountAppend(s, p, Set(Cki, true));
    }
    assert Count(s + p, Set(Cki, false)) == |d| by {
      SerialiseCounts(d, lei < 0);
      LatchCounts(lei);
      CountAppend(s, p, Set(Cki, false));
    }
    assert Count(s + p, Set(Sdi, true)) + Count(s + p, Set(Sdi, false)) == |d| by {
      SerialiseCounts(d, lei < 0);
      LatchCounts(lei);
      CountAppend(s, p, Set(Sdi, true));
      CountAppend(s, p, Set(Sdi, false));
    }
  }

  /** Commits, holds and latch-line events of a data stream followed by the latch `lei` selects. */
  lemma StreamLatchCounts(d: seq<bool>, lei: int)
    ensures var t := Serialise(d, lei < 0) + LatchPulse(lei);
            && Count(t, Commit) == 2 * |d| + (if lei >= 0 then 2 else 0)
            && Count(t, Hold600us) == (if lei < 0 && |d| > 0 then 1 else 0)
            && Count(t, Set(Lei, true)) == (if lei >= 0 then 1 else 0)
            && Count(t, Set(Lei, false)) == (if lei >= 0 then 1 else 0)
  {
    var s := Serialise(d, lei < 0);
    var p := LatchPulse(lei);
    assert Count(s + p, Commit) == 2 * |d| + (if lei >= 0 then 2 else 0) by {
      SerialiseCounts(d, lei < 0);
      LatchCounts(lei);
      CountAppend(s, p, Commit);
    }
    assert Count(s + p, Hold600us) == (if lei < 0 && |d| > 0 then 1 else 0) by {
      SerialiseCounts(d, lei < 0);
      LatchCounts(lei);
      CountAppend(s, p, Hold600us);
    }
    assert Count(s + p, Set(Lei, true)) == (if lei >= 0 then 1 else 0) by {
      SerialiseCounts(d, lei < 0);
      LatchCounts(lei);
      CountAppend(s, p, Set(Lei, true));
    }
    assert Count(s + p, Set(Lei, false)) == (if lei >= 0 then 1 else 0) by {
      SerialiseCounts(d, lei < 0);
      LatchCounts(lei);
      CountAppend(s, p, Set(Lei, false));
    }
  }

  /**
    Counting a frame: 16 clock pulses and 16 data-line sets per channel, two
    commits per bit plus two for the explicit latch, at most one 600
    microsecond hold, and the latch line touched only in three-wire mode.
   */
  lemma FrameCounts(brightness: seq<int>, lei: int)
    ensures var t := HandleLeds(brightness, lei);
            var n := |brightness|;
            && Count(t, Set(Cki, true)) == ChannelBits * n
            && Count(t, Set(Cki, false)) == ChannelBits * n
            && Count(t, Set(Sdi, true)) + Count(t, Set(Sdi, false)) == ChannelBits * n
            && Count(t, Commit) == 2 * ChannelBits * n + (if lei >= 0 then 2 else 0)
            && Count(t, Hold600us) == (if lei < 0 && n > 0 then 1 else 0)
            && Count(t, Set(Lei, true)) == (if lei >= 0 then 1 else 0)
            && Count(t, Set(Lei, false)) == (if lei >= 0 then 1 else 0)
  {
    var d := DataBits(brightness);
    assert HandleLeds(brightness, lei) == Serialise(d, lei < 0) + LatchPulse(lei) by {
      HandleLedsIsSerialise(brightness, lei);
    }
    StreamClockCounts(d, lei);
    StreamLatchCounts(d, lei);
  }

  /** After the data bits, the lines are as the last commit left them. */
  lemma SerialiseEndsAsLastCommit(lines: Bits, data: seq<bool>, pseudoLatch: bool)
    ensures var o := Replay(lines, Serialise(data, pseudoLatch));
            o.final == if |o.commits| == 0 then lines else o.commits[|o.commits| - 1]
  {
    var o := Replay(lines, Serialise(data, pseudoLatch));
    SerialiseOnWire(lines, data, pseudoLatch);
    if |data| > 0 {
      var k := |data| - 1;
      assert o.commits[2 * k + 1] == ClockLow(lines, data[k]);
      assert |o.commits| - 1 == 2 * k + 1;
    }
  }

  /** The explicit latch pulse after a data stream, as the chip sees it. */
  lemma LatchAfterData(lines: Bits, d: seq<bool>, lei: int)
    requires lei >= 0
    ensures var w := Replay(lines, Serialise(d, false) + LatchPulse(lei)).commits;
            && |w| == 2 * |d| + 2
            && var before := if |d| == 0 then lines else w[2 * |d| - 1];
            && w[2 * |d|] == SetLine(before, Lei, true)
            && w[2 * |d| + 1] == SetLine(w[2 * |d|], Lei, false)
  {
    var o := Replay(lines, Serialise(d, false));
    var w := Replay(lines, Serialise(d, false) + LatchPulse(lei)).commits;
    var l := Replay(o.final, LatchPulse(lei)).commits;
    assert w == o.commits + l by {
      ReplayAppend(lines, Serialise(d, false), LatchPulse(lei));
    }
    assert |o.commits| == 2 * |d| by {
      SerialiseOnWire(lines, d, false);
    }
    assert o.final == if |o.commits| == 0 then lines else o.commits[|o.commits| - 1] by {
      SerialiseEndsAsLastCommit(lines, d, false);
    }
    var hi := SetLine(o.final, Lei, true);
    assert l == [hi, SetLine(hi, Lei, false)] by {
      LatchOnWire(o.final, lei);
    }
    var before := if |d| == 0 then lines else w[2 * |d| - 1];
    assert before == o.final by {
      if |d| > 0 {
        assert w[2 * |d| - 1] == o.commits[|o.commits| - 1];
      }
    }
    assert w[2 * |d|] == l[0];
    assert w[2 * |d| + 1] == l[1];
  }

  /** The commits of a data stream and its latch: two per data bit, clocked in order, then the latch commits. */
  lemma StreamOnWire(lines: Bits, d: seq<bool>, lei: int)
    ensures var w := Replay(lines, Serialise(d, lei < 0) + LatchPulse(lei)).commits;
            && |w| == 2 * |d| + (if lei >= 0 then 2 else 0)
            && Clocked(lines, d, w[..2 * |d|])
  {
    var s := Serialise(d, lei < 0);
    var o := Replay(lines, s);
    var w := Replay(lines, s + LatchPulse(lei)).commits;
    var l := Replay(o.final, LatchPulse(lei)).commits;
    assert w == o.commits + l by {
      ReplayAppend(lines, s, LatchPulse(lei));
    }
    assert |l| == (if lei >= 0 then 2 else 0) by {
      LatchCounts(lei);
    }
    assert Clocked(lines, d, o.commits) by {
      SerialiseOnWire(lines, d, lei < 0);
    }
    assert w[..2 * |d|] == o.commits;
  }

  /**
    The commits `w` of a frame with data bits `d`, starting from `lines`: the
    data bits clocked out in order (see `Clocked`), and in three-wire mode two
    more commits that raise and then lower the latch line and change nothing
    else.
   */
  ghost predicate LatchedOnWire(lines: Bits, d: seq<bool>, lei: int, w: seq<Bits>)
  {
    && |w| == 2 * |d| + (if lei >= 0 then 2 else 0)
    && Clocked(lines, d, w[..2 * |d|])
    && (lei >= 0 ==>
          var before := if |d| == 0 then lines else w[2 * |d| - 1];
          && w[2 * |d|] == SetLine(before, Lei, true)
          && w[2 * |d| + 1] == SetLine(w[2 * |d|], Lei, false))
  }

  /** The commits of a data stream followed by the latch `lei` selects. */
  lemma StreamFrameOnWire(lines: Bits, d: seq<bool>, lei: int)
    ensures LatchedOnWire(lines, d, lei, Replay(lines, Serialise(d, lei < 0) + LatchPulse(lei)).commits)
  {
    StreamOnWire(lines, d, lei);
    if lei >= 0 {
      LatchAfterData(lines, d, lei);
    }
  }

  /** The commits of a frame as the chip sees them, starting from any line state. */
  lemma FrameOnWire(lines: Bits, brightness: seq<int>, lei: int)
    ensures LatchedOnWire(lines, DataBits(brightness), lei, Replay(lines, HandleLeds(brightness, lei)).commits)
  {
    var d := DataBits(brightness);
    var w := Replay(lines, HandleLeds(brightness, lei)).commits;
    var v := Replay(lines, Serialise(d, lei < 0) + LatchPulse(lei)).commits;
    assert w == v by {
      HandleLedsIsSerialise(brightness, lei);
    }
    StreamFrameOnWire(lines, d, lei);
  }

  /** Data stability for bit k of a data stream followed by the latch `lei` selects. */
  lemma StreamStable(lines: Bits, d: seq<bool>, lei: int, k: nat)
    requires k < |d|
    ensures var w := Replay(lines, Serialise(d, lei < 0) + LatchPulse(lei)).commits;
            && 2 * k + 1 < |w|
            && w[2 * k] == ClockHigh(lines, d[k])
            && w[2 * k + 1] == SetLine(w[2 * k], Cki, false)
  {
    var w := Replay(lines, Serialise(d, lei < 0) + LatchPulse(lei)).commits;
    assert w[2 * k] == ClockHigh(lines, d[k]) && w[2 * k + 1] == ClockLow(lines, d[k]) by {
      StreamOnWire(lines, d, lei);
      assert w[..2 * |d|][2 * k] == w[2 * k];
      assert w[..2 * |d|][2 * k + 1] == w[2 * k + 1];
    }
    SetLineTwice(SetLine(lines, Sdi, d[k]), Cki, true, false);
  }

  /**
    Data is stable across the falling edge: the rising-edge commit of data
    bit k has the clock high, bit k on the data line and every other line,
    the latch among them, as before the frame; the falling-edge commit after
    it differs from it only in the clock line, which is low.
   */
  lemma DataStableAcrossFallingEdge(lines: Bits, brightness: seq<int>, lei: int, k: nat)
    requires k < ChannelBits * |brightness|
    ensures var w := Replay(lines, HandleLeds(brightness, lei)).commits;
            && 2 * k + 1 < |w|
            && w[2 * k] == ClockHigh(lines, DataBits(brightness)[k])
            && w[2 * k + 1] == SetLine(w[2 * k], Cki, false)
  {
    var d := DataBits(brightness);
    assert Replay(lines, HandleLeds(brightness, lei)) == Replay(lines, Serialise(d, lei < 0) + LatchPulse(lei)) by {
      HandleLedsIsSerialise(brightness, lei);
    }
    StreamStable(lines, d, lei, k);
  }

  /**
    The shape half of `SerialiseHoldTail`, proved on its own to keep that
    proof small. The last conjunct is the split the commit count is taken
    over: everything before the hold, then the hold and the falling edge.
   */
  lemma HoldTailShape(data: seq<bool>)
    requires |data| > 0
    ensures var s := Serialise(data, true);
            && |s| >= 6
            && s[|s| - 4..] == [Commit, Hold600us, Set(Cki, false), Commit]
            && s == s[..|s| - 3] + [Hold600us, Set(Cki, false), Commit]
  {
    var front := data[..|data| - 1];
    var last := data[|data| - 1];
    var s := Serialise(data, true);
    var c := BitCycle(last, true);
    assert s == Serialise(front, false) + c by {
      assert data == front + [last];
      SerialiseAppend(front, [last], true);
      assert Serialise([last], true) == c;
    }
    assert c == [Set(Sdi, last), Set(Cki, true), Commit, Hold600us, Set(Cki, false), Commit];
  }

  /**
    With the pseudo latch, the stream ends commit, hold, clock low, commit,
    and the hold follows every commit but the last. The shape is repeated
    from `HoldTailShape` so that callers need only this lemma.
   */
  lemma SerialiseHoldTail(data: seq<bool>)
    requires |data| > 0
    ensures var s := Serialise(data, true);
            && |s| >= 6
            && s[|s| - 4..] == [Commit, Hold600us, Set(Cki, false), Commit]
            && Count(s[..|s| - 3], Commit) == 2 * |data| - 1
  {
    var s := Serialise(data, true);
    var tail: seq<Event> := [Hold600us, Set(Cki, false), Commit];
    HoldTailShape(data);
    assert Count(s, Commit) == 2 * |data| by {
      SerialiseCounts(data, true);
    }
    assert Count(tail, Commit) == 1 by {
      CountAppend([Set(Cki, false)], [Commit], Commit);
      CountAppend([Hold600us], [Set(Cki, false), Commit], Commit);
      assert tail == [Hold600us] + ([Set(Cki, false)] + [Commit]);
      CountSingle(Hold600us, Commit);
      CountSingle(Set(Cki, false), Commit);
      CountSingle(Commit, Commit);
    }
    CountAppend(s[..|s| - 3], tail, Commit);
  }

  /**
    A trace of `bits` clocked data bits that ends in the pseudo latch: its
    only 600 microsecond hold comes right after the rising-edge commit of the
    last bit, and is followed only by that bit's falling edge.
   */
  ghost predicate EndsInPseudoLatch(t: seq<Event>, bits: nat)
  {
    && |t| >= 4
    && t[|t| - 4..] == [Commit, Hold600us, Set(Cki, false), Commit]
    && Count(t, Hold600us) == 1
    && Count(t[..|t| - 3], Commit) == 2 * bits - 1
  }

  /** A nonempty data stream serialised with the pseudo latch ends in it. */
  lemma StreamEndsInPseudoLatch(d: seq<bool>)
    requires |d| > 0
    ensures EndsInPseudoLatch(Serialise(d, true), |d|)
  {
    SerialiseHoldTail(d);
    assert Count(Serialise(d, true), Hold600us) == 1 by {
      SerialiseCounts(d, true);
    }
  }

  /** Two-wire mode: a frame of at least one channel ends in the pseudo latch, after its last data bit. */
  lemma PseudoLatchOnLastBit(brightness: seq<int>, lei: int)
    requires lei < 0 && |brightness| > 0
    ensures EndsInPseudoLatch(HandleLeds(brightness, lei), ChannelBits * |brightness|)
  {
    var d := DataBits(brightness);
    var t := HandleLeds(brightness, lei);
    assert t == Serialise(d, true) by {
      HandleLedsIsSerialise(brightness, lei);
    }
    StreamEndsInPseudoLatch(d);
  }

  /**
    Three-wire mode: no hold, and the latch line is raised and lowered, each
    with its own commit, after every data bit has been clocked out.
   */
  lemma ExplicitLatchAfterData(brightness: seq<int>, lei: int)
    requires lei >= 0
    ensures var t := HandleLeds(brightness, lei);
            && |t| >= 4
            && t[|t| - 4..] == [Set(Lei, true), Commit, Set(Lei, false), Commit]
            && Count(t[..|t| - 4], Set(Lei, true)) == 0
            && Count(t[..|t| - 4], Set(Lei, false)) == 0
            && Count(t, Hold600us) == 0
  {
    var d := DataBits(brightness);
    var s := Serialise(d, false);
    HandleLedsIsSerialise(brightness, lei);
    SerialiseCounts(d, false);
    var t := HandleLeds(brightness, lei);
    assert t[..|t| - 4] == s;
    FrameCounts(brightness, lei);
  }

  /** The two latch mechanisms never both fire, and for a non-empty frame exactly one does. */
  lemma LatchExclusive(brightness: seq<int>, lei: int)
    ensures var t := HandleLeds(brightness, lei);
            !(Count(t, Hold600us) > 0 && Count(t, Set(Lei, true)) > 0)
    ensures var t := HandleLeds(brightness, lei);
            |brightness| > 0 ==> (Count(t, Hold600us) == 1) != (Count(t, Set(Lei, true)) == 1)
  {
    FrameCounts(brightness, lei);
  }

  /**
    The latch offset of a profile is an unsigned int, so `lei < 0` never holds:
    the two-wire branch with its 600 microsecond hold is dead, and every frame
    ends with the explicit latch pulse.
   */
  lemma UnsignedLeiNeverHolds(brightness: seq<int>, lei: nat)
    ensures Count(HandleLeds(brightness, lei), Hold600us) == 0
    ensures Count(HandleLeds(brightness, lei), Set(Lei, true)) == 1
    ensures LineCount(lei) == 3
  {
    FrameCounts(brightness, lei);
  }

  /**
    Two-wire example: channels at 0, 128 and 255 shift out 0x0000, 0x8000
    and 0xFF00 in 48 clock pulses, with the one hold on the 48th.
   */
  lemma TwoWireExample(b: seq<int>, lei: int)
    requires b == [0, 128, 255] && lei == -1
    ensures var t := HandleLeds(b, lei);
            && DataBits(b) == MsbFirst(0x0000, 16) + MsbFirst(0x8000, 16) + MsbFirst(0xFF00, 16)
            && Count(t, Set(Cki, true)) == 48
            && Count(t, Hold600us) == 1
            && t[|t| - 4..] == [Commit, Hold600us, Set(Cki, false), Commit]
  {
    assert DataBits(b) == MsbFirst(0x0000, 16) + MsbFirst(0x8000, 16) + MsbFirst(0xFF00, 16) by {
      var b1 := b[1..];
      var b2 := b1[1..];
      assert b1 == [128, 255] && b2 == [255] && b2[1..] == [];
      assert HwVal(b[0]) == 0x0000 && HwVal(b1[0]) == 0x8000 && HwVal(b2[0]) == 0xFF00;
      assert DataBits(b2) == MsbFirst(0xFF00, 16);
      assert DataBits(b1) == MsbFirst(0x8000, 16) + MsbFirst(0xFF00, 16);
    }
    FrameCounts(b, lei);
    PseudoLatchOnLastBit(b, lei);
  }

  /**
    Three-wire example: channels at 10 and 200 shift out 0x0A00 and 0xC800
    in 32 clock pulses, with no hold, and end with the latch pulse.
   */
  lemma ThreeWireExample(b: seq<int>, lei: int)
    requires b == [10, 200] && lei == 5
    ensures var t := HandleLeds(b, lei);
            && DataBits(b) == MsbFirst(0x0A00, 16) + MsbFirst(0xC800, 16)
            && Count(t, Set(Cki, true)) == 32
            && Count(t, Hold600us) == 0
            && t[|t| - 4..] == [Set(Lei, true), Commit, Set(Lei, false), Commit]
  {
    assert DataBits(b) == MsbFirst(0x0A00, 16) + MsbFirst(0xC800, 16) by {
      assert b[1..] == [200] && b[1..][1..] == [];
      assert HwVal(b[0]) == 0x0A00 && HwVal(b[1]) == 0xC800;
    }
    FrameCounts(b, lei);
    ExplicitLatchAfterData(b, lei);
  }
}

/**
  The GPIO line bank of the NU801 driver: the value and mask buffers of a
  `gpio_v2_line_values` record, and the way the driver stages line levels in
  the value buffer before writing them out in one commit.
 */
module Gpio {

  /** The three lines, in the order of `enum nu801_gpio_t`. */
  datatype Line = Cki | Sdi | Lei

  /** Bit index of a line inside the value and mask buffers. */
  function Offset(line: Line): nat
  {
    match line
    case Cki => 0
    case Sdi => 1
    case Lei => 2
  }

  /** The value and mask buffers are 64-bit words. */
  const Width: nat := 64

  type Bits = b: seq<bool> | |b| == Width witness seq(Width, _ => false)

  /** The zero-initialised buffer of the static `values` record. */
  const Cleared: Bits := seq(Width, _ => false)

  /** Assigning one bit of a buffer: only bit `k` can change. */
  function AssignBit(bits: Bits, k: nat, level: bool): (r: Bits)
    requires k < Width
    ensures r[k] == level
    ensures forall j :: 0 <= j < Width && j != k ==> r[j] == bits[j]
  {
    bits[k := level]
  }

  /** Staging a line level in the value buffer (no hardware effect until a commit). */
  function SetLine(bits: Bits, line: Line, level: bool): (r: Bits)
    ensures r[Offset(line)] == level
    ensures forall j :: 0 <= j < Width && j != Offset(line) ==> r[j] == bits[j]
  {
    AssignBit(bits, Offset(line), level)
  }

  /** Staging a line twice keeps only the second level. */
  lemma SetLineTwice(bits: Bits, line: Line, first: bool, second: bool)
    ensures SetLine(SetLine(bits, line, first), line, second) == SetLine(bits, line, second)
  {
    var a := SetLine(SetLine(bits, line, first), line, second);
    var b := SetLine(bits, line, second);
    assert forall j :: 0 <= j < Width ==> a[j] == b[j];
  }

  /** Two-wire mode (no latch line) uses 2 lines, three-wire mode uses 3. */
  function LineCount(lei: int): (n: nat)
    ensures 2 <= n <= 3
    ensures n == 3 <==> lei >= 0
  {
    if lei >= 0 then 3 else 2
  }

  /**
    The line list and mask set up when the GPIO lines are requested: the
    first `LineCount(lei)` of clock, data and latch, and a mask with exactly
    the bits of those lines set, built up one bit at a time from the cleared
    static mask.
   */
  method RequestLines(cki: int, sdi: int, lei: int) returns (lines: seq<int>, mask: Bits)
    ensures |lines| == 3 <==> lei >= 0
    ensures |lines| == 2 <==> lei < 0
    ensures lines[Offset(Cki)] == cki && lines[Offset(Sdi)] == sdi
    ensures |lines| == 3 ==> lines[Offset(Lei)] == lei
    ensures forall k :: 0 <= k < Width ==> (mask[k] <==> k < |lines|)
  {
    var all := [cki, sdi, lei];
    var count := LineCount(lei);
    lines := all[..count];
    mask := Cleared;
    var i := 0;
    while i < count
      invariant 0 <= i <= count
      invariant forall k :: 0 <= k < Width ==> (mask[k] <==> k < i)
    {
      mask := AssignBit(mask, i, true);
      i := i + 1;
    }
  }
}

/**
  The 16-bit PWM value the NU801 receives for a channel, and the bits of it
  that go on the data line.
 */
module Pwm {

  function Pow2(k: nat): (r: nat)
    ensures r >= 1
  {
    if k == 0 then 1 else 2 * Pow2(k - 1)
  }

  /** Bit `p` of `v`: whether `v & (1 << p)` is non-zero. */
  function Bit(v: nat, p: nat): bool
  {
    if p == 0 then v % 2 == 1 else Bit(v / 2, p - 1)
  }

  /**
    The hardware value of a brightness: `brightness << 8` stored in a
    `uint16_t`, so the shifted value is truncated to 16 bits.
   */
  function HwVal(brightness: int): (hw: nat)
    ensures hw < 0x1_0000
    ensures hw % 256 == 0
    ensures 0 <= brightness <= 255 ==> hw == brightness * 256
  {
    (brightness * 256) % 0x1_0000
  }

  /** Shifting left by `k` moves bit `p - k` to bit `p` and clears the bits below `k`. */
  lemma {:induction false} ShiftedBit(v: nat, k: nat, p: nat)
    ensures Bit(v * Pow2(k), p) == (p >= k && Bit(v, p - k))
    decreases k
  {
    if k > 0 {
      var w := v * Pow2(k - 1);
      assert v * Pow2(k) == w * 2;
      if p > 0 {
        assert (w * 2) / 2 == w;
        ShiftedBit(v, k - 1, p - 1);
      }
    }
  }

  /**
    For a brightness in the range the LED class allows, the high byte of the
    hardware value is the brightness and the low byte is zero.
   */
  lemma HwValBits(brightness: int, p: nat)
    requires 0 <= brightness <= 255
    ensures Bit(HwVal(brightness), p) == (p >= 8 && Bit(brightness, p - 8))
  {
    assert Pow2(8) == 256;
    ShiftedBit(brightness, 8, p);
  }
}

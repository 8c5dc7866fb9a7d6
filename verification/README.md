# NU801 userspace LED driver, modelled in Dafny

The NU801 is a three-channel, 16-bit PWM constant-current LED controller.
The driver `nu801.c` exposes each channel as a Linux userspace LED (`uleds`).
It bit-bangs every channel's brightness to the chip over two or three GPIO
lines: a clock (CKI), a data line (SDI) and an optional latch (LEI).

This project models the sequential core of that driver:

- **gpio.dfy** (`Gpio`): the 64-bit value and mask buffers of the GPIO
  line request. `SetLine` is `gpio_set`: staging one line level changes
  exactly one bit. `RequestLines` builds the line list and mask that
  `register_gpio` requests: two lines, or three when a latch line is wired.
- **wire.dfy** (`Wire`): a frame is a trace of `Set(line, level)`, `Commit`
  and `Hold600us` events. `Replay` gives what the chip sees of a trace: the
  value buffer written out at each `Commit` (`gpio_commit`).
- **pwm.dfy** (`Pwm`): the hardware value `brightness << 8` stored in a
  `uint16_t`, and its bits.
- **frame.dfy** (`Frame`): `handle_leds` as a pure function from the
  channel brightness and the latch offset to a trace. The two nested loops
  are proved equal to a flat reference serialiser: one clock cycle per
  data bit, over the data bits of all channels. The lemmas state:
  - the bit order;
  - the counts of clock pulses, commits, holds and latch events;
  - the line state at every commit, including that data is stable across
    the falling edge;
  - that the two latch mechanisms are exclusive.
- **catalog.dfy** (`Catalog`): the table of supported hardware. It covers
  the profile lookup up to the null-id sentinel, and the channel count
  (the leading run of profile channels with both a colour and a function).
- **daemon.dfy** (`Daemon`): `main`. That is startup, the update step of
  the wake-up loop, the loop itself over a finite run of wake-ups, and the
  exit status.

The latch offset is an `unsigned int` in the source. The tests `lei < 0`
and `lei >= 0` in `handle_leds` and `register_gpio` are written as they
read, over an `int`. `Frame.UnsignedLeiNeverHolds` then shows that for any
unsigned offset the two-wire branch with its 600 µs hold is dead. The one
shipped profile has `lei = 5`.

The operating system becomes inputs to the model:

- the results of `register_uled` and `register_gpio`;
- for each wake-up, the result of `select`;
- for each channel `select` reports ready, the result of its `read` and
  the value read.

## Model

| member | source | states |
|---|---|---|
| `Gpio.AssignBit` | nu801.c:194-197 | assigning bit k sets bit k to the level and leaves every other bit of the buffer as it was |
| `Gpio.SetLine` | nu801.c:194-197 | `gpio_set` stages the level on the line's own bit (CKI 0, SDI 1, LEI 2) and changes no other bit |
| `Gpio.SetLineTwice` | nu801.c:253-276 | staging the same line twice leaves only the second level, so the falling edge's clock-low replaces the rising edge's clock-high |
| `Gpio.LineCount` | nu801.c:164 | two lines are requested, or three exactly when `lei >= 0` |
| `Gpio.RequestLines` | nu801.c:148-179 | three lines (clock, data, latch) when `lei >= 0`, otherwise the first two; the mask has bit k set exactly for k below the line count |
| `Wire.Replay` | nu801.c:199-202 | the chip sees one buffer snapshot per `Commit` event of the trace |
| `Wire.ReplayAppend` | nu801.c:194-202 | replaying two traces back to back is replaying their concatenation: the snapshots append, starting from the buffer the first left |
| `Pwm.HwVal` | nu801.c:249 | the hardware value is below 0x10000 with a zero low byte; for brightness 0..255 it is brightness·256, so 255 gives 0xFF00 and never 0xFFFF |
| `Pwm.ShiftedBit` | nu801.c:249 | bit p of v·2^k is bit p−k of v for p ≥ k, and clear below k |
| `Pwm.HwValBits` | nu801.c:249-253 | for brightness 0..255, bit p of the hardware value is bit p−8 of the brightness, and the low 8 bits are clear |
| `Frame.BitCycle` | nu801.c:253-277 | one pass of the bit loop stages the data bit and a high clock and commits, holds only when asked, then stages a low clock and commits: five events, six with the hold |
| `Frame.ShiftOut` | nu801.c:252-280 | the bit loop for one channel is five events per bit, plus the hold only for the last channel in two-wire mode |
| `Frame.SendChannels` | nu801.c:237-281 | the channel loop from channel i is 80 events per remaining channel, plus one hold in two-wire mode |
| `Frame.LatchPulse` | nu801.c:287-295 | with a latch line: raise LEI, commit, lower LEI, commit; without one, nothing |
| `Frame.HandleLeds` | nu801.c:223-296 | a frame of n channels has 32·n commits, plus 2 when `lei >= 0` |
| `Frame.DataBits` | nu801.c:237-253 | the data bits of a frame are 16 per channel |
| `Frame.ShiftOutIsSerialise` | nu801.c:252-280 | the inner loop over `bit = 0x8000 … 1` serialises the 16 bits of the hardware value MSB first, with the hold only on bit 1 of the last channel when `lei < 0` |
| `Frame.SerialiseAppend` | nu801.c:252-280 | serialising two runs of bits is serialising each, with the hold kept only at the very end |
| `Frame.SendChannelsIsSerialise` | nu801.c:237-281 | the channel loop from channel i sends the data bits of channels i onward in index order |
| `Frame.HandleLedsIsSerialise` | nu801.c:223-296 | a frame is the flat serialisation of all data bits followed by the explicit latch pulse |
| `Frame.BitCycleCount` | nu801.c:253-277 | one bit cycle has one data set, one clock-high set, one clock-low set, two commits, and the hold only when it is the hold cycle |
| `Frame.BitCycleCounts` | nu801.c:253-277 | a bit cycle has 2 commits, one rising and one falling clock set, one data set of its own level, no latch event, and a hold only if asked |
| `Frame.SerialiseCounts` | nu801.c:252-280 | serialising d bits gives 2·d commits, d clock pulses, d data sets, no latch events, and one hold exactly when the pseudo latch is on and d > 0 |
| `Frame.LatchCounts` | nu801.c:287-295 | the latch pulse has 2 commits, one LEI raise and one LEI lower when `lei >= 0`, and is empty otherwise |
| `Frame.ClockHigh` | nu801.c:253-255 | the rising-edge buffer has CKI high and the bit on SDI, with every other line as before |
| `Frame.Restage` | nu801.c:253-276 | staging the next bit's data and clock overrides what the previous bit's falling edge left |
| `Frame.RiseOnWire` | nu801.c:253-255 | the rising-edge commit shows the data bit on SDI and CKI high |
| `Frame.FallOnWire` | nu801.c:276-277 | the falling-edge commit shows the same data with CKI low |
| `Frame.BitCycleOnWire` | nu801.c:253-277 | a bit cycle produces exactly two snapshots, clock-high then clock-low with the bit on SDI, whether or not it holds |
| `Frame.ClockedCons` | nu801.c:252-280 | prepending one clocked bit to a clocked run gives a clocked run |
| `Frame.SerialiseOnWire` | nu801.c:252-280 | the snapshots of a serialisation are, for each bit k, clock-high then clock-low with bit k on SDI; afterwards the buffer is the last falling edge |
| `Frame.LatchOnWire` | nu801.c:287-295 | the latch pulse commits the buffer with LEI raised, then with LEI lowered again |
| `Frame.DataBitsMsbFirst` | nu801.c:249-253 | data bit 16·c+k of a frame is bit 15−k of channel c's hardware value |
| `Frame.StreamClockCounts` | nu801.c:237-295 | a data stream plus latch has one rising and one falling clock set per data bit and one data set per bit |
| `Frame.StreamLatchCounts` | nu801.c:237-295 | a data stream plus latch has 2 commits per bit plus 2 for the latch pulse, one hold only in two-wire mode, and one LEI raise and lower only in three-wire mode |
| `Frame.FrameCounts` | nu801.c:237-295 | a frame has 16·n clock pulses and 16·n data sets, 32·n commits (+2 if `lei >= 0`), one hold exactly when `lei < 0` and n > 0, and one LEI pulse exactly when `lei >= 0` |
| `Frame.SerialiseEndsAsLastCommit` | nu801.c:276-277 | after the data bits the buffer is the one last committed |
| `Frame.LatchAfterData` | nu801.c:287-295 | after any data stream, the latch commits are the last data snapshot with LEI raised, then with LEI lowered |
| `Frame.StreamOnWire` | nu801.c:237-295 | the snapshots of a data stream plus latch are two per data bit, clocked out in order, then two for the latch pulse in three-wire mode |
| `Frame.StreamFrameOnWire` | nu801.c:237-295 | a data stream and its latch, on the wire: the data bits clocked in order, then in three-wire mode the LEI raise and lower |
| `Frame.FrameOnWire` | nu801.c:237-295 | a frame's snapshots are its data bits clocked out in order, followed in three-wire mode by the LEI raise and lower |
| `Frame.StreamStable` | nu801.c:253-277 | in a data stream plus latch, the rising-edge commit of bit k is the starting lines with CKI high and bit k on SDI, and the falling-edge commit differs from it only in CKI, which is low |
| `Frame.DataStableAcrossFallingEdge` | nu801.c:253-277 | the rising-edge commit of bit k of a frame has CKI high, bit k on SDI and every other line, LEI included, as before the frame; the falling-edge commit differs from it only in CKI, which is low |
| `Frame.HoldTailShape` | nu801.c:257-277 | with the pseudo latch, the stream ends with the last bit's cycle: commit, hold, clock low, commit |
| `Frame.SerialiseHoldTail` | nu801.c:257-277 | with the pseudo latch, a serialisation ends with commit, hold, clock low, commit, and the hold follows all but the last commit |
| `Frame.StreamEndsInPseudoLatch` | nu801.c:257-277 | a nonempty data stream with the pseudo latch has one hold, right after the rising commit of its last bit |
| `Frame.PseudoLatchOnLastBit` | nu801.c:257-268 | with `lei < 0` the only hold comes right after the rising-edge commit of the last bit of the last channel |
| `Frame.ExplicitLatchAfterData` | nu801.c:287-295 | with `lei >= 0` a frame ends with LEI high, commit, LEI low, commit, touches LEI nowhere before, and never holds |
| `Frame.LatchExclusive` | nu801.c:257-295 | the two latch mechanisms never both fire, and for a non-empty frame exactly one does |
| `Frame.UnsignedLeiNeverHolds` | nu801.c:257-295 | for an unsigned latch offset no frame holds, every frame sends the LEI pulse, and three lines are requested |
| `Frame.TwoWireExample` | nu801.c:237-296 | brightness 0, 128, 255 with no latch line sends 0x0000, 0x8000, 0xFF00 in 48 clock pulses, holding on the last |
| `Frame.ThreeWireExample` | nu801.c:237-296 | brightness 10, 200 with a latch line sends 0x0A00, 0xC800 in 32 clock pulses, no hold, then the latch pulse |
| `Catalog.ScanFrom` | nu801.c:310-313 | the scan stops at the first entry that is the sentinel or whose id equals the argument exactly |
| `Catalog.Lookup` | nu801.c:310-319 | found: the first entry with that id, every earlier entry non-null and different; not found: a sentinel comes before any matching entry |
| `Catalog.LookupFindsListed` | nu801.c:310-313 | an id listed before the sentinel is always found, at or before its position |
| `Catalog.ShippedLookup` | nu801.c:66-94 | the shipped table finds "Cisco MX100-HW" at entry 0 and no other id |
| `Catalog.CountFrom` | nu801.c:326-328 | the channel loop from i stops at the first channel without both labels, at most at 3 |
| `Catalog.ChannelCount` | nu801.c:326-339 | `num_leds` is at most 3; every channel below it has both labels, and the channel at it does not |
| `Catalog.ChannelCountUnique` | nu801.c:326-339 | the channel count is the only count with those properties |
| `Catalog.CountAsWritten` | nu801.c:326-328 | when the loop as written stops inside the arrays, it stops below 3, at the first channel without both labels |
| `Catalog.GuardAsWritten` | nu801.c:327 | the guard as written reads the labels of channel i, so it is defined only for i < 3, and there it agrees with the corrected test |
| `Catalog.CountAsWrittenReadsPast` | nu801.c:326-328 | the loop as written reads past the label arrays exactly when all three channels are declared; otherwise it stops at the channel count |
| `Catalog.ShippedProfileReadsPast` | nu801.c:326-328 | the shipped profile declares three channels, and its loop as written evaluates the guard at index 3 |
| `Daemon.ExitStatus` | nu801.c:392 | the exit status is EXIT_SUCCESS exactly when `ret` is 0, and EXIT_FAILURE otherwise |
| `Daemon.ReadFailure` | nu801.c:366-367 | a failed read exits with a nonzero `ret`: its own value when negative, −1 when it returned 0 |
| `Daemon.ApplyReads` | nu801.c:357-376 | ready channels take the value read, others keep theirs; the update fails exactly when some ready channel's read returns ≤ 0, at the first such channel, with `ret` negative (0 becomes −1) |
| `Daemon.ApplyReadsIdempotent` | nu801.c:357-376 | applying the same successful reads twice changes nothing more |
| `Daemon.NothingReadyKeepsAll` | nu801.c:357-376 | a wake-up with no channel ready leaves every brightness unchanged |
| `Daemon.Serve` | nu801.c:349-380 | at most one frame per wake-up, one per wake-up while running; an exit has a negative `ret` and sends no frame for its wake-up |
| `Daemon.ServeShape` | nu801.c:349-380 | every frame sent has one value per channel, and the last frame sent holds the current brightness |
| `Daemon.ServeAppend` | nu801.c:349-380 | serving two runs of wake-ups back to back is serving their concatenation |
| `Daemon.ServeSendsUpdated` | nu801.c:357-379 | a wake-up whose reads succeed sends exactly one frame, with the values just read |
| `Daemon.FailedWakeSendsNothing` | nu801.c:351-369 | a failing `select` or read ends the loop before `handle_leds` is called |
| `Daemon.SentFramesCount` | nu801.c:378-379 | every frame the loop sends has 32 commits per channel, plus 2 with a latch line |
| `Daemon.RegisterFrom` | nu801.c:326-339 | registration succeeds exactly when every channel's `register_uled` returns 0; otherwise it stops at the first failing channel with its nonzero error |
| `Daemon.Launch` | nu801.c:298-393 | the exit status is EXIT_SUCCESS or EXIT_FAILURE; `register_gpio` returns a line handle exactly when the device is found, every channel registers and `register_gpio` succeeds; then the channel count is the profile's, every brightness starts at 0, and the wake-up loop decides the frames and the exit; when `register_gpio` fails after every channel registered, the program as written exits with EXIT_SUCCESS if at least one channel registered and with EXIT_FAILURE if none did (`ret` is still −EINVAL), and the correction always exits with EXIT_FAILURE; a failing `register_uled` exits with EXIT_FAILURE at that channel before `register_gpio` is called |
| `Daemon.UnknownDeviceTouchesNothing` | nu801.c:305-319 | a wrong argument count or an unknown id exits with EXIT_FAILURE, registering no channel and no GPIO line |
| `Daemon.CorrectedExitsFail` | nu801.c:342-346 | with the correction, every way `main` can end is EXIT_FAILURE |
| `Daemon.GpioFailureExitsSuccess` | nu801.c:342-346 | as written, the shipped device whose GPIO request fails after three LEDs registered exits with EXIT_SUCCESS |
| `Daemon.VariantsDifferOnlyOnGpioFailure` | nu801.c:342-346 | as written and corrected differ only when `register_gpio` fails after a channel registered; there the first exits successfully and the second does not |
| `Daemon.ShippedDeviceFrames` | nu801.c:298-393 | once the shipped device runs (with the channel loop bound-first, see Left out), three channels are registered and every frame has 98 commits and no hold |

## Left out

- GPIO character-device ioctls (`gpiotools_request_line`, `gpiotools_get_values`, `gpiotools_set_values`, `gpiotools_release_line`) live in gpio-utils, which is not part of this model. A commit is the abstract `Commit` event over the modelled buffer. The result of `register_gpio` is an input.
- `/dev/uleds` open and write in `register_uled` (nu801.c:109-134) are OS I/O. Each channel's registration result is an input. Its `ret < sizeof(...)` test compares a signed value with an unsigned size, so a failed `write` returning −1 would pass it. That lies inside `register_uled` and is not modelled.
- `select` and `FD_SET` readiness are OS I/O. Each wake-up is an input: the `select` result and a map from ready channels to read results. A `select` result of 0 is treated like a positive one, as the code does.
- `nanosleep`, `ndelay` and `udelay` are wall-clock behaviour. The 600 µs wait is the opaque `Hold600us` event. The per-bit `ndelay` calls are commented out in the source and do not appear in the trace. The profile's `ndelay` field is carried but unused, as in the source.
- Device naming with `snprintf` (nu801.c:116) follows libc truncation rules, with a size from a header that is not part of this model.
- `DPRINTF`, `printf`, `fprintf` and `perror` produce only diagnostics.
- The release and close calls at nu801.c:382-390 only free handles; they send nothing to the chip. The code has neither a signal handler nor an all-off frame, and the model follows the code.
- A short `read` of 1 to 3 bytes succeeds in the code with a partially written `int`. The model takes the value read as an input, whatever its width.
- Pwm.HwVal: models `brightness << 8` as multiplication followed by truncation to 16 bits. In C the shift overflows `int`, which is undefined behaviour, for brightness of 2^23 or more and for negative brightness. The uleds facility caps the value at 255 (nu801.c:119), where the model is exact.
- Daemon.Serve: the `for (;;)` loop is modelled over a finite run of wake-ups. A session that has not exited after them is reported as still running.
- Daemon.Launch: `register_gpio` requests the lines (nu801.c:166-172) before it reads their initial values (nu801.c:182-186). When that read fails it returns a negative value while the lines stay requested, and `main` keeps only that value (nu801.c:342), so the release at nu801.c:385 is skipped and the lines stay held until the process exits. The model treats every negative result alike: `gpioRegistered` means that `register_gpio` returned a handle, not whether lines are held.
- Daemon.Launch: the channel loop is modelled with the bound tested first (`Catalog.ChannelCount`) in both variants, so the two variants differ only on the `register_gpio` exit, and `AsWritten` departs from the source only in testing the bound first. As written, the guard at i = 3 reads past `colors` (nu801.c:327, `Catalog.CountAsWrittenReadsPast`); that read is undefined behaviour in C. With the layout of `supported_hardware` it lands on `functions[0]` and then on the next entry's `id`, so the loop stops at 3 in practice, which is the count the model uses.
- Daemon.Launch: it asks for a `register_uled` result for each of the three possible channels. That is a sizing of the inputs, not a demand of the source.
- Catalog.Lookup: it requires the table to contain a sentinel. The source relies on the `{ }` entry that ends `supported_hardware` for the same reason.
- The `gpio_type` enum has the single value `NUMBER`, so the type test in `register_gpio` is always true and is not modelled.

## Findings

| source | as written | input that shows it | evidently intended | confidence | as-written member | corrected member |
|---|---|---|---|---|---|---|
| nu801.c:342-346 | when `register_gpio` fails, `main` jumps to `out` with `ret` still 0 from the last successful `register_uled`, so it returns EXIT_SUCCESS | argument "Cisco MX100-HW", all three LED registrations return 0, `register_gpio` returns −16 | exit with EXIT_FAILURE, e.g. by setting `ret = gpio_fd` before the jump | not executed; high | `Daemon.GpioFailureExitsSuccess` | `Daemon.CorrectedExitsFail` |
| nu801.c:327 | the loop guard `*color && *func && i < ARRAY_SIZE(dev->colors)` reads `colors[i]` before testing `i < 3`, so it reads one past the end of the three-element array | the shipped profile, which declares all three channels: the guard is evaluated at i = 3 | test the bound first: `i < ARRAY_SIZE(dev->colors) && *color && *func` | not executed; high | `Catalog.CountAsWrittenReadsPast` | `Catalog.ChannelCount` |

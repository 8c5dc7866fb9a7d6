/**
  The control flow of `main`: argument check, profile lookup, channel
  registration, GPIO registration, then the wake-up loop that reads new
  brightness values and sends a frame after each wake-up, and finally the
  mapping of `ret` to the process exit status.

  The operating system is reduced to inputs: the results of `register_uled`
  and `register_gpio`, and for each wake-up the result of `select` and, per
  ready channel, the result of its `read`.
 */
module Daemon {
  import opened Wrappers
  import opened Wire
  import opened Frame
  import opened Catalog

  const ExitSuccess: int := 0
  const ExitFailure: int := 1

  /** `EINVAL` on Linux; `ret` starts as `-EINVAL`. */
  const Einval: int := 22

  /** `return ret ? EXIT_FAILURE : EXIT_SUCCESS;` */
  function ExitStatus(ret: int): (status: int)
    ensures status == ExitSuccess || status == ExitFailure
    ensures status == ExitSuccess <==> ret == 0
  {
    if ret != 0 then ExitFailure else ExitSuccess
  }

  // ---------------------------------------------------------------------
  // One wake-up

  /** What `read` returned for one ready channel: a byte count or error, and the value read. */
  datatype ReadResult = ReadResult(ret: int, value: int)

  /**
    One return of `select`: its result, and the channels it reported ready,
    each mapped to what reading it gives.
   */
  datatype Wake = Wake(selectRet: int, ready: map<nat, ReadResult>)

  /**
    The outcome of the update loop: either every ready channel was read, or
    the read of `channel` failed and `ret` is the value `main` exits with;
    `brightness` then holds the updates made before the failure.
   */
  datatype Update =
    | Updated(brightness: seq<int>)
    | ReadFailed(brightness: seq<int>, ret: int, channel: nat)

  /** `ret = ret ? : -1;` for a read that returned `ret <= 0`. */
  function ReadFailure(ret: int): (r: int)
    ensures r != 0
    ensures ret != 0 ==> r == ret
    ensures ret == 0 ==> r == -1
    ensures ret <= 0 ==> r < 0
  {
    if ret != 0 then ret else -1
  }

  /**
    The update loop over channels `i` and up: a ready channel takes the value
    read from it, a channel that is not ready keeps its brightness, and a
    read that returns zero or less ends the loop.
   */
  function ApplyReads(brightness: seq<int>, ready: map<nat, ReadResult>, i: nat): (u: Update)
    requires i <= |brightness|
    ensures |u.brightness| == |brightness|
    ensures u.Updated? <==> forall k :: i <= k < |brightness| && k in ready ==> ready[k].ret > 0
    ensures u.Updated? ==>
              forall k :: 0 <= k < |brightness| ==>
                u.brightness[k] == if i <= k && k in ready then ready[k].value else brightness[k]
    ensures u.ReadFailed? ==>
              && i <= u.channel < |brightness|
              && u.channel in ready && ready[u.channel].ret <= 0
              && u.ret < 0
              && u.ret == ReadFailure(ready[u.channel].ret)
              && (forall k :: i <= k < u.channel && k in ready ==> ready[k].ret > 0)
              && (forall k :: 0 <= k < |brightness| ==>
                    u.brightness[k] == if i <= k < u.channel && k in ready then ready[k].value else brightness[k])
    decreases |brightness| - i
  {
    if i == |brightness| then Updated(brightness)
    else if i in ready && ready[i].ret <= 0 then ReadFailed(brightness, ReadFailure(ready[i].ret), i)
    else if i in ready then ApplyReads(brightness[i := ready[i].value], ready, i + 1)
    else ApplyReads(brightness, ready, i + 1)
  }

  /** Applying the same reads again changes nothing: only the last value read counts. */
  lemma ApplyReadsIdempotent(brightness: seq<int>, ready: map<nat, ReadResult>)
    requires ApplyReads(brightness, ready, 0).Updated?
    ensures ApplyReads(ApplyReads(brightness, ready, 0).brightness, ready, 0) == ApplyReads(brightness, ready, 0)
  {
    var b1 := ApplyReads(brightness, ready, 0).brightness;
    var b2 := ApplyReads(b1, ready, 0).brightness;
    assert ApplyReads(b1, ready, 0).Updated?;
    assert b2 == b1;
  }

  /** A wake-up that reports no channel ready leaves every brightness as it was. */
  lemma NothingReadyKeepsAll(brightness: seq<int>, ready: map<nat, ReadResult>)
    requires forall k :: k in ready ==> k >= |brightness|
    ensures ApplyReads(brightness, ready, 0) == Updated(brightness)
  {
    var u := ApplyReads(brightness, ready, 0);
    assert u.Updated?;
    assert u.brightness == brightness;
  }

  // ---------------------------------------------------------------------
  // The wake-up loop

  /**
    What the loop has done after a run of wake-ups: the channel brightness,
    the brightness of every frame sent (each is transmitted as
    `HandleLeds(sent[f], lei)`), and the exit value when the loop has ended.
   */
  datatype Session = Session(brightness: seq<int>, sent: seq<seq<int>>, exit: Option<int>)

  /**
    The `for (;;)` loop over the given wake-ups: a failing `select` or read
    ends it with a nonzero value and no frame; otherwise the new values are
    sent as one frame.
   */
  function Serve(brightness: seq<int>, wakes: seq<Wake>): (s: Session)
    ensures |s.brightness| == |brightness|
    ensures |s.sent| <= |wakes|
    ensures s.exit.None? ==> |s.sent| == |wakes|
    ensures s.exit.Some? ==> s.exit.value < 0 && |s.sent| < |wakes|
    decreases |wakes|
  {
    if |wakes| == 0 then Session(brightness, [], None)
    else if wakes[0].selectRet < 0 then Session(brightness, [], Some(wakes[0].selectRet))
    else
      match ApplyReads(brightness, wakes[0].ready, 0)
      case ReadFailed(partial, ret, _) => Session(partial, [], Some(ret))
      case Updated(next) =>
        var rest := Serve(next, wakes[1..]);
        Session(rest.brightness, [next] + rest.sent, rest.exit)
  }

  /**
    Every frame sent has one value per channel, and while the loop runs the
    last frame sent holds the current brightness.
   */
  lemma {:induction false} ServeShape(brightness: seq<int>, wakes: seq<Wake>)
    ensures var s := Serve(brightness, wakes);
            && (forall f :: 0 <= f < |s.sent| ==> |s.sent[f]| == |brightness|)
            && (s.exit.None? && |s.sent| > 0 ==> s.sent[|s.sent| - 1] == s.brightness)
    decreases |wakes|
  {
    if |wakes| > 0 && wakes[0].selectRet >= 0 && ApplyReads(brightness, wakes[0].ready, 0).Updated? {
      var next := ApplyReads(brightness, wakes[0].ready, 0).brightness;
      ServeShape(next, wakes[1..]);
    }
  }

  /**
    The loop runs the wake-ups one after the other: serving two runs of
    wake-ups back to back is serving their concatenation, as long as the
    first run does not end the loop.
   */
  lemma {:induction false} ServeAppend(brightness: seq<int>, w1: seq<Wake>, w2: seq<Wake>)
    requires Serve(brightness, w1).exit.None?
    ensures var s1 := Serve(brightness, w1);
            var s2 := Serve(s1.brightness, w2);
            Serve(brightness, w1 + w2) == Session(s2.brightness, s1.sent + s2.sent, s2.exit)
    decreases |w1|
  {
    if |w1| == 0 {
      assert w1 + w2 == w2;
    } else {
      var u := ApplyReads(brightness, w1[0].ready, 0);
      var next := u.brightness;
      var s1 := Serve(next, w1[1..]);
      var s2 := Serve(s1.brightness, w2);
      assert Serve(brightness, w1) == Session(s1.brightness, [next] + s1.sent, s1.exit) by {
        assert w1[0].selectRet >= 0 && u.Updated?;
      }
      assert Serve(brightness, w1 + w2) == Session(s2.brightness, [next] + (s1.sent + s2.sent), s2.exit) by {
        assert (w1 + w2)[0] == w1[0];
        assert (w1 + w2)[1..] == w1[1..] + w2;
        ServeAppend(next, w1[1..], w2);
      }
      assert [next] + (s1.sent + s2.sent) == ([next] + s1.sent) + s2.sent;
    }
  }

  /** A wake-up whose reads all succeed sends one frame, with the values just read. */
  lemma ServeSendsUpdated(brightness: seq<int>, wake: Wake)
    requires wake.selectRet >= 0
    requires forall k :: 0 <= k < |brightness| && k in wake.ready ==> wake.ready[k].ret > 0
    ensures var next := ApplyReads(brightness, wake.ready, 0).brightness;
            Serve(brightness, [wake]) == Session(next, [next], None)
  {
    assert ApplyReads(brightness, wake.ready, 0).Updated?;
    assert [wake][1..] == [];
  }

  /** A wake-up whose `select` or read fails sends nothing more. */
  lemma FailedWakeSendsNothing(brightness: seq<int>, wake: Wake, later: seq<Wake>)
    requires wake.selectRet < 0 || ApplyReads(brightness, wake.ready, 0).ReadFailed?
    ensures Serve(brightness, [wake] + later).sent == []
    ensures Serve(brightness, [wake] + later).exit.Some?
  {
    assert ([wake] + later)[0] == wake;
  }

  /** Every frame the loop sends has one channel per registered channel, with that many commits. */
  lemma SentFramesCount(brightness: seq<int>, lei: int, wakes: seq<Wake>, f: nat)
    requires f < |Serve(brightness, wakes).sent|
    ensures Count(HandleLeds(Serve(brightness, wakes).sent[f], lei), Commit)
            == 32 * |brightness| + (if lei >= 0 then 2 else 0)
  {
    ServeShape(brightness, wakes);
  }

  // ---------------------------------------------------------------------
  // Startup

  /**
    The outcome of channel registration: the number of channels registered
    and the value `ret` holds after the loop, or the failing channel and its
    error.
   */
  datatype Registration =
    | Registered(count: nat, ret: int)
    | RegistrationFailed(channel: nat, ret: int)

  /**
    The registration loop from channel `i` to `count - 1`: `register_uled`
    for channel `i` returns `uledRets[i]`, and a nonzero result ends the
    program. `ret` is the value the variable holds on entry.
   */
  function RegisterFrom(count: nat, uledRets: seq<int>, i: nat, ret: int): (r: Registration)
    requires i <= count <= |uledRets|
    ensures r.Registered? <==> forall k :: i <= k < count ==> uledRets[k] == 0
    ensures r.Registered? ==> r.count == count && r.ret == (if i < count then 0 else ret)
    ensures r.RegistrationFailed? ==>
              && i <= r.channel < count
              && r.ret == uledRets[r.channel] && r.ret != 0
              && forall k :: i <= k < r.channel ==> uledRets[k] == 0
    decreases count - i
  {
    if i == count then Registered(count, ret)
    else if uledRets[i] != 0 then RegistrationFailed(i, uledRets[i])
    else RegisterFrom(count, uledRets, i + 1, uledRets[i])
  }

  /**
    How the program treats a `register_gpio` failure: `AsWritten` exits with
    whatever `ret` holds, which is 0 once a channel was registered;
    `Corrected` exits with the error `register_gpio` returned. Both count the
    channels with the bound tested first (`Catalog.ChannelCount`); the loop
    as written is `Catalog.CountAsWritten`.
   */
  datatype Variant = AsWritten | Corrected

  /**
    Everything `main` does, for a run of wake-ups: the exit status when the
    program ends (`None` while it still runs), the channels registered, whether
    `register_gpio` returned a line handle, the latch offset of the profile, and the
    brightness of each frame sent.
   */
  datatype Outcome = Outcome(exit: Option<int>, channels: nat, gpioRegistered: bool, lei: nat, sent: seq<seq<int>>)

  function Launch(variant: Variant, args: seq<string>, catalog: seq<Profile>,
                  uledRets: seq<int>, gpioRet: int, wakes: seq<Wake>): (o: Outcome)
    requires Terminated(catalog)
    requires |uledRets| >= MaxChannels
    ensures o.exit.Some? ==> o.exit.value == ExitSuccess || o.exit.value == ExitFailure
    ensures o.gpioRegistered ==> |args| == 2 && Lookup(catalog, args[1]).Some? && gpioRet >= 0
    ensures o.gpioRegistered ==> o.lei == catalog[Lookup(catalog, args[1]).value].lei
    ensures |o.sent| > 0 ==> o.gpioRegistered
    ensures o.channels <= MaxChannels
    ensures forall f :: 0 <= f < |o.sent| ==> |o.sent[f]| == o.channels
    // `register_gpio` returns a handle exactly when the device is found, every channel registers and it succeeds.
    ensures o.gpioRegistered <==>
              && |args| == 2 && Lookup(catalog, args[1]).Some? && gpioRet >= 0
              && var n := ChannelCount(catalog[Lookup(catalog, args[1]).value]);
                 forall k :: 0 <= k < n ==> uledRets[k] == 0
    // Once running, every channel starts dark and the wake-up loop decides the frames and the exit.
    ensures o.gpioRegistered ==>
              var s := Serve(seq(o.channels, _ => 0), wakes);
              && o.channels == ChannelCount(catalog[Lookup(catalog, args[1]).value])
              && o.sent == s.sent
              && o.exit == (if s.exit.Some? then Some(ExitFailure) else None)
    // A failing `register_gpio` after every channel registered: as written `ret` is 0 once a channel
    // registered and still -EINVAL otherwise; the correction exits with the error.
    ensures |args| == 2 && Lookup(catalog, args[1]).Some? && gpioRet < 0 ==>
              var n := ChannelCount(catalog[Lookup(catalog, args[1]).value]);
              (forall k :: 0 <= k < n ==> uledRets[k] == 0) ==>
                o.exit == Some(if variant == AsWritten && n > 0 then ExitSuccess else ExitFailure)
    // A failing `register_uled` ends the program at that channel, before `register_gpio` is called.
    ensures |args| == 2 && Lookup(catalog, args[1]).Some? ==>
              var n := ChannelCount(catalog[Lookup(catalog, args[1]).value]);
              (exists k :: 0 <= k < n && uledRets[k] != 0) ==>
                && o.exit == Some(ExitFailure) && !o.gpioRegistered && o.sent == []
                && o.channels < n && uledRets[o.channels] != 0
                && forall k :: 0 <= k < o.channels ==> uledRets[k] == 0
  {
    var ret := -Einval;
    if |args| != 2 then Outcome(Some(ExitStatus(ret)), 0, false, 0, [])
    else
      match Lookup(catalog, args[1])
      case None => Outcome(Some(ExitStatus(ret)), 0, false, 0, [])
      case Some(k) =>
        var dev := catalog[k];
        var n := ChannelCount(dev);
        match RegisterFrom(n, uledRets, 0, ret)
        case RegistrationFailed(channel, err) => Outcome(Some(ExitStatus(err)), channel, false, dev.lei, [])
        case Registered(_, ret') =>
          if gpioRet < 0 then
            var exitRet := if variant == AsWritten then ret' else gpioRet;
            Outcome(Some(ExitStatus(exitRet)), n, false, dev.lei, [])
          else
            var s := Serve(seq(n, _ => 0), wakes);
            ServeShape(seq(n, _ => 0), wakes);
            Outcome(if s.exit.Some? then Some(ExitStatus(s.exit.value)) else None, n, true, dev.lei, s.sent)
  }

  /** A wrong argument count or an unknown device ends the program before anything is registered. */
  lemma UnknownDeviceTouchesNothing(variant: Variant, args: seq<string>, catalog: seq<Profile>,
                                    uledRets: seq<int>, gpioRet: int, wakes: seq<Wake>)
    requires Terminated(catalog)
    requires |uledRets| >= MaxChannels
    requires |args| != 2 || Lookup(catalog, args[1]).None?
    ensures Launch(variant, args, catalog, uledRets, gpioRet, wakes) == Outcome(Some(ExitFailure), 0, false, 0, [])
  {
  }

  /** With the correction, every way the program can end is a failure exit. */
  lemma CorrectedExitsFail(args: seq<string>, catalog: seq<Profile>,
                           uledRets: seq<int>, gpioRet: int, wakes: seq<Wake>)
    requires Terminated(catalog)
    requires |uledRets| >= MaxChannels
    ensures var o := Launch(Corrected, args, catalog, uledRets, gpioRet, wakes);
            o.exit.Some? ==> o.exit.value == ExitFailure
  {
  }

  /** The program as written reports success when `register_gpio` fails for the shipped device. */
  lemma GpioFailureExitsSuccess()
    ensures Terminated(SupportedHardware)
    ensures Launch(AsWritten, ["nu801", "Cisco MX100-HW"], SupportedHardware, [0, 0, 0], -16, [])
            == Outcome(Some(ExitSuccess), 3, false, 5, [])
  {
    ShippedLookup("Cisco MX100-HW");
    ShippedProfileReadsPast();
  }

  /** The two variants differ only when `register_gpio` fails after a channel was registered. */
  lemma VariantsDifferOnlyOnGpioFailure(args: seq<string>, catalog: seq<Profile>,
                                        uledRets: seq<int>, gpioRet: int, wakes: seq<Wake>)
    requires Terminated(catalog)
    requires |uledRets| >= MaxChannels
    ensures var a := Launch(AsWritten, args, catalog, uledRets, gpioRet, wakes);
            var c := Launch(Corrected, args, catalog, uledRets, gpioRet, wakes);
            a != c ==> && gpioRet < 0 && a.channels > 0
                       && a.exit == Some(ExitSuccess) && c.exit == Some(ExitFailure)
  {
  }

  /**
    The shipped device, once started: three channels, and every frame is the
    explicit-latch frame of three channels, 98 commits and no hold.
   */
  lemma ShippedDeviceFrames(uledRets: seq<int>, gpioRet: int, wakes: seq<Wake>)
    requires |uledRets| >= MaxChannels && uledRets[0] == 0 && uledRets[1] == 0 && uledRets[2] == 0
    requires gpioRet >= 0
    ensures Terminated(SupportedHardware)
    ensures var o := Launch(AsWritten, ["nu801", "Cisco MX100-HW"], SupportedHardware, uledRets, gpioRet, wakes);
            && o.channels == 3 && o.gpioRegistered && o.lei == 5
            && forall f :: 0 <= f < |o.sent| ==>
                 && Count(HandleLeds(o.sent[f], o.lei), Commit) == 98
                 && Count(HandleLeds(o.sent[f], o.lei), Hold600us) == 0
  {
    ShippedLookup("Cisco MX100-HW");
    ShippedProfileReadsPast();
    var o := Launch(AsWritten, ["nu801", "Cisco MX100-HW"], SupportedHardware, uledRets, gpioRet, wakes);
    forall f | 0 <= f < |o.sent|
      ensures Count(HandleLeds(o.sent[f], o.lei), Hold600us) == 0
    {
      UnsignedLeiNeverHolds(o.sent[f], o.lei);
    }
  }
}

/**
  The table of supported hardware and the two startup computations `main`
  makes on it: finding the profile named on the command line, and counting
  the LED channels the profile declares.
 */
module Catalog {
  import opened Wrappers

  /** The NU801 drives at most three channels, so every profile names three. */
  const MaxChannels: nat := 3

  /** A profile's colour or function names; `None` is a NULL entry. */
  type Labels = s: seq<Option<string>> | |s| == 3 witness [None, None, None]

  /**
    One entry of `supported_hardware`. The line offsets are `unsigned int` in
    the source, hence `nat`. A `None` id marks the sentinel that ends the table.
   */
  datatype Profile = Profile(
    id: Option<string>,
    board: Option<string>,
    gpiochip: Option<string>,
    cki: nat,
    sdi: nat,
    lei: nat,
    ndelay: nat,
    colors: Labels,
    functions: Labels)

  /** The one shipped profile. */
  const Mx100: Profile := Profile(
    Some("Cisco MX100-HW"), Some("mx100"), Some("gpiochip0"),
    41, 6, 5, 150,
    [Some("blue"), Some("green"), Some("red")],
    [Some("tricolor"), Some("tricolor"), Some("tricolor")])

  /** The zero-initialised entry `{ }` that ends the table. */
  const Sentinel: Profile := Profile(None, None, None, 0, 0, 0, 0, [None, None, None], [None, None, None])

  const SupportedHardware: seq<Profile> := [Mx100, Sentinel]

  /** Some entry of the table is a sentinel, so a scan always stops inside it. */
  ghost predicate Terminated(catalog: seq<Profile>)
  {
    exists k :: 0 <= k < |catalog| && catalog[k].id.None?
  }

  /** Some entry at or after `i` is a sentinel. */
  ghost predicate TerminatedFrom(catalog: seq<Profile>, i: nat)
  {
    exists k :: i <= k < |catalog| && catalog[k].id.None?
  }

  // ---------------------------------------------------------------------
  // Profile lookup

  /**
    The scan `for (dev = ...; dev->id; dev++) if (!strcmp(arg, dev->id)) break;`
    from entry `i`: it stops at the first entry that is a sentinel or whose id
    is exactly `arg`.
   */
  function ScanFrom(catalog: seq<Profile>, arg: string, i: nat): (k: nat)
    requires i <= |catalog| && TerminatedFrom(catalog, i)
    ensures i <= k < |catalog|
    ensures catalog[k].id.None? || catalog[k].id == Some(arg)
    ensures forall j :: i <= j < k ==> catalog[j].id.Some? && catalog[j].id != Some(arg)
    decreases |catalog| - i
  {
    if catalog[i].id.None? || catalog[i].id == Some(arg) then i
    else
      assert TerminatedFrom(catalog, i + 1) by {
        var s :| i <= s < |catalog| && catalog[s].id.None?;
        assert s != i;
      }
      ScanFrom(catalog, arg, i + 1)
  }

  /**
    The profile `main` selects for the argument `arg`: the index of the first
    entry whose id is exactly `arg`, or `None` when the scan reaches a
    sentinel first (the "unsupported device" exit).
   */
  function Lookup(catalog: seq<Profile>, arg: string): (r: Option<nat>)
    requires Terminated(catalog)
    ensures r.Some? ==> && r.value < |catalog|
                        && catalog[r.value].id == Some(arg)
                        && forall j :: 0 <= j < r.value ==> catalog[j].id.Some? && catalog[j].id != Some(arg)
    ensures r.None? ==> exists s :: && 0 <= s < |catalog|
                                    && catalog[s].id.None?
                                    && forall j :: 0 <= j < s ==> catalog[j].id != Some(arg)
  {
    assert TerminatedFrom(catalog, 0);
    var k := ScanFrom(catalog, arg, 0);
    if catalog[k].id.None? then None else Some(k)
  }

  /** An argument that names an entry before the first sentinel is always found, at its first occurrence. */
  lemma LookupFindsListed(catalog: seq<Profile>, arg: string, k: nat)
    requires Terminated(catalog)
    requires k < |catalog| && catalog[k].id == Some(arg)
    requires forall j :: 0 <= j < k ==> catalog[j].id.Some?
    ensures Lookup(catalog, arg).Some?
    ensures Lookup(catalog, arg).value <= k
  {
    assert TerminatedFrom(catalog, 0);
    var s := ScanFrom(catalog, arg, 0);
    var atK := catalog[k].id;
    var atS := catalog[s].id;
    assert s <= k by {
      assert s > k ==> atK != Some(arg);
    }
    assert atS.Some? by {
      assert s < k ==> atS.Some?;
    }
  }

  /** The shipped table knows exactly one device. */
  lemma ShippedLookup(arg: string)
    ensures Terminated(SupportedHardware)
    ensures Lookup(SupportedHardware, arg) == if arg == "Cisco MX100-HW" then Some(0) else None
  {
    assert SupportedHardware[1].id.None?;
    var r := Lookup(SupportedHardware, arg);
    if arg == "Cisco MX100-HW" {
      LookupFindsListed(SupportedHardware, arg, 0);
    } else {
      assert r != Some(0);
    }
  }

  // ---------------------------------------------------------------------
  // Channel count

  /** Channel `i` is declared: both its colour and its function are present. */
  predicate HasPair(colors: Labels, functions: Labels, i: nat)
  {
    i < MaxChannels && colors[i].Some? && functions[i].Some?
  }

  /**
    The channel loop of `main` from index `i`, with the bound checked before
    the two label reads: it goes on while channel `i` is declared.
   */
  function CountFrom(colors: Labels, functions: Labels, i: nat): (n: nat)
    requires i <= MaxChannels
    ensures i <= n <= MaxChannels
    ensures forall j :: i <= j < n ==> HasPair(colors, functions, j)
    ensures !HasPair(colors, functions, n)
    decreases MaxChannels - i
  {
    if HasPair(colors, functions, i) then CountFrom(colors, functions, i + 1) else i
  }

  /**
    `num_leds`: the length of the leading run of declared channels, which is
    at most three.
   */
  function ChannelCount(p: Profile): (n: nat)
    ensures n <= MaxChannels
    ensures forall j :: 0 <= j < n ==> HasPair(p.colors, p.functions, j)
    ensures !HasPair(p.colors, p.functions, n)
  {
    CountFrom(p.colors, p.functions, 0)
  }

  /** The channel count is the only count with both properties: it is determined by the profile. */
  lemma ChannelCountUnique(p: Profile, n: nat)
    requires n <= MaxChannels
    requires forall j :: 0 <= j < n ==> HasPair(p.colors, p.functions, j)
    requires !HasPair(p.colors, p.functions, n)
    ensures ChannelCount(p) == n
  {
    var m := ChannelCount(p);
    var atM := HasPair(p.colors, p.functions, m);
    var atN := HasPair(p.colors, p.functions, n);
    assert m < n ==> atM;
    assert n < m ==> atN;
  }

  /**
    The loop guard `*color && *func && i < ARRAY_SIZE(dev->colors)` exactly as
    written: both label reads come before the bound test. `None` means the
    guard reads past the end of the three-element arrays.
   */
  function GuardAsWritten(colors: Labels, functions: Labels, i: nat): (g: Option<bool>)
    ensures g.Some? <==> i < MaxChannels
    ensures g.Some? ==> g.value == HasPair(colors, functions, i)
  {
    if i >= MaxChannels then None
    else Some(colors[i].Some? && functions[i].Some? && i < MaxChannels)
  }

  /**
    The channel loop as written, from index `i`: the count it reaches, or
    `None` when some evaluation of its guard reads past the arrays.
   */
  function CountAsWritten(colors: Labels, functions: Labels, i: nat): (r: Option<nat>)
    requires i <= MaxChannels
    ensures r.Some? ==> i <= r.value < MaxChannels && !HasPair(colors, functions, r.value)
    ensures r.Some? ==> forall j :: i <= j < r.value ==> HasPair(colors, functions, j)
    decreases MaxChannels - i
  {
    match GuardAsWritten(colors, functions, i)
    case None => None
    case Some(go) => if go then CountAsWritten(colors, functions, i + 1) else Some(i)
  }

  /**
    The loop as written reads past the label arrays exactly when all three
    channels are declared; otherwise it stops with the corrected count.
   */
  lemma {:induction false} CountAsWrittenReadsPast(colors: Labels, functions: Labels, i: nat)
    requires i <= MaxChannels
    ensures CountAsWritten(colors, functions, i).None? <==> CountFrom(colors, functions, i) == MaxChannels
    ensures CountAsWritten(colors, functions, i).Some? ==>
              CountAsWritten(colors, functions, i).value == CountFrom(colors, functions, i)
    decreases MaxChannels - i
  {
    if i < MaxChannels && HasPair(colors, functions, i) {
      CountAsWrittenReadsPast(colors, functions, i + 1);
    }
  }

  /** The shipped profile declares all three channels, so its loop as written reads `colors[3]`. */
  lemma ShippedProfileReadsPast()
    ensures ChannelCount(Mx100) == 3
    ensures CountAsWritten(Mx100.colors, Mx100.functions, 0).None?
    ensures GuardAsWritten(Mx100.colors, Mx100.functions, 3).None?
  {
    assert HasPair(Mx100.colors, Mx100.functions, 0);
    assert HasPair(Mx100.colors, Mx100.functions, 1);
    assert HasPair(Mx100.colors, Mx100.functions, 2);
    ChannelCountUnique(Mx100, 3);
    CountAsWrittenReadsPast(Mx100.colors, Mx100.functions, 0);
  }
}

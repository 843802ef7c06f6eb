/**
 * The wiring of main.py: which emulator a device type starts, the CT001
 * settings taken from the command line or the GENERAL section, the
 * `update_readings` hook that shapes a powermeter reading into the CT001
 * value slot, and the default device types and device IDs.
 */
module App {
  import opened Base
  import opened Text
  import opened Power
  import opened Config
  import opened Streaming
  import opened Ct001Device

  // ---------------------------------------------------------------------
  // device types

  /** What `run_device` starts for a device type. */
  datatype DeviceKind = Ct001Emulator | ShellyEmulator(udpPort: int)

  const CT001_TYPE: string := "ct001"
  const SHELLY_TYPES: seq<string> := ["shellypro3em", "shellyemg3", "shellyproem50"]

  /** The device-type dispatch of `run_device`; an unknown type raises `ValueError` (here Err). */
  function DeviceFor(deviceType: string): Result<DeviceKind, string>
  {
    if deviceType == CT001_TYPE then Ok(Ct001Emulator)
    else if deviceType == "shellypro3em" then Ok(ShellyEmulator(1010))
    else if deviceType == "shellyemg3" then Ok(ShellyEmulator(2222))
    else if deviceType == "shellyproem50" then Ok(ShellyEmulator(2223))
    else Err(deviceType)
  }

  /**
   * The four known types start a device, every other raises; the Shelly
   * types get ports 1010, 2222 and 2223, so no two share a port.
   */
  lemma DeviceDispatch(deviceType: string)
    ensures DeviceFor(deviceType).Ok? <==> deviceType == CT001_TYPE || deviceType in SHELLY_TYPES
    ensures DeviceFor(deviceType) == Ok(Ct001Emulator) <==> deviceType == CT001_TYPE
    ensures DeviceFor(deviceType).Ok? && DeviceFor(deviceType).value.ShellyEmulator? <==> deviceType in SHELLY_TYPES
    ensures DeviceFor(deviceType).Err? ==> DeviceFor(deviceType) == Err(deviceType)
  {
  }

  lemma ShellyPortsDistinct(t1: string, t2: string)
    requires DeviceFor(t1).Ok? && DeviceFor(t1).value.ShellyEmulator?
    requires DeviceFor(t2).Ok? && DeviceFor(t2).value.ShellyEmulator?
    ensures DeviceFor(t1) == DeviceFor(t2) <==> t1 == t2
  {
  }

  // ---------------------------------------------------------------------
  // CT001 settings

  /** The command-line options; None where the option was not given. */
  datatype Arguments = Arguments(disableSum: Option<bool>, disableAbsolute: Option<bool>, pollInterval: Option<int>)

  /** The GENERAL values as configparser reads them; None where the option is absent. */
  datatype General = General(disableSumPhases: Option<bool>, disableAbsoluteValues: Option<bool>, pollInterval: Option<int>)

  datatype Ct001Settings = Ct001Settings(disableSum: bool, disableAbsolute: bool, pollInterval: int)

  /** A command-line value wins when given, then the configured one, then the default. */
  function Resolve<T>(cli: Option<T>, configured: Option<T>, fallback: T): (r: T)
    ensures cli.Some? ==> r == cli.value
    ensures cli.None? && configured.Some? ==> r == configured.value
    ensures cli.None? && configured.None? ==> r == fallback
  {
    if cli.Some? then cli.value else configured.GetOr(fallback)
  }

  function SettingsFor(args: Arguments, general: General): Ct001Settings
  {
    Ct001Settings(
      Resolve(args.disableSum, general.disableSumPhases, false),
      Resolve(args.disableAbsolute, general.disableAbsoluteValues, false),
      Resolve(args.pollInterval, general.pollInterval, 1))
  }

  /** With nothing on the command line or in GENERAL: summing and absolute values on, a 1-second poll. */
  lemma DefaultSettings()
    ensures SettingsFor(Arguments(None, None, None), General(None, None, None)) == Ct001Settings(false, false, 1)
  {
  }

  /** A command-line `False` still overrides a configured `True`: only an absent option falls through. */
  lemma CliFalseOverrides(general: General)
    ensures SettingsFor(Arguments(Some(false), Some(false), Some(5)), general) == Ct001Settings(false, false, 5)
  {
  }

  // ---------------------------------------------------------------------
  // update_readings

  /** The three phases: missing ones are 0, any beyond the third are dropped. */
  function Padded(values: seq<Milli>): (p: seq<Milli>)
    ensures |p| == 3
    ensures forall i :: 0 <= i < 3 ==> p[i] == (if i < |values| then values[i] else 0)
  {
    [if |values| > 0 then values[0] else 0,
     if |values| > 1 then values[1] else 0,
     if |values| > 2 then values[2] else 0]
  }

  /** The slot value `update_readings` writes for a reading. */
  function ShapeReadings(values: seq<Milli>, disableSum: bool, disableAbsolute: bool): (r: seq<Milli>)
    ensures |r| == 3
  {
    var p := Padded(values);
    var s := if disableSum then p else [p[0] + p[1] + p[2], 0, 0];
    if disableAbsolute then s else [Abs(s[0]), Abs(s[1]), Abs(s[2])]
  }

  /**
   * Summing puts the total of the three phases on phase 1 and zeros on the
   * others; the absolute value comes after, so it is the magnitude of the
   * total, not the total of the magnitudes.
   */
  lemma SummedReadings(values: seq<Milli>, disableAbsolute: bool)
    ensures var r := ShapeReadings(values, false, disableAbsolute);
      && r[1] == 0 && r[2] == 0
      && r[0] == (if disableAbsolute then Sum(Padded(values)) else Abs(Sum(Padded(values))))
  {
    var p := Padded(values);
    SumOfThree(p);
  }

  lemma SumOfThree(p: seq<Milli>)
    requires |p| == 3
    ensures Sum(p) == p[0] + p[1] + p[2]
  {
    assert p[1..][1..][1..] == [];
    assert Sum(p[1..][1..]) == p[2] + Sum(p[1..][1..][1..]);
  }

  /** Without summing each phase stays on its own, made non-negative unless that is disabled. */
  lemma SeparateReadings(values: seq<Milli>, disableAbsolute: bool)
    ensures var r := ShapeReadings(values, true, disableAbsolute);
      forall i :: 0 <= i < 3 ==>
        r[i] == (if disableAbsolute then Padded(values)[i] else Abs(Padded(values)[i]))
  {
  }

  /** Only the first three readings count, and absolute values make every phase non-negative. */
  lemma ShapeBounds(values: seq<Milli>, disableSum: bool, disableAbsolute: bool)
    ensures |values| > 3 ==> ShapeReadings(values, disableSum, disableAbsolute) == ShapeReadings(values[..3], disableSum, disableAbsolute)
    ensures !disableAbsolute ==> forall i :: 0 <= i < 3 ==> ShapeReadings(values, disableSum, disableAbsolute)[i] >= 0
  {
  }

  /** `-500 W` on one phase and `+200 W` on another sum to 300 W on phase 1. */
  lemma ShapeExample()
    ensures ShapeReadings([-500000, 200000], false, false) == [300000, 0, 0]
    ensures ShapeReadings([-500000, 200000], true, false) == [500000, 200000, 0]
    ensures ShapeReadings([], false, false) == [0, 0, 0]
  {
  }

  /**
   * What `update_readings` does as the CT001 session's `before_send`
   * hook: a successful read writes the shaped value, a failed one raises
   * out of the hook.
   */
  function ReadingsHook(fetched: Fetched, s: Ct001Settings): HookEffect
  {
    match fetched
    case Failed => Raises
    case Watts(v) => Writes(Some(ShapeReadings(v, s.disableSum, s.disableAbsolute)))
  }

  /** With the defaults, the message sent after the hook carries the rounded magnitude of the total. */
  lemma DefaultMessage(values: seq<Milli>)
    ensures ReadingsHook(Watts(values), Ct001Settings(false, false, 1)).slot.value == [Abs(Sum(Padded(values))), 0, 0]
    ensures Message(Ct001, [Abs(Sum(Padded(values))), 0, 0]) == HmMessage(RoundToWatts(Abs(Sum(Padded(values)))), 0, 0)
  {
    SummedReadings(values, false);
    assert RoundToWatts(0) == 0;
  }

  /** `update_readings` on `device` for a read of the powermeter that gave `fetched`. */
  method UpdateReadings(device: CT001, fetched: Fetched, s: Ct001Settings) returns (raised: bool)
    modifies device`value
    ensures raised <==> fetched.Failed?
    ensures fetched.Failed? ==> device.value == old(device.value)
    ensures fetched.Watts? ==> device.value == Some(ShapeReadings(fetched.values, s.disableSum, s.disableAbsolute))
    ensures ReadingsHook(fetched, s) == if raised then Raises else Writes(device.value)
  {
    if fetched.Failed? {
      return true;
    }
    var values := fetched.values;
    var value1 := if |values| > 0 then values[0] else 0;
    var value2 := if |values| > 1 then values[1] else 0;
    var value3 := if |values| > 2 then values[2] else 0;
    if !s.disableSum {
      value1 := value1 + value2 + value3;
      value2, value3 := 0, 0;
    }
    if !s.disableAbsolute {
      value1, value2, value3 := Abs(value1), Abs(value2), Abs(value3);
    }
    device.SetValue(Some([value1, value2, value3]));
    raised := false;
  }

  // ---------------------------------------------------------------------
  // device types and IDs

  /**
   * `device_types`: the command-line list when given, otherwise the
   * GENERAL `DEVICE_TYPE` (default "ct001") split on commas and stripped.
   */
  function DeviceTypes(cli: Option<seq<string>>, cfg: ConfigFile): (types: seq<string>)
    ensures cli.Some? ==> types == cli.value
    ensures cli.None? ==>
      var parts := Split(cfg.Get(GENERAL, "DEVICE_TYPE", CT001_TYPE), ',');
      && |types| == |parts|
      && forall i :: 0 <= i < |parts| ==> types[i] == Strip(parts[i])
  {
    if cli.Some? then cli.value
    else
      var parts := Split(cfg.Get(GENERAL, "DEVICE_TYPE", CT001_TYPE), ',');
      seq(|parts|, i requires 0 <= i < |parts| => Strip(parts[i]))
  }

  /** Without the option anywhere there is one CT001 device. */
  lemma DefaultDeviceTypes(cfg: ConfigFile)
    requires !cfg.HasOption(GENERAL, "DEVICE_TYPE")
    ensures DeviceTypes(None, cfg) == [CT001_TYPE]
  {
    SplitWithoutSeparator(CT001_TYPE, ',');
    assert forall i :: 0 <= i < |CT001_TYPE| ==> !IsSpace(CT001_TYPE[i]);
    assert Strip(CT001_TYPE) == CT001_TYPE;
    assert cfg.Get(GENERAL, "DEVICE_TYPE", CT001_TYPE) == CT001_TYPE;
  }

  const SHELLY_ID_STEM: string := "-ec4609c439c"
  const DEVICE_ID_STEM: string := "device-"

  /** The ID given to the `n`th device (1-based) when none was supplied. */
  function DefaultId(deviceType: string, n: nat): string
  {
    if deviceType in SHELLY_TYPES then deviceType + SHELLY_ID_STEM + NatToString(n)
    else DEVICE_ID_STEM + NatToString(n)
  }

  lemma DefaultIdExamples()
    ensures DefaultId("shellypro3em", 1) == "shellypro3em-ec4609c439c1"
    ensures DefaultId("ct001", 2) == "device-2"
  {
    assert NatToString(1) == "1" && NatToString(2) == "2";
    assert !("ct001" in SHELLY_TYPES);
  }

  /**
   * The `while len(device_ids) < len(device_types)` loop: supplied IDs are
   * kept and each missing one is the default for its position.
   */
  method FillDeviceIds(deviceTypes: seq<string>, given: seq<string>) returns (ids: seq<string>)
    ensures |ids| == if |given| >= |deviceTypes| then |given| else |deviceTypes|
    ensures ids[..|given|] == given
    ensures forall k :: |given| <= k < |ids| ==> ids[k] == DefaultId(deviceTypes[k], k + 1)
  {
    ids := given;
    while |ids| < |deviceTypes|
      invariant |given| <= |ids|
      invariant |ids| == |given| || |ids| <= |deviceTypes|
      invariant ids[..|given|] == given
      invariant forall k :: |given| <= k < |ids| ==> ids[k] == DefaultId(deviceTypes[k], k + 1)
      decreases |deviceTypes| - |ids|
    {
      var id := DefaultId(deviceTypes[|ids|], |ids| + 1);
      assert (ids + [id])[..|given|] == ids[..|given|];
      ids := ids + [id];
    }
  }

  /** The run of decimal digits that ends a string. */
  function TrailingDigits(s: string): (d: string)
    ensures AllDigits(d)
    decreases |s|
  {
    if s != [] && IsDigit(s[|s| - 1]) then TrailingDigits(s[..|s| - 1]) + [s[|s| - 1]] else []
  }

  lemma {:induction false} TrailingDigitsAfter(stem: string, d: string)
    requires stem != [] && !IsDigit(stem[|stem| - 1])
    requires AllDigits(d)
    ensures TrailingDigits(stem + d) == d
    decreases |d|
  {
    if d == [] {
      assert stem + d == stem;
    } else {
      var init := d[..|d| - 1];
      TrailingDigitsAfter(stem, init);
      assert (stem + d)[..|stem + d| - 1] == stem + init;
      assert init + [d[|d| - 1]] == d;
    }
  }

  /** A default ID ends in its position, written in decimal. */
  lemma DefaultIdNumber(deviceType: string, n: nat)
    ensures ParseNat(TrailingDigits(DefaultId(deviceType, n))) == Some(n)
  {
    var stem := if deviceType in SHELLY_TYPES then deviceType + SHELLY_ID_STEM else DEVICE_ID_STEM;
    assert DefaultId(deviceType, n) == stem + NatToString(n);
    assert stem[|stem| - 1] == 'c' || stem[|stem| - 1] == '-';
    TrailingDigitsAfter(stem, NatToString(n));
    ParseNatToString(n);
  }

  /** No two generated IDs are alike, so every device gets its own. */
  lemma DefaultIdsDistinct(t1: string, n1: nat, t2: string, n2: nat)
    requires n1 != n2
    ensures DefaultId(t1, n1) != DefaultId(t2, n2)
  {
    DefaultIdNumber(t1, n1);
    DefaultIdNumber(t2, n2);
  }
}

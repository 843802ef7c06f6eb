/**
 * The configuration wiring of config/config_loader.py: which powermeter
 * each INI section builds, whether it is wrapped for throttling, and the
 * client filter (a list of IPv4 networks) it is paired with.
 *
 * A configuration is its section names in file order and, per section,
 * its raw `key = value` strings. Turning a value string into a number or
 * a network is done by the caller-supplied `Parsers` (configparser's
 * `getfloat` and `ipaddress.IPv4Network`), None standing for the
 * `ValueError` they raise. IPv4 addresses are 32-bit words.
 */
module Config {
  import opened Base
  import opened Text

  // ---------------------------------------------------------------------
  // networks and the client filter

  type Ipv4 = bv32

  /** A prefix length, `/0` to `/32`. */
  type PrefixLen = p: int | 0 <= p <= 32

  /** An `IPv4Network`: its network address and prefix length. */
  datatype Network = Network(base: Ipv4, prefix: PrefixLen)

  /** The netmask of a prefix length: `prefix` leading one bits. */
  function Mask(prefix: PrefixLen): (m: bv32)
    ensures prefix == 0 ==> m == 0
    ensures prefix == 32 ==> m == 0xFFFF_FFFF
  {
    if prefix == 0 then 0 else 0xFFFF_FFFF << (32 - prefix)
  }

  /** `ip in network`: the address's leading `prefix` bits are the network's. */
  predicate Contains(n: Network, ip: Ipv4)
  {
    ip & Mask(n.prefix) == n.base
  }

  /** Some network in the list contains `ip`. */
  predicate AnyContains(nets: seq<Network>, ip: Ipv4)
  {
    exists i :: 0 <= i < |nets| && Contains(nets[i], ip)
  }

  /** `0.0.0.0/0`, the network a section without NETMASK gets. */
  const EVERYWHERE: Network := Network(0, 0)

  const DEFAULT_NETMASK: string := "0.0.0.0/0"

  lemma EverywhereContainsAll(ip: Ipv4)
    ensures Contains(EVERYWHERE, ip)
  {
  }

  /** A `/32` network holds exactly its own address. */
  lemma HostNetwork(host: Ipv4, ip: Ipv4)
    ensures Contains(Network(host, 32), ip) <==> ip == host
  {
  }

  /** `192.168.1.0/24` holds 192.168.1.77 and not 192.168.2.1. */
  lemma NetworkExamples()
    ensures Contains(Network(0xC0A8_0100, 24), 0xC0A8_014D)
    ensures !Contains(Network(0xC0A8_0100, 24), 0xC0A8_0201)
  {
  }

  /**
   * `ClientFilter`: the networks a section's meter serves. It is never
   * changed after construction, so it is a value.
   */
  datatype ClientFilter = ClientFilter(netmasks: seq<Network>)
  {
    /**
     * The value `matches` returns for a peer whose address string parsed
     * to `peer` (None: `IPv4Address` raised): `True` on a containing
     * network, `False` for an unparsable address, and Python's `None`
     * (here None) when the loop runs out.
     */
    function Verdict(peer: Option<Ipv4>): Option<bool>
    {
      if peer.None? then Some(false)
      else if AnyContains(netmasks, peer.value) then Some(true)
      else None
    }

    /** Whether `matches` returned something truthy. */
    predicate Admits(peer: Option<Ipv4>)
    {
      Verdict(peer) == Some(true)
    }

    /** `matches`: scan the networks in order, returning at the first that holds the peer. */
    method Matches(peer: Option<Ipv4>) returns (r: Option<bool>)
      ensures peer.None? ==> r == Some(false)
      ensures peer.Some? ==> (r == Some(true) <==> exists i :: 0 <= i < |netmasks| && Contains(netmasks[i], peer.value))
      ensures peer.Some? && r != Some(true) ==> r == None
      ensures r == Verdict(peer)
    {
      if peer.None? {
        return Some(false);
      }
      var ip := peer.value;
      for i := 0 to |netmasks|
        invariant forall j :: 0 <= j < i ==> !Contains(netmasks[j], ip)
      {
        if Contains(netmasks[i], ip) {
          return Some(true);
        }
      }
      return None;
    }
  }

  /** An empty filter admits nobody; the default one admits every parsable address. */
  lemma FilterExtremes(peer: Option<Ipv4>)
    ensures !ClientFilter([]).Admits(peer)
    ensures ClientFilter([EVERYWHERE]).Admits(peer) <==> peer.Some?
  {
    if peer.Some? {
      assert ClientFilter([EVERYWHERE]).netmasks[0] == EVERYWHERE;
      assert Contains(EVERYWHERE, peer.value);
    }
  }

  /** A filter admits a parsable address exactly when one of its networks holds it. */
  lemma AdmitsIff(f: ClientFilter, ip: Ipv4)
    ensures f.Admits(Some(ip)) <==> exists i :: 0 <= i < |f.netmasks| && Contains(f.netmasks[i], ip)
    ensures !f.Admits(None)
  {
  }

  /** Adding networks to a filter never turns a peer away. */
  lemma AdmitsMonotone(f: ClientFilter, more: seq<Network>, peer: Option<Ipv4>)
    requires f.Admits(peer)
    ensures ClientFilter(f.netmasks + more).Admits(peer)
    ensures ClientFilter(more + f.netmasks).Admits(peer)
  {
    var ip := peer.value;
    var i :| 0 <= i < |f.netmasks| && Contains(f.netmasks[i], ip);
    assert (f.netmasks + more)[i] == f.netmasks[i];
    assert (more + f.netmasks)[|more| + i] == f.netmasks[i];
  }

  // ---------------------------------------------------------------------
  // the configuration file

  datatype ConfigFile = ConfigFile(order: seq<string>, sections: map<string, map<string, string>>)
  {
    predicate HasOption(section: string, key: string)
    {
      section in sections && key in sections[section]
    }

    /** `config.get(section, key, fallback=fallback)`. */
    function Get(section: string, key: string, fallback: string): (v: string)
      ensures HasOption(section, key) ==> v == sections[section][key]
      ensures !HasOption(section, key) ==> v == fallback
    {
      if HasOption(section, key) then sections[section][key] else fallback
    }
  }

  /** How configparser and ipaddress read a value; None where they raise `ValueError`. */
  datatype Parsers = Parsers(number: string -> Option<real>, network: string -> Option<Network>)

  /** What makes `read_all_powermeter_configs` raise. */
  datatype ConfigError =
    | UnknownShellyType(shellyType: string)
    | BadNumber(section: string, key: string)
    | BadNetwork(section: string, item: string)

  const GENERAL: string := "GENERAL"
  const THROTTLE_INTERVAL: string := "THROTTLE_INTERVAL"
  const NETMASK: string := "NETMASK"

  /**
   * `config.getfloat(section, key, fallback=fallback)`: the fallback when
   * the option is absent, an error when it is present but not a number.
   */
  function GetReal(cfg: ConfigFile, p: Parsers, section: string, key: string, fallback: real): (r: Result<real, ConfigError>)
    ensures !cfg.HasOption(section, key) ==> r == Ok(fallback)
    ensures cfg.HasOption(section, key) && p.number(cfg.sections[section][key]).Some? ==>
      r == Ok(p.number(cfg.sections[section][key]).value)
    ensures cfg.HasOption(section, key) && p.number(cfg.sections[section][key]).None? ==> r == Err(BadNumber(section, key))
  {
    if !cfg.HasOption(section, key) then Ok(fallback)
    else match p.number(cfg.sections[section][key])
      case None => Err(BadNumber(section, key))
      case Some(x) => Ok(x)
  }

  /** The GENERAL `THROTTLE_INTERVAL`, 0.0 when absent. */
  function GlobalThrottle(cfg: ConfigFile, p: Parsers): Result<real, ConfigError>
  {
    GetReal(cfg, p, GENERAL, THROTTLE_INTERVAL, 0.0)
  }

  /** A section's throttle interval: its own when set, the global one otherwise. */
  function SectionThrottle(cfg: ConfigFile, p: Parsers, section: string, global: real): Result<real, ConfigError>
  {
    GetReal(cfg, p, section, THROTTLE_INTERVAL, global)
  }

  /** The section's own value wins; without one the global value applies, 0.0 without either. */
  lemma ThrottlePrecedence(cfg: ConfigFile, p: Parsers, section: string)
    requires cfg.HasOption(section, THROTTLE_INTERVAL) ==> p.number(cfg.sections[section][THROTTLE_INTERVAL]).Some?
    requires cfg.HasOption(GENERAL, THROTTLE_INTERVAL) ==> p.number(cfg.sections[GENERAL][THROTTLE_INTERVAL]).Some?
    ensures GlobalThrottle(cfg, p).Ok?
    ensures var t := SectionThrottle(cfg, p, section, GlobalThrottle(cfg, p).value);
      && t.Ok?
      && (cfg.HasOption(section, THROTTLE_INTERVAL) ==> t.value == p.number(cfg.sections[section][THROTTLE_INTERVAL]).value)
      && (!cfg.HasOption(section, THROTTLE_INTERVAL) && cfg.HasOption(GENERAL, THROTTLE_INTERVAL) ==>
            t.value == p.number(cfg.sections[GENERAL][THROTTLE_INTERVAL]).value)
      && (!cfg.HasOption(section, THROTTLE_INTERVAL) && !cfg.HasOption(GENERAL, THROTTLE_INTERVAL) ==> t.value == 0.0)
  {
  }

  // ---------------------------------------------------------------------
  // which meter a section builds

  datatype ShellyModel = Shelly1PM | ShellyPlus1PM | ShellyEM | Shelly3EMPro

  /** A stripped entity name, or several (`parse_entities`'s `str | list[str]`). */
  datatype Entities = Single(name: string) | Several(names: seq<string>)

  /**
   * The backend a section builds. Only what the dispatch decides is kept;
   * the connection settings each backend reads are not part of this model.
   */
  datatype Backend =
    | ShellyMeter(model: ShellyModel)
    | TasmotaMeter
    | ShrdzmMeter
    | EmlogMeter
    | IoBrokerMeter
    | HomeAssistantMeter(currentPower: Entities, powerInput: Entities, powerOutput: Entities)
    | VzLoggerMeter
    | ScriptMeter
    | EspHomeMeter
    | AmisReaderMeter
    | ModbusMeter
    | MqttMeter

  /** A configured meter, wrapped in `ThrottledPowermeter` or not. */
  datatype Meter = Plain(backend: Backend) | Throttled(inner: Backend, interval: real)

  /** The `create_shelly_powermeter` choice of class for a `TYPE` value. */
  function ShellyModelFor(shellyType: string): Result<ShellyModel, ConfigError>
  {
    if shellyType == "1PM" then Ok(Shelly1PM)
    else if shellyType == "PLUS1PM" then Ok(ShellyPlus1PM)
    else if shellyType == "EM" || shellyType == "3EM" then Ok(ShellyEM)
    else if shellyType == "3EMPro" then Ok(Shelly3EMPro)
    else Err(UnknownShellyType(shellyType))
  }

  /** "EM" and "3EM" are the one class; the five names are the only accepted ones; others raise. */
  lemma ShellyModelChoice(shellyType: string)
    ensures ShellyModelFor(shellyType) == Ok(ShellyEM) <==> shellyType == "EM" || shellyType == "3EM"
    ensures ShellyModelFor(shellyType).Ok? <==> shellyType in ["1PM", "PLUS1PM", "EM", "3EM", "3EMPro"]
    ensures ShellyModelFor(shellyType).Err? ==> ShellyModelFor(shellyType) == Err(UnknownShellyType(shellyType))
    ensures ShellyModelFor("") == Err(UnknownShellyType(""))
  {
  }

  /** `parse_entities`: empty gives "", otherwise the comma-separated names, stripped. */
  function ParseEntities(value: string): (r: Entities)
    ensures value == "" ==> r == Single("")
    ensures value != "" ==>
      var parts := Split(value, ',');
      && (|parts| == 1 ==> r == Single(Strip(parts[0])))
      && (|parts| > 1 ==>
            && r.Several? && |r.names| == |parts|
            && forall i :: 0 <= i < |parts| ==> r.names[i] == Strip(parts[i]))
  {
    if value == "" then Single("")
    else
      var parts := Split(value, ',');
      var names := seq(|parts|, i requires 0 <= i < |parts| => Strip(parts[i]));
      if |names| == 1 then Single(names[0]) else Several(names)
  }

  lemma {:induction false} CountZero(s: string, c: char)
    ensures Count(s, c) == 0 <==> c !in s
    decreases |s|
  {
    if s != [] {
      CountZero(s[1..], c);
      assert s == [s[0]] + s[1..];
    }
  }

  /** A non-empty value without a comma is one name; with a comma, a list. */
  lemma EntitiesShape(value: string)
    requires value != ""
    ensures ParseEntities(value).Single? <==> ',' !in value
  {
    SplitCount(value, ',');
    CountZero(value, ',');
  }

  /**
   * Names without commas or blanks, joined with commas, parse back to
   * those names.
   */
  lemma EntitiesRoundTrip(names: seq<string>)
    requires |names| >= 1 && Join(names, ',') != ""
    requires forall i :: 0 <= i < |names| ==> ',' !in names[i]
    requires forall i, k :: 0 <= i < |names| && 0 <= k < |names[i]| ==> !IsSpace(names[i][k])
    ensures ParseEntities(Join(names, ',')) == if |names| == 1 then Single(names[0]) else Several(names)
  {
    SplitJoin(names, ',');
    forall i | 0 <= i < |names|
      ensures Strip(names[i]) == names[i]
    {
      var n := names[i];
      assert forall k :: 0 <= k < |n| ==> !IsSpace(n[k]);
    }
    EntitiesOfParts(Join(names, ','), names);
  }

  /** A value whose parts are already stripped parses to exactly those parts. */
  lemma EntitiesOfParts(value: string, parts: seq<string>)
    requires value != "" && Split(value, ',') == parts && |parts| >= 1
    requires forall i :: 0 <= i < |parts| ==> Strip(parts[i]) == parts[i]
    ensures ParseEntities(value) == if |parts| == 1 then Single(parts[0]) else Several(parts)
  {
    var r := ParseEntities(value);
    if |parts| > 1 {
      assert r.Several? && |r.names| == |parts|;
      assert forall i :: 0 <= i < |parts| ==> r.names[i] == parts[i];
    }
  }

  const SHELLY_SECTION: string := "SHELLY"
  const TASMOTA_SECTION: string := "TASMOTA"
  const SHRDZM_SECTION: string := "SHRDZM"
  const EMLOG_SECTION: string := "EMLOG"
  const IOBROKER_SECTION: string := "IOBROKER"
  const HOMEASSISTANT_SECTION: string := "HOMEASSISTANT"
  const VZLOGGER_SECTION: string := "VZLOGGER"
  const SCRIPT_SECTION: string := "SCRIPT"
  const ESPHOME_SECTION: string := "ESPHOME"
  const AMIS_READER_SECTION: string := "AMIS_READER"
  const MODBUS_SECTION: string := "MODBUS"
  const MQTT_SECTION: string := "MQTT"

  /** The section-name prefixes in the order `create_powermeter` tries them. */
  const PREFIXES: seq<string> := [SHELLY_SECTION, TASMOTA_SECTION, SHRDZM_SECTION, EMLOG_SECTION,
    IOBROKER_SECTION, HOMEASSISTANT_SECTION, VZLOGGER_SECTION, SCRIPT_SECTION, ESPHOME_SECTION,
    AMIS_READER_SECTION, MODBUS_SECTION, MQTT_SECTION]

  function HomeAssistantFor(cfg: ConfigFile, section: string): Backend
  {
    HomeAssistantMeter(
      ParseEntities(cfg.Get(section, "CURRENT_POWER_ENTITY", "")),
      ParseEntities(cfg.Get(section, "POWER_INPUT_ALIAS", "")),
      ParseEntities(cfg.Get(section, "POWER_OUTPUT_ALIAS", "")))
  }

  /** `create_powermeter`: the backend of the first matching prefix, None when none matches. */
  function CreatePowermeter(cfg: ConfigFile, section: string): Result<Option<Backend>, ConfigError>
  {
    if StartsWith(section, SHELLY_SECTION) then
      match ShellyModelFor(cfg.Get(section, "TYPE", ""))
      case Err(e) => Err(e)
      case Ok(m) => Ok(Some(ShellyMeter(m)))
    else if StartsWith(section, TASMOTA_SECTION) then Ok(Some(TasmotaMeter))
    else if StartsWith(section, SHRDZM_SECTION) then Ok(Some(ShrdzmMeter))
    else if StartsWith(section, EMLOG_SECTION) then Ok(Some(EmlogMeter))
    else if StartsWith(section, IOBROKER_SECTION) then Ok(Some(IoBrokerMeter))
    else if StartsWith(section, HOMEASSISTANT_SECTION) then Ok(Some(HomeAssistantFor(cfg, section)))
    else if StartsWith(section, VZLOGGER_SECTION) then Ok(Some(VzLoggerMeter))
    else if StartsWith(section, SCRIPT_SECTION) then Ok(Some(ScriptMeter))
    else if StartsWith(section, ESPHOME_SECTION) then Ok(Some(EspHomeMeter))
    else if StartsWith(section, AMIS_READER_SECTION) then Ok(Some(AmisReaderMeter))
    else if StartsWith(section, MODBUS_SECTION) then Ok(Some(ModbusMeter))
    else if StartsWith(section, MQTT_SECTION) then Ok(Some(MqttMeter))
    else Ok(None)
  }

  /** The backend that the `i`-th prefix stands for. */
  function PrefixBackend(cfg: ConfigFile, section: string, i: nat): Result<Option<Backend>, ConfigError>
    requires i < |PREFIXES|
  {
    match i
    case 0 =>
      (match ShellyModelFor(cfg.Get(section, "TYPE", ""))
       case Err(e) => Err(e)
       case Ok(m) => Ok(Some(ShellyMeter(m))))
    case 1 => Ok(Some(TasmotaMeter))
    case 2 => Ok(Some(ShrdzmMeter))
    case 3 => Ok(Some(EmlogMeter))
    case 4 => Ok(Some(IoBrokerMeter))
    case 5 => Ok(Some(HomeAssistantFor(cfg, section)))
    case 6 => Ok(Some(VzLoggerMeter))
    case 7 => Ok(Some(ScriptMeter))
    case 8 => Ok(Some(EspHomeMeter))
    case 9 => Ok(Some(AmisReaderMeter))
    case 10 => Ok(Some(ModbusMeter))
    case _ => Ok(Some(MqttMeter))
  }

  /** The first three characters of a name, which tell the prefixes apart. */
  function Key(s: string): (char, char, char)
    requires |s| >= 3
  {
    (s[0], s[1], s[2])
  }

  /** The position in `PREFIXES` of the prefix with this key; 12 for none. */
  function KeyIndex(k: (char, char, char)): nat
  {
    if k == ('S', 'H', 'E') then 0
    else if k == ('T', 'A', 'S') then 1
    else if k == ('S', 'H', 'R') then 2
    else if k == ('E', 'M', 'L') then 3
    else if k == ('I', 'O', 'B') then 4
    else if k == ('H', 'O', 'M') then 5
    else if k == ('V', 'Z', 'L') then 6
    else if k == ('S', 'C', 'R') then 7
    else if k == ('E', 'S', 'P') then 8
    else if k == ('A', 'M', 'I') then 9
    else if k == ('M', 'O', 'D') then 10
    else if k == ('M', 'Q', 'T') then 11
    else 12
  }

  lemma PrefixKeys()
    ensures forall i :: 0 <= i < |PREFIXES| ==> |PREFIXES[i]| >= 4 && KeyIndex(Key(PREFIXES[i])) == i
  {
  }

  /** A name that starts with the `i`-th prefix has that prefix's key. */
  lemma MatchingPrefix(s: string, i: nat)
    requires i < |PREFIXES| && StartsWith(s, PREFIXES[i])
    ensures |s| >= 3 && KeyIndex(Key(s)) == i
  {
    PrefixKeys();
    var p := PREFIXES[i];
    assert s[..|p|] == p;
    assert s[0] == p[0] && s[1] == p[1] && s[2] == p[2];
  }

  /**
   * A section name matches at most one prefix, and the dispatch gives that
   * prefix's backend; a name matching none builds nothing. So the order of
   * the tests cannot change the outcome.
   */
  lemma DispatchByPrefix(cfg: ConfigFile, section: string)
    ensures forall i, j :: 0 <= i < |PREFIXES| && 0 <= j < |PREFIXES| && StartsWith(section, PREFIXES[i]) && StartsWith(section, PREFIXES[j]) ==> i == j
    ensures forall i :: 0 <= i < |PREFIXES| && StartsWith(section, PREFIXES[i]) ==> CreatePowermeter(cfg, section) == PrefixBackend(cfg, section, i)
    ensures CreatePowermeter(cfg, section) == Ok(None) <==> forall i :: 0 <= i < |PREFIXES| ==> !StartsWith(section, PREFIXES[i])
  {
    forall i, j | 0 <= i < |PREFIXES| && 0 <= j < |PREFIXES| && StartsWith(section, PREFIXES[i]) && StartsWith(section, PREFIXES[j])
      ensures i == j
    {
      MatchingPrefix(section, i);
      MatchingPrefix(section, j);
    }
    forall i | 0 <= i < |PREFIXES| && StartsWith(section, PREFIXES[i])
      ensures CreatePowermeter(cfg, section) == PrefixBackend(cfg, section, i)
    {
      DispatchToMatch(cfg, section, i);
    }
    if CreatePowermeter(cfg, section) == Ok(None) {
      forall i | 0 <= i < |PREFIXES|
        ensures !StartsWith(section, PREFIXES[i])
      {
        if StartsWith(section, PREFIXES[i]) {
          DispatchToMatch(cfg, section, i);
        }
      }
    }
    if forall i :: 0 <= i < |PREFIXES| ==> !StartsWith(section, PREFIXES[i]) {
      NoneMatches(cfg, section);
    }
  }

  /** The dispatch reaches the one prefix a name starts with. */
  lemma DispatchToMatch(cfg: ConfigFile, section: string, i: nat)
    requires i < |PREFIXES| && StartsWith(section, PREFIXES[i])
    ensures CreatePowermeter(cfg, section) == PrefixBackend(cfg, section, i)
    ensures CreatePowermeter(cfg, section) != Ok(None)
  {
    MatchingPrefix(section, i);
    forall j | 0 <= j < |PREFIXES| && StartsWith(section, PREFIXES[j])
      ensures j == i
    {
      MatchingPrefix(section, j);
    }
    assert PREFIXES[0] == SHELLY_SECTION && PREFIXES[1] == TASMOTA_SECTION && PREFIXES[2] == SHRDZM_SECTION;
    assert PREFIXES[3] == EMLOG_SECTION && PREFIXES[4] == IOBROKER_SECTION && PREFIXES[5] == HOMEASSISTANT_SECTION;
    assert PREFIXES[6] == VZLOGGER_SECTION && PREFIXES[7] == SCRIPT_SECTION && PREFIXES[8] == ESPHOME_SECTION;
    assert PREFIXES[9] == AMIS_READER_SECTION && PREFIXES[10] == MODBUS_SECTION && PREFIXES[11] == MQTT_SECTION;
  }

  /** A name that starts with no prefix builds nothing. */
  lemma NoneMatches(cfg: ConfigFile, section: string)
    requires forall i :: 0 <= i < |PREFIXES| ==> !StartsWith(section, PREFIXES[i])
    ensures CreatePowermeter(cfg, section) == Ok(None)
  {
    assert !StartsWith(section, PREFIXES[0]) && !StartsWith(section, PREFIXES[1]) && !StartsWith(section, PREFIXES[2]);
    assert !StartsWith(section, PREFIXES[3]) && !StartsWith(section, PREFIXES[4]) && !StartsWith(section, PREFIXES[5]);
    assert !StartsWith(section, PREFIXES[6]) && !StartsWith(section, PREFIXES[7]) && !StartsWith(section, PREFIXES[8]);
    assert !StartsWith(section, PREFIXES[9]) && !StartsWith(section, PREFIXES[10]) && !StartsWith(section, PREFIXES[11]);
  }

  /** A name whose first three characters are no prefix's key builds nothing. */
  lemma NoMatchingPrefix(cfg: ConfigFile, section: string)
    requires |section| < 3 || KeyIndex(Key(section)) == 12
    ensures CreatePowermeter(cfg, section) == Ok(None)
  {
    DispatchByPrefix(cfg, section);
    forall i | 0 <= i < |PREFIXES|
      ensures !StartsWith(section, PREFIXES[i])
    {
      if StartsWith(section, PREFIXES[i]) {
        MatchingPrefix(section, i);
      }
    }
  }

  /** GENERAL and lower-case names build nothing; a suffix after the prefix is allowed. */
  lemma DispatchExamples(cfg: ConfigFile)
    ensures CreatePowermeter(cfg, GENERAL) == Ok(None)
    ensures CreatePowermeter(cfg, "shelly") == Ok(None)
    ensures CreatePowermeter(cfg, "TASMOTA_2") == Ok(Some(TasmotaMeter))
    ensures CreatePowermeter(cfg, "MQTT") == Ok(Some(MqttMeter))
  {
    NoMatchingPrefix(cfg, GENERAL);
    NoMatchingPrefix(cfg, "shelly");
    DispatchByPrefix(cfg, "TASMOTA_2");
    assert StartsWith("TASMOTA_2", PREFIXES[1]) by {
      assert "TASMOTA_2"[..7] == "TASMOTA";
    }
    DispatchByPrefix(cfg, "MQTT");
    assert StartsWith("MQTT", PREFIXES[11]) by {
      assert "MQTT"[..4] == "MQTT";
    }
  }

  // ---------------------------------------------------------------------
  // the client filter of a section

  /**
   * `create_client_filter`: the section's NETMASK (default `0.0.0.0/0`)
   * split on commas, each item one network, in order.
   */
  function CreateClientFilter(cfg: ConfigFile, p: Parsers, section: string): (r: Result<ClientFilter, ConfigError>)
    ensures var items := Split(cfg.Get(section, NETMASK, DEFAULT_NETMASK), ',');
      && (r.Ok? <==> AllNetworks(p, items))
      && (r.Ok? ==>
            && |r.value.netmasks| == |items|
            && forall i :: 0 <= i < |items| ==> r.value.netmasks[i] == p.network(items[i]).value)
  {
    var items := Split(cfg.Get(section, NETMASK, DEFAULT_NETMASK), ',');
    var nets := NetworksOf(p, section, items);
    match nets
    case Err(e) => Err(e)
    case Ok(nets) => Ok(ClientFilter(nets))
  }

  predicate AllNetworks(p: Parsers, items: seq<string>)
  {
    forall i :: 0 <= i < |items| ==> p.network(items[i]).Some?
  }

  /** Each item parsed as a network; the first that does not parse raises. */
  function NetworksOf(p: Parsers, section: string, items: seq<string>): (r: Result<seq<Network>, ConfigError>)
    ensures r.Ok? <==> AllNetworks(p, items)
    ensures r.Ok? ==> |r.value| == |items| && forall i :: 0 <= i < |items| ==> r.value[i] == p.network(items[i]).value
    decreases |items|
  {
    if items == [] then Ok([])
    else match p.network(items[0])
      case None => Err(BadNetwork(section, items[0]))
      case Some(n) =>
        match NetworksOf(p, section, items[1..])
        case Err(e) => Err(e)
        case Ok(rest) => Ok([n] + rest)
  }

  /** Without NETMASK a section serves every parsable address. */
  lemma DefaultFilterAdmitsAll(cfg: ConfigFile, p: Parsers, section: string, ip: Ipv4)
    requires !cfg.HasOption(section, NETMASK)
    requires p.network(DEFAULT_NETMASK) == Some(EVERYWHERE)
    ensures CreateClientFilter(cfg, p, section).Ok?
    ensures CreateClientFilter(cfg, p, section).value.Admits(Some(ip))
  {
    SplitWithoutSeparator(DEFAULT_NETMASK, ',');
    var f := CreateClientFilter(cfg, p, section).value;
    assert f.netmasks[0] == EVERYWHERE;
    assert Contains(f.netmasks[0], ip);
  }

  // ---------------------------------------------------------------------
  // read_all_powermeter_configs

  /** One `(powermeter, client_filter)` pair. */
  datatype Entry = Entry(meter: Meter, filter: ClientFilter)

  /**
   * What one section contributes: nothing when it builds no meter,
   * otherwise its meter, throttled when its interval is positive, and its
   * client filter.
   */
  function SectionEntry(cfg: ConfigFile, p: Parsers, section: string, global: real): (r: Result<Option<Entry>, ConfigError>)
    ensures r == Ok(None) <==> CreatePowermeter(cfg, section) == Ok(None)
    ensures r.Ok? && r.value.Some? ==>
      && CreatePowermeter(cfg, section).Ok? && CreatePowermeter(cfg, section).value.Some?
      && SectionThrottle(cfg, p, section, global).Ok?
      && var b := CreatePowermeter(cfg, section).value.value;
         var t := SectionThrottle(cfg, p, section, global).value;
         && r.value.value.meter == (if t > 0.0 then Throttled(b, t) else Plain(b))
         && Ok(r.value.value.filter) == CreateClientFilter(cfg, p, section)
  {
    match CreatePowermeter(cfg, section)
    case Err(e) => Err(e)
    case Ok(None) => Ok(None)
    case Ok(Some(b)) =>
      match SectionThrottle(cfg, p, section, global)
      case Err(e) => Err(e)
      case Ok(t) =>
        var meter := if t > 0.0 then Throttled(b, t) else Plain(b);
        match CreateClientFilter(cfg, p, section)
        case Err(e) => Err(e)
        case Ok(f) => Ok(Some(Entry(meter, f)))
  }

  /** `acc` in front of a result; an error stays the error. */
  function Prepend(acc: seq<Entry>, r: Result<seq<Entry>, ConfigError>): Result<seq<Entry>, ConfigError>
  {
    match r
    case Err(e) => Err(e)
    case Ok(es) => Ok(acc + es)
  }

  /** The pairs of `sections` in order; the first section that raises ends it. */
  function EntriesFrom(cfg: ConfigFile, p: Parsers, sections: seq<string>, global: real): Result<seq<Entry>, ConfigError>
    decreases |sections|
  {
    if sections == [] then Ok([])
    else match SectionEntry(cfg, p, sections[0], global)
      case Err(e) => Err(e)
      case Ok(None) => EntriesFrom(cfg, p, sections[1..], global)
      case Ok(Some(e)) => Prepend([e], EntriesFrom(cfg, p, sections[1..], global))
  }

  /** The result of `read_all_powermeter_configs`. */
  function AllPowermeterConfigs(cfg: ConfigFile, p: Parsers): Result<seq<Entry>, ConfigError>
  {
    match GlobalThrottle(cfg, p)
    case Err(e) => Err(e)
    case Ok(g) => EntriesFrom(cfg, p, cfg.order, g)
  }

  /** `read_all_powermeter_configs`: one pass over the sections, appending each pair. */
  method ReadAllPowermeterConfigs(cfg: ConfigFile, p: Parsers) returns (r: Result<seq<Entry>, ConfigError>)
    ensures r == AllPowermeterConfigs(cfg, p)
  {
    var global := GetReal(cfg, p, GENERAL, THROTTLE_INTERVAL, 0.0);
    if global.Err? {
      return Err(global.error);
    }
    var g := global.value;
    var powermeters: seq<Entry> := [];
    var i := 0;
    assert cfg.order[0..] == cfg.order;
    PrependNothing(EntriesFrom(cfg, p, cfg.order, g));
    while i < |cfg.order|
      invariant 0 <= i <= |cfg.order|
      invariant Prepend(powermeters, EntriesFrom(cfg, p, cfg.order[i..], g)) == EntriesFrom(cfg, p, cfg.order, g)
    {
      var section := cfg.order[i];
      assert cfg.order[i..][1..] == cfg.order[i + 1..];
      var entry := SectionEntry(cfg, p, section, g);
      if entry.Err? {
        return Err(entry.error);
      }
      if entry.value.Some? {
        PrependTwice(powermeters, entry.value.value, EntriesFrom(cfg, p, cfg.order[i + 1..], g));
        powermeters := powermeters + [entry.value.value];
      }
      i := i + 1;
    }
    assert cfg.order[i..] == [];
    assert powermeters + [] == powermeters;
    r := Ok(powermeters);
  }

  lemma PrependNothing(r: Result<seq<Entry>, ConfigError>)
    ensures Prepend([], r) == r
  {
    if r.Ok? {
      assert [] + r.value == r.value;
    }
  }

  lemma PrependTwice(acc: seq<Entry>, e: Entry, r: Result<seq<Entry>, ConfigError>)
    ensures Prepend(acc, Prepend([e], r)) == Prepend(acc + [e], r)
  {
    if r.Ok? {
      assert acc + ([e] + r.value) == (acc + [e]) + r.value;
    }
  }

  /** The sections of `sections` that build a meter, in order. */
  function MeterSections(cfg: ConfigFile, sections: seq<string>): seq<string>
    decreases |sections|
  {
    if sections == [] then []
    else if CreatePowermeter(cfg, sections[0]).Ok? && CreatePowermeter(cfg, sections[0]).value.Some? then
      [sections[0]] + MeterSections(cfg, sections[1..])
    else MeterSections(cfg, sections[1..])
  }

  /** One section of `EntriesFrom` and of `MeterSections`, when the whole run succeeds. */
  lemma EntriesStep(cfg: ConfigFile, p: Parsers, sections: seq<string>, global: real)
    requires sections != [] && EntriesFrom(cfg, p, sections, global).Ok?
    ensures SectionEntry(cfg, p, sections[0], global).Ok?
    ensures EntriesFrom(cfg, p, sections[1..], global).Ok?
    ensures var s := SectionEntry(cfg, p, sections[0], global).value;
      var rest := EntriesFrom(cfg, p, sections[1..], global).value;
      && (s.None? ==> EntriesFrom(cfg, p, sections, global).value == rest
                      && MeterSections(cfg, sections) == MeterSections(cfg, sections[1..]))
      && (s.Some? ==> EntriesFrom(cfg, p, sections, global).value == [s.value] + rest
                      && MeterSections(cfg, sections) == [sections[0]] + MeterSections(cfg, sections[1..]))
  {
  }

  /**
   * On success the pairs are exactly those of the sections that build a
   * meter, in configuration order: sections building nothing are skipped.
   */
  lemma {:induction false} EntriesFollowSections(cfg: ConfigFile, p: Parsers, sections: seq<string>, global: real)
    requires EntriesFrom(cfg, p, sections, global).Ok?
    ensures var es := EntriesFrom(cfg, p, sections, global).value;
      var kept := MeterSections(cfg, sections);
      && |es| == |kept|
      && forall k :: 0 <= k < |kept| ==>
           SectionEntry(cfg, p, kept[k], global) == Ok(Some(es[k]))
    decreases |sections|
  {
    if sections != [] {
      EntriesStep(cfg, p, sections, global);
      EntriesFollowSections(cfg, p, sections[1..], global);
      var rest := EntriesFrom(cfg, p, sections[1..], global).value;
      var keptRest := MeterSections(cfg, sections[1..]);
      var s := SectionEntry(cfg, p, sections[0], global);
      if s.value.Some? {
        var f := x => SectionEntry(cfg, p, x, global);
        assert forall k :: 0 <= k < |keptRest| ==> f(keptRest[k]) == Ok(Some(rest[k]));
        PairedCons(f, sections[0], keptRest, s.value.value, rest);
      }
    }
  }

  /** Putting a section whose entry is `e` in front keeps sections and pairs in step. */
  lemma PairedCons(f: string -> Result<Option<Entry>, ConfigError>, head: string, kept: seq<string>, e: Entry, es: seq<Entry>)
    requires f(head) == Ok(Some(e))
    requires |es| == |kept|
    requires forall k :: 0 <= k < |kept| ==> f(kept[k]) == Ok(Some(es[k]))
    ensures forall k :: 0 <= k < |kept| + 1 ==> f(([head] + kept)[k]) == Ok(Some(([e] + es)[k]))
  {
    forall k | 0 <= k < |kept| + 1
      ensures f(([head] + kept)[k]) == Ok(Some(([e] + es)[k]))
    {
      if k > 0 {
        assert ([head] + kept)[k] == kept[k - 1];
        assert ([e] + es)[k] == es[k - 1];
      }
    }
  }
}

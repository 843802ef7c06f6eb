/**
 * The original single-file emulator, smartmeter.py: one powermeter chosen
 * by which INI section is present, a UDP server that answers every "hame"
 * with "ack", and a TCP session that reads the meter and sends
 * `HM:a|b|c` once per second. Readings here are whole watts.
 */
module Legacy {
  import opened Base
  import opened Power
  import opened Discovery
  import Config
  import Streaming

  // ---------------------------------------------------------------------
  // create_powermeter

  /** The backend the legacy script builds (its connection settings are not part of this model). */
  datatype LegacyBackend =
    | ShellyBackend(model: Config.ShellyModel)
    | TasmotaBackend
    | ShrdzmBackend
    | EmlogBackend
    | IoBrokerBackend
    | HomeAssistantBackend
    | VzLoggerBackend
    | ScriptBackend
    | EspHomeBackend
    | AmisReaderBackend

  datatype LegacyError = ShellyTypeUnknown(shellyType: string) | NoPowermeter

  /** The sections `create_powermeter` looks for, in order. */
  const SECTIONS: seq<string> := ["SHELLY", "TASMOTA", "SHRDZM", "EMLOG", "IOBROKER",
    "HOMEASSISTANT", "VZLOGGER", "SCRIPT", "ESPHOME", "AMIS_READER"]

  predicate HasSection(cfg: Config.ConfigFile, name: string)
  {
    name in cfg.sections
  }

  /** The backend of the `i`-th section of `SECTIONS`. */
  function BackendAt(cfg: Config.ConfigFile, i: nat): Result<LegacyBackend, LegacyError>
    requires i < |SECTIONS|
  {
    match i
    case 0 =>
      (match Config.ShellyModelFor(cfg.Get("SHELLY", "TYPE", ""))
       case Ok(m) => Ok(ShellyBackend(m))
       case Err(_) => Err(ShellyTypeUnknown(cfg.Get("SHELLY", "TYPE", ""))))
    case 1 => Ok(TasmotaBackend)
    case 2 => Ok(ShrdzmBackend)
    case 3 => Ok(EmlogBackend)
    case 4 => Ok(IoBrokerBackend)
    case 5 => Ok(HomeAssistantBackend)
    case 6 => Ok(VzLoggerBackend)
    case 7 => Ok(ScriptBackend)
    case 8 => Ok(EspHomeBackend)
    case _ => Ok(AmisReaderBackend)
  }

  /** `create_powermeter(config)`: the first present section wins; none present raises. */
  function CreatePowermeter(cfg: Config.ConfigFile): Result<LegacyBackend, LegacyError>
  {
    if HasSection(cfg, "SHELLY") then
      var t := cfg.Get("SHELLY", "TYPE", "");
      (match Config.ShellyModelFor(t)
       case Ok(m) => Ok(ShellyBackend(m))
       case Err(_) => Err(ShellyTypeUnknown(t)))
    else if HasSection(cfg, "TASMOTA") then Ok(TasmotaBackend)
    else if HasSection(cfg, "SHRDZM") then Ok(ShrdzmBackend)
    else if HasSection(cfg, "EMLOG") then Ok(EmlogBackend)
    else if HasSection(cfg, "IOBROKER") then Ok(IoBrokerBackend)
    else if HasSection(cfg, "HOMEASSISTANT") then Ok(HomeAssistantBackend)
    else if HasSection(cfg, "VZLOGGER") then Ok(VzLoggerBackend)
    else if HasSection(cfg, "SCRIPT") then Ok(ScriptBackend)
    else if HasSection(cfg, "ESPHOME") then Ok(EspHomeBackend)
    else if HasSection(cfg, "AMIS_READER") then Ok(AmisReaderBackend)
    else Err(NoPowermeter)
  }

  /** The position of the first section of the list present in the file. */
  function FirstPresent(cfg: Config.ConfigFile, from: nat): (r: Option<nat>)
    requires from <= |SECTIONS|
    ensures r.Some? ==> from <= r.value < |SECTIONS|
    decreases |SECTIONS| - from
  {
    if from == |SECTIONS| then None
    else if HasSection(cfg, SECTIONS[from]) then Some(from)
    else FirstPresent(cfg, from + 1)
  }

  lemma {:induction false} FirstPresentIsFirst(cfg: Config.ConfigFile, from: nat)
    requires from <= |SECTIONS|
    ensures var r := FirstPresent(cfg, from);
      && (r.None? <==> forall j :: from <= j < |SECTIONS| ==> !HasSection(cfg, SECTIONS[j]))
      && (r.Some? ==> HasSection(cfg, SECTIONS[r.value]) && forall j :: from <= j < r.value ==> !HasSection(cfg, SECTIONS[j]))
    decreases |SECTIONS| - from
  {
    if from < |SECTIONS| && !HasSection(cfg, SECTIONS[from]) {
      FirstPresentIsFirst(cfg, from + 1);
    }
  }

  /**
   * Precedence: the meter is the one of the first section of the list that
   * is present, whatever follows; with none of them present it raises.
   */
  lemma Precedence(cfg: Config.ConfigFile)
    ensures match FirstPresent(cfg, 0)
      case None => CreatePowermeter(cfg) == Err(NoPowermeter)
      case Some(i) => CreatePowermeter(cfg) == BackendAt(cfg, i)
    ensures CreatePowermeter(cfg) == Err(NoPowermeter) <==> forall j :: 0 <= j < |SECTIONS| ==> !HasSection(cfg, SECTIONS[j])
  {
    FirstPresentIsFirst(cfg, 0);
    var r := FirstPresent(cfg, 0);
    if r.Some? {
      var i := r.value;
      assert forall j :: 0 <= j < i ==> !HasSection(cfg, SECTIONS[j]);
      assert HasSection(cfg, SECTIONS[i]);
    } else {
      assert forall j :: 0 <= j < |SECTIONS| ==> !HasSection(cfg, SECTIONS[j]);
      assert !HasSection(cfg, SECTIONS[0]) && !HasSection(cfg, SECTIONS[1]) && !HasSection(cfg, SECTIONS[2]);
      assert !HasSection(cfg, SECTIONS[3]) && !HasSection(cfg, SECTIONS[4]) && !HasSection(cfg, SECTIONS[5]);
      assert !HasSection(cfg, SECTIONS[6]) && !HasSection(cfg, SECTIONS[7]) && !HasSection(cfg, SECTIONS[8]);
      assert !HasSection(cfg, SECTIONS[9]);
    }
  }

  /** A SHELLY section shadows every other; its TYPE maps as in the multi-meter loader. */
  lemma ShellyFirst(cfg: Config.ConfigFile)
    requires HasSection(cfg, "SHELLY")
    ensures CreatePowermeter(cfg) == Ok(ShellyBackend(Config.ShellyEM)) <==>
      cfg.Get("SHELLY", "TYPE", "") in ["EM", "3EM"]
    ensures CreatePowermeter(cfg).Err? <==> cfg.Get("SHELLY", "TYPE", "") !in ["1PM", "PLUS1PM", "EM", "3EM", "3EMPro"]
  {
    Config.ShellyModelChoice(cfg.Get("SHELLY", "TYPE", ""));
  }

  // ---------------------------------------------------------------------
  // udp_server

  /** One datagram: every "hame" is acked, with no dedupe; non-UTF-8 ends the server. */
  function LegacyReply(decoded: Option<string>): UdpReply
  {
    if decoded.None? then Crashed
    else if decoded.value == HAME then Ack
    else NoReply
  }

  /**
   * The legacy server answers every "hame", so it acks at least whenever
   * a deduplicating device would, and also inside the window.
   */
  lemma LegacyAcksMore(table: Table, decoded: Option<string>, addr: Addr, now: real, window: real)
    ensures HameReply(table, decoded, addr, now, window) == Ack ==> LegacyReply(decoded) == Ack
    ensures LegacyReply(decoded) == Ack <==> decoded == Some(HAME)
    ensures HameReply(table, decoded, addr, now, window) == Crashed <==> LegacyReply(decoded) == Crashed
  {
  }

  // ---------------------------------------------------------------------
  // handle_tcp_client

  /** The three values of one message: padded with zeros, summed onto phase 1 unless disabled. */
  function LegacyValues(values: seq<int>, disableSumPhases: bool): (r: (int, int, int))
  {
    var v1 := if |values| > 0 then values[0] else 0;
    var v2 := if |values| > 1 then values[1] else 0;
    var v3 := if |values| > 2 then values[2] else 0;
    if disableSumPhases then (v1, v2, v3) else (v1 + v2 + v3, 0, 0)
  }

  /** One pass of the `while True` loop: the meter's read and whether the send went through. */
  datatype Round = Round(fetched: Fetched, sendOk: bool)

  datatype LegacyEnd =
    /** The first payload was not "hello". */
    | NotHello
    /** The first payload was not UTF-8. */
    | BadPayload
    /** The meter's read raised, which ends the session. */
    | ReadRaised
    | PipeBroken
    /** The rounds given ran out with the session still sending. */
    | StillSending

  datatype LegacyOutcome = LegacyOutcome(sent: seq<string>, end: LegacyEnd)

  function Rounds(rs: seq<Round>, disableSumPhases: bool): LegacyOutcome
    decreases |rs|
  {
    if rs == [] then LegacyOutcome([], StillSending)
    else if rs[0].fetched.Failed? then LegacyOutcome([], ReadRaised)
    else
      var (a, b, c) := LegacyValues(rs[0].fetched.values, disableSumPhases);
      if !rs[0].sendOk then LegacyOutcome([], PipeBroken)
      else
        var rest := Rounds(rs[1..], disableSumPhases);
        LegacyOutcome([Streaming.HmMessage(a, b, c)] + rest.sent, rest.end)
  }

  /** One connection: the first payload (None: not UTF-8), then the rounds. */
  function LegacySession(first: Option<string>, rs: seq<Round>, disableSumPhases: bool): LegacyOutcome
  {
    if first.None? then LegacyOutcome([], BadPayload)
    else if first.value != "hello" then LegacyOutcome([], NotHello)
    else Rounds(rs, disableSumPhases)
  }

  /** `sent` followed by what `o` sent, ending as `o` does. */
  function After(sent: seq<string>, o: LegacyOutcome): LegacyOutcome
  {
    LegacyOutcome(sent + o.sent, o.end)
  }

  /** `Rounds` unfolded by its first round `r`, after the messages already sent. */
  lemma RoundsStep(sent: seq<string>, r: Round, rest: seq<Round>, disableSumPhases: bool)
    ensures r.fetched.Failed? ==> After(sent, Rounds([r] + rest, disableSumPhases)) == LegacyOutcome(sent, ReadRaised)
    ensures r.fetched.Watts? && !r.sendOk ==> After(sent, Rounds([r] + rest, disableSumPhases)) == LegacyOutcome(sent, PipeBroken)
    ensures r.fetched.Watts? && r.sendOk ==>
      var v := LegacyValues(r.fetched.values, disableSumPhases);
      After(sent, Rounds([r] + rest, disableSumPhases)) == After(sent + [Streaming.HmMessage(v.0, v.1, v.2)], Rounds(rest, disableSumPhases))
  {
    assert ([r] + rest)[0] == r && ([r] + rest)[1..] == rest;
    assert sent + [] == sent;
    if r.fetched.Watts? && r.sendOk {
      var v := LegacyValues(r.fetched.values, disableSumPhases);
      var later := Rounds(rest, disableSumPhases).sent;
      assert sent + ([Streaming.HmMessage(v.0, v.1, v.2)] + later) == sent + [Streaming.HmMessage(v.0, v.1, v.2)] + later;
    }
  }

  /** The body of the loop that builds the three values of a message. */
  method PhaseValues(values: seq<int>, disableSumPhases: bool) returns (value1: int, value2: int, value3: int)
    ensures (value1, value2, value3) == LegacyValues(values, disableSumPhases)
    ensures !disableSumPhases ==> value2 == 0 && value3 == 0
  {
    value1 := if |values| > 0 then values[0] else 0;
    value2 := if |values| > 1 then values[1] else 0;
    value3 := if |values| > 2 then values[2] else 0;
    if !disableSumPhases {
      value1 := value1 + value2 + value3;
      value2, value3 := 0, 0;
    }
  }

  /** `handle_tcp_client` for one connection. */
  method HandleTcpClient(first: Option<string>, rs: seq<Round>, disableSumPhases: bool) returns (o: LegacyOutcome)
    ensures o == LegacySession(first, rs, disableSumPhases)
  {
    if first.None? {
      return LegacyOutcome([], BadPayload);
    }
    if first.value != "hello" {
      return LegacyOutcome([], NotHello);
    }
    var sent: seq<string> := [];
    var i := 0;
    assert rs[0..] == rs;
    assert After([], Rounds(rs, disableSumPhases)) == Rounds(rs, disableSumPhases);
    while i < |rs|
      invariant 0 <= i <= |rs|
      invariant After(sent, Rounds(rs[i..], disableSumPhases)) == Rounds(rs, disableSumPhases)
    {
      ghost var rest := rs[i + 1..];
      assert rs[i..] == [rs[i]] + rest;
      RoundsStep(sent, rs[i], rest, disableSumPhases);
      if rs[i].fetched.Failed? {
        return LegacyOutcome(sent, ReadRaised);
      }
      var value1, value2, value3 := PhaseValues(rs[i].fetched.values, disableSumPhases);
      var message := Streaming.HmMessage(value1, value2, value3);
      if !rs[i].sendOk {
        return LegacyOutcome(sent, PipeBroken);
      }
      sent := sent + [message];
      i := i + 1;
    }
    assert rs[i..] == [];
    assert sent + [] == sent;
    o := LegacyOutcome(sent, StillSending);
  }

  /**
   * Each message sent carries, unrounded, the padded and (unless
   * disabled) summed reading of its round; it is sent for every round up
   * to the first failed read or send.
   */
  lemma {:induction false} RoundsSend(rs: seq<Round>, disableSumPhases: bool)
    ensures var o := Rounds(rs, disableSumPhases);
      && |o.sent| <= |rs|
      && (forall k :: 0 <= k < |o.sent| ==>
            && rs[k].fetched.Watts? && rs[k].sendOk
            && Streaming.ParseHm(o.sent[k]) == Some(LegacyValues(rs[k].fetched.values, disableSumPhases)))
      && (o.end == StillSending <==> |o.sent| == |rs|)
      && (|o.sent| < |rs| ==> (if rs[|o.sent|].fetched.Failed? then o.end == ReadRaised else o.end == PipeBroken))
    decreases |rs|
  {
    if rs != [] && rs[0].fetched.Watts? && rs[0].sendOk {
      RoundsSend(rs[1..], disableSumPhases);
      var (a, b, c) := LegacyValues(rs[0].fetched.values, disableSumPhases);
      Streaming.ParseHmMessage(a, b, c);
      var o := Rounds(rs, disableSumPhases);
      var rest := Rounds(rs[1..], disableSumPhases);
      assert o.sent == [Streaming.HmMessage(a, b, c)] + rest.sent;
      forall k | 0 <= k < |o.sent|
        ensures rs[k].fetched.Watts? && rs[k].sendOk &&
          Streaming.ParseHm(o.sent[k]) == Some(LegacyValues(rs[k].fetched.values, disableSumPhases))
      {
        if k > 0 {
          assert o.sent[k] == rest.sent[k - 1] && rs[k] == rs[1..][k - 1];
        }
      }
    }
  }

  /** A first payload other than "hello" sends nothing. */
  lemma NotHelloSendsNothing(first: Option<string>, rs: seq<Round>, disableSumPhases: bool)
    requires first != Some("hello")
    ensures LegacySession(first, rs, disableSumPhases).sent == []
  {
  }

  /**
   * Summing keeps the total and leaves phases 2 and 3 at zero; unlike the
   * CT001 emulator there is no absolute value, so a negative total is sent
   * as it is.
   */
  lemma SummedValues(values: seq<int>)
    ensures var (a, b, c) := LegacyValues(values, false);
      var (x, y, z) := LegacyValues(values, true);
      a == x + y + z && b == 0 && c == 0
    ensures LegacyValues([-300, 100], false) == (-200, 0, 0)
  {
  }
}

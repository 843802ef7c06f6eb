/**
 * The CT002 emulator of ct002/ct002.py (`CTEmulator`): one UDP port that
 * answers plain "hame" discovery under the dedupe rule and CT002 binary
 * requests addressed to it, and a TCP server that streams the value slot.
 * Its value slot holds whole watts per phase.
 */
module Ct002Device {
  import opened Base
  import opened Text
  import opened Power
  import opened Discovery
  import opened Streaming
  import opened Lifecycle
  import opened Ct002Codec

  /** What one datagram does to the UDP loop. */
  datatype Ct002Reply =
    | HameAck
    | HameDeduped
    | Refused(error: FrameError)
    | NotAddressed
    | Response(frame: seq<byte>)
    /** `before_send` or `build_ct002_response` raised: the UDP server ends. */
    | ServerDown

  /** The one callback the CT002 session has. */
  function SessionCallbacks(beforeSend: bool): Callbacks
  {
    Callbacks(false, beforeSend, false, false)
  }

  class CTEmulator {
    var deviceType: string
    var batteryMac: string
    var ctMac: string
    var ctType: string
    var pollInterval: real
    var discoveryBatteryMacs: seq<string>
    var dedupeTimeWindow: real
    var lastResponseTime: Table
    /** `_value`: whole watts per phase; None is Python's `None`. */
    var value: Option<seq<int>>
    /** Whether `before_send` is set. */
    var beforeSend: bool
    var udpThread: bool
    var tcpThread: bool
    var stopFlag: bool

    function Threads(): Threads
      reads this
    {
      Lifecycle.Threads(udpThread, tcpThread, stopFlag)
    }

    constructor (deviceType: string := "HMG-50", batteryMac: string := "001122334455",
                 ctMac: string := "009c17abcdef", ctType: string := "HME-4", pollInterval: real := 1.0,
                 discoveryBatteryMacs: Option<seq<string>> := None, dedupeTimeWindow: real := 10.0)
      ensures this.deviceType == deviceType && this.batteryMac == batteryMac
      ensures this.ctMac == ctMac && this.ctType == ctType && this.pollInterval == pollInterval
      ensures this.discoveryBatteryMacs == discoveryBatteryMacs.GetOr(["001122334455"])
      ensures this.dedupeTimeWindow == dedupeTimeWindow
      ensures lastResponseTime == map[] && value == Some([0, 0, 0]) && !beforeSend
      ensures Threads() == Idle
    {
      this.deviceType := deviceType;
      this.batteryMac := batteryMac;
      this.ctMac := ctMac;
      this.ctType := ctType;
      this.pollInterval := pollInterval;
      this.discoveryBatteryMacs := if discoveryBatteryMacs.None? then ["001122334455"] else discoveryBatteryMacs.value;
      this.dedupeTimeWindow := dedupeTimeWindow;
      lastResponseTime := map[];
      value := Some([0, 0, 0]);
      beforeSend := false;
      udpThread := false;
      tcpThread := false;
      stopFlag := false;
    }

    method SetValue(v: Option<seq<int>>)
      modifies this`value
      ensures value == v
    {
      value := v;
    }

    /** `build_ct002_response` on the current value slot; None where it raises. */
    method BuildResponse(requestFields: seq<string>) returns (r: Option<seq<byte>>)
      ensures r == ResponseFrame(requestFields, ctType, ctMac, value)
    {
      var values := ValuesOrZero(value);
      if |requestFields| < 2 || |values| < 3 {
        return None;
      }
      var fields := ResponseFields(requestFields, ctType, ctMac, values);
      if !AllAscii(fields) {
        return None;
      }
      var frame := AssembleFrame(fields);
      r := Some(frame);
    }

    /**
     * One pass of `udp_server`: the datagram `data` from `addr` at `now`;
     * `hook` is what `before_send` does when it is set and called.
     */
    method HandleDatagram(data: seq<byte>, addr: Addr, now: real, hook: HookEffect) returns (r: Ct002Reply)
      modifies this`lastResponseTime, this`value
      // plain "hame": the dedupe rule, and never a frame
      ensures data == HAME_BYTES ==>
        && r == (if ShouldAck(old(lastResponseTime), addr, now, dedupeTimeWindow) then HameAck else HameDeduped)
        && lastResponseTime == AfterHame(old(lastResponseTime), addr, now, dedupeTimeWindow)
        && value == old(value)
      ensures data != HAME_BYTES ==> lastResponseTime == old(lastResponseTime)
      // a malformed frame, or one not addressed to this CT
      ensures data != HAME_BYTES && ParseFrame(data).Err? ==> r == Refused(ParseFrame(data).error) && value == old(value)
      ensures data != HAME_BYTES && ParseFrame(data).Ok? && !Addressed(ParseFrame(data).value, ctMac) ==>
        r == NotAddressed && value == old(value)
      // an addressed request: `before_send`, then the response on the slot it leaves
      ensures data != HAME_BYTES && ParseFrame(data).Ok? && Addressed(ParseFrame(data).value, ctMac) ==>
        if beforeSend && hook.Raises? then r == ServerDown && value == old(value)
        else
          && value == HookedSlot(SessionCallbacks(beforeSend), old(value), hook)
          && r == (match ResponseFrame(ParseFrame(data).value, ctType, ctMac, value)
                   case None => ServerDown
                   case Some(frame) => Response(frame))
    {
      if data == HAME_BYTES {
        if addr !in lastResponseTime || now - lastResponseTime[addr] > dedupeTimeWindow {
          lastResponseTime := lastResponseTime[addr := now];
          return HameAck;
        }
        return HameDeduped;
      }
      var parsed := ParseRequest(data);
      if parsed.Err? {
        return Refused(parsed.error);
      }
      var fields := parsed.value;
      if |fields| < 4 {
        return NotAddressed;
      }
      if Lower(fields[3]) != Lower(ctMac) && fields[3] != ZERO_MAC {
        return NotAddressed;
      }
      if beforeSend {
        if hook.Raises? {
          return ServerDown;
        }
        if hook.Writes? {
          value := hook.slot;
        }
      }
      var response := BuildResponse(fields);
      if response.None? {
        return ServerDown;
      }
      r := Response(response.value);
    }

    /** `handle_tcp_client` for one connection. */
    method HandleTcpClient(first: Option<string>, ticks: seq<Tick>) returns (o: Outcome)
      modifies this`value
      ensures o == Session(Ct002, SessionCallbacks(beforeSend), pollInterval, first, old(value), ticks)
      ensures value == o.slot
    {
      o := RunSession(Ct002, SessionCallbacks(beforeSend), pollInterval, first, value, ticks);
      value := o.slot;
    }

    method Start()
      modifies this`udpThread, this`tcpThread, this`stopFlag
      ensures Threads() == StartBoth(old(Threads()))
    {
      if udpThread || tcpThread {
        return;
      }
      stopFlag := false;
      udpThread := true;
      tcpThread := true;
    }

    method Stop()
      modifies this`udpThread, this`tcpThread, this`stopFlag
      ensures Threads() == StopBoth(old(Threads()))
    {
      stopFlag := true;
      udpThread := false;
      tcpThread := false;
    }
  }
}

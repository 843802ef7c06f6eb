/**
 * The B2500 emulator of b2500/b2500.py: a UDP discovery server that
 * answers "hame" with "ack" under the dedupe rule (sent from a second,
 * short-lived socket, which the model does not distinguish), and a TCP
 * server whose sessions stream the value slot as `HM:a|b|c` messages with
 * no "no value" exit: an empty slot raises when unpacked.
 */
module B2500Device {
  import opened Base
  import opened Power
  import opened Discovery
  import opened Streaming
  import opened Lifecycle

  class B2500 {
    var dedupeTimeWindow: real
    var pollInterval: real
    /** `_last_response_time`. */
    var lastResponseTime: Table
    /** Which of `on_connect`, `before_send`, `after_send`, `on_disconnect` are set. */
    var callbacks: Callbacks
    /** `_value`, in thousandths of a watt per phase; None is Python's `None`. */
    var value: Option<seq<Milli>>
    var udpThread: bool
    var tcpThread: bool
    var stopFlag: bool

    function Threads(): Threads
      reads this
    {
      Lifecycle.Threads(udpThread, tcpThread, stopFlag)
    }

    constructor (dedupeTimeWindow: real := 10.0, pollInterval: real := 1.0, callbacks: Callbacks := Callbacks(false, false, false, false))
      ensures this.dedupeTimeWindow == dedupeTimeWindow && this.pollInterval == pollInterval
      ensures this.callbacks == callbacks
      ensures lastResponseTime == map[] && value == Some([0, 0, 0])
      ensures Threads() == Idle
    {
      this.dedupeTimeWindow := dedupeTimeWindow;
      this.pollInterval := pollInterval;
      this.callbacks := callbacks;
      lastResponseTime := map[];
      value := Some([0, 0, 0]);
      udpThread := false;
      tcpThread := false;
      stopFlag := false;
    }

    /** The `value` setter (the mutex makes the write atomic). */
    method SetValue(v: Option<seq<Milli>>)
      modifies this`value
      ensures value == v
    {
      value := v;
    }

    /** One pass of `udp_server`: a datagram, UTF-8 decoded (None: not UTF-8), from `addr` at `now`. */
    method HandleDatagram(decoded: Option<string>, addr: Addr, now: real) returns (r: UdpReply)
      modifies this`lastResponseTime
      ensures r == HameReply(old(lastResponseTime), decoded, addr, now, dedupeTimeWindow)
      ensures lastResponseTime == TableAfter(old(lastResponseTime), decoded, addr, now, dedupeTimeWindow)
    {
      if decoded.None? {
        return Crashed;
      }
      if decoded.value == HAME {
        if addr !in lastResponseTime || now - lastResponseTime[addr] > dedupeTimeWindow {
          lastResponseTime := lastResponseTime[addr := now];
          return Ack;
        }
        return NoReply;
      }
      r := NoReply;
    }

    /**
     * `handle_tcp_client` for one connection. `before_send` may write the
     * slot, so the slot afterwards is the session's.
     */
    method HandleTcpClient(first: Option<string>, ticks: seq<Tick>) returns (o: Outcome)
      modifies this`value
      ensures o == Session(Variant.B2500, callbacks, pollInterval, first, old(value), ticks)
      ensures value == o.slot
    {
      o := RunSession(Variant.B2500, callbacks, pollInterval, first, value, ticks);
      value := o.slot;
    }

    method Start()
      modifies this`udpThread, this`tcpThread, this`stopFlag
      ensures Threads() == StartBoth(old(Threads()))
    {
      if udpThread || tcpThread {
        return;
      }
      stopFlag := false;
      udpThread := true;
      tcpThread := true;
    }

    method Stop()
      modifies this`udpThread, this`tcpThread, this`stopFlag
      ensures Threads() == StopBoth(old(Threads()))
    {
      stopFlag := true;
      udpThread := false;
      tcpThread := false;
    }
  }
}

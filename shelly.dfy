/**
 * The Shelly Pro 3EM emulator of shelly/shelly.py: a UDP JSON-RPC server
 * that answers `EM.GetStatus` and `EM1.GetStatus` with the readings of
 * the first configured powermeter whose client filter admits the peer.
 *
 * Readings are exact decimals in thousandths of a watt (`Milli`). JSON
 * text is not parsed or produced here: a request arrives as a `Json`
 * value and the reply is the `Json` value that is serialised.
 */
module ShellyDevice {
  import opened Base
  import opened Power
  import opened Config
  import opened Lifecycle

  // ---------------------------------------------------------------------
  // JSON values

  /**
   * A JSON value as `json.loads` returns it: an integer literal becomes an
   * `int` (`JInt`), any other number a `float` (`JFloat`); an object keeps
   * its members in order.
   */
  datatype Json =
    | JNull
    | JBool(b: bool)
    | JInt(i: int)
    | JFloat(x: real)
    | JStr(s: string)
    | JArr(items: seq<Json>)
    | JObj(members: seq<(string, Json)>)

  /** `d.get(key)` on a parsed object: a repeated key keeps its last value. */
  function Lookup(members: seq<(string, Json)>, key: string): Option<Json>
    decreases |members|
  {
    if members == [] then None
    else if members[|members| - 1].0 == key then Some(members[|members| - 1].1)
    else Lookup(members[..|members| - 1], key)
  }

  /** `Lookup` finds the last member with the key, and nothing when there is none. */
  lemma {:induction false} LookupLast(members: seq<(string, Json)>, key: string)
    ensures Lookup(members, key).None? <==> forall i :: 0 <= i < |members| ==> members[i].0 != key
    ensures Lookup(members, key).Some? ==>
      exists i :: 0 <= i < |members| && members[i] == (key, Lookup(members, key).value) &&
        forall j :: i < j < |members| ==> members[j].0 != key
    decreases |members|
  {
    if members != [] {
      var n := |members| - 1;
      var init := members[..n];
      LookupLast(init, key);
      if members[n].0 != key {
        assert forall i :: 0 <= i < n ==> members[i] == init[i];
        if Lookup(init, key).Some? {
          var i :| 0 <= i < |init| && init[i] == (key, Lookup(init, key).value) &&
            forall j :: i < j < |init| ==> init[j].0 != key;
          assert members[i] == (key, Lookup(members, key).value);
          assert forall j :: i < j < |members| ==> members[j].0 != key;
        }
      }
    }
  }

  /** A lookup in a four-member object, written out. */
  lemma Lookup4(a: (string, Json), b: (string, Json), c: (string, Json), d: (string, Json), key: string)
    ensures Lookup([a, b, c, d], key) ==
      if d.0 == key then Some(d.1) else if c.0 == key then Some(c.1)
      else if b.0 == key then Some(b.1) else if a.0 == key then Some(a.1) else None
  {
    assert [a, b, c, d][..3] == [a, b, c];
    assert Lookup([a, b, c, d], key) == if d.0 == key then Some(d.1) else Lookup([a, b, c], key);
    assert [a, b, c][..2] == [a, b];
    assert Lookup([a, b, c], key) == if c.0 == key then Some(c.1) else Lookup([a, b], key);
    assert [a, b][..1] == [a];
    assert Lookup([a, b], key) == if b.0 == key then Some(b.1) else Lookup([a], key);
    assert [a][..0] == [];
    assert Lookup([a], key) == if a.0 == key then Some(a.1) else None;
  }

  /** `isinstance(x, int)`: Python's `bool` is a subclass of `int`. */
  predicate IsPythonInt(v: Option<Json>)
  {
    v.Some? && (v.value.JInt? || v.value.JBool?)
  }

  /** A reading as the float it stands for, in watts. */
  function Num(m: Milli): Json
  {
    JFloat(m as real / 1000.0)
  }

  // ---------------------------------------------------------------------
  // value shaping

  /**
   * "Integer nudge": a whole number of watts (zero included) gets one
   * thousandth added, so that it serialises with a fraction.
   */
  function Nudge(m: Milli): (r: Milli)
    ensures r % MILLI_PER_WATT != 0
    ensures r == m || r == m + 1
    ensures r == m <==> m % MILLI_PER_WATT != 0
  {
    if m % MILLI_PER_WATT == 0 then m + 1 else m
  }

  /**
   * `_calculate_derived_values`: below 0.1 W in magnitude the reading is
   * replaced by 0.001; otherwise it is nudged when integral and rounded to
   * tenths of a watt (ties to even, as `round` does on exact decimals).
   */
  function Derived(p: Milli): Milli
  {
    if Abs(p) < 100 then 1
    else RoundedUnits(Nudge(p), 100) * 100
  }

  /** The small-value sentinel. */
  lemma DerivedSmall(p: Milli)
    requires Abs(p) < 100
    ensures Derived(p) == 1
  {
  }

  /**
   * At 0.1 W and above, the result is the reading rounded to tenths: a
   * multiple of 100 thousandths within 50 of it, never zero; a whole
   * number of watts comes back unchanged, since the nudge is rounded away.
   */
  lemma DerivedRounds(p: Milli)
    requires Abs(p) >= 100
    ensures Derived(p) % 100 == 0
    ensures 2 * Abs(Derived(p) - p) <= 100
    ensures Derived(p) != 0
    ensures p % MILLI_PER_WATT == 0 ==> Derived(p) == p
  {
    var k := RoundedUnits(Nudge(p), 100);
    if p % MILLI_PER_WATT == 0 {
      assert (p + 1) / 100 == p / 100 && (p + 1) % 100 == 1;
      RoundedUnitsUnique(p + 1, 100, p / 100);
    } else {
      var d := k * 100 - p;
      assert 2 * Abs(d) <= 100;
    }
  }

  lemma DerivedExamples()
    ensures Derived(0) == 1 && Derived(99) == 1 && Derived(-50) == 1
    ensures Derived(100000) == 100000
    ensures Derived(123456) == 123500
    ensures Derived(-1234) == -1200
  {
    DerivedRounds(100000);
    RoundedUnitsUnique(123456, 100, 1235);
    RoundedUnitsUnique(-1234, 100, -12);
  }

  /** EM phase normalisation: one value is phase A; a count other than 1 or 3 is all zeros. */
  function Normalise(powers: seq<Milli>): (n: seq<Milli>)
    ensures |n| == 3
    ensures |powers| == 1 ==> n == [powers[0], 0, 0]
    ensures |powers| == 3 ==> n == powers
    ensures |powers| != 1 && |powers| != 3 ==> n == [0, 0, 0]
  {
    if |powers| == 1 then [powers[0], 0, 0]
    else if |powers| != 3 then [0, 0, 0]
    else powers
  }

  // ---------------------------------------------------------------------
  // responses

  const EM_GET_STATUS: string := "EM.GetStatus"
  const EM1_GET_STATUS: string := "EM1.GetStatus"
  const UNKNOWN: string := "unknown"

  /** The envelope both replies share. */
  function Envelope(requestId: Json, deviceId: string, result: Json): Json
  {
    JObj([("id", requestId), ("src", JStr(deviceId)), ("dst", JStr(UNKNOWN)), ("result", result)])
  }

  /** `_create_em_response`. */
  function EmResponse(requestId: Json, deviceId: string, powers: seq<Milli>): Json
  {
    var n := Normalise(powers);
    Envelope(requestId, deviceId, JObj([
      ("a_act_power", Num(Derived(n[0]))),
      ("b_act_power", Num(Derived(n[1]))),
      ("c_act_power", Num(Derived(n[2]))),
      ("total_act_power", Num(Nudge(Sum(n))))]))
  }

  /** `_create_em1_response`: the total of the readings as fetched, not normalised. */
  function Em1Response(requestId: Json, deviceId: string, powers: seq<Milli>): Json
  {
    Envelope(requestId, deviceId, JObj([("act_power", Num(Nudge(Sum(powers))))]))
  }

  /**
   * Both replies echo the request id, name this device as source and
   * "unknown" as destination. EM reports three phases and their nudged
   * total; EM1 reports only the nudged total of the raw readings.
   */
  lemma ResponseShape(requestId: Json, deviceId: string, powers: seq<Milli>)
    ensures var r := EmResponse(requestId, deviceId, powers);
      && Lookup(r.members, "id") == Some(requestId)
      && Lookup(r.members, "src") == Some(JStr(deviceId))
      && Lookup(r.members, "dst") == Some(JStr(UNKNOWN))
      && var res := Lookup(r.members, "result").value.members;
         && |res| == 4
         && Lookup(res, "total_act_power") == Some(Num(Nudge(Sum(Normalise(powers)))))
         && Lookup(res, "a_act_power") == Some(Num(Derived(Normalise(powers)[0])))
    ensures var r := Em1Response(requestId, deviceId, powers);
      && Lookup(r.members, "id") == Some(requestId)
      && Lookup(r.members, "src") == Some(JStr(deviceId))
      && Lookup(r.members, "dst") == Some(JStr(UNKNOWN))
      && Lookup(r.members, "result").value.members == [("act_power", Num(Nudge(Sum(powers))))]
  {
    assert "dst"[0] != "src"[0];
    assert "a_act_power"[0] != "b_act_power"[0] && "a_act_power"[0] != "c_act_power"[0];
    var n := Normalise(powers);
    var res := [("a_act_power", Num(Derived(n[0]))), ("b_act_power", Num(Derived(n[1]))),
      ("c_act_power", Num(Derived(n[2]))), ("total_act_power", Num(Nudge(Sum(n))))];
    Lookup4(res[0], res[1], res[2], res[3], "total_act_power");
    Lookup4(res[0], res[1], res[2], res[3], "a_act_power");
    var id, src, dst := ("id", requestId), ("src", JStr(deviceId)), ("dst", JStr(UNKNOWN));
    var em, em1 := ("result", JObj(res)), ("result", JObj([("act_power", Num(Nudge(Sum(powers))))]));
    Lookup4(id, src, dst, em, "id");
    Lookup4(id, src, dst, em, "src");
    Lookup4(id, src, dst, em, "dst");
    Lookup4(id, src, dst, em, "result");
    Lookup4(id, src, dst, em1, "id");
    Lookup4(id, src, dst, em1, "src");
    Lookup4(id, src, dst, em1, "dst");
    Lookup4(id, src, dst, em1, "result");
  }

  /** Two readings: EM zeroes every phase, EM1 still totals them. */
  lemma TwoReadingsExample(requestId: Json, deviceId: string)
    ensures Lookup(Lookup(EmResponse(requestId, deviceId, [100000, 200000]).members, "result").value.members, "total_act_power")
      == Some(Num(1))
    ensures Lookup(Em1Response(requestId, deviceId, [100000, 200000]).members, "result").value.members
      == [("act_power", Num(300001))]
  {
    ResponseShape(requestId, deviceId, [100000, 200000]);
    assert Sum([0, 0, 0]) == 0;
    assert Sum([100000, 200000]) == 300000;
  }

  // ---------------------------------------------------------------------
  // routing

  /** The position of the first pair whose filter admits `ip`. */
  function FirstAdmitting(powermeters: seq<Entry>, ip: Ipv4): Option<nat>
    decreases |powermeters|
  {
    if powermeters == [] then None
    else if powermeters[0].filter.Admits(Some(ip)) then Some(0)
    else match FirstAdmitting(powermeters[1..], ip)
      case None => None
      case Some(k) => Some(k + 1)
  }

  /** The route is the first admitting pair; there is none exactly when no filter admits. */
  lemma {:induction false} FirstAdmittingIsFirst(powermeters: seq<Entry>, ip: Ipv4)
    ensures var r := FirstAdmitting(powermeters, ip);
      && (r.None? <==> forall i :: 0 <= i < |powermeters| ==> !powermeters[i].filter.Admits(Some(ip)))
      && (r.Some? ==>
            && r.value < |powermeters| && powermeters[r.value].filter.Admits(Some(ip))
            && forall i :: 0 <= i < r.value ==> !powermeters[i].filter.Admits(Some(ip)))
    decreases |powermeters|
  {
    if powermeters != [] {
      FirstAdmittingIsFirst(powermeters[1..], ip);
      assert forall i :: 1 <= i < |powermeters| ==> powermeters[i] == powermeters[1..][i - 1];
    }
  }

  /** A pair at position `k` that admits `ip` after none that do is the route. */
  lemma RouteUnique(powermeters: seq<Entry>, ip: Ipv4, k: nat)
    requires k < |powermeters| && powermeters[k].filter.Admits(Some(ip))
    requires forall i :: 0 <= i < k ==> !powermeters[i].filter.Admits(Some(ip))
    ensures FirstAdmitting(powermeters, ip) == Some(k)
  {
    FirstAdmittingIsFirst(powermeters, ip);
  }

  // ---------------------------------------------------------------------
  // one datagram

  /** A datagram as the receive loop sees it. */
  datatype Incoming =
    /** `data.decode()` raised. */
    | NotUtf8
    /** `json.loads` raised. */
    | NotJson
    | Request(json: Json)

  /**
   * What one datagram does: the server ends, or it goes on having read
   * the `asked` powermeter (if any) and sent `reply` (if any).
   */
  datatype UdpOutcome = ServerDown | Handled(asked: Option<nat>, reply: Option<Json>)

  /**
   * `request.get("params", {}).get("id")` is an `int`; anything that makes
   * one of those `.get` calls raise (a request or params that is not an
   * object) is caught and counts as no.
   */
  predicate Gated(request: Json)
  {
    && request.JObj?
    && var params := Lookup(request.members, "params").GetOr(JObj([]));
       params.JObj? && IsPythonInt(Lookup(params.members, "id"))
  }

  /**
   * The reply for a gated request routed to a meter whose fetch gave
   * `fetched`: none on a failed fetch, an unknown method, or no top-level
   * "id" (`request["id"]` raises).
   */
  function Reply(request: Json, deviceId: string, fetched: Fetched): Option<Json>
    requires request.JObj?
  {
    var rpcMethod := Lookup(request.members, "method");
    var id := Lookup(request.members, "id");
    if fetched.Failed? then None
    else if rpcMethod == Some(JStr(EM_GET_STATUS)) then
      (if id.None? then None else Some(EmResponse(id.value, deviceId, fetched.values)))
    else if rpcMethod == Some(JStr(EM1_GET_STATUS)) then
      (if id.None? then None else Some(Em1Response(id.value, deviceId, fetched.values)))
    else None
  }

  /** One pass of `udp_server`, given the peer's address and what its meter's fetch gives. */
  function DatagramOutcome(powermeters: seq<Entry>, deviceId: string, incoming: Incoming, peer: Ipv4, fetched: Fetched): UdpOutcome
  {
    match incoming
    case NotUtf8 => ServerDown
    case NotJson => Handled(None, None)
    case Request(request) =>
      if !Gated(request) then Handled(None, None)
      else match FirstAdmitting(powermeters, peer)
        case None => Handled(None, None)
        case Some(k) => Handled(Some(k), Reply(request, deviceId, fetched))
  }

  /**
   * A reply goes out exactly when the request is gated, some filter admits
   * the peer, the fetch succeeds, the method is one of the two and the
   * request has an id; the meter read is the first admitting one, and is
   * read before the method is looked at.
   */
  lemma DatagramRule(powermeters: seq<Entry>, deviceId: string, incoming: Incoming, peer: Ipv4, fetched: Fetched)
    ensures var o := DatagramOutcome(powermeters, deviceId, incoming, peer, fetched);
      && (o.ServerDown? <==> incoming.NotUtf8?)
      && (o.Handled? && o.reply.Some? <==>
            && incoming.Request?
            && Gated(incoming.json)
            && FirstAdmitting(powermeters, peer).Some?
            && fetched.Watts?
            && Lookup(incoming.json.members, "id").Some?
            && Lookup(incoming.json.members, "method") in {Some(JStr(EM_GET_STATUS)), Some(JStr(EM1_GET_STATUS))})
      && (o.Handled? && o.asked.Some? <==>
            incoming.Request? && Gated(incoming.json) && FirstAdmitting(powermeters, peer).Some?)
      && (o.Handled? && o.asked.Some? ==> o.asked == FirstAdmitting(powermeters, peer))
  {
  }

  /** Requests whose params id is not an int are dropped before any meter is read. */
  lemma GatingExamples(powermeters: seq<Entry>, deviceId: string, peer: Ipv4, fetched: Fetched)
    ensures DatagramOutcome(powermeters, deviceId, Request(JObj([("id", JInt(1)), ("method", JStr(EM_GET_STATUS))])), peer, fetched)
      == Handled(None, None)
    ensures DatagramOutcome(powermeters, deviceId, Request(JObj([("params", JObj([("id", JStr("1"))]))])), peer, fetched)
      == Handled(None, None)
    ensures DatagramOutcome(powermeters, deviceId, Request(JArr([])), peer, fetched) == Handled(None, None)
    ensures Gated(JObj([("params", JObj([("id", JBool(true))]))]))
  {
    var r1 := [("id", JInt(1)), ("method", JStr(EM_GET_STATUS))];
    assert r1[..1] == [r1[0]] && [r1[0]][..0] == [];
    assert "method"[0] != "params"[0];
    assert Lookup(r1, "params") == Lookup([r1[0]], "params");
    assert Lookup(r1, "params") == None;
    assert Lookup([("id", JStr("1"))], "id") == Some(JStr("1"));
  }

  // ---------------------------------------------------------------------
  // the device

  class Shelly {
    const udpPort: int
    const deviceId: string
    /** `_powermeters`: the configured `(powermeter, client filter)` pairs. */
    const powermeters: seq<Entry>
    var udpThread: bool
    var stopFlag: bool

    function Threads(): Threads
      reads this
    {
      Lifecycle.Threads(udpThread, false, stopFlag)
    }

    constructor (powermeters: seq<Entry>, udpPort: int, deviceId: string)
      ensures this.powermeters == powermeters && this.udpPort == udpPort && this.deviceId == deviceId
      ensures Threads() == Idle
    {
      this.powermeters := powermeters;
      this.udpPort := udpPort;
      this.deviceId := deviceId;
      udpThread := false;
      stopFlag := false;
    }

    /** The `for pm, client_filter in self._powermeters` scan, which breaks at the first match. */
    method FindPowermeter(peer: Ipv4) returns (k: Option<nat>)
      ensures k == FirstAdmitting(powermeters, peer)
    {
      k := None;
      var i := 0;
      while i < |powermeters|
        invariant 0 <= i <= |powermeters|
        invariant FirstAdmitting(powermeters, peer) == (match FirstAdmitting(powermeters[i..], peer)
                                                       case None => None
                                                       case Some(j) => Some(i + j))
      {
        assert powermeters[i..][1..] == powermeters[i + 1..];
        var verdict := powermeters[i].filter.Matches(Some(peer));
        if verdict == Some(true) {
          return Some(i);
        }
        i := i + 1;
      }
    }

    /** One pass of `udp_server`; `fetched` is what the routed meter's read gives. */
    method HandleDatagram(incoming: Incoming, peer: Ipv4, fetched: Fetched) returns (o: UdpOutcome)
      ensures o == DatagramOutcome(powermeters, deviceId, incoming, peer, fetched)
    {
      if incoming.NotUtf8? {
        return ServerDown;
      }
      if incoming.NotJson? {
        return Handled(None, None);
      }
      var request := incoming.json;
      if !request.JObj? {
        return Handled(None, None);
      }
      var params := Lookup(request.members, "params").GetOr(JObj([]));
      if !params.JObj? || !IsPythonInt(Lookup(params.members, "id")) {
        return Handled(None, None);
      }
      var route := FindPowermeter(peer);
      if route.None? {
        return Handled(None, None);
      }
      if fetched.Failed? {
        return Handled(route, None);
      }
      var rpcMethod := Lookup(request.members, "method");
      var id := Lookup(request.members, "id");
      var response: Option<Json> := None;
      if rpcMethod == Some(JStr(EM_GET_STATUS)) {
        if id.Some? {
          response := Some(EmResponse(id.value, deviceId, fetched.values));
        }
      } else if rpcMethod == Some(JStr(EM1_GET_STATUS)) {
        if id.Some? {
          response := Some(Em1Response(id.value, deviceId, fetched.values));
        }
      }
      o := Handled(route, response);
    }

    method Start()
      modifies this`udpThread, this`stopFlag
      ensures Threads() == StartUdp(old(Threads()))
    {
      if udpThread {
        return;
      }
      stopFlag := false;
      udpThread := true;
    }

    method Stop()
      modifies this`udpThread, this`stopFlag
      ensures Threads() == StopUdp(old(Threads()))
    {
      stopFlag := true;
      udpThread := false;
    }
  }
}

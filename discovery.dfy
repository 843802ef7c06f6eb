/**
 * The "hame"/"ack" discovery handshake over UDP and its per-address
 * dedupe table, as ct001/ct001.py, b2500/b2500.py and ct002/ct002.py all
 * implement it: a request is answered only when its sender has never been
 * answered, or was last answered strictly more than the window ago; the
 * table is written only when an answer goes out.
 */
module Discovery {
  import opened Base

  /** A UDP peer: the `(host, port)` tuple `recvfrom` returns. */
  datatype Addr = Addr(host: string, port: int)

  /** `_last_response_time`: when each peer was last answered, in seconds. */
  type Table = map<Addr, real>

  const HAME: string := "hame"
  const ACK: string := "ack"

  /** The dedupe test guarding the `sendto(b"ack", addr)`. */
  predicate ShouldAck(table: Table, addr: Addr, now: real, window: real)
  {
    addr !in table || now - table[addr] > window
  }

  /** The table after a "hame" from `addr` at `now`: written only on an ack. */
  function AfterHame(table: Table, addr: Addr, now: real, window: real): Table
  {
    if ShouldAck(table, addr, now, window) then table[addr := now] else table
  }

  /**
   * After a "hame" the peer is on record, at `now` when answered and at its
   * old time otherwise; every other peer's entry is untouched.
   */
  lemma AfterHameFrame(table: Table, addr: Addr, now: real, window: real)
    ensures var t := AfterHame(table, addr, now, window);
      && addr in t
      && t[addr] == (if ShouldAck(table, addr, now, window) then now else table[addr])
      && (forall a :: a != addr ==> (a in t <==> a in table))
      && (forall a :: a != addr && a in table ==> t[a] == table[a])
  {
  }

  /** Answered at `last`, a peer is answered again exactly when more than `window` has passed. */
  lemma AckWindowIsStrict(table: Table, addr: Addr, window: real)
    requires addr in table
    ensures !ShouldAck(table, addr, table[addr] + window, window)
    ensures forall now :: now > table[addr] + window ==> ShouldAck(table, addr, now, window)
  {
  }

  /**
   * The times at which "hame" requests from one peer, arriving at `times`
   * in order, are answered.
   */
  function AckedTimes(table: Table, addr: Addr, times: seq<real>, window: real): (acked: seq<real>)
    ensures |acked| <= |times|
    ensures forall k :: 0 <= k < |acked| ==> acked[k] in times
    decreases |times|
  {
    if times == [] then []
    else
      var rest := AckedTimes(AfterHame(table, addr, times[0], window), addr, times[1..], window);
      if ShouldAck(table, addr, times[0], window) then [times[0]] + rest else rest
  }

  /**
   * `last` followed by `s` is a sequence of answers each strictly more than
   * `window` after the one before (no `last`: the first is unconstrained).
   */
  predicate SpacedAfter(last: Option<real>, s: seq<real>, window: real)
    decreases |s|
  {
    s == [] || ((last.None? || s[0] - last.value > window) && SpacedAfter(Some(s[0]), s[1..], window))
  }

  function LastAnswer(table: Table, addr: Addr): Option<real>
  {
    if addr in table then Some(table[addr]) else None
  }

  /**
   * Whatever the arrival times, two answers to one peer are always more
   * than the window apart, and the first is more than the window after the
   * answer already on record.
   */
  lemma {:induction false} AcksAreSpaced(table: Table, addr: Addr, times: seq<real>, window: real)
    ensures SpacedAfter(LastAnswer(table, addr), AckedTimes(table, addr, times, window), window)
    decreases |times|
  {
    if times != [] {
      var next := AfterHame(table, addr, times[0], window);
      AcksAreSpaced(next, addr, times[1..], window);
      if !ShouldAck(table, addr, times[0], window) {
        assert next == table;
      } else {
        assert LastAnswer(next, addr) == Some(times[0]);
      }
    }
  }

  /** Requests all within the window of the last answer receive nothing. */
  lemma {:induction false} NoAckWithinWindow(table: Table, addr: Addr, times: seq<real>, window: real)
    requires addr in table
    requires forall k :: 0 <= k < |times| ==> times[k] - table[addr] <= window
    ensures AckedTimes(table, addr, times, window) == []
    decreases |times|
  {
    if times != [] {
      assert !ShouldAck(table, addr, times[0], window);
      NoAckWithinWindow(table, addr, times[1..], window);
    }
  }

  /** A peer never seen before is answered on its first request. */
  lemma FirstRequestAnswered(table: Table, addr: Addr, times: seq<real>, window: real)
    requires addr !in table && times != []
    ensures AckedTimes(table, addr, times, window)[0] == times[0]
  {
  }

  /** With the default 10-second window, requests 2 s apart get one ack; 11 s apart, two. */
  lemma DedupeExamples(addr: Addr)
    ensures AckedTimes(map[], addr, [100.0, 102.0], 10.0) == [100.0]
    ensures AckedTimes(map[], addr, [100.0, 111.0], 10.0) == [100.0, 111.0]
    ensures AckedTimes(map[], addr, [100.0, 110.0], 10.0) == [100.0]
  {
    var t := map[addr := 100.0];
    assert AfterHame(map[], addr, 100.0, 10.0) == t;
    assert AckedTimes(t, addr, [102.0], 10.0) == [];
    assert AckedTimes(t, addr, [110.0], 10.0) == [];
    assert AckedTimes(t, addr, [111.0], 10.0) == [111.0];
    assert [100.0, 102.0][1..] == [102.0];
    assert [100.0, 111.0][1..] == [111.0];
    assert [100.0, 110.0][1..] == [110.0];
  }

  // ---------------------------------------------------------------------
  // one pass of the CT001/B2500 UDP loop

  /**
   * What one datagram does to the UDP loop: an ack, nothing, or the end
   * of the server (the payload was not UTF-8 and `data.decode()` raised
   * outside any handler).
   */
  datatype UdpReply = Ack | NoReply | Crashed

  /** The reply to a datagram, given its UTF-8 decoding (None: not UTF-8). */
  function HameReply(table: Table, decoded: Option<string>, addr: Addr, now: real, window: real): UdpReply
  {
    if decoded.None? then Crashed
    else if decoded.value == HAME && ShouldAck(table, addr, now, window) then Ack
    else NoReply
  }

  /** The dedupe table after a datagram. */
  function TableAfter(table: Table, decoded: Option<string>, addr: Addr, now: real, window: real): Table
  {
    if decoded == Some(HAME) then AfterHame(table, addr, now, window) else table
  }

  /**
   * An ack goes out exactly for a "hame" that passes the dedupe test, and
   * then the sender's entry becomes `now`; every other datagram leaves the
   * table as it was.
   */
  lemma DatagramRule(table: Table, decoded: Option<string>, addr: Addr, now: real, window: real)
    ensures var r := HameReply(table, decoded, addr, now, window);
      && (r == Ack <==> decoded == Some(HAME) && (addr !in table || now - table[addr] > window))
      && (r == Ack ==> TableAfter(table, decoded, addr, now, window) == table[addr := now])
      && (r != Ack ==> TableAfter(table, decoded, addr, now, window) == table)
      && (r == Crashed <==> decoded.None?)
  {
  }
}

/**
 * The `start`/`stop` lifecycle every emulated device shares: which server
 * threads are running and whether the stop flag is raised. Thread bodies
 * and `join` are not modelled; `stop` is taken to return once the threads
 * have seen the flag.
 */
module Lifecycle {

  /** The thread handles (`_udp_thread`, `_tcp_thread`) and `_stop`. */
  datatype Threads = Threads(udp: bool, tcp: bool, stop: bool)

  /** A freshly constructed device: no threads, flag down. */
  const Idle: Threads := Threads(false, false, false)

  /** `start` of a device with UDP and TCP servers: a no-op while either handle is set. */
  function StartBoth(t: Threads): Threads
  {
    if t.udp || t.tcp then t else Threads(true, true, false)
  }

  /** `stop` of a device with UDP and TCP servers. */
  function StopBoth(t: Threads): Threads
  {
    Threads(false, false, true)
  }

  /** `start` of a UDP-only device (Shelly). */
  function StartUdp(t: Threads): Threads
  {
    if t.udp then t else Threads(true, t.tcp, false)
  }

  /** `stop` of a UDP-only device: the flag goes up and the handle is cleared. */
  function StopUdp(t: Threads): Threads
  {
    Threads(false, t.tcp, true)
  }

  /** Both handles are set together and cleared together. */
  predicate Paired(t: Threads) { t.udp == t.tcp }

  /** Starting twice is starting once; after a start both servers run. */
  lemma StartBothIdempotent(t: Threads)
    ensures StartBoth(StartBoth(t)) == StartBoth(t)
    ensures Paired(t) ==> Paired(StartBoth(t)) && StartBoth(t).udp && StartBoth(t).tcp
    ensures Paired(StopBoth(t))
    ensures !t.udp && !t.tcp ==> !StartBoth(t).stop
    ensures t.udp || t.tcp ==> StartBoth(t) == t
  {
  }

  /** A stop clears both handles, so a later start launches fresh servers with the flag down. */
  lemma StopThenStart(t: Threads)
    ensures !StopBoth(t).udp && !StopBoth(t).tcp && StopBoth(t).stop
    ensures StartBoth(StopBoth(t)) == Threads(true, true, false)
  {
  }

  lemma StartUdpIdempotent(t: Threads)
    ensures StartUdp(StartUdp(t)) == StartUdp(t)
    ensures StartUdp(t).udp
    ensures t.udp ==> StartUdp(t) == t
    ensures !t.udp ==> !StartUdp(t).stop
  {
  }

  lemma StopUdpThenStart(t: Threads)
    ensures !StopUdp(t).udp && StopUdp(t).stop
    ensures StartUdp(StopUdp(t)).udp && !StartUdp(StopUdp(t)).stop
  {
  }
}

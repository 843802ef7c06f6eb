/**
 * The TCP session every CT-style device runs per connection
 * (`handle_tcp_client` in ct001/ct001.py, b2500/b2500.py and
 * ct002/ct002.py): wait for "hello", then every `poll_interval` seconds
 * call `before_send`, read the value slot and send `HM:a|b|c`, until the
 * stop flag is raised, the slot is empty, the peer hangs up or a callback
 * raises; finally close the socket and call `on_disconnect`.
 *
 * The environment the loop observes is given as a sequence of ticks: one
 * per loop iteration, carrying the stop flag, the clock, what `before_send`
 * did to the slot and whether `conn.send` succeeded. The session's effect
 * is the trace of callbacks and sends it produces.
 */
module Streaming {
  import opened Base
  import opened Text
  import opened Power

  /** Which of the three session loops runs. */
  datatype Variant = Ct001 | B2500 | Ct002

  /**
   * Which callbacks are installed; the CT002 session ignores all but
   * `before_send`, which is the only one it has.
   */
  datatype Callbacks = Callbacks(connect: bool, beforeSend: bool, afterSend: bool, disconnect: bool)

  /** What the `before_send` callback did: nothing to the slot, a new slot value, or raise. */
  datatype HookEffect = Keeps | Writes(slot: Option<seq<int>>) | Raises

  /** One iteration of the session loop as the environment presents it. */
  datatype Tick = Tick(stop: bool, now: real, hook: HookEffect, sendOk: bool)

  datatype Event =
    | Connect
    | BeforeSend
    | Sent(message: string, at: real)
    | AfterSend
    | Close
    | Disconnect

  /**
   * How a session ended: the first payload was not "hello" or not UTF-8;
   * the stop flag; an empty slot; a broken pipe; an exception (a raising
   * callback, or a slot that does not unpack into three values); or the
   * loop is still polling when the ticks run out, with its `last_send_time`.
   */
  datatype End = Rejected | Undecodable | Stopped | NoValue | BrokenPipe | Raised | Polling(last: real)

  datatype Outcome = Outcome(events: seq<Event>, end: End, slot: Option<seq<int>>)

  const HELLO: string := "hello"

  predicate HasConnect(v: Variant, cb: Callbacks) { v != Ct002 && cb.connect }
  predicate HasAfterSend(v: Variant, cb: Callbacks) { v != Ct002 && cb.afterSend }
  predicate HasDisconnect(v: Variant, cb: Callbacks) { v != Ct002 && cb.disconnect }

  // ---------------------------------------------------------------------
  // the message

  /** `f"HM:{value1}|{value2}|{value3}"`. */
  function HmMessage(a: int, b: int, c: int): string
  {
    "HM:" + IntToString(a) + "|" + IntToString(b) + "|" + IntToString(c)
  }

  /** Reads an `HM:a|b|c` message back into its three integers. */
  function ParseHm(s: string): Option<(int, int, int)>
  {
    if !StartsWith(s, "HM:") then None
    else
      var parts := Split(s[3..], '|');
      if |parts| != 3 then None
      else
        match (ParseInt(parts[0]), ParseInt(parts[1]), ParseInt(parts[2]))
        case (Some(a), Some(b), Some(c)) => Some((a, b, c))
        case _ => None
  }

  lemma NoPipeInInt(i: int)
    ensures '|' !in IntToString(i)
  {
    var s := IntToString(i);
    forall k | 0 <= k < |s| ensures s[k] != '|' {
      assert IsDigit(s[k]) || s[k] == '-';
    }
  }

  /** The message carries its three values exactly. */
  lemma ParseHmMessage(a: int, b: int, c: int)
    ensures ParseHm(HmMessage(a, b, c)) == Some((a, b, c))
  {
    var sa, sb, sc := IntToString(a), IntToString(b), IntToString(c);
    NoPipeInInt(a);
    NoPipeInInt(b);
    NoPipeInInt(c);
    var s := HmMessage(a, b, c);
    assert s[3..] == sa + ['|'] + (sb + ['|'] + sc);
    SplitAfterField(sa, '|', sb + ['|'] + sc);
    SplitAfterField(sb, '|', sc);
    SplitWithoutSeparator(sc, '|');
    ParseIntToString(a);
    ParseIntToString(b);
    ParseIntToString(c);
  }

  /**
   * The message for a three-value slot: CT001 and B2500 round each value
   * (held in thousandths of a watt) to whole watts; CT002 holds whole
   * watts already, which `round` leaves unchanged.
   */
  function Message(v: Variant, values: seq<int>): string
    requires |values| == 3
  {
    if v == Ct002 then HmMessage(values[0], values[1], values[2])
    else HmMessage(RoundToWatts(values[0]), RoundToWatts(values[1]), RoundToWatts(values[2]))
  }

  // ---------------------------------------------------------------------
  // the session as a function of its environment

  function BeforeSendEvents(cb: Callbacks): seq<Event>
  {
    if cb.beforeSend then [BeforeSend] else []
  }

  function Closing(v: Variant, cb: Callbacks): seq<Event>
  {
    [Close] + (if HasDisconnect(v, cb) then [Disconnect] else [])
  }

  /** The slot as `before_send` leaves it. */
  function HookedSlot(cb: Callbacks, slot: Option<seq<int>>, hook: HookEffect): Option<seq<int>>
  {
    if cb.beforeSend && hook.Writes? then hook.slot else slot
  }

  /** One loop iteration that was not stopped. */
  function Step(v: Variant, cb: Callbacks, poll: real, last: real, slot: Option<seq<int>>, t: Tick): Outcome
  {
    if t.now - last < poll then Outcome([], Polling(last), slot)
    else
      var pre := BeforeSendEvents(cb);
      if cb.beforeSend && t.hook.Raises? then Outcome(pre, Raised, slot)
      else
        var s := HookedSlot(cb, slot, t.hook);
        if s.None? then Outcome(pre, if v == B2500 then Raised else NoValue, s)
        else if |s.value| != 3 then Outcome(pre, Raised, s)
        else if !t.sendOk then Outcome(pre, BrokenPipe, s)
        else
          Outcome(pre + [Sent(Message(v, s.value), t.now)] + (if HasAfterSend(v, cb) then [AfterSend] else []),
                  Polling(t.now), s)
  }

  /** `events` followed by what `o` produced. */
  function Then(events: seq<Event>, o: Outcome): Outcome
  {
    Outcome(events + o.events, o.end, o.slot)
  }

  /** The polling loop over the ticks, from `last_send_time = last`. */
  function Poll(v: Variant, cb: Callbacks, poll: real, last: real, slot: Option<seq<int>>, ticks: seq<Tick>): Outcome
    decreases |ticks|
  {
    if ticks == [] then Outcome([], Polling(last), slot)
    else if ticks[0].stop then Outcome([], Stopped, slot)
    else
      var o := Step(v, cb, poll, last, slot, ticks[0]);
      if !o.end.Polling? then o
      else Then(o.events, Poll(v, cb, poll, o.end.last, o.slot, ticks[1..]))
  }

  /** A whole connection: its first payload (None: not UTF-8), then the loop. */
  function Session(v: Variant, cb: Callbacks, poll: real, first: Option<string>, slot: Option<seq<int>>, ticks: seq<Tick>): Outcome
  {
    if first.None? then Outcome(Closing(v, cb), Undecodable, slot)
    else if first.value != HELLO then Outcome(Closing(v, cb), Rejected, slot)
    else
      var p := Then(if HasConnect(v, cb) then [Connect] else [], Poll(v, cb, poll, 0.0, slot, ticks));
      if p.end.Polling? then p else Then(p.events, Outcome(Closing(v, cb), p.end, p.slot))
  }

  // ---------------------------------------------------------------------
  // the loop itself

  /** One pass of the `while not self._stop` body that was not stopped. */
  method RunStep(v: Variant, cb: Callbacks, poll: real, lastSendTime: real, slot: Option<seq<int>>, t: Tick)
    returns (o: Outcome)
    ensures o == Step(v, cb, poll, lastSendTime, slot, t)
  {
    var timeSinceLastSend := t.now - lastSendTime;
    if timeSinceLastSend < poll {
      return Outcome([], Polling(lastSendTime), slot);
    }
    var events: seq<Event> := [];
    var value := slot;
    if cb.beforeSend {
      events := [BeforeSend];
      if t.hook.Raises? {
        return Outcome(events, Raised, slot);
      }
      if t.hook.Writes? {
        value := t.hook.slot;
      }
    }
    if value.None? {
      return Outcome(events, if v == B2500 then Raised else NoValue, value);
    }
    if |value.value| != 3 {
      return Outcome(events, Raised, value);
    }
    var message := Message(v, value.value);
    if !t.sendOk {
      return Outcome(events, BrokenPipe, value);
    }
    events := events + [Sent(message, t.now)];
    if HasAfterSend(v, cb) {
      events := events + [AfterSend];
    }
    o := Outcome(events, Polling(t.now), value);
  }

  lemma ThenThen(a: seq<Event>, b: seq<Event>, o: Outcome)
    ensures Then(a, Then(b, o)) == Then(a + b, o)
  {
    assert a + (b + o.events) == (a + b) + o.events;
  }

  /** A stop request ends the loop, after the events already produced. */
  lemma PollStop(v: Variant, cb: Callbacks, poll: real, last: real, slot: Option<seq<int>>, t: Tick, rest: seq<Tick>, events: seq<Event>)
    requires t.stop
    ensures Then(events, Poll(v, cb, poll, last, slot, [t] + rest)) == Outcome(events, Stopped, slot)
  {
  }

  /** The loop unfolded by one iteration `o`, after the events already produced. */
  lemma PollStep(v: Variant, cb: Callbacks, poll: real, last: real, slot: Option<seq<int>>, t: Tick, rest: seq<Tick>,
                 events: seq<Event>, o: Outcome)
    requires !t.stop && o == Step(v, cb, poll, last, slot, t)
    ensures Then(events, Poll(v, cb, poll, last, slot, [t] + rest))
      == if o.end.Polling? then Then(events + o.events, Poll(v, cb, poll, o.end.last, o.slot, rest))
         else Outcome(events + o.events, o.end, o.slot)
  {
    assert ([t] + rest)[0] == t && ([t] + rest)[1..] == rest;
    if o.end.Polling? {
      ThenThen(events, o.events, Poll(v, cb, poll, o.end.last, o.slot, rest));
    }
  }

  /** The `while not self._stop` loop of `handle_tcp_client`, from `last_send_time = 0`. */
  method RunLoop(v: Variant, cb: Callbacks, poll: real, slot0: Option<seq<int>>, ticks: seq<Tick>)
    returns (o: Outcome)
    ensures o == Poll(v, cb, poll, 0.0, slot0, ticks)
  {
    var events: seq<Event> := [];
    var lastSendTime: real := 0.0;
    var slot := slot0;
    var i := 0;
    assert ticks[0..] == ticks;
    assert Then([], Poll(v, cb, poll, 0.0, slot0, ticks)) == Poll(v, cb, poll, 0.0, slot0, ticks);
    while i < |ticks|
      invariant 0 <= i <= |ticks|
      invariant Then(events, Poll(v, cb, poll, lastSendTime, slot, ticks[i..])) == Poll(v, cb, poll, 0.0, slot0, ticks)
      decreases |ticks| - i
    {
      ghost var rest := ticks[i + 1..];
      assert ticks[i..] == [ticks[i]] + rest;
      if ticks[i].stop {
        PollStop(v, cb, poll, lastSendTime, slot, ticks[i], rest, events);
        return Outcome(events, Stopped, slot);
      }
      var step := RunStep(v, cb, poll, lastSendTime, slot, ticks[i]);
      PollStep(v, cb, poll, lastSendTime, slot, ticks[i], rest, events, step);
      if !step.end.Polling? {
        return Outcome(events + step.events, step.end, step.slot);
      }
      events := events + step.events;
      slot := step.slot;
      lastSendTime := step.end.last;
      i := i + 1;
    }
    o := Outcome(events, Polling(lastSendTime), slot);
  }

  /** `handle_tcp_client`, given the first payload and the loop's environment. */
  method RunSession(v: Variant, cb: Callbacks, poll: real, first: Option<string>, slot0: Option<seq<int>>, ticks: seq<Tick>)
    returns (o: Outcome)
    ensures o == Session(v, cb, poll, first, slot0, ticks)
  {
    var closing := [Close];
    if HasDisconnect(v, cb) {
      closing := closing + [Disconnect];
    }
    if first.None? {
      return Outcome(closing, Undecodable, slot0);
    }
    if first.value != HELLO {
      return Outcome(closing, Rejected, slot0);
    }
    var opening: seq<Event> := [];
    if HasConnect(v, cb) {
      opening := [Connect];
    }
    var loop := RunLoop(v, cb, poll, slot0, ticks);
    if loop.end.Polling? {
      o := Outcome(opening + loop.events, loop.end, loop.slot);
    } else {
      o := Outcome(opening + loop.events + closing, loop.end, loop.slot);
    }
  }

  // ---------------------------------------------------------------------
  // properties

  /** The send times in a trace, in order. */
  function SentTimes(events: seq<Event>): seq<real>
    decreases |events|
  {
    if events == [] then []
    else (if events[0].Sent? then [events[0].at] else []) + SentTimes(events[1..])
  }

  lemma {:induction false} SentTimesAppend(a: seq<Event>, b: seq<Event>)
    ensures SentTimes(a + b) == SentTimes(a) + SentTimes(b)
    decreases |a|
  {
    if a == [] {
      assert a + b == b;
    } else {
      SentTimesAppend(a[1..], b);
      var head: seq<real> := if a[0].Sent? then [a[0].at] else [];
      assert (a + b)[0] == a[0] && (a + b)[1..] == a[1..] + b;
      assert SentTimes(a + b) == head + SentTimes(a[1..] + b);
      assert SentTimes(a) == head + SentTimes(a[1..]);
    }
  }

  /** Each send is at least `poll` after the previous one, the first at least `poll` after `last`. */
  predicate SpacedFrom(last: real, times: seq<real>, poll: real)
    decreases |times|
  {
    times == [] || (times[0] - last >= poll && SpacedFrom(times[0], times[1..], poll))
  }

  /** A step sends at most once, at `now`, which then becomes `last_send_time`. */
  lemma StepSends(v: Variant, cb: Callbacks, poll: real, last: real, slot: Option<seq<int>>, t: Tick)
    ensures var o := Step(v, cb, poll, last, slot, t);
      && (SentTimes(o.events) == [] || (SentTimes(o.events) == [t.now] && t.now - last >= poll && o.end == Polling(t.now)))
      && (o.end.Polling? && SentTimes(o.events) == [] ==> o.end.last == last)
  {
    var o := Step(v, cb, poll, last, slot, t);
    if t.now - last >= poll && !(cb.beforeSend && t.hook.Raises?) {
      var s := HookedSlot(cb, slot, t.hook);
      if s.Some? && |s.value| == 3 && t.sendOk {
        var pre := BeforeSendEvents(cb);
        var post: seq<Event> := if HasAfterSend(v, cb) then [AfterSend] else [];
        SentTimesAppend(pre, [Sent(Message(v, s.value), t.now)]);
        SentTimesAppend(pre + [Sent(Message(v, s.value), t.now)], post);
      }
    }
  }

  /**
   * Sends are spaced by at least the poll interval, the first one at
   * least the poll interval after `last_send_time` starts.
   */
  lemma {:induction false} PollSpacing(v: Variant, cb: Callbacks, poll: real, last: real, slot: Option<seq<int>>, ticks: seq<Tick>)
    ensures SpacedFrom(last, SentTimes(Poll(v, cb, poll, last, slot, ticks).events), poll)
    decreases |ticks|
  {
    if ticks != [] && !ticks[0].stop {
      var o := Step(v, cb, poll, last, slot, ticks[0]);
      StepSends(v, cb, poll, last, slot, ticks[0]);
      if o.end.Polling? {
        var r := Poll(v, cb, poll, o.end.last, o.slot, ticks[1..]);
        PollSpacing(v, cb, poll, o.end.last, o.slot, ticks[1..]);
        SentTimesAppend(o.events, r.events);
        if SentTimes(o.events) != [] {
          var x := SentTimes(r.events);
          assert SentTimes(o.events + r.events) == [ticks[0].now] + x;
          assert ([ticks[0].now] + x)[1..] == x;
        } else {
          assert SentTimes(o.events + r.events) == SentTimes(r.events);
        }
      }
    }
  }

  /** In a session the first send happens no earlier than `poll_interval` seconds after the epoch. */
  lemma SessionSpacing(v: Variant, cb: Callbacks, poll: real, first: Option<string>, slot: Option<seq<int>>, ticks: seq<Tick>)
    ensures SpacedFrom(0.0, SentTimes(Session(v, cb, poll, first, slot, ticks).events), poll)
  {
    var sess := Session(v, cb, poll, first, slot, ticks);
    var closing := Closing(v, cb);
    assert SentTimes(closing) == [] by {
      assert SentTimes([Close]) == [];
      SentTimesAppend([Close], if HasDisconnect(v, cb) then [Disconnect] else []);
    }
    if first == Some(HELLO) {
      var opening: seq<Event> := if HasConnect(v, cb) then [Connect] else [];
      assert SentTimes(opening) == [];
      var p := Poll(v, cb, poll, 0.0, slot, ticks);
      PollSpacing(v, cb, poll, 0.0, slot, ticks);
      SentTimesAppend(opening, p.events);
      SentTimesAppend(opening + p.events, closing);
      assert SentTimes(opening + p.events) == SentTimes(p.events);
      assert SentTimes(opening + p.events + closing) == SentTimes(p.events);
    }
  }

  /** The loop never emits the connection events. */
  predicate LoopEvent(e: Event)
  {
    e.BeforeSend? || e.Sent? || e.AfterSend?
  }

  lemma {:induction false} PollEventsAreLoopEvents(v: Variant, cb: Callbacks, poll: real, last: real, slot: Option<seq<int>>, ticks: seq<Tick>)
    ensures forall k :: 0 <= k < |Poll(v, cb, poll, last, slot, ticks).events| ==> LoopEvent(Poll(v, cb, poll, last, slot, ticks).events[k])
    decreases |ticks|
  {
    if ticks != [] && !ticks[0].stop {
      var o := Step(v, cb, poll, last, slot, ticks[0]);
      if o.end.Polling? {
        PollEventsAreLoopEvents(v, cb, poll, o.end.last, o.slot, ticks[1..]);
      }
    }
  }

  /**
   * A connection whose first payload is not "hello" sends nothing, never
   * calls `on_connect`, and is closed, with `on_disconnect` called after.
   */
  lemma NonHelloSession(v: Variant, cb: Callbacks, poll: real, first: Option<string>, slot: Option<seq<int>>, ticks: seq<Tick>)
    requires first != Some(HELLO)
    ensures var o := Session(v, cb, poll, first, slot, ticks);
      && o.events == Closing(v, cb)
      && SentTimes(o.events) == []
      && Connect !in o.events
      && (HasDisconnect(v, cb) <==> o.events == [Close, Disconnect])
      && o.slot == slot
  {
    var o := Session(v, cb, poll, first, slot, ticks);
    if HasDisconnect(v, cb) {
      assert SentTimes([Close, Disconnect]) == SentTimes([Disconnect]) == [];
    } else {
      assert SentTimes([Close]) == [];
    }
  }

  /**
   * After "hello", `on_connect` is called exactly once, before anything
   * else; every close is the session's last act but one (`on_disconnect`).
   */
  lemma HelloSession(v: Variant, cb: Callbacks, poll: real, slot: Option<seq<int>>, ticks: seq<Tick>)
    ensures var o := Session(v, cb, poll, Some(HELLO), slot, ticks);
      var n := |o.events|;
      && (HasConnect(v, cb) ==> n > 0 && o.events[0] == Connect)
      && (forall k :: 0 < k < n && o.events[k] == Connect ==> false)
      && (!HasConnect(v, cb) ==> Connect !in o.events)
      && (o.end.Polling? <==> Close !in o.events)
      && (!o.end.Polling? ==> o.events[n - |Closing(v, cb)|..] == Closing(v, cb))
  {
    var o := Session(v, cb, poll, Some(HELLO), slot, ticks);
    var p := Poll(v, cb, poll, 0.0, slot, ticks);
    PollEventsAreLoopEvents(v, cb, poll, 0.0, slot, ticks);
    var opening: seq<Event> := if HasConnect(v, cb) then [Connect] else [];
    var closing := if p.end.Polling? then [] else Closing(v, cb);
    assert o.end == p.end;
    assert o.events == opening + p.events + closing;
    Framed(HasConnect(v, cb), p.events, closing);
  }

  /** An opening `on_connect` (or none), loop events, then a closing tail. */
  lemma Framed(connect: bool, body: seq<Event>, closing: seq<Event>)
    requires forall k :: 0 <= k < |body| ==> LoopEvent(body[k])
    requires closing == [] || closing == [Close] || closing == [Close, Disconnect]
    ensures var e := (if connect then [Connect] else []) + body + closing;
      && (connect ==> |e| > 0 && e[0] == Connect)
      && (forall k :: 0 < k < |e| && e[k] == Connect ==> false)
      && (!connect ==> Connect !in e)
      && (Close in e <==> closing != [])
      && e[|e| - |closing|..] == closing
  {
    var opening: seq<Event> := if connect then [Connect] else [];
    var e := opening + body + closing;
    forall k | 0 <= k < |e|
      ensures (k > 0 || !connect ==> e[k] != Connect)
      ensures (e[k] == Close ==> closing != [])
    {
      if |opening| <= k < |opening| + |body| { assert e[k] == body[k - |opening|]; }
      if |opening| + |body| <= k { assert e[k] == closing[k - |opening| - |body|]; }
    }
    if closing != [] {
      assert e[|opening| + |body|] == Close;
    }
    assert e[|e| - |closing|..] == closing;
  }

  /**
   * Every send in `e` directly follows a `before_send` call when that
   * callback is installed, and is directly followed by `after_send` when
   * the variant has it and it is installed.
   */
  predicate SendsFramed(v: Variant, cb: Callbacks, e: seq<Event>)
  {
    forall k {:trigger e[k]} :: 0 <= k < |e| && e[k].Sent? ==>
      && (cb.beforeSend ==> 0 < k && e[k - 1] == BeforeSend)
      && (HasAfterSend(v, cb) ==> k + 1 < |e| && e[k + 1] == AfterSend)
  }

  lemma FramedAppend(v: Variant, cb: Callbacks, a: seq<Event>, b: seq<Event>)
    requires SendsFramed(v, cb, a) && SendsFramed(v, cb, b)
    ensures SendsFramed(v, cb, a + b)
  {
    var e := a + b;
    forall k | 0 <= k < |e| && e[k].Sent?
      ensures cb.beforeSend ==> 0 < k && e[k - 1] == BeforeSend
      ensures HasAfterSend(v, cb) ==> k + 1 < |e| && e[k + 1] == AfterSend
    {
      if k < |a| {
        assert a[k] == e[k];
        assert a[k].Sent?;
        if cb.beforeSend {
          assert e[k - 1] == a[k - 1];
        }
        if HasAfterSend(v, cb) {
          assert e[k + 1] == a[k + 1];
        }
      } else {
        var j := k - |a|;
        assert b[j] == e[k];
        assert b[j].Sent?;
        if cb.beforeSend {
          assert 0 < j;
          assert e[k - 1] == b[j - 1];
        }
        if HasAfterSend(v, cb) {
          assert j + 1 < |b|;
          assert e[k + 1] == b[j + 1];
        }
      }
    }
  }

  lemma StepFramed(v: Variant, cb: Callbacks, poll: real, last: real, slot: Option<seq<int>>, t: Tick)
    ensures SendsFramed(v, cb, Step(v, cb, poll, last, slot, t).events)
  {
  }

  /** Every send of the loop is framed by its callbacks. */
  lemma {:induction false} PollFramed(v: Variant, cb: Callbacks, poll: real, last: real, slot: Option<seq<int>>, ticks: seq<Tick>)
    ensures SendsFramed(v, cb, Poll(v, cb, poll, last, slot, ticks).events)
    decreases |ticks|
  {
    if ticks != [] && !ticks[0].stop {
      var o := Step(v, cb, poll, last, slot, ticks[0]);
      StepFramed(v, cb, poll, last, slot, ticks[0]);
      if o.end.Polling? {
        PollFramed(v, cb, poll, o.end.last, o.slot, ticks[1..]);
        FramedAppend(v, cb, o.events, Poll(v, cb, poll, o.end.last, o.slot, ticks[1..]).events);
      }
    }
  }

  /**
   * In a whole session, `before_send` runs directly before each send and
   * `after_send` directly after it, where installed.
   */
  lemma SessionFramed(v: Variant, cb: Callbacks, poll: real, first: Option<string>, slot: Option<seq<int>>, ticks: seq<Tick>)
    ensures SendsFramed(v, cb, Session(v, cb, poll, first, slot, ticks).events)
  {
    var closing := Closing(v, cb);
    var opening: seq<Event> := if HasConnect(v, cb) then [Connect] else [];
    var p := Poll(v, cb, poll, 0.0, slot, ticks);
    PollFramed(v, cb, poll, 0.0, slot, ticks);
    FramedAppend(v, cb, opening, p.events);
    FramedAppend(v, cb, opening + p.events, closing);
  }

  /** B2500 has no "no value" exit: an empty slot raises when unpacked. */
  lemma {:induction false} B2500NeverNoValue(cb: Callbacks, poll: real, last: real, slot: Option<seq<int>>, ticks: seq<Tick>)
    ensures Poll(B2500, cb, poll, last, slot, ticks).end != NoValue
    decreases |ticks|
  {
    if ticks != [] && !ticks[0].stop {
      var o := Step(B2500, cb, poll, last, slot, ticks[0]);
      if o.end.Polling? {
        B2500NeverNoValue(cb, poll, o.end.last, o.slot, ticks[1..]);
      }
    }
  }

  /**
   * CT001 and CT002 with an empty slot that no callback fills never send:
   * the first due iteration ends the session with "no value".
   */
  lemma {:induction false} EmptySlotNeverSends(v: Variant, cb: Callbacks, poll: real, last: real, ticks: seq<Tick>)
    requires v != B2500
    requires forall k :: 0 <= k < |ticks| ==> !ticks[k].hook.Writes? && !ticks[k].hook.Raises?
    ensures var o := Poll(v, cb, poll, last, None, ticks);
      SentTimes(o.events) == [] && (o.end.Stopped? || o.end.NoValue? || o.end == Polling(last))
    decreases |ticks|
  {
    if ticks != [] && !ticks[0].stop {
      var o := Step(v, cb, poll, last, None, ticks[0]);
      if o.end.Polling? {
        assert o == Outcome([], Polling(last), None);
        EmptySlotNeverSends(v, cb, poll, last, ticks[1..]);
        assert Then([], Poll(v, cb, poll, last, None, ticks[1..])) == Poll(v, cb, poll, last, None, ticks[1..]);
      } else {
        assert SentTimes(o.events) == [] by {
          if cb.beforeSend { assert SentTimes([BeforeSend]) == []; }
        }
      }
    }
  }

  /** Once the stop flag is seen the loop does nothing more. */
  lemma StopEndsPolling(v: Variant, cb: Callbacks, poll: real, last: real, slot: Option<seq<int>>, ticks: seq<Tick>)
    requires ticks != [] && ticks[0].stop
    ensures Poll(v, cb, poll, last, slot, ticks) == Outcome([], Stopped, slot)
  {
  }

  /**
   * A due iteration with a full slot sends the slot's values, rounded
   * where the variant rounds, and moves `last_send_time` to now.
   */
  lemma DueStepSends(v: Variant, cb: Callbacks, poll: real, last: real, values: seq<int>, t: Tick)
    requires |values| == 3 && t.now - last >= poll && t.sendOk && t.hook == Keeps
    ensures var o := Step(v, cb, poll, last, Some(values), t);
      && o.end == Polling(t.now)
      && Sent(Message(v, values), t.now) in o.events
      && (v == Ct002 ==> ParseHm(o.events[|BeforeSendEvents(cb)|].message) == Some((values[0], values[1], values[2])))
      && (v != Ct002 ==>
            ParseHm(o.events[|BeforeSendEvents(cb)|].message)
              == Some((RoundToWatts(values[0]), RoundToWatts(values[1]), RoundToWatts(values[2]))))
  {
    var o := Step(v, cb, poll, last, Some(values), t);
    assert o.events[|BeforeSendEvents(cb)|] == Sent(Message(v, values), t.now);
    if v == Ct002 {
      ParseHmMessage(values[0], values[1], values[2]);
    } else {
      ParseHmMessage(RoundToWatts(values[0]), RoundToWatts(values[1]), RoundToWatts(values[2]));
    }
  }
}

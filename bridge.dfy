/** The libpulse main-loop interface implemented on top of libuv
    (src/uv-mainloop.cc). Each libpulse event record is a class; the libuv
    requests it issues and the libpulse callbacks it makes are appended,
    in order, to its `trace`. */
module Bridge {
  import opened Js

  /* ---------- flag vocabularies ---------- */

  /** pa_io_event_flags_t bits. */
  type Flags = bv32
  const IO_NULL: Flags := 0
  const IO_INPUT: Flags := 1
  const IO_OUTPUT: Flags := 2
  const IO_HANGUP: Flags := 4
  const IO_ERROR: Flags := 8

  /** uv_poll_event bits. */
  const UV_READABLE: bv32 := 1
  const UV_WRITABLE: bv32 := 2

  predicate Has(bits: bv32, bit: bv32) { bits & bit != 0 }

  /** A libuv error code: libuv reports failures as negative numbers. */
  type ErrorCode = c: int | c < 0 witness -1

  /** The status libuv hands to a poll, timer or idle callback. The named
      error codes are the ones the io callback treats as a hang-up. */
  datatype Status = Ok | Eof | Epipe | Espipe | Shutdown | TimedOut | OtherError(code: ErrorCode)

  predicate IsHangupStatus(st: Status) {
    st.Eof? || st.Epipe? || st.Espipe? || st.Shutdown? || st.TimedOut?
  }

  /** Translation of one poll wake-up into libpulse flags (io_cb). */
  function IoCallbackFlags(st: Status, revents: bv32, interest: Flags): (r: Flags)
    ensures st == Ok ==>
      && (Has(r, IO_INPUT) <==> Has(interest, IO_INPUT) && Has(revents, UV_READABLE))
      && (Has(r, IO_OUTPUT) <==> Has(interest, IO_OUTPUT) && Has(revents, UV_WRITABLE))
      && !Has(r, IO_HANGUP) && !Has(r, IO_ERROR)
    ensures st != Ok ==>
      && !Has(r, IO_INPUT) && !Has(r, IO_OUTPUT)
      && (Has(r, IO_HANGUP) <==> Has(interest, IO_HANGUP) && IsHangupStatus(st))
      && (Has(r, IO_ERROR) <==> Has(interest, IO_ERROR))
    ensures r & !(IO_INPUT | IO_OUTPUT | IO_HANGUP | IO_ERROR) == 0
  {
    if st == Ok then
      var withIn := if Has(interest, IO_INPUT) && Has(revents, UV_READABLE) then IO_NULL | IO_INPUT else IO_NULL;
      if Has(interest, IO_OUTPUT) && Has(revents, UV_WRITABLE) then withIn | IO_OUTPUT else withIn
    else
      var withHup := if Has(interest, IO_HANGUP) && IsHangupStatus(st) then IO_NULL | IO_HANGUP else IO_NULL;
      if Has(interest, IO_ERROR) then withHup | IO_ERROR else withHup
  }

  /** The flags io_cb passes to the user callback, or None when it makes no call:
      the handle has no callback, or the translated set is empty. */
  function IoDispatch(cb: Option<Callback>, st: Status, revents: bv32, interest: Flags): (r: Option<Flags>)
    ensures r.Some? <==> cb.Some? && IoCallbackFlags(st, revents, interest) != IO_NULL
    ensures r.Some? ==> r.value == IoCallbackFlags(st, revents, interest)
  {
    if cb.None? then None
    else
      var ev := IoCallbackFlags(st, revents, interest);
      if ev != IO_NULL then Some(ev) else None
  }

  /** The libuv poll mask requested for a libpulse interest set (io_events). */
  function IoEvents(ev: Flags): (r: bv32)
    ensures Has(r, UV_READABLE) <==> Has(ev, IO_INPUT)
    ensures Has(r, UV_WRITABLE) <==> Has(ev, IO_OUTPUT)
    ensures r & !(UV_READABLE | UV_WRITABLE) == 0
  {
    (if Has(ev, IO_INPUT) then UV_READABLE else 0) | (if Has(ev, IO_OUTPUT) then UV_WRITABLE else 0)
  }

  /** Hang-up and error interest never reach the poll mask. */
  lemma IoEventsIgnoresHangupAndError(ev: Flags)
    ensures IoEvents(ev) == IoEvents(ev & (IO_INPUT | IO_OUTPUT))
  {
    assert Has(ev, IO_INPUT) <==> Has(ev & (IO_INPUT | IO_OUTPUT), IO_INPUT);
    assert Has(ev, IO_OUTPUT) <==> Has(ev & (IO_INPUT | IO_OUTPUT), IO_OUTPUT);
  }

  /* ---------- time ---------- */

  const USEC_PER_SEC: int := 1000000
  const UINT64_LIMIT: int := 0x1_0000_0000_0000_0000

  /** struct timeval. */
  datatype Timeval = Timeval(sec: int, usec: int)

  predicate Normalized(t: Timeval) { 0 <= t.usec < USEC_PER_SEC }

  function Micros(t: Timeval): int { t.sec * USEC_PER_SEC + t.usec }

  /** timersub(a, b): the normalized difference a - b. */
  function TimerSub(a: Timeval, b: Timeval): (d: Timeval)
    requires Normalized(a) && Normalized(b)
    ensures Normalized(d)
    ensures Micros(d) == Micros(a) - Micros(b)
  {
    if a.usec - b.usec < 0 then Timeval(a.sec - b.sec - 1, a.usec - b.usec + USEC_PER_SEC)
    else Timeval(a.sec - b.sec, a.usec - b.usec)
  }

  /** timeval_to_millisec as written: `dt.tv_sec * 1000 + dt.tv_usec / 1000000`
      converted to uint64_t, with the wall clock `now` passed in. */
  function DelayAsWritten(tv: Timeval, now: Timeval): (ms: nat)
    requires Normalized(tv) && Normalized(now)
    ensures ms < UINT64_LIMIT
  {
    var dt := TimerSub(tv, now);
    (dt.sec * 1000 + dt.usec / USEC_PER_SEC) % UINT64_LIMIT
  }

  /** As written, the sub-second part of the delay is always lost. */
  lemma DelayAsWrittenWholeSeconds(tv: Timeval, now: Timeval)
    requires Normalized(tv) && Normalized(now)
    ensures DelayAsWritten(tv, now) == (TimerSub(tv, now).sec * 1000) % UINT64_LIMIT
  {
    var dt := TimerSub(tv, now);
    assert dt.usec / USEC_PER_SEC == 0;
  }

  /** A deadline half a second ahead is armed with a delay of 0 ms. */
  lemma DelayAsWrittenDropsHalfSecond()
    ensures DelayAsWritten(Timeval(10, 500000), Timeval(10, 0)) == 0
  {
    DelayAsWrittenWholeSeconds(Timeval(10, 500000), Timeval(10, 0));
  }

  /** Any deadline exactly one second in the past is armed with a delay of
      2^64 - 1000 ms. */
  lemma DelayAsWrittenOneSecondLate(tv: Timeval, now: Timeval)
    requires Normalized(tv) && Normalized(now) && tv.usec == now.usec && tv.sec == now.sec - 1
    ensures DelayAsWritten(tv, now) == UINT64_LIMIT - 1000
  {
    var dt := TimerSub(tv, now);
    assert dt == Timeval(-1, 0);
    var raw := dt.sec * 1000 + dt.usec / USEC_PER_SEC;
    assert raw == -1000;
    assert raw == -1 * UINT64_LIMIT + (UINT64_LIMIT - 1000);
  }

  /** A deadline one second in the past is armed with a delay of 2^64 - 1000 ms. */
  lemma DelayAsWrittenPastDeadlineWraps()
    ensures DelayAsWritten(Timeval(9, 0), Timeval(10, 0)) == UINT64_LIMIT - 1000
  {
    DelayAsWrittenOneSecondLate(Timeval(9, 0), Timeval(10, 0));
  }

  lemma MillisOfNormalized(dt: Timeval)
    requires Normalized(dt) && dt.sec >= 0
    ensures dt.sec * 1000 + dt.usec / 1000 == Micros(dt) / 1000
  {
    var q := dt.usec / 1000;
    assert dt.usec == q * 1000 + dt.usec % 1000;
    assert Micros(dt) == (dt.sec * 1000 + q) * 1000 + dt.usec % 1000;
  }

  /** The corrected delay: the time left until `tv`, in whole milliseconds,
      and 0 for a deadline that has passed. */
  function Delay(tv: Timeval, now: Timeval): (ms: nat)
    requires Normalized(tv) && Normalized(now)
    ensures Micros(tv) <= Micros(now) ==> ms == 0
    ensures Micros(tv) > Micros(now) ==> ms == (Micros(tv) - Micros(now)) / 1000
  {
    var dt := TimerSub(tv, now);
    if dt.sec < 0 then 0
    else
      MillisOfNormalized(dt);
      dt.sec * 1000 + dt.usec / 1000
  }

  /** A callback or a notification leaves the watcher's state alone. */
  lemma QuietAppend(t: seq<Action>, a: Action)
    requires !a.Starts() && !a.Stops()
    ensures Active(t + [a]) == Active(t) && LastPollMask(t + [a]) == LastPollMask(t)
    ensures NoRedundantToggle(t) ==> NoRedundantToggle(t + [a])
  {
    AppendAction(t, a);
  }

  /** The two conversions agree on a deadline a whole number of seconds
      ahead: the timer's delay is only wrong below one second and in the past. */
  lemma DelayAsWrittenAgreesOnWholeSeconds(tv: Timeval, now: Timeval)
    requires Normalized(tv) && Normalized(now) && tv.usec == now.usec && tv.sec >= now.sec
    requires (tv.sec - now.sec) * 1000 < UINT64_LIMIT
    ensures DelayAsWritten(tv, now) == Delay(tv, now)
  {
    var dt := TimerSub(tv, now);
    assert dt == Timeval(tv.sec - now.sec, 0);
    DelayAsWrittenWholeSeconds(tv, now);
    assert Micros(tv) - Micros(now) == dt.sec * 1000 * 1000;
  }

  /* ---------- what a handle asks of libuv and of libpulse ---------- */

  type Callback = nat
  type UserData = nat

  datatype Action =
    | PollInit(fd: int)
    | PollStart(mask: bv32)
    | PollStop
    | TimerInit
    | TimerStart(timeout: nat, repeat: nat)
    | TimerStop
    | IdleInit
    | IdleStart
    | IdleStop
      /** the libpulse io callback, with the translated flags */
    | IoCall(cb: Callback, fd: int, events: Flags, ud: UserData)
      /** the libpulse time callback, with the deadline it is given back */
    | TimeCall(cb: Callback, tv: Timeval, ud: UserData)
    | DeferCall(cb: Callback, ud: UserData)
      /** the destroy notification registered with *_set_destroy */
    | Destroyed(dc: Callback, ud: UserData)
  {
    predicate Starts() { PollStart? || TimerStart? || IdleStart? }
    predicate Stops() { PollStop? || TimerStop? || IdleStop? }
  }

  /** Whether the watcher is running after the requests in `t`. */
  function Active(t: seq<Action>): bool
  {
    if t == [] then false
    else if t[|t| - 1].Starts() then true
    else if t[|t| - 1].Stops() then false
    else Active(t[..|t| - 1])
  }

  /** The poll mask of the latest start request in `t`. */
  function LastPollMask(t: seq<Action>): Option<bv32>
  {
    if t == [] then None
    else if t[|t| - 1].PollStart? then Some(t[|t| - 1].mask)
    else LastPollMask(t[..|t| - 1])
  }

  /** No start is issued on a running watcher and no stop on a stopped one. */
  ghost predicate NoRedundantToggle(t: seq<Action>) {
    forall i | 0 <= i < |t| ::
      (t[i].Starts() ==> !Active(t[..i])) && (t[i].Stops() ==> Active(t[..i]))
  }

  lemma {:induction false} AppendAction(t: seq<Action>, a: Action)
    ensures Active(t + [a]) == (a.Starts() || (!a.Stops() && Active(t)))
    ensures LastPollMask(t + [a]) == if a.PollStart? then Some(a.mask) else LastPollMask(t)
    ensures NoRedundantToggle(t) && (a.Starts() ==> !Active(t)) && (a.Stops() ==> Active(t))
            ==> NoRedundantToggle(t + [a])
  {
    var t' := t + [a];
    assert t'[..|t'| - 1] == t;
    if NoRedundantToggle(t) && (a.Starts() ==> !Active(t)) && (a.Stops() ==> Active(t)) {
      forall i | 0 <= i < |t'|
        ensures (t'[i].Starts() ==> !Active(t'[..i])) && (t'[i].Stops() ==> Active(t'[..i]))
      {
        if i < |t| {
          assert t'[..i] == t[..i];
        }
      }
    }
  }

  /* ---------- io events ---------- */

  /** pa_io_event. */
  class IoEvent {
    const fd: int
    var ev: Flags
    const cb: Option<Callback>
    const ud: UserData
    var dc: Option<Callback>
    var live: bool
    var trace: seq<Action>

    /** The poll watcher runs with exactly the mask of the stored interest set. */
    ghost predicate Valid()
      reads this
    {
      live && Active(trace) && LastPollMask(trace) == Some(IoEvents(ev)) && NoRedundantToggle(trace)
    }

    /** io_new */
    constructor (fd: int, ev: Flags, cb: Option<Callback>, ud: UserData)
      requires fd >= 0 && cb.Some?
      ensures Valid()
      ensures this.fd == fd && this.ev == ev && this.cb == cb && this.ud == ud && dc == None
      ensures trace == [PollInit(fd), PollStart(IoEvents(ev))]
    {
      this.fd := fd;
      this.ev := ev;
      this.cb := cb;
      this.ud := ud;
      dc := None;
      live := true;
      AppendAction([], PollInit(fd));
      assert [] + [PollInit(fd)] == [PollInit(fd)];
      AppendAction([PollInit(fd)], PollStart(IoEvents(ev)));
      assert [PollInit(fd)] + [PollStart(IoEvents(ev))] == [PollInit(fd), PollStart(IoEvents(ev))];
      trace := [PollInit(fd), PollStart(IoEvents(ev))];
    }

    /** io_cb: one wake-up of the poll watcher. */
    method Wake(st: Status, revents: bv32)
      requires Valid()
      modifies this`trace
      ensures Valid()
      ensures trace == old(trace) + match IoDispatch(cb, st, revents, ev)
                                    case Some(flags) => [IoCall(cb.value, fd, flags, ud)]
                                    case None => []
    {
      ghost var d := IoDispatch(cb, st, revents, ev);
      if cb.Some? {
        var paEv := IoCallbackFlags(st, revents, ev);
        if paEv != IO_NULL {
          assert d == Some(paEv);
          QuietAppend(trace, IoCall(cb.value, fd, paEv, ud));
          trace := trace + [IoCall(cb.value, fd, paEv, ud)];
        } else {
          assert d == None;
        }
      } else {
        assert d == None;
      }
    }

    /** io_enable */
    method Enable(ev: Flags)
      requires Valid()
      modifies this`ev, this`trace
      ensures Valid()
      ensures this.ev == ev
      ensures trace == if old(this.ev) == ev then old(trace)
                       else old(trace) + [PollStop, PollStart(IoEvents(ev))]
    {
      if this.ev != ev {
        AppendAction(trace, PollStop);
        AppendAction(trace + [PollStop], PollStart(IoEvents(ev)));
        trace := trace + [PollStop, PollStart(IoEvents(ev))];
        assert trace == old(trace) + [PollStop] + [PollStart(IoEvents(ev))];
        this.ev := ev;
      }
    }

    /** io_free: the poll stops before the destroy notification. The record itself
        is not released by the source. */
    method Free()
      requires Valid()
      modifies this`live, this`trace
      ensures !live && !Active(trace) && NoRedundantToggle(trace)
      ensures trace == old(trace) + [PollStop] + match dc
                                                 case Some(d) => [Destroyed(d, ud)]
                                                 case None => []
    {
      var stopped := trace + [PollStop];
      AppendAction(trace, PollStop);
      trace := stopped;
      if dc.Some? {
        QuietAppend(stopped, Destroyed(dc.value, ud));
        trace := stopped + [Destroyed(dc.value, ud)];
      }
      live := false;
    }

    /** io_set_destroy */
    method SetDestroy(dc: Option<Callback>)
      requires Valid()
      modifies this`dc
      ensures Valid() && this.dc == dc
    {
      this.dc := dc;
    }
  }

  /* ---------- time events ---------- */

  /** pa_time_event. */
  class TimeEvent {
    var tv: Timeval
    const cb: Option<Callback>
    const ud: UserData
    var dc: Option<Callback>
    var live: bool
    var trace: seq<Action>

    /** Every arming is one-shot. */
    ghost predicate Valid()
      reads this
    {
      live && Normalized(tv) && forall i | 0 <= i < |trace| && trace[i].TimerStart? :: trace[i].repeat == 0
    }

    /** time_new, with the wall clock `now`: armed with the delay
        timeval_to_millisec computes, as written. */
    constructor (tv: Timeval, now: Timeval, cb: Option<Callback>, ud: UserData)
      requires Normalized(tv) && Normalized(now) && cb.Some?
      ensures Valid()
      ensures this.tv == tv && this.cb == cb && this.ud == ud && dc == None
      ensures trace == [TimerInit, TimerStart(DelayAsWritten(tv, now), 0)]
    {
      this.tv := tv;
      this.cb := cb;
      this.ud := ud;
      dc := None;
      live := true;
      trace := [TimerInit, TimerStart(DelayAsWritten(tv, now), 0)];
    }

    /** time_restart: rearms with the as-written delay to the new deadline; the stored
        deadline is left as it was. */
    method Restart(tv: Timeval, now: Timeval)
      requires Valid() && Normalized(tv) && Normalized(now)
      modifies this`trace
      ensures Valid() && this.tv == old(this.tv)
      ensures trace == old(trace) + [TimerStart(DelayAsWritten(tv, now), 0)]
    {
      trace := trace + [TimerStart(DelayAsWritten(tv, now), 0)];
    }

    /** timer_cb: the callback gets the deadline stored by time_new. */
    method Fire(st: Status)
      requires Valid()
      modifies this`trace
      ensures Valid()
      ensures trace == old(trace) + if cb.Some? && st == Ok then [TimeCall(cb.value, tv, ud)] else []
    {
      if cb.Some? {
        if st == Ok {
          trace := trace + [TimeCall(cb.value, tv, ud)];
        }
      }
    }

    /** time_free */
    method Free()
      requires Valid()
      modifies this`live, this`trace
      ensures !live
      ensures trace == old(trace) + [TimerStop] + match dc
                                                  case Some(d) => [Destroyed(d, ud)]
                                                  case None => []
    {
      trace := trace + [TimerStop];
      if dc.Some? {
        trace := trace + [Destroyed(dc.value, ud)];
      }
      live := false;
    }

    /** time_set_destroy */
    method SetDestroy(dc: Option<Callback>)
      requires Valid()
      modifies this`dc
      ensures Valid() && this.dc == dc
    {
      this.dc := dc;
    }
  }

  /* ---------- defer events ---------- */

  /** pa_defer_event. */
  class DeferEvent {
    var en: bool
    const cb: Option<Callback>
    const ud: UserData
    var dc: Option<Callback>
    var live: bool
    var trace: seq<Action>

    /** The idle watcher runs exactly while the event is enabled. */
    ghost predicate Valid()
      reads this
    {
      live && Active(trace) == en && NoRedundantToggle(trace)
    }

    /** defer_new: enabled and running from the start. */
    constructor (cb: Option<Callback>, ud: UserData)
      requires cb.Some?
      ensures Valid()
      ensures en && this.cb == cb && this.ud == ud && dc == None
      ensures trace == [IdleInit, IdleStart]
    {
      en := true;
      this.cb := cb;
      this.ud := ud;
      dc := None;
      live := true;
      AppendAction([], IdleInit);
      assert [] + [IdleInit] == [IdleInit];
      AppendAction([IdleInit], IdleStart);
      assert [IdleInit] + [IdleStart] == [IdleInit, IdleStart];
      trace := [IdleInit, IdleStart];
    }

    /** defer_cb */
    method Fire(st: Status)
      requires Valid()
      modifies this`trace
      ensures Valid()
      ensures trace == old(trace) + if cb.Some? && st == Ok then [DeferCall(cb.value, ud)] else []
    {
      if cb.Some? {
        if st == Ok {
          AppendAction(trace, DeferCall(cb.value, ud));
          trace := trace + [DeferCall(cb.value, ud)];
        }
      }
    }

    /** defer_enable, with the C `int` argument: the idle is stopped only on a
        true-to-false change and started only on a false-to-true change. */
    method Enable(en: int)
      requires Valid()
      modifies this`en, this`trace
      ensures Valid()
      ensures this.en == (en != 0)
      ensures trace == old(trace) + if old(this.en) && en == 0 then [IdleStop]
                                    else if !old(this.en) && en != 0 then [IdleStart]
                                    else []
    {
      if this.en && en == 0 {
        AppendAction(trace, IdleStop);
        trace := trace + [IdleStop];
      } else if !this.en && en != 0 {
        AppendAction(trace, IdleStart);
        trace := trace + [IdleStart];
      }
      this.en := en != 0;
    }

    /** defer_free: stops the idle only if it is enabled. */
    method Free()
      requires Valid()
      modifies this`live, this`trace
      ensures !live && !Active(trace) && NoRedundantToggle(trace)
      ensures trace == old(trace) + (if old(en) then [IdleStop] else [])
                                  + match dc
                                    case Some(d) => [Destroyed(d, ud)]
                                    case None => []
    {
      if en {
        AppendAction(trace, IdleStop);
        trace := trace + [IdleStop];
      }
      if dc.Some? {
        AppendAction(trace, Destroyed(dc.value, ud));
        trace := trace + [Destroyed(dc.value, ud)];
      }
      live := false;
    }

    /** defer_set_destroy */
    method SetDestroy(dc: Option<Callback>)
      requires Valid()
      modifies this`dc
      ensures Valid() && this.dc == dc
    {
      this.dc := dc;
    }
  }
}

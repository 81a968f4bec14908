/** A playback / record / upload stream bound to one context
    (src/stream.cc). The stream holds one reference on its context for its
    whole life. Requests made of libpulse are appended to `requests`;
    calls of JavaScript functions to `calls`. */
module Stm {
  import opened Js
  import Ctx

  /** pa_sample_format_t codes used here. */
  const PA_SAMPLE_S16LE: nat := 3
  const DEFAULT_RATE: nat := 44100
  const DEFAULT_CHANNELS: nat := 2
  const DEFAULT_STREAM_NAME: string := "node-stream"

  /** pa_stream_direction_t */
  const PA_STREAM_NODIRECTION: nat := 0
  const PA_STREAM_PLAYBACK: nat := 1
  const PA_STREAM_RECORD: nat := 2
  const PA_STREAM_UPLOAD: nat := 3

  /** pa_stream_state_t */
  datatype StreamState = Unconnected | Creating | Ready | Failed | Terminated

  function StateCode(s: StreamState): nat {
    match s
    case Unconnected => 0
    case Creating => 1
    case Ready => 2
    case Failed => 3
    case Terminated => 4
  }

  /** pa_sample_spec; `channels` is a uint8_t. */
  datatype SampleSpec = SampleSpec(format: nat, rate: nat, channels: nat)

  /** The sample spec `Stream::New` builds from `args[1..4]`: S16LE, 44100 Hz,
      2 channels, each replaced on its own by a Uint32 argument; the channel
      count is truncated to 8 bits. */
  function SampleSpecOf(args: seq<Value>): (ss: SampleSpec)
    ensures ss.format == if IsUint32(Arg(args, 1)) then Arg(args, 1).n else PA_SAMPLE_S16LE
    ensures ss.rate == if IsUint32(Arg(args, 2)) then Arg(args, 2).n else DEFAULT_RATE
    ensures ss.channels < 256
    ensures IsUint32(Arg(args, 3)) ==> ss.channels == Arg(args, 3).n % 256
    ensures !IsUint32(Arg(args, 3)) ==> ss.channels == DEFAULT_CHANNELS
  {
    var ss0 := SampleSpec(PA_SAMPLE_S16LE, DEFAULT_RATE, DEFAULT_CHANNELS);
    var ss1 := if IsUint32(Arg(args, 1)) then ss0.(format := Arg(args, 1).n) else ss0;
    var ss2 := if IsUint32(Arg(args, 2)) then ss1.(rate := Arg(args, 2).n) else ss1;
    if IsUint32(Arg(args, 3)) then ss2.(channels := Arg(args, 3).n % 256) else ss2
  }

  /** A field of the sample spec only depends on its own argument. */
  lemma SampleSpecFieldsIndependent(args: seq<Value>, args': seq<Value>)
    ensures Arg(args, 1) == Arg(args', 1) ==> SampleSpecOf(args).format == SampleSpecOf(args').format
    ensures Arg(args, 2) == Arg(args', 2) ==> SampleSpecOf(args).rate == SampleSpecOf(args').rate
    ensures Arg(args, 3) == Arg(args', 3) ==> SampleSpecOf(args).channels == SampleSpecOf(args').channels
  {
  }

  /** A channel count of 258 is passed on as 2. */
  lemma ChannelCountWraps()
    ensures SampleSpecOf([Null, Undefined, Undefined, Num(258)]).channels == 2
  {
  }

  /** The libpulse calls a Stream makes. */
  datatype Request =
    | StreamNew(name: string, spec: SampleSpec)
    | SetStateCallback
    | ConnectPlayback(device: Option<string>)
    | ConnectRecord(device: Option<string>)
    | ConnectUpload
    | StreamDisconnect
    | StreamUnref
    | StreamPeek
    | StreamDrop
    | SetReadCallback(installed: bool)
    | StreamCork(corked: bool)
    | StreamFlush
    | StreamWrite(bytes: seq<bv8>)
    | StreamDrain
    | StreamGetLatency

  /** Whether the latest read-callback registration in `t` installed one. */
  function ReadRegistered(t: seq<Request>): bool {
    if t == [] then false
    else if t[|t| - 1].SetReadCallback? then t[|t| - 1].installed
    else ReadRegistered(t[..|t| - 1])
  }

  /** Whether the latest cork request in `t` corked the stream. */
  function Corked(t: seq<Request>): bool {
    if t == [] then false
    else if t[|t| - 1].StreamCork? then t[|t| - 1].corked
    else Corked(t[..|t| - 1])
  }

  lemma AppendRequest(t: seq<Request>, r: Request)
    ensures ReadRegistered(t + [r]) == if r.SetReadCallback? then r.installed else ReadRegistered(t)
    ensures Corked(t + [r]) == if r.StreamCork? then r.corked else Corked(t)
  {
    assert (t + [r])[..|t + [r]| - 1] == t;
  }

  /** Requests that do not touch the read callback leave its registration as it was. */
  lemma {:induction false} AppendWithoutRegistration(t: seq<Request>, u: seq<Request>)
    requires forall i :: 0 <= i < |u| ==> !u[i].SetReadCallback?
    ensures ReadRegistered(t + u) == ReadRegistered(t)
    decreases |u|
  {
    if u != [] {
      var u' := u[..|u| - 1];
      AppendWithoutRegistration(t, u');
      assert !u[|u| - 1].SetReadCallback?;
      assert t + u == (t + u') + [u[|u| - 1]];
      AppendRequest(t + u', u[|u| - 1]);
    } else {
      assert t + u == t;
    }
  }

  /** What `write` asks of libpulse: a flush when a buffer is still held,
      the write of a new buffer, then always a drain. */
  function WriteRequests(held: bool, buffer: Value): (rs: seq<Request>)
    ensures |rs| == (if held then 1 else 0) + (if buffer.Buf? then 1 else 0) + 1
    ensures rs[|rs| - 1] == StreamDrain
    ensures held ==> rs[0] == StreamFlush
    ensures buffer.Buf? ==> rs[|rs| - 2] == StreamWrite(buffer.bytes)
    ensures StreamFlush in rs <==> held
    ensures forall i :: 0 <= i < |rs| ==> !rs[i].SetReadCallback? && !rs[i].StreamCork?
    ensures !buffer.Buf? ==> forall i :: 0 <= i < |rs| ==> !rs[i].StreamWrite?
    ensures buffer.Buf? ==> StreamWrite(buffer.bytes) in rs
  {
    (if held then [StreamFlush] else [])
    + (if buffer.Buf? then [StreamWrite(buffer.bytes)] else [])
    + [StreamDrain]
  }

  /** The connect call `Stream::connect` makes for a direction code, if any. */
  function DirectionRequest(device: Option<string>, direction: nat): (r: Option<Request>)
    ensures r.Some? <==> direction in {PA_STREAM_PLAYBACK, PA_STREAM_RECORD, PA_STREAM_UPLOAD}
    ensures direction == PA_STREAM_PLAYBACK ==> r == Some(ConnectPlayback(device))
    ensures direction == PA_STREAM_RECORD ==> r == Some(ConnectRecord(device))
    ensures direction == PA_STREAM_UPLOAD ==> r == Some(ConnectUpload)
  {
    if direction == PA_STREAM_PLAYBACK then Some(ConnectPlayback(device))
    else if direction == PA_STREAM_RECORD then Some(ConnectRecord(device))
    else if direction == PA_STREAM_UPLOAD then Some(ConnectUpload)
    else None
  }

  /** The argument drain hands the drain listener: an error exactly when the
      operation status is negative, null otherwise. */
  function DrainArg(status: int): (v: Value)
    ensures v.Exception? <==> status < 0
    ensures status < 0 ==> v.code == status
    ensures status >= 0 ==> v == Null
  {
    if status < 0 then Exception(status) else Null
  }

  class Stream {
    const ctx: Ctx.Context
    /** whether pa_stream_new returned a stream */
    const native: bool
    const spec: SampleSpec
    var paState: Option<StreamState>
    var stateCallback: Option<Value>
    var readCallback: Option<Value>
    var drainCallback: Option<Value>
    var writeBuffer: Option<seq<bv8>>
    var live: bool
    var requests: seq<Request>
    var calls: seq<Invocation>

    /** A live stream holds a reference on its context, and libpulse has a
        read callback registered exactly while a read listener is installed. */
    ghost predicate Valid()
      reads this, ctx
    {
      && live && ctx.Valid() && this in ctx.holders
      && (readCallback.Some? <==> ReadRegistered(requests))
      && (readCallback.Some? ==> IsFunction(readCallback.value))
      && (drainCallback.Some? ==> IsFunction(drainCallback.value))
      && (stateCallback.Some? ==> IsFunction(stateCallback.value))
    }

    /** The constructor: take a context reference, then create the native
        stream and register the state callback. */
    constructor (ctx: Ctx.Context, name: Option<string>, spec: SampleSpec, created: bool)
      requires ctx.Valid()
      modifies ctx`refs, ctx`holders
      ensures Valid() && this.ctx == ctx && native == created && this.spec == spec
      ensures ctx.refs == old(ctx.refs) + 1 && ctx.holders == old(ctx.holders) + {this}
      ensures ctx.live == old(ctx.live) && ctx.requests == old(ctx.requests) && ctx.calls == old(ctx.calls)
      ensures ctx.stateCallback == old(ctx.stateCallback) && ctx.paState == old(ctx.paState)
      ensures paState == None && stateCallback == None && readCallback == None
      ensures drainCallback == None && writeBuffer == None && calls == []
      ensures requests == [StreamNew(if name.Some? then name.value else DEFAULT_STREAM_NAME, spec), SetStateCallback]
    {
      this.ctx := ctx;
      native := created;
      this.spec := spec;
      paState := None;
      stateCallback := None;
      readCallback := None;
      drainCallback := None;
      writeBuffer := None;
      live := true;
      requests := [StreamNew(if name.Some? then name.value else DEFAULT_STREAM_NAME, spec), SetStateCallback];
      calls := [];
      new;
      AppendRequest([], requests[0]);
      AppendRequest([requests[0]], SetStateCallback);
      ctx.Ref(this);
    }

    /** `Stream::New(ctx, format, rate, channels, name, listener)`. A null
        native stream is destroyed at once, which gives the context
        reference back, and the call throws. */
    static method New(ctx: Ctx.Context, args: seq<Value>, created: bool) returns (stm: Stream?, thrown: Option<string>)
      requires ctx.Valid()
      modifies ctx`refs, ctx`holders
      ensures ctx.Valid()
      ensures ctx.live == old(ctx.live) && ctx.requests == old(ctx.requests) && ctx.calls == old(ctx.calls)
      ensures ctx.stateCallback == old(ctx.stateCallback) && ctx.paState == old(ctx.paState)
      ensures thrown.Some? <==> !created
      ensures thrown.Some? ==> stm == null && thrown.value == "Unable to create stream."
      ensures thrown.Some? ==> ctx.refs == old(ctx.refs) && ctx.holders == old(ctx.holders)
      ensures thrown.None? ==> && stm != null && fresh(stm) && stm.Valid() && stm.ctx == ctx && stm.native
                               && stm.spec == SampleSpecOf(args) && stm.calls == []
                               && ctx.refs == old(ctx.refs) + 1 && ctx.holders == old(ctx.holders) + {stm}
                               && stm.stateCallback == (if IsFunction(Arg(args, 5)) then Some(Arg(args, 5)) else None)
                               && stm.requests == [StreamNew(if IsString(Arg(args, 4)) then Arg(args, 4).s else DEFAULT_STREAM_NAME, SampleSpecOf(args)), SetStateCallback]
                               && stm.paState == None && stm.readCallback == None
                               && stm.drainCallback == None && stm.writeBuffer == None
    {
      var ss := SampleSpecOf(args);
      var name := if IsString(Arg(args, 4)) then Some(Arg(args, 4).s) else None;
      var s := new Stream(ctx, name, ss, created);
      if !s.native {
        s.Destroy();
        stm, thrown := null, Some("Unable to create stream.");
        return;
      }
      if IsFunction(Arg(args, 5)) {
        s.StateListener(Arg(args, 5));
      }
      stm, thrown := s, None;
    }

    /** The destructor: disconnect and unref the native stream if there is
        one, then give the context reference back. */
    method Destroy()
      requires Valid()
      modifies this`live, this`requests, ctx`refs, ctx`holders
      ensures !live && calls == old(calls)
      ensures ctx.Valid() && ctx.refs == old(ctx.refs) - 1 && ctx.holders == old(ctx.holders) - {this}
      ensures ctx.live == old(ctx.live) && ctx.requests == old(ctx.requests) && ctx.calls == old(ctx.calls)
      ensures ctx.stateCallback == old(ctx.stateCallback) && ctx.paState == old(ctx.paState)
      ensures requests == old(requests) + if native then [StreamDisconnect, StreamUnref] else []
    {
      if native {
        requests := requests + [StreamDisconnect, StreamUnref];
      }
      ctx.Unref(this);
      live := false;
    }

    /** Append one request, and what it does to the registration and cork state. */
    method Issue(r: Request)
      modifies this`requests
      ensures requests == old(requests) + [r]
      ensures ReadRegistered(requests) == if r.SetReadCallback? then r.installed else ReadRegistered(old(requests))
      ensures Corked(requests) == if r.StreamCork? then r.corked else Corked(old(requests))
    {
      AppendRequest(requests, r);
      requests := requests + [r];
    }

    /** StateCallback: store the state; the listener gets exactly one argument, the state. */
    method StateCallback(reported: StreamState)
      requires Valid() && native
      modifies this`paState, this`calls
      ensures Valid() && paState == Some(reported)
      ensures calls == old(calls) + match stateCallback
                                    case Some(f) => [Invocation(f, [Num(StateCode(reported))])]
                                    case None => []
    {
      paState := Some(reported);
      if stateCallback.Some? {
        calls := calls + [Invocation(stateCallback.value, [Num(StateCode(reported))])];
      }
    }

    /** state_listener */
    method StateListener(callback: Value)
      requires Valid()
      modifies this`stateCallback
      ensures Valid()
      ensures stateCallback == if IsFunction(callback) then Some(callback) else None
    {
      if IsFunction(callback) {
        stateCallback := Some(callback);
      } else {
        stateCallback := None;
      }
    }

    /** `Stream::connect`: one connect call matching the direction; no call
        and status 0 for any other direction code. `daemonStatus` is what
        libpulse returns. */
    method ConnectDirection(device: Option<string>, direction: nat, daemonStatus: int) returns (status: int)
      requires Valid() && native
      modifies this`requests
      ensures Valid()
      ensures requests == old(requests) + match DirectionRequest(device, direction)
                                          case Some(r) => [r]
                                          case None => []
      ensures status == if DirectionRequest(device, direction).Some? then daemonStatus else 0
    {
      var r := DirectionRequest(device, direction);
      if r.Some? {
        Issue(r.value);
        status := daemonStatus;
      } else {
        status := 0;
      }
    }

    /** `Connect(device, direction)`: the direction defaults to playback
        unless `args[1]` is a Uint32; a negative status is thrown. */
    method Connect(args: seq<Value>, daemonStatus: int) returns (thrown: Option<Value>)
      requires Valid() && native
      modifies this`requests
      ensures Valid()
      ensures var device := if IsString(Arg(args, 0)) then Some(Arg(args, 0).s) else None;
              var direction := if IsUint32(Arg(args, 1)) then Arg(args, 1).n else PA_STREAM_PLAYBACK;
              var status := if DirectionRequest(device, direction).Some? then daemonStatus else 0;
              && requests == old(requests) + (match DirectionRequest(device, direction)
                                              case Some(r) => [r]
                                              case None => [])
              && thrown == Ctx.StatusError(status)
    {
      var device := if IsString(Arg(args, 0)) then Some(Arg(args, 0).s) else None;
      var direction := if IsUint32(Arg(args, 1)) then Arg(args, 1).n else PA_STREAM_PLAYBACK;
      var status := ConnectDirection(device, direction, daemonStatus);
      thrown := Ctx.StatusError(status);
    }

    /** disconnect */
    method Disconnect()
      requires Valid() && native
      modifies this`requests
      ensures Valid() && requests == old(requests) + [StreamDisconnect]
    {
      Issue(StreamDisconnect);
    }

    /** `Latency()`: ask libpulse for the stream's latency. A negative
        status is thrown; otherwise the latency, in microseconds, is the
        result. `daemonStatus` and `usec` are what libpulse reports. */
    method Latency(daemonStatus: int, usec: nat) returns (latency: Option<nat>, thrown: Option<Value>)
      requires Valid() && native
      modifies this`requests
      ensures Valid() && requests == old(requests) + [StreamGetLatency]
      ensures thrown == Ctx.StatusError(daemonStatus)
      ensures latency.Some? <==> thrown.None?
      ensures latency.Some? ==> latency.value == usec
    {
      Issue(StreamGetLatency);
      thrown := Ctx.StatusError(daemonStatus);
      latency := if thrown.None? then Some(usec) else None;
    }

    /** ReadCallback: libpulse reports `nb` readable bytes; only a non-zero
        count leads to a delivery. `chunk` is what the peek finds. */
    method ReadCallback(nb: nat, chunk: seq<bv8>)
      requires Valid() && native && ReadRegistered(requests)
      modifies this`requests, this`calls
      ensures Valid()
      ensures nb == 0 ==> requests == old(requests) && calls == old(calls)
      ensures nb > 0 ==> (&& requests == old(requests) + [StreamPeek, StreamDrop]
                          && calls == old(calls) + [Invocation(readCallback.value, [Buf(chunk)])])
    {
      if nb > 0 {
        Data(chunk);
      }
    }

    /** data: peek, drop once, and hand the listener a buffer holding exactly
        the peeked bytes. */
    method Data(chunk: seq<bv8>)
      requires Valid() && native && ReadRegistered(requests)
      modifies this`requests, this`calls
      ensures Valid()
      ensures requests == old(requests) + [StreamPeek, StreamDrop]
      ensures calls == old(calls) + [Invocation(readCallback.value, [Buf(chunk)])]
    {
      Issue(StreamPeek);
      Issue(StreamDrop);
      calls := calls + [Invocation(readCallback.value, [Buf(chunk)])];
    }

    /** read: a function drops, installs the listener, registers the read
        callback and uncorks; anything else corks, drops, unregisters the
        read callback and clears the listener. */
    method Read(callback: Value)
      requires Valid() && native
      modifies this`requests, this`readCallback
      ensures Valid()
      ensures IsFunction(callback) ==>
        && readCallback == Some(callback) && !Corked(requests)
        && requests == old(requests) + [StreamDrop, SetReadCallback(true), StreamCork(false)]
      ensures !IsFunction(callback) ==>
        && readCallback == None && Corked(requests)
        && requests == old(requests) + [StreamCork(true), StreamDrop, SetReadCallback(false)]
    {
      if IsFunction(callback) {
        Issue(StreamDrop);
        readCallback := Some(callback);
        Issue(SetReadCallback(true));
        Issue(StreamCork(false));
      } else {
        Issue(StreamCork(true));
        Issue(StreamDrop);
        Issue(SetReadCallback(false));
        readCallback := None;
      }
    }

    /** drain (DrainCallback): release the held buffer; a one-shot listener
        is cleared before it is called. */
    method Drain(status: int)
      requires Valid() && native
      modifies this`writeBuffer, this`drainCallback, this`calls
      ensures Valid() && writeBuffer == None && drainCallback == None
      ensures calls == old(calls) + match old(drainCallback)
                                    case Some(f) => [Invocation(f, [DrainArg(status)])]
                                    case None => []
    {
      if writeBuffer.Some? {
        writeBuffer := None;
      }
      if drainCallback.Some? {
        var callback := drainCallback.value;
        drainCallback := None;
        calls := calls + [Invocation(callback, [DrainArg(status)])];
      }
    }

    /** write: flush first if a buffer is still held; a function replaces the
        drain listener; a buffer is kept and written in full; a drain request
        always closes the call. */
    method Write(buffer: Value, callback: Value)
      requires Valid() && native
      modifies this`requests, this`drainCallback, this`writeBuffer
      ensures Valid()
      ensures requests == old(requests) + WriteRequests(old(writeBuffer).Some?, buffer)
      ensures drainCallback == if IsFunction(callback) then Some(callback) else old(drainCallback)
      ensures writeBuffer == if buffer.Buf? then Some(buffer.bytes) else old(writeBuffer)
    {
      var rs := WriteRequests(writeBuffer.Some?, buffer);
      AppendWithoutRegistration(requests, rs);
      requests := requests + rs;
      if IsFunction(callback) {
        drainCallback := Some(callback);
      }
      if buffer.Buf? {
        writeBuffer := Some(buffer.bytes);
      }
    }
  }
}

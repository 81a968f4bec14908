# node-pulseaudio, modelled in Dafny

node-pulseaudio is a Node.js binding for the PulseAudio client library. It has four layers, and each is one Dafny module here:

- `Bridge` (`bridge.dfy`) covers `src/uv-mainloop.cc`. This file implements libpulse's main-loop interface on top of libuv.
  - The three event records (`pa_io_event`, `pa_time_event`, `pa_defer_event`) are classes.
  - Each class has a `trace` of the libuv requests it issues and the libpulse callbacks it makes.
  - The pure pieces are ordinary functions: the poll-result translation of `io_cb`, the mask of `io_events`, and the deadline-to-delay conversion of `timeval_to_millisec`.
- `Ctx` (`context.dfy`) covers `src/context.cc`: the native `Context`.
  - It has the one-shot `Pending` request object and the `InfoListCallback` accumulator.
  - The state callback and its single listener slot are modelled, along with the `Connect` status path.
  - The context's reference count is kept against a ghost set of holders.
- `Stm` (`stream.dfy`) covers `src/stream.cc`: the native `Stream`.
  - It has the `write_buffer`, `drain_callback` and `read_callback` slots, and the ordered libpulse requests that `write`, `drain`, `read` and `data` issue.
  - It also defaults the sample spec, and takes and returns the context reference.
- `PulseJs` (`pulse_js.dfy`) covers `lib/pulse.js`.
  - The lookups `str2bit`, `str2num` and `num2str` work over the binding's constant tables.
  - `infoListWrap` maps format numbers to format names.
  - The state handler drives `_connected`.
  - The `PlaybackStream` and `RecordStream` classes implement play, stop and discard.

`Js` (`js.dfy`) holds the JavaScript values the layers exchange. Libraries and time sources outside the core are modelled as follows:

- libuv and libpulse are never modelled internally. A call into them is an entry in a request log.
- A value they return to the core is a parameter of the operation:
  - whether `pa_context_new` or `pa_stream_new` produced an object;
  - the connect status;
  - the poll status and revents;
  - the number of readable bytes and the peeked chunk;
  - the drain status;
  - the wall clock `now` that `gettimeofday` would give.
- A call of a JavaScript function from native code is an `Invocation` in a `calls` log.
- Events a wrapper object emits are entries of its `events` log.

Points where the model keeps the code's behaviour, though another reading would be natural:

- Timer delays. `timeval_to_millisec` keeps whole seconds only, and wraps in `uint64_t` for a past deadline. `time_new` and `time_restart` arm the timer with that value, and so does the model (`Bridge.DelayAsWritten`). Both defects are recorded under Findings. `Bridge.Delay` is a saturating conversion in milliseconds, proved to agree with the as-written one on whole-second deadlines ahead (`Bridge.DelayAsWrittenAgreesOnWholeSeconds`).
- Freeing. `io_free`, `time_free` and `defer_free` stop the watcher and call the destroy notification, but never free the record. The model marks the record dead (`live := false`) and nothing more.
- Drain listener. `drain` passes an error for a negative status and `null` otherwise (`Stm.DrainArg`).
- Reading. `ReadCallback` delivers only for a non-zero byte count. `data` peeks, drops once, and then delivers; there is no separate end-of-data branch.

The JavaScript file and the native files come from different revisions of the project. The model keeps each side as written:

- Construction fails on the argument count. `JS_ASSERT` throws "Assertion failed" and returns (src/common.hh:49-52):
  - `Context::New` asserts exactly two arguments (src/context.cc:189), but the `Context` constructor of `lib/pulse.js` (line 111) passes three: the client name, `opts.properties || {}`, and the listener.
  - `Stream::New` asserts exactly six (src/stream.cc:240), but `createStream` passes eight (lib/pulse.js:237).
  - So, as written, `new PulseContext(...)` and `new PulseStream(...)` throw before any native object exists. The `PulseJs` classes are modelled as if both constructions had succeeded. `Ctx.Context.New` and `Stm.Stream.New` model the native side past its argument checks.
- Past that check, the arguments are also read from positions the JavaScript does not fill:
  - `Context::New` takes the listener from `args[1]` (src/context.cc:210), where `lib/pulse.js` puts `opts.properties || {}`. So even a context built with three arguments would get no listener: `Ctx.Context.New` installs one only from a function `args[1]`.
  - `Stream::New` reads the name from `args[4]` and the listener from `args[5]`. `createStream` puts the latency at position 4, `opts.stream` at 5 and the listener last.
- `Context::Connect` asserts two arguments but reads `args[1]` and `args[2]` (`Ctx.TwoArgumentConnectHasNoFlags`).
- `Stream::StateCallback` hands its listener only the state. The stream state handler of `lib/pulse.js` reads `error.message` on `failed`. With the argument missing, that read throws (`PulseJs.Emitter.OnState` reports it as `threw`).
- `src/stream.cc` defines no `flags` table. So `createStream`'s `str2bit(opts.flags, PulseStream.flags)` reads a property of undefined.

## Model

| member | source | states |
|---|---|---|
| Bridge.IoCallbackFlags | src/uv-mainloop.cc:25-45 | On a clean wake, INPUT is reported iff it was requested and the poll saw READABLE, and OUTPUT iff requested and WRITABLE was seen. HANGUP and ERROR are never reported on a clean wake. On a failed wake neither INPUT nor OUTPUT is reported. HANGUP is reported iff requested and the status is EOF/EPIPE/ESPIPE/SHUTDOWN/ETIMEDOUT, and ERROR iff requested. No other bit is ever set. |
| Bridge.IoDispatch | src/uv-mainloop.cc:24-49 | The user callback runs, once, exactly when the handle has a callback and the translated set is non-empty, and it gets that set. |
| Bridge.IoEvents | src/uv-mainloop.cc:53-55 | READABLE iff INPUT, WRITABLE iff OUTPUT, and no other poll bit. |
| Bridge.IoEventsIgnoresHangupAndError | src/uv-mainloop.cc:53-55 | The poll mask depends only on the INPUT and OUTPUT interest bits. |
| Bridge.TimerSub | src/uv-mainloop.cc:157-158 | The difference is normalized, and its microsecond value is the difference of the operands' values. |
| Bridge.DelayAsWritten | src/uv-mainloop.cc:152-161 | The conversion as written: the delay goes through `uint64_t`, so it is always below 2^64. |
| Bridge.DelayAsWrittenWholeSeconds | src/uv-mainloop.cc:160 | As written, the microsecond part never contributes: the delay is whole seconds times 1000. |
| Bridge.DelayAsWrittenDropsHalfSecond | src/uv-mainloop.cc:160 | A deadline 0.5 s ahead is armed with a 0 ms delay. |
| Bridge.DelayAsWrittenOneSecondLate | src/uv-mainloop.cc:152-161 | As written, every deadline exactly one second in the past is armed with 2^64 - 1000 ms. |
| Bridge.DelayAsWrittenPastDeadlineWraps | src/uv-mainloop.cc:152-161 | A deadline 1 s in the past is armed with 2^64 - 1000 ms. |
| Bridge.Delay | src/uv-mainloop.cc:152-161 | Corrected conversion: 0 for a deadline not in the future, otherwise the time left in whole milliseconds. |
| Bridge.DelayAsWrittenAgreesOnWholeSeconds | src/uv-mainloop.cc:152-161 | For a deadline a whole number of seconds ahead (and below 2^64 ms), the as-written and the corrected conversions give the same delay. |
| Bridge.IoEvent.constructor | src/uv-mainloop.cc:57-91 | io_new stores fd, interest, callback and user data, inits the poll, and starts it with exactly `io_events(ev)`. The poll-mask invariant holds from then on. |
| Bridge.IoEvent.Wake | src/uv-mainloop.cc:20-51 | One wake appends at most one io callback, the one `IoDispatch` selects, and keeps the invariant. |
| Bridge.IoEvent.Enable | src/uv-mainloop.cc:93-106 | Unchanged flags leave the trace alone. Changed flags append a stop and then a start with the new mask, and store the new flags. The watcher then polls exactly the stored interest, with no redundant start or stop. |
| Bridge.IoEvent.Free | src/uv-mainloop.cc:108-119 | The poll stops first. The destroy notification follows only if one was registered. The watcher is inactive afterwards. |
| Bridge.IoEvent.SetDestroy | src/uv-mainloop.cc:121-127 | Stores the destroy notification and changes nothing else. |
| Bridge.TimeEvent.constructor | src/uv-mainloop.cc:163-194 | time_new stores the deadline, inits the timer, and arms it once, one-shot, with the as-written `timeval_to_millisec` delay (`DelayAsWritten`). |
| Bridge.TimeEvent.Restart | src/uv-mainloop.cc:196-204 | Rearms one-shot with the as-written delay to the new deadline. The stored deadline is left unchanged. |
| Bridge.TimeEvent.Fire | src/uv-mainloop.cc:140-150 | The callback runs only for status 0 and gets back the deadline stored by time_new. |
| Bridge.TimeEvent.Free | src/uv-mainloop.cc:206-217 | Stops the timer, then calls the destroy notification if one was registered. |
| Bridge.TimeEvent.SetDestroy | src/uv-mainloop.cc:219-225 | Stores the destroy notification. |
| Bridge.DeferEvent.constructor | src/uv-mainloop.cc:251-280 | Starts enabled, with the idle inited and started. |
| Bridge.DeferEvent.Fire | src/uv-mainloop.cc:238-249 | The callback runs only for status 0. |
| Bridge.DeferEvent.Enable | src/uv-mainloop.cc:282-296 | Stops the idle only on true→false and starts it only on false→true. Afterwards `en` is the argument, and the idle runs exactly while enabled. |
| Bridge.DeferEvent.Free | src/uv-mainloop.cc:298-311 | Stops the idle only if enabled, then calls the destroy notification if one was registered. |
| Bridge.DeferEvent.SetDestroy | src/uv-mainloop.cc:313-319 | Stores the destroy notification. |
| Ctx.InfoListStep | src/context.cc:97-130 | The result slot is allocated only when absent. A record is appended at the end of the list. End-of-list calls the callback once with the list and ends the request. |
| Ctx.AfterRecordsAccumulates | src/context.cc:101-128 | After N records the list is the previous list followed by those N records in arrival order, and no call has been made. |
| Ctx.InfoListDeliversOnce | src/context.cc:97-130 | N records and then end-of-list give exactly one callback invocation. Its single argument is the list of the N records in order; with N = 0 the list is empty. |
| Ctx.InfoListCallback | src/context.cc:97-130 | The native accumulator changes the Pending exactly as `InfoListStep` says. |
| Ctx.Pending.constructor | src/context.cc:65-69 | A new Pending has no result slot and is live. |
| Ctx.Pending.Args | src/context.cc:75-78 | Allocates `num` empty slots, after which `Args()` is true iff `num` is non-zero. |
| Ctx.Pending.HasArgs | src/context.cc:79-81 | `Args()` converts the slot count to `bool`: true iff slots have been allocated. |
| Ctx.Pending.Return | src/context.cc:82-85 | Invokes the callback with the arguments, then the object is gone. |
| Ctx.Pending.ReturnArgs | src/context.cc:86-91 | Returns exactly the stored slots. |
| Ctx.Pending.Throw | src/context.cc:92-94 | Returns the error as the only argument. |
| Ctx.StateArgs | src/context.cc:22-30 | The listener gets two arguments: the state, and an error iff the state is FAILED (undefined otherwise). |
| Ctx.ConnectArgs | src/context.cc:227-237 | The server comes from `args[1]` only if it is a string. The flags come from `args[2]` if it is a Uint32, else NOFLAGS. |
| Ctx.TwoArgumentConnectHasNoFlags | src/context.cc:221-237 | With the two arguments the binding insists on, the flags are always NOFLAGS. |
| Ctx.StatusError | src/common.hh:42-47 | A status becomes a thrown error iff it is negative. |
| Ctx.Context.constructor | src/context.cc:5-8 | Creates the native context under the given or default client name, then registers the state callback. |
| Ctx.Context.New | src/context.cc:183-215 | A null native context throws "Unable to create context.". Otherwise the listener is installed iff `args[1]` is a function. |
| Ctx.Context.Destroy | src/context.cc:10-15 | Disconnects and then unrefs, and only if the native context exists. |
| Ctx.Context.StateCallback | src/context.cc:17-34 | Stores the reported state. If a listener is installed, it is called once with `StateArgs`. |
| Ctx.Context.StateListener | src/context.cc:36-42 | A function fills the slot; any other value empties it. |
| Ctx.Context.Connect | src/context.cc:217-248 | Issues one connect with `ConnectArgs`. A negative status is thrown and any other is not. |
| Ctx.Context.Disconnect | src/context.cc:48-50 | Issues one disconnect. |
| Ctx.Context.Info | src/context.cc:132-142 | Makes a fresh Pending. A daemon request is made only for the source and sink lists; other kinds make none, so their callback never runs. |
| Ctx.Context.Ref | src/stream.cc:12 | Adds one reference for a new holder. |
| Ctx.Context.Unref | src/stream.cc:22 | Removes that holder's reference. |
| Stm.SampleSpecOf | src/stream.cc:247-260 | The defaults are S16LE, 44100 Hz and 2 channels. Each field is replaced only by a Uint32 argument. Channels are truncated to 8 bits. |
| Stm.SampleSpecFieldsIndependent | src/stream.cc:247-260 | Each field depends only on its own argument. |
| Stm.ChannelCountWraps | src/stream.cc:258-260 | A channel count of 258 is passed on as 2. |
| Stm.DirectionRequest | src/stream.cc:51-63 | Gives exactly one connect call, matching the direction, for playback, record and upload, and none for any other code. |
| Stm.DrainArg | src/stream.cc:137-141 | The drain listener gets an error iff the status is negative, and null otherwise. |
| Stm.WriteRequests | src/stream.cc:158-183 | A flush comes first iff a buffer is held. The new buffer's write comes next iff a buffer was given. A drain always comes last, with nothing else in between. None of these changes the read or cork state. |
| Stm.Stream.constructor | src/stream.cc:9-15 | Takes exactly one context reference, then creates the stream and registers the state callback. |
| Stm.Stream.New | src/stream.cc:234-285 | On a null native stream, throws "Unable to create stream." with the context's reference count unchanged. Otherwise the stream holds one reference. It was created under the name from a string `args[4]` (default "node-stream") with the sample spec from `SampleSpecOf`. It has the listener iff `args[5]` is a function, and empty read, drain and buffer slots. Only the context's reference count and holders change. |
| Stm.Stream.Destroy | src/stream.cc:17-23 | Disconnects and unrefs only a native stream, and gives the context reference back, so the count is balanced. Nothing else of the context changes. |
| Stm.Stream.StateCallback | src/stream.cc:25-41 | Stores the state, and calls the listener if there is one, with exactly one argument, the state. |
| Stm.Stream.StateListener | src/stream.cc:43-49 | A function fills the slot; any other value empties it. |
| Stm.Stream.ConnectDirection | src/stream.cc:51-63 | Issues exactly the call `DirectionRequest` gives and returns its status. For any other direction it issues nothing and returns 0. |
| Stm.Stream.Connect | src/stream.cc:287-314 | The direction is PLAYBACK unless `args[1]` is a Uint32. The device is taken from `args[0]` only if it is a string. A negative status is thrown. |
| Stm.Stream.Disconnect | src/stream.cc:65-67 | Issues one disconnect. |
| Stm.Stream.Latency | src/stream.cc:328-342 | Issues one latency query. A negative status is thrown and gives no result; otherwise the result is the reported latency in microseconds. |
| Stm.Stream.ReadCallback | src/stream.cc:69-75 | Zero readable bytes change nothing. Otherwise it peeks, drops once, and delivers once. |
| Stm.Stream.Data | src/stream.cc:77-95 | Peeks and then drops, exactly once each. The listener gets one buffer holding exactly the peeked bytes. |
| Stm.Stream.Read | src/stream.cc:97-113 | A function gives drop, register, uncork, and installs the listener. Anything else gives cork, drop, unregister, and clears the listener. The listener is installed iff the read callback is registered. |
| Stm.Stream.Drain | src/stream.cc:117-154 | Releases the held buffer. A drain listener is cleared before it is called, once, with `DrainArg(status)`. |
| Stm.Stream.Write | src/stream.cc:158-183 | Issues `WriteRequests`. A function replaces the drain listener and anything else keeps it. A buffer is kept. |
| PulseJs.Lookup | lib/pulse.js:29 | `set[k]` is defined iff some entry has key `k`, and then it is that entry's value. |
| PulseJs.Split | lib/pulse.js:31 | `split` never gives an empty array, and the empty string gives one empty token. Its full behaviour is stated by the lemmas below: the token count, the rejoin round trip, and no separator inside a token. |
| PulseJs.SplitCount | lib/pulse.js:31 | Splitting gives one token more than there are separators. |
| PulseJs.SplitRejoins | lib/pulse.js:31 | Rejoining the tokens with the separators gives back the string. |
| PulseJs.SplitTokensHaveNoSeparator | lib/pulse.js:31 | No token contains whitespace, `,`, `.`, `+` or `\|`. |
| PulseJs.SplitWithoutSeparator | lib/pulse.js:31 | A separator-free string is its own single token. |
| PulseJs.Accumulate | lib/pulse.js:32-35 | The loop yields undefined only when it started undefined. |
| PulseJs.Str2Bit | lib/pulse.js:28-38 | The loop computes `Str2BitOf`: `set[def]` OR'd, in table order, with the value of every key that occurs as a token. A non-string gives `set[def]`. |
| PulseJs.Str2BitIncludes | lib/pulse.js:32-35 | Every key occurring as a token contributes all its bits. |
| PulseJs.Str2BitKeepsDefault | lib/pulse.js:29-35 | The default's bits are always kept. |
| PulseJs.Str2BitDefault | lib/pulse.js:28-37 | A non-string, or a string with no key among its tokens, gives `set[def]`. |
| PulseJs.Str2BitDependsOnKeysPresent | lib/pulse.js:31-35 | Token order and repetition do not change the result; only which keys occur does. |
| PulseJs.Str2Num | lib/pulse.js:40-52 | A non-string gives `def`. The exact key wins, then the lower-cased key, then the upper-cased one. A string none of whose three spellings is a key gives `def`. The result is always `def` or a table value. |
| PulseJs.Lower | lib/pulse.js:44 | `toLowerCase` keeps the length, leaves no upper-case ASCII letter, and changes no character that is not one. |
| PulseJs.Upper | lib/pulse.js:47 | `toUpperCase` keeps the length, leaves no lower-case ASCII letter, and changes no character that is not one. |
| PulseJs.Str2NumIgnoresCaseUpper | lib/pulse.js:40-52 | For a table of upper-case keys, every spelling that upper-cases to a key finds that key. |
| PulseJs.Str2NumIgnoresCaseLower | lib/pulse.js:40-52 | For a table of lower-case keys, every spelling that lower-cases to a key finds that key. |
| PulseJs.SampleFormatKeys | src/stream.cc:210-223 | The format table has distinct, upper-case keys. |
| PulseJs.SampleFormatByName | lib/pulse.js:237 | `format: "s16le"` selects S16LE. |
| PulseJs.UnknownInitial | lib/pulse.js:40-52 | If no key begins with the name's initial, as given, lower-cased or upper-cased, the name selects `def`. |
| PulseJs.UnknownFormatName | lib/pulse.js:237 | A format name whose upper-cased initial begins no format name selects nothing, so the native side falls back to S16LE. |
| PulseJs.BogusFormatName | lib/pulse.js:237 | `format: "bogus"` selects no format. |
| PulseJs.FirstKey | lib/pulse.js:54-60 | A key is found iff some entry's value is `=== val`. |
| PulseJs.Num2Str | lib/pulse.js:54-60 | The loop with early return gives the first key in enumeration order whose value is `=== val`, else `def`. |
| PulseJs.Num2StrOfValue | lib/pulse.js:54-60 | With distinct values, a table value maps back to its own key. |
| PulseJs.Str2NumOfNum2Str | lib/pulse.js:40-60 | `str2num` undoes `num2str`: the name found maps back to the number. |
| PulseJs.ContextReadyName | lib/pulse.js:112 | The Context handler emits state 4 as "ready". |
| PulseJs.StreamTerminatedName | lib/pulse.js:238 | The stream handler emits state 4 as "terminated". |
| PulseJs.DefaultFormatName | lib/pulse.js:100 | infoListWrap names format 3 "S16LE". |
| PulseJs.WrapRecord | lib/pulse.js:99-100 | A record with `format` gets the format's name there, or undefined if the number names none. All other fields are unchanged and no field is added. A record without `format` is untouched. |
| PulseJs.WrapFormats | lib/pulse.js:97-103 | Every record of the list, in place, becomes `WrapRecord` of itself. Length and order are kept. |
| PulseJs.Emitter.constructor | lib/pulse.js:129 | `_connected` starts false, with no events. |
| PulseJs.Emitter.OnState | lib/pulse.js:111-127 | `state` is emitted first, with the state's name (the stream handler at lib/pulse.js:237-252 is the same code). Then: ready sets `_connected` and emits `connection`; terminated clears it and emits `close`; failed emits `error`, or throws when there is no error argument; any other state emits nothing more. `_connected` always mirrors the latest connection or close. |
| PulseJs.ContextConnectFlags | lib/pulse.js:133 | With no flags option, the context connects with `noflags`, i.e. 0. |
| PulseJs.PlaybackStream.constructor | lib/pulse.js:316-321 | After `createStream`'s `play()` the stream is playing and emits `play`, with the discard counter at 0. |
| PulseJs.PlaybackStream.Write | lib/pulse.js:323-342 | While the counter is positive, a write decrements it and completes without touching the native stream. Otherwise a rejected connection wait completes with the error, and a stopped stream completes at once, both leaving the native stream as it was. Only a playing stream writes the chunk to the native stream. It then holds the chunk as its buffer, with `done` as drain listener. The counter never goes negative. |
| PulseJs.PlaybackStream.Discard | lib/pulse.js:360-367 | Sets the counter to the buffered request count. Only when connected does it flush and drain the native stream. That keeps its drain listener and held buffer; when not connected the native stream is left as it was. |
| PulseJs.PlaybackStream.Stop | lib/pulse.js:344-351 | Discards first, then `stopped == !playing` with playing false, and emits `stop`. The native stream gets only the discard's flush and drain, with its drain listener and buffer kept. |
| PulseJs.PlaybackStream.Play | lib/pulse.js:353-358 | `stopped == !playing` with playing true, and emits `play`. |
| PulseJs.RecordStream.constructor | lib/pulse.js:272-284 | Construction ends with `play()`: reading is registered with the stream's own read callback, which becomes the native listener. Of the native stream only its requests and read listener change. |
| PulseJs.RecordStream.Stop | lib/pulse.js:289-296 | Unregisters reading (cork, drop, unregister) and clears the native read listener, leaving `stopped == !playing` with playing false, and emits `stop`. Playing stays equivalent to the native listener being installed and the stream uncorked. |
| PulseJs.RecordStream.Play | lib/pulse.js:298-305 | Registers reading (drop, register, uncork) with the native read listener set to the read callback, leaving `stopped == !playing` with playing true, and emits `play`. |

## Left out

- `quit` of the main-loop interface (src/uv-mainloop.cc:321-326) does nothing, so it has no model.
- The `assert`s in `io_new`, `time_new` and `defer_new` are modelled as preconditions. Those on the loop-API pointer have no counterpart, because there is no API object.
- Memory handling is not modelled: `pa_xnew0`, `Persistent`/`Global` Dispose and Reset, `delete this` in `Pending`, and the `DummyFree` of written buffers. A freed or returned object is only marked dead.
- V8 argument checks (`JS_ASSERT`) and `TryCatch`/`HANDLE_CAUGHT` are not modelled. They are binding boilerplate.
- Ctx.Context.New: the `args.Length() == 2` assertion (src/context.cc:189) is not modelled; the model starts past it. As written, the three-argument call from `lib/pulse.js` throws there.
- Stm.Stream.New: the `args.Length() == 6` assertion (src/stream.cc:240) is not modelled; the model starts past it. As written, the eight-argument call from `createStream` throws there.
- The `Init` constant tables are not modelled as code. Their contents are the `PulseJs` table constants.
- The fields of an info record (src/context.cc:109-121) are not built; each record is an opaque value.
- `set_mute`, `set_volume`, `load_module`, `unload_module`, and the server and module info kinds are not modelled. They have no implementation in the core files.
- Stm.Stream.Latency: the sign flag `pa_stream_get_latency` reports is ignored, as in the source. The conversion of the `pa_usec_t` result to a JavaScript number (a double, exact only below 2^53) is not modelled.
- Stm.Stream.StateListener: for a non-function, `Stream::state_listener` only disposes the handle and does not clear it, so the slot would still count as filled. The model empties the slot instead. Its one caller, `Stream::New`, passes only functions (src/stream.cc:280), so no caller reaches that branch.
- The write-credit fields declared in `src/stream.hh` have no implementation in `src/stream.cc` and are not modelled.
- Promise and EventEmitter plumbing is not modelled: `waitConnection`, `makePromise`, the async methods, `process.nextTick`, `once`/`on`, and Node stream back-pressure. `PulseJs.PlaybackStream.Write` takes the outcome of the connection wait as a parameter.
- PulseJs.PlaybackStream.Write: reads `playing` at the call, not after the awaited connection, because the interleaving of `await` with other calls is not modelled.
- `createStream`'s connect on context connection is not modelled. Neither are the `finish`/`end` handlers that disconnect, or `RecordStream.end`. These are event scheduling, and the `flags` table they read does not exist in `src/stream.cc`.
- PulseJs.Str2Num: `in` also finds keys inherited from `Object.prototype` (`"toString" in set`); the model only knows the table's own keys.
- PulseJs.Lower: `toLowerCase`/`toUpperCase` are modelled on ASCII letters only. Unicode case mapping is not modelled.
- PulseJs.Str2Bit: assumes table values below 2^31 (all binding flags are), so the int32 conversion of `|` is the identity.
- PulseJs.Emitter.OnState: a non-nullish error argument yields `ErrorEvent(error)`, standing for the new `Error` carrying its message.
- The bitwise values of the libuv status codes (`UV_EOF`, …) are not in the core files. `Bridge.Status` names them instead.
- Context state, stream state and sample-format numbers follow libpulse's enumerations.
- Concurrency is not modelled. Everything runs on the one libuv loop thread, as in the source.

## Findings

| source | as written | input that shows it | evidently intended | confidence | as-written member | corrected member |
|---|---|---|---|---|---|---|
| src/uv-mainloop.cc:160 | `dt.tv_usec / 1000000` is always 0 for a normalized timeval, so the sub-second part of the delay is lost | deadline 10.5 s, now 10.0 s: the timer is armed with 0 ms instead of 500 ms | `dt.tv_usec / 1000` | not executed | Bridge.DelayAsWrittenDropsHalfSecond | Bridge.Delay |
| src/uv-mainloop.cc:152-161 | a deadline in the past gives a negative millisecond count converted to `uint64_t` | deadline 9 s, now 10 s: the timer is armed with 2^64 - 1000 ms, about 584 million years | a past deadline fires at once (delay 0) | not executed | Bridge.DelayAsWrittenPastDeadlineWraps | Bridge.Delay |

/** The control connection to the sound server (src/context.cc): the
    one-shot `Pending` request object, the info-list accumulator, the state
    listener slot and the construction / destruction rules. Requests made of
    libpulse are appended to `requests`; calls of JavaScript functions to
    `calls`. */
module Ctx {
  import opened Js

  /** pa_context_state_t */
  datatype ContextState = Unconnected | Connecting | Authorizing | SettingName | Ready | Failed | Terminated

  function StateCode(s: ContextState): nat {
    match s
    case Unconnected => 0
    case Connecting => 1
    case Authorizing => 2
    case SettingName => 3
    case Ready => 4
    case Failed => 5
    case Terminated => 6
  }

  const PA_CONTEXT_NOFLAGS: nat := 0
  const DEFAULT_CLIENT_NAME: string := "node-pulse"

  /** The kinds `Context::info` is asked for; only the two list kinds have a branch. */
  datatype InfoKind = SourceList | SinkList | OtherKind(code: nat)

  /* ---------- the pending request ---------- */

  /** The fields of a `Pending`: `argc`/`argv` (the result slot), whether it
      still exists, and the calls of its completion callback. */
  datatype PendingState = PendingState(argc: nat, argv: seq<Value>, live: bool, calls: seq<Invocation>)

  /** The shape InfoListCallback keeps: no result slot yet, or one slot that holds a list. */
  predicate ListShaped(s: PendingState) {
    (s.argc == 0 && s.argv == []) || (s.argc == 1 && |s.argv| == 1 && s.argv[0].Arr?)
  }

  /** The records accumulated so far. */
  function Items(s: PendingState): seq<Value>
    requires ListShaped(s)
  {
    if s.argc == 0 then [] else s.argv[0].items
  }

  /** One InfoListCallback call: lazily allocate the list, then either
      append the record or, at end of list, return the list and die. */
  function InfoListStep(s: PendingState, callback: Value, info: Value, eol: bool): (r: PendingState)
    requires s.live && ListShaped(s)
    ensures ListShaped(r) && r.argc == 1
    ensures !eol ==> r.live && r.calls == s.calls && Items(r) == Items(s) + [info]
    ensures eol ==> !r.live && r.calls == s.calls + [Invocation(callback, [Arr(Items(s))])]
  {
    var s1 := if s.argc == 0 then PendingState(1, [Arr([])], s.live, s.calls) else s;
    assert s1.argv == [Arr(s1.argv[0].items)];
    if eol then PendingState(s1.argc, s1.argv, false, s1.calls + [Invocation(callback, s1.argv)])
    else PendingState(s1.argc, [Arr(s1.argv[0].items + [info])], s1.live, s1.calls)
  }

  /** The state after the records `infos` have arrived, none of them end-of-list. */
  function AfterRecords(s: PendingState, callback: Value, infos: seq<Value>): PendingState
    requires s.live && ListShaped(s)
    decreases |infos|
  {
    if infos == [] then s
    else
      var s' := InfoListStep(s, callback, infos[0], false);
      AfterRecords(s', callback, infos[1..])
  }

  lemma {:induction false} AfterRecordsAccumulates(s: PendingState, callback: Value, infos: seq<Value>)
    requires s.live && ListShaped(s)
    ensures var r := AfterRecords(s, callback, infos);
            r.live && ListShaped(r) && Items(r) == Items(s) + infos && r.calls == s.calls
    decreases |infos|
  {
    if infos != [] {
      var s' := InfoListStep(s, callback, infos[0], false);
      AfterRecordsAccumulates(s', callback, infos[1..]);
      assert Items(s) + [infos[0]] + infos[1..] == Items(s) + infos;
    }
  }

  /** N records followed by end-of-list: the callback runs exactly once, with
      one argument, the list of the N records in arrival order, and the
      request object is gone. With N = 0 the list is empty. */
  lemma InfoListDeliversOnce(callback: Value, infos: seq<Value>)
    ensures var start := PendingState(0, [], true, []);
            var before := AfterRecords(start, callback, infos);
            before.live && ListShaped(before) &&
            var r := InfoListStep(before, callback, Undefined, true);
            !r.live && r.calls == [Invocation(callback, [Arr(infos)])]
  {
    var start := PendingState(0, [], true, []);
    AfterRecordsAccumulates(start, callback, infos);
    var before := AfterRecords(start, callback, infos);
    assert Items(before) == infos;
  }

  /** Pending: the completion callback of one outstanding request. */
  class Pending {
    const callback: Value
    var argc: nat
    var argv: seq<Value>
    var live: bool
    var calls: seq<Invocation>

    function State(): PendingState
      reads this
    {
      PendingState(argc, argv, live, calls)
    }

    constructor (callback: Value)
      requires IsFunction(callback)
      ensures this.callback == callback && State() == PendingState(0, [], true, [])
    {
      this.callback := callback;
      argc := 0;
      argv := [];
      live := true;
      calls := [];
    }

    /** `Args()`: whether the result slots have been allocated, the C++
        conversion of the slot count to `bool`. */
    predicate HasArgs(): (b: bool)
      reads this
      ensures b <==> State().argc > 0
    {
      argc != 0
    }

    /** `Args(num)`: allocate `num` result slots. */
    method Args(num: nat)
      requires live
      modifies this`argc, this`argv
      ensures argc == num && |argv| == num && forall i | 0 <= i < num :: argv[i] == Undefined
      ensures HasArgs() <==> num > 0
    {
      argc := num;
      argv := seq(num, _ => Undefined);
    }

    /** `Return(argc, argv)`: invoke the callback, then delete the object. */
    method Return(args: seq<Value>)
      requires live
      modifies this`live, this`calls
      ensures !live && calls == old(calls) + [Invocation(callback, args)]
    {
      calls := calls + [Invocation(callback, args)];
      live := false;
    }

    /** `Return()`: return the stored result slots. */
    method ReturnArgs()
      requires live && |argv| == argc
      modifies this`live, this`calls
      ensures !live && calls == old(calls) + [Invocation(callback, argv)]
    {
      Return(argv);
    }

    /** `Throw(error)`: return the error as the only argument. */
    method Throw(error: Value)
      requires live
      modifies this`live, this`calls
      ensures !live && calls == old(calls) + [Invocation(callback, [error])]
    {
      Return([error]);
    }
  }

  /** InfoListCallback for one record (eol false) or the end-of-list marker. */
  method InfoListCallback(p: Pending, info: Value, eol: bool)
    requires p.live && ListShaped(p.State())
    modifies p
    ensures p.State() == InfoListStep(old(p.State()), p.callback, info, eol)
  {
    ghost var s0 := p.State();
    if !p.HasArgs() {
      p.Args(1);
      p.argv := p.argv[0 := Arr([])];
      assert p.argv == [Arr([])];
    }
    ghost var s1 := p.State();
    assert s1 == if s0.argc == 0 then PendingState(1, [Arr([])], s0.live, s0.calls) else s0;
    if eol {
      p.ReturnArgs();
      assert p.State() == PendingState(s1.argc, s1.argv, false, s1.calls + [Invocation(p.callback, s1.argv)]);
    } else {
      var list := p.argv[0];
      p.argv := p.argv[0 := Arr(list.items + [info])];
    }
  }

  /* ---------- the context ---------- */

  /** The libpulse calls a Context makes. */
  datatype Request =
    | ContextNew(clientName: string)
    | SetStateCallback
    | ContextConnect(server: Option<string>, flags: nat)
    | ContextDisconnect
    | ContextUnref
    | GetSourceInfoList(pending: Pending)
    | GetSinkInfoList(pending: Pending)

  /** The arguments StateCallback hands the listener: the state code, and an
      error built from the context's error number only for FAILED. */
  function StateArgs(state: ContextState, errno: int): (args: seq<Value>)
    ensures |args| == 2 && args[0] == Num(StateCode(state))
    ensures args[1].Exception? <==> state == Failed
    ensures state == Failed ==> args[1] == Exception(errno)
    ensures state != Failed ==> args[1] == Undefined
  {
    [Num(StateCode(state)), if state == Failed then Exception(errno) else Undefined]
  }

  /** The server name and flags `Connect` passes on: the name only when
      `args[1]` is a string, the flags only when `args[2]` is a Uint32. */
  function ConnectArgs(args: seq<Value>): (r: (Option<string>, nat))
    ensures r.0.Some? <==> IsString(Arg(args, 1))
    ensures r.0.Some? ==> r.0.value == Arg(args, 1).s
    ensures IsUint32(Arg(args, 2)) ==> r.1 == Arg(args, 2).n
    ensures !IsUint32(Arg(args, 2)) ==> r.1 == PA_CONTEXT_NOFLAGS
  {
    var server := if IsString(Arg(args, 1)) then Some(Arg(args, 1).s) else None;
    var flags := if IsUint32(Arg(args, 2)) then Arg(args, 2).n else PA_CONTEXT_NOFLAGS;
    (server, flags)
  }

  /** A call with exactly two arguments, which the binding insists on, never
      carries flags: `args[2]` is then undefined. */
  lemma TwoArgumentConnectHasNoFlags(a0: Value, a1: Value)
    ensures ConnectArgs([a0, a1]).1 == PA_CONTEXT_NOFLAGS
    ensures ConnectArgs([a0, a1]).0.Some? <==> a1.Str?
  {
    assert Arg([a0, a1], 2) == Undefined;
  }

  /** PA_ASSERT: a negative status becomes a thrown error. */
  function StatusError(status: int): (r: Option<Value>)
    ensures r.Some? <==> status < 0
    ensures r.Some? ==> r.value == Exception(status)
  {
    if status < 0 then Some(Exception(status)) else None
  }

  class Context {
    /** whether pa_context_new returned a context */
    const native: bool
    var paState: Option<ContextState>
    var stateCallback: Option<Value>
    /** the wrapper's reference count, one per Stream that holds it */
    var refs: nat
    ghost var holders: set<object>
    var live: bool
    var requests: seq<Request>
    var calls: seq<Invocation>

    ghost predicate Valid()
      reads this
    {
      live && refs == |holders| && (stateCallback.Some? ==> IsFunction(stateCallback.value))
    }

    /** The constructor: create the native context with the given client name
        (or the default one) and register the state callback. Whether
        libpulse returned a context is the parameter `created`. */
    constructor (clientName: Option<string>, created: bool)
      ensures Valid() && native == created
      ensures paState == None && stateCallback == None && refs == 0 && holders == {} && calls == []
      ensures requests == [ContextNew(if clientName.Some? then clientName.value else DEFAULT_CLIENT_NAME), SetStateCallback]
    {
      native := created;
      paState := None;
      stateCallback := None;
      refs := 0;
      holders := {};
      live := true;
      requests := [ContextNew(if clientName.Some? then clientName.value else DEFAULT_CLIENT_NAME), SetStateCallback];
      calls := [];
    }

    /** `Context::New(name, listener)`: a null native context throws; the
        listener is installed only when it is a function. */
    static method New(args: seq<Value>, created: bool) returns (ctx: Context, thrown: Option<string>)
      ensures fresh(ctx) && ctx.Valid() && ctx.native == created && ctx.refs == 0
      ensures ctx.requests == [ContextNew(if IsString(Arg(args, 0)) then Arg(args, 0).s else DEFAULT_CLIENT_NAME), SetStateCallback]
      ensures thrown.Some? <==> !created
      ensures thrown.Some? ==> thrown.value == "Unable to create context." && ctx.stateCallback == None
      ensures thrown.None? ==> ctx.stateCallback == if IsFunction(Arg(args, 1)) then Some(Arg(args, 1)) else None
    {
      var name := if IsString(Arg(args, 0)) then Some(Arg(args, 0).s) else None;
      ctx := new Context(name, created);
      if !ctx.native {
        thrown := Some("Unable to create context.");
        return;
      }
      thrown := None;
      if IsFunction(Arg(args, 1)) {
        ctx.StateListener(Arg(args, 1));
      }
    }

    /** The destructor. The wrapper is only destroyed once nothing holds a
        reference; it disconnects before it unrefs, and only a native
        context is touched. */
    method Destroy()
      requires Valid() && refs == 0
      modifies this`live, this`requests
      ensures !live && holders == {}
      ensures requests == old(requests) + if native then [ContextDisconnect, ContextUnref] else []
    {
      if native {
        Disconnect();
        requests := requests + [ContextUnref];
      }
      live := false;
    }

    /** StateCallback: store the state libpulse reports; call the listener,
        if one is installed, with the state and the error argument. */
    method StateCallback(reported: ContextState, errno: int)
      requires Valid() && native
      modifies this`paState, this`calls
      ensures Valid() && paState == Some(reported)
      ensures calls == old(calls) + match stateCallback
                                    case Some(f) => [Invocation(f, StateArgs(reported, errno))]
                                    case None => []
    {
      paState := Some(reported);
      if stateCallback.Some? {
        calls := calls + [Invocation(stateCallback.value, StateArgs(reported, errno))];
      }
    }

    /** state_listener: a function fills the single slot; anything else empties it. */
    method StateListener(callback: Value)
      requires Valid()
      modifies this`stateCallback
      ensures Valid()
      ensures stateCallback == if IsFunction(callback) then Some(callback) else None
    {
      if IsFunction(callback) {
        stateCallback := Some(callback);
      } else {
        stateCallback := None;
      }
    }

    /** `Connect(_, server, flags)`: the connect status `status` comes from
        libpulse; a negative one is thrown. */
    method Connect(args: seq<Value>, status: int) returns (thrown: Option<Value>)
      requires Valid()
      modifies this`requests
      ensures Valid()
      ensures requests == old(requests) + [ContextConnect(ConnectArgs(args).0, ConnectArgs(args).1)]
      ensures thrown == StatusError(status)
    {
      var (server, flags) := ConnectArgs(args);
      requests := requests + [ContextConnect(server, flags)];
      thrown := StatusError(status);
    }

    /** disconnect */
    method Disconnect()
      requires live
      modifies this`requests
      ensures requests == old(requests) + [ContextDisconnect]
    {
      requests := requests + [ContextDisconnect];
    }

    /** info: a fresh Pending for the callback; a daemon request only for the
        two list kinds. For any other kind nothing refers to the Pending,
        so its callback never runs. */
    method Info(kind: InfoKind, callback: Value) returns (p: Pending)
      requires Valid() && IsFunction(callback)
      modifies this`requests
      ensures Valid() && fresh(p)
      ensures p.callback == callback && p.State() == PendingState(0, [], true, [])
      ensures requests == old(requests) + match kind
                                          case SourceList => [GetSourceInfoList(p)]
                                          case SinkList => [GetSinkInfoList(p)]
                                          case OtherKind(_) => []
    {
      p := new Pending(callback);
      match kind {
        case SourceList => requests := requests + [GetSourceInfoList(p)];
        case SinkList => requests := requests + [GetSinkInfoList(p)];
        case OtherKind(_) =>
      }
    }

    /** Ref, on behalf of `holder`. */
    method Ref(ghost holder: object)
      requires Valid() && holder !in holders
      modifies this`refs, this`holders
      ensures Valid() && refs == old(refs) + 1 && holders == old(holders) + {holder}
    {
      refs := refs + 1;
      holders := holders + {holder};
    }

    /** Unref, on behalf of `holder`. */
    method Unref(ghost holder: object)
      requires Valid() && holder in holders
      modifies this`refs, this`holders
      ensures Valid() && refs == old(refs) - 1 && holders == old(holders) - {holder}
    {
      refs := refs - 1;
      holders := holders - {holder};
    }
  }
}

/** Values that cross the boundary between the native addon and the
    JavaScript runtime, reduced to what the addon inspects. */
module Js {

  datatype Option<+T> = None | Some(value: T)

  /** A JavaScript value as the addon sees it. Numbers are integral here
      (the addon only reads flags, codes, rates and indices).
      `Exception(code)` stands for an Error object whose message is the
      daemon's text for error code `code`; `Func(id)` is a function
      object, told apart by its identity `id`. */
  datatype Value =
    | Undefined
    | Null
    | Bool(b: bool)
    | Num(n: int)
    | Str(s: string)
    | Func(id: nat)
    | Buf(bytes: seq<bv8>)
    | Exception(code: int)
    | Arr(items: seq<Value>)
    | Obj(fields: map<string, Value>)

  const UINT32_LIMIT: int := 0x1_0000_0000

  predicate IsFunction(v: Value) { v.Func? }

  predicate IsString(v: Value) { v.Str? }

  /** V8's IsUint32: an integral number in [0, 2^32). */
  predicate IsUint32(v: Value) { v.Num? && 0 <= v.n < UINT32_LIMIT }

  /** `args[i]` of a V8 argument list: out-of-range positions read as undefined. */
  function Arg(args: seq<Value>, i: nat): (v: Value)
    ensures i < |args| ==> v == args[i]
    ensures i >= |args| ==> v == Undefined
  {
    if i < |args| then args[i] else Undefined
  }

  /** One invocation of a JavaScript function from native code. */
  datatype Invocation = Invocation(fn: Value, args: seq<Value>)
}

/**
 * The per-call view a mixin handler works on: tolerant typed reads of the
 * hop's input, copy-on-write writes into `modifiedInput`, and the three
 * terminal decisions.
 */
module MixinContexts {
  import opened Wrappers
  import opened JsonValues
  import opened MixinResults

  /** The range of a Java `int`, to which `Number.intValue` saturates. */
  const IntMin: int := -0x8000_0000
  const IntMax: int := 0x7FFF_FFFF

  /** `base` with the writes applied in order, so the last write to a key wins. */
  function Overlay(base: Object, writes: seq<(string, Value)>): Object
    decreases |writes|
  {
    if writes == [] then base
    else
      var last := writes[|writes| - 1];
      Overlay(base, writes[..|writes| - 1])[last.0 := last.1]
  }

  /** The value of the last write to `key`, if any. */
  function LastWrite(writes: seq<(string, Value)>, key: string): Option<Value>
    decreases |writes|
  {
    if writes == [] then None
    else if writes[|writes| - 1].0 == key then Some(writes[|writes| - 1].1)
    else LastWrite(writes[..|writes| - 1], key)
  }

  /**
   * Key by key, an overlay holds the last value written to that key, or the
   * base's value when the key was never written; no other key appears.
   */
  lemma {:induction false} OverlayAt(base: Object, writes: seq<(string, Value)>, key: string)
    ensures key in Overlay(base, writes) <==> key in base || LastWrite(writes, key).Some?
    ensures LastWrite(writes, key).Some? ==> Overlay(base, writes)[key] == LastWrite(writes, key).value
    ensures LastWrite(writes, key).None? && key in base ==> Overlay(base, writes)[key] == base[key]
    decreases |writes|
  {
    if writes != [] {
      OverlayAt(base, writes[..|writes| - 1], key);
    }
  }

  /** What a handler can observe of its hop: the context's read-only fields. */
  datatype MixinView = MixinView(target: string, requestId: string, input: Object, chainData: Object)

  /** The terminal constructor a handler ends with. */
  datatype Finish = CallNext | CallReturn(data: Value) | CallError(message: Option<string>)

  /** A handler's use of its context: the `set` calls it makes, in order, then one terminal call. */
  datatype HandlerPlan = HandlerPlan(writes: seq<(string, Value)>, finish: Finish)

  /** A registered mixin handler, as a function of what it can observe. */
  type MixinHandler = MixinView -> HandlerPlan

  class MixinContext {
    const target: string
    const requestId: string
    const input: Object
    const chainData: Object
    var modifiedInput: Option<Object>
    /** The `set` calls made so far, oldest first. */
    ghost var writes: seq<(string, Value)>

    /** `modifiedInput` exists exactly once something was set, and is the input overlaid with the writes. */
    ghost predicate Valid()
      reads this
    {
      modifiedInput == if writes == [] then None else Some(Overlay(input, writes))
    }

    /** An absent input or chain data becomes the empty object. */
    constructor (target: string, requestId: string, input: Option<Object>, chainData: Option<Object>)
      ensures Valid()
      ensures this.target == target && this.requestId == requestId
      ensures this.input == (if input.Some? then input.value else map[])
      ensures this.chainData == (if chainData.Some? then chainData.value else map[])
      ensures writes == [] && modifiedInput == None
    {
      this.target := target;
      this.requestId := requestId;
      this.input := if input.Some? then input.value else map[];
      this.chainData := if chainData.Some? then chainData.value else map[];
      modifiedInput := None;
      writes := [];
    }

    /** The input's value under `key`; a missing key reads as null. */
    function Get(key: string): (v: Value)
      ensures key in input ==> v == input[key]
      ensures key !in input ==> v == Null
    {
      if key in input then input[key] else Null
    }

    /** The stored string, or "" for a missing or non-string value. */
    function GetString(key: string): (s: string)
      ensures Get(key).Str? ==> s == Get(key).s
      ensures !Get(key).Str? ==> s == ""
    {
      match Get(key)
      case Str(s) => s
      case _ => ""
    }

    /** The stored number as a Java `int` (saturated to its range), or 0 for a missing or non-numeric value. */
    function GetInt(key: string): (n: int)
      ensures IntMin <= n <= IntMax
      ensures Get(key).Num? && IntMin <= Get(key).n <= IntMax ==> n == Get(key).n
      ensures Get(key).Num? && Get(key).n > IntMax ==> n == IntMax
      ensures Get(key).Num? && Get(key).n < IntMin ==> n == IntMin
      ensures !Get(key).Num? ==> n == 0
    {
      match Get(key)
      case Num(x) => if x < IntMin then IntMin else if x > IntMax then IntMax else x
      case _ => 0
    }

    /** True only for a stored boolean `true`. */
    function GetBool(key: string): (b: bool)
      ensures b <==> Get(key) == Bool(true)
    {
      Get(key) == Bool(true)
    }

    /**
     * Copy-on-write: the first call copies `input` into a fresh `modifiedInput`;
     * every call then writes into that copy. `input` is a constant, so reads
     * through `Get` and the typed getters never see a write.
     */
    method Set(key: string, value: Value)
      requires Valid()
      modifies this
      ensures Valid()
      ensures writes == old(writes) + [(key, value)]
      ensures modifiedInput == Some((if old(modifiedInput).Some? then old(modifiedInput).value else input)[key := value])
    {
      if modifiedInput.None? {
        modifiedInput := Some(input);
      }
      modifiedInput := Some(modifiedInput.value[key := value]);
      writes := writes + [(key, value)];
      assert writes[..|writes| - 1] == old(writes);
    }

    /** Continue the chain; the modified input travels along only if something was set. */
    function Next(): (r: MixinResult)
      reads this
      requires Valid()
      ensures r.action == Action.Next && r.output == None && r.error == None && r.notifications == []
      ensures writes == [] ==> r.modifiedInput == None
      ensures writes != [] ==> r.modifiedInput == Some(Overlay(input, writes))
    {
      Make(Action.Next, None, None, modifiedInput, None)
    }

    /** Stop the chain with `data`: an object as it is, anything else wrapped as `{"result": data}`. */
    static function ReturnValue(data: Value): (r: MixinResult)
      ensures r.action == Action.Return && r.error == None && r.modifiedInput == None
      ensures r.notifications == []
      ensures data.Obj? ==> r.output == Some(data.fields)
      ensures !data.Obj? ==> r.output == Some(map["result" := data])
    {
      var output := if data.Obj? then data.fields else map["result" := data];
      Make(Action.Return, Some(output), None, None, None)
    }

    /** Abort the chain with the given (possibly absent) message. */
    static function Error(message: Option<string>): (r: MixinResult)
      ensures r.action == Action.Error && r.error == message
      ensures r.output == None && r.modifiedInput == None && r.notifications == []
    {
      Make(Action.Error, None, message, None, None)
    }
  }

  /**
   * The result a context yields when a handler follows `plan` on a hop whose
   * input is `input`: the writes land in the copy, then the terminal call.
   */
  function RunHandler(input: Object, plan: HandlerPlan): MixinResult {
    match plan.finish
    case CallNext =>
      Make(Action.Next, None, None,
           if plan.writes == [] then None else Some(Overlay(input, plan.writes)), None)
    case CallReturn(data) => MixinContext.ReturnValue(data)
    case CallError(message) => MixinContext.Error(message)
  }

  /** One `set` then `next()`: the modified input is the input with that single key replaced. */
  lemma SingleSetThenNext(input: Object, key: string, value: Value)
    ensures RunHandler(input, HandlerPlan([(key, value)], CallNext)).modifiedInput == Some(input[key := value])
  {
    var ws := [(key, value)];
    assert ws[..0] == [];
    assert Overlay(input, ws) == Overlay(input, [])[key := value];
  }

  /** A `next()` that is not preceded by a write carries no modified input. */
  lemma NextWithoutSet(input: Object)
    ensures RunHandler(input, HandlerPlan([], CallNext)) == MixinResult(Action.Next, None, None, None, [])
  {
  }
}

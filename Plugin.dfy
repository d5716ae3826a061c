/**
 * The plugin-side dispatch core: the handler registries filled during setup,
 * the readiness latch, and the five entry points the panel calls.
 */
module Plugin {
  import opened Wrappers
  import opened JsonValues
  import opened Proto
  import opened EventResults
  import opened MixinResults
  import opened MixinContexts
  import opened Routing
  import Responses

  type EventHandler = Event -> EventResult
  type RouteHandler = HTTPRequest -> Responses.Response

  /** A schedule's `Runnable`, known only by identity: what it does when run is outside the model. */
  type JobRef = nat

  datatype MixinRegistration = MixinRegistration(target: string, priority: int, handler: MixinHandler)

  // ----- Registry bookkeeping -----

  /** The handler keys the route list accounts for. */
  function RouteKeys(routes: seq<RouteInfo>): set<string>
    decreases |routes|
  {
    if routes == [] then {}
    else
      var last := routes[|routes| - 1];
      RouteKeys(routes[..|routes| - 1]) + {RouteKey(last.httpMethod, last.path)}
  }

  /** The schedule ids the schedule list accounts for. */
  function ScheduleIds(schedules: seq<ScheduleInfo>): set<string>
    decreases |schedules|
  {
    if schedules == [] then {}
    else ScheduleIds(schedules[..|schedules| - 1]) + {schedules[|schedules| - 1].id}
  }

  /** The most recent registration info for `target`, if any. */
  function LastMixin(mixins: seq<MixinInfo>, target: string): Option<MixinInfo>
    decreases |mixins|
  {
    if mixins == [] then None
    else if mixins[|mixins| - 1].target == target then Some(mixins[|mixins| - 1])
    else LastMixin(mixins[..|mixins| - 1], target)
  }

  /** Re-registering a method and path adds an info entry but no handler key: there are never more keys than entries. */
  lemma {:induction false} RouteKeysBound(routes: seq<RouteInfo>)
    ensures |RouteKeys(routes)| <= |routes|
    decreases |routes|
  {
    if routes != [] {
      RouteKeysBound(routes[..|routes| - 1]);
    }
  }

  /** Every stored route key contains the ':' the fallback scan splits at. */
  lemma {:induction false} RouteKeysHaveColon(routes: seq<RouteInfo>, key: string)
    requires key in RouteKeys(routes)
    ensures ':' in key
    decreases |routes|
  {
    var last := routes[|routes| - 1];
    if key == RouteKey(last.httpMethod, last.path) {
      assert key[|last.httpMethod|] == ':';
    } else {
      RouteKeysHaveColon(routes[..|routes| - 1], key);
    }
  }

  // ----- Wire encodings -----

  /** The 404 answer for a request no route matches. */
  const NotFound: Responses.Response := Responses.Error(404, "not found")

  /** The answer for a target this plugin has no handler for: continue, nothing set. */
  const BareNext: MixinResponse := MixinResponse(Action.Next, None, None, None, [])

  /** The handler's response as sent: status, headers and body unchanged. */
  function Render(r: Responses.Response): (resp: HTTPResponse)
    ensures resp.status == r.status && resp.headers == r.headers && resp.body == r.body
  {
    HTTPResponse(r.status, r.headers, r.body)
  }

  function ToWire(n: Notification): WireNotification {
    WireNotification(n.title, n.message, n.notificationType)
  }

  /** The notifications as sent: the same entries, field for field, in the same order. */
  function NotificationsToWire(ns: seq<Notification>): (ws: seq<WireNotification>)
    ensures |ws| == |ns|
    ensures forall i :: 0 <= i < |ns| ==>
      ws[i].title == ns[i].title && ws[i].message == ns[i].message
      && ws[i].notificationType == ns[i].notificationType
    decreases |ns|
  {
    if ns == [] then [] else NotificationsToWire(ns[..|ns| - 1]) + [ToWire(ns[|ns| - 1])]
  }

  /**
   * How a handler's result goes on the wire: the action always; the modified
   * input only for NEXT, the output only for RETURN, an error message (never
   * absent) only for ERROR; the notifications whatever the action.
   */
  function EncodeMixinResult(r: MixinResult): (resp: MixinResponse)
    ensures resp.action == r.action
    ensures resp.modifiedInput.Some? <==> r.action == Action.Next && r.modifiedInput.Some?
    ensures resp.modifiedInput.Some? ==> resp.modifiedInput == r.modifiedInput
    ensures resp.output.Some? <==> r.action == Action.Return && r.output.Some?
    ensures resp.output.Some? ==> resp.output == r.output
    ensures resp.error.Some? <==> r.action == Action.Error
    ensures r.action == Action.Error && r.error.Some? ==> resp.error == r.error
    ensures r.action == Action.Error && r.error.None? ==> resp.error == Some("")
    ensures resp.notifications == NotificationsToWire(r.notifications)
  {
    var notes := NotificationsToWire(r.notifications);
    match r.action
    case Next => MixinResponse(Action.Next, r.modifiedInput, None, None, notes)
    case Return => MixinResponse(Action.Return, None, r.output, None, notes)
    case Error => MixinResponse(Action.Error, None, None,
                                Some(if r.error.Some? then r.error.value else ""), notes)
  }

  /** A two-element JSON array whose first element is a string: one `[key, value]` entry. */
  predicate IsPair(v: Value) {
    v.Arr? && |v.items| == 2 && v.items[0].Str?
  }

  /** The key of an entry. */
  function Key(v: Value): string
    requires IsPair(v)
  {
    v.items[0].s
  }

  /** Every item is a `[key, value]` entry. */
  predicate AllPairs(items: seq<Value>) {
    forall i :: 0 <= i < |items| ==> IsPair(items[i])
  }

  /** A key repeats only after entries whose value is `null`. */
  predicate RepeatsReplaceNull(items: seq<Value>)
    requires AllPairs(items)
  {
    forall i, j :: 0 <= i < j < |items| && Key(items[i]) == Key(items[j]) ==> items[i].items[1] == Null
  }

  /**
   * The map read from an array of `[key, value]` entries, in order. An item
   * that is not such an entry fails; so does an entry whose key already holds
   * a value other than `null` (the map's `put` replaced a non-null value).
   */
  function PairsToObject(items: seq<Value>): Option<Object>
    decreases |items|
  {
    if items == [] then Some(map[])
    else
      match PairsToObject(items[..|items| - 1])
      case None => None
      case Some(m) =>
        var last := items[|items| - 1];
        if IsPair(last) && (Key(last) !in m || m[Key(last)] == Null) then Some(m[Key(last) := last.items[1]])
        else None
  }

  /** One step of the read: a read list's prefix reads too, and the last entry is put into its map. */
  lemma PairsToObjectStep(items: seq<Value>)
    requires items != [] && PairsToObject(items).Some?
    ensures PairsToObject(items[..|items| - 1]).Some? && IsPair(items[|items| - 1])
    ensures var m := PairsToObject(items[..|items| - 1]).value;
      var last := items[|items| - 1];
      && (Key(last) !in m || m[Key(last)] == Null)
      && PairsToObject(items) == Some(m[Key(last) := last.items[1]])
  {
  }

  /** No later entry has the key of entry `i`. */
  predicate IsLastEntry(items: seq<Value>, i: nat)
    requires AllPairs(items) && i < |items|
  {
    forall j :: i < j < |items| ==> Key(items[j]) != Key(items[i])
  }

  /** A successful read of entries holds every entry's key, and at most as many keys as entries. */
  lemma {:induction false} PairsToObjectEntries(items: seq<Value>)
    requires PairsToObject(items).Some?
    ensures AllPairs(items)
    ensures forall i :: 0 <= i < |items| ==> Key(items[i]) in PairsToObject(items).value
    ensures |PairsToObject(items).value| <= |items|
    decreases |items|
  {
    if items != [] {
      var init := items[..|items| - 1];
      PairsToObjectStep(items);
      PairsToObjectEntries(init);
      var m := PairsToObject(init).value;
      var last := items[|items| - 1];
      assert m[Key(last) := last.items[1]].Keys == m.Keys + {Key(last)};
      forall i | 0 <= i < |items| - 1
        ensures items[i] == init[i]
      {
      }
    }
  }

  /** In a successful read, every key holds the value of the last entry with that key, and no key comes from elsewhere. */
  lemma {:induction false} PairsToObjectLastValues(items: seq<Value>)
    requires PairsToObject(items).Some?
    ensures AllPairs(items)
    ensures var m := PairsToObject(items).value;
      forall k :: k in m ==>
        exists i: nat :: i < |items| && Key(items[i]) == k && IsLastEntry(items, i) && m[k] == items[i].items[1]
    decreases |items|
  {
    PairsToObjectEntries(items);
    if items != [] {
      var init := items[..|items| - 1];
      PairsToObjectStep(items);
      PairsToObjectLastValues(init);
      var m := PairsToObject(init).value;
      var last := items[|items| - 1];
      var r := m[Key(last) := last.items[1]];
      forall k | k in r
        ensures exists i: nat :: i < |items| && Key(items[i]) == k && IsLastEntry(items, i) && r[k] == items[i].items[1]
      {
        if k == Key(last) {
          assert IsLastEntry(items, |items| - 1);
        } else {
          var i: nat :| i < |init| && Key(init[i]) == k && IsLastEntry(init, i) && m[k] == init[i].items[1];
          assert items[i] == init[i];
          forall j | i < j < |items|
            ensures Key(items[j]) != k
          {
            if j < |items| - 1 {
              assert items[j] == init[j];
            }
          }
          assert IsLastEntry(items, i);
        }
      }
    }
  }

  /**
   * A list of entries is read exactly when every item is a `[key, value]`
   * entry and a key repeats only after entries whose value is `null`.
   */
  lemma {:induction false} PairsToObjectAccepts(items: seq<Value>)
    ensures PairsToObject(items).Some? <==> AllPairs(items) && RepeatsReplaceNull(items)
    decreases |items|
  {
    if items != [] {
      var init := items[..|items| - 1];
      var last := items[|items| - 1];
      PairsToObjectAccepts(init);
      forall i | 0 <= i < |items| - 1
        ensures items[i] == init[i]
      {
      }
      if PairsToObject(items).Some? {
        PairsToObjectStep(items);
        PairsToObjectEntries(init);
        PairsToObjectLastValues(init);
        var m := PairsToObject(init).value;
        forall i, j | 0 <= i < j < |items| && Key(items[i]) == Key(items[j])
          ensures items[i].items[1] == Null
        {
          assert items[i] == init[i];
          var k := Key(items[i]);
          if j == |items| - 1 {
            assert k in m;
            var l: nat :| l < |init| && Key(init[l]) == k && IsLastEntry(init, l) && m[k] == init[l].items[1];
            if i != l {
              assert i < l;
            }
          } else {
            assert items[j] == init[j];
          }
        }
      }
      if AllPairs(items) && RepeatsReplaceNull(items) {
        assert AllPairs(init) && RepeatsReplaceNull(init);
        PairsToObjectLastValues(init);
        var m := PairsToObject(init).value;
        var k := Key(last);
        if k in m {
          var l: nat :| l < |init| && Key(init[l]) == k && IsLastEntry(init, l) && m[k] == init[l].items[1];
          assert Key(items[l]) == Key(items[|items| - 1]);
        }
      }
    }
  }

  /**
   * Decoding a payload as a JSON object. No bytes, bytes that hold no JSON
   * value and a JSON `null` give no object. An object gives its fields; an
   * array gives the map of its `[key, value]` entries when every item is such
   * an entry and a repeated key only replaces a `null` (see
   * `PairsToObjectAccepts`). Anything else, and text that is not JSON, fails.
   */
  function DecodeObject(p: Payload): (r: Result<Option<Object>, string>)
    ensures r.Success? <==>
      p.Empty? || p.Blank?
      || (p.Document? && (p.doc.Null? || p.doc.Obj? || (p.doc.Arr? && PairsToObject(p.doc.items).Some?)))
    ensures r.Success? && r.value.None? <==> p.Empty? || p.Blank? || p == Document(Null)
    ensures p.Document? && p.doc.Obj? ==> r == Success(Some(p.doc.fields))
    ensures p.Document? && p.doc.Arr? && r.Success? ==> r.value == PairsToObject(p.doc.items)
  {
    match p
    case Empty => Success(None)
    case Blank => Success(None)
    case Malformed => Failure("malformed JSON")
    case Document(Null) => Success(None)
    case Document(Obj(fields)) => Success(Some(fields))
    case Document(Arr(items)) =>
      var m := PairsToObject(items);
      if m.Some? then Success(m) else Failure("not a map")
    case Document(_) => Failure("not a JSON object")
  }

  /**
   * The entry-list form: `[]` reads as the empty object, `[["name", "abc"]]` as
   * `{"name": "abc"}`; a repeat may replace a `null` but not another value.
   */
  lemma PairListExamples()
    ensures DecodeObject(Document(Arr([]))) == Success(Some(map[]))
    ensures DecodeObject(Document(Arr([Arr([Str("name"), Str("abc")])]))) == Success(Some(map["name" := Str("abc")]))
    ensures DecodeObject(Document(Arr([Arr([Str("a"), Null]), Arr([Str("a"), Num(1)])]))) == Success(Some(map["a" := Num(1)]))
    ensures DecodeObject(Document(Arr([Arr([Str("a"), Num(1)]), Arr([Str("a"), Num(2)])]))).Failure?
  {
    var replaced := [Arr([Str("a"), Null]), Arr([Str("a"), Num(1)])];
    assert replaced[..1] == [Arr([Str("a"), Null])];
    assert replaced[..1][..0] == [];
    assert PairsToObject(replaced[..1]) == Some(map["a" := Null]);
    assert map["a" := Null]["a" := Num(1)] == map["a" := Num(1)];
    var dup := [Arr([Str("a"), Num(1)]), Arr([Str("a"), Num(2)])];
    assert dup[..1] == [Arr([Str("a"), Num(1)])];
    assert dup[..1][..0] == [];
  }

  /** The object a decoded payload stands for: its object, or the empty map when there is none. */
  function ObjectOrEmpty(o: Option<Object>): Object {
    if o.Some? then o.value else map[]
  }

  /**
   * The view a registered handler gets for a request. It fails exactly when
   * the input fails to decode, or chain-data bytes were sent and fail to
   * decode; otherwise it carries the request's target and id, and the decoded
   * input and chain data, each the empty map when absent.
   */
  function DecodeView(request: MixinRequest): (r: Result<MixinView, string>)
    ensures r.Success? <==>
      DecodeObject(request.input).Success?
      && (request.chainData.Empty? || DecodeObject(request.chainData).Success?)
    ensures r.Success? ==>
      r.value.target == request.target && r.value.requestId == request.requestId
      && r.value.input == ObjectOrEmpty(DecodeObject(request.input).value)
    ensures r.Success? && request.chainData.Empty? ==> r.value.chainData == map[]
    ensures r.Success? && !request.chainData.Empty? ==>
      r.value.chainData == ObjectOrEmpty(DecodeObject(request.chainData).value)
  {
    match DecodeObject(request.input)
    case Failure(e) => Failure(e)
    case Success(input) =>
      var chainData := if request.chainData.Empty? then Success(None) else DecodeObject(request.chainData);
      match chainData
      case Failure(e) => Failure(e)
      case Success(chain) =>
        Success(MixinView(request.target, request.requestId,
                          if input.Some? then input.value else map[],
                          if chain.Some? then chain.value else map[]))
  }

  /** The input the panel forwards to the next hop after a NEXT: the modified input if one was sent, else the original. */
  function NextHopInput(input: Object, response: MixinResponse): Object {
    if response.modifiedInput.Some? then response.modifiedInput.value else input
  }

  // ----- Properties of one hop -----

  /**
   * Whatever a handler sets before `next()`, the next hop sees the input
   * overlaid with exactly those writes (the original input when there were none).
   */
  lemma NextHopSeesWrites(input: Object, writes: seq<(string, Value)>)
    ensures EncodeMixinResult(RunHandler(input, HandlerPlan(writes, CallNext))).action == Action.Next
    ensures NextHopInput(input, EncodeMixinResult(RunHandler(input, HandlerPlan(writes, CallNext)))) == Overlay(input, writes)
  {
  }

  /** A `next()` without any `set` sends no modified input at all. */
  lemma NextWithoutSetSendsNoInput(input: Object)
    ensures EncodeMixinResult(RunHandler(input, HandlerPlan([], CallNext))) == BareNext
  {
  }

  /** `returnValue` always puts an output object on the wire: the map itself, or `{"result": data}`. */
  lemma ReturnAlwaysSendsOutput(input: Object, writes: seq<(string, Value)>, data: Value)
    ensures var resp := EncodeMixinResult(RunHandler(input, HandlerPlan(writes, CallReturn(data))));
      && resp.action == Action.Return && resp.modifiedInput == None && resp.error == None
      && resp.output == Some(if data.Obj? then data.fields else map["result" := data])
  {
  }

  /** `error(m)` sends ERROR with `m`, or "" for an absent message, and discards any writes. */
  lemma ErrorSendsMessage(input: Object, writes: seq<(string, Value)>, message: Option<string>)
    ensures var resp := EncodeMixinResult(RunHandler(input, HandlerPlan(writes, CallError(message))));
      && resp.action == Action.Error && resp.modifiedInput == None && resp.output == None
      && resp.error == Some(if message.Some? then message.value else "")
  {
  }

  /** The renaming example: input `{"name": "abc"}`, one write of "ABC", then `next()`. */
  lemma RenameExample()
    ensures var input := map["name" := Str("abc")];
      EncodeMixinResult(RunHandler(input, HandlerPlan([("name", Str("ABC"))], CallNext))).modifiedInput
        == Some(map["name" := Str("ABC")])
  {
    var input := map["name" := Str("abc")];
    SingleSetThenNext(input, "name", Str("ABC"));
    assert input["name" := Str("ABC")] == map["name" := Str("ABC")];
  }

  // ----- The plugin -----

  class BirdactylPlugin {
    const id: string
    var name: string
    const version: string
    var eventHandlers: map<string, EventHandler>
    var routeHandlers: map<string, RouteHandler>
    var scheduleHandlers: map<string, JobRef>
    var mixinHandlers: map<string, MixinRegistration>
    var routes: seq<RouteInfo>
    var schedules: seq<ScheduleInfo>
    var mixins: seq<MixinInfo>
    /** The count of a one-shot countdown latch started at 1. */
    var readyLatch: nat

    /**
     * The handler maps hold exactly the keys the info lists account for; a
     * target's registration carries the priority of its latest info entry;
     * the latch never exceeds its initial count.
     */
    ghost predicate Valid()
      reads this
    {
      && readyLatch <= 1
      && routeHandlers.Keys == RouteKeys(routes)
      && scheduleHandlers.Keys == ScheduleIds(schedules)
      && (forall t :: t in mixinHandlers <==> LastMixin(mixins, t).Some?)
      && (forall t :: t in mixinHandlers ==>
            mixinHandlers[t].target == t && mixinHandlers[t].priority == LastMixin(mixins, t).value.priority)
    }

    /** True once the latch has reached zero: the panel has asked for the plugin's info. */
    predicate IsReady()
      reads this
    {
      readyLatch == 0
    }

    constructor (id: string, version: string)
      ensures Valid()
      ensures this.id == id && this.version == version && name == id
      ensures eventHandlers == map[] && routeHandlers == map[] && scheduleHandlers == map[]
      ensures mixinHandlers == map[]
      ensures routes == [] && schedules == [] && mixins == []
      ensures readyLatch == 1 && !IsReady()
    {
      this.id := id;
      this.version := version;
      name := id;
      eventHandlers, routeHandlers, scheduleHandlers, mixinHandlers := map[], map[], map[], map[];
      routes, schedules, mixins := [], [], [];
      readyLatch := 1;
    }

    method SetName(n: string)
      modifies this`name
      ensures name == n
    {
      name := n;
    }

    /** Register (or replace) the handler for an event type. */
    method OnEvent(eventType: string, handler: EventHandler)
      requires Valid()
      modifies this`eventHandlers
      ensures Valid()
      ensures eventHandlers == old(eventHandlers)[eventType := handler]
    {
      eventHandlers := eventHandlers[eventType := handler];
    }

    /** Register a route: the handler goes under `method:path`, replacing any earlier one; the info list always grows by one. */
    method Route(httpMethod: string, path: string, handler: RouteHandler)
      requires Valid()
      modifies this`routeHandlers, this`routes
      ensures Valid()
      ensures routeHandlers == old(routeHandlers)[RouteKey(httpMethod, path) := handler]
      ensures routes == old(routes) + [RouteInfo(httpMethod, path)]
    {
      var key := RouteKey(httpMethod, path);
      routeHandlers := routeHandlers[key := handler];
      routes := routes + [RouteInfo(httpMethod, path)];
      assert routes[..|routes| - 1] == old(routes);
      assert RouteKeys(routes) == RouteKeys(old(routes)) + {key};
    }

    /** Register a scheduled job; the cron expression is only reported to the panel. */
    method Schedule(scheduleId: string, cron: string, handler: JobRef)
      requires Valid()
      modifies this`scheduleHandlers, this`schedules
      ensures Valid()
      ensures scheduleHandlers == old(scheduleHandlers)[scheduleId := handler]
      ensures schedules == old(schedules) + [ScheduleInfo(scheduleId, cron)]
    {
      scheduleHandlers := scheduleHandlers[scheduleId := handler];
      schedules := schedules + [ScheduleInfo(scheduleId, cron)];
      assert schedules[..|schedules| - 1] == old(schedules);
    }

    /** Register a mixin with the default priority 0. */
    method Mixin(target: string, handler: MixinHandler)
      requires Valid()
      modifies this`mixinHandlers, this`mixins
      ensures Valid()
      ensures mixinHandlers == old(mixinHandlers)[target := MixinRegistration(target, 0, handler)]
      ensures mixins == old(mixins) + [MixinInfo(target, 0)]
    {
      MixinWithPriority(target, 0, handler);
    }

    /** Register a mixin: last write wins per target, while the info list grows by one on every call. */
    method MixinWithPriority(target: string, priority: int, handler: MixinHandler)
      requires Valid()
      modifies this`mixinHandlers, this`mixins
      ensures Valid()
      ensures mixinHandlers == old(mixinHandlers)[target := MixinRegistration(target, priority, handler)]
      ensures mixins == old(mixins) + [MixinInfo(target, priority)]
    {
      mixinHandlers := mixinHandlers[target := MixinRegistration(target, priority, handler)];
      mixins := mixins + [MixinInfo(target, priority)];
      assert mixins[..|mixins| - 1] == old(mixins);
    }

    /** Report identity and registrations, and count the readiness latch down (it stays at zero). */
    method GetInfo() returns (info: PluginInfo)
      requires Valid()
      modifies this`readyLatch
      ensures Valid() && IsReady()
      ensures info == PluginInfo(id, name, version, eventHandlers.Keys, routes, schedules, mixins)
    {
      info := PluginInfo(id, name, version, eventHandlers.Keys, routes, schedules, mixins);
      if readyLatch > 0 {
        readyLatch := readyLatch - 1;
      }
    }

    /** Dispatch an event: the registered handler's decision, or allow with "" when there is none. */
    method HandleEvent(request: EventRequest) returns (response: EventResponse)
      ensures request.eventType !in eventHandlers ==> response == EventResponse(true, "")
      ensures request.eventType in eventHandlers ==>
        var decision := eventHandlers[request.eventType](Event(request.eventType, request.data, request.sync));
        response.allow == decision.allowed && response.message == decision.GetMessage()
    {
      var result := Allow();
      if request.eventType in eventHandlers {
        result := eventHandlers[request.eventType](Event(request.eventType, request.data, request.sync));
      }
      response := EventResponse(result.allowed, result.GetMessage());
    }

    /**
     * Dispatch an HTTP call: the exact key first; otherwise some stored route
     * whose method part and path pattern match (the scan order of the handler
     * map is unspecified); otherwise 404.
     */
    method OnHTTP(request: HTTPRequest) returns (response: HTTPResponse)
      requires Valid()
      ensures forall key :: key in routeHandlers ==> ':' in key
      ensures RouteKey(request.httpMethod, request.path) in routeHandlers ==>
        response == Render(routeHandlers[RouteKey(request.httpMethod, request.path)](request))
      ensures (RouteKey(request.httpMethod, request.path) !in routeHandlers
        && exists key :: key in routeHandlers && RouteMatches(key, request.httpMethod, request.path)) ==>
        exists key :: key in routeHandlers && RouteMatches(key, request.httpMethod, request.path)
          && response == Render(routeHandlers[key](request))
      ensures (RouteKey(request.httpMethod, request.path) !in routeHandlers
        && forall key :: key in routeHandlers ==> !RouteMatches(key, request.httpMethod, request.path)) ==>
        response == Render(NotFound)
    {
      // Every stored key was built by RouteKey, so the split in the scan always finds a ':'.
      forall key | key in routeHandlers
        ensures ':' in key
      {
        RouteKeysHaveColon(routes, key);
      }
      var handler: Option<RouteHandler> := None;
      var exact := RouteKey(request.httpMethod, request.path);
      if exact in routeHandlers {
        handler := Some(routeHandlers[exact]);
      } else {
        ghost var chosen: string;
        var remaining := routeHandlers.Keys;
        while remaining != {}
          invariant remaining <= routeHandlers.Keys
          invariant forall key :: key in routeHandlers ==> ':' in key
          invariant handler == None
          invariant forall key :: key in routeHandlers && key !in remaining ==>
            !RouteMatches(key, request.httpMethod, request.path)
          decreases |remaining|
        {
          var key :| key in remaining;
          if RouteMatches(key, request.httpMethod, request.path) {
            handler := Some(routeHandlers[key]);
            chosen := key;
            break;
          }
          remaining := remaining - {key};
        }
        assert handler.Some? ==>
          (chosen in routeHandlers && RouteMatches(chosen, request.httpMethod, request.path)
           && handler.value == routeHandlers[chosen]);
      }
      var resp := if handler.Some? then handler.value(request) else NotFound;
      response := Render(resp);
    }

    /** Fire a scheduled job: the registered job runs iff there is one; the call is acknowledged either way. */
    method OnSchedule(request: ScheduleRequest) returns (fired: Option<JobRef>)
      ensures fired.Some? <==> request.scheduleId in scheduleHandlers
      ensures fired.Some? ==> fired.value == scheduleHandlers[request.scheduleId]
    {
      fired := None;
      if request.scheduleId in scheduleHandlers {
        fired := Some(scheduleHandlers[request.scheduleId]);
      }
    }

    /**
     * The response for a handler's result: the switch on its action, then the
     * notifications copied one by one.
     */
    method EncodeResult(result: MixinResult) returns (response: MixinResponse)
      ensures response == EncodeMixinResult(result)
    {
      var modifiedInput: Option<Object> := None;
      var output: Option<Object> := None;
      var error: Option<string> := None;
      match result.action {
        case Next =>
          if result.modifiedInput.Some? {
            modifiedInput := result.modifiedInput;
          }
        case Return =>
          if result.output.Some? {
            output := result.output;
          }
        case Error =>
          error := Some(if result.error.Some? then result.error.value else "");
      }

      var notes: seq<WireNotification> := [];
      var j := 0;
      while j < |result.notifications|
        invariant 0 <= j <= |result.notifications|
        invariant notes == NotificationsToWire(result.notifications[..j])
      {
        assert result.notifications[..j + 1][..j] == result.notifications[..j];
        notes := notes + [ToWire(result.notifications[j])];
        j := j + 1;
      }
      assert result.notifications[..j] == result.notifications;

      response := MixinResponse(result.action, modifiedInput, output, error, notes);
    }

    /**
     * One mixin hop. An unregistered target is answered NEXT without looking
     * at the payloads. Otherwise the payloads are decoded (a bad one fails the
     * call), the handler's writes are replayed on a fresh context, its terminal
     * call gives the result, and the result is encoded.
     */
    method OnMixin(request: MixinRequest) returns (response: Result<MixinResponse, string>)
      ensures request.target !in mixinHandlers ==> response == Success(BareNext)
      ensures request.target in mixinHandlers && DecodeView(request).Failure? ==> response.Failure?
      ensures request.target in mixinHandlers && DecodeView(request).Success? ==>
        var view := DecodeView(request).value;
        response == Success(EncodeMixinResult(RunHandler(view.input, mixinHandlers[request.target].handler(view))))
    {
      if request.target !in mixinHandlers {
        return Success(BareNext);
      }
      var registration := mixinHandlers[request.target];

      var input := DecodeObject(request.input);
      if input.Failure? {
        return Failure(input.error);
      }
      var chainData: Option<Object> := None;
      if !request.chainData.Empty? {
        var decoded := DecodeObject(request.chainData);
        if decoded.Failure? {
          return Failure(decoded.error);
        }
        chainData := decoded.value;
      }

      var ctx := new MixinContext(request.target, request.requestId, input.value, chainData);
      var view := MixinView(ctx.target, ctx.requestId, ctx.input, ctx.chainData);
      assert view == DecodeView(request).value;
      var plan := registration.handler(view);

      var i := 0;
      while i < |plan.writes|
        invariant 0 <= i <= |plan.writes|
        invariant ctx.Valid()
        invariant ctx.writes == plan.writes[..i]
      {
        ctx.Set(plan.writes[i].0, plan.writes[i].1);
        i := i + 1;
      }
      assert plan.writes[..i] == plan.writes;

      var result: MixinResult;
      match plan.finish {
        case CallNext => result := ctx.Next();
        case CallReturn(data) => result := MixinContext.ReturnValue(data);
        case CallError(message) => result := MixinContext.Error(message);
      }

      var encoded := EncodeResult(result);
      response := Success(encoded);
    }
  }
}

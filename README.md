# Birdactyl plugin SDK: dispatch core

A Dafny model of the plugin side of the Birdactyl SDK: the part of a plugin
that the panel calls into. It covers

- the **handler registry** of `BirdactylPlugin`: four selector-to-handler maps
  (events, routes, schedules, mixins), the info lists reported back to the
  panel, and the one-shot readiness latch;
- the five **entry points**: `getInfo`, `onEvent`, `onHTTP`, `onSchedule` and
  `onMixin`, each with its default for a missing handler (allow with "",
  404, silent acknowledgement, bare `NEXT`);
- the **route matcher**: the exact `method:path` lookup, then a scan of the
  route map for a key whose method part (text before the first ':') is `*`
  or the request method and whose path pattern matches (`matchPath`: equality,
  or a prefix test for a pattern ending in `*`);
- the **mixin protocol**: `MixinContext` (tolerant typed getters, copy-on-write
  `set`, `next`/`returnValue`/`error`), `MixinResult`, and the encoding of a
  result into the response;
- the result values `EventResult` and `Response`.

Modules, one per source file or component:

| module | models |
|---|---|
| `Wrappers` | `Option` for Java's `null`, `Result` for calls that fail |
| `JsonValues` | decoded JSON values (string, number, bool, null, list, object) |
| `Utf8` | the UTF-8 encoding used for text and HTML bodies, with a strict decoder |
| `EventResults` | `EventResult.java`, and the `Event` view a handler receives |
| `Responses` | `Response.java` |
| `MixinResults` | `MixinResult.java` |
| `MixinContexts` | `MixinContext.java`, and how a handler uses a context |
| `Routing` | `matchPath` and the route-key split of `BirdactylPlugin.java` |
| `Proto` | the request and response messages of the plugin service |
| `Plugin` | `BirdactylPlugin.java`: registry, latch, entry points, encodings |

How the model stands in for what it cannot see:

- Event and route handlers are function values. A schedule's `Runnable` is an
  opaque `JobRef`; `OnSchedule` returns which job it fired.
- A mixin handler is a function from what it can observe (target, request id,
  input, chain data) to a `HandlerPlan`: the `set` calls it makes, in order,
  then the one terminal call (`next`, `returnValue`, `error`) whose result it
  returns. `OnMixin` builds a real `MixinContext` and replays the plan on it.
- Mixin payloads arrive already decoded (`Payload`): no bytes (`Empty`),
  bytes that hold no JSON value (`Blank`: only whitespace, or comments,
  which Gson's lenient reader skips), malformed text, or a JSON document.
  Gson's map decoding reads the first two and `null` as no map, an object as
  its fields, and an array of `[key, value]` entries as the map of those
  entries (`[]` is the empty map). A repeated key fails unless every earlier
  value under it was `null`, because the map's `put` must not replace a
  non-null value. Any other document fails the call.
- A JSON response body is kept as the document given to the serializer; text
  and HTML bodies are real UTF-8 bytes.

Notes on the source:

- The fallback route scan iterates a `ConcurrentHashMap`, whose order is not
  registration order. The model follows the code: the scan picks keys in an
  arbitrary order, and `OnHTTP` promises only that any handler it picks
  matches, and that the 404 default is taken when nothing matches. It does not
  promise that the first-registered route wins.
- `MixinContext` calls a four-argument `MixinResult` constructor
  (`MixinContext.java:51`, `:61`, `:65`), but only a five-argument one exists
  (`MixinResult.java:16`). The model reads those calls as passing no
  notification list, which the constructor turns into the empty list.
- Route keys are `method + ":" + path`, so a method that itself contains ':'
  makes two different registrations share one key (`Routing.RouteKeysCollide`)
  and splits inside the method during the scan
  (`Routing.SplitKeyOfColonMethod`). HTTP methods never contain ':', so this
  is recorded as a property, not as a defect.
- Because the `MixinResult` constructor is package-private and no code in the
  package passes a notification list, handlers cannot attach notifications in
  practice; the encoder still copies whatever list a result holds.

## Model

| member | source | states |
|---|---|---|
| `Plugin.BirdactylPlugin.constructor` | src/main/java/io/birdactyl/sdk/BirdactylPlugin.java:45-49 | the name starts as the id; every registry and info list starts empty; the latch starts closed at count 1 |
| `Plugin.BirdactylPlugin.SetName` | src/main/java/io/birdactyl/sdk/BirdactylPlugin.java:51-54 | only the display name changes, to the given one |
| `Plugin.BirdactylPlugin.OnEvent` | src/main/java/io/birdactyl/sdk/BirdactylPlugin.java:71-73 | the event handler is added or replaced under its type; nothing else changes |
| `Plugin.BirdactylPlugin.Route` | src/main/java/io/birdactyl/sdk/BirdactylPlugin.java:75-78 | the handler is stored under `method:path`, replacing an earlier one for the same method and path, and exactly one `RouteInfo` is appended even for a repeat; the registry invariant is kept |
| `Plugin.BirdactylPlugin.Schedule` | src/main/java/io/birdactyl/sdk/BirdactylPlugin.java:80-83 | the job is stored under its id (last write wins) and exactly one `ScheduleInfo` with the cron text is appended |
| `Plugin.BirdactylPlugin.Mixin` | src/main/java/io/birdactyl/sdk/BirdactylPlugin.java:85-87 | the three-argument form registers with priority 0 |
| `Plugin.BirdactylPlugin.MixinWithPriority` | src/main/java/io/birdactyl/sdk/BirdactylPlugin.java:89-92 | last write wins per target in the handler map, while the info list grows by exactly one per call; the stored priority is always that of the target's latest info entry |
| `Plugin.BirdactylPlugin.GetInfo` | src/main/java/io/birdactyl/sdk/BirdactylPlugin.java:196-210 | reports id, name, version, the event types and the three info lists, and leaves the latch at zero whether or not it was already open |
| `Plugin.BirdactylPlugin.HandleEvent` | src/main/java/io/birdactyl/sdk/BirdactylPlugin.java:212-221 | with no handler for the type the answer is allow with ""; with one, the answer is that handler's decision and its null-safe message |
| `Plugin.BirdactylPlugin.OnHTTP` | src/main/java/io/birdactyl/sdk/BirdactylPlugin.java:223-249 | in a consistent registry every stored key holds the ':' the scan splits at, so the split never fails; the exact `method:path` handler when registered; otherwise, if some stored route matches, the answer comes from a matching one; if none matches, the answer is `error(404, "not found")` |
| `Plugin.BirdactylPlugin.OnSchedule` | src/main/java/io/birdactyl/sdk/BirdactylPlugin.java:251-259 | the registered job runs if and only if one exists for the id, and it is that job |
| `Plugin.BirdactylPlugin.OnMixin` | src/main/java/io/birdactyl/sdk/BirdactylPlugin.java:261-313 | an unregistered target gets a bare `NEXT` whatever the payloads; for a registered one a payload that does not decode to an object fails the call, and otherwise the answer is the encoding of `MixinContexts.RunHandler`: the result the context yields after the handler's `set` calls and its terminal call (`MixinContext.java:43-66`), that is NEXT with the input overlaid by the writes when any were made, or the `returnValue`/`error` result |
| `Plugin.BirdactylPlugin.EncodeResult` | src/main/java/io/birdactyl/sdk/BirdactylPlugin.java:282-309 | the switch and the notification loop produce exactly the response `EncodeMixinResult` describes |
| `Plugin.EncodeMixinResult` | src/main/java/io/birdactyl/sdk/BirdactylPlugin.java:284-309 | the action is kept; `modifiedInput` is sent iff the action is NEXT and one exists, `output` iff RETURN and one exists, an error iff ERROR (the message, or "" when absent); notifications are copied whatever the action |
| `Plugin.NotificationsToWire` | src/main/java/io/birdactyl/sdk/BirdactylPlugin.java:303-309 | every notification is copied, in order, with the same title, message and type |
| `Plugin.DecodeObject` | src/main/java/io/birdactyl/sdk/BirdactylPlugin.java:273-277 | decoding succeeds exactly for no bytes, bytes with no JSON value, JSON null, JSON objects and arrays of `[key, value]` entries that the entry read accepts; it gives no map exactly for the first three; an object gives its own fields, an entry list the map of its entries |
| `Plugin.PairsToObjectAccepts` | src/main/java/io/birdactyl/sdk/BirdactylPlugin.java:273-277 | an entry list is read if and only if every item is a `[string, value]` pair and a key repeats only after entries whose value is `null` |
| `Plugin.PairsToObjectEntries` | src/main/java/io/birdactyl/sdk/BirdactylPlugin.java:273-277 | a successfully read entry list holds every entry's key, and has at most as many keys as entries |
| `Plugin.PairsToObjectLastValues` | src/main/java/io/birdactyl/sdk/BirdactylPlugin.java:273-277 | in a successfully read entry list every key comes from an entry and holds the value of the last entry with that key |
| `Plugin.PairListExamples` | src/main/java/io/birdactyl/sdk/BirdactylPlugin.java:273 | `[]` reads as the empty map, `[["name","abc"]]` as `{"name":"abc"}`, `[["a",null],["a",1]]` as `{"a":1}`, and `[["a",1],["a",2]]` fails |
| `Plugin.DecodeView` | src/main/java/io/birdactyl/sdk/BirdactylPlugin.java:273-279 | fails exactly when the input fails to decode or chain-data bytes were sent and fail to decode; otherwise carries the request's target and id and the decoded input and chain data, each the empty map when absent (chain data is not decoded when no bytes were sent) |
| `Plugin.Render` | src/main/java/io/birdactyl/sdk/BirdactylPlugin.java:243-247 | the HTTP answer carries the handler response's status, headers and body unchanged |
| `Plugin.RouteKeysBound` | src/main/java/io/birdactyl/sdk/BirdactylPlugin.java:75-78 | the route map never has more keys than the info list has entries, since a repeat adds an entry but no key |
| `Plugin.RouteKeysHaveColon` | src/main/java/io/birdactyl/sdk/BirdactylPlugin.java:228-229 | every stored route key contains the ':' the scan splits at, so the split always has two parts |
| `Plugin.NextHopSeesWrites` | src/main/java/io/birdactyl/sdk/BirdactylPlugin.java:285-290 | after any writes and `next()`, the input the next hop receives is the original input overlaid with exactly those writes |
| `Plugin.NextWithoutSetSendsNoInput` | src/main/java/io/birdactyl/sdk/MixinContext.java:50-52 | `next()` with no `set` puts a bare `NEXT` on the wire, the same as an unregistered target |
| `Plugin.ReturnAlwaysSendsOutput` | src/main/java/io/birdactyl/sdk/MixinContext.java:54-62 | a `returnValue` always sends RETURN with an output object: the map itself, or `{"result": data}` for anything else including null |
| `Plugin.ErrorSendsMessage` | src/main/java/io/birdactyl/sdk/BirdactylPlugin.java:297-300 | `error(m)` sends ERROR with `m`, or "" when `m` is null, and drops any writes |
| `Plugin.RenameExample` | src/main/java/io/birdactyl/sdk/MixinContext.java:43-52 | input `{"name": "abc"}`, one `set("name", "ABC")` and `next()` send `modifiedInput` `{"name": "ABC"}` |
| `Routing.IndexOf` | src/main/java/io/birdactyl/sdk/BirdactylPlugin.java:228 | the index found holds the character and no earlier position does |
| `Routing.SplitKey` | src/main/java/io/birdactyl/sdk/BirdactylPlugin.java:228 | the two parts rebuild the key around one ':' and the first part holds no ':' |
| `Routing.SplitRouteKey` | src/main/java/io/birdactyl/sdk/BirdactylPlugin.java:75 | for a method without ':', splitting its route key gives back exactly the method and the path |
| `Routing.SplitKeyOfColonMethod` | src/main/java/io/birdactyl/sdk/BirdactylPlugin.java:228-229 | for a method with ':', the scan's method part differs from the registered method |
| `Routing.RouteKeysCollide` | src/main/java/io/birdactyl/sdk/BirdactylPlugin.java:76 | two different method/path pairs can produce the same route key |
| `Routing.ExactRouteMatches` | src/main/java/io/birdactyl/sdk/BirdactylPlugin.java:225-229 | a route registered for a method without ':' and a path also passes the scan's test for that method and path |
| `Routing.RouteKey` | src/main/java/io/birdactyl/sdk/BirdactylPlugin.java:75 | the stored key is the method, one ':' and the path, in that order |
| `Routing.MatchPath` | src/main/java/io/birdactyl/sdk/BirdactylPlugin.java:322-328 | an equal pattern always matches; a pattern not ending in `*` matches exactly the path equal to it; one ending in `*` matches exactly itself and the paths that start with it minus the `*` |
| `Routing.RouteMatches` | src/main/java/io/birdactyl/sdk/BirdactylPlugin.java:228-229 | a stored key (which must hold a ':', as `parts[1]` is read) passes the scan's test if and only if it is the key of a registration whose method has no ':', is `*` or the request's method, and whose pattern matches the request path |
| `Routing.KeySplitsOneWay` | src/main/java/io/birdactyl/sdk/BirdactylPlugin.java:228 | the key of a method without ':' splits back into exactly that method and path, whatever other split one might try |
| `Routing.WildcardMatchesExtensions` | src/main/java/io/birdactyl/sdk/BirdactylPlugin.java:324-326 | `prefix*` matches a path if and only if the path is the pattern itself or starts with `prefix` |
| `Routing.FilesExample` | src/main/java/io/birdactyl/sdk/BirdactylPlugin.java:322-328 | `/files/*` matches `/files/` and `/files/a/b` and does not match `/file` |
| `MixinContexts.MixinContext.constructor` | src/main/java/io/birdactyl/sdk/MixinContext.java:13-18 | a null input or chain data becomes the empty object; nothing has been set yet and there is no modified input |
| `MixinContexts.MixinContext.Get` | src/main/java/io/birdactyl/sdk/MixinContext.java:25 | the input's value under the key, null for a missing key |
| `MixinContexts.MixinContext.GetString` | src/main/java/io/birdactyl/sdk/MixinContext.java:27-30 | the stored string, or "" for a missing or non-string value |
| `MixinContexts.MixinContext.GetInt` | src/main/java/io/birdactyl/sdk/MixinContext.java:32-36 | always a 32-bit int: the stored number when in range, saturated otherwise, 0 for a missing or non-numeric value |
| `MixinContexts.MixinContext.GetBool` | src/main/java/io/birdactyl/sdk/MixinContext.java:38-41 | true exactly when the stored value is the boolean true |
| `MixinContexts.MixinContext.Set` | src/main/java/io/birdactyl/sdk/MixinContext.java:43-48 | the first call copies the input before writing, later calls write into that copy; the input is never changed, so the getters never see a write |
| `MixinContexts.MixinContext.Next` | src/main/java/io/birdactyl/sdk/MixinContext.java:50-52 | NEXT with no output or error; no modified input if nothing was set, otherwise the input overlaid with all writes |
| `MixinContexts.MixinContext.ReturnValue` | src/main/java/io/birdactyl/sdk/MixinContext.java:54-62 | RETURN with a present output: a map as given, anything else (null too) as `{"result": value}` |
| `MixinContexts.MixinContext.Error` | src/main/java/io/birdactyl/sdk/MixinContext.java:64-66 | ERROR with the message as given and no output or modified input |
| `MixinContexts.OverlayAt` | src/main/java/io/birdactyl/sdk/MixinContext.java:43-48 | after a sequence of writes, each key holds its last written value, an unwritten key keeps the input's value, and no other key appears |
| `MixinContexts.SingleSetThenNext` | src/main/java/io/birdactyl/sdk/MixinContext.java:43-52 | one `set(k, v)` then `next()` yields the input with only `k` replaced by `v` |
| `MixinContexts.NextWithoutSet` | src/main/java/io/birdactyl/sdk/MixinContext.java:50-52 | `next()` without a `set` yields NEXT with nothing else |
| `MixinResults.Make` | src/main/java/io/birdactyl/sdk/MixinResult.java:16-22 | action, output, error and modified input are stored unchanged; an absent notification list becomes the empty list |
| `EventResults.Allow` | src/main/java/io/birdactyl/sdk/EventResult.java:12-14 | allowed, with message "" |
| `EventResults.Block` | src/main/java/io/birdactyl/sdk/EventResult.java:16-18 | not allowed, with the given message |
| `EventResults.EventResult.GetMessage` | src/main/java/io/birdactyl/sdk/EventResult.java:21 | never absent: the stored message, or "" when there is none |
| `EventResults.BlockMessage` | src/main/java/io/birdactyl/sdk/EventResult.java:16-21 | a block keeps its message, and `block(null)` is still a block that reads as "" |
| `Responses.Json` | src/main/java/io/birdactyl/sdk/Response.java:20-27 | status 200, a single `Content-Type: application/json` header, body `{success: true, data: d}` |
| `Responses.Error` | src/main/java/io/birdactyl/sdk/Response.java:29-36 | the given status, a single `Content-Type: application/json` header, body `{success: false, error: m}` |
| `Responses.Text` | src/main/java/io/birdactyl/sdk/Response.java:38-42 | status 200, a single `Content-Type: text/plain` header, a body that decodes as UTF-8 back to exactly the text |
| `Responses.Html` | src/main/java/io/birdactyl/sdk/Response.java:44-48 | status 200, a single `Content-Type: text/html; charset=utf-8` header, a body that decodes as UTF-8 back to exactly the page |
| `Utf8.EncodeChar` | src/main/java/io/birdactyl/sdk/Response.java:41 | one to four bytes per character, one byte exactly for ASCII, continuation bytes after the first |
| `Utf8.Encode` | src/main/java/io/birdactyl/sdk/Response.java:41 | between one and four bytes per character |
| `Utf8.DecodeEncode` | src/main/java/io/birdactyl/sdk/Response.java:38-48 | every string decodes back from its UTF-8 bytes |
| `Utf8.EncodeAscii` | src/main/java/io/birdactyl/sdk/Response.java:38-42 | ASCII text encodes to its character codes, one byte each |

## Left out

- Process bootstrap (`start`, `BirdactylPlugin.java:140-194`): argument parsing, data directory, channel and server construction, waiting on the latch, the start callback and the shutdown hook. The latch is modelled only as the count `GetInfo` brings to 0.
- The `shutdown` entry point: it only prints and acknowledges.
- Gson: payloads arrive already decoded and JSON bodies stay documents; the serialized bytes (and the serializer's dropping of null fields) are not modelled.
- `MixinContexts.MixinContext.GetInt`: numbers are integers; fractional numbers, NaN and the precision of doubles are not modelled.
- Handler faults: handlers are total functions, so a handler that throws, and the failure of only its own call, is not modelled; neither is what a scheduled job does when it runs.
- Aliasing in the mixin context: a `set` made after `next()` would show in the returned result when a copy already existed, `returnValue` hands back the caller's own map, `getInput()` and `getChainData()` (`MixinContext.java:22-23`) hand the handler the live maps, which it may mutate (a later `set` then copies those changes, and `get` sees them), and a handler could return a result taken from another context; a plan (writes, then one terminal call) over read-only views cannot express these.
- `Plugin.DecodeObject`: an entry list whose keys are not strings (Gson would keep number or boolean keys) fails here. JSON object text with a repeated key cannot be expressed, since a decoded document's fields form a map. Gson rejects such text unless the earlier value was `null`, and then keeps the last value.
- `Responses.Error`: the message is a string; `error(status, null)` is not modelled.
- Java strings may hold unpaired surrogates, which `getBytes` replaces with '?'; characters here are Unicode scalar values.
- `registerMixin` and `registerMixins` (reflection and annotations); they end in the same call as `Plugin.BirdactylPlugin.MixinWithPriority`.
- The outbound panel clients (`PanelAPI`, `PanelAPIAsync`), `HotConfig`, `ConsoleStream`, `streamConsole`, `console`, the data directory accessors and the `MixinTargets` constants: collaborators outside the dispatch core.
- Concurrency: the registry maps are sequential maps; the thread safety of `ConcurrentHashMap` and concurrent calls are not modelled.
- `Event.get` and `Request.json`: read-only views; handlers receive the same data as datatype fields.

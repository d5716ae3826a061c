/**
 * The messages exchanged with the panel, as the plugin service's protocol
 * defines them. Optional payload fields that may be left unset are `Option`s.
 */
module Proto {
  import opened Wrappers
  import opened JsonValues
  import Utf8
  import Responses
  import MixinResults

  datatype RouteInfo = RouteInfo(httpMethod: string, path: string)
  datatype ScheduleInfo = ScheduleInfo(id: string, cron: string)
  datatype MixinInfo = MixinInfo(target: string, priority: int)

  /** What the plugin declares about itself; event types come from a key set, so they are unordered. */
  datatype PluginInfo = PluginInfo(
    id: string, name: string, version: string,
    events: set<string>, routes: seq<RouteInfo>, schedules: seq<ScheduleInfo>, mixins: seq<MixinInfo>)

  datatype EventRequest = EventRequest(eventType: string, data: map<string, string>, sync: bool)
  datatype EventResponse = EventResponse(allow: bool, message: string)

  /** An inbound HTTP call; route handlers see the same fields through their request view. */
  datatype HTTPRequest = HTTPRequest(
    httpMethod: string, path: string, headers: map<string, string>, query: map<string, string>,
    body: seq<Utf8.byte>, userId: string)
  datatype HTTPResponse = HTTPResponse(status: int, headers: map<string, string>, body: Responses.Body)

  datatype ScheduleRequest = ScheduleRequest(scheduleId: string)

  /**
   * A serialized JSON payload: no bytes at all, bytes that hold no JSON value
   * (only whitespace or comments, which the lenient reader skips), text that
   * is not well-formed JSON, or the text of a JSON document (given here
   * already decoded).
   */
  datatype Payload = Empty | Blank | Malformed | Document(doc: Value)

  datatype MixinRequest = MixinRequest(target: string, requestId: string, input: Payload, chainData: Payload)

  datatype WireNotification = WireNotification(title: string, message: string, notificationType: string)

  datatype MixinResponse = MixinResponse(
    action: MixinResults.Action,
    modifiedInput: Option<Object>,
    output: Option<Object>,
    error: Option<string>,
    notifications: seq<WireNotification>)
}

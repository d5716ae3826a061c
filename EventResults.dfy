/** The decision an event handler returns, and the event view it receives. */
module EventResults {
  import opened Wrappers

  /** The read-only event a handler is given: its type, its data and whether the panel waits for it. */
  datatype Event = Event(eventType: string, data: map<string, string>, sync: bool)

  /**
   * An allow/block decision. The message may be absent, which is what
   * `block(null)` leaves behind.
   */
  datatype EventResult = EventResult(allowed: bool, message: Option<string>) {

    /** The message as the panel sees it: never absent, an absent one reads as "". */
    function GetMessage(): (m: string)
      ensures message.Some? ==> m == message.value
      ensures message.None? ==> m == ""
    {
      if message.Some? then message.value else ""
    }
  }

  /** Let the action go ahead, with no message. */
  function Allow(): (r: EventResult)
    ensures r.allowed
    ensures r.GetMessage() == ""
  {
    EventResult(true, Some(""))
  }

  /** Stop the action, with the given (possibly absent) reason. */
  function Block(message: Option<string>): (r: EventResult)
    ensures !r.allowed
    ensures r.message == message
  {
    EventResult(false, message)
  }

  /** A block keeps its reason, and a block without a reason is still a block that reads as "". */
  lemma BlockMessage(m: Option<string>)
    ensures !Block(m).allowed
    ensures m.Some? ==> Block(m).GetMessage() == m.value
    ensures m.None? ==> Block(m).GetMessage() == ""
  {
  }
}

/** The immutable decision a mixin handler hands back for one hop. */
module MixinResults {
  import opened Wrappers
  import opened JsonValues

  /** Continue with the next hop, stop with an output, or abort with an error. */
  datatype Action = Next | Return | Error

  /** An advisory message for the panel to show an operator. */
  datatype Notification = Notification(title: string, message: string, notificationType: string)

  datatype MixinResult = MixinResult(
    action: Action,
    output: Option<Object>,
    error: Option<string>,
    modifiedInput: Option<Object>,
    notifications: seq<Notification>)

  /**
   * The result constructor: every argument is stored as given, except that an
   * absent notification list becomes the empty list.
   */
  function Make(action: Action, output: Option<Object>, error: Option<string>,
                modifiedInput: Option<Object>, notifications: Option<seq<Notification>>): (r: MixinResult)
    ensures r.action == action && r.output == output && r.error == error
    ensures r.modifiedInput == modifiedInput
    ensures notifications.None? ==> r.notifications == []
    ensures notifications.Some? ==> r.notifications == notifications.value
  {
    MixinResult(action, output, error, modifiedInput,
                if notifications.Some? then notifications.value else [])
  }
}

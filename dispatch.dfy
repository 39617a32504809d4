/**
 * The routing decision of `MainLoop::processBrowserMessage`: what a complete message taken
 * from the inbound queue leads to. Carrying the action out is `Host.MainLoop.ProcessBrowserMessage`.
 */
module Dispatch {
  import opened Messages

  /** The actions the dispatcher can take. */
  datatype Action =
    | ErrorAck(text: string)                                      // `{status: error, message: text}`
    | LoadPlugin(mimetype: string)                                // load, initialise, acknowledge
    | ForwardCall(colonyId: nat, msgId: nat, payload: string)     // through `m_hFuncs.call`
    | ForwardCallback(colonyId: nat, msgId: nat, payload: string) // through `m_hFuncs.cmdCallback`
    | UnknownAck                                                  // `{status: error, message: "Unknown message"}`

  /** The dispatcher reads `msgs[0]` of error and command messages. */
  predicate Routable(m: MessageInfo)
  {
    (m.kind == Error || m.kind == Command) ==> |m.msgs| >= 1
  }

  /**
   * `processBrowserMessage` as written: the second test is for `COMMAND` where `CREATE` was
   * meant, so a command loads a plugin, a create is an unknown message, and the nested test
   * for `COMMAND` can never succeed.
   */
  function Route(m: MessageInfo): (a: Action)
    requires Routable(m)
    ensures a.ErrorAck? <==> m.kind == Error
    ensures a.LoadPlugin? <==> m.kind == Command
    ensures a.ForwardCallback? <==> m.kind == Response
    ensures a.UnknownAck? <==> m.kind == Create || m.kind == Unknown || m.kind == Destroy
    ensures !a.ForwardCall?
    ensures a.ErrorAck? ==> a.text == m.msgs[0]
    ensures a.LoadPlugin? ==> a.mimetype == m.msgs[0]
    ensures a.ForwardCallback? ==> a == ForwardCallback(m.colonyId, m.msgId, GetString(m))
  {
    if m.kind == Error then ErrorAck(m.msgs[0])
    else if m.kind == Command then LoadPlugin(m.msgs[0])
    else if m.kind == Command then ForwardCall(m.colonyId, m.msgId, GetString(m))
    else if m.kind == Response then ForwardCallback(m.colonyId, m.msgId, GetString(m))
    else UnknownAck
  }

  /** What the intended dispatcher reads: `msgs[0]` of error and create messages. */
  predicate IntendedRoutable(m: MessageInfo)
  {
    (m.kind == Error || m.kind == Create) ==> |m.msgs| >= 1
  }

  /** `processBrowserMessage` with `CREATE` in the second test, as its structure shows was meant. */
  function IntendedRoute(m: MessageInfo): (a: Action)
    requires IntendedRoutable(m)
    ensures a.ErrorAck? <==> m.kind == Error
    ensures a.LoadPlugin? <==> m.kind == Create
    ensures a.ForwardCall? <==> m.kind == Command
    ensures a.ForwardCallback? <==> m.kind == Response
    ensures a.UnknownAck? <==> m.kind == Unknown || m.kind == Destroy
    ensures a.LoadPlugin? ==> a.mimetype == m.msgs[0]
    ensures a.ForwardCall? ==> a == ForwardCall(m.colonyId, m.msgId, GetString(m))
    ensures a.ForwardCallback? ==> a == ForwardCallback(m.colonyId, m.msgId, GetString(m))
  {
    if m.kind == Error then ErrorAck(m.msgs[0])
    else if m.kind == Create then LoadPlugin(m.msgs[0])
    else if m.kind == Command then ForwardCall(m.colonyId, m.msgId, GetString(m))
    else if m.kind == Response then ForwardCallback(m.colonyId, m.msgId, GetString(m))
    else UnknownAck
  }

  /** The written and the intended dispatcher disagree exactly on create and command messages. */
  lemma RouteDeviation(m: MessageInfo)
    requires Routable(m) && IntendedRoutable(m)
    ensures Route(m) != IntendedRoute(m) <==> m.kind == Create || m.kind == Command
  {
  }

  /**
   * A create for mimetype A, then a command with payload P1, then a response with payload P2:
   * the intended dispatcher loads A, forwards P1 as a call and P2 as a callback; the written one
   * rejects the create and tries to load a plugin named after the command's first fragment.
   */
  lemma CreateCommandResponse(create: MessageInfo, command: MessageInfo, response: MessageInfo)
    requires create.kind == Create && |create.msgs| >= 1
    requires command.kind == Command && |command.msgs| >= 1
    requires response.kind == Response
    ensures [IntendedRoute(create), IntendedRoute(command), IntendedRoute(response)]
      == [LoadPlugin(create.msgs[0]),
          ForwardCall(command.colonyId, command.msgId, GetString(command)),
          ForwardCallback(response.colonyId, response.msgId, GetString(response))]
    ensures [Route(create), Route(command), Route(response)]
      == [UnknownAck,
          LoadPlugin(command.msgs[0]),
          ForwardCallback(response.colonyId, response.msgId, GetString(response))]
  {
  }
}

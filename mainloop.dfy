/**
 * The `MainLoop` object of the native message host: the inbound message queue, the queue of
 * deferred calls, the exit flag, the table of partly received messages (the global `msgMap`,
 * owned here since there is only ever one loop) and standard output, written through
 * `writeMessage`. Code the host reaches through function pointers (deferred calls, the plugin's
 * `Init`, `m_hFuncs.call` and `m_hFuncs.cmdCallback`) is outside the model; each such call is
 * recorded as an `Event`.
 */
module Host {
  import opened Optional
  import opened Messages
  import opened Wire
  import opened Outbound
  import opened Envelope
  import opened Dispatch
  import opened Scheduler

  /** A call from the host into code outside the model. */
  datatype Event =
    | Invoked(call: AsyncCall)                                    // `(*(c.fn))(c.pData)`
    | InitCalled(plugin: nat)                                     // `m_pluginLoader->Init(...)`
    | Called(colonyId: nat, msgId: nat, payload: string)          // `(*m_hFuncs.call)(...)`
    | CallbackCalled(colonyId: nat, msgId: nat, payload: string)  // `(*m_hFuncs.cmdCallback)(...)`

  /**
   * What loading a plugin for a mimetype comes to: `LoadPlugin` throws; it returns a loader
   * (identified by a handle) whose `Init` or `getPluginName` then throws; or all succeed.
   */
  datatype LoadOutcome = LoadFailed | InitFailed(handle: nat) | Ready(handle: nat, name: string)

  /** The acknowledgement object of a failure: `{status: error, message: ...}`. */
  function ErrorObject(message: string): (o: map<string, string>)
    ensures o.Keys == {"status", "message"} && o["status"] == "error" && o["message"] == message
  {
    map["status" := "error", "message" := message]
  }

  /** The acknowledgement object of a loaded plugin: `{status: success, plugin: ...}`. */
  function SuccessObject(name: string): (o: map<string, string>)
    ensures o.Keys == {"status", "plugin"} && o["status"] == "success" && o["plugin"] == name
  {
    map["status" := "success", "plugin" := name]
  }

  /**
   * What handling one message does: the acknowledgement written to the browser (if any), the
   * calls made out of the host, and the plugin loader held afterwards.
   */
  datatype Effect = Effect(ack: Option<map<string, string>>, events: seq<Event>, plugin: Option<nat>)

  /** The text `writeObj` puts on standard output for an acknowledgement, if there is one. */
  function Written(json: Json, ack: Option<map<string, string>>): string
  {
    match ack
    case None => ""
    case Some(o) => Frame(json.obj(o))
  }

  /**
   * Carrying out a routing decision. `what` is the text of a caught exception: the handler
   * catches `std::exception` by value, so every failure reports the same implementation-defined
   * text.
   */
  function Perform(a: Action, loader: string -> LoadOutcome, what: string, plugin: Option<nat>): (e: Effect)
    ensures e.ack.None? <==> a.ForwardCall? || a.ForwardCallback?
    ensures e.ack.Some? ==> "status" in e.ack.value
    ensures e.ack.Some? ==>
      (e.ack.value["status"] == "success" <==> a.LoadPlugin? && loader(a.mimetype).Ready?)
    ensures e.plugin != plugin ==> a.LoadPlugin? && !loader(a.mimetype).LoadFailed?
    ensures |e.events| <= 1
    ensures a.LoadPlugin? && loader(a.mimetype).LoadFailed? ==> e == Effect(Some(ErrorObject(what)), [], plugin)
    ensures a.LoadPlugin? && loader(a.mimetype).InitFailed? ==>
      var h := loader(a.mimetype).handle; e == Effect(Some(ErrorObject(what)), [InitCalled(h)], Some(h))
    ensures a.LoadPlugin? && loader(a.mimetype).Ready? ==>
      var h := loader(a.mimetype).handle;
      e == Effect(Some(SuccessObject(loader(a.mimetype).name)), [InitCalled(h)], Some(h))
    ensures a.ErrorAck? ==> e == Effect(Some(ErrorObject(a.text)), [], plugin)
    ensures a.UnknownAck? ==> e == Effect(Some(ErrorObject("Unknown message")), [], plugin)
    ensures a.ForwardCall? ==> e == Effect(None, [Called(a.colonyId, a.msgId, a.payload)], plugin)
    ensures a.ForwardCallback? ==> e == Effect(None, [CallbackCalled(a.colonyId, a.msgId, a.payload)], plugin)
  {
    match a
    case ErrorAck(text) => Effect(Some(ErrorObject(text)), [], plugin)
    case LoadPlugin(mimetype) =>
      (match loader(mimetype)
       case LoadFailed => Effect(Some(ErrorObject(what)), [], plugin)
       case InitFailed(h) => Effect(Some(ErrorObject(what)), [InitCalled(h)], Some(h))
       case Ready(h, name) => Effect(Some(SuccessObject(name)), [InitCalled(h)], Some(h)))
    case ForwardCall(colonyId, msgId, payload) => Effect(None, [Called(colonyId, msgId, payload)], plugin)
    case ForwardCallback(colonyId, msgId, payload) =>
      Effect(None, [CallbackCalled(colonyId, msgId, payload)], plugin)
    case UnknownAck => Effect(Some(ErrorObject("Unknown message")), [], plugin)
  }

  /** The message `messageIn` makes of a parse outcome: a thrown exception becomes an error message. */
  function Processed(p: Parse, junk: Indeterminate, what: string): (m: MessageInfo)
    requires !p.Undefined?
    ensures p.Parsed? ==> m == p.info
    ensures p.Thrown? ==> m == Single(Error, what, junk)
  {
    if p.Parsed? then p.info else Single(Error, what, junk)
  }

  /** The effect of one pass of `run`: the deferred call it invokes, then the message it handles. */
  function Pass(q: Queues, loader: string -> LoadOutcome, what: string, plugin: Option<nat>): (e: Effect)
    requires StepDefined(q)
    requires forall i :: 0 <= i < |q.messagesIn| ==> |q.messagesIn[i].msgs| >= 1
    ensures Step(q).invoked.Some? ==> |e.events| >= 1 && e.events[0] == Invoked(Step(q).invoked.value)
    ensures Step(q).dispatched.None? ==> e.ack.None? && e.plugin == plugin
    ensures q.exit ==> e == Effect(None, [], plugin)
    ensures !q.exit && q.messagesIn == [] && q.asyncCalls == [] ==> e == Effect(None, [], plugin)
    ensures !q.exit && q.messagesIn == [] && q.asyncCalls != [] ==>
      e == Effect(None, [Invoked(q.asyncCalls[0])], plugin)
    ensures !q.exit && q.messagesIn != [] ==>
      var d := Perform(Route(q.messagesIn[0]), loader, what, plugin);
      e == Effect(d.ack, [Invoked(q.asyncCalls[0])] + d.events, d.plugin)
  {
    var s := Step(q);
    var pre := if s.invoked.Some? then [Invoked(s.invoked.value)] else [];
    match s.dispatched
    case None => Effect(None, pre, plugin)
    case Some(m) =>
      var e := Perform(Route(m), loader, what, plugin);
      e.(events := pre + e.events)
  }

  class MainLoop {
    var messagesIn: seq<MessageInfo>     // `m_messagesIn`
    var asyncCalls: seq<AsyncCall>       // `m_AsyncCalls`
    var needsToExit: bool                // `m_needsToExit`
    var msgMap: map<nat, MessageInfo>    // the global `msgMap`
    var output: string                   // standard output
    var events: seq<Event>               // calls made out of the host, in order
    var pluginLoader: Option<nat>        // `m_pluginLoader`

    /**
     * Every queued message has a first fragment (the dispatcher reads `msgs[0]`), and the table
     * holds only entries nobody has written to, each under its own `msgId`.
     */
    predicate Valid()
      reads this
    {
      && (forall i :: 0 <= i < |messagesIn| ==> |messagesIn[i].msgs| >= 1)
      && TableUntouched(msgMap)
      && KeyedById(msgMap)
    }

    /** The queues a pass of `run` looks at. */
    function State(): Queues
      reads this
    {
      Queues(messagesIn, asyncCalls, needsToExit)
    }

    /** `MainLoop(url, PrivateStruct)`: empty queues, exit not requested, nothing written. */
    constructor ()
      ensures Valid()
      ensures messagesIn == [] && asyncCalls == [] && !needsToExit
      ensures msgMap == map[] && output == "" && events == [] && pluginLoader == None
    {
      messagesIn := [];
      asyncCalls := [];
      needsToExit := false;
      msgMap := map[];
      output := "";
      events := [];
      pluginLoader := None;
    }

    /** `scheduleCall`: the call joins the back of the deferred-call queue. */
    method ScheduleCall(fn: nat, data: nat)
      modifies this`asyncCalls
      ensures asyncCalls == old(asyncCalls) + [AsyncCall(fn, data)]
    {
      asyncCalls := asyncCalls + [AsyncCall(fn, data)];
    }

    /** `writeMessage`: the text goes out after its 4-byte little-endian length. */
    method WriteMessage(text: string)
      modifies this`output
      ensures output == old(output) + Frame(text)
    {
      var a := |text|;
      output := output + [Byte(a % 256), Byte(a / 256 % 256), Byte(a / 256 / 256 % 256),
                          Byte(a / 256 / 256 / 256 % 256)] + text;
    }

    /** `writeObj`: a string-to-string object, serialised and written as one message. */
    method WriteObj(obj: map<string, string>, json: Json)
      modifies this`output
      ensures output == old(output) + Frame(json.obj(obj))
    {
      WriteMessage(json.obj(obj));
    }

    /**
     * `sendCommand`: the payload goes out as its chunks, one message per chunk, in order. The
     * source casts the remaining length to `int` before taking the minimum, so it demands a
     * payload shorter than 2^31.
     */
    method SendCommand(colonyId: nat, cmdId: nat, payload: string, kind: string, json: Json)
      requires |payload| < 0x8000_0000
      modifies this`output
      ensures output == old(output) + Frames(Encoded(json, Chunks(colonyId, cmdId, payload, kind)))
    {
      var c := CountChunks(|payload|);
      ghost var texts := Encoded(json, Chunks(colonyId, cmdId, payload, kind));
      var i := 0;
      while i < c
        invariant 0 <= i <= c
        invariant output == old(output) + Frames(texts[..i])
      {
        EmittedChunk(colonyId, cmdId, payload, kind, i);
        var start := MaxCommandSize * i;
        var ch := Chunk(c, kind, colonyId, cmdId, i + 1,
                        payload[start .. start + Min(MaxCommandSize, |payload| - start)]);
        assert json.chunk(ch) == texts[i];
        WriteMessage(json.chunk(ch));
        FramesSnoc(texts, i);
        AppendAssoc(old(output), Frames(texts[..i]), Frame(texts[i]));
        i := i + 1;
      }
      assert texts[..c] == texts;
    }

    /** `doCommand`: a command for the browser, tagged `"cmd"`. */
    method DoCommand(colonyId: nat, cmdId: nat, payload: string, json: Json)
      requires |payload| < 0x8000_0000
      modifies this`output
      ensures output == old(output) + Frames(Encoded(json, Chunks(colonyId, cmdId, payload, "cmd")))
    {
      SendCommand(colonyId, cmdId, payload, "cmd", json);
    }

    /** `doCommandCallback`: a response for the browser, tagged `"resp"`. */
    method DoCommandCallback(colonyId: nat, cmdId: nat, payload: string, json: Json)
      requires |payload| < 0x8000_0000
      modifies this`output
      ensures output == old(output) + Frames(Encoded(json, Chunks(colonyId, cmdId, payload, "resp")))
    {
      SendCommand(colonyId, cmdId, payload, "resp", json);
    }

    /**
     * `messageIn`: parse the payload (a failure becomes an error message) and queue the result
     * only if it is complete. Writing past the end of an entry's fragments (line 105) is
     * undefined, so the caller must not hand over such a chunk.
     */
    method MessageIn(doc: Document, junk: Indeterminate, what: string)
      requires Valid()
      requires !ParseIncomingMessage(doc, msgMap, junk).result.Undefined?
      modifies this`messagesIn, this`msgMap
      ensures Valid()
      ensures var p := old(ParseIncomingMessage(doc, msgMap, junk));
        var m := Processed(p.result, junk, what);
        && msgMap == p.table
        && messagesIn == old(messagesIn) + (if IsComplete(m) then [m] else [])
    {
      var p := ParseIncomingMessage(doc, msgMap, junk);
      IncomingKeepsUntouched(doc, msgMap, junk);
      IncomingKeepsKeys(doc, msgMap, junk);
      msgMap := p.table;
      var processed: MessageInfo;
      if p.result.Parsed? {
        processed := p.result.info;
      } else {
        processed := Single(Error, what, junk);
      }
      if IsComplete(processed) {
        messagesIn := messagesIn + [processed];
      }
    }

    /**
     * `processBrowserMessage`, branch for branch as written; its effect is the routing decision
     * `Route` carried out.
     */
    method ProcessBrowserMessage(message: MessageInfo, loader: string -> LoadOutcome, json: Json, what: string)
      requires Routable(message)
      modifies this`output, this`events, this`pluginLoader
      ensures var e := Perform(Route(message), loader, what, old(pluginLoader));
        && output == old(output) + Written(json, e.ack)
        && events == old(events) + e.events
        && pluginLoader == e.plugin
    {
      if message.kind == Error {
        WriteObj(ErrorObject(message.msgs[0]), json);
      } else if message.kind == Command {
        var outcome := loader(message.msgs[0]);
        match outcome
        case LoadFailed =>
          WriteObj(ErrorObject(what), json);
        case InitFailed(h) =>
          pluginLoader := Some(h);
          events := events + [InitCalled(h)];
          WriteObj(ErrorObject(what), json);
        case Ready(h, name) =>
          pluginLoader := Some(h);
          events := events + [InitCalled(h)];
          WriteObj(SuccessObject(name), json);
      } else {
        // The call through `m_hFuncs.call` sits under a test the branch above has already
        // taken, so it is never reached.
        var forwarded: Option<Event> := None;
        if message.kind == Command {
          forwarded := Some(Called(message.colonyId, message.msgId, GetString(message)));
        } else if message.kind == Response {
          forwarded := Some(CallbackCalled(message.colonyId, message.msgId, GetString(message)));
        } else {
          WriteObj(ErrorObject("Unknown message"), json);
        }
        if forwarded.Some? {
          events := events + [forwarded.value];
        }
      }
    }

    /**
     * One pass of `run` as written: stop if exit is requested; with nothing to do, wait (the
     * wake-up comes from another thread and is outside the model); otherwise invoke the front
     * deferred call, then handle the front inbound message, popping the deferred-call queue a
     * second time instead of the inbound queue.
     */
    method RunOnce(loader: string -> LoadOutcome, json: Json, what: string) returns (r: Iteration)
      requires Valid() && StepDefined(State())
      modifies this`asyncCalls, this`output, this`events, this`pluginLoader
      ensures Valid()
      ensures State() == Step(old(State())).next && r == Step(old(State())).outcome
      ensures var e := Pass(old(State()), loader, what, old(pluginLoader));
        && output == old(output) + Written(json, e.ack)
        && events == old(events) + e.events
        && pluginLoader == e.plugin
    {
      if needsToExit {
        return Exited;
      }
      if messagesIn == [] && asyncCalls == [] {
        return Blocked;
      }
      if asyncCalls != [] {
        var c := asyncCalls[0];
        asyncCalls := asyncCalls[1..];
        events := events + [Invoked(c)];
      }
      if messagesIn != [] {
        var message := messagesIn[0];
        asyncCalls := asyncCalls[1..];
        ghost var d := Perform(Route(message), loader, what, pluginLoader);
        ProcessBrowserMessage(message, loader, json, what);
        AppendAssoc(old(events), [Invoked(old(asyncCalls)[0])], d.events);
        assert events == old(events) + Pass(old(State()), loader, what, old(pluginLoader)).events;
      }
      return Worked;
    }
  }

  /**
   * Every failure to parse an inbound payload is reported back: the error message `messageIn`
   * makes of it is queued when its (indeterminate) counters say complete, and handling it
   * writes `{status: error, message: what}` and nothing else.
   */
  lemma ParseFailureAcknowledged(doc: Document, table: map<nat, MessageInfo>, junk: Indeterminate,
                                 what: string, loader: string -> LoadOutcome, plugin: Option<nat>)
    requires ParseIncomingMessage(doc, table, junk).result.Thrown?
    ensures var m := Processed(ParseIncomingMessage(doc, table, junk).result, junk, what);
      && (IsComplete(m) <==> junk.curC >= junk.c)
      && Route(m) == ErrorAck(what)
      && Perform(Route(m), loader, what, plugin) == Effect(Some(ErrorObject(what)), [], plugin)
  {
  }

  /**
   * As written, the browser's create request never loads a plugin: `{cmd: "create", mimetype}`
   * parses into a create message, which `messageIn` queues only when its indeterminate counters
   * say complete; when queued, it is answered with "Unknown message".
   */
  lemma CreateRequestRejected(root: Fields, table: map<nat, MessageInfo>, junk: Indeterminate,
                              what: string, loader: string -> LoadOutcome, plugin: Option<nat>)
    requires root.cmd == Some("create") && root.mimetype.Some?
    ensures var p := ParseIncomingMessage(Object(root), table, junk);
      && p.result.Parsed? && p.result.info.kind == Create
      && (IsComplete(p.result.info) <==> junk.curC >= junk.c)
      && Perform(Route(p.result.info), loader, what, plugin)
           == Effect(Some(ErrorObject("Unknown message")), [], plugin)
  {
  }

  /**
   * With the intended dispatcher, a create request loads the plugin named by its mimetype and,
   * when loading and initialisation succeed, acknowledges with the plugin's name.
   */
  lemma CreateRequestLoads(root: Fields, table: map<nat, MessageInfo>, junk: Indeterminate,
                           what: string, loader: string -> LoadOutcome, plugin: Option<nat>)
    requires root.cmd == Some("create") && root.mimetype.Some?
    requires loader(root.mimetype.value).Ready?
    ensures var p := ParseIncomingMessage(Object(root), table, junk);
      var outcome := loader(root.mimetype.value);
      && p.result.Parsed?
      && Perform(IntendedRoute(p.result.info), loader, what, plugin)
           == Effect(Some(SuccessObject(outcome.name)), [InitCalled(outcome.handle)], Some(outcome.handle))
  {
  }
}

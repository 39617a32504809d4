# FireBreath native message host: a Dafny model

FireBreath's native message host sits between a browser extension and an NPAPI-style plugin. It
speaks Chrome native messaging on standard input and output. Every message is a 4-byte
little-endian length followed by that many bytes of JSON.

This project models the host's message bridge (`src/NativeMessageHost/MainLoop.cpp` and
`MainLoop.h`) and proves properties of it:

- **The `messageInfo` record** (`Messages`): its constructors, `isComplete` and `getString`.
- **The wire format** (`Wire`): the length prefix `writeMessage` puts before each message, and a
  reader that splits the stream back into messages.
- **The outbound chunker** (`Outbound`): `countChunks` and the chunks `sendCommand` cuts a payload
  into, each at most 768 KiB.
- **The inbound parser** (`Envelope`): `parseIncomingMessage`, `parseCommandMessage`,
  `parseWyrmholeMessage`, and `getMessageInfo` over the global table `msgMap`. All of these are
  modelled as written.
- **The dispatcher's decision table** (`Dispatch`): `processBrowserMessage`, as written and as
  intended.
- **One pass of the work loop in `run`** (`Scheduler`): a step on the two queues and the exit
  flag, as written and as intended.
- **Chunk reassembly as intended** (`Reassembly`): the evident meaning of lines 103-107, with
  the round trip from `sendCommand` back to `getString`.
- **The `MainLoop` object** (`Host.MainLoop`): a class holding the queues, the exit flag, the
  table, standard output (a string that `writeMessage` appends to), the plugin loader, and a log
  of the calls made into code outside the model. Its methods follow the code as written. Each is
  specified by the functions above.

The JSON library stays outside the model:

- **Inbound:** a payload arrives as `Envelope.Document`. It is either not JSON, JSON but not an
  object, or an object whose members are given as optional typed fields.
- **Outbound:** a chunk document or an acknowledgement object becomes text through the two
  functions of `Outbound.Json`. These are parameters.

The plugin loader is the parameter `loader`, which maps a mimetype to a `Host.LoadOutcome`. Calls
through function pointers are recorded as `Host.Event`s. These are the deferred call
`c.fn(c.pData)`, the plugin's `Init`, `m_hFuncs.call` and `m_hFuncs.cmdCallback`.

Undefined behaviour in the code becomes a precondition or an explicit outcome:

- **Writing past the fragment vector** at `MainLoop.cpp:105` is the outcome `Envelope.Undefined`.
  `Host.MainLoop.MessageIn` requires that the parse does not end there.
- **`pop_front` on an empty deque** at `MainLoop.cpp:228` is excluded by `Scheduler.StepDefined`.
  `Host.MainLoop.RunOnce` requires it.
- **Members left uninitialised** by `messageInfo()` and `messageInfo(type, msg)` are
  `Messages.Indeterminate`, a parameter. These are `colonyId`, `msgId`, `c` and `curC`.
  `isComplete` reads them.
- **An unsigned wrap** (`n = c - 1` when `c == 0`) is written out as `Envelope.Pred32`.

## Model

| member | source | states |
|---|---|---|
| `Messages.Sequence` | src/NativeMessageHost/MainLoop.h:38 | a table entry has `c` empty fragment slots, `curC == 0`, `colonyId == 0`; it is incomplete exactly when `c >= 1` |
| `Messages.CompleteOnceCounted` | src/NativeMessageHost/MainLoop.h:52-54 | `isComplete()` follows the received count alone: false while fewer fragments than declared are counted, true once the count reaches `c`, and never false again as more are counted; for a message built by `messageInfo(type, msg)` it depends on the indeterminate `curC` and `c` |
| `Messages.Single` | src/NativeMessageHost/MainLoop.h:39-41 | the message holds exactly the one fragment `msg` with the given type, `getString()` returns `msg`, and completeness depends only on the uninitialised counters |
| `Messages.Concat` | src/NativeMessageHost/MainLoop.h:56-67 | the joined text is as long as the sum of the fragment lengths (the first loop of `getString`) |
| `Messages.GetString` | src/NativeMessageHost/MainLoop.h:56-67 | `getString()` has the length the reserve loop computes |
| `Messages.ConcatAppend` | src/NativeMessageHost/MainLoop.h:63-65 | joining fragment lists distributes over list concatenation |
| `Messages.ConcatPlacesFragment` | src/NativeMessageHost/MainLoop.h:56-67 | fragment i appears in `getString()` right after the fragments before it, unchanged |
| `Messages.ConcatOfEmpties` | src/NativeMessageHost/MainLoop.h:38 | a freshly created entry, whose slots are empty, carries the empty text |
| `Wire.LengthPrefix` | src/NativeMessageHost/MainLoop.h:94-98 | the prefix is four bytes, each below 256, and read back little-endian it gives the length modulo 2^32 |
| `Wire.PrefixDecodes` | src/NativeMessageHost/MainLoop.h:95-98 | the bytes `(a >> 8k) & 0xFF`, k = 0..3, recombine to the low 32 bits of `a` |
| `Wire.Frame` | src/NativeMessageHost/MainLoop.h:93-100 | `writeMessage` emits 4 + len characters, the text follows the prefix unchanged, and the prefix decodes to len when len < 2^32 |
| `Wire.FramesSnoc` | src/NativeMessageHost/MainLoop.cpp:159-166 | writing one more message extends the stream by exactly its frame |
| `Wire.DeframeFrames` | src/NativeMessageHost/MainLoop.h:93-100 | a reader splitting the stream by length prefixes recovers every message written, in order, when each is shorter than 2^32 |
| `Outbound.CountChunks` | src/NativeMessageHost/MainLoop.cpp:24-28 | the chunk count is the integer ceiling of size / 786432: enough chunks, and one fewer would not be |
| `Outbound.ChunkAt` | src/NativeMessageHost/MainLoop.cpp:159-161 | chunk i carries bytes [786432 i, min(len, 786432 (i+1))) of the payload, between 1 and 786432 of them |
| `Outbound.Chunks` | src/NativeMessageHost/MainLoop.cpp:153-161 | a payload produces exactly `countChunks(len)` chunks |
| `Outbound.ChunkHeaders` | src/NativeMessageHost/MainLoop.cpp:153-160 | every chunk of a payload has the same `c`, `type`, `colonyId` and `cmdId`, `c` is the number of chunks, and `n` runs 1..c in emission order |
| `Outbound.EmptyPayloadSendsNothing` | src/NativeMessageHost/MainLoop.cpp:153-159 | an empty payload produces no chunk |
| `Outbound.OversizeSplit` | src/NativeMessageHost/MainLoop.cpp:24-28 | a payload of 2·786432+1 bytes produces three chunks of 786432, 786432 and 1 bytes, numbered 1, 2, 3 |
| `Outbound.ChunksPrefix` | src/NativeMessageHost/MainLoop.cpp:159-161 | the first k chunks carry exactly the first min(len, 786432 k) bytes |
| `Outbound.ChunksJoin` | src/NativeMessageHost/MainLoop.cpp:159-161 | the `msg` members joined in emission order give back the payload exactly |
| `Outbound.SentPayloadRecoverable` | src/NativeMessageHost/MainLoop.cpp:159-165 | given a parser that inverts the serialiser on this payload's chunks, each of whose texts is shorter than 2^32, the output stream splits back into the chunk texts and their `msg` members join to the payload |
| `Envelope.Pred32` | src/NativeMessageHost/MainLoop.cpp:92 | unsigned 32-bit decrement: stays below 2^32 and adding one back gives the argument modulo 2^32 |
| `Envelope.GetMessageInfo` | src/NativeMessageHost/MainLoop.cpp:33-45 | the first lookup of a key inserts a fresh entry with the given count; a later lookup with the same count returns the stored entry and leaves the table alone; with a different count it throws; no other key changes |
| `Envelope.ParseCommandMessage` | src/NativeMessageHost/MainLoop.cpp:58-71 | only `cmd == "create"` with a `mimetype` succeeds, giving `CREATE` with the single fragment `mimetype`; without `mimetype` it throws "Missing Mimetype"; any other `cmd` throws "Unknown command" |
| `Envelope.ParseWyrmholeMessage` | src/NativeMessageHost/MainLoop.cpp:82-109 | a missing or non-integral `c` or `cmdId` throws "Invalid message"; `c > 1` without an integral `n` throws "Missing sequence id" (exactly then); other out-of-range members throw; a count that disagrees with the entry stored under `c` throws "Invalid sequence size" (src/NativeMessageHost/MainLoop.cpp:40-41); otherwise the chunk parses exactly when its index `n - 1` (or 0 when `c == 1`) is within the entry's slots, and writing past them is undefined; `type == "resp"` gives `RESPONSE` and anything else `COMMAND`; `colonyId` defaults to 0; a parsed message is the entry stored under `c` with that fragment set to `msg` and `curC` one more than the entry's; no stored entry changes, and once the count agrees (parsed or undefined) the table afterwards is the old one with a fresh `messageInfo(cmdId, c)` added under `c` if nothing was there, and no other key |
| `Envelope.ParseIncomingMessage` | src/NativeMessageHost/MainLoop.cpp:111-130 | non-JSON input throws "Invalid json", a non-object throws "Invalid message", `cmd` takes priority over `msg`, neither throws "Unknown message", a `msg` without `cmd` is handed to `parseWyrmholeMessage`, and only a `cmd: create` gives `CREATE` |
| `Envelope.KeyedByChunkCount` | src/NativeMessageHost/MainLoop.cpp:103 | with the swapped arguments, the table is keyed by the chunk count `c`, the entry's declared count is the `cmdId`, and, given a table that keeps each entry under its own `msgId`, the message's `msgId` is `c` |
| `Envelope.IncomingKeepsKeys` | src/NativeMessageHost/MainLoop.cpp:33-45 | parsing any payload keeps every table entry under its own `msgId` |
| `Envelope.CompleteChunkCarriesMsg` | src/NativeMessageHost/MainLoop.cpp:103-106 | over untouched entries, a chunk that parses into a complete message carries exactly its own `msg` as its one fragment |
| `Envelope.SecondCommandRejected` | src/NativeMessageHost/MainLoop.cpp:103 | after one chunk, a chunk with the same `c` but another `cmdId` throws "Invalid sequence size" |
| `Envelope.WyrmholeKeepsUntouched` | src/NativeMessageHost/MainLoop.cpp:103-106 | the update is made on a copy, so no stored entry ever receives a fragment or a count |
| `Envelope.IncomingKeepsUntouched` | src/NativeMessageHost/MainLoop.cpp:111-130 | the same holds for every payload the parser is given |
| `Envelope.OnlyCommandIdOneCompletes` | src/NativeMessageHost/MainLoop.cpp:103-106 | every parsed chunk has `curC == 1`, and it is complete exactly when its `cmdId` is 1 |
| `Envelope.SplitCommandNeverCompletes` | src/NativeMessageHost/MainLoop.cpp:103-106 | with nothing stored under 2, the chunks `{cmdId: 5, c: 2, n: 1}` and `{cmdId: 5, c: 2, n: 2}` each parse, into a 5-slot copy with `curC == 1`, so neither is complete |
| `Envelope.ZeroCountNeverParsed` | src/NativeMessageHost/MainLoop.cpp:91-92 | a chunk with `c == 0` wraps `n` to 2^32 - 1 and never yields a message |
| `Dispatch.Route` | src/NativeMessageHost/MainLoop.cpp:250-273 | as written: `ERROR` acks with `msgs[0]`, `COMMAND` loads the plugin named by `msgs[0]`, `RESPONSE` goes to `cmdCallback` with `getString()`, `CREATE` and the rest get "Unknown message", and `call` is never chosen |
| `Dispatch.IntendedRoute` | src/NativeMessageHost/MainLoop.cpp:250-273 | with `CREATE` at line 253: `CREATE` loads, `COMMAND` goes to `call`, `RESPONSE` to `cmdCallback`, and only unknown and destroy messages get "Unknown message" |
| `Dispatch.RouteDeviation` | src/NativeMessageHost/MainLoop.cpp:253 | the written and the intended dispatcher disagree exactly on create and command messages |
| `Dispatch.CreateCommandResponse` | src/NativeMessageHost/MainLoop.cpp:250-273 | for the sequence create, command, response: the intended dispatcher loads, calls and calls back, while the written one rejects the create and loads a plugin named by the command's first fragment |
| `Scheduler.Step` | src/NativeMessageHost/MainLoop.cpp:203-233 | a pass dispatches the front inbound message, if any, and never removes an inbound message; with no inbound message it invokes and pops the front deferred call, or, with both queues empty, blocks with the queues unchanged; a pass with a message waiting always reports work done |
| `Scheduler.StepSummary` | src/NativeMessageHost/MainLoop.cpp:209-233 | with exit set, a pass stops without draining anything; otherwise it invokes the front deferred call, if there is one, and reads the front inbound message without removing it |
| `Scheduler.SecondCallDropped` | src/NativeMessageHost/MainLoop.cpp:215-228 | with a message waiting, the second deferred call is popped and never invoked |
| `Scheduler.LoneMessageUndefined` | src/NativeMessageHost/MainLoop.cpp:226-228 | a lone inbound message with no deferred call makes the pass pop an empty deque |
| `Scheduler.Run` | src/NativeMessageHost/MainLoop.cpp:203-237 | k passes of the written loop yield k results; it is defined for every state without exit and with no inbound message, and with one waiting as long as there are two deferred calls per pass |
| `Scheduler.RunWithoutMessages` | src/NativeMessageHost/MainLoop.cpp:209-233 | with no inbound message, pass i invokes the i-th deferred call while there is one and then blocks, and no pass dispatches anything |
| `Scheduler.RunRepeatsHead` | src/NativeMessageHost/MainLoop.cpp:226-228 | the written loop handles the same front message on every pass and invokes only the deferred calls at even positions |
| `Scheduler.IntendedStep` | src/NativeMessageHost/MainLoop.cpp:213-233 | a pass with line 228 popping the inbound queue dispatches the front inbound message |
| `Scheduler.RunIntended` | src/NativeMessageHost/MainLoop.cpp:203-237 | passes of the intended loop while calls keep arriving, one result per pass |
| `Scheduler.IntendedRunIsFair` | src/NativeMessageHost/MainLoop.cpp:213-214 | in the intended loop, pass i handles the i-th waiting message and invokes the i-th waiting call, however many calls arrive: neither queue starves the other |
| `Reassembly.Receive` | src/NativeMessageHost/MainLoop.cpp:103-107 | as intended, a chunk is stored in the entry of its `cmdId`, and no other entry changes; a count that disagrees with the stored one is refused |
| `Reassembly.ReceivePrefix` | src/NativeMessageHost/MainLoop.cpp:103-107 | for a `cmdId` not yet in the table, after k deliveries in any order, the entry holds exactly the fragments delivered so far, has counted k, and no other entry has changed |
| `Reassembly.ReassemblyRoundTrip` | src/NativeMessageHost/MainLoop.cpp:103-107 | for a `cmdId` not yet in the table, once every chunk of a payload has arrived, in any order, the message is complete and `getString()` is the payload |
| `Reassembly.IncompleteUntilLast` | src/NativeMessageHost/MainLoop.h:52-54 | as intended, for a `cmdId` not yet in the table, after k of the c chunks of a payload (1 <= k < c) have arrived in any order, the entry of the `cmdId` exists and its `isComplete()` is false |
| `Reassembly.DuplicateCompletesEarly` | src/NativeMessageHost/MainLoop.cpp:106 | the counter counts deliveries, not slots: one chunk delivered twice completes a two-chunk message with a slot still empty |
| `Host.ErrorObject` | src/NativeMessageHost/MainLoop.cpp:252 | the failure acknowledgement is exactly `{status: error, message: ...}` |
| `Host.SuccessObject` | src/NativeMessageHost/MainLoop.cpp:258 | the success acknowledgement is exactly `{status: success, plugin: ...}` |
| `Host.Perform` | src/NativeMessageHost/MainLoop.cpp:250-273 | every message except a forwarded call or callback is acknowledged exactly once; the status is "success" exactly when the plugin loaded and initialised; only a load that gets past `LoadPlugin` replaces `m_pluginLoader`; at most one outside call is made; a load that fails acks the error and calls nothing, a plugin that fails `Init` is kept and acked with the error, and a plugin that initialises is kept and acked with its name |
| `Host.Processed` | src/NativeMessageHost/MainLoop.cpp:134-139 | a parse failure becomes an `ERROR` message carrying the exception text, and a parsed message is kept as it is |
| `Host.Pass` | src/NativeMessageHost/MainLoop.cpp:213-233 | with exit set, or both queues empty, nothing happens; with only deferred calls, the front one is invoked and nothing is written; with a message waiting, the front call is invoked first and then the front message gets exactly the acknowledgement, outside calls and loader of `Perform(Route(message))` |
| `Host.MainLoop.constructor` | src/NativeMessageHost/MainLoop.h:80 | a new loop has empty queues, exit not requested, and nothing written |
| `Host.MainLoop.ScheduleCall` | src/NativeMessageHost/MainLoop.h:86-91 | the call joins the back of `m_AsyncCalls`; earlier calls keep their order and nothing else changes |
| `Host.MainLoop.WriteMessage` | src/NativeMessageHost/MainLoop.h:93-100 | standard output grows by exactly the frame of the text |
| `Host.MainLoop.WriteObj` | src/NativeMessageHost/MainLoop.cpp:240-248 | standard output grows by exactly one frame holding the serialised object |
| `Host.MainLoop.SendCommand` | src/NativeMessageHost/MainLoop.cpp:149-169 | standard output grows by the frames of the serialised chunks of the payload, in order, and nothing else changes |
| `Host.MainLoop.DoCommand` | src/NativeMessageHost/MainLoop.cpp:171-173 | sends the payload as chunks tagged `"cmd"` |
| `Host.MainLoop.DoCommandCallback` | src/NativeMessageHost/MainLoop.cpp:175-177 | sends the payload as chunks tagged `"resp"` |
| `Host.MainLoop.MessageIn` | src/NativeMessageHost/MainLoop.cpp:132-147 | the parsed message, or the error message a failure becomes, is appended to `m_messagesIn` exactly when it is complete; the table is what the parser left; `m_AsyncCalls` is untouched; the loop's invariant is kept: every queued message has a fragment, and every table entry is untouched and stored under its own `msgId` |
| `Host.MainLoop.ProcessBrowserMessage` | src/NativeMessageHost/MainLoop.cpp:250-273 | branch for branch, the effect is the dispatcher's decision carried out: the acknowledgement written, the calls made and the loader kept are those of `Perform(Route(message))` |
| `Host.MainLoop.RunOnce` | src/NativeMessageHost/MainLoop.cpp:202-233 | the queues afterwards and the outcome are those of `Scheduler.Step`, and the output, the calls made and the loader are those of `Pass`; the loop's invariant is kept |
| `Host.ParseFailureAcknowledged` | src/NativeMessageHost/MainLoop.cpp:134-139 | a payload that fails to parse becomes an error message, queued exactly when the indeterminate counters say complete, and handling it writes `{status: error, message: what}` and nothing else |
| `Host.CreateRequestRejected` | src/NativeMessageHost/MainLoop.cpp:253 | as written, the browser's `{cmd: create, mimetype}` parses into a create message that `messageIn` queues only when its indeterminate counters say complete; when queued, it is answered "Unknown message"; either way no plugin is loaded |
| `Host.CreateRequestLoads` | src/NativeMessageHost/MainLoop.cpp:253-258 | with the intended dispatcher, a create request loads and initialises the plugin for its mimetype and acknowledges with the plugin's name |

## Left out

- The JSON reader and writer (`Json::Reader`, `Json::Value`, `operator<<`). Decoded input is a record of optional typed fields. Serialisation is the pair of functions in `Outbound.Json`. The conversions `asString()` and `asUInt()` are folded into the fields: `colonyId` is taken as an integer that may be out of range.
- `asString()` on a member that is an array or an object throws (`MainLoop.cpp:59`, `:66`, `:100`, `:105`). String members are modelled as always convertible, so these throws are not modelled. At `:105` such a throw would come after `getMessageInfo` has inserted the entry, and `messageIn` would turn it into an `ERROR` message.
- Text is a sequence of bytes: one `char` of a Dafny string stands for one byte of a `std::string`. No character encoding is modelled.
- Entries of the table are never removed, neither by the code nor by `Reassembly.Receive`. The reassembly lemmas are stated for a `cmdId` not yet in the table. A reused `cmdId` meets its stale entry: it completes early, or it is refused when its count differs.
- Writing to standard output and to `std::cerr`. Standard output is the string field `output`, appended to. The log line at `MainLoop.cpp:186` is not modelled.
- Threads, the mutex, the condition variable and `notify_all`. A pass of `run` is one sequential step. The wait for work returns `Blocked`, since the wake-up comes from another thread. Calls made while the lock is released cannot change the queues in this model.
- The unbounded `while` loop of `run` itself. One pass is `Host.MainLoop.RunOnce`, and k passes are `Scheduler.Run`.
- The plugin loader's internals (`PluginLoader::LoadPlugin`, `Init`, `getPluginName`). They are the `loader` parameter.
- The code reached through function pointers: the deferred calls, `m_hFuncs.call` and `m_hFuncs.cmdCallback`. They are recorded as events.
- The table set-up at `MainLoop.cpp:188-196`. This is where `m_hFuncs.call` and `m_hFuncs.cmdCallback` are pointed at `doCommand` and `doCommandCallback`. It is not part of this model.
- The exact text of exceptions. They are caught by value as `std::exception`, so `what()` is one implementation-defined text. That text is the parameter `what`. The model does not distinguish the causes in what it writes.
- `MainLoop::get` (the singleton) and `m_url`: plumbing. The global `msgMap` is a field of the one loop.
- `m_needsToExit` is never set in the code shown. The field is kept, and no operation sets it.
- The `type` of a freshly created table entry is left uninitialised, and every reader overwrites it. The model stores `Unknown`.
- Host.MainLoop.SendCommand: requires a payload shorter than 2^31 bytes, because the `(int)` casts at `MainLoop.cpp:161` turn a longer remainder negative. Longer payloads are not modelled.
- Host.MainLoop.SendCommand: does not model the 32-bit truncation of `strCommandLen`. This truncation cannot occur below the 2^31 bound.
- Outbound.CountChunks: the floating-point `ceil` is integer ceiling division. The two agree for every 32-bit length.
- Scheduler.Step: does not model the pass when `pop_front` is applied to an empty `m_AsyncCalls`. That is undefined behaviour, excluded by `Scheduler.StepDefined`.

## Findings

The class `Host.MainLoop` follows the code as written. Each corrected definition stands beside the
as-written one, with the intended property proved about it.

| source | as written | input that shows it | evidently intended | confidence | as-written member | corrected member |
|---|---|---|---|---|---|---|
| src/NativeMessageHost/MainLoop.cpp:103 | `getMessageInfo(c, cmdId)` against the signature `(msgId, c)`, and the entry is copied before it is updated | with nothing stored under 2, two chunks `{cmdId: 5, c: 2, n: 1}` and `{cmdId: 5, c: 2, n: 2}`: each parses to a message with `curC == 1` of 5 slots, so neither completes and the command is never delivered | look up `getMessageInfo(cmdId, c)` and update the stored entry, so the chunks of one command reassemble | high (not executed) | `Envelope.SplitCommandNeverCompletes` | `Reassembly.ReassemblyRoundTrip` |
| src/NativeMessageHost/MainLoop.cpp:253 | the second test is `type == COMMAND` | `{cmd: "create", mimetype: "application/x-fbtestplugin"}` loads nothing: when `messageIn` queues it, it is answered "Unknown message" | test `CREATE`, so a create loads the plugin and a command is forwarded through `call` | high (not executed) | `Host.CreateRequestRejected` | `Host.CreateRequestLoads` |
| src/NativeMessageHost/MainLoop.cpp:228 | after reading the front inbound message, `m_AsyncCalls.pop_front()` | one queued message and 2k deferred calls: over k passes the same message is handled every time and only the calls at even positions run; a further pass pops an empty deque | pop `m_messagesIn`, so the message is consumed and every deferred call runs | high (not executed) | `Scheduler.RunRepeatsHead` | `Scheduler.IntendedRunIsFair` |

# Shiny Server core, modelled in Dafny

This project models the sequential logic at the heart of Shiny Server and proves properties of it. It covers six areas.

- **Robust-reconnect message protocol.**
  - Messages carry hex ids (`ID#data`, `ACK n`, `CONTINUE n`).
  - A replay buffer keeps the messages the peer has not acknowledged.
  - A receiver tracks the next id it expects.
  - The server decides whether a connection is new, a resume, a retry or a collision.
- **Multiplex channel framing.** Covers `id|m|…`, `id|o|…` and `id|c|…` on the server and the client, and the channel state machine (readyState 0 → 1 → 3).
- **The configuration language.** Covers the lexer, the recursive-descent parser, lookups in the configuration tree, and the schema with its typed conversions.
- **Routing and scheduling rules.**
  - Server scoring and location paths.
  - Directory decomposition of a URL.
  - Path parameters and the worker-URL fixup.
  - Run-as squashing and regex quoting.
  - The simple scheduler's capacity rule and the worker entry's counters.
- **Small data structures.**
  - The sentinel doubly linked list.
  - The reference counter.
  - The line splitter.
  - The tail-of-file trimming.
  - The listener table of the HTTP server.
- **Native launcher and identity shims.**
  - The launcher's base-directory lookup and argument vector.
  - The `getpwnam` binding.
  - The `initgroups`/`getgroups` binding.

Each source file that changes state step by step is modelled as a Dafny `class` whose methods have `modifies` clauses and loops with invariants. Each such method is proved against a specification function. Pure code becomes datatypes, functions and lemmas. Timers, sockets, files, processes and system calls are not executed. They become inputs (what the call reports) or events (a timer firing, a message arriving), and the calls made are recorded where their order matters.

`common.dfy` holds what the modules share: Option and Result, string splitting and joining, decimal numbers, and character classes.

Notes on how the model reads the program:
- The launcher's base directory is `dirname(dirname(target))` of the `/proc/<pid>/exe` link target (`src/launcher.cc:111`).
- The simple scheduler's soft limit is modelled as the code computes it. One test in `test/simple-scheduler.js`, "should approach the MAX_REQUESTS directive", expects an admission that this soft limit refuses.
- Each defect listed under "## Findings" is modelled twice: once as written and once corrected. The operations that the rest of the model builds on run the corrected half. "## Left out" names each such operation, starting its line with the member's name.

## Model

| member | source | states |
|---|---|---|
| MessageUtils.FormatId | node_modules/shiny-server-js/common/message-utils.js:2-4 | The id is written as one or more upper-case hex digits, with no leading zero |
| MessageUtils.ParseFormatId | node_modules/shiny-server-js/common/message-utils.js:2-9 | `parseId(formatId(n)) == n` for every n >= 0 |
| MessageUtils.HexDigitValue | node_modules/shiny-server-js/common/message-utils.js:7-9 | Each hex digit stands for a value below 16 |
| MessageUtils.HexPrefixLength | node_modules/shiny-server-js/common/message-utils.js:12 | The longest leading run of `[\dA-F]`: all hex, and stopped by a non-hex character or the end |
| MessageUtils.ParseTag | node_modules/shiny-server-js/common/message-utils.js:11-21 | Null exactly when the value is not `<hex>#<data>`; otherwise the id is the value of the hex part and the data is everything after '#' |
| MessageUtils.TaggedOnlyAtHexEnd | node_modules/shiny-server-js/common/message-utils.js:12 | The '#' of a tag can only follow the whole leading hex run, so the split is unique |
| MessageUtils.ParseTagOfWrite | node_modules/shiny-server-js/common/message-utils.js:11-21 | `parseTag(formatId(n) + "#" + d)` gives back n and d, for d without a line terminator |
| MessageUtils.ParseControl | node_modules/shiny-server-js/common/message-utils.js:23-37 | A keyword followed by hex digits only parses, and gives the value of those digits; anything else is null |
| MessageUtils.ParseAck | node_modules/shiny-server-js/common/message-utils.js:31-37 | `parseACK` accepts exactly "ACK " followed by one or more hex digits |
| MessageUtils.ParseContinue | node_modules/shiny-server-js/common/message-utils.js:23-29 | `parseCONTINUE` accepts exactly "CONTINUE " followed by one or more hex digits |
| MessageUtils.ParseAckOfFormat | node_modules/shiny-server-js/common/message-utils.js:31-37 | "ACK " + formatId(n) parses back to n |
| MessageUtils.ParseContinueOfFormat | node_modules/shiny-server-js/common/message-utils.js:23-29 | "CONTINUE " + formatId(n) parses back to n |
| MessageUtils.ControlMessagesAreDisjoint | node_modules/shiny-server-js/common/message-utils.js:11-37 | An ACK is never a CONTINUE or a tagged message, and a CONTINUE is never a tagged message |
| MessageBuffer.TaggedFrom | node_modules/shiny-server-js/common/message-buffer.js:12-16 | The kept wire forms: message i tagged with its own id |
| MessageBuffer.MessageBuffer.constructor | node_modules/shiny-server-js/common/message-buffer.js:6-10 | An empty buffer at id 0 |
| MessageBuffer.MessageBuffer.NextId | node_modules/shiny-server-js/common/message-buffer.js:48-50 | The next id is startIndex + the number of kept messages (the buffer's invariant) |
| MessageBuffer.MessageBuffer.Write | node_modules/shiny-server-js/common/message-buffer.js:12-16 | The message is tagged `formatId(id) + "#" + msg` and appended, the id grows by exactly 1, and the invariant is kept |
| MessageBuffer.MessageBuffer.Discard | node_modules/shiny-server-js/common/message-buffer.js:30-46 | Within [startIndex, startIndex + len] it drops exactly n - startIndex oldest messages, moves startIndex to n and returns the count; outside, it throws "too small"/"too big" and changes nothing |
| MessageBuffer.MessageBuffer.HandleAck | node_modules/shiny-server-js/common/message-buffer.js:18-24 | A non-ACK returns -1 and changes nothing; an ACK discards up to its id, with discard's errors |
| MessageBuffer.MessageBuffer.MessagesFrom | node_modules/shiny-server-js/common/message-buffer.js:53-63 | The suffix of kept messages from the given id; an id below startIndex or above the next id throws the matching error |
| MessageBuffer.TaggedFromSuffix | node_modules/shiny-server-js/common/message-buffer.js:43 | Dropping k kept messages leaves the messages tagged from id startIndex + k |
| MessageBuffer.EleventhMessage | node_modules/shiny-server-js/test/reconnect.js:153-177 | The 11th message written is sent as "A#k" |
| MessageReceiver.MatchIdPrefix | node_modules/shiny-server-js/common/message-receiver.js:16-23 | `/^([\dA-F]+)#/` matches exactly when a hex run is followed by '#', and the rest of the message is kept whole, line terminators included |
| MessageReceiver.HexRunEndsAtPrefixLength | node_modules/shiny-server-js/common/message-receiver.js:16 | The matched id is the whole leading hex run |
| MessageReceiver.MessageReceiver.constructor | node_modules/shiny-server-js/common/message-receiver.js:6-8 | The next id starts at 0 |
| MessageReceiver.MessageReceiver.Receive | node_modules/shiny-server-js/common/message-receiver.js:15-24 | Without a leading id it throws and changes nothing; otherwise the next id becomes id + 1 and the data after the tag is returned |
| MessageReceiver.MessageReceiver.Ack | node_modules/shiny-server-js/common/message-receiver.js:30-32 | The ACK it sends parses back to its next id |
| MessageReceiver.MessageReceiver.Continue | node_modules/shiny-server-js/common/message-receiver.js:34-36 | The CONTINUE it sends parses back to its next id |
| MessageReceiver.ReceiveOfWrite | node_modules/shiny-server-js/common/message-receiver.js:15-24 | A message written by the buffer with any data, newlines included, is received as that data with that id |
| RobustSockJs.InfoOf | lib/proxy/robust-sockjs.js:28-38 | `getInfo`: robust exactly when `n` or `o` is truthy; `n` wins and means a new session, otherwise `o` resumes one |
| RobustSockJs.Sends | lib/proxy/robust-sockjs.js:250-252 | Writing a list of messages one by one sends exactly those frames, in order |
| RobustSockJs.SockConn.Write | lib/proxy/robust-sockjs.js:165 | A write on the transport appends one data frame and leaves its state alone |
| RobustSockJs.SockConn.Close | lib/proxy/robust-sockjs.js:153-155 | A close on the transport appends one close frame with the code and reason |
| RobustSockJs.SendAll | lib/proxy/robust-sockjs.js:246-252 | `while (msgs.length) conn.write(msgs.shift())` sends every message in order |
| RobustSockJs.RobustConn.constructor | lib/proxy/robust-sockjs.js:120-177 | A new robust connection is nascent, does not expect CONTINUE, has an empty buffer and receiver, and takes the transport's readyState |
| RobustSockJs.RobustConn.Close | lib/proxy/robust-sockjs.js:153-155 | Closing the robust connection closes its current transport |
| RobustSockJs.RobustConn.Write | lib/proxy/robust-sockjs.js:156-167 | Every message is tagged and buffered; it is sent only when no CONTINUE is awaited and the transport is open |
| RobustSockJs.RobustConn.Set | lib/proxy/robust-sockjs.js:198-262 | A replaced transport is closed as RETIRED and withheld events are dropped; a resume sends CONTINUE and then waits for the peer's; a nascent restart resends the whole buffer |
| RobustSockJs.RobustConn.Retire | lib/proxy/robust-sockjs.js:199-216 | The stale transport gets the RETIRED close, and the withheld events and their timer are cleared |
| RobustSockJs.RobustConn.ResendFromStart | lib/proxy/robust-sockjs.js:232-252 | A nascent restart sends `getMessagesFrom(0)`, the whole buffer, on the new transport |
| RobustSockJs.RobustConn.OnData | lib/proxy/robust-sockjs.js:273-350 | Data ends the nascent state. An ACK discards acknowledged messages. While CONTINUE is awaited, anything else is a protocol error. Otherwise the message must carry an id and is passed on untagged |
| RobustSockJs.RobustConn.OnPayload | lib/proxy/robust-sockjs.js:320-350 | A non-ACK message while CONTINUE is awaited must be a CONTINUE, which replays from its id; otherwise the receiver strips the tag, or the connection closes with BAD_PROTOCOL |
| RobustSockJs.RobustConn.Replay | lib/proxy/robust-sockjs.js:325-332 | After CONTINUE c the buffer drops what the peer has seen and resends the rest in order, or fails as `discard` does |
| RobustSockJs.RobustConn.OnClose | lib/proxy/robust-sockjs.js:351-366 | 'end' and 'close' are withheld, and only the first of them arms the timer |
| RobustSockJs.RobustConn.EmitWithheld | lib/proxy/robust-sockjs.js:355-365 | The timer emits the withheld events last first, empties the list and marks the connection closed (readyState 3) |
| RobustSockJs.RobustConn.OnAckTimeout | lib/proxy/robust-sockjs.js:138-143 | On the ACK timer an open transport is sent an ACK for the receiver's next id |
| RobustSockJs.Reversed | lib/proxy/robust-sockjs.js:359-361 | Popping the withheld events visits them in reverse order |
| RobustSockJs.DecideRegistersOnlyNewIds | lib/proxy/robust-sockjs.js:58-116 | Only a new `n=` id that is not in the table registers. Resume, nascent restart and collision need an entry. A plain connection or the id "none" passes through |
| RobustSockJs.Registry.constructor | lib/proxy/robust-sockjs.js:43-49 | A falsy timeout means 15 seconds; the timeout is kept in milliseconds and the table starts empty |
| RobustSockJs.Registry.Robustify | lib/proxy/robust-sockjs.js:58-116 | A URL whose parameters cannot be extracted is an error. Otherwise each branch of the decision table has its effect, as `Route` states it: pass through, register, resume, restart a nascent connection, or close with BAD_IDENTIFIER on a collision or an unknown id |
| RobustSockJs.Registry.Route | lib/proxy/robust-sockjs.js:64-115 | The decision table applied to the registry, branch by branch. On a resume or a nascent restart the old transport gets the RETIRED close, the withheld events and their timer are cleared, and the new transport gets CONTINUE (resume) or the whole buffer (restart). A collision or an unknown id closes the new transport with BAD_IDENTIFIER. Entries other than the one named are left unchanged |
| RobustSockJs.Registry.Reconnect | lib/proxy/robust-sockjs.js:77-92 | An id in the table, on a resume or while the entry is nascent: the entry takes the new transport as `Handover` states, nothing is returned for the caller to wire, and every other entry is unchanged |
| RobustSockJs.Registry.Collide | lib/proxy/robust-sockjs.js:93-97 | A new session whose id a mature entry holds: the new transport is closed with BAD_IDENTIFIER and "Unable to open connection (RobustSockJS collision)", and the table is unchanged |
| RobustSockJs.Registry.RouteNew | lib/proxy/robust-sockjs.js:100-115 | An id not in the table: a resume closes the transport with BAD_IDENTIFIER, a new session adds one fresh nascent entry on this transport |
| RobustSockJs.Registry.AddEntry | lib/proxy/robust-sockjs.js:111 | A new id gets a fresh nascent robust connection on this transport, and nothing is sent |
| RobustSockJs.Registry.Handover | lib/proxy/robust-sockjs.js:81-91 | The existing entry takes the transport. The old transport gets the RETIRED close, and the withheld events and timer are cleared. A resume sends CONTINUE with the receiver's next id; a nascent restart resends the whole buffer. Every other entry is unchanged |
| RobustSockJs.Registry.FireWithheldTimer | lib/proxy/robust-sockjs.js:355-365 | The withheld events are emitted, the entry is deleted and the robust connection is closed for good |
| RobustSockJs.SockJsUrlParams | lib/proxy/robust-sockjs.js:29 | `/__sockjs__/<key>=<id>/` carries exactly the parameter key=id |
| RobustSockJs.GetInfoOfSockJsUrl | lib/proxy/robust-sockjs.js:28-38 | `n=id` asks for a new session with that id and `o=id` resumes it |
| RobustSockJs.KeysAfterFollowsDecide | lib/proxy/robust-sockjs.js:74-113 | Only a registration adds an id to the table, and no branch removes one |
| RobustSockJs.FourCasesKeepOneEntry | test/robust-sockjs.js:27-56 | A fresh `n=` registers one entry; a repeated `n=`, an `o=` resume and an `o=` for an unknown id all leave exactly that one entry |
| PathParams.Fragment | node_modules/shiny-server-client/common/path-params.js:6-14 | The fragment of no parameters is empty |
| PathParams.InsertionPoint | node_modules/shiny-server-client/common/path-params.js:15 | `/\/?(\?\|$)/` matches at the first '?' (or the end), taking one '/' just before it if there is one |
| PathParams.AddedPathParams | node_modules/shiny-server-client/common/path-params.js:5-16 | Adding fails exactly when some key or value is not made of word characters |
| PathParams.AddPathParams | node_modules/shiny-server-client/common/path-params.js:5-16 | The loop builds "/k=v" key by key and throws on the first unescaped one, giving `AddedPathParams` |
| PathParams.LetterRun | node_modules/shiny-server-client/common/path-params.js:34 | The leading run of ASCII letters, all letters and stopped by a non-letter or the end |
| PathParams.ParamChunkHasEquals | node_modules/shiny-server-client/common/path-params.js:34 | A chunk matching `/^[a-z]+=/i` has an '=' after its first character |
| PathParams.LettersThenEqualsIsParam | node_modules/shiny-server-client/common/path-params.js:34 | Letters, then '=', then anything is a parameter chunk |
| PathParams.LastParamEnd | node_modules/shiny-server-client/common/path-params.js:32-44 | The scan from the right finds the end of the last parameter chunk: nothing after it is a parameter |
| PathParams.RunStart | node_modules/shiny-server-client/common/path-params.js:32-44 | The scan continues left while chunks are parameters and stops at the first that is not |
| PathParams.SplitChunks | node_modules/shiny-server-client/common/path-params.js:46-64 | prefix + params + suffix is the whole chunk list; params are all parameter chunks, the suffix has none, and params are empty exactly when no chunk is a parameter |
| PathParams.ParseUrl | node_modules/shiny-server-client/common/path-params.js:18-65 | The backwards scan of `parseUrl` gives the reference split `UrlPartsOf` |
| PathParams.FormatParsedUrl | node_modules/shiny-server-client/common/path-params.js:18-74 | `formatUrl(parseUrl(url)) == url` for every URL `parseUrl` accepts |
| PathParams.ParseWithoutParams | node_modules/shiny-server-client/common/path-params.js:46-54 | A URL with no parameter chunk parses to all prefix, with no params and no suffix |
| PathParams.ParamMatchShape | node_modules/shiny-server-client/common/path-params.js:102 | `/^(.+)=(.*)$/` splits at the last '=' into a non-empty name and a value |
| PathParams.ChunkMatches | node_modules/shiny-server-client/common/path-params.js:102 | A chunk "k=v" written by `addPathParams` matches back to (k, v) |
| PathParams.LastNamed | node_modules/shiny-server-client/common/path-params.js:101-104 | The last chunk with a given name, and none after it has that name |
| PathParams.ParamsToMapLookup | node_modules/shiny-server-client/common/path-params.js:100-105 | The result object fails exactly when some chunk does not match; otherwise it holds exactly the chunks' names, each with the value of the last chunk of that name |
| PathParams.ExtractParams | node_modules/shiny-server-client/common/path-params.js:98-106 | `extractParams` parses and collects, giving `ExtractedParams` |
| PathParams.CollectParams | node_modules/shiny-server-client/common/path-params.js:101-104 | The loop records each chunk's match in the object, later names overwriting earlier ones |
| PathParams.AddThenExtract | node_modules/shiny-server-client/common/path-params.js:98-106 | Adding distinct letter-named parameters to a URL without parameters succeeds, and extracting gives exactly those parameters, in order, each with its value |
| PathParams.ChunksLookup | node_modules/shiny-server-client/common/path-params.js:100-105 | With distinct names, each name maps to its own value |
| PathParams.OrderIndex | node_modules/shiny-server-client/common/path-params.js:87 | `order.indexOf(name)`: the first position of the name, or -1 exactly when it is absent |
| PathParams.NonEmpty | node_modules/shiny-server-client/common/path-params.js:80 | The filter keeps only non-empty chunks of the input, and keeps all of them when none is empty |
| PathParams.Slots | node_modules/shiny-server-client/common/path-params.js:83-92 | `frontParams` has one slot per name in `order` |
| PathParams.SlotsHoldTheirNames | node_modules/shiny-server-client/common/path-params.js:87-90 | A slot only holds a chunk of the input whose name is that slot's name |
| PathParams.UnorderedAreUnnamed | node_modules/shiny-server-client/common/path-params.js:88-91 | The chunks left behind are input chunks whose names are not in `order` |
| PathParams.ReorderPathParams | node_modules/shiny-server-client/common/path-params.js:76-96 | `reorderPathParams` parses, reorders and formats, giving `ReorderedUrl` |
| PathParams.ReorderParamChunks | node_modules/shiny-server-client/common/path-params.js:80-93 | The body between parsing and formatting gives `ReorderedParams` |
| PathParams.MoveNamedToFront | node_modules/shiny-server-client/common/path-params.js:84-92 | The array loop moves each named chunk to its slot and deletes it from `params`, failing as the assertion does when a chunk does not match |
| PathParams.ReorderUnnamedIsIdentity | node_modules/shiny-server-client/common/path-params.js:76-96 | When no chunk is named in `order`, the URL comes back unchanged |
| PathParams.ReorderedLayout | node_modules/shiny-server-client/common/path-params.js:93 | The result has the named chunks first, in the order of `order`, then the others in their original order |
| ErrorCode.ClosureCode | lib/proxy/errorcode.js:59-77 | Every code lies in 4000-4799 and is the flag combination's block plus the normalised base |
| ErrorCode.NormalBase | lib/proxy/errorcode.js:60-63 | A base outside 0..99 is replaced by \|base\| mod 100, so it is at most 99 |
| ErrorCode.FlagBlocks | lib/proxy/errorcode.js:65-76 | No reconnect and no restart gives 45xx, both gives 46xx, restart only gives 47xx, and reconnect only gives 40xx |
| ErrorCode.ClosureCodeInjective | lib/proxy/errorcode.js:44-77 | Two calls give the same code exactly when they use the same normalised base and the same block |
| ErrorCode.ExportedCodes | lib/proxy/errorcode.js:50-56 | The seven exported codes have the values 4500, 4501, 4702, 4503, 4704, 4705 and 4506, and are pairwise distinct |
| MultiplexFraming.FormatMessage | lib/proxy/multiplex.js:147-149 | For a numeric id, `id|m|message` matches the frame pattern with that id, kind `m` and the message as payload |
| MultiplexFraming.FormatOpenEvent | lib/proxy/multiplex.js:150-152 | For a numeric id, `id|o|url` matches the frame pattern with that id, kind `o` and the URL as payload |
| MultiplexFraming.FormatCloseEvent | lib/proxy/multiplex.js:153-155 | For a numeric id, the close frame matches the frame pattern with that id, kind `c` and the JSON of the code and reason as payload |
| MultiplexFraming.ParseMultiplexData | lib/proxy/multiplex.js:156-189 | An accepted frame has a non-empty id of digits only. A close frame's code and reason are what `JSON.parse` makes of the first matching line's payload |
| MultiplexFraming.HexCode | lib/proxy/multiplex.js:174 | Four hex digits of a `\u` escape stand for a UTF-16 code unit |
| MultiplexFraming.UnescapeEscape | lib/proxy/multiplex.js:174 | The string body `JSON.stringify` writes reads back, through `JSON.parse`'s unescaping, as the original string |
| MultiplexFraming.DigitRun | lib/proxy/multiplex.js:158 | The run of decimal digits at a position, all digits and stopped by a non-digit or the end |
| MultiplexFraming.FirstMatchShape | lib/proxy/multiplex.js:158-165 | A frame is accepted only if some line starts with `<digits>\|<m\|o\|c>\|`, and the match carries exactly what follows |
| MultiplexFraming.ParseFormat | lib/proxy/multiplex.js:147-189 | Message, open and close frames as formatted parse back to their id, kind and payload |
| MultiplexFraming.BadCloseJsonRejected | lib/proxy/multiplex.js:172-177 | A close frame whose payload `JSON.parse` rejects is dropped as a whole |
| MultiplexFraming.NoBarRejected | lib/proxy/multiplex.js:158-160 | A frame with no '\|' at all is rejected |
| MultiplexFraming.LaterLineAccepted | lib/proxy/multiplex.js:158 | Because of the `m` flag, a valid frame on a later line is accepted after a junk first line |
| Multiplex.Normalize | lib/proxy/multiplex.js:82 | `path.normalize` never gives "", and keeps a leading slash and a trailing slash |
| Multiplex.NormalizedSegmentsNonEmpty | lib/proxy/multiplex.js:82 | The segments that normalisation keeps are never empty |
| Multiplex.SplitRooted | lib/proxy/multiplex.js:82 | Splitting "/" plus segments without '/' joined by '/', with an optional trailing "/", gives back "", the segments, and a final "" for the trailing slash |
| Multiplex.PathJoin | lib/proxy/multiplex.js:82 | `path.join` never gives "". The result is absolute when the first part is, or when the first part is empty and the second is absolute |
| Multiplex.FirstSockJsTail | lib/proxy/multiplex.js:81 | The first place where `/__sockjs__/` is followed by no line terminator up to the end |
| Multiplex.SegmentsClean | lib/proxy/multiplex.js:82 | Normalised segments never contain "", "." or ".." |
| Multiplex.NormalizeAbsolute | lib/proxy/multiplex.js:82 | An absolute path normalises to an absolute path with no "." or ".." segment, so a channel URL cannot climb above the root |
| Multiplex.ChannelUrlAbsolute | lib/proxy/multiplex.js:75-83 | A relative `o` payload on an absolute connection URL gives an absolute, clean channel URL |
| Multiplex.StripSockJsTail | lib/proxy/multiplex.js:81 | Everything from the first `/__sockjs__/` on is replaced by "/" |
| Multiplex.SockConn.Write | lib/proxy/multiplex.js:128-132 | A write on the physical connection appends one frame and changes nothing else |
| Multiplex.SockConn.Close | lib/proxy/multiplex.js:60 | A close on the physical connection is counted and changes nothing else |
| Multiplex.MultiplexChannel.constructor | lib/proxy/multiplex.js:115-122 | A channel copies readyState 1 from its connection and has no events yet |
| Multiplex.MultiplexChannel.Write | lib/proxy/multiplex.js:126-129 | A message is sent framed as `id\|m\|message` only while the channel is open |
| Multiplex.MultiplexChannel.Close | lib/proxy/multiplex.js:130-134 | A close frame is sent only when both the channel and the connection are open; the channel always ends closed with a close event |
| Multiplex.MultiplexChannel.End | lib/proxy/multiplex.js:135-137 | `end()` is `close()` with neither code nor reason |
| Multiplex.MultiplexChannel.Destroy | lib/proxy/multiplex.js:141-144 | Closed without telling the client, and the close event fires every time |
| Multiplex.MultiplexSocket.constructor | lib/proxy/multiplex.js:41-44 | A socket starts with no channels |
| Multiplex.MultiplexSocket.OnData | lib/proxy/multiplex.js:55-106 | An unparsable frame closes the physical connection. `o` for an unused id opens a channel at the resolved URL, and only `o` does. `c` destroys an existing channel, `m` passes data to it, and anything else is ignored |
| Multiplex.MultiplexSocket.OnClose | lib/proxy/multiplex.js:47-54 | When the physical connection closes, every channel is destroyed and the table is emptied |
| ClientMultiplex.ClientParseFormat | node_modules/shiny-server-js/lib/multiplex-client.js:171-206 | The client parser reads back message and close frames as the server's does, and rejects an `o` frame with an empty URL |
| ClientMultiplex.ClosedChannelReopened | node_modules/shiny-server-js/lib/multiplex-client.js:89-93 | As written, a channel closed before its deferred open runs is opened again: its close frame goes out before its open frame, and it ends at readyState 1 |
| ClientMultiplex.ClosedChannelStaysClosed | node_modules/shiny-server-js/lib/multiplex-client.js:89-93 | With the readyState check, a closed channel stays closed and sends nothing more |
| ClientMultiplex.CloseBeforeDeferredOpen | node_modules/shiny-server-js/lib/multiplex-client.js:89-93 | With the check, closing before the deferred open leaves only the close frame |
| ClientMultiplex.ClientConn.Send | node_modules/shiny-server-js/lib/multiplex-client.js:128-144 | A send on the connection is logged and changes nothing else |
| ClientMultiplex.ClientConn.Close | node_modules/shiny-server-js/lib/multiplex-client.js:59-108 | A close on the connection is logged and leaves it closed |
| ClientMultiplex.ClientChannel.constructor | node_modules/shiny-server-js/lib/multiplex-client.js:112-121 | A channel starts at readyState 0 with its id, connection and URL |
| ClientMultiplex.ClientChannel.Open | node_modules/shiny-server-js/lib/multiplex-client.js:122-131 | `_open` moves to readyState 1, sends the open frame and fires `onopen` |
| ClientMultiplex.ClientChannel.Send | node_modules/shiny-server-js/lib/multiplex-client.js:132-137 | Sending before the channel opens throws; while it is open a message frame goes out; once it is closed nothing happens |
| ClientMultiplex.ClientChannel.Close | node_modules/shiny-server-js/lib/multiplex-client.js:138-147 | Nothing happens once closing or closed; otherwise a close frame is sent if the connection is open, and then `_destroy` runs |
| ClientMultiplex.ClientChannel.Destroy | node_modules/shiny-server-js/lib/multiplex-client.js:149-160 | Only the first time: mark the channel closed and defer its removal and `onclose` |
| ClientMultiplex.MultiplexClient.constructor | node_modules/shiny-server-js/lib/multiplex-client.js:11-26 | No channels, a count of 0, next id 0, nothing pending |
| ClientMultiplex.MultiplexClient.Open | node_modules/shiny-server-js/lib/multiplex-client.js:79-101 | The channel takes the next id and is counted. It waits for the connection (readyState 0), opens on the next tick (readyState 1), or is closed on the next tick (otherwise) |
| ClientMultiplex.MultiplexClient.AddPending | node_modules/shiny-server-js/lib/multiplex-client.js:87 | The channel joins the pending list and nothing else changes |
| ClientMultiplex.MultiplexClient.Defer | node_modules/shiny-server-js/lib/multiplex-client.js:90-97 | The open or close is queued for the next tick and nothing else changes |
| ClientMultiplex.MultiplexClient.Register | node_modules/shiny-server-js/lib/multiplex-client.js:80-83 | The new channel goes under an id not yet in the table, and the count grows by one |
| ClientMultiplex.MultiplexClient.FreshId | node_modules/shiny-server-js/lib/multiplex-client.js:80 | The id `open` is about to use is not taken |
| ClientMultiplex.MultiplexClient.RemoveChannel | node_modules/shiny-server-js/lib/multiplex-client.js:102-110 | One channel fewer; the connection closes with the last channel unless it is already closing |
| ClientMultiplex.MultiplexClient.RunTask | node_modules/shiny-server-js/lib/multiplex-client.js:90-97 | The oldest deferred callback runs: an open, a close or a removal |
| ClientMultiplex.MultiplexClient.RunRemoval | node_modules/shiny-server-js/lib/multiplex-client.js:154-158 | A deferred removal removes the channel and then delivers its `onclose` |
| ClientMultiplex.MultiplexClient.OpenNextPending | node_modules/shiny-server-js/lib/multiplex-client.js:30-37 | One turn of the `onopen` loop: a pending channel is opened only if it is still at readyState 0 |
| ClientMultiplex.MultiplexClient.OnConnOpen | node_modules/shiny-server-js/lib/multiplex-client.js:27-39 | Every pending channel still waiting is opened, in the order it was opened |
| ClientMultiplex.MultiplexClient.OnConnClose | node_modules/shiny-server-js/lib/multiplex-client.js:40-54 | Every channel in the table is closed, a removal is deferred for each one not already closed, and then the `onclose` listeners run once |
| ClientMultiplex.MultiplexClient.OnMessage | node_modules/shiny-server-js/lib/multiplex-client.js:55-77 | An unparsable frame closes the connection. A frame for an unknown id is dropped. `c` closes the whole connection, and `m` reaches the channel's `onmessage` |
| ClientMultiplex.ClientConn.constructor | node_modules/shiny-server-js/lib/multiplex-client.js:85-86 | A new connection is connecting (readyState 0) and has sent nothing |
| ClientMultiplex.ClientConn.Connected | node_modules/shiny-server-js/lib/multiplex-client.js:27 | The connection becomes open (readyState 1) and sends nothing |
| ClientMultiplex.MultiplexClient.AddChannel | node_modules/shiny-server-js/lib/multiplex-client.js:79-83 | A new channel under the next decimal id, an id not yet in the table, enters the table. The id counter and the channel count each grow by one |
| ClientMultiplex.MultiplexClient.PopTask | node_modules/shiny-server-js/lib/multiplex-client.js:90-97 | The oldest queued task leaves the queue, and nothing else changes |
| ClientMultiplex.MultiplexClient.DestroyEntry | node_modules/shiny-server-js/lib/multiplex-client.js:46-49 | The entry is destroyed (readyState 3). A removal task is queued only when it was not destroyed already, and no other channel changes |
| ClientMultiplex.MultiplexClient.NotifyClosed | node_modules/shiny-server-js/lib/multiplex-client.js:51-53 | The connection's close listeners run once more, and no channel changes |
| ConfigLexer.LineCol | lib/config/lexer.js:252-263 | Line and column are always at least 1 |
| ConfigLexer.LineCounts | lib/config/lexer.js:252-263 | The line is one more than the number of newlines before the cursor |
| ConfigLexer.FirstLine | lib/config/lexer.js:252-263 | Before the first newline, the column is the offset plus one |
| ConfigLexer.AfterNewline | lib/config/lexer.js:252-263 | Past a newline at `k`, the line is one more than that newline's line and the column counts from 1 after it |
| ConfigLexer.WordEnd | lib/config/lexer.js:176-190 | A word is the maximal run of letters, digits, backslashes and other printable characters |
| ConfigLexer.RunEnd | lib/config/lexer.js:240-247 | A regular-expression run is maximal: every character inside matches the class and the next one does not |
| ConfigLexer.WordEndAt | lib/config/lexer.js:176-190 | Any index that ends a run of word characters followed by a non-word character or the end is the word's end |
| ConfigLexer.RunEndAt | lib/config/lexer.js:240-247 | Any index that ends a run of the class, followed by a character outside it or the end, is the run's end |
| ConfigLexer.QuotedFrom | lib/config/lexer.js:205-238 | A closed quoted string ends past its start and within the data |
| ConfigLexer.TokenAt | lib/config/lexer.js:101-174 | The token carries the line, column and offset of its start. It is the end-of-data token exactly at the end, and any other token moves the cursor forward |
| ConfigLexer.WordToken | lib/config/lexer.js:119-125 | A word token holds the non-empty text of the word at its start |
| ConfigLexer.QuotedToken | lib/config/lexer.js:150-157 | A quoted string is a word token at the opening quote. An unclosed one throws an error that carries the quote's position |
| ConfigLexer.StripFirstCarriageReturn | lib/config/lexer.js:81 | Text without "\r" is unchanged. Otherwise exactly one character is removed |
| ConfigLexer.StripFirstDropsFirst | lib/config/lexer.js:81 | The character removed is the first "\r", and the text on both sides of it is kept |
| ConfigLexer.StripCarriageReturns | lib/config/lexer.js:80-82 | What the constructor's comment promises: no carriage return is left, and every other character keeps its count. Text without a carriage return is unchanged |
| ConfigLexer.CarriageReturnKept | lib/config/lexer.js:81 | The constructor as written drops only the first carriage return, so `"a\r\n\r\nb"` keeps its second one |
| ConfigLexer.Lexer.constructor | lib/config/lexer.js:80-91 | The lexer starts at offset 0, line 1, column 1, on the data with its carriage returns removed |
| ConfigLexer.Lexer.Eod | lib/config/lexer.js:293-295 | True exactly at the end of the data |
| ConfigLexer.Lexer.PeekChar | lib/config/lexer.js:286-290 | The character at the cursor, or null at the end, without moving |
| ConfigLexer.Lexer.NextChar | lib/config/lexer.js:252-263 | The character at the cursor, moving one step on while keeping line and column in step; null at the end, without moving |
| ConfigLexer.Lexer.AdvanceBy | lib/config/lexer.js:273-281 | Moves the cursor exactly `n` characters on, with line and column kept in step |
| ConfigLexer.Lexer.ConsumeRun | lib/config/lexer.js:240-247 | Returns the maximal run of the class at the cursor and moves past it |
| ConfigLexer.Lexer.MatchWord | lib/config/lexer.js:176-190 | Returns the maximal word at the cursor and moves past it |
| ConfigLexer.Lexer.QuotedStep | lib/config/lexer.js:210-236 | One turn of the quoted-string loop reads the plain run and then the special character after it |
| ConfigLexer.Lexer.MatchQuoted | lib/config/lexer.js:205-238 | Returns the unescaped body and stops past the closing quote. An unclosed string returns null, with the cursor at the end |
| ConfigLexer.Lexer.NextToken | lib/config/lexer.js:101-174 | Returns the token at the cursor, or throws, as `TokenAt` says, and moves past it |
| ConfigLexer.WordAt | lib/config/lexer.js:119-125 | At a word character, the token is the whole word at the current line and column |
| ConfigLexer.BlanksAt | lib/config/lexer.js:142-145 | At a blank, the token is the whole run of blanks as a white-space token |
| ConfigLexer.QuotedAt | lib/config/lexer.js:150-157 | At a quote, the token is the unescaped body as a word token |
| ConfigLexer.QuotedBodyAt | lib/config/lexer.js:205-238 | An escaped body closed by the opening quote reads back as the body, ending right after the closing quote |
| ConfigLexer.SampleFirstWord | manual.test/test-config-lexer.js:45-46 | `foo  \t    b12?ar` starts with the word `foo` at 1:1 |
| ConfigLexer.SampleBlanks | manual.test/test-config-lexer.js:45-47 | Then come the blanks, tab included, at 1:4 |
| ConfigLexer.SampleLastWord | manual.test/test-config-lexer.js:45-48 | Then comes `b12?ar` at 1:11 |
| ConfigLexer.SampleEnd | manual.test/test-config-lexer.js:45-49 | Then the end of the data, and no further token |
| ConfigLexer.SampleQuoted | manual.test/test-config-lexer.js:77-79 | A quoted string over a newline keeps the newline and starts at 1:4 |
| ConfigLexer.SampleAfterQuoted | manual.test/test-config-lexer.js:77-80 | The word after it is at 2:5 |
| ConfigLexer.SampleErrors | manual.test/test-config-lexer.js:89-92 | An unclosed quote and a control character both throw |
| ConfigLexer.QuotedPieceSpec | lib/config/lexer.js:210-236 | Each turn of the loop keeps the body read so far a prefix of the whole body, or finishes it, or finds it unclosed at the end |
| ConfigLexer.Escape | lib/config/lexer.js:227-233 | Escaping never shortens the text |
| ConfigLexer.QuotedEscape | lib/config/lexer.js:205-238 | The reader inverts escaping: text escaped and closed with the quote reads back as itself, ending right after the quote |
| ConfigLexer.PlainRun | lib/config/lexer.js:211-213 | A run without quotes or backslashes is taken into the body as it stands |
| Parser.Name | lib/config/parser.js:28-30 | A directive has a name exactly when it has a name token |
| Parser.ArgValues | lib/config/parser.js:31-33 | The argument values are the tokens' contents, one for one and in order |
| Parser.LexingScans | lib/config/parser.js:131-144 | The lexer moves forward within the data, only the end-of-data token stays in place, and every error it throws carries a position |
| Parser.Significant | lib/config/parser.js:131-144 | The next token returned is never white space or a comment. A real token moves the cursor forward, and the end-of-data token is at the end |
| Parser.Children | lib/config/parser.js:59-80 | Every error carries a position, and every directive read is well formed. At the root, the end of the data ends the children and the whole data is read, and a `}` throws "Unexpected } character encountered" at that `}`. Inside a block, a `}` ends the children and the end of the data throws "The scope was never closed" at the parent's position |
| Parser.One | lib/config/parser.js:82-129 | Every error carries a position. An empty statement `;` is skipped. A directive is well formed, consumes input and is named inside what it consumed. The end of the data is reported only at the end |
| Parser.Rest | lib/config/parser.js:105-127 | A directive read keeps its name token, extends the arguments collected so far and is well formed. Every error carries a position, and the cursor stays within the data |
| Parser.Ending | lib/config/parser.js:115-123 | `;` ends a directive with its arguments and no children. A `}` throws the missing-semicolon message at the `}`, and the end of the data throws "Unterminated directive" at the directive's name. A lexer error passes through |
| Parser.Block | lib/config/parser.js:112-114 | A block's directive holds the children read up to its closing `}` |
| Parser.WithPosition | lib/config/parser.js:51-55 | A thrown error keeps its position and gets ` (position)` appended to its message |
| Parser.Root | lib/config/parser.js:46-57 | An error thrown by `parse` always carries a position |
| Parser.Parse | lib/config/parser.js:40-57 | The result is a root directive with no name and no arguments whose children are all well formed, or an error with a position |
| Parser.ChildrenInSourceOrder | lib/config/parser.js:59-80 | The directives a block reads are in source order, each named inside the input the block consumed |
| Parser.InSourceOrderCons | lib/config/parser.js:77 | A directive named before a run of directives in source order keeps the order when it goes in front |
| Parser.ParseInSourceOrder | lib/config/parser.js:40-80 | The root's children come in the order their names appear in the data |
| Parser.UnexpectedCloseAtRoot | lib/config/parser.js:70-74 | A lone `}` throws "Unexpected } character encountered" at 1:1 |
| Parser.MissingSemicolonBeforeClose | lib/config/parser.js:115-117 | `a }` throws the missing-semicolon message at the `}`, 1:3 |
| Parser.UnterminatedDirective | lib/config/parser.js:120-123 | `a` throws "Unterminated directive" at the name, 1:1 |
| Parser.EmptyStatementsSkipped | lib/config/parser.js:94-96 | `;;a;` parses to a root holding the one directive `a`, at 1:3 |
| Parser.PrependNone | lib/config/parser.js:77 | Nothing pushed leaves the result unchanged |
| Parser.PrependOne | lib/config/parser.js:77 | Pushing children one at a time is the same as pushing them all at once |
| Parser.UnclosedScope | lib/config/parser.js:64-68 | `a {` throws "The scope was never closed", pointing at the directive's name at 1:1 |
| Parser.TokensOfOpenBlock | lib/config/lexer.js:101-174 | The tokens of `a {`: a word, a blank, an open brace, then the end |
| Parser.ConfigParser.constructor | lib/config/parser.js:40-42 | The parser's lexer starts at offset 0 on the data with carriage returns removed |
| Parser.ConfigParser.NextToken | lib/config/parser.js:131-144 | Reads and drops white space and comments, as `Significant` says |
| Parser.ConfigParser.ParseOne | lib/config/parser.js:82-129 | Reads one directive, the end, or a `}`, as `One` says |
| Parser.ConfigParser.ParseDirective | lib/config/parser.js:105-127 | Reads the arguments and the ending, as `Rest` says |
| Parser.ConfigParser.ParseChildDirectives | lib/config/parser.js:59-80 | Pushes each directive read onto the children, as `Children` says |
| Parser.ConfigParser.Parse | lib/config/parser.js:46-57 | Returns the root directive or the positioned error, as `Root` says |
| ConfigTree.ToConfigs | lib/config/config.js:62-64 | Each child directive becomes exactly one child node |
| ConfigTree.ParseConfig | lib/config/config.js:53-56 | `parse` succeeds exactly when the parser does. Its result is the nameless root node built from the parsed directive |
| ConfigTree.ToConfigDepths | lib/config/config.js:58-66 | The root is at depth 0 and every child is one level below its parent |
| ConfigTree.ToConfigsDepths | lib/config/config.js:62-64 | Sibling nodes all sit at the same depth, and their descendants below them |
| ConfigTree.ToConfigsInOrder | lib/config/config.js:62-64 | The child nodes follow the directives in source order, one for one |
| ConfigTree.ToConfigFields | lib/config/config.js:58-61 | A node takes its directive's name, argument values and the name token's position. It starts with no values and as many children as the directive |
| ConfigTree.MakePredicate | lib/config/config.js:207-223 | `true` and `false` match all nodes or none. A string matches nodes with exactly that name. Any other kind of criteria throws "Unexpected criteria type" |
| ConfigTree.RootHasNoName | lib/config/config.js:217-219 | No string criteria matches the nameless root, but a regular expression testing "null" does |
| ConfigTree.FirstMatch | lib/config/config.js:118 | `_.find` returns the first matching element, or nothing when none matches |
| ConfigTree.FindUpNearest | lib/config/config.js:112-125 | A lookup finds a node exactly when some level within reach has a matching child. The node found is the first match at the nearest such level |
| ConfigTree.GetOne | lib/config/config.js:112-125 | Inheritance defaults to true. Unsupported criteria throw, and otherwise the lookup climbs the ancestors as `FindUp` says |
| ConfigTree.GetValues | lib/config/config.js:133-139 | Returns the found node's values, or `{}` when no node is found or it has no values |
| ConfigTree.GetValue | lib/config/config.js:164-173 | Returns the first argument of the found node. The caller's default comes back exactly when no node is found or it has no arguments |
| ConfigTree.Filter | lib/config/config.js:149 | `_.filter` keeps exactly the matching elements and never lengthens the list |
| ConfigTree.FilterAppend | lib/config/config.js:149 | Filtering keeps order: it distributes over concatenation |
| ConfigTree.FilterAll | lib/config/config.js:149 | When every element matches, filtering keeps them all |
| ConfigTree.GetAll | lib/config/config.js:148-150 | Returns exactly the matching direct children, in order |
| ConfigTree.ToConfig | lib/config/config.js:58-66 | A node has the directive's name and argument values, the given depth, no values yet, a position exactly when the directive has a name token, and one child per child directive |
| ConfigTree.FindUp | lib/config/config.js:112-125 | Whatever is found matches the criteria. Without `inherit`, something is found exactly when one of the node's own children matches |
| ConfigTree.SearchFrom | lib/config/config.js:191-205 | With `includeSelf`, a matching node is in its own result. Without it, a node with no children gives nothing |
| ConfigTree.Search | lib/config/config.js:191-205 | Unsupported criteria throw. Otherwise the search collects matching descendants depth first, including the node itself only when asked |
| ConfigTree.SearchIsPreorder | lib/config/config.js:189-201 | The search returns the matching nodes of the tree in pre-order, the node itself only when included |
| ConfigTree.SearchAllIsPreorder | lib/config/config.js:197-201 | Searching a list of children returns the matching nodes of their subtrees in pre-order |
| ConfigTree.SearchIsPostorder | lib/config/config.js:197-203 | With `postOrder`, the search returns the matching nodes in post-order |
| ConfigTree.SearchAllIsPostorder | lib/config/config.js:197-203 | With `postOrder`, searching a list of children returns their subtrees' matching nodes in post-order |
| ConfigTree.SampleLookups | test/test-config-config.js:11-24 | In the sample configuration, `runas` is `nobody` at the root and `jcheng` in `server { location / … }`. `search('location')` finds that location |
| ConfigTree.SampleInheritance | test/test-config-config.js:11-23 | From `server`, an inheriting lookup of `runas` reaches the root's `nobody`, and a non-inheriting one finds nothing |
| ConfigSchema.Lines | lib/config/schema.js:202-212 | The lines that `^` and `$` see under the `m` flag: at least one, none holding a line terminator |
| ConfigSchema.OneLine | lib/config/schema.js:202-212 | Text without line terminators is one line |
| ConfigSchema.LinesSplit | lib/config/schema.js:202-212 | A line terminator ends the first line |
| ConfigSchema.ToBooleanAsWritten | lib/config/schema.js:201-207 | As written, with the `m` flag: true exactly when some line is true/yes/on, in any letter case. False exactly when none is and some line is false/no/off |
| ConfigSchema.ToBoolean | lib/config/schema.js:201-207 | True exactly for true/yes/on and false exactly for false/no/off, in any letter case. Anything else throws "is not a valid Boolean value" |
| ConfigSchema.ToBooleanOneLine | lib/config/schema.js:201-207 | On a value of one line, the written and the whole-value readings agree |
| ConfigSchema.ToBooleanSecondLine | lib/config/schema.js:202 | As written, `"maybe\nyes"` reads as true, though it is no Boolean |
| ConfigSchema.HexDigitValue | lib/config/schema.js:210-211 | A hexadecimal digit's value is below 16 |
| ConfigSchema.PrefixWhile | lib/config/schema.js:167 | The longest prefix whose characters all pass the test: the character after it fails |
| ConfigSchema.ToIntegerAsWritten | lib/config/schema.js:209-215 | As written, with the `m` flag: accepted exactly when some line is hexadecimal or decimal digits, and the value is `parseInt` of the whole text |
| ConfigSchema.ToInteger | lib/config/schema.js:209-215 | Accepted exactly when the whole value is `0x` and hexadecimal digits, or an optional `-` and decimal digits. Anything else throws "is not a valid Integer value" |
| ConfigSchema.ToIntegerOneLine | lib/config/schema.js:209-215 | On a value of one line, the written and the whole-value readings agree |
| ConfigSchema.ParseInt | lib/config/schema.js:209-213 | `parseInt` gives an integer or NaN, and a non-negative integer for text that starts with a digit from 1 to 9 |
| ConfigSchema.ParseIntHex | lib/config/schema.js:210-211 | `parseInt` of a whole hexadecimal value is the value of its digits |
| ConfigSchema.ParseIntDecimal | lib/config/schema.js:212-213 | `parseInt` of a whole decimal value is its value, negated after a `-` |
| ConfigSchema.ToIntegerDecimal | lib/config/schema.js:209-215 | Formatted numbers read back: `ToInteger(String(n))` is `n` and `ToInteger("-" + String(n))` is `-n` |
| ConfigSchema.ToIntegerSecondLine | lib/config/schema.js:212-213 | As written, `"abc\n12"` is admitted and gives NaN |
| ConfigSchema.ParseIntNoDigit | lib/config/schema.js:211 | `parseInt` of text that starts with no blank, sign or digit is NaN |
| ConfigSchema.TypeNamed | lib/config/schema.js:194-199 | The known types are exactly Boolean, Integer, Float and String |
| ConfigSchema.Convert | lib/config/schema.js:194-222 | String keeps the text, Boolean and Integer convert as above, and Float accepts exactly what its pattern admits |
| ConfigSchema.ThrowFor | lib/config/schema.js:225-230 | The node's position is appended to the message exactly when the node has one |
| ConfigSchema.ParamName | lib/config/schema.js:167 | The name is never longer than its spelling. A name that differs from the spelling is non-empty and holds no bracket and no dot |
| ConfigSchema.ParamSpellings | lib/config/schema.js:167-171 | `w`, `[w]`, `w...` and `[w]...` all name `w`. The bracket marks optional and the dots mark vararg |
| ConfigSchema.MakeParam | lib/config/schema.js:162-192 | Fewer than three arguments throw "Invalid schema specification". A parameter takes its type, name, description and markers from its arguments. A default value is present exactly when a fourth argument is, and then the parameter is optional and the default is the converted argument |
| SchemaRules.RankAsWritten | lib/config/schema.js:63-82 | As written, a parameter's order class tests `optional` before `vararg`, so `[x]...` counts as optional. The class is at most 2 |
| SchemaRules.Rank | lib/config/schema.js:63-82 | The intended class, with every vararg ranked last. The class is at most 2 |
| SchemaRules.Ranks | lib/config/schema.js:63-82 | Ranks the parameters one for one |
| SchemaRules.OrderErrorFrom | lib/config/schema.js:63-82 | Any error is one of the three order messages. From a memo of 0 or 1, a single class not below the memo passes |
| SchemaRules.WellOrderedTail | lib/config/schema.js:63-82 | A well-ordered list of classes stays well ordered without its first class, that class is not above the next, and the two are not both varargs |
| SchemaRules.OrderError | lib/config/schema.js:62-82 | Any error is one of the three order messages, and zero or one parameter always passes |
| SchemaRules.OrderErrorWellOrdered | lib/config/schema.js:63-82 | The reduction passes exactly when the classes, after the starting memo, never decrease and no two are varargs |
| SchemaRules.ZeroInFront | lib/config/schema.js:63 | Starting the reduction at 0 changes nothing |
| SchemaRules.OrderErrorIff | lib/config/schema.js:62-82 | The intended order check passes exactly when the parameters' classes are well ordered |
| SchemaRules.VarargLast | lib/config/schema.js:62-82 | Under the intended order, a vararg is always the last parameter |
| SchemaRules.TwoOptionalVarargs | lib/config/schema.js:63-82 | As written, `[a]...` followed by `[b]...` passes the order check; the intended check rejects it as a second vararg |
| SchemaRules.LimitOf | lib/config/schema.js:48 | Without `maxcount` there is no limit. Otherwise the number is what `>` and `>` with a string compare as: the empty string is 0, and digits give their value |
| SchemaRules.CountRequired | lib/config/schema.js:52-54 | The number of required parameters is at most the number of parameters |
| SchemaRules.MaxParams | lib/config/schema.js:55-57 | The maximum is infinite exactly when there is a vararg, and otherwise it is the number of parameters |
| SchemaRules.MakeParams | lib/config/schema.js:49-51 | On success there is one parameter per `param` child |
| SchemaRules.MakeParamsEach | lib/config/schema.js:49-51 | Each parameter is the one its own child makes, in order. An error is the error of the first child that fails |
| SchemaRules.ParamNodes | lib/config/schema.js:49 | `getAll('param')` returns exactly the children named `param` |
| SchemaRules.MakeRule | lib/config/schema.js:36-84 | A missing `at` throws "Bad schema: Missing "at" directive". `$` in `at` stands for the root. `maxcount` is inherited from the schema root. The parameters have distinct names and are in the intended order |
| SchemaRules.ArgCountError | lib/config/schema.js:99-109 | An error exactly when the argument count lies outside the parameters' minimum and maximum. It says too few or too many, what was expected and what was found |
| SchemaRules.HasVarargFirst | lib/config/schema.js:55-57 | There is a vararg exactly when the first vararg's index lies within the list |
| SchemaRules.FirstVararg | lib/config/schema.js:114-122 | The index of the first vararg; no parameter before it is a vararg |
| SchemaRules.ConvertAll | lib/config/schema.js:119-121 | Converting a run of arguments succeeds exactly when each one converts, and keeps the values in order |
| SchemaRules.VarargTakesRest | lib/config/schema.js:118-122 | Once the vararg is first, it collects every remaining argument's value in its list |
| SchemaRules.SlotShift | lib/config/schema.js:113-117 | Shifting a non-vararg parameter moves the binding of the later arguments one parameter on |
| SchemaRules.AllConvertShift | lib/config/schema.js:113-117 | Every argument converts exactly when the first converts under the first parameter and the rest convert under the rest |
| SchemaRules.BindOk | lib/config/schema.js:113-123 | Binding succeeds exactly when every argument converts under the parameter it is bound to |
| SchemaRules.BindLeft | lib/config/schema.js:113-123 | The parameters left are all but those shifted off, so a reached vararg stays |
| SchemaRules.BindFrame | lib/config/schema.js:113-123 | Keys other than the names of the parameters reached keep their values |
| SchemaRules.BindFixed | lib/config/schema.js:114-117 | With distinct names, each parameter before the vararg holds its own argument's value |
| SchemaRules.BindVararg | lib/config/schema.js:118-122 | A reached vararg appends the values of all the remaining arguments to its list |
| SchemaRules.DefaultsMeaning | lib/config/schema.js:124-129 | The intended defaults never overwrite a bound value. They give a default to exactly the unbound names that have one |
| SchemaRules.DefaultsKeys | lib/config/schema.js:124-129 | Every bound name stays bound, and the defaults add exactly the names of the optional parameters left that have a default value |
| SchemaRules.BuildRules | lib/config/schema.js:20-24 | An error in building the rules is the error of one of the schema's directives |
| SchemaRules.TransformArgs | lib/config/schema.js:98-131 | A count outside the bounds throws the count error before any conversion |
| SchemaRules.TransformOk | lib/config/schema.js:98-131 | The typed values exist exactly when the count fits and every argument converts |
| SchemaRules.LeftDistinct | lib/config/schema.js:111-123 | The parameters left after binding have distinct names when the rule's have |
| SchemaRules.TransformFixed | lib/config/schema.js:113-117 | Each parameter before the vararg holds the value of its own argument |
| SchemaRules.TransformVararg | lib/config/schema.js:118-122 | A reached vararg holds the list of all the remaining arguments' values, whatever its default |
| SchemaRules.TransformDefault | lib/config/schema.js:124-129 | A parameter the arguments do not reach holds its default when it has one |
| SchemaRules.TransformKeys | lib/config/schema.js:112-130 | Every typed value belongs to one of the rule's parameters |
| SchemaRules.VarargDefaultOverwrite | lib/config/schema.js:124-129 | As written, `[x]...` with default `z` and two arguments ends up holding `z`; the intended version keeps the list of both values |
| SchemaRules.ValidateAndTransformArgs | lib/config/schema.js:98-131 | The loops over the arguments and the parameters left compute exactly `TransformArgs` with the intended defaults |
| SchemaRules.CountNamed | lib/config/schema.js:138-144 | A count of same-named siblings never exceeds the number of siblings |
| SchemaRules.ValidateMaxCount | lib/config/schema.js:132-149 | Throws "directive appears too many times" exactly when `maxcount` is at most the number of siblings and more than `maxcount` same-named siblings come up to and including the directive |
| SchemaRules.CountNamedPrefix | lib/config/schema.js:138-144 | The count over a longer prefix is at least the count over a shorter one |
| SchemaRules.TooManyLater | lib/config/schema.js:132-149 | Once a directive is one too many, so is every later sibling with its name |
| SchemaRules.FirstNeverTooMany | lib/config/schema.js:132-149 | The first directive with its name passes any limit of at least 1 |
| SchemaRules.NoneNamed | lib/config/schema.js:138-144 | A list with no directive of that name counts 0 |
| SchemaRules.FirstPrecluded | lib/config/schema.js:150-158 | Returns a precluded name that names a sibling, or, when there is none, no precluded name names a child of the parent |
| SchemaRules.ApplyRule | lib/config/schema.js:86-158 | Succeeds exactly when every check passes, with the typed values. A parent outside `at` throws "can't be used here" first, and a count over the limit comes after the argument check |
| SchemaRules.BuildRulesKeys | lib/config/schema.js:21-24 | The rules are keyed by exactly the names the schema defines |
| SchemaRules.BuildRulesLast | lib/config/schema.js:21-24 | A later definition with the same name replaces an earlier one |
| SchemaRules.ApplyFrom | lib/config/schema.js:26-31 | A directive without a rule throws "Unknown directive". Each directive checked keeps its place |
| SchemaRules.ApplySchema | lib/config/schema.js:20-34 | The result is the same root with the same number of children |
| SchemaRules.AcceptedFromSplit | lib/config/schema.js:26-31 | The children from `i` on are accepted exactly when the `i`-th and its subtree are accepted and so are the rest |
| SchemaRules.ApplyFromAccepted | lib/config/schema.js:26-31 | The schema accepts the children from `i` on exactly when each of them, and everything below it, is accepted |
| SchemaRules.ApplySchemaAccepted | lib/config/schema.js:20-34 | A config tree passes the schema exactly when the rules build and every directive in it is accepted |
| SchemaRules.ApplyFromValues | lib/config/schema.js:26-31 | Each checked directive keeps its name, arguments, position and depth, and holds the typed values its rule computes |
| SchemaRules.UnknownDirective | test/test-config-config.js:30 | A first directive the schema does not define is reported as "Unknown directive" at its position |
| ConfigRouter.StripTrailingSlash | lib/router/config-router.js:324 | Removes exactly one trailing slash when there is one, and otherwise changes nothing |
| ConfigRouter.StripLeadingSlash | lib/router/config-router.js:324 | Removes exactly one leading slash when there is one, and otherwise changes nothing |
| ConfigRouter.JoinUrlParts | lib/router/config-router.js:323-325 | A leading slash on the first part and a trailing slash on the second survive the join |
| ConfigRouter.JoinUrlPartsOneSlash | lib/router/config-router.js:323-325 | Exactly one slash separates the parts, whether or not `a` ends with one and `b` starts with one |
| ConfigRouter.StripsCommute | lib/router/config-router.js:324 | On two or more characters, stripping the two ends commutes |
| ConfigRouter.StripTrailingAfterSlash | lib/router/config-router.js:324 | Stripping a trailing slash only touches the part after an inner slash |
| ConfigRouter.StripLeadingBeforeSlash | lib/router/config-router.js:324 | Stripping a leading slash only touches the part before an inner slash |
| ConfigRouter.JoinEmptyMiddle | lib/router/config-router.js:323-325 | Joining is associative when the middle part is empty or a single slash |
| ConfigRouter.JoinLongMiddle | lib/router/config-router.js:323-325 | Joining is associative when the middle part has two or more characters |
| ConfigRouter.JoinUrlPartsAssociative | lib/router/config-router.js:323-325 | Joining is associative, so a nested path can be joined from either end |
| ConfigRouter.Outermost | lib/router/config-router.js:329-332 | The loop climbs exactly through the parents named `location` and stops at the first parent that is not one |
| ConfigRouter.Rooted | lib/router/config-router.js:333-334 | The result starts with a slash, and a path that already has one is unchanged |
| ConfigRouter.DeriveLocationPath | lib/router/config-router.js:327-336 | The loop computes the location's full path from the enclosing locations' paths, and the result starts with `/` |
| ConfigRouter.JoinedToNested | lib/router/config-router.js:329-332 | Joining from the inside out is joining the outer locations' path onto the innermost one's |
| ConfigRouter.OutermostShift | lib/router/config-router.js:329-332 | Seen from the parent, the outermost location is one level closer |
| ConfigRouter.RootedJoinBare | lib/router/config-router.js:333-334 | Rooting after joining is joining onto the rooted path when the joined path does not start with a slash |
| ConfigRouter.JoinOntoRooted | lib/router/config-router.js:323-325 | Joining onto a path with a slash prefixed prefixes the slash to the join |
| ConfigRouter.JoinUnrooted | lib/router/config-router.js:323-325 | Joining onto a non-empty path with no leading slash gives no leading slash |
| ConfigRouter.RootedJoin | lib/router/config-router.js:323-336 | Rooting the joined path is joining onto the rooted path |
| ConfigRouter.NestedLocationPath | lib/router/config-router.js:327-336 | A nested location's path is its enclosing location's path joined with its own |
| ConfigRouter.VirtualHost | lib/router/config-router.js:279 | The virtual host is the Host header up to its first colon, in lower case, and holds no colon |
| ConfigRouter.GetScore | lib/router/config-router.js:268-308 | No address or connection, or another port, scores 0. A wildcard host adds 1 and the same address adds 2, and any other host scores 0. With names, the virtual host must be one of them and adds 3. The score is in {0, 1, 2, 4, 5} and positive exactly when the server can serve the request |
| ConfigRouter.ChainsFrom | lib/config/config.js:191-205 | Every node found comes with its ancestors, each followed by its parent |
| ConfigRouter.ChainsAll | lib/config/config.js:197-201 | Every node found among the children comes with its ancestors |
| ConfigRouter.Heads | lib/router/config-router.js:174 | The nodes at the head of the chains, one for one |
| ConfigRouter.HeadsAppend | lib/router/config-router.js:174 | The heads of two lists of chains are the heads of each, in order |
| ConfigRouter.ChainsFromAreSearch | lib/router/config-router.js:174 | The nodes the chains start with are exactly what `search` finds, in the same order |
| ConfigRouter.ChainsAllAreSearch | lib/router/config-router.js:174 | The same, over a list of children |
| ConfigRouter.ServerChains | lib/router/config-router.js:174 | Every `server` node below the root comes with its ancestors |
| ConfigRouter.ListenHost | lib/router/config-router.js:186-188 | A missing or empty host and `*` become `0.0.0.0` |
| ConfigRouter.Strings | lib/router/config-router.js:195 | The string elements of a list of values, which are never more than the list |
| ConfigRouter.ListenAddress | lib/router/config-router.js:180-193 | Accepted exactly when the port (80 when absent) is positive and the host is a dotted quad. Otherwise it throws "Invalid port number" or "Invalid IPv4 address" at the `listen` directive |
| ConfigRouter.ConfigureServerChecks | lib/router/config-router.js:175-195 | A server without a `listen` within reach throws "Required "listen" directive is missing" at the server. An accepted server has a positive port and a dotted-quad host |
| ConfigRouter.NonPositivePort | lib/router/config-router.js:183-184 | A port of zero or below throws "Invalid port number" at the `listen` directive |
| ConfigRouter.ServerKeys | lib/router/config-router.js:209-212 | One key `host:port(name)` per server name, or `host:port` alone when there are no names |
| ConfigRouter.ClaimKeysStep | lib/router/config-router.js:209-217 | Claiming keys one at a time: each key is added to those seen before the next |
| ConfigRouter.CreateFromStep | lib/router/config-router.js:174-220 | One accepted server: the remaining servers are created with its keys taken |
| ConfigRouter.PrependTwice | lib/router/config-router.js:174-220 | Prepending routers one at a time is prepending them together |
| ConfigRouter.ClaimServerKeys | lib/router/config-router.js:209-217 | The loop marks each key seen and throws a conflict at the first key seen before, as `ClaimKeys` says |
| ConfigRouter.CreateServers | lib/router/config-router.js:171-223 | The loop over the servers computes exactly `Servers(conf)` |
| ConfigRouter.CreateAll | lib/router/config-router.js:174-220 | The loop over the server chains, in order, stops at the first server that fails or claims a key already taken, and otherwise returns the routers `CreateFrom` gives |
| ConfigRouter.DistinctAppend | lib/router/config-router.js:209-217 | Two lists together are distinct exactly when each is and they share no key |
| ConfigRouter.ClaimKeysMeaning | lib/router/config-router.js:209-217 | Claiming succeeds exactly when the keys are distinct and none was seen before, and then all of them are seen |
| ConfigRouter.NoneSeenAppend | lib/router/config-router.js:209-217 | No key of two lists is seen exactly when no key of either is |
| ConfigRouter.NoneSeenUnion | lib/router/config-router.js:209-217 | No key is in the union of two sets exactly when none is in either |
| ConfigRouter.CreateFromOkIff | lib/router/config-router.js:171-223 | Creating the servers succeeds exactly when every server passes its checks and no two claim the same key |
| ConfigRouter.RoutersFrom | lib/router/config-router.js:174-220 | One router per server |
| ConfigRouter.CreateFromRouters | lib/router/config-router.js:174-220 | On success, the routers are those of the servers, in order |
| ConfigRouter.ServersMeaning | lib/router/config-router.js:171-223 | Leaving aside the `location` checks, which are not modelled: `createServers` succeeds exactly when every `server` passes its checks and every host:port(name) key is distinct. It then returns one router per `server` directive, in the order `search` finds them |
| DirectoryRouter.HexDigitValue | lib/router/directory-router.js:423 | A hexadecimal digit's value is below 16 |
| DirectoryRouter.EscapeAt | lib/router/directory-router.js:423 | An escape starts with `%` and takes three characters (`%XX`) or six (`%uXXXX`), never more than the text holds |
| DirectoryRouter.Unescape | lib/router/directory-router.js:70 | `unescape` never lengthens the text |
| DirectoryRouter.UnescapePlain | lib/router/directory-router.js:423 | Text without `%` unescapes to itself |
| DirectoryRouter.Hex2 | lib/router/directory-router.js:423 | Two hexadecimal digits, the high one first, give a value below 256 |
| DirectoryRouter.UnescapeByteEscape | lib/router/directory-router.js:423 | `%XX` becomes the character it stands for, and the rest is unescaped after it |
| DirectoryRouter.UnescapeSeparators | lib/router/directory-router.js:438-440 | `%2F`, `%5C` and `%2E`, in either letter case, come back as `/`, `\` and `.` |
| DirectoryRouter.TrailingSlashAt | lib/router/directory-router.js:43 | `/\/$/m` finds a slash at the end or just before a line terminator |
| DirectoryRouter.TrailingSlashAtEnd | lib/router/directory-router.js:43 | Without line terminators, the only slash it can find is the last character |
| DirectoryRouter.StripPrefixPlain | lib/router/directory-router.js:43 | For a prefix on one line, the constructor strips one trailing slash, if there is one |
| DirectoryRouter.StripPrefix | lib/router/directory-router.js:43 | The prefix comes back unchanged, or with exactly one '/' taken out |
| DirectoryRouter.HiddenStepAt | lib/router/directory-router.js:70 | A slash followed by a dot anywhere makes `/\/\./` match |
| DirectoryRouter.HiddenStepWhere | lib/router/directory-router.js:70 | When `/\/\./` matches, some slash is followed by a dot |
| DirectoryRouter.Dispatch | lib/router/directory-router.js:53-79 | Declined (null) exactly when the path does not start with the prefix followed by `/` or the end. A searched path is under the prefix, searched by its suffix, has no hidden step once unescaped, and passes the blacklist |
| DirectoryRouter.HiddenIsForbidden | lib/router/directory-router.js:69-77 | A path under the prefix whose unescaping holds `/.` is answered 403 and never searched |
| DirectoryRouter.EscapedDotIsHidden | lib/router/directory-router.js:70 | A dot written `%2e` or `%2E` right after a slash still makes a hidden step |
| DirectoryRouter.EscapedDotIsForbidden | lib/router/directory-router.js:69-77 | A path under the prefix with an escaped hidden step is answered 403 as well |
| DirectoryRouter.UnescapeConcatPlain | lib/router/directory-router.js:423 | Unescaping distributes over a prefix without `%` |
| DirectoryRouter.NextSlash | lib/router/directory-router.js:407-419 | The global search for a slash or the end of the path stops at the next slash, or at the end |
| DirectoryRouter.JudgeMeaning | lib/router/directory-router.js:426-440 | The loop refuses exactly the blank elements, `..`, and the elements that hold `/` or `\`. It skips exactly the empty element and `.`, and keeps every other element |
| DirectoryRouter.ExtractSkips | lib/router/directory-router.js:426-437 | An empty element, or `.`, is skipped |
| DirectoryRouter.ExtractRefuses | lib/router/directory-router.js:430-440 | A blank element, `..`, or an element holding a separator makes the result null |
| DirectoryRouter.ExtractAdds | lib/router/directory-router.js:442-446 | Any other element extends the path and adds an entry with the raw path up to its slash |
| DirectoryRouter.NextSlashClear | lib/router/directory-router.js:407-419 | No slash lies between the start and the next slash |
| DirectoryRouter.SegmentHasNoSlash | lib/router/directory-router.js:423 | The text between two stops holds no slash |
| DirectoryRouter.SplitAtSlash | lib/router/directory-router.js:419-424 | Splitting at a slash is the part before it, followed by the split of the rest |
| DirectoryRouter.SegmentsAreSplit | lib/router/directory-router.js:419-424 | The segments the loop visits are the `/`-separated parts of the path, as `split('/')` gives them |
| DirectoryRouter.PathsFrom | lib/router/directory-router.js:442-446 | One path per element |
| DirectoryRouter.Paths | lib/router/directory-router.js:446 | One path per entry |
| DirectoryRouter.PathAt | lib/router/directory-router.js:446 | The `k`-th path is the `k`-th entry's path |
| DirectoryRouter.PathsPush | lib/router/directory-router.js:446 | Pushing an entry appends its path |
| DirectoryRouter.SkippedSegment | lib/router/directory-router.js:426-437 | A segment that unescapes to nothing or to `.` leaves no trace |
| DirectoryRouter.RefusedSegment | lib/router/directory-router.js:430-440 | A segment that unescapes to an unsafe element spoils the whole path |
| DirectoryRouter.AddedSegment | lib/router/directory-router.js:442-446 | A segment that unescapes to a usable element adds one directory level |
| DirectoryRouter.ExtractFromMeaning | lib/router/directory-router.js:419-447 | From any position on, the loop refuses or adds exactly as the remaining segments say, for any unescaping function |
| DirectoryRouter.ExtractFrom | lib/router/directory-router.js:419-447 | The loop only appends to the entries it starts with |
| DirectoryRouter.Extract | lib/router/directory-router.js:406-449 | A result that is not null starts with the root entry `{path: '', rawPath: ''}` |
| DirectoryRouter.UsablesAreUsable | lib/router/directory-router.js:426-440 | When no segment is unsafe, every element kept names a directory |
| DirectoryRouter.PathsFromJoin | lib/router/directory-router.js:442-444 | Extending the path one element at a time is joining the elements with the separator |
| DirectoryRouter.ExtractMeaning | lib/router/directory-router.js:406-449 | The result is null exactly when some segment unescapes to a blank element, `..`, or an element holding `/` or `\`. Otherwise it lists the root, then one directory per remaining element other than empty and `.`, each one level below the one before |
| DirectoryRouter.RawPathsPush | lib/router/directory-router.js:446 | A pushed entry's raw path is the path up to the slash after its element, longer than the one before |
| DirectoryRouter.ExtendsTrans | lib/router/directory-router.js:419-447 | Extending an extension is an extension |
| DirectoryRouter.ExtractFromRawPaths | lib/router/directory-router.js:419-447 | The loop only appends, and what it appends are ever longer cuts of the path, for any unescaping function |
| DirectoryRouter.ExtractRawPaths | lib/router/directory-router.js:413-447 | The first entry is always the root `{path: '', rawPath: ''}`. The others carry the URL up to the slash, or the end, after their element, in order |
| DirectoryRouter.ExtractUnescapedDirs | lib/router/directory-router.js:406-449 | The function returns exactly `Extract(p)`, the loop run with the global `unescape` |
| DirectoryRouter.ExtractDirsWith | lib/router/directory-router.js:413-449 | The loop, written for any unescaping function, returns exactly `ExtractFrom` from position 0, the root entry and an empty path |
| DirectoryRouter.ExtractElement | lib/router/directory-router.js:419-446 | One pass: the element up to the next slash is skipped, refused (the loop returns null, as `ExtractFrom` does) or added, and what remains of the loop from the next position gives the same result |
| DirectoryRouter.SkipStep | lib/router/directory-router.js:426-437 | A skipped element leaves the loop's result that of the next segment on, and the segments are this one followed by the rest |
| DirectoryRouter.KeepStep | lib/router/directory-router.js:442-446 | A kept element leaves the loop's result that of the next segment on, with the path extended and one entry added |
| DirectoryRouter.DispatchUnder | lib/router/directory-router.js:69-78 | Under the prefix, a path is never declined. It is searched only when it has no hidden step and the blacklist passes it, and then by its suffix |
| DirectoryRouter.UnescapeKeepsHead | lib/router/directory-router.js:423 | A first character other than `%` is kept, and the rest is unescaped after it |
| FixupUrl.Fixup | node_modules/shiny-server-client/lib/fixup-url.js:7-34 | An href with no worker segment comes back unchanged. An href that is rewritten starts with the page's origin and path name |
| FixupUrl.HexRun | node_modules/shiny-server-client/lib/fixup-url.js:10 | The run of `[a-f0-9]` characters at the start is maximal |
| FixupUrl.WorkerAt | node_modules/shiny-server-client/lib/fixup-url.js:10 | A worker segment `/_w_<hex>/` at the start takes at least six characters, all within the text |
| FixupUrl.StripWorker | node_modules/shiny-server-client/lib/fixup-url.js:10 | The global replacement never lengthens the href |
| FixupUrl.StripWorkerIdentity | node_modules/shiny-server-client/lib/fixup-url.js:10-14 | The replacement leaves the href unchanged exactly when no worker segment occurs in it |
| FixupUrl.ConsAppend | node_modules/shiny-server-client/lib/fixup-url.js:10 | Concatenation regroups |
| FixupUrl.NoWorkerHere | node_modules/shiny-server-client/lib/fixup-url.js:10 | No worker segment starts at a character other than `/` |
| FixupUrl.StripWorkerPlainPrefix | node_modules/shiny-server-client/lib/fixup-url.js:10 | A prefix without `_` is copied unchanged |
| FixupUrl.Span | node_modules/shiny-server-client/lib/fixup-url.js:16 | `[^#?]*` and `[^#]*` take the longest run free of their stop characters |
| FixupUrl.SplitHref | node_modules/shiny-server-client/lib/fixup-url.js:16-20 | A successful match splits the href into base, search and hash, which concatenate back to it |
| FixupUrl.SplitHrefParts | node_modules/shiny-server-client/lib/fixup-url.js:16-20 | Splitting an href put together from well-formed parts gives back those parts |
| FixupUrl.SpanAll | node_modules/shiny-server-client/lib/fixup-url.js:16 | The run stops exactly where the first part ends when the second starts with a stop |
| FixupUrl.FixupPassesThrough | node_modules/shiny-server-client/lib/fixup-url.js:7-24 | An href without a worker segment, or one whose base is another page, is returned unchanged |
| FixupUrl.StripOneWorker | node_modules/shiny-server-client/lib/fixup-url.js:10 | A worker segment after a plain page address collapses to one slash |
| FixupUrl.StripWorkerSegment | node_modules/shiny-server-client/lib/fixup-url.js:10 | A worker segment at the start becomes one slash, and the rest is stripped after it |
| FixupUrl.FixupWorkerLink | node_modules/shiny-server-client/lib/fixup-url.js:7-34 | A link to this page through a worker segment loses the segment and keeps its hash. It keeps its own query string, or takes the page's when it has none. A link to another page is unchanged |
| FixupUrl.Regroup | node_modules/shiny-server-client/lib/fixup-url.js:33 | Concatenation regroups |
| FixupUrl.HexRunStops | node_modules/shiny-server-client/lib/fixup-url.js:10 | The hex run of an id followed by a slash is the whole id |
| SquashRunAs.FirstUser | lib/router/squash-run-as-router.js:37-42 | `_.find` returns the first element that is a string not of the form `:…:`, or undefined exactly when there is none |
| SquashRunAs.Squash | lib/router/squash-run-as-router.js:34-46 | Only an object spec keeps its shape, and its `runAs` is never an array afterwards. A changed spec had an array `runAs`, which became undefined or an eligible user |
| SquashRunAs.SquashPassesThrough | lib/router/squash-run-as-router.js:35-36 | A non-object spec, or a `runAs` that is not an array, passes through unchanged |
| SquashRunAs.SquashPicksFirst | lib/router/squash-run-as-router.js:37-42 | An array `runAs` becomes its first eligible element |
| SquashRunAs.FirstUserAt | lib/router/squash-run-as-router.js:37-42 | The first eligible element, with none before it, is what `_.find` returns |
| SquashRunAs.SquashNoUser | lib/router/squash-run-as-router.js:37-42 | `runAs` becomes undefined exactly when no element is eligible |
| SquashRunAs.SquashIdempotent | lib/router/squash-run-as-router.js:34-46 | Squashing twice is squashing once |
| SquashRunAs.SquashSamplesPlain | test/squash-run-as-router.js:30-50 | `['user1', 'user2', 'user3']` gives `user1`, and `[]` gives undefined |
| SquashRunAs.SquashSamplesSpecial | test/squash-run-as-router.js:37-57 | `[':HOME_USER:', 'user2', 'user3']` gives `user2`, and only special names give undefined |
| SquashRunAs.SquashSamplesNonStrings | test/squash-run-as-router.js:58-64 | Values that are not strings are skipped: `user3` is picked |
| ReQuote.Quote | lib/core/re-quote.js:14-17 | Quoting adds exactly one backslash per metacharacter |
| ReQuote.QuoteAppend | lib/core/re-quote.js:16 | The global replacement works character by character, so it distributes over concatenation |
| ReQuote.QuotePlain | lib/core/re-quote.js:16 | Text without metacharacters is unchanged |
| ReQuote.UnquoteQuote | lib/core/re-quote.js:14-17 | Removing the backslashes recovers the original text |
| ReQuote.QuoteEscapesAll | lib/core/re-quote.js:16 | Every metacharacter in the quoted text has a backslash in front of it |
| WorkerEntry.AcquireCounts | lib/scheduler/worker-entry.js:91-100 | Exactly the three connection types are recognized. Acquiring raises the total by one, and only that type's counter |
| WorkerEntry.ReleaseBounds | lib/scheduler/worker-entry.js:124-139 | Releasing recognizes the same types, keeps every counter non-negative and never raises one |
| WorkerEntry.ReleaseUndoesAcquire | lib/scheduler/worker-entry.js:91-139 | A release undoes the acquire of the same type |
| WorkerEntry.ReleaseAtZero | lib/scheduler/worker-entry.js:124-136 | Releasing an empty counter changes nothing |
| WorkerEntry.WorkerEntry.constructor | lib/scheduler/worker-entry.js:38-85 | Starts with all counters at 0, not closed, no idle timer and no release timers |
| WorkerEntry.WorkerEntry.SessionCount | lib/scheduler/worker-entry.js:87-89 | The SockJS connections plus the pending reservations, never negative |
| WorkerEntry.WorkerEntry.Acquire | lib/scheduler/worker-entry.js:91-112 | One more connection of a known type, and the idle timer cleared. An unknown type throws and changes nothing |
| WorkerEntry.WorkerEntry.Release | lib/scheduler/worker-entry.js:118-147 | Once closed, nothing changes. Otherwise one connection less of a known type, followed by the idle check. An unknown type throws |
| WorkerEntry.WorkerEntry.StartIdleTimer | lib/scheduler/worker-entry.js:149-162 | The idle timer is armed when no connection is left and the timeout is positive |
| WorkerEntry.WorkerEntry.PushPendingReleaseTimer | lib/scheduler/worker-entry.js:166-180 | The new timer joins the back of the queue |
| WorkerEntry.WorkerEntry.PendingReleaseTimerFired | lib/scheduler/worker-entry.js:167-178 | The fired timer leaves the queue if it is at the front. Unless the entry is closed, one pending reservation is released. When that release reaches the idle check, the idle timer is armed if every counter is zero and the timeout is positive. Otherwise the idle timer stays as it was. Nothing else changes |
| WorkerEntry.WorkerEntry.ShiftPendingReleaseTimer | lib/scheduler/worker-entry.js:184-190 | True exactly when the queue was non-empty. Then the oldest timer is removed and cancelled |
| WorkerEntry.WorkerEntry.Close | lib/scheduler/worker-entry.js:192-197 | The entry is closed, and every release timer is cancelled, oldest first |
| WorkerEntry.AcquireReleaseSample | test/scheduler.js:83-110 | Acquiring http then sock, and releasing them again, counts 1/0, 1/1, 0/1 and 0/0 |
| SimpleScheduler.SoftLimitBounds | lib/scheduler/simple-scheduler.js:44-56 | For a positive hard limit, the soft limit lies between 1 and the hard limit |
| SimpleScheduler.SoftLimitCases | lib/scheduler/simple-scheduler.js:44-56 | The soft limit is 1 for a hard limit of 1 and 2 up to 12. It is ten below the hard limit up to 50, and four fifths of it, rounded, from 50 on |
| SimpleScheduler.DecideCases | lib/scheduler/simple-scheduler.js:34-85 | A worker is spawned exactly when there is none, and without a limit the existing worker is always used. With a limit, a URL other than `/` is admitted below the hard limit and `/` below the soft limit. Otherwise the request is out of capacity |
| SimpleScheduler.AdmissionMonotone | lib/scheduler/simple-scheduler.js:58-76 | A worker that still admits a new session also admits requests of existing sessions. A worker with fewer connections admits whatever one with more admits |
| SimpleScheduler.ReuseSamples | test/simple-scheduler.js:82-124 | With no worker, one is spawned. An existing worker is reused without a limit, or below the hard limit |
| SimpleScheduler.CapacitySamples | test/simple-scheduler.js:127-158 | With a hard limit of 4, the base URL is refused at 4 SockJS connections, at 4 pending ones, and, as the code is written, at 3 |
| LinkedList.Node.constructor | lib/doubly-linked-list.js:12-23 | A new node holds its value and has no links |
| LinkedList.Node.Sentinel | lib/doubly-linked-list.js:33 | The head sentinel starts with no links |
| LinkedList.Visits | lib/doubly-linked-list.js:53-59 | The callback calls are (index, value) pairs in list order, stopping at the call that returned false |
| LinkedList.VisitsMeaning | lib/doubly-linked-list.js:44-58 | Without a false return, the callback is called on every value. Otherwise it stops right after the first value it returned false for |
| LinkedList.VisitsLength | lib/doubly-linked-list.js:53-59 | The calls end at the first false return, or at the end of the list |
| LinkedList.RemoveAt | lib/doubly-linked-list.js:110-130 | Removing the `k`-th element keeps the elements before it and shifts those after it down by one |
| LinkedList.DistinctRemoveAt | lib/doubly-linked-list.js:110-130 | Removing a node from a list of distinct nodes leaves them distinct |
| LinkedList.RemovedChain | lib/doubly-linked-list.js:115-126 | Taking a node out and joining its neighbours leaves a well-linked list, forwards and backwards |
| LinkedList.DoublyLinkedList.PrevIsBefore | lib/doubly-linked-list.js:17-19 | Every node's `prev` is the node before it, or the head for the first one. The last node's `next` is null and it is the tail |
| LinkedList.DoublyLinkedList.constructor | lib/doubly-linked-list.js:28-35 | A new list is the sentinel alone, and the sentinel is its own tail |
| LinkedList.DoublyLinkedList.Push | lib/doubly-linked-list.js:93-108 | The value is appended after every other value, and the new node becomes the tail. The returned node is the one the returned function removes |
| LinkedList.DoublyLinkedList.PushKeepsValid | lib/doubly-linked-list.js:98-102 | The links `push` sets leave a well-linked list |
| LinkedList.DoublyLinkedList.Unshift | lib/doubly-linked-list.js:74-88 | The value is put in front of every other value. It becomes the tail exactly when the list was empty |
| LinkedList.DoublyLinkedList.UnshiftKeepsValid | lib/doubly-linked-list.js:77-87 | The links `unshift` sets leave a well-linked list |
| LinkedList.DoublyLinkedList.Remove | lib/doubly-linked-list.js:110-130 | A node without `prev` (already removed, or the head) is left alone. Otherwise exactly that node leaves the list and the others keep their order. The node's links are cleared |
| LinkedList.DoublyLinkedList.Unlink | lib/doubly-linked-list.js:115-129 | Unlinking the `k`-th node removes exactly it. When it was the tail, its predecessor becomes the tail |
| LinkedList.DoublyLinkedList.UnlinkKeepsValid | lib/doubly-linked-list.js:115-126 | The links `_remove` sets leave a well-linked list without that node |
| LinkedList.DoublyLinkedList.Clear | lib/doubly-linked-list.js:61-72 | Removing the tail until the head is the tail again empties the list |
| LinkedList.DoublyLinkedList.Iterate | lib/doubly-linked-list.js:53-59 | Returns true exactly when no callback returned false. The calls made are exactly `Visits` of the contents |
| ReferenceCounting.ReferenceCounter.AtMostOnePending | lib/ReferenceCounter.js:45-58 | At most one timer is ever pending, so the callback cannot be queued twice |
| ReferenceCounting.ReferenceCounter.constructor | lib/ReferenceCounter.js:22-27 | No references and no timer at the start |
| ReferenceCounting.ReferenceCounter.Start | lib/ReferenceCounter.js:29-34 | A timer is set with the default delay, and the count is unchanged |
| ReferenceCounting.ReferenceCounter.ClearTimeout | lib/ReferenceCounter.js:36-43 | No timer is pending afterwards, and nothing else changes |
| ReferenceCounting.ReferenceCounter.SetTimeout | lib/ReferenceCounter.js:45-58 | The pending timer is replaced by a new one, with the default delay when none is given |
| ReferenceCounting.ReferenceCounter.Increment | lib/ReferenceCounter.js:60-65 | One more reference, and no timer pending |
| ReferenceCounting.ReferenceCounter.Decrement | lib/ReferenceCounter.js:67-77 | One reference less. When none is left, or the count was already zero, the count stays at zero and a new timer with the default delay is pending |
| ReferenceCounting.ReferenceCounter.DelayTimeoutBy | lib/ReferenceCounter.js:79-87 | Does nothing while references remain. Otherwise the timer restarts with the given delay |
| ReferenceCounting.ReferenceCounter.TimerFired | lib/ReferenceCounter.js:49-55 | The callback runs exactly when the timer that fired is still pending, and then no timer is pending |
| ClientUtil.NthDelay | node_modules/shiny-server-client/lib/util.js:6-14 | The `n`-th delay, counting from 0, is the `n`-th step of the table in seconds times 1000. Past the end, the last step is used |
| ClientUtil.NthDelayShape | node_modules/shiny-server-client/lib/util.js:6-14 | The delays never decrease, stay between 0 and 5000, and are 5000 from the fifth call on |
| ClientUtil.NiceBackoffFunc.constructor | node_modules/shiny-server-client/lib/util.js:8-9 | A fresh backoff function has made no calls |
| ClientUtil.NiceBackoffFunc.Next | node_modules/shiny-server-client/lib/util.js:10-13 | Each call counts one more call and returns `NthDelay` of the number of earlier calls |
| ClientUtil.NiceBackoffSample | node_modules/shiny-server-client/test/util.js:8-15 | Ten calls of a fresh function return 0, 1000, 2000, 3000, and then 5000 six times |
| ClientUtil.RetryDelay | node_modules/shiny-server-client/lib/util.js:35-39 | The wait is never negative and never longer than the backoff delay or the time left. It is one of the delay, the time left, or 0 |
| ClientUtil.RetryDelayCases | node_modules/shiny-server-client/lib/util.js:35-39 | A delay that fits before the deadline is kept. A delay past the deadline is cut to the time left, and an expired deadline gives 0 |
| ClientUtil.Replay | node_modules/shiny-server-client/lib/util.js:138-142 | Replaying the queue makes one handler call per held event, in queue order, each with the readyState that event carried |
| ClientUtil.ReplayAppend | node_modules/shiny-server-client/lib/util.js:138-142 | Replaying two queues in a row is replaying their concatenation |
| ClientUtil.ReplayStep | node_modules/shiny-server-client/lib/util.js:138-141 | Shifting one more event off the queue adds exactly that event's call, and sets the readyState to the one it carried |
| ClientUtil.PauseConnection.constructor | node_modules/shiny-server-client/lib/util.js:116-121 | A new wrapper is paused with an empty queue and no timer, and copies the connection's readyState |
| ClientUtil.PauseConnection.ConnEvent | node_modules/shiny-server-client/lib/util.js:124-132 | For the corrected handler, which sets the wrapper's readyState: while paused, an event is queued with the connection's readyState and no handler runs. Otherwise the handler runs at once with that readyState |
| ClientUtil.PauseConnection.ConnEventAsWritten | node_modules/shiny-server-client/lib/util.js:125-131 | The same as written: an event that passes straight through leaves the wrapper's readyState unchanged |
| ClientUtil.PauseConnection.Resume | node_modules/shiny-server-client/lib/util.js:136-145 | A new zero-delay timer is pending and becomes the wrapper's timer. An earlier one is not cleared, and nothing else changes |
| ClientUtil.PauseConnection.Pause | node_modules/shiny-server-client/lib/util.js:146-149 | The wrapper is paused, and its last resume timer is cleared |
| ClientUtil.PauseConnection.ResumeTimerFired | node_modules/shiny-server-client/lib/util.js:137-144 | A pending resume timer replays the whole queue in FIFO order, empties it and unpauses. A cleared timer changes nothing |
| ClientUtil.PauseConnectionSample | node_modules/shiny-server-client/test/pause-connection.js:27-49 | Events received while paused reach no handler, and the readyState stays CONNECTING. After the resume, both events arrive in order and the readyState is OPEN |
| ClientUtil.LateOpenAsWritten | node_modules/shiny-server-client/lib/util.js:125-131 | Resumed before its connection opens, the wrapper runs `onopen` with readyState CONNECTING, and the readyState never changes |
| ClientUtil.LateOpen | node_modules/shiny-server-client/lib/util.js:129 | With the readyState taken over, the same run reports OPEN |
| LazyLines.Step | node_modules/etc-passwd/node_modules/lazylines/lazylines.js:19-35 | For the corrected handler: every line emitted ends in "\n". Nothing is emitted exactly when the chunk has no "\n", and then the chunk is appended to the waiting text |
| LazyLines.StepAsWritten | node_modules/etc-passwd/node_modules/lazylines/lazylines.js:19-35 | As written: every line emitted ends in "\n", and nothing is emitted exactly when the chunk has no "\n". A non-empty chunk without "\n" then replaces the waiting text |
| LazyLines.Feed | node_modules/etc-passwd/node_modules/lazylines/lazylines.js:16-36 | Every line emitted over a run of chunks ends in "\n" |
| LazyLines.Stream | node_modules/etc-passwd/node_modules/lazylines/lazylines.js:16-42 | No line of the stream is empty, and every line but the last ends in "\n" |
| LazyLines.FirstNewline | node_modules/etc-passwd/node_modules/lazylines/lazylines.js:20 | Gives the index of the first "\n", or -1 exactly when there is none |
| LazyLines.ConcatAppend | node_modules/etc-passwd/node_modules/lazylines/lazylines.js:19-35 | Joining the lines of two lists in a row is joining their concatenation |
| LazyLines.SplitAtNewline | node_modules/etc-passwd/node_modules/lazylines/lazylines.js:20-24 | A chunk is the line through its first "\n", followed by the rest |
| LazyLines.StepNewline | node_modules/etc-passwd/node_modules/lazylines/lazylines.js:22-30 | A chunk with a "\n" emits the waiting text plus the first line, then goes on with the rest of the chunk and nothing waiting |
| LazyLines.StepPlain | node_modules/etc-passwd/node_modules/lazylines/lazylines.js:31-33 | A non-empty chunk without "\n" emits nothing. The corrected handler appends it to the waiting text, and the handler as written replaces the waiting text with it |
| LazyLines.StepLines | node_modules/etc-passwd/node_modules/lazylines/lazylines.js:19-30 | Every emitted line ends in its only "\n", and the text left waiting has no "\n" |
| LazyLines.StepLossless | node_modules/etc-passwd/node_modules/lazylines/lazylines.js:19-35 | For the corrected handler, which appends a chunk without "\n" to the waiting text: the emitted lines followed by the waiting text spell out the earlier waiting text followed by the chunk |
| LazyLines.StepAgreement | node_modules/etc-passwd/node_modules/lazylines/lazylines.js:25-33 | The handler as written agrees with the corrected one when nothing waits, or when the chunk completes a line |
| LazyLines.StepAgreementEmpty | node_modules/etc-passwd/node_modules/lazylines/lazylines.js:19-35 | With nothing waiting, the handler as written and the corrected one agree on every chunk |
| LazyLines.FeedLossless | node_modules/etc-passwd/node_modules/lazylines/lazylines.js:16-36 | For the corrected handler: however the input is cut into chunks, the emitted lines and the waiting text spell out the whole input |
| LazyLines.StreamLossless | node_modules/etc-passwd/node_modules/lazylines/lazylines.js:16-42 | For the corrected handler: the lines of the whole stream, the final flush included, spell out the input |
| LazyLines.StreamSample | node_modules/etc-passwd/node_modules/lazylines/test/lazylines_test.js:9-24 | Five-character chunks of "first\nsecond\nthird\n\nlast" give the lines "first\n", "second\n", "third\n", "\n" and "last" |
| LazyLines.FeedFive | node_modules/etc-passwd/node_modules/lazylines/lazylines.js:16-42 | Five chunks with known steps give their four completed lines and then the last chunk |
| LazyLines.StepLastLine | node_modules/etc-passwd/node_modules/lazylines/lazylines.js:22-33 | A chunk that completes one line and leaves text without "\n" waiting emits that one line |
| LazyLines.FeedCons | node_modules/etc-passwd/node_modules/lazylines/lazylines.js:16-36 | Feeding a chunk and then the rest is one step followed by feeding the rest |
| LazyLines.SamplePartial | node_modules/etc-passwd/node_modules/lazylines/test/lazylines_test.js:22 | A first chunk without "\n" waits in full |
| LazyLines.SampleSecond | node_modules/etc-passwd/node_modules/lazylines/test/lazylines_test.js:22 | The second chunk completes "first\n" and leaves "seco" waiting |
| LazyLines.SampleThird | node_modules/etc-passwd/node_modules/lazylines/test/lazylines_test.js:22 | The third chunk completes "second\n" and leaves "th" waiting |
| LazyLines.SampleFourth | node_modules/etc-passwd/node_modules/lazylines/test/lazylines_test.js:22 | The fourth chunk completes "third\n" and "\n" and leaves nothing waiting |
| LazyLines.OverwriteAsWritten | node_modules/etc-passwd/node_modules/lazylines/lazylines.js:31-33 | As written, the chunks "ab", "cd", "e\n" give only the line "cde\n", because "ab" is lost |
| LazyLines.OverwriteCorrected | node_modules/etc-passwd/node_modules/lazylines/lazylines.js:25-27 | Keeping the waiting text gives the one line "abcde\n" |
| LazyLines.StepUnfold | node_modules/etc-passwd/node_modules/lazylines/lazylines.js:19-30 | One turn of the loop takes the line through the first "\n" and goes on with the rest of the chunk |
| LazyLines.StepKeepsText | node_modules/etc-passwd/node_modules/lazylines/lazylines.js:19-35 | For the corrected handler: after a step, the lines so far and the waiting text have grown by exactly the chunk |
| LazyLines.LineReadStream.constructor | node_modules/etc-passwd/node_modules/lazylines/lazylines.js:12-15 | A new stream has emitted nothing, has nothing waiting and has seen no input |
| LazyLines.LineReadStream.Data | node_modules/etc-passwd/node_modules/lazylines/lazylines.js:16-36 | The handler's loop emits exactly the corrected step's lines and keeps its waiting text. Every new line ends in its only "\n", and, with the correction, nothing of the input is lost |
| LazyLines.LineReadStream.End | node_modules/etc-passwd/node_modules/lazylines/lazylines.js:37-42 | At the end, the waiting text, if any, is emitted as the last line. With the corrected handler, the lines then spell out the whole input |
| LazyLines.Chomp | node_modules/etc-passwd/node_modules/lazylines/lazylines.js:70-82 | The result is the line itself, or the line with one final "\n" or "\r\n" removed. A removal happens only when no other line terminator is left |
| LazyLines.ChompCases | node_modules/etc-passwd/node_modules/lazylines/lazylines.js:70-82 | A line with one final "\n" or "\r\n" loses it, and a line without a break is unchanged |
| LazyLines.ChompIdempotent | node_modules/etc-passwd/node_modules/lazylines/lazylines.js:75-82 | Chomping twice gives the same as chomping once |
| LazyLines.ExtractEol | node_modules/etc-passwd/node_modules/lazylines/lazylines.js:84-97 | Gives "\r\n" when that occurs, else "\n" when that occurs, else the platform's line ending |
| LazyLines.ExtractEolPlatform | node_modules/etc-passwd/node_modules/lazylines/lazylines.js:88-97 | A text containing "\r\n" has a "\n", so the platform decides only for text without line breaks |
| FsUtil.Tail | lib/core/fsutil.js:49-102 | With the corrected skip: the result is never longer than `maxlen`, and it is empty unless the path is truthy, the file opens and the read succeeds |
| FsUtil.TailAsWritten | lib/core/fsutil.js:49-102 | As written: the result is never longer than `maxlen`, and it is empty unless the path is truthy, the file opens and the read succeeds |
| FsUtil.ReadStart | lib/core/fsutil.js:65-66 | The read starts at 0 exactly when the file fits in `maxlen`. It covers the whole file, or only its last `maxlen` bytes |
| FsUtil.LeadingContinuations | lib/core/fsutil.js:72-75 | Counts the continuation bytes the data starts with |
| FsUtil.LeadingHigh | lib/core/fsutil.js:73-75 | Counts the bytes at or above 0x80 the data starts with, which is the loop's test as written |
| FsUtil.FirstLineFeed | lib/core/fsutil.js:78 | Gives the index of the first line feed, or -1 exactly when there is none |
| FsUtil.TailFailures | lib/core/fsutil.js:50-51 | A falsy path, a failed open or read, and an empty file all give "", both as written and corrected |
| FsUtil.TailIsBoundedSuffix | lib/core/fsutil.js:65-79 | The result is a suffix of the file, no longer than `maxlen` |
| FsUtil.TailWholeFile | lib/core/fsutil.js:77-80 | With the corrected skip of continuation bytes only: a file that fits, and starts on a character boundary, comes back whole |
| FsUtil.TailCutFile | lib/core/fsutil.js:76-79 | A cut file starts after the first line feed of the decoded tail, or at the tail's start when there is none |
| FsUtil.TailAgreement | lib/core/fsutil.js:71-75 | The code as written agrees with the corrected skip unless the data read starts with a lead byte |
| FsUtil.ContinuationsThenLow | lib/core/fsutil.js:73-75 | When continuation bytes are followed by an ASCII byte, both loops skip the same bytes |
| FsUtil.WholeFileAsWritten | lib/core/fsutil.js:73-76 | As written, a whole file starting with "é" (0xC3 0xA9) loses that character |
| FsUtil.WholeFileCorrected | lib/core/fsutil.js:72-76 | Skipping only continuation bytes keeps the character |
| FsUtil.SafeTail | lib/core/fsutil.js:49-102 | The method, with its loop over the buffer, resolves to `Tail` of the file system's answers |
| FsUtil.SkippedContinuations | lib/core/fsutil.js:73-75 | A loop that stops at the first byte that is not a continuation byte has counted exactly the leading continuation bytes |
| HttpServer.KeySetMembers | lib/server/server.js:70-81 | A key is asked for exactly when some address of that kind produces it |
| HttpServer.ParseKey | lib/server/server.js:134-138 | A key that matches gives a non-empty host without ':' and its port. Anything else gives None |
| HttpServer.KeyRoundTrip | lib/server/server.js:70-75 | The key of an address parses back to its interface ("0.0.0.0" for a wildcard) and its port |
| HttpServer.SameKey | lib/server/server.js:70-81 | Two addresses share a listener exactly when both are wildcards on one port, or have the same host and port |
| HttpServer.WildcardKeys | lib/server/server.js:71-72 | "*" and "0.0.0.0" on one port give the one key "0.0.0.0:port", and no host address gives a wildcard key |
| HttpServer.CollectKeys | lib/server/server.js:68-81 | The loop sorts the addresses into exactly the wildcard keys and the host keys, with no duplicates |
| HttpServer.RemoveFromTable | lib/server/server.js:178-181 | The entry under the key goes only when it is this listener. Every other entry stays as it was |
| HttpServer.StaleCloseHarmless | lib/server/server.js:142-146 | A listener replaced under its key that closes late leaves the table as it is |
| HttpServer.BoundUnderAdd | lib/server/server.js:100-126 | The bound listeners under one more key are those under the others plus that key's, when it is bound |
| HttpServer.CloseKeys | lib/server/server.js:100-126 | Exactly the given keys leave the table, the other entries are unchanged, and `close` is called on exactly the bound listeners among them |
| HttpServer.OpenKeys | lib/server/server.js:128-176 | A new listener is entered under each key. The call fails exactly when some key does not match the pattern, and the table keeps every earlier entry |
| HttpServer.MultiServer.constructor | lib/server/server.js:32-38 | Both tables start empty, and no listener exists |
| HttpServer.MultiServer.SetAddresses | lib/server/server.js:67-93 | Afterwards the tables hold exactly the keys asked for. A key that was asked for before keeps its listener. Only keys no longer asked for are closed, and only new keys are opened |
| HttpServer.MultiServer.CloseStale | lib/server/server.js:83-89 | Each table keeps exactly its old keys that are still asked for, with their listeners |
| HttpServer.MultiServer.OpenMissing | lib/server/server.js:84-92 | Each table gains exactly the keys asked for that it lacked. Old entries are untouched |
| HttpServer.MultiServer.Destroy | lib/server/server.js:95-98 | Every key of both tables is closed, and both tables end empty |
| HttpServer.MultiServer.OnListening | lib/server/server.js:147-150 | The listener is now bound, and the tables are unchanged |
| HttpServer.MultiServer.Forget | lib/server/server.js:178-181 | `removeFromTable` on the listener's own table. The other table is unchanged |
| HttpServer.MultiServer.OnClose | lib/server/server.js:142-146 | The listener is no longer bound, and leaves its table only when it is still the entry under its key |
| HttpServer.MultiServer.OnError | lib/server/server.js:151-161 | A listener that never bound leaves its table as on close. A bound one changes nothing |
| Launcher.ScanDaemonize | src/launcher.cc:35-41 | `daemon` is called exactly once when "--daemonize" is among `argv[1..]`, and never otherwise |
| Launcher.StripTrailingSlashes | src/launcher.cc:111 | The result is a prefix of the path without a trailing '/', and only slashes were removed |
| Launcher.Dirname | src/launcher.cc:111 | The result is ".", "/", or a proper prefix of the path that ends just before a '/' and does not end in '/' |
| Launcher.DirnameOfChild | src/launcher.cc:111 | The parent of `parent/name` is `parent` |
| Launcher.DirnameOfBareName | src/launcher.cc:111 | A name without '/' lives in "." |
| Launcher.InstalledBase | src/launcher.cc:44-50 | An executable at `base/dir/exe` belongs to the installation at `base` |
| Launcher.NewArgs | src/launcher.cc:52-59 | The vector has `argc + 2` entries, starts with node and ends in null. With a non-empty `argv`, the main script comes next, then `argv[1..]` in order |
| Launcher.ReadLinkBufferSize | src/launcher.cc:96-102 | The buffer is the link's size, or MAXPATHLEN when `lstat` reports no size, plus one byte for the terminator |
| Launcher.ReadLinkCount | src/launcher.cc:103-107 | `readlink` returns the whole target, or as much of it as fills the buffer |
| Launcher.TerminatorIndex | src/launcher.cc:100-109 | With `readlink` kept off the buffer's last byte, the terminator lands inside `execPath` |
| Launcher.LinkPath | src/launcher.cc:100-109 | With the corrected `readlink` bound: the path is a prefix of the link's target of at most MAXPATHLEN bytes, and is the whole target when the target has the size `lstat` reported |
| Launcher.TerminatorOverrunAsWritten | src/launcher.cc:100-109 | As written, a target longer than MAXPATHLEN, with a link size of 0 or of MAXPATHLEN, puts the terminator one past the end of `execPath` |
| Launcher.WholeLinkRead | src/launcher.cc:100-109 | A target that fits the buffer as `lstat` sized it is read whole, both as written and corrected |
| Launcher.FindBaseDir | src/launcher.cc:73-114 | Gives 2 exactly when the /proc path does not fit. Gives 1 exactly when `lstat` fails, the path is no link, the link is too long or `readlink` fails. Otherwise gives 0, with the base two levels above the link's target |
| Launcher.Forwarded | src/launcher.cc:55-57 | Each argument is passed on as a non-null pointer, in order |
| Launcher.ExecArgvForwarded | src/launcher.cc:52-59 | The strings `execv` sees from forwarded arguments followed by the null are exactly those arguments |
| Launcher.NewArgsShape | src/launcher.cc:52-59 | The vector has `argc + 2` entries and ends in its only null. `execv` sees node, the main script and `argv[1..]` verbatim |
| Launcher.DaemonizeForwarded | src/launcher.cc:52-59 | "--daemonize" is passed on to the server too |
| Launcher.NoArgumentsDropsMain | src/launcher.cc:52-59 | With an empty `argv`, the null lands on the main script's slot and `execv` sees only node |
| Launcher.BuildArgs | src/launcher.cc:52-59 | The loop fills the array with exactly `NewArgs` |
| Launcher.Launch | src/launcher.cc:33-64 | `daemon` runs exactly when asked for. The launcher exits with 2 or 1 exactly when `findBaseDir` fails, and otherwise execs node with the new vector |
| Posix.PwBufferSize | src/posix.cc:26-28 | The buffer size is what `sysconf` reports, or 16384 when it reports -1 |
| Posix.UserObject | src/posix.cc:39-46 | The object has exactly the properties name, passwd, uid, gid, gecos, home and shell |
| Posix.UserObjectRoundTrip | src/posix.cc:39-48 | Reading the object back gives the whole record, with `pw_dir` under "home" |
| Posix.UserObjectInjective | src/posix.cc:39-48 | Different users give different objects |
| Posix.GetPwNam | src/posix.cc:12-49 | No argument throws "getpwnam requires 1 argument" before any call. Otherwise `getpwnam_r` runs once with the buffer size. A failed lookup gives null when errno is 0 and an errno error otherwise. A found user gives the record object |
| UnixGroups.Without | node_modules/unixgroups/src/binding.cc:66-67 | The list holds exactly the elements of the input other than the one given |
| UnixGroups.InitGroupsList | node_modules/unixgroups/src/binding.cc:66-67 | The installed list starts with the group given, holds it once, and otherwise holds exactly the user's groups |
| UnixGroups.InitGroupsRun | node_modules/unixgroups/src/binding.cc:35-70 | No argument throws before any call. The lookup comes first, and a missing user throws "initgroups user does not exist". `setgid` runs exactly when asked and the user exists, always before `initgroups`, and both use the user's group. A failure is the last call's errno. The groups change only on success, and the gid only after a successful `setgid` |
| UnixGroups.Process.constructor | node_modules/unixgroups/src/binding.cc:35-70 | A process starts with the given gid and groups, and no calls made |
| UnixGroups.Process.InitGroups | node_modules/unixgroups/src/binding.cc:35-70 | The calls, the outcome and the new gid and groups are those of `InitGroupsRun` |
| UnixGroups.Process.GetGroups | node_modules/unixgroups/src/binding.cc:13-33 | Gives the process's groups in order when they fit the buffer of `ngroupsMax` entries, and fails otherwise |
| Common.AsciiLower | lib/router/config-router.js:279 | Upper-case ASCII letters become lower-case letters, and every other character is unchanged |
| Common.ToLowerAscii | lib/router/config-router.js:279 | Lower-cases each character in place, keeping the length |
| Common.IndexOf | node_modules/shiny-server-client/common/path-params.js:19-24 | Gives the first index of the character, or -1 exactly when it does not occur |
| Common.LastIndexOf | src/launcher.cc:111 | Gives the last index of the character, or -1 exactly when it does not occur |
| Common.Split | node_modules/shiny-server-client/common/path-params.js:26 | There is always at least one part, and no part contains the separator |
| Common.JoinSplit | node_modules/shiny-server-client/common/path-params.js:26-72 | Joining the parts of a split gives back the string |
| Common.SplitJoin | node_modules/shiny-server-client/common/path-params.js:67-72 | Splitting a join of parts without the separator gives back the parts |
| Common.SplitConcat | node_modules/shiny-server-client/common/path-params.js:26 | Splitting at a separator splits the two sides independently |
| Common.NatToDecimal | lib/server/server.js:72-74 | A number is written as decimal digits without a leading zero |
| Common.DecimalRoundTrip | lib/server/server.js:72-74 | Reading the decimal form back gives the number |
| Common.NatToDecimalInjective | lib/server/server.js:72-74 | Different numbers are written differently |

## Left out

- Network, file and process I/O, logging, and the promise machinery (Q, pinkyswear) are not modelled. A timer is a handle in a set of pending handles, and it fires when a method is called for it.
- Event forwarding between emitters is not modelled: `newListener`, `$forwardAll` and `forwardEvent` in `lib/server/server.js`, and SockJS event re-emission. They pass events on unchanged.
- The printed form of a configuration tree, read back through the lexer and parser, is not proved to give the same tree. The printer is not part of the core.
- `retryPromise_p`'s recursion through promises is not modelled. Only its delay clamp is (`ClientUtil.RetryDelay`).
- ClientUtil.PauseConnection.ConnEvent: an event carries at most a data string. Other handler arguments and the handlers' own side effects are not modelled.
- `createEvent`, `close`, `send` and the property getters of `PauseConnection` pass straight through to the connection and are not modelled.
- LazyLines: buffers are taken as already-decoded strings. The encoding argument, `fromFile` and `streamToString` are not modelled.
- `getPlatformEOL` takes the platform as a parameter instead of reading `process.platform`.
- FsUtil: the UTF-8 decoding of the read bytes is not modelled, so the result is the bytes after trimming. Short reads, the encoding argument and the logging on a failed `close` are not modelled either. `directoryExistsSync`, `safeStat_p` and `createPidFile` are outside the core.
- HttpServer.MultiServer.SetAddresses: the order in which keys are opened and closed within one table is not modelled, because keys are sets. An address with ':' in its host (IPv6) gives a key the pattern rejects, so the model returns Err where the source's assertion throws.
- HttpServer.SameKey: stated for wildcards and hosts without ':', the addresses whose keys the pattern accepts.
- The `listen` and `close` calls of a listener are recorded as events (bound, close requested). The sockets themselves are not modelled.
- SchemaRules: `maxcount` is read the way `Number()` reads "", a run of digits, or '-' followed by digits. Every other form is taken as `NaN`. Hex, exponent and surrounding-space forms of `Number()` are not modelled.
- ConfigSchema: `ToFloat` is not modelled, because it parses floating point.
- ConfigRouter: a port value that is not an Integer, and a host or server name that is not a string, are handled as the source's checks see them. Their JavaScript type conversions are not modelled.
- ConfigRouter: the stable sort of servers by score in `getAppSpec_p` is not modelled, only the score. The `location` and `template_dir` handling of `ServerRouter` are not modelled either.
- DirectoryRouter: `path.sep` is '/'. `$findShinyDir_p`, the redirect to a trailing slash and the serving of `index.html` are file-system probing and not modelled.
- DirectoryRouter.StripPrefix: the `/\/$/m` pattern is modelled as written, so a '/' just before a line terminator is removed as well.
- ConfigLexer.Lexer.MatchQuoted: an unterminated quote gives None, where the source throws. `NextToken` turns it into the error the source throws, with the token's start position. Throws in general are values (`Throw`) that every caller passes on.
- LinkedList: a node belongs to the list only through the list's footprint (`Repr`). A node of another list passed to `remove` is not modelled.
- ReferenceCounting.ReferenceCounter.SetTimeout: an `undefined` delay is the default delay. A delay of other types is not modelled.
- Launcher: the effects of `daemon` on the process are not modelled, only the call. `strerror` messages, a negative return of `snprintf`, and a link that changes between `lstat` and `readlink` are not modelled. A NUL byte in the target, glibc's handling of a leading "//" in `dirname`, and freeing memory are not modelled either.
- Launcher.FindBaseDir: the pid is a natural number. Exit code 2 needs a `/proc` path longer than MAXPATHLEN, which real pids cannot produce.
- Posix: the conversion of the JavaScript argument to a C string, and uid and gid as JavaScript Numbers, are not modelled.
- UnixGroups.InitGroupsRun: the buffer size passed to `getpwnam_r` is `sysconf`'s answer unchanged (there is no -1 fallback in this binding), and the model records it. A failing `calloc`, the sizing by NGROUPS_MAX beyond the buffer check, and the exact group order `initgroups` chooses are not modelled. The installed list is modelled with the primary group first.

- ConfigLexer.Lexer.constructor: removes every carriage return, the corrected half of the `lib/config/lexer.js:81` finding. The source removes only the first, so a text with two or more "\r" is lexed here as the corrected lexer would lex it.
- Parser.Parse: lexes the text with every carriage return removed, as `ConfigLexer.Lexer.constructor` does, not only the first.
- Parser.ConfigParser.constructor: its lexer holds the text with every carriage return removed, not only the first.
- Parser.ConfigParser.Parse: parses the text with every carriage return removed, not only the first.
- ConfigTree.ParseConfig: inherits the removal of every carriage return from `Parser.Parse`, not only the first.
- ConfigLexer.LineCol: columns and offsets count characters (code points). The source counts UTF-16 units, so a character outside the Basic Multilingual Plane moves every later column and offset by one there.
- ConfigSchema.Convert: Boolean and Integer use the whole-value checks, the corrected half of the `m`-flag findings in `lib/config/schema.js`. A value such as "maybe\nyes" is an error here and true in the source.
- ConfigSchema.MakeParam: converts a default value with the corrected `Convert`, so a Boolean or Integer default accepted only through another line is an error here.
- SchemaRules.MakeRule: uses the intended order check (`OrderError(_, false)`). Parameters `[a]...` followed by `[b]` or `[b]...` throw here and pass in the source.
- SchemaRules.ValidateAndTransformArgs: applies a default only to a parameter that no argument reached, the corrected half of the `lib/config/schema.js:124-129` finding. The source overwrites a reached vararg with its default.
- SchemaRules.ApplyRule: computes the typed values with the corrected defaults of `ValidateAndTransformArgs`.
- SchemaRules.ApplyFrom: checks each directive through the corrected `ApplyRule`.
- SchemaRules.ApplySchema: builds the rules with the intended order check and applies the corrected defaults.
- SchemaRules.ApplyFromValues: states the values computed with the corrected defaults.
- ClientMultiplex.MultiplexClient.RunTask: a deferred open runs only on a channel still at readyState 0, the corrected half of the `multiplex-client.js:89-92` finding. In the source a channel closed before the tick is opened again. The model keeps a removed channel closed, which its invariant needs. `ClientChannel.Open` itself has no such guard, and `ClosedChannelReopened` shows the source's behaviour.
- ClientUtil.PauseConnection.ConnEvent: sets the wrapper's readyState, the corrected half of the `util.js:129` finding. The source leaves it unchanged, as `ConnEventAsWritten` does.
- LazyLines.LineReadStream.Data: appends a chunk without "\n" to the waiting text, the corrected half of the `lazylines.js:31-33` finding. The source replaces the waiting text with the chunk.
- LazyLines.LineReadStream.End: its lossless result holds because `Data` is corrected.
- LazyLines.StepLossless: proved for the corrected step only. `OverwriteAsWritten` shows that it fails as written.
- LazyLines.StepKeepsText: proved for the corrected step only.
- LazyLines.FeedLossless: proved for the corrected step only.
- LazyLines.StreamLossless: proved for the corrected step only.
- FsUtil.SafeTail: skips only continuation bytes (0x80 to 0xBF), the corrected half of the `fsutil.js:71-75` finding. The source skips every leading byte at or above 0x80.
- FsUtil.TailWholeFile: proved for the corrected skip only. `WholeFileAsWritten` shows that it fails as written.
- Launcher.FindBaseDir: gives `readlink` one byte less than its buffer, the corrected half of the `launcher.cc:100-109` finding. The source passes the whole buffer.
- ConfigRouter.ServersMeaning: the `createLocation` throws for a bad `location` are not modelled, so "exactly when" covers the server-level checks only.
- ConfigRouter.VirtualHost: lower-cases ASCII letters only. `toLowerCase` also folds non-ASCII letters.
- Common.ToLowerAscii: lower-cases ASCII letters only, where `toLowerCase` folds all of Unicode.
- Common.AsciiLower: maps ASCII letters only, where `toLowerCase` folds all of Unicode.
- DirectoryRouter.EscapeAt: `%uD800` to `%uDFFF` give U+FFFD, because a Dafny character cannot hold a lone surrogate. The global `unescape` gives the lone UTF-16 unit.
- DirectoryRouter.Unescape: inherits the U+FFFD for surrogate escapes from `EscapeAt`.
- Launcher.LinkPath: reads at most MAXPATHLEN bytes of the link, the corrected `readlink` bound of the `launcher.cc:100-109` finding. The source lets `readlink` fill the whole buffer, one byte more.
- Launcher.Launch: states its `execv` arguments through the corrected `LinkPath` and `TerminatorIndex`, so it inherits the `readlink` bound that is one byte smaller than the source's (`launcher.cc:100-109`).
- SchemaRules.BuildRules: builds every rule with the corrected `MakeRule`, so its errors are those of the intended order check. Its contract says that an error is the error of one of the schema's directives, not that it is the first one that fails.
- SchemaRules.BindFrom and SchemaRules.Defaults carry no `ensures` of their own. What they promise is stated by the lemmas `BindOk`, `BindLeft`, `BindFrame`, `BindFixed`, `BindVararg`, `DefaultsMeaning` and `DefaultsKeys`.
- ConfigSchema.TypeNamed: only "Boolean", "Integer", "Float" and "String" name a type. In the source, `ConfigTypes[type]` (`schema.js:173`) is a lookup on a plain object, so a type such as "constructor" or "toString" finds a function inherited from `Object.prototype` and uses it as the converter. That lookup is not modelled.
- Multiplex.MultiplexSocket.OnData: a close payload is a code and a reason, each possibly absent. A close frame whose JSON payload is `null` makes `payload.code` throw a TypeError at `multiplex.js:101`, which is not modelled.
- MessageUtils.ParseFormatId: ids are unbounded naturals. `toString(16)` and `parseInt(str, 16)` work on doubles in JavaScript, so above 2^53 the source loses precision and the round trip can fail there.
- ConfigTree.MakePredicate: `null` criteria are not modelled. `typeof null` is 'object', so the source takes `null` for a RegExp and throws a TypeError on the first node it tests.
- ConfigTree.MakePredicate: a RegExp criterion is a pure test on the name. A RegExp with the `g` flag keeps `lastIndex` between calls of `test`, so in the source the same pattern can answer differently for later nodes. That state is not modelled.

## Findings

| source | as written | input that shows it | evidently intended | confidence | as-written member | corrected member |
|---|---|---|---|---|---|---|
| lib/config/lexer.js:81 | `data.replace(/\r/, '')` removes only the first carriage return | `"a\r\n\r\nb"` keeps its second "\r", which the lexer then reads as white space | Every carriage return removed, as the comment says | not executed; high | ConfigLexer.CarriageReturnKept | ConfigLexer.StripCarriageReturns |
| node_modules/shiny-server-js/lib/multiplex-client.js:89-92 | The callback `open` schedules on an open connection calls `channel._open()` without the `readyState === 0` check the pending loop makes at line 33 | `open(url)` on an open connection, then `close()` before the next tick: the close frame goes out, then the open frame, and the channel ends at readyState 1 | A channel closed before its deferred open stays closed | not executed; high | ClientMultiplex.ClosedChannelReopened | ClientMultiplex.ClosedChannelStaysClosed |
| lib/config/schema.js:202-205 | The patterns of `ToBoolean` carry the `m` flag, so any one line of the value decides | `"maybe\nyes"` reads as true | Only a whole value of true, yes or on (or false, no or off) is a Boolean | not executed; medium | ConfigSchema.ToBooleanSecondLine | ConfigSchema.ToBoolean |
| lib/config/schema.js:210-214 | The patterns of `ToInteger` carry the `m` flag, so any one line of the value admits it | `"abc\n12"` is accepted, and `parseInt` makes it NaN | Only a whole value that is a number is an Integer | not executed; medium | ConfigSchema.ToIntegerSecondLine | ConfigSchema.ToInteger |
| lib/config/schema.js:63-82 | The order check tests `optional` before `vararg`, so an optional vararg counts as optional | Parameters `[a]...` and `[b]...` pass the check, and only the first can ever receive arguments | "Only one vararg can be defined per directive" | not executed; medium | SchemaRules.TwoOptionalVarargs | SchemaRules.OrderErrorIff |
| lib/config/schema.js:124-129 | Defaults are applied to every parameter left in `paramsLeft`, and a vararg is never shifted off it | `[x]...` with default "z", given arguments a and b, ends with x = "z" | The default applies only when no argument reached the parameter | not executed; medium | SchemaRules.VarargDefaultOverwrite | SchemaRules.DefaultsMeaning |
| node_modules/shiny-server-client/lib/util.js:129 | Inside the handler `this` is the underlying connection, so `this.readyState = conn.readyState` leaves the wrapper's readyState as it was | `resume()`, then the connection opens: `onopen` runs with the wrapper still at CONNECTING, and it stays there | The wrapper takes over the connection's readyState, as the replay does at line 140 | not executed; high | ClientUtil.LateOpenAsWritten | ClientUtil.LateOpen |
| node_modules/etc-passwd/node_modules/lazylines/lazylines.js:31-33 | A chunk without "\n" replaces the waiting text | Chunks "ab", "cd", "e\n" give the one line "cde\n" | The chunk is appended to the waiting text, so the line is "abcde\n" | not executed; high | LazyLines.OverwriteAsWritten | LazyLines.OverwriteCorrected |
| lib/core/fsutil.js:71-75 | The loop skips every leading byte at or above 0x80, lead bytes of whole characters included, even when the file was not cut | A 3-byte file 0xC3 0xA9 0x61 ("éa") gives "a" | Only continuation bytes (0x80 to 0xBF) are skipped, as the comment says | not executed; high | FsUtil.WholeFileAsWritten | FsUtil.WholeFileCorrected |
| src/launcher.cc:100-109 | `readlink` may fill the whole `charsNeeded + 1` buffer, and then `execPath[cb]` is written one past the end of `execPath` | `lstat` reports size 0 and the target is longer than MAXPATHLEN bytes: `cb` is MAXPATHLEN + 1 | `readlink` is given `charsNeeded` bytes, so the terminator stays inside `execPath` | not executed; low | Launcher.TerminatorOverrunAsWritten | Launcher.TerminatorIndex |

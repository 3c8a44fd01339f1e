# go-lsp core in Dafny

This project models the core of go-lsp, a Go library for writing Language Server Protocol
servers, and proves properties of the model. The core covers:

- **JSON-RPC 2.0 messages.** Request IDs are tagged: absent, a 64-bit integer or a string. The
  model covers the ID's string key and its JSON form, the three message kinds with their
  constructors, the error object with the library's ten error codes, and how a decoded body is
  classified.
- **The dispatcher.** It holds two name→handler tables and turns each handler outcome into a
  response.
- **The connection.** It reads and writes the Content-Length framing of the LSP base protocol.
  It keeps the outbound call counter, the table of pending calls with response routing, and the
  table of inbound requests that may be cancelled through `$/cancelRequest`. `Serve` dispatches
  each message by its kind.
- **The server.** It builds the advertised capabilities from the set of handler interfaces
  implemented, and merges them "explicit wins, nils filled" into the `initialize` result. It
  registers methods and notifications (custom entries last) and sets the `initialize`/`shutdown`
  lifecycle flags.
- **The debug tap.** It passes every byte through. On each side it keeps a buffer, takes the
  complete Content-Length frames off its front and hands their bodies to the message store.
- **The debug stores.** Two ring buffers (10000 messages, 5000 log lines) assign sequential IDs
  and slot `id mod capacity` once full. The message store classifies messages, pairs requests
  with their responses and cross-posts `window/logMessage`. Both stores paginate and search, and
  an `slog` handler formats attributes.

Module layout:

| file | module | Go file |
|---|---|---|
| `wrappers.dfy` | `Wrappers` | `Option` and `Result` |
| `text.dfy` | `Text` | bytes, `%d`, `strconv.Atoi`, `strings.TrimSpace`/`CutPrefix`/`Index`/`Split`/`ToLower`/`Join` |
| `errors.dfy` | `JsonRpcErrors` | jsonrpc/errors.go |
| `message.dfy` | `JsonRpcMessage` | jsonrpc/message.go |
| `handler.dfy` | `JsonRpcHandler` | jsonrpc/handler.go |
| `conn.dfy` | `JsonRpcConn` | jsonrpc/conn.go |
| `capabilities.dfy` | `Capabilities` | server/capabilities.go, with the record of lsp/capabilities.go |
| `server.dfy` | `Server` | server/server.go |
| `ring.dfy` | `Ring` | the ring insert, pagination and filter both debug stores share |
| `logstore.dfy` | `DebugLogStore` | internal/debugui/logstore.go |
| `store.dfy` | `DebugStore` | internal/debugui/store.go |
| `tap.dfy` | `DebugTap` | debugui/tap.go |

How the model represents the Go program:

- **State.** Objects that Go updates in place are classes whose fields the methods reassign:
  `Dispatcher`, `Conn`, `Server`, `Store`, `LogStore` and `Tap`. Go maps become `map` fields, and
  the entry slices and `bytes.Buffer`s become `seq` fields.
- **Loops.** Each source loop is a `while` or `for` loop with its invariants: the header loop,
  the tap's line loop and extraction loop, the registration loops, the search loops and the
  `updatePairedWith` scan.
- **Specifications.** Each loop method is proved against a specification function, and the
  properties that matter are lemmas about those functions.
- **Goroutines.** They become steps that may interleave:
  - `go c.handleRequest` is `Dispatch` adding the request to `spawned`, the started goroutines.
    `BeginRequest` is the goroutine's registration of its cancel entry. It may run for any spawned
    request at any later point, so a `$/cancelRequest` read first finds no entry, and requests
    sharing an ID key register in whatever order the steps are taken. `CompleteRequest` runs when
    the handler has finished;
  - `Call` is `Call` (counter, pending entry, write) and then `AwaitCall` (the `select`).
- **JSON.** `encoding/json` is not modelled. A decoded body is the record of optional members
  Go's `rawMessage` holds, and the codecs are function parameters.
- **Handlers.** A user handler is its set of implemented interfaces plus functions for what its
  methods return.

Where the code and the protocol's description disagree, this model follows the code:

- Nothing consults `initialized`, so no request is refused with −32002 before `initialize`.
- The `exit` handler's error is discarded by the dispatcher, so `Serve` does not end on `exit`.
- A body that does not decode is not answered with a parse-error response: `ReadMessage`
  returns the error and `Serve` stops with it.

## Model

| member | source | states |
|---|---|---|
| JsonRpcErrors.CodesDistinctNegative | jsonrpc/errors.go:9-22 | the five JSON-RPC codes and the five LSP codes are ten pairwise distinct negative numbers |
| JsonRpcErrors.NewError | jsonrpc/errors.go:35-37 | the error carries the given code and message and no data |
| JsonRpcErrors.ErrorText | jsonrpc/errors.go:31-33 | the text starts with "jsonrpc error ", is at least as long as the prefix, the code's digits, ": " and the message, and ends with the message |
| JsonRpcErrors.ErrorTextInjective | jsonrpc/errors.go:31-33 | two errors with the same text have the same code and the same message |
| JsonRpcErrors.ErrorMembers | jsonrpc/errors.go:25-29 | `code` and `message` are always written; `data` is written exactly when it is set |
| JsonRpcMessage.IdString | jsonrpc/message.go:20-29 | a string ID gives its string, an integer ID its decimal digits, the zero ID "" |
| JsonRpcMessage.IntIdStringInjective | jsonrpc/message.go:20-29 | two integer IDs with the same key are the same number |
| JsonRpcMessage.IntAndStringIdsShareKey | jsonrpc/message.go:15-29 | `IntID(n)` and `StringID` of n's digits are different IDs with the same key |
| JsonRpcMessage.MarshalId | jsonrpc/message.go:31-36 | the token is `null` exactly for the zero ID, the bare number for an integer ID and the string for a string ID |
| JsonRpcMessage.UnmarshalId | jsonrpc/message.go:38-57 | decoding fails exactly for a non-ID token or a number outside int64, with the "must be a string or number" error; otherwise null, int64 or string |
| JsonRpcMessage.UnmarshalMarshalId | jsonrpc/message.go:31-57 | every ID decodes from its marshalled form back to itself |
| JsonRpcMessage.MarshalUnmarshalId | jsonrpc/message.go:31-57 | every token that decodes is what its ID marshals to |
| JsonRpcMessage.Encode | jsonrpc/message.go:84-91 | a nil value gives empty raw JSON; otherwise the marshalled bytes or the marshalling error |
| JsonRpcMessage.NewRequest | jsonrpc/message.go:83-93 | it fails exactly when the params do not marshal; otherwise version "2.0" with the ID, method and params |
| JsonRpcMessage.NewResponse | jsonrpc/message.go:96-106 | it fails exactly when the result does not marshal; otherwise version "2.0", the ID and result, and no error |
| JsonRpcMessage.NewErrorResponse | jsonrpc/message.go:109-111 | version "2.0", the ID and the error, with an empty result |
| JsonRpcMessage.NewNotification | jsonrpc/message.go:114-124 | it fails exactly when the params do not marshal; otherwise version "2.0", the method and params |
| JsonRpcMessage.DecodeMessage | jsonrpc/message.go:137-182 | undecodable JSON is an error; a non-null ID without a method is a response with `result` and `error` unchanged; an ID with a method is a request; a method without a usable ID is a notification; neither is "cannot determine message type"; a bad ID token is an error |
| JsonRpcMessage.Members | jsonrpc/message.go:59-80 | a notification has no `id` member and a response no `method` member |
| JsonRpcMessage.DecodeMembers | jsonrpc/message.go:137-182 | a message decodes from its own members back to itself exactly when it does not carry the zero ID; with one, a request comes back as a notification and a response fails |
| JsonRpcHandler.MethodNotFoundError | jsonrpc/handler.go:36-39 | code −32601, message "method not found: " + the method, no data |
| JsonRpcHandler.Respond | jsonrpc/handler.go:41-53 | the response has the request's ID; a `*ResponseError` is passed on unchanged; another error becomes −32603 with its text; a result that fails to marshal becomes −32603 "failed to marshal result: …"; otherwise the marshalled result and no error |
| JsonRpcHandler.RespondMembers | jsonrpc/handler.go:41-53 | exactly one of `result` and `error` is set, except for a result that marshals to nothing (a nil result sets neither) |
| JsonRpcHandler.Dispatcher.constructor | jsonrpc/handler.go:20-25 | both tables start empty |
| JsonRpcHandler.Dispatcher.RegisterMethod | jsonrpc/handler.go:27-29 | the method table gets the entry for the name, replacing any earlier one; nothing else changes |
| JsonRpcHandler.Dispatcher.RegisterNotification | jsonrpc/handler.go:31-33 | the notification table gets the entry for the name, replacing any earlier one; nothing else changes |
| JsonRpcHandler.Dispatcher.HandleRequest | jsonrpc/handler.go:35-54 | every branch answers under the request's ID; an unknown method gets the method-not-found error; a known one gets `Respond` of its handler's outcome |
| JsonRpcHandler.Dispatcher.HandleNotification | jsonrpc/handler.go:56-62 | an unknown notification is dropped; a known one is delivered to its handler, whose error the dispatcher discards |
| JsonRpcConn.Header | jsonrpc/conn.go:86 | the header is longer than the header name, a space, one digit and the two CRLFs |
| JsonRpcConn.ReadLine | jsonrpc/conn.go:56-59 | it fails exactly when no newline is left; otherwise the line ends with its only newline and the line plus the rest is the input |
| JsonRpcConn.ScanHeaders | jsonrpc/conn.go:53-76 | the header loop as a function: a successful scan consumes bytes and never yields zero |
| JsonRpcConn.ParseHeadersAsWritten | jsonrpc/conn.go:53-76 | `readHeaders` as written: a success is a non-zero length, possibly negative |
| JsonRpcConn.ParseHeaders | jsonrpc/conn.go:53-76 | the corrected `readHeaders`: agrees with the as-written parse except that a negative length is an error; success is a positive length |
| JsonRpcConn.ParseFrame | jsonrpc/conn.go:39-48 | a frame is the header block and exactly Content-Length body bytes; a short body is an error (for lengths `make` can allocate) |
| JsonRpcConn.ScanSingleHeader | jsonrpc/conn.go:53-76 | a block with one "Content-Length: v" line and the blank line gives v's number, with zero reported as missing |
| JsonRpcConn.ScanLengthLine | jsonrpc/conn.go:60-70 | the Content-Length line sets the length, and scanning goes on after it |
| JsonRpcConn.ScanBlankLine | jsonrpc/conn.go:60-63 | a blank line ends the scan with the length seen so far |
| JsonRpcConn.LengthValue | jsonrpc/conn.go:64-70 | the digits written for an int64 are one line ending in a digit, and `Atoi` of the trimmed value reads the number back |
| JsonRpcConn.NegativeLengthAccepted | jsonrpc/conn.go:53-76 | "Content-Length: n" for any negative int64 n is accepted as written with length n; the corrected parse rejects it |
| JsonRpcConn.ParseHeaderOfFrame | jsonrpc/conn.go:53-92 | the header `WriteMessage` writes for a non-empty body parses back to the body's length and leaves the body |
| JsonRpcConn.ParseFrameOfFrame | jsonrpc/conn.go:39-92 | a frame written for a non-empty body reads back as that body, leaving what follows |
| JsonRpcConn.EmptyBodyIsMissingLength | jsonrpc/conn.go:72-74 | the frame of an empty body reads back as "missing Content-Length" |
| JsonRpcConn.ParseMessage | jsonrpc/conn.go:39-51 | a message read agrees with the frame parse and `DecodeMessage` of its body; framing errors are passed on |
| JsonRpcConn.ReadOfWritten | jsonrpc/conn.go:39-92 | a message `WriteMessage` writes reads back as the same message, given a faithful codec and no zero ID |
| JsonRpcConn.ReadAllStep | jsonrpc/conn.go:95-107 | the messages read from a stream are the first message, then those read from the rest |
| JsonRpcConn.ReadAllOfWritten | jsonrpc/conn.go:95-107 | frames written back to back are read back as the same messages, in order |
| JsonRpcConn.Emitted | jsonrpc/conn.go:79-92 | a message that marshals gives the header and the body; a body write failure leaves only the header; a marshal or header failure writes nothing |
| JsonRpcConn.WriteResult | jsonrpc/conn.go:79-92 | no error exactly when marshalling and both writes succeed; a marshal failure returns its error |
| JsonRpcConn.Inc64 | jsonrpc/conn.go:166 | `atomic.Int64.Add(1)`: one more, wrapping from the maximum to the minimum |
| JsonRpcConn.CallIdsCount | jsonrpc/conn.go:166 | from a new connection, the k-th call gets ID k |
| JsonRpcConn.CallKeysDistinct | jsonrpc/conn.go:166-173 | distinct calls of a connection use distinct pending keys |
| JsonRpcConn.Conn.constructor | jsonrpc/conn.go:28-36 | empty tables, a counter at zero |
| JsonRpcConn.Conn.ReadHeaders | jsonrpc/conn.go:53-76 | the loop returns what `ParseHeaders` gives and consumes exactly the bytes it reads; the tables are unchanged |
| JsonRpcConn.Conn.ReadMessage | jsonrpc/conn.go:39-51 | the result and the bytes left are those of `ParseMessage` |
| JsonRpcConn.Conn.WriteMessage | jsonrpc/conn.go:79-92 | the writer gets `Emitted` bytes appended, and the error is `WriteResult` |
| JsonRpcConn.Conn.BeginRequest | jsonrpc/conn.go:120-126 | any one spawned request, chosen by the caller, leaves `spawned`; a fresh context is registered under its ID key, replacing any earlier entry |
| JsonRpcConn.Conn.CompleteRequest | jsonrpc/conn.go:128-137 | the dispatcher's answer under the request's context is written, the context is cancelled and the ID key's cancel entry is deleted |
| JsonRpcConn.Conn.HandleCancel | jsonrpc/conn.go:147-162 | undecodable params are ignored; otherwise only a context registered under the ID key is cancelled; no table changes |
| JsonRpcConn.Conn.HandleNotification | jsonrpc/conn.go:139-145 | `$/cancelRequest` never reaches the dispatcher and cancels exactly the context registered under the decoded ID key (`CancelledBy`); any other notification is dispatched and cancels nothing |
| JsonRpcConn.Conn.RouteResponse | jsonrpc/conn.go:197-205 | a response is handed over only when a caller waits on its ID key; otherwise the pending table is unchanged |
| JsonRpcConn.Conn.Call | jsonrpc/conn.go:165-187 | the counter is bumped first and its new value is the ID; the pending entry is added for a sent request and removed again on a write failure; a params marshal failure sends nothing |
| JsonRpcConn.Conn.Send | jsonrpc/conn.go:172-187 | the pending entry is added before the write and removed if the write fails |
| JsonRpcConn.Conn.AwaitCall | jsonrpc/conn.go:179-194 | the `select` takes the response or the done context; either way the pending entry is removed; while neither is ready nothing changes |
| JsonRpcConn.Conn.Notify | jsonrpc/conn.go:208-214 | a params marshal failure writes nothing; otherwise the notification is written |
| JsonRpcConn.Conn.Dispatch | jsonrpc/conn.go:109-116 | the message is received and the tables become `DispatchStep` of the old ones: a request joins `spawned`, a cancel cancels by the old cancel table, another notification is dispatched, a response is routed; the cancel table, the in-flight requests, the counters and both streams are unchanged |
| JsonRpcConn.Conn.Serve | jsonrpc/conn.go:95-118 | the messages received are a prefix of those the stream holds; a read failure ends the loop after all of them, with the stream's own error; the tables are `DispatchAll` of the old ones over the messages received, and the cancel table, the in-flight requests, the counters and the writer are unchanged |
| JsonRpcConn.Conn.ServeOne | jsonrpc/conn.go:96-116 | one round reads the stream's next message (`ParseMessage`) and takes one `DispatchStep`, or reports the stream's error and changes no table |
| JsonRpcConn.DispatchAllEffects | jsonrpc/conn.go:95-118 | across the read loop goroutines start in arrival order, only contexts registered before the loop are cancelled, and the pending table keeps its keys, unchanged when no response arrives |
| JsonRpcConn.DispatchAllSnoc | jsonrpc/conn.go:96-117 | one more message read is one more step of the loop |
| JsonRpcConn.CancelBeforeRegistrationIsLost | jsonrpc/conn.go:109-126 | a `$/cancelRequest` read right after its request, before that request's goroutine registers, cancels nothing, while the request is still started |
| Capabilities.Flag | server/capabilities.go:5 | `boolPtr(true)` exactly when the interface is implemented, never false |
| Capabilities.BuildCapabilities | server/capabilities.go:7-194 | `executeCommand`, `experimental`, on-type formatting, semantic tokens and workspace folders are never set |
| Capabilities.SyncAdvertised | server/capabilities.go:11-25 | sync options are set iff the sync handler is, with open/close true and incremental change; save, willSave and willSaveWaitUntil each iff their interface |
| Capabilities.SubFlagsNeedTheirBase | server/capabilities.go:28-34 | each options provider is set iff its base interface is; its resolve, prepare or workspace-diagnostics flag is set iff that interface also is |
| Capabilities.BooleanProvidersAreTrue | server/capabilities.go:36-162 | each of the 19 plain boolean providers is nil or true, and set exactly for its interface |
| Capabilities.WorkspaceFileOperations | server/capabilities.go:164-191 | the workspace member is set iff a will-create/rename/delete interface is; exactly those operations are set, each with one `**/*` filter; no did-operations, no workspace folders |
| Server.MergeKeepsAndFills | server/server.go:221-315 | every listed field `dst` sets is kept, every nil one is taken from `src`, and `executeCommandProvider` and `experimental` stay as in `dst` |
| Server.MergeCharacterised | server/server.go:221-315 | any record with those three properties is the merge |
| Server.MergeIdempotent | server/server.go:221-315 | merging the same detected capabilities again changes nothing |
| Server.MergeWithNothing | server/server.go:221-315 | merging no detected capabilities changes nothing; merging into an empty record gives the detected fields on the list |
| Server.MergeCapabilities | server/server.go:221-315 | the field-by-field fill in place gives the merge |
| Server.TypedHandlerDecodeFailure | server/server.go:327-346 | undecodable params get −32602 with the decoder's text from a method, and the raw decode error from a notification |
| Server.TypedHandlerDecoded | server/server.go:327-346 | with decodable params both wrappers are the typed handler method |
| Server.RegisterIf | server/server.go:317-324 | an entry is registered exactly when its interface is implemented, as that name's route; all other names keep their entry |
| Server.RegisterAllLookup | server/server.go:89-190 | after the registration table, a name is registered iff it was before or an implemented entry lists it; a listed name gets its typed handler |
| Server.TableNamesAreNotLifecycle | server/server.go:85-190 | no table entry is named initialize, shutdown, initialized or exit |
| Server.LifecycleAlwaysRegistered | server/server.go:86-87 | initialize and shutdown are always routed to the server's own handlers; initialized and exit are always registered |
| Server.RegisteredIffImplemented | server/server.go:85-151 | any other method is registered iff an implemented entry lists it, with the typed handler |
| Server.NotificationRegisteredIffImplemented | server/server.go:153-191 | any other notification is registered iff an implemented entry lists it, with its `notifHandler` |
| Server.EntryServed | server/server.go:318-323 | an implemented table entry is registered under its name |
| Server.ServedButNotAdvertised | server/server.go:85-151 | the semantic-token, on-type-formatting and execute-command methods are served for their handlers but not advertised |
| Server.AdvertisedIsServed | server/server.go:85-151 | an advertised hover, completion, definition, rename or diagnostic provider is served |
| Server.CustomRoutes | server/server.go:75-77 | the custom methods as routes, under the same names |
| Server.Overlay | server/server.go:75-80 | the registration loop over a map replaces each entry of the same name: the table is `base + extra` |
| Server.InitializeOutcome | server/server.go:193-211 | undecodable params give −32602; an `Initialize` error is passed on; a nil result with no error is the panic of dereferencing it; only a non-nil result gives it with the detected capabilities merged and the server info kept |
| Server.HandshakeFillsHover | server/server.go:205-210 | a hover handler whose `Initialize` returns a result leaving hover nil gets it as true, with the server info unchanged |
| Server.InitializeAnswer | server/server.go:193-211 | an error stays an error; a result becomes its marshalled form; the panic gives no outcome at all |
| Server.ShutdownAnswer | server/server.go:213-218 | the answer is nil together with the handler's error, if any |
| Server.ShutdownResponseIsEmpty | server/server.go:213-218 | the response to a successful shutdown has neither a result nor an error |
| Server.Server.constructor | server/server.go:29-39 | empty custom maps, no tables, both flags false |
| Server.Server.HandleMethod | server/server.go:43-45 | the last custom method handler for a name wins; nothing else changes |
| Server.Server.HandleNotification | server/server.go:49-51 | the last custom notification handler for a name wins; nothing else changes |
| Server.Server.RegisterMethods | server/server.go:85-151 | the method table is the lifecycle methods plus the implemented entries, in order |
| Server.Server.RegisterNotifications | server/server.go:153-191 | the notification table is initialized and exit plus the implemented entries |
| Server.Server.Register | server/server.go:72-80 | built-ins first, then custom entries, so a custom entry replaces a built-in of the same name |
| Server.Server.RegisterCustomMethods | server/server.go:75-77 | every custom method replaces the entry of its name; the others stay |
| Server.Server.RegisterCustomNotifications | server/server.go:78-80 | every custom notification replaces the entry of its name; the others stay |
| Server.Server.HandleInitialize | server/server.go:193-211 | the result is `InitializeOutcome`, and `initialized` is set only on success, not on an error or the panic |
| Server.Server.HandleShutdown | server/server.go:213-218 | `shutdown` is set even when the handler fails, and the handler's error is returned |
| Server.Server.HandleRequest | jsonrpc/handler.go:35-54 | over the server's table: no response exactly when `initialize` panics on a nil result; otherwise the request's ID always; method not found; the lifecycle methods through the server; any other through its handler |
| Ring.Insert | internal/debugui/store.go:105-109 | append while there is room; once full, overwrite slot `id mod cap` and keep every other slot |
| Ring.InsertKeepsRing | internal/debugui/store.go:87-109 | inserting the next ID keeps the layout: the last min(next, cap) IDs, ID k in slot k mod cap |
| Ring.RingKeysDistinct | internal/debugui/store.go:105-109 | no two slots hold the same ID |
| Ring.RingHoldsLatest | internal/debugui/store.go:105-109 | each of the last min(next, cap) IDs is present, in slot id mod cap |
| Ring.SameSlotSameKey | internal/debugui/store.go:108 | two IDs within one window of cap consecutive IDs that share a slot are equal |
| Ring.PageAsWritten | internal/debugui/store.go:165-177 | `Entries` as written: nil at or past the end; otherwise the slice from offset to min(offset+limit, n); a panic for a negative offset or limit |
| Ring.NegativeOffsetPanics | internal/debugui/store.go:165-177 | offset −1 on a non-empty store panics |
| Ring.Page | internal/debugui/store.go:165-177 | corrected pagination: nil at or past the end, otherwise the min(limit, n−start) entries from start, start being 0 for negative offsets; agrees with the as-written version for offsets ≥ 0 |
| Ring.Filter | internal/debugui/store.go:180-193 | at most as many entries as the input |
| Ring.FilterMembers | internal/debugui/store.go:180-193 | an entry is found exactly when it is stored and matches |
| Ring.FilterAppend | internal/debugui/store.go:180-193 | filtering keeps store order |
| Ring.FilterSnoc | internal/debugui/store.go:186-191 | one more entry adds itself to the result exactly when it matches |
| DebugLogStore.LogStore.constructor | internal/debugui/logstore.go:33-37 | no entries, next ID 0 |
| DebugLogStore.LogStore.Add | internal/debugui/logstore.go:47-72 | the entry gets ID nextID, which goes up by one; the ring insert places it in slot ID mod 5000 once full |
| DebugLogStore.LogStore.Clear | internal/debugui/logstore.go:75-80 | no entries; IDs start again at 0 |
| DebugLogStore.LogStore.Entries | internal/debugui/logstore.go:83-95 | the page `Page` gives |
| DebugLogStore.LogStore.Search | internal/debugui/logstore.go:98-111 | the entries whose lowercased message or level contains the lowercased query, in store order, and exactly those |
| DebugLogStore.LogStoreHoldsLatest | internal/debugui/logstore.go:54-63 | an added entry is still stored exactly when it is one of the last 5000 |
| DebugLogStore.FormatAttr | internal/debugui/logstore.go:170-176 | "group.key=value" with a group, "key=value" without |
| DebugLogStore.WithAttrs | internal/debugui/logstore.go:150-156 | the same store and group, with the old attributes followed by the new ones |
| DebugLogStore.WithGroup | internal/debugui/logstore.go:158-168 | the same store and attributes, with the group `name` or `group.name` |
| DebugLogStore.NestedGroups | internal/debugui/logstore.go:158-176 | nested groups qualify a key with every group name, outermost first |
| DebugLogStore.Rendered | internal/debugui/logstore.go:134-141 | one formatted part per attribute, in order |
| DebugLogStore.HandledMessage | internal/debugui/logstore.go:132-144 | the message is unchanged without attributes, else followed by a space and the formatted attributes joined by spaces |
| DebugLogStore.HandledOneAttr | internal/debugui/logstore.go:132-144 | a single attribute follows the message after one space |
| DebugLogStore.Handle | internal/debugui/logstore.go:129-148 | the store gets one entry: the lowercased level and `HandledMessage` |
| DebugStore.TrimQuotes | internal/debugui/store.go:209-214 | one pair of enclosing quotes is stripped when the string has at least two characters and quotes at both ends; otherwise the input is returned |
| DebugStore.Classify | internal/debugui/store.go:63-83 | request iff a non-null ID and a method; response iff a non-null ID only; notification iff a method only; untyped otherwise; the RPC ID is the ID with quotes trimmed |
| DebugStore.PeekOf | internal/debugui/store.go:64-68 | the lenient decode sees the same `method` and the same presence of `id` |
| DebugStore.ClassifyAgreesWithDecoder | internal/debugui/store.go:70-83 | the store classifies as `DecodeMessage` does, and its RPC ID is the ID's `String()` key |
| DebugStore.Correlate | internal/debugui/store.go:90-103 | a request records its ID; a response to a pending ID pairs with it and removes it; anything else is unpaired (−1) |
| DebugStore.CorrelatePairsOnce | internal/debugui/store.go:90-103 | a response pairs with the latest request of its ID, and a second response does not pair |
| DebugStore.CorrelateIgnoresUnidentified | internal/debugui/store.go:91 | notifications and entries without an RPC ID leave the pending map alone |
| DebugStore.FindId | internal/debugui/store.go:146-153 | the first index holding the ID, or none when no entry has it |
| DebugStore.SetPaired | internal/debugui/store.go:146-153 | only the first entry with the ID gets its `PairedWith` set; nothing else changes |
| DebugStore.NewEntry | internal/debugui/store.go:56-61 | the new entry has the given ID, body and classification, and `PairedWith` −1 |
| DebugStore.AddEntry | internal/debugui/store.go:85-109 | `Add` on the state: the next ID goes up by one and at most 10000 entries are kept |
| DebugStore.AddEntryKeepsValid | internal/debugui/store.go:85-109 | `Add` keeps the ring layout and pending IDs that were issued |
| DebugStore.AddPairsBothWays | internal/debugui/store.go:95-101 | a matching response stores the request's ID, and the request, if still buffered, points back at the response |
| DebugStore.RequestResponseScenario | internal/debugui/store.go:55-109 | a request then its response on an empty store give two entries paired with each other and nothing pending |
| DebugStore.FindIdInWindow | internal/debugui/store.go:196-207 | an entry is found by ID exactly when it is one of the last 10000 added |
| DebugStore.LogLevel | internal/debugui/store.go:131-139 | type 1 is "error", 2 "warning", 4 "log", and any other "info" |
| DebugStore.CrossPost | internal/debugui/store.go:120-142 | only a `window/logMessage` whose params decode is cross-posted, with its level and message |
| DebugStore.Store.constructor | internal/debugui/store.go:39-47 | no entries, next ID 0, nothing pending |
| DebugStore.Store.UpdatePairedWith | internal/debugui/store.go:146-153 | the scan is `SetPaired` |
| DebugStore.Store.Add | internal/debugui/store.go:55-144 | the state after the call is `AddEntry` of its classification, and the log store gets exactly the cross-posted line |
| DebugStore.Store.Clear | internal/debugui/store.go:156-162 | no entries, IDs from 0, nothing pending |
| DebugStore.Store.Entries | internal/debugui/store.go:165-177 | the page `Page` gives |
| DebugStore.Store.Search | internal/debugui/store.go:180-193 | the entries whose lowercased method or body contains the lowercased query, in store order, and exactly those |
| DebugStore.Store.EntryById | internal/debugui/store.go:196-207 | found exactly when the ID is among the last 10000 added, and then it is that entry |
| DebugTap.FormatMessage | debugui/tap.go:107-109 | the frame `WriteMessage` writes: the header, then the body byte for byte |
| DebugTap.ReadLengthLine | debugui/tap.go:90-97 | a line without the prefix is ignored; with it, the trimmed value is a length iff `Atoi` accepts it |
| DebugTap.ScanLinesFails | debugui/tap.go:89-98 | the scan fails exactly when some length line is bad |
| DebugTap.ScanLinesNoLength | debugui/tap.go:89-98 | without a length line the length stays as it was |
| DebugTap.ScanLinesLastWins | debugui/tap.go:89-98 | the last length line wins |
| DebugTap.ParsedContentLengthAsWritten | debugui/tap.go:79-103 | as written: not ok without "\r\n\r\n"; `headerEnd` is its first index plus 4; the length is non-zero and may be negative |
| DebugTap.ParsedContentLength | debugui/tap.go:79-103 | corrected: the as-written result when the length is positive, else not ok |
| DebugTap.ParseContentLength | debugui/tap.go:79-103 | the loop gives ok exactly when `ParsedContentLength` does, with its length and header end |
| DebugTap.ExtractStep | debugui/tap.go:59-72 | corrected extraction step: a complete frame is taken iff `headerEnd + contentLen` bytes are there, the body being those `contentLen` bytes; otherwise wait |
| DebugTap.AddInt64 | debugui/tap.go:65 | Go `int` addition wraps into the 64-bit range |
| DebugTap.ExtractStepAsWritten | debugui/tap.go:59-72 | as written, it panics exactly for a negative length or one whose `totalLen` overflows, and otherwise agrees with the corrected step |
| DebugTap.Extracted | debugui/tap.go:58-75 | the leftover is never longer than the input |
| DebugTap.ParseOfFormat | debugui/tap.go:79-109 | a formatted frame parses as (body length, header length, ok) and its step takes exactly the body |
| DebugTap.NoTerminatorNotOk | debugui/tap.go:81-84 | with no "\r\n\r\n" the parse is not ok and nothing is taken |
| DebugTap.ParseExtend | debugui/tap.go:79-103 | a parsed header block parses the same whatever follows it |
| DebugTap.StepExtend | debugui/tap.go:58-75 | a complete frame stays complete, with the same body, when more bytes follow |
| DebugTap.ExtractedAppend | debugui/tap.go:30-75 | chunking does not matter: extracting from a + b is a's frames, then the frames of a's leftover followed by b |
| DebugTap.ExtractedLeftover | debugui/tap.go:58-75 | the leftover holds no complete frame at its front |
| DebugTap.ExtractedFrame | debugui/tap.go:58-75 | a frame followed by anything yields its body first |
| DebugTap.TwoFrames | debugui/tap.go:58-75 | two concatenated frames yield their two bodies, in order, and leave nothing |
| DebugTap.PartialFrameKept | debugui/tap.go:58-75 | a frame cut off before its end is left in the buffer untouched |
| DebugTap.NegativeLengthPanics | debugui/tap.go:58-103 | "Content-Length: -1" makes the as-written loop panic; corrected, it waits |
| DebugTap.HugeLengthPanics | debugui/tap.go:65-69 | a length of 2^63−1 wraps `totalLen` past the guard and panics; corrected, it waits |
| DebugTap.AddAll | debugui/tap.go:73 | the store after adding the bodies one by one; the next ID goes up by their count |
| DebugTap.AddAllSnoc | debugui/tap.go:73 | one more body adds its entry after those before it |
| DebugTap.Tap.constructor | debugui/tap.go:26-28 | empty buffers on both sides |
| DebugTap.Tap.ExtractMessages | debugui/tap.go:58-75 | the buffer left is the leftover of `Extracted`; the store got exactly the extracted bodies in order, and a log store attached to it got exactly their `CrossPosted` lines |
| DebugTap.Tap.Read | debugui/tap.go:30-39 | the inner read's bytes, count and error come back unchanged; the read side's complete frames are stored as client→server, and their log lines cross-posted |
| DebugTap.Tap.Write | debugui/tap.go:41-50 | the inner write's count and error come back unchanged; only the accepted bytes are tapped, their frames are stored as server→client, and their log lines cross-posted |
| DebugTap.CrossPosted | internal/debugui/store.go:119-142 | the log store after `Add` of each body keeps its earlier entries and gains at most one per body |
| DebugTap.CrossPostedNumbered | internal/debugui/logstore.go:47-57 | cross-posting keeps the log store's IDs sequential: the k-th entry ever added has ID k |
| DebugTap.CrossPostedQuiet | internal/debugui/store.go:119-120 | bodies that are not `window/logMessage` notifications add nothing to the log store |
| Text.Decimal | jsonrpc/message.go:25 | `%d`: non-empty, a leading minus sign exactly for negative numbers, digits everywhere else, ending in a digit |
| Text.DecimalInjective | jsonrpc/message.go:25 | two numbers print the same only when they are equal |
| Text.Atoi | jsonrpc/conn.go:66 | `strconv.Atoi`: an accepted text is non-empty, its value is within int64, and a negative value starts with a minus sign |
| Text.AtoiOfDecimal | jsonrpc/conn.go:66 | `Atoi` reads back the `%d` of every int64 |
| Text.TrimSpaceSlice | jsonrpc/conn.go:60 | `TrimSpace` keeps a slice of its input with white space removed at both ends only |
| Text.CutPrefix | jsonrpc/conn.go:64 | the rest exactly when the input starts with the prefix |
| Text.Index | debugui/tap.go:81 | `bytes.Index`: the first occurrence, or none |
| Text.Split | debugui/tap.go:89 | `strings.Split`: at least one piece, and the input itself when the separator does not occur |
| Text.Lower | internal/debugui/store.go:181 | ASCII lower-casing, length kept |

## Left out

- Goroutines, channels, mutexes and `context`. A request's handling is three steps that may
  interleave with others: started, registered and completed. `Call` is its sending step and its waiting step.
  "Context done" and the `select`'s choice are parameters. The mutexes have no counterpart.
- `encoding/json` itself. Decoding is the record of members Go reads, and marshalling and the
  lenient decodes are function parameters. For `ReadOfWritten`, marshalling is assumed to give
  text that parses back to the message's members (`Faithful`).
- Escaped characters in string IDs. The store's RPC ID for a string ID is its raw JSON text
  with the quotes trimmed. `ClassifyAgreesWithDecoder` treats a string token's text as the
  string quoted, which holds only for strings without escapes.
- The I/O streams. Bytes read are the stream's content, and a failing write is a `WriteFault`
  parameter. `Tap`'s inner stream is its results, passed in. `Close` only forwards to the inner
  stream.
- Timestamps and the subscriber callbacks of both stores.
- Unicode. `strings.ToLower` and `strings.TrimSpace` are modelled on ASCII only.
- The shared `*bytes.Buffer`. `extractMessages` takes the buffer's bytes and returns what is
  left, and `Read`/`Write` reassign the field. The aliasing of the buffer is not modelled.
- server/client.go, server/stdio.go, server/options.go, internal/debugui/debugui.go,
  internal/debugui/stats.go and the examples. Of the files that are not part of this model,
  debugui.go is used only for the range of the pagination arguments.
- The debug-UI wiring in `Run` (server/server.go:55-62) and `SetClient`.
- The `initialized` and `exit` notification handlers. They are registered, but their bodies do
  nothing the rest of the model observes.
- lsp/*.go and server/handlers.go: used only for the capability record's fields and the
  interface names.
- The typed `handleX` wrappers. They are modelled by one `TypedHandler`, parameterised by the
  method name.
- Server.Server.HandleRequest: a nil `Initialize` result with no error panics at
  server/server.go:207. The model gives no response. That the unrecovered panic then ends the
  Go process is not followed.
- JsonRpcConn.Conn.Serve: one call does not interleave goroutine steps within its loop. The read
  loop's steps are `ServeOne`, and interleavings with `BeginRequest`, `CompleteRequest` and
  `AwaitCall` come from calling those between rounds.
- JsonRpcConn.Conn.Serve: the notification handlers run with an uncancelled context. Go passes
  `Serve`'s own context, whose cancellation the model does not track.
- JsonRpcConn.Conn.RouteResponse: a second response for a waiting caller whose one-slot channel
  is already full blocks the read loop in Go. It is reported as `CallerBusy` and dropped.
- The pending and cancel tables are keyed by `ID.String()`, so an integer ID and the string of
  its digits collide. `IntAndStringIdsShareKey` states the collision. The tables are not
  changed to avoid it.
- DebugStore.Store.Entries and DebugLogStore.LogStore.Entries take `limit` as a natural number.
  The only callers, the HTTP handlers, clamp it to 1..1000 first. A negative limit, which
  panics in Go, is covered only by `Ring.PageAsWritten`.
- JsonRpcConn.ParseFrame and JsonRpcConn.Conn.ReadMessage: Go's allocation limit is not
  modelled. `make([]byte, contentLen)` at jsonrpc/conn.go:45 runs before the body is read, so a
  length `Atoi` accepts but `make` cannot allocate, such as 9223372036854775807, panics in Go.
  For such a length the model reports a short body (`BodyReadFailed`).
- DebugStore.Store.Add: the next ID is an unbounded natural number. Go's `int` counter could
  wrap only after 2^63 messages.
- JsonRpcConn.Conn.Serve: the ensures bounds the messages read by those readable from the
  stream. It does not say how many are read before the context ends, because that is a
  parameter.

## Findings

| source | as written | input that shows it | evidently intended | confidence | as-written member | corrected member |
|---|---|---|---|---|---|---|
| jsonrpc/conn.go:53-76 | `readHeaders` accepts any length `strconv.Atoi` returns except 0, so a negative one reaches `make([]byte, contentLen)` at jsonrpc/conn.go:45, which panics | a header block "Content-Length: -1\r\n\r\n" | a negative length is rejected like a malformed one | not executed | JsonRpcConn.NegativeLengthAccepted | JsonRpcConn.ParseHeaders |
| debugui/tap.go:79-103 | `parseContentLength` returns ok for a negative length, and `extractMessages` then calls `make([]byte, contentLen)`, which panics | the bytes "Content-Length: -1\r\n\r\n" on either side of the tap | only a positive length is a frame | not executed | DebugTap.NegativeLengthPanics | DebugTap.ParsedContentLength |
| debugui/tap.go:65-69 | `headerEnd + contentLen` overflows for a length near 2^63, so `len(data) < totalLen` is false and `make` panics | "Content-Length: 9223372036854775807\r\n\r\n" | wait for the frame, computing the total without overflow | not executed | DebugTap.HugeLengthPanics | DebugTap.ExtractStep |
| internal/debugui/store.go:165-177 | `Entries` slices from `offset` without checking for a negative one, and the HTTP handlers pass the query's offset through unchecked | `Entries(-1, 100)` on a non-empty store | a negative offset starts at the first entry | not executed | Ring.NegativeOffsetPanics | Ring.Page |

# arduino-router, verified

arduino-router is a MessagePack-RPC star router. Clients connect to one hub and register the methods they
serve; the hub forwards every other request to the client that serves it, under an id of its own, and takes the
reply back to the caller. This project models the parts where that can go wrong and proves, for all inputs and all
runs, what they promise.

| file | models |
|---|---|
| `MsgPack.dfy` | the MessagePack byte format: tokens, values, encoder, parser |
| `MsgPackFormat.dfy` | the same formats byte by byte, as the MessagePack specification lists them |
| `TypeConversion.dfy` | scalars as Go values, `ToInt`, `ToUint`, the encoder's compact formats |
| `Packets.dfy` | which values are packets, how packets are written, forwarding |
| `Decoding.dfy`, `Receiving.dfy` | `decodeRpcPacket` and `Run` on every byte stream |
| `CutStreams.dfy` | streams that end inside a value |
| `Sending.dfy` | `LimitedBuffer`, `send`, `fwdRes` |
| `Framing.dfy` | any number of concurrent senders on one connection |
| `Routes.dfy` | the route table against the history of registrations |
| `Hub.dfy`, `HubInvariant.dfy`, `HubTheorems.dfy` | the routing and correlation protocol over whole runs |
| `HubRouting.dfy` | where requests go, by the registrations of the run |
| `HubNumbers.dfy` | the numbers that forwarded requests get |
| `HubDelivery.dfy` | what a reply tells about the delivery of the request |
| `HubTransparency.dfy` | the bytes of requests and replies over whole runs |
| `HubProspects.dfy` | which requests can still be answered |
| `HubForgery.dfy` | the hub with peers that answer whatever they like |
| `HubExamples.dfy` | runs that show what the hub does not promise |
| `OutRequests.dfy` | one connection's table of pending requests under a peer that may say anything |
| `RawParams.dfy` | parameters decoded on demand |
| `ComposeArgs.dfy` | the argument parser of the command-line client |
| `ArgWords.dfy`, `ArgSyntax.dfy`, `ArgPanics.dfy`, `ArgTyping.dfy`, `ArgLocality.dfy` | what words mean, what it reads, when it panics, what can be typed, what it looks at |
| `SerialPort.dfy` | the open/close protocol of the serial port |
| `Handles.dfy`, `Udp.dfy` | handle allocation and UDP packets of the network API |

Code that works in place is modelled in place: `Decoder`, `LimitedBuffer`, `Sender`, `Router`, `OutRequests.Table`,
`Lazy`, `Handles.Tables` and `Udp.Calls` are classes whose methods are tied to functions of the old state.
Concurrent protocols are step systems: a section under a mutex is one step, and the theorems are about every
sequence of enabled steps, with no bound on clients, calls or steps.

## What to know before reading the theorems

* **Assumptions on the outside.** `Hub.Fair` states the only two: a peer answers an id in its table only if that
  request was delivered to it, and no 32-bit id wraps onto one that is still active. The second holds by itself while a
  connection has given out fewer than 2^32 numbers (`NoWrapBeforeTheEnd`). A failed send delivers nothing, and a write
  to a connection that the router has closed fails. Without the first, `AtMostOnceIfOrderly` still gives at most one
  reply per request as long as every failed send finds its own entry in the table, and `SecondReplyExactly` says that a
  failed send leads to a second reply exactly when it does not; `ForgedReplyAnswersTwice` is such a run.
* **Lost replies.** A reply whose write fails is logged and forgotten, and its entry is gone by then
  (`internal/msgpackrouter/router.go:108-115`). So a request can end up with no answer and pending nowhere
  (`ReplyLost`). Every request is always exactly one of: answered once, lost, pending in one table, or in the hands of
  one goroutine (`AnsweredOnceOrPending`), and it is lost exactly when the write of its reply failed (`LostExactly`).
* **Every request is answered in the end** is not a property of the code: entries of a client that has left are
  never drained (`NotAlwaysAnswered`), and a reply to a caller whose connection the router has closed fails
  (`CallerGone`). `AnswerableExactly` says which requests have an answer or can still get one: those that are answered,
  and those that are not lost, not delivered to a client that has left, and not made on a closed connection. The answer
  may be an error, but never one that the code does not give: requests for a client's method are looked up, and
  forwarded or refused.
* **Streams cut inside an array header.** The code drops the error of `DecodeArrayLen`, which then counts as 0.
  A stream that ends behind the code of a parameter array and before the end of its length therefore dispatches a
  request or notification without parameters. `CutValue` gives the complete log for a value cut at any byte, by the
  position of the cut, and `PhantomExample` six bytes that are dispatched that way.
* **Message size limit.** The comment at `msgpackrpc/connection.go:114` says that a size of zero or less means no
  limit. The code falls through and makes a buffer of that size: zero makes every send fail, a negative size
  panics. The model follows the code (`Sending.Sender.SetMaxOutgoingMessageSize`, `ZeroIsNotUnlimited`).
* **UDP handles.** The allocator does not look at the UDP table, so its doc comment ("unique ID") holds for TCP
  connections and listeners only. `UdpHandleReused` says when a live UDP handle is given out again, and
  `UdpHandleRebound` is a run, with never more than two live sockets, in which it is.
* **Map keys on the command line.** A list or map as a key panics, and does so before the closing bracket is looked
  for. `PanicsExactly` gives the condition for every list of words, `PanicsOnBracketKeys` for complete arguments.
* **The serial closer.** A close call can stay behind when an open comes before the loop is back at its top
  (`CloserLeftBehind`). `StillWaitingExactly` and `ReleasedExactly` say exactly when it does.
* **Unavailable methods** are answered with the pair [code, text] of `internal/msgpackrouter/router.go:181`, not with
  the bare string that the repository's README shows.

## Model

| member | source | states |
|---|---|---|
| `MsgPack.LexInvertsEncode` | msgpackrpc/connection.go:429-450 | a token of any MessagePack format is read back from its bytes, with exactly what follows left over |
| `MsgPack.EncodeInvertsLex` | msgpackrpc/connection.go:162-183 | whatever token is read, its encoding is exactly the bytes consumed, and it is a valid one |
| `MsgPack.ParseInvertsEncode` | msgpackrpc/connection.go:429-450 | any sequence of nested values is read back from its bytes, whatever bytes follow |
| `MsgPack.EncodeInvertsParse` | msgpackrpc/connection.go:247-274 | whatever values are read, their encoding is exactly the bytes consumed |
| `MsgPack.PrefixFree` | msgpackrpc/connection.go:162-173 | two readings of the same bytes as the same number of values agree on values and remainder |
| `MsgPack.StrictPrefixDoesNotParse` | msgpackrpc/connection.go:166-173 | an encoding cut at any byte is never read as complete |
| `MsgPackFormat.FixedRead` | msgpackrpc/connection.go:166-173 | for each scalar format without a length, exactly the specification's number of bytes is one value |
| `MsgPackFormat.SizedRead` | msgpackrpc/connection.go:166-173 | a string, bin or ext takes exactly as many bytes as its length announces, an ext one more |
| `MsgPackFormat.ArrayRead` | msgpackrpc/connection.go:177-183 | an array of n elements, in any of its three formats, is its header and exactly n values |
| `MsgPackFormat.MapRead` | msgpackrpc/connection.go:247-261 | a map of n pairs, in any of its three formats, is its header and exactly 2 n values, and is not an array |
| `MsgPackFormat.EveryCode` | msgpackrpc/connection.go:166-173 | every code byte but the unused one belongs to one of these formats |
| `MsgPackFormat.IntFormat` | msgpackrpc/type_conversion.go:12-41 | the int 8 to int 64 formats give back the number they were made from |
| `MsgPackFormat.KindsOfValues` | msgpackrpc/connection.go:192-236 | exactly the integer formats are numbers and exactly the str formats are strings |
| `MsgPackFormat.ShortestFormats` | msgpackrpc/connection.go:436-444 | numbers, strings and array headers are written in the shortest format |
| `TypeConversion.ToInt` | msgpackrpc/type_conversion.go:10-42 | succeeds exactly on numbers that fit an int, and never changes the number |
| `TypeConversion.ToUint` | msgpackrpc/type_conversion.go:44-85 | succeeds exactly on numbers that fit a uint, and never changes the number |
| `TypeConversion.InterfaceRepresentable` | msgpackrpc/type_conversion.go:12-41 | every number that can arrive, in any of the ten integer formats, fits the Go type it is given |
| `TypeConversion.UintRoundTrip` | msgpackrpc/connection.go:436-444 | every 64-bit number written compactly is read back as itself, from at most nine bytes |
| `TypeConversion.StringRoundTrip` | msgpackrpc/connection.go:436-444 | every string of representable length is read back as itself |
| `TypeConversion.ArrayRoundTrip` | msgpackrpc/connection.go:436-444 | every array header announces the length it was made for |
| `Packets.RequestRoundTrip` | msgpackrpc/connection.go:363-386 | a sent request is one well-formed value and, raw or decoded, is classified as that request with its parameters as the receiver has them, fatal exactly when the receiver refuses one |
| `Packets.NotificationRoundTrip` | msgpackrpc/connection.go:416-427 | the same for a notification |
| `Packets.ResponseRoundTrip` | msgpackrpc/connection.go:322-333 | the same for a response |
| `Packets.RequestExactly` | msgpackrpc/connection.go:185-261 | a value is a request if and only if it is an array of the integer 0, a non-negative integer, a string and an array |
| `Packets.ResponseExactly` | msgpackrpc/connection.go:185-287 | a value is a response if and only if it is an array of the integer 1, a non-negative integer and two readable values |
| `Packets.NotificationExactly` | msgpackrpc/connection.go:185-261 | a value is a notification if and only if it is an array of the integer 2, a string and an array |
| `Packets.UnreadableFour` | msgpackrpc/connection.go:185-236 | exactly when the type, id or name of an array of four stops the connection |
| `Packets.UnreadableThree` | msgpackrpc/connection.go:185-236 | the same for an array of three |
| `Packets.RequestOnTheWire` | msgpackrpc/connection.go:378 | a request starts with the bytes 94 00, then id, name and parameters |
| `Packets.ResponseOnTheWire` | msgpackrpc/connection.go:329 | a response starts with the bytes 94 01, then id, error and result |
| `Packets.NotificationOnTheWire` | msgpackrpc/connection.go:423 | a notification starts with the bytes 93 02, then name and parameters |
| `Packets.JoinIsEncodeAll` | msgpackrpc/connection.go:247-261 | parameters kept raw are, joined, the bytes of the parameters that arrived |
| `Packets.RequestForwardedUnchanged` | internal/msgpackrouter/router.go:185-188 | a forwarded request carries the name, the parameter count and every parameter byte of the received one under the new id, and is read back so |
| `Packets.NotificationForwardedUnchanged` | internal/msgpackrouter/router.go:237-241 | the same for a notification |
| `Packets.ResponseForwardedUnchanged` | internal/msgpackrouter/router.go:104-108 | a reply reaches the caller with the callee's error and result bytes, under the caller's id |
| `Decoding.Decoder.DecodeArrayLen` | msgpackrpc/connection.go:180 | the length in the header; 0 with the input used up when the input ends inside it |
| `Decoding.Decoder.SkipAndError` | msgpackrpc/connection.go:166-173 | skips exactly n values and reports an invalid packet, or reports a fatal error because they are not all there |
| `Decoding.DecodeParamElements` | msgpackrpc/connection.go:245-261 | the loop gives the fields of exactly n values, in order, and stops right after them |
| `Decoding.DecodeParams` | msgpackrpc/connection.go:238-261 | the fields of the children of one array value; no fields when its header is cut |
| `Decoding.DecodeCall` | msgpackrpc/connection.go:238-261 | a non-array parameter value is skipped as one value; otherwise the packet with its parameters |
| `Decoding.DecodeName` | msgpackrpc/connection.go:225-261 | reads a string name and the parameters, or skips what is left of the packet |
| `Decoding.DecodeResponse` | msgpackrpc/connection.go:263-287 | error first, result second, each exactly one value |
| `Decoding.DecodeId` | msgpackrpc/connection.go:210-223 | an unsigned id, or the two remaining elements are skipped |
| `Decoding.DecodeElements` | msgpackrpc/connection.go:185-287 | the whole packet after its header, against the count of elements still to read |
| `Decoding.ParseHead` | msgpackrpc/connection.go:166-173 | reading n values is reading one and then n - 1 |
| `Decoding.TypeIsStep` | msgpackrpc/connection.go:185-290 | reading a packet field by field, in every branch, gives the verdict on the whole value and ends exactly behind it |
| `Decoding.Step` | msgpackrpc/connection.go:162-290 | whenever decoding goes on, input has been consumed |
| `Receiving.DecodeRpcPacket` | msgpackrpc/connection.go:162-290 | for every input, the verdict on the first value as a whole and the input right behind it; Fatal for an incomplete value but for the two cut headers |
| `Receiving.Run` | msgpackrpc/connection.go:292-320 | for every input, the complete log of handler calls; Run terminates |
| `Receiving.Stream` | msgpackrpc/connection.go:292-320 | for every sequence of well-formed values and whatever follows: one event per value, in order, the right one, then exactly what the remaining bytes deserve |
| `Receiving.StreamStops` | msgpackrpc/connection.go:299-306 | a value with a field the library refuses ends the log there, however much follows |
| `Receiving.RawReadable` | msgpackrpc/connection.go:247-274 | in raw mode the only values that stop Run are those whose type, id or name the library refuses |
| `Receiving.OneValuePerPacket` | msgpackrpc/connection.go:166-290 | success and an invalid-packet error consume exactly one top-level value, or the input ended inside one array header |
| `Receiving.NeverOutOfStep` | msgpackrpc/connection.go:292-320 | any byte stream is a run of complete values, each with its own event, then one place where Run stops |
| `CutStreams.CutValue` | msgpackrpc/connection.go:180-247 | complete values and then a value cut at any byte: the complete log, by where the cut falls; something of the cut value is dispatched if and only if it is a request or notification cut behind the code of its parameter array and before the end of that array's length |
| `CutStreams.PhantomExactly` | msgpackrpc/connection.go:238-261 | the packet so dispatched is the call with the value's own head and no parameters |
| `CutStreams.PhantomExample` | msgpackrpc/connection.go:243 | six bytes of a cut request that are dispatched as a request without parameters |
| `Sending.LimitedBuffer.Write` | msgpackrpc/limited_buffer.go:36-43 | appends exactly the part that fits and fails exactly when that is not all |
| `Sending.LimitedBuffer.Reset` | msgpackrpc/limited_buffer.go:49-51 | the buffer is empty again |
| `Sending.Sender.SetMaxOutgoingMessageSize` | msgpackrpc/connection.go:113-126 | the limit becomes the size, zero included; panics exactly for negative sizes |
| `Sending.Sender.Send` | msgpackrpc/connection.go:429-450 | however the encoder splits its writes and wherever the transport fails: nothing goes out when the message exceeds the limit, otherwise the part that the transport takes; reports success, limit or transport failure exactly |
| `Sending.LimitErrorSize` | internal/msgpackrouter/router.go:111 | the limit error is a well-formed value of exactly 33 bytes |
| `Sending.LimitErrorBytes` | internal/msgpackrouter/router.go:111 | the limit error on the wire: an array of two, the code 6 and the text |
| `Sending.FallbackFits` | internal/msgpackrouter/router.go:109-112 | for every 64-bit id the fallback reply is one response to that id in at most 45 bytes |
| `Sending.FwdRes` | internal/msgpackrouter/router.go:104-116 | hands to the transport the reply, or the fallback, or nothing, as the limits at the two sends decide; a transport failure is not retried |
| `Sending.SetMaxMsgSize` | internal/msgpackrouter/router.go:156-168 | takes exactly one integer above 127 as the new limit; refuses all else with code 1 and changes nothing, so that the limit stays one the limit error fits in |
| `Sending.AlwaysOneReply` | internal/msgpackrouter/router.go:104-116 | without a limit or with any accepted limits, also one that changes between the two sends, exactly one whole response frame to the caller's id is handed to the transport, within the limit it is sent under, whatever the reply's size |
| `Framing.StepKeepsInv` | msgpackrpc/connection.go:429-450 | every step of every sender and every limit change keeps the wire a run of whole messages plus the lock holder's part |
| `Framing.WholeMessagesOnly` | msgpackrpc/connection.go:429-450 | in every interleaving the wire carries each successful message once, whole, in completion order; reading it gives exactly these; success depends on length and limit only |
| `Framing.EndedUnder` | msgpackrpc/connection.go:115-126 | in every run a call succeeded or failed under the limit that had been set last at that moment |
| `Framing.MessageIsSubmitted` | msgpackrpc/connection.go:429-450 | what a call has sent is what it was called with |
| `Routes.Router.RegisterMethod` | internal/msgpackrouter/router.go:261-273 | succeeds if and only if, by the history, no other client holds the method; the table stays the outcome of the history |
| `Routes.Router.RemoveSingleMethodFromConnection` | internal/msgpackrouter/router.go:275-285 | succeeds if and only if, by the history, the client holds the method; the table stays the outcome of the history |
| `Routes.Router.RemoveMethodsFromConnection` | internal/msgpackrouter/router.go:287-294 | no route of that client is left, and the table stays the outcome of the history |
| `Routes.Router.GetConnectionForMethod` | internal/msgpackrouter/router.go:296-301 | finds the client that holds the method by the history, and nothing exactly when nobody holds it |
| `Routes.TableIsHistory` | internal/msgpackrouter/router.go:261-301 | after any events, a method maps to a client if and only if a registration of it went through and was not released since |
| `Routes.ToldExactly` | internal/msgpackrouter/router.go:261-285 | after any events a client is told success for a registration if and only if no other client holds the method, for a release if and only if it holds it |
| `Routes.OthersCannotInterfere` | internal/msgpackrouter/router.go:261-294 | no sequence of events of other clients removes or takes over a route |
| `HubInvariant.LocatedKept` | internal/msgpackrouter/router.go:178-198 | no orderly step of the hub loses or copies a request, whatever the peers answer |
| `HubInvariant.OwnersKept` | msgpackrpc/connection.go:363-386 | an entry that was not delivered belongs to a caller still at work on it |
| `HubInvariant.DeliveriesKept` | msgpackrpc/connection.go:363-386 | what a peer has been sent and not answered is what the table holds under that id |
| `HubInvariant.TargetsKept` | internal/msgpackrouter/router.go:178-188 | requests wait only in the table of the client their method was routed to |
| `HubTheorems.RunInv` | internal/msgpackrouter/router.go:104-198 | the invariant holds in every state of every fair run |
| `HubTheorems.Conservation` | internal/msgpackrouter/router.go:104-198 | in every fair run every request is in exactly one place; an entry is at the routed client; a reply, written or lost, is addressed to the caller's connection and id, and is the router's own (the limit error in place of a reply included) or the routed client's answer to this very request |
| `HubRouting.RoutesAreHistory` | internal/msgpackrouter/router.go:119-155 | in every run the hub's table is the outcome of the run's registrations, releases, resets and disconnects |
| `HubRouting.LookupExactly` | internal/msgpackrouter/router.go:118-183 | in every run a request that the router does not keep is forwarded to the client that holds its method, and refused with code 2 if and only if nobody does |
| `HubRouting.ChangesAnswered` | internal/msgpackrouter/router.go:119-155 | in every run a registration is answered 0 or, if another client holds the method, 5; a release 0 or, if the client does not hold it, 4; a reset 0 |
| `HubRouting.FailuresAnswered` | internal/msgpackrouter/router.go:109-112 | a request that could not be sent is answered 3, or 6 over a limit; a reply over the limit is replaced by 6 |
| `HubRouting.RoutedToHolder` | internal/msgpackrouter/router.go:178-188 | in every fair run the client a request went to held its method, by the history, when it was looked up |
| `HubNumbers.CounterCounts` | msgpackrpc/connection.go:367 | in every run a connection's counter is the count of the numbers it gave out, modulo 2^32 |
| `HubNumbers.NoWrapBeforeTheEnd` | msgpackrpc/connection.go:367-374 | whatever the peers do, no insertion hits an active entry in a run that gave out fewer than 2^32 numbers of that connection |
| `HubTheorems.AnsweredOnceOrPending` | msgpackrpc/connection.go:322-386 | in every fair run every request is exactly one of: answered once, lost in a failed write, pending in exactly one table, in the hands of one goroutine; never answered twice |
| `HubTheorems.LostExactly` | internal/msgpackrouter/router.go:108-115 | a request is lost if and only if some step of the run failed to write its reply |
| `HubTheorems.RepliesOnlyGrow` | internal/msgpackrouter/router.go:104-116 | a reply given is never revoked or changed |
| `HubDelivery.ReplyTellsDelivery` | internal/msgpackrouter/router.go:104-198 | in every fair run a callee's answer means that the request was delivered, and an answer of the router, other than the limit error, means that it was delivered to nobody and, however the run goes on, never will be |
| `HubTransparency.RequestsArriveUnchanged` | internal/msgpackrouter/router.go:178-188 | in every fair run what is delivered goes to the routed client and is one request frame under the number in its table, with the method and the bytes of each parameter as they were in the caller's packet |
| `HubTransparency.RepliesReturnUnchanged` | internal/msgpackrouter/router.go:104-116 | in every fair run a callee's reply comes from the routed client in answer to this very request, and the frame for the caller is one response under its own id with the error and result bytes of the callee's packet |
| `HubInvariant.LiveRoutesKept` | internal/msgpackrouter/router.go:252-257 | no step makes a route to a connection past its clean-up |
| `HubTheorems.RoutesAreLive` | internal/msgpackrouter/router.go:252-257 | in every run, fair or not, no route points to a connection past its clean-up |
| `HubProspects.StrandedForever` | internal/msgpackrouter/router.go:255-257 | a request delivered to a client that has left stays in its table and is never answered, whatever happens next |
| `HubProspects.LostForever` | internal/msgpackrouter/router.go:108-115 | a lost reply is never tried again |
| `HubProspects.WrittenExactly` | internal/msgpackrouter/router.go:252-257 | a request or reply can be written if and only if the connection it goes to is not closed |
| `HubProspects.ShutForever` | internal/msgpackrouter/router.go:255-257 | once the router has closed a caller's connection, the number of answers to its requests never changes |
| `HubProspects.AnswerableExactly` | internal/msgpackrouter/router.go:104-257 | in every fair run, for any set of internal methods, some fair continuation has a request answered if and only if it is answered already, or its reply was not lost, it was not delivered to a client that has left and its caller's connection is not closed; methods that clients serve are looked up and forwarded; the goroutine it waits for must not be about to take a number that is still active |
| `HubExamples.NotAlwaysAnswered` | internal/msgpackrouter/router.go:255-257 | a fair run that ends with a request delivered to a client that has left |
| `HubExamples.CallerGone` | internal/msgpackrouter/router.go:255-257 | a fair run that ends with a request pending at a client that still reads and, its caller being closed, not answerable any more |
| `HubExamples.ReplyLost` | internal/msgpackrouter/router.go:108-115 | a fair run after which a request has no answer and is pending nowhere |
| `HubExamples.ForgedReplyAnswersTwice` | msgpackrpc/connection.go:378-383 | a run with a forged reply and a failed send that answers one request twice |
| `HubForgery.AtMostOnceIfOrderly` | msgpackrpc/connection.go:340-386 | with peers that answer anything, every request is replied to at most once and none disappears, while ids do not wrap onto active ones and every failed send finds its own entry |
| `HubForgery.SecondReplyExactly` | msgpackrpc/connection.go:378-383 | after such a run, a failed send leads to a second reply in some orderly continuation if and only if it finds its own entry gone |
| `OutRequests.StepKeepsInv` | msgpackrpc/connection.go:340-386 | a handler waits under at most one id, and never after it has run |
| `OutRequests.HandlerRunsAtMostOnce` | msgpackrpc/connection.go:340-414 | with duplicate, forged and late replies, cancellation and wrapping ids, every handler runs at most once |
| `OutRequests.IdsAreRanks` | msgpackrpc/connection.go:367 | in every run the n-th call has id n, modulo 2^32 |
| `OutRequests.IdsDiffer` | msgpackrpc/connection.go:367 | two calls with fewer than 2^32 calls between them have different ids |
| `OutRequests.InsertOverwritesNone` | msgpackrpc/connection.go:369-374 | an insertion overwrites no entry of a call with fewer than 2^32 calls in between |
| `OutRequests.EntryStays` | msgpackrpc/connection.go:340-386 | a call's entry stays until it is answered or its own send fails, whatever happens within 2^32 calls of it, and a response under its id runs its handler |
| `OutRequests.Table.TakeIndex` | msgpackrpc/connection.go:367 | one numbering step: the next 32-bit id |
| `OutRequests.Table.Put` | msgpackrpc/connection.go:369-374 | one insertion step under the id taken |
| `OutRequests.Table.Delete` | msgpackrpc/connection.go:379-381 | one removal step under the id taken |
| `OutRequests.Table.SendRequest` | msgpackrpc/connection.go:363-386 | with no other call in between: one new entry under the new id, none under it after a failed send |
| `OutRequests.Table.HandleIncomingResponse` | msgpackrpc/connection.go:340-356 | one response step: takes out and returns exactly the entry of the id, or nothing; the handler has never run before |
| `RawParams.Lazy.Get` | internal/msgpackrouter/router.go:70-88 | every call, first or later, gives the decoding of the raw list |
| `RawParams.LazyEqualsEager` | internal/msgpackrouter/router.go:70-88 | decoding on demand gives what decoding on arrival gives, for every parameter list that decodes |
| `ComposeArgs.ComposeArgs` | cmd/arduino-router-cli/main.go:115-196 | the loops compute the recursive parser, for every list of words, and terminate |
| `ComposeArgs.Compose` | cmd/arduino-router-cli/main.go:115-196 | success leaves strictly fewer words |
| `ArgWords.WordsExactly` | cmd/arduino-router-cli/main.go:119-144 | for every word: it is read as a scalar if and only if it spells it, by a grammar of keywords, prefixes, numerals and plain words |
| `ArgWords.AtoiIsNumeral` | cmd/arduino-router-cli/main.go:191-195 | a word is read as an integer if and only if it is digits, with or without a sign, whose places add up to it within 64 bits |
| `ArgSyntax.ListMeaning` | cmd/arduino-router-cli/main.go:145-163 | a list means what its items mean, in order |
| `ArgSyntax.DictHolds` | cmd/arduino-router-cli/main.go:164-190 | a map has exactly the keys of its entries, and under each what the last entry with that key means |
| `ArgSyntax.ParseInvertsRender` | cmd/arduino-router-cli/main.go:115-196 | what was written is read back as what it means, leaving exactly what follows |
| `ArgSyntax.RenderInvertsParse` | cmd/arduino-router-cli/main.go:115-196 | whatever is read, the words used are the rendering of something that means the value |
| `ArgSyntax.ReadsExactly` | cmd/arduino-router-cli/main.go:115-196 | for every list of words: a value is read with a remainder if and only if the words are that value written down, and then the remainder |
| `ArgPanics.PanicsExactly` | cmd/arduino-router-cli/main.go:174-187 | for every list of words: the parser panics if and only if they begin with well-written open lists and maps, complete entries, a complete key in brackets and a complete value |
| `ArgPanics.PanicsOnBracketKeys` | cmd/arduino-router-cli/main.go:174-187 | a complete argument is never rejected and panics if and only if some key at some depth is written as a list or a map |
| `ArgPanics.PanicsBeforeTheEnd` | cmd/arduino-router-cli/main.go:179-187 | the words `{ [ ] nil`, which close no map, panic |
| `ArgTyping.AtoiInvertsItoa` | cmd/arduino-router-cli/main.go:191-194 | every 64-bit integer is read back from its decimal text |
| `ArgTyping.Spelling` | cmd/arduino-router-cli/main.go:119-144 | every scalar has a word that spells it and is read as it, also strings that look like something else |
| `ArgTyping.EveryValueCanBeTyped` | cmd/arduino-router-cli/main.go:115-196 | for every nested value with scalar keys there are words that are read as that value, whatever follows |
| `ArgTyping.CommandLineRoundTrip` | cmd/arduino-router-cli/main.go:49-61 | for every list of such values there is a command line whose bracketed words give that list with nothing left over |
| `ArgTyping.CommandLineExactly` | cmd/arduino-router-cli/main.go:49-61 | a command line is accepted as a list of arguments if and only if it is these arguments written one after the other |
| `ArgLocality.LeavesSuffix` | cmd/arduino-router-cli/main.go:145-190 | what is left over is a strictly shorter suffix of the words |
| `ArgLocality.Local` | cmd/arduino-router-cli/main.go:145-190 | if p followed by r is read as v leaving r, then p followed by any t is read as v leaving t |
| `SerialPort.StepKeepsInv` | main.go:238-279 | every step of the loop and of the calls keeps the invariant of the port protocol |
| `SerialPort.Safe` | main.go:204-279 | in every run no signal channel is closed twice and at most one port is open, with at most one connection, on that port |
| `SerialPort.NothingToDo` | main.go:204-234 | opening an open port and closing a closed one change nothing and do not wait |
| `SerialPort.DeviceSteps` | main.go:248-277 | what opening, failing to open and leaving do to ports and connections |
| `SerialPort.CloseReachesLoop` | main.go:228-272 | in every run a loop that serves the port while no signal is set has been told to leave, and one whose signal is set stays while its connection stands |
| `SerialPort.ClosersWaitForDisconnect` | main.go:228-243 | a call that waited and no longer waits was let go at a moment in between when the port was disconnected |
| `SerialPort.CloseResumesAfterDisconnect` | main.go:228-234 | a close call that took the closing branch resumes only after a later moment at which the port is disconnected |
| `SerialPort.StillWaitingExactly` | main.go:204-243 | a close call that took the closing branch still waits if and only if at every later pass of the loop's top some open had come since the close and no close after it |
| `SerialPort.ReleasedExactly` | main.go:241-243 | at the first pass of the loop's top after the close, the closer is woken if and only if no open stands |
| `SerialPort.CloserLeftBehind` | main.go:204-243 | a run in which the port goes down and up again while the closer still waits |
| `Handles.Tables.TakeLockAndGenerateNextID` | internal/network-api/network-api.go:64-79 | the first handle after the counter, around the ring, that no connection or listener has; the search ends while fewer than 2^32 are live |
| `Handles.Tables.OpenConnection` | internal/network-api/network-api.go:107-109 | binds a handle that neither table had; nothing else changes |
| `Handles.Tables.OpenListener` | internal/network-api/network-api.go:137-139 | the same for a listener |
| `Handles.Tables.OpenUdp` | internal/network-api/network-api.go:416-418 | binds a handle that no connection or listener has |
| `Handles.Tables.CloseConnection` | internal/network-api/network-api.go:188-193 | gives back and frees exactly that connection |
| `Handles.Tables.CloseListener` | internal/network-api/network-api.go:221-226 | gives back and frees exactly that listener |
| `Handles.Tables.CloseUdpConnection` | internal/network-api/network-api.go:658-662 | gives back and frees exactly that UDP socket |
| `Handles.SomeHandleFree` | internal/network-api/network-api.go:67-79 | with fewer than 2^32 handles in use some 32-bit handle is free |
| `Handles.NeverShared` | internal/network-api/network-api.go:67-79 | in every run, through any number of wrap-arounds, connections and listeners never share a handle |
| `Handles.BoundUntilClosed` | internal/network-api/network-api.go:107-109 | in every run a live connection or listener keeps its handle until that handle is closed |
| `Handles.TablesExactly` | internal/network-api/network-api.go:107-226 | after any calls a handle is bound, in each of the three tables, exactly to what the last open bound it to unless it was closed since |
| `Handles.FirstFreeAt` | internal/network-api/network-api.go:67-79 | the search gives the handle at distance k from the counter if and only if it is free and all the nearer ones are in use |
| `Handles.UdpHandleReused` | internal/network-api/network-api.go:71-73 | a live UDP handle at any distance from the counter is handed out again by the next open of any kind if and only if no connection or listener has it and each handle before it belongs to one; a UDP open then replaces the socket, a TCP open shares the handle with it |
| `Handles.UdpHandleRebound` | internal/network-api/network-api.go:67-79 | a run with never more than two live UDP sockets that binds handle 1 to one socket and, without closing it, later to another |
| `Udp.Assembly` | internal/network-api/network-api.go:443-515 | in every run write buffers and targets have the same keys, exist exactly between a begin and its end, and hold the writes and the address since that begin |
| `Udp.SentIsWritten` | internal/network-api/network-api.go:505-529 | every datagram is the concatenation of the writes since the last successful begin, and goes where that begin said |
| `Udp.PieceAndRest` | internal/network-api/network-api.go:630-644 | one read returns at most what was asked, and piece and remainder are what was waiting |
| `Udp.Pieces` | internal/network-api/network-api.go:587-644 | for any read sizes, the pieces read plus the remainder are the awaited packet until the next await, drop or close |
| `Udp.ReadExactly` | internal/network-api/network-api.go:630-644 | in every run a read returns the next bytes of the packet: as many as asked for, or all that are left |
| `Udp.ReadsAddUp` | internal/network-api/network-api.go:630-644 | k reads of m bytes have read k m bytes or the whole packet |
| `Udp.LiveExactly` | internal/network-api/network-api.go:416-662 | a handle is live if and only if it was opened and not closed since |
| `Udp.AnsweredExactly` | internal/network-api/network-api.go:443-590 | in every run a call is accepted or refused by what was begun, sent, opened and closed before it |
| `Udp.Calls.BeginPacket` | internal/network-api/network-api.go:443-457 | starts an empty packet to the resolved address, or changes nothing |
| `Udp.Calls.Write` | internal/network-api/network-api.go:481-491 | appends to the packet that was begun, or changes nothing |
| `Udp.Calls.EndPacket` | internal/network-api/network-api.go:505-529 | hands out packet and address and forgets both, refused without a live socket or a begun packet |
| `Udp.Calls.AwaitPacket` | internal/network-api/network-api.go:552-590 | the received packet replaces what was waiting, or nothing changes |
| `Udp.Calls.ReadPacket` | internal/network-api/network-api.go:630-644 | a piece of the waiting packet, keeping the remainder |
| `Udp.Calls.DropPacket` | internal/network-api/network-api.go:604-611 | nothing is waiting |
| `Udp.Calls.Close` | internal/network-api/network-api.go:658-662 | the socket and what was waiting are gone; a begun packet stays |

## Left out

- The inside of the MessagePack library: its reader is the parser of `MsgPack.dfy`, its writer is known by the bytes it writes; which composite values it refuses to decode is a parameter (`Mode.decodes`).
- Sockets, TLS, name resolution, the serial driver, file watching, clocks and timeouts: their results are arguments or free choices of a step.
- Failed and partial transport writes in `Framing`, where writes to the transport succeed. `Sending` has a transport that fails at any byte, and the hub a failing send, which delivers nothing, and a failing reply.
- The hub's frames are not steps of `Framing`: that concurrent frames do not mix is proved there, and which frames the hub writes in `HubTransparency`.
- Internal methods (`hciapi`, `monitorapi`, network and serial handlers) in the hub are any set of names, fixed for a run; handling one is a single step, `Local`, that may answer with any code. The same step stands for the reserved methods with bad parameters. Answers given later from another goroutine, and handlers that never return, are not modelled.
- Notifications in the hub: they touch neither table; their bytes are covered by `Packets.NotificationForwardedUnchanged`.
- Concurrent UDP calls: several handlers change maps under a read lock, so the UDP claims are for calls one after the other.
- Handles.Tables.OpenUdp: does not promise that the handle is free among the UDP sockets, because the code does not look there.
- Udp.Calls.Close: does not promise that a begun packet is forgotten, because the code leaves it.
- Liveness: that a close call of the serial port returns, and that a pending request is answered. Neither holds; the conditions are those of `StillWaitingExactly` and `AnswerableExactly`.
- HubProspects.AnswerableExactly: says nothing of a request whose goroutine is about to take a number that is still active, now or once it has looked up the client, because inserting it is not fair until that number is free.
- Float values on the command line are known by what the library's parser makes of their text; as map keys, Go never finds a not-a-number equal to itself and takes 0.0 and -0.0 for one key, while the model compares bits.
- TCP reads and writes, the parameter checks of the network handlers, loggers, flags, signal handling, and the wording of error messages.

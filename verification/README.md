# Verified model of rustunnel

rustunnel publishes local services through a server: a client keeps a control connection and a data
connection, registers tunnels, and proxies what the server sends it. This project models the parts of client
and server whose behaviour depends on long histories, and proves what those histories can and cannot lead to.
`dafny verify dfyconfig.toml` checks everything.

**The passive HTTP tap** (`Text`, `Letters`, `Numerals`, `Utf8`, `Capture`, `ChunkedCoding`,
`ChunkedRoundTrip`, `Heads`, `HttpTap`, `TapConnection`, `TapSplit`, `TapHistory`, `TapPairing`, `TapRecords`,
`TapBytes`, `TapBodies`, `TapStreams`, `TapConversations`, `MessageFraming`, `TapTimely`, `TapCuts`,
`InspectorRing`). The client watches both directions of a connection and rebuilds exchanges from bytes that
arrive in arbitrary pieces. `HttpTap` is the tap as a state machine on values, and `TapConnection` the loops
as they are written, each proved to leave exactly the state that the machine does. The head parser
(`httparse`) is a parameter, so every result holds for any parser. The results: how a stream is cut never
matters when its heads are of a kind made precise in `Heads`, and for a head of any other kind some parser
tells two cuts apart; chunked decoding undoes chunked encoding; records pair the k-th request with the k-th
response, and every single record is accounted for even when responses come early or requests are evicted;
every byte is accounted for, and bodies go to the message whose head opened them; a whole conversation,
interleaved in any way, is recorded as the exchanges it was. Numbers, UTF-8, header names and framing are
characterised apart from the code that reads them: by alphabets and places, by an encoder, and by the header
list alone (`MessageFraming`).

**The routing core** (`Routing`, `RoutingInvariant`, `RoutingRuns`, `RoutingLedger`, `Admission`,
`MemberHealth`, `TunnelCoreObject`). The server's routing tables, reverse index, TCP group index, port pools,
sessions, groups, health bits, alert flags and counters, one transition per public method, and a class that
carries them out step by step. One invariant holds in every reachable state; a ledger of events gives the
alert flags and the counters their meaning over time. `Admission` says exactly which registrations are
accepted, and that whoever shares a route presented its key; `MemberHealth` what a member's reports make of
its health fields.

**Health reports** (`HealthProbe`, `HealthLink`). The client's probe loop, alone and composed with the
server's health bit over a FIFO channel.

**Metering** (`Metering`, `TunnelLogObject`, `ServerMetering`, `RowLifetimes`). Absolute counters written to
rows by statements that may be late, repeated or reordered; the rows are a join of what was written, never run
ahead of the live counters, and end up equal to them. `ServerMetering` joins the routing core, the counters
and the rows in one machine, and `RowLifetimes` says exactly how long a row takes what is written.

**Limiters and rendezvous** (`TokenBuckets`, `TokenHistory`, `SlidingWindows`, `Rendezvous`, `Relays`). Each
limiter is related to the plain history of its calls; the client's two pending maps are shown to bring each
frame and stream together once, in any order. For ids of a peer-to-peer relay, `Relays` says exactly when the
order matters.

## Where the code and its documentation differ

- The probe loop's comments and the reason text promise `max_failed` *consecutive* failures. Failures
  before the very first success stay in the counter (health.rs:157-170 does not reset it), so a later Unhealthy
  may come early. `HealthProbe.UnhealthyIsExact` states what the code does, `LeadMakesDishonest` gives
  runs that show it, and `HonestyIsExact` states exactly which beginnings avoid it.
- Section 7.1 of RFC 9112 lets a chunk extension carry bytes above 0x7F in a quoted string. The size line is parsed as
  UTF-8 text (tap.rs:172-180), so such a body ends early: `DecodeUndoesEncode` has the exact condition,
  `LatinExtensionIsNotDecoded` an example.
- A head may end in CRLF CRLF or in LF LF, and the first is preferred wherever it stands (tap.rs:215-221); the size
  limit applies to what is buffered, so a head over it is accepted when it arrives at once and refused when it arrives
  in parts. Slicing therefore matters for some streams. `SplitSafeIsExact` says for which heads it does not.
- Response framing is documented as following the request's method (tap.rs:592-595). The method is that of the oldest
  request *when the response head is read*, the recorded request that of the oldest *when the body ends*; a response
  that comes before its request, or an eviction in between, makes them differ. `RecordIsExact` has the exact condition,
  `EarlyResponseKeepsItsBody` a run.
- The alert's webhook URLs are said to come in insertion order, but members are iterated in map order
  (router.rs:939-997); the model promises distinct URLs in no particular order.
- ip_limiter.rs:5-6 speaks of a length that exceeds the limit; the code denies at the limit, and so does the model.

## Model

| member | source | states |
|---|---|---|
| Capture.PushCaptures | crates/rustunnel-client/src/inspect/mod.rs:56-66 | Pushing a chunk onto the capture of some data is the capture of data and chunk together: the first `BODY_CAP` bytes, the exact total and the truncation flag, whatever the chunking |
| Capture.PushAppend | crates/rustunnel-client/src/inspect/mod.rs:56-66 | Two pushes equal one push of the concatenation, from any body |
| ChunkedCoding.TakeLineByte | crates/rustunnel-client/src/inspect/tap.rs:113-166 | One byte of a size or trailer line: the line is collected up to its limit, then decides the next phase |
| ChunkedCoding.Advance | crates/rustunnel-client/src/inspect/tap.rs:107-169 | One turn of the scanner loop takes a whole block of data bytes or one other byte, and is exactly that much of the byte-at-a-time scan |
| ChunkedCoding.FeedScanner | crates/rustunnel-client/src/inspect/tap.rs:107-169 | The loop, with its bulk copies of chunk data, refines the byte-at-a-time scan: same final scanner, same count of bytes consumed, same captured body, and it is done exactly when the scan is |
| ChunkedCoding.ScanSplit | crates/rustunnel-client/src/inspect/tap.rs:107-169 | Scanning a concatenation is scanning the parts in turn, stopping where the body ended |
| ChunkedCoding.ScanBlock | crates/rustunnel-client/src/inspect/tap.rs:107-169 | A block of chunk data read at once is what reading it byte by byte gives |
| Numerals.ParseIsExact | crates/rustunnel-client/src/inspect/tap.rs:172-180 | The parse of an unsigned number accepts exactly the numerals below 2^64, perhaps after a plus sign: digits of the literal alphabet in either case, each weighed by its place, most significant first |
| Numerals.NumberRoundTrip | crates/rustunnel-client/src/inspect/tap.rs:577-579 | In radix 10 and in radix 16 every number below 2^64, written with its digits most significant first, is read back |
| Numerals.SaysNumberIsExact | crates/rustunnel-client/src/inspect/tap.rs:577-579 | Trimmed and parsed, a text yields n exactly when it is a numeral for n with nothing but Unicode white space around it |
| Utf8.DecodeIsExact | crates/rustunnel-client/src/inspect/tap.rs:173 | Decoding yields a text exactly when the bytes are the UTF-8 encoding of that text (section 3 of RFC 3629) |
| ChunkedRoundTrip.ParseChunkSizeIsExact | crates/rustunnel-client/src/inspect/tap.rs:172-180 | A line of text has size n exactly when what is in front of its first semicolon is a hexadecimal numeral for n, white space and line end aside |
| ChunkedRoundTrip.ParseSizeLine | crates/rustunnel-client/src/inspect/tap.rs:172-180 | A size line that spells its size in hexadecimal, most significant digit first and in either case, parses to that size, or to nothing exactly when its extension is not UTF-8 |
| ChunkedRoundTrip.SlicesDoNotMatter | crates/rustunnel-client/src/inspect/tap.rs:107-169 | Feeding a scanner any slices equals feeding it their concatenation: state, bytes consumed and data |
| ChunkedRoundTrip.ScanCoded | crates/rustunnel-client/src/inspect/tap.rs:107-169 | Any encoded body: an accepted one is consumed whole and yields its payload; any other ends early |
| ChunkedRoundTrip.BareSizeLine | crates/rustunnel-client/src/inspect/tap.rs:113-180 | A size line may also end in a line feed alone (section 2.2 of RFC 9112) |
| ChunkedRoundTrip.DecodeUndoesEncode | crates/rustunnel-client/src/inspect/tap.rs:107-180 | Decode undoes encode (section 7.1 of RFC 9112): with any chunks, extensions and trailers, any bytes following and any slicing, the scanner consumes exactly the encoded body, is done there and captures exactly the data, if and only if every line is within its limit and every extension is UTF-8 |
| ChunkedRoundTrip.LatinExtensionIsNotDecoded | crates/rustunnel-client/src/inspect/tap.rs:172-180 | A body that section 7.1 of RFC 9112 admits and the scanner ends early: its quoted extension holds a byte above 0x7F |
| Heads.FindFrom | crates/rustunnel-client/src/inspect/tap.rs:215-221 | The first occurrence of a pattern, or none exactly when there is none |
| Heads.HeadEndIsExact | crates/rustunnel-client/src/inspect/tap.rs:215-221 | A head ends after the first CRLF CRLF wherever it is, or after the first LF LF if there is no CRLF CRLF at all; it has no end exactly when neither occurs |
| Heads.PrefixAgrees | crates/rustunnel-client/src/inspect/tap.rs:215-221 | In a split-safe buffer every prefix either waits or reaches the verdict of the whole |
| Heads.SplitSafeIsExact | crates/rustunnel-client/src/inspect/tap.rs:215-221 | A buffer is split safe (its head ends at most one byte beyond `MAX_HEAD`, and no LF LF ends before its CRLF CRLF does) if and only if no prefix of it reaches a verdict that the whole would not |
| Heads.UnsafeCut | crates/rustunnel-client/src/inspect/tap.rs:259-326 | Every other buffer has a cut whose first part is concluded differently from the whole |
| HttpTap.FeedFraming | crates/rustunnel-client/src/inspect/tap.rs:53-71 | A body framing takes no more than it is given, makes progress while unfinished, and leaves nothing unread until it finishes |
| HttpTap.Step | crates/rustunnel-client/src/inspect/tap.rs:259-409 | Each turn of either loop that goes on strictly shrinks that direction's buffer, so both loops end |
| TapConnection.FeedBody | crates/rustunnel-client/src/inspect/tap.rs:50-72 | Feeding a framing and its body sink is the framing function: next state, bytes consumed, captured bytes |
| TapConnection.TapState.CompleteExchange | crates/rustunnel-client/src/inspect/tap.rs:412-458 | Completing an exchange: the oldest waiting request, or a placeholder, is recorded with the response; nothing else changes |
| TapConnection.TapState.RequestTurn | crates/rustunnel-client/src/inspect/tap.rs:263-326 | One turn of the request loop is one step of the model, on the whole state |
| TapConnection.TapState.ResponseTurn | crates/rustunnel-client/src/inspect/tap.rs:334-409 | One turn of the response loop is one step of the model, on the whole state |
| TapConnection.TapState.TakeResponseHead | crates/rustunnel-client/src/inspect/tap.rs:349-393 | A response head: unparseable, interim, 101, bodiless or framed by the oldest request's method |
| TapConnection.TapState.FeedRequest | crates/rustunnel-client/src/inspect/tap.rs:259-326 | The request loop over a buffer leaves exactly the state that draining the model does |
| TapConnection.TapState.FeedResponse | crates/rustunnel-client/src/inspect/tap.rs:330-409 | The response loop over a buffer leaves exactly the state that draining the model does |
| TapConnection.TapState.Close | crates/rustunnel-client/src/inspect/tap.rs:461-465 | Closing records the response that runs until the connection closes, and only that one |
| Letters.SameWordIsExact | crates/rustunnel-client/src/inspect/tap.rs:564-569 | Comparing lower-cased words is comparing them letter by letter over the two alphabets |
| MessageFraming.HeaderValueIsExact | crates/rustunnel-client/src/inspect/tap.rs:564-569 | The value found is that of the first header of the name, in any case, and there is none exactly when no header has the name |
| MessageFraming.RequestFramingIsExact | crates/rustunnel-client/src/inspect/tap.rs:571-590 | From the header list alone: chunked exactly when the first `Transfer-Encoding` holds the word "chunked" in any case; otherwise Length(n) exactly when the first `Content-Length` says n > 0; otherwise no body, and only then |
| MessageFraming.ResponseFramingIsExact | crates/rustunnel-client/src/inspect/tap.rs:592-616 | Likewise for a response: nothing for 204, 304 or an answer to HEAD, else chunked, else Length(n), else nothing for a length of 0, and until the close exactly when neither header says anything |
| MessageFraming.ResponseHeadIsExact | crates/rustunnel-client/src/inspect/tap.rs:349-393 | What a response head does: 100 and 102 to 199 are passed over, 101 is recorded and ends the reading of both directions, a response without a body is recorded at once with the oldest request or the placeholder, any other waits for its body |
| MessageFraming.RecordedStatuses | crates/rustunnel-client/src/inspect/tap.rs:355-361 | In no run is an interim response recorded |
| TapSplit.FramingSplit | crates/rustunnel-client/src/inspect/tap.rs:50-72 | A framing fed a concatenation is the framing fed its parts, up to where it finishes |
| TapSplit.DrainSplit | crates/rustunnel-client/src/inspect/tap.rs:259-409 | Draining and then feeding more is draining everything, in either direction, and the rest of the run stays split safe |
| TapSplit.SplitInvariance | crates/rustunnel-client/src/inspect/tap.rs:259-409 | Split invariance: a one-direction stream whose heads are split safe leaves the same mode, buffer, queue, bodies and records however it is sliced, from any state between calls |
| TapPairing.SlicingNeverMatters | crates/rustunnel-client/src/inspect/tap.rs:259-409 | Split invariance holds from every state that any interleaving of both directions and the close reaches |
| TapSplit.DrainIdempotent | crates/rustunnel-client/src/inspect/tap.rs:259-409 | A drained direction has nothing left to do |
| TapPairing.StepKept | crates/rustunnel-client/src/inspect/tap.rs:259-409 | One turn keeps the queue, the records, every body and every framing accounted for by the history |
| TapPairing.RunKept | crates/rustunnel-client/src/inspect/tap.rs:259-465 | Every interleaving of both directions and the close keeps them so, for any head parser |
| TapPairing.FifoPairing | crates/rustunnel-client/src/inspect/tap.rs:355-458 | FIFO pairing (section 9.3.2 of RFC 9112): with no response head read before its request's and no eviction, record k joins request k, with exactly the part of its body read by then, and non-interim response k, and that response was framed by request k's own method |
| TapRecords.RecordIsExact | crates/rustunnel-client/src/inspect/tap.rs:355-458 | Every record of every run, orphans and evictions included: it carries response k, whole, and the request its history names with exactly the data bytes read when it was made; the request whose method the framing was chosen from is the recorded one if and only if no request joined an orphan while it was read and no eviction reached the request being answered |
| TapRecords.BodilessResponsesAbsorbNothing | crates/rustunnel-client/src/inspect/tap.rs:596-616 | In every interleaving a recorded 204 or 304 took no byte of what follows (section 6.3 of RFC 9112), nor did a response framed for HEAD, nor the response recorded with a HEAD request if it was undisturbed |
| TapRecords.EarlyResponseKeepsItsBody | crates/rustunnel-client/src/inspect/tap.rs:376-418 | A run that shows the condition is needed: a response whose head comes before its request's is recorded with a HEAD request, body and all |
| TapPairing.BodyAttribution | crates/rustunnel-client/src/inspect/tap.rs:283-324 | In every interleaving, with early responses and evictions, captured request bytes are those of the body that the same request's head opened: all of it that has been read for a queue entry, all that had been read when it was made for a record; every request is queued, recorded once in order, or evicted |
| TapBodies.RecordedBodyIsExact | crates/rustunnel-client/src/inspect/tap.rs:283-458 | Every record of every run is made by one input, never changes, and holds all of its request's body that had been read before that input; if the body was whole by then, all the body that request ever has |
| TapBytes.EveryByteIsRead | crates/rustunnel-client/src/inspect/tap.rs:259-409 | In every interleaving, until a direction gives up or a response is read on after the close, the bytes it was shown are its heads (interim ones included) and body bytes in order, and then its buffer |
| TapPairing.RunSettles | crates/rustunnel-client/src/inspect/tap.rs:209-409 | After every call a direction seeks a head with at most `MAX_HEAD` unterminated bytes, or is inside an unfinished body with an empty buffer, or has given up for good; the queue is never longer than `MAX_PENDING` |
| TapPairing.UpgradeIsFinal | crates/rustunnel-client/src/inspect/tap.rs:363-375 | After a 101 no input changes anything: nothing is recorded again |
| TapStreams.WholeBodies | crates/rustunnel-client/src/inspect/tap.rs:50-72 | An accepted chunked body, and data of an announced length, are whole bodies for their framings |
| TapStreams.RequestStream | crates/rustunnel-client/src/inspect/tap.rs:259-326 | A stream of well-formed requests in any slices leaves exactly the newest `MAX_PENDING` of them queued, with their bodies |
| MessageFraming.RequestsByHeaders | crates/rustunnel-client/src/inspect/tap.rs:259-326 | A stream of requests whose bodies are what their own headers say, chunked, as long as announced or absent, in any slices leaves exactly the newest `MAX_PENDING` of them queued, with those bodies |
| TapStreams.PipelineRoundTrip | crates/rustunnel-client/src/inspect/tap.rs:259-458 | Pipelined requests, then their responses, each direction in any slices, leave exactly this state: those pairs recorded in order with exactly those bodies, the unanswered requests queued, and nothing left over |
| TapConversations.ConverseRun | crates/rustunnel-client/src/inspect/tap.rs:259-409 | At every moment of an interleaving of well-formed messages, each direction has read exactly the first of them, and its buffer with what is still to come is the rest |
| TapConversations.ConversationRoundTrip | crates/rustunnel-client/src/inspect/tap.rs:259-465 | Well-formed requests and responses, interim responses and a last body up to the close included, in any interleaving and slicing in which no response head comes before its request's and none is evicted: after the close the records are exactly the k-th request, with the data of its body read by then, and the k-th final response with its whole body, and the unanswered requests are queued with their bodies |
| MessageFraming.ConversationByHeaders | crates/rustunnel-client/src/inspect/tap.rs:259-465 | The round trip for messages given by their headers: requests and responses with the bodies that their statuses, methods and headers give them, the last one perhaps until the close, are recorded after the close as exactly the k-th request and the k-th final response with its whole body |
| TapTimely.RequestsReadInTimeAreWhole | crates/rustunnel-client/src/inspect/tap.rs:283-458 | In such a conversation, if at some moment all of the k-th request had been shown and not yet all of the k-th final response, record k is exactly that request and that response, both bodies whole; keep-alive exchanges one after the other meet this |
| TapCuts.SplitSafeIsNeeded | crates/rustunnel-client/src/inspect/tap.rs:215-409 | In either direction, from every state that waits for a head: if what it holds and the next bytes begin with a head that is not split safe, then some head parser (free to agree with a given one on known heads when nothing follows) makes two slices of those bytes leave a different state than the bytes at once |
| TapCuts.LaterHeadsToo | crates/rustunnel-client/src/inspect/tap.rs:215-326 | The same for a later head: after any well-formed requests, with a parser that still reads all of them |
| InspectorRing.Inspector.Record | crates/rustunnel-client/src/inspect/mod.rs:301-317 | The next id is given out and the ring holds the latest `RING_CAPACITY` exchanges since the last clear |
| InspectorRing.Inspector.Clear | crates/rustunnel-client/src/inspect/mod.rs:330-332 | The ring is emptied and ids go on from where they were |
| InspectorRing.Inspector.Exchanges | crates/rustunnel-client/src/inspect/mod.rs:320-323 | The newest exchanges first, with their ids, as many as the ring retains |
| InspectorRing.Inspector.Exchange | crates/rustunnel-client/src/inspect/mod.rs:325-328 | An id is found exactly when it is among the latest `RING_CAPACITY` given out since the last clear, and yields what was recorded under it |
| TunnelCoreObject.TunnelCore.constructor | crates/rustunnel-server/src/core/router.rs:141-180 | A new core: full port pools, empty tables |
| TunnelCoreObject.TunnelCore.RegisterHttpTunnel | crates/rustunnel-server/src/core/router.rs:297-385 | The HTTP registration: every refusal leaves the state alone, a new label opens a group, a matching key and protocol joins one |
| TunnelCoreObject.TunnelCore.RegisterTcpTunnel | crates/rustunnel-server/src/core/router.rs:400-493 | The TCP registration: a known group reuses its port with no event, otherwise the last free port is taken and announced |
| TunnelCoreObject.TunnelCore.RegisterUdpTunnel | crates/rustunnel-server/src/core/router.rs:497-525 | The UDP registration takes and announces a port |
| TunnelCoreObject.TunnelCore.RegisterP2pTunnel | crates/rustunnel-server/src/core/router.rs:529-567 | The P2P registration publishes a free name |
| TunnelCoreObject.TunnelCore.RemoveOne | crates/rustunnel-server/src/core/router.rs:606-667 | Removal of one tunnel; with the last member go the route, the group index entry and the port |
| TunnelCoreObject.TunnelCore.RemoveSessionAndTunnels | crates/rustunnel-server/src/core/router.rs:268-274 | Session removal drops the session and then each tunnel it lists |
| TunnelCoreObject.TunnelCore.HandleHealthy | crates/rustunnel-server/src/control/session.rs:1157-1180 | A healthy frame counts only from the owner: bit set, streak cleared, debounce re-armed |
| TunnelCoreObject.TunnelCore.HandleUnhealthy | crates/rustunnel-server/src/control/session.rs:1181-1234 | An unhealthy frame counts only from the owner; the alert, if due, carries each distinct webhook URL once |
| TunnelCoreObject.TunnelCore.TunnelSession | crates/rustunnel-server/src/core/router.rs:1002-1016 | The owner of a tunnel across all tables |
| TunnelCoreObject.TunnelCore.ResolveRoute | crates/rustunnel-server/src/core/router.rs:1026-1075 | Resolution picks some healthy member, checks its session, and counts one request on it |
| TunnelCoreObject.TunnelCore.ResolvePublisher | crates/rustunnel-server/src/core/router.rs:570-582 | A publisher is found by name while its session lives, and the request is counted on it |
| TunnelCoreObject.TunnelCore.AddTransfer | crates/rustunnel-server/src/core/tunnel.rs:132-147 | A transfer raises exactly one tunnel's two directions and their sum |
| TunnelCoreObject.TunnelCore.Meter | crates/rustunnel-server/src/core/router.rs:716-737 | The live counters of one tunnel, zeros when it is not routed |
| TunnelCoreObject.TunnelCore.LiveTunnelMeters | crates/rustunnel-server/src/core/router.rs:741-762 | The listing holds every indexed tunnel exactly once, with the counters that the single-tunnel reading gives |
| TunnelCoreObject.ListingsJoin | crates/rustunnel-server/src/core/router.rs:741-762 | Listings of disjoint sets of tunnels join into one that is still exact |
| Admission.HttpAdmission | crates/rustunnel-server/src/core/router.rs:297-385 | An HTTP registration is accepted if and only if the session is live and lists fewer tunnels than the limit, the label is valid, and it is not routed or its group has the presented key and speaks the protocol; a refusal changes nothing |
| Admission.HttpRefusals | crates/rustunnel-server/src/core/router.rs:297-385 | Each of the six refusals is given exactly when its own reason holds and no earlier one does |
| Admission.HttpAdds | crates/rustunnel-server/src/core/router.rs:321-384 | An accepted HTTP registration adds exactly one tunnel: indexed, listed last by its session, with zero counters, healthy unless it asked for probes, in a new group with the presented key or in the one that is there |
| Admission.TcpAdmission | crates/rustunnel-server/src/core/router.rs:400-493 | A TCP registration joins the route of its (name, key) group whenever there is one, otherwise takes an unrouted port of the range, and is refused for want of ports if and only if all are routed |
| Admission.TcpAdds | crates/rustunnel-server/src/core/router.rs:400-493 | An accepted TCP registration adds exactly one tunnel, and announces the port with its id exactly when the port is new |
| Admission.UdpAdmission | crates/rustunnel-server/src/core/router.rs:497-525 | A UDP registration takes an unrouted port of the range and is refused for want of ports if and only if all are routed |
| Admission.P2pAdmission | crates/rustunnel-server/src/core/router.rs:529-567 | A name is published if and only if the session has room and nobody publishes it |
| Admission.FreedPortIsNext | crates/rustunnel-server/src/core/router.rs:606-667 | A port given up by its last member is announced as closed and is the next one handed out |
| Admission.LabelIsExact | crates/rustunnel-server/src/core/router.rs:1111-1129 | A label is valid exactly when it has 3 to 63 letters, digits and hyphens, of the literal alphabet, and no hyphen at either end |
| Admission.SharersPresentedTheKey | crates/rustunnel-server/src/core/router.rs:337-383 | After any run every member of a route was registered with the key of its group, whoever registered it and whenever; a route without a key has one member |
| Admission.SessionsAreExact | crates/rustunnel-server/src/core/router.rs:251-274 | After any run a session is live exactly when it was opened and not closed since, and lists exactly the tunnels accepted for it since then, in order |
| Admission.OwnerIsExact | crates/rustunnel-server/src/core/router.rs:1002-1016 | The owner that reports are checked against is exactly the session of the tunnel that the tables hold |
| RoutingInvariant.RegisterHttpKeeps | crates/rustunnel-server/src/core/router.rs:297-385 | HTTP registration, accepted or refused, keeps tables, index, sessions, pools and events in agreement |
| RoutingInvariant.RegisterTcpKeeps | crates/rustunnel-server/src/core/router.rs:400-493 | TCP registration keeps the same agreement, and the group index never names a missing route |
| RoutingInvariant.RegisterUdpKeeps | crates/rustunnel-server/src/core/router.rs:497-525 | UDP registration keeps the same agreement |
| RoutingInvariant.RegisterP2pKeeps | crates/rustunnel-server/src/core/router.rs:529-567 | P2P registration keeps the same agreement |
| RoutingRuns.RemoveHolds | crates/rustunnel-server/src/core/router.rs:606-667 | Removal takes exactly that tunnel out of the tables and leaves every other tunnel as it was |
| RoutingRuns.RemoveTunnelKeeps | crates/rustunnel-server/src/core/router.rs:606-667 | Removal keeps the invariant: port back in the pool, index entry gone, listener told |
| RoutingRuns.RemoveSessionKeeps | crates/rustunnel-server/src/core/router.rs:268-274 | Session removal keeps the invariant, although tunnels lose their session before their routes |
| RoutingRuns.TeardownIsExact | crates/rustunnel-server/src/core/router.rs:268-274 | After session removal exactly the other sessions' tunnels are still in the tables, unchanged |
| RoutingRuns.ApplyKeeps | crates/rustunnel-server/src/core/router.rs:268-1100 | Every operation keeps the invariant |
| RoutingRuns.NewCoreKeeps | crates/rustunnel-server/src/core/router.rs:141-180 | A new core satisfies the invariant over its configured port ranges |
| RoutingRuns.EveryRunAgrees | crates/rustunnel-server/src/core/router.rs:268-1100 | Routing agreement and port conservation in every reachable state: index and tables say the same, no route is empty, every tunnel's live session lists it, free and routed ports partition the configured ranges, group index entries and keyed TCP groups coincide, and Registered/Unregistered events alternate per port and leave exactly the routed ports open |
| RoutingRuns.LiveTunnelsAreBounded | crates/rustunnel-server/src/core/router.rs:1079-1100 | No session has more live tunnels than its limit |
| RoutingRuns.GroupIndexIsBijective | crates/rustunnel-server/src/core/router.rs:400-493 | Different (name, key hash) pairs have different ports |
| RoutingRuns.ResolutionIsExact | crates/rustunnel-server/src/core/router.rs:1056-1075 | In every reachable state resolution succeeds if and only if some member of the route has its health bit set; it then returns such a member, whose session is live, and the only change is one more request on that member; otherwise nothing changes |
| Admission.ResolveP2pIsExact | crates/rustunnel-server/src/core/router.rs:570-582 | In every reachable state a published name is always found, with its publisher, whose session is live, and the only change is one more request on it |
| RoutingLedger.RunDebounced | crates/rustunnel-server/src/core/router.rs:939-997 | In every run the debounce flag of a group is the history's answer to: alerted since it was created or last reported healthy |
| RoutingLedger.AlertIsExact | crates/rustunnel-server/src/core/router.rs:939-997 | An alert is raised if and only if the report is the owner's, the group is keyed, no other member has its health bit set, and none was raised since creation or the last accepted healthy report |
| Admission.AlertCarriesItsGroup | crates/rustunnel-server/src/core/router.rs:939-997 | The alert carries the group's route, name, key and number of members, and exactly the URLs that its members gave |
| RoutingLedger.AlertsAreBounded | crates/rustunnel-server/src/core/router.rs:823-997 | For one key, alerts are never more than the groups created there plus the accepted healthy reports |
| RoutingLedger.CountersAreExact | crates/rustunnel-server/src/core/tunnel.rs:132-147 | After any run each routed tunnel's counters are exactly the successful resolutions that returned it, the sums of the bytes carried for it in each direction, and the sum of both |
| MemberHealth.HealthIsExact | crates/rustunnel-server/src/core/router.rs:811-860 | After any run a member's health fields are what the reports accepted since its registration make of them: the bit is the last report's, the streak the failures since the last success, the total all failures, and the ring the latest 50 of its registration and its changes of health |
| RoutingLedger.RunAccounted | crates/rustunnel-server/src/core/router.rs:1056-1075 | The counts hold over every run in which tunnel ids are not issued twice; resolutions only ever return issued tunnels |
| HealthProbe.RunProbeLoop | crates/rustunnel-client/src/health.rs:143-230 | The probe loop sends exactly the reports of the edge function, up to where the channel closes |
| HealthProbe.ReportsAlternate | crates/rustunnel-client/src/health.rs:157-228 | Over every sequence of outcomes, reports strictly alternate |
| HealthProbe.CounterIsStreak | crates/rustunnel-client/src/health.rs:157-200 | What the counter is after any outcomes: the failures since the last success, plus the failures before the first success while it has not been reset |
| HealthProbe.UnhealthyIsExact | crates/rustunnel-client/src/health.rs:157-200 | Unhealthy is sent exactly at the failure that makes the streak, with what was carried over, reach `max_failed` |
| HealthProbe.HealthyIsExact | crates/rustunnel-client/src/health.rs:157-200 | Healthy is sent exactly at the first success, and at a success after failures that, with what was carried over, reached `max_failed` |
| HealthProbe.FirstSuccessIsHonest | crates/rustunnel-client/src/health.rs:157-200 | When the first probe succeeds, Unhealthy is sent exactly at the probe that completes `max_failed` consecutive failures |
| HealthProbe.LeadMakesDishonest | crates/rustunnel-client/src/health.rs:157-200 | With 0 < lead < `max_failed` failures before the first success, a run exists in which Unhealthy is sent after fewer than `max_failed` consecutive failures |
| HealthProbe.HonestyIsExact | crates/rustunnel-client/src/health.rs:157-200 | Every continuation reports only `max_failed` consecutive failures if and only if the run began with no failure or with at least `max_failed` |
| HealthLink.OnlyTheOwnerFlips | crates/rustunnel-server/src/control/session.rs:1157-1234 | No operation but a health frame of the owning session changes a member's health bit while the member lives |
| HealthLink.StaysInStep | crates/rustunnel-server/src/control/session.rs:1157-1234 | Probe, channel and routing core stay in step through any probe outcomes, deliveries and other operations |
| HealthLink.HealthComposition | crates/rustunnel-server/src/control/session.rs:1157-1234 | For a member that starts unhealthy, the server's bit is the last delivered report, false if none, and equals the prober's view once the channel is drained |
| HealthLink.ProbedStartsUnhealthy | crates/rustunnel-server/src/core/tunnel.rs:258-281 | An accepted HTTP or TCP registration with a health spec, with a chosen or a generated label, in a new group or an existing one, starts such a member unhealthy |
| HealthLink.HealthFromRegistration | crates/rustunnel-server/src/control/session.rs:1157-1234 | The composition from that registration on: the bit is the last delivered report, false if none, and the prober's view once the channel is drained |
| Metering.RowMerge | crates/rustunnel-server/src/db/metering.rs:23-111 | For any order and repetition of statements, a row's columns are the greatest of their start and the snapshots applied while it was open; the sum column follows; a closed row never changes; a stale-close writes no counter |
| Metering.OrderDoesNotMatter | crates/rustunnel-server/src/db/metering.rs:23-65 | Two histories that apply the same snapshots, in any order and number, leave the same counters |
| RowLifetimes.OpenIsExact | crates/rustunnel-server/src/db/metering.rs:29-111 | Over any history a row is open at the end if and only if it was open at the start and no statement was a close of its tunnel that did not fail, or a sweep of its region; a flush never closes |
| RowLifetimes.FailureIsExact | crates/rustunnel-server/src/db/metering.rs:31-38 | A write fails exactly when some open row of its tunnel would come to hold two directions whose sum its signed column cannot |
| RowLifetimes.RowsAlwaysFit | crates/rustunnel-server/src/db/metering.rs:18-65 | Whatever is written, no row ever holds more than its columns can, and the sum column is the sum |
| Metering.RowsNeverRunAhead | crates/rustunnel-server/src/db/metering.rs:71-93 | With traffic between and inside snapshots, and writes late, repeated or reordered, no row exceeds its tunnel's live counters |
| RowLifetimes.ReadingsCatchUp | crates/rustunnel-server/src/core/tunnel.rs:185-192 | A snapshot read piece by piece lies between the counters when it began and the counters when it is written, column by column |
| TunnelLogObject.TunnelLog.Statement | crates/rustunnel-server/src/db/metering.rs:23-111 | One SQL statement over the table, failing as a whole when a row would overflow |
| TunnelLogObject.TunnelLog.FlushLiveMeters | crates/rustunnel-server/src/db/metering.rs:71-77 | The periodic flush writes an exact listing row by row, and stops at the first error |
| TunnelLogObject.TunnelLog.FlushAndCloseLiveMeters | crates/rustunnel-server/src/db/metering.rs:84-93 | The shutdown flush writes and closes an exact listing row by row, and stops at the first error |
| TunnelLogObject.TunnelLog.UnregisterTunnel | crates/rustunnel-server/src/control/session.rs:880-891 | The row is closed with the counters read before the route is removed |
| TunnelLogObject.TunnelLog.EndSession | crates/rustunnel-server/src/control/session.rs:142-153 | Teardown reads all listed tunnels' counters, closes their rows, then removes the session |
| TunnelLogObject.CloseEachExact | crates/rustunnel-server/src/db/metering.rs:84-93 | Row by row what flush-and-close does for any listing without duplicates |
| RowLifetimes.FlushIsExact | crates/rustunnel-server/src/db/metering.rs:67-77 | The periodic flush brings every open row of a live tunnel up to date and leaves it open, and touches no other row |
| TunnelLogObject.CloseListedExact | crates/rustunnel-server/src/control/session.rs:142-150 | Row by row what a teardown does: an open row of a listed tunnel takes the counters read and is closed, unless the database refuses its sum; no other row changes |
| TunnelLogObject.ShutdownIsExact | crates/rustunnel-server/src/db/metering.rs:84-93 | A quiescent flush-and-close closes every row open for a live tunnel with exactly its live counters and touches no other |
| ServerMetering.ShutdownSettlesAll | crates/rustunnel-server/src/db/metering.rs:71-93 | End to end, from an empty server, with registrations, removals, traffic and piecewise, late or repeated writes in any order: no row exceeds its tunnel's live counters, and a flush-and-close of the core's own listing closes every row open for a routed tunnel with exactly the core's counters |
| RowLifetimes.RowOpenIsExact | crates/rustunnel-server/src/db/metering.rs:22-111 | After any run of the whole server the row that a registration opened is open if and only if it was neither closed nor swept since |
| RowLifetimes.LastCountersAreStored | crates/rustunnel-server/src/db/metering.rs:79-93 | The shutdown really stores the last counters: the row of a tunnel that is still routed, if it was neither closed nor swept, ends closed with exactly the counters that the core has for it |
| ServerMetering.TeardownSettlesSession | crates/rustunnel-server/src/control/session.rs:142-153 | After any run from an empty server, the teardown of a session closes every row open for a tunnel it lists, with exactly the core's counters if the tunnel is still routed and with the counters it has if not, and touches no other row |
| ServerMetering.RequestsAreConserved | crates/rustunnel-server/src/core/router.rs:1056-1075 | Over every run the request counters of all tunnels ever registered, present or departed, sum to the number of successful resolutions |
| ServerMetering.RunSound | crates/rustunnel-server/src/core/tunnel.rs:132-192 | In every run the core's counters for a routed tunnel are its live counters, and rows and readings stay behind them |
| TokenBuckets.RateLimiter.CheckRateLimit | crates/rustunnel-server/src/core/limiter.rs:23-63 | One check: refill, cap, take a token if there is one; other tunnels' buckets are untouched |
| TokenBuckets.RateLimiter.EvictIdle | crates/rustunnel-server/src/core/limiter.rs:67-71 | Exactly the buckets idle for `evict_after` or longer go |
| TokenBuckets.RateBound | crates/rustunnel-server/src/core/limiter.rs:23-71 | At a constant rate, in any interval of any run, one tunnel is allowed at most maxRps + maxRps * length requests |
| TokenHistory.DenialIsExact | crates/rustunnel-server/src/core/limiter.rs:23-56 | At a constant rate, after any run of all tunnels and evictions, a request is denied if and only if the rate is zero, or for some earlier request of the tunnel the requests allowed since, and this one, exceed maxRps + maxRps * the seconds since |
| TokenHistory.BurstIsExact | crates/rustunnel-server/src/core/limiter.rs:23-56 | A tunnel that is new, or has been idle for a second, is granted a burst of exactly maxRps |
| TokenHistory.EvictionIsExact | crates/rustunnel-server/src/core/limiter.rs:67-71 | After an eviction the tunnels with a bucket are exactly those that asked within the last 300 seconds |
| TokenBuckets.EvictionsNeverShow | crates/rustunnel-server/src/core/limiter.rs:58-71 | Evictions anywhere change no answer, whatever the rates |
| SlidingWindows.Prune | crates/rustunnel-server/src/auth.rs:113-117 | The pruning loop drops early times from the front only |
| SlidingWindows.Sweep | crates/rustunnel-server/src/auth.rs:106-110 | The sweep keeps exactly the addresses whose last time is in the window |
| SlidingWindows.AuthFailureLimiter.IsLimited | crates/rustunnel-server/src/auth.rs:72-84 | The answer and the pruned deque |
| SlidingWindows.AuthFailureLimiter.RecordFailure | crates/rustunnel-server/src/auth.rs:87-103 | The failure is recorded, and a sweep follows when too many addresses are tracked |
| SlidingWindows.LimitIsExact | crates/rustunnel-server/src/auth.rs:72-117 | After any mix of calls and sweeps an address is limited exactly when the budget is not zero and at least that many of its failures lie in the closed window ending now |
| SlidingWindows.SweepIsExact | crates/rustunnel-server/src/auth.rs:106-110 | After a sweep the tracked addresses are exactly those with a failure in the window |
| SlidingWindows.IpRateLimiter.Check | crates/rustunnel-server/src/core/ip_limiter.rs:33-52 | The answer and the new deque |
| SlidingWindows.DenialIsExact | crates/rustunnel-server/src/core/ip_limiter.rs:33-60 | A request is denied exactly when the limiter is on and the last window holds as many admitted requests as it may |
| SlidingWindows.AdmissionsAreBounded | crates/rustunnel-server/src/core/ip_limiter.rs:33-60 | No closed window, wherever it starts, holds more admitted requests than the limit |
| Rendezvous.FindLocalTarget | crates/rustunnel-client/src/control.rs:1154-1175 | The first registered tunnel that serves the protocol, none before it does; or none exactly when none does |
| Rendezvous.RequestsAreExact | crates/rustunnel-client/src/control.rs:938-955 | In any run the local connection that waits for a request is the one accepted last for it, if no relay took it since |
| Rendezvous.MainLoop.NewConnectionArm | crates/rustunnel-client/src/control.rs:904-936 | A `NewConnection` frame: skipped, dropped, matched with a waiting stream, or stashed |
| Rendezvous.MainLoop.StreamArm | crates/rustunnel-client/src/control.rs:837-855 | A stream: bridged, matched with a waiting frame, or stashed |
| Rendezvous.MainLoop.P2pConnectedArm | crates/rustunnel-client/src/control.rs:938-955 | A relay announcement meets a waiting stream or waits for one |
| Rendezvous.RunKeepsOneSide | crates/rustunnel-client/src/control.rs:750-756 | In every run no id waits both as a stream and on the other side |
| Rendezvous.MeetsExactlyOnce | crates/rustunnel-client/src/control.rs:837-936 | With at most one frame and one stream for an id, and any traffic of other ids: both came, then one proxy was started and nothing waits; one came, then it waits in its own map |
| Rendezvous.InterleavingDoesNotMatter | crates/rustunnel-client/src/control.rs:837-936 | Runs that show an id the same frame and stream, in any order and among any other events, treat it alike |
| Rendezvous.MeetsSinceTheLastDrop | crates/rustunnel-client/src/control.rs:856-936 | After a drop of the data socket, only what comes later can meet |
| Relays.BridgesExactlyOnce | crates/rustunnel-client/src/control.rs:837-955 | For an id of a peer-to-peer relay with no local target announced, in any run with at most one stream and one known relay for it: both came, then they are bridged once and nothing waits; one came, then it waits in its own map |
| Relays.LocalsWait | crates/rustunnel-client/src/control.rs:837-863 | A local connection that waits for its stream waits through drops of the data socket and all other events |
| Relays.RelayOrderMatters | crates/rustunnel-client/src/control.rs:837-955 | One announcement, one stream and one relay of a known request have the same outcome in all orders if and only if no registered tunnel serves the announced protocol |
| Relays.OnlyItsOwnEventsMatter | crates/rustunnel-client/src/control.rs:837-955 | In any run whose other events leave its requests alone and in which the data socket stays up, what becomes of an id is what its own events, in their order, make of it |
| Relays.RelayOrderMattersInRuns | crates/rustunnel-client/src/control.rs:837-955 | The same if-and-only-if over all such runs, with any events of other ids in between |
| Relays.RelayLast | crates/rustunnel-client/src/control.rs:837-955 | With a local target, an order in which the stream is proxied to the target and the local connection waits for good |

## Left out

- Sockets, TLS, WebSocket and yamux framing, axum handlers, timers and select scheduling: they appear as input events and clock readings.
- httparse itself: head parsing is an arbitrary function from the head's bytes to an optional result, the same on every call.
- Interleaving inside one method of the routing core: each public method is one atomic step, an assumption the concurrent maps do not guarantee.
- The width of the in-memory counters (`u64`, `u32`, atomics): they are unbounded here. Widths that the code itself treats are modelled: the parse of sizes and lengths, the saturating probe counter, the clamp to a signed column and the overflow of its sum.
- Rounding of `f64` in the token bucket (real numbers here), and the underflow of a clock minus a window.
- Timestamps, durations, tunnel labels and client addresses of recorded exchanges.
- Aliasing of the scanner and the body inside the tap's class: these owned values are passed in and returned by value; the enclosing state is updated in place.
- The three group tables of the router are one map whose key says which table it belongs to; the code keeps one map per kind.
- TunnelCoreObject.TunnelCore.RegisterHttpTunnel: compares the protocol with every member of the group, the code with the first one it meets; the same in every reachable state, where a group has one protocol.
- TunnelCoreObject.TunnelCore.ResolveRoute: the uniform random choice is any healthy member; its distribution is not modelled.
- TunnelCoreObject.TunnelCore.HandleUnhealthy: the alert's delivery, the region, the eight-character form of the key hash, group events and log lines are not modelled.
- TapPairing.FifoPairing: its hypothesis, that no response head came before its request's and no request was evicted, is read off the history of the run; `TapRecords.RecordIsExact` needs neither.
- TapConversations.ConversationRoundTrip: the same hypothesis, and no 101 among the responses (`TapPairing.UpgradeIsFinal` covers what follows one).
- MessageFraming.ConversationByHeaders: the same two hypotheses; a chunked body there is one that `ChunkedRoundTrip.DecodeUndoesEncode` recovers.
- TokenHistory.DenialIsExact: the tunnel's rate is constant and clocks do not run backwards; for changing rates only `TokenBuckets.EvictionsNeverShow` holds.
- TapStreams.PipelineRoundTrip: requests first, then responses, so that the recorded request bodies are whole; interleaved directions are in `TapConversations`.
- TapCuts.SplitSafeIsNeeded: the parser may be chosen; one that rejects both readings of the head leaves the same state either way.
- Metering.RowMerge: a statement is one atomic transition of all rows; SQL parsing, transactions and affected-row counts are not modelled.
- ServerMetering.ShutdownSettlesAll: the row is inserted in the same step as the registration, which the code does a little later; a flush in between finds no row.
- Rendezvous.MeetsExactlyOnce: excludes ids that a peer-to-peer relay uses; `Relays` treats those.
- Relays.RelayOrderMattersInRuns: one relay per id, and its request is known before the run; a second relay for the same id is only in the transitions.
- The peer-to-peer subscriber path beyond its use of the rendezvous maps, NAT classification, hole punching, QUIC and STUN.
- Probe sockets and the HTTP status check: a probe's outcome is an input.
- `validate_subdomain` is modelled inside registration; the random label is a parameter, and so are fresh ids and the text of a port.
- UDP datagram framing, reconnect backoff, version checks, configuration, CLI, TUI, dashboard, MCP tools, audit log, billing and reports: plumbing and text, or easier than what is here.

# A verified model of rgrok's tunnel

rgrok publishes a service on a private machine under a public name or port. A client keeps one
WebSocket to the server; the server reserves an endpoint for it, forwards public requests through
multiplexed streams of that connection, and reads the service's answers off the raw stream. This
project models, in Dafny 4.11, the parts of the server, the client and their shared crate whose
correctness depends on interleaving, on how bytes are cut into reads, or on two programs agreeing
about one text, and proves what they promise for all inputs and all runs.

`dafny verify dfyconfig.toml` checks everything.

## How it is organised

| part | modules |
|---|---|
| Ground | `Sequences`, `Text`, `Utf8`, `ByteStreams`, `HeadLines` |
| The HTTP/1.1 response reader | `HttpResponse` (one-shot parse), `Cuttings` (ways of cutting bytes into reads), `LineReading`, `ResponseReading` (the incremental reader), `ChunkedCoding` and `ResponseWire` (round trips) |
| Forwarded header fields | `HopByHop` |
| The tunnel registry | `Registry` (operations, and the class that performs them) |
| The registration protocol | `Protocol` (steps), `ProtocolInvariant`, `ProtocolParts`, `ProtocolSteps` (each step keeps the invariant), `ProtocolTheorems`, `ProtocolProgress` (no reservation is leaked), `ProtocolService` (what clients get, and cleanup) |
| Sessions | `Revocation`, `Correlation` |
| Byte-stream adapters | `WebSocketPipe`, `Framing`, `Capture` |
| Printers and parsers that must agree | `RequestWire`, `RequestCapture`, `Endpoint`, `Reconnect`, `ServerAddress` |

Code that updates buffers, maps or fields is modelled by classes and methods with loops; each is
proved against a function, and the properties are proved of that function. A peer's bytes are a
list of non-empty runs: every list is one way the same bytes can be cut into reads, so a statement
about all lists is a statement about all cuttings. Concurrent code is a step system: everything
done under one lock is one step, and between steps any other task may run; timeouts, failures and
disconnections are steps that may always be taken. A session is identified by its allocation, as
`Arc::ptr_eq` does; tunnel ids are chosen by clients and may repeat.

## Where the code does less than it seems to promise

Each condition is proved in both directions, for all inputs.

- The size check at `proxy.rs:843` runs between reads, so the cutting can decide about a chunk-size
  or trailer line. It does exactly for those of 65,536 to 73,726 bytes
  (`LineReading.CuttingDecidesLongLines`), and the answer to a response depends on where reads fall
  exactly when it parses with lines of up to 73,726 bytes and has one of more than 65,535
  (`ResponseReading.ReadTwoCuttings`, `ResponseReading.ReadBothWays`).
- A session whose token is revoked goes on to its close exactly while it is not waiting for a peer
  that does not read, or for room in its own queue. The second wait never ends: the handler's reply
  enters the queue of 64 messages that only the handler's own loop empties
  (`Revocation.RevokedSessionAdvancesIff`, `Revocation.RevokedSessionCanStayOpen`).
- The inspector shows a request's path exactly when the path has no white space, such as a no-break
  space written in UTF-8 (`RequestCapture.PathReadsBackIff`).
- Correlation ids of one connection are distinct exactly while at most 2^32 were issued
  (`Correlation.IdsDistinctIff`, `Correlation.WrappingLosesARequest`).
- A control message reads back exactly when it has at most 1,048,576 bytes; the writer has no such
  limit, and past 2^32 its length field wraps (`Framing.ReadsBackIff`, `Framing.WrittenReadsAs`).
- The inspector's body and truncated flag are right exactly when the head has at most 65,536 bytes,
  or the message fits the buffer, or there is no body (`Capture.ShowsBodyIff`).
- The proxy routes a printed URL back to its tunnel exactly when the configured domain has no `:`,
  and ports read back exactly when it has no `/` (`Endpoint.ProxyRoutesBackIff`,
  `Endpoint.ClientFindsPortIff`).
- A printed control address reads back exactly when the configured host does not start with `[` and
  does not have both `:` and `]` (`ServerAddress.AddressReadsBackIff`).

## Model

| member | source | states |
|---|---|---|
| ByteStreams.TakeRun | crates/rgrok-server/src/proxy.rs:714-718 | One read takes a non-empty prefix, of at most the buffer size, of the bytes still to come, and loses none; only an ended stream gives nothing |
| ByteStreams.ByteStream.Read | crates/rgrok-server/src/proxy.rs:714-717 | A read at the end of the bytes gives zero bytes on an orderly close and an error on a broken stream; elsewhere it gives what has arrived |
| HttpResponse.AgreedLengthMeans | crates/rgrok-server/src/proxy.rs:766-781 | A Content-Length is agreed on exactly when there is a member and every member of every field line is that same number |
| ResponseReading.ParseContentLength | crates/rgrok-server/src/proxy.rs:766-781 | The nested loop computes the agreed length: refused on the first member that is no number or differs, absent only without members |
| HttpResponse.FramingOfMeans | crates/rgrok-server/src/proxy.rs:663-690 | The framing by what the field lines say: chunks, whatever Content-Length says, exactly when "chunked" is the one coding named; a fixed length exactly when no coding is named, some length is and all are that number; the close exactly when neither is named; anything else is refused |
| ResponseReading.ResponseReader.EnsureBuffered | crates/rgrok-server/src/proxy.rs:783-800 | Succeeds exactly when the peer sends that many bytes, loses none, reads only while they are not there, and does not read past a run end that has them before it |
| ResponseReading.ResponseReader.TakeBuffered | crates/rgrok-server/src/proxy.rs:802-805 | Moves exactly the front of the buffer out |
| ResponseReading.ResponseReader.ReadHeaderSection | crates/rgrok-server/src/proxy.rs:699-725 | However the reads fall, the section found is the one a search of the whole byte string finds within 65,536 bytes, and it is missed only if that misses it |
| ResponseReading.ResponseReader.ReadFinalHead | crates/rgrok-server/src/proxy.rs:641-661 | Exactly the first non-interim head behind at most 16 interim ones, or a failure in every cutting |
| ResponseReading.ResponseReader.ReadLine | crates/rgrok-server/src/proxy.rs:833-848 | The loop over the shared buffer performs LineRun; cut in one of the two ways it is exact within that bound |
| LineReading.LineRunBetween | crates/rgrok-server/src/proxy.rs:833-848 | For every cutting into reads, a line read is the line of the whole byte string and has at most 73,726 bytes, and a refused one is missing or has more than 65,535 |
| LineReading.LineRunInStep | crates/rgrok-server/src/proxy.rs:833-848 | Byte by byte the reader accepts exactly the lines of at most 65,535 bytes, run by line exactly those of at most 73,726, and reads nothing past their end |
| LineReading.CuttingDecidesLongLines | crates/rgrok-server/src/proxy.rs:843-846 | The cutting decides about a line exactly when it has from 65,536 to 73,726 bytes: shorter ones are read in every cutting, longer ones in none, each of these in one and not in another |
| Cuttings.ReadStaysWithin | crates/rgrok-server/src/proxy.rs:783-800 | A read that starts before the end of a run ends no later than there |
| Cuttings.CutAfterCrlf | crates/rgrok-server/src/proxy.rs:838-840 | Both cuttings end a run at every CRLF, and what follows is cut the same way |
| ResponseReading.ResponseReader.ReadTrailers | crates/rgrok-server/src/proxy.rs:867-876 | The trailer section is consumed up to and including its empty line, and no further |
| ResponseReading.ResponseReader.ReadChunkData | crates/rgrok-server/src/proxy.rs:882-887 | A chunk is taken exactly when its bytes are followed by CRLF |
| ResponseReading.ResponseReader.ReadChunk | crates/rgrok-server/src/proxy.rs:860-887 | One turn of the chunk loop is one step of the one-shot decoder |
| ResponseReading.ResponseReader.ReadChunkedBody | crates/rgrok-server/src/proxy.rs:850-889 | In every cutting the body is the one-shot chunked decoding, and refused only where that refuses; no read is made once the body is buffered |
| ResponseReading.ResponseReader.ReadFixedBody | crates/rgrok-server/src/proxy.rs:807-831 | Exactly Content-Length bytes, from buffer and stream together, within the limit |
| ResponseReading.ResponseReader.ReadCloseDelimitedBody | crates/rgrok-server/src/proxy.rs:891-916 | All bytes up to an orderly close within the limit; a fault or a timeout fails |
| ResponseReading.ResponseReader.ReadBody | crates/rgrok-server/src/proxy.rs:684-690 | Each framing reads the body its one-shot decoder finds |
| ResponseReading.ResponseReader.ReadHttpResponse | crates/rgrok-server/src/proxy.rs:633-697 | In every cutting an answer is the one-shot parse with lines of at most 73,726 bytes, and a refusal is one the parse with lines of at most 65,535 makes too; each of the two parses is exactly the answer in one cutting; a self-delimiting response is never read past |
| ResponseReading.ReadTwoCuttings | crates/rgrok-server/src/proxy.rs:633-697 | Segmentation independence: two cuttings of the same bytes are answered alike, unless CuttingDecides |
| ResponseReading.ReadBothWays | crates/rgrok-server/src/proxy.rs:633-697 | And for every byte string two cuttings are answered differently exactly when CuttingDecides: with lines of up to 73,726 bytes there is an answer, and some chunk-size or trailer line has more than 65,535 |
| ResponseWire.HeadReadsBack | crates/rgrok-server/src/proxy.rs:641-661 | Any printed head, with any version, reason and blanks around names and values, reads back as its status and fields in order; it is refused exactly when longer than 65,536 bytes, not HTTP, or with a status beyond 16 bits |
| ResponseWire.FieldReadsBack | crates/rgrok-server/src/proxy.rs:747-753 | A field line reads back as its name and its value, without the blanks around them |
| ResponseWire.BadHeadIsRefused | crates/rgrok-server/src/proxy.rs:747-752 | A line without a colon, or without a name before it, anywhere among the fields fails the response |
| ResponseWire.InterimsAreSkipped | crates/rgrok-server/src/proxy.rs:650-659 | At most sixteen interim responses, 101 not among them, are skipped whole; one more fails |
| ResponseWire.TooManyInterims | crates/rgrok-server/src/proxy.rs:654-657 | Seventeen or more fail the response, whatever follows |
| ResponseWire.UnreadableIsRefused | crates/rgrok-server/src/proxy.rs:705-740 | So does a final head that is too long, of another protocol or with too large a status |
| ResponseWire.DeclaredLengthReadsBack | crates/rgrok-server/src/proxy.rs:686-831 | Round trip with a declared length: status, fields, exactly the body and the bytes after it, if the body fits the limit; a body cut short fails |
| ResponseWire.CloseDelimitedReadsBack | crates/rgrok-server/src/proxy.rs:688-690 | Round trip without length and coding: the body is everything up to an orderly close, if it fits |
| ResponseWire.ChunkedReadsBack | crates/rgrok-server/src/proxy.rs:671-889 | Round trip in chunks, whatever lengths are declared beside the coding: the content and the bytes after the last line |
| ResponseWire.BodilessReadsBack | crates/rgrok-server/src/proxy.rs:663-669 | Round trip without a body: a response to HEAD, or with status 101, 204 or 304, ends with its head |
| HeadLines.SplitBlock | crates/rgrok-server/src/proxy.rs:728-746 | Splitting a head at CRLF gives its lines |
| Utf8.DecodesIff | crates/rgrok-server/src/proxy.rs:646 | Strict decoding accepts exactly the printed form of a text, and gives that text |
| HttpResponse.TrimAllAt | crates/rgrok-server/src/proxy.rs:674 | Each member of a list is trimmed, in place |
| Sequences.SplitMeans | crates/rgrok-server/src/proxy.rs:728 | Splitting gives the pieces that have no separator in them and join to the whole |
| HttpResponse.TrailersBounds | crates/rgrok-server/src/proxy.rs:868-876 | Lowering the line bound from any value to another loses exactly the trailer sections with a line beyond the lower one |
| HttpResponse.ChunkedBounds | crates/rgrok-server/src/proxy.rs:850-889 | The same for chunked bodies: the lower bound decodes what the higher does where every size and trailer line met fits it, and nothing else |
| HttpResponse.ParseBounds | crates/rgrok-server/src/proxy.rs:633-697 | The same for whole responses |
| HttpResponse.CuttingDecidesIff | crates/rgrok-server/src/proxy.rs:843-846 | The parses under the two bounds differ exactly when the larger one succeeds and some line exceeds the smaller; then the smaller fails and every line is within the larger |
| HttpResponse.SuffixIndependent | crates/rgrok-server/src/proxy.rs:641-690 | A complete self-delimiting response parses the same with any bytes after it and however those end, and leaves exactly them |
| HttpResponse.FinalHeadSuffix | crates/rgrok-server/src/proxy.rs:641-661 | Bytes after a complete head do not change it |
| HttpResponse.ChunkedSuffix | crates/rgrok-server/src/proxy.rs:850-889 | Bytes after a complete chunked body do not change it |
| HttpResponse.BodySuffix | crates/rgrok-server/src/proxy.rs:684-690 | The same for every framing but the close-delimited one |
| ChunkedCoding.SizeReadsBack | crates/rgrok-server/src/proxy.rs:861-866 | Any digits, blanks and extension of a size line read back as the size, refused exactly above the machine word |
| ChunkedCoding.ChunkReadsBack | crates/rgrok-server/src/proxy.rs:860-887 | An encoded chunk reads back as its data and leaves the rest; it is refused exactly when it exceeds the room left |
| ChunkedCoding.TrailersReadBack | crates/rgrok-server/src/proxy.rs:867-876 | Any trailer lines are consumed, and the bytes after them are left |
| ChunkedCoding.RoundTrip | crates/rgrok-server/src/proxy.rs:850-889 | Any chunks, extensions and trailers followed by any bytes decode to the content and leave those bytes when it fits the limit, and are refused otherwise |
| ChunkedCoding.PlainSizeIsWellFormed | crates/rgrok-server/src/proxy.rs:861-866 | The shortest numeral of any size is a well-formed size line under the bound that holds in every cutting |
| ChunkedCoding.EveryContentReadsBack | crates/rgrok-server/src/proxy.rs:850-889 | So every content within the limit has an encoding that is decoded to it in every cutting, whatever bytes follow |
| HopByHop.HopByHopNames | crates/rgrok-server/src/proxy.rs:925-944 | The set grown by the loop is exactly the nine names and those named in some Connection value |
| HopByHop.KeepInOrder | crates/rgrok-server/src/proxy.rs:542-547 | The fields kept are the passing ones, each once, in their order |
| HopByHop.NominatedMeans | crates/rgrok-server/src/proxy.rs:932-942 | A field is nominated exactly when some Connection value has its name among its members, both in any case |
| HopByHop.ForwardedFields | crates/rgrok-server/src/proxy.rs:530-547 | A field is forwarded exactly when it is none of the nine, no Connection value names it and it is no Content-Length; filtering again changes nothing |
| HopByHop.ResponseHeaders | crates/rgrok-server/src/proxy.rs:530-560 | The public header list: the forwarded fields, the proxy's own length field, HSTS, the operator's fields |
| HopByHop.FirstOfLengths | crates/rgrok-server/src/proxy.rs:539-541 | The length a HEAD response repeats is the first one the service sent |
| HopByHop.OneContentLength | crates/rgrok-server/src/proxy.rs:539-557 | Apart from operator fields there is one Content-Length, the decoded length or zero; a HEAD response repeats the first one the service sent |
| Registry.FirstFree | crates/rgrok-server/src/tunnel_manager.rs:257-262 | The least free port of the range, or none exactly when all are taken |
| Registry.ReserveHttpKeeps | crates/rgrok-server/src/tunnel_manager.rs:158-175 | Keeps capacity, exclusion of reserved and live, the gauge and the capture keys |
| Registry.ReleaseKeeps | crates/rgrok-server/src/tunnel_manager.rs:276-285 | The same, for both kinds of release |
| Registry.RegisterHttpKeeps | crates/rgrok-server/src/tunnel_manager.rs:114-155 | The same |
| Registry.RemoveHttpKeeps | crates/rgrok-server/src/tunnel_manager.rs:207-231 | The same |
| Registry.ReserveTcpKeeps | crates/rgrok-server/src/tunnel_manager.rs:245-273 | The same |
| Registry.RegisterTcpKeeps | crates/rgrok-server/src/tunnel_manager.rs:294-329 | The same |
| Registry.RemoveTcpKeeps | crates/rgrok-server/src/tunnel_manager.rs:357-383 | The same, although it replaces a live port by a reservation |
| Registry.ReserveHttpAnswers | crates/rgrok-server/src/tunnel_manager.rs:158-175 | A name is granted exactly when it is neither live nor reserved and there is room; taken and full are told apart; a refusal changes nothing |
| Registry.RegisterHttpAnswers | crates/rgrok-server/src/tunnel_manager.rs:114-155 | Published exactly when the name is not live and is reserved for the session, or for nobody with room left; each refusal has its cause |
| Registry.RegisterTcpAnswers | crates/rgrok-server/src/tunnel_manager.rs:294-329 | The same for ports, within the range |
| Registry.RemovalAnswers | crates/rgrok-server/src/tunnel_manager.rs:207-383 | A removal takes out exactly the live entry of the very session given |
| Registry.HttpReservationHolds | crates/rgrok-server/src/tunnel_manager.rs:158-187 | A reserved name is refused to whoever asks for it, nobody but its owner can give it back, and when its owner does the registry is as before |
| Registry.HttpLifecycle | crates/rgrok-server/src/tunnel_manager.rs:114-231 | A name reserved, registered and removed by its own session leaves the registry exactly as it was |
| Registry.TcpLifecycle | crates/rgrok-server/src/tunnel_manager.rs:245-383 | A port reserved, registered and removed is reserved exactly as before it was registered, and releasing it leaves the registry as it was |
| Registry.ReserveTcpSucceedsIff | crates/rgrok-server/src/tunnel_manager.rs:245-273 | A port is handed out exactly when a suitable one is free and there is room; the least one when none was asked for; exhaustion is reported exactly when every port is taken |
| Registry.ServerState.constructor | crates/rgrok-server/src/tunnel_manager.rs:68-97 | A new server has an empty, sound registry |
| Registry.ServerState.ReserveHttpTunnel | crates/rgrok-server/src/tunnel_manager.rs:158-175 | On the fields: the whole new registry and the answer |
| Registry.ServerState.ReleaseReservation | crates/rgrok-server/src/tunnel_manager.rs:276-285 | On the fields; it also stands for release_http_tunnel at lines 178-187, which differs in the key alone |
| Registry.ServerState.RegisterTunnel | crates/rgrok-server/src/tunnel_manager.rs:114-155 | On the fields: a consumed reservation, a new tunnel, its capture ring, the gauge |
| Registry.ServerState.RemoveTunnelIfOwner | crates/rgrok-server/src/tunnel_manager.rs:207-231 | On the fields, with the idle token fired exactly for what was removed |
| Registry.ServerState.ReserveTcpPort | crates/rgrok-server/src/tunnel_manager.rs:245-273 | On the fields, the search loop included |
| Registry.ServerState.TryRegisterTcpTunnel | crates/rgrok-server/src/tunnel_manager.rs:294-329 | On the fields |
| Registry.ServerState.RemoveTcpTunnelIfOwner | crates/rgrok-server/src/tunnel_manager.rs:357-383 | On the fields, with both tokens fired exactly for what was removed |
| ProtocolSteps.StepKeeps | crates/rgrok-server/src/control.rs:399-625 | Every step of every task keeps the whole invariant: one holder a reservation, one carrier a session, covered ports, receivers in place |
| ProtocolTheorems.RunKeeps | crates/rgrok-server/src/control.rs:283-352 | The invariant holds after every interleaving of connections, reaper, shutdowns and listeners |
| ProtocolTheorems.RegistryStaysSound | crates/rgrok-server/src/tunnel_manager.rs:503-506 | In every reachable state the tunnels and reservations together stay within max_tunnels, no key is both reserved and live, the gauge counts the live tunnels, the capture keys are the live names |
| ProtocolTheorems.OneHolder | crates/rgrok-server/src/tunnel_manager.rs:276-418 | A key is reserved exactly when a task is at a point where it will consume or release it; that task is the only one and the reservation stands in its name |
| ProtocolProgress.ListenersWillSignal | crates/rgrok-server/src/control.rs:603-613 | The listener of every live TCP tunnel, and the one every shutdown waits for, has signalled or is still there to do so |
| ProtocolProgress.ReservationComesFree | crates/rgrok-server/src/tunnel_manager.rs:387-418 | No reservation is leaked: from every reachable state at most five steps of its holder and of the listener on its port consume or release it, the retained reservation after a timeout included |
| ProtocolService.AskedNameIsHeld | crates/rgrok-server/src/control.rs:458-473 | A ready connection that asks for a name holds it afterwards exactly when it is free and there is room; else nothing changes |
| ProtocolService.AskedPortIsHeld | crates/rgrok-server/src/control.rs:432-455 | The same for ports: any suitable one, the one asked for if one was |
| ProtocolService.HttpGoesLive | crates/rgrok-server/src/control.rs:458-563 | A free name goes from request to live tunnel, owned by its connection, when setup succeeds |
| ProtocolService.TcpGoesLive | crates/rgrok-server/src/control.rs:432-623 | A suitable port goes from request to a live tunnel with its socket served |
| ProtocolService.FailedSetupIsUndone | crates/rgrok-server/src/control.rs:476-515 | A setup that fails gives back exactly its reservation and leaves the connection ready |
| ProtocolService.NewConnectionIsReady | crates/rgrok-server/src/control.rs:258-283 | A new connection can ask at once and changes nothing |
| ProtocolService.DisconnectCleansUp | crates/rgrok-server/src/control.rs:341-355 | A connection that disconnects takes no more requests; its own steps end it, and then nothing it registered is live |
| ProtocolService.ReapTakesOut | crates/rgrok-server/src/tunnel_manager.rs:451-495 | Reaping a live tunnel removes it, leaves every other one, and hands its session to a task of its own; aimed at anything else it does nothing |
| ProtocolService.RemovedComesDeleted | crates/rgrok-server/src/tunnel_manager.rs:387-447 | Whoever removed a tunnel comes to the one deletion attempt of its DNS record by its own steps, even if the listener never stops |
| ProtocolTheorems.HoldersAreSafe | crates/rgrok-server/src/tunnel_manager.rs:276-285 | No step frees or re-owns the reservation of a task that did not take it, whatever ids the clients chose |
| ProtocolTheorems.CommitSucceeds | crates/rgrok-server/src/control.rs:554-601 | A handler that holds its reservation is never refused by register_tunnel or try_register_tcp_tunnel, so the two refusal paths are never entered |
| ProtocolTheorems.ShutdownAlwaysWaits | crates/rgrok-server/src/tunnel_manager.rs:387-418 | A shutdown always finds the stop signal to wait on: the path that releases the port unwaited is never taken |
| ProtocolTheorems.BoundPortCovered | crates/rgrok-server/src/control.rs:569-623 | The port of a bound socket is live for its session or reserved, through the timeout path too |
| ProtocolTheorems.ReservedPortIsUnbound | crates/rgrok-server/src/tunnel_manager.rs:245-273 | reserve_tcp_port never hands out a port an old socket is still bound to |
| ProtocolTheorems.OneSocketPerPort | crates/rgrok-server/src/control.rs:569-623 | No two sockets are bound to one port |
| ProtocolTheorems.NothingLeftBehind | crates/rgrok-server/src/control.rs:341-352 | After a connection's cleanup nothing it registered is in either tunnel map |
| ProtocolTheorems.RemovalNeedsTheSession | crates/rgrok-server/src/tunnel_manager.rs:357-383 | Cleanup and reaping change a map entry only when it is the very session they were given |
| ProtocolTheorems.DeletedOnce | crates/rgrok-server/src/tunnel_manager.rs:440-447 | A session's DNS record is deleted at most once, and has been exactly when the session is neither live nor in the hands of a task, which is then the only one |
| Revocation.RunKeeps | crates/rgrok-server/src/control.rs:283-339 | After every run, a session asleep while its token is listed has an epoch it has not seen, or the reload is between its two writes |
| Revocation.RevokedSleeperCanWake | crates/rgrok-server/src/control.rs:321-337 | No lost wake-up: once the reload is done, the change is pending for every sleeping revoked session |
| Revocation.AtMostOneMoreMessage | crates/rgrok-server/src/control.rs:283-311 | While its token stays revoked a session starts handling at most one more client message |
| Revocation.RevokedSessionRunsOut | crates/rgrok-server/src/control.rs:283-339 | It takes at most four more steps of its own, its notice included, before it is closed |
| Revocation.RevokedSessionAdvancesIff | crates/rgrok-server/src/control.rs:283-339 | While no reload is under way its next step can be taken exactly when it is not waiting for room in its own full queue or for a peer that does not read; in those it can take none |
| Revocation.FullHandlerIsStuck | crates/rgrok-server/src/control.rs:300-316 | A handler whose reply finds the queue of 64 full stays there in every continuation, since only its own select would empty the queue |
| Revocation.RevokedSessionCanStayOpen | crates/rgrok-server/src/control.rs:259-316 | The block is real: a run from the start ends with the token revoked and the session in that state, never to be closed |
| Revocation.UnlistedSessionIsSpared | crates/rgrok-server/src/control.rs:285-338 | A session whose token no passing blocklist has is never told it is revoked, and is closed only if it leaves by itself |
| Revocation.UnlistedSessionGoesOn | crates/rgrok-server/src/control.rs:285-338 | Its lookups take it on, and parked it takes messages and writes what is queued |
| Revocation.ReloadInstalls | crates/rgrok-server/src/tunnel_manager.rs:106-111 | A reload installs exactly the new list and raises the epoch once |
| Revocation.QueueBalances | crates/rgrok-server/src/control.rs:259-316 | The queue holds exactly what entered it and has not been taken to be written |
| Revocation.WokenOncePerEpoch | crates/rgrok-server/src/control.rs:321 | A session is woken at most once for each epoch it had not seen |
| Correlation.IdsDistinctIff | crates/rgrok-server/src/tunnel_manager.rs:543-545 | The 32-bit ids a connection has issued are all different exactly while it issued at most 2^32 |
| Correlation.RunKeeps | crates/rgrok-server/src/proxy.rs:1032-1064 | After every interleaving the pending tables, the one-shot channels and the requests agree |
| Correlation.DeliveredToItsRequest | crates/rgrok-server/src/control.rs:368-396 | A stream given to a request came over the request's connection and carries its id, in every run |
| Correlation.OneStreamOneRequest | crates/rgrok-server/src/control.rs:388-396 | No stream is given to two requests, and a served request has one |
| Correlation.OneStreamEver | crates/rgrok-server/src/proxy.rs:1055-1063 | A request is given at most one stream, however long the run goes on |
| Correlation.FinishedIsUnlisted | crates/rgrok-server/src/proxy.rs:1032-1064 | A request that returned by itself is in no pending table |
| Correlation.WaitingRequestIsFound | crates/rgrok-server/src/control.rs:368-396 | While a connection has issued at most 2^32 ids, a stream with a waiting request's id is given to that request and changes no other |
| Correlation.WaitingRequestIsServed | crates/rgrok-server/src/proxy.rs:1032-1064 | Within 2^32 ids a waiting request whose stream arrives can be told and return, and returns that very stream |
| Correlation.HolderIsServed | crates/rgrok-server/src/proxy.rs:1056-1058 | Whoever holds a stream and has neither given up nor been cancelled returns it by its next steps |
| Correlation.NewRequestIsListed | crates/rgrok-server/src/proxy.rs:1035-1040 | A new request takes the connection's next id and is listed under it |
| Correlation.IdsCountUp | crates/rgrok-server/src/tunnel_manager.rs:537-545 | The ids start at 1, count up by one and wrap at 2^32 |
| Correlation.GivingUpEnds | crates/rgrok-server/src/proxy.rs:1043-1063 | A request that cannot tell the client, or has waited too long, returns without a stream and its id leads nowhere |
| Correlation.CancelledLetsGo | crates/rgrok-server/src/proxy.rs:1108-1121 | A cancelled request keeps no stream and is given none |
| Correlation.UnwantedStreamIsDropped | crates/rgrok-server/src/control.rs:388-396 | A stream nobody waits for reaches no request and leaves no entry |
| Correlation.WrappingLosesARequest | crates/rgrok-server/src/tunnel_manager.rs:543-545 | The bound is exact: after 2^32 more requests a waiting request loses its place in the table to the newcomer with its id |
| WebSocketPipe.WsCompat.PollRead | crates/rgrok-proto/src/transport.rs:105-155 | The poll changes buffer, adapter and inner stream exactly as one Step does |
| WebSocketPipe.WsCompat.PollWrite | crates/rgrok-proto/src/transport.rs:167-183 | An accepted write sends one Binary frame with exactly its bytes; a refused one sends nothing |
| WebSocketPipe.StepConserves | crates/rgrok-proto/src/transport.rs:105-155 | A poll hands over exactly the next bytes of the Binary payloads before the first Close, and an error or pending poll loses none |
| WebSocketPipe.ZeroMeansEnd | crates/rgrok-proto/src/transport.rs:110-155 | With room in the buffer, a zero read and the end of the stream are the same thing, and nothing is then left |
| WebSocketPipe.StepAccounts | crates/rgrok-proto/src/transport.rs:119-155 | A poll answers with an error exactly when it used up a failure of the inner stream, with pending exactly when it used up a poll that found nothing |
| WebSocketPipe.DrainAccounts | crates/rgrok-proto/src/transport.rs:119-155 | Over whole runs there are as many errors as failures used up, and as many pendings as empty polls |
| WebSocketPipe.FrameInOnePoll | crates/rgrok-proto/src/transport.rs:137-145 | A frame that fits the buffer is handed over whole; of a longer one the buffer is filled and the rest kept |
| WebSocketPipe.DrainConserves | crates/rgrok-proto/src/transport.rs:105-155 | For any sequence of buffer sizes: the bytes read are a prefix of the payload, the rest is still to come, and a zero read says all was delivered |
| WebSocketPipe.EndIsPermanent | crates/rgrok-proto/src/transport.rs:110-112 | After a zero read every later read changes nothing |
| WebSocketPipe.EverythingArrives | crates/rgrok-proto/src/transport.rs:119-154 | Enough reads into non-empty buffers deliver everything and reach the end |
| WebSocketPipe.FramesCarryTheBytes | crates/rgrok-proto/src/transport.rs:119-137 | Frames without payload put between the writes do not change the bytes |
| WebSocketPipe.WritesReadBack | crates/rgrok-proto/src/transport.rs:167-183 | What one end writes the other end reads, whatever control frames come between and whatever the buffer sizes |
| Framing.MostSignificantFirst | crates/rgrok-proto/src/transport.rs:316 | The length is read most significant byte first |
| Framing.LengthReadsBack | crates/rgrok-proto/src/transport.rs:334-335 | The four length bytes read back as the length modulo 2^32 |
| Framing.ReadExact | crates/rgrok-proto/src/transport.rs:314-320 | Exactly the next n bytes, or nothing when the stream ends or fails first; never a read past them |
| Framing.ReadMessage | crates/rgrok-proto/src/transport.rs:309-323 | However the bytes arrive, the message is the one-shot parse of them all, and no byte of the next one is taken |
| Framing.WriteMessage | crates/rgrok-proto/src/transport.rs:327-339 | Appends the encoded message to the stream |
| Framing.WrittenReadsAs | crates/rgrok-proto/src/transport.rs:309-339 | What any written message reads back as, at every size |
| Framing.ReadsBackIff | crates/rgrok-proto/src/transport.rs:309-339 | A message reads back exactly when it has at most 1,048,576 bytes |
| Framing.AllReadBack | crates/rgrok-proto/src/transport.rs:309-339 | A sequence of such messages reads back in order, and the bytes after it are left |
| Capture.CaptureBuffer.Append | crates/rgrok-client/src/local_proxy.rs:119-123 | The buffer holds the longest prefix the limit allows |
| Capture.ForwardAndCapture | crates/rgrok-client/src/local_proxy.rs:130-152 | For any read sizes every byte up to the end or a fault is forwarded unchanged and the buffer holds the first limit bytes; shut down and counted exactly at an orderly end |
| Capture.BodyOffset | crates/rgrok-client/src/local_proxy.rs:227-231 | The body starts right after the first empty line, and nowhere where there is none |
| Capture.OffsetInPrefix | crates/rgrok-client/src/local_proxy.rs:227-231 | Cutting the capture hides a head that ends beyond the cut, and moves no other |
| Capture.ShowsBodyIff | crates/rgrok-client/src/local_proxy.rs:70-91 | The captured body and the truncated flag are right exactly when the head has at most 65,536 bytes, or the whole message fits, or there is no body |
| Capture.NoHeadNoBody | crates/rgrok-client/src/local_proxy.rs:70-91 | Without an empty line neither body nor truncation is reported |
| RequestWire.SerializeHttpRequest | crates/rgrok-server/src/proxy.rs:946-986 | The string the loop grows is the request line, one line a forwarded field, the length line and an empty line |
| RequestWire.RequestFields | crates/rgrok-server/src/proxy.rs:965-982 | A field is written exactly when its value is text, it is neither hop-by-hop nor a length, and no custom Host replaces it; in order |
| RequestWire.OneRequestLength | crates/rgrok-server/src/proxy.rs:946-986 | The tunnel sees exactly one Content-Length, the decoded body's |
| Utf8.ReadsBack | crates/rgrok-server/src/proxy.rs:946-986 | Text printed as UTF-8 reads back as itself, whatever bytes follow |
| RequestCapture.ParseRequestForCapture | crates/rgrok-client/src/local_proxy.rs:154-201 | The header loop collects exactly the fields up to the first empty line |
| RequestCapture.BlockReadsBack | crates/rgrok-client/src/local_proxy.rs:163-170 | Printed header lines read back as the fields they were, in order |
| RequestCapture.HeadEnds | crates/rgrok-client/src/local_proxy.rs:227-231 | In the bytes, the first empty line is the one that ends the head |
| RequestCapture.RequestReadsBack | crates/rgrok-client/src/local_proxy.rs:154-201 | Cross-crate round trip: method, the path's first word, every forwarded field in order but the sensitive ones, and the start of the body |
| RequestCapture.PathReadsBackIff | crates/rgrok-client/src/local_proxy.rs:158-161 | That word is the request's own path exactly when the path has no white space, Unicode's included, and the root for a request without one |
| RequestCapture.SensitiveMeans | crates/rgrok-proto/src/inspect.rs:79-98 | A name is sensitive exactly when, in any case, it is one of the nine or one of the six telling parts stands in it |
| RequestCapture.OtherLinesAreSkipped | crates/rgrok-client/src/local_proxy.rs:164-171 | A line that is no field is passed over and the fields after it are still read |
| RequestCapture.SanitizeMembers | crates/rgrok-proto/src/inspect.rs:101-107 | Exactly the sensitive fields are dropped |
| RequestCapture.LengthIsNotSensitive | crates/rgrok-proto/src/inspect.rs:79-98 | The length field is not among them |
| RequestCapture.CaptureShowsOneLength | crates/rgrok-client/src/local_proxy.rs:154-201 | The capture shows exactly one Content-Length, the decoded body's |
| RequestCapture.InspectorShowsRequest | crates/rgrok-client/src/local_proxy.rs:42-101 | From the proxy's serializer through pump and buffer to the inspector: method, the path as far as it has no white space, fields, body prefix and truncated flag are right for every head of at most 65,536 bytes |
| Endpoint.ValidNames | crates/rgrok-proto/src/subdomain.rs:31-68 | The accepted names, characterised: 3 to 40 of a-z, 0-9 and hyphen, no hyphen at an end, none reserved |
| Endpoint.RefusedNames | crates/rgrok-proto/src/subdomain.rs:31-68 | Each refusal has its cause, and exactly the reserved names are refused as reserved |
| Endpoint.ValidNamesArePlain | crates/rgrok-proto/src/subdomain.rs:31-68 | An accepted name has none of the separators of URLs and Host headers |
| Endpoint.ClientFindsSubdomain | crates/rgrok-client/src/tunnel.rs:568-573 | For every accepted name and every domain the client reads the name out of the printed URL |
| Endpoint.ProxyRoutesBackIff | crates/rgrok-server/src/proxy.rs:181-202 | The proxy routes a Host of the URL, with or without a port, back to the name exactly when the domain has no ':'; otherwise to no tunnel |
| Endpoint.RoutesOnlyItsDomain | crates/rgrok-server/src/proxy.rs:181-202 | A Host is routed to a name exactly when it is that name in front of the domain; a request without Host is told apart |
| Endpoint.PortReadsBack | crates/rgrok-client/src/tunnel.rs:575-578 | Every port reads back from its URL on a domain without '/' |
| Endpoint.ClientFindsPortIff | crates/rgrok-client/src/tunnel.rs:575-578 | All ports read back exactly when the domain has no '/' |
| Reconnect.TunnelConfig.PinAssignedEndpoint | crates/rgrok-client/src/tunnel.rs:551-566 | Sets the endpoint of the registration where none was named, and changes nothing else |
| Reconnect.TunnelConfig.Run | crates/rgrok-client/src/tunnel.rs:169-237 | The loop asks, turn by turn, what Asked says |
| Reconnect.LoopGoesOn | crates/rgrok-client/src/tunnel.rs:169-237 | The loop goes round after a transient failure and after a lost session unless a shutdown was requested, and after nothing else; it asks once each time |
| Reconnect.WhatIsAskedNext | crates/rgrok-client/src/tunnel.rs:169-237 | After a failure the same is asked again, after a lost session what its registration pinned |
| Reconnect.PinnedStays | crates/rgrok-client/src/tunnel.rs:169-237 | Once a request names an endpoint every later one is the same, whatever any server answers |
| Reconnect.GrantPins | crates/rgrok-client/src/tunnel.rs:551-578 | A registration pins the client to the endpoint the server gave, on every domain |
| Reconnect.UrlPins | crates/rgrok-client/src/tunnel.rs:556-563 | Where the server does not report the port, the one in the URL is pinned |
| Reconnect.RunKeepsItsEndpoint | crates/rgrok-client/src/tunnel.rs:169-237 | After its first registration a run asks for the endpoint it was given as long as it lasts |
| ServerAddress.ParseServerPort | crates/rgrok-client/src/main.rs:191-206 | Accepted exactly when the text writes a number from 1 to 65535, at most a plus sign before it, and read as that number |
| ServerAddress.ClientConfig.ApplyServerOverride | crates/rgrok-client/src/main.rs:121-189 | An override is applied whole, or refused with its reason and the configuration left as it was |
| ServerAddress.OverrideMeans | crates/rgrok-client/src/main.rs:121-206 | An override is accepted exactly when it is a spelling of an address (ws or wss in any case or no scheme, brackets or none, a port or none) and sets exactly what that denotes; what it leaves out keeps its value |
| ServerAddress.PrintedAuthority | crates/rgrok-client/src/tunnel.rs:607-616 | A printed host and port parse back exactly when the host prints clearly |
| ServerAddress.AddressReadsBackIff | crates/rgrok-client/src/main.rs:121-206 | Re-applying the printed control URL restores host, port and transport exactly when the host does not start with '[' and has not both ':' and ']' |
| ServerAddress.AcceptedIsPrintable | crates/rgrok-client/src/main.rs:121-189 | Whatever an accepted override sets can be printed as a control URL |
| ServerAddress.PrintableIff | crates/rgrok-client/src/tunnel.rs:593-605 | A host is printed exactly when it is not empty and has no '/', '?' or '#' |

## Left out

- TLS, ACME, Cloudflare calls, JWT and bcrypt checks, base64, MessagePack, yamux and hyper: a
  yamux stream is an ordered byte pipe, an encoded message is a byte string.
- Web interfaces, metrics endpoints, terminal output, command-line and config-file parsing, tracing.
- Clocks: a timeout is a step that may always be taken, or a stream that ends broken.
- Objects for sessions: a session is a value with an allocation number, and `ptr_eq` is equality of
  values; its tokens are sets of sessions in `Registry.ServerState`.
- ProtocolTheorems.RunKeeps: a handler's steps between two awaits are one step, so putting the stop
  receiver into a session is one step with binding its port; nothing else can see the session then.
  Cleanup and the reaper hand a removed session to a task of its own where the code waits in place,
  which allows more interleavings.
- ProtocolTheorems.DeletedOnce: counts attempts; whether the call to the DNS service succeeds is
  not modelled, and sessions without a record count as well.
- Reaper idleness: the reaper may try any key and session at any time, so nothing rests on which
  sessions count as idle, and nothing is claimed about busy ones.
- `remove_tcp_tunnel` and `unregister_tcp_tunnel` (`tunnel_manager.rs:333-349`): used by tests only,
  and they skip the reservation that port coverage rests on.
- The gauge of retained reservations, `cleanup_notify`, and the capture rings' contents
  (`store_capture`): a ring is only present or absent.
- Framing.ReadMessage: an uninterrupted read. The control loop drops a half-read message when
  another branch of its select wins, and what it reads next is not modelled.
- The yamux driver task, whose poll can discard a ready inbound stream.
- Revocation.RevokedSessionAdvancesIff: says that a step can be taken, not that a scheduler takes
  it. What a handler does before its reply (hashing, DNS, binding) is taken to end, and a write is
  blocked or not, without a buffer of its own.
- ProtocolProgress.ReservationComesFree: that a listener told to stop does stop is the step
  `ServeEnds`, which is always allowed; the tokens that tell it are not part of the step system.
- Capture.ForwardAndCapture: writes to the destination do not fail; when one does the pump ends
  with an error and nothing is shown. The two directions share no state and are not run together.
- Capture.ShowsBodyIff: streams of fewer than 2^64 bytes, the range of the pump's counter.
- RequestCapture.RequestReadsBack: requests whose method and field names have no white space, whose
  names have no ':', and whose path, values and custom Host have no line ends.
- The response half of the capture (`parse_response_status`, `parse_response_headers`), which reads
  lines as the request half does.
- Endpoint.ClientFindsSubdomain: the random name generator is not modelled; a generated name is
  any accepted one.
- Reconnect.TunnelConfig.Run: how a session goes is an input of each turn; the back-off delays and
  the ten connection attempts inside a turn are not modelled.
- `validate_transport_overrides` and `validate_config`, single tests on their arguments.
- Number syntax: a leading '+' is accepted as Rust's parsers do; no claim is made that every other
  spelling is refused.

# ESPAsyncTCP: the stream stack, modelled and proved

This project models the TCP stream classes that the sketches of the repository build on, and proves what they are
for: bytes arrive and leave once, in order, whatever the packets look like and whatever the callbacks do.

| file | what it models |
|---|---|
| `RequestDecoder.dfy` | what a program of read requests means on a whole byte stream: the reference for the receive side |
| `PacedDecoder.dfy` | how far the answers get packet by packet, on plain byte sequences, and when that leaves nothing behind |
| `RxTrace.dfy` | which sequences of packets, calls and callbacks make sense: the reference for all modes together |
| `RxLaws.dfy` | what such a sequence means for its events: what is answered, when, and who calls what |
| `RxBuffer.dfy` | AsyncTCPbuffer, receive side: the read modes, the buffer, callbacks that install the next request |
| `TxChain.dfy`, `TxBuffer.dfy` | AsyncTCPbuffer, transmit side: the chain of buffers, `write`, `flush`, `_sendBuffer`, the callbacks |
| `AsyncClient.dfy` | AsyncClient's counters and calls, and lwIP's side of a connection |
| `ClientEvents.dfy` | the error tracker and the life of a connection under lwIP's callbacks, with closing, aborting and deleting |
| `SegmentList.dfy`, `SyncClient.dfy` | SyncClient's list of received segments and the deferred opening of the window |
| `NodeList.dfy`, `SslRegistry.dfy` | the registry of TLS sessions, its descriptors and its one-bit flag |
| `ParkedList.dfy`, `ServerModel.dfy` | what a run of the secure server comes to, event by event, and what is true of every run |
| `SecureServer.dfy` | AsyncServer with TLS: one session at a time, the others parked in a linked list |
| `ByteList.dfy` | the byte lists that the UDP extension prints and parses |
| `Bytes.dfy`, `Cbuf.dfy` | bytes, 32-bit counters, concatenation; the Arduino core's `cbuf`, by contract only |

Objects are classes with the fields of the original; loops are loops. The network, lwIP and the application are
inputs: sequences of events, of failures to come, of clock and heap readings, and functions from the history of
callbacks to the calls that the next callback makes. A method with such inputs (`Converse`, `Session`,
`TransmitSession`, `Life`, `ReceiveSession`, `Serve`) therefore speaks of every run. A client that deletes itself in a
callback becomes `null`, so that any later use of its fields would be a null dereference; where the original does use
them, and where it calls lwIP with a control block that has been given up, the model counts the cases (`dangling`,
`strays`).

## Hypotheses

What the code relies on and lwIP or the application has to provide:

- lwIP calls back only on a control block that is live and still points at a client, and it passes the connection's
  own control block (`Possible`, for the secure server).
- A new connection has a control block that no live connection has; it may be one that lwIP has freed.
- All callbacks are installed, but for the packet callback, which may come and go. Without an ack callback `_sent` clears
  `_tx_acked_len` unreported (ESPAsyncTCP.cpp:555-560), and the lengths told to that callback do not add up.
- Whether `tcp_abort` calls the error callback is a parameter of `Life`. SyncClient and AsyncTCPbuffer are modelled
  under the assumption of ESPAsyncTCP.cpp:88-89 that it does not.
- A `tcp_write` of at most `space()` bytes may fail, and so may `tcp_output` and the allocation of the copy that
  `_sendBuffer` makes. Failures come from a finite sequence for each connection: a `tcp_write` that fails forever would
  keep the loop at ESPAsyncTCPbuffer.cpp:341 busy.
- A data handler claims at most the bytes it was offered (`WellBehaved`), and it does not remove itself with
  `onData(NULL)` before returning.
- The error callback does not delete the client, nobody deletes a client whose destructor is running (`Sane`), and
  nobody deletes one whose `connect()` is still under way.
- One tracker serves one connection.
- Segments of SyncClient carry data, and less than 2^32 bytes are deferred.
- `tcp_ssl_free` is not called on an empty registry, and the constructor of a server client does not fail: these paths
  dereference null (tcp_axtls.c:236, ESPAsyncTCP.cpp:204-206).
- Allocations succeed unless a parameter of the model says otherwise: resizing the receive buffer, new transmit
  buffers, new clients.

## What the proofs found

- A packet is looked at until an answer needs none of its bytes, and what is then stored is looked at once more: the loop
  at ESPAsyncTCPbuffer.cpp:434-436 never repeats, because without a packet nothing counts as handled. So results may lag
  behind the stream. `Converse` gives the exact results for every cut of the stream, and the exact condition under which
  none is missing. No cut leaves anything behind if the program never asks for zero bytes (`NeverZeroCompletes`), and
  every cut does if it first asks for them when the stream is used up (`ZeroAtEndStops`). By `ZeroIsReached`, a stream
  on which the first condition fails has a beginning on which the second holds. `FallBehind` shows how far a run may lag.
- If `tcp_output` fails, `send()` forgets the unsent length and `write` reports 0 although lwIP kept the bytes.
  AsyncTCPbuffer then sends them again. `SendBuffer` says exactly when, `ExactlyOnce` that nothing else breaks the order,
  and `SendTwice` is a run in which it happens.
- In FREE mode, a handler that has taken all stored bytes is offered the packet behind them too, even if it has just
  installed a request or let go of the client (ESPAsyncTCPbuffer.cpp:466-477). `Genuine` allows exactly this.
- An ack timeout clears the busy flag while a buffer is in flight, so a second one may follow before the connection is
  closed: `TransmitSession` bounds what is in flight by one buffer before the timeout and by two after it, and
  `TwoInFlight` is a run with two.
- `_recv` calls `tcp_recved` whenever the client still exists after the data callback (ESPAsyncTCP.cpp:649-653). If the
  callback has aborted or closed the connection and kept the client, lwIP may have freed the control block. `OfferData`
  says exactly when that happens, `Life` that it never does if no data or packet callback gives the connection up, and
  `StrayCall` is a run in which it does.
- If `tcp_abort` calls the error callback, an `abort()` is reported there, and the running callback answers ERR_OK.
  `Life` says exactly which aborts are answered by ERR_ABRT. If the disconnect callback then deletes the client, as
  SyncClient's does (SyncClient.cpp:330), `abort()` goes on with a deleted object: exactly then by `DoAbort`, and
  `DanglingAbort` is such a run.
- If lwIP passes buffers together with an error, `_recv` returns without freeing any (ESPAsyncTCP.cpp:569-601); in every
  other case every buffer is freed or handed over (`SRecv`).
- `close()` opens the window by the deferred length without clearing `_rx_ack_len`, so `ack()` can open it again by as
  much. `CloseLater` shows that a receive account in order survives a `close()` if and only if nothing was deferred.
- A parked connection has callbacks for polling and receiving, but none for errors (ESPAsyncTCP.cpp:1238-1240). If its
  peer resets it, lwIP frees it unnoticed, its entry stays, and a later connection may get its number. `SoundIff`
  shows that the list is exactly those who wait if and only if no parked connection was reset, `Serve` that then every
  byte reaches its own connection, and `ReusedNumber` is a run in which a client starts with the bytes of a dead connection.
- `tcp_ssl_new_server` would overwrite the flag if a second server session were made; `NewServer` shows that exclusion
  then fails, and `Serve` that the server never does so, resets or not.
- `StringToBytes` does not read back the text of an empty packet, which is the empty string: `RoundTrip` is an
  if-and-only-if.
- `AsyncServer::_poll` passes three arguments to `AsyncClient::_recv`, which is declared with four (ESPAsyncTCP.h:264).
  The model follows the evident meaning: the parked bytes go to the new client.

## Model

The main results come first, then the steps that lead to them, module by module.

| member | source | states |
|---|---|---|
| `RxBuffers.Converse` | UDP_ASYNC_EXAMPLE/ESPAsyncTCP/src/ESPAsyncTCPbuffer.cpp:388-555 | Main result. For every stream, every cut into packets and every program of requests installed by done callbacks, the results are those of `Paced`, a description of the packet handling without modes, pointers and buffers. Each is what was asked for: as many bytes, or a text with neither its terminator nor NUL in it; and put together again, with the bytes that ended the texts and with what is unread, they are the stream (`ReadOff`), so they are a prefix of what the packet-free decoder yields. Nothing is missing if and only if the next request is none or cannot be answered by the bytes left |
| `PacedDecoder.NeverZeroCompletes` | UDP_ASYNC_EXAMPLE/ESPAsyncTCP/src/ESPAsyncTCPbuffer.cpp:399-437 | If the program asks for zero bytes nowhere on this stream, every cut of it is decoded completely |
| `PacedDecoder.ZeroAtEndStops` | UDP_ASYNC_EXAMPLE/ESPAsyncTCP/src/ESPAsyncTCPbuffer.cpp:431-437 | If its first request for zero bytes comes when the stream is used up, every cut into nonempty packets stops right there and is incomplete |
| `PacedDecoder.ZeroIsReached` | UDP_ASYNC_EXAMPLE/ESPAsyncTCP/src/ESPAsyncTCPbuffer.cpp:399-437 | These two conditions are complementary: a request for zero bytes is made on a stream if and only if some part of the stream, up to a point, ends with the first one |
| `PacedDecoder.FallBehind` | UDP_ASYNC_EXAMPLE/ESPAsyncTCP/src/ESPAsyncTCPbuffer.cpp:431-437 | How large the lag can be: a packet of n bytes that holds n + 1 results, of which at most two are out |
| `RxBuffers.SegmentationIndependence` | UDP_ASYNC_EXAMPLE/ESPAsyncTCP/src/ESPAsyncTCPbuffer.cpp:388-444 | Two runs of one program over one stream, cut differently, never disagree: one list of results is a prefix of the other |
| `RxBuffers.Session` | UDP_ASYNC_EXAMPLE/ESPAsyncTCP/src/ESPAsyncTCPbuffer.cpp:158-555 | Main result. Every session, with every application, every mixture of modes, replaced requests and partly consuming handlers, is a genuine one (`Genuine`): what came from outside is exactly the given steps; callbacks come only while a packet is handled, for the call in force; a handler is charged with what it claims; bytes are dropped only by a call that replaces an incomplete request. In terms of the events alone: only what the last call asked for is answered, with as many bytes as readBytes wanted, or with a text in which neither terminator nor NUL occurs, ended by one of them; what a packet makes answerable is answered by the very next event, and a packet with data for a handler is shown to it (`AllSensible`, `Complete`, `AllShown`); stop() is told of as a failure exactly if it abandons a request with a done callback; every callback makes exactly its calls, at once and in order (`AllCallsMade`); and what came over the network is there in order. The bytes that the events account for, then the bytes unread, are exactly the bytes of the packets that came while the link was up and nobody had called stop() |
| `RxLaws.Completes` | UDP_ASYNC_EXAMPLE/ESPAsyncTCP/src/ESPAsyncTCPbuffer.cpp:449-555 | A genuine sequence that may stop where it does leaves nothing outstanding: every event follows sensibly on those before it (`Sensible`), what could be answered has been, and what is unread is what was heard and is not accounted for |
| `RxLaws.TracedAt` | UDP_ASYNC_EXAMPLE/ESPAsyncTCP/src/ESPAsyncTCPbuffer.cpp:158-264 | After every genuine sequence: what is in force is what the last call asked for, whichever it was, with only packets, changes of the link and chunks since; nothing is after noCallback(), stop() or a completed request; before any call it is FREE mode without a handler. The client is there exactly if nobody has called stop(), and the link and the bytes received are what the events say |
| `RxLaws.ShownAtOnce` | UDP_ASYNC_EXAMPLE/ESPAsyncTCP/src/ESPAsyncTCPbuffer.cpp:207-216 | A packet with data, on a live link, with onData(handler) as the last call, is followed at once by an offer to the handler |
| `RxLaws.OwingAt` | UDP_ASYNC_EXAMPLE/ESPAsyncTCP/src/ESPAsyncTCPbuffer.cpp:158-264 | Every callback is followed by the calls that the application makes in it, all of them and in order, but for those that the last one still owes |
| `TxBuffers.TransmitSession` | UDP_ASYNC_EXAMPLE/ESPAsyncTCP/src/ESPAsyncTCPbuffer.cpp:103-156 | Main result. In every interleaving of write, flush, poll, acknowledgements, timeouts, changing room, failing allocations and failing tcp_write, up to the loss of the connection, as long as no tcp_output fails: each write accepts a prefix of its data, what lwIP was given is a prefix of what the writes accepted, and all of it once the chain is empty. At most one buffer (TCP_MSS - 1 bytes) is in flight until an ack timeout has asked for a close, at most two from then on. No close is asked for if the timeout is switched off, nor if no two moments of the run are as far apart as the timeout. From one `view` to the next each action does its work (`Does`): a write to a client that is free to send sends at once, as much as the head can hold and lwIP has room for, and stores all its data while connected with heap enough; a full acknowledgement, or a poll with no timer due, sends what the head holds and fits; a poll ends the client if a close was asked for or the receive timer is due, and asks for a close if the ack timer is; a flush on a working connection leaves nothing queued |
| `TxBuffers.TxBuffer.ExactlyOnce` | UDP_ASYNC_EXAMPLE/ESPAsyncTCP/src/ESPAsyncTCPbuffer.cpp:334-381 | In every reachable state, accepted bytes equal the bytes given to lwIP followed by the chain if and only if no tcp_output has failed |
| `TxBuffers.TxBuffer.SendBuffer` | UDP_ASYNC_EXAMPLE/ESPAsyncTCP/src/ESPAsyncTCPbuffer.cpp:334-381 | Takes a prefix of the queue and gives it to lwIP, at most one buffer of it; with nothing failing exactly min(head, space()) if the client can send and nothing otherwise; the books stay exact if and only if nothing is sendable or no tcp_output fails before something goes out or memory runs out; one failing tcp_output, with room, gives lwIP the chunk twice; terminates. Unless a tcp_output fails, lwIP was given exactly what was reported as sent |
| `TxBuffers.SendTwice` | UDP_ASYNC_EXAMPLE/ESPAsyncTCP/src/ESPAsyncTCP.cpp:417-434 | Concrete run for which exactly-once fails: written while lwIP has no room, then sent under one failing tcp_output, the data is given to lwIP twice |
| `TxBuffers.TwoInFlight` | UDP_ASYNC_EXAMPLE/ESPAsyncTCP/src/ESPAsyncTCPbuffer.cpp:321-326 | A run with two buffers in flight: the ack timeout clears the busy flag, and the next attempt sends before the poll that closes |
| `TxBuffers.TxBuffer.Drain` | UDP_ASYNC_EXAMPLE/ESPAsyncTCP/src/ESPAsyncTCPbuffer.cpp:282-299 | Main result. For every ack timeout: with room in every round the queue is empty after at most as many rounds as it held bytes, and then lwIP has exactly what was accepted |
| `TxBuffers.TxBuffer.Flush` | UDP_ASYNC_EXAMPLE/ESPAsyncTCP/src/ESPAsyncTCPbuffer.cpp:147-156 | If it returns while connected, everything has gone out, though it looks at the tail only; it waits only while connected and unable to send; terminates on every finite schedule of network events; and it does return with everything sent if nothing fails, lwIP has the room, and the events acknowledge everything in flight, more of them than there are bytes queued |
| `TxBuffers.TxBuffer.Write` | UDP_ASYNC_EXAMPLE/ESPAsyncTCP/src/ESPAsyncTCPbuffer.cpp:103-142 | Appends exactly the prefix whose length it returns: nothing unless connected, and all of it unless a reading of the free heap is below 4096; every buffer it adds follows a good reading. If the client is free to send and nothing fails, the first min(head, space()) bytes of what was queued and is written go to lwIP, the head taken as filled up by the first iteration, and the client is busy then |
| `ClientEvents.Life` | UDP_ASYNC_EXAMPLE/ESPAsyncTCP/src/ESPAsyncTCP.cpp:112-142 | Main result. Over the whole life of a connection, for every application and every interleaving, whether or not lwIP calls the error callback from tcp_abort: at most one tcp_abort; one outside the foreground is answered by ERR_ABRT if and only if it came through `_close` or lwIP did not call back; all other answers are ERR_OK; at most one disconnect callback. While the control block is held, modulo 2^32 and with re-entrant calls: given = acknowledged + unacknowledged + unsent if no tcp_output failed; acknowledged = the lengths told to the ack callback + `_tx_acked_len`; and, if nobody closes, everything delivered was shown to the data and packet callbacks, and equals opened + deferred + handed over. tcp_recved is never called on a control block that was given up if no data or packet callback gives it up, and abort() never goes on with a deleted client if lwIP does not call back or no disconnect callback deletes the client. From one `view` to the next every stimulus has its effect (`Reaches`): an error, a connection, a completed acknowledgement and a poll are the next thing the application hears, through the callback that is for them and, for a poll, by the timers; a packet is shown in full while there is a client; a call of the foreground gives lwIP what it has room for, opens the window, closes, aborts or deletes |
| `ClientEvents.StrayCall` | UDP_ASYNC_EXAMPLE/ESPAsyncTCP/src/ESPAsyncTCP.cpp:646-653 | A run with a stray call: the data callback aborts and keeps the client, and tcp_recved is called on the aborted control block |
| `ClientEvents.DanglingAbort` | UDP_ASYNC_EXAMPLE/ESPAsyncTCP/src/ESPAsyncTCP.cpp:334-353 | A run in which abort() goes on with a deleted client: tcp_abort calls the error callback, and the disconnect callback deletes the client |
| `ClientEvents.Connection.Step` | UDP_ASYNC_EXAMPLE/ESPAsyncTCP/src/ESPAsyncTCP.cpp:727-761 | Every event keeps the invariant: the transmit account, without losses unless a tcp_output failed; reported, handed-over and received bytes as the callbacks were told, and all delivered bytes shown between events; aborts; who may still be called back. lwIP is answered ERR_ABRT exactly if tcp_abort was called during that callback and not reported to the error callback; error callbacks never abort. What comes from lwIP, as long as it may call back, has the effect of its callback (`Reached`), and a call of the foreground its own (`Effect`) |
| `ClientEvents.Connection.CallBack` | UDP_ASYNC_EXAMPLE/ESPAsyncTCP/src/ESPAsyncTCP.cpp:727-761 | lwIP reaches the callback that is for what it has to tell, with the effects stated there, as long as it may call back, and nothing happens otherwise |
| `AsyncClients.AsyncClient.CloseLater` | UDP_ASYNC_EXAMPLE/ESPAsyncTCP/src/ESPAsyncTCP.cpp:355-362 | Opens the window by what is deferred and only asks for the close; a receive account that was in order stays in order if and only if nothing was deferred |
| `SyncClients.ReceiveSession` | UDP_ASYNC_EXAMPLE/ESPAsyncTCP/src/SyncClient.cpp:273-393 | Main result. In every interleaving of segments (with or without heap for them), reads of any length, ack timeouts and loss of the connection: only a segment brings anything, its data, if there was heap and the connection was up, and it does (`Brought`); each read takes min(len, what has come and was not read); what was read is a prefix of what has come and the rest is available. The connection is up at the end if and only if no step ended it (loss, disconnect, a segment without heap), and then every segment has come. While connected, what has come = window opened + deferred, less what close() opened in an ack timeout, and nothing is deferred once nothing waits |
| `SyncClients.SyncClient.Read` | UDP_ASYNC_EXAMPLE/ESPAsyncTCP/src/SyncClient.cpp:375-393 | Returns -1 for no segment, else min(len, available()), copies exactly that prefix and leaves the suffix; nodes stay nonempty; window opened plus deferred is unchanged |
| `SslRegistries.SslRegistry.OneServer` | UDP_ASYNC_EXAMPLE/ESPAsyncTCP/src/tcp_axtls.c:102-104 | The flag says whether there is a server session, and there is at most one |
| `SslRegistries.SslRegistry.NewServer` | UDP_ASYNC_EXAMPLE/ESPAsyncTCP/src/tcp_axtls.c:193-226 | Adds a server session if and only if there is a context, a control block without session, and all allocations succeed; otherwise the map is unchanged; exclusion survives if and only if there was no server session before |
| `SslRegistries.SslRegistry.SharedFd` | UDP_ASYNC_EXAMPLE/ESPAsyncTCP/src/tcp_axtls.c:108-130 | Two open sessions share a descriptor if and only if their allocations are a multiple of 2^31 apart |
| `SecureServers.Serve` | UDP_ASYNC_EXAMPLE/ESPAsyncTCP/src/ESPAsyncTCP.cpp:1221-1373 | Main result. In every interleaving of new connections, polls, arriving bytes, resets, ending sessions and outgoing secure connections, the server comes to exactly what the model of its events says (`StateAt`): sessions, list and promotions. So there is at most one server session, and the flag says whether there is one; every connection that waits is in the list and has no session; the list is longer than those by the number of resets, and is exactly those, each once, if and only if there was none; and then each promoted client was given exactly the bytes that had arrived since it came, in order, and each parked connection holds them. Every event has its outcome (`Outcome`): a new connection gets the session exactly if nobody has it and nobody is in line, else it waits at the end of the line if there is heap for its entry; exactly the polls of waiting connections while nobody has the session promote them (`AllPromoted`); a session that ends is gone; nothing else changes |
| `SecureServers.ServeOn` | UDP_ASYNC_EXAMPLE/ESPAsyncTCP/src/ESPAsyncTCP.cpp:1221-1373 | From any point of a run to its end the sessions, the list and the promotions of the server are exactly those of the model |
| `ServerModels.ReusedNumber` | UDP_ASYNC_EXAMPLE/ESPAsyncTCP/src/ESPAsyncTCP.cpp:1238-1240 | The run behind that condition: a parked connection is reset, lwIP gives its number to a new one, and the client of the new one starts with the bytes of the dead one |
| `ServerModels.SoundIff` | UDP_ASYNC_EXAMPLE/ESPAsyncTCP/src/ESPAsyncTCP.cpp:1238-1240 | In every run the list holds each live parked connection once and nothing else, if and only if no parked connection was reset |
| `ServerModels.AlwaysPromoted` | UDP_ASYNC_EXAMPLE/ESPAsyncTCP/src/ESPAsyncTCP.cpp:1305-1330 | In every run exactly the polls of waiting connections while nobody has the server session promote, one connection each, and without resets they hand over every byte that had arrived |
| `ServerModels.AlwaysTurned` | UDP_ASYNC_EXAMPLE/ESPAsyncTCP/src/ESPAsyncTCP.cpp:1221-1373 | In every run each event has its outcome for those who have a session, those in line, those who wait, and the bytes that have arrived: who gets the session, who is put in line and who leaves it |
| `ByteLists.RoundTrip` | UDP_ASYNC_EXAMPLE/UDPXmitter - UDP Extension for mit app inventor/de/ullisroboterseite/ursai2udp/Helpers.java:113-125 | Main result. Parsing the text that the listener prints gives back the byte array if and only if it is not empty |
| `ByteLists.ParseWritten` | UDP_ASYNC_EXAMPLE/UDPXmitter - UDP Extension for mit app inventor/de/ullisroboterseite/ursai2udp/Helpers.java:113-125 | Any list of numbers from 0 to 255, each in decimal, in hexadecimal behind 0x, 0X or #, or in octal behind 0, with any blanks around it, separated by commas or semicolons and followed by any number of these, is parsed into its bytes |
| `RxBuffers.RxBuffer.RxData` | UDP_ASYNC_EXAMPLE/ESPAsyncTCP/src/ESPAsyncTCPbuffer.cpp:388-444 | A packet joins the stream whole or, without a connected client, changes nothing but the record of events; conservation is kept, and the requests are answered at exactly the pace of `AfterPacket`, whatever the callbacks install while the packet is half processed; in FREE mode a handler that calls nothing has been offered, and has declined, everything that is left; an empty buffer gives its memory back |
| `RxBuffers.RxBuffer.HandleFresh` | UDP_ASYNC_EXAMPLE/ESPAsyncTCP/src/ESPAsyncTCPbuffer.cpp:399-414 | The part of a packet used before buffering is its prefix, and the requests are answered as far as `InPacket` says; terminates |
| `RxBuffers.RxBuffer.Settle` | UDP_ASYNC_EXAMPLE/ESPAsyncTCP/src/ESPAsyncTCPbuffer.cpp:416-442 | What was not used at once is stored and offered once to whoever waits; at most one more request is answered; an empty buffer gives its memory back |
| `RxBuffers.RxBuffer.Store` | UDP_ASYNC_EXAMPLE/ESPAsyncTCP/src/ESPAsyncTCPbuffer.cpp:416-429 | Growing by len + room() makes room for everything: no byte of the rest is cut off |
| `RxBuffers.RxBuffer.HandleStored` | UDP_ASYNC_EXAMPLE/ESPAsyncTCP/src/ESPAsyncTCPbuffer.cpp:431-437 | Handling the stored bytes answers at most one request: without a packet nothing counts as handled, so the loop behind it never repeats |
| `RxBuffers.RxBuffer.OfferStored` | UDP_ASYNC_EXAMPLE/ESPAsyncTCP/src/ESPAsyncTCPbuffer.cpp:466-474 | The handler is offered all stored bytes and exactly those it claims leave the buffer |
| `RxBuffers.RxBuffer.HandleRxBuffer` | UDP_ASYNC_EXAMPLE/ESPAsyncTCP/src/ESPAsyncTCPbuffer.cpp:449-555 | Bytes used from the packet are its prefix, and any use of the packet leaves the buffer empty; unread bytes and their order are kept; without client, connection or mode nothing changes |
| `RxBuffers.RxBuffer.HandleFree` | UDP_ASYNC_EXAMPLE/ESPAsyncTCP/src/ESPAsyncTCPbuffer.cpp:461-480 | FREE mode offers what is stored first, and the packet if and only if all of that was consumed, whatever the handler has installed meanwhile; each offer is recorded with what the handler says it took |
| `RxBuffers.RxBuffer.HandleBytes` | UDP_ASYNC_EXAMPLE/ESPAsyncTCP/src/ESPAsyncTCPbuffer.cpp:482-512 | A byte request uses up stored and fresh bytes until it has its number, then completes with exactly the next bytes of the stream; without pointer or callback nothing changes |
| `RxBuffers.RxBuffer.Pull` | UDP_ASYNC_EXAMPLE/ESPAsyncTCP/src/ESPAsyncTCPbuffer.cpp:489-493 | Moving stored bytes through the pointer leaves the unread stream and the number still wanted consistent, and empties the buffer unless the request is satisfied |
| `RxBuffers.RxBuffer.Fill` | UDP_ASYNC_EXAMPLE/ESPAsyncTCP/src/ESPAsyncTCPbuffer.cpp:495-504 | Fresh bytes bypass the buffer only if it is empty, and never more than are wanted |
| `RxBuffers.RxBuffer.FinishBytes` | UDP_ASYNC_EXAMPLE/ESPAsyncTCP/src/ESPAsyncTCPbuffer.cpp:506-509 | A satisfied byte request delivers the next result of the decoder |
| `RxBuffers.RxBuffer.HandleString` | UDP_ASYNC_EXAMPLE/ESPAsyncTCP/src/ESPAsyncTCPbuffer.cpp:517-552 | A string request reads up to its terminator or a NUL byte, first from the buffer, then from the packet; the text is the next result of the decoder; without String or callback nothing changes |
| `RxBuffers.RxBuffer.ScanStored` | UDP_ASYNC_EXAMPLE/ESPAsyncTCP/src/ESPAsyncTCPbuffer.cpp:522-534 | One stored character either ends the string or is added to its text, and the decoder agrees |
| `RxBuffers.RxBuffer.ScanFresh` | UDP_ASYNC_EXAMPLE/ESPAsyncTCP/src/ESPAsyncTCPbuffer.cpp:536-551 | The same for one character of the packet |
| `RxBuffers.RxBuffer.FinishString` | UDP_ASYNC_EXAMPLE/ESPAsyncTCP/src/ESPAsyncTCPbuffer.cpp:526-529 | The ended string is the next result of the decoder, and its end is consumed |
| `RxBuffers.RxBuffer.Complete` | UDP_ASYNC_EXAMPLE/ESPAsyncTCP/src/ESPAsyncTCPbuffer.cpp:506-509 | Mode NONE before the done callback; whatever that callback installs, the delivered result extends the decoding and the next request is the one being served |
| `RxBuffers.RxBuffer.Offer` | UDP_ASYNC_EXAMPLE/ESPAsyncTCP/src/ESPAsyncTCPbuffer.cpp:471-477 | A data callback is charged with exactly the bytes it says it consumed, and the calls it makes take effect |
| `RxBuffers.RxBuffer.Stop` | UDP_ASYNC_EXAMPLE/ESPAsyncTCP/src/ESPAsyncTCPbuffer.cpp:243-264 | Lets go of the client; exactly a request in force with a done callback is told that it failed |
| `RxBuffers.RxBuffer.Run` | UDP_ASYNC_EXAMPLE/ESPAsyncTCP/src/ESPAsyncTCPbuffer.cpp:158-264 | A callback that makes any sequence of API calls moves no byte of the stream and completes no request; the fields are what these calls make of them, one after the other |
| `RxBuffers.RxBuffer.OnData` | UDP_ASYNC_EXAMPLE/ESPAsyncTCP/src/ESPAsyncTCPbuffer.cpp:207-216 | With a client: FREE mode, this handler, no done callback, and what an incomplete request had taken goes into the account; without one no field changes |
| `RxBuffers.RxBuffer.ReadBytes` | UDP_ASYNC_EXAMPLE/ESPAsyncTCP/src/ESPAsyncTCPbuffer.cpp:191-201 | With a client: the mode, pointer, length and callback of this request, nothing taken yet; without one no field changes |
| `RxBuffers.RxBuffer.ReadStringUntil` | UDP_ASYNC_EXAMPLE/ESPAsyncTCP/src/ESPAsyncTCPbuffer.cpp:162-173 | With a client: the mode, String, terminator and callback of this request, nothing taken yet; without one no field changes |
| `RxBuffers.RxBuffer.NoCallback` | UDP_ASYNC_EXAMPLE/ESPAsyncTCP/src/ESPAsyncTCPbuffer.cpp:158-160 | Mode NONE, and no other field changes |
| `RxBuffers.RxBuffer.LookOn` | UDP_ASYNC_EXAMPLE/ESPAsyncTCP/src/ESPAsyncTCPbuffer.cpp:403-413 | The loop over the packet goes on while it uses bytes and a mode is set |
| `RxBuffers.RxBuffer.Ended` | UDP_ASYNC_EXAMPLE/ESPAsyncTCP/src/ESPAsyncTCPbuffer.cpp:158-264 | What the invariant of a session says: the account of the stream, and that nothing is pending |
| `RxBuffers.RxBuffer.Heed` | UDP_ASYNC_EXAMPLE/ESPAsyncTCP/src/ESPAsyncTCPbuffer.cpp:388-444 | A packet for a connected client joins the stream whole; no callback is called only if nothing waits or what has come is not enough; requests are answered at the pace of `AfterPacket` |
| `RxBuffers.RxBuffer.TakeBytes` | UDP_ASYNC_EXAMPLE/ESPAsyncTCP/src/ESPAsyncTCPbuffer.cpp:487-509 | Stored bytes first, then fresh ones, up to the number wanted |
| `RxLaws.InForceStep` | UDP_ASYNC_EXAMPLE/ESPAsyncTCP/src/ESPAsyncTCPbuffer.cpp:162-216 | Each event keeps it so that what is in force is what the last call asked for |
| `RxLaws.SensibleStep` | UDP_ASYNC_EXAMPLE/ESPAsyncTCP/src/ESPAsyncTCPbuffer.cpp:449-555 | Every event that may happen follows sensibly: a chunk only for a handler that was installed last, or has emptied the store and is shown the packet behind it; a result only for the last call; a failure exactly after a stop() that abandons a request; and whatever answers what is outstanding comes next |
| `RxTraces.FitsCall` | UDP_ASYNC_EXAMPLE/ESPAsyncTCP/src/ESPAsyncTCPbuffer.cpp:158-264 | What a call does to the fields agrees with what it means for the sequence of events |
| `RxTraces.InOrderCall` | UDP_ASYNC_EXAMPLE/ESPAsyncTCP/src/ESPAsyncTCPbuffer.cpp:158-264 | A call keeps the sequence genuine, moves what the replaced request had taken into the account, and fails a request exactly if it lets go of the client while one with a done callback is in force |
| `PacedDecoder.PacedDecodes` | UDP_ASYNC_EXAMPLE/ESPAsyncTCP/src/ESPAsyncTCPbuffer.cpp:388-444 | At that pace, results and leftover are those of the decoder on the stream so far |
| `RequestDecoder.DecodeExtend` | UDP_ASYNC_EXAMPLE/ESPAsyncTCP/src/ESPAsyncTCPbuffer.cpp:388-444 | Results that are out do not depend on bytes that arrive later |
| `RequestDecoder.FindEndIs` | UDP_ASYNC_EXAMPLE/ESPAsyncTCP/src/ESPAsyncTCPbuffer.cpp:524-533 | The end of a string is the first byte that is the terminator or NUL: no byte before it is either |
| `RequestDecoder.CompleteIff` | UDP_ASYNC_EXAMPLE/ESPAsyncTCP/src/ESPAsyncTCPbuffer.cpp:431-437 | The decoding of a stream is complete if and only if the next request is none or cannot be answered by the bytes left |
| `RequestDecoder.TakeString` | UDP_ASYNC_EXAMPLE/ESPAsyncTCP/src/ESPAsyncTCPbuffer.cpp:517-552 | A text in which neither the terminator nor NUL occurs, one of these, and what follows: the request takes the text |
| `RequestDecoder.TakeIff` | UDP_ASYNC_EXAMPLE/ESPAsyncTCP/src/ESPAsyncTCPbuffer.cpp:482-552 | A request is answered with a value if and only if the value is what it asks for (that many bytes, or a text without terminator and NUL) and, with what ends it, is how the bytes begin |
| `RequestDecoder.DecodeIff` | UDP_ASYNC_EXAMPLE/ESPAsyncTCP/src/ESPAsyncTCPbuffer.cpp:449-555 | Decoding is taking apart: results and rest are those of the decoder if and only if the stream can be put together from them, each the answer to what the program asks for after those before |
| `RequestDecoder.StuckIff` | UDP_ASYNC_EXAMPLE/ESPAsyncTCP/src/ESPAsyncTCPbuffer.cpp:482-552 | Bytes cannot answer the next request if and only if there is none, they are too few, or neither its terminator nor NUL is among them |
| `TxBuffers.TxBuffer.SendHead` | UDP_ASYNC_EXAMPLE/ESPAsyncTCP/src/ESPAsyncTCPbuffer.cpp:343-376 | One attempt sends min(available, space()) bytes of the head and removes them, or fails, leaves the chain as it was and forgets the chunk |
| `TxBuffers.TxBuffer.Offer` | UDP_ASYNC_EXAMPLE/ESPAsyncTCP/src/ESPAsyncTCPbuffer.cpp:358-368 | What client->write reports as sent is what leaves the chain; a failed attempt leaves the client idle, and lwIP has the bytes exactly if it was tcp_output that failed |
| `TxBuffers.TxBuffer.WriteSome` | UDP_ASYNC_EXAMPLE/ESPAsyncTCP/src/ESPAsyncTCPbuffer.cpp:109-138 | One iteration accepts a prefix and sends, at once if the client is free to; it stops exactly for want of heap, adds a buffer only behind a full tail, and when it stores nothing the full tail has gone |
| `TxBuffers.TxBuffer.StoreAndSend` | UDP_ASYNC_EXAMPLE/ESPAsyncTCP/src/ESPAsyncTCPbuffer.cpp:110-113 | Fills the tail and sends: with a client that is free to send, min(head, space()) bytes, the head being longer by what was stored if it is also the tail |
| `TxBuffers.TxBuffer.WriteRest` | UDP_ASYNC_EXAMPLE/ESPAsyncTCP/src/ESPAsyncTCPbuffer.cpp:109-138 | The turns of the loop after the first store the rest unless the heap runs low, and send nothing while the client is busy; terminates although a turn may store nothing |
| `TxBuffers.TxBuffer.Turn` | UDP_ASYNC_EXAMPLE/ESPAsyncTCP/src/ESPAsyncTCPbuffer.cpp:149-154 | Each turn of the flush loop uses up an event, a queued byte or a failure, or ends the flush: with the queue empty, the connection gone, or no event left; on a working connection it goes on |
| `TxBuffers.TxBuffer.Wait` | UDP_ASYNC_EXAMPLE/ESPAsyncTCP/src/ESPAsyncTCPbuffer.cpp:149-151 | The waiting ends with a client that is gone, not connected or able to send, or with the schedule; on a working connection, whose events acknowledge everything in flight, with a client able to send |
| `TxBuffers.TxBuffer.OnSent` | UDP_ASYNC_EXAMPLE/ESPAsyncTCP/src/ESPAsyncTCP.cpp:542-563 | With the ack callback of AsyncTCPbuffer: a full acknowledgement sends the next chunk, min(head, room) bytes of it if nothing fails, and the bound on what is in flight is kept |
| `TxBuffers.TxBuffer.OnPoll` | UDP_ASYNC_EXAMPLE/ESPAsyncTCP/src/ESPAsyncTCP.cpp:661-696 | With the poll and timeout callbacks of AsyncTCPbuffer, on literal clock differences: a requested close comes first and is the end of the client; then an ack timer that is due asks for a close and nothing is sent; then a receive timer that is due is the end; and otherwise exactly what the head holds and fits is sent. The books are kept in every case |
| `TxBuffers.TxBuffer.Deliver` | UDP_ASYNC_EXAMPLE/ESPAsyncTCP/src/ESPAsyncTCPbuffer.cpp:276-329 | Every event of the network has the effect of its callback (`SentOn`, `PolledOn`), new conditions are in place and a lost connection loses its client; and it keeps the accepted bytes, the books and, if it makes no tcp_output fail, the bound on what is in flight |
| `TxBuffers.TxBuffer.Act` | UDP_ASYNC_EXAMPLE/ESPAsyncTCP/src/ESPAsyncTCPbuffer.cpp:103-156 | Every step does its work (`Does`) and keeps the books and the bound; a write accepts a prefix of its data, all of it while connected with enough heap, and nothing else accepts anything; nobody asks for a close unless the ack timer was due, and that runs from the last send |
| `TxBuffers.TxBuffer.Round` | UDP_ASYNC_EXAMPLE/ESPAsyncTCP/src/ESPAsyncTCPbuffer.cpp:282-299 | Each round trip with room sends min(head, room) bytes and so strictly shrinks a nonempty queue; stop-and-wait is kept |
| `TxBuffers.TxBuffer.SendLoop` | UDP_ASYNC_EXAMPLE/ESPAsyncTCP/src/ESPAsyncTCPbuffer.cpp:341-379 | The loop sends one chunk; it goes round again only after a failure |
| `TxBuffers.TxBuffer.Attempt` | UDP_ASYNC_EXAMPLE/ESPAsyncTCP/src/ESPAsyncTCPbuffer.cpp:343-376 | One turn of the loop, put off for want of heap or made |
| `TxChains.EmptyEnds` | UDP_ASYNC_EXAMPLE/ESPAsyncTCP/src/ESPAsyncTCPbuffer.cpp:147-148 | An empty head and an empty tail each mean an empty queue |
| `TxChains.DropKeepsShape` | UDP_ASYNC_EXAMPLE/ESPAsyncTCP/src/ESPAsyncTCPbuffer.cpp:367-376 | Removing sent bytes keeps the shape: no empty buffer unless it is the only one, full ones between head and tail |
| `TxChains.DropKeepsOrder` | UDP_ASYNC_EXAMPLE/ESPAsyncTCP/src/ESPAsyncTCPbuffer.cpp:367-376 | and takes exactly those bytes from the front of the queue |
| `TxChains.TxChain.Store` | UDP_ASYNC_EXAMPLE/ESPAsyncTCP/src/ESPAsyncTCPbuffer.cpp:110-112 | The tail takes min(len, room) bytes at the end of the queue |
| `TxChains.TxChain.Peek` | UDP_ASYNC_EXAMPLE/ESPAsyncTCP/src/ESPAsyncTCPbuffer.cpp:355-356 | The head holds the front of the queue |
| `TxChains.TxChain.DropSent` | UDP_ASYNC_EXAMPLE/ESPAsyncTCP/src/ESPAsyncTCPbuffer.cpp:367-376 | The queue loses exactly the sent prefix; the emptied head is left behind only if a successor exists, so the tail pointer is never a deleted buffer |
| `TxChains.TxChain.Grow` | UDP_ASYNC_EXAMPLE/ESPAsyncTCP/src/ESPAsyncTCPbuffer.cpp:124-136 | A fresh empty buffer behind a full tail changes no queued byte; head still reaches tail, whose next is null |
| `ClientEvents.Connection.Tally` | UDP_ASYNC_EXAMPLE/ESPAsyncTCP/src/ESPAsyncTCP.cpp:131-142 | The same, with answered, foreground and reported aborts counted apart, and the effect of the step as one sees it |
| `ClientEvents.Connection.SAccept` | UDP_ASYNC_EXAMPLE/ESPAsyncTCP/src/ESPAsyncTCP.cpp:1272-1281 | The accept callback answers ERR_ABRT exactly if the connect callback aborted, also if it deleted the client |
| `ClientEvents.Connection.SConnected` | UDP_ASYNC_EXAMPLE/ESPAsyncTCP/src/ESPAsyncTCP.cpp:447-493 | With an error: error and disconnect callback once, ERR_OK, nothing can call back any more; without: the connect callback finds a client that holds the control block, not busy, its receive timer started now |
| `ClientEvents.Connection.SError` | UDP_ASYNC_EXAMPLE/ESPAsyncTCP/src/ESPAsyncTCP.cpp:741-747 | After the error callback no tcp_abort can follow, nothing is called back any more and the disconnect callback has run once |
| `ClientEvents.Connection.SSent` | UDP_ASYNC_EXAMPLE/ESPAsyncTCP/src/ESPAsyncTCP.cpp:749-754 | The ack callback runs exactly when nothing is in flight any more, with all bytes acknowledged since it last ran, and exactly that length is added to what was reported; the counters survive its calls and the deletion of the client; an acknowledgement restarts the receive timer |
| `ClientEvents.Connection.SPoll` | UDP_ASYNC_EXAMPLE/ESPAsyncTCP/src/ESPAsyncTCP.cpp:727-732 | A requested close comes first, then an ack timer that is due runs the timeout callback, then a receive timer that is due closes, on literal clock differences, and otherwise the poll callback runs: this is the first thing that happens. Closing disconnects and answers ERR_ABRT exactly if tcp_close failed; every abort in a poll is answered |
| `ClientEvents.Connection.SRecv` | UDP_ASYNC_EXAMPLE/ESPAsyncTCP/src/ESPAsyncTCP.cpp:734-739 | Error or end of stream disconnects once; data is offered in chain order up to the deletion of the client; every buffer is freed or handed over unless there is an error, and then none is; the answer is ERR_ABRT exactly if the callbacks aborted unreported; data restarts the receive timer |
| `ClientEvents.Connection.Receive` | UDP_ASYNC_EXAMPLE/ESPAsyncTCP/src/ESPAsyncTCP.cpp:623-658 | The loop offers the payloads of a prefix of the chain in order, all of them unless the client was deleted, and leaves no buffer with lwIP |
| `ClientEvents.Connection.OfferAll` | UDP_ASYNC_EXAMPLE/ESPAsyncTCP/src/ESPAsyncTCP.cpp:636-657 | It stops early only without a client, and what it has passed is no longer owned by lwIP |
| `ClientEvents.Connection.FreeRest` | UDP_ASYNC_EXAMPLE/ESPAsyncTCP/src/ESPAsyncTCP.cpp:627-635 | After a deletion the rest is freed, each buffer once and unlinked, and nothing else is touched |
| `ClientEvents.Connection.Deliver` | UDP_ASYNC_EXAMPLE/ESPAsyncTCP/src/ESPAsyncTCP.cpp:637-656 | A buffer is handed over to the packet callback or else offered and freed, never both; the client is not touched once it is gone |
| `ClientEvents.Connection.OfferData` | UDP_ASYNC_EXAMPLE/ESPAsyncTCP/src/ESPAsyncTCP.cpp:645-655 | The data callback is offered the payload; unless it defers, the window opens at once; tcp_recved is called on a control block that was given up if and only if, after the callback, the client exists without control block and has not deferred |
| `ClientEvents.Connection.ReceiveOne` | UDP_ASYNC_EXAMPLE/ESPAsyncTCP/src/ESPAsyncTCP.cpp:637-656 | The first buffer of any chain is unlinked before it is delivered |
| `ClientEvents.Connection.FireDisconnect` | UDP_ASYNC_EXAMPLE/ESPAsyncTCP/src/ESPAsyncTCP.cpp:510-532 | The disconnect callback runs only without control block, at most once, and never leads to an abort |
| `ClientEvents.Connection.DoClose` | UDP_ASYNC_EXAMPLE/ESPAsyncTCP/src/ESPAsyncTCP.cpp:495-515 | Afterwards nothing can call back; tcp_abort was called exactly if tcp_close failed; the disconnect callback has run once, after the control block was given up |
| `ClientEvents.Connection.CloseNow` | UDP_ASYNC_EXAMPLE/ESPAsyncTCP/src/ESPAsyncTCP.cpp:355-362 | close(true) does the same and opens the window by exactly the deferred length |
| `ClientEvents.Connection.Destroy` | UDP_ASYNC_EXAMPLE/ESPAsyncTCP/src/ESPAsyncTCP.cpp:225-230 | Deletion closes a held control block as above, with one disconnect callback, and then clears the tracker, which outlives the client |
| `ClientEvents.Connection.Run` | UDP_ASYNC_EXAMPLE/ESPAsyncTCP/src/ESPAsyncTCP.cpp:225-515 | Any sequence of calls from a callback keeps the invariant, and terminates although close, abort and delete re-enter the application; afterwards a client that was to be deleted is gone, and none holds what was to be aborted or closed; a single call has its effect |
| `ClientEvents.Connection.Do` | UDP_ASYNC_EXAMPLE/ESPAsyncTCP/src/ESPAsyncTCP.cpp:334-443 | So does each single call, and it has its effect: data goes to lwIP as far as there is room, the window opens, the client is closed, aborted or deleted, the setting is made |
| `ClientEvents.Connection.Transmit` | UDP_ASYNC_EXAMPLE/ESPAsyncTCP/src/ESPAsyncTCP.cpp:382-434 | Sending calls give lwIP min(len, space()) bytes when nothing fails, keep the accounts and never close; write() sends them at once |
| `ClientEvents.Connection.Acknowledge` | UDP_ASYNC_EXAMPLE/ESPAsyncTCP/src/ESPAsyncTCP.cpp:436-443 | Acknowledging opens the window by min(len, deferred) and keeps the accounts |
| `ClientEvents.ACErrorTracker.GetCallbackCloseError` | UDP_ASYNC_EXAMPLE/ESPAsyncTCP/src/ESPAsyncTCP.cpp:136-142 | ERR_ABRT is returned at most once, and only ERR_OK after any error |
| `ClientEvents.Connection.Report` | UDP_ASYNC_EXAMPLE/ESPAsyncTCP/src/ESPAsyncTCP.cpp:556-560 | The report itself: the acknowledged count is told, added to what was reported, and cleared, whatever the callback sends meanwhile |
| `ClientEvents.Connection.Count` | UDP_ASYNC_EXAMPLE/ESPAsyncTCP/src/ESPAsyncTCP.cpp:417-443 | What the invariant says about the counters of a client that holds its control block |
| `ClientEvents.Connection.DoAbort` | UDP_ASYNC_EXAMPLE/ESPAsyncTCP/src/ESPAsyncTCP.cpp:334-353 | abort() with armed callbacks: one tcp_abort, and the control block is given up; it goes on with a deleted client if and only if lwIP calls back and the disconnect callback deletes it |
| `ClientEvents.Connection.Arrives` | UDP_ASYNC_EXAMPLE/ESPAsyncTCP/src/ESPAsyncTCP.cpp:609-658 | A delivered packet is shown to the callbacks piece by piece and in order, in full unless the client is deleted meanwhile, and restarts the receive timer; an error or the end of the stream is the end |
| `AsyncClients.AsyncClient.Add` | UDP_ASYNC_EXAMPLE/ESPAsyncTCP/src/ESPAsyncTCP.cpp:390-415 | Gives lwIP min(len, space()) bytes or, if tcp_write fails, none; transmit and receive accounting are kept |
| `AsyncClients.AsyncClient.Send` | UDP_ASYNC_EXAMPLE/ESPAsyncTCP/src/ESPAsyncTCP.cpp:417-434 | Success moves the unsent count to the unacknowledged one; failure forgets it; the accounting (given = acknowledged + unacknowledged + unsent + forgotten, modulo 2^32, with nothing forgotten while no tcp_output has failed) is kept |
| `AsyncClients.AsyncClient.Write` | UDP_ASYNC_EXAMPLE/ESPAsyncTCP/src/ESPAsyncTCP.cpp:382-388 | Reports min(len, space()) or 0; a 0 in spite of room means one failure, and lwIP has the bytes exactly if it was tcp_output; accounting kept |
| `AsyncClients.AsyncClient.SentBegin` | UDP_ASYNC_EXAMPLE/ESPAsyncTCP/src/ESPAsyncTCP.cpp:548-554 | An acknowledgement moves bytes from unacknowledged to acknowledged modulo 2^32; accounting kept |
| `AsyncClients.AsyncClient.AfterData` | UDP_ASYNC_EXAMPLE/ESPAsyncTCP/src/ESPAsyncTCP.cpp:649-654 | Received bytes open the window at once or are deferred; shown = opened + deferred + handed over is kept; on a control block that was given up the call is a stray one |
| `AsyncClients.AsyncClient.Ack` | UDP_ASYNC_EXAMPLE/ESPAsyncTCP/src/ESPAsyncTCP.cpp:436-443 | Opens min(len, deferred) and defers that much less |
| `AsyncClients.AsyncClient.AbortPcb` | UDP_ASYNC_EXAMPLE/ESPAsyncTCP/src/ESPAsyncTCP.cpp:334-353 | At most one tcp_abort, since the control block is forgotten |
| `AsyncClients.AsyncClient.PollStep` | UDP_ASYNC_EXAMPLE/ESPAsyncTCP/src/ESPAsyncTCP.cpp:661-696 | Which of the four branches a poll takes: a requested close first, then the ack timer, which is due only while something is in flight, then the receive timer, each on literal 32-bit clock differences; busy is cleared exactly by an ack timeout |
| `AsyncClients.AsyncClient.DueAfter` | UDP_ASYNC_EXAMPLE/ESPAsyncTCP/src/ESPAsyncTCP.cpp:661-696 | The same on a clock that does not wrap: d milliseconds after the last send, an ack timeout never strikes while nothing is in flight or if d is less than the timeout, and always does otherwise unless a close was asked for; the receive timer strikes after its number of seconds without a packet, and not before |
| `SyncClients.SyncClient.TakeSegment` | UDP_ASYNC_EXAMPLE/ESPAsyncTCP/src/SyncClient.cpp:379-388 | A used-up segment opens the window by its original length: the clamp in ack never bites |
| `SyncClients.SyncClient.Unlink` | UDP_ASYNC_EXAMPLE/ESPAsyncTCP/src/SyncClient.cpp:380-387 | The first segment leaves the list while its acknowledgement is still deferred |
| `SyncClients.SyncClient.OnSegment` | UDP_ASYNC_EXAMPLE/ESPAsyncTCP/src/ESPAsyncTCP.cpp:636-655 | A segment is appended and deferred: the deferred count stays the total length of the segments in the list |
| `SyncClients.SyncClient.OnSegmentLost` | UDP_ASYNC_EXAMPLE/ESPAsyncTCP/src/SyncClient.cpp:286-293 | Without heap the connection is aborted, once, the list stays as it is, and no stray call follows |
| `SyncClients.SyncClient.Available` | UDP_ASYNC_EXAMPLE/ESPAsyncTCP/src/SyncClient.cpp:359-368 | The length of the waiting stream |
| `SyncClients.SyncClient.ReadByte` | UDP_ASYNC_EXAMPLE/ESPAsyncTCP/src/SyncClient.cpp:395-400 | Returns what peek shows and moves the stream on by it |
| `SyncClients.SyncClient.Take` | UDP_ASYNC_EXAMPLE/ESPAsyncTCP/src/SyncClient.cpp:273-400 | Each step adds what arrived at one end of the stream and takes what was read from the other: a segment arrives exactly if there is heap for it on a live connection, a read takes min(len, available()), the connection stays up exactly if the step does not end it, and an ack timeout asks for a close |
| `SyncClients.TakeAt` | UDP_ASYNC_EXAMPLE/ESPAsyncTCP/src/SyncClient.cpp:273-400 | From any point of a session one step brings, reads and ends what `ReceiveSession` says |
| `SyncClients.SyncClient.OnTimeout` | UDP_ASYNC_EXAMPLE/ESPAsyncTCP/src/SyncClient.cpp:326 | The ack timeout asks for a close, which opens the window by the deferred length once more than ack() will; the account is kept with that excess |
| `SyncClients.SyncClient.Arrive` | UDP_ASYNC_EXAMPLE/ESPAsyncTCP/src/SyncClient.cpp:273-293 | A segment joins the end of the stream if and only if there is heap for it and the connection is up; without heap a live connection ends |
| `SegmentLists.SegmentList.PopFront` | UDP_ASYNC_EXAMPLE/ESPAsyncTCP/src/SyncClient.cpp:380-387 | The first segment leaves with its remaining bytes and its original length |
| `SegmentLists.SegmentList.ReadFront` | UDP_ASYNC_EXAMPLE/ESPAsyncTCP/src/SyncClient.cpp:389-391 | Part of the first segment leaves, the rest stays in order |
| `SegmentLists.SegmentList.Available` | UDP_ASYNC_EXAMPLE/ESPAsyncTCP/src/SyncClient.cpp:359-368 | Summing over the nodes gives the length of the stream |
| `SegmentLists.SegmentList.LengthsBound` | UDP_ASYNC_EXAMPLE/ESPAsyncTCP/src/SyncClient.cpp:273-388 | What waits never exceeds what is deferred, and with nonempty nodes nothing waiting means nothing deferred |
| `SecureServers.SecureServer.Accept` | UDP_ASYNC_EXAMPLE/ESPAsyncTCP/src/ESPAsyncTCP.cpp:1221-1265 | The connection gets the session exactly if there is none and nobody is in line; otherwise it is parked at the end of the list with no bytes, or closed for want of heap, with ERR_ABRT exactly if tcp_close failed then; its number may have been used before |
| `SecureServers.SecureServer.Poll` | UDP_ASYNC_EXAMPLE/ESPAsyncTCP/src/ESPAsyncTCP.cpp:1305-1330 | A parked connection is promoted exactly if there is no server session: it has the session then, its first entry leaves the list and goes to its client; otherwise nothing changes |
| `SecureServers.SecureServer.Recv` | UDP_ASYNC_EXAMPLE/ESPAsyncTCP/src/ESPAsyncTCP.cpp:1332-1373 | Bytes are added behind those of the first entry of that connection and of no other; the end of the stream takes the connection off the list; ERR_ABRT exactly if tcp_close failed then |
| `SecureServers.SecureServer.SessionEnds` | UDP_ASYNC_EXAMPLE/ESPAsyncTCP/src/ESPAsyncTCP.cpp:497-501 | Ending a session frees its entry |
| `SecureServers.SecureServer.FlagServes` | UDP_ASYNC_EXAMPLE/ESPAsyncTCP/src/tcp_axtls.c:102-104 | The flag says whether there is a server session, and there is at most one |
| `SecureServers.SecureServer.Unpark` | UDP_ASYNC_EXAMPLE/ESPAsyncTCP/src/ESPAsyncTCP.cpp:1307-1316 | Exactly the first entry of the connection leaves the list |
| `SecureServers.SecureServer.Handle` | UDP_ASYNC_EXAMPLE/ESPAsyncTCP/src/ESPAsyncTCP.cpp:1221-1373 | Every event does to sessions, list and promotions what the model says |
| `ServerModels.AlwaysFits` | UDP_ASYNC_EXAMPLE/ESPAsyncTCP/src/ESPAsyncTCP.cpp:1221-1373 | The same for the end of a run: who waits is in the list and has no session, and without resets the list is exactly those, each once, with all their bytes |
| `ServerModels.AlwaysKept` | UDP_ASYNC_EXAMPLE/ESPAsyncTCP/src/ESPAsyncTCP.cpp:1221-1373 | In every run there is at most one server session, and every connection that waits has an entry and no session |
| `ServerModels.AlwaysHold` | UDP_ASYNC_EXAMPLE/ESPAsyncTCP/src/ESPAsyncTCP.cpp:1361-1370 | In every run without resets each entry holds what has arrived on its connection since it came |
| `ServerModels.KeptStep` | UDP_ASYNC_EXAMPLE/ESPAsyncTCP/src/ESPAsyncTCP.cpp:1221-1373 | Each event keeps exclusion and the entries of those who wait |
| `ServerModels.AllCarried` | UDP_ASYNC_EXAMPLE/ESPAsyncTCP/src/ESPAsyncTCP.cpp:1332-1373 | Each event leaves the entries of a sound list as they were, but for the bytes it brings to their own connection |
| `ParkedLists.SoundMore` | UDP_ASYNC_EXAMPLE/ESPAsyncTCP/src/ESPAsyncTCP.cpp:1361-1370 | In a sound list, more bytes for one connection reach the entry of that connection only |
| `ParkedLists.SoundLeave` | UDP_ASYNC_EXAMPLE/ESPAsyncTCP/src/ESPAsyncTCP.cpp:1307-1316 | Taking a connection off a sound list leaves the others, and it is gone |
| `ParkedLists.StillIn` | UDP_ASYNC_EXAMPLE/ESPAsyncTCP/src/ESPAsyncTCP.cpp:1307-1316 | Whatever happens to one connection, the others stay in the list |
| `SslRegistries.SslRegistry.Get` | UDP_ASYNC_EXAMPLE/ESPAsyncTCP/src/tcp_axtls.c:145-154 | Walking the list is looking up the map from control blocks to sessions |
| `SslRegistries.SslRegistry.GetByFd` | UDP_ASYNC_EXAMPLE/ESPAsyncTCP/src/tcp_axtls.c:481-487 | Finds a session with that descriptor if there is one, and the one that has it while descriptors are distinct |
| `SslRegistries.SslRegistry.New` | UDP_ASYNC_EXAMPLE/ESPAsyncTCP/src/tcp_axtls.c:106-143 | Appends one session at the end, numbered by the allocation that made it modulo 2^31; nothing without heap |
| `SslRegistries.SslRegistry.Free` | UDP_ASYNC_EXAMPLE/ESPAsyncTCP/src/tcp_axtls.c:228-273 | On a nonempty list removes exactly the named session, keeps the others in order, and clears the flag exactly if it was a server session |
| `SslRegistries.SslRegistry.NewClient` | UDP_ASYNC_EXAMPLE/ESPAsyncTCP/src/tcp_axtls.c:156-191 | Adds a client session if and only if there is a control block without session and all allocations succeed; otherwise the map is unchanged |
| `SslRegistries.SslRegistry.Unlink` | UDP_ASYNC_EXAMPLE/ESPAsyncTCP/src/tcp_axtls.c:234-260 | The entry leaves the list, the others keep their order and their numbers |
| `SslRegistries.SslRegistry.FdsDistinct` | UDP_ASYNC_EXAMPLE/ESPAsyncTCP/src/tcp_axtls.c:108-130 | Descriptors are distinct within any 2^31 consecutive allocations |
| `SslRegistries.NextStep` | UDP_ASYNC_EXAMPLE/ESPAsyncTCP/src/tcp_axtls.c:108-130 | The counter is the number of allocations modulo 2^31, through its overflow |
| `SslRegistries.Lookup` | UDP_ASYNC_EXAMPLE/ESPAsyncTCP/src/tcp_axtls.c:149-153 | The first list entry of a key is the map entry |
| `SslRegistries.RemoveSession` | UDP_ASYNC_EXAMPLE/ESPAsyncTCP/src/tcp_axtls.c:252-260 | Unlinking a list entry removes the key from the map and counts a server less exactly if it was one |
| `SslRegistries.CountServers` | UDP_ASYNC_EXAMPLE/ESPAsyncTCP/src/tcp_axtls.c:246-270 | No, or one, server session, in terms of the count |
| `SslRegistries.ProperRemove` | UDP_ASYNC_EXAMPLE/ESPAsyncTCP/src/tcp_axtls.c:252-260 | Removal keeps keys distinct and descriptors tied to their allocations |
| `NodeLists.NodeList.Find` | UDP_ASYNC_EXAMPLE/ESPAsyncTCP/src/tcp_axtls.c:149-153 | The first node with the key, or null |
| `NodeLists.NodeList.Remove` | UDP_ASYNC_EXAMPLE/ESPAsyncTCP/src/tcp_axtls.c:234-260 | Exactly the first node with the key is unlinked: the head, or the successor of the node before it |
| `NodeLists.WithoutDistinct` | UDP_ASYNC_EXAMPLE/ESPAsyncTCP/src/tcp_axtls.c:252-260 | Afterwards the key is gone |
| `ByteLists.StringToBytes` | UDP_ASYNC_EXAMPLE/UDPXmitter - UDP Extension for mit app inventor/de/ullisroboterseite/ursai2udp/Helpers.java:113-125 | The parser yields the byte of every item, or fails if one item is not a number from 0 to 255; it equals the specification that `RoundTrip` and `ParseWritten` are about |
| `ByteLists.PacketText` | UDP_ASYNC_EXAMPLE/UDPXmitter - UDP Extension for mit app inventor/de/ullisroboterseite/ursai2udp/UDPListener.java:180-189 | The printer yields the decimal unsigned values joined by semicolons |
| `ByteLists.PiecesOfList` | UDP_ASYNC_EXAMPLE/UDPXmitter - UDP Extension for mit app inventor/de/ullisroboterseite/ursai2udp/Helpers.java:115 | Splitting at semicolons undoes the joining |
| `ByteLists.DecodeDecimal` | UDP_ASYNC_EXAMPLE/UDPXmitter - UDP Extension for mit app inventor/de/ullisroboterseite/ursai2udp/Helpers.java:119 | Trimming and decoding undo the decimal printing: no printed number has a sign or a radix prefix |
| `ByteLists.ItemWritten` | UDP_ASYNC_EXAMPLE/UDPXmitter - UDP Extension for mit app inventor/de/ullisroboterseite/ursai2udp/Helpers.java:118-123 | An item written in any of these ways, with blanks around it, has the value of its byte |
| `ByteLists.TrimBlanks` | UDP_ASYNC_EXAMPLE/UDPXmitter - UDP Extension for mit app inventor/de/ullisroboterseite/ursai2udp/Helpers.java:119 | Trimming takes exactly the blanks at both ends |
| `ByteLists.DecodeSigned` | UDP_ASYNC_EXAMPLE/UDPXmitter - UDP Extension for mit app inventor/de/ullisroboterseite/ursai2udp/Helpers.java:119 | A sign before a decimal number is read |
| `ByteLists.DigitsOfDecimal` | UDP_ASYNC_EXAMPLE/UDPXmitter - UDP Extension for mit app inventor/de/ullisroboterseite/ursai2udp/Helpers.java:119 | Reading digits undoes writing them |
| `ByteLists.ItemValuesOf` | UDP_ASYNC_EXAMPLE/UDPXmitter - UDP Extension for mit app inventor/de/ullisroboterseite/ursai2udp/Helpers.java:118-123 | The printed items have the values of the bytes, through the conversion to unsigned and back |
| `ByteLists.ItemValuesFail` | UDP_ASYNC_EXAMPLE/UDPXmitter - UDP Extension for mit app inventor/de/ullisroboterseite/ursai2udp/Helpers.java:120-121 | One bad item makes the whole text fail |

## Left out

- The sketches, and the Android extension apart from its byte lists: devices, sockets, threads and user interfaces.
- `SyncClient::write` and `AsyncPrinter::write`: their overflow loops start again at the beginning of the data
  (SyncClient.cpp:345), so there is no order to prove.
- AsyncUDP and its messages: thin calls of lwIP.
- Cryptography, `ssl_read`, `ssl_write`, handshakes, certificates and DNS; AsyncClient is modelled without TLS except for
  its entries in the registry.
- The pointers given to `readBytes` and `readStringUntil`: what is stored through them is a sequence of bytes of the
  request; that the memory is large enough and still there is not modelled.
- The destructor of AsyncTCPbuffer, and deleting the buffer inside its own callbacks.
- A callback object that is replaced while it is executing: the model takes the replacement to be harmless.
- Calls by a done callback that is told of a failure: the client is gone by then, and only `noCallback` has an effect.
- `ackPacket`: handed-over bytes are counted, but not when the application acknowledges them.
- `ack` and `send` without a control block: the original passes NULL to lwIP, the model does nothing.
- `connect()` by a client that has been connected before: its tracker would carry the old verdict over.
- The accept paths on which a client cannot be allocated, and the acceptance of connections without a connect callback.
- `AsyncServer::begin` and `end`.
- The ring inside `cbuf`, which is not part of the repository: `Cbuf.dfy` states its contract.
- Character sets: `String.trim`, `String.split` and `Integer.decode` of the Java library are modelled for ASCII digits, as
  their documentation describes them.
- SyncClients.SyncClient.OnSegment: the deferred count is bounded by 2^32, since the original counts in 32 bits and no
  receive window comes near it.

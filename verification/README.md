# EDNA, verified

EDNA makes card applications that run in separate client processes look like one local smart card.
The daemon has two threads. The communications thread accepts clients, performs the registration
handshake and notices when clients leave. The emulator thread turns the events of a card reader into
power events and APDU exchanges with the application that the terminal selected. Clients use a small
library: connect under an AID, then run a loop that answers commands.

The project looks at this system three times, and the three views share one protocol (`Protocol.dfy`).

**The whole system** (`System.dfy`) is a step machine: both daemon threads, the mutex between them, and
any number of clients, some of which use the library and some of which send whatever they like. A run is
any interleaving of their steps. `Invariant.dfy` says what every reachable state satisfies; `ClientSteps`,
`CommSteps` and `EmuSteps` prove it for each step, `Runs` for every run. `Theorems` derives the
guarantees, `Histories` says that applications process exactly what they are sent, `PowerPass` that power
events reach them once, `Progress` that a call can always be completed, and `Refinement` shows
that the system does what an abstract card does: a map from AIDs to handlers with at most one of them
selected. `Recycling` is the run that shows where this stops: the operating system hands the number of a
closed descriptor out again while the daemon still has it selected.

**The code** of each component is modelled in its own form, as classes whose methods update fields:
`CommThread` and `EdnaLib` over the sockets of `Net` and the frame loops of `Transport`, `Emulator` on top
of `CommThread` and a reader that may answer anything, and `ByteString`. Their methods are proved against
functions on byte streams. `Framing` and `Agreement` prove that the two ends of a connection understand
each other: the registration handshake of the library against that of the daemon, and whole sessions of
APDUs.

**The two views agree.** The step machine carries messages, the daemon's class bytes. `OnTheWire` reads the
queues of a part of a run as byte streams: what a connection still holds and what its client will write, and
what has been written to it. `WireHandshake` and `WireCall` prove that every handshake and every call of a
run, with any steps of the clients in between, satisfies the contract of `NewClient` and of `Transceive`.
`LibrarySteps` does the same for the steps of a client and the library.

**The bytes** are written out once more where they matter, so that both ends cannot be wrong together:
`WireFormat` says what the contracts of the daemon and the library mean in the numbers of
`src/common/edna_proto.h` and ISO/IEC 7816-4, and `ReaderLoop`, with the reader of `Emulator`, what passes
between the emulator thread and the card reader.

**The values** underneath: `Hex` (text codec, and the order of the registry, which compares hexadecimal
text), `OrderedMap` (the registry's `std::map` under that order) and `Magnitude` (byte strings as numbers,
bit length).

The step functions of `System` are definitions and have no contract of their own: `CommDo` is the loop of
`threadproc` with `new_client` below it (`src/bin/edna_comm.cpp:138-226` and `322-414`), `EmuDo` is
`transceive` and the two power passes (`436-563`), and `ClientDo` is the library between two frames
(`src/lib/edna_lib_export.cpp:195-409`). They share the decisions of `Protocol` with the classes.

What the source does not quite promise, and what the model found:

- The selection can outlive the connection it names (`src/bin/edna_comm.cpp:206-219` leaves
  `selected_application` alone). If a new client then gets the same descriptor number, a command meant for
  the old client reaches the new one, before it has sent a byte (`Recycling.CommandGoesAstray`).
  `Refinement.StepRefines` gives the exact condition: a step of the system is the step of the card it is
  meant to be unless it accepts a connection on the number still selected, or turns such a connection
  away. The field `reused` of a state says that the selection it holds is such a recycled one; it is
  cleared with the selection, and an answer notes it as it was when its call ended. A library client is
  *suspect* while its descriptor is the number of a selection made for another, from its acceptance until
  that selection is gone, and *misled* for good if the selection has brought it a command, has made the
  daemon close it, or was in a call when it was closed. A client is *clean* below if it uses the library and
  is not misled, and *trusted* if it is not suspect either. What is said of them holds whatever other
  clients do, also on runs where numbers are handed out again.
- `send_to_client` answers an oversize payload with `return -1` in a `bool` function
  (`src/bin/edna_comm.cpp:289`): it reports success and sends nothing. `CommThread` has this behaviour.
  The emulator cannot trigger it, because the reader's buffer has 512 bytes.
- A `read` that returns 0 inside a payload is not an error, and the receive loop makes no progress
  (`Framing.LoopEndsIff`). `Net` lets this happen only finitely often (`patience`), and lets `select` time
  out only finitely often (`quiet`), which is what makes the loops terminate; nothing else depends on it.
- `edna_lib_init` forgets a socket that was connected before it (`src/lib/edna_lib_export.cpp:64-66`), and
  nothing prevents that: `include/edna.h:121` has an error code for an uninitialised library, but
  `edna_lib_connect` does not check. `EdnaLib.ConnectThenInit` is the program that does it; a socket leaks
  if and only if the library is connected while uninitialised (`EdnaLib.EdnaLib.Init`).
- `edna_lib_disconnect` keeps the old number in `daemon_socket`
  (`src/lib/edna_lib_export.cpp:318-319`). A loop that is run afterwards closes that number although the
  library no longer holds it (`EdnaLib.DisconnectThenLoop`), if and only if it is not cancelled before it
  would read its first command (`EdnaLib.EdnaLib.LoopAndProcess`).
- `edna_lib_cancel` before the loop starts has no effect (`src/lib/edna_lib_export.cpp:331`), although
  `include/edna.h:83-94` promises that it ends the loop: `EdnaLib.CancelThenLoop` never returns ERV_OK. The
  loop returns ERV_OK if and only if a cancel arrives while it runs and before the connection fails
  (`EdnaLib.EdnaLib.LoopAndProcess`).
- An empty response APDU is, to the reader, another request for a command APDU
  (`Emulator.WireAmbiguity`).

## Model

| member | source | states |
|---|---|---|
| `Theorems.EndToEnd` | src/bin/edna_comm.cpp:436-506 | In every run, a completed `transceive` returned what the abstract card answers: 6f00 to a malformed SELECT, 6d00 with nothing selected, and otherwise the clean selected client's own response to that very APDU, given all it had processed; only a client that has left can make it fail, and a stale selection does, unless its number was recycled before the end of that call |
| `Theorems.AnswersMatchCalls` | src/bin/edna_comm.cpp:436-506 | In every run the answers recorded are, one by one and in order, those to the calls made, each judged against the card at its own call; only the last call can be still in hand |
| `Theorems.FailureCostsOne` | src/bin/edna_comm.cpp:460-496 | The call after a failed one is made with nothing selected |
| `Theorems.StaleCostsOne` | src/bin/edna_comm.cpp:460-496 | A call on a stale, not recycled selection fails, and the next one does not unless it selects an application itself |
| `Histories.HistoriesAreGiven` | src/lib/edna_lib_export.cpp:363-400 | In every run a clean client has processed, in order and once each, a first part of the power events and APDUs for which the daemon sent it something, and all but the pending one as long as it has not begun to leave; what it was sent is told from the power event or the call of `transceive` that the emulator thread is at, not from the frames |
| `Histories.ExchangeAddsOne` | src/bin/edna_comm.cpp:460-500 | Calls compose: when the response is read, the clean client behind it has processed what it had at the call and this APDU, once, and nothing else was ever sent to it |
| `Progress.CallCanEnd` | src/lib/edna_lib_export.cpp:350-408 | From every reachable state in which a call waits for a clean client that has not begun to leave, that client's own steps and one of the emulator thread complete the call with the client's response |
| `Progress.PassCanGoOn` | src/bin/edna_comm.cpp:526-534 | The same for a power pass: it goes on |
| `Progress.LeavingIsServed` | src/bin/edna_comm.cpp:197-224 | A trusted client that disconnects can be dropped at once by its DISCONNECT, and exactly its AID and descriptor go |
| `PowerPass.PassVisits` | src/bin/edna_comm.cpp:513-563 | From a power event to the end of its pass every AID is visited at most once, and one that is registered all the time exactly once, while clients come and go |
| `PowerPass.VisitSends` | src/bin/edna_comm.cpp:526-534 | Each visit of a pass sends the command of its event to the application registered then, unless that has closed its end |
| `PowerPass.RegistryOrder` | src/common/edna_bytestring.cpp:306-309 | The order in which the source walks the registry is a strict total order |
| `Traffic.EmuSends` | src/bin/edna_comm.cpp:460-534 | Each step of the emulator thread sends one command to one connection or nothing, and leaves what clients are doing alone |
| `Refinement.StepRefines` | src/bin/edna_comm.cpp:138-226 | A step does to the abstract card exactly its one operation (attach, install, remove, choose, deselect, evict, process, or nothing) if and only if it neither accepts a connection on the selected number nor turns one away |
| `Refinement.RunRefines` | src/bin/edna_comm.cpp:138-506 | A run is throughout the run of the abstract card, empty at first, that does the operations of its steps, if and only if none of the excepted steps occurs in it; as long as no selection was recycled none does |
| `Refinement.SlipsAreRecycled` | src/bin/edna_comm.cpp:168-177 | After an excepted step the selection is a recycled one |
| `Refinement.ClientRefines` | src/lib/edna_lib_export.cpp:333-409 | A client's step changes the card only by processing the command it is busy with |
| `Refinement.RemoveRefines` | src/bin/edna_comm.cpp:69-86 | Unregistering removes exactly that handler from the card, and makes a selection of it stale |
| `Refinement.EvictRefines` | src/bin/edna_comm.cpp:472-496 | A failed exchange removes exactly the selected handler and the selection |
| `Recycling.CommandGoesAstray` | src/bin/edna_comm.cpp:206-219 | There is a reachable state whose next step sends a TRANSCEIVE_APDU to a library client that has sent nothing, while nothing is registered |
| `Runs.StepKeeps` | src/bin/edna_comm.cpp:138-506 | Every step of every participant keeps the invariant of descriptors, registry, selection, connections in flight and recorded answers |
| `Runs.RunKeeps` | src/bin/edna_comm.cpp:138-506 | The invariant holds in every state of every run |
| `Runs.CommKeeps` | src/bin/edna_comm.cpp:138-226 | The communications thread keeps it, between any two steps of the emulator thread |
| `Runs.EmuKeeps` | src/bin/edna_comm.cpp:436-563 | So does the emulator thread |
| `ClientSteps.ClientKeeps` | src/lib/edna_lib_export.cpp:195-409 | So does every client, whether it uses the library or not |
| `Frames.CommUntouched` | src/bin/edna_comm.cpp:138-414 | The communications thread leaves the selection and the exchange in progress alone, and the registry too unless it inserts or drops a client |
| `Theorems.Lockstep` | src/bin/edna_comm.cpp:157-161 | Every registered trusted client that has not begun to leave is free of unanswered commands and unread responses whenever the mutex is free; while it is held exactly the awaited one has exactly one |
| `Theorems.ServesOnlyDisconnects` | src/bin/edna_comm.cpp:197-224 | What the communications thread reads from a registered trusted client is its DISCONNECT or the end of its stream, never a response, and the client is dropped |
| `Theorems.NoUnknownCommand` | src/lib/edna_lib_export.cpp:366-397 | A trusted client never meets an unknown command, and what it answers starts with EDNA_OK |
| `Theorems.ConnectedIsBound` | src/lib/edna_lib_export.cpp:280-302 | When `edna_lib_connect` has returned ERV_OK to a trusted client, the AID is bound to that very connection, or an insertion that cannot fail is next; the daemon never drops such a client |
| `Theorems.ConnectErrors` | src/lib/edna_lib_export.cpp:232-300 | For trusted clients, ERV_ALREADY_REGISTERED only for an AID the daemon found taken, ERV_DISCONNECTED only for an empty or oversize AID, no version mismatch; such clients are never registered |
| `Theorems.RegistrySteps` | src/bin/edna_comm.cpp:371-412 | First registration wins: a step leaves the registry, adds one absent non-empty AID, or removes the one entry of a descriptor it closed |
| `Theorems.UnregisterRemoves` | src/bin/edna_comm.cpp:69-86 | `unregister_by_socket` removes exactly one entry and closes exactly its descriptor, or does nothing |
| `Theorems.DescriptorsConserved` | src/bin/edna_comm.cpp:168-231 | In every state the open client descriptors are the registered ones and the one in the handshake, each registered once; nothing is closed twice, also when numbers are handed out again |
| `Theorems.SelectionIsLatest` | src/bin/edna_comm.cpp:416-434 | In every run `selected_application` is the descriptor that the latest matching SELECT found registered, unless a power event or a failed exchange came since |
| `Theorems.CommandsAreRouted` | src/bin/edna_comm.cpp:460-483 | A TRANSCEIVE_APDU frame reaches only the connection behind that descriptor, and carries the APDU of the call |
| `CommThread.CommThread.constructor` | src/bin/edna_comm.cpp:48-52 | An empty registry and no selection |
| `CommThread.CommThread.UnregisterBySocket` | src/bin/edna_comm.cpp:69-86 | Exactly the entries of that descriptor go, and it is closed once if it was registered |
| `CommThread.First` | src/bin/edna_comm.cpp:202-202 | The key at which a walk over some entries of the registry begins |
| `CommThread.CommThread.ServeReady` | src/bin/edna_comm.cpp:197-225 | The first reported connection in key order, and no other, is read; it is dropped at a DISCONNECT or when nothing can be read, and otherwise kept with the rest of its stream; nothing is written |
| `WireFormat.ServedBytes` | src/bin/edna_comm.cpp:206-219 | The connection read is dropped if its next frame begins with 03 or there is none, and on a reliable network only then |
| `CommThread.CommThread.Serve` | src/bin/edna_comm.cpp:138-226 | Any number of turns keeps the open descriptors equal to the registered ones, each under one AID that is not empty, and leaves the selection alone |
| `CommThread.CommThread.ThreadProc` | src/bin/edna_comm.cpp:138-231 | When the thread leaves, every connection has been closed, each once |
| `CommThread.CommThread.CloseAll` | src/bin/edna_comm.cpp:228-232 | Closes every registered descriptor once |
| `CommThread.CommThread.SendToClient` | src/bin/edna_comm.cpp:287-320 | A frame is appended whole when it reports success, except for an oversize payload, which it reports sent and drops |
| `CommThread.CommThread.NewClient` | src/bin/edna_comm.cpp:322-414 | For every byte stream a client may send: one absent, non-empty AID is bound to the socket after the whole handshake, or the registry is as it was and the socket closed; what is written is a first part of `Greeting`, and all of it on a reliable network |
| `WireFormat.OfferBytes` | src/bin/edna_comm.cpp:331-369 | A stream asks to register an AID exactly if it begins with 00 01 01 and a frame of 02 and that AID, which is not empty |
| `WireFormat.GreetingBytes` | src/bin/edna_comm.cpp:339-410 | What is written: nothing unless the stream begins with 00 01 01, then 00 01 01 alone if no registration follows, and 00 01 01 more for a taken AID or 00 01 00 for a free one |
| `WireFormat.NewClientBytes` | src/bin/edna_comm.cpp:322-414 | A client is registered only if its stream begins with the registration of a free AID, and then under that AID and with the rest of its stream unread; otherwise it is closed |
| `WireFormat.RegistrationBytes` | src/bin/edna_comm.cpp:322-414 | On a reliable network a client that sends a registration is registered exactly if the AID is free, and is told which |
| `CommThread.CommThread.RegisterClient` | src/bin/edna_comm.cpp:359-413 | The same for the registration half and `Verdict` |
| `CommThread.CommThread.SelectByAid` | src/bin/edna_comm.cpp:416-434 | Selects the descriptor of a registered AID, otherwise leaves the selection |
| `CommThread.CommThread.Transceive` | src/bin/edna_comm.cpp:436-506 | The three outcomes, with the whole new state: fixed status words without traffic, one exchange on the routed descriptor, or the unregistering and deselecting of that descriptor |
| `WireFormat.SelectBytes` | src/bin/edna_comm.cpp:443-455 | An APDU is a SELECT by AID exactly if it begins with 00 A4 04, malformed exactly if it then has fewer than five bytes, and otherwise names the bytes behind the fifth, as many as that says and are there |
| `WireFormat.RouteBytes` | src/bin/edna_comm.cpp:416-458 | Only a SELECT of a registered AID changes the selection; every other APDU, SELECTs of unknown AIDs included, goes where the one before went |
| `WireFormat.TransceiveBytes` | src/bin/edna_comm.cpp:436-506 | In bytes: a malformed SELECT gives 6f00 and no application 6d00 without traffic; otherwise that application, and nobody else, is sent a frame with 03 and the unchanged APDU, and the result is what follows 00 in its frame |
| `WireFormat.OthersForwarded` | src/bin/edna_comm.cpp:443-483 | Every APDU that does not begin with 00 A4 04 goes unchanged to the application selected before |
| `CommThread.CommThread.Exchange` | src/bin/edna_comm.cpp:462-500 | One frame written and one read, on that descriptor only; success means a response starting with EDNA_OK, whose rest is returned |
| `CommThread.CommThread.PowerOne` | src/bin/edna_comm.cpp:526-534 | One application is sent a first part of the command frame, on a reliable network all of it, after which its response is read; no other stream changes |
| `CommThread.CommThread.PowerEvent` | src/bin/edna_comm.cpp:513-563 | Nothing is selected afterwards; every registered application, and nobody else, was sent the command once and its response read; on an unreliable network perhaps only a first part of it |
| `WireHandshake.HandshakeOnTheWire` | src/bin/edna_comm.cpp:322-414 | In every part of every run in which `new_client` runs to its end, with any steps of its client and of others in between, it does to the byte streams, the registry and the descriptors what `NewClient` does for that stream; reliably so if the client does not close its end before, and otherwise as on an unreliable network |
| `WireHandshake.LibraryStream` | src/lib/edna_lib_export.cpp:228-302 | All that a clean library client writes during its handshake, if it does not leave, is the byte stream of `ClientHandshake` |
| `WireHandshake.LibraryHandshake` | src/bin/edna_comm.cpp:322-414 | The handshake of such a client registers it if and only if its AID is neither empty nor taken, and writes the whole greeting |
| `WireCall.CallOnTheWire` | src/bin/edna_comm.cpp:436-506 | In every part of every run that is one call of `transceive`, with any steps of clients in between, it does to the byte streams, the registry, the selection and the descriptors what `Transceive` does, with the same result; reliably so if the application's client does not close its end before |
| `LibrarySteps.ConnectsLike` | src/lib/edna_lib_export.cpp:228-302 | The client steps of the machine connect as the library does: the same result for whatever the daemon answers, and the same bytes written |
| `LibrarySteps.AnswersLike` | src/lib/edna_lib_export.cpp:350-408 | And they answer a command as its event loop does |
| `OnTheWire.PartOf` | src/bin/edna_comm.cpp:138-506 | Every part of every run can be read as byte streams |
| `OnTheWire.ClientStreams` | src/lib/edna_lib_export.cpp:91-193 | A client's step changes nothing of what the daemon has still to read or has written, seen from the end of the part |
| `OnTheWire.WroteStreams` | src/bin/edna_comm.cpp:287-320 | A message the daemon writes is one frame at the end of one stream |
| `OnTheWire.ReadStreams` | src/bin/edna_comm.cpp:241-285 | A message the daemon reads is the frame at the head of one stream |
| `Protocol.ParseInvertsBuild` | src/bin/edna_comm.cpp:443-458 | Parsing inverts building a SELECT of section 7.1.1 of ISO/IEC 7816-4, for every P2 and anything that follows |
| `Protocol.SelectableAids` | src/bin/edna_comm.cpp:454-457 | Some APDU selects an AID if and only if it has at most 255 bytes |
| `Protocol.BuiltSelectRoutes` | src/bin/edna_comm.cpp:443-458 | The SELECT of a registered AID routes to its application, whatever was selected |
| `Protocol.LongAidsUnselectable` | src/bin/edna_comm.cpp:443-458 | An application registered under a longer AID is never newly selected |
| `Protocol.ExchangeRoundTrip` | src/lib/edna_lib_export.cpp:376-393 | What a callback answers to an APDU is what the daemon hands on |
| `Protocol.RequestedAidOf` | src/lib/edna_lib_export.cpp:264-268 | The registration request of the library carries its AID, and is refused exactly when that is empty |
| `Framing.UnframeFrame` | src/bin/edna_comm.cpp:241-320 | Receiving a frame gives back what was sent and leaves what follows |
| `WireFormat.FrameBytes` | src/bin/edna_comm.cpp:241-320 | A frame is the length, high byte first, and the payload, and nothing else is received as one |
| `Framing.FrameUnframe` | src/bin/edna_comm.cpp:241-285 | And what is received is what was framed |
| `Framing.WireRoundTrip` | src/bin/edna_comm.cpp:241-320 | Any messages, framed and concatenated, are decoded to the same messages with no byte left over |
| `Framing.DecodeAllRoundTrip` | src/lib/edna_lib_export.cpp:134-193 | Every stream is the frames decoded from it and a rest that holds no complete frame |
| `Framing.SendAppends` | src/lib/edna_lib_export.cpp:91-132 | Sending a frame appends its message to the queue a stream carries |
| `Framing.ReceiveTakesHead` | src/lib/edna_lib_export.cpp:134-193 | Receiving takes the head of that queue, and fails only when it is empty |
| `Framing.FillAllIsConcat` | src/bin/edna_comm.cpp:269-282 | However reads are cut up, filled and missing bytes add up to the declared length, within 16 bits, and the buffer holds what was read |
| `Framing.LoopEndsIff` | src/bin/edna_comm.cpp:269-282 | The loop ends exactly when the declared number of bytes was delivered; reads of nothing make no progress |
| `Transport.ReceiveFrame` | src/bin/edna_comm.cpp:241-285 | Success means one frame was taken from the stream; on a reliable network it fails only if there is none |
| `Transport.ReceivePayload` | src/lib/edna_lib_export.cpp:172-190 | The same for the payload loop, with its buffer and 16-bit counter |
| `Transport.SendFrame` | src/bin/edna_comm.cpp:295-319 | Success means exactly the frame was written; on failure at most something on that socket |
| `Agreement.OfferOfHandshake` | src/lib/edna_lib_export.cpp:228-278 | What the library writes is read by the daemon as an offer of that AID |
| `Agreement.HandshakeAgrees` | src/bin/edna_comm.cpp:322-414 | Library against daemon: ERV_OK for an absent non-empty AID, ERV_ALREADY_REGISTERED for one present, ERV_DISCONNECTED for an empty one |
| `Agreement.OversizeAidDisconnects` | src/lib/edna_lib_export.cpp:264-278 | An oversize AID gives ERV_DISCONNECTED |
| `Agreement.SessionAgrees` | src/lib/edna_lib_export.cpp:333-409 | Over the wire, for any session of power events and APDUs: the i-th response the daemon decodes is 00, followed for an APDU by the application's response to it given all before it, nothing is left over, and the application has processed exactly the session |
| `EdnaLib.RepliesOneToOne` | src/lib/edna_lib_export.cpp:363-400 | One response per command, the i-th to the i-th, each given what was processed before |
| `EdnaLib.EdnaLib.constructor` | src/lib/edna_lib_export.cpp:47-55 | The state before any call: nothing initialised, connected or held |
| `EdnaLib.EdnaLib.Init` | src/lib/edna_lib_export.cpp:57-69 | Leaks a socket if and only if the library was connected while uninitialised |
| `EdnaLib.EdnaLib.Uninit` | src/lib/edna_lib_export.cpp:71-89 | Closes the one socket held, if any |
| `EdnaLib.EdnaLib.SendToDaemon` | src/lib/edna_lib_export.cpp:91-132 | Sent whole, refused with nothing done, or the connection is closed and the library unconnected |
| `EdnaLib.EdnaLib.RecvFromDaemon` | src/lib/edna_lib_export.cpp:134-193 | One frame, or the connection is closed and the library unconnected |
| `EdnaLib.EdnaLib.Connect` | src/lib/edna_lib_export.cpp:195-303 | Connected afterwards exactly if it returns ERV_OK; otherwise no socket is held, despite the closes at every level |
| `EdnaLib.EdnaLib.Negotiate` | src/lib/edna_lib_export.cpp:228-302 | The result is `ConnectResult` of what the daemon sends: ERV_OK only if its first message is exactly 01 and the second exactly 00, ERV_VERSION_MISMATCH only if the first is another one (on a reliable network always then), and in that case nothing but the version request was written |
| `WireFormat.ConnectBytes` | src/lib/edna_lib_export.cpp:228-302 | ERV_OK exactly for a stream that begins with 00 01 01 00 01 00 and an AID that fits, ERV_VERSION_MISMATCH exactly for another first frame, ERV_ALREADY_REGISTERED exactly for another second one |
| `EdnaLib.EdnaLib.Disconnect` | src/lib/edna_lib_export.cpp:305-322 | The socket is closed once, whether or not DISCONNECT, the bytes 00 01 03, could be sent |
| `EdnaLib.EdnaLib.Wait` | src/lib/edna_lib_export.cpp:337-346 | Returns only when something can be read or the loop is cancelled, and cancels it exactly if a cancel arrives during the wait |
| `EdnaLib.EdnaLib.Round` | src/lib/edna_lib_export.cpp:333-409 | One round stops exactly if a cancel arrives while it waits, and otherwise answers one command or loses the connection; a cancel during the command does not interrupt it |
| `EdnaLib.LoopOutcome` | src/lib/edna_lib_export.cpp:333-414 | How many commands a stream holds and when the cancel arrives settle the loop's result |
| `EdnaLib.EdnaLib.AnswerOne` | src/lib/edna_lib_export.cpp:350-408 | One command is taken and answered, or the connection is closed: 01 calls the power-up callback, 02 the power-down callback and 03 the callback for APDUs with the bytes behind it, each answered 00 (and the response); anything else is answered 02 and calls nothing |
| `EdnaLib.EdnaLib.LoopAndProcess` | src/lib/edna_lib_export.cpp:331-414 | ERV_OK if and only if a cancel arrives while the loop runs and before the connection fails, with exactly the commands up to the one in progress answered, once and in order, and the connection up; on a reliable network the result is `LoopResult` of the stream and the arrival, whatever `edna_lib_must_cancel` was before; ERV_DISCONNECTED leaves the library unconnected, after answering every command before the one it failed at; a foreign number is closed if and only if the library was not connected and no cancel came before the first command |
| `EdnaLib.CancelThenLoop` | src/lib/edna_lib_export.cpp:331-331 | A cancel before the loop is lost: without another one the loop never returns ERV_OK |
| `EdnaLib.ConnectThenInit` | src/lib/edna_lib_export.cpp:57-69 | A program that connects and then initialises leaks exactly a successful connection |
| `EdnaLib.DisconnectThenLoop` | src/lib/edna_lib_export.cpp:305-361 | A program that disconnects and then runs the loop closes a number it does not hold unless it cancels before the first command |
| `EdnaLib.AnyProgram` | src/lib/edna_lib_export.cpp:57-419 | Any sequence of calls, under any AIDs, that connects only while initialised and loops only while connected holds one socket exactly while connected, and closes none twice |
| `Emulator.Emulator.HandleEvent` | src/bin/edna_emu.cpp:194-315 | Each event is answered as the reader expects, or the run stops |
| `Emulator.Emulator.Turn` | src/bin/edna_emu.cpp:173-315 | One round of the loop leaves the emulation listening, stopping at a cancel, or stuck at a failure of the reader |
| `Emulator.Emulator.Run` | src/bin/edna_emu.cpp:162-325 | Every run against any reader, while the other thread takes turns between any two calls into it, keeps the daemon's descriptors; its actions are one of the sequences that `StageOf` admits, to its end, the bytes given to the reader are those of its commands, and every exchange and power event in it is the one the daemon made (`Follows`), on the state the last one and the turns in between left, which keep the selection and exactly the registered descriptors open |
| `Emulator.ActionsAreDone` | src/bin/edna_emu.cpp:274-286 | Every exchange in such a history is the outcome of `transceive` on the daemon's state, and every power event that of its pass |
| `Emulator.ReaderObeys` | src/bin/edna_emu.cpp:147-170 | A reader that decodes the bytes it is given by itself emulates, after every part of every run, exactly when the latest mode command that succeeded says so, holds the configured ATQ (high byte first) and SAK from then on, is silent, and has got the answers |
| `ReaderLoop.Entering` | src/bin/edna_emu.cpp:162-176 | In bytes: 58 8D E3 with ATQ and SAK, then 58 8D CC 00, then 83 10 01 00, each after the one before was taken, then 83 00 00 64; after 83 10 00 00 the same again or nothing |
| `ReaderLoop.EventAnswered` | src/bin/edna_emu.cpp:194-230 | The second byte of an event report decides what comes next: 01 a power-up, 04 a power-down, after which emulation is ended if an application was selected, 02 the fetching of an APDU, anything else nothing |
| `ReaderLoop.ApduAnswered` | src/bin/edna_emu.cpp:231-308 | A fetched APDU is exchanged without its status byte, unless that is one of six; the next bytes to the reader are 84 and the response, or 84 6f 00 if the exchange failed |
| `ReaderLoop.AnswerDelayed` | src/bin/edna_emu.cpp:288-296 | There is a delay between an exchange and its answer exactly if one is configured and, when only successes are delayed, the answer ends in 9000 |
| `ReaderLoop.PowerOnSockets` | src/bin/edna_comm.cpp:513-563 | At a power-up every registered application, and nobody else, is sent the bytes 00 01 01, at a power-down 00 01 02 |
| `Emulator.ReaderMode` | src/bin/edna_emu.cpp:162-230 | In every such sequence the bytes given to the reader fit the mode it is in, and those that start emulation come right after ATQ, SAK and silence were set, while the reader holds the configured ones |
| `Emulator.RunEnds` | src/bin/edna_emu.cpp:162-325 | A finished run leaves emulation off unless the command that ends it failed, and its retrieved APDUs, exchanges and answers correspond one to one and in order |
| `Emulator.ApdusConserved` | src/bin/edna_emu.cpp:231-311 | At every moment the retrieved APDUs are, in order, those exchanged and the one in hand; the answers of the exchanges are, in order, those sent and the one in hand |
| `Emulator.WireAmbiguity` | src/bin/edna_emu.cpp:148-151 | Different commands differ on the wire, except that an empty response APDU is a request for a command APDU |
| `Emulator.Emulator.TransceiveControl` | src/bin/edna_emu.cpp:68-87 | The reader is given exactly the bytes of the command, and may answer anything that fits its buffer or fail; `Emulator.ReaderObeys` and `ReaderLoop` say what the bytes mean |
| `Emulator.Emulator.EnterEmulation` | src/bin/edna_emu.cpp:162-170 | ATQ and SAK, buzzer, emulation, in this order, up to the first command that fails |
| `Emulator.Emulator.Poll` | src/bin/edna_emu.cpp:176-192 | Waits until there is an event, the reader fails or somebody cancels |
| `Emulator.Emulator.Select` | src/bin/edna_emu.cpp:196-202 | Powers up every application |
| `Emulator.Emulator.Deselect` | src/bin/edna_emu.cpp:203-230 | Powers down every application, and resets the emulation exactly if one was selected |
| `Emulator.Emulator.AnswerApdu` | src/bin/edna_emu.cpp:231-311 | One APDU is asked for; if the reader has one it is exchanged, and the outcome of that exchange is the last thing given to the reader; otherwise nothing else is done |
| `Emulator.Emulator.HandleApdu` | src/bin/edna_emu.cpp:266-308 | The APDU in hand is exchanged and its outcome given to the reader |
| `Emulator.Emulator.ExchangeApdu` | src/bin/edna_emu.cpp:274-286 | The exchange noted is the one `transceive` made, and the answer is its result, or 6f00 if it failed |
| `Emulator.Emulator.Respond` | src/bin/edna_emu.cpp:288-308 | The answer is delayed exactly as configured, then sent |
| `Emulator.Emulator.Pause` | src/bin/edna_emu.cpp:288-296 | There is a delay exactly if one is configured and, when only successes are delayed, the answer ends in 9000 |
| `ByteString.DelayTest` | src/bin/edna_emu.cpp:290-290 | The test on the end of a response holds exactly if it ends in 9000, also for fewer than two bytes |
| `Bytes.SubstrIsTail` | src/common/edna_bytestring.cpp:147-159 | `substr(start)` is the tail, in bounds for every start |
| `Hex.ParseInvertsPrint` | src/common/edna_bytestring.cpp:205-218 | Parsing `hex_str()` gives the bytes back |
| `Hex.PrintInvertsParse` | src/common/edna_bytestring.cpp:53-72 | Printing a parsed text gives it back in upper case, behind a 0 if its length is odd |
| `Hex.ByteOfIsStrtoul` | src/common/edna_bytestring.cpp:62-71 | Any two characters, hexadecimal or not, give the byte that `strtoul` would |
| `Hex.TextOrderIsByteOrder` | src/common/edna_bytestring.cpp:306-309 | Comparing the text is comparing the bytes lexicographically |
| `Hex.LessTotal` | src/common/edna_bytestring.cpp:286-309 | The order is asymmetric and total, and equivalence under it is `operator==` |
| `Hex.LessTransitive` | src/common/edna_bytestring.cpp:306-309 | And transitive |
| `Hex.LessIsLexicographic` | src/common/edna_bytestring.cpp:306-309 | A string comes before its extensions, and otherwise the first byte that differs decides |
| `OrderedMap.LookupIsMap` | src/bin/edna_comm.cpp:383-383 | A lookup by this order in ordered nodes is a lookup in a map keyed by bytes |
| `OrderedMap.AssignIsUpdate` | src/bin/edna_comm.cpp:412-412 | Assigning to a key keeps the nodes ordered and is map update |
| `OrderedMap.EraseIsRemoval` | src/bin/edna_comm.cpp:81-81 | Erasing a node keeps the others ordered and removes exactly its key |
| `Magnitude.OrderIsNumeric` | src/common/edna_bytestring.cpp:306-309 | On strings of one length the order is that of the numbers, which determine the strings |
| `Magnitude.LeadingByte` | src/common/edna_bytestring.cpp:247-262 | The leading nonzero byte fixes the power of two that bounds the number |
| `Magnitude.LengthBetween` | src/common/edna_bytestring.cpp:241-265 | The powers of two around a number tell its length in bits |
| `ByteString.ByteString.FromHex` | src/common/edna_bytestring.cpp:53-72 | The loop computes `ParseHex`, on any text, hexadecimal or not |
| `ByteString.ByteString.FromLong` | src/common/edna_bytestring.cpp:74-99 | Eight bytes that denote the integer |
| `ByteString.ByteString.Bits` | src/common/edna_bytestring.cpp:241-265 | The length in bits of the number the string denotes |
| `ByteString.CompareLongs` | src/common/edna_bytestring.cpp:74-99 | Strings made from 64-bit integers compare as the integers do, and `bits` of one is the integer's length in bits |
| `ByteString.ByteString.ScanByte` | src/common/edna_bytestring.cpp:249-261 | The inner loop finds the bit length of one byte |
| `ByteString.ByteString.ToHex` | src/common/edna_bytestring.cpp:205-218 | The loop computes `HexStr` |
| `ByteString.ByteString.LessThan` | src/common/edna_bytestring.cpp:306-309 | True exactly if the bytes are lexicographically less |
| `ByteString.ByteString.Append` | src/common/edna_bytestring.cpp:107-118 | Concatenation, also of a string with itself |
| `ByteString.ByteString.AppendShort` | src/common/edna_bytestring.cpp:127-131 | Two bytes, most significant first |
| `ByteString.ByteString.XorAssign` | src/common/edna_bytestring.cpp:134-144 | The common prefix is combined and the rest stays, also with itself |
| `ByteString.XorTwice` | src/common/edna_bytestring.cpp:134-144 | Xor with itself gives zeroes, with the same string twice the original |
| `ByteString.XorByteBits` | src/common/edna_bytestring.cpp:140-140 | A bit of the result is one exactly where the bits of the operands differ |
| `ByteString.XorOf` | src/common/edna_bytestring.cpp:317-328 | `operator^`, with both operands unchanged |
| `ByteString.ByteString.Split` | src/common/edna_bytestring.cpp:221-238 | The part cut off, of the length asked for if there is as much, is returned and the rest remains |
| `ByteString.ChunksConserve` | src/common/edna_bytestring.cpp:221-238 | Repeated splits with any lengths lose and reorder nothing |
| `ByteString.ByteString.Wipe` | src/common/edna_bytestring.cpp:278-283 | A string of zeroes of the new size |

## Left out

- Atomicity: in `System` a frame read, a frame write, a registry operation and a `select` call are one step each, the `find` and the subscript of `select_by_aid` are one step, and so are the AID_EXISTS answer and the close after it. The mutex does not cover registry updates in the source, so data races and invalidated iterators are outside the model.
- Reads and writes in `System` fail only because the other end is gone; `Net` adds arbitrary failures for the sequential classes.
- The classes are sequential: in `Emulator` the other thread takes its turns between the emulator thread's calls into it, not during them. Interleaving at every step is in `System`.
- CommThread.CommThread.ThreadProc: `rounds` bounds a run, as do `rounds` in `Emulator.Emulator.Run` and `calls` in `EdnaLib.AnyProgram`; each may be any number, so every finite run is covered, and endless ones are not.
- Theorems.EndToEnd: does not say that a call returns; a client outside its event loop can keep it waiting for ever. That it can return is `Progress.CallCanEnd`.
- CommThread.CommThread.PowerEvent: walks in key order, but streams of different sockets have no common order that could show it; `PowerPass` has the order of visits.
- WireHandshake.HandshakeOnTheWire: a part of a run in which the emulator thread does nothing, as `WireCall.CallOnTheWire` is about one in which the communications thread does nothing; the class is sequential, and interleaved steps of both threads are in the results about `System` alone.
- Emulator.Emulator.TransceiveControl: event reports have at least two bytes. The `continue` at `src/bin/edna_emu.cpp:188` evaluates the loop condition on shorter ones as well.
- ByteString.ByteString.FromHex: `strtoul` as in the C locale, and text without a zero character, which would end a C string.
- ByteString.ByteString.AppendShort: the effect only; the source lacks the return statement.
- EdnaLib.EdnaLib.LoopAndProcess: callbacks are given, and honour the 512-byte buffer; the ERV_PARAM_INVALID branch for missing ones is not modelled. Only the first cancel of a run is noted, as later ones change nothing.
- The listening socket, socket paths, `select` time-outs, errno, signals, sleeping, the PC/SC context and its release, threads and the mutex wrapper.
- `src/bin/edna_config.cpp`, `src/bin/edna_log.cpp`, `src/bin/edna_main.cpp` and the sample client: configuration, logging and start-up.
- Selection by partial AID (section 7.1.1 of ISO/IEC 7816-4), which the source does not implement.

# zimodem host layer: a verified model

A Dafny model of the native host layer that runs the zimodem firmware in a process, of the Arduino
compatibility code under it, and of two byte-stream tools beside it. `dafny verify dfyconfig.toml`
checks the whole project.

## How the code is modelled

**Instance lifecycle and callbacks** (`HostModel.dfy` and the other `Host*.dfy` files). A state is
the process-global singleton pointer and HAL callback slots, the HAL queues, pins and line settings,
every mutex with its owner, the fields of every allocated instance, and one stack of activations per
thread. `HostModel.Exec` is one step of one thread: a mutex acquisition, a critical section with its
release, an access to an atomic, or one call or return. Any number of host threads and instances'
workers interleave; setup(), loop() and the host's own callbacks choose freely among the calls open
to them. `HostModel.Step` and `IsRun` give the runs, and every theorem is about every state of every
run. The mapping to the source is:

- `StepCreate` (and `StepCreateCall`, for a create called from a callback), `StepStart`, `StepDestroy`,
  `StepRegister`, `StepWorker` - native/wrapper/src/zimodem_host.cpp lines 137-184, 204-214, 271-294, 186-202,
  96-134;
- `StepClosure` - the lambdas create installs, lines 156-180, and `zimodem_instance::log`, lines 33-38;
- `StepNotify`, `StepLeaf` - native/hal/src/serial_port.cpp lines 32-136, native/hal/src/pins.cpp lines
  16-42, native/hal/src/log.cpp lines 21-30.

The invariant is proved in four layers: who holds which mutex (`HostLocks`), where the singleton, the
slots and the workers stand (`HostLifecycle`), which registration the running callbacks belong to
(`HostCallbacks`), and the counts of starts, setup() and loop() calls (`HostWorker`). `HostInvariant`
joins them; `HostSafety`, `HostDeadlock`, `HostSelfLock`, `HostLoops`, `HostDelivery`, `HostBytes`,
`HostLeftovers`, `HostLines` and `HostPins` draw the conclusions (`HostRuns` builds the
runs that some of them exhibit, `HostSteps` says which steps leave queues, settings and pins alone). `Delivery`,
`InputFeed` and `Pins` follow the data of the two queues and of the pins, one step per byte where the
code has a loop, under every interleaving; `SerialPort`, `ReadBytes` and `Pins.PinTable` are the same
routines as classes, method against specification.

**Sockets.** `TcpSocket` has the source's classes over a `Kernel` whose every answer is its own choice.
`Handles` is the ownership of OS handles over all sequences of operations of all wrappers, using the
functions the class methods are proved against; `TcpStream` is the byte stream of one connection.
`TlsSocket` and `TlsStream` do the same for the TLS client over an engine that answers as it likes.

**String, itoa and the transducers** (`WString`, `Itoa`, `LineEndings`, `ConsoleInput`) are methods with
the source's loops, each proved equal to a function about which the laws are proved.

Assumptions: sequentially consistent memory; no call on a handle overlaps or follows its destroy, and no
destroy is made from a callback (native/wrapper/include/zimodem_host.h:96-98); clocks are natural numbers
that never run back, and a sleep lasts at least its argument; sizes stay below 2^31; arguments of
`replace` do not alias the string being changed; network start-up and allocation succeed.

## What came out

- Deadlock freedom holds exactly as far as callbacks keep off their own mutex. The only waiting cycle any
  host can cause is a thread waiting for a mutex it holds (`HostDeadlock.WaitingCycleIff`), and the only
  calls that do it are set_callbacks, and set_pin with a value that changes the pin, from a serial-out,
  signal or log callback (`HostDeadlock.LockedCallBlocksIff`); then it lasts for ever
  (`HostDeadlock.SelfBlockedForever`). managed/ZiModem.Net/ZiModemDevice.cs:102-118 calls SetPin safe from
  within an event handler; `HostSelfLock.LaxClientDeadlocks` is a complete run in which it is not.
- A hard recv error behind a pushed-back byte loses that byte (`TcpStream.ReadIsPrefixIff`).
- A TlsSocket is good for one session: close() sets the fatal flag and connect() never clears it. A
  successful connect() is usable if and only if nothing has ended a session of the object before
  (`TlsStream.ConnectUsableIff`); `TlsStream.ReconnectFails` is the run connect, close, connect.
- native/hal/include/zimodem_hal/tls.h:47-49 says a failed connect leaves the object closed. Its TCP socket
  is (`TlsSocket.TlsSocket.Connect`); the handshake flag is not cleared, and stays set exactly when an
  earlier session was never closed (`TlsStream.FailedConnectIff`).
- "The receive queue starts empty" holds for the first instance of a process (`HostBytes.FirstFindsInitial`);
  a later one finds it empty if and only if everything queued before has been taken
  (`HostBytes.CreatedFindsEmptyIff`), and `HostLeftovers.SecondFindsBytes` is a run in which it has not.
- Pin events follow the writes exactly as far as each pin has one writing thread
  (`Pins.EdgesIffOneWriter`).
- The repository's design document for the native wrapper, in its section on the virtual serial port, still
  has a serial-out callback with data as its arguments. The code sends a wake-up without payload, and the model follows the code.

## Model

| member | source | states |
|---|---|---|
| HostInvariant.Preserved | native/wrapper/src/zimodem_host.cpp:96-294 | every step of every thread keeps the four-layer invariant for every thread |
| HostInvariant.Invariant | native/wrapper/src/zimodem_host.cpp:96-294 | the invariant holds in every state of every run, any number of threads and instances |
| HostSafety.NoFault | native/wrapper/src/zimodem_host.cpp:156-180 | in no reachable state can a thread's step touch an instance that has been deleted, or a create called from a callback find no instance active |
| HostSafety.NoDangling | native/wrapper/src/zimodem_host.cpp:144-183 | slots and callback copies in flight name allocated instances; outside create's critical section a non-null slot names the active instance |
| HostSafety.DestroyClearsItsOwn | native/wrapper/src/zimodem_host.cpp:281-290 | each slot a destroy clears, and the active pointer it resets, is its own instance's, never a newer one's |
| HostSafety.RegistrationsWhole | native/wrapper/src/zimodem_host.cpp:33-38 | every running callback has function and context from one registration; serial-out, signal and log callbacks run under the callback mutex with the newest registration |
| HostSafety.RegistrationComplete | native/wrapper/src/zimodem_host.cpp:193-202 | when set_callbacks gives its mutex back the instance has exactly the callbacks it was given, all of this registration, and its context |
| HostSafety.NotifyCallsIff | native/hal/src/serial_port.cpp:63-127 | from its critical section a HAL routine goes on to call the active instance's closure if and only if bytes were written, the pin or the settings changed, or a message was logged; otherwise it returns |
| HostSafety.ClosureCallsIffRegistered | native/wrapper/src/zimodem_host.cpp:156-180 | a closure past its lock calls the registered callback, with function and context of that moment (line-config after giving the mutex back), if and only if one is registered; otherwise it returns |
| HostSafety.ReplacementIsClean | native/wrapper/src/zimodem_host.cpp:186-202 | after a registration no older serial-out, signal or log callback runs or starts; the only older line-config calls are those already snapshotted, and their set only shrinks |
| HostSafety.WorkerProtocol | native/wrapper/src/zimodem_host.cpp:96-134 | at most one start succeeds, setup() begins at most once and before any loop(), at most one loop() begins after destroy clears `running` |
| HostSafety.LoopBegins | native/wrapper/src/zimodem_host.cpp:115-134 | a loop() begins only in the instance's worker, after setup(), never after an exception, and not a second time after destroy cleared `running` |
| HostSafety.WorkerLeavesOnlyIf | native/wrapper/src/zimodem_host.cpp:115-134 | a worker that has ended or is on its way out had `running` cleared by destroy or saw an exception; once ended, `running` is reset |
| HostSafety.LoopContinuesIff | native/wrapper/src/zimodem_host.cpp:115-119 | at its check of `running` the worker goes on to begin a loop() if and only if destroy has not cleared it |
| HostLoops.LoopRuns | native/wrapper/src/zimodem_host.cpp:96-134 | a complete run in which a loop() has begun, with no destroy and no exception |
| HostLoops.LineCallbackRuns | native/wrapper/src/zimodem_host.cpp:166-179 | a complete run in which loop() has changed the line settings and the host's line-config callback is running with no mutex held |
| HostLoops.ThrowIsLogged | native/wrapper/src/zimodem_host.cpp:121-130 | a complete run in which loop() has thrown and the host's log callback is running under the callback mutex |
| HostSafety.DestroyedStaysDestroyed | native/wrapper/src/zimodem_host.cpp:271-294 | after destroy returns no thread is ever the instance's worker again, so no loop() follows |
| HostDeadlock.WaitingDescends | native/wrapper/src/zimodem_host.cpp:144-180 | whatever callbacks call, a thread waits only for threads of lower height (HAL mutexes below the singleton mutex below callback mutexes, join above all) or for one that waits for itself |
| HostDeadlock.WaitingCycleIff | native/wrapper/src/zimodem_host.cpp:144-180 | whatever callbacks call, in every reachable state, some chain of waiting threads of any length returns to its start if and only if some thread waits for a mutex it holds |
| HostDeadlock.SelfBlockedIff | native/wrapper/src/zimodem_host.cpp:156-202 | in every reachable state a thread waits for a mutex it holds if and only if it is in set_callbacks, or in the signal closure of a set_pin, called from a callback that runs under the callback mutex |
| HostDeadlock.LockedCallBlocksIff | native/wrapper/src/zimodem_host.cpp:156-202 | a call from a callback under the callback mutex comes to wait for that mutex if and only if it is set_callbacks, or set_pin with a value that changes the pin |
| HostDeadlock.WaitChain | native/wrapper/src/zimodem_host.cpp:144-180 | whatever callbacks call, from any thread inside the library and any running worker, the chain of whom it waits for ends at a thread that can step if and only if that one does not wait for itself |
| HostDeadlock.NoWaitingCycle | native/wrapper/src/zimodem_host.cpp:144-180 | when locked callbacks call neither set_pin nor set_callbacks (create, start and the queue and settings calls are theirs), no chain of waiting threads of any length returns to its start |
| HostDeadlock.NoDeadlock | native/hal/src/serial_port.cpp:63-75 | with such callbacks, whoever a thread inside the library or a running worker waits for in the end can step |
| HostDeadlock.SelfBlockedForever | native/wrapper/src/zimodem_host.cpp:161-165 | once a thread waits for a mutex it holds, at every later point of the run it is where it was, still waiting for it |
| HostSelfLock.LaxClientDeadlocks | native/wrapper/src/zimodem_host.cpp:161-165 | a complete run - create, set_callbacks, set_pin, and a signal handler calling set_pin - ends where no thread can move |
| HostBytes.RxAccount | native/hal/src/serial_port.cpp:63-91 | in every run, over any number of instances, workers and readers: what the receive queue held first, then everything written, is everything taken, then what the queue holds |
| HostLines.LineEventsAreEdges | native/hal/src/serial_port.cpp:98-127 | in every run, across instances: the settings in force are the last that begin() asked for, and the line-config calls, with the one about to be made, are what was asked for with repeats removed |
| HostBytes.InputAccount | native/hal/src/serial_port.cpp:32-53 | in every run, what the sketch has read and has still to read is a concatenation of whole write_serial payloads, in the order of the calls |
| HostBytes.CreatedFindsEmptyIff | native/wrapper/src/zimodem_host.cpp:137-184 | the instance a create publishes finds an empty receive queue if and only if everything queued before it, by whatever instance, has been taken |
| HostBytes.FirstFindsInitial | native/hal/src/serial_port.cpp:10-18 | until a first instance is allocated, queues and settings are what the process began with |
| HostBytes.AllTaken | managed/ZiModem.Net/ZiModemDevice.cs:137-152 | with draining handlers registered before start, whenever no worker is between a push and its handler's return, what was taken is what was written |
| HostLeftovers.SecondFindsBytes | native/wrapper/src/zimodem_host.cpp:271-294 | a complete run - create, start, a write in setup(), destroy, create - whose second instance finds the first one's byte |
| HostDelivery.EmptyStep | native/hal/src/serial_port.cpp:63-91 | while a serial-out handler runs, no step of any thread fills an empty receive queue, so what the handler saw stays true until it returns |
| HostDelivery.NoLostWakeup | native/wrapper/src/zimodem_host.cpp:156-160 | on runs of the whole protocol, with a handler registered by the time of start and in every later registration, each returning only after finding the queue empty: bytes in the queue mean that a worker is between its push and the return of the handler |
| Delivery.Invariant | native/hal/src/serial_port.cpp:63-91 | the delivery invariant holds in every state under every interleaving of the worker with other readers |
| Delivery.NoLostWakeup | native/hal/src/serial_port.cpp:63-91 | once a byte was written, a non-empty queue means the worker is between its push and the end of its drain |
| Delivery.LeftoversOnly | native/hal/src/serial_port.cpp:10-12 | outside a drain the queue holds nothing but what was there before anything was written |
| Delivery.ExactDelivery | managed/ZiModem.Net/ZiModemDevice.cs:137-152 | each byte written goes to exactly one taker, in order, none invented; the handler raises exactly what it dequeued |
| Delivery.SoleHandler | managed/ZiModem.Net/ZiModemDevice.cs:137-152 | with no other reader and an empty start, batches raised, batch in progress and queue are the bytes written; all delivered whenever the worker is back in the sketch |
| InputFeed.WholePayloads | native/hal/src/serial_port.cpp:32-53 | bytes read and waiting are a concatenation of whole write_serial payloads, each caller's in its own order |
| SerialPort.Uart.FeedInput | native/hal/src/serial_port.cpp:32-37 | the payload is appended to the input queue and nothing else changes |
| SerialPort.Uart.Read | native/hal/src/serial_port.cpp:45-53 | the oldest byte is removed and returned, -1 and no change when empty |
| SerialPort.Uart.Write | native/hal/src/serial_port.cpp:63-75 | every byte is queued in order, one wake-up if there was any |
| SerialPort.Uart.RxRead | native/hal/src/serial_port.cpp:83-91 | the oldest modem byte is removed and returned, -1 and no change when empty |
| SerialPort.Uart.SetLineConfig | native/hal/src/serial_port.cpp:98-111 | settings take effect; an event exactly when they differ; events stay the requested settings with repeats removed, from (0,0) |
| SerialPort.Uart.SetLineBaud | native/hal/src/serial_port.cpp:113-127 | the same with the recorded config word kept |
| SerialPort.Uart.GetLineConfig | native/wrapper/src/zimodem_host.cpp:249-269 | whatever framing the recorded word encodes is returned field by field, and the baud rate as itself below 2^31 |
| SerialPort.Uart.LastEventIsCurrent | native/wrapper/src/zimodem_host.cpp:166-179 | events never repeat, and the last event's decoded arguments are what get_line_config reports |
| SerialPort.Device.OnSerialOut | managed/ZiModem.Net/ZiModemDevice.cs:137-152 | the handler empties the queue into one event with exactly its bytes, no event for none |
| Changes.EdgesSnoc | native/hal/src/serial_port.cpp:98-111 | writing one more value adds an event exactly when it differs from the value in force |
| Changes.EdgesAlternate | native/hal/src/pins.cpp:22-35 | events never repeat, start with a change and end in the value in force |
| LineSettings.DecodeSerialConfig | native/wrapper/src/zimodem_host.cpp:59-83 | the three out values are the framing encoded in the word |
| LineSettings.DecodeEncoded | native/wrapper/src/zimodem_host.cpp:43-83 | every framing the ABI can report survives encoding and decoding, whatever the other 26 bits |
| LineSettings.DecodedEncoded | native/wrapper/src/zimodem_host.cpp:59-83 | a recorded line with a given framing and a baud rate below 2^31 is reported, field by field, as that framing and rate |
| LineSettings.KnownWords | native/wrapper/src/zimodem_host.cpp:43-55 | the default word 0x800001c is 8 data bits, no parity, one stop bit; its siblings differ in parity and stop bits as the bit layout says |
| LineSettings.ToInt32 | native/wrapper/src/zimodem_host.cpp:266-267 | the baud rate's low 32 bits as a signed value, itself below 2^31 |
| Pins.PinTable.DigitalWrite | native/hal/src/pins.cpp:22-35 | the table changes at the pin only; an event exactly when the value differs |
| Pins.PinTable.DigitalRead | native/hal/src/pins.cpp:37-42 | the last value written to the pin, 0 if none |
| Pins.PinEventsAreEdges | native/hal/src/pins.cpp:22-42 | where one thread at most may write the pin - whoever writes the others - under every interleaving: its events, with the one about to be raised, are its writes with repeats removed |
| Pins.EdgesIffOneWriter | native/hal/src/pins.cpp:22-42 | whatever the table holds at first and whatever the policy for other pins, a pin's events are its writes with repeats removed in every run if and only if no two threads may write it |
| Pins.TableIsLastWrite | native/hal/src/pins.cpp:22-42 | with any number of threads writing any pins, the table holds each pin's last write |
| Pins.TwoWritersReorder | native/hal/src/pins.cpp:22-35 | any two threads that may write the same pin have a run, from any table and beside any other threads, whose events come in the opposite order to their writes |
| HostPins.StepSimulated | native/hal/src/pins.cpp:22-42 | every step of the whole protocol is a step of the pin machine, or leaves it as it is |
| HostPins.Simulation | native/hal/src/pins.cpp:22-42 | every run of the whole protocol is a run of the pin machine, with the same writes, events and table |
| HostPins.PinEventsAreEdges | native/wrapper/src/zimodem_host.cpp:161-165 | so on runs of the whole protocol, across instances, a pin one thread at most writes has its writes with repeats removed as its events, and the table holds its last write |
| ReadBytes.Port.ReadBytes | native/hal/include/zimodem_hal/arduino/HardwareSerial.h:46-66 | a FIFO prefix of the input; over the log of its looks and clock readings: it stops short only after an empty look and a reading at least timeoutMs past the last byte (or the call), and no streak of empty looks is longer than timeoutMs+1 |
| ReadBytes.StreaksBoundStretches | native/hal/include/zimodem_hal/arduino/HardwareSerial.h:50-64 | a bound on the streaks of a log bounds the empty looks of every stretch of it without a byte |
| Handles.ReplayBrackets | native/hal/src/net.cpp:252-260 | in a log that never opens an open handle nor closes a closed one, every prefix has closed a handle as often as opened it, or once less while open |
| Handles.OwnedAttempt | native/hal/src/net.cpp:131-157 | a connect or listen that fails leaves nothing open, one that succeeds exactly its own handle, even when the OS reuses the number just closed |
| Handles.StepOwned | native/hal/src/net.cpp:103-157 | every operation keeps each open handle in exactly one wrapper and the close log well bracketed |
| Handles.StepSharing | native/hal/include/zimodem_hal/arduino/WiFiClient.h:27-32 | every operation keeps the shared sockets exactly those some client points to |
| Handles.HandlesOwned | native/hal/src/net.cpp:103-157 | in every run live wrappers hold distinct handles, the open handles are those held, and a pushed-back byte means an open socket |
| Handles.ClosedExactlyOnce | native/hal/src/net.cpp:252-260 | at every moment of every run a handle has been closed as often as opened, or once less while it is open |
| Handles.NothingLeaks | native/hal/src/net.cpp:284-350 | when every local socket, listener and client is gone, nothing is open and each handle opened has been closed |
| Handles.LastCopyCloses | native/hal/include/zimodem_hal/arduino/WiFiClient.h:74-76 | destroying a client closes its connection if and only if it was the last copy; other handles are untouched |
| Handles.StopReachesEveryCopy | native/hal/include/zimodem_hal/arduino/WiFiClient.h:70 | stop() through one copy closes the connection for all; stopping or destroying the others closes nothing more |
| Handles.MoveTransfers | native/hal/src/net.cpp:113-124 | a move hands handle and pushback over, closes only what the target held, leaves the source closed and the rest untouched; to itself it changes nothing |
| Handles.NewTakesOver | native/hal/include/zimodem_hal/arduino/WiFiClient.h:29-32 | so with a move into a new socket, and into the shared socket of a new client |
| Handles.AttemptOutcome | native/hal/src/net.cpp:131-157 | an attempt closes what was held; on success the wrapper holds the new, open handle; a socket made in vain is closed again |
| Handles.AcceptOutcome | native/hal/src/net.cpp:330-341 | accept wraps the handle it gets in a new socket, or makes a closed one |
| Handles.CopiesShare | native/hal/include/zimodem_hal/arduino/WiFiClient.h:74-76 | copies of a client point to one socket, and connecting through one connects it for all |
| TcpStream.ReadIsPrefixIff | native/hal/src/net.cpp:188-213 | read delivers a prefix of pushback and kernel bytes and leaves the rest, if and only if recv does not fail hard behind a pushed-back byte with more than one byte wanted; then exactly that byte is lost |
| TcpStream.MinusOneMeans | native/hal/src/net.cpp:209-212 | a read of -1 lost a byte if and only if one was pushed back; else it means an error, or a close with nothing left |
| TcpStream.ReturnMeans | native/hal/src/net.cpp:188-213 | both ways: with nothing pushed back -1 is exactly an orderly close or a hard error and 0 exactly "nothing yet"; with a byte pushed back -1 is exactly a hard error behind it, and 0 never comes |
| TcpStream.PushbackCanBeLost | native/hal/src/net.cpp:193-212 | a concrete stream, length and answer for which the byte is lost |
| TcpStream.ExactIffNoLoss | native/hal/src/net.cpp:180-227 | over every sequence of arrivals, reads and peeks, delivered and unread bytes are the bytes that arrived, if and only if no read met a hard error behind a pushed-back byte; each such read costs one byte |
| TcpStream.PeekKeepsStream | native/hal/src/net.cpp:215-227 | peek_byte leaves the stream unchanged and foretells the first byte of the next read, whatever recv answers then |
| TcpSocket.ReadAccounted | native/hal/src/net.cpp:188-213 | over one read, bytes handed out, bytes lost and bytes unread stay the bytes that arrived, in order while none is lost |
| TcpSocket.TcpSocket.Moved | native/hal/src/net.cpp:107-111 | the new socket has handle, pushback and stream; the old one is closed |
| TcpSocket.TcpSocket.MoveFrom | native/hal/src/net.cpp:113-124 | the target's own handle is closed, the source's taken over; nothing on self-assignment |
| TcpSocket.TcpSocket.Close | native/hal/src/net.cpp:252-260 | closes the held handle once and drops the pushback |
| TcpSocket.TcpSocket.Connect | native/hal/src/net.cpp:131-157 | what was answered to lookup, socket and connect decides: every failure path ends closed with no handle open; success holds the one new handle with an empty stream |
| TcpSocket.TcpSocket.Connected | native/hal/src/net.cpp:161-178 | false when closed, after an orderly close with the kernel's buffer empty, or on a hard error; takes nothing from the stream |
| TcpSocket.TcpSocket.Available | native/hal/src/net.cpp:180-186 | FIONREAD is asked once; the length of the stream when it succeeds, the pushback alone when it fails |
| TcpSocket.TcpSocket.Read | native/hal/src/net.cpp:188-213 | recv is asked, with the room left, exactly when the pushback does not fill the buffer; return value, bytes stored and account of arrived bytes for every answer it gives, an orderly close included |
| TcpSocket.TcpSocket.PeekByte | native/hal/src/net.cpp:215-227 | the next byte or -1, stream and history unchanged |
| TcpSocket.TcpSocket.Write | native/hal/src/net.cpp:229-240 | everything is offered to the kernel once; it takes exactly the first n bytes, n being the result |
| TcpSocket.TcpListener.Listen | native/hal/src/net.cpp:288-312 | closes first; every failure path leaves no handle open |
| TcpSocket.TcpListener.Accept | native/hal/src/net.cpp:330-341 | a fresh open handle wrapped in a new socket, or a closed socket and nothing opened |
| TcpSocket.WiFiClient.From | native/hal/include/zimodem_hal/arduino/WiFiClient.h:29-32 | a new shared socket takes over handle and stream, the argument is left closed |
| TcpSocket.WiFiClient.Read | native/hal/include/zimodem_hal/arduino/WiFiClient.h:56-60 | one byte of the stream or -1; a one-byte read never loses a byte |
| TlsStream.CallConserves | native/hal/src/tls.cpp:75-95 | every call keeps decrypted = delivered, unread, thrown away by close |
| TlsStream.ExactStream | native/hal/src/tls.cpp:75-95 | in every run until close, bytes delivered and unread are the concatenation of all decrypted chunks |
| TlsStream.AvailablePredictsRead | native/hal/src/tls.cpp:165-185 | what available returns is what the next read returns, whatever the engine would answer |
| TlsStream.PeekPredictsRead | native/hal/src/tls.cpp:187-195 | the byte peek_byte returns is the next read's first, and peeking is idempotent |
| TlsStream.SilentBeforeHandshake | native/hal/src/tls.cpp:165-200 | without a handshake nothing is available, read or seen, and no such call changes anything |
| TlsStream.MinusOneIffDrained | native/hal/src/tls.cpp:173-185 | a read returns -1 if and only if the session is over and every decrypted byte delivered (or thrown away by close) |
| TlsStream.FatalIsForever | native/hal/src/tls.cpp:160-163 | once fatal, in every later state of every run connected() is false and nothing more is decrypted |
| TlsStream.FatalIff | native/hal/src/tls.cpp:75-95 | a session is over if and only if an earlier call ended it: close, an engine read answered with an end or error, an engine write that broke |
| TlsStream.HandshakedIff | native/hal/src/tls.cpp:101-158 | the handshake flag is set if and only if some connect succeeded with no close since |
| TlsStream.ConnectUsableIff | native/hal/src/tls.cpp:156-163 | after a successful connect, connected() can be true if and only if no call before it, in the whole life of the object, ended a session |
| TlsStream.ConnectedIff | native/hal/src/tls.cpp:160-163 | at every moment connected() can be true if and only if some connect succeeded with no close since and no call has ended a session |
| TlsStream.ReconnectFails | native/hal/src/tls.cpp:233-242 | the run connect, close, connect: the second connect succeeds, connected() stays false and every read returns -1 |
| TlsStream.FailedConnectLeavesFlag | native/hal/src/tls.cpp:101-104 | the run connect, failed connect, which ends with the handshake flag set |
| TlsStream.FailedConnectIff | native/hal/src/tls.cpp:101-104 | a failed connect changes no session field; the handshake flag is set after it if and only if an earlier session was not closed |
| TlsStream.ReconnectIsDead | native/hal/src/tls.cpp:233-242 | at every moment after close connected() is false, and no read delivers a byte ever again |
| TlsSocket.TlsSocket.Pump | native/hal/src/tls.cpp:75-95 | refills only an empty buffer of a live session, by one engine answer |
| TlsSocket.TlsSocket.Read | native/hal/src/tls.cpp:173-185 | the new state, the count and the bytes are those of the stream model; nothing past them is written |
| TlsSocket.TlsSocket.Write | native/hal/src/tls.cpp:197-223 | the engine accepts exactly the first `sent` bytes; a short count means the engine broke and the session is over, or the clock is past the deadline; the engine is called at most len + 5002 times |
| TlsSocket.TlsSocket.Connect | native/hal/src/tls.cpp:101-158 | true exactly when the connection is made, the engine set up and the handshake done; given up only on an error or past the deadline, after at most 7502 handshake calls; every failure path closes the TCP handle |
| TlsSocket.TlsSocket.Connected | native/hal/src/tls.cpp:160-163 | true exactly when the handshake is done, the session not over, the socket open, and the probe of the kernel reports neither a close nor an error |
| TlsSocket.TlsSocket.Close | native/hal/src/tls.cpp:233-242 | closes the TCP handle, ends the session, throws the unread bytes away |
| WString.Find | native/hal/include/zimodem_hal/arduino/WString.h:105-108 | the first match at or after the start, -1 exactly when there is none |
| WString.PiecesSplit | native/hal/include/zimodem_hal/arduino/WString.h:142-152 | the pieces joined with `find` are the string, split at leftmost non-overlapping matches |
| WString.SplitUnique | native/hal/include/zimodem_hal/arduino/WString.h:142-152 | there is no other split of the string at leftmost matches |
| WString.ReplacedLength | native/hal/include/zimodem_hal/arduino/WString.h:142-152 | the length changes by matches times the difference of the two lengths |
| WString.String.Replace | native/hal/include/zimodem_hal/arduino/WString.h:142-152 | the in-place loop ends and leaves the pieces joined with `rep`, also when `rep` contains `find` |
| WString.String.IndexOf | native/hal/include/zimodem_hal/arduino/WString.h:101-108 | the first match at or after the start; a char is a one-character string |
| WString.String.LastIndexOf | native/hal/include/zimodem_hal/arduino/WString.h:109-110 | a match after which there is no other, -1 exactly when there is none |
| WString.SubstringExactIff | native/hal/include/zimodem_hal/arduino/WString.h:113-119 | substring is the slice if and only if the slice holds no NUL |
| WString.String.SubstringOf | native/hal/include/zimodem_hal/arduino/WString.h:112-119 | position by position, the characters from left up to but not including right, as far as the first NUL among them; empty when left is at or past either end |
| WString.CStrBegins | native/hal/include/zimodem_hal/arduino/WString.h:118 | what c_str() keeps is the longest beginning with no NUL |
| WString.CutAroundMatch | native/hal/include/zimodem_hal/arduino/WString.h:105-119 | cutting around the match found and joining again gives the string, if and only if the parts hold no NUL |
| WString.RemoveJoinsOuter | native/hal/include/zimodem_hal/arduino/WString.h:125-134 | remove is the two outer substrings joined, if and only if they hold no NUL |
| WString.TrimUnique | native/hal/include/zimodem_hal/arduino/WString.h:154-159 | trim leaves the only piece tight at both ends with nothing but white space around it |
| WString.WhiteCodes | native/hal/include/zimodem_hal/arduino/WString.h:156-157 | the white space trimmed is codes 32, 9, 13 and 10 |
| WString.TrimSplits | native/hal/include/zimodem_hal/arduino/WString.h:154-159 | what trim cuts off is white space, and what it leaves is tight at both ends |
| WString.TrimIdempotent | native/hal/include/zimodem_hal/arduino/WString.h:154-159 | trimming twice is trimming once |
| WString.String.Trim | native/hal/include/zimodem_hal/arduino/WString.h:154-159 | the two searches and the cut leave the trimmed text |
| WString.String.Remove | native/hal/include/zimodem_hal/arduino/WString.h:125-134 | position by position: what precedes index stays, what follows index+count closes up, nothing past the end |
| Itoa.RoundTrip | native/hal/include/zimodem_hal/arduino/Arduino.h:89-110 | reading the text gives the value in base 10, INT_MIN included, and the value modulo 2^32 in other bases; no leading zero but "0" |
| Itoa.DigitsAlphabet | native/hal/include/zimodem_hal/arduino/Arduino.h:99-100 | every character is one of the first `base` of 0-9 and a-z |
| Itoa.FitsBuffer | native/hal/include/zimodem_hal/arduino/Arduino.h:95-102 | no value in any base needs more than 32 digits |
| Itoa.FillDigits | native/hal/include/zimodem_hal/arduino/Arduino.h:95-102 | the do-while loop leaves the digits, last first, within the buffer |
| Itoa.Itoa | native/hal/include/zimodem_hal/arduino/Arduino.h:89-110 | the buffer starts with the text and a NUL and is unchanged behind them |
| LineEndings.NormalizeToLf | tools/Vendoring/DirectoryCopy.cs:57-67 | the loop drops exactly the CRs that an LF follows |
| LineEndings.NormalizeUndoesExpand | tools/Vendoring/DirectoryCopy.cs:54-67 | writing every LF as CRLF and normalising gives back any byte sequence |
| LineEndings.LeftoverCrLf | tools/Vendoring/DirectoryCopy.cs:57-67 | the output contains CRLF if and only if the input contains CR CR LF |
| LineEndings.IdempotentIff | tools/Vendoring/DirectoryCopy.cs:57-67 | normalising twice equals once if and only if there is no CR CR LF |
| LineEndings.OnlyCrDropped | tools/Vendoring/DirectoryCopy.cs:54-67 | the bytes other than CR stay, in order |
| ConsoleInput.Terminal.RunInputLoop | tools/ZiModem.Console/Program.cs:72-91 | the loop forwards, prints, stops and consumes as specified, for every input |
| ConsoleInput.Terminal.HandleByte | tools/ZiModem.Console/Program.cs:125-138 | Ctrl+Q stops, Ctrl+D prints, anything else is forwarded |
| ConsoleInput.PlainForwarded | tools/ZiModem.Console/Program.cs:79-89 | input free of CR, LF, Ctrl+Q and Ctrl+D is forwarded byte for byte, all of it |
| ConsoleInput.LoopedConcat | tools/ZiModem.Console/Program.cs:79-89 | input in two parts, the first without Ctrl+Q, has the effect of the one and then of the other |
| ConsoleInput.LineForwarded | tools/ZiModem.Console/Program.cs:79-89 | a line of plain text is forwarded with one CR, however it ends, and nothing of the ending is left over |
| ConsoleInput.PrintsCountCtrlD | tools/ZiModem.Console/Program.cs:131-133 | the data directory is printed once for each Ctrl+D consumed |
| ConsoleInput.LineEndingIndependence | tools/ZiModem.Console/Program.cs:74-91 | LF, CR and CRLF versions of a CR-free text forward identical bytes and stop at the same Ctrl+Q |
| ConsoleInput.NeverForwarded | tools/ZiModem.Console/Program.cs:74-91 | no LF, Ctrl+Q or Ctrl+D is ever forwarded |
| ConsoleInput.StopsAtFirstCtrlQ | tools/ZiModem.Console/Program.cs:125-130 | the loop stops exactly at the first Ctrl+Q and otherwise reads everything |

## Left out

- The firmware itself: setup() and loop() are arbitrary sequences of HAL calls that return or throw; its code is not part of this model.
- Real sockets, DNS, the TLS handshake and mbedTLS internals: the environment answers as it likes. The engine's own reads and writes of the TCP socket (native/hal/src/tls.cpp:47-71) do not appear in the socket's state.
- Allocation failure in create after network start-up, and the balance of network start-up and shut-down.
- Null handles, null out pointers and an empty data directory: early returns without effect.
- The managed device's own flags (started, disposed) and the foreign-call plumbing around it.
- Weak memory orders, and the 32-bit wrap of millisecond times.
- Aliasing of `replace` arguments with the target; character replace, case changes, comparisons and concatenation of String: members that follow from their bodies.
- UdpSocket, IPAddress, Print, File and SPIFFS, WiFi and ESP: thin members, mostly I/O or constants.
- The interactive key mapping, the echo servers, the patch tooling and the build files.
- Delivery.SoleHandler: assumes no other reader; with one, Delivery.ExactDelivery is what holds. Delivery follows the bytes of one worker whose handler is the managed drain; that a handler registered before start is woken, on runs of the whole protocol, is HostDelivery.NoLostWakeup.
- InputFeed and Delivery are machines of their own, finer than HostModel (a step per byte); what they say of whole runs of the protocol is proved of HostModel itself as HostBytes.InputAccount, HostBytes.RxAccount, HostDelivery.NoLostWakeup and HostBytes.AllTaken. The order of one caller's payloads is its program order, which HostModel's steps follow.
- HostDeadlock.NoDeadlock: for callbacks that, under the callback mutex, call neither set_pin nor set_callbacks; for all others HostDeadlock.WaitingCycleIff and HostDeadlock.LockedCallBlocksIff say exactly when it fails.
- Progress is one step at a time: that a thread which can step eventually does is left to the scheduler.

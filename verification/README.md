# Xio: kqueue event translation, listening-address setup and the run loop

Xio is a small kqueue-based TCP reactor written in Swift. This project models the three sequential pieces of it that hold real logic, and proves properties of them:

- **The kqueue provider** (`kqueue.dfy`, module `KQueueProvider`).
  - A poll (`KQueue.Run`) reads the first `ready` records of the provider's 64-slot buffer. It decodes each record's filter (READ, EXCEPT, WRITE) and drops unknown filters. It then groups the kept types per descriptor, in buffer order, with duplicates kept.
  - A registration (`Register` / `Deregister` through `BuildChangeList`) builds one change record per interest. Each record has the filter `KFilter` encodes and the add or delete flags. An EXCEPT record gets the macOS low-watermark fix: `NOTE_LOWAT` with the largest `Int`.
- **The run loop** (`reactor.dfy`, module `Reactor`).
  - It keeps a table from `Selectable` to delegate. Keys compare on the descriptor *and* the interest list.
  - `Register` calls the provider, then updates the table. `Deregister` always aborts.
  - `Run` polls exactly ten times with a one-second timeout and dispatches nothing.
  - The provider protocol is a `RecordingProvider` class. It records every call made on it.
- **The listening socket** (`address.dfy`, module `Addresses`; `socket.dfy`, module `Sockets`).
  - A `"host:port"` string is split on `:`, with empty pieces dropped. The host is the first piece. The port is the second piece when it reads as a `UInt16`, and 7050 otherwise.
  - The port is stored high byte first.
  - `O_NONBLOCK` is OR-ed into the file status flags.
  - A `Socket` records the system calls it makes on the descriptor it owns. `ForListening` makes them in the order bind, listen(128), non-blocking, and aborts on the first failure. `Deinit` closes the descriptor once.

`wrappers.dfy` holds `Option`, `Result` and `Outcome`. `events.dfy` (module `Events`) holds the value types of `RunLoop.swift`.

Constants are Darwin's: `EVFILT_READ = -1`, `EVFILT_WRITE = -2`, `EVFILT_EXCEPT = -15`, `EV_ADD | EV_ENABLE = 0x5`, `EV_DELETE | EV_DISABLE = 0xA`, `NOTE_LOWAT = 1`, `O_NONBLOCK = 4`, `SOL_SOCKET = 0xFFFF`, `SO_REUSEADDR = 4`, `SO_DEBUG = 1`, `IPPROTO_TCP = 6`, `TCP_NODELAY = 1`. The host is taken to be little-endian, as every macOS machine is.

System calls are not modelled, only their results:

- `kevent()`: its return value is `Run`'s `ready` parameter, and its output is the contents of the `events` buffer. Each change list it is given is appended to `KQueue.submitted`.
- `kqueue()`, `socket()`, `bind()`, `listen()` and `fcntl(F_GETFL)`: their results are parameters.
- `setsockopt()`, `fcntl(F_SETFL)` and `close()`: they are recorded in the socket's trace.

Behaviour of the code that the model keeps:

- A failed wait returns an empty list, not an error.
- Table keys compare on the interest list as well as the descriptor.
- The event types for a descriptor are kept in a list with duplicates. They are not merged into a set.
- Deregistration aborts. It does not remove the entry.
- The loop makes ten polls and dispatches nothing.

## Model

| member | source | states |
|---|---|---|
| `KQueueProvider.DecodeFilter` | Sources/Xio/RunLoopProviderKQueue.swift:62-87 | a filter decodes to an event type exactly when it is READ, EXCEPT or WRITE; any other filter is dropped; a decoded type re-encodes through `KFilter` to the same filter |
| `KQueueProvider.KFilter` | Sources/Xio/RunLoopProviderKQueue.swift:141-151 | Except, Read and Write map to EVFILT_EXCEPT, EVFILT_READ and EVFILT_WRITE; every event type gets one of the three filters a poll decodes |
| `KQueueProvider.KFilterRoundTrip` | Sources/Xio/RunLoopProviderKQueue.swift:141-151 | decoding `KFilter(t)` through the poll's switch gives back `t` |
| `KQueueProvider.KFilterInjective` | Sources/Xio/RunLoopProviderKQueue.swift:141-151 | distinct event types get distinct filters |
| `KQueueProvider.ToKTimespec` | Sources/Xio/RunLoopProviderKQueue.swift:218-222 | seconds and nanoseconds are copied unchanged into the timespec |
| `KQueueProvider.KernelTimeout` | Sources/Xio/RunLoopProviderKQueue.swift:40-45 | a poll without a timeout passes no timespec (blocks); with one it passes that timeout's seconds and nanoseconds |
| `KQueueProvider.ReportedFdsIff` | Sources/Xio/RunLoopProviderKQueue.swift:52-92 | a descriptor appears in a poll's table exactly when some read record with a known filter names it; a descriptor whose records all have unknown filters does not appear |
| `KQueueProvider.TypesForEmptyIff` | Sources/Xio/RunLoopProviderKQueue.swift:62-92 | a reported descriptor has a non-empty list of types; an unreported one has none |
| `KQueueProvider.TypesForAppend` | Sources/Xio/RunLoopProviderKQueue.swift:53-83 | a descriptor's types follow buffer order: two stretches of the buffer give the concatenation of their lists, so duplicates are kept |
| `KQueueProvider.ReportedFdsBound` | Sources/Xio/RunLoopProviderKQueue.swift:53-92 | a poll reports no more descriptors than it read records |
| `KQueueProvider.GroupedStep` | Sources/Xio/RunLoopProviderKQueue.swift:62-87 | one loop step: a record with an unknown filter leaves the table alone; a known one appends its type to its descriptor's list, which starts empty if the descriptor is new |
| `KQueueProvider.GroupedTotal` | Sources/Xio/RunLoopProviderKQueue.swift:52-92 | the table holds as many types in all as there were known-filter records read |
| `KQueueProvider.Flatten` | Sources/Xio/RunLoopProviderKQueue.swift:89-93 | the final loop emits one event per table entry, each descriptor once, with that entry's list, and keeps the total number of types; the order across descriptors is left open |
| `KQueueProvider.KQueue.GroupReady` | Sources/Xio/RunLoopProviderKQueue.swift:52-88 | the loop over slots 0..ready-1 builds exactly the per-descriptor table of those records |
| `KQueueProvider.KQueue.Run` | Sources/Xio/RunLoopProviderKQueue.swift:35-97 | ready = -1 (failed wait) or 0 gives []; otherwise at most 64 events, each descriptor once, each event's types non-empty and equal to its known-filter records in slots 0..ready-1 in buffer order; the descriptors are exactly those with a known-filter record; the total type count equals the number of such records |
| `KQueueProvider.KQueue.constructor` | Sources/Xio/RunLoopProviderKQueue.swift:20-27 | a usable kqueue gets a fresh 64-slot buffer and no submitted changes |
| `KQueueProvider.KQueue.Create` | Sources/Xio/RunLoopProviderKQueue.swift:20-27 | the failable initialiser yields nil exactly when kqueue() returned -1 |
| `KQueueProvider.ChangeFlags` | Sources/Xio/RunLoopProviderKQueue.swift:115 | removal flags carry no ADD/ENABLE bit and registration flags no DELETE/DISABLE bit |
| `KQueueProvider.BuildChangeList` | Sources/Xio/RunLoopProviderKQueue.swift:108-132 | one record per interest, in order, each with the descriptor as ident, the interest's filter, ADD\|ENABLE or DELETE\|DISABLE, nil udata; EXCEPT records carry NOTE_LOWAT and Int.max (on removal too); all others carry 0 and 0 |
| `KQueueProvider.ChangeListRoundTrip` | Sources/Xio/RunLoopProviderKQueue.swift:111-114 | decoding the filters of a change list gives back the Selectable's interest list |
| `KQueueProvider.ChangeListUnique` | Sources/Xio/RunLoopProviderKQueue.swift:108-132 | the change list is fully determined by the Selectable and the direction |
| `KQueueProvider.KQueue.Update` | Sources/Xio/RunLoopProviderKQueue.swift:108-138 | hands exactly one change list, the one for the Selectable and direction, to the kernel and nothing else |
| `KQueueProvider.KQueue.Register` | Sources/Xio/RunLoopProviderKQueue.swift:99-102 | submits the Selectable's ADD\|ENABLE change list |
| `KQueueProvider.KQueue.Deregister` | Sources/Xio/RunLoopProviderKQueue.swift:104-106 | submits the Selectable's DELETE\|DISABLE change list |
| `Reactor.RecordingProvider.Run` | Sources/Xio/RunLoop.swift:31-32 | a poll is recorded with its timeout and answers with the next scripted reply, or [] |
| `Reactor.RecordingProvider.Register` | Sources/Xio/RunLoop.swift:33 | a registration is recorded |
| `Reactor.RecordingProvider.Deregister` | Sources/Xio/RunLoop.swift:34 | a deregistration is recorded |
| `Reactor.RecordingProvider.constructor` | Sources/Xio/RunLoop.swift:31-35 | a provider starts with no recorded calls |
| `Reactor.RunLoop.constructor` | Sources/Xio/RunLoop.swift:42-48 | a new run loop keeps the provider it is given and starts with an empty table, in step with the provider |
| `Reactor.RunLoop.Run` | Sources/Xio/RunLoop.swift:52-68 | exactly ten polls with timeout 1 s / 0 ns are made and nothing else; the table is unchanged and no delegate is invoked; the table stays in step with the provider |
| `Reactor.RunLoop.Register` | Sources/Xio/RunLoop.swift:72-75 | the provider receives exactly one registration of `s`, then the table maps `s` to the delegate with no other change; the table's keys stay exactly the Selectables registered with the provider |
| `Reactor.RunLoop.Deregister` | Sources/Xio/RunLoop.swift:77-82 | always aborts (not implemented), touching neither provider nor table |
| `Reactor.RegisterEntry` | Sources/Xio/RunLoop.swift:74 | registering changes only key `s`; re-registering an equal Selectable replaces its delegate and keeps the size; a new one adds one entry |
| `Reactor.SameFdDistinctInterests` | Sources/Xio/RunLoop.swift:16-19 | the same descriptor with two different interest lists gives two separate table entries |
| `Reactor.RegistrationsAppend` | Sources/Xio/RunLoop.swift:72-75 | the Selectables a call history registers are those of each part of it |
| `Reactor.PollsRegisterNothing` | Sources/Xio/RunLoop.swift:52-68 | polling registers nothing with the provider |
| `Addresses.Split` | Sources/Xio/Socket.swift:68 | `split(separator: ":")` with empty pieces dropped: every piece is non-empty and free of ':' |
| `Addresses.SplitPieces` | Sources/Xio/Socket.swift:68 | every piece of the split is non-empty and free of ':'; together the pieces hold every other character in order |
| `Addresses.SplitAtSeparator` | Sources/Xio/Socket.swift:68 | splitting at a ':' gives the pieces of the left side followed by those of the right |
| `Addresses.SplitPiece` | Sources/Xio/Socket.swift:68 | a run without ':' is its own only piece, and an empty one gives none |
| `Addresses.SplitEmptyIff` | Sources/Xio/Socket.swift:68-71 | no pieces remain exactly when the address is empty or all ':' |
| `Addresses.ParseUInt16` | Sources/Xio/Socket.swift:75 | a parsed port is at most 65535 |
| `Addresses.TooLargeRejected` | Sources/Xio/Socket.swift:75 | a value over 65535 does not parse, with or without a sign or leading zeros ("0065536") |
| `Addresses.SignedSpelling` | Sources/Xio/Socket.swift:75 | a leading '+' is accepted before any zeros and digits ("+0080" reads as 80); after a '-' only zero parses ("-00" reads as 0) |
| `Addresses.NonDigitRejected` | Sources/Xio/Socket.swift:75 | any character that is not a digit, other than a leading sign, makes the parse fail |
| `Addresses.NoDigitsRejected` | Sources/Xio/Socket.swift:75 | the empty string, a bare '+' and a bare '-' do not parse |
| `Addresses.DecimalValueZeros` | Sources/Xio/Socket.swift:75 | leading zero digits do not change a decimal value |
| `Addresses.LeadingZerosIgnored` | Sources/Xio/Socket.swift:75 | a port spelled with leading zeros ("0080") reads as its value; a value over 65535 does not parse however many zeros lead it |
| `Addresses.DecimalRoundTrip` | Sources/Xio/Socket.swift:75 | the decimal spelling of a number has that number as its value |
| `Addresses.ParseDecimal` | Sources/Xio/Socket.swift:75 | the decimal spelling of every port 0..65535 parses back to that port |
| `Addresses.ChoosePort` | Sources/Xio/Socket.swift:73-76 | the chosen port always fits 16 bits |
| `Addresses.ParseAddress` | Sources/Xio/Socket.swift:68-76 | fails ("Invalid address string") exactly when the address has no character other than ':'; otherwise the host is a non-empty piece free of ':' and the port fits 16 bits |
| `Addresses.HostOnly` | Sources/Xio/Socket.swift:72-76 | leading and trailing ':' are skipped; with a single piece the host is that piece and the port is 7050 |
| `Addresses.FirstTwoPieces` | Sources/Xio/Socket.swift:68-76 | for any address whose first two pieces are `host` and `port`, with any runs of ':' before and between them and anything after a further ':', the host is `host` and the port is `port`'s UInt16 value if it parses and 7050 otherwise |
| `Addresses.HostAndPort` | Sources/Xio/Socket.swift:72-76 | "host:port", optionally followed by ':' and more, with a port 0..65535 binds that host and port |
| `Addresses.BadPortFallsBack` | Sources/Xio/Socket.swift:74-76 | "host:p" with a second piece that does not parse as UInt16 gives port 7050 |
| `Addresses.PortOnlyIsHost` | Sources/Xio/Socket.swift:72-76 | ":8080" yields host "8080" and port 7050 |
| `Addresses.ByteSwap16` | Sources/Xio/Socket.swift:80 | `port.bigEndian` on a little-endian host: the byte-swapped value still fits 16 bits |
| `Addresses.HostBytes` | Sources/Xio/Socket.swift:80 | the two bytes a 16-bit value occupies in memory on a little-endian host, each below 256 |
| `Addresses.StoredPortIsBigEndian` | Sources/Xio/Socket.swift:80 | the stored `sin_port` bytes are high byte first, and reading them in network order gives back the port |
| `Addresses.WithNonBlocking` | Sources/Xio/Socket.swift:97-104 | requires flags other than -1; sets O_NONBLOCK and leaves every other bit unchanged |
| `Sockets.SockAddrFor` | Sources/Xio/Socket.swift:78-81 | bind() gets family AF_INET, the host text and the port bytes high byte first, which decode back to the port |
| `Sockets.ListeningOptionsAsWritten` | Sources/Xio/Socket.swift:52-53 | the two options as the source passes them: SO_REUSEADDR first, and both at the socket level |
| `Sockets.TraceWith` | Sources/Xio/Socket.swift:35-42 | a set-up listening socket's calls start by opening its descriptor and end by setting the non-blocking flags |
| `Sockets.ListeningTrace` | Sources/Xio/Socket.swift:50-53 | as the source sets the options: SO_REUSEADDR and SO_DEBUG are set, and every option is at the socket level, so TCP_NODELAY never is |
| `Sockets.ListeningTraceIntended` | Sources/Xio/Socket.swift:50-53 | with the corrected options: SO_REUSEADDR and TCP-level TCP_NODELAY are set, SO_DEBUG is not, and every other call is the same as in the trace as written |
| `Sockets.ListeningOrder` | Sources/Xio/Socket.swift:35-42 | on a listening socket bind() precedes listen(), which precedes setting the non-blocking flag, whichever options are set |
| `Sockets.NoDelayAsWrittenIsSoDebug` | Sources/Xio/Socket.swift:52-53 | as written, the second option is SO_DEBUG at socket level and no option targets the TCP level |
| `Sockets.ListeningOptionsIntended` | Sources/Xio/Socket.swift:52-53 | the options used are address reuse at socket level and TCP_NODELAY at TCP level, and never SO_DEBUG |
| `Sockets.Socket.constructor` | Sources/Xio/Socket.swift:27-29 | a socket owns the descriptor socket() returned, is open, and has opened it as its only call |
| `Sockets.Socket.ForListening` | Sources/Xio/Socket.swift:35-42 | an unparsable address, a failed bind or a failed listen is fatal, in that priority, and so is F_GETFL returning -1; when none of these fails the call succeeds, with a fresh open socket whose calls are exactly open, bind, the two options as the source writes them (SO_REUSEADDR and SO_DEBUG), listen(128), F_GETFL, F_SETFL with O_NONBLOCK added |
| `Sockets.Socket.BindSocket` | Sources/Xio/Socket.swift:67-95 | an address with no piece aborts before any call; otherwise bind() is called with the parsed endpoint, and a non-zero result is fatal |
| `Sockets.Socket.StartListening` | Sources/Xio/Socket.swift:50-65 | sets SO_REUSEADDR, then option number TCP_NODELAY at the socket level (SO_DEBUG), as the source writes it, then listen() with backlog 128; a non-zero result is fatal |
| `Sockets.Socket.SetNonBlocking` | Sources/Xio/Socket.swift:97-104 | reads the flags; -1 fails the assertion; otherwise writes them back with O_NONBLOCK added |
| `Sockets.Socket.Deinit` | Sources/Xio/Socket.swift:31-33 | closes the owned descriptor as the last call, leaving the socket closed |
| `Sockets.CloseAtMostOnce` | Sources/Xio/Socket.swift:25-33 | a socket's descriptor is closed at most once |

## Left out

- The system calls themselves: `kqueue`, `kevent`, `socket`, `bind`, `listen`, `setsockopt`, `fcntl`, `close` and `inet_pton`. Their results are parameters or recorded calls. The IPv4 text conversion by `inet_pton`, whose result the source ignores, is not modelled: the bound address carries the host text.
- Error results of `setsockopt`, of the change-list `kevent` call and of `fcntl(F_SETFL)` are ignored by the source, and are not modelled.
- `KQueueProvider.KQueue.Run` does not take the timeout. The wait that uses it is outside the model, and the timeout's conversion is `KernelTimeout`.
- `KQueueProvider.KQueue.Update`, `Register` and `Deregister` require a non-negative descriptor, because `UInt(fileDescriptor)` traps on a negative one. For the same reason, record idents are typed 0..Int32.max.
- `KQueueProvider.KQueue.Run` requires `ready <= 64`, which is what `kevent` promises for a buffer of 64 slots.
- The release of the kqueue descriptor in the provider's deinitialiser is not modelled.
- The unsafe buffers, the leaked allocation in `update`, and the single-element `initialize(to:)` of the poll buffer are not modelled. Sequences and a Dafny array stand in for them.
- The print-only checks `filter & EVFILT_READ == 1` and `filter & EV_EOF == 1`, and all logging, have no effect on results and are not modelled.
- The order in which a poll lists its descriptors comes from Swift dictionary iteration. The model chooses it arbitrarily, and every property of `Run` holds for any order.
- The table lookup in the run loop's event loop indexes a `Selectable`-keyed dictionary with an `Int32`, which does not type-check. It has no effect and is not modelled. No delegate is ever invoked.
- `RunLoopDelegate` is reduced to an identity, because the model never calls it.
- Actor isolation and `async`: the run loop is a sequential class.
- `Reactor.RecordingProvider` stands in for the provider protocol. `KQueue` is the concrete provider, modelled on its own.
- `Socket.connect(to:)` has an empty body, and `sockaddr_in.asAddr` is a pointer cast. Neither is modelled.
- `Sockets.Fatal` tells a failed `listen()` (`UnableToListen`) apart from a failed `bind()`. The source reports both with the same "Unable to bind" message.
- `Sockets.Socket.SetNonBlocking` treats a -1 from `F_GETFL` as fatal, which is what `assert` does in a debug build. A release build skips the assertion and writes `-1 | O_NONBLOCK`.
- `Addresses.ParseUInt16` follows the Swift standard library's `UInt16(_:)`, whose code is not part of this model: an optional `+` or `-`, at least one ASCII digit, and a value that fits. With `-`, only zero parses.
- Strings are sequences of `char`, and Swift's grapheme clusters are not modelled. The two differ when a combining mark follows a ':' or a digit. Swift treats such a pair as one `Character`, which is not ':' or a digit, so `split` does not split there. The model splits at every ':' character.
- `Server.swift`, `Xio.swift` and `Log.swift` are not part of this model. The same goes for accept queueing, reads, writes, dispatch to handlers, peer-close teardown and write buffering, which the code does not implement.

## Findings

| source | as written | input that shows it | evidently intended | confidence | as-written member | corrected member |
|---|---|---|---|---|---|---|
| Sources/Xio/Socket.swift:53 | `setsockopt(fd, SOL_SOCKET, TCP_NODELAY, …)` | any listening socket: at level `SOL_SOCKET` option number 1 is `SO_DEBUG`, so debugging is enabled and Nagle's algorithm stays on | `setsockopt(fd, IPPROTO_TCP, TCP_NODELAY, …)` to disable segment coalescing | medium, not executed | `Sockets.NoDelayAsWrittenIsSoDebug` | `Sockets.ListeningOptionsIntended` |

The socket model (`Sockets.Socket.StartListening`, `Sockets.ListeningTrace`) records the options as written. `Sockets.ListeningTraceIntended` is the trace the corrected options give.

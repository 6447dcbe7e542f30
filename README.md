# mpvipc correlation and broadcast core, in Dafny

This project models the two sequential state machines inside the Go client
for mpv's JSON IPC protocol, and proves properties of them.

- **The listener hub** (`hub.go`). The `run` loop owns the set of
  registered event listeners. It handles one request at a time: register,
  unregister, broadcast, and the close signal. `EventHub.Hub` is a class
  with one atomic method per `select` case. Each listener's `send`
  channel is an `Outbox`: the events sent on it, in order, plus a
  `closed` flag. Ghost bookkeeping (`Consistent`) records every broadcast
  and when each listener joined and left. It states the invariants:
  - a registered listener never has a closed sink;
  - a sink is closed exactly once, when its listener leaves;
  - every sink holds exactly the broadcasts processed while its listener
    was registered, in the order the loop processed them;
  - after the loop stops, nothing is registered.

  Go panics on sending to a closed channel and on closing one twice.
  `Send` (the `send <- message` of `hub.go:80`) and `Shut` (the
  `close(listener.send)` of `hub.go:64` and `hub.go:76`) therefore require
  an open sink, so each of these properties is also a proof obligation at
  every call site. What a send does to a sink is stated by `Fanout`'s
  contract, which applies `Send` to every member.
- **The request correlation table** (`mpv_ipc.go`). `MpvIpc.Connection`
  holds the socket, the request counter `lastRequest` and the table
  `waitingRequests` from request id to pending slot. `Call` is split into
  the steps that the mutex and channels separate in the source:
  - `BeginCall`: allocate the id and insert the slot;
  - `SendCommand`: write the frame;
  - `Receive`: the receive and the status-to-result decision;
  - `EndCall`: the deferred delete.

  `Call` composes these steps for one run. `Deliver` is one iteration of
  the reader loop and `Listen` is the whole loop. Pure functions give the
  meaning of each step:
  - `NextId`: the counter increment, with Go `uint` wrap-around;
  - `Interpret`: the status-to-result decision;
  - `Frame` and `Transmit`: the bytes a send writes;
  - `Route` and `RouteAll`: the routing of decoded lines.

  Lemmas prove three things. Answers reach their own caller whatever order
  they arrive in. Unknown ids and undecodable lines change nothing. Frames
  written one after another split back into their payloads under the
  end-of-line rule the reader's line scanner uses.

I/O and the JSON library are replaced by parameters:
- `Open`, `Close` and each of `sendCommand`'s two writes take a success
  flag;
- encoding is a function parameter `marshal`;
- decoding is its possible outcomes (`Decoded`): an error, the document
  `null`, or a `commandResult`.

The JSON value type `Value` keeps numbers as their literal text.

The model follows the code as written. In particular:
- `Close` does not clear the pending table or release waiting calls;
- `Open` has no already-open check;
- a call on a connection that never opened returns the encoding error when
  its command fails to encode, and otherwise panics on the nil socket
  instead of returning an error;
- `listen` only routes by id and does not classify events.

## Model

| member | source | states |
|---|---|---|
| EventHub.Shut | hub.go:76 | `close(listener.send)` closes an open channel and keeps what was sent on it; closing a closed one is excluded, as it panics |
| EventHub.Fanout | hub.go:78-81 | a broadcast appends the event to the sink of every member, leaves each member's sink open, and leaves every non-member's sink and the set of known listeners unchanged |
| EventHub.ShutAll | hub.go:61-66 | the cleanup closes the sink of every listener registered at that moment, keeps what each received, and touches no other sink |
| EventHub.SendEach | hub.go:79-81 | the `for ... range` send loop, taking members in any order, ends with exactly the outboxes `Fanout` describes |
| EventHub.CloseEach | hub.go:62-65 | the deferred delete-and-close loop, taking members in any order, ends with exactly the outboxes `ShutAll` describes |
| EventHub.RegisterConsistent | hub.go:71-72 | registering a new listener (empty open sink) or an already registered one keeps the invariant; a known listener with an open sink is already a member |
| EventHub.UnregisterConsistent | hub.go:73-77 | removing a member and closing its sink keeps the invariant: the closed sink holds exactly the broadcasts of its membership |
| EventHub.FanoutConsistent | hub.go:78-81 | after a broadcast that is logged, members' sinks still equal the log since they joined, and former members' sinks are unchanged slices of it |
| EventHub.ShutAllConsistent | hub.go:61-66 | closing every member's sink and emptying the set keeps the invariant, and all of them become former members who left at that moment |
| EventHub.Hub.constructor | hub.go:50-57 | `newHub` starts with no listeners, no known sinks, nothing broadcast, and neither closing nor stopped |
| EventHub.Hub.Register | hub.go:71-72 | the listener becomes a member; an already registered listener leaves set and sinks unchanged; nothing is broadcast; the invariant is kept |
| EventHub.Hub.Unregister | hub.go:73-77 | a member is removed and its sink closed (once); a non-member changes nothing; the invariant is kept |
| EventHub.Hub.Broadcast | hub.go:78-81 | the sinks become `Fanout` of the old sinks over the members; the set is unchanged; the event is appended to the log; the invariant is kept |
| EventHub.Hub.Close | hub.go:86-88 | `close` marks `closeCh` closed and changes nothing else |
| EventHub.Hub.Stop | hub.go:61-70 | once `closeCh` is closed, the loop stops: afterwards the set is empty and the sinks are `ShutAll` of the old sinks over the old members |
| MpvIpc.NextId | mpv_ipc.go:42 | `lastRequest++` on a 64-bit `uint`: it adds one modulo 2^64, so below the maximum the new id is larger and at least 1 |
| MpvIpc.Interpret | mpv_ipc.go:61-64 | status "success" gives the data and no error; any other status (empty included) gives an error with that status and no data |
| MpvIpc.Frame | mpv_ipc.go:76-83 | the frame on the wire is the encoded message followed by exactly one newline |
| MpvIpc.Transmit | mpv_ipc.go:67-85 | a send succeeds iff encoding and both writes succeed, and then writes exactly `Frame`; a failed encoding or first write writes nothing; a failed terminator leaves the bare payload; each error is the one the source returns at that point |
| MpvIpc.Route | mpv_ipc.go:113-123 | a decoded result is written only to the slot whose key equals its id; unknown ids and lines that do not decode leave the table unchanged; no key is added or removed |
| MpvIpc.ListenStepAsWritten | mpv_ipc.go:112-123 | the source's loop body crashes exactly on the line `null` |
| MpvIpc.NullLineCrashesReader | mpv_ipc.go:112-116 | the line `null` crashes the reader as written, whatever the table |
| MpvIpc.RouteAgreesWithSource | mpv_ipc.go:113-123 | on every other line, the corrected routing step does what the source does |
| MpvIpc.RouteAll | mpv_ipc.go:109-124 | the reader's loop over a session's lines, as a fold of the corrected step: it never adds or removes a pending request |
| MpvIpc.RouteAllUntouched | mpv_ipc.go:109-124 | over any sequence of lines, routing keeps the set of pending ids, and a pending request that no line answers keeps its slot |
| MpvIpc.RouteAllDeliversToOwner | mpv_ipc.go:109-124 | if the peer answers each pending request at most once, then after any sequence of lines, in any order, every answered request holds its own answer and every other pending slot is unchanged |
| MpvIpc.Lines | mpv_ipc.go:108-109 | the lines `bufio.ScanLines` yields: none exactly for the empty stream, and no line contains a newline |
| MpvIpc.LinesAfterFrame | mpv_ipc.go:76-83 | a reader that splits lines like `bufio.ScanLines` sees a frame of a newline-free payload as exactly that payload, then the rest of the stream |
| MpvIpc.LinesOfStream | mpv_ipc.go:76-83 | frames of well-formed payloads, written one after another, split back into exactly those payloads, in order |
| MpvIpc.Connection.constructor | mpv_ipc.go:22-28 | `NewConnection` keeps the socket name and has no socket, `lastRequest` 0 and an empty table |
| MpvIpc.Connection.Open | mpv_ipc.go:30-38 | a successful dial installs a fresh socket; a failed one returns the connect error and leaves the connection unchanged; the counter and table are untouched |
| MpvIpc.Connection.BeginCall | mpv_ipc.go:41-46 | the id is the counter's next value and not already pending; its slot is inserted as waiting before anything is sent, and nothing else changes; until the counter wraps, ids strictly increase, are at least 1 and the invariant is kept |
| MpvIpc.Connection.SendCommand | mpv_ipc.go:67-85 | called only while the slot for `id` is pending and waiting; the socket gains exactly what `Transmit` says for the encoding of `{command, request_id}`, and the error is `Transmit`'s; without a socket, a command that fails to encode returns the encoding error and leaves the connection as it was; the table and counter are untouched |
| MpvIpc.Connection.Deliver | mpv_ipc.go:113-123 | the table becomes `Route` of the old table (the corrected step: a `null` line is dropped, where the source crashes, see "Findings"); a line with id 0 (what an event line decodes to) never changes the table, since no pending id is 0 |
| MpvIpc.Connection.Listen | mpv_ipc.go:107-125 | the reader loop over a session's decoded lines leaves the table equal to `RouteAll` of the old table over those lines, routing each with the corrected step (a `null` line is dropped, where the source crashes) |
| MpvIpc.Connection.Receive | mpv_ipc.go:60-64 | on the result handed to the slot, the call succeeds exactly when its status is "success", then with the result's data, and otherwise fails with `RemoteError` of that status |
| MpvIpc.Connection.EndCall | mpv_ipc.go:48-53 | the deferred cleanup removes exactly the entry for `id`: it is gone afterwards and no other entry is touched |
| MpvIpc.Connection.Call | mpv_ipc.go:40-65 | on every exit path (send error, success, remote error) the table ends as it began; the id is the old counter plus one; the result is the send error if the send failed and `Interpret` of the reply otherwise; the socket gains what `Transmit` says; on a connection never opened, a command that fails to encode returns the encoding error |
| MpvIpc.Connection.Close | mpv_ipc.go:87-94 | a successful close leaves no socket; a failed one returns the error and changes nothing; the table is not cleared |

## Findings

| source | as written | input that shows it | evidently intended | confidence | as-written member | corrected member |
|---|---|---|---|---|---|---|
| mpv_ipc.go:112-116 | `result` is a `*commandResult` passed to `json.Unmarshal` as `&result`; the JSON document `null` sets `result` to nil and returns no error, so `result.Id` dereferences nil and the reader goroutine panics | the peer writes the line `null` | a line that is not a command result is dropped, like a line that fails to decode | medium; not executed | MpvIpc.ListenStepAsWritten, MpvIpc.NullLineCrashesReader | MpvIpc.Route |

## Left out

- Goroutines, `select` blocking, channel rendezvous and `sync.Mutex`: each `select` case and each critical section is one atomic method. Interleavings are not verified. Two races are out of scope: `listen`'s send racing with `Call`'s deferred `close` of the same slot, and concurrent `sendCommand` writes being interleaved, since those writes happen outside the lock.
- `net.Dial`, socket reads and writes, closing the socket: each is a success flag. A failed write is modelled as writing nothing.
- `bufio.Scanner`: `Lines` captures only its end-of-line rule, and only for the framing round trip. The 64 KiB line limit is not modelled. Nor is the loop ending on a read error.
- `encoding/json`: encoding is the parameter `marshal` and decoding is the outcome `Decoded`. JSON numbers are kept as literal text, not as floating point.
- `log.Printf` calls: they have no effect on the state.
- Starting the reader goroutine in `Open` is not modelled; `Listen` is the reader's loop on its own.
- The `EventListener` type and its constructor are not part of this model. Listeners are identified by a number, and `Event` carries the fields an event frame has.
- The demo programs under `mpv_ipc_demo/` and `mpvipc_demo/`: they are driven by sleeps and goroutines and call functions not in these files.
- EventHub.Send and EventHub.Shut: require an open channel; a send on or a close of a closed channel panics in the source, so the model states it as an obligation on every caller.
- EventHub.Hub.Register: requires that a listener whose sink the hub closed is not registered again. In the source such a registration succeeds, and the next broadcast panics on the closed channel.
- EventHub.Hub.Close: requires that `closeCh` is still open, because a second `close` panics in the source.
- EventHub.Hub.Stop: runs only after `Close`. The loop cannot pick `closeCh` before then.
- MpvIpc.Connection.SendCommand: requires a socket unless the command fails to encode, because the source panics writing to a nil `client`; an encoding failure returns before the socket is used.
- MpvIpc.Connection.Close: requires a socket, because the source panics closing a nil `client`.
- MpvIpc.Connection.Deliver: requires that a result for a pending id finds its slot still waiting. In the source a second answer to one request blocks the reader on `request <- result` until the call's deferred `close` of that channel, and the reader then panics sending on a closed channel (or drops the line, if the delete ran first).
- MpvIpc.Connection.Listen: requires the peer to answer each pending request at most once, as for `Deliver`. No call may start or end during the loop.
- MpvIpc.Connection.BeginCall: keeps the invariant only until `lastRequest` wraps, after 2^64 - 1 calls. `NextId` models the wrap to 0. The model does not follow a connection past it, nor a 32-bit `uint`.
- MpvIpc.Connection.Call: covers only runs in which the reader hands over the reply. A call whose answer never arrives blocks forever in the source. Like `SendCommand`, it requires a socket unless the command fails to encode.

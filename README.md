# Telemetry WebSocket server: keepalive, fan-out and reading builder

A model of the core of `server.js`, a WebSocket server that pushes mock
sensor readings to its clients. The model covers:

- the channel table (`KEY_NAMES`, `unitFor`) and the reading builder
  (`mockReading`), with the random channel, the random value and the clock
  passed in (module `Telemetry`, file `telemetry.dfy`);
- the keepalive liveness state machine and the broadcast fan-out, as pure
  functions over client records, plus lemmas about runs of events. These
  include the two-strike rule, which says that a client is terminated by the
  second sweep without a pong in between and never while it keeps answering
  (module `ClientSpec`, file `client_spec.dfy`);
- the server's mutable state. Each `Socket` object carries the `isAlive` flag
  the handlers update in place. The `Hub` holds the connected sockets. Its
  methods are the connection handler, the pong handler, the `broadcast`
  helper, the periodic broadcaster and the keepalive sweep, and each is
  proved to change the sockets exactly as the matching `ClientSpec` step
  (module `Server`, file `server.dfy`).

Each timer firing and each socket event is one method call, and the event
loop runs them one after another. A socket's `log` records the calls the
server makes on it: `send`, `ping` and `terminate`. So "sent exactly one
ping" means that exactly one `Pinged` was appended.

## Model

| member | source | states |
|---|---|---|
| `Telemetry.UnitFor` | server.js:27-38 | the unit is non-empty exactly for the eight names of `KEY_NAMES` (server.js:12-21) and is `''` for every other string |
| `Telemetry.MockReading` | server.js:55-70 | the reading carries the fixed asset id and exactly one entry; the entry's name is the drawn key, its unit is `UnitFor(key)`, its value and timestamp are the inputs, and its `type` is `"number"`; `keyName` repeats the key; the reading is well formed exactly when the key is a channel of the table, and then its unit is non-empty |
| `ClientSpec.Connected` | server.js:86-89 | a client right after the connection handler is alive, OPEN, and its log holds exactly the hello message with the configured interval; a sweep on it appends a ping |
| `ClientSpec.Offer` | server.js:77 | a broadcast appends the message to one client's log exactly when that client is OPEN; its flag and socket state never change |
| `ClientSpec.SweepOne` | server.js:99-102 | a sweep terminates a client exactly when its `isAlive` was false; otherwise it pings the client once and leaves the socket state alone; either way the client ends the sweep with `isAlive = false` |
| `ClientSpec.SweepAll` | server.js:98-104 | a sweep treats every client in the set on its own, as `SweepOne`, and keeps the set's size |
| `ClientSpec.PongAt` | server.js:83 | a pong sets `isAlive` on the receiving client only; every other client and the size of the set are unchanged |
| `ClientSpec.BroadcastAll` | server.js:74-79 | the same message is appended to the log of exactly the clients whose `readyState` is OPEN; every other client is left untouched |
| `ClientSpec.AliveBetweenSweeps` | server.js:83-87 | between two sweeps, a client is alive exactly when it was alive before or a pong has arrived since |
| `ClientSpec.FirstSweepSpares` | server.js:86 | a newly connected client starts alive, so the first sweep after it connects pings it and does not terminate it |
| `ClientSpec.TwoStrike` | server.js:98-104 | the second of two consecutive sweeps terminates a client exactly when no pong reached it between them |
| `ClientSpec.ResponsiveNeverTerminated` | server.js:98-104 | a client that answers every sweep with a pong before the next sweep is never terminated; its log only grows |
| `ClientSpec.RunHubProjects` | server.js:83-104 | over any run of server events, each client ends in the state given by replaying only the events that concern it |
| `ClientSpec.HubTwoStrike` | server.js:98-104 | two-strike rule for a client inside the whole server: the second of two consecutive sweeps terminates client `i` exactly when no pong of `i` arrived in between |
| `ClientSpec.HubFirstSweepSpares` | server.js:85-87 | a client that connects to the server is pinged, not terminated, by the first sweep after its connection |
| `ClientSpec.HubResponsiveNeverTerminated` | server.js:83-104 | within the whole server, a client that is alive, or pongs before the next sweep, and whose own events answer every sweep with a pong before the next one, is never terminated; its log only grows |
| `Server.Socket.Heartbeat` | server.js:83 | the pong handler sets this socket's `isAlive` and changes nothing else |
| `Server.Socket.Send` | server.js:77 | sending appends the message to the socket's log |
| `Server.Socket.Ping` | server.js:102 | pinging appends one ping to the socket's log |
| `Server.Socket.Terminate` | server.js:100 | a hard close moves the socket to CLOSING (unless already CLOSED) and records the termination |
| `Server.Socket.SendIfOpen` | server.js:77 | the broadcast callback for one client sends the message exactly when the socket is OPEN, as `Offer` |
| `Server.Socket.KeepaliveCheck` | server.js:99-102 | the keepalive callback for one client terminates it if `isAlive` is false, and otherwise clears the flag and pings it, as `SweepOne` |
| `Server.Hub.Connect` | server.js:85-90 | a new socket joins the client set; it is marked alive and sent the hello message with the configured interval; the other clients are unchanged |
| `Server.Hub.Pong` | server.js:87 | a pong on `ws` acts on the client set as `PongAt` at `ws`'s position, and changes nothing if `ws` is not in the set |
| `Server.Hub.Broadcast` | server.js:74-79 | the loop over the clients sends to the open ones and skips the rest, exactly as `BroadcastAll` |
| `Server.Hub.EmitReading` | server.js:93-95 | one broadcaster tick sends `MockReading` of the drawn channel to every open client, and that reading is well formed |
| `Server.Hub.Sweep` | server.js:98-104 | the keepalive loop terminates or flags and pings each client, exactly as `SweepAll` |

## Left out

- `generateValue` and `randomFrom` (server.js:23-25, 41-53) use `Math.random`, floating-point arithmetic and `toFixed` rounding. The drawn channel and value are inputs of `MockReading` and `Hub.EmitReading`, and the value ranges are not modelled. `Hub.EmitReading` requires the key to be one of `KEY_NAMES`, because `randomFrom(KEY_NAMES)` only returns elements of that list.
- Values are `real`. JavaScript floats and their rounding are not modelled. `typeof value` is the constant `"number"`, because every generated value is a number.
- `Date.now()` is the input `now`.
- `JSON.stringify` is not modelled. Messages are kept as structured values (`Message`), and the hello message's fixed `type` and `msg` fields are implicit in its constructor.
- The http server, `listen`, `setInterval`/`clearInterval`, the `close` handler of the server, `SIGINT`/`SIGTERM` handling, `shutdown` and `process.exit` (server.js:2-9, 106-123) are I/O and runtime scheduling. Each timer firing is an explicit method call instead.
- Reading `PORT` and `INTERVAL_MS` from the environment (server.js:5-6) and console logging are left out. The announced interval is the `Hub` constructor's parameter.
- The WebSocket library removes a socket from `wss.clients` when its close event fires. That happens inside the library, not in `server.js`, so the model keeps terminated sockets in the set, in state CLOSING. In the event-trace functions the client set only grows, so client positions stay stable.
- `Socket.Send` and `Socket.Ping` record the call even on a socket that is not OPEN. The library then sends nothing, and the model does not say what reaches the wire.

# Shared Bath: a verified model of the state-synchronisation core

Shared Bath lets several browsers watch and change one shared bath: a water
level and a temperature, each an integer in [0, 100]. The Node.js server holds
the authoritative copy (`globalState`) and the set of masked client addresses
(`connectedUsers`). Each browser either mirrors the server (online) or runs
the same ±2 clamp rule on its own copy (offline).

This project models that core in Dafny and proves its properties:

- `jsstring.dfy`, module `JsString`: the JavaScript string built-ins that
  `maskIP` relies on. `replace` with a string pattern replaces only the first
  occurrence. `split` and `join` use a one-character separator.
- `server.dfy`, module `Server` (src/server.js):
  - the shared state;
  - the guarded clamp step of the `action` handler;
  - `maskIP`;
  - the presence set, as a duplicate-free sequence in insertion order. This is
    what `Array.from(connectedUsers)` yields;
  - the event log and its handshake-before-broadcast discipline;
  - class `Hub`, whose `Connect`, `Action` and `Disconnect` methods are the
    three socket handlers. Each emit is appended to `outbox`. A broadcast
    records the set of sockets open when it is sent.
- `app.js` side, `app.dfy`, module `App` (src/public/app.js): the unguarded
  offline clamp of `handleAction`, and class `Controller`, which holds
  `isOnline`, `localState` and the outbound socket requests.
- `consistency.dfy`, module `Consistency`: the server and the client agree, one
  step at a time and along whole traces. Two protocol scenarios end the file: two
  sockets sharing one identity, and a replica converging after a broadcast.
- `wrappers.dfy`, module `Wrappers`: `Option`.

The model follows the code in these details of the client and the server:

- Going online does not discard `localState`. The copy is kept until `init`
  arrives (src/public/app.js:131-138).
- The `init` handler overwrites `localState` whether or not the client is
  online (src/public/app.js:157-161).
- The client's offline switch has no `< 100` / `> 0` guard. It agrees with the
  server exactly when both quantities are in [0, 100]. `StepsAgreeIffInRange`
  proves both directions.
- The server's state starts at `{0, 0}`, so both quantities stay even, and
  every change is exactly ±2. An odd value is never reached, so a step of +1
  (from 99) cannot happen.

## Model

| member | source | states |
|---|---|---|
| `JsString.IndexOfFrom` | src/server.js:28 | the result is the first position at or after `from` where the pattern occurs; `None` means it occurs nowhere there |
| `JsString.ReplaceFirst` | src/server.js:28 | with no occurrence the string is unchanged; otherwise exactly the first occurrence is replaced |
| `JsString.Split` | src/server.js:29 | there is one more piece than there are separators; no piece contains the separator; joining the pieces gives the input back |
| `JsString.SplitJoin` | src/server.js:29 | splitting a join of separator-free pieces gives the pieces back (the inverse of `Split`'s round trip) |
| `Server.Raise` | src/server.js:67 | `Math.min(100, v + 2)`: at most 100 and at most `v + 2`, and equal to one of them |
| `Server.Lower` | src/server.js:73 | `Math.max(0, v - 2)`: at least 0 and at least `v - 2`, and equal to one of them |
| `Server.ParseAction` | src/server.js:63-89 | a payload is recognised exactly when it spells one of FILL, DRAIN, HEAT, COOL, and then it names that tag |
| `Server.Apply` | src/server.js:61-89 | `changed` holds iff the state moved; [0,100] bounds and evenness are kept; unknown payloads change nothing; an action only touches its own field; FILL/HEAT change iff below 100 and DRAIN/COOL iff above 0, and then set the clamped value |
| `Server.ApplyStepIsTwo` | src/server.js:64-88 | from an in-range, even state every change moves exactly one field by exactly 2 |
| `Server.SaturationScenario` | src/server.js:64-76 | 98 → FILL → 100 with a change; FILL at 100 reports no change; DRAIN → 98 with a change |
| `Server.MaskIP` | src/server.js:26-37 | the result is `UNKNOWN` iff the address is absent or empty, and `Anonymous` iff it is non-empty and does not split into four pieces |
| `Server.MaskStripped` | src/server.js:28-34 | any non-empty address whose first `::ffff:` removed leaves four pieces `a.b.c.d` is masked to `a.***.c.***` (e.g. `::1.2.3.4` to `::1.***.3.***`) |
| `Server.MaskQuad` | src/server.js:31-34 | a dotted quad `a.b.c.d` is masked to `a.***.c.***` |
| `Server.MaskHidesHiddenPieces` | src/server.js:31-34 | two quads that differ only in their second and fourth pieces get the same mask |
| `Server.MaskMapped` | src/server.js:28 | `::ffff:x` gets the same mask as `x` for a non-empty `x` without colons |
| `Server.MaskAnonymous` | src/server.js:29-36 | a non-empty address without colons is `Anonymous` iff it does not contain exactly three dots |
| `Server.SetAdd` | src/server.js:47 | membership is the old members plus the identity; no duplicates appear; the size grows by one iff the identity is new; the existing order is kept |
| `Server.SetDelete` | src/server.js:101 | membership is the old members minus the identity; no duplicates appear; an absent identity changes nothing; a present one shrinks the size by one |
| `Server.SetDeleteKeepsOrder` | src/server.js:101 | deleting a present identity from a duplicate-free list removes exactly its entry and keeps the remaining identities in their order |
| `Server.SetDeletePrefix` | src/server.js:101 | deleting an identity absent from a prefix leaves that prefix in front, in order |
| `Server.SetAddIdempotent` | src/server.js:47 | connecting twice with the same identity gives the same presence as connecting once |
| `Server.DistinctCount` | src/server.js:53 | the length of the emitted user list is the number of distinct identities |
| `Server.HandshakeFirst` | src/server.js:47-57 | in a well-formed log, every socket that receives an `update` or `updateUserList` has received its `init` earlier |
| `Server.HandshakeOnce` | src/server.js:50-54 | in a well-formed log, no socket receives two `init` events |
| `Server.Hub.constructor` | src/server.js:17-23 | the state starts at `{0, 0}`; no users, no sockets, nothing emitted; the invariant holds |
| `Server.Hub.Connect` | src/server.js:40-57 | the masked identity is added to presence; the new socket gets `init` with the current state, its identity and a user list that already holds it; then `updateUserList` goes to every open socket including the new one; the invariant (bounds, presence ⊆ identities of open sockets, handshake-first log) is kept |
| `Server.Hub.ApplyAction` | src/server.js:61-89 | the in-place switch on the stored fields yields exactly the new state and `changed` flag of `Apply` |
| `Server.Hub.Action` | src/server.js:60-96 | the new state and `changed` are those of `Apply`; exactly one `update` with the new state goes to every open socket iff `changed`, otherwise nothing is emitted; presence is unchanged |
| `Server.Hub.Disconnect` | src/server.js:99-103 | the socket is closed; its identity leaves presence even if another open socket shares it; the new list goes to the remaining sockets; the state is unchanged |
| `App.LocalApply` | src/public/app.js:103-116 | bounds and evenness are kept; an unknown tag changes nothing; an action only touches its own field; each tag moves its field by at most 2 in its direction and yields the clamped ±2 value (`v + 2` or 100 for FILL/HEAT, `v - 2` or 0 for DRAIN/COOL) |
| `App.Controller.constructor` | src/public/app.js:9-13 | the client starts offline with `{0, 0}` and has sent nothing |
| `App.Controller.HandleAction` | src/public/app.js:92-119 | online: the copy is untouched and the tag is forwarded; offline: the copy becomes `LocalApply` of it and nothing is sent |
| `App.Controller.SetMode` | src/public/app.js:131-150 | `isOnline` becomes the checkbox value; the last-known copy is kept; the socket is told to connect or disconnect |
| `App.Controller.OnInit` | src/public/app.js:157-161 | the copy becomes the handshake's state in either mode |
| `App.Controller.OnUpdate` | src/public/app.js:164-174 | online: the copy becomes the pushed state; offline: the update is ignored |
| `Consistency.StepsAgreeIffInRange` | src/public/app.js:103-116 | the client's offline step equals the server's `action` step (src/server.js:64-88) on every payload iff both fields are in [0,100] |
| `Consistency.ServerTraceInRange` | src/server.js:60-89 | along any payload sequence from an in-range state, every server state is in range |
| `Consistency.LocalTraceInRange` | src/public/app.js:103-116 | along any action sequence from an in-range state, every offline client state is in range |
| `Consistency.TracesAgree` | src/public/app.js:104-115 | from the same in-range state, the server and an offline client follow identical trajectories |
| `Consistency.SharedIdentityScenario` | src/server.js:99-103 | two sockets from one address share one entry; after the first disconnects, the second is still open but no entry is listed and the count is 0 |
| `Consistency.ReplicaScenario` | src/public/app.js:157-173 | an online client that forwards FILL ends with the server's new state `{2, 0}` once the `update` arrives; an offline client ignores that `update` and keeps its locally heated `{0, 2}` |

## Left out

- Express, socket.io and HTTP setup, CORS, `server.listen` and the port, and all `console.log` output (src/server.js:1-13, 46, 94, 100, 106-114). These are library wiring and logging.
- Extracting the raw address from the handshake headers (src/server.js:42). `Hub.Connect` takes the resulting string as its input.
- Socket ids are random strings in socket.io. Here they are a counter (`nextId`), which is enough to tell connections apart.
- Server.Hub.Disconnect requires the socket to be open, because socket.io fires `disconnect` once, for a connected socket only.
- Server.Hub.Action is not tied to a socket. The handler reads nothing from its socket, and socket.io delivers `action` only from open sockets.
- Payloads that are not strings are left out. The `switch` compares with `===`, so such a payload matches no case, exactly like an unknown string.
- Delivery itself is left out: transport, best-effort multicast, ordering across the network and the event loop. Handlers are modelled as serialised method calls, and a broadcast as one outbox entry naming its recipients.
- Client rendering is left out: `updateDisplay`, the `ui` element map, the user count and user list DOM (`updateUserList` handler), and `getWaterColor`, which uses floating point (src/public/app.js:17-67, 177-186).
- `showWaterStream`, its timer, and the "someone else filled" effect are left out (src/public/app.js:72-86, 94-96, 166-169). They are visual only.
- The `socket.connect()` / `socket.disconnect()` calls and the user-list reset on going offline are recorded only as the `Open` / `Close` requests (src/public/app.js:138, 143-146).
- JavaScript aliasing is left out. `localState = data.state` and `socket.emit('init', { state: globalState })` share an object, but socket.io serialises it on send. The model uses values throughout.

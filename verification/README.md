# signal-fire router, modelled in Dafny

signal-fire is a WebSocket signalling server. Peers connect, and each is
given an identifier, which the server sends it in a `{"type":"id","peerId":…}`
notice. Peers then exchange opaque messages addressed by `receiverId`. The
`Server` class in `lib/Server.js` keeps one registry, `_localPeers`, which maps
identifiers to sockets. An optional relay links several server instances.

This project models that class as a pure state machine:

- `Server.State` holds the registry and the `peerId` attribute of every
  accepted socket. It also holds the configuration: whether a relay is
  configured, and what `options.generatePeerId` is.
- Each callback (`_onPeerConnection`, `_onPeerMessage`, `_onPeerError`,
  `_onPeerClose`, `_onRelayMessage`, `_onServerError`) is a function. It
  returns a trace of actions in the order the handler's statements run. The
  actions are: attach the identifier to the socket, insert, delete, and
  perform an effect.
- `Server.Step` replays the trace to get the next state. The trace's effects
  are the observable outcome: `peer.send`, `relay.send`,
  `relay.addLocalPeerId`, `relay.removeLocalPeerId`, `add_peer`,
  `remove_peer`, `unknown_receiver` on the sender, and error notifications.
- `Wire` models the identifier notice as `JSON.stringify` writes it. The
  string quoting follows ECMAScript's QuoteJSONString for every string of
  Unicode scalar values; lone surrogates are outside the model (see
  "## Left out"). A peer-side decoder shows that a peer always reads back its
  own identifier.
- `Runs` lifts single steps to sequences of events. It states the registry
  invariants along every run and the end-to-end scenarios.
- `AsWritten` models the three defects as the code has them: the connect
  handler's relay call, the `error` re-emission of `_onPeerError`, and the
  `_isLocalPeer` lookup as the message, relay and close handlers use it. See
  "## Findings".

Modules:

- `wrappers.dfy`: `Option`.
- `wire.dfy`: the identifier notice.
- `server.dfy`: state, events, effects, handlers and `Step`.
- `properties.dfy`: one-step properties.
- `runs.dfy`: runs and scenarios.
- `as_written.dfy`: the three defects.

Choices the code forces on the model, and the three places where the model
departs from it:

- **Identifier collisions.** Nothing checks that a generated identifier is
  free: line 57 overwrites any existing entry. The model overwrites too and
  proves what follows (`ConnectCollisionOverwrites`,
  `ShadowedCloseEvictsNewcomer`). It does not assume identifiers are fresh.
- **Relay-forwarded messages.** The code has no path for telling the sender
  that the relay does not know the receiver (line 77 is fire-and-forget), and
  neither does the model.
- **Falsy `receiverId`.** A message whose `receiverId` is falsy is dropped
  (line 71). That includes the empty string, which is falsy in JavaScript.
- **Departure 1: the relay call on connect.** Line 51 calls `this.relay`,
  which is never set. The main model uses the intended `this._relay` call;
  `AsWritten` models the line as written (see "## Findings").
- **Departure 2: socket errors.** Line 61 re-emits `error` on the socket
  whose `error` listener it is, which recurses without end. The main model
  surfaces the error once; `AsWritten` models the recursion (see
  "## Findings").
- **Departure 3: inherited keys.** Line 116 looks identifiers up on a plain
  object, so a name inherited from `Object.prototype` counts as local. The
  main model's registry is a true map; `AsWritten` models the lookup as the
  message (line 74), relay (line 102) and close (line 86) handlers use it
  (see "## Findings", third row).

## Model

| member | source | states |
|---|---|---|
| Wire.EscapeChar | lib/Server.js:44-47 | one character's JSON text is never a bare quote, a control character is always escaped, and only a character that needs no escape stands for itself |
| Wire.Escape | lib/Server.js:44-47 | the quoted body of an identifier is at least as long as the identifier |
| Wire.Unquote | lib/Server.js:44-47 | reading a JSON string literal consumes its closing quote, so what follows is strictly shorter than the input |
| Wire.UnquoteEscape | lib/Server.js:44-47 | round trip: decoding the JSON-quoted form of any identifier gives back the identifier and leaves the following text untouched |
| Wire.IdNotice | lib/Server.js:44-47 | the notice begins with the fixed `{"type":"id","peerId":"` prefix and is long enough to hold the whole identifier |
| Wire.IdNoticeRoundTrip | lib/Server.js:44-47 | a peer that parses its notice reads back exactly the identifier it was assigned |
| Wire.IdNoticeInjective | lib/Server.js:44-47 | two notices are equal if and only if they carry the same identifier |
| Server.Init | lib/Server.js:6-12 | a newly built server has an empty registry and keeps its configuration |
| Server.IsLocalPeer | lib/Server.js:115-117 | a peer is local exactly when its identifier is a key of the registry map; inherited prototype members are the as-written defect modelled in `AsWritten` |
| Server.GeneratePeerId | lib/Server.js:106-113 | a configured generator that is a function supplies the identifier; a missing, falsy or non-function option falls back to shortid |
| Server.Receiver | lib/Server.js:65-71 | a message is routable if and only if it parsed to a non-null value with a truthy (non-empty) `receiverId`, and then that field is the target |
| Server.OnConnection | lib/Server.js:34-58 | the connect handler first attaches the generated identifier to the socket and ends by inserting it into the registry |
| Server.OnPeerMessage | lib/Server.js:64-83 | message handling performs at most one action, and it is never a registry update |
| Server.OnPeerError | lib/Server.js:60-62 | error handling never touches the registry |
| Server.OnPeerClose | lib/Server.js:85-97 | the close handler only deletes from the registry or performs effects |
| Server.OnRelayMessage | lib/Server.js:99-104 | relay delivery performs at most one action, and it is never a registry update |
| Server.OnServerError | lib/Server.js:30-32 | handling a server error performs only effects, never a registry update |
| Server.Handle | lib/Server.js:19-41 | each event runs the handler it is wired to; only a connect attaches identifiers or inserts into the registry, only a close deletes, and a connect's first action attaches the generated identifier |
| Server.Step | lib/Server.js:30-104 | the configuration never changes; messages, relay deliveries and errors leave the whole state unchanged |
| ServerProperties.ConsistentIsInjective | lib/Server.js:36-57 | in a consistent registry, two identifiers map to the same socket only if they are the same identifier |
| ServerProperties.ConnectRegisters | lib/Server.js:34-58 | after a connect, the generated identifier is local and maps to the new socket, and every other entry is kept. The effects are the id notice, then the relay claim when a relay is configured, then `add_peer`. The notice decodes to that identifier |
| ServerProperties.ConnectInsertsLast | lib/Server.js:44-57 | every action of a connect before the last one, `add_peer` included, runs with the registry as it was before; registration is the last step |
| ServerProperties.ConnectCollisionOverwrites | lib/Server.js:57 | no collision check: a drawn identifier already in use is taken over without growing the registry; a fresh one grows it by exactly one |
| ServerProperties.ShadowedCloseEvictsNewcomer | lib/Server.js:57-97 | once a newcomer has overwritten an identifier, closing the socket that held it before removes the newcomer's entry and emits `remove_peer` for it |
| ServerProperties.UnroutableIsNoOp | lib/Server.js:65-71 | a parse failure, a null, or a missing or falsy `receiverId` produces no effect and leaves the state unchanged |
| ServerProperties.LocalDelivery | lib/Server.js:72-74 | a message for a local peer yields exactly one send of the unmodified data to that peer's socket, and nothing else |
| ServerProperties.RelayForwarding | lib/Server.js:75-77 | with a relay configured, a message for a peer that is not local yields exactly one `relay.send(receiverId, data)` |
| ServerProperties.UnknownReceiver | lib/Server.js:78-80 | with no relay, a message for a peer that is not local yields exactly one `unknown_receiver(receiverId)` on the sending socket |
| ServerProperties.RoutingExclusive | lib/Server.js:64-83 | a message has at most one effect. Each of local send, relay send and `unknown_receiver` happens if and only if its condition holds, and the state never changes |
| ServerProperties.PeerErrorReportsOnce | lib/Server.js:60-62 | a socket error yields exactly one error notification for that socket and removes nothing |
| ServerProperties.ServerErrorReEmits | lib/Server.js:30-32 | a server error yields exactly one `error` emission on the server carrying the same value, and changes nothing |
| ServerProperties.CloseRemoves | lib/Server.js:85-96 | closing a registered socket removes exactly its identifier, then releases it at the relay when one is configured, then emits `remove_peer(id)` |
| ServerProperties.CloseUnregisteredIsNoOp | lib/Server.js:86 | closing a socket whose identifier is not registered has no effect and changes nothing |
| ServerProperties.CloseIdempotent | lib/Server.js:85-96 | a second close of the same socket has no effect at all |
| ServerProperties.ClosedSocketLeavesRegistry | lib/Server.js:85-96 | in a consistent state, after its close the socket is not in the registry under any identifier |
| ServerProperties.RelayInbound | lib/Server.js:99-104 | a relay delivery to a local identifier yields exactly one send of the unmodified data; to any other identifier it yields nothing; the state is unchanged |
| ServerProperties.NothingReachesUnacceptedSocket | lib/Server.js:34-104 | in a consistent state, a socket not yet accepted receives no send from any event other than its own connect, and stays unaccepted |
| ServerProperties.StepPreservesConsistent | lib/Server.js:34-97 | if every connect is on a new socket, each step keeps every registered identifier equal to the `peerId` of the socket it maps to |
| ServerProperties.NoRelayMembershipChange | lib/Server.js:60-83 | messages, relay deliveries and errors never claim or release identifiers at the relay |
| ServerProperties.StepKeepsRelayMirror | lib/Server.js:50-52 | with a relay, a step keeps the relay's claimed identifiers equal to the registry's keys |
| Runs.Run | lib/Server.js:34-104 | a sequence of events never changes the configuration |
| Runs.RunPreservesConsistent | lib/Server.js:34-97 | along every valid run, the registry stays consistent with the sockets' identifiers |
| Runs.ReachableIsConsistent | lib/Server.js:6-12 | every run from a new server ends in a consistent registry |
| Runs.RunKeepsRelayMirror | lib/Server.js:50-92 | with a relay, the identifiers claimed at the relay after any run are exactly the registered ones |
| Runs.NoResurrection | lib/Server.js:85-97 | an identifier that is not local stays non-local through any run with no connect that generates it |
| Runs.UnregisteredStaysUnregistered | lib/Server.js:34-97 | along a valid run, an attached socket that is not registered is never registered again |
| Runs.CloseIsFinal | lib/Server.js:85-97 | closing is terminal: no later event of a valid run puts the closed socket back in the registry |
| Runs.NoSendBeforeConnect | lib/Server.js:34-104 | along a valid run with no connect for a socket, that socket receives nothing and stays unaccepted |
| Runs.IdNoticeIsFirstMessage | lib/Server.js:43-47 | the id notice is the first message a peer ever receives. Up to its connect the socket is sent nothing, and the connect's first effect is the notice carrying the generated identifier |
| Runs.SameEnvelopeTwice | lib/Server.js:72-74 | sending one envelope twice to a local peer delivers it twice, identical and in order, without changing the state |
| Runs.ScenarioDirectDelivery | lib/Server.js:34-74 | X and Y connect and each receives its own notice and `add_peer`; X's envelope to Y's identifier reaches Y with exactly those bytes |
| Runs.ScenarioUnknownReceiver | lib/Server.js:78-80 | without a relay, an envelope to an unknown identifier is reported to its sender alone |
| Runs.ScenarioAfterDisconnect | lib/Server.js:85-96 | after X closes, `remove_peer` names X's identifier, and without a relay Y's envelope to it is reported back to Y |
| Runs.ScenarioMalformed | lib/Server.js:65-70 | malformed data produces no effect and no state change |
| Runs.ScenarioRelayForward | lib/Server.js:75-77 | with a relay, an envelope to an identifier that is not local goes to the relay with its raw bytes, and there is no `unknown_receiver` |
| AsWritten.OnConnectionAsWritten | lib/Server.js:49-52 | as written, a connect with a relay configured throws after sending the notice and before the rest of the handler runs; without a relay it is the intended handler |
| AsWritten.RelayTypoBlocksRegistration | lib/Server.js:10-57 | as written, with a relay configured, a connect sends only the id notice: the peer is never registered, claimed at the relay or announced. The intended handler does all three |
| AsWritten.RelayTypoMisroutesLaterMessages | lib/Server.js:51-77 | as written, an envelope addressed to a peer that was told its identifier but never registered goes to the relay instead of to that peer |
| AsWritten.ReEmitAlwaysOverflows | lib/Server.js:40-62 | with the router's re-emitting listener first on a socket, every `error` emission overflows the call stack, whatever its depth, and notifies no observer |
| AsWritten.ObserversNotifiedOnce | lib/Server.js:60-62 | with no re-entrant listener, the listener loop of one `error` emission calls every observer exactly once, in registration order, with no overflow |
| AsWritten.EmitToObserversOnly | lib/Server.js:60-62 | with only observers listening and at least one free stack frame, one `error` emission calls every observer exactly once, in registration order, with no overflow |
| AsWritten.OnPeerMessageAsWritten | lib/Server.js:64-83 | as written, the message handler throws exactly when the truthy receiver is not a registered identifier but names an inherited `Object.prototype` member; otherwise it is the intended handler |
| AsWritten.OnRelayMessageAsWritten | lib/Server.js:99-104 | as written, relay delivery throws exactly when the identifier is not registered but names an inherited member; otherwise it is the intended handler |
| AsWritten.InheritedReceiverThrows | lib/Server.js:72-74 | as written, an envelope addressed to an inherited member such as `"constructor"` throws with no effect, where the intended router relays it or reports `unknown_receiver` |
| AsWritten.InheritedRelayTargetThrows | lib/Server.js:100-102 | as written, a relay delivery for an inherited member throws, where the intended router drops it silently |
| AsWritten.OnPeerCloseAsWritten | lib/Server.js:85-97 | as written, the close handler is the intended one except for a socket whose identifier is unregistered and names an inherited member; whenever the identifier names an inherited member the handler ends by emitting `remove_peer` |
| AsWritten.InheritedCloseRepeatsRemoval | lib/Server.js:86-95 | as written, closing a socket whose identifier names an inherited member releases it at the relay and emits `remove_peer` on every close, the first and the second alike, where the intended handler does nothing once the identifier is gone |
| AsWritten.OwnKeysRouteAsIntended | lib/Server.js:64-83 | for receivers that are absent, registered, or not inherited members, the message handler as written equals the intended one |

## Left out

- Server start-up (`start`, lines 14-28): constructing the WebSocket server,
  wiring the listeners and resolving the Promise. This is transport
  plumbing. Events simply arrive in `Server.Step`.
- Handler wiring on each socket (lines 39-41). It is not an action: only the
  handlers that follow it are modelled.
- `JSON.parse`: a library call, abstracted as `Parsed`. A parse error and
  the JSON text `null` are both `Unparsable`. Every other value carries an
  optional string `receiverId`. A truthy `receiverId` that is not a string
  (a number, say) is outside the model.
- `shortid.generate()` and the custom generator function. They are outside
  code, so their outputs come in as the `IdDraw` of a connect event. A custom
  generator that returns a non-string is outside the model.
- Server.IsLocalPeer: the registry is a true map, not the plain object of
  line 116. On that object an identifier naming an inherited
  `Object.prototype` member (`"constructor"`, `"__proto__"`, `"toString"`, …)
  counts as local, and `send` is then called on a value that has none, so the
  source throws a TypeError at line 74 (a peer message) or line 102 (a relay
  delivery). The close guard at line 86 uses the same lookup: a socket whose
  identifier is such a member and is no longer registered still passes it,
  deletes nothing, and releases the identifier at the relay and emits
  `remove_peer` again (lines 92 and 95).
  `ServerProperties.UnknownReceiver`, `RelayForwarding`, `RoutingExclusive`,
  `RelayInbound`, `CloseUnregisteredIsNoOp` and `CloseIdempotent`, and
  `Runs.NoResurrection` when "local" is read as `_isLocalPeer`, describe the
  intended router and do not describe those inputs; `AsWritten` models the
  throw and the repeated removal (see "## Findings"). An identifier generated as `"__proto__"`, which line 57
  would not store as an own key, is not modelled.
- EventEmitter mechanics. Emissions are effect records. The re-emitted
  socket error is modelled in `AsWritten`; the behaviour of an `error`
  emission nobody listens to is the next line.
- Server.OnServerError: models the re-emission as an effect record only. In
  Node, `emit('error')` with no `error` listener throws, and
  bin/signal-fire.js registers none, so there a server error ends the process;
  the model does not track listeners on the server.
- Strings are sequences of Unicode scalar values, whereas JavaScript strings
  are UTF-16 code units. An identifier or message holding a lone surrogate
  (which QuoteJSONString writes as a `\uXXXX` escape) cannot be expressed,
  and the decoder rejects such escapes.
- The `code` and `message` arguments of the close callback. The source
  ignores them.
- Sends on a transport that has already closed. These are the transport's
  concern, not the router's.
- `bin/signal-fire.js`: command-line parsing and console logging are glue.
  Its `remove_peer` logger reads `.peerId` off the identifier string, which
  affects only the log.
- AsWritten.OnConnectionAsWritten: models the thrown TypeError only as where
  the handler stops. What the uncaught exception does to the WebSocket
  server's dispatch and to the process is not modelled.
- AsWritten.ReEmitAlwaysOverflows: models the call stack as a count of
  frames. It does not model the RangeError's message or where it surfaces.

## Findings

| source | as written | input that shows it | evidently intended | confidence | as-written member | corrected member |
|---|---|---|---|---|---|---|
| lib/Server.js:50-52 | `this.relay.addLocalPeerId(peerId)`. The constructor stores the relay as `this._relay` (line 10), so `this.relay` is undefined and the call throws a TypeError | any connection to a server built with a `relay` option | `this._relay.addLocalPeerId(peerId)`, followed by `add_peer` and registration | high; not executed | AsWritten.RelayTypoBlocksRegistration | ServerProperties.ConnectRegisters |
| lib/Server.js:40, 60-62 | the router listens for `error` on each socket and handles it with `peer.emit('error', error)` on that same socket, which calls its own listener again without end | any socket error on a connected peer | surface the error once to observers without re-entering the router's listener | high; not executed | AsWritten.ReEmitAlwaysOverflows | ServerProperties.PeerErrorReportsOnce |
| lib/Server.js:72-74, 86-95, 100-102, 115-117 | `_isLocalPeer` tests `!!this._localPeers[peerId]` on a plain object, so an inherited member such as `constructor` is "local": `.send(data)` on it throws a TypeError, and the close guard lets an unregistered socket named after it release the identifier and emit `remove_peer` again | any peer sends `{"receiverId":"constructor"}`, or the relay delivers for `"toString"`, or a socket whose identifier `"toString"` was already removed closes | a registered identifier only (an own-property or `Map` lookup), so the envelope is relayed or reported as `unknown_receiver`, and the close does nothing | high; not executed | AsWritten.InheritedReceiverThrows | ServerProperties.RoutingExclusive |

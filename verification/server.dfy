/**
 The peer registry and message router of signal-fire's `Server` class
 (lib/Server.js). The server owns one registry, `_localPeers`, from peer
 identifier to socket; every event handler is modelled as a pure function
 from the current state and the event to a trace of actions, in the order
 the handler's statements run. Replaying the trace gives the next state;
 its `Perform` actions are the observable effects.
 */
module Server {
  import opened Wrappers
  import Wire

  /** A peer identifier: produced by the configured generator, a string on the wire. */
  type PeerId = string

  /** The identity of one socket object accepted by the WebSocket server. */
  type ConnId = nat

  /** Raw message data, forwarded verbatim and never re-encoded. */
  type Data = string

  /** An error value passed through to observers unchanged. */
  type ErrorValue = string

  /**
   The result of `JSON.parse(data)` as the router sees it. `Unparsable` covers
   both a parse error and the JSON text `null`: either leaves `msg` null.
   `Json(None)` is any other value without a `receiverId` property
   (numbers, strings, arrays, objects lacking the field).
   */
  datatype Parsed = Unparsable | Json(receiverId: Option<string>)

  /**
   What `options.generatePeerId` holds: nothing (or a falsy value), a truthy
   value that is not a function, or a function.
   */
  datatype Generator = NoCustom | NotAFunction | CustomFunction

  /**
   The identifiers the two generators would return on this call: the custom
   function's and `shortid.generate()`'s. Both are outside the model.
   */
  datatype IdDraw = IdDraw(custom: PeerId, shortid: PeerId)

  /** Constructor options that matter to routing: whether a relay is configured, and the generator. */
  datatype Config = Config(hasRelay: bool, generator: Generator)

  /**
   The server's state: the registry `_localPeers`, the `peerId` attribute
   each accepted socket was given, and the configuration.
   */
  datatype State = State(localPeers: map<PeerId, ConnId>, peerIdOf: map<ConnId, PeerId>, config: Config)

  /** The callbacks that drive the server. */
  datatype Event =
    | Connection(conn: ConnId, draw: IdDraw)                    // `_onPeerConnection`
    | PeerMessage(conn: ConnId, data: Data, parsed: Parsed)     // `_onPeerMessage`
    | PeerError(conn: ConnId, error: ErrorValue)                // `_onPeerError`
    | PeerClose(conn: ConnId)                                   // `_onPeerClose`
    | RelayMessage(peerId: PeerId, data: Data)                  // `_onRelayMessage`
    | ServerError(error: ErrorValue)                            // `_onServerError`

  /** Everything the server does that others can observe. */
  datatype Effect =
    | SendTo(conn: ConnId, data: Data)                          // `peer.send(data)`
    | RelaySend(peerId: PeerId, data: Data)                     // `relay.send(peerId, data)`
    | RelayAdd(peerId: PeerId)                                  // `relay.addLocalPeerId(peerId)`
    | RelayRemove(peerId: PeerId)                               // `relay.removeLocalPeerId(peerId)`
    | EmitAddPeer(conn: ConnId)                                 // server emits `add_peer`
    | EmitRemovePeer(peerId: PeerId)                            // server emits `remove_peer`
    | EmitUnknownReceiver(conn: ConnId, receiverId: PeerId)     // sending peer emits `unknown_receiver`
    | EmitPeerError(conn: ConnId, error: ErrorValue)            // peer-level error notification
    | EmitServerError(error: ErrorValue)                        // server emits `error`

  /** One statement of a handler: a state update or an effect. */
  datatype Action =
    | AttachId(conn: ConnId, peerId: PeerId)                    // `peer.peerId = peerId`
    | Insert(peerId: PeerId, conn: ConnId)                      // `_localPeers[peerId] = peer`
    | Delete(peerId: PeerId)                                    // `delete _localPeers[peerId]`
    | Perform(effect: Effect)

  /** The state after a handler, and the effects it produced in order. */
  datatype Outcome = Outcome(next: State, effects: seq<Effect>)

  /** A freshly constructed server: nobody is connected. */
  function Init(config: Config): (s: State)
    ensures s.localPeers == map[] && s.peerIdOf == map[]
    ensures s.config == config
  {
    State(map[], map[], config)
  }

  /** `_generatePeerId`: a configured function wins; otherwise `shortid.generate()`. */
  function GeneratePeerId(g: Generator, draw: IdDraw): (id: PeerId)
    ensures g.CustomFunction? ==> id == draw.custom
    ensures !g.CustomFunction? ==> id == draw.shortid
  {
    match g
    case CustomFunction => draw.custom
    case NoCustom => draw.shortid
    case NotAFunction => draw.shortid
  }

  /** `_isLocalPeer`: the identifier has an entry in the registry. */
  predicate IsLocalPeer(s: State, id: PeerId): (b: bool)
    ensures b <==> id in s.localPeers.Keys
  {
    id in s.localPeers
  }

  /** The truthy `receiverId` of a parsed message, if it has one (the empty string is falsy). */
  function Receiver(parsed: Parsed): (r: Option<PeerId>)
    ensures r.Some? <==> parsed.Json? && parsed.receiverId.Some? && parsed.receiverId.value != ""
    ensures r.Some? ==> r.value == parsed.receiverId.value
  {
    match parsed
    case Unparsable => None
    case Json(rid) => if rid.Some? && rid.value != "" then rid else None
  }

  /** The state change of one action; effects leave the state alone. */
  function Apply(s: State, a: Action): (r: State)
    ensures r.config == s.config
  {
    match a
    case AttachId(conn, id) => s.(peerIdOf := s.peerIdOf[conn := id])
    case Insert(id, conn) => s.(localPeers := s.localPeers[id := conn])
    case Delete(id) => s.(localPeers := s.localPeers - {id})
    case Perform(_) => s
  }

  /** Runs the actions of a trace in order. */
  function Replay(s: State, t: seq<Action>): (r: State)
    ensures r.config == s.config
    ensures (forall i :: 0 <= i < |t| ==> t[i].Perform?) ==> r == s
    decreases |t|
  {
    if |t| == 0 then s else Replay(Apply(s, t[0]), t[1..])
  }

  /** The observable effects of a trace, in order. */
  function EffectsOf(t: seq<Action>): (es: seq<Effect>)
    ensures |es| <= |t|
    ensures forall e :: e in es <==> Perform(e) in t
  {
    if |t| == 0 then [] else (if t[0].Perform? then [t[0].effect] else []) + EffectsOf(t[1..])
  }

  /**
   `_onPeerConnection`: give the socket its identifier, send it the id notice,
   claim the identifier at the relay, announce the peer, and register it last.
   The relay call is the intended `this._relay.addLocalPeerId`.
   */
  function OnConnection(s: State, conn: ConnId, draw: IdDraw): (t: seq<Action>)
    ensures |t| >= 4
    ensures t[0] == AttachId(conn, GeneratePeerId(s.config.generator, draw))
    ensures t[|t| - 1] == Insert(GeneratePeerId(s.config.generator, draw), conn)
  {
    var id := GeneratePeerId(s.config.generator, draw);
    [AttachId(conn, id), Perform(SendTo(conn, Wire.IdNotice(id)))]
    + (if s.config.hasRelay then [Perform(RelayAdd(id))] else [])
    + [Perform(EmitAddPeer(conn)), Insert(id, conn)]
  }

  /** `_onPeerMessage`: drop, deliver locally, forward to the relay, or report an unknown receiver. */
  function OnPeerMessage(s: State, conn: ConnId, data: Data, parsed: Parsed): (t: seq<Action>)
    ensures |t| <= 1
    ensures forall i :: 0 <= i < |t| ==> t[i].Perform?
  {
    match Receiver(parsed)
    case None => []
    case Some(rid) =>
      if IsLocalPeer(s, rid) then [Perform(SendTo(s.localPeers[rid], data))]
      else if s.config.hasRelay then [Perform(RelaySend(rid, data))]
      else [Perform(EmitUnknownReceiver(conn, rid))]
  }

  /**
   `_onPeerError`, as intended: the socket's error is surfaced once to
   observers and nothing is removed.
   */
  function OnPeerError(conn: ConnId, error: ErrorValue): (t: seq<Action>)
    ensures forall i :: 0 <= i < |t| ==> t[i].Perform?
  {
    [Perform(EmitPeerError(conn, error))]
  }

  /**
   `_onPeerClose`: if the socket's identifier is still registered, remove it
   from the registry and from the relay, then announce the removal. The
   close handler is wired only after the identifier is attached, so a socket
   without one never closes here; the model treats it as a no-op.
   */
  function OnPeerClose(s: State, conn: ConnId): (t: seq<Action>)
    ensures forall i :: 0 <= i < |t| ==> t[i].Perform? || t[i].Delete?
  {
    if conn !in s.peerIdOf then []
    else
      var id := s.peerIdOf[conn];
      if IsLocalPeer(s, id) then
        [Delete(id)] + (if s.config.hasRelay then [Perform(RelayRemove(id))] else []) + [Perform(EmitRemovePeer(id))]
      else []
  }

  /** `_onRelayMessage`: deliver to a local peer, or drop silently. */
  function OnRelayMessage(s: State, id: PeerId, data: Data): (t: seq<Action>)
    ensures |t| <= 1
    ensures forall i :: 0 <= i < |t| ==> t[i].Perform?
  {
    if IsLocalPeer(s, id) then [Perform(SendTo(s.localPeers[id], data))] else []
  }

  /** `_onServerError`: re-emitted on the server. */
  function OnServerError(error: ErrorValue): (t: seq<Action>)
    ensures forall i :: 0 <= i < |t| ==> t[i].Perform?
  {
    [Perform(EmitServerError(error))]
  }

  /**
   The listener wiring: each event runs its own handler. Only a connect
   attaches identifiers or inserts into the registry, and only a close
   deletes from it.
   */
  function Handle(s: State, e: Event): (t: seq<Action>)
    ensures forall i :: 0 <= i < |t| && (t[i].AttachId? || t[i].Insert?) ==> e.Connection?
    ensures forall i :: 0 <= i < |t| && t[i].Delete? ==> e.PeerClose?
    ensures e.Connection? ==> |t| > 0 && t[0] == AttachId(e.conn, GeneratePeerId(s.config.generator, e.draw))
  {
    match e
    case Connection(conn, draw) => OnConnection(s, conn, draw)
    case PeerMessage(conn, data, parsed) => OnPeerMessage(s, conn, data, parsed)
    case PeerError(conn, error) => OnPeerError(conn, error)
    case PeerClose(conn) => OnPeerClose(s, conn)
    case RelayMessage(id, data) => OnRelayMessage(s, id, data)
    case ServerError(error) => OnServerError(error)
  }

  /**
   One event, start to finish. The configuration never changes, and only
   connect and close touch the state: routing, relay delivery and errors
   leave the registry exactly as it was.
   */
  function Step(s: State, e: Event): (r: Outcome)
    ensures r.next.config == s.config
    ensures !e.Connection? && !e.PeerClose? ==> r.next == s
  {
    var t := Handle(s, e);
    Outcome(Replay(s, t), EffectsOf(t))
  }
}

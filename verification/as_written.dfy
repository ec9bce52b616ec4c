/**
 Three defects of lib/Server.js as the code has them, next to the intended
 behaviour the rest of the model uses.

 1. `_onPeerConnection` reaches the relay through `this.relay`, but the
    constructor stores it in `this._relay`; with a relay configured the call
    throws a TypeError after the id notice is sent and before `add_peer` and
    the registry insertion.
 2. `_onPeerError` is subscribed to a socket's `error` event and re-emits
    `error` on that same socket, which calls itself again: every socket error
    ends in a call-stack overflow.
 3. `_isLocalPeer` looks the identifier up on a plain object, so a name
    inherited from `Object.prototype` counts as local; the handler then calls
    `send` on that inherited member, which has none, and throws; the close
    handler's guard, the same lookup, lets such a socket announce its removal
    again after its identifier is gone.
 */
module AsWritten {
  import opened Wrappers
  import opened Server
  import opened ServerProperties
  import Wire

  /* ---------- the relay property name in the connect handler ---------- */

  /** How a handler run ends: normally, or by a thrown TypeError after part of its trace. */
  datatype Attempt = Returned(trace: seq<Action>) | TypeErrorAfter(trace: seq<Action>)

  /**
   `_onPeerConnection` as written: `this.relay` is undefined, so with a relay
   configured, calling `addLocalPeerId` on it throws once the notice is sent.
   Without a relay the handler is the intended one.
   */
  function OnConnectionAsWritten(s: State, conn: ConnId, draw: IdDraw): (r: Attempt)
    ensures !s.config.hasRelay ==> r == Returned(OnConnection(s, conn, draw))
    ensures s.config.hasRelay ==> r.TypeErrorAfter? && |r.trace| < |OnConnection(s, conn, draw)|
  {
    var id := GeneratePeerId(s.config.generator, draw);
    var beforeRelay := [AttachId(conn, id), Perform(SendTo(conn, Wire.IdNotice(id)))];
    if s.config.hasRelay then TypeErrorAfter(beforeRelay)
    else
      var afterRelay := [Perform(EmitAddPeer(conn)), Insert(id, conn)];
      assert beforeRelay + [] + afterRelay == beforeRelay + afterRelay;
      Returned(beforeRelay + afterRelay)
  }

  /**
   With a relay configured, the connect handler as written never registers
   the new peer, never claims it at the relay and never announces it, while
   the intended handler does all three.
   */
  lemma RelayTypoBlocksRegistration(s: State, conn: ConnId, draw: IdDraw)
    requires s.config.hasRelay
    requires GeneratePeerId(s.config.generator, draw) !in s.localPeers
    ensures var id := GeneratePeerId(s.config.generator, draw);
            var r := OnConnectionAsWritten(s, conn, draw);
            && r.TypeErrorAfter?
            && !IsLocalPeer(Replay(s, r.trace), id)
            && EffectsOf(r.trace) == [SendTo(conn, Wire.IdNotice(id))]
            && IsLocalPeer(Step(s, Connection(conn, draw)).next, id)
            && RelayAdd(id) in Step(s, Connection(conn, draw)).effects
            && EmitAddPeer(conn) in Step(s, Connection(conn, draw)).effects
  {
    var id := GeneratePeerId(s.config.generator, draw);
    var t := OnConnectionAsWritten(s, conn, draw).trace;
    assert t == [AttachId(conn, id)] + [Perform(SendTo(conn, Wire.IdNotice(id)))];
    ReplayAppend(s, [AttachId(conn, id)], [Perform(SendTo(conn, Wire.IdNotice(id)))]);
    ConnectRegisters(s, conn, draw);
  }

  /**
   A consequence: the peer was told its identifier, but an envelope another
   peer addresses to it is handed to the relay instead of being delivered.
   */
  lemma RelayTypoMisroutesLaterMessages(s: State, conn: ConnId, draw: IdDraw, sender: ConnId, data: Data)
    requires s.config.hasRelay
    requires GeneratePeerId(s.config.generator, draw) !in s.localPeers
    requires GeneratePeerId(s.config.generator, draw) != ""
    ensures var id := GeneratePeerId(s.config.generator, draw);
            var s1 := Replay(s, OnConnectionAsWritten(s, conn, draw).trace);
            Step(s1, PeerMessage(sender, data, Json(Some(id)))).effects == [RelaySend(id, data)]
  {
    RelayTypoBlocksRegistration(s, conn, draw);
    var id := GeneratePeerId(s.config.generator, draw);
    var s1 := Replay(s, OnConnectionAsWritten(s, conn, draw).trace);
    RelayForwarding(s1, sender, data, Json(Some(id)));
  }

  /* ---------- inherited keys of the registry object ---------- */

  /**
   The members every plain object inherits from `Object.prototype`. Looking
   one of them up on `_localPeers` yields a truthy value without a `send`.
   */
  const InheritedKeys: set<string> := {
    "constructor", "__proto__", "toString", "toLocaleString", "valueOf",
    "hasOwnProperty", "isPrototypeOf", "propertyIsEnumerable",
    "__defineGetter__", "__defineSetter__", "__lookupGetter__", "__lookupSetter__"
  }

  /** `_isLocalPeer` as written: `!!this._localPeers[peerId]` is also true of inherited members. */
  predicate IsLocalPeerAsWritten(s: State, id: PeerId)
  {
    id in s.localPeers || id in InheritedKeys
  }

  /**
   `_onPeerMessage` as written: a receiver that names an inherited member and
   is not a registered identifier passes the local test, and calling `send`
   on the inherited value throws before anything is sent.
   */
  function OnPeerMessageAsWritten(s: State, conn: ConnId, data: Data, parsed: Parsed): (r: Attempt)
    ensures r.Returned? ==> r.trace == OnPeerMessage(s, conn, data, parsed)
    ensures r.TypeErrorAfter? <==> Receiver(parsed).Some? && Receiver(parsed).value !in s.localPeers && Receiver(parsed).value in InheritedKeys
  {
    match Receiver(parsed)
    case Some(rid) =>
      if rid !in s.localPeers && IsLocalPeerAsWritten(s, rid) then TypeErrorAfter([])
      else Returned(OnPeerMessage(s, conn, data, parsed))
    case None => Returned(OnPeerMessage(s, conn, data, parsed))
  }

  /** `_onRelayMessage` as written: the same lookup, the same throw for inherited members. */
  function OnRelayMessageAsWritten(s: State, id: PeerId, data: Data): (r: Attempt)
    ensures r.Returned? ==> r.trace == OnRelayMessage(s, id, data)
    ensures r.TypeErrorAfter? <==> id !in s.localPeers && id in InheritedKeys
  {
    if id !in s.localPeers && IsLocalPeerAsWritten(s, id) then TypeErrorAfter([])
    else Returned(OnRelayMessage(s, id, data))
  }

  /**
   Any peer can make the message handler throw by addressing an envelope to
   `"constructor"` (or any other inherited member): nothing is delivered,
   forwarded or reported, whereas the intended router produces exactly one
   effect, the relay send or the `unknown_receiver` report.
   */
  lemma InheritedReceiverThrows(s: State, conn: ConnId, data: Data, key: PeerId)
    requires key in InheritedKeys && key !in s.localPeers
    ensures var r := OnPeerMessageAsWritten(s, conn, data, Json(Some(key)));
            && r.TypeErrorAfter? && EffectsOf(r.trace) == []
            && Step(s, PeerMessage(conn, data, Json(Some(key)))).effects
                 == (if s.config.hasRelay then [RelaySend(key, data)] else [EmitUnknownReceiver(conn, key)])
  {
    assert key != "";
    if s.config.hasRelay {
      RelayForwarding(s, conn, data, Json(Some(key)));
    } else {
      UnknownReceiver(s, conn, data, Json(Some(key)));
    }
  }

  /** Likewise, a relay delivery for an inherited member throws instead of being dropped. */
  lemma InheritedRelayTargetThrows(s: State, key: PeerId, data: Data)
    requires key in InheritedKeys && key !in s.localPeers
    ensures OnRelayMessageAsWritten(s, key, data).TypeErrorAfter?
    ensures Step(s, RelayMessage(key, data)) == Outcome(s, [])
  {
    RelayInbound(s, key, data);
  }

  /** Away from inherited members, the handlers as written are the intended ones. */
  lemma OwnKeysRouteAsIntended(s: State, conn: ConnId, data: Data, parsed: Parsed)
    requires Receiver(parsed).None? || Receiver(parsed).value !in InheritedKeys || Receiver(parsed).value in s.localPeers
    ensures OnPeerMessageAsWritten(s, conn, data, parsed) == Returned(OnPeerMessage(s, conn, data, parsed))
  {
  }

  /**
   `_onPeerClose` as written: its guard is the same lookup, so a socket whose
   identifier names an inherited member passes it even after the identifier
   has left the registry. `delete` then removes nothing, and the relay release
   and `remove_peer` happen all the same.
   */
  function OnPeerCloseAsWritten(s: State, conn: ConnId): (t: seq<Action>)
    ensures !(conn in s.peerIdOf && s.peerIdOf[conn] !in s.localPeers && s.peerIdOf[conn] in InheritedKeys) ==>
              t == OnPeerClose(s, conn)
    ensures conn in s.peerIdOf && s.peerIdOf[conn] in InheritedKeys ==>
              |t| > 0 && t[|t| - 1] == Perform(EmitRemovePeer(s.peerIdOf[conn]))
  {
    if conn !in s.peerIdOf then []
    else
      var id := s.peerIdOf[conn];
      if IsLocalPeerAsWritten(s, id) then
        [Delete(id)] + (if s.config.hasRelay then [Perform(RelayRemove(id))] else []) + [Perform(EmitRemovePeer(id))]
      else []
  }

  /**
   A socket whose identifier names an inherited member announces its removal
   on every close, as written: the second close releases the identifier at
   the relay and emits `remove_peer` again, where the intended handler does
   nothing. This also happens on the first close when a newcomer took the
   identifier over and the old holder's close already removed it.
   */
  lemma InheritedCloseRepeatsRemoval(s: State, conn: ConnId)
    requires conn in s.peerIdOf && s.peerIdOf[conn] in InheritedKeys
    ensures var id := s.peerIdOf[conn];
            var removal := (if s.config.hasRelay then [RelayRemove(id)] else []) + [EmitRemovePeer(id)];
            var s1 := Replay(s, OnPeerCloseAsWritten(s, conn));
            && s1 == s.(localPeers := s.localPeers - {id})
            && EffectsOf(OnPeerCloseAsWritten(s, conn)) == removal
            && EffectsOf(OnPeerCloseAsWritten(s1, conn)) == removal
            && Step(s1, PeerClose(conn)) == Outcome(s1, [])
  {
    var id := s.peerIdOf[conn];
    var rel: seq<Action> := if s.config.hasRelay then [Perform(RelayRemove(id))] else [];
    RemovalTrace(s, id, rel, OnPeerCloseAsWritten(s, conn));
    var s1 := s.(localPeers := s.localPeers - {id});
    RemovalTrace(s1, id, rel, OnPeerCloseAsWritten(s1, conn));
    CloseUnregisteredIsNoOp(s1, conn);
  }

  /** Replaying a removal trace deletes the identifier and performs the rest in order. */
  lemma RemovalTrace(s: State, id: PeerId, rel: seq<Action>, t: seq<Action>)
    requires rel == (if s.config.hasRelay then [Perform(RelayRemove(id))] else [])
    requires t == [Delete(id)] + rel + [Perform(EmitRemovePeer(id))]
    ensures Replay(s, t) == s.(localPeers := s.localPeers - {id})
    ensures EffectsOf(t) == (if s.config.hasRelay then [RelayRemove(id)] else []) + [EmitRemovePeer(id)]
  {
    ReplayAppend(s, [Delete(id)] + rel, [Perform(EmitRemovePeer(id))]);
    ReplayAppend(s, [Delete(id)], rel);
    EffectsOfAppend([Delete(id)] + rel, [Perform(EmitRemovePeer(id))]);
    EffectsOfAppend([Delete(id)], rel);
    assert Replay(s, [Delete(id)]) == s.(localPeers := s.localPeers - {id}) by {
      assert [Delete(id)][1..] == [];
    }
    assert EffectsOf([Delete(id)]) == [] by {
      assert [Delete(id)][1..] == [];
    }
    assert EffectsOf([Perform(EmitRemovePeer(id))]) == [EmitRemovePeer(id)] by {
      assert [Perform(EmitRemovePeer(id))][1..] == [];
    }
  }

  /* ---------- the peer error handler ---------- */

  /** A listener on a socket's `error` event: the router's re-emitting one, or an observer's. */
  datatype Listener = RouterReEmit | Observer(name: nat)

  /** The result of emitting `error` on a socket: observers called, in order, and whether the stack overflowed. */
  datatype Dispatch = Dispatch(notified: seq<nat>, overflow: bool)

  /**
   `socket.emit('error', e)` with `frames` call-stack frames left: every
   listener is called in registration order; the router's listener emits
   `error` on the same socket again. Running out of frames throws, and the
   throw abandons the listeners not yet called.
   */
  function EmitError(listeners: seq<Listener>, frames: nat): (d: Dispatch)
    decreases frames, 0
  {
    if frames == 0 then Dispatch([], true) else CallListeners(listeners, listeners, frames - 1)
  }

  /** Calls the listeners `rest` in order; `all` is the full list a nested emit calls. */
  function CallListeners(all: seq<Listener>, rest: seq<Listener>, frames: nat): (d: Dispatch)
    decreases frames, 1, |rest|
  {
    if |rest| == 0 then Dispatch([], false)
    else match rest[0]
      case Observer(n) =>
        var d := CallListeners(all, rest[1..], frames);
        Dispatch([n] + d.notified, d.overflow)
      case RouterReEmit =>
        var d := EmitError(all, frames);
        if d.overflow then d
        else
          var d' := CallListeners(all, rest[1..], frames);
          Dispatch(d.notified + d'.notified, d'.overflow)
  }

  /**
   The router subscribes at connect time, before `add_peer` lets anyone else
   subscribe, so its listener comes first. Then every socket error overflows
   the stack, however deep the stack, and no observer ever hears of it.
   */
  lemma {:induction false} ReEmitAlwaysOverflows(listeners: seq<Listener>, frames: nat)
    requires |listeners| > 0 && listeners[0] == RouterReEmit
    ensures EmitError(listeners, frames) == Dispatch([], true)
    decreases frames
  {
    if frames > 0 {
      ReEmitAlwaysOverflows(listeners, frames - 1);
    }
  }

  /** The names of the observers among the listeners, in order. */
  function ObserverNames(listeners: seq<Listener>): seq<nat>
  {
    if |listeners| == 0 then []
    else (if listeners[0].Observer? then [listeners[0].name] else []) + ObserverNames(listeners[1..])
  }

  /**
   With listeners that do not re-enter, as under the intended handler, the
   listener loop of one emission calls every observer exactly once, in
   order, without overflow.
   */
  lemma {:induction false} ObserversNotifiedOnce(all: seq<Listener>, rest: seq<Listener>, frames: nat)
    requires forall i :: 0 <= i < |rest| ==> rest[i].Observer?
    ensures CallListeners(all, rest, frames) == Dispatch(ObserverNames(rest), false)
    decreases |rest|
  {
    if |rest| > 0 {
      ObserversNotifiedOnce(all, rest[1..], frames);
    }
  }

  /**
   With only observers listening, as under the intended handler, one `error`
   emission with at least one free stack frame calls every observer exactly
   once, in registration order, without overflow.
   */
  lemma EmitToObserversOnly(listeners: seq<Listener>, frames: nat)
    requires frames > 0
    requires forall i :: 0 <= i < |listeners| ==> listeners[i].Observer?
    ensures EmitError(listeners, frames) == Dispatch(ObserverNames(listeners), false)
  {
    ObserversNotifiedOnce(listeners, listeners, frames - 1);
  }
}

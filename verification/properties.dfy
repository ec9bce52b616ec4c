/**
 Properties of single events of the router: what a connect, a message, a
 close, an error and a relay delivery do to the registry and which effects
 they produce, and the registry invariants every step keeps.
 */
module ServerProperties {
  import opened Wrappers
  import opened Server
  import Wire

  /* ---------- traces ---------- */

  /** Replaying two traces one after the other is replaying their concatenation. */
  lemma {:induction false} ReplayAppend(s: State, a: seq<Action>, b: seq<Action>)
    ensures Replay(s, a + b) == Replay(Replay(s, a), b)
    decreases |a|
  {
    if |a| == 0 {
      assert a + b == b;
    } else {
      assert (a + b)[0] == a[0];
      assert (a + b)[1..] == a[1..] + b;
      ReplayAppend(Apply(s, a[0]), a[1..], b);
    }
  }

  /** The effects of a concatenation are the effects of its parts, in order. */
  lemma {:induction false} EffectsOfAppend(a: seq<Action>, b: seq<Action>)
    ensures EffectsOf(a + b) == EffectsOf(a) + EffectsOf(b)
    decreases |a|
  {
    if |a| == 0 {
      assert a + b == b;
    } else {
      assert (a + b)[0] == a[0];
      assert (a + b)[1..] == a[1..] + b;
      EffectsOfAppend(a[1..], b);
    }
  }

  /* ---------- invariants ---------- */

  /**
   Every registered identifier is the `peerId` of the socket it maps to. It
   implies that no socket is registered under two identifiers.
   */
  ghost predicate Consistent(s: State)
  {
    forall id :: id in s.localPeers ==> s.localPeers[id] in s.peerIdOf && s.peerIdOf[s.localPeers[id]] == id
  }

  /**
   What the wiring guarantees about the callbacks: each accepted connection
   is a new socket object, and relay messages arrive only when a relay is
   configured (its listener is attached only then, lib/Server.js:23-25).
   */
  predicate Admissible(s: State, e: Event)
  {
    && (e.Connection? ==> e.conn !in s.peerIdOf)
    && (e.RelayMessage? ==> s.config.hasRelay)
  }

  /** A consistent registry holds each socket under at most one identifier. */
  lemma ConsistentIsInjective(s: State, a: PeerId, b: PeerId)
    requires Consistent(s)
    requires a in s.localPeers && b in s.localPeers
    ensures s.localPeers[a] == s.localPeers[b] <==> a == b
  {
  }

  /* ---------- connect ---------- */

  /** The effects of a connect, in the order the handler performs them. */
  function ConnectEffects(s: State, conn: ConnId, id: PeerId): seq<Effect>
  {
    [SendTo(conn, Wire.IdNotice(id))]
    + (if s.config.hasRelay then [RelayAdd(id)] else [])
    + [EmitAddPeer(conn)]
  }

  /**
   A connect registers the generated identifier for the new socket; every
   other entry is kept, and an entry for the same identifier is overwritten.
   The effects are the id notice first, then the relay claim, then `add_peer`,
   and the peer reads back its own identifier from the notice.
   */
  lemma ConnectRegisters(s: State, conn: ConnId, draw: IdDraw)
    ensures var id := GeneratePeerId(s.config.generator, draw);
            var r := Step(s, Connection(conn, draw));
            && r.next.localPeers == s.localPeers[id := conn]
            && r.next.peerIdOf == s.peerIdOf[conn := id]
            && IsLocalPeer(r.next, id)
            && r.effects == ConnectEffects(s, conn, id)
            && r.effects[0] == SendTo(conn, Wire.IdNotice(id))
            && Wire.ParseIdNotice(r.effects[0].data) == Some(id)
  {
    var id := GeneratePeerId(s.config.generator, draw);
    ConnectReplay(s, conn, draw);
    ConnectEffectsOf(s, conn, draw);
    Wire.IdNoticeRoundTrip(id);
  }

  /** The connect handler's trace, split at the optional relay claim. */
  lemma ConnectTraceParts(s: State, conn: ConnId, draw: IdDraw)
    returns (t1: seq<Action>, t2: seq<Action>, t3: seq<Action>)
    ensures var id := GeneratePeerId(s.config.generator, draw);
            && Handle(s, Connection(conn, draw)) == t1 + t2 + t3
            && t1 == [AttachId(conn, id), Perform(SendTo(conn, Wire.IdNotice(id)))]
            && t2 == (if s.config.hasRelay then [Perform(RelayAdd(id))] else [])
            && t3 == [Perform(EmitAddPeer(conn)), Insert(id, conn)]
  {
    var id := GeneratePeerId(s.config.generator, draw);
    t1 := [AttachId(conn, id), Perform(SendTo(conn, Wire.IdNotice(id)))];
    t2 := if s.config.hasRelay then [Perform(RelayAdd(id))] else [];
    t3 := [Perform(EmitAddPeer(conn)), Insert(id, conn)];
  }

  /** Replaying a connect attaches the identifier and then registers it. */
  lemma ConnectReplay(s: State, conn: ConnId, draw: IdDraw)
    ensures var id := GeneratePeerId(s.config.generator, draw);
            Replay(s, Handle(s, Connection(conn, draw)))
              == s.(localPeers := s.localPeers[id := conn], peerIdOf := s.peerIdOf[conn := id])
  {
    var id := GeneratePeerId(s.config.generator, draw);
    var t1, t2, t3 := ConnectTraceParts(s, conn, draw);
    ReplayAppend(s, t1 + t2, t3);
    ReplayAppend(s, t1, t2);
    var s1 := Replay(s, t1);
    assert s1 == s.(peerIdOf := s.peerIdOf[conn := id]);
    assert Replay(s1, t2) == s1;
  }

  /** The effects of a connect are the actions it performs, in order. */
  lemma ConnectEffectsOf(s: State, conn: ConnId, draw: IdDraw)
    ensures var id := GeneratePeerId(s.config.generator, draw);
            EffectsOf(Handle(s, Connection(conn, draw))) == ConnectEffects(s, conn, id)
  {
    var id := GeneratePeerId(s.config.generator, draw);
    var t1, t2, t3 := ConnectTraceParts(s, conn, draw);
    PartsEffects(conn, id, s.config.hasRelay, t1, t2, t3);
  }

  /** The effects of the three parts of a connect trace, one state-free step. */
  lemma PartsEffects(conn: ConnId, id: PeerId, hasRelay: bool, t1: seq<Action>, t2: seq<Action>, t3: seq<Action>)
    requires t1 == [AttachId(conn, id), Perform(SendTo(conn, Wire.IdNotice(id)))]
    requires t2 == (if hasRelay then [Perform(RelayAdd(id))] else [])
    requires t3 == [Perform(EmitAddPeer(conn)), Insert(id, conn)]
    ensures EffectsOf(t1 + t2 + t3)
              == [SendTo(conn, Wire.IdNotice(id))] + (if hasRelay then [RelayAdd(id)] else []) + [EmitAddPeer(conn)]
  {
    EffectsOfAppend(t1 + t2, t3);
    EffectsOfAppend(t1, t2);
    assert EffectsOf(t1) == [SendTo(conn, Wire.IdNotice(id))] by {
      assert t1[1..][1..] == [];
    }
    assert EffectsOf(t3) == [EmitAddPeer(conn)] by {
      assert t3[1..][1..] == [];
    }
  }

  /**
   The registry is updated only by the last action of a connect: every
   effect of the handler, `add_peer` included, happens while the registry
   is still the one before the connect.
   */
  lemma ConnectInsertsLast(s: State, conn: ConnId, draw: IdDraw)
    ensures var t := Handle(s, Connection(conn, draw));
            forall i :: 0 <= i < |t| - 1 ==> Replay(s, t[..i]).localPeers == s.localPeers && !t[i].Insert?
  {
    var t := Handle(s, Connection(conn, draw));
    forall i | 0 <= i < |t| - 1
      ensures Replay(s, t[..i]).localPeers == s.localPeers && !t[i].Insert?
    {
      PrefixKeepsRegistry(s, t[..i]);
    }
  }

  /** A trace without insertions or deletions leaves the registry alone. */
  lemma {:induction false} PrefixKeepsRegistry(s: State, t: seq<Action>)
    requires forall i :: 0 <= i < |t| ==> t[i].Perform? || t[i].AttachId?
    ensures Replay(s, t).localPeers == s.localPeers
    decreases |t|
  {
    if |t| > 0 {
      PrefixKeepsRegistry(Apply(s, t[0]), t[1..]);
    }
  }

  /**
   No collision check: a connect that draws an identifier already in use
   takes over its entry, and the registry does not grow; a fresh identifier
   grows it by one.
   */
  lemma ConnectCollisionOverwrites(s: State, conn: ConnId, draw: IdDraw)
    ensures var id := GeneratePeerId(s.config.generator, draw);
            var r := Step(s, Connection(conn, draw));
            && id in r.next.localPeers && r.next.localPeers[id] == conn
            && (id in s.localPeers ==> |r.next.localPeers| == |s.localPeers|)
            && (id !in s.localPeers ==> |r.next.localPeers| == |s.localPeers| + 1)
  {
    ConnectRegisters(s, conn, draw);
    var id := GeneratePeerId(s.config.generator, draw);
    var m := s.localPeers[id := conn];
    if id in s.localPeers {
      assert m.Keys == s.localPeers.Keys;
    } else {
      assert m.Keys == s.localPeers.Keys + {id};
    }
  }

  /**
   The consequence of the missing collision check: once a newcomer has taken
   over an identifier, the close of the socket that held it before removes
   the newcomer's entry, although the newcomer is still connected.
   */
  lemma ShadowedCloseEvictsNewcomer(s: State, holder: ConnId, conn: ConnId, draw: IdDraw)
    requires holder in s.peerIdOf && s.peerIdOf[holder] == GeneratePeerId(s.config.generator, draw)
    requires GeneratePeerId(s.config.generator, draw) in s.localPeers
    requires conn != holder
    ensures var id := GeneratePeerId(s.config.generator, draw);
            var s1 := Step(s, Connection(conn, draw)).next;
            var r := Step(s1, PeerClose(holder));
            && id in s1.localPeers && s1.localPeers[id] == conn
            && !IsLocalPeer(r.next, id)
            && EmitRemovePeer(id) in r.effects
  {
    var id := GeneratePeerId(s.config.generator, draw);
    ConnectRegisters(s, conn, draw);
    var s1 := Step(s, Connection(conn, draw)).next;
    assert s1.peerIdOf[holder] == id;
    CloseRemoves(s1, holder);
  }

  /* ---------- message ---------- */

  /** A message that fails to parse, or has no truthy `receiverId`, does nothing. */
  lemma UnroutableIsNoOp(s: State, conn: ConnId, data: Data, parsed: Parsed)
    requires Receiver(parsed).None?
    ensures Step(s, PeerMessage(conn, data, parsed)) == Outcome(s, [])
  {
  }

  /** A message for a local peer is delivered to it, byte for byte, and nothing else happens. */
  lemma LocalDelivery(s: State, conn: ConnId, data: Data, parsed: Parsed)
    requires Receiver(parsed).Some? && IsLocalPeer(s, Receiver(parsed).value)
    ensures Step(s, PeerMessage(conn, data, parsed)) == Outcome(s, [SendTo(s.localPeers[Receiver(parsed).value], data)])
  {
  }

  /** A message for a peer that is not local goes to the relay when one is configured. */
  lemma RelayForwarding(s: State, conn: ConnId, data: Data, parsed: Parsed)
    requires Receiver(parsed).Some? && !IsLocalPeer(s, Receiver(parsed).value)
    requires s.config.hasRelay
    ensures Step(s, PeerMessage(conn, data, parsed)) == Outcome(s, [RelaySend(Receiver(parsed).value, data)])
  {
  }

  /** Without a relay, a message for a peer that is not local is reported to its sender only. */
  lemma UnknownReceiver(s: State, conn: ConnId, data: Data, parsed: Parsed)
    requires Receiver(parsed).Some? && !IsLocalPeer(s, Receiver(parsed).value)
    requires !s.config.hasRelay
    ensures Step(s, PeerMessage(conn, data, parsed)) == Outcome(s, [EmitUnknownReceiver(conn, Receiver(parsed).value)])
  {
  }

  /**
   Routing is exclusive: a message has at most one effect, and each kind of
   effect happens exactly when its condition holds.
   */
  lemma RoutingExclusive(s: State, conn: ConnId, data: Data, parsed: Parsed)
    ensures var r := Step(s, PeerMessage(conn, data, parsed));
            var rid := Receiver(parsed);
            && r.next == s
            && |r.effects| <= 1
            && (r.effects == [] <==> rid.None?)
            && ((|r.effects| == 1 && r.effects[0].SendTo?) <==> rid.Some? && IsLocalPeer(s, rid.value))
            && ((|r.effects| == 1 && r.effects[0].RelaySend?) <==> rid.Some? && !IsLocalPeer(s, rid.value) && s.config.hasRelay)
            && ((|r.effects| == 1 && r.effects[0].EmitUnknownReceiver?) <==> rid.Some? && !IsLocalPeer(s, rid.value) && !s.config.hasRelay)
            && (|r.effects| == 1 ==> r.effects[0].SendTo? || r.effects[0].RelaySend? || r.effects[0].EmitUnknownReceiver?)
  {
  }

  /* ---------- error ---------- */

  /** A socket error is surfaced once and removes nothing. */
  lemma PeerErrorReportsOnce(s: State, conn: ConnId, error: ErrorValue)
    ensures Step(s, PeerError(conn, error)) == Outcome(s, [EmitPeerError(conn, error)])
  {
  }

  /** A server error is re-emitted once on the server and changes nothing. */
  lemma ServerErrorReEmits(s: State, error: ErrorValue)
    ensures Step(s, ServerError(error)) == Outcome(s, [EmitServerError(error)])
  {
  }

  /* ---------- close ---------- */

  /**
   Closing a registered socket removes exactly its identifier, releases it
   at the relay when one is configured, and announces the removal.
   */
  lemma CloseRemoves(s: State, conn: ConnId)
    requires conn in s.peerIdOf && IsLocalPeer(s, s.peerIdOf[conn])
    ensures var id := s.peerIdOf[conn];
            var r := Step(s, PeerClose(conn));
            && r.next.localPeers == s.localPeers - {id}
            && r.next.peerIdOf == s.peerIdOf
            && !IsLocalPeer(r.next, id)
            && r.effects == (if s.config.hasRelay then [RelayRemove(id)] else []) + [EmitRemovePeer(id)]
  {
    var id := s.peerIdOf[conn];
    var t1 := [Delete(id)];
    var t2: seq<Action> := if s.config.hasRelay then [Perform(RelayRemove(id))] else [];
    var t3 := [Perform(EmitRemovePeer(id))];
    assert Handle(s, PeerClose(conn)) == t1 + t2 + t3;
    ReplayAppend(s, t1 + t2, t3);
    ReplayAppend(s, t1, t2);
    EffectsOfAppend(t1 + t2, t3);
    EffectsOfAppend(t1, t2);
    assert Replay(s, t1) == s.(localPeers := s.localPeers - {id});
  }

  /** Closing a socket whose identifier is not registered does nothing. */
  lemma CloseUnregisteredIsNoOp(s: State, conn: ConnId)
    requires conn !in s.peerIdOf || !IsLocalPeer(s, s.peerIdOf[conn])
    ensures Step(s, PeerClose(conn)) == Outcome(s, [])
  {
  }

  /** A second close of the same socket has no effect at all. */
  lemma CloseIdempotent(s: State, conn: ConnId)
    ensures var s1 := Step(s, PeerClose(conn)).next;
            Step(s1, PeerClose(conn)) == Outcome(s1, [])
  {
    if conn in s.peerIdOf && IsLocalPeer(s, s.peerIdOf[conn]) {
      CloseRemoves(s, conn);
    }
    var s1 := Step(s, PeerClose(conn)).next;
    CloseUnregisteredIsNoOp(s1, conn);
  }

  /**
   In a consistent state, a closed socket is no longer in the registry under
   any identifier.
   */
  lemma ClosedSocketLeavesRegistry(s: State, conn: ConnId)
    requires Consistent(s)
    ensures var r := Step(s, PeerClose(conn));
            forall id :: id in r.next.localPeers ==> r.next.localPeers[id] != conn
  {
    if conn in s.peerIdOf && IsLocalPeer(s, s.peerIdOf[conn]) {
      CloseRemoves(s, conn);
    }
  }

  /**
   In a consistent state, a socket the server has not yet accepted receives
   nothing from any event but its own connect, and stays unaccepted.
   */
  lemma NothingReachesUnacceptedSocket(s: State, e: Event, conn: ConnId)
    requires Consistent(s) && conn !in s.peerIdOf
    requires !(e.Connection? && e.conn == conn)
    ensures var r := Step(s, e);
            && conn !in r.next.peerIdOf
            && forall i :: 0 <= i < |r.effects| ==> !(r.effects[i].SendTo? && r.effects[i].conn == conn)
  {
    match e
    case Connection(c, draw) =>
      ConnectRegisters(s, c, draw);
    case PeerMessage(c, data, parsed) =>
      RoutingExclusive(s, c, data, parsed);
    case PeerClose(c) =>
      if c in s.peerIdOf && IsLocalPeer(s, s.peerIdOf[c]) {
        CloseRemoves(s, c);
      }
    case _ =>
  }

  /* ---------- relay inbound ---------- */

  /** A relay delivery reaches the local peer unchanged, or is dropped if the peer is not local. */
  lemma RelayInbound(s: State, id: PeerId, data: Data)
    ensures var r := Step(s, RelayMessage(id, data));
            && r.next == s
            && (IsLocalPeer(s, id) ==> r.effects == [SendTo(s.localPeers[id], data)])
            && (!IsLocalPeer(s, id) ==> r.effects == [])
  {
  }

  /* ---------- invariants kept by every step ---------- */

  /** Every step keeps the registry consistent with the sockets' identifiers. */
  lemma StepPreservesConsistent(s: State, e: Event)
    requires Consistent(s) && Admissible(s, e)
    ensures Consistent(Step(s, e).next)
  {
    match e
    case Connection(conn, draw) =>
      ConnectRegisters(s, conn, draw);
    case PeerClose(conn) =>
      if conn in s.peerIdOf && IsLocalPeer(s, s.peerIdOf[conn]) {
        CloseRemoves(s, conn);
      }
    case _ =>
  }

  /** The identifiers a relay holds after a sequence of effects, starting from `m`. */
  function RelayMembers(m: set<PeerId>, es: seq<Effect>): set<PeerId>
    decreases |es|
  {
    if |es| == 0 then m
    else
      var m' := match es[0]
        case RelayAdd(id) => m + {id}
        case RelayRemove(id) => m - {id}
        case _ => m;
      RelayMembers(m', es[1..])
  }

  /** Effects other than relay claims and releases leave the relay's membership alone. */
  lemma {:induction false} RelayMembersIgnoresOthers(m: set<PeerId>, es: seq<Effect>)
    requires forall i :: 0 <= i < |es| ==> !es[i].RelayAdd? && !es[i].RelayRemove?
    ensures RelayMembers(m, es) == m
    decreases |es|
  {
    if |es| > 0 {
      RelayMembersIgnoresOthers(m, es[1..]);
    }
  }

  /** Routing, relay delivery and errors never claim or release identifiers at the relay. */
  lemma NoRelayMembershipChange(s: State, e: Event)
    requires !e.Connection? && !e.PeerClose?
    ensures var es := Step(s, e).effects;
            forall i :: 0 <= i < |es| ==> !es[i].RelayAdd? && !es[i].RelayRemove?
  {
    var t := Handle(s, e);
    assert forall a :: a in t ==> !a.Perform? || (!a.effect.RelayAdd? && !a.effect.RelayRemove?);
    var es := EffectsOf(t);
    assert forall i :: 0 <= i < |es| ==> es[i] in es;
  }

  /** The relay's membership mirrors the registry after every step when a relay is configured. */
  lemma StepKeepsRelayMirror(s: State, e: Event, m: set<PeerId>)
    requires s.config.hasRelay && m == s.localPeers.Keys
    ensures var r := Step(s, e);
            RelayMembers(m, r.effects) == r.next.localPeers.Keys
  {
    var r := Step(s, e);
    if e.Connection? {
      ConnectRegisters(s, e.conn, e.draw);
      var id := GeneratePeerId(s.config.generator, e.draw);
      assert r.effects == [SendTo(e.conn, Wire.IdNotice(id)), RelayAdd(id), EmitAddPeer(e.conn)];
      RelayMembersIgnoresOthers(m + {id}, [EmitAddPeer(e.conn)]);
    } else if e.PeerClose? {
      if e.conn in s.peerIdOf && IsLocalPeer(s, s.peerIdOf[e.conn]) {
        CloseRemoves(s, e.conn);
        var id := s.peerIdOf[e.conn];
        assert r.effects == [RelayRemove(id), EmitRemovePeer(id)];
        RelayMembersIgnoresOthers(m - {id}, [EmitRemovePeer(id)]);
      } else {
        CloseUnregisteredIsNoOp(s, e.conn);
      }
    } else {
      NoRelayMembershipChange(s, e);
      RelayMembersIgnoresOthers(m, r.effects);
    }
  }
}

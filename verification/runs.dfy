/**
 Sequences of events: the registry invariants hold along every run the
 WebSocket server can produce, an identifier never comes back without a new
 connect, a closed socket never comes back at all, and end-to-end
 scenarios of two peers talking through one server.
 */
module Runs {
  import opened Wrappers
  import opened Server
  import opened ServerProperties
  import Wire

  /** Processes the events one after the other; the effects are concatenated in order. */
  function Run(s: State, events: seq<Event>): (r: Outcome)
    ensures r.next.config == s.config
    decreases |events|
  {
    if |events| == 0 then Outcome(s, [])
    else
      var o := Step(s, events[0]);
      var rest := Run(o.next, events[1..]);
      Outcome(rest.next, o.effects + rest.effects)
  }

  /** Every connect in the run is on a socket never seen before. */
  predicate ValidRun(s: State, events: seq<Event>)
    decreases |events|
  {
    |events| == 0 || (Admissible(s, events[0]) && ValidRun(Step(s, events[0]).next, events[1..]))
  }

  /** A socket that no identifier of the registry maps to. */
  ghost predicate Unregistered(s: State, conn: ConnId)
  {
    forall id :: id in s.localPeers ==> s.localPeers[id] != conn
  }

  /** The registry stays consistent with the sockets' identifiers along every valid run. */
  lemma {:induction false} RunPreservesConsistent(s: State, events: seq<Event>)
    requires Consistent(s) && ValidRun(s, events)
    ensures Consistent(Run(s, events).next)
    decreases |events|
  {
    if |events| > 0 {
      StepPreservesConsistent(s, events[0]);
      RunPreservesConsistent(Step(s, events[0]).next, events[1..]);
    }
  }

  /** Every run from a fresh server along valid events ends in a consistent registry. */
  lemma ReachableIsConsistent(config: Config, events: seq<Event>)
    requires ValidRun(Init(config), events)
    ensures Consistent(Run(Init(config), events).next)
  {
    RunPreservesConsistent(Init(config), events);
  }

  /** The relay's membership after two runs of effects is the membership after their concatenation. */
  lemma {:induction false} RelayMembersAppend(m: set<PeerId>, a: seq<Effect>, b: seq<Effect>)
    ensures RelayMembers(m, a + b) == RelayMembers(RelayMembers(m, a), b)
    decreases |a|
  {
    if |a| == 0 {
      assert a + b == b;
    } else {
      assert (a + b)[0] == a[0];
      assert (a + b)[1..] == a[1..] + b;
      var m' := match a[0]
        case RelayAdd(id) => m + {id}
        case RelayRemove(id) => m - {id}
        case _ => m;
      RelayMembersAppend(m', a[1..], b);
    }
  }

  /**
   With a relay configured, the identifiers the server has claimed at the
   relay are exactly the registered ones after any run.
   */
  lemma {:induction false} RunKeepsRelayMirror(s: State, events: seq<Event>, m: set<PeerId>)
    requires s.config.hasRelay && m == s.localPeers.Keys
    ensures var r := Run(s, events);
            RelayMembers(m, r.effects) == r.next.localPeers.Keys
    decreases |events|
  {
    if |events| > 0 {
      var o := Step(s, events[0]);
      StepKeepsRelayMirror(s, events[0], m);
      var m1 := RelayMembers(m, o.effects);
      RunKeepsRelayMirror(o.next, events[1..], m1);
      RelayMembersAppend(m, o.effects, Run(o.next, events[1..]).effects);
    }
  }

  /** One step makes an identifier local only by generating it in a connect. */
  lemma StepLocalOnlyByConnect(s: State, e: Event, p: PeerId)
    requires p !in s.localPeers
    requires e.Connection? ==> GeneratePeerId(s.config.generator, e.draw) != p
    ensures p !in Step(s, e).next.localPeers
  {
    match e
    case Connection(conn, draw) =>
      ConnectRegisters(s, conn, draw);
    case PeerClose(conn) =>
      if conn in s.peerIdOf && IsLocalPeer(s, s.peerIdOf[conn]) {
        CloseRemoves(s, conn);
      }
    case _ =>
  }

  /**
   An identifier that is not local stays non-local until a connect generates
   it again: after a close there is no resurrection.
   */
  lemma {:induction false} NoResurrection(s: State, events: seq<Event>, p: PeerId)
    requires p !in s.localPeers
    requires forall i :: 0 <= i < |events| && events[i].Connection? ==> GeneratePeerId(s.config.generator, events[i].draw) != p
    ensures !IsLocalPeer(Run(s, events).next, p)
    decreases |events|
  {
    if |events| > 0 {
      StepLocalOnlyByConnect(s, events[0], p);
      var s1 := Step(s, events[0]).next;
      assert forall i :: 0 <= i < |events[1..]| && events[1..][i].Connection? ==> GeneratePeerId(s1.config.generator, events[1..][i].draw) != p by {
        forall i | 0 <= i < |events[1..]| && events[1..][i].Connection?
          ensures GeneratePeerId(s1.config.generator, events[1..][i].draw) != p
        {
          assert events[1..][i] == events[i + 1];
        }
      }
      NoResurrection(s1, events[1..], p);
    }
  }

  /** A step keeps an attached, unregistered socket unregistered. */
  lemma StepKeepsUnregistered(s: State, e: Event, conn: ConnId)
    requires Consistent(s) && Admissible(s, e)
    requires conn in s.peerIdOf && Unregistered(s, conn)
    ensures conn in Step(s, e).next.peerIdOf && Unregistered(Step(s, e).next, conn)
  {
    match e
    case Connection(c, draw) =>
      ConnectRegisters(s, c, draw);
    case PeerClose(c) =>
      if c in s.peerIdOf && IsLocalPeer(s, s.peerIdOf[c]) {
        CloseRemoves(s, c);
      }
    case _ =>
  }

  /** Along a valid run, an attached socket that is unregistered never becomes registered again. */
  lemma {:induction false} UnregisteredStaysUnregistered(s: State, events: seq<Event>, conn: ConnId)
    requires Consistent(s) && ValidRun(s, events)
    requires conn in s.peerIdOf && Unregistered(s, conn)
    ensures Unregistered(Run(s, events).next, conn)
    decreases |events|
  {
    if |events| > 0 {
      StepKeepsUnregistered(s, events[0], conn);
      StepPreservesConsistent(s, events[0]);
      UnregisteredStaysUnregistered(Step(s, events[0]).next, events[1..], conn);
    }
  }

  /**
   Closed is terminal: once an attached socket closes, no later event of a
   valid run puts it back in the registry, so every registered socket is open.
   */
  lemma CloseIsFinal(s: State, conn: ConnId, events: seq<Event>)
    requires Consistent(s) && conn in s.peerIdOf
    requires ValidRun(Step(s, PeerClose(conn)).next, events)
    ensures Unregistered(Run(Step(s, PeerClose(conn)).next, events).next, conn)
  {
    ClosedSocketLeavesRegistry(s, conn);
    StepPreservesConsistent(s, PeerClose(conn));
    var s1 := Step(s, PeerClose(conn)).next;
    if conn in s.peerIdOf && IsLocalPeer(s, s.peerIdOf[conn]) {
      CloseRemoves(s, conn);
    } else {
      CloseUnregisteredIsNoOp(s, conn);
    }
    UnregisteredStaysUnregistered(s1, events, conn);
  }

  /** Running two sequences of events one after the other is running their concatenation. */
  lemma {:induction false} RunAppend(s: State, a: seq<Event>, b: seq<Event>)
    ensures var ra := Run(s, a);
            var rb := Run(ra.next, b);
            Run(s, a + b) == Outcome(rb.next, ra.effects + rb.effects)
    decreases |a|
  {
    if |a| == 0 {
      assert a + b == b;
    } else {
      assert (a + b)[0] == a[0] && (a + b)[1..] == a[1..] + b;
      var o := Step(s, a[0]);
      RunUnfold(s, a);
      RunUnfold(s, a + b);
      RunAppend(o.next, a[1..], b);
      Regroup(Run(s, a), Run(s, a + b), o, Run(o.next, a[1..]), Run(o.next, a[1..] + b), Run(Run(o.next, a[1..]).next, b));
    }
  }

  /** The bookkeeping step of RunAppend, stated over outcomes only. */
  lemma Regroup(ra: Outcome, rab: Outcome, o: Outcome, tail: Outcome, tailb: Outcome, rb: Outcome)
    requires ra == Outcome(tail.next, o.effects + tail.effects)
    requires rab == Outcome(tailb.next, o.effects + tailb.effects)
    requires tailb == Outcome(rb.next, tail.effects + rb.effects)
    ensures rab == Outcome(rb.next, ra.effects + rb.effects)
  {
    assert o.effects + (tail.effects + rb.effects) == (o.effects + tail.effects) + rb.effects;
  }

  /** A non-empty run is its first step followed by the run of the rest. */
  lemma RunUnfold(s: State, events: seq<Event>)
    requires |events| > 0
    ensures var o := Step(s, events[0]);
            var rest := Run(o.next, events[1..]);
            Run(s, events) == Outcome(rest.next, o.effects + rest.effects)
  {
  }

  /**
   Along a valid run without its connect, an unaccepted socket receives
   nothing and stays unaccepted.
   */
  lemma {:induction false} NoSendBeforeConnect(s: State, events: seq<Event>, conn: ConnId)
    requires Consistent(s) && ValidRun(s, events) && conn !in s.peerIdOf
    requires forall i :: 0 <= i < |events| ==> !(events[i].Connection? && events[i].conn == conn)
    ensures var r := Run(s, events);
            && conn !in r.next.peerIdOf
            && forall i :: 0 <= i < |r.effects| ==> !(r.effects[i].SendTo? && r.effects[i].conn == conn)
    decreases |events|
  {
    if |events| > 0 {
      var o := Step(s, events[0]);
      NothingReachesUnacceptedSocket(s, events[0], conn);
      StepPreservesConsistent(s, events[0]);
      assert forall i :: 0 <= i < |events[1..]| ==> events[1..][i] == events[i + 1];
      NoSendBeforeConnect(o.next, events[1..], conn);
      var rest := Run(o.next, events[1..]);
      forall i | 0 <= i < |o.effects + rest.effects|
        ensures !((o.effects + rest.effects)[i].SendTo? && (o.effects + rest.effects)[i].conn == conn)
      {
        if i >= |o.effects| {
          assert (o.effects + rest.effects)[i] == rest.effects[i - |o.effects|];
        }
      }
    }
  }

  /**
   The identifier notice is the first message a peer ever receives: up to
   and including its connect, the socket is sent nothing else, and the
   connect's first effect is the notice.
   */
  lemma IdNoticeIsFirstMessage(s: State, pre: seq<Event>, conn: ConnId, draw: IdDraw)
    requires Consistent(s) && ValidRun(s, pre) && conn !in s.peerIdOf
    requires forall i :: 0 <= i < |pre| ==> !(pre[i].Connection? && pre[i].conn == conn)
    ensures var before := Run(s, pre);
            var id := GeneratePeerId(s.config.generator, draw);
            var r := Run(s, pre + [Connection(conn, draw)]);
            && r.effects == before.effects + ConnectEffects(before.next, conn, id)
            && r.effects[|before.effects|] == SendTo(conn, Wire.IdNotice(id))
            && forall i :: 0 <= i < |before.effects| ==> !(before.effects[i].SendTo? && before.effects[i].conn == conn)
  {
    NoSendBeforeConnect(s, pre, conn);
    var before := Run(s, pre);
    RunAppend(s, pre, [Connection(conn, draw)]);
    ConnectRegisters(before.next, conn, draw);
    var o := Step(before.next, Connection(conn, draw));
    assert Run(before.next, [Connection(conn, draw)]) == Outcome(o.next, o.effects + []) by {
      assert [Connection(conn, draw)][1..] == [];
    }
    assert o.effects + [] == o.effects;
  }

  /** Sending the same envelope twice to a local peer delivers it twice, unchanged, in order. */
  lemma SameEnvelopeTwice(s: State, conn: ConnId, data: Data, parsed: Parsed)
    requires Receiver(parsed).Some? && IsLocalPeer(s, Receiver(parsed).value)
    ensures var dest := s.localPeers[Receiver(parsed).value];
            var m := PeerMessage(conn, data, parsed);
            Run(s, [m, m]) == Outcome(s, [SendTo(dest, data), SendTo(dest, data)])
  {
    var m := PeerMessage(conn, data, parsed);
    LocalDelivery(s, conn, data, parsed);
    assert [m, m][1..] == [m];
    assert Run(s, [m]) == Outcome(s, Step(s, m).effects);
  }

  /* ---------- end-to-end scenarios ---------- */

  /**
   X and Y connect and are told their distinct identifiers `p1` and `p2`; X
   then sends an envelope addressed to `p2` and Y receives exactly those bytes.
   */
  lemma ScenarioDirectDelivery(p1: PeerId, p2: PeerId, data: Data)
    requires p1 != p2 && p2 != ""
    ensures var r1 := Step(Init(Config(false, NoCustom)), Connection(1, IdDraw(p1, p1)));
            var r2 := Step(r1.next, Connection(2, IdDraw(p2, p2)));
            var r3 := Step(r2.next, PeerMessage(1, data, Json(Some(p2))));
            && r1.effects == [SendTo(1, Wire.IdNotice(p1)), EmitAddPeer(1)]
            && r2.effects == [SendTo(2, Wire.IdNotice(p2)), EmitAddPeer(2)]
            && r3.effects == [SendTo(2, data)]
  {
    var s0 := Init(Config(false, NoCustom));
    var s1 := ConnectStep(s0, 1, p1);
    var s2 := ConnectStep(s1, 2, p2);
    assert IsLocalPeer(s2, p2) && s2.localPeers[p2] == 2;
    LocalDelivery(s2, 1, data, Json(Some(p2)));
  }

  /** A connect on a server without relay or custom generator: the state after it, and its two effects. */
  lemma ConnectStep(s: State, conn: ConnId, p: PeerId) returns (s': State)
    requires s.config == Config(false, NoCustom)
    ensures var r := Step(s, Connection(conn, IdDraw(p, p)));
            && s' == r.next
            && s'.localPeers == s.localPeers[p := conn]
            && r.effects == [SendTo(conn, Wire.IdNotice(p)), EmitAddPeer(conn)]
  {
    ConnectRegisters(s, conn, IdDraw(p, p));
    assert ConnectEffects(s, conn, p) == [SendTo(conn, Wire.IdNotice(p)), EmitAddPeer(conn)];
    s' := Step(s, Connection(conn, IdDraw(p, p))).next;
  }

  /**
   Without a relay, an envelope for an identifier nobody holds is reported to
   its sender X alone; Y receives nothing and the registry is unchanged.
   */
  lemma ScenarioUnknownReceiver(s: State, data: Data)
    requires !s.config.hasRelay && "nope" !in s.localPeers
    ensures var r := Step(s, PeerMessage(1, data, Json(Some("nope"))));
            r == Outcome(s, [EmitUnknownReceiver(1, "nope")])
  {
    UnknownReceiver(s, 1, data, Json(Some("nope")));
  }

  /**
   X disconnects: `remove_peer` names X's identifier, and without a relay a
   later envelope from Y to that identifier is reported back to Y.
   */
  lemma ScenarioAfterDisconnect(s: State, x: ConnId, y: ConnId, data: Data)
    requires !s.config.hasRelay
    requires x in s.peerIdOf && IsLocalPeer(s, s.peerIdOf[x]) && s.peerIdOf[x] != ""
    ensures var id := s.peerIdOf[x];
            var r1 := Step(s, PeerClose(x));
            var r2 := Step(r1.next, PeerMessage(y, data, Json(Some(id))));
            && r1.effects == [EmitRemovePeer(id)]
            && r2.effects == [EmitUnknownReceiver(y, id)]
  {
    var id := s.peerIdOf[x];
    CloseRemoves(s, x);
    UnknownReceiver(Step(s, PeerClose(x)).next, y, data, Json(Some(id)));
  }

  /** Malformed data produces no notification anywhere. */
  lemma ScenarioMalformed(s: State, x: ConnId, data: Data)
    ensures Step(s, PeerMessage(x, data, Unparsable)) == Outcome(s, [])
  {
  }

  /**
   With a relay, an envelope for an identifier that is not local is handed to
   the relay with its raw bytes, and nobody is told the receiver is unknown.
   */
  lemma ScenarioRelayForward(s: State, x: ConnId, target: PeerId, data: Data)
    requires s.config.hasRelay && target != "" && target !in s.localPeers
    ensures Step(s, PeerMessage(x, data, Json(Some(target)))).effects == [RelaySend(target, data)]
  {
    RelayForwarding(s, x, data, Json(Some(target)));
  }
}

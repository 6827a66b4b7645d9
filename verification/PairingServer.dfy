/**
 * The server's shared state and the code that updates it in place (crates/ghostport-core/src/server.rs),
 * proved to take exactly the steps of the pairing protocol.
 */
module PairingServer {
  import opened Common
  import opened Configuration
  import opened Authorization
  import Pool = StreamPool
  import Line = SignalLine
  import opened Pairing
  import PairingRuns

  /** How a data connection ends, as far as the server decides it. */
  datatype Outcome =
    | NoMatch
    | Refused(why: Refusal)
    | UnknownStream
    | DialFailed
    | Forwarding(target: string)
    | Reversing(conn: Pool.Conn)
    | Crashed

  class ReverseServer {
    const setup: Setup
    var nextStreamId: nat
    var pending: map<nat, Pool.Conn>
    var listeners: map<string, Pool.Phase>
    var timers: set<nat>
    var channel: seq<Line.OpenStream>
    var receiverGone: bool
    var session: Option<nat>
    var sessions: nat
    ghost var issued: map<nat, Pool.Stream>
    ghost var enqueued: seq<Line.OpenStream>
    ghost var attempts: seq<Line.Attempt>
    ghost var received: set<Line.OpenStream>
    ghost var relays: seq<Relay>
    /** The links this server listens on and the steps taken since it started. */
    ghost const links: set<string>
    ghost var history: seq<Step>

    ghost function Model(): State
      reads this
    {
      State(Pool.Pool(nextStreamId, listeners, pending, timers, issued),
            Line.Line(channel, receiverGone, session, sessions, enqueued, attempts, received),
            relays)
    }

    /** The steps taken so far are a run of the protocol, and it ends in the present state. */
    ghost predicate Valid()
      reads this
    {
      PairingRuns.ValidRun(setup, Init(links), history) && Model() == PairingRuns.After(setup, Init(links), history)
    }

    /** So whatever holds of every run holds of the server at any time. */
    lemma Sound()
      requires Valid()
      ensures Inv(setup, Model())
    {
      PairingRuns.InitInv(setup, links);
      PairingRuns.RunKeepsInv(setup, Init(links), history);
    }

    ghost method Record(step: Step, before: State)
      requires PairingRuns.ValidRun(setup, Init(links), history)
      requires before == PairingRuns.After(setup, Init(links), history)
      requires Enabled(before, step) && Model() == Apply(setup, before, step)
      modifies this`history
      ensures Valid() && history == old(history) + [step]
    {
      PairingRuns.RunSnoc(setup, Init(links), history, step);
      history := history + [step];
    }

    constructor (setup: Setup, reverseLinks: set<string>)
      ensures this.setup == setup && links == reverseLinks && history == [] && Valid()
    {
      this.setup := setup;
      nextStreamId, pending, timers := 1, map[], {};
      listeners := map l | l in reverseLinks :: Pool.Idle;
      channel, receiverGone, session, sessions := [], false, None, 0;
      issued, enqueued, attempts, received, relays := map[], [], [], {}, [];
      links := reverseLinks;
      history := [];
    }

    /** A listener accepts a connection and draws its id from the shared counter. */
    method AcceptExternal(link: string, conn: Pool.Conn) returns (id: nat)
      requires Valid() && link in listeners && listeners[link].Idle? && nextStreamId < Pool.ID_LIMIT
      requires forall i :: i in issued ==> issued[i].conn != conn
      modifies this`nextStreamId, this`listeners, this`issued, this`history
      ensures Valid() && history == old(history) + [Accept(link, conn)]
      ensures Model() == Apply(setup, old(Model()), Accept(link, conn))
      ensures id == old(nextStreamId) && nextStreamId == id + 1 && listeners == old(listeners)[link := Pool.Accepted(id, conn)]
      ensures issued == old(issued)[id := Pool.Stream(link, conn, Pool.Held)]
    {
      id := nextStreamId;
      nextStreamId := nextStreamId + 1;
      listeners := listeners[link := Pool.Accepted(id, conn)];
      issued := issued[id := Pool.Stream(link, conn, Pool.Held)];
      Record(Accept(link, conn), old(Model()));
    }

    method ParkConnection(link: string)
      requires Valid() && link in listeners && listeners[link].Accepted?
      modifies this`pending, this`listeners, this`issued, this`history
      ensures Valid() && history == old(history) + [Park(link)]
      ensures Model() == Apply(setup, old(Model()), Park(link))
      ensures var id, conn := old(listeners)[link].id, old(listeners)[link].conn;
        pending == old(pending)[id := conn] && listeners == old(listeners)[link := Pool.Sending(id)]
    {
      var id, conn := listeners[link].id, listeners[link].conn;
      pending := pending[id := conn];
      listeners := listeners[link := Pool.Sending(id)];
      issued := Pool.Settle(old(Model()).pool, id, Pool.Parked);
      Record(Park(link), old(Model()));
    }

    /** The listener's send completes: with a slot in the channel, or with an error because the receiver is gone. */
    method SendOpenStream(link: string) returns (ok: bool)
      requires Valid() && link in listeners && listeners[link].Sending?
      requires receiverGone || |channel| < Line.CHANNEL_CAPACITY
      modifies this`channel, this`listeners, this`enqueued, this`history
      ensures ok == !old(receiverGone)
      ensures Valid() && history == old(history) + [if ok then Announce(link) else FailSend(link)]
      ensures Model() == Apply(setup, old(Model()), if ok then Announce(link) else FailSend(link))
      ensures var id := old(listeners)[link].id;
        && channel == old(channel) + (if ok then [Line.OpenStream(link, id)] else [])
        && enqueued == old(enqueued) + (if ok then [Line.OpenStream(link, id)] else [])
        && listeners == old(listeners)[link := if ok then Pool.Announced(id) else Pool.Refused(id)]
    {
      var id := listeners[link].id;
      ok := !receiverGone;
      if ok {
        channel := channel + [Line.OpenStream(link, id)];
        listeners := listeners[link := Pool.Announced(id)];
        enqueued := enqueued + [Line.OpenStream(link, id)];
        Record(Announce(link), old(Model()));
      } else {
        listeners := listeners[link := Pool.Refused(id)];
        Record(FailSend(link), old(Model()));
      }
    }

    method DropUnannounced(link: string)
      requires Valid() && link in listeners && listeners[link].Refused?
      modifies this`pending, this`listeners, this`issued, this`history
      ensures Valid() && history == old(history) + [Withdraw(link)]
      ensures Model() == Apply(setup, old(Model()), Withdraw(link))
      ensures pending == old(pending) - {old(listeners)[link].id} && listeners == old(listeners)[link := Pool.Idle]
    {
      var id := listeners[link].id;
      if id in pending {
        pending := pending - {id};
        issued := Pool.Settle(old(Model()).pool, id, Pool.Dropped);
      }
      listeners := listeners[link := Pool.Idle];
      Record(Withdraw(link), old(Model()));
    }

    method SpawnExpiry(link: string)
      requires Valid() && link in listeners && listeners[link].Announced?
      modifies this`timers, this`listeners, this`history
      ensures Valid() && history == old(history) + [ArmExpiry(link)]
      ensures Model() == Apply(setup, old(Model()), ArmExpiry(link))
      ensures timers == old(timers) + {old(listeners)[link].id} && listeners == old(listeners)[link := Pool.Idle]
    {
      timers := timers + {listeners[link].id};
      listeners := listeners[link := Pool.Idle];
      Record(ArmExpiry(link), old(Model()));
    }

    /** An expiry task wakes up; it reports a timeout only if nobody claimed the stream meanwhile. */
    method ExpireStream(id: nat) returns (timedOut: bool)
      requires Valid() && id in timers
      modifies this`timers, this`pending, this`issued, this`history
      ensures Valid() && history == old(history) + [Expire(id)]
      ensures Model() == Apply(setup, old(Model()), Expire(id))
      ensures timedOut <==> id in old(pending)
      ensures timers == old(timers) - {id} && pending == old(pending) - {id}
    {
      timers := timers - {id};
      timedOut := id in pending;
      if timedOut {
        pending := pending - {id};
        issued := Pool.Settle(old(Model()).pool, id, Pool.Expired);
      }
      Record(Expire(id), old(Model()));
    }

    method StartSession()
      requires Valid() && session.None? && !receiverGone
      modifies this`session, this`sessions, this`history
      ensures Valid() && history == old(history) + [Connect]
      ensures Model() == Apply(setup, old(Model()), Connect)
      ensures session == Some(old(sessions)) && sessions == old(sessions) + 1
    {
      session := Some(sessions);
      sessions := sessions + 1;
      Record(Connect, old(Model()));
    }

    /** The session goes on after a successful send, with the other messages still waiting, and ends after a failed one. */
    method ForwardNext(sent: bool) returns (msg: Line.OpenStream)
      requires Valid() && session.Some? && channel != []
      modifies this`channel, this`attempts, this`session, this`history
      ensures Valid() && history == old(history) + [Signal(sent)]
      ensures Model() == Apply(setup, old(Model()), Signal(sent))
      ensures msg == old(channel)[0] && channel == old(channel)[1..]
      ensures session == if sent then old(session) else None
      ensures attempts == old(attempts) + [Line.Attempt(old(session).value, msg, sent)]
    {
      msg := channel[0];
      channel := channel[1..];
      attempts := attempts + [Line.Attempt(session.value, msg, sent)];
      if !sent {
        session := None;
      }
      Record(Signal(sent), old(Model()));
    }

    /** The client reads a message that was sent to it. */
    ghost method ClientReceives(k: nat)
      requires Valid() && k < |attempts| && attempts[k].sent
      modifies this`received, this`history
      ensures Valid() && history == old(history) + [Receive(k)]
      ensures Model() == Apply(setup, old(Model()), Receive(k))
      ensures received == old(received) + {attempts[k].msg}
    {
      received := received + {attempts[k].msg};
      Record(Receive(k), old(Model()));
    }

    method EndSession()
      requires Valid() && session.Some?
      modifies this`session, this`history
      ensures Valid() && history == old(history) + [Disconnect]
      ensures Model() == Apply(setup, old(Model()), Disconnect)
      ensures session == None
    {
      session := None;
      Record(Disconnect, old(Model()));
    }

    method DropReceiver()
      requires Valid() && session.None?
      modifies this`channel, this`receiverGone, this`history
      ensures Valid() && history == old(history) + [CloseChannel]
      ensures Model() == Apply(setup, old(Model()), CloseChannel)
      ensures channel == [] && receiverGone
    {
      channel := [];
      receiverGone := true;
      Record(CloseChannel, old(Model()));
    }

    /**
     * One data connection, from its handshake message to the start of a relay or its refusal: it is relayed to the
     * link's target exactly if the peer is entitled to forward and the dial succeeds, and to a pending connection exactly
     * if the peer is entitled to the reverse link and the connection is there, which is then no longer pending.
     */
    method HandleDataConnection(handshake: seq<Byte>, hello: Hello, dialed: bool) returns (outcome: Outcome)
      requires Valid()
      modifies this`pending, this`issued, this`relays, this`history
      ensures Valid() && history == old(history) + [DataConnection(handshake, hello, dialed)]
      ensures Model() == Apply(setup, old(Model()), DataConnection(handshake, hello, dialed))
      ensures outcome == NoMatch <==> FirstMatch(setup.noise, handshake, setup.peers).None?
      ensures outcome.Forwarding? <==> dialed && exists link :: MayForward(setup, handshake, hello, link)
      ensures outcome.DialFailed? <==> !dialed && exists link :: MayForward(setup, handshake, hello, link)
      ensures outcome.Forwarding? ==>
                exists link :: MayForward(setup, handshake, hello, link) && link.target == Some(outcome.target)
      ensures outcome.Reversing? <==>
                && (exists link :: MayReverse(setup, handshake, hello, link))
                && hello.streamId.value in old(pending)
      ensures outcome.Reversing? ==> outcome.conn == old(pending)[hello.streamId.value]
      ensures pending == if outcome.Reversing? then old(pending) - {hello.streamId.value} else old(pending)
      ensures relays == old(relays) + match outcome
                                      case Forwarding(target) => [ForwardRelay(hello.linkId, handshake, target)]
                                      case Reversing(conn) => [ReverseRelay(hello.linkId, handshake, hello.streamId.value, conn)]
                                      case _ => []
    {
      DecisionMeans(setup, handshake, hello);
      outcome := NoMatch;
      var matched := MatchPeerBytes(setup.noise, handshake, setup.peers);
      if matched.Some? {
        outcome := OpenLink(setup.peers[matched.value], handshake, hello, dialed);
      }
      Record(DataConnection(handshake, hello, dialed), old(Model()));
    }

    /** The checks after the handshake, in the order the server makes them. */
    method OpenLink(peer: Peer, handshake: seq<Byte>, hello: Hello, dialed: bool) returns (outcome: Outcome)
      modifies this`pending, this`issued, this`relays
      ensures Model() == HelloStep(setup, old(Model()), peer, handshake, hello, dialed)
      ensures var decision := Authorize(setup.cfg, peer, hello);
        && outcome != NoMatch
        && (outcome.Forwarding? <==> decision.Dial? && dialed) && (outcome.DialFailed? <==> decision.Dial? && !dialed)
        && (outcome.Forwarding? ==> outcome.target == decision.target)
        && (outcome.Reversing? <==> decision.Claim? && decision.streamId in old(pending))
        && (outcome.Reversing? ==> decision.streamId == hello.streamId.value && outcome.conn == old(pending)[decision.streamId])
      ensures pending == if outcome.Reversing? then old(pending) - {hello.streamId.value} else old(pending)
      ensures relays == old(relays) + match outcome
                                      case Forwarding(target) => [ForwardRelay(hello.linkId, handshake, target)]
                                      case Reversing(conn) => [ReverseRelay(hello.linkId, handshake, hello.streamId.value, conn)]
                                      case _ => []
    {
      if hello.linkId !in peer.links {
        return Refused(NotAllowed);
      }
      var found := FindLink(setup.cfg.links, hello.linkId);
      if found.None? {
        return Refused(UnknownLink);
      }
      var link := found.value;
      if link.transport != Tcp {
        return Refused(WrongTransport);
      }
      if link.id !in CounterKeys(setup.cfg) {
        return Crashed;
      }
      match (link.mode, hello.streamId)
      case (Forward, None) =>
        if link.target.None? {
          return Crashed;
        }
        if !dialed {
          return DialFailed;
        }
        relays := relays + [ForwardRelay(link.id, handshake, link.target.value)];
        return Forwarding(link.target.value);
      case (Reverse, Some(id)) =>
        if id !in pending {
          return UnknownStream;
        }
        var conn := pending[id];
        pending := pending - {id};
        issued := Pool.Settle(old(Model()).pool, id, Pool.Relayed);
        relays := relays + [ReverseRelay(link.id, handshake, id, conn)];
        return Reversing(conn);
      case _ =>
        return Refused(ModeMismatch);
    }
  }
}

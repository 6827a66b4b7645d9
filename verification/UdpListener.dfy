/**
 * The demultiplexing loop and its session tasks as they update the shared table in place
 * (crates/ghostport-udp/src/server.rs, crates/ghostport-udp/src/client.rs).
 */
module UdpListener {
  import opened Common
  import opened Configuration
  import opened Authorization
  import opened UdpDemux

  class Demux {
    const setup: Setup
    var reader: Reader
    var table: map<Addr, nat>
    var sessions: seq<Session>
    ghost var arrivals: seq<Datagram>
    ghost var history: seq<Step>

    ghost function Model(): State
      reads this
    {
      State(reader, arrivals, table, sessions)
    }

    /** The steps taken so far are a run that ends in the present state. */
    ghost predicate Valid()
      reads this
    {
      ValidRun(setup, INIT, history) && Model() == After(setup, INIT, history)
    }

    constructor (setup: Setup)
      ensures Valid() && this.setup == setup && history == []
    {
      this.setup := setup;
      reader, table, sessions := Ready, map[], [];
      arrivals, history := [], [];
    }

    ghost method Record(step: Step, before: State)
      requires ValidRun(setup, INIT, history) && before == After(setup, INIT, history)
      requires Enabled(setup, before, step) && Model() == Apply(setup, before, step)
      modifies this`history
      ensures Valid() && history == old(history) + [step]
    {
      RunSnoc(setup, INIT, history, step);
      history := history + [step];
    }

    /** `recv_from` returns the next datagram of the socket. */
    method ReceiveFrom(d: Datagram)
      requires Valid() && reader.Ready? && d.stamp == |arrivals|
      modifies this`reader, this`arrivals, this`history
      ensures Valid() && history == old(history) + [Receive(d.src, d.payload)]
      ensures Model() == Apply(setup, old(Model()), Receive(d.src, d.payload))
      ensures reader == Got(d) && arrivals == old(arrivals) + [d]
    {
      reader := Got(d);
      arrivals := arrivals + [d];
      Record(Receive(d.src, d.payload), old(Model()));
    }

    /** The sender for the datagram's source is cloned out of the table, if there is one. */
    method LookupSource() returns (known: bool)
      requires Valid() && reader.Got?
      modifies this`reader, this`history
      ensures Valid() && history == old(history) + [Lookup] && Model() == Apply(setup, old(Model()), Lookup)
      ensures known <==> old(reader).d.src in table
      ensures reader == if known then Routing(old(reader).d, table[old(reader).d.src]) else Unknown(old(reader).d)
    {
      var d := reader.d;
      known := d.src in table;
      reader := if known then Routing(d, table[d.src]) else Unknown(d);
      Record(Lookup, old(Model()));
    }

    /**
     * `try_send` never waits: the datagram goes to the end of the session's queue, or is dropped when that is full or
     * its task has ended. No other session is touched.
     */
    method TrySend() returns (queued: bool)
      requires Valid() && reader.Routing? && reader.k < |sessions|
      modifies this`reader, this`sessions, this`history
      ensures Valid() && history == old(history) + [Route] && Model() == Apply(setup, old(Model()), Route)
      ensures reader == Ready && |sessions| == |old(sessions)|
      ensures var d, k := old(reader).d, old(reader).k; var was := old(sessions)[k];
        && (queued <==> (was.stage.Starting? || was.stage.Relaying?) && |was.queue| < QUEUE_CAPACITY)
        && sessions[k] == (if queued then was.(queue := was.queue + [d]) else was)
        && forall j :: 0 <= j < |sessions| && j != k ==> sessions[j] == old(sessions)[j]
    {
      var d, k := reader.d, reader.k;
      queued := Running(sessions[k]) && |sessions[k].queue| < QUEUE_CAPACITY;
      if queued {
        sessions := sessions[k := sessions[k].(queue := sessions[k].queue + [d])];
      }
      reader := Ready;
      Record(Route, old(Model()));
    }

    /**
     * A datagram from an unknown source. A client opens a flow; a server opens a session only if the limiter grants a
     * permit and some peer's key opens the datagram, and then for the first such peer.
     */
    method OpenSession(permitted: bool) returns (created: bool)
      requires Valid() && reader.Unknown?
      modifies this`reader, this`table, this`sessions, this`history
      ensures Valid() && reader == Ready
      ensures created <==> setup.ClientSide? || (permitted && MatchedPeer(setup, old(reader.d)).Some?)
      ensures history == old(history) + [if created then Admit else Reject(permitted)]
      ensures Model() == Apply(setup, old(Model()), if created then Admit else Reject(permitted))
      ensures created ==>
                && old(reader).d.src !in old(table) && table == old(table)[old(reader).d.src := |old(sessions)|]
                && sessions == old(sessions) + [sessions[|old(sessions)|]]
                && sessions[|old(sessions)|]
                   == Session(old(reader).d.src, old(reader).d, [], [], [], Starting, MatchedPeer(setup, old(reader).d), None)
      ensures !created ==> table == old(table) && sessions == old(sessions)
    {
      Sound();
      var d := reader.d;
      var peer: Option<nat> := None;
      if setup.ServerSide? {
        if permitted {
          peer := MatchPeerBytes(setup.noise, d.payload, setup.peers);
        }
        if peer.None? {
          reader := Ready;
          Record(Reject(permitted), old(Model()));
          return false;
        }
      }
      table := table[d.src := |sessions|];
      sessions := sessions + [Session(d.src, d, [], [], [], Starting, peer, None)];
      reader := Ready;
      Record(Admit, old(Model()));
      return true;
    }

    /** A client flow has sent its hello, and sends its first datagram next. */
    method SendHello(k: nat, hello: Hello)
      requires Valid() && setup.ClientSide? && k < |sessions| && sessions[k].stage.Starting?
      modifies this`sessions, this`history
      ensures Valid() && history == old(history) + [Establish(k, hello)]
      ensures Model() == Apply(setup, old(Model()), Establish(k, hello))
      ensures var was := old(sessions)[k];
        sessions == old(sessions)[k := was.(stage := Relaying, sent := was.sent + [was.first])]
    {
      sessions := sessions[k := sessions[k].(stage := Relaying, sent := sessions[k].sent + [sessions[k].first])];
      Record(Establish(k, hello), old(Model()));
    }

    /**
     * A server session has received its hello: it goes on to relay, to the link's target, exactly if the link is a
     * configured UDP forward link in its peer's allowlist that has a target, and ends otherwise.
     */
    method ReceiveHello(k: nat, hello: Hello) returns (relaying: bool)
      requires Valid() && setup.ServerSide? && k < |sessions| && sessions[k].stage.Starting?
      modifies this`sessions, this`history
      ensures Valid() && |sessions| == |old(sessions)| && sessions == old(sessions)[k := sessions[k]]
      ensures relaying == MayRelay(setup, old(sessions)[k], hello)
      ensures old(sessions)[k].peer.Some? && old(sessions)[k].peer.value < |setup.peers|
      ensures relaying <==>
                exists link :: MayRelayOver(setup.cfg, setup.peers[old(sessions)[k].peer.value], hello, link)
      ensures relaying ==>
                && sessions[k].relay.Some?
                && sessions[k] == old(sessions)[k].(stage := Relaying, relay := sessions[k].relay)
                && var r := sessions[k].relay.value;
                   && r.hello == hello && r.link.target == Some(r.target)
                   && MayRelayOver(setup.cfg, setup.peers[old(sessions)[k].peer.value], hello, r.link)
      ensures !relaying ==> sessions[k] == old(sessions)[k].(queue := [], stage := Ended)
      ensures var step := if relaying then Establish(k, hello) else End(k);
        history == old(history) + [step] && Model() == Apply(setup, old(Model()), step)
    {
      Sound();
      assert SessionEntitled(setup, sessions[k]);
      var peer := setup.peers[sessions[k].peer.value];
      RelaysIff(setup.cfg, peer, hello);
      var link := FindLink(setup.cfg.links, hello.linkId);
      if link.None? || link.value.transport != Udp || link.value.mode != Forward
         || link.value.id !in peer.links || link.value.target.None? {
        EndSession(k);
        return false;
      }
      var relay := Opened(hello, link.value, link.value.target.value);
      sessions := sessions[k := sessions[k].(stage := Relaying, relay := Some(relay))];
      Record(Establish(k, hello), old(Model()));
      return true;
    }

    /** The session's task takes the oldest queued datagram and leaves the others; a client flow sends it on. */
    method TakeQueued(k: nat) returns (d: Datagram)
      requires Valid() && k < |sessions| && sessions[k].queue != []
      requires sessions[k].stage.Relaying? || (setup.ServerSide? && sessions[k].stage.Starting?)
      modifies this`sessions, this`history
      ensures Valid() && history == old(history) + [Take(k)] && Model() == Apply(setup, old(Model()), Take(k))
      ensures d == old(sessions)[k].queue[0] && d.src == old(sessions)[k].src
      ensures var was := old(sessions)[k];
        sessions == old(sessions)[k := was.(queue := was.queue[1..], taken := was.taken + [d],
                                            sent := if setup.ClientSide? then was.sent + [d] else was.sent)]
    {
      Sound();
      assert Trail(sessions[k])[1 + |sessions[k].taken|] == sessions[k].queue[0];
      var s := sessions[k];
      d := s.queue[0];
      s := s.(queue := s.queue[1..], taken := s.taken + [d]);
      if setup.ClientSide? {
        s := s.(sent := s.sent + [d]);
      }
      sessions := sessions[k := s];
      Record(Take(k), old(Model()));
    }

    method EndSession(k: nat)
      requires Valid() && k < |sessions| && (sessions[k].stage.Starting? || sessions[k].stage.Relaying?)
      modifies this`sessions, this`history
      ensures Valid() && history == old(history) + [End(k)] && Model() == Apply(setup, old(Model()), End(k))
      ensures sessions == old(sessions)[k := old(sessions)[k].(queue := [], stage := Ended)]
    {
      sessions := sessions[k := sessions[k].(queue := [], stage := Ended)];
      Record(End(k), old(Model()));
    }

    /** The ended task removes its address: the entry it removes is its own. */
    method RemoveEntry(k: nat)
      requires Valid() && k < |sessions| && sessions[k].stage.Ended?
      modifies this`table, this`sessions, this`history
      ensures Valid() && history == old(history) + [Remove(k)] && Model() == Apply(setup, old(Model()), Remove(k))
      ensures old(sessions)[k].src in old(table) && old(table)[old(sessions)[k].src] == k
      ensures table == old(table) - {old(sessions)[k].src}
      ensures sessions == old(sessions)[k := old(sessions)[k].(stage := Removed)]
    {
      Sound();
      assert Listed(Model(), k);
      table := table - {sessions[k].src};
      sessions := sessions[k := sessions[k].(stage := Removed)];
      Record(Remove(k), old(Model()));
    }

    /** Whatever holds of every run holds of the object at any time. */
    lemma Sound()
      requires Valid()
      ensures Inv(setup, Model())
    {
      RunKeepsInv(setup, INIT, history);
    }
  }
}

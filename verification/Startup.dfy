/** The `expect("validated: ...")` calls both daemons make while starting and dialing. */
module Startup {
  import opened Common
  import opened Configuration
  import opened Authorization

  /** A listener task started for one link. */
  datatype Spawn = Spawn(linkId: string, listen: string)

  /** Links for which this role opens a listener over `transport`. */
  predicate Listens(cfg: Config, link: LinkConfig, transport: Transport)
  {
    link.transport == transport && link.mode == if cfg.role == Server then Reverse else Forward
  }

  /** One listener per link in configuration order; `None` when a link that must listen has no address. */
  method SpawnListeners(cfg: Config, transport: Transport) returns (r: Option<seq<Spawn>>)
    ensures r.Some? <==> forall l :: l in cfg.links && Listens(cfg, l, transport) ==> l.listen.Some?
    ensures r.Some? ==> forall s :: s in r.value <==>
              exists l :: l in cfg.links && Listens(cfg, l, transport) && l.id == s.linkId && l.listen == Some(s.listen)
    ensures r.Some? && DistinctIds(cfg.links) ==>
              forall i, j :: 0 <= i < j < |r.value| ==> r.value[i].linkId != r.value[j].linkId
  {
    var spawned: seq<Spawn> := [];
    for i := 0 to |cfg.links|
      invariant forall l :: l in cfg.links[..i] && Listens(cfg, l, transport) ==> l.listen.Some?
      invariant forall s :: s in spawned ==>
        exists l :: l in cfg.links[..i] && Listens(cfg, l, transport) && l.id == s.linkId && l.listen == Some(s.listen)
      invariant forall l :: l in cfg.links[..i] && Listens(cfg, l, transport) ==> Spawn(l.id, l.listen.value) in spawned
      invariant DistinctIds(cfg.links) ==>
        forall a, b :: 0 <= a < b < |spawned| ==> spawned[a].linkId != spawned[b].linkId
    {
      var link := cfg.links[i];
      assert cfg.links[..i + 1] == cfg.links[..i] + [link];
      if !Listens(cfg, link, transport) {
        continue;
      }
      if link.listen.None? {
        return None;
      }
      spawned := spawned + [Spawn(link.id, link.listen.value)];
    }
    assert cfg.links[..|cfg.links|] == cfg.links;
    return Some(spawned);
  }

  /** Everything the two TCP accept loops and the listeners are started with. */
  datatype ServerPlan = ServerPlan(control: string, data: string, reverse: seq<Spawn>)

  method StartServer(p: Parsers, cfg: Config) returns (plan: Option<ServerPlan>)
    requires cfg.role == Server
    ensures WellFormed(p, cfg) ==> plan.Some?
    ensures plan.Some? ==> Some(plan.value.control) == cfg.listenControl && Some(plan.value.data) == cfg.listenData
    ensures plan.Some? ==> forall s :: s in plan.value.reverse <==>
              exists l :: l in cfg.links && l.transport == Tcp && l.mode == Reverse
                          && l.id == s.linkId && l.listen == Some(s.listen)
  {
    if cfg.listenControl.None? || cfg.listenData.None? {
      return None;
    }
    var reverse := SpawnListeners(cfg, Tcp);
    if WellFormed(p, cfg) {
      ListeningLinksHaveAddresses(p, cfg);
    }
    if reverse.None? {
      return None;
    }
    return Some(ServerPlan(cfg.listenControl.value, cfg.listenData.value, reverse.value));
  }

  datatype ClientPlan = ClientPlan(control: string, key: seq<Byte>, tcp: seq<Spawn>, udp: seq<Spawn>)

  /** Exactly the links of `transport` that listen on this side, each with its own address. */
  ghost predicate SpawnsExactly(cfg: Config, transport: Transport, spawned: seq<Spawn>)
  {
    forall s :: s in spawned <==>
      exists l :: l in cfg.links && Listens(cfg, l, transport) && l.id == s.linkId && l.listen == Some(s.listen)
  }

  /**
   * Starting a validated client cannot fail an `expect`, and neither can anything its listeners do later: every
   * connection a TCP listener accepts dials the data address, and every flow of a UDP listener the UDP address.
   */
  method StartClient(p: Parsers, cfg: Config) returns (plan: Option<ClientPlan>)
    requires cfg.role == Client
    ensures WellFormed(p, cfg) ==> plan.Some?
    ensures plan.Some? ==> Some(plan.value.control) == cfg.serverControlAddr
    ensures plan.Some? ==> cfg.peerPublicKey.Some? && Some(plan.value.key) == p.decodeKey(cfg.peerPublicKey.value)
    ensures plan.Some? ==> SpawnsExactly(cfg, Tcp, plan.value.tcp) && SpawnsExactly(cfg, Udp, plan.value.udp)
    ensures WellFormed(p, cfg) ==> forall s :: s in plan.value.tcp ==>
              DialDataTunnel(cfg, s.linkId, None) == Dialed(cfg.serverDataAddr.value, Hello(s.linkId, None))
    ensures WellFormed(p, cfg) ==> forall s :: s in plan.value.udp ==>
              cfg.serverUdpAddr.Some? && StartFlow(cfg, s.linkId) == Dialed(cfg.serverUdpAddr.value, Hello(s.linkId, None))
  {
    if cfg.peerPublicKey.None? || p.decodeKey(cfg.peerPublicKey.value).None? || cfg.serverControlAddr.None? {
      return None;
    }
    if WellFormed(p, cfg) {
      ListeningLinksHaveAddresses(p, cfg);
    }
    var tcp := SpawnListeners(cfg, Tcp);
    if tcp.None? {
      return None;
    }
    var udp := SpawnListeners(cfg, Udp);
    if udp.None? {
      return None;
    }
    if WellFormed(p, cfg) {
      SpawnedListenersDial(p, cfg, tcp.value, udp.value);
    }
    return Some(ClientPlan(cfg.serverControlAddr.value, p.decodeKey(cfg.peerPublicKey.value).value, tcp.value, udp.value));
  }

  // ----- Dialing the server -----

  /** Where a tunnel goes and what it announces there, or a failed `expect`. */
  datatype Dialing = Dialed(server: string, hello: Hello) | DialPanic

  /** A TCP tunnel, dialed for a local connection (no stream id) or for an OpenStream. */
  function DialDataTunnel(cfg: Config, linkId: string, streamId: Option<nat>): Dialing
  {
    if cfg.serverDataAddr.None? then DialPanic
    else if linkId !in CounterKeys(cfg) then DialPanic
    else Dialed(cfg.serverDataAddr.value, Hello(linkId, streamId))
  }

  /** A UDP flow's tunnel. It looks no counters up. */
  function StartFlow(cfg: Config, linkId: string): Dialing
  {
    if cfg.serverUdpAddr.None? then DialPanic else Dialed(cfg.serverUdpAddr.value, Hello(linkId, None))
  }

  lemma SpawnedListenersDial(p: Parsers, cfg: Config, tcp: seq<Spawn>, udp: seq<Spawn>)
    requires WellFormed(p, cfg) && cfg.role == Client
    requires SpawnsExactly(cfg, Tcp, tcp) && SpawnsExactly(cfg, Udp, udp)
    ensures forall s :: s in tcp ==>
              DialDataTunnel(cfg, s.linkId, None) == Dialed(cfg.serverDataAddr.value, Hello(s.linkId, None))
    ensures forall s :: s in udp ==>
              cfg.serverUdpAddr.Some? && StartFlow(cfg, s.linkId) == Dialed(cfg.serverUdpAddr.value, Hello(s.linkId, None))
  {
    forall s | s in tcp
      ensures s.linkId in CounterKeys(cfg)
    {
      var l :| l in cfg.links && Listens(cfg, l, Tcp) && l.id == s.linkId;
      var i :| 0 <= i < |cfg.links| && cfg.links[i] == l;
      assert cfg.links[i].id == s.linkId;
    }
    forall s | s in udp
      ensures AnyUdpLink(cfg.links)
    {
      var l :| l in cfg.links && Listens(cfg, l, Udp) && l.id == s.linkId;
      var i :| 0 <= i < |cfg.links| && cfg.links[i] == l;
      assert cfg.links[i].transport == Udp;
    }
  }

  /**
   * The two sides together: the server dials for what a client's TCP or UDP listener announces exactly if it has a
   * matching entry, which the peer may use.
   */
  lemma ListenersMeetMatchingEntries(p: Parsers, client: Config, server: Config, peer: Peer, local: LinkConfig, link: LinkConfig)
    requires WellFormed(p, client) && client.role == Client && WellFormed(p, server) && server.role == Server
    requires local in client.links && local.mode == Forward
    ensures local.transport == Tcp ==>
              var hello := Hello(local.id, None);
              && DialDataTunnel(client, local.id, None) == Dialed(client.serverDataAddr.value, hello)
              && ((exists target :: Authorize(server, peer, hello) == Dial(link, target)) <==>
                    link in server.links && Matches(local, link) && local.id in peer.links)
    ensures local.transport == Udp ==>
              var hello := Hello(local.id, None);
              && client.serverUdpAddr.Some? && StartFlow(client, local.id) == Dialed(client.serverUdpAddr.value, hello)
              && ((exists target :: AuthorizeUdp(server, peer, hello) == Dial(link, target)) <==>
                    link in server.links && Matches(local, link) && local.id in peer.links)
  {
    var i :| 0 <= i < |client.links| && client.links[i] == local;
    assert client.links[i].id == local.id && client.links[i].transport == local.transport;
    AuthorizedIffEntitled(p, server, peer, Hello(local.id, None), link, 0);
  }

  /** The other side's entry for the same link. */
  predicate Matches(a: LinkConfig, b: LinkConfig)
  {
    a.id == b.id && a.mode == b.mode && a.transport == b.transport
  }

  lemma ListeningLinksHaveAddresses(p: Parsers, cfg: Config)
    requires WellFormed(p, cfg)
    ensures forall l, transport :: l in cfg.links && Listens(cfg, l, transport) ==> l.listen.Some?
  {
    forall l, transport | l in cfg.links && Listens(cfg, l, transport)
      ensures l.listen.Some?
    {
      var i :| 0 <= i < |cfg.links| && cfg.links[i] == l;
      assert LinkWellFormed(p, cfg.role, cfg.links[i]);
    }
  }

  // ----- The client's half of a reverse stream -----

  /** The tunnel dialed for a signal: its local destination, the server's address and the announcement. */
  datatype Tunnel = Tunnel(local: string, server: string, hello: Hello)

  /** Whether an OpenStream for `linkId` is one this client acts on. */
  predicate LinkExpectsReverse(cfg: Config, linkId: string)
  {
    exists i :: 0 <= i < |cfg.links| && cfg.links[i].id == linkId && cfg.links[i].mode == Reverse
  }

  datatype Answer = Answered(tunnel: Tunnel) | Ignored | AnswerPanic

  /** The client's reaction to one OpenStream, up to dialing the tunnel. */
  function OnOpenStream(cfg: Config, linkId: string, streamId: nat): Answer
  {
    if !LinkExpectsReverse(cfg, linkId) then Ignored
    else
      match FindLink(cfg.links, linkId)
      case None => Ignored
      case Some(link) =>
        if link.target.None? then Ignored
        else
          match DialDataTunnel(cfg, linkId, Some(streamId))
          case DialPanic => AnswerPanic
          case Dialed(server, hello) => Answered(Tunnel(link.target.value, server, hello))
  }

  /**
   * A validated client answers exactly the signals naming one of its reverse links, dials that
   * link's own target, and repeats the signalled pair in its hello.
   */
  lemma AnswersItsReverseLinks(p: Parsers, cfg: Config, linkId: string, streamId: nat)
    requires WellFormed(p, cfg) && cfg.role == Client
    ensures OnOpenStream(cfg, linkId, streamId) != AnswerPanic
    ensures OnOpenStream(cfg, linkId, streamId).Answered? <==>
              exists l :: l in cfg.links && l.id == linkId && l.mode == Reverse && l.transport == Tcp
    ensures forall l :: l in cfg.links && l.id == linkId && OnOpenStream(cfg, linkId, streamId).Answered? ==>
              var t := OnOpenStream(cfg, linkId, streamId).tunnel;
              Some(t.local) == l.target && Some(t.server) == cfg.serverDataAddr && t.hello == Hello(linkId, Some(streamId))
  {
    match FindLink(cfg.links, linkId)
    case None =>
    case Some(found) =>
      var i :| 0 <= i < |cfg.links| && cfg.links[i] == found;
      assert LinkWellFormed(p, cfg.role, cfg.links[i]);
      forall l | l in cfg.links && l.id == linkId
        ensures l == found
      {
        FindLinkUnique(cfg.links, l);
      }
  }
}

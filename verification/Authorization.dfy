/**
 * Who may use which link: matching a handshake message to a pinned peer
 * (crates/ghostport-core/src/peermatch.rs) and deciding what a StreamHello is
 * allowed to open (crates/ghostport-core/src/server.rs, crates/ghostport-udp/src/server.rs).
 */
module Authorization {
  import opened Common
  import opened Configuration

  datatype Peer = Peer(name: string, publicKey: seq<Byte>, links: set<string>)

  /** The Noise library: which keys a responder can be built for, and which messages such a responder reads. */
  datatype Noise = Noise(
    builds: seq<Byte> -> bool,
    accepts: (seq<Byte>, seq<Byte>) -> bool)
  {
    predicate Opens(key: seq<Byte>, message: seq<Byte>)
    {
      builds(key) && accepts(key, message)
    }

    /** Section 7.5 of the Noise specification, pattern KK: at most one static key reads a first message. */
    ghost predicate AtMostOneKey(message: seq<Byte>)
    {
      forall k1, k2 :: Opens(k1, message) && Opens(k2, message) ==> k1 == k2
    }
  }

  datatype Hello = Hello(linkId: string, streamId: Option<nat>)

  datatype Refusal = NotAllowed | UnknownLink | WrongTransport | ModeMismatch

  /** What a data connection's hello leads to; `Panic` is a failed `expect`. */
  datatype Decision =
    | Dial(link: LinkConfig, target: string)
    | Claim(link: LinkConfig, streamId: nat)
    | Refuse(why: Refusal)
    | Panic

  // ----- Peers -----

  /** Index of the first peer from `from` on whose key opens `message`. */
  function FirstMatch(noise: Noise, message: seq<Byte>, peers: seq<Peer>, from: nat := 0): (r: Option<nat>)
    requires from <= |peers|
    ensures r.Some? ==> from <= r.value < |peers| && noise.Opens(peers[r.value].publicKey, message)
    ensures r.Some? ==> forall i :: from <= i < r.value ==> !noise.Opens(peers[i].publicKey, message)
    ensures r.None? ==> forall i :: from <= i < |peers| ==> !noise.Opens(peers[i].publicKey, message)
    decreases |peers| - from
  {
    if from == |peers| then None
    else if noise.Opens(peers[from].publicKey, message) then Some(from)
    else FirstMatch(noise, message, peers, from + 1)
  }

  method MatchPeerBytes(noise: Noise, message: seq<Byte>, peers: seq<Peer>) returns (r: Option<nat>)
    ensures r == FirstMatch(noise, message, peers)
  {
    for index := 0 to |peers|
      invariant FirstMatch(noise, message, peers) == FirstMatch(noise, message, peers, index)
    {
      if !noise.builds(peers[index].publicKey) {
        continue;
      }
      if noise.accepts(peers[index].publicKey, message) {
        return Some(index);
      }
    }
    return None;
  }

  ghost predicate DistinctPeerKeys(peers: seq<Peer>)
  {
    forall i, j :: 0 <= i < j < |peers| ==> peers[i].publicKey != peers[j].publicKey
  }

  /** Reordering the peer list never changes who is recognised. */
  lemma MatchIgnoresOrder(noise: Noise, message: seq<Byte>, peers: seq<Peer>, shuffled: seq<Peer>)
    requires noise.AtMostOneKey(message) && DistinctPeerKeys(peers) && multiset(peers) == multiset(shuffled)
    ensures FirstMatch(noise, message, peers).Some? <==> FirstMatch(noise, message, shuffled).Some?
    ensures FirstMatch(noise, message, peers).Some? ==>
              peers[FirstMatch(noise, message, peers).value] == shuffled[FirstMatch(noise, message, shuffled).value]
  {
    var a, b := FirstMatch(noise, message, peers), FirstMatch(noise, message, shuffled);
    if a.Some? {
      assert peers[a.value] in multiset(shuffled);
    }
    if b.Some? {
      assert shuffled[b.value] in multiset(peers);
      var i :| 0 <= i < |peers| && peers[i] == shuffled[b.value];
    }
  }

  /** The peer list handed to the server at start-up; `None` when a key does not decode. */
  method ResolvePeers(p: Parsers, configs: seq<PeerConfig>) returns (r: Option<seq<Peer>>)
    ensures r.Some? <==> forall i :: 0 <= i < |configs| ==> p.decodeKey(configs[i].publicKey).Some?
    ensures r.Some? ==> |r.value| == |configs| && forall i :: 0 <= i < |configs| ==>
              && r.value[i].name == configs[i].name
              && Some(r.value[i].publicKey) == p.decodeKey(configs[i].publicKey)
              && r.value[i].links == Elements(configs[i].links)
    ensures r.Some? && (exists ids :: PeersWellFormed(p, configs, ids)) ==> DistinctPeerKeys(r.value)
  {
    var peers: seq<Peer> := [];
    for i := 0 to |configs|
      invariant |peers| == i
      invariant forall j :: 0 <= j < i ==> p.decodeKey(configs[j].publicKey).Some?
      invariant forall j :: 0 <= j < i ==>
        && peers[j].name == configs[j].name
        && Some(peers[j].publicKey) == p.decodeKey(configs[j].publicKey)
        && peers[j].links == Elements(configs[j].links)
    {
      match p.decodeKey(configs[i].publicKey)
      case Some(key) => peers := peers + [Peer(configs[i].name, key, Elements(configs[i].links))];
      case None => return None;
    }
    return Some(peers);
  }

  // ----- Hellos -----

  /** The first link called `id`. */
  function FindLink(links: seq<LinkConfig>, id: string): (r: Option<LinkConfig>)
    ensures r.Some? ==> r.value in links && r.value.id == id
    ensures r.None? ==> forall l :: l in links ==> l.id != id
  {
    if links == [] then None
    else if links[0].id == id then Some(links[0])
    else FindLink(links[1..], id)
  }

  lemma {:induction false} FindLinkUnique(links: seq<LinkConfig>, link: LinkConfig)
    requires DistinctIds(links) && link in links
    ensures FindLink(links, link.id) == Some(link)
  {
    if links[0] != link {
      var i :| 0 <= i < |links| && links[i] == link;
      assert links[1..][i - 1] == link && links[0].id != link.id;
      FindLinkUnique(links[1..], link);
    }
  }

  /** The keys of the shared counters map, built once from the configuration. */
  function CounterKeys(cfg: Config): set<string>
  {
    LinkIds(cfg.links)
  }

  /** The TCP data channel's checks, in the order the server makes them. */
  function Authorize(cfg: Config, peer: Peer, hello: Hello): Decision
  {
    if hello.linkId !in peer.links then Refuse(NotAllowed)
    else
      match FindLink(cfg.links, hello.linkId)
      case None => Refuse(UnknownLink)
      case Some(link) =>
        if link.transport != Tcp then Refuse(WrongTransport)
        else if link.id !in CounterKeys(cfg) then Panic
        else
          match (link.mode, hello.streamId)
          case (Forward, None) => if link.target.Some? then Dial(link, link.target.value) else Panic
          case (Reverse, Some(id)) => Claim(link, id)
          case _ => Refuse(ModeMismatch)
  }

  /** The UDP session's checks: the link first, the peer's allowlist last. */
  function AuthorizeUdp(cfg: Config, peer: Peer, hello: Hello): Decision
  {
    match FindLink(cfg.links, hello.linkId)
    case None => Refuse(UnknownLink)
    case Some(link) =>
      if link.transport != Udp || link.mode != Forward then Refuse(ModeMismatch)
      else if link.id !in peer.links then Refuse(NotAllowed)
      else if link.target.Some? then Dial(link, link.target.value)
      else Panic
  }

  /** `link` is configured, named by the hello, of this transport and mode, and allowed to `peer`. */
  predicate Entitled(cfg: Config, peer: Peer, hello: Hello, link: LinkConfig, transport: Transport, mode: LinkMode)
  {
    && link in cfg.links && link.id == hello.linkId && link.id in peer.links
    && link.transport == transport && link.mode == mode
  }

  /** No earlier link has the same id. */
  ghost predicate FirstNamed(links: seq<LinkConfig>, link: LinkConfig)
  {
    exists i :: 0 <= i < |links| && links[i] == link && forall j :: 0 <= j < i ==> links[j].id != link.id
  }

  lemma {:induction false} FindLinkIff(links: seq<LinkConfig>, id: string, link: LinkConfig)
    ensures FindLink(links, id) == Some(link) <==> link.id == id && FirstNamed(links, link)
  {
    if links != [] {
      FindLinkIff(links[1..], id, link);
      if FirstNamed(links[1..], link) && links[0].id != link.id {
        var i :| 0 <= i < |links[1..]| && links[1..][i] == link && forall j :: 0 <= j < i ==> links[1..][j].id != link.id;
        assert links[i + 1] == link;
        assert forall j :: 0 < j < i + 1 ==> links[j] == links[1..][j - 1];
      }
      if i :| 0 < i < |links| && links[i] == link && forall j :: 0 <= j < i ==> links[j].id != link.id {
        assert links[1..][i - 1] == link;
        assert forall j :: 0 <= j < i - 1 ==> links[1..][j] == links[j + 1];
      }
    }
  }

  /** `link` is the one the hello names, over TCP and of this mode, and `peer` is allowed it. */
  ghost predicate MayOpen(cfg: Config, peer: Peer, hello: Hello, link: LinkConfig, mode: LinkMode)
  {
    Entitled(cfg, peer, hello, link, Tcp, mode) && FirstNamed(cfg.links, link)
  }

  /** The data channel's decision for every configuration, validated or not. */
  lemma OpensIff(cfg: Config, peer: Peer, hello: Hello)
    ensures var d := Authorize(cfg, peer, hello);
      && (d.Dial? <==> hello.streamId.None? && exists link :: MayOpen(cfg, peer, hello, link, Forward) && link.target.Some?)
      && (d.Dial? ==> MayOpen(cfg, peer, hello, d.link, Forward) && d.link.target == Some(d.target))
      && (d.Claim? <==> hello.streamId.Some? && exists link :: MayOpen(cfg, peer, hello, link, Reverse))
      && (d.Claim? ==> MayOpen(cfg, peer, hello, d.link, Reverse) && Some(d.streamId) == hello.streamId)
  {
    var found := FindLink(cfg.links, hello.linkId);
    if found.Some? {
      FindLinkIff(cfg.links, hello.linkId, found.value);
      var i :| 0 <= i < |cfg.links| && cfg.links[i] == found.value;
      assert found.value.id in CounterKeys(cfg);
    }
    forall link, mode | MayOpen(cfg, peer, hello, link, mode)
      ensures found == Some(link)
    {
      FindLinkIff(cfg.links, hello.linkId, link);
    }
    var d := Authorize(cfg, peer, hello);
    assert d.Dial? ==> MayOpen(cfg, peer, hello, d.link, Forward);
    assert d.Claim? ==> MayOpen(cfg, peer, hello, d.link, Reverse);
  }

  /** `link` is the one the hello names, a UDP forward link with a target, and `peer` is allowed it. */
  ghost predicate MayRelayOver(cfg: Config, peer: Peer, hello: Hello, link: LinkConfig)
  {
    Entitled(cfg, peer, hello, link, Udp, Forward) && FirstNamed(cfg.links, link) && link.target.Some?
  }

  lemma RelaysIff(cfg: Config, peer: Peer, hello: Hello)
    ensures var d := AuthorizeUdp(cfg, peer, hello);
      && (d.Dial? <==> exists link :: MayRelayOver(cfg, peer, hello, link))
      && (d.Dial? ==> MayRelayOver(cfg, peer, hello, d.link) && d.link.target == Some(d.target))
  {
    var found := FindLink(cfg.links, hello.linkId);
    if found.Some? {
      FindLinkIff(cfg.links, hello.linkId, found.value);
    }
    forall link | MayRelayOver(cfg, peer, hello, link)
      ensures found == Some(link)
    {
      FindLinkIff(cfg.links, hello.linkId, link);
    }
    var d := AuthorizeUdp(cfg, peer, hello);
    assert d.Dial? ==> MayRelayOver(cfg, peer, hello, d.link);
  }

  /** With a validated server configuration the data channel relays exactly what the peer is entitled to. */
  lemma AuthorizedIffEntitled(p: Parsers, cfg: Config, peer: Peer, hello: Hello, link: LinkConfig, id: nat)
    requires WellFormed(p, cfg) && cfg.role == Server
    ensures Authorize(cfg, peer, hello) != Panic
    ensures (exists target :: Authorize(cfg, peer, hello) == Dial(link, target)) <==>
              Entitled(cfg, peer, hello, link, Tcp, Forward) && hello.streamId == None
    ensures Authorize(cfg, peer, hello) == Claim(link, id) <==>
              Entitled(cfg, peer, hello, link, Tcp, Reverse) && hello.streamId == Some(id)
    ensures AuthorizeUdp(cfg, peer, hello) != Panic
    ensures (exists target :: AuthorizeUdp(cfg, peer, hello) == Dial(link, target)) <==>
              Entitled(cfg, peer, hello, link, Udp, Forward)
  {
    if link in cfg.links && link.id == hello.linkId {
      FindLinkUnique(cfg.links, link);
      assert Entitled(cfg, peer, hello, link, Tcp, Forward) && hello.streamId == None ==>
          Authorize(cfg, peer, hello) == Dial(link, link.target.value);
      assert Entitled(cfg, peer, hello, link, Udp, Forward) ==>
          AuthorizeUdp(cfg, peer, hello) == Dial(link, link.target.value);
    }
    match FindLink(cfg.links, hello.linkId)
    case None =>
    case Some(found) =>
      var i :| 0 <= i < |cfg.links| && cfg.links[i] == found;
      assert LinkWellFormed(p, cfg.role, cfg.links[i]);
  }
}

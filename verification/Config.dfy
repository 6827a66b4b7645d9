/** The configuration of one role of a peer pair and its validation (crates/ghostport-core/src/config.rs). */
module Configuration {
  import opened Common

  datatype Role = Server | Client

  datatype LinkMode = Forward | Reverse

  datatype Transport = Tcp | Udp

  datatype LinkConfig = LinkConfig(
    id: string,
    mode: LinkMode,
    transport: Transport,
    listen: Option<string>,
    target: Option<string>)

  datatype PeerConfig = PeerConfig(name: string, publicKey: string, links: seq<string>)

  datatype Config = Config(
    role: Role,
    privateKeyPath: string,
    peerPublicKey: Option<string>,
    peers: seq<PeerConfig>,
    listenControl: Option<string>,
    listenData: Option<string>,
    listenUdp: Option<string>,
    serverControlAddr: Option<string>,
    serverDataAddr: Option<string>,
    serverUdpAddr: Option<string>,
    links: seq<LinkConfig>)

  /** The two library parsers validation relies on: socket addresses and base64 keys of 32 bytes. */
  datatype Parsers = Parsers(
    isSocketAddr: string -> bool,
    decodeKey: string -> Option<seq<Byte>>)

  datatype Field =
    | ListenControl | ListenData | ListenUdp
    | ServerControlAddr | ServerDataAddr | ServerUdpAddr
    | PeerPublicKey | Peers

  /** One problem `validate` can report; each stands for one family of the source's messages. */
  datatype Error =
    | Missing(field: Field)
    | Forbidden(field: Field)
    | BadServerKey
    | DuplicateLinkId(id: string)
    | ReverseUdpLink(id: string)
    | LinkAddressMissing(id: string)
    | LinkAddressForbidden(id: string)
    | LinkAddressInvalid(id: string)
    | DuplicatePeerName(name: string)
    | DuplicatePeerKey(name: string)
    | BadPeerKey(name: string)
    | UnknownPeerLink(name: string, id: string)

  /** Whether a link of `mode` takes `listen` (rather than `target`) on the side with `role`. */
  function LinkNeedsListen(role: Role, mode: LinkMode): bool
  {
    match (role, mode)
    case (Client, Forward) => true
    case (Server, Reverse) => true
    case _ => false
  }

  function RequiredAddress(role: Role, link: LinkConfig): Option<string>
  {
    if LinkNeedsListen(role, link.mode) then link.listen else link.target
  }

  function ForbiddenAddress(role: Role, link: LinkConfig): Option<string>
  {
    if LinkNeedsListen(role, link.mode) then link.target else link.listen
  }

  function LinkIds(links: seq<LinkConfig>): set<string>
  {
    set i | 0 <= i < |links| :: links[i].id
  }

  predicate AnyUdpLink(links: seq<LinkConfig>)
  {
    exists i :: 0 <= i < |links| && links[i].transport == Udp
  }

  // ----- What each reported problem means -----

  ghost predicate FieldProblem(p: Parsers, cfg: Config, e: Error)
  {
    match cfg.role
    case Server =>
      || (e == Missing(ListenControl) && cfg.listenControl.None?)
      || (e == Missing(ListenData) && cfg.listenData.None?)
      || (e == Forbidden(ServerControlAddr) && cfg.serverControlAddr.Some?)
      || (e == Forbidden(ServerDataAddr) && cfg.serverDataAddr.Some?)
      || (e == Forbidden(PeerPublicKey) && cfg.peerPublicKey.Some?)
      || (e == Missing(Peers) && cfg.peers == [])
    case Client =>
      || (e == Missing(ServerControlAddr) && cfg.serverControlAddr.None?)
      || (e == Missing(ServerDataAddr) && cfg.serverDataAddr.None?)
      || (e == Forbidden(ListenControl) && cfg.listenControl.Some?)
      || (e == Forbidden(ListenData) && cfg.listenData.Some?)
      || (e == Missing(PeerPublicKey) && cfg.peerPublicKey.None?)
      || (e == BadServerKey && cfg.peerPublicKey.Some? && p.decodeKey(cfg.peerPublicKey.value).None?)
      || (e == Forbidden(Peers) && cfg.peers != [])
  }

  ghost predicate PeerProblem(p: Parsers, peers: seq<PeerConfig>, ids: set<string>, k: nat, e: Error)
    requires k < |peers|
  {
    var peer := peers[k];
    var key := p.decodeKey(peer.publicKey);
    match e
    case DuplicatePeerName(name) => name == peer.name && exists j :: 0 <= j < k && peers[j].name == name
    case DuplicatePeerKey(name) =>
      name == peer.name && key.Some? && exists j :: 0 <= j < k && p.decodeKey(peers[j].publicKey) == key
    case BadPeerKey(name) => name == peer.name && key.None?
    case UnknownPeerLink(name, id) => name == peer.name && id in peer.links && id !in ids
    case _ => false
  }

  ghost predicate AnyPeerProblem(p: Parsers, peers: seq<PeerConfig>, ids: set<string>, e: Error)
  {
    exists k :: 0 <= k < |peers| && PeerProblem(p, peers, ids, k, e)
  }

  ghost predicate LinkProblem(p: Parsers, role: Role, link: LinkConfig, e: Error)
  {
    var required := RequiredAddress(role, link);
    || (e == LinkAddressMissing(link.id) && required.None?)
    || (e == LinkAddressForbidden(link.id) && ForbiddenAddress(role, link).Some?)
    || (e == LinkAddressInvalid(link.id) && required.Some? && !p.isSocketAddr(required.value))
  }

  ghost predicate RepeatedId(links: seq<LinkConfig>, id: string)
  {
    exists i, j :: 0 <= i < j < |links| && links[i].id == id == links[j].id
  }

  ghost predicate AnyLinkProblem(p: Parsers, role: Role, links: seq<LinkConfig>, e: Error)
  {
    exists i :: 0 <= i < |links| && LinkProblem(p, role, links[i], e)
  }

  ghost predicate LinkListProblem(p: Parsers, role: Role, links: seq<LinkConfig>, e: Error)
  {
    (e.DuplicateLinkId? && RepeatedId(links, e.id)) || AnyLinkProblem(p, role, links, e)
  }

  ghost predicate UdpProblem(cfg: Config, e: Error)
  {
    || (e.ReverseUdpLink? &&
        exists i :: 0 <= i < |cfg.links| && cfg.links[i].id == e.id
                    && cfg.links[i].transport == Udp && cfg.links[i].mode == Reverse)
    || match cfg.role
       case Server =>
         || (e == Missing(ListenUdp) && AnyUdpLink(cfg.links) && cfg.listenUdp.None?)
         || (e == Forbidden(ListenUdp) && !AnyUdpLink(cfg.links) && cfg.listenUdp.Some?)
       case Client =>
         || (e == Missing(ServerUdpAddr) && AnyUdpLink(cfg.links) && cfg.serverUdpAddr.None?)
         || (e == Forbidden(ServerUdpAddr) && !AnyUdpLink(cfg.links) && cfg.serverUdpAddr.Some?)
  }

  /** `e` names a problem that `cfg` really has. */
  ghost predicate Problem(p: Parsers, cfg: Config, e: Error)
  {
    || FieldProblem(p, cfg, e)
    || (cfg.role == Server && AnyPeerProblem(p, cfg.peers, LinkIds(cfg.links), e))
    || LinkListProblem(p, cfg.role, cfg.links, e)
    || UdpProblem(cfg, e)
  }

  // ----- The same rules, said positively -----

  ghost predicate PeersWellFormed(p: Parsers, peers: seq<PeerConfig>, ids: set<string>)
  {
    && (forall i, j :: 0 <= i < j < |peers| ==>
          peers[i].name != peers[j].name && p.decodeKey(peers[i].publicKey) != p.decodeKey(peers[j].publicKey))
    && (forall i :: 0 <= i < |peers| ==> p.decodeKey(peers[i].publicKey).Some?)
    && (forall i, id :: 0 <= i < |peers| && id in peers[i].links ==> id in ids)
  }

  predicate LinkWellFormed(p: Parsers, role: Role, link: LinkConfig)
  {
    && RequiredAddress(role, link).Some?
    && p.isSocketAddr(RequiredAddress(role, link).value)
    && ForbiddenAddress(role, link).None?
  }

  /**
   * One side of a link listens and the other dials: in a pair of well-formed entries of the same mode exactly one has
   * a listening address and exactly the other a target, so no entry is well formed on both sides.
   */
  lemma OneSideListens(p: Parsers, server: LinkConfig, client: LinkConfig)
    requires LinkWellFormed(p, Server, server) && LinkWellFormed(p, Client, client) && server.mode == client.mode
    ensures LinkNeedsListen(Server, server.mode) != LinkNeedsListen(Client, client.mode)
    ensures server.listen.Some? != client.listen.Some? && server.target.Some? != client.target.Some?
    ensures server.listen.Some? <==> client.target.Some?
    ensures server != client
  {
  }

  function IdOf(link: LinkConfig): string
  {
    link.id
  }

  ghost predicate DistinctIds(links: seq<LinkConfig>)
  {
    DistinctKeys(links, IdOf)
  }

  ghost predicate LinksWellFormed(p: Parsers, role: Role, links: seq<LinkConfig>)
  {
    && DistinctIds(links)
    && (forall i :: 0 <= i < |links| ==> LinkWellFormed(p, role, links[i]))
    && (forall i :: 0 <= i < |links| ==> !(links[i].transport == Udp && links[i].mode == Reverse))
  }

  ghost predicate RoleFieldsWellFormed(p: Parsers, cfg: Config)
  {
    match cfg.role
    case Server =>
      && cfg.listenControl.Some? && cfg.listenData.Some?
      && cfg.serverControlAddr.None? && cfg.serverDataAddr.None?
      && cfg.peerPublicKey.None? && cfg.peers != []
      && (AnyUdpLink(cfg.links) <==> cfg.listenUdp.Some?)
    case Client =>
      && cfg.listenControl.None? && cfg.listenData.None?
      && cfg.serverControlAddr.Some? && cfg.serverDataAddr.Some?
      && cfg.peerPublicKey.Some? && p.decodeKey(cfg.peerPublicKey.value).Some? && cfg.peers == []
      && (AnyUdpLink(cfg.links) <==> cfg.serverUdpAddr.Some?)
  }

  ghost predicate WellFormed(p: Parsers, cfg: Config)
  {
    && RoleFieldsWellFormed(p, cfg)
    && (cfg.role == Server ==> PeersWellFormed(p, cfg.peers, LinkIds(cfg.links)))
    && LinksWellFormed(p, cfg.role, cfg.links)
  }

  /** A configuration has no nameable problem exactly when it is well formed. */
  lemma NoProblemIffWellFormed(p: Parsers, cfg: Config)
    ensures (forall e :: !Problem(p, cfg, e)) <==> WellFormed(p, cfg)
  {
    if forall e :: !Problem(p, cfg, e) {
      forall e
        ensures !FieldProblem(p, cfg, e) && !UdpProblem(cfg, e)
      {
        assert !Problem(p, cfg, e);
      }
      NoProblemMeansLinks(p, cfg);
      match cfg.role
      case Server =>
        NoProblemMeansServerFields(p, cfg);
        NoProblemMeansPeers(p, cfg);
      case Client =>
        NoProblemMeansClientFields(p, cfg);
    }
  }

  lemma NoProblemMeansServerFields(p: Parsers, cfg: Config)
    requires cfg.role == Server
    requires forall e :: !FieldProblem(p, cfg, e)
    requires forall e :: !UdpProblem(cfg, e)
    ensures RoleFieldsWellFormed(p, cfg)
  {
    assert !FieldProblem(p, cfg, Missing(ListenControl)) && !FieldProblem(p, cfg, Missing(ListenData));
    assert !FieldProblem(p, cfg, Forbidden(ServerControlAddr)) && !FieldProblem(p, cfg, Forbidden(ServerDataAddr));
    assert !FieldProblem(p, cfg, Forbidden(PeerPublicKey)) && !FieldProblem(p, cfg, Missing(Peers));
    assert !UdpProblem(cfg, Missing(ListenUdp)) && !UdpProblem(cfg, Forbidden(ListenUdp));
  }

  lemma NoProblemMeansClientFields(p: Parsers, cfg: Config)
    requires cfg.role == Client
    requires forall e :: !FieldProblem(p, cfg, e)
    requires forall e :: !UdpProblem(cfg, e)
    ensures RoleFieldsWellFormed(p, cfg)
  {
    assert !FieldProblem(p, cfg, Missing(ServerControlAddr)) && !FieldProblem(p, cfg, Missing(ServerDataAddr));
    assert !FieldProblem(p, cfg, Forbidden(ListenControl)) && !FieldProblem(p, cfg, Forbidden(ListenData));
    assert !FieldProblem(p, cfg, Missing(PeerPublicKey)) && !FieldProblem(p, cfg, BadServerKey);
    assert !FieldProblem(p, cfg, Forbidden(Peers));
    assert !UdpProblem(cfg, Missing(ServerUdpAddr)) && !UdpProblem(cfg, Forbidden(ServerUdpAddr));
  }

  lemma NoProblemMeansLinks(p: Parsers, cfg: Config)
    requires forall e :: !Problem(p, cfg, e)
    ensures LinksWellFormed(p, cfg.role, cfg.links)
  {
    var links := cfg.links;
    forall i, j | 0 <= i < j < |links|
      ensures links[i].id != links[j].id
    {
      assert !Problem(p, cfg, DuplicateLinkId(links[i].id));
      assert !RepeatedId(links, links[i].id);
    }
    forall i | 0 <= i < |links|
      ensures LinkWellFormed(p, cfg.role, links[i])
      ensures !(links[i].transport == Udp && links[i].mode == Reverse)
    {
      var id := links[i].id;
      assert !Problem(p, cfg, LinkAddressMissing(id)) && !Problem(p, cfg, LinkAddressForbidden(id));
      assert !Problem(p, cfg, LinkAddressInvalid(id)) && !Problem(p, cfg, ReverseUdpLink(id));
      assert !LinkProblem(p, cfg.role, links[i], LinkAddressMissing(id));
      assert !LinkProblem(p, cfg.role, links[i], LinkAddressForbidden(id));
      assert !LinkProblem(p, cfg.role, links[i], LinkAddressInvalid(id));
    }
  }

  lemma NoProblemMeansPeers(p: Parsers, cfg: Config)
    requires cfg.role == Server
    requires forall e :: !Problem(p, cfg, e)
    ensures PeersWellFormed(p, cfg.peers, LinkIds(cfg.links))
  {
    var peers, ids := cfg.peers, LinkIds(cfg.links);
    forall k | 0 <= k < |peers|
      ensures p.decodeKey(peers[k].publicKey).Some?
      ensures forall id :: id in peers[k].links ==> id in ids
    {
      assert !Problem(p, cfg, BadPeerKey(peers[k].name));
      assert !PeerProblem(p, peers, ids, k, BadPeerKey(peers[k].name));
      forall id | id in peers[k].links
        ensures id in ids
      {
        assert !Problem(p, cfg, UnknownPeerLink(peers[k].name, id));
        assert !PeerProblem(p, peers, ids, k, UnknownPeerLink(peers[k].name, id));
      }
    }
    forall i, j | 0 <= i < j < |peers|
      ensures peers[i].name != peers[j].name
      ensures p.decodeKey(peers[i].publicKey) != p.decodeKey(peers[j].publicKey)
    {
      var name := peers[j].name;
      assert !Problem(p, cfg, DuplicatePeerName(name)) && !Problem(p, cfg, DuplicatePeerKey(name));
      assert !PeerProblem(p, peers, ids, j, DuplicatePeerName(name));
      assert !PeerProblem(p, peers, ids, j, DuplicatePeerKey(name));
    }
  }

  // ----- The validator itself -----

  function RequirePresent(field: Field, value: Option<string>): seq<Error>
  {
    if value.None? then [Missing(field)] else []
  }

  function RequireAbsent(field: Field, value: Option<string>): seq<Error>
  {
    if value.Some? then [Forbidden(field)] else []
  }

  method ValidateFields(p: Parsers, cfg: Config) returns (errors: seq<Error>)
    ensures forall e :: e in errors <==> FieldProblem(p, cfg, e)
    ensures forall e :: e in errors ==> !e.DuplicateLinkId?
  {
    errors := [];
    match cfg.role
    case Server =>
      errors := errors + RequirePresent(ListenControl, cfg.listenControl);
      errors := errors + RequirePresent(ListenData, cfg.listenData);
      errors := errors + RequireAbsent(ServerControlAddr, cfg.serverControlAddr);
      errors := errors + RequireAbsent(ServerDataAddr, cfg.serverDataAddr);
      if cfg.peerPublicKey.Some? {
        errors := errors + [Forbidden(PeerPublicKey)];
      }
      if cfg.peers == [] {
        errors := errors + [Missing(Peers)];
      }
    case Client =>
      errors := errors + RequirePresent(ServerControlAddr, cfg.serverControlAddr);
      errors := errors + RequirePresent(ServerDataAddr, cfg.serverDataAddr);
      errors := errors + RequireAbsent(ListenControl, cfg.listenControl);
      errors := errors + RequireAbsent(ListenData, cfg.listenData);
      match cfg.peerPublicKey {
        case None => errors := errors + [Missing(PeerPublicKey)];
        case Some(key) =>
          if p.decodeKey(key).None? {
            errors := errors + [BadServerKey];
          }
      }
      if cfg.peers != [] {
        errors := errors + [Forbidden(Peers)];
      }
  }

  method ValidatePeers(p: Parsers, peers: seq<PeerConfig>, ids: set<string>) returns (errors: seq<Error>)
    ensures forall e :: e in errors <==> AnyPeerProblem(p, peers, ids, e)
    ensures forall e :: e in errors ==> !e.DuplicateLinkId?
  {
    errors := [];
    var seenNames: set<string> := {};
    var seenKeys: set<seq<Byte>> := {};
    for k := 0 to |peers|
      invariant forall name :: name in seenNames <==> exists j :: 0 <= j < k && peers[j].name == name
      invariant forall key :: key in seenKeys <==> exists j :: 0 <= j < k && p.decodeKey(peers[j].publicKey) == Some(key)
      invariant forall e :: e in errors <==> exists j :: 0 <= j < k && PeerProblem(p, peers, ids, j, e)
      invariant forall e :: e in errors ==> !e.DuplicateLinkId?
    {
      var peer := peers[k];
      var mine: seq<Error> := [];
      if peer.name in seenNames {
        mine := mine + [DuplicatePeerName(peer.name)];
      }
      seenNames := seenNames + {peer.name};
      match p.decodeKey(peer.publicKey) {
        case Some(key) =>
          if key in seenKeys {
            mine := mine + [DuplicatePeerKey(peer.name)];
          }
          seenKeys := seenKeys + {key};
        case None => mine := mine + [BadPeerKey(peer.name)];
      }
      var unknown := UnknownLinks(peer, ids);
      mine := mine + unknown;
      assert forall e :: e in mine <==> PeerProblem(p, peers, ids, k, e);
      errors := errors + mine;
    }
  }

  method UnknownLinks(peer: PeerConfig, ids: set<string>) returns (errors: seq<Error>)
    ensures forall e :: e in errors <==> e.UnknownPeerLink? && e.name == peer.name && e.id in peer.links && e.id !in ids
  {
    errors := [];
    for i := 0 to |peer.links|
      invariant forall e :: e in errors <==>
        e.UnknownPeerLink? && e.name == peer.name && e.id in peer.links[..i] && e.id !in ids
    {
      if peer.links[i] !in ids {
        errors := errors + [UnknownPeerLink(peer.name, peer.links[i])];
      }
    }
    assert peer.links[..|peer.links|] == peer.links;
  }

  method ValidateLink(p: Parsers, role: Role, link: LinkConfig) returns (errors: seq<Error>)
    ensures forall e :: e in errors <==> LinkProblem(p, role, link, e)
    ensures forall e :: e in errors ==> !e.DuplicateLinkId?
  {
    errors := [];
    var required, forbidden := RequiredAddress(role, link), ForbiddenAddress(role, link);
    if required.None? {
      errors := errors + [LinkAddressMissing(link.id)];
    }
    if forbidden.Some? {
      errors := errors + [LinkAddressForbidden(link.id)];
    }
    if required.Some? && !p.isSocketAddr(required.value) {
      errors := errors + [LinkAddressInvalid(link.id)];
    }
  }

  method ValidateUdp(cfg: Config) returns (errors: seq<Error>)
    ensures forall e :: e in errors <==> UdpProblem(cfg, e)
    ensures forall e :: e in errors ==> !e.DuplicateLinkId?
  {
    errors := [];
    for i := 0 to |cfg.links|
      invariant forall e :: e in errors <==>
        e.ReverseUdpLink? && exists j :: 0 <= j < i && cfg.links[j].id == e.id
                                         && cfg.links[j].transport == Udp && cfg.links[j].mode == Reverse
    {
      var link := cfg.links[i];
      if link.transport == Udp && link.mode == Reverse {
        errors := errors + [ReverseUdpLink(link.id)];
      }
    }
    var anyUdp := AnyUdpLink(cfg.links);
    match cfg.role
    case Server =>
      errors := errors + if anyUdp then RequirePresent(ListenUdp, cfg.listenUdp) else RequireAbsent(ListenUdp, cfg.listenUdp);
    case Client =>
      errors := errors + if anyUdp then RequirePresent(ServerUdpAddr, cfg.serverUdpAddr) else RequireAbsent(ServerUdpAddr, cfg.serverUdpAddr);
  }

  function DuplicateReports(errors: seq<Error>): (n: nat)
    ensures (forall e :: e in errors ==> !e.DuplicateLinkId?) ==> n == 0
  {
    if errors == [] then 0
    else DuplicateReports(errors[..|errors| - 1]) + if errors[|errors| - 1].DuplicateLinkId? then 1 else 0
  }

  lemma {:induction false} DuplicateReportsAppend(a: seq<Error>, b: seq<Error>)
    ensures DuplicateReports(a + b) == DuplicateReports(a) + DuplicateReports(b)
  {
    if b == [] {
      assert a + b == a;
    } else {
      assert (a + b)[..|a + b| - 1] == a + b[..|b| - 1];
      DuplicateReportsAppend(a, b[..|b| - 1]);
    }
  }

  /** `errors` lists every problem of the links and says "duplicate id" once per repeated link. */
  ghost predicate LinksReported(p: Parsers, role: Role, links: seq<LinkConfig>, errors: seq<Error>)
  {
    && (forall e :: e in errors <==> LinkListProblem(p, role, links, e))
    && DuplicateReports(errors) == |links| - |LinkIds(links)|
  }

  lemma LinksReportedStep(p: Parsers, role: Role, links: seq<LinkConfig>, last: LinkConfig, errors: seq<Error>,
                          repeated: seq<Error>, own: seq<Error>)
    requires LinksReported(p, role, links, errors)
    requires repeated == if last.id in LinkIds(links) then [DuplicateLinkId(last.id)] else []
    requires forall e :: e in own <==> LinkProblem(p, role, last, e)
    requires forall e :: e in own ==> !e.DuplicateLinkId?
    ensures LinksReported(p, role, links + [last], errors + (repeated + own))
    ensures LinkIds(links + [last]) == LinkIds(links) + {last.id}
  {
    LinkIdsSnoc(links, last);
    DuplicateReportsAppend(repeated, own);
    DuplicateReportsAppend(errors, repeated + own);
    assert DuplicateReports(repeated) == |repeated|;
    forall e
      ensures e in errors + (repeated + own) <==> LinkListProblem(p, role, links + [last], e)
    {
      LinkListProblemSnoc(p, role, links, last, e);
      assert e in repeated <==> e == DuplicateLinkId(last.id) && last.id in LinkIds(links);
    }
  }

  lemma LinkListProblemSnoc(p: Parsers, role: Role, links: seq<LinkConfig>, last: LinkConfig, e: Error)
    ensures LinkListProblem(p, role, links + [last], e) <==>
              || LinkListProblem(p, role, links, e)
              || (e == DuplicateLinkId(last.id) && last.id in LinkIds(links))
              || LinkProblem(p, role, last, e)
  {
    AnyLinkProblemSnoc(p, role, links, last, e);
    if e.DuplicateLinkId? {
      RepeatedIdSnoc(links, last, e.id);
    }
  }

  lemma LinkIdsSnoc(links: seq<LinkConfig>, last: LinkConfig)
    ensures LinkIds(links + [last]) == LinkIds(links) + {last.id}
  {
    var longer := links + [last];
    assert longer[|links|] == last;
    forall id | id in LinkIds(links)
      ensures id in LinkIds(longer)
    {
      var i :| 0 <= i < |links| && links[i].id == id;
      assert longer[i] == links[i];
    }
  }

  lemma RepeatedIdSnoc(links: seq<LinkConfig>, last: LinkConfig, id: string)
    ensures RepeatedId(links + [last], id) <==> RepeatedId(links, id) || (id == last.id && id in LinkIds(links))
  {
    var longer := links + [last];
    if i, j :| 0 <= i < j < |links| && links[i].id == id == links[j].id {
      assert longer[i].id == id == longer[j].id;
    }
    if id == last.id && id in LinkIds(links) {
      var i :| 0 <= i < |links| && links[i].id == id;
      assert longer[i].id == id == longer[|links|].id;
    }
  }

  lemma AnyLinkProblemSnoc(p: Parsers, role: Role, links: seq<LinkConfig>, last: LinkConfig, e: Error)
    ensures AnyLinkProblem(p, role, links + [last], e) <==>
              AnyLinkProblem(p, role, links, e) || LinkProblem(p, role, last, e)
  {
    var longer := links + [last];
    if i :| 0 <= i < |links| && LinkProblem(p, role, links[i], e) {
      assert LinkProblem(p, role, longer[i], e);
    }
    assert longer[|links|] == last;
  }

  method ValidateLinks(p: Parsers, role: Role, links: seq<LinkConfig>) returns (errors: seq<Error>)
    ensures forall e :: e in errors <==> LinkListProblem(p, role, links, e)
    ensures DuplicateReports(errors) == |links| - |LinkIds(links)|
  {
    errors := [];
    var seenIds: set<string> := {};
    for k := 0 to |links|
      invariant seenIds == LinkIds(links[..k])
      invariant LinksReported(p, role, links[..k], errors)
    {
      var link := links[k];
      var repeated: seq<Error> := [];
      if link.id in seenIds {
        repeated := [DuplicateLinkId(link.id)];
      }
      var own := ValidateLink(p, role, link);
      assert links[..k + 1] == links[..k] + [link];
      LinksReportedStep(p, role, links[..k], link, errors, repeated, own);
      errors := errors + (repeated + own);
      seenIds := seenIds + {link.id};
    }
    assert links[..|links|] == links;
  }

  /** All problems found, not just the first: a problem is reported exactly when the configuration has it. */
  method Validate(p: Parsers, cfg: Config) returns (errors: seq<Error>)
    ensures forall e :: e in errors <==> Problem(p, cfg, e)
    ensures errors == [] <==> WellFormed(p, cfg)
    ensures DuplicateReports(errors) == |cfg.links| - |LinkIds(cfg.links)|
  {
    var fields := ValidateFields(p, cfg);
    var peers: seq<Error> := [];
    if cfg.role == Server {
      peers := ValidatePeers(p, cfg.peers, LinkIds(cfg.links));
    }
    var links := ValidateLinks(p, cfg.role, cfg.links);
    var udp := ValidateUdp(cfg);
    errors := fields + peers + links + udp;
    DuplicateReportsAppend(fields, peers);
    DuplicateReportsAppend(fields + peers, links);
    DuplicateReportsAppend(fields + peers + links, udp);
    NoProblemIffWellFormed(p, cfg);
    assert errors == [] <==> forall e :: e !in errors by {
      if errors != [] {
        assert errors[0] in errors;
      }
    }
  }
}

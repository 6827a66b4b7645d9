/**
 * The reverse-stream pairing protocol as a whole (crates/ghostport-core/src/server.rs).
 *
 * One step is one section the source runs without giving up a lock or an atomic: listeners accept,
 * park and announce external connections, the single control session forwards the announcements,
 * expiry timers fire, and data connections claim what is parked. Any interleaving is a run.
 */
module Pairing {
  import opened Common
  import opened Configuration
  import opened Authorization
  import Pool = StreamPool
  import Line = SignalLine

  /** A relay the server started, with the handshake message its tunnel was opened by (history). */
  datatype Relay =
    | ForwardRelay(linkId: string, handshake: seq<Byte>, target: string)
    | ReverseRelay(linkId: string, handshake: seq<Byte>, streamId: nat, conn: Pool.Conn)

  /** What never changes while the server runs. */
  datatype Setup = Setup(cfg: Config, peers: seq<Peer>, noise: Noise)

  datatype State = State(pool: Pool.Pool, line: Line.Line, relays: seq<Relay>)

  datatype Step =
    | Accept(link: string, conn: Pool.Conn)
    | Park(link: string)
    | Announce(link: string)
    | FailSend(link: string)
    | Withdraw(link: string)
    | ArmExpiry(link: string)
    | Expire(id: nat)
    | Connect
    | Signal(sent: bool)
    | Disconnect
    | CloseChannel
    | Receive(attempt: nat)
    | DataConnection(handshake: seq<Byte>, hello: Hello, dialed: bool)

  /** The server has just started: one idle listener per reverse link, nothing else. */
  function Init(links: set<string>): State
  {
    State(Pool.Empty(links), Line.EMPTY, [])
  }

  predicate Enabled(s: State, step: Step)
  {
    match step
    case Accept(l, conn) => Pool.CanAccept(s.pool, l, conn)
    case Park(l) => Pool.PhaseOf(s.pool, l).Accepted?
    case Announce(l) => Pool.PhaseOf(s.pool, l).Sending? && Line.HasRoom(s.line)
    case FailSend(l) => Pool.PhaseOf(s.pool, l).Sending? && s.line.closed
    case Withdraw(l) => Pool.PhaseOf(s.pool, l).Refused?
    case ArmExpiry(l) => Pool.PhaseOf(s.pool, l).Announced?
    case Expire(id) => id in s.pool.timers
    case Connect => s.line.session.None? && !s.line.closed
    case Signal(_) => s.line.session.Some? && s.line.channel != []
    case Disconnect => s.line.session.Some?
    case CloseChannel => s.line.session.None?
    case Receive(k) => k < |s.line.attempts| && s.line.attempts[k].sent
    case DataConnection(_, _, _) => true
  }

  /** The peer whose key opens the handshake may have this link dialed for it. */
  ghost predicate MayForward(c: Setup, handshake: seq<Byte>, hello: Hello, link: LinkConfig)
  {
    var m := FirstMatch(c.noise, handshake, c.peers);
    m.Some? && hello.streamId.None? && link.target.Some? && MayOpen(c.cfg, c.peers[m.value], hello, link, Forward)
  }

  /** The peer whose key opens the handshake may have a connection accepted for a reverse link. */
  ghost predicate MayReverse(c: Setup, handshake: seq<Byte>, hello: Hello, link: LinkConfig)
  {
    var m := FirstMatch(c.noise, handshake, c.peers);
    m.Some? && hello.streamId.Some? && MayOpen(c.cfg, c.peers[m.value], hello, link, Reverse)
  }

  /** What the server decides about a data connection. */
  function Decided(c: Setup, handshake: seq<Byte>, hello: Hello): Decision
  {
    var m := FirstMatch(c.noise, handshake, c.peers);
    if m.None? then Refuse(NotAllowed) else Authorize(c.cfg, c.peers[m.value], hello)
  }

  lemma DecisionMeans(c: Setup, handshake: seq<Byte>, hello: Hello)
    ensures var d := Decided(c, handshake, hello);
      && (d.Dial? <==> exists link :: MayForward(c, handshake, hello, link))
      && (d.Dial? ==> MayForward(c, handshake, hello, d.link) && d.link.target == Some(d.target))
      && (d.Claim? <==> exists link :: MayReverse(c, handshake, hello, link))
      && (d.Claim? ==> MayReverse(c, handshake, hello, d.link) && hello.streamId == Some(d.streamId))
  {
    var m, d := FirstMatch(c.noise, handshake, c.peers), Decided(c, handshake, hello);
    if m.Some? {
      OpensIff(c.cfg, c.peers[m.value], hello);
      assert d.Dial? ==> MayForward(c, handshake, hello, d.link);
      assert d.Claim? ==> MayReverse(c, handshake, hello, d.link);
      forall link | MayForward(c, handshake, hello, link)
        ensures MayOpen(c.cfg, c.peers[m.value], hello, link, Forward) && link.target.Some?
      {
      }
    }
  }

  /** A data connection whose handshake matched `peer` sends its hello. */
  function HelloStep(c: Setup, s: State, peer: Peer, handshake: seq<Byte>, hello: Hello, dialed: bool): State
  {
    match Authorize(c.cfg, peer, hello)
    case Dial(link, target) =>
      if dialed then s.(relays := s.relays + [ForwardRelay(link.id, handshake, target)]) else s
    case Claim(link, id) =>
      if id in s.pool.pending
      then s.(pool := Pool.Take(s.pool, id, Pool.Relayed),
              relays := s.relays + [ReverseRelay(link.id, handshake, id, s.pool.pending[id])])
      else s
    case _ => s
  }

  function Apply(c: Setup, s: State, step: Step): State
    requires Enabled(s, step)
  {
    match step
    case Accept(l, conn) => s.(pool := Pool.Accept(s.pool, l, conn))
    case Park(l) => s.(pool := Pool.Park(s.pool, l))
    case Announce(l) =>
      s.(pool := Pool.Announce(s.pool, l), line := Line.Enqueue(s.line, Line.OpenStream(l, s.pool.listeners[l].id)))
    case FailSend(l) => s.(pool := Pool.Refuse(s.pool, l))
    case Withdraw(l) => s.(pool := Pool.Withdraw(s.pool, l))
    case ArmExpiry(l) => s.(pool := Pool.Arm(s.pool, l))
    case Expire(id) => s.(pool := Pool.Expire(s.pool, id))
    case Connect => s.(line := Line.Connect(s.line))
    case Signal(sent) => s.(line := Line.SignalNext(s.line, sent))
    case Disconnect => s.(line := Line.Disconnect(s.line))
    case CloseChannel => s.(line := Line.Close(s.line))
    case Receive(k) => s.(line := Line.Receive(s.line, k))
    case DataConnection(handshake, hello, dialed) =>
      var m := FirstMatch(c.noise, handshake, c.peers);
      if m.None? then s else HelloStep(c, s, c.peers[m.value], handshake, hello, dialed)
  }

  // ----- Invariants tying the pool, the line and the relays together -----

  /** Announcements so far are older than what their link's listener is working on. */
  predicate Older(p: Pool.Pool, m: Line.OpenStream)
  {
    match Pool.PhaseOf(p, m.linkId)
    case Idle => true
    case Announced(id) => m.streamId <= id
    case phase => m.streamId < phase.id
  }

  /** Announcements name the link their id was issued for, in increasing id order per link. */
  ghost predicate AnnouncementsOrdered(p: Pool.Pool, enqueued: seq<Line.OpenStream>)
  {
    && (forall m :: m in enqueued ==> m.streamId in p.issued && p.issued[m.streamId].linkId == m.linkId)
    && (forall m :: m in enqueued ==> Older(p, m))
    && (forall i, j :: 0 <= i < j < |enqueued| && enqueued[i].linkId == enqueued[j].linkId ==>
          enqueued[i].streamId < enqueued[j].streamId)
  }

  /** The relay is over a configured link of the right kind, allowed to the peer whose key opened the tunnel. */
  ghost predicate RelayAllowed(c: Setup, r: Relay)
  {
    var m := FirstMatch(c.noise, r.handshake, c.peers);
    && m.Some?
    && exists link ::
         && Entitled(c.cfg, c.peers[m.value], Hello(r.linkId, None), link, Tcp, if r.ForwardRelay? then Forward else Reverse)
         && (r.ForwardRelay? ==> link.target == Some(r.target))
  }

  ghost predicate AllAllowed(c: Setup, relays: seq<Relay>)
  {
    forall r :: r in relays ==> RelayAllowed(c, r)
  }

  ghost predicate RelayedIn(relays: seq<Relay>, id: nat)
  {
    exists r :: r in relays && r.ReverseRelay? && r.streamId == id
  }

  /** The reverse relays are exactly the relayed streams, one relay each, with the stream's own connection. */
  ghost predicate RelaysExact(p: Pool.Pool, relays: seq<Relay>)
  {
    && (forall r :: r in relays && r.ReverseRelay? ==>
          r.streamId in p.issued && p.issued[r.streamId].fate == Pool.Relayed && r.conn == p.issued[r.streamId].conn)
    && (forall j, k :: 0 <= j < k < |relays| && relays[j].ReverseRelay? && relays[k].ReverseRelay? ==>
          relays[j].streamId != relays[k].streamId)
    && (forall id :: id in p.issued && p.issued[id].fate == Pool.Relayed ==> RelayedIn(relays, id))
  }

  ghost predicate Inv(c: Setup, s: State)
  {
    && Pool.Sound(s.pool)
    && Pool.ConnsDistinct(s.pool)
    && Line.Sound(s.line)
    && AnnouncementsOrdered(s.pool, s.line.enqueued)
    && RelaysExact(s.pool, s.relays)
    && AllAllowed(c, s.relays)
  }

  // ----- Every step keeps the invariants -----

  lemma PoolKept(c: Setup, s: State, step: Step)
    requires Pool.Sound(s.pool) && Pool.ConnsDistinct(s.pool) && Enabled(s, step)
    ensures Pool.Sound(Apply(c, s, step).pool)
    ensures Pool.ConnsDistinct(Apply(c, s, step).pool)
    ensures Pool.Extends(s.pool, Apply(c, s, step).pool)
  {
    match step
    case Accept(l, conn) =>
      Pool.AcceptKeepsSound(s.pool, l, conn);
      Pool.AcceptExtends(s.pool, l, conn);
    case Park(l) =>
      Pool.ParkKeepsSound(s.pool, l);
      ParkExtends(s.pool, l);
    case Announce(l) => Pool.AnnounceKeepsSound(s.pool, l);
    case FailSend(l) => Pool.RefuseKeepsSound(s.pool, l);
    case Withdraw(l) =>
      Pool.WithdrawKeepsSound(s.pool, l);
      TakeExtends(s.pool, Pool.Withdraw(s.pool, l), s.pool.listeners[l].id, Pool.Dropped);
    case ArmExpiry(l) => Pool.ArmKeepsSound(s.pool, l);
    case Expire(id) =>
      Pool.ExpireKeepsSound(s.pool, id);
      TakeExtends(s.pool, Pool.Expire(s.pool, id), id, Pool.Expired);
    case DataConnection(_, _, _) => ConnectionKeepsPool(c, s, step);
    case _ =>
  }

  lemma ConnectionKeepsPool(c: Setup, s: State, step: Step)
    requires Pool.Sound(s.pool) && Pool.ConnsDistinct(s.pool) && step.DataConnection?
    ensures Pool.Sound(Apply(c, s, step).pool)
    ensures Pool.ConnsDistinct(Apply(c, s, step).pool)
    ensures Pool.Extends(s.pool, Apply(c, s, step).pool)
  {
    var d := Decided(c, step.handshake, step.hello);
    if d.Claim? {
      Pool.TakeKeepsSound(s.pool, d.streamId, Pool.Relayed);
      TakeExtends(s.pool, Pool.Take(s.pool, d.streamId, Pool.Relayed), d.streamId, Pool.Relayed);
    }
  }

  lemma ParkExtends(p: Pool.Pool, l: string)
    requires Pool.Sound(p) && Pool.ConnsDistinct(p) && Pool.PhaseOf(p, l).Accepted?
    ensures Pool.ConnsDistinct(Pool.Park(p, l)) && Pool.Extends(p, Pool.Park(p, l))
  {
    assert Pool.WorksOn(p, l, p.listeners[l].id);
    Pool.SettleExtends(p, Pool.Park(p, l), p.listeners[l].id, Pool.Parked);
  }

  lemma TakeExtends(p: Pool.Pool, q: Pool.Pool, id: nat, fate: Pool.Fate)
    requires Pool.Sound(p)
    requires q.issued == if id in p.pending then Pool.Settle(p, id, fate) else p.issued
    ensures Pool.Extends(p, q)
    ensures Pool.ConnsDistinct(p) ==> Pool.ConnsDistinct(q)
  {
    if id in p.pending {
      Pool.SettleExtends(p, q, id, fate);
    }
  }

  lemma LineKept(c: Setup, s: State, step: Step)
    requires Line.Sound(s.line) && Enabled(s, step)
    ensures Line.Sound(Apply(c, s, step).line)
  {
    match step
    case Announce(l) => Line.EnqueueKeepsSound(s.line, Line.OpenStream(l, s.pool.listeners[l].id));
    case Signal(sent) => Line.SignalKeepsSound(s.line, sent);
    case Receive(k) => Line.ReceiveKeepsSound(s.line, k);
    case Connect => Line.SessionKeepsSound(s.line);
    case Disconnect => Line.SessionKeepsSound(s.line);
    case CloseChannel => Line.SessionKeepsSound(s.line);
    case _ =>
  }

  lemma AnnounceInOrder(p: Pool.Pool, enqueued: seq<Line.OpenStream>, l: string)
    requires Pool.Sound(p) && AnnouncementsOrdered(p, enqueued) && Pool.PhaseOf(p, l).Sending?
    ensures AnnouncementsOrdered(Pool.Announce(p, l), enqueued + [Line.OpenStream(l, p.listeners[l].id)])
  {
    var id := p.listeners[l].id;
    var q, longer := Pool.Announce(p, l), enqueued + [Line.OpenStream(l, id)];
    assert Pool.WorksOn(p, l, id);
    forall m | m in longer
      ensures m.streamId in q.issued && q.issued[m.streamId].linkId == m.linkId
      ensures Older(q, m)
    {
      if m in enqueued {
        assert Older(p, m);
      }
    }
    forall i, j | 0 <= i < j < |longer| && longer[i].linkId == longer[j].linkId
      ensures longer[i].streamId < longer[j].streamId
    {
      assert enqueued[i] == longer[i] && enqueued[i] in enqueued;
      if j == |enqueued| {
        assert Older(p, enqueued[i]);
      } else {
        assert enqueued[j] == longer[j];
      }
    }
  }

  /** Any other step leaves an announcement older than its listener's current stream. */
  lemma OlderKept(c: Setup, s: State, step: Step, m: Line.OpenStream)
    requires Enabled(s, step) && !step.Announce?
    requires Older(s.pool, m) && m.streamId < s.pool.nextId
    ensures Older(Apply(c, s, step).pool, m)
  {
  }

  lemma OrderFrame(p: Pool.Pool, q: Pool.Pool, enqueued: seq<Line.OpenStream>)
    requires AnnouncementsOrdered(p, enqueued) && Pool.Extends(p, q)
    requires forall m :: m in enqueued ==> Older(q, m)
    ensures AnnouncementsOrdered(q, enqueued)
  {
  }

  lemma AnnouncementsKept(c: Setup, s: State, step: Step)
    requires Pool.Sound(s.pool) && AnnouncementsOrdered(s.pool, s.line.enqueued) && Enabled(s, step)
    requires Pool.Extends(s.pool, Apply(c, s, step).pool)
    ensures AnnouncementsOrdered(Apply(c, s, step).pool, Apply(c, s, step).line.enqueued)
  {
    if step.Announce? {
      AnnounceInOrder(s.pool, s.line.enqueued, step.link);
    } else {
      forall m | m in s.line.enqueued
        ensures Older(Apply(c, s, step).pool, m)
      {
        OlderKept(c, s, step, m);
      }
      OrderFrame(s.pool, Apply(c, s, step).pool, s.line.enqueued);
    }
  }

  lemma RelaysKept(c: Setup, s: State, step: Step)
    requires Pool.Sound(s.pool) && RelaysExact(s.pool, s.relays) && Enabled(s, step) && !step.DataConnection?
    ensures RelaysExact(Apply(c, s, step).pool, s.relays)
  {
    match step
    case Park(l) => assert Pool.WorksOn(s.pool, l, s.pool.listeners[l].id);
    case _ =>
  }

  lemma HelloKeepsRelays(c: Setup, s: State, m: nat, handshake: seq<Byte>, hello: Hello, dialed: bool)
    requires Pool.Sound(s.pool) && RelaysExact(s.pool, s.relays) && AllAllowed(c, s.relays)
    requires FirstMatch(c.noise, handshake, c.peers) == Some(m)
    ensures RelaysExact(HelloStep(c, s, c.peers[m], handshake, hello, dialed).pool,
                        HelloStep(c, s, c.peers[m], handshake, hello, dialed).relays)
    ensures AllAllowed(c, HelloStep(c, s, c.peers[m], handshake, hello, dialed).relays)
  {
    var t := HelloStep(c, s, c.peers[m], handshake, hello, dialed);
    if t != s {
      var link := Authorize(c.cfg, c.peers[m], hello).link;
      assert Entitled(c.cfg, c.peers[m], Hello(link.id, None), link, Tcp, link.mode);
      var r := t.relays[|s.relays|];
      assert RelayAllowed(c, r);
      assert t.relays == s.relays + [r];
      if r.ReverseRelay? {
        ClaimedRelayExact(s.pool, s.relays, r);
      } else {
        ForwardRelayExact(s.pool, s.relays, r);
      }
    }
  }

  lemma ClaimedRelayExact(p: Pool.Pool, relays: seq<Relay>, r: Relay)
    requires Pool.Sound(p) && RelaysExact(p, relays)
    requires r.ReverseRelay? && r.streamId in p.pending && r.conn == p.pending[r.streamId]
    ensures RelaysExact(Pool.Take(p, r.streamId, Pool.Relayed), relays + [r])
  {
    RelayedInGrows(relays, r);
  }

  lemma ForwardRelayExact(p: Pool.Pool, relays: seq<Relay>, r: Relay)
    requires RelaysExact(p, relays) && r.ForwardRelay?
    ensures RelaysExact(p, relays + [r])
  {
    RelayedInGrows(relays, r);
  }

  lemma RelayedInGrows(relays: seq<Relay>, r: Relay)
    ensures forall id :: RelayedIn(relays, id) ==> RelayedIn(relays + [r], id)
    ensures r.ReverseRelay? ==> RelayedIn(relays + [r], r.streamId)
  {
    forall id | RelayedIn(relays, id)
      ensures RelayedIn(relays + [r], id)
    {
      var earlier :| earlier in relays && earlier.ReverseRelay? && earlier.streamId == id;
      assert earlier in relays + [r];
    }
    assert r in relays + [r];
  }

  lemma StepKeepsInv(c: Setup, s: State, step: Step)
    requires Inv(c, s) && Enabled(s, step)
    ensures Inv(c, Apply(c, s, step))
    ensures Pool.Extends(s.pool, Apply(c, s, step).pool)
  {
    PoolKept(c, s, step);
    LineKept(c, s, step);
    AnnouncementsKept(c, s, step);
    if step.DataConnection? {
      var m := FirstMatch(c.noise, step.handshake, c.peers);
      if m.Some? {
        HelloKeepsRelays(c, s, m.value, step.handshake, step.hello, step.dialed);
      }
    } else {
      RelaysKept(c, s, step);
    }
  }
}

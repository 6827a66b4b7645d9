/**
 * The reverse streams waiting to be paired: the shared id counter and pending map, what each reverse
 * listener's loop is doing, and the armed expiry timers (crates/ghostport-core/src/server.rs).
 * Every function below is one section the source runs under a single lock or atomic operation.
 */
module StreamPool {
  import opened Common

  /** The stream counter is 64 bits wide; no listener is given an id once it is used up. */
  const ID_LIMIT: nat := 0x1_0000_0000_0000_0000

  /** An accepted external connection. */
  type Conn = nat

  /** Where one reverse listener's loop body stands. */
  datatype Phase =
    | Idle
    | Accepted(id: nat, conn: Conn)
    | Sending(id: nat)
    | Refused(id: nat)
    | Announced(id: nat)

  /** What has become of an issued stream id. */
  datatype Fate = Held | Parked | Relayed | Expired | Dropped

  /** History of one issued id: which listener accepted which connection for it, and its fate so far. */
  datatype Stream = Stream(linkId: string, conn: Conn, fate: Fate)

  predicate Final(fate: Fate)
  {
    fate.Relayed? || fate.Expired? || fate.Dropped?
  }

  datatype Pool = Pool(
    nextId: nat,
    listeners: map<string, Phase>,
    pending: map<nat, Conn>,
    timers: set<nat>,
    issued: map<nat, Stream>)

  function Empty(links: set<string>): Pool
  {
    Pool(1, map l | l in links :: Idle, map[], {}, map[])
  }

  /** The phase of the listener of `link`; links without a listener never leave `Idle`. */
  function PhaseOf(p: Pool, link: string): Phase
  {
    if link in p.listeners then p.listeners[link] else Idle
  }

  /** The listener of `l` is waiting for a connection and `conn` is a new one. */
  predicate CanAccept(p: Pool, l: string, conn: Conn)
  {
    && l in p.listeners && p.listeners[l].Idle? && p.nextId < ID_LIMIT
    && forall id :: id in p.issued ==> p.issued[id].conn != conn
  }

  /** An external connection is accepted and given the next id. */
  function Accept(p: Pool, l: string, conn: Conn): Pool
  {
    p.(listeners := p.listeners[l := Accepted(p.nextId, conn)],
       nextId := p.nextId + 1,
       issued := p.issued[p.nextId := Stream(l, conn, Held)])
  }

  /** History only: stream `id` has met `fate`. */
  function Settle(p: Pool, id: nat, fate: Fate): map<nat, Stream>
  {
    if id in p.issued then p.issued[id := p.issued[id].(fate := fate)] else p.issued
  }

  /** The connection goes into the shared pending map. */
  function Park(p: Pool, l: string): Pool
    requires PhaseOf(p, l).Accepted?
  {
    var Accepted(id, conn) := p.listeners[l];
    p.(listeners := p.listeners[l := Sending(id)], pending := p.pending[id := conn], issued := Settle(p, id, Parked))
  }

  /** The channel took the announcement. */
  function Announce(p: Pool, l: string): Pool
    requires PhaseOf(p, l).Sending?
  {
    p.(listeners := p.listeners[l := Announced(p.listeners[l].id)])
  }

  /** The channel is gone. */
  function Refuse(p: Pool, l: string): Pool
    requires PhaseOf(p, l).Sending?
  {
    p.(listeners := p.listeners[l := Refused(p.listeners[l].id)])
  }

  /** `pending.remove(&id)`: settles the stream if it was still parked, otherwise changes nothing. */
  function Take(p: Pool, id: nat, fate: Fate): Pool
  {
    if id in p.pending then p.(pending := p.pending - {id}, issued := Settle(p, id, fate)) else p
  }

  /** The listener takes back a stream it could not announce. */
  function Withdraw(p: Pool, l: string): Pool
    requires PhaseOf(p, l).Refused?
  {
    Take(p.(listeners := p.listeners[l := Idle]), p.listeners[l].id, Dropped)
  }

  /** The timer of an announced stream is started. */
  function Arm(p: Pool, l: string): Pool
    requires PhaseOf(p, l).Announced?
  {
    p.(listeners := p.listeners[l := Idle], timers := p.timers + {p.listeners[l].id})
  }

  /** A timer fires. */
  function Expire(p: Pool, id: nat): Pool
  {
    Take(p.(timers := p.timers - {id}), id, Expired)
  }

  // ----- What every section keeps -----

  ghost predicate IdsIssued(p: Pool)
  {
    && 1 <= p.nextId <= ID_LIMIT
    && (forall id :: id in p.issued <==> 1 <= id < p.nextId)
  }

  /** The pending map holds exactly the parked streams, each with the connection it was issued for. */
  ghost predicate PendingExact(p: Pool)
  {
    && (forall id :: id in p.pending ==> id in p.issued && p.issued[id].fate == Parked && p.pending[id] == p.issued[id].conn)
    && (forall id :: id in p.issued && p.issued[id].fate == Parked ==> id in p.pending)
  }

  /** The listener of `link` is handling stream `id`. */
  predicate WorksOn(p: Pool, link: string, id: nat)
  {
    !PhaseOf(p, link).Idle? && PhaseOf(p, link).id == id
  }

  /** The stream is still in the hands of the listener it was issued to. */
  predicate InHand(p: Pool, id: nat)
  {
    id in p.issued && WorksOn(p, p.issued[id].linkId, id)
  }

  /** Listeners work on ids issued for their own link; exactly the held ids are awaiting insertion. */
  ghost predicate PhasesExact(p: Pool)
  {
    && (forall l, id {:trigger WorksOn(p, l, id)} :: WorksOn(p, l, id) ==>
          && id in p.issued && p.issued[id].linkId == l
          && (p.issued[id].fate == Held <==> PhaseOf(p, l).Accepted?)
          && (PhaseOf(p, l).Accepted? ==> PhaseOf(p, l).conn == p.issued[id].conn))
    && (forall id :: id in p.issued && p.issued[id].fate == Held ==> WorksOn(p, p.issued[id].linkId, id))
  }

  /** Every parked stream has an armed timer or is still in its listener's hands. */
  ghost predicate NoLeak(p: Pool)
  {
    && (forall id :: id in p.timers ==> id in p.issued && !WorksOn(p, p.issued[id].linkId, id))
    && (forall id :: id in p.pending ==> id in p.timers || InHand(p, id))
  }

  ghost predicate Sound(p: Pool)
  {
    IdsIssued(p) && PendingExact(p) && PhasesExact(p) && NoLeak(p)
  }

  /** `q` agrees with `p` on every listener but that of `l`. */
  ghost predicate OthersSame(p: Pool, q: Pool, l: string)
  {
    forall k, id {:trigger WorksOn(q, k, id)} :: k != l ==>
      (WorksOn(q, k, id) <==> WorksOn(p, k, id)) && PhaseOf(q, k) == PhaseOf(p, k)
  }

  lemma OthersSameAfter(p: Pool, q: Pool, l: string, phase: Phase)
    requires q.listeners == p.listeners[l := phase]
    ensures OthersSame(p, q, l)
  {
    forall k | k != l
      ensures PhaseOf(q, k) == PhaseOf(p, k)
    {
    }
  }

  lemma AcceptKeepsSound(p: Pool, l: string, conn: Conn)
    requires Sound(p) && CanAccept(p, l, conn)
    ensures Sound(Accept(p, l, conn))
  {
    OthersSameAfter(p, Accept(p, l, conn), l, Accept(p, l, conn).listeners[l]);
  }

  lemma ParkKeepsSound(p: Pool, l: string)
    requires Sound(p) && PhaseOf(p, l).Accepted?
    ensures Sound(Park(p, l))
  {
    OthersSameAfter(p, Park(p, l), l, Park(p, l).listeners[l]);
    assert WorksOn(p, l, p.listeners[l].id);
  }

  lemma AnnounceKeepsSound(p: Pool, l: string)
    requires Sound(p) && PhaseOf(p, l).Sending?
    ensures Sound(Announce(p, l))
  {
    assert WorksOn(p, l, p.listeners[l].id);
    OthersSameAfter(p, Announce(p, l), l, Announce(p, l).listeners[l]);
  }

  lemma RefuseKeepsSound(p: Pool, l: string)
    requires Sound(p) && PhaseOf(p, l).Sending?
    ensures Sound(Refuse(p, l))
  {
    assert WorksOn(p, l, p.listeners[l].id);
    OthersSameAfter(p, Refuse(p, l), l, Refuse(p, l).listeners[l]);
  }

  lemma TakeKeepsSound(p: Pool, id: nat, fate: Fate)
    requires Sound(p) && Final(fate)
    ensures Sound(Take(p, id, fate))
  {
    var q := Take(p, id, fate);
    assert forall k, i {:trigger WorksOn(q, k, i)} :: WorksOn(q, k, i) <==> WorksOn(p, k, i);
  }

  lemma WithdrawKeepsSound(p: Pool, l: string)
    requires Sound(p) && PhaseOf(p, l).Refused?
    ensures Sound(Withdraw(p, l))
  {
    OthersSameAfter(p, Withdraw(p, l), l, Withdraw(p, l).listeners[l]);
    assert WorksOn(p, l, p.listeners[l].id);
  }

  lemma ArmKeepsSound(p: Pool, l: string)
    requires Sound(p) && PhaseOf(p, l).Announced?
    ensures Sound(Arm(p, l))
  {
    OthersSameAfter(p, Arm(p, l), l, Arm(p, l).listeners[l]);
    assert WorksOn(p, l, p.listeners[l].id);
  }

  lemma ExpireKeepsSound(p: Pool, id: nat)
    requires Sound(p)
    ensures Sound(Expire(p, id))
  {
    var q := Expire(p, id);
    assert forall k, i {:trigger WorksOn(q, k, i)} :: WorksOn(q, k, i) <==> WorksOn(p, k, i);
  }

  // ----- One connection, one stream -----

  ghost predicate ConnsDistinct(p: Pool)
  {
    forall a, b :: a in p.issued && b in p.issued && p.issued[a].conn == p.issued[b].conn ==> a == b
  }

  /** `q` issued at least the streams of `p`, for the same connections. */
  ghost predicate Extends(p: Pool, q: Pool)
  {
    forall id :: id in p.issued ==>
      && id in q.issued && q.issued[id].linkId == p.issued[id].linkId && q.issued[id].conn == p.issued[id].conn
      && (Final(p.issued[id].fate) ==> q.issued[id].fate == p.issued[id].fate)
  }

  lemma AcceptExtends(p: Pool, l: string, conn: Conn)
    requires Sound(p) && ConnsDistinct(p) && CanAccept(p, l, conn)
    ensures ConnsDistinct(Accept(p, l, conn)) && Extends(p, Accept(p, l, conn))
  {
  }

  /** Settling a stream that has no final fate yet changes no connection and no final fate. */
  lemma SettleExtends(p: Pool, q: Pool, id: nat, fate: Fate)
    requires q.issued == Settle(p, id, fate)
    requires id in p.issued ==> !Final(p.issued[id].fate)
    ensures Extends(p, q)
    ensures ConnsDistinct(p) ==> ConnsDistinct(q)
  {
  }

  // ----- Draining -----

  function PhaseWeight(phase: Phase): nat
  {
    match phase
    case Idle => 0
    case Accepted(_, _) => 6
    case Sending(_) => 4
    case Refused(_) => 3
    case Announced(_) => 3
  }

  /** Work left in the listeners' hands, summed over the links in `order`. */
  function Load(listeners: map<string, Phase>, order: seq<string>): nat
  {
    if order == [] then 0
    else (if order[0] in listeners then PhaseWeight(listeners[order[0]]) else 0) + Load(listeners, order[1..])
  }

  lemma {:induction false} LoadUpdate(listeners: map<string, Phase>, order: seq<string>, l: string, phase: Phase)
    requires Distinct(order) && l in listeners
    ensures l !in order ==> Load(listeners[l := phase], order) == Load(listeners, order)
    ensures l in order ==>
              Load(listeners[l := phase], order) + PhaseWeight(listeners[l]) == Load(listeners, order) + PhaseWeight(phase)
  {
    if order != [] {
      LoadUpdate(listeners, order[1..], l, phase);
      assert l in order ==> l == order[0] || l in order[1..];
      assert l == order[0] ==> l !in order[1..];
    }
  }

  /** An upper bound on the sections that can still run before another connection is accepted. */
  function Potential(p: Pool, order: seq<string>): nat
  {
    Load(p.listeners, order) + |p.timers| + |p.pending|
  }

  /** `order` lists the links that have a listener. */
  ghost predicate Lists(order: seq<string>, p: Pool)
  {
    Distinct(order) && Elements(order) == p.listeners.Keys
  }

  lemma ListenerSectionsDrain(p: Pool, order: seq<string>, l: string)
    requires Sound(p) && Lists(order, p)
    ensures PhaseOf(p, l).Accepted? ==> Potential(Park(p, l), order) < Potential(p, order)
    ensures PhaseOf(p, l).Sending? ==>
              Potential(Announce(p, l), order) < Potential(p, order) && Potential(Refuse(p, l), order) < Potential(p, order)
    ensures PhaseOf(p, l).Refused? ==> Potential(Withdraw(p, l), order) < Potential(p, order)
    ensures PhaseOf(p, l).Announced? ==> Potential(Arm(p, l), order) < Potential(p, order)
  {
    if l in p.listeners && !p.listeners[l].Idle? {
      var id := p.listeners[l].id;
      assert l in Elements(order) && WorksOn(p, l, id);
      match p.listeners[l]
      case Accepted(_, conn) =>
        LoadUpdate(p.listeners, order, l, Sending(id));
        assert id !in p.pending;
        assert |p.pending[id := conn]| == |p.pending| + 1;
      case Sending(_) =>
        LoadUpdate(p.listeners, order, l, Announced(id));
        LoadUpdate(p.listeners, order, l, Refused(id));
      case Refused(_) =>
        LoadUpdate(p.listeners, order, l, Idle);
        TakeShrinks(p.(listeners := p.listeners[l := Idle]), id, Dropped);
      case Announced(_) =>
        LoadUpdate(p.listeners, order, l, Idle);
        assert |p.timers + {id}| <= |p.timers| + 1;
    }
  }

  /** The listener of `l` has run its next section. */
  ghost predicate Section(p: Pool, q: Pool, l: string)
  {
    match PhaseOf(p, l)
    case Idle => false
    case Accepted(_, _) => q == Park(p, l)
    case Sending(_) => q == Announce(p, l) || q == Refuse(p, l)
    case Refused(_) => q == Withdraw(p, l)
    case Announced(_) => q == Arm(p, l)
  }

  lemma SectionKeepsListeners(p: Pool, q: Pool, l: string)
    requires Section(p, q, l)
    ensures q.listeners.Keys == p.listeners.Keys
  {
  }

  lemma SectionDrains(p: Pool, q: Pool, order: seq<string>, l: string)
    requires Sound(p) && Lists(order, p) && Section(p, q, l)
    ensures q.listeners.Keys == p.listeners.Keys && Potential(q, order) < Potential(p, order)
  {
    SectionKeepsListeners(p, q, l);
    var before := Potential(p, order);
    assert Potential(q, order) < before by {
      ListenerSectionsDrain(p, order, l);
    }
  }

  lemma TakeShrinks(p: Pool, id: nat, fate: Fate)
    ensures |Take(p, id, fate).pending| <= |p.pending|
    ensures id in p.pending ==> |Take(p, id, fate).pending| < |p.pending|
  {
    if id in p.pending {
      assert p.pending == (p.pending - {id})[id := p.pending[id]];
    }
  }

  lemma ExpiryDrains(p: Pool, order: seq<string>, id: nat)
    requires id in p.timers
    ensures Potential(Expire(p, id), order) < Potential(p, order)
  {
    TakeShrinks(p.(timers := p.timers - {id}), id, Expired);
    assert |p.timers - {id}| == |p.timers| - 1;
  }

  /** Listeners stuck because the channel has no room. */
  function Blocked(p: Pool): set<string>
  {
    set l | l in p.listeners && p.listeners[l].Sending?
  }

  /** No timer is armed and every listener is either idle or blocked on the channel. */
  predicate Drained(p: Pool)
  {
    p.timers == {} && forall l :: l in p.listeners ==> p.listeners[l].Idle? || p.listeners[l].Sending?
  }

  /** Once drained, only the streams of blocked listeners are still parked: at most one per listener. */
  lemma DrainedPendingIsBlocked(p: Pool)
    requires Sound(p) && Drained(p)
    ensures forall id :: id in p.pending ==> exists l :: l in Blocked(p) && p.listeners[l].id == id
    ensures |p.pending| <= |Blocked(p)|
  {
    forall id | id in p.pending
      ensures exists l :: l in Blocked(p) && p.listeners[l].id == id
    {
      assert WorksOn(p, p.issued[id].linkId, id);
    }
    OneListenerEach(p, p.pending.Keys, Blocked(p));
    assert |p.pending| == |p.pending.Keys|;
  }

  lemma {:induction false} OneListenerEach(p: Pool, ids: set<nat>, links: set<string>)
    requires forall id :: id in ids ==> exists l :: l in links && l in p.listeners && !p.listeners[l].Idle? && p.listeners[l].id == id
    ensures |ids| <= |links|
  {
    if ids != {} {
      var id :| id in ids;
      var l :| l in links && l in p.listeners && !p.listeners[l].Idle? && p.listeners[l].id == id;
      OneListenerEach(p, ids - {id}, links - {l});
    }
  }
}

/**
 * Demultiplexing one UDP socket into per-source sessions (crates/ghostport-udp/src/server.rs) or
 * flows (crates/ghostport-udp/src/client.rs).
 *
 * One task reads the socket; looking an address up, queueing a datagram and inserting a new entry are
 * separate steps of it. Each session is a task of its own that takes from its bounded queue and, once it
 * has ended, removes its address from the shared table in a further step.
 */
module UdpDemux {
  import opened Common
  import opened Configuration
  import opened Authorization

  const QUEUE_CAPACITY: nat := 16

  type Addr = nat

  /** A received datagram; `stamp` is its position among everything the socket received. */
  datatype Datagram = Datagram(stamp: nat, src: Addr, payload: seq<Byte>)

  /**
   * What never changes while the socket is read: a client keeps the first datagram of a flow as payload, a server takes
   * it for a handshake message and lets a session relay only what the matched peer may open.
   */
  datatype Setup =
    | ClientSide
    | ServerSide(cfg: Config, peers: seq<Peer>, noise: Noise)

  /** What a server session relays: the hello that opened it, the link and the target dialed for it. */
  datatype Opened = Opened(hello: Hello, link: LinkConfig, target: string)

  /** `Starting` is the handshake, `Relaying` follows the hello, `Ended` has dropped its queue. */
  datatype Stage = Starting | Relaying | Ended | Removed

  /**
   * `first` is the datagram the session was created for and `taken` what it has taken off its queue;
   * `sent` is what a client flow has tried to send through its tunnel after the hello. A server session knows the
   * `peer` its handshake matched and, past its hello, what it has opened in `relay`.
   */
  datatype Session = Session(
    src: Addr,
    first: Datagram,
    queue: seq<Datagram>,
    taken: seq<Datagram>,
    sent: seq<Datagram>,
    stage: Stage,
    peer: Option<nat>,
    relay: Option<Opened>)

  /** Where the reading task stands between two `recv_from` calls. */
  datatype Reader = Ready | Got(d: Datagram) | Routing(d: Datagram, k: nat) | Unknown(d: Datagram)

  datatype State = State(
    reader: Reader,
    arrivals: seq<Datagram>,
    table: map<Addr, nat>,
    sessions: seq<Session>)

  const INIT := State(Ready, [], map[], [])

  datatype Step =
    | Receive(src: Addr, payload: seq<Byte>)
    | Lookup
    | Route
    | Reject(permitted: bool)
    | Admit
    | Establish(k: nat, hello: Hello)
    | Take(k: nat)
    | End(k: nat)
    | Remove(k: nat)

  predicate Running(s: Session)
  {
    s.stage.Starting? || s.stage.Relaying?
  }

  /** The peer whose key opens a handshake message. */
  function MatchedPeer(c: Setup, d: Datagram): Option<nat>
  {
    if c.ClientSide? then None else FirstMatch(c.noise, d.payload, c.peers)
  }

  /** The server lets the session's peer open what the hello names. A client flow checks nothing. */
  predicate MayRelay(c: Setup, s: Session, hello: Hello)
  {
    c.ServerSide? ==> s.peer.Some? && s.peer.value < |c.peers| && AuthorizeUdp(c.cfg, c.peers[s.peer.value], hello).Dial?
  }

  /** A server drops a new source's datagram for want of a permit or of a matching peer; a client never does. */
  predicate Enabled(c: Setup, s: State, step: Step)
  {
    match step
    case Receive(_, _) => s.reader.Ready?
    case Lookup => s.reader.Got?
    case Route => s.reader.Routing? && s.reader.k < |s.sessions|
    case Reject(permitted) => s.reader.Unknown? && c.ServerSide? && (permitted ==> MatchedPeer(c, s.reader.d).None?)
    case Admit => s.reader.Unknown? && (c.ServerSide? ==> MatchedPeer(c, s.reader.d).Some?)
    case Establish(k, hello) => k < |s.sessions| && s.sessions[k].stage.Starting? && MayRelay(c, s.sessions[k], hello)
    case Take(k) =>
      && k < |s.sessions| && Running(s.sessions[k]) && s.sessions[k].queue != []
      && (c.ClientSide? ==> s.sessions[k].stage.Relaying?)
    case End(k) => k < |s.sessions| && Running(s.sessions[k])
    case Remove(k) => k < |s.sessions| && s.sessions[k].stage.Ended?
  }

  /** `try_send`: a datagram for a full or abandoned queue is dropped. */
  function Offer(s: Session, d: Datagram): Session
  {
    if Running(s) && |s.queue| < QUEUE_CAPACITY then s.(queue := s.queue + [d]) else s
  }

  /** The hello is through: a client flow sends the datagram it was created for next, a server session has its target. */
  function Established(c: Setup, s: Session, hello: Hello): Session
    requires MayRelay(c, s, hello)
  {
    if c.ClientSide? then s.(stage := Relaying, sent := s.sent + [s.first])
    else
      var dial := AuthorizeUdp(c.cfg, c.peers[s.peer.value], hello);
      s.(stage := Relaying, relay := Some(Opened(hello, dial.link, dial.target)))
  }

  /** The task takes the oldest queued datagram; a client flow sends it on at once. */
  function TakenFrom(s: Session, client: bool): Session
    requires s.queue != []
  {
    s.(queue := s.queue[1..],
       taken := s.taken + [s.queue[0]],
       sent := if client then s.sent + [s.queue[0]] else s.sent)
  }

  function Apply(c: Setup, s: State, step: Step): State
    requires Enabled(c, s, step)
  {
    match step
    case Receive(src, payload) =>
      var d := Datagram(|s.arrivals|, src, payload);
      s.(reader := Got(d), arrivals := s.arrivals + [d])
    case Lookup =>
      var d := s.reader.d;
      s.(reader := if d.src in s.table then Routing(d, s.table[d.src]) else Unknown(d))
    case Route =>
      s.(reader := Ready, sessions := s.sessions[s.reader.k := Offer(s.sessions[s.reader.k], s.reader.d)])
    case Reject(_) => s.(reader := Ready)
    case Admit =>
      var d := s.reader.d;
      s.(reader := Ready,
         table := s.table[d.src := |s.sessions|],
         sessions := s.sessions + [Session(d.src, d, [], [], [], Starting, MatchedPeer(c, d), None)])
    case Establish(k, hello) => s.(sessions := s.sessions[k := Established(c, s.sessions[k], hello)])
    case Take(k) => s.(sessions := s.sessions[k := TakenFrom(s.sessions[k], c.ClientSide?)])
    case End(k) => s.(sessions := s.sessions[k := s.sessions[k].(queue := [], stage := Ended)])
    case Remove(k) =>
      s.(table := s.table - {s.sessions[k].src}, sessions := s.sessions[k := s.sessions[k].(stage := Removed)])
  }

  // ----- The table and the live tasks -----

  predicate Live(s: Session)
  {
    !s.stage.Removed?
  }

  /** Session `k` is the table's entry for its own address. */
  predicate Listed(s: State, k: nat)
  {
    k < |s.sessions| && s.sessions[k].src in s.table && s.table[s.sessions[k].src] == k
  }

  /** Table entries and live tasks correspond one to one. */
  ghost predicate TableExact(s: State)
  {
    && (forall k :: 0 <= k < |s.sessions| ==> (Live(s.sessions[k]) <==> Listed(s, k)))
    && (forall a :: a in s.table ==> s.table[a] < |s.sessions| && s.sessions[s.table[a]].src == a)
  }

  /** What the reader remembers between its steps is still true. */
  ghost predicate ReaderExact(s: State)
  {
    match s.reader
    case Ready => true
    case Got(d) => true
    case Routing(d, k) => k < |s.sessions| && s.sessions[k].src == d.src
    case Unknown(d) => d.src !in s.table
  }

  // ----- What flows through a session -----

  /** Everything routed to a session that it has kept: its first datagram, what it took, what is queued. */
  function Trail(s: Session): seq<Datagram>
  {
    [s.first] + s.taken + s.queue
  }

  ghost predicate Increasing(t: seq<Datagram>)
  {
    forall i, j :: 0 <= i < j < |t| ==> t[i].stamp < t[j].stamp
  }

  /** A trail is an in-order, duplicate-free part of what arrived from one source before `limit`. */
  ghost predicate TrailSound(arrivals: seq<Datagram>, limit: nat, src: Addr, t: seq<Datagram>)
  {
    && Increasing(t)
    && (forall i :: 0 <= i < |t| ==>
          t[i].stamp < limit && t[i].stamp < |arrivals| && arrivals[t[i].stamp] == t[i] && t[i].src == src)
  }

  /** Arrivals the reader has already disposed of. */
  function Disposed(s: State): nat
    requires !s.reader.Ready? ==> s.arrivals != []
  {
    if s.reader.Ready? then |s.arrivals| else |s.arrivals| - 1
  }

  ghost predicate ReaderFresh(s: State)
  {
    !s.reader.Ready? ==> s.arrivals != [] && s.reader.d == s.arrivals[|s.arrivals| - 1]
                         && s.reader.d.stamp == |s.arrivals| - 1
  }

  ghost predicate TrailsSound(s: State)
  {
    && ReaderFresh(s)
    && (forall k :: 0 <= k < |s.sessions| ==>
          |s.sessions[k].queue| <= QUEUE_CAPACITY
          && TrailSound(s.arrivals, Disposed(s), s.sessions[k].src, Trail(s.sessions[k])))
  }

  ghost predicate NothingShared(a: seq<Datagram>, b: seq<Datagram>)
  {
    forall i, j :: 0 <= i < |a| && 0 <= j < |b| ==> a[i].stamp != b[j].stamp
  }

  /** No datagram reaches two sessions. */
  ghost predicate TrailsDisjoint(s: State)
  {
    forall j, k :: 0 <= j < k < |s.sessions| ==> NothingShared(Trail(s.sessions[j]), Trail(s.sessions[k]))
  }

  ghost predicate Inv(c: Setup, s: State)
  {
    TableExact(s) && ReaderExact(s) && TrailsSound(s) && TrailsDisjoint(s) && AllSentExact(c, s) && AllEntitled(c, s)
  }

  // ----- Every step keeps the invariant -----

  lemma TableKept(c: Setup, s: State, step: Step)
    requires TableExact(s) && ReaderExact(s) && Enabled(c, s, step)
    ensures TableExact(Apply(c, s, step))
  {
    match step
    case Remove(k) => TableWithout(s, Apply(c, s, step), k);
    case Admit => TableWith(s, Apply(c, s, step), Apply(c, s, step).sessions[|s.sessions|]);
    case _ => TableFrame(s, Apply(c, s, step));
  }

  /** A session's own entry goes with it. */
  lemma TableWithout(s: State, t: State, k: nat)
    requires TableExact(s) && k < |s.sessions| && Live(s.sessions[k])
    requires t.sessions == s.sessions[k := s.sessions[k].(stage := Removed)] && t.table == s.table - {s.sessions[k].src}
    ensures TableExact(t)
  {
    assert Listed(s, k);
    forall j | 0 <= j < |t.sessions|
      ensures Live(t.sessions[j]) <==> Listed(t, j)
    {
      assert Live(s.sessions[j]) <==> Listed(s, j);
    }
  }

  /** A new session is entered under an address that had none. */
  lemma TableWith(s: State, t: State, session: Session)
    requires TableExact(s) && Live(session) && session.src !in s.table
    requires t.sessions == s.sessions + [session] && t.table == s.table[session.src := |s.sessions|]
    ensures TableExact(t)
  {
    forall j | 0 <= j < |t.sessions|
      ensures Live(t.sessions[j]) <==> Listed(t, j)
    {
      assert j < |s.sessions| ==> (Live(s.sessions[j]) <==> Listed(s, j));
    }
  }

  /** Steps that leave the table and the live tasks alone. */
  lemma TableFrame(s: State, t: State)
    requires TableExact(s) && t.table == s.table && |t.sessions| == |s.sessions|
    requires forall k :: 0 <= k < |s.sessions| ==>
               t.sessions[k].src == s.sessions[k].src && (Live(t.sessions[k]) <==> Live(s.sessions[k]))
    ensures TableExact(t)
  {
    forall k | 0 <= k < |t.sessions|
      ensures Live(t.sessions[k]) <==> Listed(t, k)
    {
      assert Live(s.sessions[k]) <==> Listed(s, k);
    }
  }

  lemma ReaderKept(c: Setup, s: State, step: Step)
    requires TableExact(s) && ReaderExact(s) && Enabled(c, s, step)
    ensures ReaderExact(Apply(c, s, step))
  {
  }

  /**
   * How one step changes one session's trail: it gains the reader's datagram exactly if that is routed to the session, its
   * task is running and its queue has room; ending it loses what is still queued; nothing else changes it.
   */
  lemma TrailChanges(c: Setup, s: State, step: Step, k: nat)
    requires Enabled(c, s, step) && k < |s.sessions|
    ensures k < |Apply(c, s, step).sessions| && Apply(c, s, step).sessions[k].src == s.sessions[k].src
    ensures Trail(Apply(c, s, step).sessions[k])
         == if step == End(k) then [s.sessions[k].first] + s.sessions[k].taken
            else Trail(s.sessions[k]) + Gains(s, step, k)
  {
    var a, b := s.sessions[k], Apply(c, s, step).sessions[k];
    if step == Take(k) {
      assert a.queue == [a.queue[0]] + a.queue[1..];
      assert Trail(b) == Trail(a);
    }
    assert Trail(a) + [] == Trail(a);
  }

  /** What a step adds to the datagrams accepted for session `k`. */
  function Gains(s: State, step: Step, k: nat): seq<Datagram>
  {
    if step.Route? && s.reader.Routing? && s.reader.k == k && k < |s.sessions|
       && (s.sessions[k].stage.Starting? || s.sessions[k].stage.Relaying?) && |s.sessions[k].queue| < QUEUE_CAPACITY then
      [s.reader.d]
    else if step.Admit? && s.reader.Unknown? && |s.sessions| == k then [s.reader.d]
    else []
  }

  lemma TrailShape(c: Setup, s: State, step: Step, k: nat)
    requires Enabled(c, s, step) && k < |s.sessions|
    ensures var t, t' := Trail(s.sessions[k]), Trail(Apply(c, s, step).sessions[k]);
      t' <= t || (step.Route? && k == s.reader.k && t' == t + [s.reader.d])
  {
    TrailChanges(c, s, step, k);
    assert [s.sessions[k].first] + s.sessions[k].taken <= Trail(s.sessions[k]);
  }

  lemma TrailsKept(c: Setup, s: State, step: Step)
    requires ReaderExact(s) && TrailsSound(s) && Enabled(c, s, step)
    ensures TrailsSound(Apply(c, s, step))
  {
    var s' := Apply(c, s, step);
    assert step.Receive? ==> s'.arrivals[..|s.arrivals|] == s.arrivals;
    forall k | 0 <= k < |s'.sessions|
      ensures |s'.sessions[k].queue| <= QUEUE_CAPACITY
      ensures TrailSound(s'.arrivals, Disposed(s'), s'.sessions[k].src, Trail(s'.sessions[k]))
    {
      if k < |s.sessions| {
        TrailChanges(c, s, step, k);
        TrailShape(c, s, step, k);
        TrailSoundKept(c, s, step, k);
      } else {
        assert Trail(s'.sessions[k]) == [s.reader.d];
      }
    }
  }

  lemma TrailSoundKept(c: Setup, s: State, step: Step, k: nat)
    requires ReaderExact(s) && ReaderFresh(s) && Enabled(c, s, step) && k < |s.sessions|
    requires TrailSound(s.arrivals, Disposed(s), s.sessions[k].src, Trail(s.sessions[k]))
    requires var t, t' := Trail(s.sessions[k]), Trail(Apply(c, s, step).sessions[k]);
      t' <= t || (step.Route? && k == s.reader.k && t' == t + [s.reader.d])
    ensures ReaderFresh(Apply(c, s, step))
    ensures TrailSound(Apply(c, s, step).arrivals, Disposed(Apply(c, s, step)), s.sessions[k].src, Trail(Apply(c, s, step).sessions[k]))
  {
  }

  /** Two trails stay disjoint when each shrinks, or one of them gains a datagram newer than both. */
  lemma DisjointPair(a: seq<Datagram>, a': seq<Datagram>, b: seq<Datagram>, b': seq<Datagram>, d: Datagram)
    requires NothingShared(a, b)
    requires (a' <= a && (b' <= b || b' == b + [d])) || (a' == a + [d] && b' <= b)
    requires !(a' <= a && b' <= b) ==> forall i :: 0 <= i < |a| ==> a[i].stamp < d.stamp
    requires !(a' <= a && b' <= b) ==> forall i :: 0 <= i < |b| ==> b[i].stamp < d.stamp
    ensures NothingShared(a', b')
  {
  }

  lemma PairKept(c: Setup, s: State, step: Step, j: nat, k: nat)
    requires ReaderExact(s) && TrailsSound(s) && TrailsDisjoint(s) && Enabled(c, s, step) && j < k < |Apply(c, s, step).sessions|
    ensures NothingShared(Trail(Apply(c, s, step).sessions[j]), Trail(Apply(c, s, step).sessions[k]))
  {
    var s' := Apply(c, s, step);
    TrailShape(c, s, step, j);
    assert TrailSound(s.arrivals, Disposed(s), s.sessions[j].src, Trail(s.sessions[j]));
    if k < |s.sessions| {
      TrailShape(c, s, step, k);
      assert TrailSound(s.arrivals, Disposed(s), s.sessions[k].src, Trail(s.sessions[k]));
      assert NothingShared(Trail(s.sessions[j]), Trail(s.sessions[k]));
      var d := if step.Route? then s.reader.d else s.sessions[j].first;
      DisjointPair(Trail(s.sessions[j]), Trail(s'.sessions[j]), Trail(s.sessions[k]), Trail(s'.sessions[k]), d);
    } else {
      assert Trail(s'.sessions[k]) == [s.reader.d];
    }
  }

  lemma DisjointKept(c: Setup, s: State, step: Step)
    requires Inv(c, s) && Enabled(c, s, step)
    ensures TrailsDisjoint(Apply(c, s, step))
  {
    var s' := Apply(c, s, step);
    forall j, k | 0 <= j < k < |s'.sessions|
      ensures NothingShared(Trail(s'.sessions[j]), Trail(s'.sessions[k]))
    {
      PairKept(c, s, step, j, k);
    }
  }

  /**
   * A client flow has sent nothing, or its first datagram followed by exactly what it took; a server session sends
   * nothing here.
   */
  ghost predicate SentExact(client: bool, s: Session)
  {
    if !client then s.sent == []
    else if s.stage.Starting? then s.sent == [] && s.taken == []
    else if s.stage.Relaying? then s.sent == [s.first] + s.taken
    else (s.sent == [] && s.taken == []) || s.sent == [s.first] + s.taken
  }

  ghost predicate AllSentExact(c: Setup, s: State)
  {
    forall k :: 0 <= k < |s.sessions| ==> SentExact(c.ClientSide?, s.sessions[k])
  }

  lemma SentKept(c: Setup, s: State, step: Step)
    requires AllSentExact(c, s) && Enabled(c, s, step)
    ensures AllSentExact(c, Apply(c, s, step))
  {
  }

  /**
   * A server session belongs to the first peer whose key opens its first datagram, and relays only over a configured
   * UDP link in that peer's allowlist, to that link's target.
   */
  ghost predicate SessionEntitled(c: Setup, s: Session)
  {
    c.ServerSide? ==>
      && s.peer == FirstMatch(c.noise, s.first.payload, c.peers) && s.peer.Some?
      && (s.stage.Relaying? ==> s.relay.Some?)
      && (s.relay.Some? ==> RelayEntitled(c.cfg, c.peers[s.peer.value], s.relay.value))
  }

  predicate RelayEntitled(cfg: Config, peer: Peer, r: Opened)
  {
    Entitled(cfg, peer, r.hello, r.link, Udp, Forward) && r.link.target == Some(r.target)
  }

  ghost predicate AllEntitled(c: Setup, s: State)
  {
    forall k :: 0 <= k < |s.sessions| ==> SessionEntitled(c, s.sessions[k])
  }

  lemma EstablishedEntitled(c: Setup, s: Session, hello: Hello)
    requires SessionEntitled(c, s) && MayRelay(c, s, hello)
    ensures SessionEntitled(c, Established(c, s, hello))
  {
  }

  lemma EntitledKept(c: Setup, s: State, step: Step)
    requires AllEntitled(c, s) && Enabled(c, s, step)
    ensures AllEntitled(c, Apply(c, s, step))
  {
    if step.Establish? {
      EstablishedEntitled(c, s.sessions[step.k], step.hello);
    }
  }

  lemma StepKeepsInv(c: Setup, s: State, step: Step)
    requires Inv(c, s) && Enabled(c, s, step)
    ensures Inv(c, Apply(c, s, step))
  {
    TableKept(c, s, step);
    ReaderKept(c, s, step);
    TrailsKept(c, s, step);
    DisjointKept(c, s, step);
    SentKept(c, s, step);
    EntitledKept(c, s, step);
  }

  // ----- Runs -----

  ghost predicate ValidRun(c: Setup, s: State, steps: seq<Step>)
    decreases |steps|
  {
    steps == [] || (Enabled(c, s, steps[0]) && ValidRun(c, Apply(c, s, steps[0]), steps[1..]))
  }

  ghost function After(c: Setup, s: State, steps: seq<Step>): State
    requires ValidRun(c, s, steps)
    decreases |steps|
  {
    if steps == [] then s else After(c, Apply(c, s, steps[0]), steps[1..])
  }

  lemma {:induction false} RunKeepsInv(c: Setup, s: State, steps: seq<Step>)
    requires Inv(c, s) && ValidRun(c, s, steps)
    ensures Inv(c, After(c, s, steps))
    decreases |steps|
  {
    if steps != [] {
      StepKeepsInv(c, s, steps[0]);
      RunKeepsInv(c, Apply(c, s, steps[0]), steps[1..]);
    }
  }

  /** Someone still holds a sender of session `k`'s queue: the table, or the reader while routing to it. */
  predicate HasSender(s: State, k: nat)
  {
    Listed(s, k) || (s.reader.Routing? && s.reader.k == k)
  }

  /**
   * In every reachable state: an insertion never overwrites an entry, a finished task finds its own entry to
   * remove, two live tasks never share an address, and a running task's queue always has a sender, so
   * receiving from it never reports a closed channel.
   */
  lemma TableAndTasksAgree(c: Setup, steps: seq<Step>, j: nat, k: nat)
    requires ValidRun(c, INIT, steps)
    ensures var s := After(c, INIT, steps);
      && (Enabled(c, s, Admit) ==> s.reader.d.src !in s.table)
      && (Enabled(c, s, Remove(k)) ==> Listed(s, k))
      && (k < |s.sessions| && Running(s.sessions[k]) ==> HasSender(s, k))
      && (j < k < |s.sessions| && Live(s.sessions[j]) && Live(s.sessions[k]) ==> s.sessions[j].src != s.sessions[k].src)
  {
    RunKeepsInv(c, INIT, steps);
    TableAgrees(c, After(c, INIT, steps), j, k);
  }

  lemma TableAgrees(c: Setup, s: State, j: nat, k: nat)
    requires TableExact(s) && ReaderExact(s)
    ensures Enabled(c, s, Admit) ==> s.reader.d.src !in s.table
    ensures Enabled(c, s, Remove(k)) ==> Listed(s, k)
    ensures k < |s.sessions| && Running(s.sessions[k]) ==> HasSender(s, k)
    ensures j < k < |s.sessions| && Live(s.sessions[j]) && Live(s.sessions[k]) ==> s.sessions[j].src != s.sessions[k].src
  {
    if k < |s.sessions| {
      assert Live(s.sessions[k]) <==> Listed(s, k);
    }
    if j < |s.sessions| {
      assert Live(s.sessions[j]) <==> Listed(s, j);
    }
  }

  function Handled(s: Session): seq<Datagram>
  {
    [s.first] + s.taken
  }

  /**
   * What a session handles is an in-order, duplicate-free part of its own source's traffic starting with
   * its first datagram, no datagram is handled by two sessions, and no queue exceeds its bound.
   */
  lemma SessionsIsolated(c: Setup, steps: seq<Step>, k: nat)
    requires ValidRun(c, INIT, steps) && k < |After(c, INIT, steps).sessions|
    ensures var s := After(c, INIT, steps);
      && |s.sessions[k].queue| <= QUEUE_CAPACITY
      && TrailSound(s.arrivals, |s.arrivals|, s.sessions[k].src, Handled(s.sessions[k]))
      && forall j :: 0 <= j < k ==> NothingShared(Handled(s.sessions[j]), Handled(s.sessions[k]))
  {
    RunKeepsInv(c, INIT, steps);
    var s := After(c, INIT, steps);
    assert Handled(s.sessions[k]) <= Trail(s.sessions[k]);
    assert TrailSound(s.arrivals, Disposed(s), s.sessions[k].src, Trail(s.sessions[k]));
    forall j | 0 <= j < k
      ensures NothingShared(Handled(s.sessions[j]), Handled(s.sessions[k]))
    {
      assert NothingShared(Trail(s.sessions[j]), Trail(s.sessions[k]));
      assert Handled(s.sessions[j]) <= Trail(s.sessions[j]);
    }
  }

  /** The datagrams accepted for session `k` over a run: the one it is created for and those its queue had room for. */
  ghost function Accepted(c: Setup, s: State, steps: seq<Step>, k: nat): seq<Datagram>
    requires ValidRun(c, s, steps)
    decreases |steps|
  {
    if steps == [] then [] else Gains(s, steps[0], k) + Accepted(c, Apply(c, s, steps[0]), steps[1..], k)
  }

  /** A session that has ended keeps what it had handled, and none that has not keeps less than its trail. */
  ghost predicate Follows(s: Session, accepted: seq<Datagram>)
  {
    if Running(s) then Trail(s) == accepted else s.queue == [] && Handled(s) <= accepted
  }

  ghost predicate AllFollow(s: State, k: nat, accepted: seq<Datagram>)
  {
    if k < |s.sessions| then Follows(s.sessions[k], accepted) else accepted == []
  }

  lemma StepFollows(c: Setup, s: State, step: Step, k: nat, accepted: seq<Datagram>)
    requires Enabled(c, s, step) && AllFollow(s, k, accepted)
    ensures AllFollow(Apply(c, s, step), k, accepted + Gains(s, step, k))
  {
    if k < |s.sessions| {
      TrailChanges(c, s, step, k);
      assert Handled(s.sessions[k]) <= Trail(s.sessions[k]);
    } else if k < |Apply(c, s, step).sessions| {
      assert Trail(Apply(c, s, step).sessions[k]) == [s.reader.d];
    }
    assert accepted + [] == accepted;
  }

  lemma AppendTwice<T>(a: seq<T>, b: seq<T>, c: seq<T>)
    ensures a + b + c == a + (b + c)
  {
  }

  lemma {:induction false} RunFollows(c: Setup, s: State, steps: seq<Step>, k: nat, accepted: seq<Datagram>)
    requires ValidRun(c, s, steps) && AllFollow(s, k, accepted)
    ensures AllFollow(After(c, s, steps), k, accepted + Accepted(c, s, steps, k))
    decreases |steps|
  {
    if steps == [] {
      assert accepted + [] == accepted;
    } else {
      var gains := Gains(s, steps[0], k);
      StepFollows(c, s, steps[0], k, accepted);
      RunFollows(c, Apply(c, s, steps[0]), steps[1..], k, accepted + gains);
      AppendTwice(accepted, gains, Accepted(c, Apply(c, s, steps[0]), steps[1..], k));
    }
  }

  /**
   * Nothing accepted is lost while a session runs: its first datagram, what it has taken and what is queued are exactly
   * what was accepted for it, in order. Once it has ended, what it handled is the first part of that.
   */
  lemma NothingAcceptedIsLost(c: Setup, steps: seq<Step>, k: nat)
    requires ValidRun(c, INIT, steps) && k < |After(c, INIT, steps).sessions|
    ensures var s, accepted := After(c, INIT, steps).sessions[k], Accepted(c, INIT, steps, k);
      && (s.stage.Starting? || s.stage.Relaying? ==> [s.first] + s.taken + s.queue == accepted)
      && (s.stage.Ended? || s.stage.Removed? ==> s.queue == [] && [s.first] + s.taken <= accepted)
  {
    RunFollows(c, INIT, steps, k, []);
    assert [] + Accepted(c, INIT, steps, k) == Accepted(c, INIT, steps, k);
  }

  /** A routed datagram is accepted, as the last so far, unless its session's queue is full or abandoned. */
  lemma RoutedIsAcceptedOrRefused(c: Setup, steps: seq<Step>, d: Datagram, k: nat)
    requires ValidRun(c, INIT, steps + [Route]) && ValidRun(c, INIT, steps) && After(c, INIT, steps).reader == Routing(d, k)
    ensures var s := After(c, INIT, steps);
      && k < |s.sessions|
      && Accepted(c, INIT, steps + [Route], k)
         == Accepted(c, INIT, steps, k)
            + (if (s.sessions[k].stage.Ended? || s.sessions[k].stage.Removed?) || |s.sessions[k].queue| >= QUEUE_CAPACITY then []
               else [d])
  {
    RunKeepsInv(c, INIT, steps);
    AcceptedSnoc(c, INIT, steps, Route, k);
  }

  lemma {:induction false} AcceptedSnoc(c: Setup, s: State, steps: seq<Step>, last: Step, k: nat)
    requires ValidRun(c, s, steps) && ValidRun(c, s, steps + [last])
    ensures Accepted(c, s, steps + [last], k) == Accepted(c, s, steps, k) + Gains(After(c, s, steps), last, k)
    decreases |steps|
  {
    if steps == [] {
      assert ([] + [last])[1..] == [] && ([] + [last])[0] == last;
    } else {
      assert (steps + [last])[1..] == steps[1..] + [last];
      AcceptedSnoc(c, Apply(c, s, steps[0]), steps[1..], last, k);
    }
  }

  /** A client flow past its hello has tried to send the datagram that triggered it first, then its queue in order. */
  lemma FirstDatagramFirst(c: Setup, steps: seq<Step>, k: nat)
    requires c.ClientSide? && ValidRun(c, INIT, steps) && k < |After(c, INIT, steps).sessions|
    ensures var flow := After(c, INIT, steps).sessions[k];
      && (flow.stage.Relaying? ==> flow.sent != [])
      && (flow.sent != [] ==> flow.sent == Handled(flow))
  {
    RunKeepsInv(c, INIT, steps);
    assert SentExact(true, After(c, INIT, steps).sessions[k]);
  }

  /**
   * Every session a server ever lets relay is over a configured UDP forward link, named by its hello and in the
   * allowlist of the peer whose key opened the session's first datagram, and goes to that link's target.
   */
  lemma EveryRelayAllowed(c: Setup, steps: seq<Step>, k: nat)
    requires c.ServerSide? && ValidRun(c, INIT, steps) && k < |After(c, INIT, steps).sessions|
    ensures var session := After(c, INIT, steps).sessions[k];
      && (session.stage.Relaying? ==> session.relay.Some?)
      && (session.relay.Some? ==>
            exists m :: 0 <= m < |c.peers| && FirstMatch(c.noise, session.first.payload, c.peers) == Some(m)
                        && c.noise.Opens(c.peers[m].publicKey, session.first.payload)
                        && RelayEntitled(c.cfg, c.peers[m], session.relay.value))
  {
    RunKeepsInv(c, INIT, steps);
    assert SessionEntitled(c, After(c, INIT, steps).sessions[k]);
  }

  /** With a validated configuration a relaying session is the only outcome of an entitled hello: none can panic. */
  lemma EntitledHelloRelays(p: Parsers, c: Setup, steps: seq<Step>, k: nat, hello: Hello)
    requires c.ServerSide? && WellFormed(p, c.cfg) && c.cfg.role == Server
    requires ValidRun(c, INIT, steps) && k < |After(c, INIT, steps).sessions|
    requires After(c, INIT, steps).sessions[k].stage.Starting?
    ensures var s := After(c, INIT, steps);
      && s.sessions[k].peer.Some? && s.sessions[k].peer.value < |c.peers|
      && AuthorizeUdp(c.cfg, c.peers[s.sessions[k].peer.value], hello) != Panic
      && (Enabled(c, s, Establish(k, hello)) <==>
            exists link :: Entitled(c.cfg, c.peers[s.sessions[k].peer.value], hello, link, Udp, Forward))
  {
    RunKeepsInv(c, INIT, steps);
    var s := After(c, INIT, steps);
    assert SessionEntitled(c, s.sessions[k]);
    DialsIffEntitled(p, c.cfg, c.peers[s.sessions[k].peer.value], hello);
  }

  lemma DialsIffEntitled(p: Parsers, cfg: Config, peer: Peer, hello: Hello)
    requires WellFormed(p, cfg) && cfg.role == Server
    ensures AuthorizeUdp(cfg, peer, hello) != Panic
    ensures AuthorizeUdp(cfg, peer, hello).Dial? <==> exists link :: Entitled(cfg, peer, hello, link, Udp, Forward)
  {
    var d := AuthorizeUdp(cfg, peer, hello);
    AuthorizedIffEntitled(p, cfg, peer, hello, if d.Dial? then d.link else LinkConfig("", Forward, Udp, None, None), 0);
    if link :| Entitled(cfg, peer, hello, link, Udp, Forward) {
      AuthorizedIffEntitled(p, cfg, peer, hello, link, 0);
    }
  }

  lemma {:induction false} RunSnoc(c: Setup, s: State, steps: seq<Step>, last: Step)
    requires ValidRun(c, s, steps) && Enabled(c, After(c, s, steps), last)
    ensures ValidRun(c, s, steps + [last]) && After(c, s, steps + [last]) == Apply(c, After(c, s, steps), last)
    decreases |steps|
  {
    if steps != [] {
      RunSnoc(c, Apply(c, s, steps[0]), steps[1..], last);
      assert (steps + [last])[1..] == steps[1..] + [last];
    } else {
      assert ([] + [last])[1..] == [];
    }
  }
}

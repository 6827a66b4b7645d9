/** What holds of every run of the pairing protocol, whatever the interleaving and whatever clients send. */
module PairingRuns {
  import opened Common
  import opened Configuration
  import opened Authorization
  import Pool = StreamPool
  import Line = SignalLine
  import opened Pairing

  ghost predicate ValidRun(c: Setup, s: State, steps: seq<Step>)
    decreases |steps|
  {
    steps == [] || (Enabled(s, steps[0]) && ValidRun(c, Apply(c, s, steps[0]), steps[1..]))
  }

  /** The state a run ends in. */
  ghost function After(c: Setup, s: State, steps: seq<Step>): State
    requires ValidRun(c, s, steps)
    decreases |steps|
  {
    if steps == [] then s else After(c, Apply(c, s, steps[0]), steps[1..])
  }

  lemma RunCons(c: Setup, s: State, step: Step, rest: seq<Step>)
    requires Enabled(s, step) && ValidRun(c, Apply(c, s, step), rest)
    ensures ValidRun(c, s, [step] + rest) && After(c, s, [step] + rest) == After(c, Apply(c, s, step), rest)
  {
    assert ([step] + rest)[1..] == rest;
  }

  lemma {:induction false} RunSnoc(c: Setup, s: State, steps: seq<Step>, last: Step)
    requires ValidRun(c, s, steps) && Enabled(After(c, s, steps), last)
    ensures ValidRun(c, s, steps + [last]) && After(c, s, steps + [last]) == Apply(c, After(c, s, steps), last)
    decreases |steps|
  {
    if steps == [] {
      assert [] + [last] == [last];
      RunCons(c, s, last, []);
    } else {
      RunSnoc(c, Apply(c, s, steps[0]), steps[1..], last);
      RunCons(c, s, steps[0], steps[1..] + [last]);
      assert steps + [last] == [steps[0]] + (steps[1..] + [last]);
    }
  }

  lemma InitInv(c: Setup, links: set<string>)
    ensures Inv(c, Init(links))
  {
  }

  /** Every run keeps the invariant, and settled streams stay settled however the run goes on. */
  lemma {:induction false} RunKeepsInv(c: Setup, s: State, steps: seq<Step>)
    requires Inv(c, s) && ValidRun(c, s, steps)
    ensures Inv(c, After(c, s, steps))
    ensures Pool.Extends(s.pool, After(c, s, steps).pool)
    decreases |steps|
  {
    if steps != [] {
      StepKeepsInv(c, s, steps[0]);
      RunKeepsInv(c, Apply(c, s, steps[0]), steps[1..]);
    }
  }

  // ----- Every stream is in one place -----

  /** Exactly one of the five is true. */
  predicate ExactlyOne(a: bool, b: bool, c: bool, d: bool, e: bool)
  {
    (if a then 1 else 0) + (if b then 1 else 0) + (if c then 1 else 0) + (if d then 1 else 0) + (if e then 1 else 0) == 1
  }

  /** The stream's listener has accepted it and not yet put it into the pending map. */
  predicate HeldByListener(p: Pool.Pool, id: nat)
    requires id in p.issued
  {
    Pool.PhaseOf(p, p.issued[id].linkId) == Pool.Accepted(id, p.issued[id].conn)
  }

  /** Every issued id is exactly one of: held by its listener, pending, relayed, expired, dropped. */
  lemma EachStreamInOnePlace(c: Setup, links: set<string>, steps: seq<Step>, id: nat)
    requires ValidRun(c, Init(links), steps)
    ensures var s := After(c, Init(links), steps);
      && (id in s.pool.issued <==> 1 <= id < s.pool.nextId)
      && (id in s.pool.issued ==>
            ExactlyOne(HeldByListener(s.pool, id), id in s.pool.pending, RelayedIn(s.relays, id),
                       s.pool.issued[id].fate == Pool.Expired, s.pool.issued[id].fate == Pool.Dropped))
  {
    InitInv(c, links);
    RunKeepsInv(c, Init(links), steps);
    var s := After(c, Init(links), steps);
    if id in s.pool.issued {
      var l := s.pool.issued[id].linkId;
      assert HeldByListener(s.pool, id) ==> Pool.WorksOn(s.pool, l, id);
      assert HeldByListener(s.pool, id) <==> s.pool.issued[id].fate == Pool.Held;
    }
  }

  /** No external connection is relayed twice, nor both relayed and left pending, expired or dropped. */
  lemma NoConnectionUsedTwice(c: Setup, links: set<string>, steps: seq<Step>)
    requires ValidRun(c, Init(links), steps)
    ensures var s := After(c, Init(links), steps);
      && (forall j, k :: 0 <= j < k < |s.relays| && s.relays[j].ReverseRelay? && s.relays[k].ReverseRelay? ==>
            s.relays[j].conn != s.relays[k].conn)
      && (forall r, id :: r in s.relays && r.ReverseRelay? && id in s.pool.issued && s.pool.issued[id].conn == r.conn ==>
            s.pool.issued[id].fate == Pool.Relayed && id !in s.pool.pending)
  {
    InitInv(c, links);
    RunKeepsInv(c, Init(links), steps);
    var s := After(c, Init(links), steps);
    forall j, k | 0 <= j < k < |s.relays| && s.relays[j].ReverseRelay? && s.relays[k].ReverseRelay?
      ensures s.relays[j].conn != s.relays[k].conn
    {
      assert s.relays[j] in s.relays && s.relays[k] in s.relays;
    }
  }

  /** Every relay ever started was over a configured TCP link of its mode, allowed to the peer it authenticated. */
  lemma EveryRelayAllowed(c: Setup, links: set<string>, steps: seq<Step>, r: Relay)
    requires ValidRun(c, Init(links), steps) && r in After(c, Init(links), steps).relays
    ensures RelayAllowed(c, r)
  {
    InitInv(c, links);
    RunKeepsInv(c, Init(links), steps);
  }

  // ----- Every entitled connection is relayed -----

  /**
   * The step starts relay `r`: the handshake's peer may forward and the dial has succeeded, or it may have a connection
   * of the reverse link and the one it names is waiting.
   */
  ghost predicate Starts(c: Setup, s: State, step: Step, r: Relay)
  {
    && step.DataConnection? && r.linkId == step.hello.linkId && r.handshake == step.handshake
    && match r
       case ForwardRelay(_, _, target) =>
         step.dialed && exists link :: MayForward(c, step.handshake, step.hello, link) && link.target == Some(target)
       case ReverseRelay(_, _, id, conn) =>
         && step.hello.streamId == Some(id) && id in s.pool.pending && conn == s.pool.pending[id]
         && exists link :: MayReverse(c, step.handshake, step.hello, link)
  }

  function Due(c: Setup, s: State, step: Step): Option<Relay>
  {
    if !step.DataConnection? then None
    else
      match Decided(c, step.handshake, step.hello)
      case Dial(link, target) => if step.dialed then Some(ForwardRelay(link.id, step.handshake, target)) else None
      case Claim(link, id) =>
        if id in s.pool.pending then Some(ReverseRelay(link.id, step.handshake, id, s.pool.pending[id])) else None
      case _ => None
  }

  lemma StartsIffDue(c: Setup, s: State, step: Step, r: Relay)
    ensures Starts(c, s, step, r) <==> Due(c, s, step) == Some(r)
  {
    if step.DataConnection? {
      DecisionMeans(c, step.handshake, step.hello);
      if Decided(c, step.handshake, step.hello).Dial? {
        DialMeans(c, step.handshake, step.hello);
      }
    }
  }

  lemma StepStartsDue(c: Setup, s: State, step: Step)
    requires Enabled(s, step)
    ensures Apply(c, s, step).relays == s.relays + match Due(c, s, step) case Some(r) => [r] case None => []
  {
  }

  /** A step starts exactly the relay it is due, if any. */
  lemma StepStartsWhatIsDue(c: Setup, s: State, step: Step)
    requires Enabled(s, step)
    ensures forall r :: Starts(c, s, step, r) <==> Apply(c, s, step).relays == s.relays + [r]
    ensures (forall r :: !Starts(c, s, step, r)) ==> Apply(c, s, step).relays == s.relays
  {
    StepStartsDue(c, s, step);
    forall r
      ensures Starts(c, s, step, r) <==> Apply(c, s, step).relays == s.relays + [r]
    {
      StartsIffDue(c, s, step, r);
      assert (s.relays + [r])[|s.relays|] == r;
      if Due(c, s, step).Some? {
        assert (s.relays + [Due(c, s, step).value])[|s.relays|] == Due(c, s, step).value;
      }
    }
    if Due(c, s, step).Some? {
      StartsIffDue(c, s, step, Due(c, s, step).value);
    }
  }

  lemma DialMeans(c: Setup, handshake: seq<Byte>, hello: Hello)
    requires Decided(c, handshake, hello).Dial?
    ensures forall link :: MayForward(c, handshake, hello, link) ==> link == Decided(c, handshake, hello).link
  {
    forall link | MayForward(c, handshake, hello, link)
      ensures link == Decided(c, handshake, hello).link
    {
      FindLinkIff(c.cfg.links, hello.linkId, link);
    }
  }

  /** The relays due over a run, in order. */
  ghost function RelaysDue(c: Setup, s: State, steps: seq<Step>): seq<Relay>
    requires ValidRun(c, s, steps)
    decreases |steps|
  {
    if steps == [] then []
    else
      (if r :| Starts(c, s, steps[0], r) then [r] else []) + RelaysDue(c, Apply(c, s, steps[0]), steps[1..])
  }

  /** Every run starts exactly the relays that are due: none is missing, and there is no other. */
  lemma {:induction false} RelaysAreExactlyDue(c: Setup, s: State, steps: seq<Step>)
    requires ValidRun(c, s, steps)
    ensures After(c, s, steps).relays == s.relays + RelaysDue(c, s, steps)
    decreases |steps|
  {
    if steps != [] {
      StepStartsWhatIsDue(c, s, steps[0]);
      RelaysAreExactlyDue(c, Apply(c, s, steps[0]), steps[1..]);
    }
  }

  /** The listener of some link is about to put stream `id` into the pending map, or to take it back. */
  ghost predicate ListenerMoves(s: State, step: Step, id: nat)
  {
    match step
    case Park(l) => l in s.pool.listeners && s.pool.listeners[l].Accepted? && s.pool.listeners[l].id == id
    case Withdraw(l) => l in s.pool.listeners && s.pool.listeners[l].Refused? && s.pool.listeners[l].id == id
    case _ => false
  }

  /**
   * A stream enters the pending map when its listener parks it, with the connection accepted for it, and stays with that
   * connection until its timer fires, its listener takes it back, or an entitled hello claims it.
   */
  lemma PendingChangesExactly(c: Setup, s: State, step: Step, id: nat)
    requires Inv(c, s) && Enabled(s, step)
    ensures var t := Apply(c, s, step);
      && (id !in s.pool.pending ==> (id in t.pool.pending <==> step.Park? && ListenerMoves(s, step, id)))
      && (id in s.pool.pending ==>
            (id !in t.pool.pending <==>
               || step == Expire(id) || (step.Withdraw? && ListenerMoves(s, step, id))
               || exists r :: Starts(c, s, step, r) && r.ReverseRelay? && r.streamId == id))
      && (id in t.pool.pending ==> id in t.pool.issued && t.pool.pending[id] == t.pool.issued[id].conn)
  {
    StepKeepsInv(c, s, step);
    if step.DataConnection? {
      ClaimChangesExactly(c, s, step, id);
    } else {
      OtherStepsChangeExactly(c, s, step, id);
      assert forall r :: !Starts(c, s, step, r);
    }
  }

  lemma OtherStepsChangeExactly(c: Setup, s: State, step: Step, id: nat)
    requires Enabled(s, step) && !step.DataConnection?
    ensures var t := Apply(c, s, step);
      && (id !in s.pool.pending ==> (id in t.pool.pending <==> step.Park? && ListenerMoves(s, step, id)))
      && (id in s.pool.pending ==>
            (id !in t.pool.pending <==> step == Expire(id) || (step.Withdraw? && ListenerMoves(s, step, id))))
  {
  }

  lemma ClaimChangesExactly(c: Setup, s: State, step: Step, id: nat)
    requires step.DataConnection?
    ensures var t := Apply(c, s, step);
      && (id !in s.pool.pending ==> id !in t.pool.pending)
      && (id in s.pool.pending ==>
            (id !in t.pool.pending <==> exists r :: Starts(c, s, step, r) && r.ReverseRelay? && r.streamId == id))
  {
    DecisionMeans(c, step.handshake, step.hello);
    var d := Decided(c, step.handshake, step.hello);
    if d.Claim? && d.streamId in s.pool.pending {
      assert Starts(c, s, step, ReverseRelay(d.link.id, step.handshake, d.streamId, s.pool.pending[d.streamId]));
    }
  }

  // ----- Pairing with the right link -----

  /** Every reverse relay runs over the link whose listener accepted its connection. */
  ghost predicate LinksAgree(s: State)
  {
    forall r :: r in s.relays && r.ReverseRelay? ==>
      r.streamId in s.pool.issued && r.linkId == s.pool.issued[r.streamId].linkId
  }

  /** The step claims a parked stream for another link than the one it was accepted on. */
  ghost predicate CrossClaim(c: Setup, s: State, step: Step)
  {
    && step.DataConnection?
    && var m := FirstMatch(c.noise, step.handshake, c.peers);
    && m.Some? && Authorize(c.cfg, c.peers[m.value], step.hello).Claim?
    && var id := step.hello.streamId.value;
    && id in s.pool.pending && id in s.pool.issued && step.hello.linkId != s.pool.issued[id].linkId
  }

  ghost predicate NoCrossClaims(c: Setup, s: State, steps: seq<Step>)
    requires ValidRun(c, s, steps)
    decreases |steps|
  {
    steps == [] || (!CrossClaim(c, s, steps[0]) && NoCrossClaims(c, Apply(c, s, steps[0]), steps[1..]))
  }

  lemma AgreementUnchanged(s: State, t: State)
    requires RelaysExact(s.pool, s.relays) && Pool.Extends(s.pool, t.pool) && t.relays == s.relays
    ensures LinksAgree(t) <==> LinksAgree(s)
  {
  }

  lemma AgreementExtended(s: State, t: State, r: Relay)
    requires RelaysExact(s.pool, s.relays) && Pool.Extends(s.pool, t.pool) && t.relays == s.relays + [r]
    requires r.ReverseRelay? ==> r.streamId in s.pool.issued
    ensures LinksAgree(t) <==>
              LinksAgree(s) && (r.ReverseRelay? ==> r.linkId == s.pool.issued[r.streamId].linkId)
  {
    assert r in t.relays;
    assert forall x :: x in s.relays ==> x in t.relays;
  }

  lemma HelloAgreement(c: Setup, s: State, m: nat, handshake: seq<Byte>, hello: Hello, dialed: bool)
    requires Inv(c, s) && FirstMatch(c.noise, handshake, c.peers) == Some(m)
    requires Pool.Extends(s.pool, HelloStep(c, s, c.peers[m], handshake, hello, dialed).pool)
    ensures LinksAgree(HelloStep(c, s, c.peers[m], handshake, hello, dialed)) <==>
              LinksAgree(s) && !CrossClaim(c, s, DataConnection(handshake, hello, dialed))
  {
    var t := HelloStep(c, s, c.peers[m], handshake, hello, dialed);
    if t.relays == s.relays {
      AgreementUnchanged(s, t);
    } else {
      AgreementExtended(s, t, t.relays[|s.relays|]);
    }
  }

  lemma StepAgreement(c: Setup, s: State, step: Step)
    requires Inv(c, s) && Enabled(s, step)
    ensures LinksAgree(Apply(c, s, step)) <==> LinksAgree(s) && !CrossClaim(c, s, step)
  {
    PoolKept(c, s, step);
    if step.DataConnection? && FirstMatch(c.noise, step.handshake, c.peers).Some? {
      HelloAgreement(c, s, FirstMatch(c.noise, step.handshake, c.peers).value, step.handshake, step.hello, step.dialed);
    } else {
      AgreementUnchanged(s, Apply(c, s, step));
    }
  }

  /** A run pairs every tunnel with its own link's connection exactly when no hello names another link's stream. */
  lemma {:induction false} PairingCorrectIffNoCrossClaim(c: Setup, s: State, steps: seq<Step>)
    requires Inv(c, s) && ValidRun(c, s, steps)
    ensures LinksAgree(After(c, s, steps)) <==> LinksAgree(s) && NoCrossClaims(c, s, steps)
    decreases |steps|
  {
    if steps != [] {
      StepAgreement(c, s, steps[0]);
      StepKeepsInv(c, s, steps[0]);
      PairingCorrectIffNoCrossClaim(c, Apply(c, s, steps[0]), steps[1..]);
    }
  }

  predicate HonestStep(s: State, step: Step)
  {
    step.DataConnection? && step.hello.streamId.Some? ==>
      Line.OpenStream(step.hello.linkId, step.hello.streamId.value) in s.line.received
  }

  /** Clients only send hellos with a stream id for OpenStreams they have received. */
  ghost predicate HonestRun(c: Setup, s: State, steps: seq<Step>)
    requires ValidRun(c, s, steps)
    decreases |steps|
  {
    steps == [] ||
    (&& HonestStep(s, steps[0])
     && HonestRun(c, Apply(c, s, steps[0]), steps[1..]))
  }

  /** A received OpenStream names the link its stream was issued for. */
  lemma ReceivedNamesItsLink(c: Setup, s: State, msg: Line.OpenStream)
    requires Inv(c, s) && msg in s.line.received
    ensures msg.streamId in s.pool.issued && s.pool.issued[msg.streamId].linkId == msg.linkId
  {
    assert Line.SentSomewhere(s.line.attempts, msg);
    var a :| 0 <= a < |s.line.attempts| && s.line.attempts[a].msg == msg;
    AttemptedWasEnqueued(s.line, a);
    assert msg in s.line.enqueued;
  }

  lemma HonestStepNoCrossClaim(c: Setup, s: State, step: Step)
    requires Inv(c, s) && HonestStep(s, step)
    ensures !CrossClaim(c, s, step)
  {
    if CrossClaim(c, s, step) {
      ClaimsNameAStream(c, s, step);
      ReceivedNamesItsLink(c, s, Line.OpenStream(step.hello.linkId, step.hello.streamId.value));
    }
  }

  lemma ClaimsNameAStream(c: Setup, s: State, step: Step)
    requires CrossClaim(c, s, step)
    ensures step.hello.streamId.Some? && step.hello.streamId.value in s.pool.issued
    ensures step.hello.linkId != s.pool.issued[step.hello.streamId.value].linkId
  {
  }

  lemma {:induction false} HonestMeansNoCrossClaims(c: Setup, s: State, steps: seq<Step>)
    requires Inv(c, s) && ValidRun(c, s, steps) && HonestRun(c, s, steps)
    ensures NoCrossClaims(c, s, steps)
    decreases |steps|
  {
    if steps != [] {
      HonestStepNoCrossClaim(c, s, steps[0]);
      StepKeepsInv(c, s, steps[0]);
      HonestMeansNoCrossClaims(c, Apply(c, s, steps[0]), steps[1..]);
    }
  }

  lemma AttemptedWasEnqueued(q: Line.Line, a: nat)
    requires Line.Fifo(q) && a < |q.attempts|
    ensures a < |q.enqueued| && q.enqueued[a] == q.attempts[a].msg
  {
    assert Line.Messages(q.attempts)[a] == q.attempts[a].msg;
  }

  /** With honest clients every reverse tunnel meets a connection accepted by its own link's listener. */
  lemma HonestClientsPairCorrectly(c: Setup, links: set<string>, steps: seq<Step>)
    requires ValidRun(c, Init(links), steps) && HonestRun(c, Init(links), steps)
    ensures LinksAgree(After(c, Init(links), steps))
  {
    InitInv(c, links);
    HonestMeansNoCrossClaims(c, Init(links), steps);
    PairingCorrectIffNoCrossClaim(c, Init(links), steps);
  }

  /** The links whose listeners the server starts. */
  function ReverseIds(cfg: Config): set<string>
  {
    set i | 0 <= i < |cfg.links| && cfg.links[i].transport == Tcp && cfg.links[i].mode == Reverse :: cfg.links[i].id
  }

  /**
   * The claim looks up the id alone. In every validated server configuration with two reverse links, a peer that may
   * use the second can have its tunnel joined to a connection accepted for the first, by naming a guessed id.
   */
  lemma CrossClaimPossible(p: Parsers, c: Setup, a: LinkConfig, b: LinkConfig, m: nat, handshake: seq<Byte>, conn: Pool.Conn)
    returns (steps: seq<Step>)
    requires WellFormed(p, c.cfg) && c.cfg.role == Server
    requires a in c.cfg.links && b in c.cfg.links && a.id != b.id
    requires a.transport == b.transport == Tcp && a.mode == b.mode == Reverse
    requires FirstMatch(c.noise, handshake, c.peers) == Some(m) && b.id in c.peers[m].links
    ensures ValidRun(c, Init(ReverseIds(c.cfg)), steps)
    ensures !LinksAgree(After(c, Init(ReverseIds(c.cfg)), steps))
  {
    AuthorizedIffEntitled(p, c.cfg, c.peers[m], Hello(b.id, Some(1)), b, 1);
    var i :| 0 <= i < |c.cfg.links| && c.cfg.links[i] == a;
    assert c.cfg.links[i].id == a.id;
    steps := CrossClaimSteps(c, ReverseIds(c.cfg), a.id, b, m, handshake, conn);
  }

  lemma CrossClaimSteps(c: Setup, links: set<string>, a: string, b: LinkConfig, m: nat, handshake: seq<Byte>, conn: Pool.Conn)
    returns (steps: seq<Step>)
    requires a in links && a != b.id && FirstMatch(c.noise, handshake, c.peers) == Some(m)
    requires Authorize(c.cfg, c.peers[m], Hello(b.id, Some(1))) == Claim(b, 1)
    ensures ValidRun(c, Init(links), steps) && !LinksAgree(After(c, Init(links), steps))
  {
    var s0 := Init(links);
    var s1 := Apply(c, s0, Accept(a, conn));
    var s2 := Apply(c, s1, Park(a));
    var claim := DataConnection(handshake, Hello(b.id, Some(1)), true);
    RunCons(c, s2, claim, []);
    RunCons(c, s1, Park(a), [claim] + []);
    RunCons(c, s0, Accept(a, conn), [Park(a)] + ([claim] + []));
    steps := [Accept(a, conn)] + ([Park(a)] + ([claim] + []));
    var s3 := Apply(c, s2, claim);
    assert s3.relays == [ReverseRelay(b.id, handshake, 1, conn)];
    assert s3.relays[0] in s3.relays && s3.pool.issued[1].linkId == a;
  }

  // ----- Signalling -----

  /**
   * Over a whole run what the sessions attempt is, in order, a prefix of what was enqueued; no stream is
   * attempted twice; ids increase along each link; and sessions never overlap.
   */
  lemma SignalsInOrder(c: Setup, links: set<string>, steps: seq<Step>)
    requires ValidRun(c, Init(links), steps)
    ensures var q := After(c, Init(links), steps).line;
      && Line.Messages(q.attempts) <= q.enqueued
      && (forall a, b :: 0 <= a < b < |q.attempts| ==>
            && q.attempts[a].msg.streamId != q.attempts[b].msg.streamId
            && (q.attempts[a].msg.linkId == q.attempts[b].msg.linkId ==>
                  q.attempts[a].msg.streamId < q.attempts[b].msg.streamId)
            && q.attempts[a].session <= q.attempts[b].session
            && (!q.attempts[a].sent ==> q.attempts[a].session < q.attempts[b].session))
  {
    InitInv(c, links);
    RunKeepsInv(c, Init(links), steps);
    var s := After(c, Init(links), steps);
    forall a, b | 0 <= a < b < |s.line.attempts|
      ensures s.line.attempts[a].msg.streamId != s.line.attempts[b].msg.streamId
      ensures s.line.attempts[a].msg.linkId == s.line.attempts[b].msg.linkId ==>
                s.line.attempts[a].msg.streamId < s.line.attempts[b].msg.streamId
    {
      AttemptedWasEnqueued(s.line, a);
      AttemptedWasEnqueued(s.line, b);
      assert s.line.enqueued[a] in s.line.enqueued && s.line.enqueued[b] in s.line.enqueued;
    }
  }

  /** A session ends exactly at a failed send or a disconnect, and only then does another take its place. */
  lemma SessionEndsExactly(c: Setup, s: State, step: Step)
    requires Enabled(s, step) && s.line.session.Some?
    ensures step == Signal(false) || step == Disconnect <==> Apply(c, s, step).line.session != s.line.session
    ensures step == Signal(false) || step == Disconnect ==> Apply(c, s, step).line.session == None
  {
  }

  /** The run has no failed send and no disconnect. */
  ghost predicate Undisturbed(steps: seq<Step>)
  {
    forall i :: 0 <= i < |steps| ==> steps[i] != Signal(false) && steps[i] != Disconnect
  }

  lemma {:induction false} UndisturbedSessionGoesOn(c: Setup, s: State, steps: seq<Step>)
    requires ValidRun(c, s, steps) && s.line.session.Some? && Undisturbed(steps)
    ensures var q, t := s.line, After(c, s, steps).line;
      && t.session == q.session && q.attempts <= t.attempts
      && forall a :: |q.attempts| <= a < |t.attempts| ==> t.attempts[a].sent && Some(t.attempts[a].session) == q.session
    decreases |steps|
  {
    if steps != [] {
      SessionEndsExactly(c, s, steps[0]);
      AttemptsGrow(c, s, steps[0]);
      UndisturbedSessionGoesOn(c, Apply(c, s, steps[0]), steps[1..]);
    }
  }

  /**
   * A session that meets neither goes on, every message it attempts gets through, and what it has not attempted still
   * waits for it in order: nothing enqueued is lost while it runs.
   */
  lemma UndisturbedSessionAttemptsAll(c: Setup, s: State, steps: seq<Step>)
    requires Inv(c, s) && ValidRun(c, s, steps) && s.line.session.Some? && Undisturbed(steps)
    ensures var q, t := s.line, After(c, s, steps).line;
      && t.session == q.session && q.attempts <= t.attempts
      && (forall a :: |q.attempts| <= a < |t.attempts| ==> t.attempts[a].sent && Some(t.attempts[a].session) == q.session)
      && Line.Messages(t.attempts) + t.channel == t.enqueued
      && (t.channel == [] ==> Line.Messages(t.attempts) == t.enqueued)
      && (t.channel != [] ==> Enabled(After(c, s, steps), Signal(true)))
  {
    UndisturbedSessionGoesOn(c, s, steps);
    RunKeepsInv(c, s, steps);
    NothingLost(After(c, s, steps).line);
  }

  lemma NothingLost(q: Line.Line)
    requires Line.Fifo(q) && q.session.Some?
    ensures Line.Messages(q.attempts) + q.channel == q.enqueued
    ensures q.channel == [] ==> Line.Messages(q.attempts) == q.enqueued
  {
  }

  /** A session's step adds the oldest waiting message to the attempts, and no other step adds any. */
  lemma AttemptsGrow(c: Setup, s: State, step: Step)
    requires Enabled(s, step)
    ensures var q, t := s.line, Apply(c, s, step).line;
      if step.Signal? then
        && t.attempts == q.attempts + [Line.Attempt(q.session.value, q.channel[0], step.sent)]
        && t.channel == q.channel[1..]
      else t.attempts == q.attempts
  {
  }

  /** Across links the announcements can be out of id order: a slower listener is overtaken. */
  lemma OvertakingPossible(c: Setup, a: string, b: string)
    returns (steps: seq<Step>)
    requires a != b
    ensures ValidRun(c, Init({a, b}), steps)
    ensures After(c, Init({a, b}), steps).line.enqueued == [Line.OpenStream(b, 2), Line.OpenStream(a, 1)]
  {
    var s2 := Apply(c, Apply(c, Init({a, b}), Accept(a, 7)), Accept(b, 8));
    var rest := OvertakingTail(c, a, b, s2);
    RunCons(c, Apply(c, Init({a, b}), Accept(a, 7)), Accept(b, 8), rest);
    RunCons(c, Init({a, b}), Accept(a, 7), [Accept(b, 8)] + rest);
    steps := [Accept(a, 7)] + ([Accept(b, 8)] + rest);
  }

  lemma OvertakingTail(c: Setup, a: string, b: string, s: State)
    returns (steps: seq<Step>)
    requires a != b && s.line == Line.EMPTY
    requires Pool.PhaseOf(s.pool, a) == Pool.Accepted(1, 7) && Pool.PhaseOf(s.pool, b) == Pool.Accepted(2, 8)
    ensures ValidRun(c, s, steps)
    ensures After(c, s, steps).line.enqueued == [Line.OpenStream(b, 2), Line.OpenStream(a, 1)]
  {
    var s3 := Apply(c, s, Park(a));
    var s4 := Apply(c, s3, Park(b));
    var s5 := Apply(c, s4, Announce(b));
    RunCons(c, s5, Announce(a), []);
    RunCons(c, s4, Announce(b), [Announce(a)] + []);
    RunCons(c, s3, Park(b), [Announce(b)] + ([Announce(a)] + []));
    RunCons(c, s, Park(a), [Park(b)] + ([Announce(b)] + ([Announce(a)] + [])));
    steps := [Park(a)] + ([Park(b)] + ([Announce(b)] + ([Announce(a)] + [])));
  }

  // ----- Nothing stays pending for ever -----

  /** In every reachable state all but at most one parked stream per listener has an armed timer. */
  lemma NoPendingLeak(c: Setup, links: set<string>, steps: seq<Step>)
    requires ValidRun(c, Init(links), steps)
    ensures var p := After(c, Init(links), steps).pool;
      && (forall id :: id in p.pending ==> id in p.timers || Pool.InHand(p, id))
      && |p.pending.Keys - p.timers| <= |p.listeners|
  {
    InitInv(c, links);
    RunKeepsInv(c, Init(links), steps);
    var p := After(c, Init(links), steps).pool;
    forall id | id in p.pending.Keys - p.timers
      ensures exists l :: l in p.listeners.Keys && l in p.listeners && !p.listeners[l].Idle? && p.listeners[l].id == id
    {
      assert Pool.WorksOn(p, p.issued[id].linkId, id);
    }
    Pool.OneListenerEach(p, p.pending.Keys - p.timers, p.listeners.Keys);
    assert |p.listeners| == |p.listeners.Keys|;
  }

  /** Steps the server takes on its own, without anyone connecting. */
  predicate Internal(step: Step)
  {
    step.Park? || step.Announce? || step.FailSend? || step.Withdraw? || step.ArmExpiry? || step.Expire?
  }

  function InternalSteps(steps: seq<Step>): nat
  {
    if steps == [] then 0 else (if Internal(steps[0]) then 1 else 0) + InternalSteps(steps[1..])
  }

  lemma ClaimDrains(c: Setup, s: State, step: Step, order: seq<string>)
    requires Enabled(s, step) && step.DataConnection?
    ensures Apply(c, s, step).pool.listeners == s.pool.listeners
    ensures Pool.Potential(Apply(c, s, step).pool, order) <= Pool.Potential(s.pool, order)
  {
    var m := FirstMatch(c.noise, step.handshake, c.peers);
    if m.Some? && Authorize(c.cfg, c.peers[m.value], step.hello).Claim? {
      Pool.TakeShrinks(s.pool, Authorize(c.cfg, c.peers[m.value], step.hello).streamId, Pool.Relayed);
    }
  }

  /** A section of the listener of `l`. */
  predicate ListenerStep(step: Step, l: string)
  {
    step == Park(l) || step == Announce(l) || step == FailSend(l) || step == Withdraw(l) || step == ArmExpiry(l)
  }

  lemma ListenerStepIsSection(c: Setup, s: State, step: Step, l: string)
    requires Enabled(s, step) && ListenerStep(step, l)
    ensures Pool.Section(s.pool, Apply(c, s, step).pool, l)
  {
  }

  lemma ListenerStepDrains(c: Setup, s: State, step: Step, order: seq<string>, l: string)
    requires Pool.Sound(s.pool) && Enabled(s, step) && ListenerStep(step, l) && Pool.Lists(order, s.pool)
    ensures Apply(c, s, step).pool.listeners.Keys == s.pool.listeners.Keys
    ensures Pool.Potential(Apply(c, s, step).pool, order) < Pool.Potential(s.pool, order)
  {
    ListenerStepIsSection(c, s, step, l);
    Pool.SectionDrains(s.pool, Apply(c, s, step).pool, order, l);
  }

  lemma StepDrains(c: Setup, s: State, step: Step, order: seq<string>)
    requires Pool.Sound(s.pool) && Enabled(s, step) && !step.Accept? && Pool.Lists(order, s.pool)
    ensures Apply(c, s, step).pool.listeners.Keys == s.pool.listeners.Keys
    ensures Pool.Potential(Apply(c, s, step).pool, order) + (if Internal(step) then 1 else 0) <= Pool.Potential(s.pool, order)
  {
    match step
    case Expire(id) => Pool.ExpiryDrains(s.pool, order, id);
    case DataConnection(_, _, _) => ClaimDrains(c, s, step, order);
    case Park(l) => ListenerStepDrains(c, s, step, order, l);
    case Announce(l) => ListenerStepDrains(c, s, step, order, l);
    case FailSend(l) => ListenerStepDrains(c, s, step, order, l);
    case Withdraw(l) => ListenerStepDrains(c, s, step, order, l);
    case ArmExpiry(l) => ListenerStepDrains(c, s, step, order, l);
    case _ =>
  }

  /** Without new connections only boundedly many internal steps remain, whatever else happens in between. */
  lemma {:induction false} DrainIsBounded(c: Setup, s: State, steps: seq<Step>, order: seq<string>)
    requires Inv(c, s) && ValidRun(c, s, steps) && Pool.Lists(order, s.pool)
    requires forall i :: 0 <= i < |steps| ==> !steps[i].Accept?
    ensures InternalSteps(steps) + Pool.Potential(After(c, s, steps).pool, order) <= Pool.Potential(s.pool, order)
    decreases |steps|
  {
    if steps != [] {
      StepDrains(c, s, steps[0], order);
      StepKeepsInv(c, s, steps[0]);
      DrainIsBounded(c, Apply(c, s, steps[0]), steps[1..], order);
    }
  }

  /** When no internal step is left, what is still pending belongs to listeners blocked on a full channel. */
  lemma StuckMeansBlocked(c: Setup, s: State)
    requires Inv(c, s)
    requires forall step :: Internal(step) ==> !Enabled(s, step)
    ensures forall id :: id in s.pool.pending ==>
              exists l :: l in Pool.Blocked(s.pool) && s.pool.listeners[l].id == id
    ensures |s.pool.pending| <= |Pool.Blocked(s.pool)|
    ensures Pool.Blocked(s.pool) != {} ==> !s.line.closed && |s.line.channel| == Line.CHANNEL_CAPACITY
  {
    forall id
      ensures id !in s.pool.timers
    {
      assert Internal(Expire(id));
    }
    forall l | l in s.pool.listeners
      ensures s.pool.listeners[l].Idle? || s.pool.listeners[l].Sending?
    {
      assert Internal(Park(l)) && Internal(Withdraw(l)) && Internal(ArmExpiry(l));
    }
    Pool.DrainedPendingIsBlocked(s.pool);
    if l :| l in Pool.Blocked(s.pool) {
      assert Internal(Announce(l)) && Internal(FailSend(l));
    }
  }
}

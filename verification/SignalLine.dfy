/**
 * How OpenStream announcements reach the client: the bounded channel all reverse listeners feed and the
 * control sessions that drain it one after another (crates/ghostport-core/src/server.rs).
 */
module SignalLine {
  import opened Common

  const CHANNEL_CAPACITY: nat := 32

  datatype OpenStream = OpenStream(linkId: string, streamId: nat)

  /** One message taken off the channel by a control session, and whether its send succeeded. */
  datatype Attempt = Attempt(session: nat, msg: OpenStream, sent: bool)

  /** `enqueued`, `attempts` and `received` are history; sessions are numbered in the order they start. */
  datatype Line = Line(
    channel: seq<OpenStream>,
    closed: bool,
    session: Option<nat>,
    sessions: nat,
    enqueued: seq<OpenStream>,
    attempts: seq<Attempt>,
    received: set<OpenStream>)

  const EMPTY := Line([], false, None, 0, [], [], {})

  predicate HasRoom(q: Line)
  {
    !q.closed && |q.channel| < CHANNEL_CAPACITY
  }

  /** A listener's announcement gets a slot. */
  function Enqueue(q: Line, msg: OpenStream): Line
  {
    q.(channel := q.channel + [msg], enqueued := q.enqueued + [msg])
  }

  /** The next authenticated control connection becomes the session. */
  function Connect(q: Line): Line
  {
    q.(session := Some(q.sessions), sessions := q.sessions + 1)
  }

  /** The session takes the oldest announcement and tries to send it; a failed send ends the session. */
  function SignalNext(q: Line, sent: bool): Line
    requires q.session.Some? && q.channel != []
  {
    q.(channel := q.channel[1..],
       attempts := q.attempts + [Attempt(q.session.value, q.channel[0], sent)],
       session := if sent then q.session else None)
  }

  /** The session ends for any other reason. */
  function Disconnect(q: Line): Line
  {
    q.(session := None)
  }

  /** The accept loop is gone and takes the receiving end with it. */
  function Close(q: Line): Line
  {
    q.(closed := true, channel := [])
  }

  /** The client reads a message that was sent. */
  function Receive(q: Line, k: nat): Line
    requires k < |q.attempts|
  {
    q.(received := q.received + {q.attempts[k].msg})
  }

  // ----- What every section keeps -----

  function Messages(attempts: seq<Attempt>): (m: seq<OpenStream>)
    ensures |m| == |attempts|
    ensures forall i :: 0 <= i < |m| ==> m[i] == attempts[i].msg
  {
    seq(|attempts|, i requires 0 <= i < |attempts| => attempts[i].msg)
  }

  /** What sessions have attempted, followed by what still waits, is what was enqueued. */
  ghost predicate Fifo(q: Line)
  {
    && |q.channel| <= CHANNEL_CAPACITY
    && (!q.closed ==> Messages(q.attempts) + q.channel == q.enqueued)
    && (q.closed ==> q.channel == [] && q.session.None? && Messages(q.attempts) <= q.enqueued)
  }

  /** Sessions come one after another, and a failed send is the last thing its session does. */
  ghost predicate Serial(q: Line)
  {
    && (q.session.Some? ==> q.session.value + 1 == q.sessions)
    && (forall a :: 0 <= a < |q.attempts| ==> q.attempts[a].session < q.sessions)
    && (forall a :: 0 <= a < |q.attempts| && q.session == Some(q.attempts[a].session) ==> q.attempts[a].sent)
    && (forall a, b :: 0 <= a < b < |q.attempts| ==>
          && q.attempts[a].session <= q.attempts[b].session
          && (!q.attempts[a].sent ==> q.attempts[a].session < q.attempts[b].session))
  }

  ghost predicate SentSomewhere(attempts: seq<Attempt>, msg: OpenStream)
  {
    exists a :: 0 <= a < |attempts| && attempts[a].sent && attempts[a].msg == msg
  }

  ghost predicate Genuine(q: Line)
  {
    forall m :: m in q.received ==> SentSomewhere(q.attempts, m)
  }

  ghost predicate Sound(q: Line)
  {
    Fifo(q) && Serial(q) && Genuine(q)
  }

  lemma EnqueueKeepsSound(q: Line, msg: OpenStream)
    requires Sound(q) && HasRoom(q)
    ensures Sound(Enqueue(q, msg))
  {
  }

  lemma SignalKeepsSound(q: Line, sent: bool)
    requires Sound(q) && q.session.Some? && q.channel != []
    ensures Sound(SignalNext(q, sent))
  {
    var r := SignalNext(q, sent);
    assert Messages(r.attempts) == Messages(q.attempts) + [q.channel[0]];
    assert q.channel == [q.channel[0]] + q.channel[1..];
    forall m | m in r.received
      ensures SentSomewhere(r.attempts, m)
    {
      var a :| 0 <= a < |q.attempts| && q.attempts[a].sent && q.attempts[a].msg == m;
      assert r.attempts[a] == q.attempts[a];
    }
  }

  lemma SessionKeepsSound(q: Line)
    requires Sound(q)
    ensures q.session.None? && !q.closed ==> Sound(Connect(q))
    ensures Sound(Disconnect(q))
    ensures q.session.None? ==> Sound(Close(q))
  {
  }

  lemma ReceiveKeepsSound(q: Line, k: nat)
    requires Sound(q) && k < |q.attempts| && q.attempts[k].sent
    ensures Sound(Receive(q, k))
  {
  }
}

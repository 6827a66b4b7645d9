/** The handshake limiter: a per-address sliding window and a global cap (crates/ghostport-core/src/ratelimit.rs). */
module RateLimit {
  import opened Common
  import opened SlidingWindow
  import opened Authorization

  const MAX_CONCURRENT_HANDSHAKES: nat := 64
  const MAX_ATTEMPTS_PER_WINDOW: nat := 10
  /** Sixty seconds, in nanoseconds of the monotonic clock. */
  const WINDOW: int := 60_000_000_000

  /** One call: the clock when the old entries are pruned and when the attempt is recorded. */
  datatype Attempt<Ip> = Attempt(ip: Ip, now: int, later: int)

  // ----- The naive limiter: keep every recorded attempt for ever -----

  /** An attempt at `now` is let through when fewer than ten recorded attempts lie in the window before it. */
  predicate Admits(log: seq<int>, now: int)
  {
    CountSince(log, now - WINDOW) < MAX_ATTEMPTS_PER_WINDOW
  }

  /** The naive limiter's step: an admitted attempt is appended to its address's log. */
  function Recording<Ip(==)>(logs: map<Ip, seq<int>>, a: Attempt<Ip>): map<Ip, seq<int>>
  {
    var log := LogOf(logs, a.ip);
    logs[a.ip := if Admits(log, a.now) then log + [a.later] else log]
  }

  function Logs<Ip(==)>(trace: seq<Attempt<Ip>>): map<Ip, seq<int>>
  {
    if trace == [] then map[] else Recording(Logs(trace[..|trace| - 1]), trace[|trace| - 1])
  }

  /** Every attempt of `ip` the naive limiter has recorded, oldest first. */
  function Log<Ip(==)>(trace: seq<Attempt<Ip>>, ip: Ip): seq<int>
  {
    LogOf(Logs(trace), ip)
  }

  /** The clock never runs backwards, within a call or from one call to the next. */
  ghost predicate Ordered<Ip>(trace: seq<Attempt<Ip>>)
  {
    trace == [] ||
    (var earlier, last := trace[..|trace| - 1], trace[|trace| - 1];
     Ordered(earlier) && last.now <= last.later && (earlier != [] ==> earlier[|earlier| - 1].later <= last.now))
  }

  lemma {:induction false} LogBounded<Ip>(trace: seq<Attempt<Ip>>, ip: Ip)
    requires Ordered(trace)
    ensures Sorted(Log(trace, ip))
    ensures forall i :: 0 <= i < |Log(trace, ip)| ==> Log(trace, ip)[i] <= trace[|trace| - 1].later
  {
    if trace != [] {
      LogBounded(trace[..|trace| - 1], ip);
    }
  }

  /** An address is admitted exactly when its tenth most recent recorded attempt has left the window. */
  lemma AdmitsIffTenthIsOld(log: seq<int>, now: int)
    requires Sorted(log)
    ensures Admits(log, now) <==>
              |log| < MAX_ATTEMPTS_PER_WINDOW || log[|log| - MAX_ATTEMPTS_PER_WINDOW] < now - WINDOW
  {
    CountOfSuffix(log, Recent(log, now - WINDOW), now - WINDOW);
  }

  /** The k-th and the (k+10)-th recorded attempt of an address are always more than a window apart. */
  lemma {:induction false} TenAttemptsSpanAWindow<Ip>(trace: seq<Attempt<Ip>>, ip: Ip, k: nat)
    requires Ordered(trace) && k + MAX_ATTEMPTS_PER_WINDOW < |Log(trace, ip)|
    ensures Log(trace, ip)[k + MAX_ATTEMPTS_PER_WINDOW] - Log(trace, ip)[k] > WINDOW
  {
    var earlier, last := trace[..|trace| - 1], trace[|trace| - 1];
    var log := Log(earlier, ip);
    if k + MAX_ATTEMPTS_PER_WINDOW < |log| {
      TenAttemptsSpanAWindow(earlier, ip, k);
    } else {
      LogBounded(earlier, ip);
      AdmitsIffTenthIsOld(log, last.now);
    }
  }

  /** The attempts of a trace that were recorded. */
  function Recorded<Ip(==)>(trace: seq<Attempt<Ip>>): seq<Attempt<Ip>>
  {
    if trace == [] then []
    else
      var earlier, last := trace[..|trace| - 1], trace[|trace| - 1];
      Recorded(earlier) + if Admits(Log(earlier, last.ip), last.now) then [last] else []
  }

  /** Rejected attempts never prolong a lockout: without them every log, and so every decision, is the same. */
  lemma {:induction false} RejectedAttemptsLeaveNoTrace<Ip>(trace: seq<Attempt<Ip>>, ip: Ip)
    ensures Log(Recorded(trace), ip) == Log(trace, ip)
  {
    if trace != [] {
      var earlier, last := trace[..|trace| - 1], trace[|trace| - 1];
      RejectedAttemptsLeaveNoTrace(earlier, ip);
      RejectedAttemptsLeaveNoTrace(earlier, last.ip);
      if Admits(Log(earlier, last.ip), last.now) {
        assert Recorded(trace) == Recorded(earlier) + [last];
        LogsSnoc(Recorded(earlier), last);
      } else {
        assert Recorded(trace) == Recorded(earlier);
      }
    }
  }

  /** The times of the attempts of `ip`, in order. */
  function Times<Ip(==)>(trace: seq<Attempt<Ip>>, ip: Ip): seq<int>
  {
    if trace == [] then []
    else Times(trace[..|trace| - 1], ip) + if trace[|trace| - 1].ip == ip then [trace[|trace| - 1].later] else []
  }

  /** An address's log is exactly the times of its admitted attempts: none is missing, and no other is in it. */
  lemma {:induction false} LogIsAdmitted<Ip>(trace: seq<Attempt<Ip>>, ip: Ip)
    ensures Log(trace, ip) == Times(Recorded(trace), ip)
  {
    if trace != [] {
      var earlier, last := trace[..|trace| - 1], trace[|trace| - 1];
      LogIsAdmitted(earlier, ip);
      if Admits(Log(earlier, last.ip), last.now) {
        assert (Recorded(earlier) + [last])[..|Recorded(earlier)|] == Recorded(earlier);
      } else {
        assert Recorded(trace) == Recorded(earlier);
      }
    }
  }

  lemma LogsSnoc<Ip>(trace: seq<Attempt<Ip>>, last: Attempt<Ip>)
    ensures Logs(trace + [last]) == Recording(Logs(trace), last)
  {
    assert (trace + [last])[..|trace|] == trace;
  }

  // ----- The limiter as it is: a pruned deque per address and a semaphore -----

  /** `logs` are the naive limiter's logs of an orderly trace that ended by `latest`. */
  ghost predicate Represents<Ip>(logs: map<Ip, seq<int>>, trace: seq<Attempt<Ip>>, latest: int)
  {
    && logs == Logs(trace)
    && Ordered(trace)
    && (trace != [] ==> trace[|trace| - 1].later <= latest)
  }

  lemma RepresentsStep<Ip>(logs: map<Ip, seq<int>>, trace: seq<Attempt<Ip>>, latest: int, a: Attempt<Ip>)
    requires Represents(logs, trace, latest) && latest <= a.now <= a.later
    ensures Represents(Recording(logs, a), trace + [a], a.later)
  {
    LogsSnoc(trace, a);
    assert (trace + [a])[..|trace|] == trace;
  }

  lemma RepresentedSorted<Ip>(logs: map<Ip, seq<int>>, trace: seq<Attempt<Ip>>, latest: int, ip: Ip)
    requires Represents(logs, trace, latest)
    ensures Sorted(LogOf(logs, ip))
  {
    LogBounded(trace, ip);
  }

  function Kept(deque: seq<int>, later: int): seq<int>
  {
    if |deque| < MAX_ATTEMPTS_PER_WINDOW then deque + [later] else deque
  }

  function Grown(log: seq<int>, now: int, later: int): seq<int>
  {
    if Admits(log, now) then log + [later] else log
  }

  /** For one address: deciding on the pruned deque is deciding on the log. */
  lemma DecisionFaithful(log: seq<int>, deque: seq<int>, latest: int, now: int, later: int)
    requires DequeOf(log, deque, latest - WINDOW) && Sorted(log) && latest <= now <= later
    ensures Admits(log, now) <==> |Pruned(deque, now - WINDOW)| < MAX_ATTEMPTS_PER_WINDOW
    ensures DequeOf(Grown(log, now, later), Kept(Pruned(deque, now - WINDOW), later), later - WINDOW)
  {
    var kept := Pruned(deque, now - WINDOW);
    PrunedDeque(log, deque, latest - WINDOW, now - WINDOW);
    DequeAges(log, kept, now - WINDOW, later - WINDOW);
    if |kept| < MAX_ATTEMPTS_PER_WINDOW {
      DequePushed(log, kept, later - WINDOW, later);
    }
  }

  /** The section under the lock is the naive limiter's step. */
  lemma AttemptFaithful<Ip(!new)>(deques: map<Ip, seq<int>>, logs: map<Ip, seq<int>>, trace: seq<Attempt<Ip>>, latest: int,
                                  a: Attempt<Ip>, deque: seq<int>)
    requires Faithful(deques, logs, latest - WINDOW) && Represents(logs, trace, latest) && latest <= a.now <= a.later
    requires DequeOf(Grown(LogOf(logs, a.ip), a.now, a.later), deque, a.later - WINDOW)
    ensures Faithful(deques[a.ip := deque], Recording(logs, a), a.later - WINDOW)
    ensures Represents(Recording(logs, a), trace + [a], a.later)
  {
    FaithfulStep(deques, logs, latest - WINDOW, a.ip, deque, Grown(LogOf(logs, a.ip), a.now, a.later), a.later - WINDOW);
    RepresentsStep(logs, trace, latest, a);
  }

  lemma DecisionMade<Ip(!new)>(deques: map<Ip, seq<int>>, logs: map<Ip, seq<int>>, trace: seq<Attempt<Ip>>, latest: int,
                               a: Attempt<Ip>)
    requires Faithful(deques, logs, latest - WINDOW) && Represents(logs, trace, latest) && latest <= a.now <= a.later
    ensures var kept := Pruned(LogOf(deques, a.ip), a.now - WINDOW);
      && (Admits(LogOf(logs, a.ip), a.now) <==> |kept| < MAX_ATTEMPTS_PER_WINDOW)
      && Faithful(deques[a.ip := Kept(kept, a.later)], Recording(logs, a), a.later - WINDOW)
      && Represents(Recording(logs, a), trace + [a], a.later)
  {
    FaithfulAt(deques, logs, latest - WINDOW, a.ip);
    RepresentedSorted(logs, trace, latest, a.ip);
    DecisionFaithful(LogOf(logs, a.ip), LogOf(deques, a.ip), latest, a.now, a.later);
    AttemptFaithful(deques, logs, trace, latest, a, Kept(Pruned(LogOf(deques, a.ip), a.now - WINDOW), a.later));
  }

  // ----- Permits and the tasks that hold them -----

  /** What a permit is taken for: a control or a data connection, or a first UDP datagram. */
  datatype Kind = Control | Data | Udp

  datatype HandshakeEnd = Matched | Failed | TimedOut

  /**
   * Where a task stands: admitted by the window and about to ask for a permit, refused one, holding one while the
   * handshake runs or its result is looked at, past the release, or done.
   */
  datatype Stage = Asking | Refused | Handshaking | Settled(how: HandshakeEnd) | Released | Done

  /** `releases` counts how often the task has given its permit back. */
  datatype Task = Task(kind: Kind, stage: Stage, releases: nat)

  datatype Gate<Ip> = Gate(logs: map<Ip, seq<int>>, permits: nat, tasks: seq<Task>)

  /**
   * `Settle` is the end of the handshake or its timeout. `DropPermit` is the explicit drop, which a control task reaches
   * whatever the result and the others only on success; `ReturnEarly` leaves the function, and the permit with its scope.
   */
  datatype GateStep<Ip> =
    | Arrive(kind: Kind, attempt: Attempt<Ip>)
    | Ask(task: nat)
    | Settle(task: nat, how: HandshakeEnd)
    | DropPermit(task: nat)
    | ReturnEarly(task: nat)
    | Finish(task: nat)

  /** Whether the explicit drop is what follows. */
  predicate DropsExplicitly(task: Task)
  {
    task.stage.Settled? && (task.kind.Control? || task.stage.how.Matched?)
  }

  predicate ReturnsEarly(task: Task)
  {
    task.stage.Settled? && !task.kind.Control? && !task.stage.how.Matched?
  }

  predicate GateEnabled<Ip>(g: Gate<Ip>, step: GateStep<Ip>)
  {
    match step
    case Arrive(_, _) => true
    case Ask(t) => t < |g.tasks| && g.tasks[t].stage.Asking?
    case Settle(t, _) => t < |g.tasks| && g.tasks[t].stage.Handshaking?
    case DropPermit(t) => t < |g.tasks| && DropsExplicitly(g.tasks[t])
    case ReturnEarly(t) => t < |g.tasks| && ReturnsEarly(g.tasks[t])
    case Finish(t) => t < |g.tasks| && g.tasks[t].stage.Released?
  }

  function Arrived<Ip(==)>(g: Gate<Ip>, kind: Kind, a: Attempt<Ip>): seq<Task>
  {
    if Admits(LogOf(g.logs, a.ip), a.now) then g.tasks + [Task(kind, Asking, 0)] else g.tasks
  }

  function GateApply<Ip(==)>(g: Gate<Ip>, step: GateStep<Ip>): Gate<Ip>
    requires GateEnabled(g, step)
  {
    match step
    case Arrive(kind, a) => Gate(Recording(g.logs, a), g.permits, Arrived(g, kind, a))
    case Ask(t) =>
      if g.permits == 0 then g.(tasks := g.tasks[t := g.tasks[t].(stage := Refused)])
      else Gate(g.logs, g.permits - 1, g.tasks[t := g.tasks[t].(stage := Handshaking)])
    case Settle(t, how) => g.(tasks := g.tasks[t := g.tasks[t].(stage := Settled(how))])
    case DropPermit(t) => Gate(g.logs, g.permits + 1, g.tasks[t := ReleasedTo(g.tasks[t], Released)])
    case ReturnEarly(t) => Gate(g.logs, g.permits + 1, g.tasks[t := ReleasedTo(g.tasks[t], Done)])
    case Finish(t) => g.(tasks := g.tasks[t := g.tasks[t].(stage := Done)])
  }

  function ReleasedTo(task: Task, stage: Stage): Task
  {
    task.(stage := stage, releases := task.releases + 1)
  }

  predicate HoldsPermit(task: Task)
  {
    task.stage.Handshaking? || task.stage.Settled?
  }

  function Holders(tasks: seq<Task>): nat
  {
    if tasks == [] then 0 else Holders(tasks[..|tasks| - 1]) + if HoldsPermit(tasks[|tasks| - 1]) then 1 else 0
  }

  lemma {:induction false} HoldersUpdate(tasks: seq<Task>, t: nat, task: Task)
    requires t < |tasks|
    ensures Holders(tasks[t := task]) + (if HoldsPermit(tasks[t]) then 1 else 0)
         == Holders(tasks) + (if HoldsPermit(task) then 1 else 0)
  {
    var n := |tasks| - 1;
    if t < n {
      HoldersUpdate(tasks[..n], t, task);
      assert tasks[t := task][..n] == tasks[..n][t := task];
    } else {
      assert tasks[t := task][..n] == tasks[..n];
    }
  }

  lemma HoldersSnoc(tasks: seq<Task>, task: Task)
    ensures Holders(tasks + [task]) == Holders(tasks) + if HoldsPermit(task) then 1 else 0
  {
    assert (tasks + [task])[..|tasks|] == tasks;
  }

  /** A permit is given back exactly once by a task that got one, and not before. */
  predicate ReleasedOnce(task: Task)
  {
    task.releases == if task.stage.Released? || task.stage.Done? then 1 else 0
  }

  ghost predicate Conserved(permits: nat, tasks: seq<Task>)
  {
    && permits + Holders(tasks) == MAX_CONCURRENT_HANDSHAKES
    && forall t :: 0 <= t < |tasks| ==> ReleasedOnce(tasks[t])
  }

  lemma GateStepConserves<Ip>(g: Gate<Ip>, step: GateStep<Ip>)
    requires Conserved(g.permits, g.tasks) && GateEnabled(g, step)
    ensures Conserved(GateApply(g, step).permits, GateApply(g, step).tasks)
  {
    if step.Arrive? {
      HoldersSnoc(g.tasks, Task(step.kind, Asking, 0));
    } else {
      OneTaskGoesOn(g, step);
      TaskStepConserves(g.permits, g.tasks, step.task, GateApply(g, step).permits, GateApply(g, step).tasks[step.task]);
    }
  }

  lemma OneTaskGoesOn<Ip>(g: Gate<Ip>, step: GateStep<Ip>)
    requires GateEnabled(g, step) && !step.Arrive?
    ensures var next := GateApply(g, step); var task := next.tasks[step.task];
      && step.task < |g.tasks| && next.tasks == g.tasks[step.task := task]
      && (ReleasedOnce(g.tasks[step.task]) ==> ReleasedOnce(task))
      && next.permits + (if HoldsPermit(task) then 1 else 0)
         == g.permits + (if HoldsPermit(g.tasks[step.task]) then 1 else 0)
  {
  }

  /** One task goes on, and the free permits change by what it takes or gives back. */
  lemma TaskStepConserves(permits: nat, tasks: seq<Task>, t: nat, permits': nat, task: Task)
    requires Conserved(permits, tasks) && t < |tasks| && (ReleasedOnce(tasks[t]) ==> ReleasedOnce(task))
    requires permits' + (if HoldsPermit(task) then 1 else 0) == permits + (if HoldsPermit(tasks[t]) then 1 else 0)
    ensures Conserved(permits', tasks[t := task])
  {
    HoldersUpdate(tasks, t, task);
  }

  /** The state a run from the open gate ends in, if every step of it could be taken. */
  function GateRun<Ip(==)>(steps: seq<GateStep<Ip>>): Option<Gate<Ip>>
  {
    if steps == [] then Some(Gate(map[], MAX_CONCURRENT_HANDSHAKES, []))
    else
      match GateRun(steps[..|steps| - 1])
      case Some(g) => if GateEnabled(g, steps[|steps| - 1]) then Some(GateApply(g, steps[|steps| - 1])) else None
      case None => None
  }

  /** The attempts of a run. */
  function Attempts<Ip>(steps: seq<GateStep<Ip>>): seq<Attempt<Ip>>
  {
    if steps == [] then []
    else Attempts(steps[..|steps| - 1]) + if steps[|steps| - 1].Arrive? then [steps[|steps| - 1].attempt] else []
  }

  /**
   * Over every interleaving of control, data and UDP tasks: free permits and permit holders add up to 64, so no more
   * than 64 handshakes run; a task gives its permit back exactly once, on success, error and timeout; and the windows
   * are those of the naive limiter for the attempts of the run.
   */
  lemma {:induction false} PermitsConserved<Ip>(steps: seq<GateStep<Ip>>)
    requires GateRun(steps).Some?
    ensures var g := GateRun(steps).value;
      && Conserved(g.permits, g.tasks) && Holders(g.tasks) <= MAX_CONCURRENT_HANDSHAKES
      && g.logs == Logs(Attempts(steps))
  {
    if steps != [] {
      var earlier, last := steps[..|steps| - 1], steps[|steps| - 1];
      PermitsConserved(earlier);
      GateStepConserves(GateRun(earlier).value, last);
      WindowsFollow(GateRun(earlier).value, Attempts(earlier), last);
    }
  }

  lemma WindowsFollow<Ip>(g: Gate<Ip>, attempts: seq<Attempt<Ip>>, step: GateStep<Ip>)
    requires GateEnabled(g, step) && g.logs == Logs(attempts)
    ensures GateApply(g, step).logs == Logs(attempts + if step.Arrive? then [step.attempt] else [])
  {
    if step.Arrive? {
      LogsSnoc(attempts, step.attempt);
    } else {
      assert attempts + [] == attempts;
    }
  }

  /** How far a task still has to go. */
  function Ahead(stage: Stage): nat
  {
    match stage
    case Asking => 4
    case Handshaking => 3
    case Settled(_) => 2
    case Released => 1
    case _ => 0
  }

  function NextStep<Ip>(task: Task, t: nat, how: HandshakeEnd): GateStep<Ip>
  {
    match task.stage
    case Asking => Ask(t)
    case Handshaking => Settle(t, how)
    case Settled(_) => if DropsExplicitly(task) then DropPermit(t) else ReturnEarly(t)
    case _ => Finish(t)
  }

  /**
   * No path of a task ends with the permit in its hands: whatever the handshake's result, and in every state, a task
   * that is not through has a next step of its own, and it gets through in at most four of them, refused or with its
   * permit given back once.
   */
  lemma EveryPathReleases<Ip>(g: Gate<Ip>, t: nat, how: HandshakeEnd)
    requires Conserved(g.permits, g.tasks) && t < |g.tasks|
    ensures Ahead(g.tasks[t].stage) == 0 ==>
              !HoldsPermit(g.tasks[t]) && g.tasks[t].releases == if g.tasks[t].stage.Refused? then 0 else 1
    ensures Ahead(g.tasks[t].stage) > 0 ==>
              && GateEnabled(g, NextStep(g.tasks[t], t, how))
              && Ahead(GateApply(g, NextStep(g.tasks[t], t, how)).tasks[t].stage) < Ahead(g.tasks[t].stage)
  {
    assert ReleasedOnce(g.tasks[t]);
  }

  class HandshakeLimiter<Ip(==, !new)> {
    var permits: nat
    var perIp: map<Ip, seq<int>>
    /** The tasks that have asked for a permit; a permit is known by its task's number. */
    ghost var tasks: seq<Task>
    /** Every call so far, the naive limiter's logs of them, and the clock at the last one. */
    ghost var trace: seq<Attempt<Ip>>
    ghost var logs: map<Ip, seq<int>>
    ghost var latest: int

    ghost function Model(): Gate<Ip>
      reads this`logs, this`permits, this`tasks
    {
      Gate(logs, permits, tasks)
    }

    ghost predicate WindowsValid()
      reads this`perIp, this`logs, this`trace, this`latest
    {
      Faithful(perIp, logs, latest - WINDOW) && Represents(logs, trace, latest)
    }

    ghost predicate PermitsValid()
      reads this`permits, this`tasks
    {
      Conserved(permits, tasks)
    }

    /** Task `t` is of this kind and at this stage. */
    ghost predicate At(t: nat, kind: Kind, stage: Stage)
      reads this`tasks
    {
      t < |tasks| && tasks[t].kind == kind && tasks[t].stage == stage
    }

    constructor ()
      ensures WindowsValid() && PermitsValid() && tasks == [] && trace == []
      ensures GateRun<Ip>([]) == Some(Model())
    {
      permits := MAX_CONCURRENT_HANDSHAKES;
      perIp := map[];
      tasks, trace, logs, latest := [], [], map[], 0;
    }

    /** The section under the per-address lock. Its answer is the naive limiter's. */
    method RecordAttempt(ip: Ip, now: int, later: int) returns (admitted: bool)
      requires WindowsValid() && latest <= now <= later
      modifies this`perIp, this`trace, this`logs, this`latest
      ensures WindowsValid() && latest == later
      ensures trace == old(trace) + [Attempt(ip, now, later)] && logs == Recording(old(logs), Attempt(ip, now, later))
      ensures admitted <==> Admits(LogOf(old(logs), ip), now)
      ensures var kept := Pruned(LogOf(old(perIp), ip), now - WINDOW);
        perIp == old(perIp)[ip := if admitted then kept + [later] else kept]
    {
      var attempt := Attempt(ip, now, later);
      DecisionMade(perIp, logs, trace, latest, attempt);
      var attempts := Prune(LogOf(perIp, ip), now - WINDOW);
      admitted := |attempts| < MAX_ATTEMPTS_PER_WINDOW;
      if admitted {
        attempts := attempts + [later];
      }
      assert attempts == Kept(Pruned(LogOf(perIp, ip), now - WINDOW), later);
      StoreAttempts(attempt, attempts);
    }

    method StoreAttempts(a: Attempt<Ip>, attempts: seq<int>)
      requires Faithful(perIp[a.ip := attempts], Recording(logs, a), a.later - WINDOW)
      requires Represents(Recording(logs, a), trace + [a], a.later)
      modifies this`perIp, this`trace, this`logs, this`latest
      ensures WindowsValid() && latest == a.later
      ensures perIp == old(perIp)[a.ip := attempts] && trace == old(trace) + [a] && logs == Recording(old(logs), a)
    {
      perIp := perIp[a.ip := attempts];
      trace, logs, latest := trace + [a], Recording(logs, a), a.later;
    }

    /** The section on the semaphore. */
    method TakePermit(ghost t: nat) returns (ok: bool)
      requires PermitsValid() && t < |tasks| && tasks[t].stage.Asking?
      modifies this`permits, this`tasks
      ensures PermitsValid() && ok == (Holders(old(tasks)) < MAX_CONCURRENT_HANDSHAKES)
      ensures Model() == GateApply(old(Model()), Ask(t))
      ensures tasks[t].stage == if ok then Handshaking else Refused
    {
      GateStepConserves(Model(), Ask(t));
      ok := permits > 0;
      if ok {
        permits := permits - 1;
      }
      tasks := tasks[t := tasks[t].(stage := if ok then Handshaking else Refused)];
    }

    /** Both sections in turn: an attempt refused for want of a permit has still been recorded. */
    method TryAcquire(kind: Kind, ip: Ip, now: int, later: int) returns (granted: bool, ghost t: nat)
      requires WindowsValid() && PermitsValid() && latest <= now <= later
      modifies this
      ensures WindowsValid() && PermitsValid() && latest == later
      ensures trace == old(trace) + [Attempt(ip, now, later)]
      ensures granted <==> Admits(LogOf(old(logs), ip), now) && Holders(old(tasks)) < MAX_CONCURRENT_HANDSHAKES
      ensures granted ==> t == |old(tasks)| && tasks == old(tasks) + [Task(kind, Handshaking, 0)] && permits == old(permits) - 1
      ensures !granted ==> permits == old(permits) && Holders(tasks) == Holders(old(tasks))
      ensures logs == Recording(old(logs), Attempt(ip, now, later))
      ensures var arrived := GateApply(old(Model()), Arrive(kind, Attempt(ip, now, later)));
        Model() == if Admits(LogOf(old(logs), ip), now) then GateApply(arrived, Ask(|old(tasks)|)) else arrived
    {
      granted := RecordAttempt(ip, now, later);
      t := |tasks|;
      if granted {
        granted := AskForPermit(kind);
      }
    }

    /** An admitted attempt goes on to the semaphore. */
    method AskForPermit(kind: Kind) returns (ok: bool)
      requires PermitsValid()
      modifies this`permits, this`tasks
      ensures PermitsValid() && ok == (Holders(old(tasks)) < MAX_CONCURRENT_HANDSHAKES)
      ensures ok ==> tasks == old(tasks) + [Task(kind, Handshaking, 0)] && permits == old(permits) - 1
      ensures !ok ==> tasks == old(tasks) + [Task(kind, Refused, 0)] && permits == old(permits)
      ensures !ok ==> Holders(tasks) == Holders(old(tasks))
      ensures Model() == GateApply(Gate(logs, old(permits), old(tasks) + [Task(kind, Asking, 0)]), Ask(|old(tasks)|))
    {
      ghost var before := tasks;
      Admit(kind);
      ok := TakePermit(|before|);
      assert tasks == before + [Task(kind, if ok then Handshaking else Refused, 0)];
    }

    ghost method Admit(kind: Kind)
      requires PermitsValid()
      modifies this`tasks
      ensures PermitsValid() && tasks == old(tasks) + [Task(kind, Asking, 0)] && Holders(tasks) == Holders(old(tasks))
    {
      HoldersSnoc(tasks, Task(kind, Asking, 0));
      tasks := tasks + [Task(kind, Asking, 0)];
    }

    /** Giving a permit back, by an explicit drop or with the scope it was in. */
    method ReleasePermit(ghost t: nat)
      requires PermitsValid() && t < |tasks| && tasks[t].stage.Settled?
      modifies this`permits, this`tasks
      ensures PermitsValid() && permits == old(permits) + 1
      ensures Model() == GateApply(old(Model()), if DropsExplicitly(old(tasks)[t]) then DropPermit(t) else ReturnEarly(t))
    {
      ghost var step: GateStep<Ip> := if DropsExplicitly(tasks[t]) then DropPermit(t) else ReturnEarly(t);
      GateStepConserves(Model(), step);
      permits := permits + 1;
      tasks := tasks[t := ReleasedTo(tasks[t], if DropsExplicitly(tasks[t]) then Released else Done)];
    }

    ghost method Move(step: GateStep<Ip>)
      requires PermitsValid() && GateEnabled(Model(), step) && (step.Settle? || step.Finish?)
      modifies this`tasks
      ensures PermitsValid() && Model() == GateApply(old(Model()), step)
    {
      GateStepConserves(Model(), step);
      tasks := GateApply(Model(), step).tasks;
    }

    /** The spawned part of the control accept loop: the permit is dropped before the result is looked at. */
    method ServeControl(ghost t: nat, how: HandshakeEnd) returns (report: Report)
      requires PermitsValid() && At(t, Control, Handshaking)
      modifies this`permits, this`tasks
      ensures PermitsValid() && permits == old(permits) + 1 && tasks == old(tasks)[t := Task(Control, Done, 1)]
      ensures report == match how case Matched => Served case Failed => HandshakeFailed case TimedOut => HandshakeTimedOut
    {
      assert ReleasedOnce(tasks[t]);
      Move(Settle(t, how));
      ReleasePermit(t);
      Move(Finish(t));
      match how
      case Matched => report := Served;
      case Failed => report := HandshakeFailed;
      case TimedOut => report := HandshakeTimedOut;
    }

    /**
     * A data connection: on a failed or late handshake the function returns, and the permit goes with it; otherwise the
     * permit is dropped before the hello is awaited, which may fail or be late in its turn.
     */
    method ServeData(ghost t: nat, how: HandshakeEnd, hello: HandshakeEnd) returns (report: Report)
      requires PermitsValid() && At(t, Data, Handshaking)
      modifies this`permits, this`tasks
      ensures PermitsValid() && permits == old(permits) + 1 && tasks == old(tasks)[t := Task(Data, Done, 1)]
      ensures report ==
              if how.Failed? then HandshakeFailed else if how.TimedOut? then HandshakeTimedOut
              else if hello.Failed? then HelloFailed else if hello.TimedOut? then HelloTimedOut else Served
    {
      assert ReleasedOnce(tasks[t]);
      Move(Settle(t, how));
      match how {
        case Failed =>
          ReleasePermit(t);
          return HandshakeFailed;
        case TimedOut =>
          ReleasePermit(t);
          return HandshakeTimedOut;
        case Matched =>
      }
      ReleasePermit(t);
      Move(Finish(t));
      match hello {
        case Failed => return HelloFailed;
        case TimedOut => return HelloTimedOut;
        case Matched => return Served;
      }
    }

    /**
     * The UDP server on a datagram from a new source, with a limiter of its own: no permit, no matching peer and a match
     * all leave every permit where it was.
     */
    method AdmitDatagram(noise: Noise, message: seq<Byte>, peers: seq<Peer>, ip: Ip, now: int, later: int)
      returns (peer: Option<nat>)
      requires WindowsValid() && PermitsValid() && latest <= now <= later
      modifies this
      ensures WindowsValid() && PermitsValid() && permits == old(permits)
      ensures peer == if Admits(LogOf(old(logs), ip), now) && Holders(old(tasks)) < MAX_CONCURRENT_HANDSHAKES
                      then FirstMatch(noise, message, peers) else None
      ensures logs == Recording(old(logs), Attempt(ip, now, later))
    {
      ghost var t;
      var granted;
      granted, t := TryAcquire(Udp, ip, now, later);
      if !granted {
        return None;
      }
      peer := MatchDatagram(t, noise, message, peers);
    }

    /** The part that holds the permit: it falls out of scope without a match and is dropped with one. */
    method MatchDatagram(ghost t: nat, noise: Noise, message: seq<Byte>, peers: seq<Peer>) returns (peer: Option<nat>)
      requires PermitsValid() && At(t, Udp, Handshaking)
      modifies this`permits, this`tasks
      ensures PermitsValid() && permits == old(permits) + 1 && tasks == old(tasks)[t := Task(Udp, Done, 1)]
      ensures peer == FirstMatch(noise, message, peers)
    {
      assert ReleasedOnce(tasks[t]);
      peer := MatchPeerBytes(noise, message, peers);
      Move(Settle(t, if peer.Some? then Matched else Failed));
      if peer.None? {
        ReleasePermit(t);
        return None;
      }
      ReleasePermit(t);
      Move(Finish(t));
    }
  }

  /** How a connection's task ends, as far as handshake and hello decide it. */
  datatype Report = Served | HandshakeFailed | HandshakeTimedOut | HelloFailed | HelloTimedOut
}

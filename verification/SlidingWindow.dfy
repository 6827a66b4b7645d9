/**
 * Sliding windows kept as pruned deques, shared by the handshake limiter
 * (crates/ghostport-core/src/ratelimit.rs) and the failure tracker (crates/ghostport-firewall/src/detector.rs):
 * a deque stands for the whole log of an address minus a prefix that no later window reaches.
 */
module SlidingWindow {
  import opened Common

  /** How many entries of a log are at or after `cutoff`. */
  function CountSince(log: seq<int>, cutoff: int): nat
  {
    if log == [] then 0 else (if log[0] >= cutoff then 1 else 0) + CountSince(log[1..], cutoff)
  }

  ghost predicate Sorted(log: seq<int>)
  {
    forall i, j :: 0 <= i < j < |log| ==> log[i] <= log[j]
  }

  /** Counting a sorted log from its end: everything after the first entry that is recent enough. */
  lemma {:induction false} CountOfSuffix(log: seq<int>, k: nat, cutoff: int)
    requires k <= |log|
    requires forall i :: 0 <= i < k ==> log[i] < cutoff
    requires forall i :: k <= i < |log| ==> log[i] >= cutoff
    ensures CountSince(log, cutoff) == |log| - k
  {
    if log != [] {
      CountOfSuffix(log[1..], if k == 0 then 0 else k - 1, cutoff);
    }
  }

  /** First position of a sorted log at or after `cutoff`. */
  function Recent(log: seq<int>, cutoff: int): (k: nat)
    requires Sorted(log)
    ensures k <= |log|
    ensures forall i :: 0 <= i < k ==> log[i] < cutoff
    ensures forall i :: k <= i < |log| ==> log[i] >= cutoff
  {
    if log == [] || log[0] >= cutoff then 0 else 1 + Recent(log[1..], cutoff)
  }

  function LogOf<Ip(==)>(logs: map<Ip, seq<int>>, ip: Ip): seq<int>
  {
    if ip in logs then logs[ip] else []
  }

  /** `deque` is `log` without some leading entries, all older than `cutoff`. */
  ghost predicate DequeOf(log: seq<int>, deque: seq<int>, cutoff: int)
  {
    log == deque || (log != [] && log[0] < cutoff && DequeOf(log[1..], deque, cutoff))
  }

  /** Every address's deque stands for its log. */
  ghost predicate Faithful<Ip(!new)>(deques: map<Ip, seq<int>>, logs: map<Ip, seq<int>>, cutoff: int)
  {
    forall ip :: (ip in deques <==> ip in logs) && (ip in logs ==> DequeOf(logs[ip], deques[ip], cutoff))
  }

  lemma FaithfulAt<Ip(!new)>(deques: map<Ip, seq<int>>, logs: map<Ip, seq<int>>, cutoff: int, ip: Ip)
    requires Faithful(deques, logs, cutoff)
    ensures DequeOf(LogOf(logs, ip), LogOf(deques, ip), cutoff)
  {
  }

  /** A deque without its leading entries older than `cutoff`. */
  function Pruned(deque: seq<int>, cutoff: int): seq<int>
  {
    if deque != [] && deque[0] < cutoff then Pruned(deque[1..], cutoff) else deque
  }

  method Prune(deque: seq<int>, cutoff: int) returns (kept: seq<int>)
    ensures kept == Pruned(deque, cutoff)
  {
    kept := deque;
    while kept != [] && kept[0] < cutoff
      invariant Pruned(kept, cutoff) == Pruned(deque, cutoff)
      decreases |kept|
    {
      kept := kept[1..];
    }
  }

  /** Pruning leaves as many entries as the whole log has since the cutoff, and still represents the log. */
  lemma {:induction false} PrunedDeque(log: seq<int>, deque: seq<int>, before: int, cutoff: int)
    requires DequeOf(log, deque, before) && Sorted(log) && before <= cutoff
    ensures DequeOf(log, Pruned(deque, cutoff), cutoff) && |Pruned(deque, cutoff)| == CountSince(log, cutoff)
  {
    if log != [] && log[0] < cutoff {
      if log == deque {
        PrunedDeque(log[1..], deque[1..], before, cutoff);
      } else {
        PrunedDeque(log[1..], deque, before, cutoff);
      }
    } else {
      CountOfSuffix(log, 0, cutoff);
    }
  }

  lemma {:induction false} DequePushed(log: seq<int>, deque: seq<int>, cutoff: int, t: int)
    requires DequeOf(log, deque, cutoff)
    ensures DequeOf(log + [t], deque + [t], cutoff)
  {
    if log != deque {
      assert (log + [t])[1..] == log[1..] + [t];
      DequePushed(log[1..], deque, cutoff, t);
    }
  }

  lemma {:induction false} DequeAges(log: seq<int>, deque: seq<int>, before: int, cutoff: int)
    requires DequeOf(log, deque, before) && before <= cutoff
    ensures DequeOf(log, deque, cutoff)
  {
    if log != deque {
      DequeAges(log[1..], deque, before, cutoff);
    }
  }

  /** Replacing one address's deque and log leaves the others representing theirs. */
  lemma FaithfulStep<Ip(!new)>(deques: map<Ip, seq<int>>, logs: map<Ip, seq<int>>, before: int, ip: Ip,
                               deque: seq<int>, log: seq<int>, cutoff: int)
    requires Faithful(deques, logs, before) && before <= cutoff && DequeOf(log, deque, cutoff)
    ensures Faithful(deques[ip := deque], logs[ip := log], cutoff)
  {
    forall other | other in logs && other != ip
      ensures DequeOf(logs[other], deques[other], cutoff)
    {
      DequeAges(logs[other], deques[other], before, cutoff);
    }
  }
}

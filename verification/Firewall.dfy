/**
 * Ban decisions: the failure tracker (crates/ghostport-firewall/src/detector.rs) and the decision loop
 * (crates/ghostport-firewall/src/main.rs).
 */
module Firewall {
  import opened Common
  import opened SlidingWindow
  import opened Addresses

  datatype Offense = RateLimited | HandshakeFailed

  /** One received offense, with the clock at the moment the loop handles it. */
  datatype Event = Event(ip: IpAddr, offense: Offense, now: int)

  datatype Policy = Policy(window: nat, threshold: nat, allowlist: seq<IpAddr>)

  datatype Decision = Protected | Allowlisted | Tolerated | Banned

  // ----- The decisions, from the events alone -----

  /** Addresses the loop passes over before looking at the offense. */
  predicate Exempt(p: Policy, ip: IpAddr)
    requires IsIp(ip)
  {
    IsNeverBannable(ip) || ip in p.allowlist
  }

  ghost predicate RealIps(events: seq<Event>)
  {
    forall i :: 0 <= i < |events| ==> IsIp(events[i].ip)
  }

  predicate InOrder(events: seq<Event>, i: nat, j: nat)
    requires i < |events| && j < |events|
  {
    events[i].now <= events[j].now
  }

  /** The clock does not run backwards from one event to a later one. */
  ghost predicate WellTimed(events: seq<Event>)
  {
    RealIps(events) && forall i, j {:trigger InOrder(events, i, j)} :: 0 <= i < j < |events| ==> InOrder(events, i, j)
  }

  lemma SpanTimed(events: seq<Event>, b: nat, j: nat)
    requires WellTimed(events) && b <= j <= |events|
    ensures WellTimed(events[b..j])
  {
    var span := events[b..j];
    forall m, n | 0 <= m < n < |span|
      ensures InOrder(span, m, n)
    {
      assert InOrder(events, b + m, b + n);
    }
  }

  /** Times of the failures of `ip` since its last ban: the tracker's memory, were it never pruned. */
  function Unforgiven(p: Policy, events: seq<Event>, ip: IpAddr): seq<int>
    requires IsIp(ip)
  {
    if events == [] then []
    else
      var earlier, last := Unforgiven(p, events[..|events| - 1], ip), events[|events| - 1];
      if last.ip != ip || Exempt(p, ip) then earlier
      else if last.offense.RateLimited? || Crosses(p, earlier, last.now) then []
      else earlier + [last.now]
  }

  /** One more failure at `now` brings the number of those still in the window to the threshold. */
  predicate Crosses(p: Policy, failures: seq<int>, now: int)
  {
    CountSince(failures + [now], now - p.window) == p.threshold
  }

  /** What the loop does with the event at position `n`. */
  function DecisionAt(p: Policy, events: seq<Event>, n: nat): Decision
    requires n < |events| && IsIp(events[n].ip)
  {
    var e := events[n];
    if IsNeverBannable(e.ip) then Protected
    else if e.ip in p.allowlist then Allowlisted
    else if e.offense.RateLimited? || Crosses(p, Unforgiven(p, events[..n], e.ip), e.now) then Banned
    else Tolerated
  }

  predicate IsFailureOf(e: Event, ip: IpAddr)
  {
    e.ip == ip && e.offense.HandshakeFailed?
  }

  /** Times of all handshake failures of `ip`. */
  function Failures(events: seq<Event>, ip: IpAddr): seq<int>
  {
    if events == [] then []
    else
      Failures(events[..|events| - 1], ip)
      + if IsFailureOf(events[|events| - 1], ip) then [events[|events| - 1].now] else []
  }

  /** The event at `n` makes the loop ban `ip`. */
  predicate BansAt(p: Policy, events: seq<Event>, ip: IpAddr, n: nat)
    requires n < |events| && IsIp(events[n].ip)
  {
    events[n].ip == ip && DecisionAt(p, events, n).Banned?
  }

  /** No event from `i` up to `j` made the loop ban `ip`. */
  ghost predicate NoBan(p: Policy, events: seq<Event>, ip: IpAddr, i: nat, j: nat)
    requires j <= |events| && RealIps(events)
  {
    forall n {:trigger BansAt(p, events, ip, n)} :: i <= n < j ==> !BansAt(p, events, ip, n)
  }

  // ----- Failures since the last ban -----

  lemma {:induction false} FailuresTimed(events: seq<Event>, ip: IpAddr)
    requires WellTimed(events)
    ensures Sorted(Failures(events, ip))
    ensures forall k :: 0 <= k < |Failures(events, ip)| ==> Failures(events, ip)[k] <= events[|events| - 1].now
  {
    if events != [] {
      var n := |events| - 1;
      SpanTimed(events, 0, n);
      assert events[0..n] == events[..n];
      FailuresTimed(events[..n], ip);
      assert n > 0 ==> InOrder(events, n - 1, n);
    }
  }

  /** A failure of the event at `n` is appended to any span of events that ends before it. */
  lemma FailuresSnoc(events: seq<Event>, ip: IpAddr, i: nat, n: nat)
    requires i <= n < |events|
    ensures Failures(events[i..n + 1], ip)
         == Failures(events[i..n], ip) + if IsFailureOf(events[n], ip) then [events[n].now] else []
  {
    assert events[i..n + 1][..n - i] == events[i..n];
  }

  lemma {:induction false} FailuresSplit(events: seq<Event>, ip: IpAddr, i: nat)
    requires i <= |events|
    ensures Failures(events, ip) == Failures(events[..i], ip) + Failures(events[i..], ip)
  {
    var m := |events| - 1;
    if i == |events| {
      assert events[..i] == events;
    } else {
      FailuresSplit(events[..m], ip, i);
      assert events[..m][..i] == events[..i] && events[..m][i..] == events[i..m];
      FailuresSnoc(events, ip, i, m);
      assert events[i..m + 1] == events[i..];
    }
  }

  lemma UnforgivenStep(p: Policy, events: seq<Event>, ip: IpAddr, n: nat)
    requires RealIps(events) && n < |events| && IsIp(ip) && !Exempt(p, ip)
    ensures Unforgiven(p, events[..n + 1], ip) ==
            if BansAt(p, events, ip, n) then []
            else Unforgiven(p, events[..n], ip) + if IsFailureOf(events[n], ip) then [events[n].now] else []
  {
    assert events[..n + 1][..n] == events[..n];
  }

  /** The memory of an address starts afresh after its last ban. */
  lemma {:induction false} UnforgivenSinceLastBan(p: Policy, events: seq<Event>, ip: IpAddr, j: nat) returns (b: nat)
    requires RealIps(events) && j <= |events| && IsIp(ip) && !Exempt(p, ip)
    ensures b <= j && NoBan(p, events, ip, b, j)
    ensures Unforgiven(p, events[..j], ip) == Failures(events[b..j], ip)
    ensures b > 0 ==> BansAt(p, events, ip, b - 1)
  {
    if j == 0 {
      b := 0;
    } else if BansAt(p, events, ip, j - 1) {
      b := j;
      UnforgivenStep(p, events, ip, j - 1);
      assert events[b..j] == [];
    } else {
      b := UnforgivenSinceLastBan(p, events, ip, j - 1);
      NoBanStep(p, events, ip, b, j - 1);
    }
  }

  lemma NoBanStep(p: Policy, events: seq<Event>, ip: IpAddr, b: nat, n: nat)
    requires RealIps(events) && b <= n < |events| && IsIp(ip) && !Exempt(p, ip)
    requires NoBan(p, events, ip, b, n) && !BansAt(p, events, ip, n)
    requires Unforgiven(p, events[..n], ip) == Failures(events[b..n], ip)
    ensures NoBan(p, events, ip, b, n + 1)
    ensures Unforgiven(p, events[..n + 1], ip) == Failures(events[b..n + 1], ip)
  {
    UnforgivenStep(p, events, ip, n);
    FailuresSnoc(events, ip, b, n);
  }

  lemma {:induction false} CountSplit(more: seq<int>, times: seq<int>, cutoff: int)
    ensures CountSince(more + times, cutoff) == CountSince(more, cutoff) + CountSince(times, cutoff)
  {
    if more == [] {
      assert more + times == times;
    } else {
      assert (more + times)[1..] == more[1..] + times;
      CountSplit(more[1..], times, cutoff);
    }
  }

  lemma WindowCount(times: seq<int>, more: seq<int>, cutoff: int)
    requires forall k :: 0 <= k < |times| ==> times[k] >= cutoff
    ensures CountSince(more + times, cutoff) >= |times|
  {
    CountSplit(more, times, cutoff);
    CountOfSuffix(times, 0, cutoff);
  }

  /** Between events the tracker holds fewer failures in the window than the threshold. */
  lemma {:induction false} AlwaysBelowThreshold(p: Policy, events: seq<Event>, ip: IpAddr, cutoff: int)
    requires WellTimed(events) && IsIp(ip) && p.threshold >= 1
    requires events != [] ==> cutoff >= events[|events| - 1].now - p.window
    ensures CountSince(Unforgiven(p, events, ip), cutoff) < p.threshold
  {
    if events != [] {
      var earlier, last := events[..|events| - 1], events[|events| - 1];
      SpanTimed(events, 0, |events| - 1);
      assert events[0..|events| - 1] == earlier;
      assert |earlier| > 0 ==> InOrder(events, |events| - 2, |events| - 1);
      AlwaysBelowThreshold(p, earlier, ip, cutoff);
      if last.ip == ip && !Exempt(p, ip) && last.offense.HandshakeFailed? {
        var failures := Unforgiven(p, earlier, ip);
        AlwaysBelowThreshold(p, earlier, ip, last.now - p.window);
        CountSplit(failures, [last.now], last.now - p.window);
        CountShrinks(failures + [last.now], last.now - p.window, cutoff);
      }
    }
  }

  lemma {:induction false} CountShrinks(log: seq<int>, before: int, cutoff: int)
    requires before <= cutoff
    ensures CountSince(log, cutoff) <= CountSince(log, before) <= |log|
  {
    if log != [] {
      CountShrinks(log[1..], before, cutoff);
    }
  }

  // ----- Soundness and completeness of the bans -----

  /** The events from `i` to `j` hold exactly `threshold` failures of `ip`, all of them in the window that ends at `j`. */
  ghost predicate Streak(p: Policy, events: seq<Event>, ip: IpAddr, i: nat, j: nat)
    requires i <= j < |events|
  {
    var failures := Failures(events[i..j + 1], ip);
    && |failures| == p.threshold
    && forall k :: 0 <= k < |failures| ==> failures[k] >= events[j].now - p.window
  }

  /** `ip` was not banned from `i` to `j`, and then had its streak. */
  ghost predicate FreshStreak(p: Policy, events: seq<Event>, ip: IpAddr, i: nat, j: nat)
    requires j < |events| && RealIps(events)
  {
    i <= j && NoBan(p, events, ip, i, j) && Streak(p, events, ip, i, j)
  }

  /** The last failures of a span of events are the failures of a later span. */
  lemma {:induction false} LastFailures(events: seq<Event>, ip: IpAddr, b: nat, j: nat, k: nat) returns (i: nat)
    requires b <= j <= |events| && k <= |Failures(events[b..j], ip)|
    ensures b <= i <= j && Failures(events[i..j], ip) == Failures(events[b..j], ip)[k..]
    decreases j - b
  {
    if k == 0 {
      i := b;
    } else if b < j {
      FailuresSplit(events[b..j], ip, 1);
      assert events[b..j][1..] == events[b + 1..j];
      assert events[b..j][..1] == [events[b]];
      var one := Failures([events[b]], ip);
      assert |one| <= 1 by {
        assert [events[b]][..0] == [];
      }
      i := LastFailures(events, ip, b + 1, j, k - |one|);
    } else {
      assert false;
    }
  }

  /**
   * The loop bans exactly those addresses that are neither protected nor allowlisted and either were rate-limited by
   * the daemon or have had `threshold` failures, since their last ban, within the window.
   */
  lemma BannedIffDeserved(p: Policy, events: seq<Event>, j: nat)
    requires WellTimed(events) && j < |events|
    ensures DecisionAt(p, events, j).Banned? <==>
              && !IsNeverBannable(events[j].ip)
              && events[j].ip !in p.allowlist
              && (|| events[j].offense.RateLimited?
                  || exists i :: FreshStreak(p, events, events[j].ip, i, j))
  {
    var e := events[j];
    if !Exempt(p, e.ip) && e.offense.HandshakeFailed? {
      if DecisionAt(p, events, j).Banned? {
        BanIsSound(p, events, j);
      }
      if i :| FreshStreak(p, events, e.ip, i, j) {
        StreakIsBanned(p, events, i, j);
      }
    }
  }

  lemma BanIsSound(p: Policy, events: seq<Event>, j: nat)
    requires WellTimed(events) && j < |events| && events[j].offense.HandshakeFailed? && DecisionAt(p, events, j).Banned?
    ensures exists i :: FreshStreak(p, events, events[j].ip, i, j)
  {
    var ip := events[j].ip;
    var b := UnforgivenSinceLastBan(p, events, ip, j);
    FailuresSnoc(events, ip, b, j);
    var i := StreakInSpan(p, events, ip, b, j);
    assert FreshStreak(p, events, ip, i, j);
  }

  /** A span whose failures in the window number the threshold ends in a streak. */
  lemma StreakInSpan(p: Policy, events: seq<Event>, ip: IpAddr, b: nat, j: nat) returns (i: nat)
    requires WellTimed(events) && b <= j < |events| && IsFailureOf(events[j], ip)
    requires CountSince(Failures(events[b..j + 1], ip), events[j].now - p.window) == p.threshold
    ensures b <= i <= j && Streak(p, events, ip, i, j)
  {
    var all := Failures(events[b..j + 1], ip);
    var k := RecentFailures(events, ip, b, j + 1, events[j].now - p.window);
    FailuresSnoc(events, ip, b, j);
    assert all[|all| - 1] == events[j].now;
    i := LastFailures(events, ip, b, j + 1, k);
    assert events[j + 1..j + 1] == [];
  }

  /** The failures of a span that lie in the window are the last ones. */
  lemma RecentFailures(events: seq<Event>, ip: IpAddr, b: nat, j: nat, cutoff: int) returns (k: nat)
    requires WellTimed(events) && b <= j <= |events|
    ensures var all := Failures(events[b..j], ip);
      && k + CountSince(all, cutoff) == |all|
      && (forall n :: 0 <= n < k ==> all[n] < cutoff)
      && (forall n :: k <= n < |all| ==> all[n] >= cutoff)
  {
    SpanTimed(events, b, j);
    FailuresTimed(events[b..j], ip);
    k := Recent(Failures(events[b..j], ip), cutoff);
    CountOfSuffix(Failures(events[b..j], ip), k, cutoff);
  }

  lemma StreakIsBanned(p: Policy, events: seq<Event>, i: nat, j: nat)
    requires WellTimed(events) && j < |events| && events[j].offense.HandshakeFailed? && !Exempt(p, events[j].ip)
    requires FreshStreak(p, events, events[j].ip, i, j)
    ensures DecisionAt(p, events, j).Banned?
  {
    var e := events[j];
    var b := UnforgivenSinceLastBan(p, events, e.ip, j);
    assert b <= i;
    FailuresSnoc(events, e.ip, b, j);
    FailuresSnoc(events, e.ip, i, j);
    var cutoff := e.now - p.window;
    StreakCounts(p, events, e.ip, b, i, j);
    SpanTimed(events, 0, j);
    assert events[0..j] == events[..j];
    assert j > 0 ==> InOrder(events, j - 1, j);
    AlwaysBelowThreshold(p, events[..j], e.ip, cutoff);
    CountSplit(Unforgiven(p, events[..j], e.ip), [e.now], cutoff);
  }

  /** A streak still counts when earlier failures are added in front of it. */
  lemma StreakCounts(p: Policy, events: seq<Event>, ip: IpAddr, b: nat, i: nat, j: nat)
    requires b <= i <= j < |events| && Streak(p, events, ip, i, j)
    ensures CountSince(Failures(events[b..j + 1], ip), events[j].now - p.window) >= p.threshold
  {
    FailuresSplit(events[b..j + 1], ip, i - b);
    assert events[b..j + 1][i - b..] == events[i..j + 1];
    WindowCount(Failures(events[i..j + 1], ip), Failures(events[b..j + 1][..i - b], ip), events[j].now - p.window);
  }

  /** With a threshold of zero failed handshakes never lead to a ban: the failure at hand is one already. */
  lemma ZeroThresholdNeverBansFailures(p: Policy, events: seq<Event>, j: nat)
    requires RealIps(events) && j < |events| && p.threshold == 0 && events[j].offense.HandshakeFailed?
    ensures !DecisionAt(p, events, j).Banned?
  {
    var e := events[j];
    CountSplit(Unforgiven(p, events[..j], e.ip), [e.now], e.now - p.window);
  }

  // ----- Budget and isolation -----

  /** How often handshake failures made the loop ban `ip`. */
  function HandshakeBans(p: Policy, events: seq<Event>, ip: IpAddr): nat
    requires IsIp(ip)
  {
    if events == [] then 0
    else
      HandshakeBans(p, events[..|events| - 1], ip)
      + if IsFailureOf(events[|events| - 1], ip) && DecisionAt(p, events, |events| - 1).Banned? then 1 else 0
  }

  /** Every such ban is paid for with `threshold` failures that no other ban has used. */
  lemma {:induction false} BansArePaidFor(p: Policy, events: seq<Event>, ip: IpAddr)
    requires IsIp(ip)
    ensures HandshakeBans(p, events, ip) * p.threshold + |Unforgiven(p, events, ip)| <= |Failures(events, ip)|
  {
    if events != [] {
      var earlier, last := events[..|events| - 1], events[|events| - 1];
      BansArePaidFor(p, earlier, ip);
      var bans, failures := HandshakeBans(p, earlier, ip), Unforgiven(p, earlier, ip);
      if IsFailureOf(last, ip) && DecisionAt(p, events, |events| - 1).Banned? {
        CrossingCosts(p, failures, last.now);
        OneMoreBan(bans, p.threshold, |failures|, |Failures(earlier, ip)|);
      }
    }
  }

  lemma CrossingCosts(p: Policy, failures: seq<int>, now: int)
    requires Crosses(p, failures, now)
    ensures p.threshold <= |failures| + 1
  {
    CountShrinks(failures + [now], now - p.window, now - p.window);
  }

  lemma OneMoreBan(bans: nat, threshold: nat, unforgiven: nat, failures: nat)
    requires bans * threshold + unforgiven <= failures && threshold <= unforgiven + 1
    ensures (bans + 1) * threshold <= failures + 1
  {
  }

  /** The events about one address. */
  function Own(events: seq<Event>, ip: IpAddr): seq<Event>
  {
    if events == [] then []
    else Own(events[..|events| - 1], ip) + if events[|events| - 1].ip == ip then [events[|events| - 1]] else []
  }

  /** What the tracker remembers of an address depends on that address's own events only. */
  lemma {:induction false} OthersDoNotMatter(p: Policy, events: seq<Event>, ip: IpAddr)
    requires IsIp(ip)
    ensures Unforgiven(p, events, ip) == Unforgiven(p, Own(events, ip), ip)
  {
    if events != [] {
      var earlier, last := events[..|events| - 1], events[|events| - 1];
      OthersDoNotMatter(p, earlier, ip);
      if last.ip == ip {
        assert Own(events, ip) == Own(earlier, ip) + [last];
        assert (Own(earlier, ip) + [last])[..|Own(earlier, ip)|] == Own(earlier, ip);
      } else {
        assert Own(events, ip) == Own(earlier, ip);
      }
    }
  }

  // ----- The tracker by itself -----

  /** The tracker's deque after one more failure. */
  function AfterRecord(deque: seq<int>, now: int, window: nat): seq<int>
  {
    Pruned(deque + [now], now - window)
  }

  /** Times in order, none after `t`. */
  ghost predicate Ascending(log: seq<int>, t: int)
  {
    log == [] || (Ascending(log[..|log| - 1], log[|log| - 1]) && log[|log| - 1] <= t)
  }

  lemma {:induction false} AscendingSorted(log: seq<int>, t: int)
    requires Ascending(log, t)
    ensures Sorted(log) && forall k :: 0 <= k < |log| ==> log[k] <= t
  {
    if log != [] {
      AscendingSorted(log[..|log| - 1], log[|log| - 1]);
    }
  }

  ghost predicate AllAscending(logs: map<IpAddr, seq<int>>, t: int)
  {
    forall ip :: ip in logs ==> Ascending(logs[ip], t)
  }

  lemma RecordFaithful(deques: map<IpAddr, seq<int>>, logs: map<IpAddr, seq<int>>, latest: int, window: nat,
                       ip: IpAddr, now: int, log: seq<int>, deque: seq<int>, kept: seq<int>)
    requires Faithful(deques, logs, latest - window) && AllAscending(logs, latest) && latest <= now
    requires log == LogOf(logs, ip) && deque == LogOf(deques, ip) && kept == AfterRecord(deque, now, window)
    ensures |kept| == CountSince(log + [now], now - window) && |kept| <= |deque| + 1
    ensures Faithful(deques[ip := kept], logs[ip := log + [now]], now - window)
    ensures AllAscending(logs[ip := log + [now]], now)
  {
    FaithfulAt(deques, logs, latest - window, ip);
    OneRecordFaithful(log, deque, latest, window, now, kept);
    FaithfulStep(deques, logs, latest - window, ip, kept, log + [now], now - window);
    AscendingStep(logs, latest, ip, log + [now], now);
  }

  lemma AscendingStep(logs: map<IpAddr, seq<int>>, latest: int, ip: IpAddr, log: seq<int>, now: int)
    requires AllAscending(logs, latest) && latest <= now && Ascending(log, now)
    ensures AllAscending(logs[ip := log], now)
  {
  }

  lemma OneRecordFaithful(log: seq<int>, deque: seq<int>, latest: int, window: nat, now: int, kept: seq<int>)
    requires DequeOf(log, deque, latest - window) && Ascending(log, latest) && latest <= now
    requires kept == AfterRecord(deque, now, window)
    ensures |kept| == CountSince(log + [now], now - window) && |kept| <= |deque| + 1
    ensures DequeOf(log + [now], kept, now - window) && Ascending(log + [now], now)
  {
    AscendingPushed(log, latest, now);
    DequePushed(log, deque, latest - window, now);
    AscendingPruned(log + [now], deque + [now], latest - window, now - window, now);
    PrunedShorter(deque + [now], now - window);
  }

  lemma AscendingPushed(log: seq<int>, latest: int, now: int)
    requires Ascending(log, latest) && latest <= now
    ensures Ascending(log + [now], now)
  {
    assert (log + [now])[..|log|] == log;
  }

  lemma AscendingPruned(log: seq<int>, deque: seq<int>, before: int, cutoff: int, t: int)
    requires DequeOf(log, deque, before) && Ascending(log, t) && before <= cutoff
    ensures DequeOf(log, Pruned(deque, cutoff), cutoff) && |Pruned(deque, cutoff)| == CountSince(log, cutoff)
  {
    AscendingSorted(log, t);
    PrunedDeque(log, deque, before, cutoff);
  }

  lemma {:induction false} PrunedShorter(deque: seq<int>, cutoff: int)
    ensures |Pruned(deque, cutoff)| <= |deque|
  {
    if deque != [] {
      PrunedShorter(deque[1..], cutoff);
    }
  }

  /**
   * `record` answers true exactly on the step from under the threshold to it within the window, however much of the
   * address's log has been pruned from its deque before.
   */
  lemma FiresOnTransition(log: seq<int>, deque: seq<int>, latest: int, window: nat, threshold: nat, now: int)
    requires DequeOf(log, deque, latest - window) && Ascending(log, latest) && latest <= now
    ensures |AfterRecord(deque, now, window)| == threshold <==>
              CountSince(log, now - window) < threshold <= CountSince(log + [now], now - window)
  {
    OneRecordFaithful(log, deque, latest, window, now, AfterRecord(deque, now, window));
    CountSplit(log, [now], now - window);
  }

  /** The failure at position `n` makes the tracker fire. */
  predicate FiresAt(times: seq<int>, window: nat, threshold: nat, n: nat)
    requires n < |times|
  {
    CountSince(times[..n + 1], times[n] - window) == threshold
  }

  /** When the failure at `n` comes, those before it that lie in its window are fewer than the threshold. */
  predicate Under(times: seq<int>, window: nat, threshold: nat, n: nat)
    requires n < |times|
  {
    CountSince(times[..n], times[n] - window) < threshold
  }

  /**
   * Exactly once a streak: at a failure that finds or brings the window at or over the threshold, there is one failure
   * that began the streak by firing, and since then the window has not been under the threshold and nothing has fired.
   */
  lemma {:induction false} FiresOncePerStreak(times: seq<int>, window: nat, threshold: nat, j: nat) returns (i: nat)
    requires Sorted(times) && threshold >= 1 && j < |times|
    requires CountSince(times[..j + 1], times[j] - window) >= threshold
    ensures i <= j && Under(times, window, threshold, i) && FiresAt(times, window, threshold, i)
    ensures forall n :: i < n <= j ==> !Under(times, window, threshold, n) && !FiresAt(times, window, threshold, n)
  {
    OneMoreInWindow(times, window, j);
    assert times[..0] == [];
    if Under(times, window, threshold, j) {
      i := j;
    } else {
      CountShrinks(times[..j], times[j - 1] - window, times[j] - window);
      i := FiresOncePerStreak(times, window, threshold, j - 1);
    }
  }

  lemma OneMoreInWindow(times: seq<int>, window: nat, n: nat)
    requires n < |times|
    ensures CountSince(times[..n + 1], times[n] - window) == CountSince(times[..n], times[n] - window) + 1
  {
    assert times[..n + 1] == times[..n] + [times[n]];
    CountSplit(times[..n], [times[n]], times[n] - window);
  }

  class FailureTracker {
    const window: nat
    const threshold: nat
    var history: map<IpAddr, seq<int>>
    /** Every failure since an address was last forgotten, and the clock at the last call. */
    ghost var logs: map<IpAddr, seq<int>>
    ghost var latest: int

    ghost predicate Valid()
      reads this
    {
      Faithful(history, logs, latest - window) && AllAscending(logs, latest)
    }

    constructor (window: nat, threshold: nat, now: int)
      ensures Valid() && logs == map[] && history == map[] && latest == now
      ensures this.window == window && this.threshold == threshold
    {
      this.window, this.threshold := window, threshold;
      history, logs, latest := map[], map[], now;
    }

    /** Fires when the failures in the window, this one included, number exactly the threshold. */
    method Record(ip: IpAddr, now: int) returns (fires: bool, ghost kept: seq<int>)
      requires Valid() && latest <= now
      modifies this
      ensures Valid() && latest == now
      ensures logs == old(logs)[ip := LogOf(old(logs), ip) + [now]]
      ensures fires <==> CountSince(LogOf(old(logs), ip) + [now], now - window) == threshold
      ensures history == old(history)[ip := kept]
      ensures |kept| <= |LogOf(old(history), ip)| + 1 && (fires <==> |kept| == threshold)
    {
      var entry := Prune(LogOf(history, ip) + [now], now - window);
      ghost var failures := LogOf(logs, ip) + [now];
      RecordFaithful(history, logs, latest, window, ip, now, LogOf(logs, ip), LogOf(history, ip), entry);
      kept, fires := entry, |entry| == threshold;
      Replace(ip, entry, failures, now);
    }

    method Replace(ip: IpAddr, entry: seq<int>, ghost failures: seq<int>, ghost now: int)
      requires Faithful(history[ip := entry], logs[ip := failures], now - window) && AllAscending(logs[ip := failures], now)
      modifies this
      ensures Valid() && latest == now
      ensures history == old(history)[ip := entry] && logs == old(logs)[ip := failures]
    {
      history, logs, latest := history[ip := entry], logs[ip := failures], now;
    }

    method Forget(ip: IpAddr)
      requires Valid()
      modifies this`history, this`logs
      ensures Valid()
      ensures logs == old(logs) - {ip} && history == old(history) - {ip}
    {
      history, logs := history - {ip}, logs - {ip};
    }
  }

  /** The tracker's memory is that of the events handled so far. */
  ghost predicate Remembers(p: Policy, logs: map<IpAddr, seq<int>>, events: seq<Event>)
  {
    forall ip :: IsIp(ip) ==> LogOf(logs, ip) == Unforgiven(p, events, ip)
  }

  ghost predicate AllShort(p: Policy, history: map<IpAddr, seq<int>>)
  {
    forall ip :: ip in history ==> |history[ip]| < p.threshold
  }

  lemma ShortAfterRecord(p: Policy, history: map<IpAddr, seq<int>>, ip: IpAddr, kept: seq<int>)
    requires p.threshold >= 1 ==> AllShort(p, history)
    ensures p.threshold >= 1 && |kept| < p.threshold ==> AllShort(p, history[ip := kept])
    ensures p.threshold >= 1 ==> AllShort(p, history[ip := kept] - {ip})
    ensures p.threshold >= 1 ==> AllShort(p, history - {ip})
    ensures p.threshold >= 1 ==> |LogOf(history, ip)| < p.threshold
  {
  }

  /** The memory follows one event, given what the loop did with it. */
  lemma RemembersStep(p: Policy, logs: map<IpAddr, seq<int>>, events: seq<Event>, n: nat, after: map<IpAddr, seq<int>>)
    requires RealIps(events) && n < |events| && Remembers(p, logs, events[..n])
    requires var e := events[n];
      after == match DecisionAt(p, events, n)
               case Banned => logs - {e.ip}
               case Tolerated => logs[e.ip := LogOf(logs, e.ip) + [e.now]]
               case _ => logs
    ensures Remembers(p, after, events[..n + 1])
  {
    assert events[..n + 1][..n] == events[..n];
  }

  /** The decisions on the first `n` events. */
  function Decisions(p: Policy, events: seq<Event>, n: nat): (r: seq<Decision>)
    requires n <= |events| && forall i :: 0 <= i < n ==> IsIp(events[i].ip)
    ensures |r| == n
  {
    if n == 0 then [] else Decisions(p, events, n - 1) + [DecisionAt(p, events, n - 1)]
  }

  lemma {:induction false} DecisionsEach(p: Policy, events: seq<Event>, n: nat)
    requires n <= |events| && RealIps(events)
    ensures forall i :: 0 <= i < n ==> Decisions(p, events, n)[i] == DecisionAt(p, events, i)
  {
    if n > 0 {
      DecisionsEach(p, events, n - 1);
    }
  }

  /**
   * The receive loop of the firewall. Its decisions are those the events call for, and with a threshold of at least
   * one no deque is ever as long as the threshold between events.
   */
  method RunDaemon(p: Policy, events: seq<Event>) returns (decisions: seq<Decision>, tracker: FailureTracker)
    requires WellTimed(events)
    ensures |decisions| == |events|
    ensures forall n :: 0 <= n < |events| ==> decisions[n] == DecisionAt(p, events, n)
    ensures tracker.Valid() && Remembers(p, tracker.logs, events)
    ensures p.threshold >= 1 ==> AllShort(p, tracker.history)
  {
    tracker := new FailureTracker(p.window, p.threshold, if events == [] then 0 else events[0].now);
    decisions := [];
    while |decisions| < |events|
      invariant |decisions| <= |events| && decisions == Decisions(p, events, |decisions|)
      invariant fresh(tracker) && tracker.Valid() && tracker.window == p.window && tracker.threshold == p.threshold
      invariant |decisions| < |events| ==> tracker.latest <= events[|decisions|].now
      invariant Remembers(p, tracker.logs, events[..|decisions|])
      invariant p.threshold >= 1 ==> AllShort(p, tracker.history)
    {
      ghost var logs, n := tracker.logs, |decisions|;
      var decision := HandleEvent(p, events[|decisions|], tracker, events[..|decisions|]);
      assert decision == DecisionAt(p, events, n);
      RemembersStep(p, logs, events, n, tracker.logs);
      decisions := decisions + [decision];
      assert n + 1 < |events| ==> InOrder(events, n, n + 1);
    }
    assert events[..|events|] == events;
    DecisionsEach(p, events, |events|);
  }

  /** Whether the offense calls for a ban; a failed handshake is recorded first. */
  method ShouldBan(p: Policy, e: Event, tracker: FailureTracker) returns (ban: bool)
    requires tracker.Valid() && tracker.latest <= e.now
    requires tracker.window == p.window && tracker.threshold == p.threshold
    requires p.threshold >= 1 ==> AllShort(p, tracker.history)
    modifies tracker
    ensures tracker.Valid() && tracker.latest <= e.now
    ensures ban <==> e.offense.RateLimited? || Crosses(p, LogOf(old(tracker.logs), e.ip), e.now)
    ensures p.threshold >= 1 ==> AllShort(p, if ban then tracker.history - {e.ip} else tracker.history)
    ensures tracker.logs == if e.offense.RateLimited? then old(tracker.logs)
                            else old(tracker.logs)[e.ip := LogOf(old(tracker.logs), e.ip) + [e.now]]
  {
    ban := true;
    ghost var history := tracker.history;
    if e.offense.HandshakeFailed? {
      ghost var kept;
      ban, kept := tracker.Record(e.ip, e.now);
      ShortAfterRecord(p, history, e.ip, kept);
    }
  }

  /** The loop's body. */
  method HandleEvent(p: Policy, e: Event, tracker: FailureTracker, ghost earlier: seq<Event>) returns (decision: Decision)
    requires IsIp(e.ip) && tracker.Valid() && tracker.latest <= e.now
    requires tracker.window == p.window && tracker.threshold == p.threshold
    requires Remembers(p, tracker.logs, earlier) && (p.threshold >= 1 ==> AllShort(p, tracker.history))
    modifies tracker
    ensures tracker.Valid() && tracker.latest <= e.now
    ensures p.threshold >= 1 ==> AllShort(p, tracker.history)
    ensures decision ==
            if IsNeverBannable(e.ip) then Protected
            else if e.ip in p.allowlist then Allowlisted
            else if e.offense.RateLimited? || Crosses(p, Unforgiven(p, earlier, e.ip), e.now) then Banned
            else Tolerated
    ensures tracker.logs ==
            match decision
            case Banned => old(tracker.logs) - {e.ip}
            case Tolerated => old(tracker.logs)[e.ip := LogOf(old(tracker.logs), e.ip) + [e.now]]
            case _ => old(tracker.logs)
  {
    if IsNeverBannable(e.ip) {
      return Protected;
    }
    if e.ip in p.allowlist {
      return Allowlisted;
    }
    var shouldBan := ShouldBan(p, e, tracker);
    if shouldBan {
      tracker.Forget(e.ip);
      decision := Banned;
    } else {
      decision := Tolerated;
    }
  }
}

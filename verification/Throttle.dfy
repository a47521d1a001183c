// src/lib/recoveryThrottle.ts: decisions taken from the audit log of failed
// attempts.  Times are whole milliseconds.
module Throttle {
  import opened Wrappers
  import opened Bits
  import opened Text

  const FREE_FAILURES := 5
  const ACCOUNT_WINDOW := 15 * 60_000
  const BASE_DELAY := 30_000
  const MAX_DELAY := 15 * 60_000
  const IP_MAX_FAILURES := 20
  const IP_WINDOW := 60 * 60_000

  datatype Scope = NoScope | ACCOUNT | IP
  datatype Decision = Decision(blocked: bool, retryAfterSeconds: int, scope: Scope)
  const ALLOWED := Decision(false, 0, NoScope)

  function Min(a: int, b: int): int { if a <= b then a else b }

  /** Math.ceil(ms / 1000) for a positive number of milliseconds. */
  function Seconds(ms: int): int { (ms + 999) / 1000 }

  function Delay(failures: int): int
    requires failures >= FREE_FAILURES
  {
    Min(BASE_DELAY * Pow2(Min(failures - FREE_FAILURES, 20)), MAX_DELAY)
  }

  function AccountDecision(failures: int, last: Option<int>, now: int): Decision {
    if failures < FREE_FAILURES || last.None? then ALLOWED
    else
      var delay := Delay(failures);
      var remaining := Min(last.value + delay - now, delay);
      if remaining > 0 then Decision(true, Seconds(remaining), ACCOUNT) else ALLOWED
  }

  function IpDecision(failures: int, releasing: Option<int>, now: int): Decision {
    if failures < IP_MAX_FAILURES || releasing.None? then ALLOWED
    else
      var remaining := Min(releasing.value + IP_WINDOW - now, IP_WINDOW);
      if remaining > 0 then Decision(true, Seconds(remaining), IP) else ALLOWED
  }

  function Combine(a: Decision, b: Decision): Decision {
    if a.blocked && b.blocked then if a.retryAfterSeconds >= b.retryAfterSeconds then a else b
    else if a.blocked then a else b
  }

  // ------------------------------------------------------------------ the log

  datatype Event = CODE_VERIFICATION | PASSKEY_VERIFICATION | ATTEMPT_THROTTLED | REAUTH_FAILED | OTHER
  datatype Record = Record(event: Event, failure: bool, subject: Option<string>, user: Option<string>,
                           ip: Option<string>, at: int)

  /** What a count is taken over: an email's hash, an IP address, or a signed-in user. */
  datatype Where = Account(subject: string) | Address(ip: string) | Reauth(user: string)

  predicate Counted(r: Record) { r.event in {CODE_VERIFICATION, PASSKEY_VERIFICATION} && r.failure }

  predicate Matches(w: Where, r: Record) {
    match w
    case Account(s) => Counted(r) && r.subject == Some(s)
    case Address(ip) => Counted(r) && r.ip == Some(ip)
    case Reauth(u) => r.event == REAUTH_FAILED && r.user == Some(u)
  }

  /** The times of the matching rows, in log order. */
  function Times(log: seq<Record>, w: Where): seq<int> {
    if log == [] then []
    else Times(log[..|log| - 1], w) + if Matches(w, log[|log| - 1]) then [log[|log| - 1].at] else []
  }

  function Since(ts: seq<int>, since: int): seq<int> {
    if ts == [] then []
    else Since(ts[..|ts| - 1], since) + if ts[|ts| - 1] >= since then [ts[|ts| - 1]] else []
  }

  function Latest(ts: seq<int>): Option<int> {
    if ts == [] then None
    else
      var before := Latest(ts[..|ts| - 1]);
      if before.Some? && before.value >= ts[|ts| - 1] then before else Some(ts[|ts| - 1])
  }

  function InsertTime(ts: seq<int>, t: int): (r: seq<int>)
    ensures |r| == |ts| + 1
  {
    if ts == [] || ts[|ts| - 1] <= t then ts + [t] else InsertTime(ts[..|ts| - 1], t) + [ts[|ts| - 1]]
  }

  /** orderBy createdAt asc. */
  function Sorted(ts: seq<int>): (r: seq<int>)
    ensures |r| == |ts|
  {
    if ts == [] then [] else InsertTime(Sorted(ts[..|ts| - 1]), ts[|ts| - 1])
  }

  function AccountOf(ts: seq<int>, now: int): Decision {
    var recent := Since(ts, now - ACCOUNT_WINDOW);
    AccountDecision(|recent|, Latest(recent), now)
  }

  function IpOf(ts: seq<int>, now: int): Decision { IpOfRecent(Sorted(Since(ts, now - IP_WINDOW)), now) }

  /** From the failures of the last hour, oldest first. */
  function IpOfRecent(recent: seq<int>, now: int): Decision {
    IpDecision(|recent|, if |recent| >= IP_MAX_FAILURES then Some(recent[|recent| - IP_MAX_FAILURES]) else None, now)
  }

  /** An absent or empty subject or address is not checked. */
  function Check(log: seq<Record>, subject: Option<string>, ip: Option<string>, now: int): Decision {
    Combine(if Given(subject) then AccountOf(Times(log, Account(subject.value)), now) else ALLOWED,
            if Given(ip) then IpOf(Times(log, Address(ip.value)), now) else ALLOWED)
  }

  // ------------------------------------------------------- facts about the lists

  predicate AtMost(ts: seq<int>, t: int) { forall x | x in ts :: x <= t }

  predicate Ascending(ts: seq<int>) {
    ts != [] ==> Ascending(ts[..|ts| - 1]) && AtMost(ts[..|ts| - 1], ts[|ts| - 1])
  }

  lemma {:induction false} AscendingSnoc(ts: seq<int>, t: int)
    ensures Ascending(ts + [t]) <==> Ascending(ts) && AtMost(ts, t)
  {
    assert (ts + [t])[..|ts|] == ts;
  }

  lemma {:induction false} InsertTimeFacts(ts: seq<int>, t: int)
    requires Ascending(ts)
    ensures Ascending(InsertTime(ts, t))
    ensures forall x :: x in InsertTime(ts, t) <==> x in ts || x == t
    decreases |ts|
  {
    if ts == [] {
      AscendingSnoc(ts, t);
    } else {
      var front, last := ts[..|ts| - 1], ts[|ts| - 1];
      assert ts == front + [last];
      if last <= t {
        AscendingSnoc(ts, t);
      } else {
        InsertTimeFacts(front, t);
        AscendingSnoc(InsertTime(front, t), last);
      }
    }
  }

  lemma {:induction false} SortedFacts(ts: seq<int>)
    ensures Ascending(Sorted(ts))
    ensures forall x :: x in Sorted(ts) <==> x in ts
    decreases |ts|
  {
    if ts != [] {
      SortedFacts(ts[..|ts| - 1]);
      InsertTimeFacts(Sorted(ts[..|ts| - 1]), ts[|ts| - 1]);
      assert ts == ts[..|ts| - 1] + [ts[|ts| - 1]];
    }
  }

  lemma {:induction false} SinceSnoc(ts: seq<int>, t: int, since: int)
    ensures Since(ts + [t], since) == Since(ts, since) + if t >= since then [t] else []
  {
    assert (ts + [t])[..|ts|] == ts;
  }

  lemma {:induction false} InsertSnoc(ts: seq<int>, last: int, t: int)
    ensures InsertTime(ts + [last], t) == if last <= t then ts + [last] + [t] else InsertTime(ts, t) + [last]
  {
    assert (ts + [last])[..|ts|] == ts;
  }

  lemma {:induction false} SinceFacts(ts: seq<int>, since: int)
    ensures forall x :: x in Since(ts, since) <==> x in ts && x >= since
    decreases |ts|
  {
    if ts != [] {
      SinceFacts(ts[..|ts| - 1], since);
      assert ts == ts[..|ts| - 1] + [ts[|ts| - 1]];
    }
  }

  /** Of an ascending list, the recent part is its tail. */
  lemma {:induction false} SinceTail(ts: seq<int>, since: int)
    requires Ascending(ts)
    ensures var n := |Since(ts, since)|;
            n <= |ts| && Since(ts, since) == ts[|ts| - n..] && (n < |ts| ==> ts[|ts| - n - 1] < since)
    decreases |ts|
  {
    hide Since;
    if ts == [] {
      SinceNone(ts, since);
    } else {
      var front, last := ts[..|ts| - 1], ts[|ts| - 1];
      assert ts == front + [last];
      SinceSnoc(front, last, since);
      if last < since {
        assert forall i | 0 <= i < |front| :: front[i] in front;
        SinceNone(front, since);
      } else {
        SinceTail(front, since);
        var n := |Since(front, since)|;
        assert ts[|ts| - (n + 1)..] == front[|front| - n..] + [last];
      }
    }
  }

  lemma {:induction false} SinceNone(ts: seq<int>, since: int)
    requires forall i | 0 <= i < |ts| :: ts[i] < since
    ensures Since(ts, since) == []
    decreases |ts|
  {
    if ts != [] {
      SinceNone(ts[..|ts| - 1], since);
    }
  }

  lemma {:induction false} SinceInsert(ts: seq<int>, t: int, since: int)
    requires Ascending(ts)
    ensures Since(InsertTime(ts, t), since) ==
            if t >= since then InsertTime(Since(ts, since), t) else Since(ts, since)
    decreases |ts|
  {
    if ts == [] || ts[|ts| - 1] <= t {
      SinceSnoc(ts, t, since);
      SinceTail(ts, since);
    } else {
      var front, last := ts[..|ts| - 1], ts[|ts| - 1];
      assert ts == front + [last];
      SinceInsert(front, t, since);
      SinceSnoc(InsertTime(front, t), last, since);
      SinceSnoc(front, last, since);
      InsertSnoc(Since(front, since), last, t);
    }
  }

  lemma {:induction false} SortedSnoc(ts: seq<int>, t: int)
    ensures Sorted(ts + [t]) == InsertTime(Sorted(ts), t)
  {
    assert (ts + [t])[..|ts|] == ts;
  }

  /** Filtering by time and sorting commute. */
  lemma {:induction false} SinceSorted(ts: seq<int>, since: int)
    ensures Since(Sorted(ts), since) == Sorted(Since(ts, since))
    decreases |ts|
  {
    if ts != [] {
      var front := ts[..|ts| - 1];
      SinceSorted(front, since);
      SortedFacts(front);
      SinceInsert(Sorted(front), ts[|ts| - 1], since);
      SortedSnoc(Since(front, since), ts[|ts| - 1]);
      assert Since(front, since) + [] == Since(front, since);
    }
  }

  lemma {:induction false} LatestFacts(ts: seq<int>)
    ensures Latest(ts).Some? <==> ts != []
    ensures forall x | x in ts :: x <= Latest(ts).value
    ensures ts != [] ==> Latest(ts).value in ts
    decreases |ts|
  {
    if ts != [] {
      var front := ts[..|ts| - 1];
      LatestFacts(front);
      assert ts == front + [ts[|ts| - 1]];
      assert Latest(front).Some? ==> Latest(front).value in front;
    }
  }

  lemma {:induction false} SinceShrinks(ts: seq<int>, a: int, b: int)
    requires a <= b
    ensures |Since(ts, b)| <= |Since(ts, a)|
    decreases |ts|
  {
    if ts != [] {
      SinceShrinks(ts[..|ts| - 1], a, b);
    }
  }

  lemma {:induction false} Pow2Monotone(a: nat, b: nat)
    requires a <= b
    ensures 1 <= Pow2(a) <= Pow2(b)
  {
    if a < b {
      Pow2Monotone(a, b - 1);
    } else if a > 0 {
      Pow2Monotone(a - 1, b - 1);
    }
  }

  lemma {:induction false} DelayMonotone(a: int, b: int)
    requires FREE_FAILURES <= a <= b
    ensures 0 < Delay(a) <= Delay(b) <= MAX_DELAY
  {
    Pow2Monotone(Min(a - FREE_FAILURES, 20), Min(b - FREE_FAILURES, 20));
  }

  lemma {:induction false} Delays()
    ensures Delay(5) == 30_000 && Delay(6) == 60_000 && Delay(7) == 120_000 && Delay(8) == 240_000 && Delay(9) == 480_000
  {
    assert Pow2(0) == 1 && Pow2(1) == 2 && Pow2(2) == 4;
    assert Pow2(3) == 2 * Pow2(2) && Pow2(4) == 2 * Pow2(3);
  }

  // ----------------------------------------------------------- what the decisions say

  /** An account is blocked exactly until its latest failure plus the delay its recent failures earn. */
  lemma {:induction false} AccountBlockedExactly(ts: seq<int>, now: int)
    ensures var recent := Since(ts, now - ACCOUNT_WINDOW);
            AccountOf(ts, now).blocked <==>
            |recent| >= FREE_FAILURES && Latest(recent).Some? && now < Latest(recent).value + Delay(|recent|)
    ensures var recent := Since(ts, now - ACCOUNT_WINDOW);
            AccountOf(ts, now).blocked <==>
            |recent| >= FREE_FAILURES && exists last :: last in recent && AtMost(recent, last) && now < last + Delay(|recent|)
  {
    var recent := Since(ts, now - ACCOUNT_WINDOW);
    LatestFacts(recent);
    if |recent| >= FREE_FAILURES {
      DelayMonotone(|recent|, |recent|);
    }
  }

  predicate Releasing(recent: seq<int>, all: seq<int>, since: int) {
    && |recent| <= |all|
    && (|recent| >= IP_MAX_FAILURES ==> recent[|recent| - IP_MAX_FAILURES] == all[|all| - IP_MAX_FAILURES])
    && (|recent| < IP_MAX_FAILURES <= |all| ==> all[|all| - IP_MAX_FAILURES] < since)
  }

  /** The row that `skip: count - 20` picks is the 20th failure from the end of the whole log, by time. */
  lemma {:induction false} ReleasingFailure(ts: seq<int>, since: int)
    ensures var recent, all := Sorted(Since(ts, since)), Sorted(ts);
            Releasing(recent, all, since) && (|recent| >= IP_MAX_FAILURES ==> all[|all| - IP_MAX_FAILURES] in ts)
  {
    hide Sorted, Since, Ascending;
    SortedFacts(ts);
    SinceSorted(ts, since);
    PickFromTail(Sorted(ts), since, IP_MAX_FAILURES);
  }

  lemma {:induction false} PickFromTail(all: seq<int>, since: int, n: nat)
    requires Ascending(all) && 0 < n
    ensures var recent := Since(all, since);
            && |recent| <= |all|
            && (|recent| >= n ==> recent[|recent| - n] == all[|all| - n] && all[|all| - n] in all)
            && (|recent| < n <= |all| ==> all[|all| - n] < since)
  {
    SinceTail(all, since);
    var m := |Since(all, since)|;
    if m < n <= |all| {
      AscendingAt(all, |all| - n, |all| - m - 1);
    }
  }

  lemma {:induction false} AscendingAt(ts: seq<int>, i: nat, j: nat)
    requires Ascending(ts) && i <= j < |ts|
    ensures ts[i] <= ts[j]
    decreases |ts|
  {
    if j < |ts| - 1 {
      AscendingAt(ts[..|ts| - 1], i, j);
    } else if i < j {
      assert ts[..|ts| - 1][i] in ts[..|ts| - 1];
    }
  }

  /**
   * An IP is blocked at an instant, whatever the order of the log, exactly
   * when the 20th failure from the end by time is less than an hour old: so
   * that failure's ageing out is the first unblocked instant if nothing new fails.
   */
  lemma {:induction false} IpBlockedExactly(ts: seq<int>, now: int)
    ensures IpOf(ts, now).blocked <==>
            |ts| >= IP_MAX_FAILURES && now < Sorted(ts)[|ts| - IP_MAX_FAILURES] + IP_WINDOW
  {
    ReleasingFailure(ts, now - IP_WINDOW);
    ReleasingDecides(Sorted(Since(ts, now - IP_WINDOW)), Sorted(ts), now);
  }

  lemma {:induction false} ReleasingDecides(recent: seq<int>, all: seq<int>, now: int)
    requires Releasing(recent, all, now - IP_WINDOW)
    ensures IpOfRecent(recent, now).blocked <==>
            |all| >= IP_MAX_FAILURES && now < all[|all| - IP_MAX_FAILURES] + IP_WINDOW
  {
  }

  /** Once an account's own delay has run out it stays unblocked while nothing new fails. */
  lemma {:induction false} AccountStaysOpen(ts: seq<int>, now: int, later: int)
    requires !AccountOf(ts, now).blocked && now <= later
    requires forall x | x in ts :: x <= now
    ensures !AccountOf(ts, later).blocked
  {
    var recent, still := Since(ts, now - ACCOUNT_WINDOW), Since(ts, later - ACCOUNT_WINDOW);
    AccountBlockedExactly(ts, now);
    AccountBlockedExactly(ts, later);
    SinceShrinks(ts, now - ACCOUNT_WINDOW, later - ACCOUNT_WINDOW);
    LatestFacts(recent);
    LatestFacts(still);
    SinceFacts(ts, now - ACCOUNT_WINDOW);
    SinceFacts(ts, later - ACCOUNT_WINDOW);
    if |still| >= FREE_FAILURES {
      DelayMonotone(|still|, |recent|);
    }
  }

  lemma {:induction false} AccountWaited(ts: seq<int>, now: int, later: int)
    requires forall x | x in ts :: x <= now
    requires AccountOf(ts, now).blocked && later >= now + 1000 * AccountOf(ts, now).retryAfterSeconds
    ensures !AccountOf(ts, later).blocked
  {
    var recent, still := Since(ts, now - ACCOUNT_WINDOW), Since(ts, later - ACCOUNT_WINDOW);
    AccountBlockedExactly(ts, later);
    LatestFacts(recent);
    LatestFacts(still);
    SinceFacts(ts, now - ACCOUNT_WINDOW);
    SinceFacts(ts, later - ACCOUNT_WINDOW);
    SinceShrinks(ts, now - ACCOUNT_WINDOW, later - ACCOUNT_WINDOW);
    assert Latest(recent).value <= now;
    if |still| >= FREE_FAILURES {
      DelayMonotone(|still|, |recent|);
    }
  }

  lemma {:induction false} IpWaited(ts: seq<int>, now: int, later: int)
    requires forall x | x in ts :: x <= now
    requires now <= later && (IpOf(ts, now).blocked ==> later >= now + 1000 * IpOf(ts, now).retryAfterSeconds)
    ensures !IpOf(ts, later).blocked
  {
    IpBlockedExactly(ts, now);
    IpBlockedExactly(ts, later);
    ReleasingFailure(ts, now - IP_WINDOW);
  }

  // ------------------------------------------------- when waiting out Retry-After is enough

  /** The recent failures' latest is the latest of all, once any failure is recent. */
  lemma {:induction false} LatestRecent(ts: seq<int>, since: int)
    ensures Since(ts, since) != [] ==> ts != [] && Latest(Since(ts, since)) == Latest(ts)
    ensures ts != [] && Latest(ts).value >= since ==> Since(ts, since) != []
  {
    LatestFacts(ts);
    LatestFacts(Since(ts, since));
    SinceFacts(ts, since);
  }

  /**
   * Retry-After alone unblocks an account exactly when its latest failure is
   * not stamped after the check, or too few failures stay in the window, or
   * those that stay earn a delay that has run out.
   */
  lemma {:induction false} AccountWaitExact(ts: seq<int>, now: int)
    requires AccountOf(ts, now).blocked
    ensures var recent := Since(ts, now - ACCOUNT_WINDOW);
            && |recent| >= FREE_FAILURES && Latest(recent).Some?
            && var delay, last := Delay(|recent|), Latest(recent).value;
               var left := |Since(ts, now + delay - ACCOUNT_WINDOW)|;
               !AccountOf(ts, now + 1000 * AccountOf(ts, now).retryAfterSeconds).blocked <==>
               last <= now || left < FREE_FAILURES || last + Delay(left) <= now + delay
  {
    hide Since, Latest, Pow2;
    var recent := Since(ts, now - ACCOUNT_WINDOW);
    LatestFacts(recent);
    LatestRecent(ts, now - ACCOUNT_WINDOW);
    AccountBlockedExactly(ts, now);
    var delay, last := Delay(|recent|), Latest(recent).value;
    DelayMonotone(|recent|, |recent|);
    if last <= now {
      LatestFacts(ts);
      AccountWaited(ts, now, now + 1000 * AccountOf(ts, now).retryAfterSeconds);
    } else {
      WholeSeconds(|recent|);
      AccountBlockedExactly(ts, now + delay);
      LatestRecent(ts, now + delay - ACCOUNT_WINDOW);
    }
  }

  /** Every delay is a whole number of seconds. */
  lemma {:induction false} WholeSeconds(failures: int)
    requires failures >= FREE_FAILURES
    ensures 1000 * Seconds(Delay(failures)) == Delay(failures)
  {
    var p := Pow2(Min(failures - FREE_FAILURES, 20));
    if BASE_DELAY * p <= MAX_DELAY {
      assert Delay(failures) == 1000 * (30 * p);
    }
  }

  /** Retry-After alone unblocks an address exactly when its releasing failure is not stamped after the check. */
  lemma {:induction false} IpWaitExact(ts: seq<int>, now: int)
    requires IpOf(ts, now).blocked
    ensures |ts| >= IP_MAX_FAILURES
    ensures !IpOf(ts, now + 1000 * IpOf(ts, now).retryAfterSeconds).blocked <==> Sorted(ts)[|ts| - IP_MAX_FAILURES] <= now
  {
    hide Sorted, Since;
    IpBlockedExactly(ts, now);
    IpBlockedExactly(ts, now + 1000 * IpOf(ts, now).retryAfterSeconds);
    ReleasingFailure(ts, now - IP_WINDOW);
  }

  /** What the account's failures must be like for a wait until `later` to unblock it. */
  predicate AccountReleased(ts: seq<int>, now: int, later: int) {
    var left := |Since(ts, later - ACCOUNT_WINDOW)|;
    Latest(ts).None? || Latest(ts).value <= now || left < FREE_FAILURES || Latest(ts).value + Delay(left) <= later
  }

  /** What an address's failures must be like for its own wait to unblock it. */
  predicate IpReleased(ts: seq<int>, now: int) {
    |ts| < IP_MAX_FAILURES || Sorted(ts)[|ts| - IP_MAX_FAILURES] <= now
  }

  lemma {:induction false} AccountPart(ts: seq<int>, now: int, later: int)
    requires now <= later && (AccountOf(ts, now).blocked ==> later >= now + 1000 * AccountOf(ts, now).retryAfterSeconds)
    ensures !AccountOf(ts, later).blocked <==> AccountReleased(ts, now, later)
  {
    hide Since, Latest, Pow2;
    LatestFacts(ts);
    LatestRecent(ts, later - ACCOUNT_WINDOW);
    AccountBlockedExactly(ts, later);
    if Latest(ts).Some? && Latest(ts).value <= now {
      if AccountOf(ts, now).blocked {
        AccountWaited(ts, now, later);
      } else {
        AccountStaysOpen(ts, now, later);
      }
    }
  }

  lemma {:induction false} IpPart(ts: seq<int>, now: int, later: int)
    requires now <= later <= now + IP_WINDOW
    requires IpOf(ts, now).blocked ==> later >= now + 1000 * IpOf(ts, now).retryAfterSeconds
    ensures !IpOf(ts, later).blocked <==> IpReleased(ts, now)
  {
    hide Sorted, Since;
    IpBlockedExactly(ts, now);
    IpBlockedExactly(ts, later);
    ReleasingFailure(ts, now - IP_WINDOW);
  }

  /** The reported wait is the longer of the two scopes' waits and never more than the longest window. */
  lemma {:induction false} RetryCovers(log: seq<Record>, subject: Option<string>, ip: Option<string>, now: int)
    ensures var d := Check(log, subject, ip, now);
            && 0 <= 1000 * d.retryAfterSeconds <= IP_WINDOW
            && (Given(subject) ==> AccountOf(Times(log, Account(subject.value)), now).retryAfterSeconds <= d.retryAfterSeconds)
            && (Given(ip) ==> IpOf(Times(log, Address(ip.value)), now).retryAfterSeconds <= d.retryAfterSeconds)
  {
    hide Since, Sorted, Latest, Times, Pow2;
    if Given(subject) {
      AccountRetryBounded(Times(log, Account(subject.value)), now);
    }
  }

  lemma {:induction false} AccountRetryBounded(ts: seq<int>, now: int)
    ensures 0 <= 1000 * AccountOf(ts, now).retryAfterSeconds <= MAX_DELAY
  {
    hide Since, Latest, Pow2;
    var recent := Since(ts, now - ACCOUNT_WINDOW);
    if |recent| >= FREE_FAILURES {
      DelayMonotone(|recent|, |recent|);
    }
  }

  /**
   * Waiting exactly as long as Retry-After says unblocks the caller if and
   * only if each scope that is checked is released; both conditions can be
   * read off the log at the time of the check.
   */
  lemma {:induction false} RetryAfterExact(log: seq<Record>, subject: Option<string>, ip: Option<string>, now: int)
    ensures var later := now + 1000 * Check(log, subject, ip, now).retryAfterSeconds;
            !Check(log, subject, ip, later).blocked <==>
            && (Given(subject) ==> AccountReleased(Times(log, Account(subject.value)), now, later))
            && (Given(ip) ==> IpReleased(Times(log, Address(ip.value)), now))
  {
    hide Since, Sorted, Latest, Times, Pow2, AccountOf, IpOf, AccountReleased, IpReleased;
    RetryCovers(log, subject, ip, now);
    var later := now + 1000 * Check(log, subject, ip, now).retryAfterSeconds;
    if Given(subject) {
      AccountPart(Times(log, Account(subject.value)), now, later);
    }
    if Given(ip) {
      IpPart(Times(log, Address(ip.value)), now, later);
    }
  }

  /** In particular waiting that long or longer unblocks both scopes when no row of the log is later than the check. */
  lemma {:induction false} WaitingUnblocks(log: seq<Record>, subject: Option<string>, ip: Option<string>, now: int, later: int)
    requires forall i | 0 <= i < |log| :: log[i].at <= now
    requires later >= now + 1000 * Check(log, subject, ip, now).retryAfterSeconds
    ensures !Check(log, subject, ip, later).blocked
  {
    if Given(subject) {
      var ts := Times(log, Account(subject.value));
      TimesOf(log, Account(subject.value));
      if AccountOf(ts, now).blocked {
        AccountWaited(ts, now, later);
      } else {
        RetryNotNegative(log, subject, ip, now);
        AccountStaysOpen(ts, now, later);
      }
    }
    if Given(ip) {
      TimesOf(log, Address(ip.value));
      RetryNotNegative(log, subject, ip, now);
      IpWaited(Times(log, Address(ip.value)), now, later);
    }
  }

  lemma {:induction false} RetryNotNegative(log: seq<Record>, subject: Option<string>, ip: Option<string>, now: int)
    ensures Check(log, subject, ip, now).retryAfterSeconds >= 0
  {
  }

  lemma {:induction false} TimesOf(log: seq<Record>, w: Where)
    ensures forall x | x in Times(log, w) :: exists i :: 0 <= i < |log| && log[i].at == x
    decreases |log|
  {
    if log != [] {
      var front := log[..|log| - 1];
      TimesOf(front, w);
      forall x | x in Times(log, w) ensures exists i :: 0 <= i < |log| && log[i].at == x {
        if x in Times(front, w) {
          var i :| 0 <= i < |front| && front[i].at == x;
          assert log[i].at == x;
        } else {
          assert log[|log| - 1].at == x;
        }
      }
    }
  }

  /** Failures of one account from one address, all stamped a millisecond after `now`. */
  function FutureFailures(n: nat, now: int): (log: seq<Record>)
    ensures |log| == n
  {
    seq(n, _ => Record(CODE_VERIFICATION, true, Some("a"), None, Some("b"), now + 1))
  }

  lemma {:induction false} FutureTimes(n: nat, now: int)
    ensures Times(FutureFailures(n, now), Account("a")) == seq(n, _ => now + 1)
    ensures Times(FutureFailures(n, now), Address("b")) == seq(n, _ => now + 1)
  {
    if n > 0 {
      FutureTimes(n - 1, now);
      assert FutureFailures(n, now)[..n - 1] == FutureFailures(n - 1, now);
      assert seq(n, _ => now + 1) == seq(n - 1, _ => now + 1) + [now + 1];
    }
  }

  /** Five failures stamped after the check: the account is still blocked when the promised 30 seconds are over. */
  lemma {:induction false} ClampUnderstates(now: int)
    ensures Check(FutureFailures(5, now), Some("a"), None, now).retryAfterSeconds == 30
    ensures Check(FutureFailures(5, now), Some("a"), None, now + 30_000).blocked
  {
    var ts := seq(5, _ => now + 1);
    FutureTimes(5, now);
    AllRecent(ts, now - ACCOUNT_WINDOW);
    AllRecent(ts, now + 30_000 - ACCOUNT_WINDOW);
    LatestFacts(ts);
    Delays();
  }

  /** Twenty failures stamped after the check: the address is still blocked when the promised hour is over. */
  lemma {:induction false} IpClampUnderstates(now: int)
    ensures Check(FutureFailures(20, now), None, Some("b"), now).retryAfterSeconds == 3600
    ensures Check(FutureFailures(20, now), None, Some("b"), now + IP_WINDOW).blocked
  {
    hide Sorted, Since;
    var ts := seq(20, _ => now + 1);
    FutureTimes(20, now);
    SortedFacts(ts);
    assert Sorted(ts)[0] in Sorted(ts);
    IpBlockedExactly(ts, now);
    IpBlockedExactly(ts, now + IP_WINDOW);
    ReleasingFailure(ts, now - IP_WINDOW);
  }

  lemma {:induction false} AllRecent(ts: seq<int>, since: int)
    requires forall i | 0 <= i < |ts| :: ts[i] >= since
    ensures Since(ts, since) == ts
    decreases |ts|
  {
    if ts != [] {
      AllRecent(ts[..|ts| - 1], since);
    }
  }
}

// The throttle over whole runs of serialised attempts: the check of one
// attempt never precedes the record of the one before it.
module ThrottleRuns {
  import opened Wrappers
  import opened Text
  import opened Throttle

  const IP_LENGTH := 64

  /** The audit log keeps the first 64 characters of an address. */
  function Truncated(ip: Option<string>): Option<string> {
    if ip.Some? && |ip.value| > IP_LENGTH then Some(ip.value[..IP_LENGTH]) else ip
  }

  /** `now` is when the attempt is checked and `at` when its outcome is recorded. */
  datatype Attempt =
    | Verify(subject: string, user: Option<string>, ip: Option<string>, passkey: bool, genuine: bool, now: int, at: int)
    | Confirm(account: string, genuine: bool, now: int, at: int)     // requireRecentAuth

  function Outcome(log: seq<Record>, a: Attempt): seq<Record> {
    match a
    case Verify(subject, user, ip, passkey, genuine, now, at) =>
      var event := if passkey then PASSKEY_VERIFICATION else CODE_VERIFICATION;
      if Check(log, Some(subject), ip, now).blocked
      then [Record(ATTEMPT_THROTTLED, true, Some(subject), user, Truncated(ip), at)]
      else [Record(event, !genuine, Some(subject), user, Truncated(ip), at)]
    case Confirm(account, genuine, now, at) =>
      if AccountOf(Times(log, Reauth(account)), now).blocked || genuine then []
      else [Record(REAUTH_FAILED, true, None, Some(account), None, at)]
  }

  function LogAfter(attempts: seq<Attempt>): seq<Record> {
    if attempts == [] then []
    else
      var log := LogAfter(attempts[..|attempts| - 1]);
      log + Outcome(log, attempts[|attempts| - 1])
  }

  predicate Serial(attempts: seq<Attempt>) {
    attempts != [] ==>
      && Serial(attempts[..|attempts| - 1])
      && attempts[|attempts| - 1].now <= attempts[|attempts| - 1].at
      && (|attempts| > 1 ==> attempts[|attempts| - 2].at <= attempts[|attempts| - 1].now)
  }

  /** How many of the times lie in a closed interval. */
  function CountIn(ts: seq<int>, from: int, to: int): nat {
    if ts == [] then 0
    else CountIn(ts[..|ts| - 1], from, to) + if from <= ts[|ts| - 1] <= to then 1 else 0
  }

  // --------------------------------------------------------------- counting

  lemma {:induction false} CountTail(ts: seq<int>, from: int, to: int, k: nat)
    requires forall j | 0 <= j < |ts| - k :: ts[j] < from
    ensures CountIn(ts, from, to) <= k
    decreases |ts|
  {
    if ts != [] {
      CountTail(ts[..|ts| - 1], from, to, if k == 0 then 0 else k - 1);
    }
  }

  predicate Apart(ts: seq<int>, i: nat, n: nat, span: int) { i + n < |ts| ==> ts[i + n] - ts[i] > span }

  ghost predicate AllApart(ts: seq<int>, n: nat, span: int) { forall i: nat :: Apart(ts, i, n, span) }

  /** If any n + 1 consecutive times span more than an interval does, the interval holds at most n. */
  lemma {:induction false} FewIn(ts: seq<int>, from: int, to: int, n: nat)
    requires Ascending(ts) && AllApart(ts, n, to - from)
    ensures CountIn(ts, from, to) <= n
    decreases |ts|
  {
    if ts != [] {
      var last := ts[|ts| - 1];
      if from <= last <= to {
        forall j | 0 <= j < |ts| - n ensures ts[j] < from {
          assert Apart(ts, |ts| - 1 - n, n, to - from);
          AscendingAt(ts, j, |ts| - 1 - n);
        }
        CountTail(ts, from, to, n);
      } else {
        var front, span := ts[..|ts| - 1], to - from;
        forall i: nat ensures Apart(front, i, n, span) {
          assert Apart(ts, i, n, span);
        }
        FewIn(front, from, to, n);
      }
    }
  }

  // ------------------------------------------------------------- the account rule

  /** With c earlier failures in its window, a failure comes at least that count's delay after the previous one. */
  predicate SpacedAt(ts: seq<int>, i: int, c: int) {
    FREE_FAILURES <= c <= i < |ts| && ts[i - c] >= ts[i] - ACCOUNT_WINDOW ==> ts[i] >= ts[i - 1] + Delay(c)
  }

  ghost predicate Spaced(ts: seq<int>) { Ascending(ts) && forall i, c :: SpacedAt(ts, i, c) }

  lemma {:induction false} RecentAtLeast(ts: seq<int>, since: int, c: nat)
    requires Ascending(ts) && 0 < c <= |ts| && ts[|ts| - c] >= since
    ensures |Since(ts, since)| >= c
    ensures Latest(Since(ts, since)).Some? && Latest(Since(ts, since)).value >= ts[|ts| - 1]
  {
    SinceTail(ts, since);
    var n := |Since(ts, since)|;
    if n < c {
      AscendingAt(ts, |ts| - c, |ts| - n - 1);
    }
    assert n >= c;
    LatestFacts(Since(ts, since));
    assert Since(ts, since)[n - 1] in Since(ts, since);
  }

  lemma {:induction false} SpacedStep(ts: seq<int>, now: int, at: int)
    requires Spaced(ts) && AtMost(ts, now) && now <= at && !AccountOf(ts, now).blocked
    ensures Spaced(ts + [at])
  {
    var all := ts + [at];
    AscendingSnoc(ts, at);
    forall i, c ensures SpacedAt(all, i, c) {
      assert SpacedAt(ts, i, c);
      if i == |ts| && FREE_FAILURES <= c <= i && all[i - c] >= at - ACCOUNT_WINDOW {
        RecentAtLeast(ts, now - ACCOUNT_WINDOW, c);
        AccountBlockedExactly(ts, now);
        DelayMonotone(c, |Since(ts, now - ACCOUNT_WINDOW)|);
      }
    }
  }

  lemma {:induction false} NoTenTogether(ts: seq<int>)
    requires Spaced(ts)
    ensures AllApart(ts, 9, ACCOUNT_WINDOW)
  {
    forall i: nat ensures Apart(ts, i, 9, ACCOUNT_WINDOW) {
      if i + 9 < |ts| && ts[i + 9] - ts[i] <= ACCOUNT_WINDOW {
        assert SpacedAt(ts, i + 5, 5) && SpacedAt(ts, i + 6, 6) && SpacedAt(ts, i + 7, 7);
        assert SpacedAt(ts, i + 8, 8) && SpacedAt(ts, i + 9, 9);
        AscendingAt(ts, i, i + 4);
        AscendingAt(ts, i + 5, i + 9);
        AscendingAt(ts, i + 6, i + 9);
        AscendingAt(ts, i + 7, i + 9);
        AscendingAt(ts, i + 8, i + 9);
        Delays();
      }
    }
  }

  // ------------------------------------------------------------------ the IP rule

  lemma {:induction false} SortedAscending(ts: seq<int>)
    requires Ascending(ts)
    ensures Sorted(ts) == ts
    decreases |ts|
  {
    if ts != [] {
      var front := ts[..|ts| - 1];
      SortedAscending(front);
      assert front != [] ==> front[|front| - 1] in front;
      assert ts == front + [ts[|ts| - 1]];
    }
  }

  lemma {:induction false} IpStep(ts: seq<int>, now: int, at: int)
    requires Ascending(ts) && AllApart(ts, IP_MAX_FAILURES, IP_WINDOW - 1)
    requires AtMost(ts, now) && now <= at && !IpOf(ts, now).blocked
    ensures Ascending(ts + [at]) && AllApart(ts + [at], IP_MAX_FAILURES, IP_WINDOW - 1)
  {
    AscendingSnoc(ts, at);
    IpBlockedExactly(ts, now);
    SortedAscending(ts);
    var all, span := ts + [at], IP_WINDOW - 1;
    forall i: nat ensures Apart(all, i, IP_MAX_FAILURES, span) {
      assert Apart(ts, i, IP_MAX_FAILURES, span);
    }
  }

  // ------------------------------------------------------------------------ runs

  lemma {:induction false} TimesSnoc(log: seq<Record>, r: Record, w: Where)
    ensures Times(log + [r], w) == Times(log, w) + if Matches(w, r) then [r.at] else []
  {
    assert (log + [r])[..|log|] == log;
  }

  predicate NamesAccount(w: Where) { (w.Account? && w.subject != "") || w.Reauth? }

  predicate ShortIp(ip: Option<string>) { ip.Some? ==> |ip.value| <= IP_LENGTH }
  predicate ShortIps(attempts: seq<Attempt>) {
    forall i | 0 <= i < |attempts| :: attempts[i].Verify? ==> ShortIp(attempts[i].ip)
  }

  /** No longer address is cut to this one: it is shorter than the cut, or nothing longer occurs. */
  predicate KeptApart(ip: string, attempts: seq<Attempt>) { ip != "" && (|ip| < IP_LENGTH || ShortIps(attempts)) }

  /** An attempt adds a time to a count only as a failure that its own check let through. */
  lemma {:induction false} OnlyAllowedFailuresCount(log: seq<Record>, a: Attempt, w: Where)
    requires w.Address? ==> w.ip != "" && (|w.ip| < IP_LENGTH || (a.Verify? ==> ShortIp(a.ip)))
    requires w.Account? ==> w.subject != ""
    ensures Times(log + Outcome(log, a), w) == Times(log, w) ||
            (Times(log + Outcome(log, a), w) == Times(log, w) + [a.at] && !a.genuine
             && if w.Address? then !IpOf(Times(log, w), a.now).blocked else !AccountOf(Times(log, w), a.now).blocked)
  {
    var o := Outcome(log, a);
    if o == [] {
      assert log + o == log;
    } else {
      assert o == [o[0]];
      TimesSnoc(log, o[0], w);
      assert Times(log, w) + [] == Times(log, w);
    }
  }

  ghost predicate AllBy(ts: seq<int>, attempts: seq<Attempt>) {
    if attempts == [] then ts == [] else AtMost(ts, attempts[|attempts| - 1].at)
  }

  lemma {:induction false} RunSpaced(attempts: seq<Attempt>, w: Where)
    requires Serial(attempts) && NamesAccount(w)
    ensures Spaced(Times(LogAfter(attempts), w)) && AllBy(Times(LogAfter(attempts), w), attempts)
    decreases |attempts|
  {
    if attempts == [] {
      forall i, c ensures SpacedAt([], i, c) {
      }
    } else {
      var front, a := attempts[..|attempts| - 1], attempts[|attempts| - 1];
      RunSpaced(front, w);
      var ts := Times(LogAfter(front), w);
      OnlyAllowedFailuresCount(LogAfter(front), a, w);
      assert front != [] ==> front[|front| - 1].at <= a.now;
      if Times(LogAfter(attempts), w) != ts {
        SpacedStep(ts, a.now, a.at);
      }
    }
  }

  lemma {:induction false} NoTimes(w: Where)
    ensures Times([], w) == [] && (forall since :: Since([], since) == []) && Sorted([]) == [] && Ascending([]) && AllApart([], IP_MAX_FAILURES, IP_WINDOW - 1)
  {
  }

  lemma {:induction false} RunIpSpaced(attempts: seq<Attempt>, ip: string)
    requires Serial(attempts) && KeptApart(ip, attempts)
    ensures var ts := Times(LogAfter(attempts), Address(ip));
            Ascending(ts) && AllApart(ts, IP_MAX_FAILURES, IP_WINDOW - 1) && AllBy(ts, attempts)
    decreases |attempts|
  {
    hide Outcome, IpOf, Times, Ascending, AllApart;
    if attempts == [] {
      NoTimes(Address(ip));
    } else {
      var front, a := attempts[..|attempts| - 1], attempts[|attempts| - 1];
      RunIpSpaced(front, ip);
      var ts := Times(LogAfter(front), Address(ip));
      assert ShortIps(attempts) ==> (a.Verify? ==> ShortIp(attempts[|attempts| - 1].ip));
      OnlyAllowedFailuresCount(LogAfter(front), a, Address(ip));
      assert front != [] ==> front[|front| - 1].at <= a.now;
      if Times(LogAfter(attempts), Address(ip)) != ts {
        IpStep(ts, a.now, a.at);
      }
    }
  }

  /**
   * In every serialised run, a closed 15-minute window holds at most nine
   * counted failures of an account: code and passkey failures of an email
   * together, and wrong current passwords of a signed-in user.
   */
  lemma {:induction false} AtMostNineFailures(attempts: seq<Attempt>, w: Where, from: int)
    requires Serial(attempts) && NamesAccount(w)
    ensures CountIn(Times(LogAfter(attempts), w), from, from + ACCOUNT_WINDOW) <= 9
  {
    RunSpaced(attempts, w);
    NoTenTogether(Times(LogAfter(attempts), w));
    FewIn(Times(LogAfter(attempts), w), from, from + ACCOUNT_WINDOW, 9);
  }

  /** In every serialised run, a half-open hour holds at most twenty failures from one address. */
  lemma {:induction false} AtMostTwentyPerHour(attempts: seq<Attempt>, ip: string, from: int)
    requires Serial(attempts) && KeptApart(ip, attempts)
    ensures CountIn(Times(LogAfter(attempts), Address(ip)), from, from + IP_WINDOW - 1) <= IP_MAX_FAILURES
  {
    RunIpSpaced(attempts, ip);
    FewIn(Times(LogAfter(attempts), Address(ip)), from, from + IP_WINDOW - 1, IP_MAX_FAILURES);
  }

  // ------------------------------------------------------------ nine really fit

  function Guess(t: int): Attempt { Verify("a", None, None, false, false, t, t) }

  /** The k-th time comes no earlier than the others and finds the account open. */
  predicate OpenAt(ts: seq<int>, k: nat)
    requires k < |ts|
  {
    AtMost(ts[..k], ts[k]) && !AccountOf(ts[..k], ts[k]).blocked
  }

  ghost predicate Paced(ts: seq<int>) { forall k | 0 <= k < |ts| :: OpenAt(ts, k) }

  lemma {:induction false} RunSnoc(attempts: seq<Attempt>, a: Attempt)
    ensures LogAfter(attempts + [a]) == LogAfter(attempts) + Outcome(LogAfter(attempts), a)
    ensures Serial(attempts) && a.now <= a.at && (attempts != [] ==> attempts[|attempts| - 1].at <= a.now)
            ==> Serial(attempts + [a])
  {
    assert (attempts + [a])[..|attempts|] == attempts;
  }

  lemma {:induction false} GuessNext(attempts: seq<Attempt>, t: int)
    requires Serial(attempts) && (attempts != [] ==> attempts[|attempts| - 1].at <= t)
    requires !AccountOf(Times(LogAfter(attempts), Account("a")), t).blocked
    ensures Serial(attempts + [Guess(t)])
    ensures Times(LogAfter(attempts + [Guess(t)]), Account("a")) == Times(LogAfter(attempts), Account("a")) + [t]
  {
    RunSnoc(attempts, Guess(t));
    GuessCounts(LogAfter(attempts), t);
  }

  lemma {:induction false} NothingYet()
    ensures Serial([]) && Times(LogAfter([]), Account("a")) == []
  {
  }

  lemma {:induction false} PacedRun(ts: seq<int>, n: nat) returns (attempts: seq<Attempt>)
    requires Paced(ts) && n <= |ts|
    ensures Serial(attempts) && Times(LogAfter(attempts), Account("a")) == ts[..n] && |attempts| == n
    ensures n > 0 ==> attempts[n - 1].at == ts[n - 1]
    decreases n
  {
    hide AccountOf, Times, LogAfter, Serial;
    if n == 0 {
      attempts := [];
      NothingYet();
    } else {
      var before := PacedRun(ts, n - 1);
      assert OpenAt(ts, n - 1);
      assert n > 1 ==> ts[..n - 1][n - 2] in ts[..n - 1];
      GuessNext(before, ts[n - 1]);
      attempts := before + [Guess(ts[n - 1])];
      assert ts[..n - 1] + [ts[n - 1]] == ts[..n];
    }
  }

  lemma {:induction false} GuessCounts(log: seq<Record>, t: int)
    requires !AccountOf(Times(log, Account("a")), t).blocked
    ensures Times(log + Outcome(log, Guess(t)), Account("a")) == Times(log, Account("a")) + [t]
  {
    var r := Outcome(log, Guess(t));
    assert r == [r[0]];
    TimesSnoc(log, r[0], Account("a"));
  }

  lemma {:induction false} PacedSnoc(ts: seq<int>, t: int)
    requires Paced(ts) && AtMost(ts, t)
    requires forall x | x in ts :: x >= t - ACCOUNT_WINDOW
    requires |ts| < FREE_FAILURES || (ts[|ts| - 1] + Delay(|ts|) <= t && AtMost(ts, ts[|ts| - 1]))
    ensures Paced(ts + [t])
  {
    forall k | 0 <= k < |ts + [t]| ensures OpenAt(ts + [t], k) {
      if k < |ts| {
        assert OpenAt(ts, k) && (ts + [t])[..k] == ts[..k];
      } else {
        assert (ts + [t])[..k] == ts;
        OpenNow(ts, t);
      }
    }
  }

  lemma {:induction false} OpenNow(ts: seq<int>, t: int)
    requires forall x | x in ts :: x >= t - ACCOUNT_WINDOW
    requires |ts| < FREE_FAILURES || (ts[|ts| - 1] + Delay(|ts|) <= t && AtMost(ts, ts[|ts| - 1]))
    ensures !AccountOf(ts, t).blocked
  {
    assert forall i | 0 <= i < |ts| :: ts[i] in ts;
    AllRecent(ts, t - ACCOUNT_WINDOW);
    AccountBlockedExactly(ts, t);
    LatestFacts(ts);
  }

  function Instant(n: nat): (ts: seq<int>)
    ensures |ts| == n && forall x | x in ts :: x == 0
  {
    if n == 0 then [] else Instant(n - 1) + [0]
  }

  lemma {:induction false} InstantPaced(n: nat)
    requires n <= FREE_FAILURES
    ensures Paced(Instant(n))
  {
    if n > 0 {
      InstantPaced(n - 1);
      PacedSnoc(Instant(n - 1), 0);
    }
  }

  predicate Within(ts: seq<int>, to: int) {
    ts != [] && ts[|ts| - 1] == to && forall x | x in ts :: 0 <= x <= to
  }

  /** The next failure as soon as the delay has run out. */
  lemma {:induction false} PaceNext(ts: seq<int>, last: int, t: int)
    requires Paced(ts) && Within(ts, last) && FREE_FAILURES <= |ts| && last <= t <= ACCOUNT_WINDOW
    requires last + Delay(|ts|) <= t
    ensures Paced(ts + [t]) && Within(ts + [t], t)
  {
    assert ts[|ts| - 1] in ts;
    PacedSnoc(ts, t);
  }

  lemma {:induction false} NinePaced() returns (ts: seq<int>)
    ensures Paced(ts) && |ts| == 9 && Within(ts, 450_000)
  {
    Delays();
    InstantPaced(5);
    ts := Instant(5);
    assert ts[4] in ts;
    PaceNext(ts, 0, 30_000);
    ts := ts + [30_000];
    PaceNext(ts, 30_000, 90_000);
    ts := ts + [90_000];
    PaceNext(ts, 90_000, 210_000);
    ts := ts + [210_000];
    PaceNext(ts, 210_000, 450_000);
    ts := ts + [450_000];
  }

  /** The bound of nine is attained: five failures at once, then each the moment its delay runs out. */
  lemma {:induction false} NineFailuresFit()
    ensures exists attempts :: Serial(attempts) &&
              CountIn(Times(LogAfter(attempts), Account("a")), 0, ACCOUNT_WINDOW) == 9
  {
    var ts := NinePaced();
    assert forall i | 0 <= i < |ts| :: ts[i] in ts;
    AllCounted(ts, 0, ACCOUNT_WINDOW);
    var attempts := PacedRun(ts, 9);
    assert ts[..9] == ts;
  }

  lemma {:induction false} AllCounted(ts: seq<int>, from: int, to: int)
    requires forall i | 0 <= i < |ts| :: from <= ts[i] <= to
    ensures CountIn(ts, from, to) == |ts|
    decreases |ts|
  {
    if ts != [] {
      AllCounted(ts[..|ts| - 1], from, to);
    }
  }

  /** An address longer than the log's column is recorded shortened and so is never blocked itself. */
  lemma {:induction false} LongAddressNeverBlocked(attempts: seq<Attempt>, ip: string, now: int)
    requires |ip| > IP_LENGTH
    ensures !IpOf(Times(LogAfter(attempts), Address(ip)), now).blocked
    decreases |attempts|
  {
    NoLongAddress(attempts, ip);
  }

  lemma {:induction false} NoLongAddress(attempts: seq<Attempt>, ip: string)
    requires |ip| > IP_LENGTH
    ensures Times(LogAfter(attempts), Address(ip)) == []
    decreases |attempts|
  {
    hide Outcome, Times;
    if attempts == [] {
      NoTimes(Address(ip));
    } else {
      var front, a := attempts[..|attempts| - 1], attempts[|attempts| - 1];
      NoLongAddress(front, ip);
      LongAddressNotRecorded(LogAfter(front), a, ip);
    }
  }

  lemma {:induction false} LongAddressNotRecorded(log: seq<Record>, a: Attempt, ip: string)
    requires |ip| > IP_LENGTH
    ensures Times(log + Outcome(log, a), Address(ip)) == Times(log, Address(ip))
  {
    hide Check, AccountOf, Times;
    var o := Outcome(log, a);
    if o == [] {
      assert log + o == log;
    } else {
      assert o == [o[0]];
      TimesSnoc(log, o[0], Address(ip));
    }
  }

  /** Throttled attempts change no decision. */
  lemma {:induction false} ThrottledDoesNotExtend(log: seq<Record>, a: Attempt, subject: Option<string>, ip: Option<string>, now: int)
    requires a.Verify? && Check(log, Some(a.subject), a.ip, a.now).blocked
    ensures Check(log + Outcome(log, a), subject, ip, now) == Check(log, subject, ip, now)
  {
    var r := Outcome(log, a)[0];
    assert Outcome(log, a) == [r];
    if Given(subject) {
      TimesSnoc(log, r, Account(subject.value));
      assert Times(log, Account(subject.value)) + [] == Times(log, Account(subject.value));
    }
    if Given(ip) {
      TimesSnoc(log, r, Address(ip.value));
      assert Times(log, Address(ip.value)) + [] == Times(log, Address(ip.value));
    }
  }

  // ------------------------------------------------------------------ the service

  /** admin_recovery_audit and the functions that read and extend it. */
  class AuditLog {
    var rows: seq<Record>

    constructor ()
      ensures rows == []
    {
      rows := [];
    }

    /** aggregate _count and _max over the rows of one account since an instant. */
    method Aggregate(w: Where, since: int) returns (count: nat, latest: Option<int>)
      ensures count == |Since(Times(rows, w), since)| && latest == Latest(Since(Times(rows, w), since))
    {
      count, latest := 0, None;
      var i := 0;
      while i < |rows|
        invariant 0 <= i <= |rows|
        invariant count == |Since(Times(rows[..i], w), since)| && latest == Latest(Since(Times(rows[..i], w), since))
      {
        var r := rows[i];
        assert rows[..i + 1] == rows[..i] + [r];
        TimesSnoc(rows[..i], r, w);
        ghost var before := Times(rows[..i], w);
        assert before + [] == before;
        SinceSnoc(before, r.at, since);
        LatestSnoc(Since(before, since), r.at);
        assert Since(before, since) + [] == Since(before, since);
        if Matches(w, r) && r.at >= since {
          count := count + 1;
          latest := if latest.Some? && latest.value >= r.at then latest else Some(r.at);
        }
        i := i + 1;
      }
      assert rows[..|rows|] == rows;
    }

    /** findMany orderBy createdAt asc. */
    method Ordered(w: Where, since: int) returns (ts: seq<int>)
      ensures ts == Sorted(Since(Times(rows, w), since))
    {
      ts := [];
      NoTimes(w);
      hide Times, Since, Sorted, InsertTime;
      var i := 0;
      while i < |rows|
        invariant 0 <= i <= |rows| && ts == Sorted(Since(Times(rows[..i], w), since))
      {
        var r := rows[i];
        assert rows[..i + 1] == rows[..i] + [r];
        TimesSnoc(rows[..i], r, w);
        ghost var before := Times(rows[..i], w);
        assert before + [] == before;
        SinceSnoc(before, r.at, since);
        SortedSnoc(Since(before, since), r.at);
        assert Since(before, since) + [] == Since(before, since);
        if Matches(w, r) && r.at >= since {
          ts := InsertTime(ts, r.at);
        }
        i := i + 1;
      }
      assert rows[..|rows|] == rows;
    }

    method CheckRecoveryThrottle(subject: Option<string>, ip: Option<string>, now: int) returns (d: Decision)
      ensures d == Check(rows, subject, ip, now)
    {
      var account, address := ALLOWED, ALLOWED;
      if Given(subject) {
        var count, latest := Aggregate(Account(subject.value), now - ACCOUNT_WINDOW);
        account := AccountDecision(count, latest, now);
      }
      if Given(ip) {
        var count, _ := Aggregate(Address(ip.value), now - IP_WINDOW);
        var releasing := None;
        if count >= IP_MAX_FAILURES {
          var ordered := Ordered(Address(ip.value), now - IP_WINDOW);
          releasing := Some(ordered[count - IP_MAX_FAILURES]);
        }
        address := IpDecision(count, releasing, now);
      }
      d := Combine(account, address);
    }

    method RecordRecoveryAudit(r: Record)
      modifies this
      ensures rows == old(rows) + [r.(ip := Truncated(r.ip))]
    {
      rows := rows + [r.(ip := Truncated(r.ip))];
    }

    /** enforceThrottle: a blocked attempt is recorded as such, without an account. */
    method EnforceThrottle(subject: string, ip: Option<string>, now: int, at: int) returns (blocked: bool)
      modifies this
      ensures blocked <==> Check(old(rows), Some(subject), ip, now).blocked
      ensures rows == old(rows) + if blocked then [Record(ATTEMPT_THROTTLED, true, Some(subject), None, Truncated(ip), at)] else []
    {
      var d := CheckRecoveryThrottle(Some(subject), ip, now);
      if d.blocked {
        RecordRecoveryAudit(Record(ATTEMPT_THROTTLED, true, Some(subject), None, ip, at));
      }
      blocked := d.blocked;
    }

    /** The outcome of a verification that was let through. */
    method RecordVerification(subject: string, user: Option<string>, ip: Option<string>, passkey: bool, genuine: bool, at: int)
      modifies this
      ensures rows == old(rows) + [Record(if passkey then PASSKEY_VERIFICATION else CODE_VERIFICATION, !genuine,
                                          Some(subject), user, Truncated(ip), at)]
    {
      var event := if passkey then PASSKEY_VERIFICATION else CODE_VERIFICATION;
      RecordRecoveryAudit(Record(event, !genuine, Some(subject), user, ip, at));
    }

    /** One attempt: checked, and then recorded as throttled, failed or successful. */
    method Handle(a: Attempt) returns (allowed: bool)
      modifies this
      ensures rows == old(rows) + Outcome(old(rows), a)
      ensures allowed <==> a.genuine && !(if a.Verify? then Check(old(rows), Some(a.subject), a.ip, a.now).blocked
                                          else AccountOf(Times(old(rows), Reauth(a.account)), a.now).blocked)
    {
      match a
      case Verify(subject, user, ip, passkey, genuine, now, at) =>
        var d := CheckRecoveryThrottle(Some(subject), ip, now);
        if d.blocked {
          RecordRecoveryAudit(Record(ATTEMPT_THROTTLED, true, Some(subject), user, ip, at));
          return false;
        }
        var event := if passkey then PASSKEY_VERIFICATION else CODE_VERIFICATION;
        RecordRecoveryAudit(Record(event, !genuine, Some(subject), user, ip, at));
        allowed := genuine;
      case Confirm(account, genuine, now, at) =>
        var count, latest := Aggregate(Reauth(account), now - ACCOUNT_WINDOW);
        if AccountDecision(count, latest, now).blocked {
          return false;
        }
        if !genuine {
          RecordRecoveryAudit(Record(REAUTH_FAILED, true, None, Some(account), None, at));
        }
        allowed := genuine;
    }
  }

  lemma {:induction false} LatestSnoc(ts: seq<int>, t: int)
    ensures Latest(ts + [t]) == if Latest(ts).Some? && Latest(ts).value >= t then Latest(ts) else Some(t)
  {
    assert (ts + [t])[..|ts|] == ts;
  }
}

// The recovery throttle in its own numbers: what an attempt adds to the counts
// of its account and address, and how many failures block which of them, for how long.
module ThrottlePolicy {
  import opened Wrappers
  import opened Text
  import opened Bits
  import opened Throttle
  import opened ThrottleRuns

  // ------------------------------------------------------------------- the counts

  /** The failures of a list at or after an instant. */
  function Recent(ts: seq<int>, since: int): set<nat> { set i: nat | i < |ts| && ts[i] >= since }

  lemma {:induction false} RecentSnoc(ts: seq<int>, t: int, since: int)
    ensures |Recent(ts + [t], since)| == |Recent(ts, since)| + if t >= since then 1 else 0
  {
    var all := ts + [t];
    assert forall i: nat | i < |ts| :: all[i] == ts[i];
    assert Recent(all, since) == Recent(ts, since) + if t >= since then {|ts|} else {};
  }

  lemma {:induction false} SinceCounts(ts: seq<int>, since: int)
    ensures |Since(ts, since)| == |Recent(ts, since)|
    decreases |ts|
  {
    hide Since, Recent;
    if ts == [] {
      NoneRecent(since);
    } else {
      var front, last := ts[..|ts| - 1], ts[|ts| - 1];
      assert ts == front + [last];
      SinceCounts(front, since);
      SinceSnoc(front, last, since);
      RecentSnoc(front, last, since);
    }
  }

  lemma {:induction false} NoneRecent(since: int)
    ensures |Since([], since)| == |Recent([], since)|
  {
  }

  // --------------------------------------------------------------- the account's delay

  /** Half a minute for the fifth failure in fifteen minutes, doubled for each one more, at most fifteen minutes. */
  function Earned(failures: int): int {
    if failures < 5 then 0
    else if failures == 5 then 30_000
    else if failures == 6 then 60_000
    else if failures == 7 then 120_000
    else if failures == 8 then 240_000
    else if failures == 9 then 480_000
    else 900_000
  }

  lemma {:induction false} DelayIsEarned(n: nat)
    requires n >= 5
    ensures Delay(n) == Earned(n)
  {
    Delays();
    if n >= 10 {
      var e := Min(n - FREE_FAILURES, 20);
      Pow2Monotone(5, e);
      assert Pow2(5) == 32 by {
        FiveUp(0, 0);
        assert Pow2(0) == 1;
      }
    }
  }

  ghost predicate IsLatest(ts: seq<int>, last: int) { last in ts && AtMost(ts, last) }

  /** The seconds to wait: a whole number of them, no less than the time left and less than one more. */
  predicate WholeWait(seconds: int, left: int) { 1000 * (seconds - 1) < left <= 1000 * seconds }

  /** An account is blocked exactly by five recent failures, from the latest of them for the delay they earn. */
  lemma {:induction false} AccountPolicy(ts: seq<int>, now: int, last: int)
    requires IsLatest(ts, last)
    ensures var d, n := AccountOf(ts, now), |Recent(ts, now - 900_000)|;
            && (d.blocked <==> n >= 5 && now < last + Earned(n))
            && (d.blocked ==> d.scope == ACCOUNT && WholeWait(d.retryAfterSeconds, Min(last + Earned(n) - now, Earned(n))))
            && (!d.blocked ==> d == Decision(false, 0, NoScope))
  {
    hide Since, Recent, Latest, Delay, Earned;
    var since := now - 900_000;
    var n := |Since(ts, since)|;
    SinceCounts(ts, since);
    LatestFacts(ts);
    LatestRecent(ts, since);
    if n >= 5 {
      DelayIsEarned(n);
      DelayMonotone(n, n);
      assert Latest(ts).value == last;
    }
  }

  lemma {:induction false} NoFailuresNoBlock(now: int)
    ensures AccountOf([], now) == Decision(false, 0, NoScope) && IpOf([], now) == Decision(false, 0, NoScope)
  {
  }

  // ------------------------------------------------------------------ the address

  lemma {:induction false} SortedCounts(ts: seq<int>, since: int)
    ensures |Since(Sorted(ts), since)| == |Since(ts, since)|
  {
    SinceSorted(ts, since);
  }

  /** An address is blocked exactly while twenty of its failures are less than an hour old. */
  lemma {:induction false} AddressPolicy(ts: seq<int>, now: int)
    ensures IpOf(ts, now).blocked <==> |Recent(ts, now - 3_599_999)| >= 20
    ensures !IpOf(ts, now).blocked ==> IpOf(ts, now) == Decision(false, 0, NoScope)
  {
    hide Since, Sorted, Recent, Ascending;
    var since := now - 3_599_999;
    SinceCounts(ts, since);
    SortedCounts(ts, since);
    SortedFacts(ts);
    PickFromTail(Sorted(ts), since, 20);
    TailIsRecent(Sorted(ts), since);
    IpBlockedExactly(ts, now);
  }

  lemma {:induction false} TailIsRecent(all: seq<int>, since: int)
    ensures |Since(all, since)| >= 20 ==> Since(all, since)[|Since(all, since)| - 20] >= since
  {
    SinceFacts(all, since);
    if |Since(all, since)| >= 20 {
      assert Since(all, since)[|Since(all, since)| - 20] in Since(all, since);
    }
  }

  /** Of an address's failures, the one whose ageing out frees it: twenty are as late, fewer are later. */
  predicate Frees(ts: seq<int>, r: int) { r in ts && |Recent(ts, r)| >= 20 > |Recent(ts, r + 1)| }

  lemma {:induction false} AddressWait(ts: seq<int>, now: int) returns (r: int)
    requires IpOf(ts, now).blocked
    ensures Frees(ts, r) && IpOf(ts, now).scope == IP
    ensures WholeWait(IpOf(ts, now).retryAfterSeconds, Min(r + 3_600_000 - now, 3_600_000))
  {
    hide Since, Sorted, Recent, Ascending;
    IpBlockedExactly(ts, now);
    ReleasingFailure(ts, now - IP_WINDOW);
    var all := Sorted(ts);
    r := all[|ts| - 20];
    SortedFacts(ts);
    SinceCounts(ts, r);
    SinceCounts(ts, r + 1);
    SortedCounts(ts, r);
    SortedCounts(ts, r + 1);
    PickFromTail(all, r, 20);
    PickFromTail(all, r + 1, 20);
    TailIsRecent(all, r + 1);
  }

  /** Both scopes are asked, an absent or empty one never blocks, and the longer wait of two is reported. */
  lemma {:induction false} CheckPolicy(log: seq<Record>, subject: Option<string>, ip: Option<string>, now: int)
    ensures var a := if subject.Some? && subject.value != "" then AccountOf(Times(log, Account(subject.value)), now)
                     else Decision(false, 0, NoScope);
            var b := if ip.Some? && ip.value != "" then IpOf(Times(log, Address(ip.value)), now) else Decision(false, 0, NoScope);
            var d := Check(log, subject, ip, now);
            && (d.blocked <==> a.blocked || b.blocked)
            && (a.blocked && b.blocked ==> d == if b.retryAfterSeconds > a.retryAfterSeconds then b else a)
            && (a.blocked && !b.blocked ==> d == a) && (b.blocked && !a.blocked ==> d == b)
            && (!d.blocked ==> d == Decision(false, 0, NoScope))
  {
    hide Times, AccountOf, IpOf;
    if ip.Some? {
      AddressPolicy(Times(log, Address(ip.value)), now);
    }
    if subject.Some? {
      AccountQuiet(Times(log, Account(subject.value)), now);
    }
  }

  lemma {:induction false} AccountQuiet(ts: seq<int>, now: int)
    ensures !AccountOf(ts, now).blocked ==> AccountOf(ts, now) == Decision(false, 0, NoScope)
  {
  }

  // ---------------------------------------------------------------- what an attempt adds

  /** The first 64 characters of an address. */
  predicate CutTo(kept: string, ip: Option<string>) {
    ip.Some? && kept == if |ip.value| > 64 then ip.value[..64] else ip.value
  }

  /**
   * A failed verification that was let through, by code or by passkey, adds its
   * instant to its account's and its address's failures; a genuine or blocked
   * one adds nothing, and none adds to a signed-in user's.
   */
  lemma {:induction false} VerificationAdds(attempts: seq<Attempt>, a: Attempt)
    requires a.Verify?
    ensures var log, after := LogAfter(attempts), LogAfter(attempts + [a]);
            var counts := !a.genuine && !Check(log, Some(a.subject), a.ip, a.now).blocked;
            && (forall s :: Times(after, Account(s)) == Times(log, Account(s)) + if counts && s == a.subject then [a.at] else [])
            && (forall x :: Times(after, Address(x)) == Times(log, Address(x)) + if counts && CutTo(x, a.ip) then [a.at] else [])
            && (forall u :: Times(after, Reauth(u)) == Times(log, Reauth(u)))
  {
    hide Times, Check;
    var log := LogAfter(attempts);
    assert (attempts + [a])[..|attempts|] == attempts;
    var o := Outcome(log, a);
    assert o == [o[0]];
    forall w ensures Times(log + o, w) == Times(log, w) + if Matches(w, o[0]) then [o[0].at] else [] {
      TimesSnoc(log, o[0], w);
    }
    forall w ensures Times(log, w) + [] == Times(log, w) {
    }
  }

  /** A wrong current password that was let through adds its instant to that user's failures; nothing else adds or is added to. */
  lemma {:induction false} ConfirmationAdds(attempts: seq<Attempt>, a: Attempt)
    requires a.Confirm?
    ensures var log, after := LogAfter(attempts), LogAfter(attempts + [a]);
            var counts := !a.genuine && !AccountOf(Times(log, Reauth(a.account)), a.now).blocked;
            && (forall u :: Times(after, Reauth(u)) == Times(log, Reauth(u)) + if counts && u == a.account then [a.at] else [])
            && (forall s :: Times(after, Account(s)) == Times(log, Account(s)))
            && (forall x :: Times(after, Address(x)) == Times(log, Address(x)))
  {
    hide Times, AccountOf;
    var log := LogAfter(attempts);
    assert (attempts + [a])[..|attempts|] == attempts;
    var o := Outcome(log, a);
    forall w ensures Times(log, w) + [] == Times(log, w) {
    }
    if o == [] {
      assert log + o == log;
    } else {
      assert o == [o[0]];
      forall w ensures Times(log + o, w) == Times(log, w) + if Matches(w, o[0]) then [o[0].at] else [] {
        TimesSnoc(log, o[0], w);
      }
    }
  }

  lemma {:induction false} NothingLogged(w: Where)
    ensures LogAfter([]) == [] && Times([], w) == []
  {
  }

  // -------------------------------------------------- five failures block the next attempt

  /** Failed verifications of one account at one instant, each by code or by passkey, from any addresses. */
  predicate AllFail(attempts: seq<Attempt>, subject: string, t: int) {
    forall i | 0 <= i < |attempts| ::
      attempts[i].Verify? && attempts[i].subject == subject && !attempts[i].genuine && attempts[i].now == t == attempts[i].at
  }

  predicate AllAt(ts: seq<int>, t: int) { forall i | 0 <= i < |ts| :: ts[i] == t }

  lemma {:induction false} AllAtRecent(ts: seq<int>, t: int, since: int)
    requires AllAt(ts, t) && since <= t
    ensures |Recent(ts, since)| == |ts|
    decreases |ts|
  {
    hide Recent;
    if ts == [] {
      NoneRecent(since);
    } else {
      var front := ts[..|ts| - 1];
      assert ts == front + [ts[|ts| - 1]];
      AllAtRecent(front, t, since);
      RecentSnoc(front, t, since);
    }
  }

  /** Up to five of them are all let through, and all count. */
  lemma {:induction false} FailuresCount(attempts: seq<Attempt>, subject: string, t: int, ip: string)
    requires AllFail(attempts, subject, t) && |attempts| <= 5
    ensures var log := LogAfter(attempts);
            && AllAt(Times(log, Account(subject)), t) && |Times(log, Account(subject))| == |attempts|
            && AllAt(Times(log, Address(ip)), t) && |Times(log, Address(ip))| <= |attempts|
    decreases |attempts|
  {
    hide Times, Check, LogAfter, AccountOf, IpOf;
    if attempts == [] {
      NothingLogged(Account(subject));
      NothingLogged(Address(ip));
    } else {
      var front, a := attempts[..|attempts| - 1], attempts[|attempts| - 1];
      assert attempts == front + [a];
      FailuresCount(front, subject, t, ip);
      VerificationAdds(front, a);
      var log := LogAfter(front);
      CheckPolicy(log, Some(a.subject), a.ip, t);
      AllowsFewer(Times(log, Account(subject)), t);
      if a.ip.Some? {
        FailuresCount(front, subject, t, a.ip.value);
        AllowsFewer(Times(log, Address(a.ip.value)), t);
      }
    }
  }

  lemma {:induction false} AllowsFewer(ts: seq<int>, t: int)
    requires AllAt(ts, t)
    ensures |ts| < 5 ==> !AccountOf(ts, t).blocked
    ensures |ts| < 20 ==> !IpOf(ts, t).blocked
    ensures |ts| == 5 ==> AccountOf(ts, t) == Decision(true, 30, ACCOUNT)
  {
    hide AccountOf, IpOf, Recent;
    AllAtRecent(ts, t, t - 900_000);
    AllAtRecent(ts, t, t - 3_599_999);
    AddressPolicy(ts, t);
    if ts == [] {
      NoFailuresNoBlock(t);
    } else {
      assert ts[0] in ts;
      AccountPolicy(ts, t, t);
    }
  }

  /**
   * Five failures of one account at one instant, by code and passkey in any
   * mixture and from any addresses, block its next attempt of either kind from
   * any address, genuine or not, for thirty seconds; fewer do not.
   */
  lemma {:induction false} FifthFailureBlocks(attempts: seq<Attempt>, subject: string, t: int, ip: Option<string>)
    requires AllFail(attempts, subject, t) && |attempts| <= 5 && subject != ""
    ensures var d := Check(LogAfter(attempts), Some(subject), ip, t);
            && (d.blocked <==> |attempts| == 5)
            && (d.blocked ==> d == Decision(true, 30, ACCOUNT))
  {
    hide Times, Check, LogAfter, AccountOf, IpOf;
    var log := LogAfter(attempts);
    FailuresCount(attempts, subject, t, if ip.Some? then ip.value else "");
    CheckPolicy(log, Some(subject), ip, t);
    AllowsFewer(Times(log, Account(subject)), t);
    if ip.Some? {
      AllowsFewer(Times(log, Address(ip.value)), t);
    }
  }
}

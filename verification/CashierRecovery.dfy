// src/lib/cashierRecovery.ts: a cashier's password reset, approved in person
// by an admin.  Every conditional UPDATE is one atomic step; the instants a
// handler captured earlier travel with the step as arguments.
module CashierRecovery {
  import opened Wrappers
  import opened Text
  import opened Throttle
  import opened ThrottleRuns
  import opened Crockford

  const TTL := 15 * 60_000
  const PER_ACCOUNT_PER_HOUR := 5
  const PER_IP_PER_HOUR := 10
  const HOUR := 60 * 60_000

  datatype Status = PENDING | APPROVED | REJECTED | EXPIRED | COMPLETED

  /** The keyed hash of a code: collisions are taken not to happen. */
  datatype Digest = Digest(request: nat, user: string, code: string)

  /** A request's id is its position in the table; rows are never deleted. */
  datatype Request = Request(user: string, status: Status, createdAt: int, expiresAt: int, ip: Option<string>,
                             approvedAt: Option<int>, rejectedAt: Option<int>, decidedBy: Option<string>,
                             codeHash: Option<Digest>, failedAttempts: nat,
                             consumedAt: Option<int>, completedAt: Option<int>)

  datatype User = User(cashier: bool, active: bool, password: string)
  datatype Session = Session(user: string, revokedAt: Option<int>)
  datatype State = State(requests: seq<Request>, users: map<string, User>, sessions: seq<Session>)

  predicate Active(r: Request) { r.status in {PENDING, APPROVED} }
  predicate Terminal(r: Request) { r.status in {REJECTED, EXPIRED, COMPLETED} }
  predicate Eligible(users: map<string, User>, user: string) {
    user in users && users[user].cashier && users[user].active
  }

  // ------------------------------------------------------------- the statements

  predicate Lapsed(r: Request, now: int, only: Option<string>) {
    Active(r) && r.expiresAt <= now && (only.Some? ==> r.user == only.value)
  }

  function ExpireRow(r: Request, now: int, only: Option<string>): Request {
    if Lapsed(r, now, only) then r.(status := EXPIRED, codeHash := None) else r
  }

  function Expire(rs: seq<Request>, now: int, only: Option<string>): (e: seq<Request>)
    ensures |e| == |rs| && forall i :: 0 <= i < |rs| ==> e[i] == ExpireRow(rs[i], now, only)
  {
    seq(|rs|, i requires 0 <= i < |rs| => ExpireRow(rs[i], now, only))
  }

  /** When the requests of one account were created. */
  function Created(rs: seq<Request>, user: string): seq<int> {
    if rs == [] then []
    else Created(rs[..|rs| - 1], user) + if rs[|rs| - 1].user == user then [rs[|rs| - 1].createdAt] else []
  }

  function FromIp(rs: seq<Request>, ip: string): seq<int> {
    if rs == [] then []
    else FromIp(rs[..|rs| - 1], ip) + if rs[|rs| - 1].ip == Some(ip) then [rs[|rs| - 1].createdAt] else []
  }

  predicate HasActive(rs: seq<Request>, user: string) { exists i :: 0 <= i < |rs| && rs[i].user == user && Active(rs[i]) }

  function NewRequest(user: string, ip: Option<string>, now: int): Request {
    Request(user, PENDING, now, now + TTL, Truncated(ip), None, None, None, None, 0, None, None)
  }

  datatype Submitted = IGNORED | THROTTLED | DUPLICATE | CREATED

  /** The submit transaction: a duplicate rolls all of it back, a throttled one keeps what it expired. */
  function SubmitTx(rs: seq<Request>, user: string, ip: Option<string>, now: int, clock: int): (seq<Request>, Submitted) {
    var swept := Expire(rs, clock, Some(user));
    if |Since(Created(swept, user), now - HOUR)| >= PER_ACCOUNT_PER_HOUR then (swept, THROTTLED)
    else if HasActive(swept, user) then (rs, DUPLICATE)
    else (swept + [NewRequest(user, ip, now)], CREATED)
  }

  predicate IpThrottled(rs: seq<Request>, ip: Option<string>, now: int) {
    Given(ip) && |Since(FromIp(rs, ip.value), now - HOUR)| >= PER_IP_PER_HOUR
  }

  datatype Step =
    | Sweep(now: int)
    | Submit(user: string, ip: Option<string>, now: int, clock: int)
    | Approve(request: nat, admin: string, code: string, now: int)
    | Reject(request: nat, admin: string, now: int)
    | Redeem(request: nat, user: string, code: string, password: string, now: int)
    | Miss(request: nat)
    | Manage(user: string, cashier: bool, active: bool)      // an admin edits the account

  /** Whether the step's conditional UPDATE matches its row. */
  predicate Takes(s: State, step: Step) {
    match step
    case Approve(i, _, _, now) =>
      i < |s.requests| && s.requests[i].status == PENDING && s.requests[i].expiresAt > now
      && Eligible(s.users, s.requests[i].user)
    case Reject(i, _, now) => i < |s.requests| && Active(s.requests[i]) && s.requests[i].expiresAt > now
    case Redeem(i, user, code, _, now) =>
      && i < |s.requests| && s.requests[i].user == user && s.requests[i].status == APPROVED
      && s.requests[i].codeHash == Some(Digest(i, user, code))
      && s.requests[i].consumedAt.None? && s.requests[i].expiresAt > now && user in s.users
    case Miss(i) => i < |s.requests|
    case Manage(user, _, _) => user in s.users
    case _ => true
  }

  function Revoke(ss: seq<Session>, user: string, now: int): (r: seq<Session>)
    ensures |r| == |ss|
    ensures forall i | 0 <= i < |ss| :: r[i] == if ss[i].user == user && ss[i].revokedAt.None? then ss[i].(revokedAt := Some(now)) else ss[i]
  {
    seq(|ss|, i requires 0 <= i < |ss| =>
      if ss[i].user == user && ss[i].revokedAt.None? then ss[i].(revokedAt := Some(now)) else ss[i])
  }

  function Next(s: State, step: Step): State {
    if !Takes(s, step) then s
    else
      match step
      case Sweep(now) => s.(requests := Expire(s.requests, now, None))
      case Submit(user, ip, now, clock) =>
        if IpThrottled(s.requests, ip, now) || !Eligible(s.users, user) then s
        else s.(requests := SubmitTx(s.requests, user, ip, now, clock).0)
      case Approve(i, admin, code, now) =>
        s.(requests := s.requests[i := s.requests[i].(
          status := APPROVED, approvedAt := Some(now), decidedBy := Some(admin),
          codeHash := Some(Digest(i, s.requests[i].user, code)))])
      case Reject(i, admin, now) =>
        s.(requests := s.requests[i := s.requests[i].(
          status := REJECTED, rejectedAt := Some(now), decidedBy := Some(admin), codeHash := None)])
      case Redeem(i, user, _, password, now) =>
        s.(requests := s.requests[i := s.requests[i].(
             status := COMPLETED, consumedAt := Some(now), completedAt := Some(now), codeHash := None)],
           users := s.users[user := s.users[user].(password := password)],
           sessions := Revoke(s.sessions, user, now))
      case Miss(i) => s.(requests := s.requests[i := s.requests[i].(failedAttempts := s.requests[i].failedAttempts + 1)])
      case Manage(user, cashier, active) =>
        s.(users := s.users[user := s.users[user].(cashier := cashier, active := active)])
  }

  /** An admin's edit of a known account changes its two flags and nothing else. */
  lemma {:induction false} EditsAccount(s: State, user: string, cashier: bool, active: bool)
    requires user in s.users
    ensures Next(s, Manage(user, cashier, active)) == s.(users := s.users[user := User(cashier, active, s.users[user].password)])
  {
  }

  function After(s: State, steps: seq<Step>): State {
    if steps == [] then s else Next(After(s, steps[..|steps| - 1]), steps[|steps| - 1])
  }

  // ------------------------------------------------------------------ invariants

  ghost predicate RowOk(i: nat, r: Request) {
    && r.expiresAt == r.createdAt + TTL
    && (r.codeHash.Some? <==> r.status == APPROVED)
    && (r.codeHash.Some? ==> r.codeHash.value.request == i && r.codeHash.value.user == r.user)
    && (r.consumedAt.Some? <==> r.status == COMPLETED)
    && (r.consumedAt.Some? ==> r.consumedAt.value < r.expiresAt)
    && r.completedAt == r.consumedAt
    && (r.rejectedAt.Some? <==> r.status == REJECTED)
    && (r.status in {APPROVED, COMPLETED} ==> r.approvedAt.Some?)
    && (r.approvedAt.Some? ==> r.approvedAt.value < r.expiresAt)
    && (r.rejectedAt.Some? ==> r.rejectedAt.value < r.expiresAt)
  }

  ghost predicate OneActive(rs: seq<Request>) {
    forall i, j | 0 <= i < j < |rs| && Active(rs[i]) && Active(rs[j]) :: rs[i].user != rs[j].user
  }

  ghost predicate TableOk(rs: seq<Request>) {
    (forall i | 0 <= i < |rs| :: RowOk(i, rs[i])) && OneActive(rs)
  }

  ghost predicate Valid(s: State) { TableOk(s.requests) }

  lemma {:induction false} ExpireKeeps(rs: seq<Request>, now: int, only: Option<string>)
    requires TableOk(rs)
    ensures TableOk(Expire(rs, now, only))
  {
  }

  /** An update that makes no row of another account, and makes none active again. */
  lemma {:induction false} UpdateKeeps(rs: seq<Request>, i: nat, r: Request)
    requires TableOk(rs) && i < |rs| && RowOk(i, r)
    requires r.user == rs[i].user && (Active(r) ==> Active(rs[i]))
    ensures TableOk(rs[i := r])
  {
    hide RowOk;
  }

  lemma {:induction false} InsertKeeps(rs: seq<Request>, r: Request)
    requires TableOk(rs) && RowOk(|rs|, r) && !HasActive(rs, r.user)
    ensures TableOk(rs + [r])
  {
    hide RowOk;
  }

  lemma {:induction false} SubmitKeeps(rs: seq<Request>, user: string, ip: Option<string>, now: int, clock: int)
    requires TableOk(rs)
    ensures TableOk(SubmitTx(rs, user, ip, now, clock).0)
  {
    hide Since, Created, TableOk, HasActive;
    var swept := Expire(rs, clock, Some(user));
    ExpireKeeps(rs, clock, Some(user));
    if !HasActive(swept, user) {
      InsertKeeps(swept, NewRequest(user, ip, now));
    }
  }

  lemma {:induction false} NextValid(s: State, step: Step)
    requires Valid(s)
    ensures Valid(Next(s, step))
  {
    hide OneActive, SubmitTx, IpThrottled;
    if Takes(s, step) {
      var rs := s.requests;
      match step
      case Sweep(now) => ExpireKeeps(rs, now, None);
      case Submit(user, ip, now, clock) => SubmitKeeps(rs, user, ip, now, clock);
      case Approve(i, _, _, _) => UpdateKeeps(rs, i, Next(s, step).requests[i]);
      case Reject(i, _, _) => UpdateKeeps(rs, i, Next(s, step).requests[i]);
      case Redeem(i, _, _, _, _) => UpdateKeeps(rs, i, Next(s, step).requests[i]);
      case Miss(i) => UpdateKeeps(rs, i, Next(s, step).requests[i]);
      case Manage(_, _, _) =>
    }
  }

  /** In every reachable state the request table is as the design promises. */
  lemma {:induction false} AlwaysValid(s: State, steps: seq<Step>)
    requires Valid(s)
    ensures Valid(After(s, steps))
    decreases |steps|
  {
    if steps != [] {
      AlwaysValid(s, steps[..|steps| - 1]);
      NextValid(After(s, steps[..|steps| - 1]), steps[|steps| - 1]);
    }
  }

  /** What never changes in a row, and what never changes once it is finished. */
  predicate Persists(a: Request, b: Request) {
    && b.user == a.user && b.createdAt == a.createdAt && b.expiresAt == a.expiresAt && b.ip == a.ip
    && b.failedAttempts >= a.failedAttempts
    && (Terminal(a) ==> b == a.(failedAttempts := b.failedAttempts))
    && (a.status == APPROVED ==> b.status != PENDING && (b.status == APPROVED ==> b.codeHash == a.codeHash))
  }

  ghost predicate RowsPersist(a: seq<Request>, b: seq<Request>) {
    |a| <= |b| && forall i | 0 <= i < |a| :: Persists(a[i], b[i])
  }

  lemma {:induction false} NextPersists(s: State, step: Step)
    ensures RowsPersist(s.requests, Next(s, step).requests)
  {
    hide Created, Since, FromIp, HasActive;
  }

  /** Finished requests stay finished, deadlines never move, and an approval's code is never replaced. */
  lemma {:induction false} FinishedForever(s: State, steps: seq<Step>, k: nat)
    requires k <= |steps|
    ensures RowsPersist(After(s, steps[..k]).requests, After(s, steps).requests)
    decreases |steps|
  {
    if k == |steps| {
      assert steps[..k] == steps;
    } else {
      var front := steps[..|steps| - 1];
      FinishedForever(s, front, k);
      assert front[..k] == steps[..k];
      NextPersists(After(s, front), steps[|steps| - 1]);
      PersistsTransitive(After(s, steps[..k]).requests, After(s, front).requests, After(s, steps).requests);
    }
  }

  lemma {:induction false} PersistsTransitive(a: seq<Request>, b: seq<Request>, c: seq<Request>)
    requires RowsPersist(a, b) && RowsPersist(b, c)
    ensures RowsPersist(a, c)
  {
    forall i | 0 <= i < |a| ensures Persists(a[i], c[i]) {
      assert Persists(a[i], b[i]) && Persists(b[i], c[i]);
    }
  }

  // ---------------------------------------------------------- one code, one reset

  /** The k-th step of the run took effect. */
  predicate TookAt(s: State, steps: seq<Step>, k: nat)
    requires k < |steps|
  {
    Takes(After(s, steps[..k]), steps[k])
  }

  function Resets(s: State, steps: seq<Step>, i: nat): nat {
    if steps == [] then 0
    else
      var k := |steps| - 1;
      Resets(s, steps[..k], i) +
      if steps[k].Redeem? && steps[k].request == i && Takes(After(s, steps[..k]), steps[k]) then 1 else 0
  }

  predicate IsCompleted(s: State, i: nat) { i < |s.requests| && s.requests[i].status == COMPLETED }

  /** A request changes the password at most once, and exactly once iff it is COMPLETED. */
  lemma {:induction false} ResetOnce(s: State, steps: seq<Step>, i: nat)
    requires Valid(s) && !IsCompleted(s, i)
    ensures Resets(s, steps, i) == if IsCompleted(After(s, steps), i) then 1 else 0
    decreases |steps|
  {
    if steps != [] {
      var front := steps[..|steps| - 1];
      ResetOnce(s, front, i);
      AlwaysValid(s, front);
      CompletedStep(After(s, front), steps[|steps| - 1], i);
    }
  }

  lemma {:induction false} CompletedStep(s: State, step: Step, i: nat)
    requires Valid(s)
    ensures IsCompleted(Next(s, step), i) <==>
            IsCompleted(s, i) || (step.Redeem? && step.request == i && Takes(s, step))
    ensures step.Redeem? && Takes(s, step) ==> !IsCompleted(s, step.request)
  {
  }

  ghost predicate ApprovedWith(s: State, steps: seq<Step>, k: nat, i: nat, code: string) {
    k < |steps| && steps[k].Approve? && steps[k].request == i && steps[k].code == code && TookAt(s, steps, k)
  }

  /** An APPROVED request carries the hash of the code its own approval handed out. */
  ghost predicate CodeKnown(s: State, steps: seq<Step>, i: nat) {
    i < |After(s, steps).requests| && After(s, steps).requests[i].status == APPROVED ==>
      exists k: nat, code :: ApprovedWith(s, steps, k, i, code) &&
        After(s, steps).requests[i].codeHash == Some(Digest(i, After(s, steps).requests[i].user, code))
  }

  lemma {:induction false} TookEarlier(s: State, steps: seq<Step>, k: nat, i: nat, code: string)
    requires steps != [] && ApprovedWith(s, steps[..|steps| - 1], k, i, code)
    ensures ApprovedWith(s, steps, k, i, code)
  {
    assert steps[..|steps| - 1][..k] == steps[..k];
  }

  lemma {:induction false} CodesKnown(s: State, steps: seq<Step>, i: nat)
    requires Valid(s) && s.requests == []
    ensures CodeKnown(s, steps, i)
    decreases |steps|
  {
    if steps != [] {
      var front, step := steps[..|steps| - 1], steps[|steps| - 1];
      CodesKnown(s, front, i);
      var a, b := After(s, front), After(s, steps);
      if i < |b.requests| && b.requests[i].status == APPROVED {
        if i < |a.requests| && a.requests[i].status == APPROVED {
          var k: nat, code :| ApprovedWith(s, front, k, i, code) &&
                         a.requests[i].codeHash == Some(Digest(i, a.requests[i].user, code));
          NextPersists(a, step);
          assert Persists(a.requests[i], b.requests[i]);
          TookEarlier(s, steps, k, i, code);
        } else {
          assert step.Approve? && step.request == i && Takes(a, step);
          assert ApprovedWith(s, steps, |steps| - 1, i, step.code);
        }
      }
    }
  }

  /** Every reset redeems the code that an earlier approval of that very request handed out, for that request's account. */
  lemma {:induction false} ResetUsesOwnCode(s: State, steps: seq<Step>, m: nat)
    requires Valid(s) && s.requests == [] && m < |steps| && steps[m].Redeem? && TookAt(s, steps, m)
    ensures exists k: nat :: k < m && ApprovedWith(s, steps, k, steps[m].request, steps[m].code)
    ensures var r := After(s, steps[..m]).requests[steps[m].request];
            r.user == steps[m].user && steps[m].now < r.createdAt + TTL
  {
    var before, i := steps[..m], steps[m].request;
    CodesKnown(s, before, i);
    AlwaysValid(s, before);
    assert RowOk(i, After(s, before).requests[i]);
    var k: nat, code :| ApprovedWith(s, before, k, i, code) &&
                   After(s, before).requests[i].codeHash == Some(Digest(i, After(s, before).requests[i].user, code));
    assert before[..k] == steps[..k];
    assert ApprovedWith(s, steps, k, i, steps[m].code);
  }

  function PasswordResets(s: State, steps: seq<Step>, user: string): nat {
    if steps == [] then 0
    else
      var k := |steps| - 1;
      PasswordResets(s, steps[..k], user) +
      if steps[k].Redeem? && steps[k].user == user && Takes(After(s, steps[..k]), steps[k]) then 1 else 0
  }

  function CompletedOf(rs: seq<Request>, user: string): nat {
    if rs == [] then 0
    else CompletedOf(rs[..|rs| - 1], user) + if rs[|rs| - 1].user == user && rs[|rs| - 1].status == COMPLETED then 1 else 0
  }

  lemma {:induction false} CompletedUpdate(rs: seq<Request>, i: nat, r: Request, user: string)
    requires i < |rs| && r.user == rs[i].user && rs[i].status != COMPLETED
    ensures CompletedOf(rs[i := r], user) == CompletedOf(rs, user) + if r.user == user && r.status == COMPLETED then 1 else 0
    decreases |rs|
  {
    var front := rs[..|rs| - 1];
    if i == |rs| - 1 {
      assert rs[i := r][..|rs| - 1] == front;
    } else {
      assert rs[i := r][..|rs| - 1] == front[i := r];
      CompletedUpdate(front, i, r, user);
    }
  }

  lemma {:induction false} CompletedSame(a: seq<Request>, b: seq<Request>, user: string)
    requires |a| == |b| && forall i | 0 <= i < |a| :: a[i].user == b[i].user && (a[i].status == COMPLETED <==> b[i].status == COMPLETED)
    ensures CompletedOf(a, user) == CompletedOf(b, user)
    decreases |a|
  {
    if a != [] {
      CompletedSame(a[..|a| - 1], b[..|b| - 1], user);
    }
  }

  lemma {:induction false} CompletedSnoc(rs: seq<Request>, r: Request, user: string)
    ensures CompletedOf(rs + [r], user) == CompletedOf(rs, user) + if r.user == user && r.status == COMPLETED then 1 else 0
  {
    assert (rs + [r])[..|rs|] == rs;
  }

  lemma {:induction false} CompletedStepCount(s: State, step: Step, user: string)
    requires Valid(s)
    ensures CompletedOf(Next(s, step).requests, user) == CompletedOf(s.requests, user) +
            if step.Redeem? && step.user == user && Takes(s, step) then 1 else 0
  {
    hide CompletedOf, Created, Since, FromIp, HasActive, OneActive;
    var rs, next := s.requests, Next(s, step).requests;
    if step.Redeem? && Takes(s, step) {
      CompletedUpdate(rs, step.request, next[step.request], user);
    } else {
      CompletedSame(rs, next[..|rs|], user);
      if |next| > |rs| {
        assert next == next[..|rs|] + [next[|rs|]];
        CompletedSnoc(next[..|rs|], next[|rs|], user);
      } else {
        assert next[..|rs|] == next;
      }
    }
  }

  /** An account's password is reset exactly as often as it has COMPLETED requests. */
  lemma {:induction false} ResetsAreCompletions(s: State, steps: seq<Step>, user: string)
    requires Valid(s) && s.requests == []
    ensures PasswordResets(s, steps, user) == CompletedOf(After(s, steps).requests, user)
    ensures PasswordResets(s, steps, user) == 0 && user in s.users ==>
              user in After(s, steps).users && After(s, steps).users[user].password == s.users[user].password
    decreases |steps|
  {
    if steps != [] {
      var front := steps[..|steps| - 1];
      ResetsAreCompletions(s, front, user);
      AlwaysValid(s, front);
      CompletedStepCount(After(s, front), steps[|steps| - 1], user);
    }
  }

  // ------------------------------------------------------------- five in an hour

  /** Requests are submitted one at a time: each captures its instant no earlier than the one before. */
  predicate OnTime(steps: seq<Step>) {
    forall i, j | 0 <= i < j < |steps| && steps[i].Submit? && steps[j].Submit? :: steps[i].now <= steps[j].now
  }

  lemma {:induction false} CreatedSame(a: seq<Request>, b: seq<Request>, user: string)
    requires |a| == |b| && forall i | 0 <= i < |a| :: a[i].user == b[i].user && a[i].createdAt == b[i].createdAt
    ensures Created(a, user) == Created(b, user)
    decreases |a|
  {
    if a != [] {
      CreatedSame(a[..|a| - 1], b[..|b| - 1], user);
    }
  }

  lemma {:induction false} CreatedSnoc(rs: seq<Request>, r: Request, user: string)
    ensures Created(rs + [r], user) == Created(rs, user) + if r.user == user then [r.createdAt] else []
  {
    assert (rs + [r])[..|rs|] == rs;
  }

  lemma {:induction false} CreatedStep(s: State, step: Step, user: string)
    ensures var before, after := Created(s.requests, user), Created(Next(s, step).requests, user);
            || after == before
            || (step.Submit? && after == before + [step.now] && |Since(before, step.now - HOUR)| < PER_ACCOUNT_PER_HOUR)
  {
    hide Created, Since, HasActive;
    var rs, next := s.requests, Next(s, step).requests;
    CreatedSame(rs, next[..|rs|], user);
    if |next| > |rs| {
      assert next == next[..|rs|] + [next[|rs|]];
      CreatedSame(Expire(rs, step.clock, Some(step.user)), rs, user);
      CreatedSnoc(next[..|rs|], next[|rs|], user);
      assert Created(rs, user) + [] == Created(rs, user);
    } else {
      assert next[..|rs|] == next;
    }
  }

  /** The last submission of a run, if any, bounds every creation time. */
  ghost predicate NotAfterLast(ts: seq<int>, steps: seq<Step>) {
    forall x | x in ts :: exists i :: 0 <= i < |steps| && steps[i].Submit? && steps[i].now == x
  }

  lemma {:induction false} SlowStep(ts: seq<int>, now: int, limit: nat)
    requires Ascending(ts) && AllApart(ts, limit, HOUR) && AtMost(ts, now) && limit > 0
    requires |Since(ts, now - HOUR)| < limit
    ensures Ascending(ts + [now]) && AllApart(ts + [now], limit, HOUR)
  {
    AscendingSnoc(ts, now);
    PickFromTail(ts, now - HOUR, limit);
    var all := ts + [now];
    forall i: nat ensures Apart(all, i, limit, HOUR) {
      assert Apart(ts, i, limit, HOUR);
    }
  }

  /** One more step of a run on time keeps the creation times spaced, when it adds at most its own instant to too few. */
  lemma {:induction false} NextSpaced(ts: seq<int>, after: seq<int>, steps: seq<Step>, limit: nat)
    requires steps != [] && OnTime(steps) && limit > 0
    requires Ascending(ts) && AllApart(ts, limit, HOUR) && NotAfterLast(ts, steps[..|steps| - 1])
    requires var step := steps[|steps| - 1];
             after == ts || (step.Submit? && after == ts + [step.now] && |Since(ts, step.now - HOUR)| < limit)
    ensures Ascending(after) && AllApart(after, limit, HOUR) && NotAfterLast(after, steps)
  {
    hide Ascending, AllApart, Since;
    var front, step := steps[..|steps| - 1], steps[|steps| - 1];
    forall x | x in ts ensures exists i :: 0 <= i < |steps| - 1 && steps[i].Submit? && steps[i].now == x {
      var i :| 0 <= i < |front| && front[i].Submit? && front[i].now == x;
      assert steps[i] == front[i];
    }
    if after != ts {
      SlowStep(ts, step.now, limit);
      assert steps[|steps| - 1].now == step.now;
    }
  }

  lemma {:induction false} NoneSpaced(steps: seq<Step>, limit: nat)
    ensures Ascending([]) && AllApart([], limit, HOUR) && NotAfterLast([], steps)
  {
  }

  lemma {:induction false} FrontOnTime(steps: seq<Step>)
    requires OnTime(steps) && steps != []
    ensures OnTime(steps[..|steps| - 1])
  {
  }

  lemma {:induction false} NoCreated(user: string)
    ensures Created([], user) == []
  {
  }

  lemma {:induction false} CreationsSpaced(s: State, steps: seq<Step>, user: string)
    requires s.requests == [] && OnTime(steps)
    ensures var ts := Created(After(s, steps).requests, user);
            Ascending(ts) && AllApart(ts, PER_ACCOUNT_PER_HOUR, HOUR) && NotAfterLast(ts, steps)
    decreases |steps|
  {
    hide Created, Next, AllApart, Ascending, Since, OnTime, NotAfterLast;
    if steps == [] {
      NoneSpaced(steps, PER_ACCOUNT_PER_HOUR);
      NoCreated(user);
    } else {
      var front, step := steps[..|steps| - 1], steps[|steps| - 1];
      FrontOnTime(steps);
      CreationsSpaced(s, front, user);
      CreatedStep(After(s, front), step, user);
      NextSpaced(Created(After(s, front).requests, user), Created(After(s, steps).requests, user), steps, PER_ACCOUNT_PER_HOUR);
    }
  }

  /** No rolling hour of any run holds more than five requests of one account. */
  lemma {:induction false} FiveRequestsPerHour(s: State, steps: seq<Step>, user: string, from: int)
    requires s.requests == [] && OnTime(steps)
    ensures CountIn(Created(After(s, steps).requests, user), from, from + HOUR) <= PER_ACCOUNT_PER_HOUR
  {
    CreationsSpaced(s, steps, user);
    FewIn(Created(After(s, steps).requests, user), from, from + HOUR, PER_ACCOUNT_PER_HOUR);
  }

  // ------------------------------------------------------------- ten from an address

  predicate ShortSubmits(steps: seq<Step>) {
    forall i | 0 <= i < |steps| :: steps[i].Submit? ==> ShortIp(steps[i].ip)
  }

  predicate AddressKept(ip: string, steps: seq<Step>) { ip != "" && (|ip| < IP_LENGTH || ShortSubmits(steps)) }

  lemma {:induction false} FromIpSame(a: seq<Request>, b: seq<Request>, ip: string)
    requires |a| == |b| && forall i | 0 <= i < |a| :: a[i].ip == b[i].ip && a[i].createdAt == b[i].createdAt
    ensures FromIp(a, ip) == FromIp(b, ip)
    decreases |a|
  {
    if a != [] {
      FromIpSame(a[..|a| - 1], b[..|b| - 1], ip);
    }
  }

  lemma {:induction false} FromIpSnoc(rs: seq<Request>, r: Request, ip: string)
    ensures FromIp(rs + [r], ip) == FromIp(rs, ip) + if r.ip == Some(ip) then [r.createdAt] else []
  {
    assert (rs + [r])[..|rs|] == rs;
  }

  lemma {:induction false} FromIpStep(s: State, step: Step, ip: string)
    requires ip != "" && (|ip| < IP_LENGTH || (step.Submit? ==> ShortIp(step.ip)))
    ensures var before, after := FromIp(s.requests, ip), FromIp(Next(s, step).requests, ip);
            || after == before
            || (step.Submit? && after == before + [step.now] && |Since(before, step.now - HOUR)| < PER_IP_PER_HOUR)
  {
    hide FromIp, Since, HasActive, Created;
    var rs, next := s.requests, Next(s, step).requests;
    FromIpSame(rs, next[..|rs|], ip);
    if |next| > |rs| {
      assert next == next[..|rs|] + [next[|rs|]];
      FromIpSnoc(next[..|rs|], next[|rs|], ip);
      assert FromIp(rs, ip) + [] == FromIp(rs, ip);
    } else {
      assert next[..|rs|] == next;
    }
  }

  lemma {:induction false} NoFromIp(ip: string)
    ensures FromIp([], ip) == []
  {
  }

  lemma {:induction false} FromIpSpaced(s: State, steps: seq<Step>, ip: string)
    requires s.requests == [] && OnTime(steps) && AddressKept(ip, steps)
    ensures var ts := FromIp(After(s, steps).requests, ip);
            Ascending(ts) && AllApart(ts, PER_IP_PER_HOUR, HOUR) && NotAfterLast(ts, steps)
    decreases |steps|
  {
    hide FromIp, Next, AllApart, Ascending, Since, OnTime, NotAfterLast;
    if steps == [] {
      NoneSpaced(steps, PER_IP_PER_HOUR);
      NoFromIp(ip);
    } else {
      var front, step := steps[..|steps| - 1], steps[|steps| - 1];
      FrontOnTime(steps);
      FromIpSpaced(s, front, ip);
      FromIpStep(After(s, front), step, ip);
      NextSpaced(FromIp(After(s, front).requests, ip), FromIp(After(s, steps).requests, ip), steps, PER_IP_PER_HOUR);
    }
  }

  /** No rolling hour of any run holds more than ten requests filed from one address. */
  lemma {:induction false} TenRequestsPerAddress(s: State, steps: seq<Step>, ip: string, from: int)
    requires s.requests == [] && OnTime(steps) && AddressKept(ip, steps)
    ensures CountIn(FromIp(After(s, steps).requests, ip), from, from + HOUR) <= PER_IP_PER_HOUR
  {
    FromIpSpaced(s, steps, ip);
    FewIn(FromIp(After(s, steps).requests, ip), from, from + HOUR, PER_IP_PER_HOUR);
  }

  // ------------------------------------------------------------------- the service

  datatype Failure = NotFound | RequestExpired | AccountNotActive | NotActionable | Throttled | WeakPassword | VerificationFailed

  /** findFirst over APPROVED, unexpired, unconsumed requests of an account, newest first. */
  function Redeemable(rs: seq<Request>, user: string, now: int): (r: Option<nat>)
    ensures r.Some? ==> r.value < |rs| && rs[r.value].user == user && rs[r.value].status == APPROVED
    ensures r.Some? ==> rs[r.value].expiresAt > now && rs[r.value].consumedAt.None?
    ensures r.None? ==> forall i | 0 <= i < |rs| && rs[i].user == user && rs[i].status == APPROVED ::
                          rs[i].expiresAt <= now || rs[i].consumedAt.Some?
  {
    if rs == [] then None
    else
      var last := rs[|rs| - 1];
      if last.user == user && last.status == APPROVED && last.expiresAt > now && last.consumedAt.None? then Some(|rs| - 1)
      else Redeemable(rs[..|rs| - 1], user, now)
  }

  /** A code typed for an account opens its approved, unexpired request. */
  ghost predicate Opens(s: State, user: string, typed: string, now: int) {
    && Eligible(s.users, user)
    && exists i :: 0 <= i < |s.requests| && s.requests[i].status == APPROVED && s.requests[i].user == user
         && s.requests[i].expiresAt > now && Normalize(typed).Some?
         && s.requests[i].codeHash == Some(Digest(i, user, Normalize(typed).value))
  }

  /** The request exists, has not expired and is within its deadline. */
  predicate IsLive(s: State, request: nat, now: int) {
    request < |s.requests| && s.requests[request].status != EXPIRED && s.requests[request].expiresAt > now
  }

  /** A decision on an unknown request is not found, one on a request past its time has expired, and no other error says so. */
  predicate Refused(s: State, request: nat, now: int, f: Failure) {
    && (f == NotFound <==> request >= |s.requests|)
    && (f == RequestExpired <==> request < |s.requests| && !IsLive(s, request, now))
    && f in {NotFound, RequestExpired, AccountNotActive, NotActionable}
  }

  // ----------------------------------------------- the table, row by row, in its own terms

  /** An active cashier. */
  predicate MayRecover(users: map<string, User>, user: string) {
    user in users && users[user].cashier && users[user].active
  }

  /** The rows of an account, or from an address, created at or after an instant. */
  function RowsOf(rs: seq<Request>, user: string, from: int): set<nat> {
    set i: nat | i < |rs| && rs[i].user == user && rs[i].createdAt >= from
  }

  function RowsFrom(rs: seq<Request>, ip: string, from: int): set<nat> {
    set i: nat | i < |rs| && rs[i].ip == Some(ip) && rs[i].createdAt >= from
  }

  /** The account has a request that waits for a decision or a code, and whose deadline has not passed. */
  predicate Waiting(rs: seq<Request>, user: string, clock: int) {
    exists i :: 0 <= i < |rs| && rs[i].user == user && (rs[i].status == PENDING || rs[i].status == APPROVED) && rs[i].expiresAt > clock
  }

  /** A row after the ones past their deadline, of one account or of all, have been marked. */
  predicate SweptTo(a: Request, b: Request, clock: int, only: Option<string>) {
    if (a.status == PENDING || a.status == APPROVED) && a.expiresAt <= clock && (only.None? || a.user == only.value)
    then b == a.(status := EXPIRED, codeHash := None) else b == a
  }

  ghost predicate AllSwept(a: seq<Request>, b: seq<Request>, clock: int, only: Option<string>) {
    |a| == |b| && forall i | 0 <= i < |a| :: SweptTo(a[i], b[i], clock, only)
  }

  lemma {:induction false} RowsOfSnoc(rs: seq<Request>, r: Request, user: string, from: int)
    ensures |RowsOf(rs + [r], user, from)| == |RowsOf(rs, user, from)| + if r.user == user && r.createdAt >= from then 1 else 0
  {
    var all := rs + [r];
    assert forall i: nat | i < |rs| :: all[i] == rs[i];
    assert RowsOf(all, user, from) ==
           RowsOf(rs, user, from) + if r.user == user && r.createdAt >= from then {|rs|} else {};
  }

  lemma {:induction false} CountIsRows(rs: seq<Request>, user: string, from: int)
    ensures |Since(Created(rs, user), from)| == |RowsOf(rs, user, from)|
    decreases |rs|
  {
    hide Since, Created, RowsOf;
    if rs == [] {
      CountIsRowsNone(user, from);
    } else {
      var front, last := rs[..|rs| - 1], rs[|rs| - 1];
      assert rs == front + [last];
      CountIsRows(front, user, from);
      CreatedSnoc(front, last, user);
      RowsOfSnoc(front, last, user, from);
      SinceSnoc(Created(front, user), last.createdAt, from);
      assert Created(front, user) + [] == Created(front, user);
    }
  }

  lemma {:induction false} CountIsRowsNone(user: string, from: int)
    ensures |Since(Created([], user), from)| == |RowsOf([], user, from)|
  {
  }

  lemma {:induction false} RowsFromSnoc(rs: seq<Request>, r: Request, ip: string, from: int)
    ensures |RowsFrom(rs + [r], ip, from)| == |RowsFrom(rs, ip, from)| + if r.ip == Some(ip) && r.createdAt >= from then 1 else 0
  {
    var all := rs + [r];
    assert forall i: nat | i < |rs| :: all[i] == rs[i];
    assert RowsFrom(all, ip, from) ==
           RowsFrom(rs, ip, from) + if r.ip == Some(ip) && r.createdAt >= from then {|rs|} else {};
  }

  lemma {:induction false} CountIsRowsFrom(rs: seq<Request>, ip: string, from: int)
    ensures |Since(FromIp(rs, ip), from)| == |RowsFrom(rs, ip, from)|
    decreases |rs|
  {
    hide Since, FromIp, RowsFrom;
    if rs == [] {
      CountIsRowsFromNone(ip, from);
    } else {
      var front, last := rs[..|rs| - 1], rs[|rs| - 1];
      assert rs == front + [last];
      CountIsRowsFrom(front, ip, from);
      FromIpSnoc(front, last, ip);
      RowsFromSnoc(front, last, ip, from);
      SinceSnoc(FromIp(front, ip), last.createdAt, from);
      assert FromIp(front, ip) + [] == FromIp(front, ip);
    }
  }

  lemma {:induction false} CountIsRowsFromNone(ip: string, from: int)
    ensures |Since(FromIp([], ip), from)| == |RowsFrom([], ip, from)|
  {
  }

  lemma {:induction false} AddressCount(rs: seq<Request>, ip: Option<string>, now: int)
    ensures IpThrottled(rs, ip, now) <==> ip.Some? && ip.value != "" && |RowsFrom(rs, ip.value, now - 3_600_000)| >= 10
  {
    hide Since, FromIp, RowsFrom;
    if ip.Some? {
      CountIsRowsFrom(rs, ip.value, now - 3_600_000);
    }
  }

  lemma {:induction false} SweptRows(rs: seq<Request>, clock: int, only: Option<string>)
    ensures AllSwept(rs, Expire(rs, clock, only), clock, only)
  {
  }

  /** The submit transaction decides by the counts and rows of the table as it was. */
  lemma {:induction false} SubmitDecides(rs: seq<Request>, user: string, ip: Option<string>, now: int, clock: int)
    ensures var (after, outcome) := SubmitTx(rs, user, ip, now, clock);
            var recent := |RowsOf(rs, user, now - 3_600_000)|;
            && (outcome == THROTTLED <==> recent >= 5)
            && (outcome == DUPLICATE <==> recent < 5 && Waiting(rs, user, clock))
            && (outcome == CREATED <==> recent < 5 && !Waiting(rs, user, clock))
            && (outcome == THROTTLED ==> AllSwept(rs, after, clock, Some(user)))
            && (outcome == DUPLICATE ==> after == rs)
            && (outcome == CREATED ==>
                  && |after| == |rs| + 1 && AllSwept(rs, after[..|rs|], clock, Some(user))
                  && Filed(after[|rs|], user, ip, now))
  {
    hide Since, Created, RowsOf;
    var swept := Expire(rs, clock, Some(user));
    SweptRows(rs, clock, Some(user));
    CreatedSame(swept, rs, user);
    CountIsRows(rs, user, now - 3_600_000);
    WaitingIsActive(rs, user, clock);
    assert (swept + [NewRequest(user, ip, now)])[..|rs|] == swept;
  }

  lemma {:induction false} WaitingIsActive(rs: seq<Request>, user: string, clock: int)
    ensures Waiting(rs, user, clock) <==> HasActive(Expire(rs, clock, Some(user)), user)
  {
    var swept := Expire(rs, clock, Some(user));
    if i :| 0 <= i < |rs| && rs[i].user == user && (rs[i].status == PENDING || rs[i].status == APPROVED) && rs[i].expiresAt > clock {
      assert swept[i].user == user && Active(swept[i]);
    }
    if i :| 0 <= i < |swept| && swept[i].user == user && Active(swept[i]) {
      assert rs[i].user == user && rs[i].status == swept[i].status;
    }
  }

  /** An approved request of the account, in time and not used. */
  predicate IsOpen(rs: seq<Request>, i: nat, user: string, now: int) {
    i < |rs| && rs[i].user == user && rs[i].status == APPROVED && rs[i].expiresAt > now && rs[i].consumedAt.None?
  }

  lemma {:induction false} RedeemableIsOpen(rs: seq<Request>, user: string, now: int)
    ensures Redeemable(rs, user, now).Some? <==> exists i: nat :: IsOpen(rs, i, user, now)
    ensures Redeemable(rs, user, now).Some? ==> IsOpen(rs, Redeemable(rs, user, now).value, user, now)
  {
    var found := Redeemable(rs, user, now);
    if found.Some? {
      assert IsOpen(rs, found.value, user, now);
    } else {
      forall i: nat ensures !IsOpen(rs, i, user, now) {
        assert i < |rs| && rs[i].user == user && rs[i].status == APPROVED ==> rs[i].expiresAt <= now || rs[i].consumedAt.Some?;
      }
    }
  }

  lemma {:induction false} MatchTakes(s: State, step: Step)
    requires step.Redeem? && IsOpen(s.requests, step.request, step.user, step.now) && step.user in s.users
    requires s.requests[step.request].codeHash == Some(Digest(step.request, step.user, step.code))
    ensures Takes(s, step)
  {
  }

  /** A request just filed: pending, for fifteen minutes, with no code and nothing decided. */
  predicate Filed(r: Request, user: string, ip: Option<string>, now: int) {
    && r.user == user && r.status == PENDING && r.createdAt == now && r.expiresAt == now + 900_000
    && r.ip == (if ip.Some? && |ip.value| > 64 then Some(ip.value[..64]) else ip)
    && r.approvedAt.None? && r.rejectedAt.None? && r.decidedBy.None? && r.codeHash.None? && r.failedAttempts == 0
    && r.consumedAt.None? && r.completedAt.None?
  }

  class CashierRecoveryService {
    var state: State
    const emails: map<string, string>      // users.email is unique

    constructor (state: State, emails: map<string, string>)
      requires Valid(state)
      ensures this.state == state && this.emails == emails
    {
      this.state := state;
      this.emails := emails;
    }

    function Account(email: string): Option<string> { if email in emails then Some(emails[email]) else None }

    method ExpireStaleRequests(now: int)
      modifies this
      ensures state == Next(old(state), Sweep(now))
      ensures AllSwept(old(state).requests, state.requests, now, None)
      ensures state.users == old(state).users && state.sessions == old(state).sessions
    {
      state := state.(requests := Expire(state.requests, now, None));
    }

    method SubmitRecoveryRequest(email: string, ip: Option<string>, now: int, clock: int) returns (r: Result<Submitted, Failure>)
      requires Valid(state) && clock >= now
      modifies this
      ensures Valid(state)
      ensures Account(email).Some? ==> state == Next(old(state), Submit(Account(email).value, ip, now, clock))
      ensures Account(email).None? ==> state == old(state)
      ensures r.Err? <==> IpThrottled(old(state.requests), ip, now)
      ensures r == Ok(CREATED) || r == Ok(DUPLICATE) ==> Account(email).Some? && HasActive(state.requests, Account(email).value)
      ensures r == Ok(DUPLICATE) ==> state == old(state)
      ensures var rs := old(state).requests;
              r.Err? <==> ip.Some? && ip.value != "" && |RowsFrom(rs, ip.value, now - 3_600_000)| >= 10
      ensures r.Err? ==> r == Err(Throttled) && state == old(state)
      ensures state.users == old(state).users && state.sessions == old(state).sessions
      ensures r.Ok? ==>
                var rs := old(state).requests;
                if email !in emails || !MayRecover(old(state).users, emails[email]) then r == Ok(IGNORED) && state == old(state)
                else
                  var user := emails[email];
                  if |RowsOf(rs, user, now - 3_600_000)| >= 5 then
                    r == Ok(THROTTLED) && AllSwept(rs, state.requests, clock, Some(user))
                  else if Waiting(rs, user, clock) then r == Ok(DUPLICATE) && state == old(state)
                  else
                    && r == Ok(CREATED) && |state.requests| == |rs| + 1
                    && AllSwept(rs, state.requests[..|rs|], clock, Some(user)) && Filed(state.requests[|rs|], user, ip, now)
    {
      hide Since, Created, FromIp, RowsOf, RowsFrom, AllSwept, Filed, Waiting;
      AddressCount(state.requests, ip, now);
      if IpThrottled(state.requests, ip, now) {
        return Err(Throttled);
      }
      var user := Account(email);
      if user.None? || !Eligible(state.users, user.value) {
        return Ok(IGNORED);
      }
      NextValid(state, Submit(user.value, ip, now, clock));
      SubmitDecides(state.requests, user.value, ip, now, clock);
      var (requests, outcome) := SubmitTx(state.requests, user.value, ip, now, clock);
      if outcome == CREATED {
        assert requests[|requests| - 1].user == user.value && Active(requests[|requests| - 1]);
      } else if outcome == DUPLICATE {
        var swept := Expire(state.requests, clock, Some(user.value));
        var i :| 0 <= i < |swept| && swept[i].user == user.value && Active(swept[i]);
        assert state.requests[i].user == user.value && Active(state.requests[i]);
      }
      state := state.(requests := requests);
      r := Ok(outcome);
    }

    /** Why an approval or rejection did not match. */
    method ClassifyDecisionFailure(request: nat, approving: bool, now: int) returns (f: Failure)
      ensures f == if request >= |state.requests| then NotFound
                   else if state.requests[request].status == EXPIRED || state.requests[request].expiresAt <= now then RequestExpired
                   else if approving && !Eligible(state.users, state.requests[request].user) then AccountNotActive
                   else NotActionable
    {
      if request >= |state.requests| {
        return NotFound;
      }
      var row := state.requests[request];
      if row.status == EXPIRED || row.expiresAt <= now {
        return RequestExpired;
      }
      if approving && !Eligible(state.users, row.user) {
        return AccountNotActive;
      }
      f := NotActionable;
    }

    /** `code` is the new code in normal form; it is handed out only when the approval took. */
    method ApproveRecoveryRequest(request: nat, admin: string, code: string, now: int) returns (r: Result<string, Failure>)
      requires Valid(state)
      modifies this
      ensures Valid(state)
      ensures var swept := Next(old(state), Sweep(now));
              && state == Next(swept, Approve(request, admin, code, now))
              && (r.Ok? <==> Takes(swept, Approve(request, admin, code, now)))
              && (r.Ok? ==> r.value == code && state.requests[request].expiresAt == old(state.requests)[request].expiresAt)
              && (r.Err? ==> state == swept)
              && (r.Err? ==> Refused(swept, request, now, r.error))
              && (r == Err(AccountNotActive) <==> IsLive(swept, request, now) && !Eligible(swept.users, swept.requests[request].user))
              && (r == Err(NotActionable) <==> IsLive(swept, request, now) && Eligible(swept.users, swept.requests[request].user)
                                               && swept.requests[request].status != PENDING)
      ensures state.users == old(state).users && state.sessions == old(state).sessions
      ensures var rs := old(state).requests;
              && (r.Ok? <==> request < |rs| && rs[request].status == PENDING && rs[request].expiresAt > now
                             && MayRecover(old(state).users, rs[request].user))
              && (r.Err? ==> AllSwept(rs, state.requests, now, None))
              && (r.Ok? ==>
                    && |state.requests| == |rs|
                    && (forall i | 0 <= i < |rs| && i != request :: SweptTo(rs[i], state.requests[i], now, None))
                    && state.requests[request] == rs[request].(
                         status := APPROVED, approvedAt := Some(now), decidedBy := Some(admin),
                         codeHash := Some(Digest(request, rs[request].user, code))))
    {
      ghost var before := state;
      ExpireStaleRequests(now);
      NextValid(before, Sweep(now));
      NextValid(state, Approve(request, admin, code, now));
      if request >= |state.requests| {
        return Err(NotFound);
      }
      var row := state.requests[request];
      if row.status == PENDING && row.expiresAt > now && Eligible(state.users, row.user) {
        state := state.(requests := state.requests[request := row.(
          status := APPROVED, approvedAt := Some(now), decidedBy := Some(admin), codeHash := Some(Digest(request, row.user, code)))]);
        return Ok(code);
      }
      var f := ClassifyDecisionFailure(request, true, now);
      r := Err(f);
    }

    method RejectRecoveryRequest(request: nat, admin: string, now: int) returns (r: Result<(), Failure>)
      requires Valid(state)
      modifies this
      ensures Valid(state)
      ensures var swept := Next(old(state), Sweep(now));
              && state == Next(swept, Reject(request, admin, now))
              && (r.Ok? <==> Takes(swept, Reject(request, admin, now)))
              && (r.Err? ==> state == swept)
              && (r.Err? ==> Refused(swept, request, now, r.error) && r.error != AccountNotActive)
              && (r == Err(NotActionable) <==> IsLive(swept, request, now) && Terminal(swept.requests[request]))
      ensures state.users == old(state).users && state.sessions == old(state).sessions
      ensures var rs := old(state).requests;
              && (r.Ok? <==> request < |rs| && (rs[request].status == PENDING || rs[request].status == APPROVED)
                             && rs[request].expiresAt > now)
              && (r.Err? ==> AllSwept(rs, state.requests, now, None))
              && (r.Ok? ==>
                    && |state.requests| == |rs|
                    && (forall i | 0 <= i < |rs| && i != request :: SweptTo(rs[i], state.requests[i], now, None))
                    && state.requests[request] == rs[request].(
                         status := REJECTED, rejectedAt := Some(now), decidedBy := Some(admin), codeHash := None))
    {
      ghost var before := state;
      ExpireStaleRequests(now);
      NextValid(before, Sweep(now));
      NextValid(state, Reject(request, admin, now));
      if request >= |state.requests| {
        return Err(NotFound);
      }
      var row := state.requests[request];
      if Active(row) && row.expiresAt > now {
        state := state.(requests := state.requests[request := row.(
          status := REJECTED, rejectedAt := Some(now), decidedBy := Some(admin), codeHash := None)]);
        return Ok(());
      }
      var f := ClassifyDecisionFailure(request, false, now);
      r := Err(f);
    }

    method CountMiss(request: nat)
      requires Valid(state) && request < |state.requests|
      modifies this
      ensures Valid(state) && state == Next(old(state), Miss(request))
      ensures state.users == old(state).users && state.sessions == old(state).sessions
      ensures var r := old(state).requests[request];
              state.requests == old(state).requests[request := r.(failedAttempts := r.failedAttempts + 1)]
    {
      NextValid(state, Miss(request));
      var r := state.requests[request];
      state := state.(requests := state.requests[request := r.(failedAttempts := r.failedAttempts + 1)]);
    }

    /** The request is completed, this account gets this password and loses its sessions, and nothing else changes. */
    static ghost predicate Redeemed(a: State, b: State, request: nat, user: string, password: string, now: int) {
      && request < |a.requests| && user in a.users
      && b.requests == a.requests[request := a.requests[request].(
           status := COMPLETED, consumedAt := Some(now), completedAt := Some(now), codeHash := None)]
      && b.users == a.users[user := a.users[user].(password := password)]
      && |b.sessions| == |a.sessions|
      && (forall i | 0 <= i < |a.sessions| ::
            b.sessions[i] == if a.sessions[i].user == user && a.sessions[i].revokedAt.None?
                             then a.sessions[i].(revokedAt := Some(now)) else a.sessions[i])
    }

    /** The reset transaction: the request, the password and the sessions, together. */
    method CompleteReset(request: nat, user: string, code: string, password: string, now: int)
      requires Valid(state) && Takes(state, Redeem(request, user, code, password, now))
      modifies this
      ensures Valid(state) && state == Next(old(state), Redeem(request, user, code, password, now))
      ensures user in state.users && state.users[user].password == password
      ensures forall i | 0 <= i < |state.sessions| && state.sessions[i].user == user :: state.sessions[i].revokedAt.Some?
      ensures Redeemed(old(state), state, request, user, password, now)
    {
      NextValid(state, Redeem(request, user, code, password, now));
      state := state.(
        requests := state.requests[request := state.requests[request].(
          status := COMPLETED, consumedAt := Some(now), completedAt := Some(now), codeHash := None)],
        users := state.users[user := state.users[user].(password := password)],
        sessions := Revoke(state.sessions, user, now));
    }

    /**
     * The reset succeeds exactly when the attempt is not throttled, the new
     * password is strong and the typed code opens the account's request; then
     * request, password and sessions change together.  A throttled or failed
     * attempt is recorded under the hash of the email.
     */
    method ResetPasswordWithCode(email: string, subject: string, typed: string, newPassword: string, ip: Option<string>,
                                 audit: AuditLog, now: int, at: int) returns (r: Result<(), Failure>)
      requires Valid(state)
      modifies this, audit
      ensures Valid(state)
      ensures r == Err(Throttled) <==> Check(old(audit.rows), Some(subject), ip, now).blocked
      ensures var user := if r != Err(Throttled) && Account(email).Some? && Eligible(old(state.users), Account(email).value)
                          then Account(email) else None;
              audit.rows == old(audit.rows) + if r == Ok(()) || r == Err(WeakPassword) then []
                                              else Outcome(old(audit.rows), Verify(subject, user, ip, false, false, now, at))
      ensures r.Err? && r.error != Throttled ==> r.error == if StrongPassword(newPassword) then VerificationFailed else WeakPassword
      ensures r.Ok? <==> !Check(old(audit.rows), Some(subject), ip, now).blocked && StrongPassword(newPassword) && Account(email).Some?
                         && Opens(old(state), Account(email).value, typed, now)
      ensures r.Ok? ==>
                && Account(email).value in state.users && state.users[Account(email).value].password == newPassword
                && (forall i | 0 <= i < |state.sessions| && state.sessions[i].user == Account(email).value ::
                      state.sessions[i].revokedAt.Some?)
                && exists i :: 0 <= i < |state.requests| && Normalize(typed).Some? &&
                     var step := Redeem(i, Account(email).value, Normalize(typed).value, newPassword, now);
                     Takes(old(state), step) && state == Next(old(state), step)
      ensures r.Ok? ==> exists i: nat ::
                && Redeemed(old(state), state, i, emails[email], newPassword, now)
                && old(state).requests[i].user == emails[email] && old(state).requests[i].status == APPROVED
                && old(state).requests[i].expiresAt > now && Normalize(typed).Some?
                && old(state).requests[i].codeHash == Some(Digest(i, emails[email], Normalize(typed).value))
      ensures r == Err(VerificationFailed) ==>
                var rs := old(state).requests;
                if email in emails && MayRecover(old(state).users, emails[email])
                   && exists i: nat :: IsOpen(rs, i, emails[email], now)
                then exists i: nat :: IsOpen(rs, i, emails[email], now)
                       && state.requests == rs[i := rs[i].(failedAttempts := rs[i].failedAttempts + 1)]
                else state.requests == rs
      ensures r.Err? && r.error != VerificationFailed ==> state == old(state)
      ensures r.Err? ==> state.users == old(state.users) && state.sessions == old(state.sessions)
                         && (state == old(state) || exists i :: 0 <= i < |old(state.requests)| && state == Next(old(state), Miss(i)))
    {
      hide Check, Normalize, StrongPassword, TableOk, Opens, IsOpen, Redeemed, Redeemable, Takes, Next;
      var blocked := audit.EnforceThrottle(subject, ip, now, at);
      if blocked {
        return Err(Throttled);
      }
      if !StrongPassword(newPassword) {
        return Err(WeakPassword);
      }
      var normalized := Normalize(typed);
      var user := Account(email);
      var eligible := user.Some? && Eligible(state.users, user.value);
      var request := if eligible then Redeemable(state.requests, user.value, now) else None;
      if eligible {
        RedeemableIsOpen(state.requests, user.value, now);
      }
      if request.Some? {
        OnlyOneOpens(state, user.value, typed, now, request.value);
        var row := state.requests[request.value];
        if normalized.Some? && row.codeHash == Some(Digest(request.value, user.value, normalized.value)) {
          var step := Redeem(request.value, user.value, normalized.value, newPassword, now);
          MatchTakes(state, step);
          CompleteReset(request.value, user.value, normalized.value, newPassword, now);
          return Ok(());
        }
        CountMiss(request.value);
      } else if user.Some? {
        NothingOpens(state, user.value, typed, now);
      }
      audit.RecordVerification(subject, if eligible then user else None, ip, false, false, at);
      r := Err(VerificationFailed);
    }
  }

  lemma {:induction false} OnlyOneOpens(s: State, user: string, typed: string, now: int, i: nat)
    requires Valid(s) && i < |s.requests| && s.requests[i].user == user && s.requests[i].status == APPROVED
    requires s.requests[i].expiresAt > now && Eligible(s.users, user)
    ensures Opens(s, user, typed, now) <==>
            Normalize(typed).Some? && s.requests[i].codeHash == Some(Digest(i, user, Normalize(typed).value))
  {
  }

  lemma {:induction false} NothingOpens(s: State, user: string, typed: string, now: int)
    requires Valid(s)
    requires !Eligible(s.users, user) || Redeemable(s.requests, user, now).None?
    ensures !Opens(s, user, typed, now)
  {
    forall i | 0 <= i < |s.requests| && s.requests[i].status == APPROVED
      ensures s.requests[i].consumedAt.None?
    {
      assert RowOk(i, s.requests[i]);
    }
  }
}

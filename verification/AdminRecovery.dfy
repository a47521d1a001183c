// src/lib/adminRecovery.ts, recoveryCodes.ts and recoveryGrant.ts: a recovery
// credential buys a grant, and a grant buys one password reset.  Each
// transaction is one atomic step.
module AdminRecovery {
  import opened Wrappers
  import opened Text
  import opened Counting
  import opened Crockford
  import Throttle
  import ThrottleRuns

  const CODE_COUNT := 8

  datatype Method = RECOVERY_CODE | PASSKEY

  /** Keyed hash of a code, bound to its account; collisions are taken not to happen. */
  datatype Digest = Digest(user: string, code: string)

  // Rows are numbered by their position and never removed; `dropped` marks a deleted challenge.
  datatype CodeRow = CodeRow(user: string, codeHash: Digest, usedAt: Option<int>, revokedAt: Option<int>)
  datatype Grant = Grant(user: string, via: Method, token: string, agent: string, expiresAt: int, consumedAt: Option<int>)
  datatype Challenge = Challenge(subject: string, agent: string, expiresAt: int, consumedAt: Option<int>, dropped: bool)
  datatype User = User(admin: bool, active: bool, password: string)
  datatype Session = Session(user: string, revokedAt: Option<int>)
  datatype Key = Key(user: string, counter: nat)

  /** `inFlight` holds the challenges claimed by passkey calls that have not finished. */
  datatype State = State(codes: seq<CodeRow>, grants: seq<Grant>, challenges: seq<Challenge>, inFlight: set<nat>,
                         passkeys: map<string, Key>, users: map<string, User>, sessions: seq<Session>)

  predicate Eligible(users: map<string, User>, user: string) { user in users && users[user].admin && users[user].active }

  predicate Live(r: CodeRow) { r.usedAt.None? && r.revokedAt.None? }

  // ------------------------------------------------------------- the statements

  function RevokeLive(rows: seq<CodeRow>, user: string, now: int): (r: seq<CodeRow>)
    ensures |r| == |rows|
    ensures forall i | 0 <= i < |rows| ::
              r[i] == if rows[i].user == user && Live(rows[i]) then rows[i].(revokedAt := Some(now)) else rows[i]
  {
    seq(|rows|, i requires 0 <= i < |rows| =>
      if rows[i].user == user && Live(rows[i]) then rows[i].(revokedAt := Some(now)) else rows[i])
  }

  function NewCodes(user: string, codes: seq<string>): (r: seq<CodeRow>)
    ensures |r| == |codes| && forall i :: 0 <= i < |codes| ==> r[i] == CodeRow(user, Digest(user, codes[i]), None, None)
  {
    seq(|codes|, i requires 0 <= i < |codes| => CodeRow(user, Digest(user, codes[i]), None, None))
  }

  /** The unique key on (userId, codeHash). */
  ghost predicate UniqueHashes(rows: seq<CodeRow>) {
    forall i, j | 0 <= i < j < |rows| :: rows[i].user != rows[j].user || rows[i].codeHash != rows[j].codeHash
  }

  /** The live row of an account that holds a code's hash. */
  function FindCode(rows: seq<CodeRow>, user: string, code: string): (r: Option<nat>)
    ensures r.Some? ==> r.value < |rows| && rows[r.value].user == user && Live(rows[r.value])
                        && rows[r.value].codeHash == Digest(user, code)
    ensures r.None? ==> forall i | 0 <= i < |rows| && rows[i].user == user && Live(rows[i]) :: rows[i].codeHash != Digest(user, code)
  {
    if rows == [] then None
    else if rows[|rows| - 1].user == user && Live(rows[|rows| - 1]) && rows[|rows| - 1].codeHash == Digest(user, code)
    then Some(|rows| - 1)
    else FindCode(rows[..|rows| - 1], user, code)
  }

  function FindGrant(rows: seq<Grant>, token: string): (r: Option<nat>)
    ensures r.Some? ==> r.value < |rows| && rows[r.value].token == token
    ensures r.None? ==> forall i | 0 <= i < |rows| :: rows[i].token != token
  {
    if rows == [] then None
    else if rows[|rows| - 1].token == token then Some(|rows| - 1)
    else FindGrant(rows[..|rows| - 1], token)
  }

  function Invalidate(rows: seq<Grant>, user: string, now: int): (r: seq<Grant>)
    ensures |r| == |rows|
    ensures forall i | 0 <= i < |rows| ::
              r[i] == if rows[i].user == user && rows[i].consumedAt.None? then rows[i].(consumedAt := Some(now)) else rows[i]
  {
    seq(|rows|, i requires 0 <= i < |rows| =>
      if rows[i].user == user && rows[i].consumedAt.None? then rows[i].(consumedAt := Some(now)) else rows[i])
  }

  function RevokeSessions(ss: seq<Session>, user: string, now: int): (r: seq<Session>)
    ensures |r| == |ss|
    ensures forall i | 0 <= i < |ss| ::
              r[i] == if ss[i].user == user && ss[i].revokedAt.None? then ss[i].(revokedAt := Some(now)) else ss[i]
  {
    seq(|ss|, i requires 0 <= i < |ss| =>
      if ss[i].user == user && ss[i].revokedAt.None? then ss[i].(revokedAt := Some(now)) else ss[i])
  }

  datatype Step =
    | Generate(user: string, codes: seq<string>, now: int)
    | VerifyCode(user: string, code: string, token: string, agent: string, now: int, expiresAt: int)
    | Offer(subject: string, agent: string, expiresAt: int)
    | Drop(challenge: nat)
    | Claim(challenge: nat, subject: string, agent: string, now: int)
    | Abandon(challenge: nat)
    | VerifyPasskey(challenge: nat, user: string, passkey: string, counter: nat, next: nat, token: string, agent: string, expiresAt: int)
    | Reset(token: string, agent: string, password: string, now: int)
    | Manage(user: string, admin: bool, active: bool)

  /** No grant has the token yet: tokens are fresh 256-bit nonces, and tokenHash is unique. */
  predicate FreshToken(rows: seq<Grant>, token: string) { FindGrant(rows, token).None? }

  predicate Takes(s: State, step: Step) {
    match step
    case Generate(user, codes, _) =>
      && Eligible(s.users, user) && |codes| == CODE_COUNT
      && (forall i, j | 0 <= i < j < |codes| :: codes[i] != codes[j])
      && (forall i, j | 0 <= i < |codes| && 0 <= j < |s.codes| && s.codes[j].user == user :: s.codes[j].codeHash != Digest(user, codes[i]))
    case VerifyCode(user, code, token, _, _, _) =>
      Eligible(s.users, user) && FindCode(s.codes, user, code).Some? && FreshToken(s.grants, token)
    case Offer(_, _, _) => true
    case Drop(c) => c < |s.challenges|
    case Claim(c, subject, agent, now) =>
      && c < |s.challenges| && !s.challenges[c].dropped && s.challenges[c].subject == subject
      && s.challenges[c].agent == agent && s.challenges[c].consumedAt.None? && s.challenges[c].expiresAt > now
    case Abandon(c) => c in s.inFlight
    case VerifyPasskey(c, user, passkey, counter, _, token, _, _) =>
      && c in s.inFlight && Eligible(s.users, user) && passkey in s.passkeys
      && s.passkeys[passkey] == Key(user, counter) && FreshToken(s.grants, token)
    case Reset(token, agent, _, now) =>
      var g := FindGrant(s.grants, token);
      && g.Some? && s.grants[g.value].agent == agent && s.grants[g.value].consumedAt.None?
      && s.grants[g.value].expiresAt > now && Eligible(s.users, s.grants[g.value].user)
    case Manage(user, _, _) => user in s.users
  }

  function Next(s: State, step: Step): State {
    if !Takes(s, step) then s
    else
      match step
      case Generate(user, codes, now) => s.(codes := RevokeLive(s.codes, user, now) + NewCodes(user, codes))
      case VerifyCode(user, code, token, agent, now, expiresAt) =>
        var i := FindCode(s.codes, user, code).value;
        s.(codes := s.codes[i := s.codes[i].(usedAt := Some(now))],
           grants := s.grants + [Grant(user, RECOVERY_CODE, token, agent, expiresAt, None)])
      case Offer(subject, agent, expiresAt) =>
        s.(challenges := s.challenges + [Challenge(subject, agent, expiresAt, None, false)])
      case Drop(c) => s.(challenges := s.challenges[c := s.challenges[c].(dropped := true)])
      case Claim(c, _, _, now) =>
        s.(challenges := s.challenges[c := s.challenges[c].(consumedAt := Some(now))], inFlight := s.inFlight + {c})
      case Abandon(c) => s.(inFlight := s.inFlight - {c})
      case VerifyPasskey(c, user, passkey, _, next, token, agent, expiresAt) =>
        s.(inFlight := s.inFlight - {c}, passkeys := s.passkeys[passkey := Key(user, next)],
           grants := s.grants + [Grant(user, PASSKEY, token, agent, expiresAt, None)])
      case Reset(token, agent, password, now) =>
        var g := FindGrant(s.grants, token).value;
        var user := s.grants[g].user;
        s.(grants := Invalidate(s.grants[g := s.grants[g].(consumedAt := Some(now))], user, now),
           users := s.users[user := s.users[user].(password := password)],
           sessions := RevokeSessions(s.sessions, user, now))
      case Manage(user, admin, active) =>
        s.(users := s.users[user := s.users[user].(admin := admin, active := active)])
  }

  function After(s: State, steps: seq<Step>): State {
    if steps == [] then s else Next(After(s, steps[..|steps| - 1]), steps[|steps| - 1])
  }

  /** The steps that are no call of the service: each happens whenever its row is there, and changes that row only. */
  lemma {:induction false} OtherSteps(s: State, offered: Challenge, c: nat, user: string, admin: bool, active: bool)
    requires offered.consumedAt.None? && !offered.dropped
    ensures Next(s, Offer(offered.subject, offered.agent, offered.expiresAt)) == s.(challenges := s.challenges + [offered])
    ensures c < |s.challenges| ==>
              Next(s, Drop(c)) == s.(challenges := s.challenges[c := s.challenges[c].(dropped := true)])
    ensures c in s.inFlight ==> Next(s, Abandon(c)) == s.(inFlight := s.inFlight - {c})
    ensures user in s.users ==>
              Next(s, Manage(user, admin, active)) == s.(users := s.users[user := User(admin, active, s.users[user].password)])
  {
  }

  /** Nothing has happened yet. */
  predicate Initial(s: State) { s.codes == [] && s.grants == [] && s.challenges == [] && s.inFlight == {} }

  // ------------------------------------------------------------------ invariants

  function UsedBy(user: string): CodeRow -> bool { (r: CodeRow) => r.user == user && r.usedAt.Some? }
  function LiveOf(user: string): CodeRow -> bool { (r: CodeRow) => r.user == user && Live(r) }
  function ByCode(user: string): Grant -> bool { (g: Grant) => g.user == user && g.via == RECOVERY_CODE }
  function ByPasskey(): Grant -> bool { (g: Grant) => g.via == PASSKEY }
  function Consumed(): Challenge -> bool { (c: Challenge) => c.consumedAt.Some? }

  /** The account's code grants are as many as its used codes, and at most eight codes are live. */
  ghost predicate CodesOk(s: State, user: string) {
    Count(s.grants, ByCode(user)) == Count(s.codes, UsedBy(user)) && Count(s.codes, LiveOf(user)) <= CODE_COUNT
  }

  ghost predicate UniqueTokens(rows: seq<Grant>) {
    forall i, j | 0 <= i < j < |rows| :: rows[i].token != rows[j].token
  }

  ghost predicate ChallengesOk(s: State) {
    && (forall c | c in s.inFlight :: c < |s.challenges| && s.challenges[c].consumedAt.Some?)
    && Count(s.grants, ByPasskey()) + |s.inFlight| <= Count(s.challenges, Consumed())
  }

  ghost predicate TablesOk(s: State) { UniqueHashes(s.codes) && UniqueTokens(s.grants) && ChallengesOk(s) }

  lemma {:induction false} GenerateUnique(s: State, user: string, codes: seq<string>, now: int)
    requires UniqueHashes(s.codes) && Takes(s, Generate(user, codes, now))
    ensures UniqueHashes(Next(s, Generate(user, codes, now)).codes)
  {
    var rows := Next(s, Generate(user, codes, now)).codes;
    var n := |s.codes|;
    forall i, j | 0 <= i < j < |rows| ensures rows[i].user != rows[j].user || rows[i].codeHash != rows[j].codeHash {
      if i < n <= j {
        assert rows[j].codeHash == Digest(user, codes[j - n]);
        assert rows[i].codeHash == s.codes[i].codeHash && rows[i].user == s.codes[i].user;
      } else if n <= i {
        assert codes[i - n] != codes[j - n];
      } else {
        assert s.codes[i].user != s.codes[j].user || s.codes[i].codeHash != s.codes[j].codeHash;
      }
    }
  }

  lemma {:induction false} NextUnique(s: State, step: Step)
    requires UniqueHashes(s.codes) && UniqueTokens(s.grants)
    ensures UniqueHashes(Next(s, step).codes) && UniqueTokens(Next(s, step).grants)
  {
    if Takes(s, step) {
      match step
      case Generate(user, codes, now) => GenerateUnique(s, user, codes, now);
      case VerifyCode(user, code, token, agent, now, expiresAt) =>
        var rows := Next(s, step).codes;
        assert forall i | 0 <= i < |rows| :: rows[i].user == s.codes[i].user && rows[i].codeHash == s.codes[i].codeHash;
      case _ =>
    }
  }

  lemma {:induction false} CodeGrantKeeps(s: State, codes: seq<CodeRow>, g: Grant)
    requires ChallengesOk(s) && g.via == RECOVERY_CODE
    ensures ChallengesOk(s.(codes := codes, grants := s.grants + [g]))
  {
    hide Count;
    CountConcat(s.grants, [g], ByPasskey());
    CountOne(g, ByPasskey());
  }

  lemma {:induction false} OfferKeeps(s: State, c: Challenge)
    requires ChallengesOk(s)
    ensures ChallengesOk(s.(challenges := s.challenges + [c]))
  {
    hide Count;
    CountConcat(s.challenges, [c], Consumed());
  }

  lemma {:induction false} DropKeeps(s: State, c: nat)
    requires ChallengesOk(s) && c < |s.challenges|
    ensures ChallengesOk(s.(challenges := s.challenges[c := s.challenges[c].(dropped := true)]))
  {
    hide Count;
    CountUpdate(s.challenges, c, s.challenges[c].(dropped := true), Consumed());
  }

  lemma {:induction false} ClaimKeeps(s: State, c: nat, now: int)
    requires ChallengesOk(s) && c < |s.challenges| && s.challenges[c].consumedAt.None?
    ensures ChallengesOk(s.(challenges := s.challenges[c := s.challenges[c].(consumedAt := Some(now))], inFlight := s.inFlight + {c}))
  {
    hide Count;
    CountUpdate(s.challenges, c, s.challenges[c].(consumedAt := Some(now)), Consumed());
  }

  /** A passkey grant uses up the call in flight that it comes from. */
  lemma {:induction false} PasskeyGrantKeeps(s: State, c: nat, passkeys: map<string, Key>, g: Grant)
    requires ChallengesOk(s) && c in s.inFlight && g.via == PASSKEY
    ensures ChallengesOk(s.(inFlight := s.inFlight - {c}, passkeys := passkeys, grants := s.grants + [g]))
  {
    hide Count;
    CountConcat(s.grants, [g], ByPasskey());
    CountOne(g, ByPasskey());
  }

  lemma {:induction false} ResetKeeps(s: State, grants: seq<Grant>, users: map<string, User>, sessions: seq<Session>)
    requires ChallengesOk(s) && |grants| == |s.grants| && forall i | 0 <= i < |grants| :: grants[i].via == s.grants[i].via
    ensures ChallengesOk(s.(grants := grants, users := users, sessions := sessions))
  {
    hide Count;
    CountSame(s.grants, grants, ByPasskey());
  }

  lemma {:induction false} NextChallengesOk(s: State, step: Step)
    requires ChallengesOk(s)
    ensures ChallengesOk(Next(s, step))
  {
    if Takes(s, step) && (step.Generate? || step.Abandon? || step.Manage?) {
      return;
    }
    hide Count, FindCode, FindGrant, Eligible, ChallengesOk;
    if Takes(s, step) {
      match step
      case VerifyCode(user, code, token, agent, now, expiresAt) =>
        CodeGrantKeeps(s, Next(s, step).codes, Grant(user, RECOVERY_CODE, token, agent, expiresAt, None));
      case Offer(subject, agent, expiresAt) => OfferKeeps(s, Challenge(subject, agent, expiresAt, None, false));
      case Drop(c) => DropKeeps(s, c);
      case Claim(c, subject, agent, now) => ClaimKeeps(s, c, now);
      case VerifyPasskey(c, user, passkey, counter, next, token, agent, expiresAt) =>
        PasskeyGrantKeeps(s, c, Next(s, step).passkeys, Grant(user, PASSKEY, token, agent, expiresAt, None));
      case Reset(token, agent, password, now) =>
        ResetKeeps(s, Next(s, step).grants, Next(s, step).users, Next(s, step).sessions);
      case _ =>
    }
  }

  lemma {:induction false} NextTablesOk(s: State, step: Step)
    requires TablesOk(s)
    ensures TablesOk(Next(s, step))
  {
    NextUnique(s, step);
    NextChallengesOk(s, step);
  }

  lemma {:induction false} GenerateCodesOk(s: State, u: string, codes: seq<string>, now: int, user: string)
    requires CodesOk(s, user) && |codes| == CODE_COUNT
    ensures Count(RevokeLive(s.codes, u, now) + NewCodes(u, codes), UsedBy(user)) == Count(s.codes, UsedBy(user))
    ensures Count(RevokeLive(s.codes, u, now) + NewCodes(u, codes), LiveOf(user)) <= CODE_COUNT
  {
    hide Count;
    var revoked, made := RevokeLive(s.codes, u, now), NewCodes(u, codes);
    CountConcat(revoked, made, UsedBy(user));
    CountConcat(revoked, made, LiveOf(user));
    CountSame(revoked, s.codes, UsedBy(user));
    CountNone(made, UsedBy(user));
    if u == user {
      CountNone(revoked, LiveOf(user));
      CountAtMost(made, LiveOf(user));
    } else {
      CountSame(revoked, s.codes, LiveOf(user));
      CountNone(made, LiveOf(user));
    }
  }

  lemma {:induction false} UseCodesOk(s: State, i: nat, now: int, g: Grant, user: string)
    requires CodesOk(s, user) && i < |s.codes| && Live(s.codes[i]) && g.via == RECOVERY_CODE && g.user == s.codes[i].user
    ensures CodesOk(s.(codes := s.codes[i := s.codes[i].(usedAt := Some(now))], grants := s.grants + [g]), user)
  {
    hide Count;
    CountUpdate(s.codes, i, s.codes[i].(usedAt := Some(now)), UsedBy(user));
    CountUpdate(s.codes, i, s.codes[i].(usedAt := Some(now)), LiveOf(user));
    CountConcat(s.grants, [g], ByCode(user));
    CountOne(g, ByCode(user));
  }

  lemma {:induction false} NextCodesOk(s: State, step: Step, user: string)
    requires CodesOk(s, user)
    ensures CodesOk(Next(s, step), user)
  {
    hide Count, FindCode, FindGrant, Eligible;
    if Takes(s, step) {
      match step
      case Generate(u, codes, now) => GenerateCodesOk(s, u, codes, now, user);
      case VerifyCode(u, code, token, agent, now, expiresAt) =>
        UseCodesOk(s, FindCode(s.codes, u, code).value, now, Grant(u, RECOVERY_CODE, token, agent, expiresAt, None), user);
      case VerifyPasskey(c, u, passkey, counter, next, token, agent, expiresAt) =>
        CountConcat(s.grants, [Grant(u, PASSKEY, token, agent, expiresAt, None)], ByCode(user));
        CountOne(Grant(u, PASSKEY, token, agent, expiresAt, None), ByCode(user));
      case Reset(token, agent, password, now) =>
        CountSame(s.grants, Next(s, step).grants, ByCode(user));
      case _ =>
    }
  }

  /**
   * Over every run: an account's code-method grants are exactly as many as its
   * used codes, it never has more than eight live codes, and passkey grants
   * are no more than the challenges consumed.
   */
  lemma {:induction false} AlwaysOk(s: State, steps: seq<Step>, user: string)
    requires Initial(s)
    ensures TablesOk(After(s, steps)) && CodesOk(After(s, steps), user)
    decreases |steps|
  {
    if steps != [] {
      AlwaysOk(s, steps[..|steps| - 1], user);
      NextTablesOk(After(s, steps[..|steps| - 1]), steps[|steps| - 1]);
      NextCodesOk(After(s, steps[..|steps| - 1]), steps[|steps| - 1], user);
    }
  }

  // ------------------------------------------------------------------- provenance

  /** The row of the code this step would use. */
  function CodeUsed(s: State, step: Step): Option<nat> {
    if step.VerifyCode? && Takes(s, step) then FindCode(s.codes, step.user, step.code) else None
  }

  /** The grant this step would redeem. */
  function GrantRedeemed(s: State, step: Step): Option<nat> {
    if step.Reset? && Takes(s, step) then FindGrant(s.grants, step.token) else None
  }

  predicate UsedAt(s: State, i: nat) { i < |s.codes| && s.codes[i].usedAt.Some? }
  predicate ConsumedAt(s: State, g: nat) { g < |s.grants| && s.grants[g].consumedAt.Some? }

  lemma {:induction false} UsedStep(s: State, step: Step, i: nat)
    ensures UsedAt(Next(s, step), i) <==> UsedAt(s, i) || CodeUsed(s, step) == Some(i)
    ensures CodeUsed(s, step) == Some(i) ==> !UsedAt(s, i)
  {
  }

  lemma {:induction false} ConsumedStep(s: State, step: Step, g: nat)
    ensures ConsumedAt(s, g) ==> ConsumedAt(Next(s, step), g)
    ensures GrantRedeemed(s, step) == Some(g) ==> !ConsumedAt(s, g) && ConsumedAt(Next(s, step), g)
    ensures g < |s.grants| ==> g < |Next(s, step).grants| && Next(s, step).grants[g].user == s.grants[g].user
  {
  }

  function Uses(s: State, steps: seq<Step>, i: nat): nat {
    if steps == [] then 0
    else
      var k := |steps| - 1;
      Uses(s, steps[..k], i) + if CodeUsed(After(s, steps[..k]), steps[k]) == Some(i) then 1 else 0
  }

  function Redemptions(s: State, steps: seq<Step>, g: nat): nat {
    if steps == [] then 0
    else
      var k := |steps| - 1;
      Redemptions(s, steps[..k], g) + if GrantRedeemed(After(s, steps[..k]), steps[k]) == Some(g) then 1 else 0
  }

  /** A code buys at most one grant over any run, and has bought one exactly when it is marked used. */
  lemma {:induction false} CodeUsedOnce(s: State, steps: seq<Step>, i: nat)
    requires Initial(s)
    ensures Uses(s, steps, i) == if UsedAt(After(s, steps), i) then 1 else 0
    decreases |steps|
  {
    if steps != [] {
      CodeUsedOnce(s, steps[..|steps| - 1], i);
      UsedStep(After(s, steps[..|steps| - 1]), steps[|steps| - 1], i);
    }
  }

  /** A grant buys at most one password reset over any run, and one that bought a reset is consumed. */
  lemma {:induction false} GrantRedeemedOnce(s: State, steps: seq<Step>, g: nat)
    requires Initial(s)
    ensures Redemptions(s, steps, g) <= if ConsumedAt(After(s, steps), g) then 1 else 0
    decreases |steps|
  {
    if steps != [] {
      GrantRedeemedOnce(s, steps[..|steps| - 1], g);
      ConsumedStep(After(s, steps[..|steps| - 1]), steps[|steps| - 1], g);
    }
  }

  /**
   * A code-method grant and the code it cost belong to one account: the step
   * that adds such a grant uses exactly one live code of the grant's account.
   */
  lemma {:induction false} CodeGrantCostsACode(s: State, step: Step)
    requires |Next(s, step).grants| > |s.grants|
    ensures var g := Next(s, step).grants[|s.grants|];
            && Next(s, step).grants == s.grants + [g] && g.consumedAt.None? && Eligible(s.users, g.user)
            && (g.via == RECOVERY_CODE ==>
                  CodeUsed(s, step).Some? && s.codes[CodeUsed(s, step).value].user == g.user && Live(s.codes[CodeUsed(s, step).value]))
            && (g.via == PASSKEY ==> step.VerifyPasskey? && step.challenge in s.inFlight && s.passkeys[step.passkey].user == g.user)
  {
  }

  /** Passwords change only by redeeming an unconsumed grant of that account. */
  lemma {:induction false} OnlyGrantsReset(s: State, step: Step, user: string)
    requires user in s.users
    ensures user in Next(s, step).users
    ensures Next(s, step).users[user].password != s.users[user].password ==>
              GrantRedeemed(s, step).Some? && s.grants[GrantRedeemed(s, step).value].user == user
  {
  }

  /** The step that redeems an account's grant gives that account its password, and no other account changes. */
  lemma {:induction false} RedeemingSets(s: State, step: Step)
    requires GrantRedeemed(s, step).Some?
    ensures var user, t := s.grants[GrantRedeemed(s, step).value].user, Next(s, step);
            && user in s.users && t.users.Keys == s.users.Keys && t.users[user] == s.users[user].(password := step.password)
            && (forall u | u in s.users && u != user :: t.users[u] == s.users[u])
  {
  }

  lemma {:induction false} OnlyResetsRedeem(s: State, step: Step)
    ensures GrantRedeemed(s, step).Some? ==> step.Reset?
  {
  }

  /** The m-th step redeemed a grant of the account. */
  ghost predicate ResetAt(s: State, steps: seq<Step>, m: nat, user: string) {
    && m < |steps| && steps[m].Reset?
    && var before := After(s, steps[..m]);
       GrantRedeemed(before, steps[m]).Some? && before.grants[GrantRedeemed(before, steps[m]).value].user == user
  }

  /** The password is the one given at the last reset of the account, or the first one if there was none. */
  ghost predicate IsFromLastReset(s: State, steps: seq<Step>, user: string, password: string)
    requires user in s.users
  {
    || (password == s.users[user].password && forall m: nat :: !ResetAt(s, steps, m, user))
    || exists m: nat :: ResetAt(s, steps, m, user) && password == steps[m].password && NoneAfter(s, steps, m, user)
  }

  ghost predicate NoneAfter(s: State, steps: seq<Step>, m: nat, user: string) {
    forall n: nat | n > m :: !ResetAt(s, steps, n, user)
  }

  lemma {:induction false} ResetInFront(s: State, steps: seq<Step>, m: nat, user: string)
    requires steps != [] && m < |steps| - 1
    ensures ResetAt(s, steps, m, user) == ResetAt(s, steps[..|steps| - 1], m, user)
  {
    hide After, GrantRedeemed;
    var front := steps[..|steps| - 1];
    assert front[..m] == steps[..m] && front[m] == steps[m];
  }

  lemma {:induction false} StillFromLast(s: State, steps: seq<Step>, user: string, password: string)
    requires user in s.users && steps != [] && IsFromLastReset(s, steps[..|steps| - 1], user, password)
    requires !ResetAt(s, steps, |steps| - 1, user)
    ensures IsFromLastReset(s, steps, user, password)
  {
    hide After, GrantRedeemed;
    var front := steps[..|steps| - 1];
    forall m: nat ensures ResetAt(s, steps, m, user) ==> ResetAt(s, front, m, user) {
      if m < |front| {
        ResetInFront(s, steps, m, user);
      } else {
        ResetWithin(s, steps, m, user);
      }
    }
    if m: nat :| ResetAt(s, front, m, user) && password == front[m].password && NoneAfter(s, front, m, user) {
      ResetWithin(s, front, m, user);
      ResetInFront(s, steps, m, user);
      assert steps[m] == front[m];
    }
  }

  lemma {:induction false} ResetWithin(s: State, steps: seq<Step>, m: nat, user: string)
    ensures ResetAt(s, steps, m, user) ==> m < |steps| && steps[m].Reset?
  {
  }

  /** Over every run, an account's password is the one its last reset gave, or the first one if it was never reset. */
  lemma {:induction false} LastResetWins(s: State, steps: seq<Step>, user: string)
    requires user in s.users
    ensures user in After(s, steps).users && IsFromLastReset(s, steps, user, After(s, steps).users[user].password)
    decreases |steps|
  {
    hide Next, Takes, FindGrant, GrantRedeemed, IsFromLastReset;
    if steps == [] {
      NeverReset(s, user);
    } else {
      var front, step := steps[..|steps| - 1], steps[|steps| - 1];
      LastResetWins(s, front, user);
      OnlyGrantsReset(After(s, front), step, user);
      OnlyResetsRedeem(After(s, front), step);
      if ResetAt(s, steps, |front|, user) {
        RedeemingSets(After(s, front), step);
        JustReset(s, steps, user);
      } else {
        StillFromLast(s, steps, user, After(s, steps).users[user].password);
      }
    }
  }

  lemma {:induction false} NeverReset(s: State, user: string)
    requires user in s.users
    ensures IsFromLastReset(s, [], user, s.users[user].password)
  {
  }

  lemma {:induction false} JustReset(s: State, steps: seq<Step>, user: string)
    requires user in s.users && steps != [] && ResetAt(s, steps, |steps| - 1, user)
    ensures IsFromLastReset(s, steps, user, steps[|steps| - 1].password)
  {
    hide GrantRedeemed, After;
    assert NoneAfter(s, steps, |steps| - 1, user);
  }

  // ------------------------------------------- where a password reset comes from

  /** The k-th step claimed a challenge. */
  ghost predicate ClaimedBy(s: State, steps: seq<Step>, j: nat, c: nat) {
    j < |steps| && steps[j].Claim? && steps[j].challenge == c && Takes(After(s, steps[..j]), steps[j])
  }

  /** The k-th step issued grant `g` to an account for a live code, or for a claimed challenge and a passkey, of that account. */
  ghost predicate IssuedBy(s: State, steps: seq<Step>, k: nat, g: nat, user: string) {
    && k < |steps|
    && var a, b := After(s, steps[..k]), After(s, steps[..k + 1]);
       && g == |a.grants| < |b.grants| && b.grants[g].user == user
       && (if b.grants[g].via == RECOVERY_CODE
           then CodeUsed(a, steps[k]).Some? && a.codes[CodeUsed(a, steps[k]).value].user == user
                && Live(a.codes[CodeUsed(a, steps[k]).value])
           else steps[k].VerifyPasskey? && steps[k].passkey in a.passkeys && a.passkeys[steps[k].passkey].user == user
                && exists j: nat :: j < k && ClaimedBy(s, steps, j, steps[k].challenge))
  }

  lemma {:induction false} InFlightClaimed(s: State, steps: seq<Step>, c: nat)
    requires Initial(s) && c in After(s, steps).inFlight
    ensures exists j: nat :: ClaimedBy(s, steps, j, c)
    decreases |steps|
  {
    var front, step := steps[..|steps| - 1], steps[|steps| - 1];
    if c in After(s, front).inFlight {
      InFlightClaimed(s, front, c);
      var j: nat :| ClaimedBy(s, front, j, c);
      assert front[..j] == steps[..j];
      assert ClaimedBy(s, steps, j, c);
    } else {
      assert ClaimedBy(s, steps, |steps| - 1, c);
    }
  }

  lemma {:induction false} IssuedEarlier(s: State, steps: seq<Step>, k: nat, g: nat, user: string)
    requires steps != [] && IssuedBy(s, steps[..|steps| - 1], k, g, user)
    ensures IssuedBy(s, steps, k, g, user)
  {
    hide After, CodeUsed, Takes;
    var front := steps[..|steps| - 1];
    assert front[..k] == steps[..k] && front[..k + 1] == steps[..k + 1] && front[k] == steps[k];
    if steps[k].VerifyPasskey? {
      if j: nat :| j < k && ClaimedBy(s, front, j, steps[k].challenge) {
        assert front[..j] == steps[..j];
        assert ClaimedBy(s, steps, j, steps[k].challenge);
      }
    }
  }

  /** The step that adds a grant is the one that issued it. */
  lemma {:induction false} IssuedNow(s: State, steps: seq<Step>)
    requires Initial(s) && steps != []
    requires |After(s, steps).grants| > |After(s, steps[..|steps| - 1]).grants|
    ensures var g := |After(s, steps[..|steps| - 1]).grants|;
            |After(s, steps).grants| == g + 1 && IssuedBy(s, steps, |steps| - 1, g, After(s, steps).grants[g].user)
  {
    var front, step := steps[..|steps| - 1], steps[|steps| - 1];
    CodeGrantCostsACode(After(s, front), step);
    assert steps[..|steps| - 1 + 1] == steps;
    if step.VerifyPasskey? {
      InFlightClaimed(s, front, step.challenge);
      var j: nat :| ClaimedBy(s, front, j, step.challenge);
      assert front[..j] == steps[..j];
      assert ClaimedBy(s, steps, j, step.challenge);
    }
  }

  /** Every grant in the table was issued, to its account, by some step of the run. */
  lemma {:induction false} EveryGrantIssued(s: State, steps: seq<Step>, g: nat)
    requires Initial(s) && g < |After(s, steps).grants|
    ensures exists k: nat :: IssuedBy(s, steps, k, g, After(s, steps).grants[g].user)
    decreases |steps|
  {
    var front, step := steps[..|steps| - 1], steps[|steps| - 1];
    var user := After(s, steps).grants[g].user;
    if g < |After(s, front).grants| {
      ConsumedStep(After(s, front), step, g);
      EveryGrantIssued(s, front, g);
      var k: nat :| IssuedBy(s, front, k, g, user);
      IssuedEarlier(s, steps, k, g, user);
    } else {
      IssuedNow(s, steps);
    }
  }

  /**
   * The whole chain, over every run: when a step changes an account's
   * password, it redeems a grant of that account that an earlier step issued,
   * and that step used up a live code of the account, or a challenge claimed
   * earlier still with a passkey of the account.
   */
  lemma {:induction false} ResetIsPaidFor(s: State, steps: seq<Step>, m: nat, user: string)
    requires Initial(s) && m < |steps| && user in After(s, steps[..m]).users
    requires user in After(s, steps[..m + 1]).users
             && After(s, steps[..m + 1]).users[user].password != After(s, steps[..m]).users[user].password
    ensures exists k: nat, g: nat :: k < m && IssuedBy(s, steps[..m], k, g, user)
              && GrantRedeemed(After(s, steps[..m]), steps[m]) == Some(g)
  {
    var before := steps[..m];
    assert steps[..m + 1][..m] == before;
    OnlyGrantsReset(After(s, before), steps[m], user);
    EveryGrantIssued(s, before, GrantRedeemed(After(s, before), steps[m]).value);
  }

  lemma {:induction false} StaysConsumed(s: State, steps: seq<Step>, k: nat, g: nat)
    requires k <= |steps| && ConsumedAt(After(s, steps[..k]), g)
    ensures ConsumedAt(After(s, steps), g)
    decreases |steps|
  {
    if k == |steps| {
      assert steps[..k] == steps;
    } else {
      var front := steps[..|steps| - 1];
      assert front[..k] == steps[..k];
      StaysConsumed(s, front, k, g);
      ConsumedStep(After(s, front), steps[|steps| - 1], g);
    }
  }

  lemma {:induction false} ResetConsumesAll(s: State, step: Step, g: nat)
    requires GrantRedeemed(s, step).Some? && g < |s.grants|
    requires s.grants[g].user == s.grants[GrantRedeemed(s, step).value].user
    ensures ConsumedAt(Next(s, step), g)
  {
  }

  /** After a committed reset of an account, no grant issued before it is ever redeemed again. */
  lemma {:induction false} OldGrantsAreDead(s: State, steps: seq<Step>, m: nat, n: nat, g: nat)
    requires m < n < |steps|
    requires var before := After(s, steps[..m]);
             GrantRedeemed(before, steps[m]).Some? && g < |before.grants|
             && before.grants[g].user == before.grants[GrantRedeemed(before, steps[m]).value].user
    ensures GrantRedeemed(After(s, steps[..n]), steps[n]) != Some(g)
  {
    ResetConsumesAll(After(s, steps[..m]), steps[m], g);
    assert steps[..m + 1][..m] == steps[..m];
    assert steps[..n][..m + 1] == steps[..m + 1];
    StaysConsumed(s, steps[..n], m + 1, g);
    ConsumedStep(After(s, steps[..n]), steps[n], g);
  }

  // ------------------------------------------------------------------- the service

  const TOKEN_LENGTH := 43
  const AGENT_LENGTH := 512

  predicate WellFormedToken(token: string) {
    |token| == TOKEN_LENGTH &&
    forall i | 0 <= i < |token| ::
      'A' <= token[i] <= 'Z' || 'a' <= token[i] <= 'z' || IsDigit(token[i]) || token[i] == '_' || token[i] == '-'
  }

  /** A token is 43 letters, digits, underscores and hyphens. */
  lemma {:induction false} TokenRule(token: string)
    ensures WellFormedToken(token) <==>
            |token| == 43 && forall i | 0 <= i < |token| :: token[i] in UPPER || token[i] in LOWER || token[i] in "0123456789_-"
  {
    forall i | 0 <= i < |token|
      ensures 'A' <= token[i] <= 'Z' || 'a' <= token[i] <= 'z' || IsDigit(token[i]) || token[i] == '_' || token[i] == '-' <==>
              token[i] in UPPER || token[i] in LOWER || token[i] in "0123456789_-"
    {
      OneOf(token[i]);
      assert "0123456789_-" == "0123456789" + "_-";
    }
  }

  /** What a grant is bound to: the User-Agent, cut to 512 characters; a missing one counts as empty. */
  function Agent(userAgent: Option<string>): string {
    if userAgent.None? then "" else if |userAgent.value| > AGENT_LENGTH then userAgent.value[..AGENT_LENGTH] else userAgent.value
  }

  datatype Failure = RoleNotAllowed | UniqueViolation | Throttled | VerificationFailed | WeakPassword | InvalidGrant

  // ---------------------------------------------- the rows a call changes, one by one

  /** An active admin. */
  predicate MayRecover(users: map<string, User>, user: string) {
    user in users && users[user].admin && users[user].active
  }

  /** A code of the account that is neither used nor replaced. */
  predicate Usable(rows: seq<CodeRow>, i: nat, user: string, code: string) {
    i < |rows| && rows[i].user == user && rows[i].usedAt.None? && rows[i].revokedAt.None? && rows[i].codeHash == Digest(user, code)
  }

  ghost predicate SameExceptCodes(a: State, b: State) { b == a.(codes := b.codes) }

  /** The code row is used, and a grant bound to this client added; nothing else changes. */
  ghost predicate CodeSpent(a: State, b: State, i: nat, g: Grant, now: int) {
    i < |a.codes| && b == a.(codes := a.codes[i := a.codes[i].(usedAt := Some(now))], grants := a.grants + [g])
  }

  /** The first 512 characters of a User-Agent header, an absent one counting as empty. */
  predicate IsAgent(agent: string, userAgent: Option<string>) {
    agent == if userAgent.None? then "" else if |userAgent.value| > 512 then userAgent.value[..512] else userAgent.value
  }

  /** An open challenge of this email and client. */
  predicate Claimable(rows: seq<Challenge>, c: nat, subject: string, userAgent: Option<string>, now: int) {
    && c < |rows| && !rows[c].dropped && rows[c].subject == subject && IsAgent(rows[c].agent, userAgent)
    && rows[c].consumedAt.None? && rows[c].expiresAt > now
  }

  predicate OpenGrant(rows: seq<Grant>, g: nat, token: string, userAgent: Option<string>, now: int) {
    && g < |rows| && rows[g].token == token && IsAgent(rows[g].agent, userAgent)
    && rows[g].consumedAt.None? && rows[g].expiresAt > now
  }

  /** This account gets this password, and loses its sessions and open grants; nothing else changes. */
  ghost predicate PasswordReset(a: State, b: State, user: string, password: string, now: int) {
    && user in a.users && b.users == a.users[user := a.users[user].(password := password)]
    && |b.sessions| == |a.sessions| && |b.grants| == |a.grants|
    && (forall i | 0 <= i < |a.sessions| ::
          b.sessions[i] == if a.sessions[i].user == user && a.sessions[i].revokedAt.None?
                           then a.sessions[i].(revokedAt := Some(now)) else a.sessions[i])
    && (forall i | 0 <= i < |a.grants| ::
          b.grants[i] == if a.grants[i].user == user && a.grants[i].consumedAt.None?
                         then a.grants[i].(consumedAt := Some(now)) else a.grants[i])
    && b.codes == a.codes && b.challenges == a.challenges && b.inFlight == a.inFlight && b.passkeys == a.passkeys
  }

  lemma {:induction false} FoundIsUsable(rows: seq<CodeRow>, user: string, code: string)
    ensures FindCode(rows, user, code).Some? <==> exists i: nat :: Usable(rows, i, user, code)
    ensures FindCode(rows, user, code).Some? ==> Usable(rows, FindCode(rows, user, code).value, user, code)
  {
    var found := FindCode(rows, user, code);
    if found.Some? {
      assert Usable(rows, found.value, user, code);
    } else {
      forall i: nat ensures !Usable(rows, i, user, code) {
        assert i < |rows| && rows[i].user == user && Live(rows[i]) ==> rows[i].codeHash != Digest(user, code);
      }
    }
  }

  class AdminRecoveryService {
    var state: State
    const emails: map<string, string>      // users.email is unique

    constructor (state: State, emails: map<string, string>)
      ensures this.state == state && this.emails == emails
    {
      this.state := state;
      this.emails := emails;
    }

    /** findEligibleAdmin */
    function Admin(email: string): Option<string>
      reads this
    {
      if email in emails && Eligible(state.users, emails[email]) then Some(emails[email]) else None
    }

    /** generateRecoveryCodeSet, given the eight new codes in normal form: the new set replaces every live code. */
    method GenerateRecoveryCodeSet(user: string, codes: seq<string>, now: int) returns (r: Result<bool, Failure>)
      requires |codes| == 8
      modifies this
      ensures state == Next(old(state), Generate(user, codes, now))
      ensures r.Ok? <==> Takes(old(state), Generate(user, codes, now))
      ensures r.Ok? ==> (r.value <==> exists i :: 0 <= i < |old(state.codes)| && old(state.codes)[i].user == user)
      ensures r.Ok? ==> forall i | 0 <= i < |state.codes| && state.codes[i].user == user && Live(state.codes[i]) ::
                          i >= |old(state.codes)| && state.codes[i].codeHash == Digest(user, codes[i - |old(state.codes)|])
      ensures r.Err? ==> state == old(state)
      ensures r == Err(RoleNotAllowed) <==> !MayRecover(old(state).users, user)
      ensures r == Err(UniqueViolation) <==>
                && MayRecover(old(state).users, user)
                && ((exists i, j :: 0 <= i < j < 8 && codes[i] == codes[j])
                    || (exists i, j :: 0 <= i < 8 && 0 <= j < |old(state).codes| && old(state).codes[j].user == user
                                       && old(state).codes[j].codeHash == Digest(user, codes[i])))
      ensures r.Ok? ==>
                var was, n := old(state).codes, |old(state).codes|;
                && SameExceptCodes(old(state), state) && |state.codes| == n + 8
                && (forall i | 0 <= i < n ::
                      state.codes[i] == if was[i].user == user && was[i].usedAt.None? && was[i].revokedAt.None?
                                        then was[i].(revokedAt := Some(now)) else was[i])
                && (forall j | 0 <= j < 8 :: state.codes[n + j] == CodeRow(user, Digest(user, codes[j]), None, None))
    {
      hide UniqueHashes, TablesOk, CodesOk;
      if !Eligible(state.users, user) {
        return Err(RoleNotAllowed);
      }
      var hadPrevious := exists i :: 0 <= i < |state.codes| && state.codes[i].user == user;
      var clash :=
        (exists i, j :: 0 <= i < j < |codes| && codes[i] == codes[j]) ||
        (exists i, j :: 0 <= i < |codes| && 0 <= j < |state.codes| && state.codes[j].user == user
                        && state.codes[j].codeHash == Digest(user, codes[i]));
      if clash {
        return Err(UniqueViolation);
      }
      state := state.(codes := RevokeLive(state.codes, user, now));
      state := state.(codes := state.codes + NewCodes(user, codes));
      r := Ok(hadPrevious);
    }

    /** consumeRecoveryCode: at most one caller ever gets true for a row. */
    method ConsumeRecoveryCode(user: string, typed: string, now: int) returns (ok: bool)
      modifies this
      ensures ok <==> Normalize(typed).Some? && FindCode(old(state.codes), user, Normalize(typed).value).Some?
      ensures state == if !ok then old(state)
                       else var i := FindCode(old(state.codes), user, Normalize(typed).value).value;
                            old(state).(codes := old(state.codes)[i := old(state.codes)[i].(usedAt := Some(now))])
      ensures ok <==> Normalize(typed).Some? && exists i: nat :: Usable(old(state).codes, i, user, Normalize(typed).value)
      ensures ok ==> exists i: nat ::
                && Usable(old(state).codes, i, user, Normalize(typed).value) && SameExceptCodes(old(state), state)
                && state.codes == old(state).codes[i := old(state).codes[i].(usedAt := Some(now))]
    {
      var normalized := Normalize(typed);
      if normalized.None? {
        return false;
      }
      var row := FindCode(state.codes, user, normalized.value);
      FoundIsUsable(state.codes, user, normalized.value);
      if row.Some? {
        state := state.(codes := state.codes[row.value := state.codes[row.value].(usedAt := Some(now))]);
      }
      ok := row.Some?;
    }

    method IssueRecoveryGrant(user: string, via: Method, userAgent: Option<string>, token: string, expiresAt: int)
      requires FreshToken(state.grants, token)
      modifies this
      ensures state == old(state).(grants := old(state.grants) + [Grant(user, via, token, Agent(userAgent), expiresAt, None)])
    {
      state := state.(grants := state.grants + [Grant(user, via, token, Agent(userAgent), expiresAt, None)]);
    }

    /**
     * verifyRecoveryCode: the code is used and the grant issued together, or
     * neither; the audit log gets the outcome of a throttled attempt, which is
     * checked at `now` and recorded at `at` under the hash of the email.
     */
    method VerifyRecoveryCode(email: string, subject: string, typed: string, ip: Option<string>, userAgent: Option<string>,
                              audit: ThrottleRuns.AuditLog, token: string, now: int, at: int, expiresAt: int)
      returns (r: Result<string, Failure>)
      requires FreshToken(state.grants, token)
      modifies this, audit
      ensures var throttled := Throttle.Check(old(audit.rows), Some(subject), ip, now).blocked;
              var user := if throttled then None else old(Admin(email));
              audit.rows == old(audit.rows) + ThrottleRuns.Outcome(old(audit.rows), ThrottleRuns.Verify(subject, user, ip, false, r.Ok?, now, at))
      ensures var throttled := Throttle.Check(old(audit.rows), Some(subject), ip, now).blocked;
              r.Ok? <==> !throttled && old(Admin(email)).Some? && Normalize(typed).Some?
                         && FindCode(old(state.codes), old(Admin(email)).value, Normalize(typed).value).Some?
      ensures r.Ok? ==> r.value == token
                        && state == Next(old(state), VerifyCode(old(Admin(email)).value, Normalize(typed).value, token,
                                                                Agent(userAgent), now, expiresAt))
      ensures var throttled := Throttle.Check(old(audit.rows), Some(subject), ip, now).blocked;
              r.Err? ==> state == old(state) && r.error == if throttled then Throttled else VerificationFailed
      ensures r.Ok? ==>
                && email in emails && MayRecover(old(state).users, emails[email]) && Normalize(typed).Some?
                && exists i: nat, agent :: IsAgent(agent, userAgent) && Usable(old(state).codes, i, emails[email], Normalize(typed).value)
                     && CodeSpent(old(state), state, i, Grant(emails[email], RECOVERY_CODE, token, agent, expiresAt, None), now)
      ensures !Throttle.Check(old(audit.rows), Some(subject), ip, now).blocked && r.Err? ==>
                !(email in emails && MayRecover(old(state).users, emails[email]) && Normalize(typed).Some?
                  && exists i: nat :: Usable(old(state).codes, i, emails[email], Normalize(typed).value))
    {
      var blocked := audit.EnforceThrottle(subject, ip, now, at);
      if blocked {
        return Err(Throttled);
      }
      var admin := Admin(email);
      var consumed := false;
      if admin.Some? {
        consumed := ConsumeRecoveryCode(admin.value, typed, now);
      }
      audit.RecordVerification(subject, admin, ip, false, consumed, at);
      if !consumed {
        return Err(VerificationFailed);
      }
      IssueRecoveryGrant(admin.value, RECOVERY_CODE, userAgent, token, expiresAt);
      r := Ok(token);
    }

    /**
     * verifyPasskeyRecovery, with the WebAuthn check given as `verified`: the
     * challenge is spent first, and a grant follows only for the passkey's own
     * account, with its counter advanced; throttle and audit log are shared
     * with the recovery codes.
     */
    method VerifyPasskeyRecovery(email: string, subject: string, challenge: nat, passkey: string, verified: bool, newCounter: nat,
                                 ip: Option<string>, userAgent: Option<string>, audit: ThrottleRuns.AuditLog,
                                 token: string, now: int, at: int, expiresAt: int)
      returns (r: Result<string, Failure>)
      requires FreshToken(state.grants, token)
      modifies this, audit
      ensures var throttled := Throttle.Check(old(audit.rows), Some(subject), ip, now).blocked;
              var found := !throttled && Takes(old(state), Claim(challenge, subject, Agent(userAgent), now));
              var user := if found then old(Admin(email)) else None;
              audit.rows == old(audit.rows) + ThrottleRuns.Outcome(old(audit.rows), ThrottleRuns.Verify(subject, user, ip, true, r.Ok?, now, at))
      ensures var throttled := Throttle.Check(old(audit.rows), Some(subject), ip, now).blocked;
              var claim := Claim(challenge, subject, Agent(userAgent), now);
              var claimed := Next(old(state), claim);
              var admin := old(Admin(email));
              && (r.Ok? <==> !throttled && Takes(old(state), claim) && admin.Some? && verified
                             && passkey in old(state).passkeys && old(state).passkeys[passkey].user == admin.value)
              && (r.Ok? ==> r.value == token)
              && (r.Ok? ==>
                    state == Next(claimed, VerifyPasskey(challenge, admin.value, passkey, old(state).passkeys[passkey].counter,
                                                         newCounter, token, Agent(userAgent), expiresAt)))
              && (r.Err? ==> state == if throttled || !Takes(old(state), claim) then old(state) else Next(claimed, Abandon(challenge)))
      ensures var throttled := Throttle.Check(old(audit.rows), Some(subject), ip, now).blocked;
              var a, b, claimable := old(state), state, Claimable(old(state).challenges, challenge, subject, userAgent, now);
              && (r.Ok? <==> !throttled && claimable && email in emails && MayRecover(a.users, emails[email]) && verified
                             && passkey in a.passkeys && a.passkeys[passkey].user == emails[email])
              && (r.Ok? ==> exists agent ::
                    && IsAgent(agent, userAgent)
                    && b == a.(challenges := a.challenges[challenge := a.challenges[challenge].(consumedAt := Some(now))],
                            inFlight := a.inFlight + {challenge} - {challenge},
                            passkeys := a.passkeys[passkey := Key(emails[email], newCounter)],
                            grants := a.grants + [Grant(emails[email], PASSKEY, token, agent, expiresAt, None)]))
              && (r.Err? ==> b == if throttled || !claimable then a
                                  else a.(challenges := a.challenges[challenge := a.challenges[challenge].(consumedAt := Some(now))],
                                          inFlight := a.inFlight + {challenge} - {challenge}))
    {
      hide Throttle.Check, FindCode, FindGrant;
      var blocked := audit.EnforceThrottle(subject, ip, now, at);
      if blocked {
        return Err(Throttled);
      }
      if !Takes(state, Claim(challenge, subject, Agent(userAgent), now)) {
        audit.RecordVerification(subject, None, ip, true, false, at);
        return Err(VerificationFailed);
      }
      state := state.(challenges := state.challenges[challenge := state.challenges[challenge].(consumedAt := Some(now))],
                      inFlight := state.inFlight + {challenge});
      var admin := Admin(email);
      if admin.None? || passkey !in state.passkeys || state.passkeys[passkey].user != admin.value || !verified {
        state := state.(inFlight := state.inFlight - {challenge});
        audit.RecordVerification(subject, admin, ip, true, false, at);
        return Err(VerificationFailed);
      }
      state := state.(passkeys := state.passkeys[passkey := Key(admin.value, newCounter)],
                      inFlight := state.inFlight - {challenge});
      IssueRecoveryGrant(admin.value, PASSKEY, userAgent, token, expiresAt);
      audit.RecordVerification(subject, admin, ip, true, true, at);
      r := Ok(token);
    }

    /** consumeRecoveryGrant: the row of the grant it consumed. */
    method ConsumeRecoveryGrant(token: string, userAgent: Option<string>, now: int) returns (r: Option<nat>)
      modifies this
      ensures var g := FindGrant(old(state.grants), token);
              && (r.Some? <==> WellFormedToken(token) && g.Some? && old(state.grants)[g.value].agent == Agent(userAgent)
                               && old(state.grants)[g.value].consumedAt.None? && old(state.grants)[g.value].expiresAt > now)
              && (r.Some? ==> r == g && state == old(state).(grants := old(state.grants)[g.value := old(state.grants)[g.value].(consumedAt := Some(now))]))
              && (r.None? ==> state == old(state))
      ensures r.Some? ==> OpenGrant(old(state).grants, r.value, token, userAgent, now)
                          && state == old(state).(grants := old(state).grants[r.value := old(state).grants[r.value].(consumedAt := Some(now))])
      ensures r.None? && WellFormedToken(token) && UniqueTokens(old(state).grants) ==>
                forall g: nat :: !OpenGrant(old(state).grants, g, token, userAgent, now)
    {
      if !WellFormedToken(token) {
        return None;
      }
      var g := FindGrant(state.grants, token);
      if g.None? || state.grants[g.value].agent != Agent(userAgent) || state.grants[g.value].consumedAt.Some?
         || state.grants[g.value].expiresAt <= now {
        return None;
      }
      state := state.(grants := state.grants[g.value := state.grants[g.value].(consumedAt := Some(now))]);
      r := g;
    }

    /**
     * resetPasswordWithGrant: for a well-formed token and a strong password it
     * succeeds exactly when the grant is open to this client and its account
     * is still an active admin; otherwise nothing at all changes.
     */
    method ResetPasswordWithGrant(token: string, newPassword: string, userAgent: Option<string>, now: int)
      returns (r: Result<string, Failure>)
      modifies this
      ensures r.Ok? <==> WellFormedToken(token) && StrongPassword(newPassword)
                         && Takes(old(state), Reset(token, Agent(userAgent), newPassword, now))
      ensures r.Ok? ==>
                && state == Next(old(state), Reset(token, Agent(userAgent), newPassword, now))
                && r.value == old(state.grants)[FindGrant(old(state.grants), token).value].user
                && (forall i | 0 <= i < |state.sessions| && state.sessions[i].user == r.value :: state.sessions[i].revokedAt.Some?)
                && (forall i | 0 <= i < |state.grants| && state.grants[i].user == r.value :: state.grants[i].consumedAt.Some?)
      ensures r.Err? ==> state == old(state)
      ensures r.Ok? ==>
                && (exists g: nat :: OpenGrant(old(state).grants, g, token, userAgent, now) && old(state).grants[g].user == r.value)
                && MayRecover(old(state).users, r.value)
                && PasswordReset(old(state), state, r.value, newPassword, now)
      ensures r == Err(WeakPassword) <==> WellFormedToken(token) && !StrongPassword(newPassword)
      ensures r.Err? && r != Err(WeakPassword) ==> r == Err(InvalidGrant)
      ensures r == Err(InvalidGrant) && WellFormedToken(token) && UniqueTokens(old(state).grants) ==>
                forall g: nat | OpenGrant(old(state).grants, g, token, userAgent, now) ::
                  !MayRecover(old(state).users, old(state).grants[g].user)
    {
      if !WellFormedToken(token) {
        return Err(InvalidGrant);
      }
      if !StrongPassword(newPassword) {
        return Err(WeakPassword);
      }
      var saved := state;
      var claimed := ConsumeRecoveryGrant(token, userAgent, now);
      if claimed.None? {
        return Err(InvalidGrant);
      }
      var user := state.grants[claimed.value].user;
      if !Eligible(state.users, user) {
        state := saved;
        return Err(InvalidGrant);
      }
      state := state.(users := state.users[user := state.users[user].(password := newPassword)]);
      state := state.(sessions := RevokeSessions(state.sessions, user, now));
      state := state.(grants := Invalidate(state.grants, user, now));
      r := Ok(user);
    }
  }
}

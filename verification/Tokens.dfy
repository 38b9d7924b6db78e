/**
 Access and refresh tokens over every interleaving of the statements that mint, rotate,
 revoke and outdate them.

 `Validate` accepts an access token by its version alone and then trusts the token's
 `isAdmin` claim.  That is right only because of what the writers do: the column
 changes only together with the version, and a minting request reads both in one
 statement.  Refresh tokens rotate: a login starts a family, and each refresh replaces
 the family's token by a new one.
 */
module Tokens {
  import opened Seqs
  import opened Wrappers

  type Jti = string

  datatype Status = Active | Paused | Banned
  datatype User = User(status: Status, isAdmin: bool, version: int, deleted: bool)

  datatype Claims = Claims(sub: int, isAdmin: bool, version: int)
  datatype RefreshToken = RefreshToken(claims: Claims, jti: Jti)

  datatype TokenRow = TokenRow(userId: int, revoked: bool, expiresAt: int)

  // A request between two of its statements.
  datatype Job =
    | Minting(claims: Claims, family: int)           // the user row is read, the tokens are not saved yet
    | Consumed(token: RefreshToken, family: int)     // the old token's row is gone, the user row is not read yet

  // `access`, `refresh` and `families` record what was ever issued; a signature check succeeds exactly on those.
  datatype State = State(users: map<int, User>, rows: map<Jti, TokenRow>, now: int,
                         access: set<Claims>, refresh: set<RefreshToken>, families: map<Jti, int>, nextFamily: int,
                         jobs: map<int, Job>)

  const NO_STATE := State(map[], map[], 0, {}, {}, map[], 0, map[])

  const NEW_USER := User(Active, false, 0, false)

  // ---------- Steps ----------

  datatype Action =
    | Register(u: int, jti: Jti, ttl: int)
    | ReadUser(job: int, u: int)
    | SaveTokens(job: int, jti: Jti, ttl: int)
    | Consume(job: int, token: RefreshToken)
    | RereadUser(job: int)
    | Revoke(token: RefreshToken)
    | Promote(u: int)
    | Demote(u: int)
    | DeleteUser(u: int)
    | SetStatus(u: int, status: Status)
    | Fail(job: int)
    | Tick(seconds: nat)

  predicate Exists(s: State, u: int) {
    u in s.users && !s.users[u].deleted
  }

  predicate CanMint(s: State, u: int) {
    Exists(s, u) && s.users[u].status == Active
  }

  function ClaimsOf(s: State, u: int): Claims
    requires u in s.users
  {
    Claims(u, s.users[u].isAdmin, s.users[u].version)
  }

  function Issue(s: State, claims: Claims, jti: Jti, ttl: int, family: int): State {
    s.(access := s.access + {claims},
       refresh := s.refresh + {RefreshToken(claims, jti)},
       rows := s.rows[jti := TokenRow(claims.sub, false, s.now + ttl)],
       families := s.families[jti := family])
  }

  // The row a consume deletes: present, not revoked, not expired.
  predicate Usable(s: State, jti: Jti) {
    jti in s.rows && !s.rows[jti].revoked && s.rows[jti].expiresAt > s.now
  }

  function SetUser(s: State, u: int, user: User): State {
    s.(users := s.users[u := user])
  }

  // A step whose statement matches no row, or whose request is not there, changes nothing.
  function Step(s: State, a: Action): State {
    match a
    case Register(u, jti, ttl) =>
      if u in s.users || jti in s.families then s
      else Issue(SetUser(s, u, NEW_USER), Claims(u, false, 0), jti, ttl, s.nextFamily).(nextFamily := s.nextFamily + 1)
    case ReadUser(job, u) =>
      if job in s.jobs || !CanMint(s, u) then s
      else s.(jobs := s.jobs[job := Minting(ClaimsOf(s, u), s.nextFamily)], nextFamily := s.nextFamily + 1)
    case SaveTokens(job, jti, ttl) =>
      if job !in s.jobs || !s.jobs[job].Minting? || jti in s.families then s
      else Issue(s, s.jobs[job].claims, jti, ttl, s.jobs[job].family).(jobs := s.jobs - {job})
    case Consume(job, token) =>
      if job in s.jobs || token !in s.refresh || token.jti !in s.families || !Usable(s, token.jti) then s
      else
        var s' := s.(rows := s.rows - {token.jti});
        if s.rows[token.jti].userId != token.claims.sub then s'
        else s'.(jobs := s.jobs[job := Consumed(token, s.families[token.jti])])
    case RereadUser(job) =>
      if job !in s.jobs || !s.jobs[job].Consumed? then s
      else
        var token := s.jobs[job].token;
        var u := token.claims.sub;
        if CanMint(s, u) && s.users[u].version == token.claims.version
        then s.(jobs := s.jobs[job := Minting(ClaimsOf(s, u), s.jobs[job].family)])
        else s.(jobs := s.jobs - {job})
    case Revoke(token) =>
      if token !in s.refresh || token.jti !in s.rows then s
      else s.(rows := s.rows[token.jti := s.rows[token.jti].(revoked := true)])
    case Promote(u) =>
      if !Exists(s, u) then s else SetUser(s, u, s.users[u].(isAdmin := true, version := s.users[u].version + 1))
    case Demote(u) =>
      if !Exists(s, u) then s else SetUser(s, u, s.users[u].(isAdmin := false, version := s.users[u].version + 1))
    case DeleteUser(u) =>
      if !Exists(s, u) then s else SetUser(s, u, s.users[u].(deleted := true, version := s.users[u].version + 1))
    case SetStatus(u, status) =>
      if !Exists(s, u) then s else SetUser(s, u, s.users[u].(status := status))
    case Fail(job) => s.(jobs := s.jobs - {job})
    case Tick(n) => s.(now := s.now + n)
  }

  function Run(s: State, actions: seq<Action>): State {
    Fold(Step, s, actions)
  }

  // ---------- What the guards decide ----------

  datatype AuthUser = AuthUser(sub: int, isAdmin: bool, version: int)

  // `isAdmin` is copied from the token; the column is not read.
  function Validate(s: State, claims: Claims): Option<AuthUser> {
    if claims.sub <= 0 then None
    else if !Exists(s, claims.sub) || s.users[claims.sub].version != claims.version then None
    else Some(AuthUser(claims.sub, claims.isAdmin, s.users[claims.sub].version))
  }

  // A refresh request for `token` that ran now without interruption would be given new tokens.
  predicate RefreshAccepted(s: State, token: RefreshToken) {
    && token in s.refresh && Usable(s, token.jti) && s.rows[token.jti].userId == token.claims.sub
    && CanMint(s, token.claims.sub) && s.users[token.claims.sub].version == token.claims.version
  }

  // ---------- The invariant ----------

  // Claims are never ahead of the user row, and at the same version they agree with it.
  ghost predicate Dated(s: State, claims: Claims) {
    && claims.sub in s.users
    && claims.version <= s.users[claims.sub].version
    && (claims.version == s.users[claims.sub].version ==> claims.isAdmin == s.users[claims.sub].isAdmin)
  }

  function JobClaims(job: Job): Claims {
    match job
    case Minting(claims, _) => claims
    case Consumed(token, _) => token.claims
  }

  ghost predicate Live(rows: map<Jti, TokenRow>, jti: Jti) {
    jti in rows && !rows[jti].revoked
  }

  ghost predicate ClaimsDated(s: State) {
    && (forall c :: c in s.access ==> Dated(s, c))
    && (forall t :: t in s.refresh ==> Dated(s, t.claims) && t.jti in s.families)
    && (forall j :: j in s.jobs ==> Dated(s, JobClaims(s.jobs[j])))
  }

  // Each family is in one place: one live row, or one request under way, or nowhere.
  ghost predicate Linear(rows: map<Jti, TokenRow>, families: map<Jti, int>, nextFamily: int, jobs: map<int, Job>) {
    && (forall i :: i in rows ==> i in families)
    && (forall i :: i in families ==> families[i] < nextFamily)
    && (forall j :: j in jobs ==> jobs[j].family < nextFamily)
    && (forall i, k {:trigger Live(rows, i), Live(rows, k)} :: Live(rows, i) && Live(rows, k) && families[i] == families[k] ==> i == k)
    && (forall i, j {:trigger Live(rows, i), jobs[j]} :: Live(rows, i) && j in jobs ==> families[i] != jobs[j].family)
    && (forall j, k {:trigger jobs[j], jobs[k]} :: j in jobs && k in jobs && jobs[j].family == jobs[k].family ==> j == k)
  }

  ghost predicate LinearState(s: State) {
    Linear(s.rows, s.families, s.nextFamily, s.jobs)
  }

  ghost predicate Inv(s: State) {
    ClaimsDated(s) && LinearState(s)
  }

  // Claims dated before a step are dated after it: the writers move the flag only with the version.
  lemma DatedStays(s: State, a: Action, claims: Claims)
    requires Dated(s, claims)
    ensures Dated(Step(s, a), claims)
  {
  }

  // What a step adds is read from the user row or was dated before.
  lemma NewAccessDated(s: State, a: Action, claims: Claims)
    requires ClaimsDated(s) && claims in Step(s, a).access && claims !in s.access
    ensures Dated(Step(s, a), claims)
  {
  }

  lemma NewRefreshDated(s: State, a: Action, token: RefreshToken)
    requires ClaimsDated(s) && token in Step(s, a).refresh && token !in s.refresh
    ensures Dated(Step(s, a), token.claims) && token.jti in Step(s, a).families
  {
  }

  lemma JobsDated(s: State, a: Action, j: int)
    requires ClaimsDated(s) && j in Step(s, a).jobs
    ensures Dated(Step(s, a), JobClaims(Step(s, a).jobs[j]))
  {
  }

  lemma FamiliesStay(s: State, a: Action)
    ensures s.families.Keys <= Step(s, a).families.Keys
  {
  }

  lemma StepKeepsClaimsDated(s: State, a: Action)
    requires ClaimsDated(s)
    ensures ClaimsDated(Step(s, a))
  {
    var u := Step(s, a);
    FamiliesStay(s, a);
    forall c | c in u.access ensures Dated(u, c) {
      if c in s.access {
        DatedStays(s, a, c);
      } else {
        NewAccessDated(s, a, c);
      }
    }
    forall t | t in u.refresh ensures Dated(u, t.claims) && t.jti in u.families {
      if t in s.refresh {
        DatedStays(s, a, t.claims);
      } else {
        NewRefreshDated(s, a, t);
      }
    }
    forall j | j in u.jobs ensures Dated(u, JobClaims(u.jobs[j])) {
      JobsDated(s, a, j);
    }
  }

  // Rows may go or be revoked, and requests may end: a family is then in fewer places.
  lemma ShrinkKeepsLinear(rows: map<Jti, TokenRow>, families: map<Jti, int>, next: int, jobs: map<int, Job>,
                          rows': map<Jti, TokenRow>, next': int, jobs': map<int, Job>)
    requires Linear(rows, families, next, jobs) && next <= next'
    requires forall i :: i in rows' ==> i in rows && (rows[i].revoked ==> rows'[i].revoked)
    requires forall j :: j in jobs' ==> j in jobs && jobs'[j].family == jobs[j].family
    ensures Linear(rows', families, next', jobs')
  {
    assert forall i :: Live(rows', i) ==> Live(rows, i);
  }

  // A family that no live row and no request is in may be given a token,
  lemma IssueKeepsLinear(rows: map<Jti, TokenRow>, families: map<Jti, int>, next: int, jobs: map<int, Job>,
                         jti: Jti, row: TokenRow, family: int)
    requires Linear(rows, families, next, jobs) && jti !in families && family < next
    requires forall i :: Live(rows, i) ==> families[i] != family
    requires forall j :: j in jobs ==> jobs[j].family != family
    ensures Linear(rows[jti := row], families[jti := family], next, jobs)
  {
    var rows', families' := rows[jti := row], families[jti := family];
    forall i | Live(rows', i) && i != jti
      ensures Live(rows, i) && i in families && families'[i] == families[i] && families[i] != family
    {
      assert Live(rows, i);
    }
  }

  // or a request.
  lemma StartKeepsLinear(rows: map<Jti, TokenRow>, families: map<Jti, int>, next: int, jobs: map<int, Job>,
                         job: int, j: Job)
    requires Linear(rows, families, next, jobs) && job !in jobs && j.family < next
    requires forall i :: Live(rows, i) ==> families[i] != j.family
    requires forall k :: k in jobs ==> jobs[k].family != j.family
    ensures Linear(rows, families, next, jobs[job := j])
  {
  }

  lemma SaveKeepsLinear(s: State, job: int, jti: Jti, row: TokenRow)
    requires Linear(s.rows, s.families, s.nextFamily, s.jobs) && job in s.jobs && jti !in s.families
    ensures Linear(s.rows[jti := row], s.families[jti := s.jobs[job].family], s.nextFamily, s.jobs - {job})
  {
    ShrinkKeepsLinear(s.rows, s.families, s.nextFamily, s.jobs, s.rows, s.nextFamily, s.jobs - {job});
    IssueKeepsLinear(s.rows, s.families, s.nextFamily, s.jobs - {job}, jti, row, s.jobs[job].family);
  }

  lemma ConsumeKeepsLinear(s: State, job: int, token: RefreshToken)
    requires Linear(s.rows, s.families, s.nextFamily, s.jobs)
    requires job !in s.jobs && token.jti in s.families && Usable(s, token.jti)
    ensures Linear(s.rows - {token.jti}, s.families, s.nextFamily, s.jobs)
    ensures Linear(s.rows - {token.jti}, s.families, s.nextFamily, s.jobs[job := Consumed(token, s.families[token.jti])])
  {
    var rows' := s.rows - {token.jti};
    assert Live(s.rows, token.jti);
    assert forall i :: Live(rows', i) ==> Live(s.rows, i) && i != token.jti;
    ShrinkKeepsLinear(s.rows, s.families, s.nextFamily, s.jobs, rows', s.nextFamily, s.jobs);
    StartKeepsLinear(rows', s.families, s.nextFamily, s.jobs, job, Consumed(token, s.families[token.jti]));
  }

  lemma NewFamilyIssued(s: State, jti: Jti, row: TokenRow)
    requires Linear(s.rows, s.families, s.nextFamily, s.jobs) && jti !in s.families
    ensures Linear(s.rows[jti := row], s.families[jti := s.nextFamily], s.nextFamily + 1, s.jobs)
  {
    ShrinkKeepsLinear(s.rows, s.families, s.nextFamily, s.jobs, s.rows, s.nextFamily + 1, s.jobs);
    IssueKeepsLinear(s.rows, s.families, s.nextFamily + 1, s.jobs, jti, row, s.nextFamily);
  }

  lemma NewFamilyStarted(s: State, job: int, claims: Claims)
    requires Linear(s.rows, s.families, s.nextFamily, s.jobs) && job !in s.jobs
    ensures Linear(s.rows, s.families, s.nextFamily + 1, s.jobs[job := Minting(claims, s.nextFamily)])
  {
    ShrinkKeepsLinear(s.rows, s.families, s.nextFamily, s.jobs, s.rows, s.nextFamily + 1, s.jobs);
    StartKeepsLinear(s.rows, s.families, s.nextFamily + 1, s.jobs, job, Minting(claims, s.nextFamily));
  }

  lemma RegisterKeepsLinear(s: State, u: int, jti: Jti, ttl: int)
    requires LinearState(s)
    ensures LinearState(Step(s, Register(u, jti, ttl)))
  {
    if u !in s.users && jti !in s.families {
      NewFamilyIssued(s, jti, TokenRow(u, false, s.now + ttl));
    }
  }

  lemma ReadKeepsLinear(s: State, job: int, u: int)
    requires LinearState(s)
    ensures LinearState(Step(s, ReadUser(job, u)))
  {
    if job !in s.jobs && CanMint(s, u) {
      NewFamilyStarted(s, job, ClaimsOf(s, u));
    }
  }

  lemma SaveStepKeepsLinear(s: State, job: int, jti: Jti, ttl: int)
    requires LinearState(s)
    ensures LinearState(Step(s, SaveTokens(job, jti, ttl)))
  {
    if job in s.jobs && s.jobs[job].Minting? && jti !in s.families {
      SaveKeepsLinear(s, job, jti, TokenRow(s.jobs[job].claims.sub, false, s.now + ttl));
    }
  }

  lemma ConsumeStepKeepsLinear(s: State, job: int, token: RefreshToken)
    requires LinearState(s)
    ensures LinearState(Step(s, Consume(job, token)))
  {
    if Step(s, Consume(job, token)) != s {
      ConsumeKeepsLinear(s, job, token);
    }
  }

  // The other steps at most end requests, keep their families, and revoke rows.
  lemma OtherStepShrinks(s: State, a: Action)
    requires !a.Register? && !a.ReadUser? && !a.SaveTokens? && !a.Consume?
    ensures var u := Step(s, a);
      && u.families == s.families && u.nextFamily == s.nextFamily
      && (forall i :: i in u.rows ==> i in s.rows && (s.rows[i].revoked ==> u.rows[i].revoked))
      && (forall j :: j in u.jobs ==> j in s.jobs && u.jobs[j].family == s.jobs[j].family)
  {
  }

  lemma StepKeepsLinear(s: State, a: Action)
    requires LinearState(s)
    ensures LinearState(Step(s, a))
  {
    match a
    case Register(u, jti, ttl) => RegisterKeepsLinear(s, u, jti, ttl);
    case ReadUser(job, u) => ReadKeepsLinear(s, job, u);
    case SaveTokens(job, jti, ttl) => SaveStepKeepsLinear(s, job, jti, ttl);
    case Consume(job, token) => ConsumeStepKeepsLinear(s, job, token);
    case _ =>
      OtherStepShrinks(s, a);
      var u := Step(s, a);
      ShrinkKeepsLinear(s.rows, s.families, s.nextFamily, s.jobs, u.rows, u.nextFamily, u.jobs);
  }

  lemma {:induction false} RunKeepsInv(s: State, actions: seq<Action>)
    requires Inv(s)
    ensures Inv(Run(s, actions))
  {
    if actions != [] {
      var n := |actions| - 1;
      RunKeepsInv(s, actions[..n]);
      StepKeepsClaimsDated(Run(s, actions[..n]), actions[n]);
      StepKeepsLinear(Run(s, actions[..n]), actions[n]);
    }
  }

  // ---------- Main results ----------

  /** In every run, an issued access token that is accepted carries the current value of the `is_admin` column. */
  lemma AcceptedClaimIsCurrent(actions: seq<Action>, claims: Claims)
    requires claims in Run(NO_STATE, actions).access
    ensures var s := Run(NO_STATE, actions);
      Validate(s, claims).Some? ==>
        Validate(s, claims).value == AuthUser(claims.sub, s.users[claims.sub].isAdmin, s.users[claims.sub].version)
  {
    RunKeepsInv(NO_STATE, actions);
  }

  // Versions only grow, and a deleted user stays deleted.
  ghost predicate Later(s: State, t: State, u: int)
    requires u in s.users
  {
    u in t.users && s.users[u].version <= t.users[u].version && (s.users[u].deleted ==> t.users[u].deleted)
  }

  lemma StepIsLater(s: State, a: Action, u: int)
    requires u in s.users
    ensures Later(s, Step(s, a), u)
  {
  }

  lemma {:induction false} RunIsLater(s: State, actions: seq<Action>, u: int)
    requires u in s.users
    ensures Later(s, Run(s, actions), u)
  {
    if actions != [] {
      var n := |actions| - 1;
      RunIsLater(s, actions[..n], u);
      StepIsLater(Run(s, actions[..n]), actions[n], u);
    }
  }

  predicate Outdates(a: Action, u: int) {
    a == Promote(u) || a == Demote(u) || a == DeleteUser(u)
  }

  /**
   Once a user is promoted, demoted or deleted, nothing whose claims were read before is
   ever accepted again: not an access token, not a refresh token, and not what a request
   that was under way at that moment goes on to issue.
   */
  lemma OutdatedForever(before: seq<Action>, a: Action, after: seq<Action>, claims: Claims, jti: Jti)
    requires var s := Run(NO_STATE, before);
      && Outdates(a, claims.sub) && Exists(s, claims.sub)
      && (claims in s.access || RefreshToken(claims, jti) in s.refresh
          || exists j :: j in s.jobs && JobClaims(s.jobs[j]) == claims)
    ensures var t := Run(Step(Run(NO_STATE, before), a), after);
      Validate(t, claims).None? && !RefreshAccepted(t, RefreshToken(claims, jti))
  {
    var s := Run(NO_STATE, before);
    RunKeepsInv(NO_STATE, before);
    assert Dated(s, claims);
    RunIsLater(Step(s, a), after, claims.sub);
  }

  /** A login family never has two live refresh tokens, however consume, read and save statements interleave. */
  lemma OneLiveTokenPerFamily(actions: seq<Action>, i: Jti, k: Jti)
    requires var s := Run(NO_STATE, actions);
      Live(s.rows, i) && Live(s.rows, k) && i in s.families && k in s.families && s.families[i] == s.families[k]
    ensures i == k
  {
    RunKeepsInv(NO_STATE, actions);
  }

  // Gone for good: issued once, and no longer live.
  ghost predicate Spent(s: State, jti: Jti) {
    jti in s.families && !Live(s.rows, jti)
  }

  lemma StepKeepsSpent(s: State, a: Action, jti: Jti)
    requires Spent(s, jti)
    ensures Spent(Step(s, a), jti)
  {
  }

  lemma {:induction false} SpentStaysSpent(s: State, actions: seq<Action>, jti: Jti)
    requires Spent(s, jti)
    ensures Spent(Run(s, actions), jti)
  {
    if actions != [] {
      var n := |actions| - 1;
      SpentStaysSpent(s, actions[..n], jti);
      StepKeepsSpent(Run(s, actions[..n]), actions[n], jti);
    }
  }

  /** A `jti` once consumed or revoked is never accepted by a later consume. */
  lemma ConsumedOnce(before: seq<Action>, a: Action, after: seq<Action>, token: RefreshToken)
    requires token in Run(NO_STATE, before).refresh
    requires a == Revoke(token) || (a.Consume? && a.token == token && a.job !in Run(NO_STATE, before).jobs)
    requires a.Consume? ==> Usable(Run(NO_STATE, before), token.jti)
    ensures var t := Run(Step(Run(NO_STATE, before), a), after);
      !Usable(t, token.jti) && !RefreshAccepted(t, token)
  {
    RunKeepsInv(NO_STATE, before);
    var s := Step(Run(NO_STATE, before), a);
    assert Spent(s, token.jti);
    SpentStaysSpent(s, after, token.jti);
  }
}

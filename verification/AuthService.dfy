/**
 The account methods that mint, rotate, revoke and outdate tokens, as they run on the
 users table and the token store.  Each is proved to be a fixed sequence of the atomic
 steps of module Tokens, so what holds of every interleaving of steps holds of every
 interleaving of these methods.  Accounts are found by address under the unique keys of
 the users table, which every method keeps.
 */
module AuthService {
  import opened Wrappers
  import opened OtpRuns
  import opened Seqs
  import opened Tokens
  import opened AuthStore

  datatype AuthError =
    | InvalidCredentials
    | InvalidRefreshToken
    | UserNotFound
    | AlreadyAdmin
    | NotAdmin
    | CannotDemoteSelf
    | AlreadyRegistered
    | RegistrationExpired
    | PasswordsDiffer
    | BadCode(error: OtpError)

  // Reading the user row again and saving, after a consume that found its user: the request ends either way.
  lemma RereadAndSave(s: State, job: int, token: RefreshToken, family: int, jti: Jti, ttl: int)
    requires job in s.jobs && s.jobs[job] == Consumed(token, family) && jti !in s.families
    ensures Step(Step(s, RereadUser(job)), SaveTokens(job, jti, ttl)) ==
      var done := s.(jobs := s.jobs - {job});
      if CanMint(s, token.claims.sub) && s.users[token.claims.sub].version == token.claims.version
      then Issue(done, ClaimsOf(s, token.claims.sub), jti, ttl, family) else done
  {
    var s1 := Step(s, RereadUser(job));
    if CanMint(s, token.claims.sub) && s.users[token.claims.sub].version == token.claims.version {
      assert s1.jobs[job] == Minting(ClaimsOf(s, token.claims.sub), family);
      assert s1.jobs - {job} == s.jobs - {job};
    } else {
      assert job !in s1.jobs;
    }
  }

  // The three statements of a refresh, uninterrupted: the old row goes even when the rest is refused.
  lemma RefreshInOnePiece(s: State, job: int, token: RefreshToken, jti: Jti, ttl: int)
    requires job !in s.jobs && token in s.refresh && token.jti in s.families && jti !in s.families
    ensures Run(s, [Consume(job, token), RereadUser(job), SaveTokens(job, jti, ttl)]) ==
      if !Usable(s, token.jti) then s
      else
        var s' := s.(rows := s.rows - {token.jti});
        if RefreshAccepted(s, token) then Issue(s', ClaimsOf(s, token.claims.sub), jti, ttl, s.families[token.jti]) else s'
  {
    FoldThree(Step, s, Consume(job, token), RereadUser(job), SaveTokens(job, jti, ttl));
    var s1 := Step(s, Consume(job, token));
    if Usable(s, token.jti) && s.rows[token.jti].userId == token.claims.sub {
      RereadAndSave(s1, job, token, s.families[token.jti], jti, ttl);
      assert s1.jobs - {job} == s.jobs;
    } else {
      assert Step(s1, RereadUser(job)) == s1;
    }
  }

  // A read and a save leave users, clock and the rows of earlier tokens alone.
  lemma MintKeepsOld(s: State, job: int, u: int, jti: Jti, ttl: int)
    requires job !in s.jobs && jti !in s.families
    ensures var t := Step(Step(s, ReadUser(job, u)), SaveTokens(job, jti, ttl));
      && t.users == s.users && t.now == s.now && s.refresh <= t.refresh
      && (forall r :: r in t.refresh && r.jti != jti ==> r in s.refresh)
      && t.rows - {jti} == s.rows - {jti}
  {
  }

  /**
   A password reset mints a new pair and outdates nothing: every claim and every earlier
   refresh token is accepted after it exactly if it was before.
   */
  lemma ResetOutdatesNothing(s: State, job: int, u: int, jti: Jti, ttl: int, claims: Claims, token: RefreshToken)
    requires job !in s.jobs && jti !in s.families && token.jti in s.families
    ensures var t := Run(s, [ReadUser(job, u), SaveTokens(job, jti, ttl)]);
      && Validate(t, claims) == Validate(s, claims)
      && (RefreshAccepted(t, token) <==> RefreshAccepted(s, token))
  {
    FoldTwo(Step, s, ReadUser(job, u), SaveTokens(job, jti, ttl));
    MintKeepsOld(s, job, u, jti, ttl);
  }

  lemma ReadInOnePiece(s: State, job: int, u: int)
    requires CanMint(s, u) && job !in s.jobs
    ensures Step(s, ReadUser(job, u))
         == s.(jobs := s.jobs[job := Minting(ClaimsOf(s, u), s.nextFamily)], nextFamily := s.nextFamily + 1)
  {
  }

  lemma SaveInOnePiece(s: State, job: int, jti: Jti, ttl: int, minting: Job)
    requires job in s.jobs && s.jobs[job] == minting && minting.Minting? && jti !in s.families
    ensures Step(s, SaveTokens(job, jti, ttl)) == Issue(s, minting.claims, jti, ttl, minting.family).(jobs := s.jobs - {job})
  {
  }

  // A read and a save in one piece.
  lemma IssueLeavesJobs(s: State, jobs: map<int, Job>, nextFamily: int, claims: Claims, jti: Jti, ttl: int, family: int)
    ensures Issue(s.(jobs := jobs, nextFamily := nextFamily), claims, jti, ttl, family).(jobs := s.jobs)
         == Issue(s, claims, jti, ttl, family).(nextFamily := nextFamily)
  {
  }

  lemma MintInOnePiece(s: State, job: int, u: int, jti: Jti, ttl: int)
    requires CanMint(s, u) && job !in s.jobs && jti !in s.families
    ensures Step(Step(s, ReadUser(job, u)), SaveTokens(job, jti, ttl))
         == Issue(s, ClaimsOf(s, u), jti, ttl, s.nextFamily).(nextFamily := s.nextFamily + 1)
  {
    var minting := Minting(ClaimsOf(s, u), s.nextFamily);
    var jobs := s.jobs[job := minting];
    ReadInOnePiece(s, job, u);
    SaveInOnePiece(s.(jobs := jobs, nextFamily := s.nextFamily + 1), job, jti, ttl, minting);
    assert jobs - {job} == s.jobs;
    IssueLeavesJobs(s, jobs, s.nextFamily + 1, minting.claims, jti, ttl, minting.family);
  }

  // ---------- The unique keys of the users table ----------

  // A registration that waits for its code, by lower-cased e-mail address.
  datatype Pending = Pending(phone: Option<string>, passwordHash: string, expiresAt: int)

  datatype Contact = Contact(email: Option<string>, phone: Option<string>)

  predicate HasAddress(lower: string -> string, c: Contact, email: string) {
    c.email.Some? && lower(c.email.value) == lower(email)
  }

  // The live account of an address.
  predicate Named(lower: string -> string, users: map<int, User>, contacts: map<int, Contact>, email: string, id: int) {
    id in users && !users[id].deleted && id in contacts && HasAddress(lower, contacts[id], email)
  }

  predicate HasPhone(contacts: map<int, Contact>, phone: Option<string>, id: int) {
    id in contacts && phone.Some? && contacts[id].phone == phone
  }

  // One of the keys refuses a new row: a live account has the address, or any account, deleted or not, the phone.
  predicate Taken(lower: string -> string, users: map<int, User>, contacts: map<int, Contact>,
                  email: string, phone: Option<string>)
  {
    exists id :: id in users && (Named(lower, users, contacts, email, id) || HasPhone(contacts, phone, id))
  }

  predicate Clash(lower: string -> string, users: map<int, User>, contacts: map<int, Contact>, i: int, j: int)
    requires i in users && j in users && i in contacts && j in contacts
  {
    || (contacts[i].phone.Some? && contacts[i].phone == contacts[j].phone)
    || (&& !users[i].deleted && !users[j].deleted
        && contacts[i].email.Some? && HasAddress(lower, contacts[j], contacts[i].email.value))
  }

  predicate UniqueKeys(lower: string -> string, users: map<int, User>, contacts: map<int, Contact>) {
    && users.Keys <= contacts.Keys
    && forall i, j :: i in users && j in users && i != j ==> !Clash(lower, users, contacts, i, j)
  }

  /** An account is refused exactly if a live one has its address, up to case, or any at all its phone. */
  lemma TakenIff(lower: string -> string, users: map<int, User>, contacts: map<int, Contact>, email: string, phone: Option<string>)
    requires users.Keys <= contacts.Keys
    ensures Taken(lower, users, contacts, email, phone) <==>
      exists id :: id in users &&
        (|| (!users[id].deleted && contacts[id].email.Some? && lower(contacts[id].email.value) == lower(email))
         || (phone.Some? && contacts[id].phone == phone))
  {
    if id :| id in users && (Named(lower, users, contacts, email, id) || HasPhone(contacts, phone, id)) {
      assert id in contacts;
    }
  }

  lemma OneAccountPerAddress(lower: string -> string, users: map<int, User>, contacts: map<int, Contact>,
                             email: string, i: int, j: int)
    requires UniqueKeys(lower, users, contacts)
    requires Named(lower, users, contacts, email, i) && Named(lower, users, contacts, email, j)
    ensures i == j
  {
    if i != j {
      assert Clash(lower, users, contacts, i, j);
    }
  }

  // A row that no key refuses keeps the keys.
  lemma InsertKeepsKeys(lower: string -> string, users: map<int, User>, contacts: map<int, Contact>,
                        id: int, user: User, c: Contact)
    requires UniqueKeys(lower, users, contacts) && id !in users
    requires c.email.Some? && !Taken(lower, users, contacts, c.email.value, c.phone)
    ensures UniqueKeys(lower, users[id := user], contacts[id := c])
  {
    var users', contacts' := users[id := user], contacts[id := c];
    forall i, j | i in users' && j in users' && i != j ensures !Clash(lower, users', contacts', i, j) {
      if i != id && j != id {
        assert !Clash(lower, users, contacts, i, j);
      } else {
        var other := if i == id then j else i;
        assert !Named(lower, users, contacts, c.email.value, other) && !HasPhone(contacts, c.phone, other);
      }
    }
  }

  // So does any change of a row that does not bring a deleted account back.
  lemma ChangeKeepsKeys(lower: string -> string, users: map<int, User>, contacts: map<int, Contact>, id: int, user: User)
    requires UniqueKeys(lower, users, contacts) && id in users && (users[id].deleted ==> user.deleted)
    ensures UniqueKeys(lower, users[id := user], contacts)
  {
    var users' := users[id := user];
    forall i, j | i in users' && j in users' && i != j ensures !Clash(lower, users', contacts, i, j) {
      assert !Clash(lower, users, contacts, i, j);
    }
  }

  // ---------- The service ----------

  class AccountService {
    const sender: ConsoleOtpSender
    const store: AuthStateStore
    // Lower-casing of addresses, and the password hashing of the platform.
    const lower: string -> string
    const hash: string -> string
    const matches: (string, string) -> bool
    var users: map<int, User>
    var contacts: map<int, Contact>
    var passwords: map<int, string>
    var pending: map<string, Pending>
    // What has been signed so far, and the other requests under way.
    ghost var access: set<Claims>
    ghost var refresh: set<RefreshToken>
    ghost var families: map<Jti, int>
    ghost var nextFamily: int
    ghost var jobs: map<int, Job>

    ghost function State(): State
      reads this, store
    {
      Tokens.State(users, store.tokenRows, store.now, access, refresh, families, nextFamily, jobs)
    }

    // The keys hold, every account has a password, and a hash matches the password it was made of.
    ghost predicate Valid()
      reads this
    {
      && sender.store == store
      && (forall p :: matches(p, hash(p)))
      && users.Keys <= passwords.Keys && UniqueKeys(lower, users, contacts)
    }

    ghost function Account(email: string): Option<int>
      reads this
    {
      if id :| Named(lower, users, contacts, email, id) then Some(id) else None
    }

    constructor (sender: ConsoleOtpSender, lower: string -> string, hash: string -> string, matches: (string, string) -> bool)
      requires forall p :: matches(p, hash(p))
      ensures this.sender == sender && this.lower == lower && this.hash == hash && this.matches == matches && Valid()
      ensures State() == NO_STATE.(rows := store.tokenRows, now := store.now)
      ensures contacts == map[] && passwords == map[] && pending == map[]
    {
      this.sender, this.store, this.lower, this.hash, this.matches := sender, sender.store, lower, hash, matches;
      users, contacts, passwords, pending := map[], map[], map[], map[];
      access, refresh, families, nextFamily, jobs := {}, {}, map[], 0, map[];
    }

    // Signs both tokens and saves the refresh token's row.
    method GenerateTokens(claims: Claims, jti: Jti, ttl: int, ghost family: int, redisFails: bool)
      returns (token: RefreshToken)
      modifies `access, `refresh, `families, store`tokenRows, store`redisTokens
      ensures State() == Issue(old(State()), claims, jti, ttl, family)
      ensures token == RefreshToken(claims, jti)
    {
      token := RefreshToken(claims, jti);
      access, refresh := access + {claims}, refresh + {token};
      store.SaveRefreshTokenJti(jti, claims.sub, ttl, redisFails);
      families := families[jti := family];
    }

    // The new account with its first tokens.
    method InsertUser(id: int, contact: Contact, passwordHash: string, jti: Jti, ttl: int, redisFails: bool)
      returns (token: RefreshToken)
      requires Valid() && id !in users && jti !in families
      requires contact.email.Some? && !Taken(lower, users, contacts, contact.email.value, contact.phone)
      modifies `users, `contacts, `passwords, `access, `refresh, `families, `nextFamily, store`tokenRows, store`redisTokens
      ensures Valid()
      ensures State() == Run(old(State()), [Register(id, jti, ttl)])
      ensures contacts == old(contacts)[id := contact] && passwords == old(passwords)[id := passwordHash]
    {
      FoldOne(Step, State(), Register(id, jti, ttl));
      InsertKeepsKeys(lower, users, contacts, id, NEW_USER, contact);
      users, contacts, passwords := users[id := NEW_USER], contacts[id := contact], passwords[id := passwordHash];
      token := GenerateTokens(Claims(id, false, 0), jti, ttl, nextFamily, redisFails);
      nextFamily := nextFamily + 1;
    }

    /**
     A registration ends with an account exactly if the code is the one last sent, the
     registration still waits, and no unique key refuses the account.  Wrong codes are
     counted even when nothing else happens.
     */
    method VerifyRegistrationOtp(email: string, otp: string, id: int, jti: Jti, ttl: int, checkRedisFails: bool, redisFails: bool)
      returns (r: Result<RefreshToken, AuthError>)
      requires Valid() && id !in users && jti !in families
      modifies this, store`tokenRows, store`redisTokens, store`attempts, store`redisCounts
      ensures Valid()
      ensures var check := Check(sender.hash, old(sender.State()), Key(email, Registration), otp, store.now);
        var waiting := lower(email) in old(pending) && old(pending)[lower(email)].expiresAt > store.now;
        && sender.State() == check.codes
        && (r.Ok? <==> check.result.Ok? && waiting
                       && !Taken(lower, old(users), old(contacts), lower(lower(email)), old(pending)[lower(email)].phone))
        && (r.Err? ==> r.error == if check.result.Err? then BadCode(check.result.error)
                                  else if waiting then AlreadyRegistered else RegistrationExpired)
      ensures r.Ok? ==>
        (&& State() == Run(old(State()), [Register(id, jti, ttl)])
         && lower(email) in old(pending) && pending == old(pending) - {lower(email)}
         && contacts == old(contacts)[id := Contact(Some(lower(lower(email))), old(pending)[lower(email)].phone)]
         && passwords == old(passwords)[id := old(pending)[lower(email)].passwordHash])
      ensures r.Err? ==>
        State() == old(State()) && pending == old(pending) && contacts == old(contacts) && passwords == old(passwords)
    {
      var code := sender.CheckVerification(Key(email, Registration), otp, checkRedisFails);
      if code.Err? {
        return Err(BadCode(code.error));
      }
      var address := lower(email);
      if address !in pending || pending[address].expiresAt <= store.now {
        return Err(RegistrationExpired);
      }
      var contact := Contact(Some(lower(address)), pending[address].phone);
      if Taken(lower, users, contacts, lower(address), contact.phone) {
        return Err(AlreadyRegistered);
      }
      var token := InsertUser(id, contact, pending[address].passwordHash, jti, ttl, redisFails);
      pending := pending - {address};
      r := Ok(token);
    }

    method FindAccount(email: string) returns (found: Option<int>)
      requires Valid()
      ensures found == Account(email)
    {
      if id :| id in users && Named(lower, users, contacts, email, id) {
        found := Some(id);
        OneAccountPerAddress(lower, users, contacts, email, id, Account(email).value);
      } else {
        found := None;
      }
    }

    method Login(email: string, password: string, jti: Jti, ttl: int, redisFails: bool, ghost job: int)
      returns (r: Result<RefreshToken, AuthError>)
      requires Valid() && jti !in families && job !in jobs
      modifies this, store`tokenRows, store`redisTokens
      ensures Valid() && contacts == old(contacts) && passwords == old(passwords) && pending == old(pending)
      ensures var id := old(Account(email));
        && (r.Ok? <==> id.Some? && CanMint(old(State()), id.value) && matches(password, passwords[id.value]))
        && (r.Ok? ==> r.value == RefreshToken(ClaimsOf(old(State()), id.value), jti))
        && State() == if r.Err? then old(State())
                      else Run(old(State()), [ReadUser(job, id.value), SaveTokens(job, jti, ttl)])
    {
      var found := FindAccount(email);
      if found.None? {
        return Err(InvalidCredentials);
      }
      var id := found.value;
      if users[id].status != Active {
        return Err(InvalidCredentials);
      }
      if !matches(password, passwords[id]) {
        return Err(InvalidCredentials);
      }
      var token := MintFor(id, jti, ttl, redisFails, job);
      r := Ok(token);
    }

    // Tokens for the claims just read.
    method MintFor(id: int, jti: Jti, ttl: int, redisFails: bool, ghost job: int) returns (token: RefreshToken)
      requires CanMint(State(), id) && jti !in families && job !in jobs
      modifies `access, `refresh, `families, `nextFamily, store`tokenRows, store`redisTokens
      ensures token == RefreshToken(ClaimsOf(old(State()), id), jti)
      ensures State() == Run(old(State()), [ReadUser(job, id), SaveTokens(job, jti, ttl)])
    {
      FoldTwo(Step, State(), ReadUser(job, id), SaveTokens(job, jti, ttl));
      MintInOnePiece(State(), job, id, jti, ttl);
      token := GenerateTokens(Claims(id, users[id].isAdmin, users[id].version), jti, ttl, nextFamily, redisFails);
      nextFamily := nextFamily + 1;
    }

    method StorePassword(id: int, password: string, jti: Jti, ttl: int, redisFails: bool, ghost job: int)
      returns (token: RefreshToken)
      requires Valid() && CanMint(State(), id) && jti !in families && job !in jobs
      modifies `passwords, `access, `refresh, `families, `nextFamily, store`tokenRows, store`redisTokens
      ensures Valid() && token == RefreshToken(ClaimsOf(old(State()), id), jti)
      ensures passwords == old(passwords)[id := hash(password)] && matches(password, passwords[id])
      ensures State() == Run(old(State()), [ReadUser(job, id), SaveTokens(job, jti, ttl)])
    {
      passwords := passwords[id := hash(password)];
      token := MintFor(id, jti, ttl, redisFails, job);
    }

    /** A reset stores a hash that the new password matches, and mints like a login. */
    method ResetPassword(email: string, otp: string, newPassword: string, confirmPassword: string,
                         jti: Jti, ttl: int, checkRedisFails: bool, redisFails: bool, ghost job: int)
      returns (r: Result<RefreshToken, AuthError>)
      requires Valid() && jti !in families && job !in jobs
      modifies this, store`tokenRows, store`redisTokens, store`attempts, store`redisCounts
      ensures Valid() && contacts == old(contacts) && pending == old(pending)
      ensures var id := old(Account(email));
        var check := Check(sender.hash, old(sender.State()), Key(email, PasswordReset), otp, store.now);
        && sender.State() == (if newPassword == confirmPassword then check.codes else old(sender.State()))
        && (r.Ok? <==> newPassword == confirmPassword && check.result.Ok? && id.Some? && CanMint(old(State()), id.value))
        && (r.Err? ==> r.error == if newPassword != confirmPassword then PasswordsDiffer
                                  else if check.result.Err? then BadCode(check.result.error)
                                  else if id.None? then UserNotFound else InvalidCredentials)
        && (r.Ok? ==> r.value == RefreshToken(ClaimsOf(old(State()), id.value), jti))
        && (if r.Ok? then passwords == old(passwords)[id.value := hash(newPassword)] && matches(newPassword, passwords[id.value])
            else passwords == old(passwords))
        && State() == if r.Err? then old(State())
                      else Run(old(State()), [ReadUser(job, id.value), SaveTokens(job, jti, ttl)])
    {
      if newPassword != confirmPassword {
        return Err(PasswordsDiffer);
      }
      var code := sender.CheckVerification(Key(email, PasswordReset), otp, checkRedisFails);
      if code.Err? {
        return Err(BadCode(code.error));
      }
      var found := FindAccount(email);
      if found.None? {
        return Err(UserNotFound);
      }
      var id := found.value;
      if users[id].status != Active {
        return Err(InvalidCredentials);
      }
      var token := StorePassword(id, newPassword, jti, ttl, redisFails, job);
      r := Ok(token);
    }

    // `verified` is the payload of a correctly signed token, if the signature check passed.
    method Refresh(verified: Option<RefreshToken>, jti: Jti, ttl: int, redisFails: bool, ghost job: int)
      returns (r: Result<RefreshToken, AuthError>)
      requires verified.Some? ==> verified.value in refresh && verified.value.jti in families
      requires jti !in families && job !in jobs
      modifies `access, `refresh, `families, store`tokenRows, store`redisTokens
      ensures r.Ok? <==> verified.Some? && RefreshAccepted(old(State()), verified.value)
      ensures r.Ok? ==> r.value == RefreshToken(ClaimsOf(old(State()), verified.value.claims.sub), jti)
      ensures State() == if verified.None? then old(State())
        else Run(old(State()), [Consume(job, verified.value), RereadUser(job), SaveTokens(job, jti, ttl)])
    {
      if verified.None? {
        return Err(InvalidRefreshToken);
      }
      var payload := verified.value;
      RefreshInOnePiece(State(), job, payload, jti, ttl);
      var storedUserId := store.ConsumeRefreshTokenJti(payload.jti, redisFails);
      if storedUserId.None? || storedUserId.value != payload.claims.sub {
        return Err(InvalidRefreshToken);
      }
      var id := payload.claims.sub;
      if id !in users || users[id].deleted || users[id].status != Active || users[id].version != payload.claims.version {
        return Err(InvalidRefreshToken);
      }
      var token := GenerateTokens(Claims(id, users[id].isAdmin, users[id].version), jti, ttl, families[payload.jti], redisFails);
      r := Ok(token);
    }

    method Logout(verified: Option<RefreshToken>, redisFails: bool)
      requires verified.Some? ==> verified.value in refresh
      modifies store`tokenRows, store`redisTokens
      ensures State() == if verified.None? then old(State()) else Run(old(State()), [Revoke(verified.value)])
    {
      if verified.Some? {
        ghost var before := State();
        FoldOne(Step, before, Revoke(verified.value));
        store.RevokeRefreshTokenJti(verified.value.jti, redisFails);
        assert store.tokenRows == Step(before, Revoke(verified.value)).rows;
      }
    }

    method PromoteAdmin(id: int) returns (r: Result<(), AuthError>)
      requires Valid()
      modifies `users
      ensures Valid()
      ensures r.Ok? <==> Exists(old(State()), id) && !old(users)[id].isAdmin
      ensures r.Err? ==> r.error == if Exists(old(State()), id) then AlreadyAdmin else UserNotFound
      ensures State() == if r.Ok? then Run(old(State()), [Promote(id)]) else old(State())
      ensures r.Ok? ==> users == old(users)[id := old(users)[id].(isAdmin := true, version := old(users)[id].version + 1)]
    {
      FoldOne(Step, State(), Promote(id));
      if id !in users || users[id].deleted {
        return Err(UserNotFound);
      }
      if users[id].isAdmin {
        return Err(AlreadyAdmin);
      }
      ChangeKeepsKeys(lower, users, contacts, id, users[id].(isAdmin := true, version := users[id].version + 1));
      users := users[id := users[id].(isAdmin := true, version := users[id].version + 1)];
      r := Ok(());
    }

    method DemoteAdmin(admin: int, id: int) returns (r: Result<(), AuthError>)
      requires Valid()
      modifies `users
      ensures Valid()
      ensures r.Ok? <==> admin != id && Exists(old(State()), id) && old(users)[id].isAdmin
      ensures r.Err? ==> r.error == if admin == id then CannotDemoteSelf
                                    else if Exists(old(State()), id) then NotAdmin else UserNotFound
      ensures State() == if r.Ok? then Run(old(State()), [Demote(id)]) else old(State())
      ensures r.Ok? ==> users == old(users)[id := old(users)[id].(isAdmin := false, version := old(users)[id].version + 1)]
    {
      FoldOne(Step, State(), Demote(id));
      if admin == id {
        return Err(CannotDemoteSelf);
      }
      if id !in users || users[id].deleted {
        return Err(UserNotFound);
      }
      if !users[id].isAdmin {
        return Err(NotAdmin);
      }
      ChangeKeepsKeys(lower, users, contacts, id, users[id].(isAdmin := false, version := users[id].version + 1));
      users := users[id := users[id].(isAdmin := false, version := users[id].version + 1)];
      r := Ok(());
    }

    // An administrator's deletion of an account, and a user's deletion of their own.
    method Delete(id: int) returns (r: Result<(), AuthError>)
      requires Valid()
      modifies `users
      ensures Valid()
      ensures r == if Exists(old(State()), id) then Ok(()) else Err(UserNotFound)
      ensures State() == Run(old(State()), [DeleteUser(id)])
      ensures r.Ok? ==> users == old(users)[id := old(users)[id].(deleted := true, version := old(users)[id].version + 1)]
    {
      FoldOne(Step, State(), DeleteUser(id));
      if id !in users || users[id].deleted {
        return Err(UserNotFound);
      }
      ChangeKeepsKeys(lower, users, contacts, id, users[id].(deleted := true, version := users[id].version + 1));
      users := users[id := users[id].(deleted := true, version := users[id].version + 1)];
      r := Ok(());
    }

    method UpdateUserStatus(id: int, status: Status) returns (r: Result<(), AuthError>)
      requires Valid()
      modifies `users
      ensures Valid()
      ensures r == if Exists(old(State()), id) then Ok(()) else Err(UserNotFound)
      ensures State() == Run(old(State()), [SetStatus(id, status)])
      ensures r.Ok? ==> users == old(users)[id := old(users)[id].(status := status)]
    {
      FoldOne(Step, State(), SetStatus(id, status));
      if id !in users || users[id].deleted {
        return Err(UserNotFound);
      }
      ChangeKeepsKeys(lower, users, contacts, id, users[id].(status := status));
      users := users[id := users[id].(status := status)];
      r := Ok(());
    }

    // The guard of every authenticated call.
    method ValidateToken(claims: Claims) returns (r: Option<AuthUser>)
      ensures r == Validate(State(), claims)
      ensures Inv(State()) && claims in access && r.Some? ==>
        claims.sub in users && r.value.isAdmin == users[claims.sub].isAdmin
    {
      if claims.sub <= 0 {
        return None;
      }
      if claims.sub !in users || users[claims.sub].deleted || users[claims.sub].version != claims.version {
        return None;
      }
      r := Some(AuthUser(claims.sub, claims.isAdmin, users[claims.sub].version));
    }
  }
}

/**
 One-time codes over whole runs of sending and checking.

 A check says yes to the newest code of its key, as long as it has not expired.  Checks
 leave no mark on codes: neither a lockout nor a successful use changes what later checks
 say, as `AcceptedIff` shows.
 */
module OtpRuns {
  import opened Otp
  import opened Seqs
  import opened Wrappers

  datatype Purpose = Registration | PasswordReset
  datatype Key = Key(email: string, purpose: Purpose)

  datatype OtpRow = OtpRow(key: Key, codeHash: string, salt: string, expiresAt: int, used: bool)

  datatype OtpError = OtpNotFound | OtpAlreadyUsed | OtpExpired | TooManyAttempts | InvalidOtp

  const OTP_MAX_ATTEMPTS := 5
  const OTP_ATTEMPTS_TTL_SECONDS := 600

  type Hash = (string, string) -> string

  // Code rows are listed in creation order; attempts are counted by key.
  datatype Codes = Codes(otps: seq<OtpRow>, attempts: map<Key, Attempt>)

  // The newest code for a key.
  function Newest(otps: seq<OtpRow>, key: Key): Option<OtpRow> {
    if otps == [] then None
    else if otps[|otps| - 1].key == key then Some(otps[|otps| - 1])
    else Newest(otps[..|otps| - 1], key)
  }

  function RowOf(attempts: map<Key, Attempt>, key: Key): Option<Attempt> {
    if key in attempts then Some(attempts[key]) else None
  }

  function WithRow(attempts: map<Key, Attempt>, key: Key, row: Option<Attempt>): map<Key, Attempt> {
    match row
    case None => attempts - {key}
    case Some(attempt) => attempts[key := attempt]
  }

  // ---------- Sending and checking ----------

  datatype Event =
    | Sent(key: Key, code: string, salt: string, ttl: int, at: int)
    | Checked(key: Key, code: string, at: int)

  datatype Verdict = Verdict(codes: Codes, result: Result<(), OtpError>)

  function Check(hash: Hash, s: Codes, key: Key, code: string, now: int): Verdict {
    match Newest(s.otps, key)
    case None => Verdict(s, Err(OtpNotFound))
    case Some(row) =>
      if row.used then Verdict(s, Err(OtpAlreadyUsed))
      else if row.expiresAt < now then Verdict(s, Err(OtpExpired))
      else if hash(code, row.salt) != row.codeHash then
        var failure := CountFailure(RowOf(s.attempts, key), OTP_MAX_ATTEMPTS, now, OTP_ATTEMPTS_TTL_SECONDS);
        Verdict(s.(attempts := WithRow(s.attempts, key, failure.row)), Err(if failure.locked then TooManyAttempts else InvalidOtp))
      else Verdict(s.(attempts := s.attempts - {key}), Ok(()))
  }

  function Send(hash: Hash, s: Codes, key: Key, code: string, salt: string, ttl: int, now: int): Codes {
    s.(otps := s.otps + [OtpRow(key, hash(code, salt), salt, now + ttl, false)])
  }

  function Next(hash: Hash): (Codes, Event) -> Codes {
    (s: Codes, e: Event) =>
      match e
      case Sent(key, code, salt, ttl, at) => Send(hash, s, key, code, salt, ttl, at)
      case Checked(key, code, at) => Check(hash, s, key, code, at).codes
  }

  const NO_CODES := Codes([], map[])

  function After(hash: Hash, events: seq<Event>): Codes {
    Fold(Next(hash), NO_CODES, events)
  }

  // ---------- What decides ----------

  function NewestSent(events: seq<Event>, key: Key): Option<Event> {
    if events == [] then None
    else
      var n := |events| - 1;
      if events[n].Sent? && events[n].key == key then Some(events[n]) else NewestSent(events[..n], key)
  }

  predicate Accepts(hash: Hash, events: seq<Event>, key: Key, code: string, now: int) {
    Check(hash, After(hash, events), key, code, now).result.Ok?
  }

  ghost predicate CollisionFree(hash: Hash) {
    forall a, b, salt :: hash(a, salt) == hash(b, salt) ==> a == b
  }

  function RowSent(hash: Hash, e: Event): OtpRow
    requires e.Sent?
  {
    OtpRow(e.key, hash(e.code, e.salt), e.salt, e.at + e.ttl, false)
  }

  // Checks add no row and change none.
  lemma ChecksKeepCodes(hash: Hash, s: Codes, e: Event)
    requires e.Checked?
    ensures Next(hash)(s, e).otps == s.otps
  {
  }

  lemma NewestAppended(otps: seq<OtpRow>, row: OtpRow, key: Key)
    ensures Newest(otps + [row], key) == if row.key == key then Some(row) else Newest(otps, key)
  {
    assert (otps + [row])[..|otps|] == otps;
  }

  lemma {:induction false} NewestIsNewestSent(hash: Hash, events: seq<Event>, key: Key)
    ensures NewestSent(events, key).Some? ==> NewestSent(events, key).value.Sent?
    ensures Newest(After(hash, events).otps, key) ==
      if NewestSent(events, key).Some? then Some(RowSent(hash, NewestSent(events, key).value)) else None
  {
    if events != [] {
      var n := |events| - 1;
      NewestIsNewestSent(hash, events[..n], key);
      var before := After(hash, events[..n]);
      if events[n].Sent? {
        NewestAppended(before.otps, RowSent(hash, events[n]), key);
      } else {
        ChecksKeepCodes(hash, before, events[n]);
      }
    }
  }

  /**
   In every run a code is accepted exactly when it is the one last sent for its key and
   has not expired, whatever was checked before and however often.
   */
  lemma {:induction false} AcceptedIff(hash: Hash, events: seq<Event>, key: Key, code: string, now: int)
    requires CollisionFree(hash)
    ensures Accepts(hash, events, key, code, now) <==>
      match NewestSent(events, key)
      case Some(Sent(_, sent, _, ttl, at)) => code == sent && now <= at + ttl
      case _ => false
  {
    NewestIsNewestSent(hash, events, key);
  }

  lemma {:induction false} ChecksSendNothing(events: seq<Event>, checks: seq<Event>, key: Key)
    requires forall i :: 0 <= i < |checks| ==> checks[i].Checked?
    ensures NewestSent(events + checks, key) == NewestSent(events, key)
  {
    if checks == [] {
      assert events + checks == events;
    } else {
      var n := |checks| - 1;
      ChecksSendNothing(events, checks[..n], key);
      assert (events + checks)[..|events + checks| - 1] == events + checks[..n];
    }
  }

  /** So no check, right or wrong, locked out or not, changes what a later check says of a code. */
  lemma ChecksInvalidateNothing(hash: Hash, events: seq<Event>, checks: seq<Event>, key: Key, code: string, now: int)
    requires CollisionFree(hash) && forall i :: 0 <= i < |checks| ==> checks[i].Checked?
    ensures Accepts(hash, events + checks, key, code, now) <==> Accepts(hash, events, key, code, now)
  {
    ChecksSendNothing(events, checks, key);
    AcceptedIff(hash, events + checks, key, code, now);
    AcceptedIff(hash, events, key, code, now);
  }

  /**
   What a check answers and leaves, told from the newest code of the key: codes never
   change; only a code that is there, unused and unexpired touches the count, which an
   accepted code clears and a wrong one raises or, with the fifth, clears as well.
   */
  lemma CheckDoes(hash: Hash, s: Codes, key: Key, code: string, now: int)
    ensures var out := Check(hash, s, key, code, now);
      var counted := key in s.attempts && s.attempts[key].expiresAt > now;
      && out.codes.otps == s.otps
      && (forall k :: k != key ==> (k in out.codes.attempts <==> k in s.attempts))
      && (forall k :: k != key && k in s.attempts ==> out.codes.attempts[k] == s.attempts[k])
      && match Newest(s.otps, key)
         case None => out == Verdict(s, Err(OtpNotFound))
         case Some(row) =>
           if row.used then out == Verdict(s, Err(OtpAlreadyUsed))
           else if now > row.expiresAt then out == Verdict(s, Err(OtpExpired))
           else if row.codeHash == hash(code, row.salt) then out.result == Ok(()) && key !in out.codes.attempts
           else if (if counted then s.attempts[key].attempts else 0) < 4 then
             && out.result == Err(InvalidOtp) && key in out.codes.attempts
             && out.codes.attempts[key] == (if counted then Attempt(s.attempts[key].attempts + 1, s.attempts[key].expiresAt)
                                            else Attempt(1, now + 600))
           else out.result == Err(TooManyAttempts) && key !in out.codes.attempts
  {
  }

  // ---------- A lockout that does not lock out ----------

  function WrongChecks(key: Key, wrong: string, at: int, n: nat): (checks: seq<Event>)
    ensures |checks| == n && forall i :: 0 <= i < n ==> checks[i] == Checked(key, wrong, at)
  {
    seq(n, i requires 0 <= i < n => Checked(key, wrong, at))
  }

  // A code was sent, and n wrong ones were checked at that moment.
  function AfterWrong(hash: Hash, sent: Event, n: nat): Codes
    requires sent.Sent?
  {
    Codes([RowSent(hash, sent)],
          if n == 0 then map[] else map[sent.key := Attempt(n, sent.at + OTP_ATTEMPTS_TTL_SECONDS)])
  }

  lemma OneMoreWrong(hash: Hash, sent: Event, wrong: string, n: nat)
    requires CollisionFree(hash) && sent.Sent? && sent.ttl >= 0 && wrong != sent.code && n + 1 <= OTP_MAX_ATTEMPTS
    ensures Check(hash, AfterWrong(hash, sent, n), sent.key, wrong, sent.at) ==
      if n + 1 < OTP_MAX_ATTEMPTS then Verdict(AfterWrong(hash, sent, n + 1), Err(InvalidOtp))
      else Verdict(AfterWrong(hash, sent, 0), Err(TooManyAttempts))
  {
    assert hash(wrong, sent.salt) != hash(sent.code, sent.salt);
    assert Newest([RowSent(hash, sent)], sent.key) == Some(RowSent(hash, sent));
    var attempts := AfterWrong(hash, sent, n).attempts;
    assert attempts - {sent.key} == map[];
    assert attempts[sent.key := Attempt(n + 1, sent.at + OTP_ATTEMPTS_TTL_SECONDS)]
        == map[sent.key := Attempt(n + 1, sent.at + OTP_ATTEMPTS_TTL_SECONDS)];
  }

  lemma OneMoreWrongCheck(sent: Event, key: Key, wrong: string, at: int, n: nat)
    ensures [sent] + WrongChecks(key, wrong, at, n + 1) == [sent] + WrongChecks(key, wrong, at, n) + [Checked(key, wrong, at)]
  {
  }

  lemma {:induction false} WrongChecksCount(hash: Hash, sent: Event, wrong: string, n: nat)
    requires CollisionFree(hash) && sent.Sent? && sent.ttl >= 0 && wrong != sent.code && n < OTP_MAX_ATTEMPTS
    ensures After(hash, [sent] + WrongChecks(sent.key, wrong, sent.at, n)) == AfterWrong(hash, sent, n)
  {
    if n == 0 {
      assert [sent] + WrongChecks(sent.key, wrong, sent.at, 0) == [sent];
      FoldOne(Next(hash), NO_CODES, sent);
    } else {
      var before := [sent] + WrongChecks(sent.key, wrong, sent.at, n - 1);
      var check := Checked(sent.key, wrong, sent.at);
      WrongChecksCount(hash, sent, wrong, n - 1);
      OneMoreWrongCheck(sent, sent.key, wrong, sent.at, n - 1);
      FoldOneMore(Next(hash), NO_CODES, before, check);
      assert After(hash, before + [check]) == Next(hash)(After(hash, before), check);
      OneMoreWrong(hash, sent, wrong, n - 1);
    }
  }

  /** Four wrong codes, a fifth that is told the code is invalidated, and then the right one, which is accepted. */
  lemma RightAfterLockout(hash: Hash, sent: Event, wrong: string)
    requires CollisionFree(hash) && sent.Sent? && sent.ttl >= 0 && wrong != sent.code
    ensures var four := [sent] + WrongChecks(sent.key, wrong, sent.at, 4);
      && Check(hash, After(hash, four), sent.key, wrong, sent.at).result == Err(TooManyAttempts)
      && Accepts(hash, four + [Checked(sent.key, wrong, sent.at)], sent.key, sent.code, sent.at)
  {
    var four := [sent] + WrongChecks(sent.key, wrong, sent.at, 4);
    WrongChecksCount(hash, sent, wrong, 4);
    OneMoreWrong(hash, sent, wrong, 4);
    var checks := WrongChecks(sent.key, wrong, sent.at, 4) + [Checked(sent.key, wrong, sent.at)];
    assert four + [Checked(sent.key, wrong, sent.at)] == [sent] + checks;
    ChecksInvalidateNothing(hash, [sent], checks, sent.key, sent.code, sent.at);
    AcceptedIff(hash, [sent], sent.key, sent.code, sent.at);
  }
}

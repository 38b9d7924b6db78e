/**
 The auth state store and the console one-time-code provider.

 PostgreSQL decides everything; Redis only mirrors.  Every method takes an arbitrary
 Redis content and an arbitrary outcome of the Redis call, and its contract fixes the
 result and the tables without mentioning either.
 */
module AuthStore {
  import opened Wrappers
  import opened Otp
  import opened OtpRuns
  import opened Tokens

  // A mirrored value: a number, or text that does not parse as one.
  datatype RedisValue = Number(n: int) | Text

  class AuthStateStore {
    var attempts: map<Key, Attempt>
    var tokenRows: map<Jti, TokenRow>
    var now: int
    var redisCounts: map<Key, RedisValue>
    var redisTokens: map<Jti, RedisValue>
    const redisEnabled: bool

    constructor (redisEnabled: bool)
      ensures attempts == map[] && tokenRows == map[] && now == 0
    {
      this.redisEnabled := redisEnabled;
      attempts, tokenRows, now := map[], map[], 0;
      redisCounts, redisTokens := map[], map[];
    }

    method IncrementOtpAttempts(key: Key, maxAttempts: int, ttl: int, redisFails: bool)
      returns (count: int, locked: bool)
      modifies `attempts, `redisCounts
      ensures var failure := CountFailure(RowOf(old(attempts), key), maxAttempts, now, ttl);
        count == failure.attempts && locked == failure.locked && attempts == WithRow(old(attempts), key, failure.row)
    {
      if redisEnabled && !redisFails {
        var mirrored :=
          if key !in redisCounts then Number(1)
          else match redisCounts[key] case Number(n) => Number(n + 1) case Text => Text;
        redisCounts := redisCounts[key := mirrored];
      }
      if key !in attempts || attempts[key].expiresAt <= now {
        attempts := attempts[key := Attempt(1, now + ttl)];
      } else {
        attempts := attempts[key := Attempt(attempts[key].attempts + 1, attempts[key].expiresAt)];
      }
      count := attempts[key].attempts;
      locked := false;
      if count >= maxAttempts {
        ClearOtpAttempts(key, redisFails);
        locked := true;
      }
    }

    method ClearOtpAttempts(key: Key, redisFails: bool)
      modifies `attempts, `redisCounts
      ensures attempts == old(attempts) - {key}
    {
      if redisEnabled && !redisFails {
        redisCounts := redisCounts - {key};
      }
      attempts := attempts - {key};
    }

    method SaveRefreshTokenJti(jti: Jti, userId: int, ttl: int, redisFails: bool)
      modifies `tokenRows, `redisTokens
      ensures tokenRows == old(tokenRows)[jti := TokenRow(userId, false, now + ttl)]
    {
      if redisEnabled && !redisFails {
        redisTokens := redisTokens[jti := Number(userId)];
      }
      if jti !in tokenRows {
        tokenRows := tokenRows[jti := TokenRow(userId, false, now + ttl)];
      } else {
        tokenRows := tokenRows[jti := tokenRows[jti].(userId := userId, expiresAt := now + ttl, revoked := false)];
      }
    }

    // The delete returns the row's user, once.
    method ConsumeRefreshTokenJti(jti: Jti, redisFails: bool) returns (userId: Option<int>)
      modifies `tokenRows, `redisTokens
      ensures var usable := jti in old(tokenRows) && !old(tokenRows)[jti].revoked && old(tokenRows)[jti].expiresAt > now;
        if usable then userId == Some(old(tokenRows)[jti].userId) && tokenRows == old(tokenRows) - {jti}
        else userId == None && tokenRows == old(tokenRows)
    {
      if redisEnabled && !redisFails {
        redisTokens := redisTokens - {jti};
      }
      if jti in tokenRows && !tokenRows[jti].revoked && tokenRows[jti].expiresAt > now {
        userId := Some(tokenRows[jti].userId);
        tokenRows := tokenRows - {jti};
      } else {
        userId := None;
      }
    }

    method RevokeRefreshTokenJti(jti: Jti, redisFails: bool)
      modifies `tokenRows, `redisTokens
      ensures tokenRows.Keys == old(tokenRows).Keys
      ensures forall i :: i in tokenRows ==>
        tokenRows[i] == if i == jti then old(tokenRows)[i].(revoked := true) else old(tokenRows)[i]
    {
      if redisEnabled && !redisFails {
        redisTokens := redisTokens - {jti};
      }
      if jti in tokenRows {
        tokenRows := tokenRows[jti := tokenRows[jti].(revoked := true)];
      }
    }
  }

  // ---------- One-time codes ----------

  class ConsoleOtpSender {
    const store: AuthStateStore
    const hash: Hash
    var otps: seq<OtpRow>

    ghost function State(): Codes
      reads this, store
    {
      Codes(otps, store.attempts)
    }

    constructor (store: AuthStateStore, hash: Hash)
      ensures this.store == store && this.hash == hash && otps == []
    {
      this.store, this.hash, otps := store, hash, [];
    }

    method StartVerification(key: Key, code: string, salt: string, ttl: int)
      modifies this
      ensures State() == Send(hash, old(State()), key, code, salt, ttl, store.now)
      ensures ttl >= 0 ==> Check(hash, State(), key, code, store.now).result == Ok(())
    {
      otps := otps + [OtpRow(key, hash(code, salt), salt, store.now + ttl, false)];
    }

    method CheckVerification(key: Key, code: string, redisFails: bool) returns (r: Result<(), OtpError>)
      modifies store`attempts, store`redisCounts
      ensures Verdict(State(), r) == Check(hash, old(State()), key, code, store.now)
    {
      var newest := Newest(otps, key);
      if newest.None? {
        return Err(OtpNotFound);
      }
      var row := newest.value;
      if row.used {
        return Err(OtpAlreadyUsed);
      }
      if row.expiresAt < store.now {
        return Err(OtpExpired);
      }
      if hash(code, row.salt) != row.codeHash {
        var count, locked := store.IncrementOtpAttempts(key, OTP_MAX_ATTEMPTS, OTP_ATTEMPTS_TTL_SECONDS, redisFails);
        if locked {
          return Err(TooManyAttempts);
        }
        return Err(InvalidOtp);
      }
      store.ClearOtpAttempts(key, redisFails);
      r := Ok(());
    }
  }
}

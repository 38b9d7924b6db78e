/**
 What the columns of an account hold after a run of statements, and how long a token is
 accepted: both told from the statements of the run alone.
 */
module TokenRuns {
  import opened Seqs
  import opened Wrappers
  import opened Tokens

  // ---------- The columns of an account ----------

  predicate WritesTo(a: Action, u: int) {
    a == Promote(u) || a == Demote(u) || a == DeleteUser(u) || (a.SetStatus? && a.u == u)
  }

  // The writes of a run to an account's row, those that found it live.
  function Writes(s: State, actions: seq<Action>, u: int): seq<Action> {
    if actions == [] then []
    else
      var n := |actions| - 1;
      Writes(s, actions[..n], u) + if WritesTo(actions[n], u) && Exists(Run(s, actions[..n]), u) then [actions[n]] else []
  }

  function LastFlag(writes: seq<Action>, before: bool): bool {
    if writes == [] then before
    else
      match writes[|writes| - 1]
      case Promote(_) => true
      case Demote(_) => false
      case _ => LastFlag(writes[..|writes| - 1], before)
  }

  function LastStatus(writes: seq<Action>, before: Status): Status {
    if writes == [] then before
    else
      match writes[|writes| - 1]
      case SetStatus(_, status) => status
      case _ => LastStatus(writes[..|writes| - 1], before)
  }

  // Status changes leave the version alone.
  function Outdatings(writes: seq<Action>): nat {
    if writes == [] then 0
    else Outdatings(writes[..|writes| - 1]) + if writes[|writes| - 1].SetStatus? then 0 else 1
  }

  predicate Deletes(writes: seq<Action>) {
    exists i :: 0 <= i < |writes| && writes[i].DeleteUser?
  }

  lemma OneMoreWrite(writes: seq<Action>, a: Action, flag: bool, status: Status)
    ensures LastFlag(writes + [a], flag) == if a.Promote? then true else if a.Demote? then false else LastFlag(writes, flag)
    ensures LastStatus(writes + [a], status) == if a.SetStatus? then a.status else LastStatus(writes, status)
    ensures Outdatings(writes + [a]) == Outdatings(writes) + if a.SetStatus? then 0 else 1
    ensures Deletes(writes + [a]) <==> Deletes(writes) || a.DeleteUser?
  {
    var all := writes + [a];
    assert all[..|all| - 1] == writes && all[|all| - 1] == a;
    assert forall i :: 0 <= i < |writes| ==> all[i] == writes[i];
  }

  // The row of an account that was there before the run.
  predicate RowIs(row: User, was: User, writes: seq<Action>) {
    && row.isAdmin == LastFlag(writes, was.isAdmin)
    && row.status == LastStatus(writes, was.status)
    && row.version == was.version + Outdatings(writes)
    && (row.deleted <==> was.deleted || Deletes(writes))
  }

  lemma StepWrites(s: State, a: Action, u: int, was: User, writes: seq<Action>)
    requires u in s.users && RowIs(s.users[u], was, writes)
    ensures u in Step(s, a).users
    ensures RowIs(Step(s, a).users[u], was, writes + if WritesTo(a, u) && Exists(s, u) then [a] else [])
  {
    if WritesTo(a, u) && Exists(s, u) {
      OneMoreWrite(writes, a, was.isAdmin, was.status);
    } else {
      assert writes + [] == writes;
      assert Step(s, a).users[u] == s.users[u];
    }
  }

  /**
   The columns after a run are told by the writes that found the account live: the flag is
   that of the last promotion or demotion, the status the last one set, the version has
   grown by one for each promotion, demotion and deletion, and a deletion is for good.
   */
  lemma {:induction false} ColumnsAreWritten(s: State, actions: seq<Action>, u: int)
    requires u in s.users
    ensures u in Run(s, actions).users && RowIs(Run(s, actions).users[u], s.users[u], Writes(s, actions, u))
  {
    if actions != [] {
      var n := |actions| - 1;
      ColumnsAreWritten(s, actions[..n], u);
      StepWrites(Run(s, actions[..n]), actions[n], u, s.users[u], Writes(s, actions[..n], u));
    }
  }

  /** A registration makes an active account without rights, at version 0, and signs its first tokens. */
  lemma Registered(s: State, u: int, jti: Jti, ttl: int)
    requires u !in s.users && jti !in s.families
    ensures var t := Step(s, Register(u, jti, ttl));
      && t.users == s.users[u := User(Active, false, 0, false)]
      && Claims(u, false, 0) in t.access && RefreshToken(Claims(u, false, 0), jti) in t.refresh
      && t.rows == s.rows[jti := TokenRow(u, false, s.now + ttl)]
  {
  }

  /** A login right after a promotion is issued claims that say so, and they are accepted. */
  lemma PromotedLogin(s: State, u: int, job: int, jti: Jti, ttl: int)
    requires u > 0 && CanMint(s, u) && job !in s.jobs && jti !in s.families
    ensures var t := Run(s, [Promote(u), ReadUser(job, u), SaveTokens(job, jti, ttl)]);
      var claims := Claims(u, true, s.users[u].version + 1);
      && claims in t.access && RefreshToken(claims, jti) in t.refresh
      && Validate(t, claims) == Some(AuthUser(u, true, s.users[u].version + 1))
  {
    FoldThree(Step, s, Promote(u), ReadUser(job, u), SaveTokens(job, jti, ttl));
    var s1 := Step(s, Promote(u));
    var s2 := Step(s1, ReadUser(job, u));
    assert s2.jobs[job] == Minting(Claims(u, true, s.users[u].version + 1), s.nextFamily);
  }

  // ---------- How long a token is accepted ----------

  lemma {:induction false} DeletionsOutdate(writes: seq<Action>)
    ensures Deletes(writes) ==> Outdatings(writes) > 0
  {
    if writes != [] {
      DeletionsOutdate(writes[..|writes| - 1]);
    }
  }

  /**
   Claims read from an account are accepted until the account is promoted, demoted or
   deleted, and from then on never again.
   */
  lemma AcceptedUntilOutdated(s: State, actions: seq<Action>, u: int)
    requires u > 0 && Exists(s, u)
    ensures var t := Run(s, actions);
      var writes := Writes(s, actions, u);
      Validate(t, ClaimsOf(s, u)) ==
        if Outdatings(writes) == 0 then Some(AuthUser(u, s.users[u].isAdmin, s.users[u].version)) else None
  {
    ColumnsAreWritten(s, actions, u);
    DeletionsOutdate(Writes(s, actions, u));
  }

  function Elapsed(actions: seq<Action>): nat {
    if actions == [] then 0
    else
      var n := |actions| - 1;
      Elapsed(actions[..n]) + if actions[n].Tick? then actions[n].seconds else 0
  }

  lemma {:induction false} ClockElapses(s: State, actions: seq<Action>)
    ensures Run(s, actions).now == s.now + Elapsed(actions)
  {
    if actions != [] {
      ClockElapses(s, actions[..|actions| - 1]);
    }
  }

  // The statement uses up or revokes the token of this id.
  predicate Spends(s: State, a: Action, jti: Jti) {
    || (a.Consume? && a.token.jti == jti && a.token in s.refresh && a.job !in s.jobs)
    || (a.Revoke? && a.token.jti == jti && a.token in s.refresh)
  }

  predicate NeverSpent(s: State, actions: seq<Action>, jti: Jti) {
    forall i :: 0 <= i < |actions| ==> !Spends(Run(s, actions[..i]), actions[i], jti)
  }

  // The row of a token as long as it is not spent.
  predicate RowStays(s: State, jti: Jti, row: TokenRow) {
    jti in s.families && jti in s.rows && s.rows[jti] == row
  }

  lemma StepSpends(s: State, a: Action, jti: Jti, row: TokenRow)
    requires RowStays(s, jti, row) && !row.revoked
    ensures !Spends(s, a, jti) ==> RowStays(Step(s, a), jti, row)
    ensures Spends(s, a, jti) ==> Spent(Step(s, a), jti) || (row.expiresAt <= s.now && RowStays(Step(s, a), jti, row))
  {
  }

  lemma NeverSpentPrefix(s: State, actions: seq<Action>, jti: Jti)
    requires actions != []
    ensures var n := |actions| - 1;
      NeverSpent(s, actions, jti) <==> NeverSpent(s, actions[..n], jti) && !Spends(Run(s, actions[..n]), actions[n], jti)
  {
    var n := |actions| - 1;
    var init := actions[..n];
    if NeverSpent(s, actions, jti) {
      forall i | 0 <= i < n ensures !Spends(Run(s, init[..i]), init[i], jti) {
        assert init[..i] == actions[..i];
      }
    } else {
      var i :| 0 <= i <= n && Spends(Run(s, actions[..i]), actions[i], jti);
      if i < n {
        assert init[..i] == actions[..i];
      }
    }
  }

  lemma {:induction false} RowUntilSpent(s: State, actions: seq<Action>, jti: Jti)
    requires jti in s.families && jti in s.rows && !s.rows[jti].revoked
    ensures var t := Run(s, actions);
      if NeverSpent(s, actions, jti) then RowStays(t, jti, s.rows[jti])
      else Spent(t, jti) || (s.rows[jti].expiresAt <= t.now && RowStays(t, jti, s.rows[jti]))
  {
    if actions != [] {
      var n := |actions| - 1;
      var before, t := Run(s, actions[..n]), Run(s, actions);
      RowUntilSpent(s, actions[..n], jti);
      NeverSpentPrefix(s, actions, jti);
      ClockElapses(s, actions[..n]);
      ClockElapses(s, actions);
      assert before.now <= t.now;
      if RowStays(before, jti, s.rows[jti]) {
        StepSpends(before, actions[n], jti, s.rows[jti]);
      } else {
        StepKeepsSpent(before, actions[n], jti);
      }
    }
  }

  /** A refresh token is usable for its time to live, until it is used or revoked, and never again. */
  lemma UsableUntilSpent(s: State, actions: seq<Action>, jti: Jti)
    requires jti in s.families && jti in s.rows && !s.rows[jti].revoked
    ensures Usable(Run(s, actions), jti) <==> NeverSpent(s, actions, jti) && s.now + Elapsed(actions) < s.rows[jti].expiresAt
  {
    RowUntilSpent(s, actions, jti);
    ClockElapses(s, actions);
  }

  lemma StepGrowsRefresh(s: State, a: Action)
    ensures s.refresh <= Step(s, a).refresh
  {
  }

  lemma {:induction false} RefreshGrows(s: State, actions: seq<Action>)
    ensures s.refresh <= Run(s, actions).refresh
  {
    if actions != [] {
      var n := |actions| - 1;
      RefreshGrows(s, actions[..n]);
      StepGrowsRefresh(Run(s, actions[..n]), actions[n]);
    }
  }

  /**
   From the moment it is issued, a refresh token is accepted exactly while its time runs, it
   is not spent, its account is not promoted, demoted or deleted, and the account is active.
   */
  lemma RefreshAcceptedIff(s: State, actions: seq<Action>, u: int, jti: Jti)
    requires Exists(s, u) && jti in s.families && jti in s.rows && !s.rows[jti].revoked
    requires s.rows[jti].userId == u && RefreshToken(ClaimsOf(s, u), jti) in s.refresh
    ensures var writes := Writes(s, actions, u);
      RefreshAccepted(Run(s, actions), RefreshToken(ClaimsOf(s, u), jti)) <==>
        && NeverSpent(s, actions, jti) && s.now + Elapsed(actions) < s.rows[jti].expiresAt
        && Outdatings(writes) == 0 && LastStatus(writes, s.users[u].status) == Active
  {
    UsableUntilSpent(s, actions, jti);
    RowUntilSpent(s, actions, jti);
    RefreshGrows(s, actions);
    ColumnsAreWritten(s, actions, u);
    DeletionsOutdate(Writes(s, actions, u));
  }
}

/** The service object of engramia/admin_auth/service.py over its three tables.
    Password and TOTP verification, clock readings and the random session ids
    and tokens are parameters. */
module AdminAuth {
  import opened Options
  import opened AdminSessions
  import Lockout = LoginLockout
  import Jaccard

  datatype AdminUser = AdminUser(email: string, enrolled: bool, hasSecret: bool, status: string,
                                 lastLoginAt: Option<Time>)

  datatype LoginOutcome = TotpRequired(uid: UserId) | InvalidCredentials | Locked | TotpNotEnrolled

  datatype TotpOutcome =
    | TotpOk(session: SessionId, anchor: nat)
    | InvalidToken
    | InvalidCode
    | TotpLocked

  function Normalize(email: string): string {
    Jaccard.Lower(Jaccard.StripRight(Jaccard.StripLeft(email)))
  }

  /** s without space at its ends: from i to j. */
  ghost predicate Trimmed(s: string, i: nat, j: nat) {
    && i <= j <= |s|
    && (forall k :: 0 <= k < i || j <= k < |s| ==> Jaccard.IsSpace(s[k]))
    && (i < j ==> !Jaccard.IsSpace(s[i]) && !Jaccard.IsSpace(s[j - 1]))
  }

  /** An email is normalised to its lower-cased text without space at the ends. */
  lemma NormalizeMeans(email: string) returns (i: nat, j: nat)
    ensures Trimmed(email, i, j) && Normalize(email) == Jaccard.Lower(email[i..j])
  {
    i := Jaccard.StripLeftSpec(email);
    var rest := email[i..];
    var n := Jaccard.StripRightSpec(rest);
    j := i + n;
    assert rest[..n] == email[i..j];
    forall k | j <= k < |email|
      ensures Jaccard.IsSpace(email[k])
    {
      assert rest[k - i] == email[k];
    }
  }

  lemma LowerTwice(s: string)
    ensures Jaccard.Lower(Jaccard.Lower(s)) == Jaccard.Lower(s)
  {}

  class AdminAuthService {
    var users: map<UserId, AdminUser>
    var sessions: Table
    var attempts: seq<Lockout.Attempt>

    ghost predicate Valid()
      reads this
    {
      && UniqueHashes(sessions)
      && forall a, b :: a in users && b in users && users[a].email == users[b].email ==> a == b
    }

    constructor ()
      ensures Valid() && users == map[] && sessions == map[] && attempts == []
    {
      users, sessions, attempts := map[], map[], [];
    }

    /** A logged failure counts once against its email, whatever its case, in every
        window that reaches back to it; nothing else moves any email's count. */
    method LogAttempt(email: string, success: bool, locked: bool, at: Time)
      modifies `attempts
      ensures attempts == old(attempts) + [Lockout.Attempt(Jaccard.Lower(email), at, success, locked)]
      ensures forall who, cutoff ::
                Lockout.RecentFailures(attempts, who, cutoff) == Lockout.RecentFailures(old(attempts), who, cutoff)
                  + (if who == Jaccard.Lower(email) && !success && cutoff <= at then 1 else 0)
    {
      assert (attempts + [Lockout.Attempt(Jaccard.Lower(email), at, success, locked)])[..|attempts|] == attempts;
      attempts := attempts + [Lockout.Attempt(Jaccard.Lower(email), at, success, locked)];
    }

    method IsLockedOut(email: string, now: Time) returns (locked: bool)
      ensures locked == Lockout.LockedOut(attempts, Jaccard.Lower(email), now)
      ensures locked <==> |set i: nat | i < |attempts| && attempts[i].email == Jaccard.Lower(email)
                                        && !attempts[i].success && attempts[i].at >= now - 15 * 60 * 1_000_000| >= 5
    {
      Lockout.LockedIff(attempts, Jaccard.Lower(email), now);
      var failures := Lockout.RecentFailures(attempts, Jaccard.Lower(email), now - Lockout.LOCKOUT_WINDOW);
      locked := failures >= Lockout.LOCKOUT_THRESHOLD;
    }

    /** The password step: exactly one attempt is logged, as a success only when
        the client is asked for a TOTP code, which takes an unlocked email, an
        active and enrolled account and the right password. */
    method AttemptLogin(email: string, passwordOk: bool, gateAt: Time, logAt: Time) returns (outcome: LoginOutcome)
      requires Valid()
      modifies this
      ensures Valid() && users == old(users) && sessions == old(sessions)
      ensures var who := Normalize(email);
              var gateClosed := Lockout.LockedOut(old(attempts), who, gateAt);
              && attempts == old(attempts) + [Lockout.Attempt(who, logAt, outcome.TotpRequired?, gateClosed)]
              && (forall u :: outcome == TotpRequired(u) <==>
                    && !gateClosed && u in users && users[u].email == who
                    && users[u].status == "active" && users[u].enrolled && passwordOk)
              && (outcome.Locked? <==>
                    gateClosed || exists u :: u in users && users[u].email == who && users[u].status != "active")
              && (outcome.TotpNotEnrolled? <==>
                    !gateClosed && passwordOk
                    && exists u :: u in users && users[u].email == who && users[u].status == "active"
                                   && !users[u].enrolled)
    {
      var normalized := Normalize(email);
      LowerTwice(Jaccard.StripRight(Jaccard.StripLeft(email)));
      var gateClosed := IsLockedOut(normalized, gateAt);
      if gateClosed {
        LogAttempt(normalized, false, true, logAt);
        return Locked;
      }
      if !exists u :: u in users && users[u].email == normalized {
        LogAttempt(normalized, false, false, logAt);
        return InvalidCredentials;
      }
      var u :| u in users && users[u].email == normalized;
      var row := users[u];
      if row.status != "active" {
        LogAttempt(normalized, false, false, logAt);
        return Locked;
      }
      if !passwordOk {
        LogAttempt(normalized, false, false, logAt);
        return InvalidCredentials;
      }
      if !row.enrolled {
        LogAttempt(normalized, false, false, logAt);
        return TotpNotEnrolled;
      }
      LogAttempt(normalized, true, false, logAt);
      return TotpRequired(u);
    }

    /** The TOTP step: a session is minted exactly when the code is right, the
        account active and enrolled and the email not locked out. Unknown and
        inactive accounts leave no trace in the attempt log. */
    method AttemptTotp(uid: UserId, codeOk: bool, gateAt: Time, mintAt: Time, logAt: Time,
                       newSid: SessionId, newHash: TokenHash)
      returns (outcome: TotpOutcome)
      requires Valid() && newSid !in sessions && Holder(sessions, newHash).None?
      modifies this
      ensures Valid()
      ensures outcome.TotpOk? ==> uid in old(users) && outcome == TotpOk(newSid, UnixSeconds(mintAt))
      ensures sessions == if outcome.TotpOk? then Mint(old(sessions), newSid, uid, newHash, mintAt) else old(sessions)
      ensures outcome.TotpOk? ==>
                && sessions[newSid] == Session(uid, newHash, mintAt, mintAt + 24 * 60 * 60 * 1_000_000, mintAt, None)
                && outcome.anchor * 1_000_000 <= mintAt < (outcome.anchor + 1) * 1_000_000
      ensures users == if outcome.TotpOk? then old(users)[uid := old(users)[uid].(lastLoginAt := Some(mintAt))]
                       else old(users)
      ensures uid !in old(users) ==> outcome.InvalidToken? && attempts == old(attempts)
      ensures uid in old(users) && old(users)[uid].status != "active" ==>
                outcome.TotpLocked? && attempts == old(attempts)
      ensures uid in old(users) && old(users)[uid].status == "active" ==>
                var row := old(users)[uid];
                var who := Jaccard.Lower(row.email);
                var gateClosed := Lockout.LockedOut(old(attempts), who, gateAt);
                && attempts == old(attempts) + [Lockout.Attempt(who, logAt, outcome.TotpOk?, gateClosed)]
                && (outcome.TotpLocked? <==> gateClosed)
                && (outcome.InvalidToken? <==> !gateClosed && !(row.enrolled && row.hasSecret))
                && (outcome.TotpOk? <==> !gateClosed && row.enrolled && row.hasSecret && codeOk)
    {
      if uid !in users {
        return InvalidToken;
      }
      var row := users[uid];
      if row.status != "active" {
        return TotpLocked;
      }
      var gateClosed := IsLockedOut(row.email, gateAt);
      if gateClosed {
        LogAttempt(row.email, false, true, logAt);
        return TotpLocked;
      }
      if !row.enrolled || !row.hasSecret {
        LogAttempt(row.email, false, false, logAt);
        return InvalidToken;
      }
      if !codeOk {
        LogAttempt(row.email, false, false, logAt);
        return InvalidCode;
      }
      sessions := sessions[newSid := Session(uid, newHash, mintAt, mintAt + REFRESH_TTL, mintAt, None)];
      users := users[uid := row.(lastLoginAt := Some(mintAt))];
      LogAttempt(row.email, true, false, logAt);
      return TotpOk(newSid, UnixSeconds(mintAt));
    }

    /** Re-authentication: the session table changes as if only the named
        session's anchor had been moved. */
    method ReauthTotp(uid: UserId, sid: SessionId, codeOk: bool, gateAt: Time, mintAt: Time, logAt: Time, closeAt: Time,
                      tmpSid: SessionId, tmpHash: TokenHash)
      returns (outcome: TotpOutcome)
      requires Valid() && tmpSid !in sessions && Holder(sessions, tmpHash).None? && sid != tmpSid
      modifies this
      ensures Valid()
      ensures sessions == if outcome.TotpOk? then Anchor(old(sessions), sid, closeAt) else old(sessions)
      ensures sessions.Keys == old(sessions).Keys
      ensures forall s :: s in sessions && s != sid ==> sessions[s] == old(sessions)[s]
      ensures outcome.TotpOk? && sid in sessions ==>
                sessions[sid] == if old(sessions)[sid].revokedAt.None? then old(sessions)[sid].(totpIssuedAt := closeAt)
                                 else old(sessions)[sid]
      ensures outcome.TotpOk? ==> uid in old(users) && outcome == TotpOk(sid, UnixSeconds(mintAt))
      ensures users == if outcome.TotpOk? then old(users)[uid := old(users)[uid].(lastLoginAt := Some(mintAt))]
                       else old(users)
      ensures uid !in old(users) ==> outcome.InvalidToken? && attempts == old(attempts)
      ensures uid in old(users) && old(users)[uid].status != "active" ==>
                outcome.TotpLocked? && attempts == old(attempts)
      ensures uid in old(users) && old(users)[uid].status == "active" ==>
                var row := old(users)[uid];
                var who := Jaccard.Lower(row.email);
                var gateClosed := Lockout.LockedOut(old(attempts), who, gateAt);
                && attempts == old(attempts) + [Lockout.Attempt(who, logAt, outcome.TotpOk?, gateClosed)]
                && (outcome.TotpLocked? <==> gateClosed)
                && (outcome.InvalidToken? <==> !gateClosed && !(row.enrolled && row.hasSecret))
                && (outcome.TotpOk? <==> !gateClosed && row.enrolled && row.hasSecret && codeOk)
    {
      var inner := AttemptTotp(uid, codeOk, gateAt, mintAt, logAt, tmpSid, tmpHash);
      if !inner.TotpOk? {
        return inner;
      }
      sessions := sessions - {inner.session};
      assert sessions == old(sessions);
      if sid in sessions && sessions[sid].revokedAt.None? {
        sessions := sessions[sid := sessions[sid].(totpIssuedAt := closeAt)];
      }
      return TotpOk(sid, inner.anchor);
    }

    /** Rotation of a refresh token in one transaction. */
    method Refresh(h: TokenHash, now: Time, newSid: SessionId, newHash: TokenHash) returns (outcome: RefreshOutcome)
      requires Valid() && newSid !in sessions && Holder(sessions, newHash).None?
      modifies `sessions
      ensures Valid()
      ensures outcome == RefreshAnswer(old(sessions), h, now)
      ensures sessions == RefreshTable(old(sessions), h, now, newSid, newHash)
      ensures forall s :: s in old(sessions) && old(sessions)[s].tokenHash == h && outcome.Rotated? ==>
                && outcome.owner == old(sessions)[s].owner
                && outcome.claim * 1_000_000 <= old(sessions)[s].totpIssuedAt < (outcome.claim + 1) * 1_000_000
                && newSid in sessions && sessions[newSid].totpIssuedAt == old(sessions)[s].totpIssuedAt
                && sessions[newSid].expiresAt == now + 24 * 60 * 60 * 1_000_000
    {
      ghost var before := sessions;
      forall s | s in before && before[s].tokenHash == h
        ensures RefreshAnswer(before, h, now).Rotated? ==>
                  && RefreshAnswer(before, h, now).owner == before[s].owner
                  && RefreshAnswer(before, h, now).claim * 1_000_000 <= before[s].totpIssuedAt
                  && before[s].totpIssuedAt < (RefreshAnswer(before, h, now).claim + 1) * 1_000_000
        ensures RefreshAnswer(before, h, now).Rotated? ==>
                  var t := RefreshTable(before, h, now, newSid, newHash);
                  && newSid in t && t[newSid].totpIssuedAt == before[s].totpIssuedAt
                  && t[newSid].expiresAt == now + 24 * 60 * 60 * 1_000_000
      {
        AnswerMeans(before, h, now, s);
        RefreshMeans(before, h, now, newSid, newHash, s);
      }
      if !exists s :: s in sessions && sessions[s].tokenHash == h {
        return UnknownToken;
      }
      var s :| s in sessions && sessions[s].tokenHash == h;
      assert Holder(sessions, h) == Some(s);
      var row := sessions[s];
      if row.revokedAt.Some? {
        sessions := map r | r in sessions ::
          if sessions[r].owner == row.owner && sessions[r].revokedAt.None?
          then sessions[r].(revokedAt := Some(now)) else sessions[r];
        return Replay(row.owner);
      }
      if row.expiresAt < now {
        return Expired;
      }
      sessions := sessions[s := row.(revokedAt := Some(now))];
      sessions := sessions[newSid := Session(row.owner, newHash, now, now + REFRESH_TTL, row.totpIssuedAt, None)];
      return Rotated(row.owner, UnixSeconds(row.totpIssuedAt));
    }

    /** Afterwards the session is not live; a revocation that stands keeps its time,
        and no other session is touched. */
    method Logout(sid: SessionId, now: Time)
      requires Valid()
      modifies `sessions
      ensures Valid() && sessions == Revoke(old(sessions), sid, now)
      ensures !Live(sessions, sid) && sessions.Keys == old(sessions).Keys
      ensures forall s :: s in sessions && (s != sid || !Live(old(sessions), s)) ==> sessions[s] == old(sessions)[s]
      ensures Live(old(sessions), sid) ==> sessions[sid] == old(sessions)[sid].(revokedAt := Some(now))
    {
      if sid in sessions && sessions[sid].revokedAt.None? {
        sessions := sessions[sid := sessions[sid].(revokedAt := Some(now))];
      }
    }

    /** The freshness anchor that gates destructive actions: absent once the
        session is revoked, missing or expired. */
    method SessionFreshness(sid: SessionId, now: Time) returns (anchor: Option<Time>)
      ensures anchor.Some? <==> sid in sessions && sessions[sid].revokedAt.None? && now < sessions[sid].expiresAt
      ensures anchor.Some? ==> anchor.value == sessions[sid].totpIssuedAt
      ensures anchor == Freshness(sessions, sid, now)
    {
      if sid in sessions && sessions[sid].revokedAt.None? && sessions[sid].expiresAt > now {
        anchor := Some(sessions[sid].totpIssuedAt);
      } else {
        anchor := None;
      }
    }
  }
}

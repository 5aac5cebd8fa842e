/** What every run of logins, re-authentications, refreshes and logouts keeps. */
module AdminSessionLaws {
  import opened Options
  import opened AdminSessions

  lemma EmptyIsValid()
    ensures Inv(EMPTY)
  {}

  // ----- one live session per login ------------------------------------------------

  lemma BothInOrder(t: Table, ledger: Ledger, a: SessionId, b: SessionId)
    requires Ordered(t, ledger) && a in t && b in t && a != b
    ensures InOrder(t, ledger, a, b) && InOrder(t, ledger, b, a)
  {}

  /** Sessions descended by refresh from one TOTP login contain at most one
      unrevoked session. */
  lemma OneLiveSessionPerLogin(es: seq<Event>, a: SessionId, b: SessionId)
    requires LegalRun(EMPTY, es)
    requires var w := Run(EMPTY, es);
             Live(w.table, a) && Live(w.table, b) && OriginOf(w, a).root == OriginOf(w, b).root
    ensures a == b
  {
    EmptyIsValid();
    RunKeepsInv(EMPTY, es);
    var w := Run(EMPTY, es);
    if a != b {
      BothInOrder(w.table, w.ledger, a, b);
    }
  }

  function LiveOf(w: World, u: UserId): set<SessionId> {
    set s | s in w.table && w.table[s].revokedAt.None? && w.table[s].owner == u
  }

  function PendingOf(w: World, u: UserId): set<SessionId> {
    set s | s in w.pending && w.pending[s].0 == u
  }

  function LoginsOf(w: World, u: UserId): set<SessionId> {
    set s | s in w.ledger && w.ledger[s].root == s && !w.ledger[s].hidden && w.ledger[s].owner == u
  }

  function CountLogins(es: seq<Event>, u: UserId): nat {
    if es == [] then 0 else
      (if es[0].TotpLogin? && es[0].uid == u then 1 else 0) + CountLogins(es[1..], u)
  }

  lemma RefreshAddsNoLogin(w: World, e: Event, u: UserId)
    requires Rows(w.table, w.ledger, w.holders, w.vouch) && Roots(w.ledger) && Legal(w, e) && e.RefreshCall?
    ensures LoginsOf(Step(w, e), u) == LoginsOf(w, u)
  {
    if RefreshAnswer(w.table, e.hash, e.at).Rotated? {
      var o := Child(OriginOf(w, Holder(w.table, e.hash).value));
      assert o.root in w.ledger && Step(w, e).ledger == w.ledger[e.newSid := o];
    } else {
      assert Step(w, e).ledger == w.ledger;
    }
  }

  lemma StepCountsLogin(w: World, e: Event, u: UserId)
    requires Rows(w.table, w.ledger, w.holders, w.vouch) && Roots(w.ledger) && Legal(w, e)
    ensures LoginsOf(Step(w, e), u) ==
            LoginsOf(w, u) + (if e.TotpLogin? && e.uid == u then {e.sid} else {})
  {
    match e
    case TotpLogin(uid, sid, _, _) =>
      assert Step(w, e).ledger == w.ledger[sid := Origin(sid, 0, uid, false)];
    case ReauthOpen(uid, sid, _, _) =>
      assert Step(w, e).ledger == w.ledger[sid := Origin(sid, 0, uid, true)];
    case ReauthClose(_, _, _, _) =>
      assert Step(w, e).ledger == w.ledger;
    case RefreshCall(_, _, _, _) =>
      RefreshAddsNoLogin(w, e, u);
    case LogoutCall(_, _) =>
      assert Step(w, e).ledger == w.ledger;
  }

  lemma {:induction false} RunCountsLogins(w: World, es: seq<Event>, u: UserId)
    requires Inv(w) && LegalRun(w, es)
    ensures |LoginsOf(Run(w, es), u)| == |LoginsOf(w, u)| + CountLogins(es, u)
    decreases |es|
  {
    if es == [] {
    } else {
      StepCountsLogin(w, es[0], u);
      StepKeepsInv(w, es[0]);
      RunCountsLogins(Step(w, es[0]), es[1..], u);
    }
  }

  /** An injective image is as large as what it is the image of. */
  lemma {:induction false} InjectionBound(from: set<SessionId>, image: map<SessionId, SessionId>, to: set<SessionId>)
    requires from <= image.Keys && forall s :: s in from ==> image[s] in to
    requires forall a, b :: a in from && b in from && image[a] == image[b] ==> a == b
    ensures |from| <= |to|
    decreases |from|
  {
    if from == {} {
    } else {
      var s :| s in from;
      InjectionBound(from - {s}, image, to - {image[s]});
    }
  }

  /** An admin never holds more live sessions than successful logins plus
      re-authentications caught between their two transactions. */
  lemma LiveSessionsBounded(es: seq<Event>, u: UserId)
    requires LegalRun(EMPTY, es)
    ensures |LiveOf(Run(EMPTY, es), u)| <= CountLogins(es, u) + |PendingOf(Run(EMPTY, es), u)|
  {
    EmptyIsValid();
    RunKeepsInv(EMPTY, es);
    RunCountsLogins(EMPTY, es, u);
    var w := Run(EMPTY, es);
    var image := map s | s in w.table :: OriginOf(w, s).root;
    forall a, b | a in LiveOf(w, u) && b in LiveOf(w, u) && image[a] == image[b]
      ensures a == b
    {
      OneLiveSessionPerLogin(es, a, b);
    }
    var logins, pending := LoginsOf(w, u), PendingOf(w, u);
    InjectionBound(LiveOf(w, u), image, logins + pending);
    assert |logins + pending| == |logins| + |pending - logins|;
    assert |pending| == |pending - logins| + |pending * logins|;
  }

  /** ... and these do count: between the two transactions of a re-authentication
      an admin has more live sessions than logins. */
  lemma ReauthExceedsLogins()
    ensures var es := [TotpLogin(1, "s", "h", 0), ReauthOpen(1, "t", "k", 10)];
            LegalRun(EMPTY, es) && |LiveOf(Run(EMPTY, es), 1)| == 2 && CountLogins(es, 1) == 1
  {
    var w := OpenedReauth();
    assert "s"[0] != "t"[0];
    assert LiveOf(w, 1) == {"s", "t"};
    var es := [TotpLogin(1, "s", "h", 0), ReauthOpen(1, "t", "k", 10)];
    assert es[1..] == [ReauthOpen(1, "t", "k", 10)] && es[1..][1..] == [];
    assert CountLogins(es[1..], 1) == 0;
  }

  // ----- refresh tokens are redeemed once -------------------------------------------

  ghost function Rotations(w: World, es: seq<Event>, h: TokenHash): nat
    decreases |es|
  {
    if es == [] then 0 else
      (if es[0].RefreshCall? && es[0].hash == h && RefreshAnswer(w.table, h, es[0].at).Rotated? then 1 else 0)
      + Rotations(Step(w, es[0]), es[1..], h)
  }

  lemma HolderIs(t: Table, s: SessionId)
    requires UniqueHashes(t) && s in t
    ensures Holder(t, t[s].tokenHash) == Some(s)
  {}

  lemma SpentStaysSpent(w: World, e: Event, h: TokenHash)
    ensures h in w.redeemed ==> h in Step(w, e).redeemed
    ensures e.RefreshCall? && e.hash == h && RefreshAnswer(w.table, h, e.at).Rotated? ==> h in Step(w, e).redeemed
  {
    if e.RefreshCall? && RefreshAnswer(w.table, e.hash, e.at).Rotated? {
      assert Step(w, e).redeemed == w.redeemed + [e.hash];
    }
  }

  /** Presenting a token that was already redeemed is a replay. */
  lemma SpentTokenIsReplay(w: World, h: TokenHash, now: Time)
    requires Inv(w) && h in w.redeemed
    ensures RefreshAnswer(w.table, h, now) == Replay(w.table[w.holders[h]].owner)
  {
    HolderIs(w.table, w.holders[h]);
  }

  /** In every run a refresh token yields a new session at most once. */
  lemma {:induction false} RedeemedAtMostOnce(w: World, es: seq<Event>, h: TokenHash)
    requires Inv(w) && LegalRun(w, es)
    ensures Rotations(w, es, h) <= 1
    ensures h in w.redeemed ==> Rotations(w, es, h) == 0
    decreases |es|
  {
    if es == [] {
    } else {
      StepKeepsInv(w, es[0]);
      SpentStaysSpent(w, es[0], h);
      if h in w.redeemed && es[0].RefreshCall? {
        SpentTokenIsReplay(w, h, es[0].at);
      }
      RedeemedAtMostOnce(Step(w, es[0]), es[1..], h);
    }
  }

  /** In a reachable state a token is accepted exactly when it was issued, its
      session is still there unrevoked, and it is at most a day old. */
  lemma AcceptedIff(es: seq<Event>, h: TokenHash, now: Time)
    requires LegalRun(EMPTY, es)
    ensures var w := Run(EMPTY, es);
            RefreshAnswer(w.table, h, now).Rotated? <==>
              (h in w.holders && Live(w.table, w.holders[h]) && w.table[w.holders[h]].tokenHash == h
               && now <= w.table[w.holders[h]].issuedAt + REFRESH_TTL)
  {
    EmptyIsValid();
    RunKeepsInv(EMPTY, es);
    var w := Run(EMPTY, es);
    if h in w.holders && w.holders[h] in w.table && w.table[w.holders[h]].tokenHash == h {
      HolderIs(w.table, w.holders[h]);
    }
  }

  /** Presenting the token of a revoked session leaves its admin with no live
      session and every other admin's sessions as they were. */
  lemma ReplayIsContained(w: World, s: SessionId, at: Time, newSid: SessionId, newHash: TokenHash)
    requires UniqueHashes(w.table) && s in w.table && !Live(w.table, s)
    ensures var w' := Step(w, RefreshCall(w.table[s].tokenHash, at, newSid, newHash));
            && LiveOf(w', w.table[s].owner) == {}
            && forall u :: u != w.table[s].owner ==> LiveOf(w', u) == LiveOf(w, u)
  {
    HolderIs(w.table, s);
    StepAppliesTransaction(w, RefreshCall(w.table[s].tokenHash, at, newSid, newHash));
  }

  // ----- revocation is final ---------------------------------------------------------

  /** The session an event inserts or deletes, if any. */
  ghost predicate Touches(e: Event, s: SessionId) {
    match e
    case TotpLogin(_, sid, _, _) => sid == s
    case ReauthOpen(_, sid, _, _) => sid == s
    case ReauthClose(_, tmp, _, _) => tmp == s
    case RefreshCall(_, _, newSid, _) => newSid == s
    case LogoutCall(_, _) => false
  }

  /** What a transaction can do to a row it does not insert or delete. */
  lemma ApplyToOtherRow(t: Table, e: Event, s: SessionId)
    requires s in t && !Touches(e, s)
    ensures s in Apply(t, e)
    ensures !Live(t, s) ==> Apply(t, e)[s] == t[s]
    ensures Apply(t, e)[s].(revokedAt := None, totpIssuedAt := 0) == t[s].(revokedAt := None, totpIssuedAt := 0)
    ensures Apply(t, e)[s].totpIssuedAt ==
            if e.ReauthClose? && e.sid == s && Live(t, s) then e.at else t[s].totpIssuedAt
  {}

  lemma StepFreezesRevoked(w: World, e: Event, s: SessionId)
    requires Inv(w) && Legal(w, e) && s in w.table && !Live(w.table, s) && !w.ledger[s].hidden
    ensures s in Step(w, e).table && Step(w, e).table[s] == w.table[s]
  {
    StepAppliesTransaction(w, e);
    ApplyToOtherRow(w.table, e, s);
  }

  lemma StepKeepsVisibility(w: World, e: Event, s: SessionId)
    requires Legal(w, e) && s in w.ledger
    ensures s in Step(w, e).ledger && Step(w, e).ledger[s] == w.ledger[s]
  {}

  /** A revoked session's row, its `revoked_at` included, never changes again. */
  lemma {:induction false} RevocationIsFinal(w: World, es: seq<Event>, s: SessionId)
    requires Inv(w) && LegalRun(w, es) && s in w.table && !Live(w.table, s) && !w.ledger[s].hidden
    ensures s in Run(w, es).table && Run(w, es).table[s] == w.table[s]
    decreases |es|
  {
    if es == [] {
    } else {
      StepKeepsInv(w, es[0]);
      StepFreezesRevoked(w, es[0], s);
      StepKeepsVisibility(w, es[0], s);
      RevocationIsFinal(Step(w, es[0]), es[1..], s);
    }
  }

  // ----- freshness anchors -------------------------------------------------------------

  /** Only closing a re-authentication of that very session moves an existing
      anchor, and never backwards; a rotated session inherits the anchor of the
      one it replaces. */
  lemma OnlyReauthMovesAnchors(w: World, e: Event, s: SessionId)
    requires Inv(w) && Legal(w, e) && s in w.table && s in Step(w, e).table
    ensures w.table[s].totpIssuedAt <= Step(w, e).table[s].totpIssuedAt
    ensures Step(w, e).table[s].totpIssuedAt != w.table[s].totpIssuedAt ==>
              e.ReauthClose? && e.sid == s && Live(w.table, s)
  {
    StepAppliesTransaction(w, e);
    assert !Touches(e, s);
    ApplyToOtherRow(w.table, e, s);
  }

  /** Whatever the order of clock readings: a transaction moves an anchor back
      exactly when it closes a re-authentication of that unrevoked session with an
      earlier reading than the anchor. */
  lemma AnchorMovesBackIff(t: Table, e: Event, s: SessionId)
    requires s in t && !Touches(e, s)
    ensures s in Apply(t, e)
    ensures Apply(t, e)[s].totpIssuedAt < t[s].totpIssuedAt <==>
              e.ReauthClose? && e.sid == s && Live(t, s) && e.at < t[s].totpIssuedAt
  {
    ApplyToOtherRow(t, e, s);
  }

  /** Two re-authentications of one session that commit against the order of
      their readings, each of them later than its own check: the anchor ends up
      earlier than it was. */
  lemma ReorderedClosesMoveBack()
    ensures var t := Apply(Apply(Apply(EMPTY.table, TotpLogin(1, "s", "h", 0)), ReauthOpen(1, "t", "k", 10)),
                           ReauthOpen(1, "u", "l", 20));
            var t1 := Apply(t, ReauthClose(1, "u", "s", 40));
            var t2 := Apply(t1, ReauthClose(1, "t", "s", 30));
            && "s" in t1 && t1["s"].totpIssuedAt == 40
            && "s" in t2 && t2["s"].totpIssuedAt == 30
  {
    assert "s"[0] != "t"[0] && "s"[0] != "u"[0] && "t"[0] != "u"[0];
    var t := Apply(Apply(Apply(EMPTY.table, TotpLogin(1, "s", "h", 0)), ReauthOpen(1, "t", "k", 10)),
                   ReauthOpen(1, "u", "l", 20));
    assert Live(t, "s");
    ApplyToOtherRow(t, ReauthClose(1, "u", "s", 40), "s");
    var t1 := Apply(t, ReauthClose(1, "u", "s", 40));
    assert Live(t1, "s");
    ApplyToOtherRow(t1, ReauthClose(1, "t", "s", 30), "s");
  }

  lemma RotationInheritsAnchor(w: World, e: Event)
    requires Inv(w) && Legal(w, e) && e.RefreshCall? && RefreshAnswer(w.table, e.hash, e.at).Rotated?
    ensures var prev := Holder(w.table, e.hash).value;
            var t' := Step(w, e).table;
            && e.newSid in t' && Live(t', e.newSid) && !Live(t', prev)
            && t'[e.newSid].owner == w.table[prev].owner
            && t'[e.newSid].totpIssuedAt == w.table[prev].totpIssuedAt
            && t'[e.newSid].tokenHash == e.newHash
            && OriginOf(Step(w, e), e.newSid) == Child(OriginOf(w, prev))
  {
    assert Holder(w.table, e.hash).value != e.newSid;
  }

  /** In every reachable state a session's anchor rests on a successful TOTP
      check of its owner, no later than the anchor; unless the lineage was
      re-authenticated the anchor is exactly the time of that check. Anchors do
      not decrease along a lineage. */
  lemma AnchorsAreVouched(es: seq<Event>, s: SessionId, now: Time)
    requires LegalRun(EMPTY, es) && s in Run(EMPTY, es).table
    ensures var w := Run(EMPTY, es);
            && (w.table[s].owner, VouchOf(w, s).checkedAt) in w.checks
            && VouchOf(w, s).checkedAt <= w.table[s].totpIssuedAt
            && (!VouchOf(w, s).reauthed ==> Freshness(w.table, s, now) in {None, Some(VouchOf(w, s).checkedAt)})
    ensures forall b :: var w := Run(EMPTY, es);
              b in w.table && OriginOf(w, b).root == OriginOf(w, s).root
              && OriginOf(w, b).generation < OriginOf(w, s).generation ==>
              w.table[b].totpIssuedAt <= w.table[s].totpIssuedAt
  {
    EmptyIsValid();
    RunKeepsInv(EMPTY, es);
    var w := Run(EMPTY, es);
    forall b | b in w.table && b != s
      ensures InOrder(w.table, w.ledger, b, s)
    {}
  }

  /** Every anchor lies at most d after the TOTP check it rests on. */
  ghost predicate Lagging(t: Table, vouch: map<SessionId, Vouch>, d: nat) {
    forall s :: s in t && s in vouch ==> t[s].totpIssuedAt <= vouch[s].checkedAt + d
  }

  ghost predicate AnchorsWithin(w: World, es: seq<Event>, d: nat)
    decreases |es|
  {
    Lagging(w.table, w.vouch, d) && (es == [] || AnchorsWithin(Step(w, es[0]), es[1..], d))
  }

  /** The event does not close a re-authentication of an unrevoked session more
      than d after its TOTP check. */
  predicate ClosesInTime(w: World, e: Event, d: nat) {
    e.ReauthClose? && Live(w.table, e.sid) ==> e.at <= PendingCheck(w, e.tmp) + d
  }

  ghost predicate ClosesWithin(w: World, es: seq<Event>, d: nat)
    decreases |es|
  {
    es == [] || (ClosesInTime(w, es[0], d) && ClosesWithin(Step(w, es[0]), es[1..], d))
  }

  lemma AddLag(t: Table, vouch: map<SessionId, Vouch>, sid: SessionId, r: Session, v: Vouch, d: nat)
    requires Lagging(t, vouch, d) && r.totpIssuedAt <= v.checkedAt + d
    ensures Lagging(t[sid := r], vouch[sid := v], d)
  {}

  lemma RetireLag(t: Table, t': Table, vouch: map<SessionId, Vouch>, d: nat)
    requires Lagging(t, vouch, d) && Retired(t, t')
    ensures Lagging(t', vouch, d)
  {
    assert forall s :: s in t ==> RowRetired(t[s], t'[s]);
  }

  lemma CloseLag(t: Table, vouch: map<SessionId, Vouch>, tmp: SessionId, sid: SessionId,
                 at: Time, checkedAt: Time, d: nat)
    requires Lagging(t, vouch, d) && Live(t, sid) && tmp != sid
    ensures Lagging(CloseReauth(t, tmp, sid, at), vouch[sid := Vouch(checkedAt, true)], d) <==> at <= checkedAt + d
  {
    var t' := CloseReauth(t, tmp, sid, at);
    assert sid in t' && t'[sid].totpIssuedAt == at;
  }

  lemma RefreshKeepsLag(w: World, e: Event, d: nat)
    requires Rows(w.table, w.ledger, w.holders, w.vouch) && e.RefreshCall? && Lagging(w.table, w.vouch, d)
    ensures Lagging(Step(w, e).table, Step(w, e).vouch, d)
  {
    match RefreshAnswer(w.table, e.hash, e.at)
    case UnknownToken =>
    case Replay(owner) =>
      RevokeAllRetires(w.table, owner, e.at);
      RetireLag(w.table, RevokeAll(w.table, owner, e.at), w.vouch, d);
    case Expired =>
    case Rotated(_, _) =>
      var prev := Holder(w.table, e.hash).value;
      var r := w.table[prev];
      var t := Revoke(w.table, prev, e.at);
      RevokeRetires(w.table, prev, e.at);
      RetireLag(w.table, t, w.vouch, d);
      AddLag(t, w.vouch, e.newSid, NewSession(r.owner, e.newHash, e.at, r.totpIssuedAt), w.vouch[prev], d);
  }

  lemma CloseStepLag(w: World, e: Event, d: nat)
    requires Rows(w.table, w.ledger, w.holders, w.vouch) && e.ReauthClose? && Lagging(w.table, w.vouch, d)
    requires e.sid != e.tmp
    ensures Lagging(Step(w, e).table, Step(w, e).vouch, d) <==> ClosesInTime(w, e, d)
  {
    if Live(w.table, e.sid) {
      CloseLag(w.table, w.vouch, e.tmp, e.sid, e.at, PendingCheck(w, e.tmp), d);
    }
  }

  lemma StepLag(w: World, e: Event, d: nat)
    requires Rows(w.table, w.ledger, w.holders, w.vouch) && Lagging(w.table, w.vouch, d)
    requires e.ReauthClose? ==> e.sid != e.tmp
    ensures Lagging(Step(w, e).table, Step(w, e).vouch, d) <==> ClosesInTime(w, e, d)
  {
    match e
    case TotpLogin(uid, sid, h, at) =>
      AddLag(w.table, w.vouch, sid, NewSession(uid, h, at, at), Vouch(at, false), d);
    case ReauthOpen(uid, sid, h, at) =>
      AddLag(w.table, w.vouch, sid, NewSession(uid, h, at, at), Vouch(at, false), d);
    case ReauthClose(_, _, _, _) =>
      CloseStepLag(w, e, d);
    case RefreshCall(_, _, _, _) =>
      RefreshKeepsLag(w, e, d);
    case LogoutCall(sid, at) =>
      RevokeRetires(w.table, sid, at);
      RetireLag(w.table, Revoke(w.table, sid, at), w.vouch, d);
  }

  lemma ClosesAnother(w: World, e: Event)
    requires Known(w.ledger, w.holders, w.claims, w.pending) && HiddenOnlyPending(w.ledger, w.table, w.pending)
    requires Legal(w, e) && e.ReauthClose?
    ensures e.sid != e.tmp
  {}

  lemma {:induction false} RunLag(w: World, es: seq<Event>, d: nat)
    requires Inv(w) && LegalRun(w, es) && Lagging(w.table, w.vouch, d)
    ensures AnchorsWithin(w, es, d) <==> ClosesWithin(w, es, d)
    ensures ClosesWithin(w, es, d) ==> Lagging(Run(w, es).table, Run(w, es).vouch, d)
    decreases |es|
  {
    if es == [] {
    } else {
      if es[0].ReauthClose? {
        ClosesAnother(w, es[0]);
      }
      StepLag(w, es[0], d);
      StepKeepsInv(w, es[0]);
      if ClosesInTime(w, es[0], d) {
        RunLag(Step(w, es[0]), es[1..], d);
      }
    }
  }

  /** Along a run every anchor, inherited ones included, lies within d after the
      TOTP check it rests on, if and only if every re-authentication of an
      unrevoked session closes within d of its check. With d = 0: anchors are the
      times of TOTP checks exactly when the clock never moves between the two
      transactions of a re-authentication. */
  lemma ReauthAnchorLag(es: seq<Event>, d: nat)
    requires LegalRun(EMPTY, es)
    ensures AnchorsWithin(EMPTY, es, d) <==> ClosesWithin(EMPTY, es, d)
  {
    EmptyIsValid();
    RunLag(EMPTY, es, d);
  }

  /** When they all close in time, each session's owner passed a TOTP check at
      most d before the session's anchor. */
  lemma AnchorsAreRecent(es: seq<Event>, d: nat, s: SessionId)
    requires LegalRun(EMPTY, es) && ClosesWithin(EMPTY, es, d) && s in Run(EMPTY, es).table
    ensures var w := Run(EMPTY, es);
            exists c :: (w.table[s].owner, c) in w.checks && c <= w.table[s].totpIssuedAt <= c + d
  {
    EmptyIsValid();
    RunLag(EMPTY, es, d);
    RunKeepsInv(EMPTY, es);
    var w := Run(EMPTY, es);
    assert (w.table[s].owner, w.vouch[s].checkedAt) in w.checks;
  }

  /** One login, and a re-authentication that closes `lag` after its check. */
  function LateReauth(lag: nat): seq<Event> {
    [TotpLogin(1, "s", "h", 0), ReauthOpen(1, "t", "k", 10), ReauthClose(1, "t", "s", 10 + lag)]
  }

  lemma RunThree(w: World, a: Event, b: Event, c: Event)
    ensures Run(w, [a, b, c]) == Step(Step(Step(w, a), b), c)
    ensures LegalRun(w, [a, b, c]) <==> Legal(w, a) && Legal(Step(w, a), b) && Legal(Step(Step(w, a), b), c)
  {
    RunTwo(Step(w, a), b, c);
    assert [a, b, c][1..] == [b, c];
  }

  lemma RunTwo(w: World, a: Event, b: Event)
    ensures Run(w, [a, b]) == Step(Step(w, a), b)
    ensures LegalRun(w, [a, b]) <==> Legal(w, a) && Legal(Step(w, a), b)
  {
    assert [a, b][1..] == [b] && [b][1..] == [];
    assert Run(Step(w, a), [b]) == Step(Step(w, a), b);
    assert LegalRun(Step(w, a), [b]) <==> Legal(Step(w, a), b);
  }

  lemma OpenedReauth() returns (w: World)
    ensures LegalRun(EMPTY, [TotpLogin(1, "s", "h", 0), ReauthOpen(1, "t", "k", 10)])
    ensures w == Run(EMPTY, [TotpLogin(1, "s", "h", 0), ReauthOpen(1, "t", "k", 10)])
    ensures w == Step(Step(EMPTY, TotpLogin(1, "s", "h", 0)), ReauthOpen(1, "t", "k", 10))
    ensures w.table == map["s" := NewSession(1, "h", 0, 0), "t" := NewSession(1, "k", 10, 10)]
    ensures w.pending == map["t" := (1, 10)] && w.checks == {(1, 0), (1, 10)} && w.clock == 10
    ensures w.ledger == map["s" := Origin("s", 0, 1, false), "t" := Origin("t", 0, 1, true)]
  {
    assert "s"[0] != "t"[0] && "h"[0] != "k"[0];
    RunTwo(EMPTY, TotpLogin(1, "s", "h", 0), ReauthOpen(1, "t", "k", 10));
    w := Run(EMPTY, [TotpLogin(1, "s", "h", 0), ReauthOpen(1, "t", "k", 10)]);
  }

  /** The lag is reached: for every lag a run whose anchor is that much later than
      every TOTP check in it. */
  lemma AnchorCanOutrunChecks(lag: nat)
    ensures LegalRun(EMPTY, LateReauth(lag)) && "s" in Run(EMPTY, LateReauth(lag)).table
    ensures var w := Run(EMPTY, LateReauth(lag));
            forall c :: c in w.checks ==> c.1 + lag <= w.table["s"].totpIssuedAt
  {
    var w := OpenedReauth();
    assert "s"[0] != "t"[0];
    RunThree(EMPTY, LateReauth(lag)[0], LateReauth(lag)[1], LateReauth(lag)[2]);
    assert Live(w.table - {"t"}, "s");
  }

  /** No access token claims a fresher TOTP time than its session's row holds. */
  lemma ClaimsNeverAhead(es: seq<Event>, c: Claim)
    requires LegalRun(EMPTY, es) && c in Run(EMPTY, es).claims && c.sid in Run(EMPTY, es).table
    ensures c.seconds * TICKS_PER_SECOND <= Run(EMPTY, es).table[c.sid].totpIssuedAt
  {
    EmptyIsValid();
    RunKeepsInv(EMPTY, es);
  }

  /** In every reachable state a refresh answers with the owner of the session that
      held the token and with its stored anchor, in whole seconds, rounded down. */
  lemma RefreshClaimsItsAnchor(es: seq<Event>, h: TokenHash, now: Time)
    requires LegalRun(EMPTY, es) && RefreshAnswer(Run(EMPTY, es).table, h, now).Rotated?
    ensures var w := Run(EMPTY, es);
            var a := RefreshAnswer(w.table, h, now);
            && h in w.holders && w.holders[h] in w.table && a.owner == w.table[w.holders[h]].owner
            && a.claim * 1_000_000 <= w.table[w.holders[h]].totpIssuedAt < (a.claim + 1) * 1_000_000
  {
    AcceptedIff(es, h, now);
    EmptyIsValid();
    RunKeepsInv(EMPTY, es);
    AnswerMeans(Run(EMPTY, es).table, h, now, Run(EMPTY, es).holders[h]);
  }

  // ----- re-authentication is an anchor update -----------------------------------------

  /** The two tables differ in the temporary session only. */
  ghost predicate SameBut(t: Table, t': Table, tmp: SessionId) {
    tmp in t && tmp !in t' && t - {tmp} == t'
  }

  ghost predicate Mentions(e: Event, tmp: SessionId, h: TokenHash) {
    match e
    case TotpLogin(_, sid, hash, _) => sid == tmp || hash == h
    case ReauthOpen(_, sid, hash, _) => sid == tmp || hash == h
    case ReauthClose(_, other, sid, _) => other == tmp || sid == tmp
    case RefreshCall(hash, _, newSid, newHash) => hash == h || newSid == tmp || newHash == h
    case LogoutCall(sid, _) => sid == tmp
  }

  lemma HolderWithout(t: Table, t': Table, tmp: SessionId, h: TokenHash)
    requires SameBut(t, t', tmp) && UniqueHashes(t) && h != t[tmp].tokenHash
    ensures Holder(t, h) == Holder(t', h)
  {
    assert forall s :: s in t' ==> s in t && t[s] == t'[s];
    assert forall s :: s in t && s != tmp ==> s in t' && t[s] == t'[s];
  }

  lemma RefreshIgnoresTemporary(t: Table, t': Table, tmp: SessionId, e: Event)
    requires SameBut(t, t', tmp) && UniqueHashes(t) && FreshFor(t, e) && !Mentions(e, tmp, t[tmp].tokenHash)
    requires e.RefreshCall?
    ensures RefreshAnswer(t, e.hash, e.at) == RefreshAnswer(t', e.hash, e.at)
    ensures Apply(t, e) - {tmp} == Apply(t', e)
  {
    HolderWithout(t, t', tmp, e.hash);
    assert forall s :: s in t' ==> s in t && t[s] == t'[s];
    match RefreshAnswer(t, e.hash, e.at)
    case UnknownToken =>
    case Replay(_) => assert Apply(t, e) - {tmp} == Apply(t', e);
    case Expired =>
    case Rotated(_, _) => assert Apply(t, e) - {tmp} == Apply(t', e);
  }

  lemma MintIgnoresTemporary(t: Table, t': Table, tmp: SessionId, sid: SessionId, uid: UserId, h: TokenHash, at: Time)
    requires SameBut(t, t', tmp) && sid != tmp
    ensures SameBut(Mint(t, sid, uid, h, at), Mint(t', sid, uid, h, at), tmp)
  {
    assert Mint(t, sid, uid, h, at) - {tmp} == Mint(t', sid, uid, h, at);
  }

  lemma CloseIgnoresTemporary(t: Table, t': Table, tmp: SessionId, other: SessionId, sid: SessionId, at: Time)
    requires SameBut(t, t', tmp) && sid != tmp && other != tmp
    ensures SameBut(CloseReauth(t, other, sid, at), CloseReauth(t', other, sid, at), tmp)
  {
    var u, u' := t - {other}, t' - {other};
    assert u - {tmp} == u';
    assert Anchor(u, sid, at) - {tmp} == Anchor(u', sid, at);
  }

  /** A step that does not name the temporary session neither sees it nor moves
      its token. */
  lemma StepIgnoresTemporary(t: Table, t': Table, tmp: SessionId, e: Event)
    requires SameBut(t, t', tmp) && UniqueHashes(t) && FreshFor(t, e) && !Mentions(e, tmp, t[tmp].tokenHash)
    ensures SameBut(Apply(t, e), Apply(t', e), tmp)
    ensures Apply(t, e)[tmp].tokenHash == t[tmp].tokenHash
    ensures e.RefreshCall? ==> RefreshAnswer(t, e.hash, e.at) == RefreshAnswer(t', e.hash, e.at)
  {
    ApplyToOtherRow(t, e, tmp);
    match e
    case TotpLogin(uid, sid, h, at) => MintIgnoresTemporary(t, t', tmp, sid, uid, h, at);
    case ReauthOpen(uid, sid, h, at) => MintIgnoresTemporary(t, t', tmp, sid, uid, h, at);
    case ReauthClose(_, other, sid, at) => CloseIgnoresTemporary(t, t', tmp, other, sid, at);
    case RefreshCall(_, _, _, _) => RefreshIgnoresTemporary(t, t', tmp, e);
    case LogoutCall(sid, at) => assert Revoke(t, sid, at) - {tmp} == Revoke(t', sid, at);
  }

  ghost function ApplyAll(t: Table, es: seq<Event>): Table
    decreases |es|
  {
    if es == [] then t else ApplyAll(Apply(t, es[0]), es[1..])
  }

  ghost predicate Bystanders(t: Table, es: seq<Event>, tmp: SessionId, h: TokenHash)
    decreases |es|
  {
    es == [] || (FreshFor(t, es[0]) && !Mentions(es[0], tmp, h) && Bystanders(Apply(t, es[0]), es[1..], tmp, h))
  }

  lemma {:induction false} RunIgnoresTemporary(t: Table, t': Table, tmp: SessionId, es: seq<Event>)
    requires SameBut(t, t', tmp) && UniqueHashes(t) && Bystanders(t, es, tmp, t[tmp].tokenHash)
    ensures SameBut(ApplyAll(t, es), ApplyAll(t', es), tmp)
    decreases |es|
  {
    if es == [] {
    } else {
      StepIgnoresTemporary(t, t', tmp, es[0]);
      ApplyKeepsUnique(t, es[0]);
      RunIgnoresTemporary(Apply(t, es[0]), Apply(t', es[0]), tmp, es[1..]);
    }
  }

  /** `reauth_totp` inserts a session and deletes it again, yet its net effect is
      that of a path that only moves the named session's anchor, whatever other
      steps, of any admin, run between its two transactions. */
  lemma ReauthIsAnAnchorUpdate(t: Table, uid: UserId, tmp: SessionId, h: TokenHash, checkedAt: Time,
                               es: seq<Event>, sid: SessionId, at: Time)
    requires UniqueHashes(t) && tmp !in t && Holder(t, h).None?
    requires Bystanders(Mint(t, tmp, uid, h, checkedAt), es, tmp, h)
    ensures CloseReauth(ApplyAll(Mint(t, tmp, uid, h, checkedAt), es), tmp, sid, at) ==
            Anchor(ApplyAll(t, es), sid, at)
  {
    var t1 := Mint(t, tmp, uid, h, checkedAt);
    assert t1 - {tmp} == t;
    RunIgnoresTemporary(t1, t, tmp, es);
  }
}

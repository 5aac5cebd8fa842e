/** The `admin_sessions` table and the transactions that change it
    (engramia/admin_auth/service.py). Every transaction is one atomic step; the
    clock values it stores are parameters. */
module AdminSessions {
  import opened Options

  type UserId = int
  type SessionId = string
  type TokenHash = string
  type Time = nat   // microseconds

  const TICKS_PER_SECOND: nat := 1_000_000
  const REFRESH_TTL: nat := 24 * 3600 * TICKS_PER_SECOND

  datatype Session = Session(owner: UserId, tokenHash: TokenHash, issuedAt: Time, expiresAt: Time,
                             totpIssuedAt: Time, revokedAt: Option<Time>)
  type Table = map<SessionId, Session>

  function UnixSeconds(t: Time): nat {
    t / TICKS_PER_SECOND
  }

  predicate Live(t: Table, sid: SessionId) {
    sid in t && t[sid].revokedAt.None?
  }

  ghost predicate UniqueHashes(t: Table) {
    forall a, b :: a in t && b in t && t[a].tokenHash == t[b].tokenHash ==> a == b
  }

  /** The session that a presented refresh token belongs to. */
  ghost function Holder(t: Table, h: TokenHash): (r: Option<SessionId>)
    ensures r.Some? ==> r.value in t && t[r.value].tokenHash == h
    ensures r.None? ==> forall s :: s in t ==> t[s].tokenHash != h
  {
    if exists s :: s in t && t[s].tokenHash == h then
      var s :| s in t && t[s].tokenHash == h; Some(s)
    else None
  }

  // ----- the transactions -----------------------------------------------------

  /** INSERT of `attempt_totp` after a verified code. */
  function Mint(t: Table, sid: SessionId, uid: UserId, h: TokenHash, now: Time): Table {
    t[sid := Session(uid, h, now, now + REFRESH_TTL, now, None)]
  }

  /** UPDATE of `totp_issued_at` of one unrevoked session. */
  function Anchor(t: Table, sid: SessionId, ts: Time): Table {
    if Live(t, sid) then t[sid := t[sid].(totpIssuedAt := ts)] else t
  }

  /** Second transaction of `reauth_totp`: drop the session that the inner
      `attempt_totp` inserted, then advance the named one. */
  function CloseReauth(t: Table, tmp: SessionId, sid: SessionId, ts: Time): Table {
    Anchor(t - {tmp}, sid, ts)
  }

  function Revoke(t: Table, sid: SessionId, ts: Time): Table {
    if Live(t, sid) then t[sid := t[sid].(revokedAt := Some(ts))] else t
  }

  function RevokeAll(t: Table, uid: UserId, ts: Time): Table {
    map s | s in t :: if t[s].owner == uid && t[s].revokedAt.None? then t[s].(revokedAt := Some(ts)) else t[s]
  }

  datatype RefreshOutcome =
    | UnknownToken
    | Replay(owner: UserId)
    | Expired
    | Rotated(owner: UserId, claim: nat)

  /** What `refresh` answers for a presented token. */
  ghost function RefreshAnswer(t: Table, h: TokenHash, now: Time): RefreshOutcome {
    match Holder(t, h)
    case None => UnknownToken
    case Some(s) =>
      if t[s].revokedAt.Some? then Replay(t[s].owner)
      else if t[s].expiresAt < now then Expired
      else Rotated(t[s].owner, UnixSeconds(t[s].totpIssuedAt))
  }

  /** What `refresh` does to the table. */
  ghost function RefreshTable(t: Table, h: TokenHash, now: Time, newSid: SessionId, newHash: TokenHash): Table {
    match RefreshAnswer(t, h, now)
    case UnknownToken => t
    case Replay(owner) => RevokeAll(t, owner, now)
    case Expired => t
    case Rotated(owner, _) =>
      var s := Holder(t, h).value;
      Revoke(t, s, now)[newSid := Session(owner, newHash, now, now + REFRESH_TTL, t[s].totpIssuedAt, None)]
  }

  lemma SecondsRoundDown(t: Time)
    ensures UnixSeconds(t) * 1_000_000 <= t < (UnixSeconds(t) + 1) * 1_000_000
  {}

  /** A minted session belongs to the admin, lives a day from now and is anchored
      now; every other row stays. */
  lemma MintMeans(t: Table, sid: SessionId, uid: UserId, h: TokenHash, now: Time)
    requires sid !in t
    ensures var t' := Mint(t, sid, uid, h, now);
            && t'.Keys == t.Keys + {sid} && (forall s :: s in t ==> t'[s] == t[s])
            && t'[sid].owner == uid && t'[sid].tokenHash == h && t'[sid].revokedAt.None?
            && t'[sid].issuedAt == now && t'[sid].totpIssuedAt == now
            && t'[sid].expiresAt == now + 24 * 60 * 60 * 1_000_000
  {}

  /** What `refresh` answers, field by field, for a token that no session holds
      and for one that session s holds. */
  lemma AnswerMeans(t: Table, h: TokenHash, now: Time, s: SessionId)
    requires UniqueHashes(t)
    ensures RefreshAnswer(t, h, now).UnknownToken? <==> forall r :: r in t ==> t[r].tokenHash != h
    ensures s in t && t[s].tokenHash == h ==>
              var a := RefreshAnswer(t, h, now);
              && (a.Replay? <==> t[s].revokedAt.Some?)
              && (a.Expired? <==> t[s].revokedAt.None? && t[s].expiresAt < now)
              && (a.Rotated? <==> t[s].revokedAt.None? && now <= t[s].expiresAt)
              && (a.Replay? || a.Rotated? ==> a.owner == t[s].owner)
              && (a.Rotated? ==> a.claim * 1_000_000 <= t[s].totpIssuedAt < (a.claim + 1) * 1_000_000)
  {
    if s in t && t[s].tokenHash == h {
      assert Holder(t, h) == Some(s);
      SecondsRoundDown(t[s].totpIssuedAt);
    }
  }

  /** What `refresh` does to the table when session s holds the token. */
  lemma RefreshMeans(t: Table, h: TokenHash, now: Time, newSid: SessionId, newHash: TokenHash, s: SessionId)
    requires UniqueHashes(t) && newSid !in t && s in t && t[s].tokenHash == h
    ensures var t' := RefreshTable(t, h, now, newSid, newHash);
            && (t[s].revokedAt.Some? ==>
                  && t'.Keys == t.Keys
                  && forall r :: r in t ==>
                       t'[r] == if t[r].owner == t[s].owner && t[r].revokedAt.None? then t[r].(revokedAt := Some(now))
                                else t[r])
            && (t[s].revokedAt.None? && t[s].expiresAt < now ==> t' == t)
            && (t[s].revokedAt.None? && now <= t[s].expiresAt ==>
                  && t'.Keys == t.Keys + {newSid}
                  && (forall r :: r in t && r != s ==> t'[r] == t[r])
                  && t'[s] == t[s].(revokedAt := Some(now))
                  && t'[newSid] == Session(t[s].owner, newHash, now, now + 24 * 60 * 60 * 1_000_000,
                                           t[s].totpIssuedAt, None))
  {
    assert Holder(t, h) == Some(s);
  }

  /** `session_freshness`: the anchor of an unrevoked, unexpired session. */
  function Freshness(t: Table, sid: SessionId, now: Time): Option<Time> {
    if Live(t, sid) && t[sid].expiresAt > now then Some(t[sid].totpIssuedAt) else None
  }

  // ----- events ----------------------------------------------------------------

  datatype Event =
    | TotpLogin(uid: UserId, sid: SessionId, hash: TokenHash, at: Time)
    | ReauthOpen(uid: UserId, sid: SessionId, hash: TokenHash, at: Time)
    | ReauthClose(uid: UserId, tmp: SessionId, sid: SessionId, at: Time)
    | RefreshCall(hash: TokenHash, at: Time, newSid: SessionId, newHash: TokenHash)
    | LogoutCall(sid: SessionId, at: Time)

  ghost function Apply(t: Table, e: Event): Table {
    match e
    case TotpLogin(uid, sid, h, at) => Mint(t, sid, uid, h, at)
    case ReauthOpen(uid, sid, h, at) => Mint(t, sid, uid, h, at)
    case ReauthClose(_, tmp, sid, at) => CloseReauth(t, tmp, sid, at)
    case RefreshCall(h, at, newSid, newHash) => RefreshTable(t, h, at, newSid, newHash)
    case LogoutCall(sid, at) => Revoke(t, sid, at)
  }

  /** Ids and token hashes that an event inserts are new to the table. */
  ghost predicate FreshFor(t: Table, e: Event) {
    match e
    case TotpLogin(_, sid, h, _) => sid !in t && Holder(t, h).None?
    case ReauthOpen(_, sid, h, _) => sid !in t && Holder(t, h).None?
    case RefreshCall(_, _, newSid, newHash) => newSid !in t && Holder(t, newHash).None?
    case _ => true
  }

  lemma ApplyKeepsUnique(t: Table, e: Event)
    requires UniqueHashes(t) && FreshFor(t, e)
    ensures UniqueHashes(Apply(t, e))
  {}

  // ----- history ----------------------------------------------------------------

  /** Where a session comes from: the login that started its lineage, the number
      of rotations since, and whether its token ever left the service. */
  datatype Origin = Origin(root: SessionId, generation: nat, owner: UserId, hidden: bool)

  /** The TOTP check a session's anchor rests on. */
  datatype Vouch = Vouch(checkedAt: Time, reauthed: bool)

  datatype Claim = Claim(sid: SessionId, seconds: nat)

  datatype World = World(
    table: Table,
    clock: Time,                              // latest clock value used so far
    ledger: map<SessionId, Origin>,           // every session ever inserted
    holders: map<TokenHash, SessionId>,       // every token hash ever issued
    pending: map<SessionId, (UserId, Time)>,  // re-authentications between their two transactions
    checks: set<(UserId, Time)>,              // successful TOTP checks
    vouch: map<SessionId, Vouch>,
    redeemed: seq<TokenHash>,
    claims: set<Claim>)                       // totp_issued_at claims of issued access tokens

  const EMPTY: World := World(map[], 0, map[], map[], map[], {}, map[], [], {})

  function OriginOf(w: World, s: SessionId): Origin {
    if s in w.ledger then w.ledger[s] else Origin(s, 0, 0, false)
  }

  function Child(o: Origin): Origin {
    o.(generation := o.generation + 1)
  }

  function VouchOf(w: World, s: SessionId): Vouch {
    if s in w.vouch then w.vouch[s] else Vouch(0, false)
  }

  function PendingCheck(w: World, tmp: SessionId): Time {
    if tmp in w.pending then w.pending[tmp].1 else 0
  }

  function Later(a: Time, b: Time): Time {
    if a < b then b else a
  }

  /** What the environment guarantees about an event. Session ids and tokens are
      random; the token of a re-authentication's temporary session is never
      handed out; a re-authentication closes what it opened, for a session of
      the same admin, and reads the clock inside its transaction. */
  ghost predicate Legal(w: World, e: Event) {
    match e
    case TotpLogin(_, sid, h, _) => sid !in w.ledger && h !in w.holders
    case ReauthOpen(_, sid, h, _) => sid !in w.ledger && h !in w.holders
    case ReauthClose(uid, tmp, sid, at) =>
      && tmp in w.pending && w.pending[tmp].0 == uid
      && (sid in w.ledger ==> w.ledger[sid].owner == uid && !w.ledger[sid].hidden)
      && w.clock <= at
    case RefreshCall(h, _, newSid, newHash) =>
      && newSid !in w.ledger && newHash !in w.holders
      && (h in w.holders && w.holders[h] in w.ledger ==> !w.ledger[w.holders[h]].hidden)
    case LogoutCall(sid, _) => sid in w.ledger ==> !w.ledger[sid].hidden
  }

  // A step is made of a few small moves.

  function Tick(w: World, at: Time): World {
    w.(clock := Later(w.clock, at))
  }

  function Succeed(w: World, uid: UserId, at: Time): World {
    w.(checks := w.checks + {(uid, at)})
  }

  /** Inserts a session and records what was issued with it. */
  function Add(w: World, sid: SessionId, r: Session, o: Origin, v: Vouch, claim: nat): World {
    w.(table := w.table[sid := r], ledger := w.ledger[sid := o], holders := w.holders[r.tokenHash := sid],
       vouch := w.vouch[sid := v], claims := w.claims + {Claim(sid, claim)},
       pending := if o.hidden then w.pending[sid := (o.owner, v.checkedAt)] else w.pending)
  }

  function Drop(w: World, tmp: SessionId): World {
    w.(table := w.table - {tmp}, pending := w.pending - {tmp})
  }

  function SetAnchor(w: World, sid: SessionId, ts: Time, checkedAt: Time): World {
    if Live(w.table, sid)
    then w.(table := Anchor(w.table, sid, ts), vouch := w.vouch[sid := Vouch(checkedAt, true)])
    else w
  }

  function Retire(w: World, t: Table): World {
    w.(table := t)
  }

  function Spend(w: World, h: TokenHash): World {
    w.(redeemed := w.redeemed + [h])
  }

  function NewSession(uid: UserId, h: TokenHash, now: Time, anchor: Time): Session {
    Session(uid, h, now, now + REFRESH_TTL, anchor, None)
  }

  ghost function Rotate(w: World, s: SessionId, at: Time, newSid: SessionId, newHash: TokenHash): World
    requires s in w.table
  {
    var r := w.table[s];
    Add(Spend(Retire(w, Revoke(w.table, s, at)), r.tokenHash), newSid,
        NewSession(r.owner, newHash, at, r.totpIssuedAt), Child(OriginOf(w, s)), VouchOf(w, s),
        UnixSeconds(r.totpIssuedAt))
  }

  ghost function Step(w: World, e: Event): World {
    match e
    case TotpLogin(uid, sid, h, at) =>
      Add(Succeed(Tick(w, at), uid, at), sid, NewSession(uid, h, at, at),
          Origin(sid, 0, uid, false), Vouch(at, false), UnixSeconds(at))
    case ReauthOpen(uid, sid, h, at) =>
      Add(Succeed(Tick(w, at), uid, at), sid, NewSession(uid, h, at, at),
          Origin(sid, 0, uid, true), Vouch(at, false), UnixSeconds(at))
    case ReauthClose(_, tmp, sid, at) =>
      SetAnchor(Drop(Tick(w, at), tmp), sid, at, PendingCheck(w, tmp))
    case RefreshCall(h, at, newSid, newHash) =>
      (match RefreshAnswer(w.table, h, at)
       case UnknownToken => Tick(w, at)
       case Replay(owner) => Retire(Tick(w, at), RevokeAll(w.table, owner, at))
       case Expired => Tick(w, at)
       case Rotated(_, _) => Rotate(Tick(w, at), Holder(w.table, h).value, at, newSid, newHash))
    case LogoutCall(sid, at) =>
      Retire(Tick(w, at), Revoke(w.table, sid, at))
  }

  /** The history only watches: the table evolves by the transactions alone. */
  lemma StepAppliesTransaction(w: World, e: Event)
    ensures Step(w, e).table == Apply(w.table, e)
  {
    match e
    case TotpLogin(_, _, _, _) =>
    case ReauthOpen(_, _, _, _) =>
    case ReauthClose(_, _, _, _) =>
    case RefreshCall(_, _, _, _) =>
    case LogoutCall(_, _) =>
  }

  /** The TOTP time that a login or a refresh answers with is the one recorded as
      claimed for the session it makes. */
  lemma AnswersAreClaims(w: World, e: Event)
    ensures e.TotpLogin? ==> Claim(e.sid, UnixSeconds(e.at)) in Step(w, e).claims
    ensures e.RefreshCall? && RefreshAnswer(w.table, e.hash, e.at).Rotated? ==>
              Claim(e.newSid, RefreshAnswer(w.table, e.hash, e.at).claim) in Step(w, e).claims
  {}

  ghost function Run(w: World, es: seq<Event>): World
    decreases |es|
  {
    if es == [] then w else Run(Step(w, es[0]), es[1..])
  }

  ghost predicate LegalRun(w: World, es: seq<Event>)
    decreases |es|
  {
    es == [] || (Legal(w, es[0]) && LegalRun(Step(w, es[0]), es[1..]))
  }

  // ----- the invariant ------------------------------------------------------------

  type Ledger = map<SessionId, Origin>
  type Pendings = map<SessionId, (UserId, Time)>

  /** Every row has its history: origin, owner, token and TOTP check. */
  ghost predicate Rows(t: Table, ledger: Ledger, holders: map<TokenHash, SessionId>, vouch: map<SessionId, Vouch>) {
    forall s :: s in t ==>
      && s in ledger && s in vouch && ledger[s].owner == t[s].owner
      && t[s].tokenHash in holders && holders[t[s].tokenHash] == s
  }

  /** A lineage has one root, one owner and one visibility. */
  ghost predicate Roots(ledger: Ledger) {
    forall s :: s in ledger ==>
      && ledger[s].root in ledger
      && ledger[ledger[s].root].root == ledger[s].root
      && ledger[ledger[s].root].owner == ledger[s].owner
      && ledger[ledger[s].root].hidden == ledger[s].hidden
  }

  ghost predicate Known(ledger: Ledger, holders: map<TokenHash, SessionId>, claims: set<Claim>, pending: Pendings) {
    && (forall h :: h in holders ==> holders[h] in ledger)
    && (forall c :: c in claims ==> c.sid in ledger)
    && (forall s :: s in pending ==> s in ledger)
  }

  /** Within a lineage the unrevoked session is the youngest, and anchors do not
      decrease from older to younger sessions. */
  ghost predicate Ordered(t: Table, ledger: Ledger) {
    forall a, b :: a in t && b in t && a != b ==> InOrder(t, ledger, a, b)
  }

  ghost predicate InOrder(t: Table, ledger: Ledger, a: SessionId, b: SessionId)
    requires a in t && b in t
  {
    a in ledger && b in ledger && ledger[a].root == ledger[b].root ==>
      && ledger[a].generation != ledger[b].generation
      && (Live(t, a) ==> ledger[b].generation < ledger[a].generation)
      && (ledger[a].generation < ledger[b].generation ==> t[a].totpIssuedAt <= t[b].totpIssuedAt)
  }

  ghost predicate Timed(t: Table, clock: Time) {
    forall s :: s in t ==>
      t[s].totpIssuedAt <= clock && t[s].expiresAt == t[s].issuedAt + REFRESH_TTL
  }

  /** A redeemed token's row stays, revoked, and no token is redeemed twice. */
  ghost predicate Spent(redeemed: seq<TokenHash>, holders: map<TokenHash, SessionId>, t: Table, ledger: Ledger) {
    && (forall h :: h in redeemed ==>
          && h in holders && holders[h] in t && !Live(t, holders[h]) && t[holders[h]].tokenHash == h
          && holders[h] in ledger && !ledger[holders[h]].hidden)
    && (forall i, j :: 0 <= i < j < |redeemed| ==> redeemed[i] != redeemed[j])
  }

  /** Every anchor rests on a TOTP check of the session's owner. */
  ghost predicate Vouched(t: Table, vouch: map<SessionId, Vouch>, checks: set<(UserId, Time)>) {
    forall s :: s in t && s in vouch ==>
      && (t[s].owner, vouch[s].checkedAt) in checks
      && vouch[s].checkedAt <= t[s].totpIssuedAt
      && (!vouch[s].reauthed ==> vouch[s].checkedAt == t[s].totpIssuedAt)
  }

  ghost predicate Waiting(pending: Pendings, checks: set<(UserId, Time)>, clock: Time) {
    forall s :: s in pending ==> pending[s] in checks && pending[s].1 <= clock
  }

  ghost predicate ClaimsBounded(claims: set<Claim>, t: Table) {
    forall c :: c in claims && c.sid in t ==> c.seconds <= UnixSeconds(t[c.sid].totpIssuedAt)
  }

  /** A lineage whose token never left the service is a single session that is
      gone once its re-authentication is closed. */
  ghost predicate HiddenOnlyPending(ledger: Ledger, t: Table, pending: Pendings) {
    && (forall s :: s in ledger && ledger[s].hidden ==> ledger[s].root == s)
    && (forall s :: s in t && s in ledger && ledger[s].hidden ==> s in pending)
    && (forall s :: s in pending && s in ledger ==> ledger[s].hidden && ledger[s].owner == pending[s].0)
  }

  ghost predicate Inv(w: World) {
    && UniqueHashes(w.table)
    && Rows(w.table, w.ledger, w.holders, w.vouch)
    && Roots(w.ledger)
    && Known(w.ledger, w.holders, w.claims, w.pending)
    && Ordered(w.table, w.ledger)
    && Timed(w.table, w.clock)
    && Spent(w.redeemed, w.holders, w.table, w.ledger)
    && Vouched(w.table, w.vouch, w.checks)
    && Waiting(w.pending, w.checks, w.clock)
    && ClaimsBounded(w.claims, w.table)
    && HiddenOnlyPending(w.ledger, w.table, w.pending)
  }

  // ----- moves keep the invariant -----------------------------------------------------

  lemma TickKeeps(w: World, at: Time)
    requires Inv(w)
    ensures Inv(Tick(w, at))
  {}

  lemma SucceedKeeps(w: World, uid: UserId, at: Time)
    requires Inv(w)
    ensures Inv(Succeed(w, uid, at))
  {}

  ghost predicate CanAdd(w: World, sid: SessionId, r: Session, o: Origin, v: Vouch, claim: nat) {
    && sid !in w.ledger && r.tokenHash !in w.holders
    && r.owner == o.owner && r.revokedAt.None?
    && r.totpIssuedAt <= w.clock && r.expiresAt == r.issuedAt + REFRESH_TTL
    && (r.owner, v.checkedAt) in w.checks && v.checkedAt <= r.totpIssuedAt
    && (!v.reauthed ==> v.checkedAt == r.totpIssuedAt)
    && claim <= UnixSeconds(r.totpIssuedAt)
    && (o.root == sid || JoinsLineage(w, r, o))
  }

  /** The lineage that a rotated session joins: revoked, older, not fresher. */
  ghost predicate JoinsLineage(w: World, r: Session, o: Origin) {
    && !o.hidden && o.root in w.ledger && w.ledger[o.root].root == o.root
    && w.ledger[o.root].owner == o.owner && !w.ledger[o.root].hidden
    && forall s :: s in w.table && OriginOf(w, s).root == o.root ==>
         !Live(w.table, s) && OriginOf(w, s).generation < o.generation && w.table[s].totpIssuedAt <= r.totpIssuedAt
  }

  lemma AddKeepsRecords(w: World, sid: SessionId, r: Session, o: Origin, v: Vouch, claim: nat)
    requires Rows(w.table, w.ledger, w.holders, w.vouch) && CanAdd(w, sid, r, o, v, claim)
    requires Known(w.ledger, w.holders, w.claims, w.pending) && UniqueHashes(w.table)
    ensures var w' := Add(w, sid, r, o, v, claim);
            && Rows(w'.table, w'.ledger, w'.holders, w'.vouch)
            && Known(w'.ledger, w'.holders, w'.claims, w'.pending)
            && UniqueHashes(w'.table)
  {}

  lemma AddKeepsRoots(w: World, sid: SessionId, r: Session, o: Origin, v: Vouch, claim: nat)
    requires Roots(w.ledger) && CanAdd(w, sid, r, o, v, claim)
    ensures Roots(w.ledger[sid := o])
  {}

  lemma AddKeepsLineage(w: World, sid: SessionId, r: Session, o: Origin, v: Vouch, claim: nat)
    requires Rows(w.table, w.ledger, w.holders, w.vouch) && CanAdd(w, sid, r, o, v, claim)
    requires Roots(w.ledger) && Ordered(w.table, w.ledger)
    ensures var w' := Add(w, sid, r, o, v, claim); Ordered(w'.table, w'.ledger)
  {
    var w' := Add(w, sid, r, o, v, claim);
    forall a, b | a in w'.table && b in w'.table && a != b
      ensures InOrder(w'.table, w'.ledger, a, b)
    {
      if a != sid && b != sid {
        assert InOrder(w.table, w.ledger, a, b);
      }
    }
  }

  lemma AddKeepsTimes(w: World, sid: SessionId, r: Session, o: Origin, v: Vouch, claim: nat)
    requires CanAdd(w, sid, r, o, v, claim)
    requires Timed(w.table, w.clock) && Waiting(w.pending, w.checks, w.clock)
    ensures var w' := Add(w, sid, r, o, v, claim);
            Timed(w'.table, w'.clock) && Waiting(w'.pending, w'.checks, w'.clock)
  {}

  lemma AddKeepsVouched(w: World, sid: SessionId, r: Session, o: Origin, v: Vouch, claim: nat)
    requires CanAdd(w, sid, r, o, v, claim) && Known(w.ledger, w.holders, w.claims, w.pending)
    requires Vouched(w.table, w.vouch, w.checks) && ClaimsBounded(w.claims, w.table)
    ensures var w' := Add(w, sid, r, o, v, claim);
            Vouched(w'.table, w'.vouch, w'.checks) && ClaimsBounded(w'.claims, w'.table)
  {}

  lemma AddKeepsTokens(w: World, sid: SessionId, r: Session, o: Origin, v: Vouch, claim: nat)
    requires Rows(w.table, w.ledger, w.holders, w.vouch) && CanAdd(w, sid, r, o, v, claim)
    requires Known(w.ledger, w.holders, w.claims, w.pending)
    requires Spent(w.redeemed, w.holders, w.table, w.ledger) && HiddenOnlyPending(w.ledger, w.table, w.pending)
    ensures var w' := Add(w, sid, r, o, v, claim);
            && Spent(w'.redeemed, w'.holders, w'.table, w'.ledger)
            && HiddenOnlyPending(w'.ledger, w'.table, w'.pending)
  {}

  lemma AddKeeps(w: World, sid: SessionId, r: Session, o: Origin, v: Vouch, claim: nat)
    requires Inv(w) && CanAdd(w, sid, r, o, v, claim)
    ensures Inv(Add(w, sid, r, o, v, claim))
  {
    AddKeepsRecords(w, sid, r, o, v, claim);
    AddKeepsRoots(w, sid, r, o, v, claim);
    AddKeepsLineage(w, sid, r, o, v, claim);
    AddKeepsTimes(w, sid, r, o, v, claim);
    AddKeepsVouched(w, sid, r, o, v, claim);
    AddKeepsTokens(w, sid, r, o, v, claim);
  }

  /** Only revocations of unrevoked rows separate the two tables. */
  ghost predicate Retired(t: Table, t': Table) {
    t'.Keys == t.Keys && forall s :: s in t ==> RowRetired(t[s], t'[s])
  }

  predicate RowRetired(r: Session, r': Session) {
    r' == r || (r.revokedAt.None? && r' == r.(revokedAt := r'.revokedAt))
  }

  lemma RetireKeepsOrder(t: Table, t': Table, ledger: Ledger)
    requires Retired(t, t') && Ordered(t, ledger)
    ensures Ordered(t', ledger)
  {
    forall a, b | a in t' && b in t' && a != b
      ensures InOrder(t', ledger, a, b)
    {
      assert InOrder(t, ledger, a, b);
      assert RowRetired(t[a], t'[a]) && RowRetired(t[b], t'[b]);
    }
  }

  lemma RetireKeepsRows(t: Table, t': Table, ledger: Ledger, holders: map<TokenHash, SessionId>,
                        vouch: map<SessionId, Vouch>, clock: Time)
    requires Retired(t, t') && UniqueHashes(t) && Rows(t, ledger, holders, vouch) && Timed(t, clock)
    ensures UniqueHashes(t') && Rows(t', ledger, holders, vouch) && Timed(t', clock)
  {
    assert forall s :: s in t ==> RowRetired(t[s], t'[s]);
  }

  lemma RetireKeepsTokens(t: Table, t': Table, redeemed: seq<TokenHash>, holders: map<TokenHash, SessionId>,
                          ledger: Ledger)
    requires Retired(t, t') && Spent(redeemed, holders, t, ledger)
    ensures Spent(redeemed, holders, t', ledger)
  {
    assert forall s :: s in t ==> RowRetired(t[s], t'[s]);
  }

  lemma RetireKeepsVouched(t: Table, t': Table, vouch: map<SessionId, Vouch>, checks: set<(UserId, Time)>,
                           claims: set<Claim>)
    requires Retired(t, t') && Vouched(t, vouch, checks) && ClaimsBounded(claims, t)
    ensures Vouched(t', vouch, checks) && ClaimsBounded(claims, t')
  {
    assert forall s :: s in t ==> RowRetired(t[s], t'[s]);
  }

  lemma RetireKeeps(w: World, t: Table)
    requires Inv(w) && Retired(w.table, t)
    ensures Inv(Retire(w, t))
  {
    RetireKeepsOrder(w.table, t, w.ledger);
    RetireKeepsRows(w.table, t, w.ledger, w.holders, w.vouch, w.clock);
    RetireKeepsTokens(w.table, t, w.redeemed, w.holders, w.ledger);
    RetireKeepsVouched(w.table, t, w.vouch, w.checks, w.claims);
  }

  lemma DropKeeps(w: World, tmp: SessionId)
    requires Inv(w) && tmp in w.pending
    ensures Inv(Drop(w, tmp))
  {
    forall a, b | a in w.table - {tmp} && b in w.table - {tmp} && a != b
      ensures InOrder(w.table - {tmp}, w.ledger, a, b)
    {
      assert InOrder(w.table, w.ledger, a, b);
    }
  }

  lemma AnchorKeepsOrder(t: Table, sid: SessionId, ts: Time, ledger: Ledger)
    requires Ordered(t, ledger) && Timed(t, ts)
    ensures Ordered(Anchor(t, sid, ts), ledger)
  {
    var t' := Anchor(t, sid, ts);
    forall a, b | a in t' && b in t' && a != b
      ensures InOrder(t', ledger, a, b)
    {
      assert InOrder(t, ledger, a, b) && InOrder(t, ledger, b, a);
    }
  }

  lemma SecondsMonotone(a: Time, b: Time)
    requires a <= b
    ensures UnixSeconds(a) <= UnixSeconds(b)
  {}

  lemma AnchorKeepsRows(t: Table, sid: SessionId, ts: Time, ledger: Ledger, holders: map<TokenHash, SessionId>,
                        vouch: map<SessionId, Vouch>, vouch': map<SessionId, Vouch>)
    requires UniqueHashes(t) && Rows(t, ledger, holders, vouch) && Timed(t, ts) && vouch.Keys <= vouch'.Keys
    ensures var t' := Anchor(t, sid, ts);
            UniqueHashes(t') && Rows(t', ledger, holders, vouch') && Timed(t', ts)
  {
    assert forall s :: s in vouch ==> s in vouch';
  }

  lemma AnchorKeepsTokens(t: Table, sid: SessionId, ts: Time, ledger: Ledger, holders: map<TokenHash, SessionId>,
                          redeemed: seq<TokenHash>, pending: Pendings)
    requires Spent(redeemed, holders, t, ledger) && HiddenOnlyPending(ledger, t, pending)
    ensures var t' := Anchor(t, sid, ts);
            Spent(redeemed, holders, t', ledger) && HiddenOnlyPending(ledger, t', pending)
  {}

  lemma AnchorKeepsVouched(t: Table, sid: SessionId, ts: Time, checkedAt: Time,
                           vouch: map<SessionId, Vouch>, checks: set<(UserId, Time)>, claims: set<Claim>)
    requires Vouched(t, vouch, checks) && ClaimsBounded(claims, t) && Timed(t, ts)
    requires Live(t, sid) && (t[sid].owner, checkedAt) in checks && checkedAt <= ts
    ensures var t' := Anchor(t, sid, ts);
            Vouched(t', vouch[sid := Vouch(checkedAt, true)], checks) && ClaimsBounded(claims, t')
  {
    SecondsMonotone(t[sid].totpIssuedAt, ts);
  }

  lemma SetAnchorKeeps(w: World, sid: SessionId, ts: Time, checkedAt: Time)
    requires Inv(w) && w.clock == ts && checkedAt <= ts
    requires Live(w.table, sid) ==> (w.table[sid].owner, checkedAt) in w.checks
    ensures Inv(SetAnchor(w, sid, ts, checkedAt))
  {
    if Live(w.table, sid) {
      var vouch' := w.vouch[sid := Vouch(checkedAt, true)];
      AnchorKeepsOrder(w.table, sid, ts, w.ledger);
      AnchorKeepsRows(w.table, sid, ts, w.ledger, w.holders, w.vouch, vouch');
      AnchorKeepsTokens(w.table, sid, ts, w.ledger, w.holders, w.redeemed, w.pending);
      AnchorKeepsVouched(w.table, sid, ts, checkedAt, w.vouch, w.checks, w.claims);
    }
  }

  lemma SpendKeeps(w: World, h: TokenHash)
    requires Inv(w) && h in w.holders && h !in w.redeemed
    requires w.holders[h] in w.table && !Live(w.table, w.holders[h]) && !w.ledger[w.holders[h]].hidden
    requires w.table[w.holders[h]].tokenHash == h
    ensures Inv(Spend(w, h))
  {}

  // ----- steps and runs ---------------------------------------------------------------

  lemma RevokeRetires(t: Table, sid: SessionId, ts: Time)
    ensures Retired(t, Revoke(t, sid, ts))
  {}

  lemma RevokeAllRetires(t: Table, uid: UserId, ts: Time)
    ensures Retired(t, RevokeAll(t, uid, ts))
  {}

  /** The lineage of a live session can take its successor once it is revoked. */
  lemma SuccessorJoins(w: World, s: SessionId, at: Time, t: Table, r: Session)
    requires Ordered(w.table, w.ledger) && Roots(w.ledger) && s in w.ledger
    requires Live(w.table, s) && !w.ledger[s].hidden && t == Revoke(w.table, s, at)
    requires r.totpIssuedAt == w.table[s].totpIssuedAt
    ensures JoinsLineage(Retire(w, t), r, Child(w.ledger[s]))
  {
    var o := Child(w.ledger[s]);
    forall b | b in t && OriginOf(w, b).root == o.root
      ensures !Live(t, b) && OriginOf(w, b).generation < o.generation && t[b].totpIssuedAt <= r.totpIssuedAt
    {
      if b != s {
        assert InOrder(w.table, w.ledger, s, b) && InOrder(w.table, w.ledger, b, s);
      }
    }
  }

  lemma RotateKeeps(w: World, s: SessionId, at: Time, newSid: SessionId, newHash: TokenHash)
    requires Inv(w) && Live(w.table, s) && !w.ledger[s].hidden
    requires newSid !in w.ledger && newHash !in w.holders
    ensures Inv(Rotate(w, s, at, newSid, newHash))
  {
    var r := w.table[s];
    var w1 := Retire(w, Revoke(w.table, s, at));
    RevokeRetires(w.table, s, at);
    RetireKeeps(w, w1.table);
    var w2 := Spend(w1, r.tokenHash);
    SpendKeeps(w1, r.tokenHash);
    var row := NewSession(r.owner, newHash, at, r.totpIssuedAt);
    SuccessorJoins(w, s, at, w1.table, row);
    AddKeeps(w2, newSid, row, Child(OriginOf(w, s)), VouchOf(w, s), UnixSeconds(r.totpIssuedAt));
  }

  lemma StepKeepsInv(w: World, e: Event)
    requires Inv(w) && Legal(w, e)
    ensures Inv(Step(w, e))
  {
    var w1 := Tick(w, e.at);
    TickKeeps(w, e.at);
    match e
    case TotpLogin(uid, sid, h, at) =>
      SucceedKeeps(w1, uid, at);
      AddKeeps(Succeed(w1, uid, at), sid, NewSession(uid, h, at, at), Origin(sid, 0, uid, false), Vouch(at, false),
               UnixSeconds(at));
    case ReauthOpen(uid, sid, h, at) =>
      SucceedKeeps(w1, uid, at);
      AddKeeps(Succeed(w1, uid, at), sid, NewSession(uid, h, at, at), Origin(sid, 0, uid, true), Vouch(at, false),
               UnixSeconds(at));
    case ReauthClose(uid, tmp, sid, at) =>
      DropKeeps(w1, tmp);
      SetAnchorKeeps(Drop(w1, tmp), sid, at, PendingCheck(w, tmp));
    case RefreshCall(h, at, newSid, newHash) =>
      RefreshKeepsInv(w, h, at, newSid, newHash);
    case LogoutCall(sid, at) =>
      RevokeRetires(w.table, sid, at);
      RetireKeeps(w1, Revoke(w.table, sid, at));
  }

  lemma RefreshKeepsInv(w: World, h: TokenHash, at: Time, newSid: SessionId, newHash: TokenHash)
    requires Inv(w) && Legal(w, RefreshCall(h, at, newSid, newHash))
    ensures Inv(Step(w, RefreshCall(h, at, newSid, newHash)))
  {
    var w1 := Tick(w, at);
    TickKeeps(w, at);
    match RefreshAnswer(w.table, h, at)
    case UnknownToken =>
    case Expired =>
    case Replay(owner) =>
      RevokeAllRetires(w.table, owner, at);
      RetireKeeps(w1, RevokeAll(w.table, owner, at));
    case Rotated(_, _) =>
      RotateKeeps(w1, Holder(w.table, h).value, at, newSid, newHash);
  }

  /** The invariant holds in every reachable state. */
  lemma {:induction false} RunKeepsInv(w: World, es: seq<Event>)
    requires Inv(w) && LegalRun(w, es)
    ensures Inv(Run(w, es))
    decreases |es|
  {
    if es == [] {
    } else {
      StepKeepsInv(w, es[0]);
      RunKeepsInv(Step(w, es[0]), es[1..]);
    }
  }
}

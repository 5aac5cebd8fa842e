/** E-mail verification and account deletion tokens of engramia/api/cloud_auth.py.
    Every transaction is one atomic step. */
module SingleUseTokens {
  import opened Options

  type Hash = string
  type UserId = string
  type Time = int   // microseconds

  const TOKEN_TTL: int := 24 * 3600 * 1_000_000

  datatype TokenRow = TokenRow(user: UserId, expiresAt: Time, consumedAt: Option<Time>)
  type Tokens = map<Hash, TokenRow>

  datatype User = User(verified: bool, deletedAt: Option<Time>)

  /** Consumes the user's earlier tokens, then inserts the new one. */
  function Issue(t: Tokens, u: UserId, h: Hash, now: Time): Tokens {
    (map x | x in t :: if t[x].user == u && t[x].consumedAt.None? then t[x].(consumedAt := Some(now)) else t[x])
    [h := TokenRow(u, now + TOKEN_TTL, None)]
  }

  function Consume(t: Tokens, h: Hash, now: Time): Tokens
    requires h in t
  {
    t[h := t[h].(consumedAt := Some(now))]
  }

  /** Present, not consumed and not past its expiry. */
  predicate Redeemable(t: Tokens, h: Hash, now: Time) {
    h in t && t[h].consumedAt.None? && now <= t[h].expiresAt
  }

  predicate OpenFor(row: TokenRow, u: UserId, now: Time) {
    row.user == u && row.consumedAt.None? && row.expiresAt > now
  }

  /** The user has a token that is neither consumed nor, strictly, expired. */
  predicate Pending(t: Tokens, u: UserId, now: Time) {
    exists h :: h in t && OpenFor(t[h], u, now)
  }

  // ----- the endpoints -----------------------------------------------------------------

  datatype Verification = Verified | AlreadyVerified | UnknownLink | UsedLink | ExpiredLink

  datatype Deletion = Cascade(user: UserId) | InvalidToken | AlreadyDeleted | UsedToken | ExpiredToken

  class CloudAccounts {
    var users: map<UserId, User>
    var verification: Tokens
    var deletion: Tokens

    constructor (users: map<UserId, User>)
      ensures this.users == users && verification == map[] && deletion == map[]
    {
      this.users, verification, deletion := users, map[], map[];
    }

    /** Leaves u with one redeemable token, h, for TOKEN_TTL; the tokens of others
        are as they were. */
    method CreateVerificationToken(u: UserId, h: Hash, now: Time)
      requires h !in verification
      modifies `verification
      ensures verification == Issue(old(verification), u, h, now)
      ensures verification.Keys == old(verification).Keys + {h}
      ensures verification[h] == TokenRow(u, now + 24 * 60 * 60 * 1_000_000, None)
      ensures forall x :: x in old(verification) && old(verification)[x].user == u ==>
                verification[x] == if old(verification)[x].consumedAt.Some? then old(verification)[x]
                          else old(verification)[x].(consumedAt := Some(now))
      ensures forall x, at :: x in verification && verification[x].user == u ==>
                (Redeemable(verification, x, at) <==> x == h && at <= now + TOKEN_TTL)
      ensures forall x :: x in old(verification) && old(verification)[x].user != u ==>
                verification[x] == old(verification)[x]
    {
      verification := map x | x in verification ::
        if verification[x].user == u && verification[x].consumedAt.None?
        then verification[x].(consumedAt := Some(now)) else verification[x];
      verification := verification[h := TokenRow(u, now + TOKEN_TTL, None)];
    }

    method CreateDeletionToken(u: UserId, h: Hash, now: Time)
      requires h !in deletion
      modifies `deletion
      ensures deletion == Issue(old(deletion), u, h, now)
      ensures deletion.Keys == old(deletion).Keys + {h}
      ensures deletion[h] == TokenRow(u, now + 24 * 60 * 60 * 1_000_000, None)
      ensures forall x :: x in old(deletion) && old(deletion)[x].user == u ==>
                deletion[x] == if old(deletion)[x].consumedAt.Some? then old(deletion)[x]
                          else old(deletion)[x].(consumedAt := Some(now))
      ensures forall x, at :: x in deletion && deletion[x].user == u ==>
                (Redeemable(deletion, x, at) <==> x == h && at <= now + TOKEN_TTL)
      ensures forall x :: x in old(deletion) && old(deletion)[x].user != u ==> deletion[x] == old(deletion)[x]
    {
      deletion := map x | x in deletion ::
        if deletion[x].user == u && deletion[x].consumedAt.None?
        then deletion[x].(consumedAt := Some(now)) else deletion[x];
      deletion := deletion[h := TokenRow(u, now + TOKEN_TTL, None)];
    }

    /** A further request is turned away as long as some token of the user can still
        be redeemed at a later time. */
    method HasPendingDeletion(u: UserId, now: Time) returns (pending: bool)
      ensures pending <==> Pending(deletion, u, now)
      ensures pending <==> exists h, t :: now < t && Redeemable(deletion, h, t) && deletion[h].user == u
    {
      pending := exists h :: h in deletion && OpenFor(deletion[h], u, now);
      if pending {
        var h :| h in deletion && OpenFor(deletion[h], u, now);
        assert Redeemable(deletion, h, deletion[h].expiresAt);
      }
    }

    /** Redeems a verification link; a repeated click by a verified user is a
        success that changes nothing. */
    method Verify(h: Hash, now: Time) returns (r: Verification)
      modifies this
      ensures r == Verified <==>
                h in old(verification) && old(verification)[h].user in old(users)
                && Redeemable(old(verification), h, now)
      ensures r == AlreadyVerified <==>
                h in old(verification) && old(verification)[h].user in old(users)
                && old(users)[old(verification)[h].user].verified && old(verification)[h].consumedAt.Some?
      ensures r == Verified ==> old(verification)[h].consumedAt.None? && now <= old(verification)[h].expiresAt
      ensures r == UsedLink <==>
                h in old(verification) && old(verification)[h].user in old(users)
                && !old(users)[old(verification)[h].user].verified && old(verification)[h].consumedAt.Some?
      ensures r == ExpiredLink <==>
                h in old(verification) && old(verification)[h].user in old(users)
                && old(verification)[h].consumedAt.None? && old(verification)[h].expiresAt < now
      ensures r == UnknownLink <==> h !in old(verification) || old(verification)[h].user !in old(users)
      ensures verification == if r == Verified then Consume(old(verification), h, now) else old(verification)
      ensures r == Verified ==> verification[h] == old(verification)[h].(consumedAt := Some(now))
                                && forall x :: x in verification && x != h ==> verification[x] == old(verification)[x]
      ensures users == if r == Verified
                       then var u := old(verification)[h].user; old(users)[u := old(users)[u].(verified := true)]
                       else old(users)
      ensures deletion == old(deletion)
    {
      if h !in verification || verification[h].user !in users {
        return UnknownLink;
      }
      var row := verification[h];
      if users[row.user].verified && row.consumedAt.Some? {
        return AlreadyVerified;
      }
      if row.consumedAt.Some? {
        return UsedLink;
      }
      if row.expiresAt < now {
        return ExpiredLink;
      }
      verification := verification[h := row.(consumedAt := Some(now))];
      users := users[row.user := users[row.user].(verified := true)];
      return Verified;
    }

    /** First phase of the deletion: the cascade is entered only for a redeemable
        token of a user that still exists, and the token is consumed first. */
    method RedeemDeletion(token: string, h: Hash, now: Time) returns (r: Deletion)
      modifies `deletion
      ensures r.Cascade? <==>
                (16 <= |token| <= 128 && h in old(deletion) && old(deletion)[h].user in users
                 && users[old(deletion)[h].user].deletedAt.None? && Redeemable(old(deletion), h, now))
      ensures r.Cascade? ==> r.user == old(deletion)[h].user
      ensures r.Cascade? ==> old(deletion)[h].consumedAt.None? && now <= old(deletion)[h].expiresAt
                             && h in deletion && deletion[h] == old(deletion)[h].(consumedAt := Some(now))
      ensures r == InvalidToken <==>
                !(16 <= |token| <= 128) || h !in old(deletion) || old(deletion)[h].user !in users
      ensures r == UsedToken <==>
                (16 <= |token| <= 128 && h in old(deletion) && old(deletion)[h].user in users
                 && users[old(deletion)[h].user].deletedAt.None? && old(deletion)[h].consumedAt.Some?)
      ensures r == ExpiredToken <==>
                (16 <= |token| <= 128 && h in old(deletion) && old(deletion)[h].user in users
                 && users[old(deletion)[h].user].deletedAt.None? && old(deletion)[h].consumedAt.None?
                 && old(deletion)[h].expiresAt < now)
      ensures deletion == if r.Cascade? then Consume(old(deletion), h, now) else old(deletion)
      ensures r == AlreadyDeleted <==>
                (16 <= |token| <= 128 && h in old(deletion) && old(deletion)[h].user in users
                 && users[old(deletion)[h].user].deletedAt.Some?)
    {
      if |token| < 16 || |token| > 128 || h !in deletion || deletion[h].user !in users {
        return InvalidToken;
      }
      var row := deletion[h];
      if users[row.user].deletedAt.Some? {
        return AlreadyDeleted;
      }
      if row.consumedAt.Some? {
        return UsedToken;
      }
      if row.expiresAt < now {
        return ExpiredToken;
      }
      deletion := deletion[h := row.(consumedAt := Some(now))];
      return Cascade(row.user);
    }
  }

  // ----- runs over one token table --------------------------------------------------------

  /** `admitted` is what the endpoint checks about the user besides the token. */
  datatype Event =
    | IssueStep(user: UserId, hash: Hash, at: Time)
    | RedeemStep(hash: Hash, admitted: bool, at: Time)

  /** `latest` remembers the token last issued to each user. */
  datatype World = World(tokens: Tokens, latest: map<UserId, Hash>, redeemed: seq<Hash>)

  predicate Redeems(w: World, e: Event) {
    e.RedeemStep? && e.admitted && Redeemable(w.tokens, e.hash, e.at)
  }

  predicate Legal(w: World, e: Event) {
    e.IssueStep? ==> e.hash !in w.tokens
  }

  function Step(w: World, e: Event): World {
    match e
    case IssueStep(u, h, at) => World(Issue(w.tokens, u, h, at), w.latest[u := h], w.redeemed)
    case RedeemStep(h, _, at) =>
      if Redeems(w, e) then World(Consume(w.tokens, h, at), w.latest, w.redeemed + [h]) else w
  }

  predicate LegalRun(w: World, es: seq<Event>)
    decreases |es|
  {
    es == [] || (Legal(w, es[0]) && LegalRun(Step(w, es[0]), es[1..]))
  }

  function Run(w: World, es: seq<Event>): World
    decreases |es|
  {
    if es == [] then w else Run(Step(w, es[0]), es[1..])
  }

  const EMPTY: World := World(map[], map[], [])

  /** An unconsumed token is the last one its user was issued; a redeemed token
      is consumed, and none was redeemed twice. */
  ghost predicate Inv(w: World) {
    && (forall h :: h in w.tokens && w.tokens[h].consumedAt.None? ==>
          w.tokens[h].user in w.latest && w.latest[w.tokens[h].user] == h)
    && (forall u :: u in w.latest ==> w.latest[u] in w.tokens && w.tokens[w.latest[u]].user == u)
    && (forall h :: h in w.redeemed ==> h in w.tokens && w.tokens[h].consumedAt.Some?)
    && (forall i, j :: 0 <= i < j < |w.redeemed| ==> w.redeemed[i] != w.redeemed[j])
  }

  lemma StepKeepsInv(w: World, e: Event)
    requires Inv(w) && Legal(w, e)
    ensures Inv(Step(w, e))
  {}

  lemma {:induction false} RunKeepsInv(w: World, es: seq<Event>)
    requires Inv(w) && LegalRun(w, es)
    ensures Inv(Run(w, es))
    decreases |es|
  {
    if es == [] {
    } else {
      StepKeepsInv(w, es[0]);
      RunKeepsInv(Step(w, es[0]), es[1..]);
    }
  }

  /** In every reachable state a user has at most one unconsumed token. */
  lemma OneOpenToken(es: seq<Event>, g: Hash, h: Hash)
    requires LegalRun(EMPTY, es)
    requires var t := Run(EMPTY, es).tokens;
             g in t && h in t && t[g].user == t[h].user && t[g].consumedAt.None? && t[h].consumedAt.None?
    ensures g == h
  {
    RunKeepsInv(EMPTY, es);
  }

  /** In every reachable state a deletion is pending exactly when the token last
      issued to the user can be redeemed, its last instant excepted: at its very
      expiry a token still redeems but no longer counts as pending. */
  lemma PendingIsLatest(es: seq<Event>, u: UserId, now: Time)
    requires LegalRun(EMPTY, es)
    ensures var w := Run(EMPTY, es);
            && (u in w.latest ==> w.latest[u] in w.tokens)
            && (Pending(w.tokens, u, now) <==>
                u in w.latest && Redeemable(w.tokens, w.latest[u], now) && w.tokens[w.latest[u]].expiresAt != now)
  {
    RunKeepsInv(EMPTY, es);
    var w := Run(EMPTY, es);
    if u in w.latest && Redeemable(w.tokens, w.latest[u], now) && w.tokens[w.latest[u]].expiresAt != now {
      assert OpenFor(w.tokens[w.latest[u]], u, now);
    }
  }

  function Redemptions(w: World, es: seq<Event>, h: Hash): nat
    decreases |es|
  {
    if es == [] then 0 else
      (if Redeems(w, es[0]) && es[0].hash == h then 1 else 0) + Redemptions(Step(w, es[0]), es[1..], h)
  }

  /** A new token is redeemed on its first use within a day, by an admitted user. */
  lemma NewTokenIsRedeemed(w: World, u: UserId, h: Hash, at: Time, now: Time, admitted: bool)
    requires h !in w.tokens
    ensures Redeems(Step(w, IssueStep(u, h, at)), RedeemStep(h, admitted, now)) <==>
              admitted && now <= at + 24 * 60 * 60 * 1_000_000
  {}

  /** Consumed tokens stay consumed. */
  lemma ConsumedStays(w: World, e: Event, h: Hash)
    requires Legal(w, e) && h in w.tokens && w.tokens[h].consumedAt.Some?
    ensures h in Step(w, e).tokens && Step(w, e).tokens[h].consumedAt.Some?
  {}

  /** Over a whole run a token is redeemed at most once, so the deletion cascade
      is entered at most once per token; and never after it was consumed. */
  lemma {:induction false} RedeemedAtMostOnce(w: World, es: seq<Event>, h: Hash)
    requires LegalRun(w, es)
    ensures Redemptions(w, es, h) <= 1
    ensures h in w.tokens && w.tokens[h].consumedAt.Some? ==> Redemptions(w, es, h) == 0
    decreases |es|
  {
    if es == [] {
    } else {
      if h in w.tokens && w.tokens[h].consumedAt.Some? {
        ConsumedStays(w, es[0], h);
      }
      RedeemedAtMostOnce(Step(w, es[0]), es[1..], h);
    }
  }

  /** What is redeemed is the latest token of its user, unused and unexpired; a
      token superseded by a later one is dead for good. */
  lemma OnlyLatestIsRedeemed(es: seq<Event>, e: Event, later: seq<Event>)
    requires LegalRun(EMPTY, es) && Redeems(Run(EMPTY, es), e)
    ensures var w := Run(EMPTY, es);
            && w.tokens[e.hash].user in w.latest && w.latest[w.tokens[e.hash].user] == e.hash
            && e.hash !in w.redeemed
            && e.at <= w.tokens[e.hash].expiresAt
            && Redemptions(Step(w, e), later, e.hash) == 0
    requires LegalRun(Step(Run(EMPTY, es), e), later)
  {
    RunKeepsInv(EMPTY, es);
    RedeemedAtMostOnce(Step(Run(EMPTY, es), e), later, e.hash);
  }

  lemma SupersededIsDead(w: World, u: UserId, older: Hash, newer: Hash, at: Time, later: seq<Event>)
    requires older in w.tokens && w.tokens[older].user == u && newer !in w.tokens
    requires LegalRun(Step(w, IssueStep(u, newer, at)), later)
    ensures Redemptions(Step(w, IssueStep(u, newer, at)), later, older) == 0
  {
    RedeemedAtMostOnce(Step(w, IssueStep(u, newer, at)), later, older);
  }
}

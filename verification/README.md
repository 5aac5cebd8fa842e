# Verified model of Engramia

A Dafny 4.11 model of the parts of Engramia whose correctness depends on whole
runs or on several functions together, with machine-checked proofs. `dafny
verify dfyconfig.toml` checks all of it.

| file | models |
|---|---|
| `AdminSessions.dfy`, `AdminSessionLaws.dfy` | the `admin_sessions` table: login, re-authentication, refresh rotation, replay containment, logout |
| `LoginLockout.dfy` | the sliding-window lockout, its gate and its log as separate steps |
| `AdminAuthService.dfy` | the service object over users, sessions and attempts, method by method |
| `Jaccard.dfy` | word-level Jaccard similarity and its metric laws |
| `RecallDedup.dfy` | union-find deduplication of recall matches |
| `KeyCache.dfy`, `KeyCacheLaws.dfy` | the TTL and LRU API-key cache against the `api_keys` table |
| `TokenBlocklist.dfy` | the JWT revocation blocklist in memory and in `revoked_jtis` |
| `RateLimits.dfy` | the fixed-window limiters that forget, against limiters that do not |
| `RoiLog.dfy`, `RoiRollup.dfy` | the bounded event log and the rollups over it |
| `OverageBudget.dfy` | eval-run quota, grace period and overage cap |
| `PatternTransfer.dfy` | export and import of patterns |
| `CredentialEdits.dfy` | If-Match edits of one credential and their audit diffs |
| `SingleUseTokens.dfy` | verification and deletion tokens |

Objects whose methods change fields are classes; each method is proved against
functions on values, and the laws over runs are proved about those functions.
Runs are sequences of atomic steps in any interleaving that the step's `Legal`
predicate allows. Ghost-like history (lineages, snapshots, logs of operations)
is carried in the world value and never influences a step.

## Assumptions

- Every `with engine.begin()` block is one serialisable step. One clock drives
  all readings; a value sampled before a step may be older than the step.
- Random session ids, tokens and `updated_at` tags are fresh; SHA-256 is
  injective, so tokens are represented by their hashes.
- Passwords, TOTP codes, JWT signatures, the embedding provider, ISO-8601
  formatting and the database's reachability are parameters.
- The refresh token of a re-authentication's temporary session never leaves the
  service, and re-authentication is called with an admin and a session taken
  from one access token.
- No step that reads a later clock value is ordered before the closing
  transaction of a re-authentication, which reads the clock inside itself;
  `AnchorMovesBackIff` says what happens to an anchor without this.
- One process: the key cache, the blocklist dictionary and the limiters' counters
  are per process, and a second process has its own. One collector per event log:
  its lock is per object, so two processes or two `Memory` objects on one storage
  can lose events.
- A pattern storage is a map from keys to data. The file storage is one for keys
  in the form it keeps them (json_storage.py lines 111-122): no back slash, empty
  segment or dot. What a storage lists is not assumed (`DatabaseLists`,
  `FilesList`).
- Scores are exact reals; time is in integer ticks.

## Where the code and what is said of it part ways

- Five failures do not set `status='locked'` (module text, service.py lines 15-19); the
  lockout is only the windowed count. Because the gate and the log are separate
  transactions, k overlapping attempts raise the bound from 5 to 4 + k
  (`LockoutBound`, `LockoutBoundIsTight`).
- A text without words is at Jaccard distance 1 from itself, so the distance is
  a pseudo-metric exactly on non-empty word sets (`SelfDistance`).
- Between the two transactions of a re-authentication an admin holds more live
  sessions than logins (`ReauthExceedsLogins`); counting those, never
  (`LiveSessionsBounded`).
- Eviction on revocation is not always immediate, for two reasons. A revoke or
  rotate reads the hash it will evict, writes the row by id alone, and evicts what
  it read, three accesses that nothing makes one. Once it returns, the secret its
  write withdrew is refused if and only if no lookup in flight that began less than
  60 seconds ago has fetched its row, and that secret is the one that was read or
  has no unexpired row cached (`OldSecretIsRefused`). `OverlapOutlivesEviction` is
  a run in which a lookup defeats it, `RacingWritersLeaveSecret` one in which a
  concurrent rotate does.
- The 60-second bound on stale answers counts from the start of a lookup; from
  its return there is no bound (`BoundedStaleness`, `ReturnCanBeLate`).
- A start-up that cannot read `revoked_jtis` runs on with an empty blocklist. A
  persisted logout is then void until the token expires, the token is logged out
  again or a later start-up loads, and holds in every other case (`LogoutIsFinal`,
  `FailedLoadAccepts`).
- A revoked JWT that the process knows of gets through exactly when its expiry
  falls strictly between the two clock readings of one decode (`RevokedIsRefused`,
  `SplitReadingAccepts`).
- Re-authentication stores the clock of its second transaction, not the time of
  its TOTP check: anchors stay within d of their checks exactly when
  re-authentications close within d (`ReauthAnchorLag`, `AnchorCanOutrunChecks`).
- An import record whose key is a true value that is no string is not skipped as
  malformed but raises, after the records before it were imported (`ImportData`).
- Overwriting a pattern with data that has no vector leaves the old vector in
  place (`ImportedAreFindable`).
- An If-Match header that does not parse is said never to match; it names the
  epoch, and matches a row of that time (`HeaderNames`).
- Export lists the bare prefix `patterns`, import accepts only `patterns/`
  without `..`, and the file storage never lists a name that starts with `_`; the
  round trip is exact under exactly that condition (`RoundTripIff`,
  `FilesRoundTripIff`, `PrefixWithoutSlashIsLost`, `UnderscoreIsLost`).

## Model

| member | source | states |
|---|---|---|
| `AdminSessionLaws.OneLiveSessionPerLogin` | engramia/admin_auth/service.py:352-424 | In every run the sessions descended by refresh from one TOTP login contain at most one unrevoked session. |
| `AdminSessionLaws.LiveSessionsBounded` | engramia/admin_auth/service.py:250-282 | In every run an admin's live sessions never exceed the admin's successful logins plus re-authentications caught between their two transactions. |
| `AdminSessionLaws.ReauthExceedsLogins` | engramia/admin_auth/service.py:250-333 | A reachable state with two live sessions and one login: the re-authentications in the bound are needed. |
| `AdminSessionLaws.RedeemedAtMostOnce` | engramia/admin_auth/service.py:352-413 | Over every run a refresh token is exchanged for a new session at most once. |
| `AdminSessionLaws.SpentTokenIsReplay` | engramia/admin_auth/service.py:373-389 | A token that was redeemed earlier in the run is answered as a replay, never as unknown or expired. |
| `AdminSessionLaws.AcceptedIff` | engramia/admin_auth/service.py:361-397 | In reachable states refresh accepts a token if and only if its session is still unrevoked and at most one day old. |
| `AdminSessionLaws.ReplayIsContained` | engramia/admin_auth/service.py:374-389 | Presenting the token of a revoked session leaves its admin with no live session and every other admin's live sessions unchanged. |
| `AdminSessionLaws.RevocationIsFinal` | engramia/admin_auth/service.py:399-402 | Once revoked, a session's row, its revocation time included, is the same in every later state. |
| `AdminSessionLaws.RotationInheritsAnchor` | engramia/admin_auth/service.py:399-424 | Rotation revokes the old session and makes a live one with the same owner and the same TOTP anchor, one generation younger. |
| `AdminSessionLaws.OnlyReauthMovesAnchors` | engramia/admin_auth/service.py:334-340 | No step other than closing a re-authentication of that session changes an existing anchor, and none that reads the clock in commit order moves it back. |
| `AdminSessionLaws.AnchorMovesBackIff` | engramia/admin_auth/service.py:334-340 | Whatever the order of clock readings, an anchor moves back if and only if a re-authentication of that unrevoked session closes with a reading earlier than the anchor. |
| `AdminSessionLaws.ReorderedClosesMoveBack` | engramia/admin_auth/service.py:321-340 | Two re-authentications of one session that commit against the order of their readings leave the earlier one as anchor. |
| `AdminSessionLaws.AnchorsAreVouched` | engramia/admin_auth/service.py:250-282 | In every reachable state an anchor rests on a successful TOTP check by the session's owner no later than it, equal to it unless the lineage was re-authenticated, and anchors do not decrease along a lineage. |
| `AdminSessionLaws.ReauthAnchorLag` | engramia/admin_auth/service.py:305-346 | Along every run, for every d: all anchors, inherited ones included, lie within d after their TOTP check if and only if every re-authentication of an unrevoked session closes within d of its check. |
| `AdminSessionLaws.AnchorsAreRecent` | engramia/admin_auth/service.py:250-346 | When they close within d, every session's owner passed a TOTP check at most d before the session's anchor. |
| `AdminSessionLaws.AnchorCanOutrunChecks` | engramia/admin_auth/service.py:321-340 | The lag is reached: for every lag a run whose stored anchor is that much later than every TOTP check in it. |
| `AdminSessionLaws.ClaimsNeverAhead` | engramia/admin_auth/service.py:426-436 | No issued access token claims a TOTP time later than its session's row holds, in any reachable state. |
| `AdminSessionLaws.RefreshClaimsItsAnchor` | engramia/admin_auth/service.py:426-439 | In every reachable state a refresh answers with the owner and the stored TOTP time, in whole seconds rounded down, of the session that held the token. |
| `AdminSessions.AnswersAreClaims` | engramia/admin_auth/service.py:284-436 | The TOTP time a login or refresh answers with is the claim recorded for the session it makes. |
| `AdminSessions.AnswerMeans` | engramia/admin_auth/service.py:361-436 | Which session fields decide unknown, replayed, expired and rotated, and what a rotation answers. |
| `AdminSessions.RefreshMeans` | engramia/admin_auth/service.py:374-424 | What each outcome does to every row, the new row field by field. |
| `AdminSessions.MintMeans` | engramia/admin_auth/service.py:250-276 | A minted session is live, anchored now and expires a day from now; every other row stays. |
| `AdminSessionLaws.ReauthIsAnAnchorUpdate` | engramia/admin_auth/service.py:305-346 | Insert-then-delete re-authentication has the net effect of only moving the named session's anchor, whatever steps of any admin run in between. |
| `AdminSessionLaws.StepIgnoresTemporary` | engramia/admin_auth/service.py:326-333 | A step that does not name the temporary session answers and acts as if that session did not exist. |
| `AdminSessionLaws.ApplyToOtherRow` | engramia/admin_auth/service.py:334-450 | Every transaction keeps owner, token and expiry of rows it neither inserts nor deletes, freezes revoked ones, and moves an anchor only by re-authentication. |
| `AdminSessions.RunKeepsInv` | engramia/admin_auth/service.py:204-450 | The joint invariant of table and history (unique tokens, ordered lineages, spent tokens, vouched anchors, bounded claims) holds in every reachable state. |
| `AdminSessions.StepAppliesTransaction` | engramia/admin_auth/service.py:204-450 | The recorded history never influences the table: each step is exactly the transaction. |
| `LoginLockout.LockoutBound` | engramia/admin_auth/service.py:114-126 | If at most k gated attempts for an e-mail overlap, every 15-minute interval holds at most 4 + k of them that failed, password and TOTP together; 5 without overlap. |
| `LoginLockout.LockoutBoundIsTight` | engramia/admin_auth/service.py:132-198 | For every k a run with overlap k reaches 4 + k, so 5 is exceeded exactly when attempts may overlap. |
| `LoginLockout.LockedIff` | engramia/admin_auth/service.py:44-126 | Locked if and only if at least five positions of the log hold a failure of the e-mail not older than fifteen minutes. |
| `LoginLockout.GateReopens` | engramia/admin_auth/service.py:114-126 | An e-mail whose failures are all older is let through. |
| `LoginLockout.OthersNeverLock` | engramia/admin_auth/service.py:114-126 | Attempts of other e-mails, and successes, never change whether an e-mail is locked. |
| `LoginLockout.AttemptMeans` | engramia/admin_auth/service.py:89-198 | An attempt passes if and only if fewer than five such failures precede the clock it read, and what is logged of it. |
| `AdminAuth.AdminAuthService.IsLockedOut` | engramia/admin_auth/service.py:114-126 | Locked if and only if at least five logged failures of the lower-cased e-mail are not older than fifteen minutes. |
| `AdminAuth.NormalizeMeans` | engramia/admin_auth/service.py:132-133 | The e-mail that is looked up is the given one without space at its ends, lower-cased. |
| `AdminAuth.AdminAuthService.LogAttempt` | engramia/admin_auth/service.py:89-126 | A logged failure raises the lockout count of its e-mail, whatever its case, by one in exactly the windows that reach back to it, and no other count moves. |
| `AdminAuth.AdminAuthService.AttemptLogin` | engramia/admin_auth/service.py:132-198 | When each outcome is given, and that exactly one attempt is logged, successful only when a TOTP code is asked for; users and sessions are untouched. |
| `AdminAuth.AdminAuthService.AttemptTotp` | engramia/admin_auth/service.py:204-299 | A session is minted if and only if the account is active and enrolled, the e-mail not locked out and the code right; what is logged in each case. |
| `AdminAuth.AdminAuthService.ReauthTotp` | engramia/admin_auth/service.py:305-346 | The session table changes only in the named session's anchor; when the call succeeds, each refusal, what is logged and what is written to the user. |
| `AdminAuth.AdminAuthService.Refresh` | engramia/admin_auth/service.py:352-439 | Answer and new table of a refresh: a rotation answers with the presented session's owner and stored TOTP time and hands that time on to a session that lives a day. |
| `AdminAuth.AdminAuthService.Logout` | engramia/admin_auth/service.py:441-450 | Afterwards the session is not live; a revocation that stands keeps its time and no other session changes. |
| `AdminAuth.AdminAuthService.SessionFreshness` | engramia/admin_auth/service.py:457-468 | The anchor is returned exactly for an unrevoked session that expires later than now. |
| `Jaccard.SplitYieldsWords` | engramia/_util.py:56-57 | Splitting yields exactly the maximal runs without white space. |
| `Jaccard.WordSetIs` | engramia/_util.py:56-57 | The words compared are the maximal runs without space of the lower-cased text. |
| `Jaccard.RecasingKeepsWords` | engramia/_util.py:56-57 | Recasing a text leaves its words alone. |
| `Jaccard.LinkedIff` | engramia/types.py:24 | Two texts are linked if and only if more than seven tenths of all their words are common. |
| `Jaccard.OverlapRange` | engramia/_util.py:46-60 | The similarity lies in [0, 1] and is symmetric. |
| `Jaccard.OverlapExtremes` | engramia/_util.py:58-60 | It is 1 exactly for equal non-empty word sets and 0 exactly for disjoint ones. |
| `Jaccard.SelfDistance` | engramia/_util.py:58-60 | The distance to oneself is 0 if and only if there is a word; without one it is 1 to everything. |
| `Jaccard.Triangle` | engramia/_util.py:46-60 | The Jaccard distance obeys the triangle inequality on all word sets, empty ones included. |
| `Jaccard.ChainTelescopes` | engramia/_util.py:46-60 | n links above t leave the ends of a chain above 1 - n(1 - t). |
| `Jaccard.TwoDedupLinks` | engramia/types.py:24 | Two links above the 0.7 threshold leave more than 0.4. |
| `Jaccard.TwoLinkBoundIsTight` | engramia/core/services/recall.py:97-100 | For every eps there are texts linked above 0.7 whose ends overlap by less than 0.4 + eps, so 0.4 is the best bound and being linked is not transitive. |
| `RecallDedup.Find` | engramia/core/services/recall.py:81-85 | Path halving returns the root of the element's tree, keeps the forest and terminates. |
| `RecallDedup.Union` | engramia/core/services/recall.py:87-95 | Union by rank joins exactly the two trees and keeps the forest. |
| `RecallDedup.Group` | engramia/core/services/recall.py:97-100 | After the pair scan equal labels are justified by chains and every similar pair has equal labels. |
| `RecallDedup.LabelsAreComponents` | engramia/core/services/recall.py:97-100 | Two matches have the same root if and only if a chain of similar tasks connects them. |
| `RecallDedup.DeduplicateMatches` | engramia/core/services/recall.py:66-114 | The result is, in input order, exactly the matches that no match reachable by similar tasks outscores, nor equals from an earlier position. |
| `RecallDedup.GroupHasWinner` | engramia/core/services/recall.py:108-112 | Every match is represented by a survivor of its group that scores at least as high. |
| `RecallDedup.GroupHasOneWinner` | engramia/core/services/recall.py:108-112 | No group has two survivors. |
| `RecallDedup.SurvivorsAreDissimilar` | engramia/core/services/recall.py:66-73 | Any two survivors overlap by at most the threshold. |
| `RecallDedup.GroupCohesion` | engramia/core/services/recall.py:69-71 | Members of a group p links apart still overlap by more than 1 - 0.3p. |
| `RecallDedup.GroupsAreOrderFree` | engramia/core/services/recall.py:69-73 | Rearranging the matches rearranges the groups and nothing else. |
| `RecallDedup.GroupScoreIsOrderFree` | engramia/core/services/recall.py:69-73 | Rearranging never changes the score that represents a group. |
| `RecallDedup.SurvivalIsOrderFree` | engramia/core/services/recall.py:69-73 | Without equal scores inside a group the same matches survive in every input order. |
| `RecallDedup.DedupIsIdempotent` | engramia/core/services/recall.py:66-114 | Deduplicating twice is deduplicating once. |
| `KeyCache.KeyCacheStore.Probe` | engramia/api/auth.py:169-177 | A hit needs an entry that has not expired and makes it most recent; a stale entry is deleted. |
| `KeyCache.KeyCacheStore.Store` | engramia/api/auth.py:180-185 | The eviction loop runs at most once and the stored entry is present afterwards. |
| `KeyCache.KeyCacheStore.Invalidate` | engramia/api/auth.py:188-191 | Afterwards the key is not cached; every other entry and the order among them are as they were. |
| `KeyCache.KeyCacheStore.LookupKeyCached` | engramia/api/auth.py:167-185 | A whole lookup returns the unexpired entry or what the database returned, and leaves its key cached and most recent. |
| `KeyCache.InsertKeepsOthers` | engramia/api/auth.py:181-184 | An insert drops only the first entry of a full cache, never the one inserted, and alters no other. |
| `KeyCache.InsertKeepsShape` | engramia/api/auth.py:129-132 | The cache never exceeds 4096 entries after an insert. |
| `KeyCache.UsableIs` | engramia/api/auth.py:141-149 | A key opens for its own hash, while it is neither revoked nor past its expiry. |
| `KeyCacheLaws.BoundedStaleness` | engramia/api/auth.py:135-185 | Under every interleaving with any table writes, a row answered to a lookup begun at t was usable at some time later than t - 60s, and the capacity holds throughout. |
| `KeyCacheLaws.OverlapOutlivesEviction` | engramia/api/auth.py:179-191 | A concrete interleaving in which a revoked and evicted key is still answered to a later lookup. |
| `KeyCacheLaws.ReturnCanBeLate` | engramia/api/auth.py:169-185 | For every delay a run in which a lookup returns a row that long after the key was revoked. |
| `KeyCacheLaws.RefusedForeverIff` | engramia/api/auth.py:167-191 | A secret whose rows are revoked is refused to every lookup that begins from now on, under every interleaving, if and only if no unexpired row is cached for it and no lookup in flight has fetched one and began less than 60s ago. |
| `KeyCacheLaws.OldSecretIsRefused` | engramia/api/keys.py:436-517 | For a revoke or rotate whose read, write and eviction are separate steps, whatever runs between them: afterwards the secret its write withdrew is refused for ever if and only if no lookup in flight that began less than 60s ago has fetched its row, and that secret is the one read or has no unexpired row cached. |
| `KeyCacheLaws.UncontestedIsRefusedIff` | engramia/api/keys.py:494-517 | When no other call gives the key a new hash between the read and the write, only lookups in flight matter, and none does unless it had fetched the row before the write. |
| `KeyCacheLaws.RacingWritersLeaveSecret` | engramia/api/keys.py:436-517 | A run of an overlapping revoke and rotate after which no lookup is in flight and a revoked row's secret is still accepted. |
| `KeyCacheLaws.WholeCallsAreARun` | engramia/api/auth.py:167-191 | Every sequence of calls that do not overlap is an interleaved run with the same table and cache. |
| `KeyCacheLaws.CacheIsLru` | engramia/api/auth.py:167-185 | When calls do not overlap, the dictionary order is last-use order in every reachable state. |
| `TokenBlocklist.Blocklist.Load` | engramia/api/cloud_auth.py:231-256 | After a start-up whose read succeeds the dictionary refuses, at every later time, exactly what the table refuses, and at the moment of loading all but entries that expire just then; after one whose read fails, nothing. |
| `TokenBlocklist.Blocklist.Remember` | engramia/api/cloud_auth.py:284-291 | Adding an entry drops exactly the entries that expired before now. |
| `TokenBlocklist.Blocklist.BlocklistToken` | engramia/api/cloud_auth.py:259-311 | Effect of one logout on memory and table, with and without a reachable database. |
| `TokenBlocklist.Blocklist.IsJtiBlocked` | engramia/api/cloud_auth.py:314-325 | Blocked means present and not expired; an expired entry is deleted. |
| `TokenBlocklist.Blocklist.DecodeToken` | engramia/api/cloud_auth.py:183-206 | When a token is accepted, expired or revoked, with the clock read twice. |
| `TokenBlocklist.AcceptedIff` | engramia/api/cloud_auth.py:183-325 | In reachable states an issued token is accepted if and only if it is unexpired at the first clock reading and, where it was logged out since the last start-up or that start-up loaded its persisted logout, expired before the second. |
| `TokenBlocklist.RevokedIsRefused` | engramia/api/cloud_auth.py:183-206 | In reachable states a revoked token that the process knows of is accepted if and only if its expiry lies strictly between the two clock readings. |
| `TokenBlocklist.SplitReadingAccepts` | engramia/api/cloud_auth.py:183-206 | A reachable state, with the logout persisted, in which such a decode accepts the token. |
| `TokenBlocklist.LogoutIsFinal` | engramia/api/cloud_auth.py:231-325 | After a persisted logout, across prunings, lazy deletions, other logouts and restarts, a decode at one clock value refuses the token if and only if it has expired, the last start-up loaded the table, or it was logged out again since (section 4.1.4 of RFC 7519). |
| `TokenBlocklist.LogoutIsFinalWhenLoaded` | engramia/api/cloud_auth.py:231-325 | Where every start-up loads, a persisted logout is final. |
| `TokenBlocklist.FailedLoadAccepts` | engramia/api/cloud_auth.py:255-256 | A run with a persisted logout and a start-up that cannot read the table, after which the token is accepted until it expires. |
| `RateLimits.AgreesUnlessDiscarded` | engramia/api/middleware.py:145-148 | A counter of the forgetful limiter agrees with the faithful count if and only if no hit on it was discarded. |
| `RateLimits.RateLimitMiddleware.Dispatch` | engramia/api/middleware.py:150-216 | Counter operations and decision of one request. |
| `RateLimits.RateLimitMiddleware.Collect` | engramia/api/middleware.py:145-148 | Collection keeps exactly the counters of the current and previous minute. |
| `RateLimits.CollectionIsInvisible` | engramia/api/middleware.py:139-216 | For requests at most one window old the limiter decides exactly as one that never discards. |
| `RateLimits.IpLimitHolds` | engramia/api/middleware.py:139-196 | Accepted requests per address, path and minute never exceed the path's limit. |
| `RateLimits.PathLimitHolds` | engramia/api/middleware.py:139-196 | That limit is the expensive one where the path contains one of the three expensive fragments, and the default everywhere else. |
| `RateLimits.AcceptedIff` | engramia/api/middleware.py:150-216 | A prompt request is accepted if and only if fewer requests than the limit came before it for its address and path in its minute, and likewise for its key. |
| `RateLimits.CountedWhereItBelongs` | engramia/api/middleware.py:150-176 | A request is counted once for its address, path and minute, once for its key and minute, and nowhere else. |
| `RateLimits.HitsAreCounted` | engramia/api/middleware.py:173-179 | The faithful count of a counter is the number of its hits in the history. |
| `RateLimits.KeyLimitHolds` | engramia/api/middleware.py:157-214 | Accepted requests per API key and minute never exceed the key limit. |
| `RateLimits.SpanLimitHolds` | engramia/api/middleware.py:150-196 | Any 60 seconds accept at most twice the limit of an address and path. |
| `RateLimits.KeySpanLimitHolds` | engramia/api/middleware.py:157-214 | Any 60 seconds accept at most twice the key limit of an API key. |
| `RateLimits.CloudLimiter.Check` | engramia/api/cloud_auth.py:355-369 | The decision is that of a limiter that never evicts while no served call came from two or more windows ahead. |
| `RateLimits.CloudLimiter.Evict` | engramia/api/cloud_auth.py:361-364 | The eviction loop removes exactly the windows before the previous one. |
| `RateLimits.EvictionIsInvisible` | engramia/api/cloud_auth.py:408-421 | Eviction changes no count unless a call is two or more windows behind an earlier one. |
| `RateLimits.CloudLimitHolds` | engramia/api/cloud_auth.py:382-395 | Allowed calls per caller and minute never exceed the limit. |
| `RateLimits.CloudSpanLimitHolds` | engramia/api/cloud_auth.py:434-447 | Any 60 seconds allow a caller at most twice the limit. |
| `RoiLog.RoiCollector.Append` | engramia/analytics/collector.py:151-156 | After every append the log is the last 10000 of everything recorded. |
| `RoiLog.RoiCollector.LoadEvents` | engramia/analytics/collector.py:98-145 | Without a tenant or an override the load is refused; otherwise it returns, in stored order, the item at a position if and only if it is an event since the asked time of the asked tenant and project, each absent or "*" asking for all. |
| `RoiLog.LoadIsCompleteIff` | engramia/analytics/collector.py:130-156 | A query loses nothing if and only if no dropped event matches it. |
| `RoiLog.RecentLoadIsExactIff` | engramia/analytics/collector.py:130-156 | With event times in order, loading since a time equals loading from an unbounded log if and only if at most 10000 items were recorded from the first such event on: the events since then and the malformed items among them. |
| `RoiLog.CleanLoadIsExactIff` | engramia/analytics/collector.py:130-156 | Without malformed items: if and only if at most 10000 events were recorded since then. |
| `RoiLog.RecentScopedLoadIsExact` | engramia/analytics/collector.py:138-145 | Under that condition every tenant and project restriction of the load is exact too. |
| `RoiRollup.RoiAggregator.GroupByScope` | engramia/analytics/aggregator.py:98-102 | Grouping yields each scope's events in order, scopes in order of first appearance. |
| `RoiRollup.RoiAggregator.RollupSince` | engramia/analytics/aggregator.py:74-128 | An unknown window is refused; otherwise the events of all tenants and projects since the window's length ago are rolled up. |
| `RoiRollup.RoiAggregator.RollupWindow` | engramia/analytics/aggregator.py:98-128 | One stored and returned rollup per scope, computed from exactly its events; other windows stay. |
| `RoiRollup.ScopesInOrder` | engramia/analytics/aggregator.py:98-102 | Scopes are listed in the order of their first events. |
| `RoiRollup.ScopedPositions` | engramia/analytics/aggregator.py:98-102 | A scope's events are exactly those of its tenant and project, in order. |
| `RoiRollup.SavedAt` | engramia/analytics/aggregator.py:109-119 | What is stored under a window and scope is the rollup of that scope's events, and nothing else is stored. |
| `RoiRollup.RollupsPartition` | engramia/analytics/aggregator.py:98-126 | Every event is counted in the rollup of its scope and in no other; sizes add up. |
| `RoiRollup.RollupTotals` | engramia/analytics/aggregator.py:171-211 | Learn and recall totals over all rollups sum to the number of events. |
| `RoiRollup.CountsAddUp` | engramia/analytics/aggregator.py:171-178 | Hits never exceed recalls, with equality if and only if every recall carries a tier. |
| `RoiRollup.CountsMean` | engramia/analytics/aggregator.py:171-178 | Every published count is the number of events of that kind, and of that tier among recalls. |
| `RoiRollup.ReuseMeans` | engramia/analytics/aggregator.py:182 | The published reuse rate is within rounding of the share of recalls that hit a duplicate or adaptable pattern, 0 without recalls. |
| `RoiRollup.AverageScoreMeans` | engramia/analytics/aggregator.py:193-196 | The published average is within rounding of the mean of the scores, 0 without scores. |
| `RoiRollup.AverageSimilarityMeans` | engramia/analytics/aggregator.py:180-181 | The same for the similarities. |
| `RoiRollup.ScoresAre` | engramia/analytics/aggregator.py:194 | The scores are those recorded with learn events, in order. |
| `RoiRollup.SimilaritiesAre` | engramia/analytics/aggregator.py:180 | The similarities are those recorded with recall events, in order. |
| `RoiRollup.MedianMeans` | engramia/analytics/aggregator.py:197-198 | The published p50 is within rounding of the mean of the two middle scores, which coincide for an odd number. |
| `RoiRollup.CompositeMeans` | engramia/analytics/aggregator.py:213-218 | The composite is within rounding of 6 times the reuse rate plus 0.4 times the average score, cut at 0 and 10. |
| `RoiRollup.RollupsAreOrderFree` | engramia/analytics/aggregator.py:95-229 | Permuting the events changes neither the scopes nor any scope's rollup. |
| `RoiRollup.P90IsNearestRank` | engramia/analytics/aggregator.py:197-202 | p90 is a sample, a value is at least p90 if and only if 90% of samples are at or below it, and the median never exceeds p90. |
| `RoiRollup.PublishedPercentiles` | engramia/analytics/aggregator.py:193-211 | The published, rounded p50 never exceeds the published p90, which is within half a unit of the fourth decimal of the nearest-rank p90. |
| `RoiRollup.ClampIsIdle` | engramia/analytics/aggregator.py:213-218 | With scores in [0, 10] the composite is in [0, 10] before clamping; after clamping it always is. |
| `OverageBudget.GracePeriod` | engramia/billing/enforcement.py:135-185 | A past-due subscription is usable for exactly seven days after a readable date. |
| `OverageBudget.VerdictsMean` | engramia/billing/enforcement.py:49-183 | Each refusal, if and only if its conditions on status, due date, limit, overage and cap hold. |
| `OverageBudget.UncappedIsServed` | engramia/billing/enforcement.py:49-77 | A usable subscription without a limit, or with an overage without a cap, is always served. |
| `OverageBudget.UnusableAdmitsNothing` | engramia/billing/enforcement.py:135-185 | A lapsed or canceled subscription is served in no run. |
| `OverageBudget.AdmittedIff` | engramia/billing/enforcement.py:49-75 | With a capped overage a request is admitted if and only if the count is below limit + unit * ceil(cap / price); refusal is permanent. |
| `OverageBudget.AdmitsExactly` | engramia/billing/enforcement.py:49-76 | From zero usage exactly that many requests are admitted. |
| `OverageBudget.QuotaAdmitsExactly` | engramia/billing/enforcement.py:54-90 | Without overage exactly the plan's limit is admitted. |
| `OverageBudget.FinalSpend` | engramia/billing/enforcement.py:62-64 | When admission ends the spend is in [cap, cap + price). |
| `PatternTransfer.Memory.Export` | engramia/memory.py:573-592 | One record of the current version per listed key. |
| `PatternTransfer.ExportedAre` | engramia/memory.py:586-592 | Exactly the listed keys that load are written, each with its data and format version 1. |
| `PatternTransfer.Memory.ImportData` | engramia/memory.py:594-653 | Storage, embeddings and count after an import equal a fold over the records; it raises exactly at a record whose key is a true value but no string, keeping what it imported before. |
| `PatternTransfer.ImportableIff` | engramia/memory.py:610-631 | A record is taken if and only if its version is at most 1, its key lies under `patterns/` without two dots in a row, and its data is a dictionary. |
| `PatternTransfer.ImportedKeys` | engramia/memory.py:609-653 | The stored keys afterwards are those before and those of the records taken. |
| `PatternTransfer.FirstWins` | engramia/memory.py:632-634 | Not overwriting, stored data wins over the first valid record of a key and that over later ones. |
| `PatternTransfer.LastWins` | engramia/memory.py:632-634 | Overwriting, the last valid record of a key wins; keys without one are untouched. |
| `PatternTransfer.CountsNewPatterns` | engramia/memory.py:609-653 | A non-overwriting import reports exactly the number of new patterns. |
| `PatternTransfer.CountsTaken` | engramia/memory.py:609-653 | An overwriting import reports the number of records taken. |
| `PatternTransfer.SecondImportIsIdle` | engramia/memory.py:594-653 | Importing again without overwriting changes nothing and returns 0. |
| `PatternTransfer.LastVectorWins` | engramia/memory.py:635-644 | Overwriting, a key gets the vector of its last valid record that has one, and otherwise keeps its own. |
| `PatternTransfer.FirstVectorWins` | engramia/memory.py:632-644 | Not overwriting, a new pattern gets the vector of its first valid record and every other key keeps its own. |
| `PatternTransfer.ImportedAreFindable` | engramia/memory.py:635-644 | An overwritten pattern is found by the data it now holds if and only if that data has a vector or the key never had one. |
| `PatternTransfer.RoundTripIff` | engramia/memory.py:573-653 | Whatever the storage lists, export then import into an empty store is exact if and only if every pattern is listed, is under `patterns/` and has no `..`. |
| `PatternTransfer.DatabaseRoundTripIff` | engramia/providers/postgres.py:140-159 | Over the database: if and only if every pattern is under `patterns/` and has no `..`. |
| `PatternTransfer.FilesRoundTripIff` | engramia/providers/json_storage.py:188-200 | Over the file storage: if and only if, besides, no pattern's name starts with `_`. |
| `PatternTransfer.UnderscoreIsLost` | engramia/providers/json_storage.py:188-200 | Patterns that import accepts and the file storage never exports. |
| `PatternTransfer.RoundTripCount` | engramia/memory.py:573-653 | ... and then the import returns the number of patterns. |
| `PatternTransfer.PrefixWithoutSlashIsLost` | engramia/memory.py:586-631 | Every store of a pattern under the prefix without the slash is listed and restores to nothing. |
| `CredentialEdits.EtagNamesVersion` | engramia/api/credentials.py:151-219 | A tag handed out is accepted exactly for the version it names (section 13.1.1 of RFC 9110). |
| `CredentialEdits.HeaderNames` | engramia/api/credentials.py:164-219 | A header names the time its tag parses to, whatever quotes and outer spaces surround it; one that does not parse names the epoch. |
| `CredentialEdits.DiffIsExact` | engramia/api/credentials.py:262-286 | The audit diff applied to the old map yields the new one, reverses by swapping, and is empty if and only if nothing changed. |
| `CredentialEdits.DiffLists` | engramia/api/credentials.py:262-286 | Which keys and values each part of a diff lists. |
| `CredentialEdits.CredentialStore.Patch` | engramia/credentials/store.py:508-524 | Compare-and-set on the tag, with its three outcomes. |
| `CredentialEdits.CredentialStore.UpdateRoleModels` | engramia/api/credentials.py:622-704 | Which refusal comes first, when the update happens, and that its diff leads to the new map. |
| `CredentialEdits.AcceptedEditIsPlaced` | engramia/api/credentials.py:649-704 | Under every interleaving each accepted edit named the version it replaced, and its diff leads from that version to the one it made. |
| `CredentialEdits.CommitAcceptedIff` | engramia/api/credentials.py:649-704 | In reachable states a commit is accepted if and only if the version its request read is still current. |
| `CredentialEdits.EditIsAcceptedIff` | engramia/api/credentials.py:649-704 | An edit that names the current tag is accepted if and only if no other write overtakes it. |
| `CredentialEdits.EditsFormAChain` | engramia/api/credentials.py:649-704 | No version is replaced by two edits: later edits replaced later versions and named other tags. |
| `CredentialEdits.EditsAreTheHistory` | engramia/api/credentials.py:649-704 | The k-th accepted edit replaced the k-th version and there are no other versions, if and only if nothing but edits wrote the row. |
| `CredentialEdits.AuditTrailReplays` | engramia/api/credentials.py:262-286 | Then each edit named the version the previous one made, and replaying the audit diffs from the first map gives the current one. |
| `SingleUseTokens.CloudAccounts.CreateVerificationToken` | engramia/api/cloud_auth.py:495-522 | Afterwards the new token is the only one of its user that can be redeemed, for a day; tokens of others are as they were. |
| `SingleUseTokens.CloudAccounts.CreateDeletionToken` | engramia/api/cloud_auth.py:587-613 | The same for deletion tokens. |
| `SingleUseTokens.CloudAccounts.HasPendingDeletion` | engramia/api/cloud_auth.py:571-584 | A request counts as pending if and only if some token of the user can still be redeemed at a later time. |
| `SingleUseTokens.PendingIsLatest` | engramia/api/cloud_auth.py:571-584 | In every reachable state a deletion is pending if and only if the token last issued to the user can still be redeemed, its very last instant excepted. |
| `SingleUseTokens.CloudAccounts.Verify` | engramia/api/cloud_auth.py:1368-1414 | When a link verifies, is an idempotent repeat, used, expired or unknown; only its consumption and its user change. |
| `SingleUseTokens.CloudAccounts.RedeemDeletion` | engramia/api/cloud_auth.py:1648-1713 | The cascade is entered if and only if the token is open, unexpired and its user not deleted, and which refusal is given otherwise; the token is consumed first. |
| `SingleUseTokens.OneOpenToken` | engramia/api/cloud_auth.py:495-522 | In every reachable state a user has at most one unconsumed token. |
| `SingleUseTokens.NewTokenIsRedeemed` | engramia/api/cloud_auth.py:495-522 | A new token is redeemed on first use if and only if the user is admitted and a day has not passed. |
| `SingleUseTokens.RedeemedAtMostOnce` | engramia/api/cloud_auth.py:1655-1713 | Over every run a token is redeemed at most once, and never once consumed. |
| `SingleUseTokens.OnlyLatestIsRedeemed` | engramia/api/cloud_auth.py:1368-1414 | What is redeemed is its user's latest token, unused and unexpired, and is never redeemed again. |
| `SingleUseTokens.SupersededIsDead` | engramia/api/cloud_auth.py:507-521 | A token superseded by a newer one is never redeemed. |

## Left out

- FastAPI routing, schemas, audit emission, metrics and e-mail: no effect on the modelled state.
- Interleavings inside a transaction below serialisable isolation: each transaction is one step.
- `user_agent`, IP addresses and `last_login_ip` columns: stored, never read by the modelled code.
- Unicode white space and case folding in `jaccard` and e-mail normalisation: ASCII rules only.
- Floating point: the 0.7 threshold, means and the composite are exact reals; rounding ties go up, where Python rounds to even.
- `LoginLockout` models password and TOTP attempts by gate and log only; the session they mint is in `AdminSessions`.
- Collisions of the string key `analytics/rollup/window/tenant/project` when an id contains a slash: rollups are stored under the triple.
- The order of `removed` in an audit diff: a set here, sorted in the code.
- `PATCH` of cost limits and failover chain: the same handler shape as role models.
- A credential row without `updated_at`: the column always has a value.
- If-Match tags without a time zone: parsing yields one kind of time here.
- Tokens without `jti` or `exp`: the service issues none.
- Concurrent eval-run checks: admission is modelled one request at a time.
- Other writers of `api_keys` (account deletion, command line): the cache laws admit any table write, eviction by them is not modelled.
- The cascade behind a redeemed deletion token, job queue, aging, recall ranking and storage backends.

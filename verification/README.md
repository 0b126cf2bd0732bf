# Verified model of the Cairnstone coordination core

A Dafny model of the parts of the repository where being wrong is easy and costly: the optimistic-concurrency protocol
of Code Sessions, task and path leases, OAuth token families, the registration limiter, the canonical JSON printer that
every stored column and digest goes through, the bounded memory and authority envelope of an agent bootstrap, the event
journal and agent-tree projections, and two small step machines. `dafny verify dfyconfig.toml` checks all of it.

How the model is laid out:

- Tables are state. Each D1 statement is one atomic step. Where the source is a class or a set of rows changed in
  place, the model is a class whose methods are proved equal to a function from the old tables to the new ones
  (`CodeSession.SessionStore`, `SessionLeases.LeaseTable`, `AuthStore.AuthDb`, `RateLimiter.RateBuckets`,
  `SizeDiscipline.Package`, `WorkerPool.Pool`); the properties are proved about those functions.
- Three protocols are split at their awaits and run under every interleaving: writers of a session row
  (`SessionSerial`), redeemers of an authorization code (`AuthCode`), and pool workers (`WorkerPool`). The other calls run
  to completion, and runs are arbitrary sequences of calls.
- Time is an integer number of milliseconds. Minted ids and token hashes are ordered values that are new when minted.
  Digests are functions on text; a claim that needs an injective one says so. What lies outside (a model, a policy
  preview, an executor, a ref store, a size measure, a scheduler) is an arbitrary function of everything before it.
- Text is a sequence of UTF-16 code units, as JavaScript strings are. `localeCompare` is any preorder on text in
  `AuthorityManifest` and `TipDiff`, so that different strings may compare as equal, and code-unit order elsewhere.
  What SQLite compares is any total order on text in `EventPaging`, `EventQueries` and `CursorPaging`.

Results worth knowing before reading the code:

- Lease exclusivity holds below the listing caps only. `LeaseLaws.AcquireExact` says, from what a call reads before it
  writes, exactly when one acquisition keeps it; `LeaseLaws.CapsExact` says that some request without allow_overlap
  breaks it exactly when the listing hides a task or path that a live lease holds; and `LeaseLaws.CapWitness` reaches
  such a table: one actor acquires more than a hundred leases, none with allow_overlap, and another actor's request for
  the last of their tasks is granted.
- A membership-level version bump need not be permanent: joining the tenant again re-activates the row and keeps its
  version. `AuthLaws.RejoinExact` says that it invalidates a working family for good exactly when the family's version
  is not past the membership's, and `AuthLaws.RejoinWitness` shows a family it does not.
- After such a bump and join, in an account that was never bumped itself, a new mint answers with tokens that are
  refused from the first moment, because a family takes the account's version while freshness asks for the larger of
  account and membership. `AuthLaws.MintMeaning` says exactly when minted tokens are good, `AuthLaws.BornStale` that
  these never are.
- The comment above `enforceSizeDiscipline` speaks of trimming the protected floor as a last resort; the code never
  does, and the model follows the code: over budget with nothing removable left is reported as exceeded.
- The envelope of path heads is capped at 24 paths. It is capped at 24 heads because a resume lists one head to a path
  (`SparseEnvelope.EnvelopeCapped`).
- The two event queries differ in one filter and one refusal: `queryJournalEvents` reads `journal_source`, and
  `queryJournalFromBody` refuses `include_chain_telemetry` without `chain_name`. They also compare text differently, in
  memory by UTF-16 units and in SQLite by UTF-8 bytes. On ASCII, which the minted ids and times are, that is one order
  (`EventQueries.AsciiAgrees`), and where the orders agree on the times and ids compared
  `EventQueries.PlaneAnswersAgree` says exactly when the answers are alike. Beyond the basic plane they part: two rows of
  one time with ids U+FF5E and U+1F600, one to a page, are answered differently (`EventQueries.QueriesPart`).
- `diffTipVectors` compares a path's revision and hash joined by NUL. `TipDiff.RevisionsToldApart` says exactly which two
  revisions the joined text can confuse; the revision ids a workspace mints are digests (src/workspace.js:277-292), which
  hold no NUL, and then nothing is confused (`TipDiff.NulFreeUnambiguous`).
- `stableJson` is not only canonical: of all JSON texts without a lone surrogate that spell a value its output is the
  shortest (`ShortestPrinting.PrintShortest`).
- The authority manifest depends on the order in which path heads are listed exactly when two different ones compare as
  equal (`AuthorityManifest.ManifestOrderFree`).
- A registration bucket admits up to twice its maximum in one closed interval of the window's length, and that bound
  is attained (`RateLimiter.SlidingTight`).
- The journal's cursor decodes to its own pair exactly when both fields are already in normal form, since decoding
  normalizes the time and trims the id (`Cursors.EventCursorRoundTrip`); following cursors by their text then reads
  everything once (`CursorPaging.FollowTextReadsAll`).

## Model

| member | source | states |
|---|---|---|
| CodeSession.SessionStore.constructor | src/code-session.js:1970-2075 | a new session is active at revision 1 with empty append-only tables and whatever ledger, actors, checkpoint, transport, manifest and tip its caller supplied |
| CodeSession.SessionStore.InsertRow | src/code-session.js:1716-1745 | an insert succeeds exactly when no row of its append-only table has the id, and then adds that row only |
| CodeSession.SessionStore.GuardedUpdate | src/code-session.js:1762-1775 | the UPDATE changes the row exactly when the revision still is the base, sets its columns over what the row holds then, and adds one to the revision |
| CodeSession.SessionStore.Commit | src/code-session.js:1716-1784 | insert then guarded UPDATE: a lost race keeps the inserted row and leaves the session row alone |
| CodeSession.SessionStore.CreateCheckpoint | src/code-session.js:1377-1605 | run alone, the whole new state and answer of the checkpoint operation |
| CodeSession.SessionStore.TransitionTask | src/code-session.js:1607-1808 | run alone, the whole new state and answer of a ledger transition |
| CodeSession.SessionStore.TransitionLifecycle | src/code-session.js:2077-2190 | run alone, the whole new state and answer of a lifecycle transition |
| CodeSession.SessionStore.SetWorkingTransport | src/code-session.js:2609-2707 | run alone, the whole new state and answer of setting the working transport |
| CodeSession.SessionStore.AttachManifest | src/environment-sandbox.js:862-960 | run alone, the whole new state and answer of attaching an environment manifest |
| CodeSession.SessionStore.CreateReceipt | src/environment-sandbox.js:1417-1512 | run alone, a receipt with a base revision: the receipt row stays even when the base is refused |
| SessionSerial.StaleWriteIsCurrent | src/code-session.js:1417-1588 | a guarded UPDATE computed from an earlier read is the operation applied to the row it hits |
| SessionSerial.StepKeepsInv | src/code-session.js:1649-1785 | every read, insert and guarded UPDATE of every caller, and every write outside the guard, keeps the invariant |
| SessionSerial.Serialization | src/code-session.js:1417-1588 | after any interleaving of any number of callers the tracked columns at revision r+1 are the r-th commit applied to those at r, the revision has grown by the number of commits, and a caller is told committed exactly when its operation is in the log at that revision |
| SessionSerial.AtomicCallIsARun | src/code-session.js:1649-1785 | a call with nothing in between is its four statements one after another |
| SessionSerial.TouchMeaning | src/code-session.js:1747-1760 | the caller's actor entries are stamped with the new revision and checkpoint and otherwise kept, or it is added as a participant; every other entry is kept, and the list is sorted |
| SessionSerial.TransitionMeaning | src/code-session.js:1649-1716 | a transition is accepted exactly along an edge, or with a title for a new ledger entry; it moves that entry, keeps the others and their order, and writes only the ledger and the actors |
| SessionSerial.LastWritersWin | src/code-session.js:2100-2160 | after any interleaving the lifecycle, the working transport, the environment manifest and the checkpoint's tip are those of the last committed request that sets them, and every committed pause or resume started from a state that allows it |
| SessionSerial.ActorStamps | src/code-session.js:1747-1760 | after any interleaving every actor whose checkpoint, transition or lifecycle call committed is listed, with the revision of its last such commit |
| SessionSerial.CommitMovesLedger | src/code-session.js:277-287 | one commit moves the ledger's state map by exactly its event, an existing entry only along an edge of the transition table |
| SessionSerial.LedgerHistory | src/code-session.js:59-67 | after any interleaving, replaying only the committed events over the seed gives the ledger's state map, and every committed change of an existing entry follows an edge |
| SessionOutcomes.CallKeeps | src/code-session.js:1716-1785 | a committed call had the current base and moves the revision on by one, a failed one leaves the session row alone, and the append-only tables only grow |
| SessionOutcomes.CheckpointOutcome | src/code-session.js:1377-1605 | which refusal a checkpoint gets when, that refusals write nothing, and that a commit inserts the checkpoint, points the row at it and at the tip observed, and stamps the caller |
| SessionOutcomes.EdgesInto | src/code-session.js:59-67 | the edges of the task ledger by where they lead: what is not over can be abandoned, only active and reviewed work is done, and what is over can only be queued again |
| SessionOutcomes.TransitionOutcome | src/code-session.js:1607-1808 | which refusal a transition gets when, that refusals write nothing, and that a commit appends the event telling the move under a free id and writes ledger and actors only |
| SessionOutcomes.LifecycleOutcome | src/code-session.js:2077-2190 | a lifecycle move is refused exactly without the current base or from a state that does not allow it, and otherwise writes the lifecycle and the caller's stamp only |
| SessionOutcomes.ColumnOutcome | src/environment-sandbox.js:862-960 | which refusal setting the transport or attaching a manifest gets when, and that a commit writes its one column |
| SessionOutcomes.ReceiptOutcome | src/environment-sandbox.js:1417-1512 | a new receipt row is kept whatever becomes of the base, and a commit puts the receipt first among at most 100 references |
| SessionOutcomes.CommittedRows | src/code-session.js:1716-1745 | after any interleaving every row the append-only tables started with is there, and so is the event, checkpoint or receipt of every committed operation |
| SessionOutcomes.LatestCheckpoint | src/code-session.js:1555-1588 | after any interleaving the row points at the checkpoint the last committed checkpoint operation named, which is in its table, or at the one it started with |
| StableJson.StringRoundTrip | src/agent-bootstrap.js:1435-1441 | quoting then scanning a string gives it back, lone surrogates included |
| CanonicalPrinting.PrintIsPlainCanon | src/agent-bootstrap.js:1435-1441 | stableJson prints the tree with every object put in key order |
| CanonicalPrinting.ParsePlain | src/agent-bootstrap.js:1435-1441 | parsing any printed tree gives that tree and the rest of the text |
| CanonicalPrinting.ParsePrint | src/agent-bootstrap.js:1435-1441 | for every tree with valid numbers and distinct keys, parsing its stableJson gives the tree in key order |
| CanonicalPrinting.PrintCanonical | src/agent-bootstrap.js:1435-1441 | two such trees print alike exactly when they are equal up to member order at every level |
| CanonicalPrinting.ColumnRoundTrip | src/code-session.js:170-178 | every stored column survives writing and parseJsonField, up to member order |
| ShortestPrinting.StringShortest | src/agent-bootstrap.js:1435-1441 | of the texts without a lone surrogate that spell a string the quoted one is the shortest, and of those as short the only one with lower-case hex |
| ShortestPrinting.EscapeLower | src/agent-bootstrap.js:1435-1441 | every quoted string uses lower-case hex in its escapes |
| ShortestPrinting.PrintShortest | src/agent-bootstrap.js:1435-1441 | of all texts without a lone surrogate that spell a value, stableJson's is the shortest: no white space, no escape that is not needed, no longer escape than needed |
| ShortestPrinting.PrintSpells | src/agent-bootstrap.js:1435-1441 | stableJson's output is such a text, without a lone surrogate |
| ShortestPrinting.Spelling | src/agent-bootstrap.js:1435-1441 | the words, signs, hex digits and escape letters of RFC 8259, spelled out |
| SessionLeases.LeaseTable.Expire | src/code-session.js:702-710 | the sweep marks exactly the active leases past their time |
| SessionLeases.LeaseTable.List | src/code-session.js:712-751 | a listing sweeps, then shows the live leases under the row cap and the list cap |
| SessionLeases.LeaseTable.Acquire | src/code-session.js:819-1005 | the whole new table and answer of an acquisition, the gate errors included |
| SessionLeases.LeaseTable.Renew | src/code-session.js:1007-1094 | the whole new table and answer of a renewal |
| SessionLeases.LeaseTable.Release | src/code-session.js:1096-1176 | the whole new table and answer of a release |
| LeaseLaws.OverlapMeaning | src/code-session.js:642-671 | two scopes overlap exactly when some task or path is covered by both |
| LeaseLaws.AcquireMeaning | src/code-session.js:874-1005 | a grant changes exactly one row, new or the caller's own overlapping lease under its id, live for the whole time to live with the scope and revision asked for; any other answer leaves the swept table alone |
| LeaseLaws.RenewMeaning | src/code-session.js:1044-1094 | a renewal succeeds exactly on the caller's own live lease and moves only its times and revision |
| LeaseLaws.ReleaseMeaning | src/code-session.js:1096-1176 | a release succeeds exactly on the caller's own live lease and takes only that one out of force |
| LeaseLaws.ListingComplete | src/code-session.js:712-751 | within the caps a listing shows every live lease |
| LeaseLaws.AcquireExact | src/code-session.js:874-1005 | an acquisition leaves an exclusive table exclusive exactly when the listing or the new id makes the call refuse it, or no live lease of another actor, listed or not, overlaps its scope |
| LeaseLaws.AcquireExclusive | src/code-session.js:874-1005 | within the caps an acquisition, in place with a changed scope included, keeps exclusivity, and is refused exactly when a live foreign lease overlaps |
| LeaseLaws.RenewExclusive | src/code-session.js:1044-1094 | a renewal keeps exclusivity |
| LeaseLaws.ReleaseExclusive | src/code-session.js:1096-1176 | a release keeps exclusivity |
| LeaseLaws.LeaseExclusivity | src/code-session.js:874-1005 | over every run of calls with a clock that never goes back, within the caps and without allow_overlap, no two live leases of different actors overlap at any later instant |
| LeaseLaws.OnlyTheHolder | src/code-session.js:1044-1094 | no call of another actor changes a live lease |
| LeaseLaws.NoRevival | src/code-session.js:673-700 | a lease that is not live never becomes live again |
| LeaseLaws.CapsExact | src/code-session.js:712-751 | from an exclusive table some acquisition without allow_overlap leaves a table that is not exclusive exactly when the listing hides a task or path that a live lease holds |
| LeaseLaws.CapWitness | src/code-session.js:712-751 | after one actor has acquired more than 100 leases without allow_overlap, another actor's request for the last of their tasks is granted and exclusivity is gone |
| LeaseOutcomes.ListingExact | src/code-session.js:712-751 | a lease is listed exactly when it is live, fewer than four times the limit and fewer than 200 rows stand ahead of it, live or not, and fewer live ones than the limit; the last to expire comes first, then the last acquired, then the first inserted |
| LeaseOutcomes.SweepMeaning | src/code-session.js:702-710 | the sweep expires and dates the active rows whose time has come and leaves the others alone |
| LeaseOutcomes.TtlMeaning | src/code-session.js:608-612 | a time to live is 600 seconds by default and kept between 30 and 3600 |
| LeaseOutcomes.AcquireAnswers | src/code-session.js:874-1005 | past the gate an acquisition is refused exactly when a listed lease of another actor is in the way and overlap is not allowed, else renews exactly when the caller has an overlapping lease listed, else creates exactly when the new id is free |
| LeaseOutcomes.AcquireRows | src/code-session.js:874-1005 | a conflict writes nothing and names exactly the listed leases in the way, a renewal rewrites the caller's own listed overlapping lease that expires last, a creation appends one row, and the answer shows the row as written |
| LeaseOutcomes.RenewOutcome | src/code-session.js:1044-1094 | which answer a renewal gets for which row, and what it writes |
| LeaseOutcomes.ReleaseOutcome | src/code-session.js:1096-1176 | which answer a release gets for which row, and what it writes |
| TipDiff.DiffTipVectors | src/code-session.js:381-410 | the result is every changed path once with its change, in path order, cut at 500; what it says of equality and of applying it is that of DiffRoundTrip |
| TipDiff.KeyExact | src/code-session.js:377-379 | two keys of a path are equal exactly when the fields are, or when one revision goes on after the other and a NUL and the hashes make up for it |
| TipDiff.RevisionsToldApart | src/code-session.js:377-379 | two revisions are told apart whatever the hashes exactly when neither is the other, a NUL and more |
| TipDiff.NulFreeUnambiguous | src/code-session.js:377-379 | without NUL in the revisions no change goes unseen, whatever the hashes hold |
| TipDiff.DiffRoundTrip | src/code-session.js:377-410 | for all tips, the vectors agree exactly when the diff is empty and no path's fields are confused, and applying the diff to the old tips gives the new ones exactly when moreover at most 500 paths changed |
| TipDiff.NulWitness | src/code-session.js:377-379 | two tips with a NUL in one revision whose change goes unseen |
| TipDiff.ByPathMeaning | src/code-session.js:384-385 | a tip vector read as a map has the paths of its tips, each with the last tip of that path |
| TipDiff.NullMeaning | src/code-session.js:391-403 | a change shows an absent or empty field as null |
| AuthStore.AuthDb.MintConnectionUnderAccount | src/core-auth.js:1905-2025 | the whole new state and answer of minting a connection with its family and token pair |
| AuthStore.AuthDb.MintTokenFamily | src/core-auth.js:1103-1176 | a family row at generation 0 and its first token pair |
| AuthStore.AuthDb.IssueTokenPair | src/core-auth.js:1178-1241 | one access token and one refresh token with their lifetimes |
| AuthStore.AuthDb.RotateRefreshToken | src/core-auth.js:1243-1327 | the whole new state and answer of presenting a refresh token |
| AuthStore.AuthDb.RevokeTokenFamily | src/core-auth.js:1363-1396 | the family, its active refresh tokens and all its access tokens are revoked, and nothing else changes |
| AuthStore.AuthDb.RevokeEach | src/core-auth.js:1413-1421 | the loop over families revokes exactly the set it was given |
| AuthStore.AuthDb.RevokeConnectionAndFamilies | src/core-auth.js:1398-1429 | the connection and every active family of it are revoked |
| AuthStore.AuthDb.RevokeAuthenticatorAndFamilies | src/core-auth.js:1431-1465 | with step-up, the authenticator and every active family from it are revoked |
| AuthStore.AuthDb.HandleOauthRevoke | src/core-auth.js:2165-2199 | a presented refresh token takes its family with it, a presented access token is revoked alone, anything else changes nothing |
| AuthLaws.EmptyInv | src/core-auth.js:1103-1327 | empty tables satisfy the invariant |
| AuthLaws.StepKeepsInv | src/core-auth.js:1103-1327 | every call keeps one refresh token per generation, the newest active exactly when the family is, and versions no higher than the account's |
| AuthLaws.StepLater | src/core-auth.js:1329-1603 | no call takes back a revocation, a rotation, a replacement or a version |
| AuthLaws.RotationGenerations | src/core-auth.js:1243-1327 | after any run a family of generation g has exactly one refresh token for each generation 0 to g, older ones not active, the newest active exactly when the family is |
| AuthLaws.RotationMeaning | src/core-auth.js:1243-1327 | a rotation succeeds exactly on the newest token of a fresh family, in time and for a matching resource; its pair is good until it expires and the old token is not |
| AuthLaws.MintMeaning | src/core-auth.js:1905-2025 | a mint, for the tenant asked for or else the home tenant, succeeds exactly for an open account, an active membership and a usable authenticator of the account; its tokens are good until they expire exactly when the membership's version is not past the account's |
| AuthLaws.BornStale | src/core-auth.js:1545-1603 | after a membership bump and a new join, in an account never bumped itself, every mint answers with tokens that are refused at once |
| AuthLaws.ConnectionCascade | src/core-auth.js:1398-1429 | revoking a connection reaches its active families, their tokens, and nothing else |
| AuthLaws.AuthenticatorCascade | src/core-auth.js:1431-1465 | revoking an authenticator reaches the active families from it, their tokens, and nothing else; without step-up, nothing at all |
| AuthLaws.ReuseRevokes | src/core-auth.js:1251-1270 | presenting a token that rotated once, whatever came between, leaves its family revoked, and no token of it is accepted in any later state |
| AuthLaws.BumpInvalidates | src/core-auth.js:1545-1572 | an account-level bump invalidates for good every family minted before it |
| AuthLaws.ConnectionInvalidates | src/core-auth.js:1398-1429 | revoking a connection invalidates for good every family of it |
| AuthLaws.AuthenticatorInvalidates | src/core-auth.js:1431-1465 | revoking an authenticator invalidates for good every family from it and it never mints again |
| AuthLaws.EndpointMeaning | src/core-auth.js:2165-2199 | at the revocation endpoint a refresh token ends its family for good and an access token is refused in every later state, families and refresh tokens being left as they were |
| AuthLaws.RejoinExact | src/core-auth.js:1574-1603 | a membership bump makes a working family refused in every later state exactly when the family's version is not past the membership's |
| AuthLaws.RejoinWitness | src/core-auth.js:1574-1603 | a minted family that is refused after the bump and accepted again in a later state |
| AuthOutcomes.StalenessMeaning | src/core-auth.js:1329-1361 | a family is fresh exactly with an open account, an active membership, a version behind neither and an active connection, and the first that fails names the error |
| AuthOutcomes.RotationRefusals | src/core-auth.js:1243-1290 | which answer a presented refresh token gets when: one that is not active any more revokes its family and nothing else, every other refusal, a resource mismatch included, writes nothing |
| AuthOutcomes.RotationRows | src/core-auth.js:1276-1305 | a successful rotation marks the old token, moves the family one generation on, adds one token of each kind with 15 minutes and 30 days to live, and changes nothing else |
| AuthOutcomes.MintRows | src/core-auth.js:1905-2025 | which refusal a mint gets when, that refusals write nothing, and the four rows a mint adds |
| AuthOutcomes.ValidatesMeaning | src/core-auth.js:1634-1709 | an access token of a reachable state is accepted exactly when not revoked, in time, for one of the audiences and not the refused one, with an active and fresh family; its principal and connection never need asking |
| AuthOutcomes.VersionMeaning | src/core-auth.js:1545-1603 | what bumps and joins write, and their errors |
| AuthOutcomes.EndpointRows | src/core-auth.js:2165-2199 | what a presented token takes with it at the revocation endpoint, and that anything else changes nothing |
| AuthOutcomes.EnrollMeaning | src/core-auth.js:883-935 | what enrolling writes for a new account, and when a known one gets the authenticator |
| AuthOutcomes.ReplaceMeaning | src/core-auth.js:1467-1535 | with step-up and for its own account only, the old authenticator is retired and a usable one added |
| AuthOutcomes.BindMeaning | src/core-auth.js:1605-1630 | binding changes only the connection's tenant, and only for an active membership of its account |
| AuthCode.StepKeepsInv | src/core-auth.js:2027-2106 | every statement of every redeemer and every other call keeps at most one winner and one minted family |
| AuthCode.SingleUse | src/core-auth.js:2039-2099 | over every interleaving at most one redeemer gets tokens and at most one family is minted, and the winner's request matches the code and was in time |
| AuthCode.OneFamilyAdded | src/core-auth.js:2039-2099 | when minted ids are fresh, of the families in the final store that no other call added exactly the winner's is new, and none when nobody won |
| AuthCode.NeverUnusedAgain | src/core-auth.js:2039-2099 | a code's status never returns to unused |
| AuthCode.MintsWhatWasAuthorized | src/core-auth.js:2075-2099 | what a successful claim mints has the code's account, tenant, authenticator and resource |
| AuthCode.RedeemAlone | src/core-auth.js:2027-2106 | alone, a redemption is answered by the mint when every check passes and with invalid_grant otherwise; the code is used up by a passed check, marked expired only when unused and late, and else left alone |
| RateLimiter.RateBuckets.ConsumeRateLimit | src/core-auth.js:2281-2333 | the whole new table and answer of one request |
| RateLimiter.EnvPositiveInt | src/core-auth.js:2201-2207 | a setting is at least one |
| RateLimiter.LimitsMeaning | src/core-auth.js:2201-2218 | five registrations an hour from an address and two when it is not known, unless set to one or more, which counts as its whole part |
| RateLimiter.ConsumeMeaning | src/core-auth.js:2281-2333 | an admission is counted inside its window and below the maximum, a refusal changes nothing and is inside a full window, and other buckets are not touched |
| RateLimiter.WindowBound | src/core-auth.js:2281-2333 | over any run with a clock that never goes back each fixed window admits at most the maximum less what it held |
| RateLimiter.SlidingBound | src/core-auth.js:2281-2333 | over any such run, from any table, no closed interval of the window's length admits more than twice the maximum from one address |
| RateLimiter.SlidingTight | src/core-auth.js:2281-2333 | twice the maximum is attained for every setting |
| RateLimiter.RetryAfterWaits | src/core-auth.js:2304-2313 | a refused address that stays idle is admitted exactly when its window has ended, which is within retry_after seconds and after more than retry_after - 1 |
| AuthorityManifest.ManifestOrderFree | src/agent-bootstrap.js:380-404 | the order of the accepted path heads never reaches the manifest when no two different ones compare as equal; otherwise, with an injective digest, some order gives another id |
| AuthorityManifest.ManifestIdentity | src/agent-bootstrap.js:390-404 | with an injective digest the id is the same exactly for the same chain, chain head and list in pointer order, which is the same multiset of (path, hash) when no two different ones compare as equal |
| WireTexts.PayloadText | src/agent-bootstrap.js:390-404 | the text whose digest is the manifest's id, field by field |
| WireTexts.PointersText | src/agent-bootstrap.js:380-392 | the text whose digest is the path heads' digest |
| WireTexts.DecimalValue | src/agent-bootstrap.js:390-398 | the head count is written as its decimal numeral |
| MemoryCompiler.MergeRows | src/agent-bootstrap.js:1045-1052 | the merge loop is first-occurrence deduplication |
| MemoryCompiler.DedupeMeaning | src/agent-bootstrap.js:1045-1052 | merging keeps one row of each key, the first |
| MemoryCompiler.CompileItems | src/agent-bootstrap.js:1085-1140 | the item loop's items, failure and truncation flag |
| MemoryCompiler.CompileMemory | src/agent-bootstrap.js:1045-1163 | merging, ranking and the item loop together |
| MemoryCompiler.RowsMeaning | src/agent-bootstrap.js:1045-1083 | candidates are distinct, authority first and seeds first within a class, and a current-state task drops historical rows of an authoritative path |
| MemoryRows.CandidatesExact | src/agent-bootstrap.js:1045-1083 | the candidates are exactly the first row of each key, with its class; for a current-state task the historical ones stay out exactly when a candidate that is chain head or path head has their path |
| MemoryRows.CandidatesOrdered | src/agent-bootstrap.js:1060-1068 | they stand by class, then seeds first, then as retrieved |
| MemoryRows.ItemsShowRows | src/agent-bootstrap.js:1129-1138 | every item shows the hash, path, ref id and class of a candidate and the window its ref reads |
| MemoryCompiler.ItemsMeaning | src/agent-bootstrap.js:1085-1140 | the items are the longest prefix of the readable rows that fits both limits, a first item being exempt from the byte budget |
| MemoryCompiler.FailsClosed | src/agent-bootstrap.js:1094-1127 | a current-state compilation fails exactly when a seed is reached and cannot be included; no other compilation fails |
| MemoryCompiler.CompiledMeaning | src/agent-bootstrap.js:1045-1163 | a compiled memory is within the limits, authority first, and free of suppressed history |
| MemoryCompiler.ChainHeadGuaranteed | src/agent-bootstrap.js:990-1012 | a current-state task whose chain head was seeded has it as first item, or fails |
| MemoryCompiler.ClampNumber | src/agent-bootstrap.js:1404-1423 | a limit is within its bounds and is the floor of a value within them |
| MemoryCompiler.LimitMeaning | src/agent-bootstrap.js:1404-1423 | what is no number is the default, what is out of bounds the nearer bound; hits are 6 by default and 15 at most |
| SparseEnvelope.SelectSparsePathHeads | src/agent-bootstrap.js:407-446 | the envelope is the accepted heads of the selected paths in path order, and represented plus omitted is the full count |
| SparseEnvelope.AddEvidence | src/agent-bootstrap.js:425-427 | the loop over memory items adds their authoritative paths in order |
| SparseEnvelope.AddRanked | src/agent-bootstrap.js:433-441 | the loop over the ranked fallback adds its paths in order |
| SparseEnvelope.PickMeaning | src/agent-bootstrap.js:411-414 | the selected paths are the accepted ones named by the longest stretch of candidates within the cap |
| SparseEnvelope.EvidenceSelected | src/agent-bootstrap.js:422-427 | every accepted path behind an authoritative memory item is selected |
| SparseEnvelope.EnvelopeMeaning | src/agent-bootstrap.js:443-446 | the envelope is the sub-collection of the accepted heads with a selected path |
| SparseEnvelope.EnvelopeCapped | src/agent-bootstrap.js:443-446 | with one head to a path it is as many heads as selected paths, at most 24 |
| SparseEnvelope.MemoryIsRepresented | src/agent-bootstrap.js:422-427 | with the clamped hit limit every accepted head behind an authoritative memory item of the compiled memory is represented |
| SparseEnvelope.FixedMeaning | src/agent-bootstrap.js:416-420 | the fixed candidates are the chain orientation's path and, on request, the two canonical documents |
| SparseEnvelope.EvidenceExact | src/agent-bootstrap.js:422-427 | the evidence candidates are the paths of the chain head and path head items, in memory order |
| SparseEnvelope.RankedExact | src/agent-bootstrap.js:429-441 | the fallback candidates are the paths of the accepted heads with a positive score, the better first and equal ones by path |
| SparseEnvelope.EnvelopeSorted | src/agent-bootstrap.js:443-446 | the envelope stands in path order |
| SizeDiscipline.Package.EnforceSizeDiscipline | src/agent-bootstrap.js:1191-1273 | the package ends at the first reduction that fits or after the last one there is; every reduction before was over budget; exceeded exactly when still over |
| SizeDiscipline.Package.TrimItems | src/agent-bootstrap.js:1222-1233 | the first loop, for memory items |
| SizeDiscipline.Package.TrimSkills | src/agent-bootstrap.js:1237-1252 | the second loop, for skills |
| SizeDiscipline.LastLoose | src/agent-bootstrap.js:1224-1226 | the backwards scan finds the last removable element |
| SizeDiscipline.SpliceTrimmed | src/agent-bootstrap.js:1228 | splicing it out is keeping one removable element less |
| SizeDiscipline.FloorStays | src/agent-bootstrap.js:1209-1215 | the first chain head and first path head items survive every reduction |
| SizeDiscipline.ItemsOfRung | src/agent-bootstrap.js:1222-1233 | all protected items survive and the others are a prefix in order |
| SizeDiscipline.SkillsOfRung | src/agent-bootstrap.js:1235-1252 | the boot skill survives, other skills are a prefix, and none goes while an unprotected item is left |
| SizeDiscipline.ExceededMeansBare | src/agent-bootstrap.js:1268-1273 | after the last reduction only protected items and the boot skill remain |
| SizeDiscipline.StepsMeaning | src/agent-bootstrap.js:1222-1252 | there is one reduction for each unprotected item and then one for each skill but the boot skill |
| SizeDiscipline.RungMeaning | src/agent-bootstrap.js:1222-1252 | after i reductions i entries are gone, memory first, those left stand as they stood, and a list is marked cut exactly when it was before or lost an entry |
| AgentTree.GroupByParent | src/event-plane.js:202-209 | the map holds each parent's children in listing order |
| AgentTree.SelectDescendants | src/event-plane.js:201-230 | the search loop is the level-by-level search |
| AgentTree.SearchExact | src/event-plane.js:211-229 | after n levels the search holds exactly the listed runs whose parent chain first meets the root within n links, each once |
| AgentForest.LinkNodes | src/event-plane.js:71-97 | the loops build each node's children, the roots and the orphan count |
| AgentForest.ProjectAgentTree | src/event-plane.js:70-130 | the projected forest and its orphan count |
| AgentForest.AgentTreeOf | src/event-plane.js:232-257 | the tree of a chosen root is the projection of the root and its descendants |
| AgentForest.VisitCount | src/event-plane.js:100-114 | in the tree of a run another appears at a depth exactly once if the run is its ancestor of that degree, and never otherwise |
| AgentForest.AgentTreeExact | src/event-plane.js:70-130 | for every listing with distinct ids, cycles and missing parents allowed: one root, no orphan, and each run at depth d exactly once if d links within the cap lead to the root, never otherwise |
| AgentShape.ForestShape | src/event-plane.js:83-115 | the runs without a parent stand at the roots in order, and under every run its children in order, down to the cap |
| AgentShape.AgentTreeShape | src/event-plane.js:201-257 | in the tree of a chosen root, down to the cap, under every run hang exactly the listed runs it is the parent of, in listing order and one deeper, but for the root itself |
| AgentShape.ShapeDecides | src/event-plane.js:100-114 | two trees of one shape are the same tree |
| EventQueries.BuildClauses | src/event-journal.js:285-315 | a row satisfies all pushed clauses exactly when every filter asks for it and it is past the cursor |
| EventQueries.ListEventJournal | src/event-journal.js:281-341 | the journal's page and next cursor |
| EventQueries.AskedMeaning | src/event-journal.js:285-313 | which column each filter of the journal reads, and what lies past a cursor |
| EventPaging.LimitMeaning | src/event-plane.js:264-266 | a page holds 20 rows unless asked, and between 1 and 100 |
| EventQueries.WhereAgrees | src/event-plane.js:310-372 | a row whose time the two text orders compare alike with `since` passes the SQL WHERE clause, NULL columns included, exactly when it passes the JavaScript filter, journal_source apart |
| EventQueries.PlaneAnswersAgree | src/event-plane.js:345-487 | where JavaScript's and SQLite's text orders agree on the times and ids compared, the in-memory query and the SQL query give the same answer exactly when neither refuses and journal_source removes nothing from the page and not everything after it |
| EventQueries.PlanePagesAgree | src/event-plane.js:345-487 | where those orders agree, for every page size the in-memory page and the fetch-one-more page are the same exactly when every row that is asked for and past the cursor passes journal_source |
| EventQueries.AsciiAgrees | src/event-plane.js:370-380 | on ASCII text, which the minted ids and times are, order by UTF-8 bytes is order by UTF-16 units |
| EventQueries.QueriesPart | src/event-plane.js:345-487 | two rows of one time whose ids the two orders compare differently, one to a page, are answered differently |
| EventPaging.MatchingMeaning | src/event-journal.js:317-325 | the selection is the matching rows past the cursor, each as often as in the table, strictly newest first |
| EventPaging.NextSelection | src/event-journal.js:308-313 | past the k-th selected key lies exactly the rest of the selection, even after newer rows came in |
| EventPaging.FollowReadsAll | src/event-journal.js:281-341 | following next_cursor to null reads every matching event once, newest first, in floor(n/limit)+1 calls for the journal and max(1, ceil(n/limit)) for the event plane |
| Utf8.RoundTrip | src/event-journal.js:70-83 | decoding encoded text gives it back, for every text without a lone surrogate |
| Utf8.QuotePaired | src/event-journal.js:85-91 | a quoted JSON string has no lone surrogate |
| Base64Url.EncodeUtf8Base64Url | src/event-journal.js:70-75 | the encoding loop is the URL base64 of the UTF-8 bytes |
| Base64Url.PadsAgree | src/event-plane.js:272-275 | the three padding formulas agree on every length |
| Base64Url.UrlForm | src/event-journal.js:70-75 | the encoding uses the URL alphabet of RFC 4648 without padding |
| Base64Url.SextetsBits | src/event-journal.js:70-75 | the sextets hold the bits of the bytes in order, and after them only the zeros that fill the last one |
| Base64Url.Alphabet | src/event-journal.js:70-75 | the URL alphabet of RFC 4648, letter by letter |
| Base64Url.UrlRoundTrip | src/event-journal.js:77-83 | for every byte sequence, restoring the padding by any of the three formulas and decoding gives the bytes back |
| Base64Url.ChallengeIsDigest | src/core-auth.js:298-306 | the PKCE challenge is the unpadded encoding of the digest's bytes |
| Cursors.JournalCursorRoundTrip | src/event-plane.js:268-297 | the event plane's cursor decodes to its pair, for every two strings |
| Cursors.ProjectedCursorRoundTrip | src/event-plane.js:322-342 | as the event plane hands it out, of a projected event, the cursor decodes to its pair exactly when the time is not empty |
| Cursors.EventCursorRoundTrip | src/event-journal.js:85-107 | the journal's cursor exists exactly for two non-empty strings and decodes to their normal forms |
| Cursors.MailboxCursorRoundTrip | src/correspondence.js:1168-1191 | the mailbox cursor decodes to its pair exactly when the time parses and the id is not empty |
| Cursors.EmptyCursor | src/event-plane.js:278-279 | an empty cursor starts at the front and is not an error |
| WireTexts.CursorTexts | src/event-journal.js:85-91 | the exact text each cursor wraps: field names, order and prefix |
| CursorPaging.NextDecodes | src/event-journal.js:85-107 | the next call takes up after a key exactly when the key is in normal form |
| CursorPaging.FollowTextReadsAll | src/event-journal.js:281-341 | passing next_cursor back as text until it is null reads every matching event once, newest first, in the stated number of calls, when the times and ids of the rows are in normal form |
| BrokeredLoop.AllowlistMeaning | src/delegate-loop.js:75-95 | a tool is allowed exactly when some available automatic read entry has it and the profile, if any, lists it |
| BrokeredLoop.RunTurn | src/delegate-loop.js:386-536 | the loop over the intents of one turn |
| BrokeredLoop.RunBrokeredReadLoop | src/delegate-loop.js:271-664 | the whole loop: its stop, its executor calls, its counts |
| BrokeredLoop.TurnLawful | src/delegate-loop.js:386-536 | in one turn every executor call is justified, and when the intent at k is blocked exactly the k before it ran |
| BrokeredLoop.LoopSafety | src/delegate-loop.js:271-664 | against every adversary: allowed tools only, at most max(initial, 16) executed, at most max_turns model calls, nothing past a blocked intent, and ok only with no intents in the last turn or the budget already spent |
| LoopStops.LoopStopExact | src/delegate-loop.js:271-664 | against every adversary, each stop is the one its guards call for: a blocked intent is the first of its turn that its preview, the allowlist, the budget or the executor stops, for that reason, and there is one model call a turn |
| LoopStops.OkExact | src/delegate-loop.js:571-664 | the result is ok exactly for a final answer or a budget already spent, never for the turn limit or a blocked intent |
| LoopStops.OneReason | src/delegate-loop.js:386-520 | an intent runs or is blocked for exactly one reason |
| WorkerPool.Pool.constructor | src/ask.js:228-229 | an empty output and min(limit, n) workers that have not started |
| WorkerPool.Pool.Resume | src/ask.js:231-236 | one resumption of one worker: it stores the result it waited for and claims the next index or returns |
| WorkerPool.MapWithConcurrency | src/ask.js:228-239 | with any scheduler the call ends, and every output is the worker's for its item exactly when the limit is at least one |
| WorkerPool.StepKeepsInv | src/ask.js:231-236 | every resumption keeps each claimed index in exactly one worker's hands or its result stored |
| WorkerPool.EverySchedule | src/ask.js:228-239 | under every schedule each index is claimed once and in order, at most min(limit, n) are in flight, and stored results are right |
| WorkerPool.ScheduleLength | src/ask.js:228-239 | no schedule resumes workers that have not returned more than n + min(limit, n) times, and one that runs to the end does so exactly that often |
| AskPrompt.PackBlocks | src/ask.js:284-304 | the packing loop |
| AskPrompt.BuildAskPrompt | src/ask.js:279-306 | the prompt, the included blocks and the character count, which is the prompt's length |
| AskPrompt.PromptLayout | src/ask.js:284-304 | how the prompt reads: the prefix, then for each part its header, its text and an empty line, one after another |
| AskPrompt.PiecesInOrder | src/ask.js:297-303 | every part but the last is a whole block and the last is a non-empty beginning of one |
| AskPrompt.FirstBlocks | src/ask.js:297-303 | the included blocks are the first ones with any text, in order |
| AskPrompt.WithinBudget | src/ask.js:296-303 | a prompt with any block is within the budget, and a cut fills it to the last character |
| AskPrompt.LeftOut | src/ask.js:296-303 | a block with text is left out exactly when it finds no room, or a block ahead of it, perhaps an empty one, finds none or is cut, every block ahead counted in full |

## Left out

- CodeSession: fields written outside the revision guard (tip vector refresh, receipt references without a base revision, the sandbox pointer) are arbitrary writes and outside the serialization claim; permission checks, secret scanning, payload normalization and the notes of a transition's answer are not modelled.
- CodeSession: failures of refreshing the workspace tip are one error; the reads that only build an answer after the UPDATE are not modelled.
- SessionLeases: one session's table, with equal sort keys in insertion order and each call run to completion; two acquisitions that interleave are not covered.
- SessionLeases: notes, viewer summaries and the stubs copied into checkpoints.
- StableJson: a number is carried as its token, so the conversion between tokens and doubles, minus zero included, is the engine's; a parsed object keeps repeated keys as a list.
- AuthStore: routing aliases, canary admission, wallets, audit columns, scopes and dynamic client rows; nothing in the source writes an account's status, so no call does here.
- AuthLaws: interleaving inside one rotation or one mint.
- AuthCode: the mint that follows a successful claim is one step.
- RateLimiter: concurrent reads of one bucket; the cap on active clients.
- MemoryCompiler: full-text search, the choice of the seeds and the reading of line windows; a row's key is the pair of its hash and ref id, not their joined text.
- SparseEnvelope: the token-overlap score is an arbitrary function; that every structural seed reaches the memory is not promised by the loop and not claimed.
- AgentTree: a run without an id, which the source skips; ids are distinct, as the primary key makes them. Reading and permission checks of the runs are not modelled.
- EventPaging: a failing query, the checks of the caller's identity, and the columns that are only returned. The cursor is the pair of time and id; its text form is in Cursors, and both together in CursorPaging.
- Utf8: malformed bytes decode to nothing instead of to replacement characters, and a leading byte order mark is kept; text made here has neither.
- Base64Url: white space inside an encoded text, which the library decoder drops.
- BrokeredLoop: the wording of grounded tasks, compaction of evidence, receipts and diagnostics; missing dependencies. The adversary's answers are functions of the turn and the calls so far.
- WorkerPool: a worker that throws.
- Tool definitions, request parsing, console views, and the stores of src/conversation-session.js and src/access-grant.js are not part of this model.
- The delegation depth comes from src/task-run.js, where it is 2; the tree is proved for every depth.

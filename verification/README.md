# Proofs about the mobile-auth broker and its companion scripts

The broker pairs a phone with the Gateway through GitHub's device flow, gives it an access
and a refresh token, and forwards its requests. Its memory is one SQLite file behind a
connection pool of size one. This project models that program, and a few small programs
around it, and proves what they promise. `dafny verify dfyconfig.toml` checks everything.

## The broker

`Tables.dfy` gives each SQL statement its meaning on four tables. `Broker.dfy` states every
handler as a function from tables, configuration, clock readings, random draws, GitHub's
answer and a set of faults (each call that may fail) to tables and reply. `Database.dfy` and
`Handlers.dfy` hold the same code as objects whose methods change fields, statement by
statement and with the source's early returns, proved equal to those functions.
`Decisions.dfy` says in the terms of the stored rows alone, case by case, what every request
answers and writes. The laws are stated over runs of any length, at two grains.

* **Serial grain**: one request, one cleanup or one restart is one step (`Broker.IsRun`).
  Single use of refresh tokens, absorbing revocation, chain order, unobservable cleanup,
  device-flow progress and provenance are stated here.
* **Interleaved grain**: a request is a job that makes one call of `internal/db` at a time,
  and any number of jobs interleave (`ForestLaws.IsInterleaving`). The `Alone.Serial*` lemmas
  prove that a job nobody interrupts is the serial step. `Forest.dfy` and `ForestLaws.dfy`
  hold what remains true between overlapping requests, `Races.dfy` the exact conditions of the
  two races that break the serial laws, and `RaceRuns.dfy` whole interleavings that reach them
  from an empty file.
* **Statement grain** (`Pool.dfy`): threads take the single connection, run statements, and
  give it back. `PoolLaws` proves that every schedule runs, between calls, through the systems
  of one interleaving of the grain above, in order and without gaps, and `Pool` that every
  schedule ends with every request finished, while the outer `BeginTx` of the old refresh
  handler can never move again.

Assumptions, all visible in the definitions: random ids and tokens are new (`Broker.Enabled`);
the digest is any function of secret and token, and two tokens count as the same when their
digests agree, so laws across restarts speak of restarts that keep the server secret; the
lower-case table of Unicode is any function of one character; the clock does not go back,
within a step either; times are unbounded integers. Foreign keys are declared in the schema
but SQLite does not enforce them on this connection string, so the model does not either. The
handler methods ask that stored digests be distinct (`Handler.Ready`), which every run keeps
(`Invariants.RunsKeepInv`).

Where a law is false as first expected, its exact condition is proved, and a run that breaks it:

* **Single use while requests overlap.** The UPDATE at `sessions.go:145` does not ask for an
  empty `rotated_at`. After one rotation another refresh with the same token is served if and
  only if its lookup came first, its calls succeed, its device is not revoked and its row is
  still stored (`Races.WhenASecondRefreshIsServed`). `RaceRuns.OneTokenTwoPairs` is an
  interleaving from an empty file that ends in two pairs and two live rows.
* **Revocation while requests overlap.** Let all sessions of a device be revoked at some moment
  of an interleaving. Later some session of it is not, if and only if a request that was in
  flight at that moment made one of its inserts and it succeeded
  (`Races.WhenARevocationIsUndone`): a refresh that had found a row of the device, even one
  whose device check was still to come, or a poll that would pair that device. With none in
  flight revocation is absorbing here too (`Races.RevocationHoldsWithNobodyInFlight`).
  `RaceRuns.ARefreshOutlivesADelete` is a run.
* **Unobservable cleanup.** `DELETE /v1/sessions/current` does not test expiry, so a cleanup
  can take the row by which it would have found the device. At every step of every run, with
  any faults and any number of DELETEs missed so, the grant differs from that of the same run
  without its cleanups if and only if there is one and it is for a token of a device missed
  before (`CleanupLaws.WhenCleanupIsObserved`); as a law of whole runs,
  `CleanupRuns.WhenErasingCleanupsChangesNoGrant`. `SampleRuns.ACleanupHidesADelete` is a run
  that shows it.
* **Chains lose their oldest part.** Expiries along a rotation history are sorted if and only
  if no rotation is out of order, that is, issued a row that expires before the one it replaces
  (`ChainLaws.SortedExactlyInOrder`), which takes a restart with a shorter lifetime
  (`ChainLaws.KeptLifetimesKeepOrder`). A cleanup then takes the new row and leaves the old one
  exactly in the seconds between the two expiries (`ChainLaws.WhenCleanupTakesTheChild`;
  `SampleRuns.AShorterLifetimeLosesTheChild` is the run).
* **One device per transaction, one delivery per transaction.** A pairing closes its
  transaction if and only if it makes all three inserts and does not lose both marks
  (`FlowLaws.PairingCloses`); otherwise the next poll answered in time pairs a second device
  (`FlowLaws.WhenASecondDeviceIsPaired`, an equivalence over runs). A pairing that stops after
  its first insert, and no other, strands a device without sessions for good
  (`FlowLaws.AFaultCanStrandADevice`).
* **Consumed exactly when approved.** This holds in all worlds of a run if and only if no
  pairing writes its consumed mark and loses its status (`FlowLaws.ConsumedExactlyWhenApproved`).
* **An allow list stays a restriction.** The free-model script says that it never touches an
  absent or empty allow list and only replaces its own entries; a non-empty list can still
  become empty, which means "any model" (`FreeModelLaws.WhenTheRestrictionIsLifted`, an
  equivalence).
* **Repeated runs of that script.** A second run is the identity exactly when no row left by an
  earlier catalog subsumes a free model on its own (`FreeModelLaws.WhenOneRunSettles`). Two
  runs settle every configuration exactly for the catalogs in which no free model is the base
  of another and the refs that the pattern of the allow list misses come first
  (`FreeModelLimits.WhenTwoRunsSettleAll`).

## The programs around it

`JsonComments*.dfy`: the comment stripper against a declarative segmentation that is proved
to exist and to be unique; `JsonCommentRules.dfy` gives its rules mark by mark.
`FreeModels.dfy`, `FreeModelRules.dfy`, `FreeModelLaws.dfy`, `FreeModelLimits.dfy`: the
free-model table and allow list. `ShellQuote.dfy`: the `export` lines, read back by the quoting rules of sections
2.2.1 and 2.2.2 of the POSIX.1-2017 Shell Command Language. `Renewal.dfy`: certificate
renewal with issuance as an oracle. `PollLoop.dfy`: the polling client (back-off as in
section 3.5 of RFC 8628). `Relay.dfy`: the WebSocket relay as interleaved goroutines.

## Model

| member | source | states |
|---|---|---|
| Base.CollectableIsExpired | mobile-auth-broker/internal/db/db.go:142-173 | a row that cleanup may delete has been refused by every handler for at least a second, and stays refused |
| Base.ExpiredIsSoonCollectable | mobile-auth-broker/internal/db/db.go:142-173 | a row is expired but not yet collectable exactly within one second after its expiry |
| Base.LastAcceptedInstant | mobile-auth-broker/internal/handler/handler.go:491-494 | rounding to whole seconds puts the last accepted instant in (issue + TTL - 1 s, issue + TTL] |
| Emails.ParseEmails | mobile-auth-broker/internal/config/config.go:123-133 | the loop keeps the trimmed, lower-cased, non-empty fields in order, so that an e-mail is in the result exactly when the string lists it between commas and white space |
| Emails.ScanAllowed | mobile-auth-broker/internal/config/config.go:203-211 | the scan finds the lower-cased e-mail if and only if it is in the parsed list |
| Emails.AllowListMeansNamed | mobile-auth-broker/internal/config/config.go:123-211 | parsing and scanning together accept an e-mail exactly when some non-blank field of the string is that e-mail up to lower case and surrounding space |
| Emails.EmptyIsNeverAllowed | mobile-auth-broker/internal/config/config.go:123-211 | no list ever allows the empty e-mail |
| Emails.SplitIsInverseOfJoin | mobile-auth-broker/internal/config/config.go:124 | the fields join back to the string and hold no comma |
| Emails.TrimSpaceIsCore | mobile-auth-broker/internal/config/config.go:127 | trimming removes white space at both ends and nothing else; WhiteSpaceIs says which characters that is |
| Emails.WhiteSpaceIs | mobile-auth-broker/internal/config/config.go:127 | a character is trimmed exactly when it is one of Unicode's twenty-five white-space characters, listed one by one |
| Emails.AllowListMeansListed | mobile-auth-broker/internal/config/config.go:123-211 | an e-mail is allowed if and only if, up to lower case, it stands in the string between two commas or ends and white space |
| Emails.SecondFieldIsListed | mobile-auth-broker/internal/config/config.go:123-133 | a field behind a comma is allowed whatever blanks, tabs and line breaks surround it |
| DatabaseFile.Database.CreateDeviceAuthorization | mobile-auth-broker/internal/db/device_auth.go:12-25 | inserts a pending row, or changes nothing when the key is taken or the engine refuses |
| DatabaseFile.Database.UpdateDeviceAuthorizationStatus | mobile-auth-broker/internal/db/device_auth.go:68-87 | only the status approved writes the e-mail and the consumed mark with it |
| DatabaseFile.Database.UpdateDeviceAuthorizationPollInterval | mobile-auth-broker/internal/db/device_auth.go:89-96 | stores the interval together with the status slow_down |
| DatabaseFile.Database.MarkDeviceAuthorizationConsumed | mobile-auth-broker/internal/db/device_auth.go:99-107 | sets the consumed mark of that row alone |
| DatabaseFile.Database.CreateMobileDevice | mobile-auth-broker/internal/db/sessions.go:12-21 | inserts an unrevoked device, or changes nothing |
| DatabaseFile.Database.CreateRefreshSession | mobile-auth-broker/internal/db/sessions.go:89-97 | inserts a refresh row without marks, or changes nothing |
| DatabaseFile.Database.GetRefreshSession | mobile-auth-broker/internal/db/sessions.go:100-133 | finds a row with the hash, or there is none |
| DatabaseFile.Database.CreateAccessSession | mobile-auth-broker/internal/db/sessions.go:169-176 | inserts an unrevoked access row, or changes nothing |
| DatabaseFile.Database.GetAccessSession | mobile-auth-broker/internal/db/sessions.go:179-207 | finds a row with the hash, or there is none |
| DatabaseFile.Database.RotateRefreshSession | mobile-auth-broker/internal/db/sessions.go:136-159 | succeeds exactly when no statement is refused and a row has the hash; then the old row gets its mark and one successor is added, written out, else the rollback restores every table |
| DatabaseFile.Database.RevokeAllSessionsForDevice | mobile-auth-broker/internal/db/sessions.go:217-237 | both session tables change together or not at all |
| DatabaseFile.Database.RevokeMobileDevice | mobile-auth-broker/internal/db/sessions.go:61-86 | the device and both session tables change together or not at all |
| DatabaseFile.Database.CleanupExpired | mobile-auth-broker/internal/db/db.go:142-173 | a row stays exactly if its expiry is not before the current second, its table's DELETE was not reached, or it is an approved authorization; rows that stay are unchanged |
| HandlerFile.Handler.HandleCreateDeviceAuthorization | mobile-auth-broker/internal/handler/handler.go:85-148 | the stored transaction and the reply are those of the serial step, for every fault |
| HandlerFile.Handler.FindPrimaryEmail | mobile-auth-broker/internal/handler/handler.go:259-266 | the loop returns the first entry that is primary and verified, and nothing exactly when there is none |
| HandlerFile.Handler.HandleGetDeviceAuthorization | mobile-auth-broker/internal/handler/handler.go:150-421 | tables and reply of a poll are those of the serial step, for every answer of GitHub and every fault |
| HandlerFile.Handler.PairDevice | mobile-auth-broker/internal/handler/handler.go:316-411 | a pairing leaves just what its inserts up to the first failure leave |
| HandlerFile.Handler.HandleRefreshSession | mobile-auth-broker/internal/handler/handler.go:423-554 | tables and reply of a refresh are those of the serial step, for every fault |
| HandlerFile.Handler.HandleRevokeCurrentSession | mobile-auth-broker/internal/handler/handler.go:556-605 | tables and reply of a DELETE are those of the serial step, for every fault |
| HandlerFile.Handler.HandleProxiedRequest | mobile-auth-broker/internal/proxy/proxy.go:267-351 | tables and decision for a proxied request are those of the serial step, for every fault; a forwarded one moves the last-seen mark of its device and no other column |
| Decisions.CreationDecides | mobile-auth-broker/internal/handler/handler.go:85-148 | the stored row of a new transaction with its expiry, or an error and nothing stored |
| Decisions.ClosedTransactionDecides | mobile-auth-broker/internal/handler/handler.go:159-182 | replies to polls of unknown and consumed transactions, which change nothing |
| Decisions.LateTransactionDecides | mobile-auth-broker/internal/handler/handler.go:184-203 | an expired transaction is marked, a settled one answered with its status |
| Decisions.AnswerWithoutTokenDecides | mobile-auth-broker/internal/handler/handler.go:205-256 | reply and row for each answer of GitHub that brings no token |
| Decisions.PrimaryEmailIs | mobile-auth-broker/internal/handler/handler.go:259-266 | the chosen e-mail is that of the first primary verified entry, and empty without one |
| Decisions.NoUsableEmailDecides | mobile-auth-broker/internal/handler/handler.go:268-289 | without a usable e-mail the transaction is denied |
| Decisions.UnlistedEmailDecides | mobile-auth-broker/internal/handler/handler.go:291-311 | with a first primary verified e-mail off the list it is forbidden |
| Decisions.ListedEmailDecides | mobile-auth-broker/internal/handler/handler.go:313-411 | with a listed one the poll answers approved with that e-mail and stores device, sessions and marks with these columns, or stops at the failing insert |
| Decisions.UnknownRefreshTokenDecides | mobile-auth-broker/internal/handler/handler.go:423-448 | replies to refresh requests without a stored token |
| Decisions.RefreshDecides | mobile-auth-broker/internal/handler/handler.go:423-554 | reply and rows for every state of the stored token, its device and every fault |
| Decisions.UnknownAccessTokenDecides | mobile-auth-broker/internal/proxy/proxy.go:267-297 | replies to requests without a stored access token, DELETE included |
| Decisions.ProxiedRequestDecides | mobile-auth-broker/internal/proxy/proxy.go:267-351 | reply and rows for every state of the access token, its device, the allow list and every fault |
| Decisions.SecondListedEmailIsForwarded | mobile-auth-broker/internal/proxy/proxy.go:325-351 | a live token of a device whose e-mail is the padded second field of the list is forwarded |
| Decisions.DeleteDecides | mobile-auth-broker/internal/handler/handler.go:573-605 | a DELETE with a stored token marks just the sessions of its device, at this second |
| Decisions.CleanupDecides | mobile-auth-broker/internal/db/db.go:142-173 | exactly which rows each of the three DELETEs removes |
| Decisions.CleanedTransactionIsNotFound | mobile-auth-broker/internal/db/db.go:146-149 | a transaction that a cleanup took is unknown to the next poll |
| Decisions.TokensOfAnotherSecretAreRefused | mobile-auth-broker/internal/config/config.go:196-201 | with an injective digest, tokens of one server secret are refused under another of the same length |
| Invariants.RotateEffect | mobile-auth-broker/internal/db/sessions.go:136-159 | a committed rotation marks the old row, adds one successor on the same device and changes no other row |
| Invariants.RevokeAllEffect | mobile-auth-broker/internal/db/sessions.go:217-237 | the revocation always commits and marks exactly the device's rows |
| Invariants.ApproveEffect | mobile-auth-broker/internal/handler/handler.go:316-411 | which rows a pairing leaves, table by table, for each point at which it can fail |
| Invariants.NextKeepsInv | mobile-auth-broker/internal/handler/handler.go:150-605 | every step keeps the invariant: distinct digests, one live refresh row a device, stored parents spent, one owner a digest |
| Invariants.RunsKeepInv | mobile-auth-broker/internal/handler/handler.go:150-605 | the invariant holds in every world of every run |
| SessionLaws.RefreshRowsEvolve | mobile-auth-broker/internal/db/sessions.go:89-159 | in any step a refresh row keeps all but its marks, or is new, with a new digest, for a new device or one that still holds an unrevoked row |
| SessionLaws.RefreshTokensAreSingleUse | mobile-auth-broker/internal/handler/handler.go:423-532 | a refresh token exchanged once is never exchanged again, across cleanups, restarts and failures (section 6 of RFC 6749) |
| SessionLaws.OneLiveRowPerDevice | mobile-auth-broker/internal/db/sessions.go:136-159 | in every reachable world a device has at most one unrotated refresh row |
| SessionLaws.RevocationIsForever | mobile-auth-broker/internal/handler/handler.go:450-478 | once all sessions of a device are revoked, no later step accepts any token of it or forwards a request as it, restarts included |
| SessionLaws.RevokedDeviceIsRefused | mobile-auth-broker/internal/proxy/proxy.go:299-323 | no token of a fully revoked device is accepted |
| SessionLaws.DeleteRevokesTheDevice | mobile-auth-broker/internal/handler/handler.go:573-605 | DELETE with a stored access token, expired or not, revokes the whole device unless its lookup or its transaction fails |
| SessionLaws.OffListRequestRevokesTheDevice | mobile-auth-broker/internal/proxy/proxy.go:325-343 | a request whose e-mail left the allow list is refused and revokes the whole device |
| ChainLaws.ChainsLoseOnlyTheirOldestPart | mobile-auth-broker/internal/db/db.go:154-158 | while no rotation of the device is out of order, its stored refresh rows are a contiguous suffix of its full rotation history, linked and with expiries that never decrease |
| ChainLaws.IssueExtendsHistory | mobile-auth-broker/internal/db/sessions.go:150-154 | a pairing opens an empty history, and a rotation extends it at its newest row, never in the middle, whatever was cleaned up |
| ChainLaws.CleanupMovesCut | mobile-auth-broker/internal/db/db.go:154-158 | a cleanup removes a prefix of the stored part of a sorted history |
| ChainLaws.SuffixIffSorted | mobile-auth-broker/internal/db/db.go:154-158 | every cleanup leaves a suffix of what is stored of a history if and only if the expiries of that part are sorted |
| ChainLaws.HistoryHolds | mobile-auth-broker/internal/db/sessions.go:89-159 | in every run the rows ever issued to a device are linked parent to child, and only the newest can be rotated |
| ChainLaws.WhenOrderIsKept | mobile-auth-broker/internal/handler/handler.go:491-532 | a step keeps the expiries of a history sorted if and only if it is no rotation whose new row expires before the old one |
| ChainLaws.SortedExactlyInOrder | mobile-auth-broker/internal/handler/handler.go:491-532 | over whole runs, the expiries along a history never decrease if and only if no rotation of the device was out of order |
| ChainLaws.KeptLifetimesKeepOrder | mobile-auth-broker/internal/handler/handler.go:491-494 | no rotation is out of order while no restart shortens the refresh lifetime |
| ChainLaws.WhenCleanupTakesTheChild | mobile-auth-broker/internal/db/db.go:154-158 | after a rotation out of order a cleanup parts child from parent exactly between their two expiries |
| SampleRuns.AShorterLifetimeLosesTheChild | mobile-auth-broker/internal/db/db.go:154-158 | pair, restart with a shorter lifetime, refresh, clean up: a run from an empty file that keeps the spent row and loses the live one |
| FlowLaws.TransactionsOnlyAdvance | mobile-auth-broker/internal/db/device_auth.go:68-107 | between any two moments status rank and poll interval never decrease, a consumed row never changes, a deleted one never returns |
| FlowLaws.ConsumedExactlyWhenApproved | mobile-auth-broker/internal/db/device_auth.go:68-87 | in all worlds of a run every transaction is consumed exactly when it is approved, if and only if no pairing writes the consumed mark and loses the status |
| FlowLaws.WhenAPollKeepsConsumed | mobile-auth-broker/internal/handler/handler.go:380-411 | the same equivalence for a single poll, any answer and any faults |
| FlowLaws.DeliveryCloses | mobile-auth-broker/internal/handler/handler.go:380-411 | a delivery closes its transaction if and only if not both marks are lost |
| FlowLaws.ClosedDeliversNothing | mobile-auth-broker/internal/handler/handler.go:172-182 | a closed transaction delivers and pairs nothing, whatever GitHub answers |
| FlowLaws.AtMostOneDelivery | mobile-auth-broker/internal/handler/handler.go:172-411 | a transaction delivers at most one token pair, and pairs no device after it |
| FlowLaws.PairingCloses | mobile-auth-broker/internal/handler/handler.go:313-411 | a poll that pairs a device closes its transaction if and only if all three inserts are made and not both marks are lost; otherwise it leaves the transaction as it was |
| FlowLaws.OneDevicePerTransaction | mobile-auth-broker/internal/handler/handler.go:313-411 | after a poll that pairs a device with its three inserts and not both marks lost, no later poll pairs or delivers through that transaction |
| FlowLaws.WhenASecondDeviceIsPaired | mobile-auth-broker/internal/handler/handler.go:313-411 | over runs: the next poll answered in time pairs a second device if and only if the first pairing stopped early or lost both marks |
| FlowLaws.LostMarksAllowASecondDelivery | mobile-auth-broker/internal/handler/handler.go:380-382 | with both marks lost the next poll delivers a second time |
| FlowLaws.AFaultCanStrandADevice | mobile-auth-broker/internal/handler/handler.go:322-360 | a pairing leaves a device without sessions if and only if it stops after its first insert, and such a device never gets one |
| FlowLaws.PrimaryEmailIsReported | mobile-auth-broker/internal/handler/handler.go:259-266 | the chosen e-mail is the first that GitHub reports as primary and verified |
| FlowLaws.DevicesArePaired | mobile-auth-broker/internal/handler/handler.go:313-326 | every stored device was paired by an earlier approvable poll with just this e-mail; one that ever had a session got past its second insert |
| FlowLaws.ForwardedEmailsComeFromGitHub | mobile-auth-broker/internal/proxy/proxy.go:267-351 | every forwarded e-mail was the first that GitHub reported primary and verified to the poll that paired the device, was answered with if all inserts were made, and names a field of the allow list then and now |
| CleanupLaws.WhenCleanupIsObserved | mobile-auth-broker/internal/db/db.go:142-173 | at every step of every run, with any faults, the grant differs from that of the same run without cleanups if and only if it is made for a token of a device that an earlier DELETE missed; the run without cleanups then grants nothing |
| CleanupLaws.CleanupIsUnobservable | mobile-auth-broker/internal/db/db.go:142-173 | with its cleanups skipped, every step of a run stays possible and grants the same, if no DELETE before it came after a cleanup that took the row of its token |
| CleanupLaws.DeletesInTimeAreNotMissed | mobile-auth-broker/internal/handler/handler.go:573-588 | a DELETE whose token has not expired is never missed, whatever cleanups came before |
| CleanupRuns.WhenErasingCleanupsChangesNoGrant | mobile-auth-broker/internal/db/db.go:142-173 | erasing all cleanups from any run leaves a run, with the same sequence of grants if and only if no step is granted on a token of a device missed before |
| CleanupRuns.ErasingCleanupsChangesNoGrant | mobile-auth-broker/internal/db/db.go:142-173 | and so with the same grants if no DELETE was missed |
| MissedDeletes.WhenCleanupHidesADelete | mobile-auth-broker/internal/handler/handler.go:573-588 | when exactly a cleanup, whole or broken off, changes which sessions the DELETE right after it revokes, for any faults |
| MissedDeletes.WhenAMissedDeleteChangesAGrant | mobile-auth-broker/internal/handler/handler.go:573-605 | right after a missed DELETE a request is granted differently if and only if it is granted on a token of that device or of one missed before |
| MissedDeletes.FaultlessGrants | mobile-auth-broker/internal/proxy/proxy.go:267-351 | and without faults it is granted exactly when row, device and allow list pass the tests of the request |
| MissedDeletes.MissedDeletesAreLost | mobile-auth-broker/internal/handler/handler.go:573-605 | any number of steps after a missed DELETE, whatever is granted on a token of its device is not granted without the cleanups |
| SampleRuns.ACleanupHidesADelete | mobile-auth-broker/internal/handler/handler.go:573-588 | pair, clean up, delete, refresh: a run from an empty file whose refresh is granted, and refused when the cleanup is left out |
| Alone.SerialCreate | mobile-auth-broker/internal/handler/handler.go:85-148 | a creation that nobody interrupts is the serial creation |
| Alone.SerialRefresh | mobile-auth-broker/internal/handler/handler.go:423-554 | a refresh job that nobody interrupts is the serial refresh |
| Alone.SerialDelete | mobile-auth-broker/internal/handler/handler.go:556-605 | a DELETE job that nobody interrupts is the serial DELETE |
| Alone.SerialProxy | mobile-auth-broker/internal/proxy/proxy.go:267-351 | a proxied job that nobody interrupts is the serial request |
| Alone.SerialPoll | mobile-auth-broker/internal/handler/handler.go:150-421 | a poll job that nobody interrupts is the serial poll |
| Alone.SerialCleanup | mobile-auth-broker/internal/db/db.go:142-173 | the three DELETE statements without interruption are the serial cleanup |
| Jobs.FailedCallsEndTheRequest | mobile-auth-broker/internal/handler/handler.go:423-605 | a failed call is answered with a server error, but for the writes whose error the handlers ignore |
| Forest.CallKeepsForest | mobile-auth-broker/internal/db/sessions.go:136-159 | every call of every job, failing or not, keeps the refresh forest, and changes stored rows in their marks only |
| ForestLaws.FreshJobsFormAForest | mobile-auth-broker/internal/db/db.go:22-53 | any requests at their start on an empty file satisfy the invariant, so the laws below apply to them |
| ForestLaws.StoredParentsAreSpent | mobile-auth-broker/internal/db/sessions.go:136-159 | in every interleaving a stored parent is on its child's device, older, and rotated |
| ForestLaws.ParentsAreAcyclic | mobile-auth-broker/internal/db/sessions.go:150-154 | parent links never lead back |
| ForestLaws.MarksNeverClear | mobile-auth-broker/internal/db/sessions.go:136-237 | rotated and revoked marks never clear, and nothing else of a row ever changes |
| ForestLaws.LookupAfterRotationFails | mobile-auth-broker/internal/handler/handler.go:437-470 | a refresh that looks its token up after a committed rotation is turned away |
| ForestLaws.RotatingAGoneRowChangesNothing | mobile-auth-broker/internal/db/sessions.go:136-159 | rotating a row that cleanup took meanwhile changes no table and answers with an error |
| ForestLaws.TwoLookupsTwoRotations | mobile-auth-broker/internal/db/sessions.go:145 | two rotations of one row that both looked it up: both succeed, and two live rows remain |
| Races.WhenASecondRefreshIsServed | mobile-auth-broker/internal/handler/handler.go:437-532 | once one refresh of a token has rotated, another one gets a pair if and only if its lookup came before that commit and every later call it makes passes; else it is refused |
| RaceRuns.OneTokenTwoPairs | mobile-auth-broker/internal/db/sessions.go:145 | an interleaving of a creation, a poll and two refreshes from an empty file, without failures, that hands out two pairs for one token and leaves two live rows |
| Races.WhenACallUndoesARevocation | mobile-auth-broker/internal/db/sessions.go:217-237 | with all sessions of a device revoked, one call makes an unrevoked one if and only if it is an insert for that device and succeeds |
| Races.WhenARevocationIsUndone | mobile-auth-broker/internal/db/sessions.go:217-237 | over whole interleavings: some session of a fully revoked device is later unrevoked if and only if a request in flight at the revocation made one of its inserts and it succeeded |
| Races.RevocationHoldsWithNobodyInFlight | mobile-auth-broker/internal/db/sessions.go:217-237 | with no request of the device in flight, all its sessions stay revoked in every continuation |
| Races.ALookedUpRefreshUndoesARevocation | mobile-auth-broker/internal/handler/handler.go:437-532 | a refresh whose device check is still to come passes it and makes an unrevoked session two calls later |
| RaceRuns.ARefreshOutlivesADelete | mobile-auth-broker/internal/handler/handler.go:456-605 | an interleaving from an empty file in which a DELETE answers with every session revoked and a refresh then makes new ones |
| RaceRuns.SuchRequestsExist | mobile-auth-broker/internal/handler/handler.go:423-605 | concrete requests that meet the hypotheses of both interleavings |
| Pool.EveryMoveIsACallOrNothing | mobile-auth-broker/internal/db/sessions.go:64-85 | on the single connection, tables between calls change by one whole call or not at all, rollback included |
| PoolLaws.SchedulesRefineInterleavings | mobile-auth-broker/internal/db/db.go:36-37 | every schedule of statements runs, between calls, through the systems of one interleaving of indivisible calls, in order, none left out |
| PoolLaws.ForestBetweenCalls | mobile-auth-broker/internal/db/db.go:36-37 | the refresh forest holds between calls of every schedule of statements |
| Pool.SomebodyCanMove | mobile-auth-broker/internal/db/db.go:36-37 | no deadlock: while a request is unfinished some thread can move |
| Pool.EveryRequestFinishes | mobile-auth-broker/internal/db/db.go:36-61 | every schedule is bounded by the work at its start, and one that cannot go on has finished every request |
| Pool.OuterTransactionDeadlocks | mobile-auth-broker/internal/handler/handler.go:518-527 | the former outer BeginTx blocks its own thread and every other for good |
| JsonComments.StripJsonComments | scripts/populate-openrouter-free-models.mjs:278-331 | the scan yields code and strings verbatim, a newline for each line comment, its newlines for each block comment |
| JsonComments.SkipLine | scripts/populate-openrouter-free-models.mjs:308-310 | stops at the first newline, or at the end |
| JsonComments.SkipBlock | scripts/populate-openrouter-free-models.mjs:317-322 | stops at the first closing mark, or at the end, and yields as many newlines as it passed |
| JsonComments.LexIsASegmentation | scripts/populate-openrouter-free-models.mjs:278-331 | every text has a segmentation into code, strings and comments that concatenates back to it |
| JsonComments.SegmentationIsUnique | scripts/populate-openrouter-free-models.mjs:278-331 | and it has only one |
| JsonCommentLaws.RenderingIsDetermined | scripts/populate-openrouter-free-models.mjs:278-331 | the output is the rendering of any segmentation that follows the rules |
| JsonCommentLaws.OutputHasNoComments | scripts/populate-openrouter-free-models.mjs:278-331 | the output opens no comment outside its strings |
| JsonCommentLaws.StrippingSettles | scripts/populate-openrouter-free-models.mjs:278-331 | stripping is idempotent, and the identity exactly on texts without comments |
| JsonCommentLaws.LinesAreKept | scripts/populate-openrouter-free-models.mjs:307-325 | the number of newlines is kept, plus one exactly when the text ends inside a line comment |
| JsonCommentLaws.BlockCommentsJoinTokens | scripts/populate-openrouter-free-models.mjs:316-325 | a block comment on one line leaves nothing: the output is that of what precedes it joined to that of what follows it |
| JsonCommentLaws.TwoDigitsBecomeOneNumber | scripts/populate-openrouter-free-models.mjs:316-325 | two numbers with a comment between them become one number |
| JsonCommentRules.StringsAreKept | scripts/populate-openrouter-free-models.mjs:292-305 | a string in double or in single quotes is copied as it is, with the text behind it stripped on its own |
| JsonCommentRules.OpenStringsAreKept | scripts/populate-openrouter-free-models.mjs:292-305 | so is one that the text ends before closing, in the middle of an escape too |
| JsonCommentRules.CommentBehindAString | scripts/populate-openrouter-free-models.mjs:292-312 | slashes inside a string stay, the comment behind it goes |
| JsonCommentRules.LineCommentLeavesItsNewline | scripts/populate-openrouter-free-models.mjs:307-312 | a line comment leaves its newline and the rest of the text stripped on its own |
| JsonCommentRules.LastLineCommentLeavesANewline | scripts/populate-openrouter-free-models.mjs:307-312 | at the end of the text it leaves one too |
| JsonCommentRules.BlockCommentLeavesItsNewlines | scripts/populate-openrouter-free-models.mjs:316-325 | a block comment leaves as many newlines as it holds |
| JsonCommentRules.OpenBlockCommentLeavesItsNewlines | scripts/populate-openrouter-free-models.mjs:316-325 | so does one that is never closed |
| JsonCommentRules.OtherCharactersAreKept | scripts/populate-openrouter-free-models.mjs:327-328 | a character that opens nothing is copied |
| JsonCommentRules.LoneSlashIsKept | scripts/populate-openrouter-free-models.mjs:307-328 | and so is a slash that starts no comment |
| FreeModels.FilterOutSubsumed | scripts/populate-openrouter-free-models.mjs:411-435 | the id-set loop keeps exactly the free rows whose base id no existing row has |
| FreeModels.RunScript | scripts/populate-openrouter-free-models.mjs:569-593 | without a free model in the catalog nothing changes; with one the base URL is kept or set to OpenRouter's, an absent or empty allow list and everything else stays |
| FreeModels.FreeRowsAre | scripts/populate-openrouter-free-models.mjs:569-571 | every row made from the catalog is tagged, has a free id and comes from an entry |
| FreeModelRules.FilterPicks | scripts/populate-openrouter-free-models.mjs:427-435 | filtering picks exactly the elements with the property, in their order |
| FreeModelRules.DedupPicks | scripts/populate-openrouter-free-models.mjs:519-525 | deduplication picks exactly the first occurrences, in their order |
| FreeModelRules.TableAfterARun | scripts/populate-openrouter-free-models.mjs:427-470 | position by position: the untagged rows, then the free entries whose base no row had |
| FreeModelRules.AllowListAfterARun | scripts/populate-openrouter-free-models.mjs:497-529 | position by position: the first occurrences among the refs that do not look free and the refs of the added entries |
| FreeModelLaws.RunReplacesTaggedRows | scripts/populate-openrouter-free-models.mjs:427-470 | untagged rows keep order and multiplicity; tagged rows are replaced by rows whose base id no untagged row has |
| FreeModelLaws.AllowListFollowsTable | scripts/populate-openrouter-free-models.mjs:497-529 | an absent or empty list is untouched; otherwise its free refs are the tagged rows' refs and all other refs stay in first-occurrence order without duplicates |
| FreeModelLaws.WhenTheRestrictionIsLifted | scripts/populate-openrouter-free-models.mjs:502-513 | a non-empty list becomes empty if and only if it held free refs only and every free model is subsumed |
| FreeModelLaws.WhenOneRunSettles | scripts/populate-openrouter-free-models.mjs:584-593 | when exactly a second run changes nothing |
| FreeModelLaws.FreeTaggedRowsSettle | scripts/populate-openrouter-free-models.mjs:584-593 | it changes nothing if all tagged rows to start with have free ids |
| FreeModelLaws.TwoRunsSettle | scripts/populate-openrouter-free-models.mjs:584-593 | from any configuration a third run changes nothing |
| FreeModelLaws.NestedSuffixesKeepMoving | scripts/populate-openrouter-free-models.mjs:425-434 | with nested `:free` suffixes in the catalog the runs do not settle by the third |
| FreeModelLimits.WhenTwoRunsSettleAll | scripts/populate-openrouter-free-models.mjs:411-593 | two runs settle every configuration if and only if no free model of the catalog is the base of another and the refs that the allow-list pattern misses come first |
| ShellQuote.PrintExports | scripts/resolve-keypool-vault.mjs:79-92 | evaluated by a shell, the output sets exactly the settings the vault gives; nothing is printed if and only if there are none |
| ShellQuote.CollectLines | scripts/resolve-keypool-vault.mjs:80-87 | the loop emits one line for each target with a usable key, in order |
| ShellQuote.EvaluateIsInverse | scripts/resolve-keypool-vault.mjs:26-28 | reading back by the shell's quoting rules returns every value, with quotes, backslashes and newlines in it |
| ShellQuote.SubstitutionDropsOneNewline | scripts/resolve-keypool-vault.mjs:92 | command substitution removes the final newline and nothing of the last value |
| ShellQuote.OneSettingPerTarget | scripts/resolve-keypool-vault.mjs:80-87 | one setting, the comma-join of its keys that are not expired, for each target that has one, and no variable twice |
| ShellQuote.EachVariableHasItsProvider | scripts/resolve-keypool-vault.mjs:80-87 | each of the five variables is set exactly by the usable keys of its own provider, and no other is set |
| ShellQuote.UsableKeysAre | scripts/resolve-keypool-vault.mjs:80-87 | the keys whose kind is not expired, in their order |
| ShellQuote.PrintedLineByLine | scripts/resolve-keypool-vault.mjs:79-92 | the printed text, line by line |
| ShellQuote.EscapedCharacter | scripts/resolve-keypool-vault.mjs:26-28 | a single quote is printed as four characters, every other character as itself |
| ShellQuote.AQuotedKey | scripts/resolve-keypool-vault.mjs:26-28 | a printed line with a quote in it, read back |
| Renewal.Manager.Start | mobile-auth-broker/internal/tlscert/tlscert.go:95-109 | succeeds exactly with a cached certificate good for thirty days or a newly obtained one, and then holds it |
| Renewal.Manager.RenewLoop | mobile-auth-broker/internal/tlscert/tlscert.go:111-125 | after any number of ticks the held certificate is the one the oracle's answers determine |
| Renewal.OneMoreTick | mobile-auth-broker/internal/tlscert/tlscert.go:111-129 | what one tick does, twelve hours after the last, with less than thirty days left or more |
| Renewal.AlwaysServes | mobile-auth-broker/internal/tlscert/tlscert.go:111-138 | once there is a certificate there always is one |
| Renewal.SixtyTicks | mobile-auth-broker/internal/tlscert/tlscert.go:53-56 | the renewal window of a certificate holds exactly sixty ticks |
| Renewal.ExpiryTakesSixtyFailures | mobile-auth-broker/internal/tlscert/tlscert.go:111-129 | if an expired certificate is in force, every tick of its window asked for another in vain; only the sixtieth request may still be running |
| PollLoop.Poll | mobile-auth-broker/tools/device-flow-validate/src/main.rs:163-216 | how many requests are made and how the loop ends, for every sequence of answers and delays; it always ends |
| PollLoop.EndsOnce | mobile-auth-broker/tools/device-flow-validate/src/main.rs:170-215 | the environment determines requests and outcome |
| PollLoop.WaitsAre | mobile-auth-broker/tools/device-flow-validate/src/main.rs:163-199 | how long each wait is: at least a second, five more after each slow-down |
| PollLoop.HowItEnds | mobile-auth-broker/tools/device-flow-validate/src/main.rs:170-216 | which last answers go with which outcome, five network errors in a row among them, and that none came earlier |
| PollLoop.AtMostTimeoutRequests | mobile-auth-broker/tools/device-flow-validate/src/main.rs:167-178 | at most as many requests as the timeout has seconds |
| PollLoop.SlowDownsAreQuadratic | mobile-auth-broker/tools/device-flow-validate/src/main.rs:192-199 | k slow-down replies after a first wait of p seconds, at least one, force (k-1)p + 5(k-1)(k-2)/2 below the timeout |
| Relay.EveryStateIsSound | mobile-auth-broker/internal/proxy/proxy.go:164-207 | in every interleaving each leg writes an in-order prefix of what it read, at most one message behind, and done is closed at most once |
| Relay.NothingFollowsAClose | mobile-auth-broker/internal/proxy/proxy.go:353-371 | what was written stays written, and nothing follows a forwarded close on its leg |
| Relay.PumpsStopSoon | mobile-auth-broker/internal/proxy/proxy.go:164-207 | once the handler has returned the pumps take at most ten more steps |
| Relay.NothingHangs | mobile-auth-broker/internal/proxy/proxy.go:164-207 | a state without a step of its own is the idle relay, or one where all have ended and done was closed once |
| Relay.AMessageIsRelayed | mobile-auth-broker/internal/proxy/proxy.go:353-371 | a message read on one side can be written to the other, and only that leg changes |
| Relay.ACloseIsForwarded | mobile-auth-broker/internal/proxy/proxy.go:353-371 | a close frame read on one side can be sent on |
| Relay.AnErrorEndsTheRelay | mobile-auth-broker/internal/proxy/proxy.go:164-207 | any other read error leads to done being closed, then the gateway connection, then the client's |

## Left out

- Header, path and JSON parsing, routing, log lines, health endpoints, rate limiting (always true in the source) and the denied-prefix test: read off one branch each.
- Encryption of the device code, user codes, verification URIs and device metadata: stored and returned, never decided on.
- The audit table: a write that no handler reads; it appears only as a call that occupies the connection (after a denial, pairing, refresh, DELETE or off-list request, and around a WebSocket session).
- The tailnet bypass at `proxy.go:262-266`: forwards a fixed identity without a token, so the provenance law excludes it.
- `ListPendingDeviceAuthorizations`, `RevokeRefreshSession`, `RevokeAccessSession`, and the lists that `GetDeviceSessions` returns: no handler uses them; `GetDeviceSessions` is modelled as two lookups that take the connection.
- SHA-256, random generation and the SQLite engine: any digest function, fresh draws, tables as maps. Ids and digests are numbers, since they are only compared.
- GitHub, ACME, OpenRouter and the vault: arbitrary answers.
- Reading, pretty-printing and atomically renaming files, vault decryption, key parsing from the environment, and the fields of a model row other than id and tag, which are one opaque value.
- Values in configuration files that are not of the expected type, other than a model id that is not a string, a `models` or `allow` that is not an array, and a missing `keys`.
- Wrap-around of times and of the Rust interval: both are unbounded here.
- FreeModelLaws.TwoRunsSettle: for catalogs whose free ids have a non-empty base without line breaks that does not itself end in `:free`; the exact catalogs are those of FreeModelLimits.WhenTwoRunsSettleAll.
- ShellQuote.PrintExports: for keys without NUL, which no shell word can hold.
- Renewal.ExpiryTakesSixtyFailures: for certificates issued for at least thirty days and issuance that ends before the next tick; a cached certificate that passed the check just before the ticker was made can lack one of the sixty ticks.
- Ping and pong control frames of the relay, and a failing dial or upgrade before the pumps start.

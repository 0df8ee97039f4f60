# Verified model of the Gradido Blockchain Connector

The Gradido Blockchain Connector signs transactions for community users and hands
them to Iota or to a Gradido Node. This project models the parts of it that keep
state and proves what holds over all their runs:

- **Rate limiter** (`RateLimiterProtocol.dfy`, `RateLimiterTheorems.dfy`, `RateLimiter.dfy`). Any number
  of callers, one instruction per step, contend for the slots of the password encryption.
- **Pending list** (`PendingLog.dfy`, `Convergence.dfy`, `Listener.dfy`). The bounded list of sent
  transactions, fed by the senders and updated by `/notify`.
- **Sending** (`Transactions.dfy`, `Pipeline.dfy`, `Recipients.dfy`, `Handlers.dfy`, `SendRuns.dfy`,
  `SendConservation.dfy`, `HandlerRuns.dfy`, `Pack.dfy`). Finding the recipient, signing, sending and recording,
  and the outbound/inbound pairs between two groups, first as the handlers do it and then with all requests
  interleaved and failing anywhere.
- **Arithmetic** (`Decay.dfy`, `MonthlyCap.dfy`, `CreationRuns.dfy`). The decay tolerance and the monthly creation
  cap, with a rounding after every operation.
- **Schema migration** (`Migration.dfy`, `MigrationRuns.dfy`). One run, and any number of processes
  migrating one database and dying between any two statements.
- **Login** (`Sql.dfy`, `Login.dfy`, `LoginTheorems.dfy`, `LoginRuns.dfy`, `BackupRuns.dfy`, `SessionManager.dfy`,
  `SessionRuns.dfy`). Create-or-login over the user, group and backup tables with any statement failing, one login
  after the other and interleaved, behind the expiring session cache.
- **Transaction list** (`Encoding.dfy`, `ListTransactions.dfy`, `Memo.dfy`). One batched name lookup, and memos
  shown as text again; base64 is that of section 4 of RFC 4648.

Objects whose methods update fields are classes; what each method does is tied to a
function of the old state, and the theorems are about that function. What comes from
outside (clock, node, Iota, database failures, cryptography, the other threads) enters as parameters.

## Where a promise of the code does not hold

- The monthly cap is checked against what the node reports and the creation is sent later.
  `RaceReachesBound` gives, for every k, a run without any rounding in which k creations of 1000 end up in one
  month. `TotalIsBounded` says what does hold: with at most k creations of a month between check and send the
  total is at most k times the limit. Without rounding the cap holds in all runs if and only if k is at most 1
  (`CapHoldsIffOneAtATime`).
- A creation within 1000 can be refused, because both numbers are rounded when they are parsed. Over all roundings
  of relative error u that keep order and 1000, none refuses it if and only if the total times 1 + u is at most
  1000, or one of the two numbers is zero and the other at most 1000 (`NeverRefusedIff`). 500 and 500 are refused by
  such a rounding for every u above 0, also by one that leaves its own results alone (`HalvesNeverRefusedIff`). When
  both numbers can be represented nothing within 1000 is refused (`NothingRefusedWithinCap`).
- Two logins under one name at the same time can both be given a token although the cache keeps one session; the
  other token is then refused. While sessions do not expire, all tokens of a name stay good in all runs if and only
  if no two of its logins are between their look into the cache and their add (`TokensStayGoodIffOneAtATime`).
- A transfer looks its group up with LIKE but sends only under a valid alias. A transfer to another group that the
  handler lets through, and in which everything else goes well, is cut between its halves if and only if the
  recipient's alias is not valid, that is, not written as in the row it finds (`TransferIsCutIffAliasInvalid`).
  Another upper and lower case of a stored alias finds the same group and recipient; it then cuts the transfer if
  the transfer is archived or the node knows the recipient under that spelling too, and otherwise nothing is sent
  (`OtherSpellingCutsTransfer`, `UpperCaseIsOtherSpelling`). Moving an address checks both aliases first
  (`MovesAreNotStoppedByAliases`).
- Transfers and creations look the recipient's name up with LIKE too. The user found is the one who logs in under
  that name, for every table, if and only if the name has no wildcard and no escape
  (`RecipientIsTheUserIffPlain`); `OtherMatchOf` computes a name that is found instead.
- A notification that arrives before the push of its transaction is lost (`EarlyNotificationIsLost`).
- The list handler skips the whole rewriting when no transaction has a key, so its result is the
  one-by-one result exactly when the list is empty or somebody is linked (`WhenBatchingAgrees`).
- The expression for base64 also takes texts that encode nothing: `A===`, `AB==` and `AAB=`
  (`RecognisedButNoEncoding`). A text is an encoding if and only if the expression takes it, it has at most two
  padding characters, and the digit before them leaves no bits over (`EncodingIffRecognisedAndClean`).
- Packing builds a pair also for two equal aliases, although the repository's own test
  (test/JSONInterface/TestJsonPackTransaction.cpp:420-438) expects one transaction; `WhenPackAgrees` and
  `WhenPackedTransferAgrees` give the exact conditions under which packing and sending build the same transactions.
- The comment at src/JSONInterface/JsonTransaction.cpp:62 says one hour; the code says 60 hours, and so does `IsArchive`.

## Model

| member | source | states |
|---|---|---|
| RateLimiterTheorems.SlotSafety | src/PasswordEncryptionRateLimiter.cpp:33-50 | In every reachable state the running set is exactly the names of the callers between insert and erase, these names are distinct, at most cpuCount callers encrypt, none of them holds the lock, and at most one caller is inside the lock. |
| RateLimiterTheorems.RefusedIff | src/PasswordEncryptionRateLimiter.cpp:37-39 | A check is refused if and only if cpuCount other callers hold slots or another caller holds one under the same name. |
| RateLimiterTheorems.DrainedMeansFree | src/PasswordEncryptionRateLimiter.cpp:37-45 | When no encryption is running any more, the set is empty and the next check of anybody succeeds. |
| RateLimiterTheorems.EraseIsOwn | src/PasswordEncryptionRateLimiter.cpp:42-44 | An erase removes the eraser's own slot and no other. |
| RateLimiterTheorems.HowCallsEnd | src/PasswordEncryptionRateLimiter.cpp:22-31 | A call ends with createKey run exactly once, or after more than 100 s with it never run; no slot or lock is left; at most 501 checks fail. |
| RateLimiterTheorems.CallsAreBounded | src/PasswordEncryptionRateLimiter.cpp:22-31 | Whatever the interleaving, one call executes at most 2507 instructions. |
| RateLimiterTheorems.SleepLasts | src/PasswordEncryptionRateLimiter.cpp:25-26 | A refused caller goes on as soon as 200 ms have passed, and not before. |
| RateLimiterTheorems.NoDeadlock | src/PasswordEncryptionRateLimiter.cpp:33-50 | While a call is open some caller can move or is only sleeping. |
| RateLimiterTheorems.EveryCallCanEnd | src/PasswordEncryptionRateLimiter.cpp:22-50 | From every reachable state there is a continuation in which all calls end, the set is empty and the lock is free. |
| RateLimiter.PasswordEncryptionRateLimiter.CheckForFreeSlotAndRunEncryption | src/PasswordEncryptionRateLimiter.cpp:33-50 | One check runs createKey exactly when a core is free and the name is not in the set, and then takes only its own name out of the set it finds afterwards. |
| RateLimiter.PasswordEncryptionRateLimiter.WaitForFreeSlotAndRunEncryption | src/PasswordEncryptionRateLimiter.cpp:22-31 | The retry loop ends at the first admitting check or the first sleep that passes 100 s, after at most 501 refusals, whatever the other threads do. |
| RateLimiter.OwnSlotSurvives | src/PasswordEncryptionRateLimiter.cpp:39-43 | From insert to erase the own name stays in the set, as the method above assumes of its surroundings. |
| PendingLog.PendingTransactions.PushNewTransaction | src/model/PendingTransactions.cpp:48-56 | The list becomes the last 100 entries of itself with the new one behind, and stays the end of the uncut log. |
| PendingLog.PendingTransactions.UpdateTransaction | src/model/PendingTransactions.cpp:57-68 | The newest-first loop changes the list as the update rule changes the uncut log. |
| PendingLog.PendingTransactions.ListAsJson | src/model/PendingTransactions.cpp:70-85 | The list is reported newest first, one entry each: id and message up to their first NUL, type, whole milliseconds, and the state as the word "sended", "confirmed" or "rejected". |
| PendingLog.Newest | src/model/PendingTransactions.cpp:60-61 | The entry found is the last whose first 64 id bytes match, and none means no match. |
| PendingLog.UpdatedPointwise | src/model/PendingTransactions.cpp:57-68 | The update rule entry by entry: only the newest entry of the id changes, and only when it is not confirmed. |
| PendingLog.SuffixUpdate | src/model/PendingTransactions.cpp:52-67 | Cutting old entries and updating commute. |
| PendingLog.BoundedIsSuffix | src/model/PendingTransactions.cpp:48-68 | After any interleaving of pushes and updates the bounded list is the end of the unbounded log, with duplicate ids and updates to cut entries. |
| Convergence.DeliveredState | src/model/PendingTransactions.cpp:57-68 | The newest entry of an id ends CONFIRMED if it was or any notification confirms, else REJECTED if any rejects, else unchanged; older entries do not change. |
| Convergence.PermutationsConverge | src/model/PendingTransactions.cpp:57-68 | Every permutation of a notification sequence reaches the same states. |
| Convergence.OrderAndRepetitionDoNotMatter | src/model/PendingTransactions.cpp:57-68 | Only the set of notifications decides the states; redelivery changes none. |
| Convergence.RedeliveryIsIdempotent | src/model/PendingTransactions.cpp:57-68 | After any notifications, delivering the last one a second time changes nothing, message included. |
| Convergence.DeliveredMessage | src/model/PendingTransactions.cpp:63-65 | The message is empty once confirmed and otherwise that of the last reject. |
| Listener.JsonTransactionListener.Handle | src/JSONInterface/JsonTransactionListener.cpp:10-31 | For a payload that decodes: an error text rejects, with that text, the newest entry with the first 64 bytes of the given id unless it is confirmed; without an error a block that parses confirms the newest entry with its own id and clears the message. Every other entry, and every other request, leaves the list as it was. It throws exactly when the payload cannot be decoded or the block is needed and cannot be parsed. |
| Listener.HistoryAccounts | src/JSONInterface/JsonTransactionListener.cpp:17-28 | For every history: an entry is CONFIRMED if and only if a confirmation hit it after its push, SENDED if and only if nothing hit it, otherwise REJECTED with the message of the last hit; a message is there if and only if it is rejected. |
| Listener.ShownIsAccounted | src/model/PendingTransactions.cpp:48-68 | The same for each of the at most 100 entries the bounded list shows. |
| Listener.ConfirmedIsFinal | src/model/PendingTransactions.cpp:62 | Nothing that follows changes a confirmed entry. |
| Listener.RejectedCanBeConfirmed | src/model/PendingTransactions.cpp:62-64 | A rejected entry is confirmed, and its message cleared, by a later confirmation. |
| Listener.EarlyNotificationIsLost | src/JSONInterface/JsonTransaction.cpp:135-146 | Notifications before the push of an entry leave it SENDED. |
| Migration.ScanReportsFirstBad | src/model/table/VersionsManager.cpp:43-51 | When the first loop fails, it reports the first unknown or outdated row. |
| Migration.ScanNames | src/model/table/VersionsManager.cpp:43-51 | When it succeeds, it has collected exactly the recorded names. |
| Migration.VersionsManager.Migrate | src/model/table/VersionsManager.cpp:28-61 | The two loops succeed if and only if every row is of a required table with a version from 1 to 2^31 - 1, and otherwise report the first bad row and create nothing but the migration table; on success exactly the unrecorded tables are created and recorded once. |
| Migration.MigratedExactly | src/model/table/VersionsManager.cpp:28-61 | On every database: an unknown or outdated row stops the migration before any required table is created; otherwise existing rows stay and exactly the unrecorded required tables are created and recorded once. |
| MigrationRuns.AloneIsMigrated | src/model/table/VersionsManager.cpp:28-61 | The single statements of an undisturbed process add up to one migration, on every database. |
| MigrationRuns.CrashSafe | src/model/table/VersionsManager.cpp:28-61 | After any interleaving of processes cut off anywhere, one complete migration reaches exactly the database of an uninterrupted first run, and a second changes nothing. |
| MigrationRuns.ConcurrentOutcome | src/model/table/VersionsManager.cpp:53-60 | A process that ends well leaves the complete database, no table is recorded twice, and only a row written first by another process can stop it. |
| Decay.ValidateApolloDecay | src/JSONInterface/JsonTransaction.cpp:150-221 | The check accepts exactly when the deviation it measures lies strictly between minus and plus the double 0.00001, and fails for numbers that cannot be parsed. |
| Decay.LimitIsNearestDouble | src/JSONInterface/JsonTransaction.cpp:205 | The limit is the double nearest to 0.00001. |
| Decay.DecidedWithinSlack | src/JSONInterface/JsonTransaction.cpp:172-218 | With every result rounded, acceptance bounds the exact deviation by the limit plus an explicit slack, and every exact deviation below the limit minus the slack is accepted. |
| Decay.ExactArithmeticIsExact | src/JSONInterface/JsonTransaction.cpp:172-218 | Without rounding the slack is zero and the measured deviation is the exact one. |
| MonthlyCap.AcceptedMeansWithin | src/JSONInterface/JsonCreationTransaction.cpp:87-106 | An accepted creation keeps the exact month sum within 1000 up to the rounding of the two numbers and their sum. |
| MonthlyCap.NeverRefusedIff | src/JSONInterface/JsonCreationTransaction.cpp:87-106 | For all sums and amounts: no monotone rounding of relative error u that keeps 1000 refuses the creation if and only if the total times 1 + u is at most 1000, or one number is zero and the other at most 1000. |
| MonthlyCap.HalvesNeverRefusedIff | src/JSONInterface/JsonCreationTransaction.cpp:87-106 | Two equal amounts are never refused if and only if their total times 1 + u is at most 1000, also over the roundings that leave their own results alone. |
| MonthlyCap.TotalIsBounded | src/JSONInterface/JsonCreationTransaction.cpp:69-113 | Over all runs with at most k creations of a month between check and send, the month's total without archive creations is at most k times the limit. |
| MonthlyCap.RaceReachesBound | src/JSONInterface/JsonCreationTransaction.cpp:81-113 | For every k there is a run that reaches k times 1000. |
| MonthlyCap.CapHoldsIffOneAtATime | src/JSONInterface/JsonCreationTransaction.cpp:81-113 | Without rounding, all runs with at most k creations of a month between check and send keep 1000 if and only if k is at most 1. |
| CreationRuns.SequentialCreationsKeepCap | src/JSONInterface/JsonCreationTransaction.cpp:69-113 | Any sequence of calls of the creation handler, answered by a node that knows what was sent before, keeps every month within the cap up to rounding, archive creations not counted. |
| Pipeline.IsArchive | src/JSONInterface/JsonTransaction.cpp:62-65 | A request is an archive transaction exactly from 216001 s of age on, with a transaction number. |
| Pipeline.Connector.SignAndSendTransaction | src/JSONInterface/JsonTransaction.cpp:84-148 | A send succeeds if and only if signing and validation do, the alias is 3 to 120 characters of a-z, 0-9 and "-", a given decay value is close enough for the recipient of a creation or the sender of a transfer, and the node or Iota takes it. Its id is the hash for an archive transaction and otherwise the one Iota gave. The message carries memo and date of the request, the pending entry that id, the type and the state SENDED; otherwise nothing changes. |
| Pipeline.Connector.SendJob | src/JSONInterface/JsonTransferTransaction.cpp:114-132 | What goes out is the job's messages up to the first failing one, each recorded in order; success means all of them. |
| Pipeline.StopsBetweenIffAliasInvalid | src/JSONInterface/JsonTransaction.cpp:102-104 | When everything else succeeds, decay check included, a pair stops between its halves if and only if only the second alias is invalid, and sends nothing if and only if the first is. |
| Sql.LikeIsSameTextIffPlain | src/model/table/User.cpp:42-45 | A LIKE pattern finds exactly what `=` finds, for every text, if and only if it has no wildcard and no escape. |
| Sql.PercentIsAnyText | src/model/table/Group.cpp:31-36 | A pattern that starts with `%` matches exactly the texts with an end that the rest matches. |
| Recipients.RecipientIsTheUserIffPlain | src/model/table/User.cpp:35-52 | The recipient loaded by name is, for every user table, the user who logs in under that name if and only if the name has no wildcard and no escape. |
| Recipients.OtherSpellingIsFound | src/model/table/Group.cpp:26-43 | Any other upper and lower case of a valid alias finds the same group and is not a valid alias. |
| Handlers.JsonTransferTransaction.Handle | src/JSONInterface/JsonTransferTransaction.cpp:25-140 | The handler refuses, sending and recording nothing, unless group and recipient are found and, for a non-archive transfer, the recipient is registered and the sender's balance covers the amount. What it sends goes from the session's key to the recipient's stored key with the amount and coin of the request, the memo encrypted for the recipient and the request's date, outbound before inbound; each message has its pending entry, and the reply is the last id. |
| Handlers.JsonRegisterAddressTransaction.Handle | src/JSONInterface/JsonRegisterAddressTransaction.cpp:25-113 | The handler refuses, sending and recording nothing, unless the given aliases are valid and, if not archived, the node knows no transaction of the session's key in the new group of a move, or without a move in the session's group; `AlreadyRegistered` if and only if it knows some there. What it sends registers the session's key, for a move outbound under the current group and inbound under the new one. |
| Handlers.JsonCreationTransaction.Handle | src/JSONInterface/JsonCreationTransaction.cpp:28-124 | The handler refuses, sending and recording nothing, unless the recipient is found and, if not archived, a human within the month's cap; the cap error is reported in exactly its case. What it sends creates the amount and target date of the request for the recipient's stored key. |
| Handlers.MovesAreNotStoppedByAliases | src/JSONInterface/JsonRegisterAddressTransaction.cpp:45-54 | A move that its handler lets through completes its pair when nothing but an alias could stop it. |
| Handlers.TransferIsCutIffAliasInvalid | src/JSONInterface/JsonTransferTransaction.cpp:38-46 | A cross-group transfer that its handler lets through and that nothing but an alias can stop gets only its outbound half out if and only if the recipient's alias is not valid, which is when it is not written as in the row it finds. |
| Handlers.OtherSpellingCutsTransfer | src/JSONInterface/JsonTransferTransaction.cpp:38-80 | A transfer that completes, asked for again with its alias in other upper and lower case and answered anew, finds the same recipient; only its outbound half goes out if it is archived or the node knows the recipient under that spelling, and otherwise nothing. |
| SendRuns.InboundsAreMatched | src/JSONInterface/JsonTransferTransaction.cpp:114-124 | In every run each inbound message completes the only outbound message of its request, sent before it, with the same payload, mirrored different groups and that message's id as parent; no outbound has two inbounds. |
| SendRuns.ParentIdPairsHalves | src/JSONInterface/JsonTransferTransaction.cpp:117-123 | With distinct message ids the parent id of an inbound message names one message of all ever sent, its outbound half, and no two inbound messages share it. |
| SendConservation.SentIsRecordedPlusInFlight | src/JSONInterface/JsonTransaction.cpp:111-147 | At every moment the messages sent are the entries recorded plus exactly those of the requests between send and push. |
| SendConservation.RecordsFollowSends | src/JSONInterface/JsonTransaction.cpp:139-147 | One request's entries stand in the order of its messages and carry their ids. |
| SendConservation.OnlyLastUnrecorded | src/JSONInterface/JsonTransaction.cpp:139-147 | Of one request's messages only the last can be without its entry. |
| SendConservation.ValueIsConserved | src/JSONInterface/JsonTransferTransaction.cpp:114-124 | For every two groups, outbound minus inbound value is at every moment the value of the transfers standing or stopped between their two sends. |
| HandlerRuns.EmittedIsARun | src/JSONInterface/JsonRegisterAddressTransaction.cpp:88-101 | What a handler sends and records, complete or cut off, is a run of the send machine from any reachable state: the same messages and the same entries. |
| HandlerRuns.CallsAreARun | src/JSONInterface/JsonTransaction.cpp:84-148 | After any sequence of calls of the transfer, register and creation handlers, refused, complete or cut off, what has gone out and all pending entries pushed are the messages and entries of a run of the send machine. |
| HandlerRuns.CallsPairTheirHalves | src/JSONInterface/JsonTransferTransaction.cpp:114-124 | Every inbound half that any sequence of handler calls sends has its outbound half before it, with the same payload and mirrored groups, under its parent id. |
| Pack.PackPair | src/JSONInterface/JsonPackTransaction.cpp:85-93 | There are two transactions if and only if both aliases are given: outbound before inbound, with the same payload, each naming the group the other is packed for; otherwise there is the base transaction without a group. |
| Pack.ResultBase64Transactions | src/JSONInterface/JsonPackTransaction.cpp:225-257 | The answer is given if and only if every transaction, with memo and date of the request, validates and serialises, and then holds for each, in order, the base64 that decodes to its bytes and its group if it has one; otherwise the first that fails decides the error. |
| Pack.WhenPackAgrees | src/JSONInterface/JsonPackTransaction.cpp:202-210 | Packing builds what the register handler sends, for the same groups, if and only if the aliases are not one and the same. |
| Pack.WhenPackedTransferAgrees | src/JSONInterface/JsonPackTransaction.cpp:85-93 | Packing a transfer builds what the transfer handler of a session sends, for the same groups, if and only if it goes from the session's group to another as a pair, or stays in the session's group and is no pair. |
| Sql.LikeIsEquality | src/model/table/Group.cpp:31-36 | On texts over [a-z0-9-] LIKE is equality. |
| Login.Session.GetGroupId | src/model/Session.cpp:86-101 | A session resolves its group to the row found, or to the row it inserts under the next id with the alias as name and alias. |
| Login.Session.LoginOrCreate | src/model/Session.cpp:31-77 | Reply, store and session after a login with any one statement failing. |
| Login.LoginAnswers | src/model/Session.cpp:50-70 | Without a failure a stored user gets exactly: refused for another hash, a decryption error when the key does not open or does not belong to the stored public key, and otherwise the stored key pair; a name and group that are not stored get a new user with its backup. |
| Login.Session.CreateNewUser | src/model/Session.cpp:104-142 | The user row, with the sealed private key and the hash of the secret, is stored before the support key is needed, so a missing key or a failed backup leaves a user without a backup, and success adds the backup. |
| LoginTheorems.GroupsAreFunctional | src/model/Session.cpp:86-101 | Over any logins an alias keeps its id, two aliases never share one, and no alias has two rows. |
| LoginTheorems.RunKeeps | src/model/Session.cpp:31-77 | No sequence of logins alters or removes a row, and every key of the tables is kept. |
| LoginTheorems.NewRowIsStored | src/model/Session.cpp:117-141 | A login that adds a user row stores it for its name, group and secret also when a later step fails, and the reply tells which. |
| LoginTheorems.CreateThenLogin | src/model/Session.cpp:48-66 | After a user is stored and any further logins, the same name, group and password give the same key pair, a password with another hash is refused, and the store does not change. |
| LoginTheorems.FirstLoginCreates | src/model/Session.cpp:67-70 | A name and group that are not stored get a user and its backup. |
| LoginRuns.InvAfter | src/model/Session.cpp:31-142 | With any number of logins interleaved statement by statement, any of them failing anywhere, rows are only added and no key of a table is broken. |
| LoginRuns.SuccessfulLoginsAgree | src/model/Session.cpp:48-70 | In every interleaving all logins that end well under one name and group hold the same public key, whether they created the user or found it. |
| LoginRuns.StoredSurvives | src/model/Session.cpp:50-66 | A stored user can log in to the stored key pair after any interleaving of other logins. |
| LoginRuns.AloneIsLoggedIn | src/model/Session.cpp:31-77 | The single statements of an undisturbed login add up to the sequential login. |
| BackupRuns.BackupsAccounted | src/model/Session.cpp:117-141 | In every interleaving each backup is of one user and no user has two; existing users keep theirs, and of the new users exactly those have none whose login stands between its two inserts or has failed there. |
| SessionRuns.TokensStayGoodIffOneAtATime | src/SessionManager.cpp:27-52 | With logins interleaved between their look into the cache and their add, and no expiry, every token given out under a name stays good in all runs if and only if no two such logins overlap. |
| SessionRuns.LookDecides | src/SessionManager.cpp:29-37 | The look into the cache gives a token if and only if there is a live session from the same IP, and goes on to loginOrCreate if and only if there is none. |
| SessionManager.SessionManager.Login | src/SessionManager.cpp:27-52 | A live session under the name is reused when the IP is the same, without touching the store; otherwise loginOrCreate decides and only its success changes which sessions are live; every cached session is backed by a login under its name with its IP and key pair. |
| SessionManager.SessionManager.GetSession | src/SessionManager.cpp:54-75 | A session is given out if and only if the token verifies, the session under its name was used less than the valid duration ago and the IP is that of its login; that use is the new last access. |
| SessionManager.SessionManager.GetSessionOf | src/SessionManager.cpp:77-98 | The same for a connection token and a named user. |
| ListTransactions.CollectPubkeys | src/JSONInterface/JsonListTransactions.cpp:49-58 | The keys asked for are the non-empty ones, each once, in the order of first occurrence. |
| ListTransactions.LoadUserNamesForPubkeys | src/model/table/User.cpp:54-82 | The map gives for every key asked for the name of the first row with it, and nothing else. |
| ListTransactions.BatchedIsSingle | src/JSONInterface/JsonListTransactions.cpp:59-68 | For every transaction of the list the batched lookup agrees with asking for its key alone. |
| ListTransactions.RewriteList | src/JSONInterface/JsonListTransactions.cpp:49-99 | As soon as one transaction has a key, every one is rewritten in place: the first name is that of the first row with its key unless there is none or the type reads "CREATE"; the memo becomes its clear text if and only if it is recognised, the key decodes and decryption gives a text; the key is removed and last name, type and balance stay. Without any key nothing changes. |
| ListTransactions.WhenBatchingAgrees | src/JSONInterface/JsonListTransactions.cpp:60-67 | The result is the one-by-one result if and only if the list is empty or somebody is linked. |
| Encoding.RecogniserIsExact | src/JSONInterface/JsonListTransactions.cpp:23 | The expression takes exactly the texts in groups of four from the alphabet with up to three padding characters at the end. |
| Encoding.EncodingsAreRecognised | src/JSONInterface/JsonListTransactions.cpp:23 | Every base64 encoding of at least one byte is recognised and has no NUL. |
| Encoding.EncodingIffRecognisedAndClean | src/JSONInterface/JsonListTransactions.cpp:23 | A text is the base64 encoding of some bytes if and only if it matches the expression, has at most two padding characters, and leaves no bits over in the digit before them. |
| Encoding.Base64RoundTrip | src/JSONInterface/JsonTransaction.cpp:272-280 | Decoding an encoding gives the bytes back. |
| Encoding.DigitsAreTheTable | src/JSONInterface/JsonTransaction.cpp:272-280 | The 64 digits are those of table 1 of RFC 4648. |
| Memo.MemoRoundTrip | src/JSONInterface/JsonTransaction.cpp:262-294 | Sender and recipient both recover the memo with the own private and the other's public key. |
| Memo.ListShowsMemo | src/JSONInterface/JsonListTransactions.cpp:81-96 | End to end, the list shows an encrypted memo to either party as its text up to the first NUL, and an empty memo stays encrypted. |

## Left out

- RateLimiter.PasswordEncryptionRateLimiter.WaitForFreeSlotAndRunEncryption: assumes that createKey returns; when it throws the slot is not erased.
- RateLimiterTheorems.CallsAreBounded: takes the stop watch as whole milliseconds that are compared with 100 s unrounded; the profiler class is not part of this model.
- PendingLog.MessageId: ids have at least 64 bytes where they are compared, since the comparison reads that many; the example id `"100"` that API.md:438 gives with an error is outside that. A request without an error needs no id.
- Pipeline.Connector.SignAndSendTransaction: signing, validation, hashing, the node and Iota are given answers; a crash between send and push is not modelled.
- Handlers.JsonTransferTransaction.Handle: which exception becomes which message text is reduced to one error per cause, and the transfer handler's rethrow to an error reply. Everything the handler does before its first send is the method `Check`, in the register and creation handlers too.
- CreationRuns.SequentialCreationsKeepCap: the month of a target date is given, since dates are not parsed here, and the sum the node reports is taken not to depend on the `created` date of the request that is sent with the query.
- Pipeline.IsArchive: the age in seconds is unbounded; the time span class, whose count of seconds may be a 32-bit number that wraps for ages of 2^31 s and more, is not part of this model.
- MonthlyCap.TotalIsBounded: amounts are not negative, which transaction validation is assumed to enforce.
- Decay.ValidateApolloDecay: the decay factor is given, and the end balance is one rounded multiplication by it; infinities and not-a-number are not modelled.
- Login.Session.LoginOrCreate: ids are not cut to 32 bits, a failed insert uses up no id, and `=` and LIKE fold ASCII case only.
- Login.Session: the member `verifyPassword` is not modelled, its user name is never set.
- SessionManager.SessionManager.Login: signing and checking tokens is reduced to the verified claims. The valid duration is positive.
- SessionRuns.TokensStayGoodIffOneAtATime: only the IP of a session is kept there, loginOrCreate succeeds or fails at will, and expiry is excluded for the name in question.
- Encoding.LooksLikeBase64: a match is complete and not empty, as the regular expression class is taken to require.
- Memo.DecryptMemo: a text that is not base64 decrypts to the empty text; key agreement and encryption are functions with the laws in `Sound`.
- ListTransactions.RewriteList: a missing `linkedUser` or `pubkey` member, which the handler does not check for, is not modelled, and neither is a stored key of NULL.
- Migration.VersionsManager.Migrate: the column definitions and the row ids; the required tables are the ones the code names.
- The SQLite schema, whose user table makes `group_id` unique; the keys are those of the MySQL schema.
- HTTP, request parsing, time zones, logging, configuration and buffer accounting: plumbing with no state of its own.
- JsonGetPendingTransactions, JsonOpenConnection, JsonSendTransactionIota and JsonUnknown: thin wrappers.

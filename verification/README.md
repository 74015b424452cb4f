# FlashAccess in Dafny

FlashAccess hands out time-boxed, address-bound MySQL superuser sessions. This project models the three
parts of it in which most can go wrong, and proves what they are for.

**The session lifecycle.** `Lifecycle` is the step protocol: every lock-protected section of the session
manager, every MySQL statement, firewall call and save is one atomic step of an operation in flight, and
operations interleave freely; each call may fail. `Structure` holds the invariant of that machine.
`Agreement` and `RuleAgreement` prove that the temporary MySQL users and the open firewall rules are those of
the active sessions, `Revocations` counts the calls of the revoke hook, `Durability` and `CrashAgreement` add
crashes, and `Scenarios` shows that the side conditions of these theorems are needed. `Expiry` says when sessions
end and that they last until then. `Sessions`, `Access`, `Lockout` and `LockoutRuns` are the access check and its
failure counter, alone and within runs; `RwLock` is the read-write lock,
as the text has it and as it is meant, and `Stuck` says exactly which calls get stuck on it;
`Tokens` and `Gate` are the web token store and the request gate, over whole runs of requests and manager.
`Provisioning` and `Managers` are the imperative side: session objects shared by reference, the activator and the
manager with its map, updated in place. Every operation of the manager is proved to be an uninterrupted
run of the protocol, whatever fails, and `WholeManager` carries the theorem about users over to the objects.

**The SQL text layer.** `Scanner` has the statement splitter twice: the loop of the source and a declarative
reading (lex, drop comments, cut, trim), proved equal. `ScanLaws`, `SplitLaws`, `CommentLaws`, `SplitShape`,
`PlainScanner` and `Resplit` are its laws, `Script` the script runner. `AccountText` and `RowText` print statements and read them back;
`Accounts` runs the account statements on a server, `Grants` reads the privilege levels back,
`Patterns` has the name patterns. `Statements` reads `UPDATE`, `DELETE` and `SELECT` texts: which
table, under which condition, up to which limit. `Preview` derives the count and sample queries, `UpdatePreview` and
`DeletePreview` say exactly when they are about the rows that the statement will change, and `PreviewExamples` has
an input for each way to miss them. `Indexes` is the index grouping loop. `Text` has the string helpers.

**Address sets.** `Address` compares the three renderings of an allowed range: the check in the application,
the host of the MySQL account and the firewall rule. `HostText` and `Ipv6Text` write the host out and read it back,
with `Numerals`; `CidrText` reads the stored text of a range.

Where the code and its comments or its evident intention differ, the model follows the code:

- `persist` takes the read lock twice and releases it once, and `SetPlaygroundDB` saves while it holds the write
  lock (internal/session/manager.go:205-214, 257-270). `RwLock` proves what follows from that. `Managers` and
  `Lifecycle` use the intended locking, with the save after the unlock.
- The comment above `CIDRToHost` says that IPv6 ranges are rejected; the code returns the host `%`
  (internal/mysql/mysql.go:85-103).
- Splitting is not idempotent: a comment vanishes without leaving a space (internal/mysql/query.go:532-548).
  `Resplit` has the exact condition.
- The clean-up after a failed `CREATE USER` also drops an account that existed before
  (internal/mysql/mysql.go:57-62, internal/mysql/admin.go:85-90). `Accounts.FailedCreateRestores` has the exact condition.
- The preview of an `UPDATE` looks for `WHERE` between plain spaces, also inside literals, and applies a byte
  offset of the upper-cased text to the text itself; that of a `DELETE` wants exactly one space before `FROM`;
  both count without regard to `LIMIT` (internal/mysql/query.go:399-450). `UpdatePreview` and `DeletePreview` have
  the exact conditions, `PreviewExamples` the failing inputs.
- A crash, or a save that failed, can leave users that the restarted manager does not know
  (internal/session/manager.go:103-122, 171-179). `CrashAgreement` has the condition and two failing inputs.
- Failed attempts are never saved (internal/session/manager.go:126-161): `LockoutRuns.CrashForgetsFailures`.
- `InsertRow` and `UpdateRow` accept lists of different lengths (internal/mysql/query.go:453-493); the bindings are right
  exactly when the lengths agree.

The statement splitter is specified by the rules its own comment gives (quotes, line comments, block
comments), not by MySQL's lexer, which also has backticks, `#` and `/*!`.

To verify everything: `dafny verify dfyconfig.toml`.

## Model

| member | source | states |
|---|---|---|
| Scanner.SplitStatements | internal/mysql/query.go:518-592 | the loop with its flags, index skips and buffer terminates and returns exactly the declarative reading of the script: lexed into code characters, quoted runs and comments, comments dropped except the newline of a line comment, cut at code semicolons, trimmed, empties discarded |
| Scanner.ScanRefinesLex | internal/mysql/query.go:532-577 | from code mode, the five-mode machine outputs exactly what the token reading renders, on every script |
| ScanLaws.LexIsLexing | internal/mysql/query.go:515-517 | every script is the concatenation of its tokens, each well formed where it stands |
| ScanLaws.LexUnique | internal/mysql/query.go:515-517 | the token reading is the only well-formed one with that text |
| SplitLaws.EndIsFinished | internal/mysql/query.go:525-577 | the loop runs out of characters in code mode if and only if every token of the script is closed |
| SplitLaws.SplitComposes | internal/mysql/query.go:532-591 | if scanning A ends outside quotes and comments, splitting A;B is splitting A and splitting B |
| SplitLaws.SplitUndoesJoin | internal/mysql/query.go:532-591 | clean statements joined by a semicolon and any white space, with or without a final semicolon, are split back into the same list |
| CommentLaws.LineCommentVanishes | internal/mysql/query.go:532-560 | after text that ends in code, a line comment counts as the line break that ends it, and at the end of the script as nothing |
| CommentLaws.BlockCommentVanishes | internal/mysql/query.go:532-560 | after text that ends in code, a block comment counts as nothing, so long as the characters it had kept apart mean nothing else side by side |
| SplitShape.SplitIsShaped | internal/mysql/query.go:549-591 | every statement is nonempty and trimmed and has no semicolon outside quotes; all but possibly the last end quote-closed |
| SplitShape.SplitIsSubsequence | internal/mysql/query.go:549-591 | the statements in order are the script with characters deleted |
| SplitShape.QuotedRunsSurvive | internal/mysql/query.go:549-577 | every closed quoted run of the script stands verbatim in some statement |
| PlainScanner.LookaheadRedundant | internal/mysql/query.go:561-577 | the doubled-quote lookahead changes neither the output nor the final mode, compared with a machine that toggles on every single quote |
| PlainScanner.PlainSplitsAlike | internal/mysql/query.go:561-577 | the plain machine splits every script the same way |
| Resplit.ResplitFixed | internal/mysql/query.go:532-591 | splitting a returned statement gives it back if and only if, read on its own, it contains no comment |
| Resplit.ResplitCanFail | internal/mysql/query.go:532-548 | a concrete script whose statement vanishes when split again, because a removed comment leaves no space |
| Script.RunScript | internal/mysql/query.go:594-651 | executed, skipped and failed add up to the total on every path; with skipping on, no statement that starts with CREATE DATABASE, DROP DATABASE or USE and a space, in any case, is sent, and every other ASCII statement is, in order; without it all are; one error line per refusal in strictly increasing statement number |
| Script.SkipsExactly | internal/mysql/query.go:597-602 | which statements are skipped, for every text: after white space, these words in any case that upper-casing knows, dotless i and long s included |
| Script.RunnableExactly | internal/mysql/query.go:632-636 | no statement for the server is sent, and of the ASCII statements every other one, in order |
| Script.ReportSnoc | internal/mysql/query.go:632-648 | the error report stays one line per refused statement, with its number and text, when one more statement is handled |
| Script.UseNamesTheDatabase | internal/mysql/query.go:621-628 | the USE statement that is sent names the database asked for, whatever characters its name has |
| AccountText.PasswordRoundTrip | internal/mysql/admin.go:63-65 | for every password the literal closes exactly at its last quote and decodes to the password under MySQL backslash rules |
| AccountText.CreateUserRoundTrip | internal/mysql/admin.go:81 | the CREATE USER text reads back as the same user, host and password |
| AccountText.CreateUserStaysWhole | internal/mysql/admin.go:53-81 | the script scanner maps the CREATE USER text to the one-element list of itself, whatever the password |
| Accounts.CreateAdminUser | internal/mysql/admin.go:52-92 | input checks, then the account the text describes is created with exactly the given password and level; success exactly when it did not exist and no statement failed; otherwise the accounts are what the clean-up leaves |
| Patterns.ChecksMatch | internal/mysql/admin.go:12-16 | the checks of user names, hosts and temporary user names accept exactly the texts that match the patterns |
| Grants.GrantRoundTrip | internal/mysql/admin.go:68-75 | the GRANT text reads back as the account it is for, the privileges of the level, and the right to pass them on exactly when it is the full level |
| Accounts.LevelMeans | internal/mysql/admin.go:68-75 | read allows SELECT and nothing that writes; everything is granted exactly for a level other than read and readwrite |
| Accounts.Server.CreateAccount | internal/mysql/mysql.go:52-64 | the three-statement loop with its clean-up leaves exactly the accounts of a one-step description |
| Accounts.FailedCreateRestores | internal/mysql/mysql.go:57-62 | exactly when a failed creation leaves the accounts as they were: an account that already existed is dropped by the clean-up |
| Accounts.CreateTouchesOnlyItsAccount | internal/mysql/mysql.go:52-64 | no other account is touched; a success leaves the account with the password and the privilege asked for; after a failure a new one never has any that was not asked for, and one that was there before is as it was or gone |
| Accounts.SafePassword | internal/mysql/mysql.go:112-123 | true exactly for nonempty alphanumeric passwords |
| Accounts.TempUserTextIsExact | internal/mysql/mysql.go:42-56 | without any escaping the statement for a temporary user still says exactly the user, host and password meant, for every host without quotes and backslashes |
| HostText.SessionUserTextIsExact | internal/mysql/mysql.go:42-103 | for every range that is not malformed, the statement for a temporary user, written without escaping, says exactly the user, the host of the range and the password |
| HostText.HostRoundTrip | internal/mysql/mysql.go:85-103 | the text of every host that can be written, an address of either family, a network with its mask, or %, is read back as that host |
| Ipv6Text.ColonsRoundTrip | internal/mysql/mysql.go:95-97 | the eight groups of an IPv6 address are read back from the text that leaves out a run of zeros |
| Accounts.GenPassword | internal/access/activator.go:90-100 | each random byte selects one letter of the alphabet, in place, and the result is accepted by SafePassword |
| Accounts.NewSessionsAreAcceptable | internal/session/manager.go:272-278 | every id that is drawn gives a user name that CreateUser accepts |
| Accounts.HexRoundTrip | internal/session/manager.go:272-278 | the drawn bytes are read back from the id, so different bytes make different ids |
| RowText.InsertRow | internal/mysql/query.go:453-472 | the loop builds exactly the INSERT text and binds the values in order |
| RowText.UpdateRow | internal/mysql/query.go:475-493 | the loop builds exactly the UPDATE text, values first and the key last |
| RowText.NameRoundTrip | internal/mysql/query.go:275-277 | every name, backticks included, comes back, and the reader stops at the closing backtick |
| RowText.InsertRoundTrip | internal/mysql/query.go:466-469 | lexing the INSERT with backtick doubling recovers database, table, column list and number of placeholders |
| RowText.UpdateRoundTrip | internal/mysql/query.go:489-492 | lexing the UPDATE recovers database, table, columns and key column |
| RowText.InsertBinds | internal/mysql/query.go:457-471 | every placeholder is bound to the value of its own column if and only if there are as many values as columns |
| RowText.UpdateBinds | internal/mysql/query.go:479-488 | the same for UPDATE, and the last placeholder is bound to the key value |
| UpdatePreview.UpdatePreviewExact | internal/mysql/query.go:399-450 | for every UPDATE text that is read as a statement, whatever it contains: the count is the number of rows that will be changed, on every table and for every meaning of the conditions, if and only if a space follows UPDATE, there is no LIMIT, and the byte offset found in the upper-cased text leads to the white space right after the statement's own WHERE (or nothing is found and there is none); then the sample is their first five and the warning tells the truth |
| UpdatePreview.UpdatePreviewInPlainTerms | internal/mysql/query.go:411-423 | when upper-casing keeps the length in bytes up to the WHERE that is found, as in every ASCII text: the count is right if and only if a space follows UPDATE, there is no LIMIT, and the first WHERE between spaces is the statement's own, or there is neither |
| UpdatePreview.CutAfterWhere | internal/mysql/query.go:418-421 | the text is cut right after the WHERE that was found if and only if upper-casing keeps the length in bytes of the text before it |
| DeletePreview.DeletePreviewExact | internal/mysql/query.go:399-441 | for every DELETE text that is read: the count is the number of rows that will be deleted, on every table and for every meaning of the conditions, if and only if exactly one space separates DELETE from FROM, a space follows FROM, and there is no LIMIT; then the sample is their first five |
| DeletePreview.WholeTableHasNoWhere | internal/mysql/query.go:353-356 | a DELETE of all rows of a bare table, even of one called where, has no WHERE between spaces |
| DeletePreview.DeleteWarningExact | internal/mysql/query.go:353-356 | the warning that all rows will be affected tells the truth if and only if they will be or the upper-cased text has a WHERE between spaces |
| PreviewExamples.LineBreakBeforeWhere | internal/mysql/query.go:416-423 | an UPDATE with a line break before WHERE, whose count is wrong |
| PreviewExamples.WhereInLiteral | internal/mysql/query.go:416-423 | an UPDATE with a literal that contains a where between spaces, whose count is wrong |
| PreviewExamples.DotlessI | internal/mysql/query.go:418-421 | an UPDATE with two dotless i in a literal, which is cut in the middle of its WHERE |
| PreviewExamples.LimitInDelete | internal/mysql/query.go:399-441 | a DELETE with a LIMIT, whose count is wrong |
| Indexes.ListIndexes | internal/mysql/query.go:115-158 | the map-and-order loop returns exactly the group-by of its rows; a row that cannot be scanned ends it with an error |
| Indexes.NamesInOrder | internal/mysql/query.go:139-157 | each key name once, exactly those of the rows, in order of first appearance |
| Indexes.ColumnsExactly | internal/mysql/query.go:139-146 | the columns of a group are those of the rows with its name, all of them, in order |
| Indexes.GroupIsItsRows | internal/mysql/query.go:139-146 | kind and uniqueness of a group are those of its rows when these agree |
| Indexes.CountsSum | internal/mysql/query.go:139-157 | the column counts of the groups sum to the number of rows |
| Address.AllowedIsPrefix | internal/session/session.go:54-62 | IPAllowed accepts exactly the addresses of the prefix, for either family |
| Address.ThreeLayersAgree | internal/mysql/mysql.go:85-103 | for every range IPAllowed, the MySQL host (client AND mask = net) and the firewall rule denote the same IPv4 addresses; for IPv6 the host is a superset |
| Address.AnyHostIsWider | internal/mysql/mysql.go:98-101 | for an IPv6 range the host also matches an address outside it |
| Address.OneRuleForOneSet | internal/firewall/firewall.go:50-62 | two ranges become one and the same rule if and only if they are the same set of addresses |
| Address.RuleIsTheRange | internal/firewall/firewall.go:23-62 | the rule that is opened for a range lets in exactly the addresses of the range |
| Address.UpgradeKeepsSet | internal/session/session.go:65-77 | upgrading a bare address to /32 or /128 keeps the set of addresses |
| Address.NormalizeIdempotent | internal/session/session.go:65-77 | normalizeCIDR is idempotent on every text |
| CidrText.NormalizeIsUpgrade | internal/session/session.go:65-77 | the normalized text, read as a range, is the range of the text with a bare address upgraded to its full prefix, for every text and every address parser |
| Address.AndMask | internal/session/session.go:54-57 | AND with a prefix mask is rounding down to a multiple of a power of two |
| Access.OutcomeExactly | internal/session/manager.go:126-161 | each answer of the access check, exactly when it is given, in terms of status, expiry, counter, time stamp, range and key: Granted if and only if active, before expiry, not within five minutes of the latest of five failures, from an address in the range, with the right key |
| Access.KeyIsKeptFromOthers | internal/session/manager.go:142-157 | answer and record depend on the key if and only if the session is open and the address is in its range |
| Access.RecordExactly | internal/session/manager.go:147-159 | the record changes only in its counter and time stamp, and when it does, how |
| Lockout.QuietStretch | internal/session/manager.go:126-161 | over any stretch of calls with no recorded failure and no success the stored pair stays as it was, whatever was tried |
| Lockout.StoredPairIsHistory | internal/session/manager.go:147-159 | the stored pair is the number of failures recorded since the last success and the time of the latest recorded failure |
| Lockout.LockoutBound | internal/session/manager.go:14-18 | a stretch without success whose first and last recorded failures are T apart has at most 5 + floor(T / 5 min) of them |
| Lockout.LockoutBoundIsTight | internal/session/manager.go:142-144 | that many can be recorded |
| Lockout.PatienceIsRewarded | internal/session/manager.go:142-160 | a good key from an allowed address opens a live session at or after the latest recorded failure plus 5 minutes, whatever came before |
| LockoutRuns.RunIsHistory | internal/session/manager.go:126-161 | over every run of the manager a session's counter and time stamp are those that its own history of calls gives |
| LockoutRuns.RunLockoutBound | internal/session/manager.go:14-18 | over every interleaving of all operations, the bound on recorded failures holds for the calls that the run makes |
| LockoutRuns.CrashForgetsFailures | internal/session/manager.go:126-161 | with a crash in between, ten wrong keys are recorded at one and the same time |
| Structure.RunWellformed | internal/session/manager.go:75-123 | the structure of map, operations in flight and used ids is kept by every interleaving |
| Agreement.UsersAgree | internal/session/manager.go:75-123 | over every interleaving, with nothing in flight, the temporary users are those of the active sessions and at most those the server refused to drop; with no refused drop exactly those |
| RuleAgreement.RulesAgree | internal/access/activator.go:27-80 | the same for firewall rules, when every New starts on a rule that no session of the map or operation names |
| RuleAgreement.FirewallAgrees | internal/access/activator.go:27-80 | after such a run, with nothing in flight and no refused removal, an address is let in by some open rule if and only if it lies in the range of some active session |
| Scenarios.SharedRuleBreaks | internal/session/manager.go:164-180 | the rule condition is exact: from any quiescent state, a New on a rule that is named leads to an active session without its rule |
| Scenarios.NewAlone | internal/session/manager.go:75-123 | what an uninterrupted New leaves behind |
| Scenarios.EndAlone | internal/session/manager.go:164-180 | what an uninterrupted End leaves behind |
| Revocations.StatusesMoveForward | internal/session/manager.go:164-180 | statuses only move from active to expired or revoked and from expired to revoked, over every run |
| Revocations.RevocationsAccounted | internal/session/manager.go:234-255 | each session is in at most one reap batch ever, and with nothing in flight its OnRevoke calls are its reap marks plus the Ends that found it plus one if its New failed to save |
| Expiry.ReapExpiresExactly | internal/session/manager.go:238-245 | a reap that read the clock at t expires exactly the active sessions whose expiry is at most t, and changes nothing else in the map |
| Expiry.ExpiredIsOver | internal/session/manager.go:234-255 | over every run, a session that was active and has become expired has reached its expiry |
| Expiry.UserLasts | internal/session/manager.go:75-255 | over every run from a reachable state, whatever fails: a session that has been handed out, that nobody ends and whose time is not over stays active and keeps its MySQL user |
| Expiry.FirewallLasts | internal/session/manager.go:75-255 | and the firewall stays open to every address in its range, if no New is started on a rule in use |
| Durability.ReturnedSessionsSurvive | internal/session/manager.go:112-122 | operations one at a time, a crash between any two steps: every session New has returned is on disk at all later times, active there or already handed to OnRevoke |
| Durability.RestartedReaperPicksUp | internal/session/manager.go:57-65 | after a crash such a session is in the first reap batch whose clock reading is not before its expiry |
| Durability.OverlapLosesRevocation | internal/session/manager.go:171-179 | with overlap the claim fails, from every quiescent state with an active session: revoked on disk, not revoked in fact |
| Durability.StaleSaveLosesSession | internal/session/manager.go:257-270 | with overlap an older copy can also overwrite a newer session on disk |
| CrashAgreement.CrashWhenCalm | internal/session/manager.go:103-122 | over every run without a refused drop, at every moment at which no operation holds an unregistered user or has yet to mark what it dropped: after a crash and restart the users are those of the active sessions if and only if disk and map have the same active sessions |
| CrashAgreement.CrashInFlight | internal/session/manager.go:103-122 | over every run, a crash while a New holds an unregistered user, or while an End has dropped the user of a session that is active on disk, breaks the agreement |
| CrashAgreement.CrashAfterCreateUser | internal/access/activator.go:38-52 | from every reachable state a New whose CREATE USER has succeeded is such a moment |
| CrashAgreement.CrashAfterDrop | internal/session/manager.go:164-180 | from every reachable state an End after its drop, of a session that is active on disk, is such a moment |
| RwLock.QuietReadersAreTheSaves | internal/session/manager.go:257-270 | with nothing in flight, the read locks held are the completed saves in the text as written and none in the intended text |
| RwLock.RunAccounted | internal/session/manager.go:261-268 | every read lock held is owed by an operation in flight or left behind by a save, and none is held while a writer is inside |
| RwLock.CodeOwesNothing | internal/session/manager.go:164-270 | every operation of the manager, start to end, leaves behind no read lock beyond those of its saves |
| RwLock.AfterASaveNobodyWrites | internal/session/manager.go:261-268 | as written, after one completed save no operation ever gets past taking the write lock |
| RwLock.SetPlaygroundBlocksItself | internal/session/manager.go:205-213 | as written, SetPlaygroundDB that found its session waits for ever, and with it everyone who needs the lock |
| RwLock.SelfBlockIsReached | internal/session/manager.go:205-213 | that state is reached |
| RwLock.SaveThenVerifyIsReached | internal/session/manager.go:112-128 | a save followed by VerifyAccess is reached |
| Stuck.StuckExactly | internal/session/manager.go:75-270 | as written, some interleaving of a list of operations called together gets one of them stuck for ever if and only if they include a SetPlaygroundDB that finds its session, a New whose save fails, or an operation that saves together with another one that takes the write lock |
| Stuck.HalfwayIsReached | internal/session/manager.go:261-268 | New and VerifyAccess can come to where the writer announces itself between the two read locks of the first save |
| Stuck.HalfwayIsStuck | internal/session/manager.go:261-268 | there both are stuck for ever, whatever else is called, although no save has completed |
| RwLock.IntendedNeverDeadlocks | internal/session/manager.go:257-270 | as intended, over every run, some operation can step unless all are done, and then the lock is free |
| RwLock.EverythingCanFinish | internal/session/manager.go:257-270 | as intended, from every such state all operations in flight can be run to their end |
| Provisioning.Activator.Provision | internal/access/activator.go:27-52 | both resources and the stamp, the account having the stamped password and the firewall now open to the addresses of the range besides those it was open to; or no stamp and exactly the users and rules the roll-back leaves |
| Provisioning.Activator.Revoke | internal/access/activator.go:56-80 | both steps are attempted whatever the other does; the new users and rules, and the firewall unchanged for every address outside the range; one error per failed step, in order |
| Provisioning.ProvisionAllOrNothing | internal/access/activator.go:27-52 | both the user and the firewall rule, or else users and rules are unchanged exactly when the user did not exist and what was created was cleaned up, or it did exist and the clean-up failed |
| Provisioning.ProvisionFollowsProtocol | internal/access/activator.go:38-43 | Provision is the uninterrupted run of the protocol steps of New up to registration |
| Managers.Manager.constructor | internal/session/manager.go:49-67 | each saved session is loaded into an object of its own, a later entry replacing an earlier one with the same id |
| Managers.Manager.New | internal/session/manager.go:75-123 | New run alone is the protocol's New run alone; the session is handed out exactly when every call succeeded, and is then the object in the map |
| Managers.Manager.VerifyAccess | internal/session/manager.go:126-161 | it is the protocol's Verify step on the map; access is granted exactly when the session is there, active, before its expiry and not locked, the address is in its range and the key is right, and then the map's object is handed out |
| Managers.Manager.CheckAccess | internal/session/manager.go:136-160 | outcome and new counters are those of the access check, and access is granted exactly under the conditions on the record |
| Managers.Manager.End | internal/session/manager.go:164-180 | End run alone is the protocol's End run alone, with its error result |
| Managers.Manager.SetPlaygroundDB | internal/session/manager.go:205-214 | with the save after the unlock, it is the protocol's operation run alone |
| Managers.Manager.MarkExpired | internal/session/manager.go:238-245 | a session expires if and only if it was active and its expiry is at most now; those are collected once each, and nothing else changes |
| Managers.Manager.Reap | internal/session/manager.go:234-255 | a session expires if and only if it was active and its expiry is at most the time the clock was read, which may be before the lock was taken; and reap run alone is the protocol's reap run alone over them, in the order the map was visited |
| Managers.Manager.Snapshot | internal/session/manager.go:262-267 | one copy of every session; loading the copies gives the map back |
| Managers.Manager.Persist | internal/session/manager.go:257-270 | a successful save replaces the stored list by the map, a failed one leaves it |
| Managers.Manager.ActiveSession | internal/session/active.go:6-16 | a session of the map that is active and before its expiry, or none exactly when there is none |
| Managers.Manager.ActiveSessions | internal/session/active.go:19-31 | one copy of every session that is active and before its expiry, and of nothing else |
| Managers.NewFollowsProtocol | internal/session/manager.go:103-122 | the protocol steps of New for every combination of failures, and the users, rules, sessions and disk they lead to |
| Managers.EndFollowsProtocol | internal/session/manager.go:171-179 | the same for End |
| WholeManager.OperationsCompose | internal/session/manager.go:75-270 | operations called one after the other form one run of the protocol |
| WholeManager.CallsAreOneRun | internal/session/manager.go:75-270 | any sequence of whole operations, access checks and clock ticks is one run of the protocol, so that all that holds of runs holds of it |
| WholeManager.ConstructedIsStart | internal/session/manager.go:49-67 | a manager just constructed on its saved list, on a server and firewall that have what the active sessions need, represents a start of the protocol |
| WholeManager.ObjectsAgree | internal/session/manager.go:75-270 | on the objects, between two calls: every active session in the map has its MySQL user, and unless a drop was refused nobody else has |
| WholeManager.ObjectsLetIn | internal/session/manager.go:75-270 | on the objects, between two calls: when every New was called on a rule not in use and no removal was refused, the firewall lets an address in if and only if it is in the range of an active session of the map |
| Tokens.AuthStore.IssueToken | internal/web/auth.go:42-60 | the map gains the drawn token with its session and time |
| Tokens.AuthStore.Validate | internal/web/auth.go:64-80 | a session exactly when the cookie has a token of it that was issued at most 12 hours ago; only a token that is too old is removed |
| Tokens.AuthStore.RevokeSession | internal/web/auth.go:83-91 | the loop removes every token of the session, and every other token stays as it is |
| Tokens.AuthStore.Revoke | internal/web/auth.go:94-98 | exactly that token is removed |
| Gate.ForwardedRequestsAreSound | internal/web/auth.go:133-155 | over every run: a forwarded request was checked against a session active and before its expiry, from an address in its range; its token was issued at most 12 hours before to a request that had shown the right key for that session from an address in its range while the session was open; and no End of the session precedes either check |
| Gate.FreshTokenIsForwarded | internal/web/auth.go:133-155 | a request from an allowed address with a fresh token of a live session is sure to be forwarded if and only if no other session is live |
| Gate.PostExactly | internal/web/handlers.go:184-215 | a post to the gate yields a token of the live session if and only if it has the right key, comes from an address in the range, and the session is not locked; no other token changes |
| Gate.StepSound | internal/web/handlers.go:184-215 | the invariant behind it is kept by every step of every gate, page and end request and of the manager |
| Gate.EndRetires | internal/session/manager.go:164-170 | an End of a session in the map puts it in the retired state |
| Gate.EndRequestEnds | internal/web/handlers.go:667-682 | over every run, whatever happens in between: a request to end the session, once it is answered, has left it revoked and marked, or it has left the map for good |
| Gate.EndDropsTokens | internal/web/handlers.go:673 | before that its tokens are gone, and every other token is as it was |
| Gate.EndedMeansOut | internal/web/handlers.go:667-682 | over every run, once a session is ended no request that arrives later is forwarded on it, whatever token it has |
| Revocations.StepRetired | internal/session/manager.go:164-180 | no step of any operation leaves the retired state, so no later check finds the session live |

## Left out

- HTTP routing, templates, cookies, headers and the choice of the client address: a request arrives with its token and address.
- Cryptography: comparing a key gives an outcome, ids and tokens are fresh values, a saved list is itself.
- JSON, files and time formats: a save replaces the stored list at once or fails; `LoadAll` failing only keeps a manager from starting.
- MySQL and ufw themselves: sets of accounts and rules, with a success or failure for each call.
- Address parsing, regular expressions and Unicode: parsed addresses and character classes are the starting point, IPv4-mapped IPv6 text is excluded, case folding is that of characters with an ASCII upper case, and scripts are sequences of Unicode scalar values.
- Several processes sharing one session file: the code has nothing to coordinate them.
- Playground databases: only the name on the session is kept; dropping the database on revocation is not modelled.
- Text of error messages, including the shortening of long statements in a script report.
- Agreement.UsersAgree: speaks of one run of the manager from a matching start; what a crash does to it is CrashAgreement.CrashWhenCalm and CrashAgreement.CrashInFlight.
- Durability.ReturnedSessionsSurvive: operations one at a time; with overlap it is false, as Durability.OverlapLosesRevocation and Durability.StaleSaveLosesSession show. Failure counters are not covered, because VerifyAccess never saves.
- Managers.Manager.New: drawing the key and its hash is left out; the id and password bytes are parameters.
- Managers.Manager.SetPlaygroundDB: with the lock as written it never returns, which is RwLock.SetPlaygroundBlocksItself.
- CrashAgreement.CrashInFlight: one way only; an operation that has yet to drop a user which the map has already let go is neither calm nor one of these two, and whether that user is still there depends on earlier calls.
- Accounts.Server.CreateAccount: CreateUser and CreateAdminUser repeat this loop in the source; here they share it, the temporary users keyed by session instead of user and host.
- UpdatePreview.UpdatePreviewExact: for texts that the reader accepts: one bare table name, a SET list and at most one WHERE and one LIMIT with a number, keywords outside quotes and parentheses; texts with comments, semicolons, ORDER BY, several tables, or a qualified or quoted table name are not read. The SET list itself is not parsed.
- UpdatePreview.UpdatePreviewInPlainTerms: only for texts whose upper case has the same number of bytes in front of the first WHERE between spaces; UpdatePreview.UpdatePreviewExact covers the others.
- DeletePreview.DeletePreviewExact: the same reader, with the table name bare or in backticks.
- DeletePreview.DeleteWarningExact: for texts without backticks; a backticked name may itself contain a WHERE between spaces.
- RwLock.IntendedNeverDeadlocks: Go lets blocked readers in before the next writer; here either may go first, so more orders are covered.
- The hooks and the store are always present; a manager without them only skips calls.
- Listing, sorting, pagination, statistics, permanent grants, DropAdminUser and the database create and drop functions: only easy members.

# KingCrab: verified model

KingCrab takes requests to run privileged commands, lets a person approve or deny each of them, and runs the approved
ones. This project models its request life cycle, its three request stores, its command executor and matchers, its
biometric token check, and two text transformations, and proves what they promise.

`dafny verify dfyconfig.toml` checks everything.

## How the model is organised

- `Timestamp`: UTC instants of the years 0 to 9999 and their RFC3339Nano text. The SQLite store compares expiry times as
  text. Section 5.1 of RFC 3339 lets texts be sorted when they have the same number of fractional digits; RFC3339Nano
  drops trailing zeros, so text order and time order differ. `TextOrderIsTimeOrder` says on exactly which pairs, and the
  lemmas after it by how much: any amount below one second, never a whole second.
- `Requests`: a request and what one statement of each store does to the table of requests, as functions. `SqliteStore`,
  `MemoryStore` and `PostgresStore` are the stores as objects whose methods are proved against these functions: SQLite
  over rows of texts, the in-memory store over request objects that are copied in and out and never shared.
- `Executor` and `PamMatcher`: the two tokenizers and matchers as loops, the grammar of command lines they implement, and
  when they agree. `SubmissionCheck`: for which commands the one's permission guarantees the other's, over all
  allowlists.
- `Protocol`: every handler as a process that makes one store call or clock reading per step. A run is any sequence of
  clock ticks, arrivals and process steps, so every interleaving is covered. A store call may fail before or after its
  statement took effect. The SQLite store reads the clock before its statement runs, and PostgreSQL before a statement
  that has to wait for a row lock, so these are two steps.
  `Handlers` holds the same handlers as straight-line programs over the SQLite store; each is proved to do what its
  process does when nothing comes in between.
- `Ledger`: the atomic machine the handlers are meant to implement, in real time, with what every legal log of it obeys.
  `Linearization` proves that each step of each process is one permitted entry of that machine or none; `Runs` draws the
  conclusions for all runs. Both hold for the SQLite store, which compares expiry as text, and for the PostgreSQL store,
  which compares it as time. `Scenarios` holds runs that reach the limits of these conclusions.
- `Conformance`: what all this comes to in the columns of the table and the answers to the callers: for each statement, for
  single steps from every reachable state, for every answer in every run, and for undisturbed calls from their arrival to
  their answer. The results listed below spell out statuses, names, outputs and exit codes instead of naming the functions
  that define the handlers' steps.
- `StoreEquivalence`: the in-memory and the PostgreSQL store, run against the same events, give the same effective
  statuses and the same successes.
- `TokenVault`: the biometric tokens with an explicit read/write lock, one step per store access and clock reading. Its
  class `Pam` holds the same programs as methods; each is proved to be a run of its process as that process sees the
  system, and every process of every run is such a run (`RunsAreSolo`). `EnrolmentOrder`: when the latest enrolment wins.
- `SqlSplitter`, `HtmlEscape`: the migration splitter and the Telegram escaper. `SqlLines` proves what the splitter's tests
  on single lines mean: how a line is made up that passes them.

## What the model shows about the code

- A decision can succeed although its clock reading lies almost a second after the expiry, or be refused although the
  reading lies almost a second before it, when both lie in the same second (`ReadingsErrByUpToASecond`). The reading is
  never off by a whole second (`LateDecisionsFail`, `EarlyDecisionsSucceed`), but it is taken before the statement runs:
  a decision takes effect late by less than that second plus the time since the reading, and that time has no bound
  (`ApprovalsMayCommitLate`).
- The final `Update` of v1 is unconditional, but in every reachable state it finds the request approved by the very
  process that updates it, so it is as good as a compare-and-swap. It erases the approver: a completed or failed request
  names none, and a failed one has exit code 1 whatever the process returned.
- A request approved through PAM stays approved and is never executed (`PamApprovalsStay`).
- What v1 files is never refused by the allowlist when it is executed (`V1FilingsPassAgain`). What PAM files may be, even
  with one and the same allowlist of trimmed entries: exactly for the commands that PAM can match by tokens while some
  word of them has an unpaired quote, or all of them read as nothing (`SafeFilingsAreNeverRefused`).
- A new enrolment does not always replace the old one for good: a use of the old token that has got past its check may
  store that token again (`LatestEnrolmentMayLose`). `EnrolmentPrevails` says exactly when this cannot happen.
- With the in-memory store too a request is executed at most once, provided ids are not used twice
  (`ExecutedAtMostOnceAnywhere`, `ReusedIdsRunTwice`).
- The executor's tokenizer drops U+0000 outside quotes and joins the text around it (`UnquotedNulVanishes`), because its
  "no quote" marker is that character.
- `internal/pam/handlers_test.go:427-428` expects the pattern `a*` to match by prefix. The code gives `*` a meaning only
  as a whole last token, so that such a pattern permits nothing but its own text (`GluedStarIsLiteral`,
  `PrefixesAreNotMatched`); the model follows the code.
- The two tokenizers agree exactly on text without quotes and U+0000 (`TokenizersAgree`).
- In-memory and SQL stores answer "set to expired" differently, and disagree at exactly the expiry instant and when a
  SQL statement waits past it (`ExpiryAnswersDiffer`, `TheInstantItselfDiffers`, `WaitingDiffers`).

## Model

| member | source | states |
|---|---|---|
| Timestamp.TextOrderIsTimeOrder | internal/pam/store_sqlite.go:137-146 | for all instants the stored texts sort in time order, except that exactly the pairs in one second with one printed fraction a proper prefix of the other sort the other way |
| Timestamp.TextOrderWithinASecond | internal/pam/store_sqlite.go:213-218 | text order never contradicts time order by a second or more |
| Timestamp.TextOrderErrsByUpToASecond | internal/pam/store_sqlite.go:127-146 | every error below one second occurs |
| Timestamp.SameLengthSortsByTime | internal/pam/store_sqlite.go:74-75 | with equally many fractional digits text order is time order (section 5.1 of RFC 3339) |
| Timestamp.ParseFormat | internal/pam/store_sqlite.go:250-255 | a written timestamp is read back to the nanosecond |
| Timestamp.TextEqualityIsTimeEquality | internal/pam/store_sqlite.go:74-75 | equal texts are equal instants, and equal instants equal nanosecond counts |
| Timestamp.SecondsAreOrdered | internal/pam/store_sqlite.go:74-75 | comparing calendar fields down to the second is comparing elapsed seconds, leap years included |
| Timestamp.NanosClosed | internal/pam/store_sqlite.go:74-75 | an instant as a number of nanoseconds, by the Gregorian calendar in closed form |
| Timestamp.FormatLayout | internal/pam/store_sqlite.go:127 | the text field by field, separators included, with the nanoseconds as a fraction that does not end in zero |
| Requests.ExpiryGuards | internal/pam/store_sqlite.go:137-141 | what a store's expiry guard means in real time: exactly for the SQL stores, within a second for all |
| SqliteStore.ScanEncode | internal/pam/store_sqlite.go:236-267 | scanning a written row restores the request without its result columns |
| SqliteStore.Store.Create | internal/pam/store_sqlite.go:64-79 | inserts the request with four columns NULL, or fails on a used id or a store error |
| SqliteStore.Store.Get | internal/pam/store_sqlite.go:82-94 | the stored request, none, or a store error |
| SqliteStore.Store.Update | internal/pam/store_sqlite.go:97-122 | rewrites five columns of an existing row, NULL where unset, and touches nothing else |
| SqliteStore.Store.SetDecision | internal/pam/store_sqlite.go:135-146 | the guarded statement: expected status and expiry text above the clock text, recording actor and time |
| SqliteStore.Store.SetStatus | internal/pam/store_sqlite.go:148-164 | the statement of the other targets: status only, whatever the expiry |
| SqliteStore.Store.UpdateStateIf | internal/pam/store_sqlite.go:126-175 | the compare-and-swap over text timestamps, its answer and its errors |
| SqliteStore.Store.ExpireOldRequests | internal/pam/store_sqlite.go:212-228 | expires exactly the pending rows whose expiry text is not above the clock text, and counts them |
| SqliteStore.Store.Delete | internal/pam/store_sqlite.go:206-209 | removes the row and no other |
| SqliteStore.Store.ListPending | internal/pam/store_sqlite.go:178-203 | exactly the live pending requests, each once, by descending creation text, or a store error |
| MemoryStore.DeepCopy | internal/pam/store_request.go:57-92 | a new object of equal value, or nil for nil |
| MemoryStore.Transitioned | internal/pam/store_request.go:152-167 | the edited copy: approval metadata only for approvals |
| MemoryStore.Store.Create | internal/pam/store_request.go:108-114 | stores a private copy under its id |
| MemoryStore.Store.Get | internal/pam/store_request.go:117-122 | a fresh copy of the stored request, or nil |
| MemoryStore.Store.Update | internal/pam/store_request.go:125-131 | replaces the whole record by a private copy |
| MemoryStore.Store.UpdateStateIf | internal/pam/store_request.go:134-171 | swaps only an unexpired request in the expected state, by replacing its object |
| MemoryStore.Store.Delete | internal/pam/store_request.go:189-194 | removes the record and no other |
| MemoryStore.Store.ExpireOldRequests | internal/pam/store_request.go:197-216 | expires exactly the pending requests past their expiry, and counts them |
| MemoryStore.Store.ListPending | internal/pam/store_request.go:174-186 | fresh copies of exactly the requests pending and before their expiry by the clock when each is visited, each once |
| MemoryStore.PendingIsListed | internal/pam/store_request.go:174-186 | what it lists: pending, and strictly before the expiry |
| PostgresStore.Store.Create | internal/pam/store_db.go:24-35 | inserts the request with four columns NULL, or fails on a used id or a store error |
| PostgresStore.Store.Get | internal/pam/store_db.go:38-69 | the stored request, none, or a store error |
| PostgresStore.Store.SetDecision | internal/pam/store_db.go:106-140 | the guarded statements of approval and denial, over exact time |
| PostgresStore.Store.SetStatus | internal/pam/store_db.go:118-150 | the unguarded statements |
| PostgresStore.Store.UpdateStateIf | internal/pam/store_db.go:100-162 | the compare-and-swap over exact time, its answer and its errors |
| PostgresStore.Store.Update | internal/pam/store_db.go:72-97 | rewrites five columns of an existing row and touches nothing else |
| PostgresStore.Store.ListPending | internal/pam/store_db.go:165-206 | exactly the live pending requests, whole as `Get` reads them, each once, newest first, or a store error |
| PostgresStore.Store.Delete | internal/pam/store_db.go:209-212 | removes the row and no other |
| PostgresStore.Store.ExpireOldRequests | internal/pam/store_db.go:215-232 | expires exactly the pending rows whose expiry has come, and counts them |
| Executor.TokenizeCommand | internal/executor/executor.go:87-122 | the tokenizer loop computes the token list, or the unclosed-quote error |
| Executor.TokensAreNonempty | internal/executor/executor.go:100-105 | no token is empty |
| Executor.TokenizeRecoversWords | internal/executor/executor.go:80-86 | however a command line of blanks, plain characters and quoted spans is written, tokenizing yields its nonempty words |
| Executor.AcceptedTextsAreWritten | internal/executor/executor.go:87-122 | a NUL-free text is accepted exactly when it is such a command line |
| Executor.UnquotedNulVanishes | internal/executor/executor.go:97-99 | a NUL outside quotes disappears |
| Executor.TokenizeRoundTrip | internal/executor/executor.go:87-122 | any nonempty tokens over any characters survive quoting and tokenizing |
| Executor.BlankSeparates | internal/executor/executor.go:100-105 | outside quotes a space, tab, newline or carriage return ends a token: both sides are read on their own |
| Executor.PlainTextIsOneToken | internal/executor/executor.go:87-122 | text without blanks, quotes and NUL is one token |
| Executor.QuotesProtect | internal/executor/executor.go:94-99 | quoted text is one token, whatever it holds but its own mark |
| Executor.ContainsShellMetacharacters | internal/executor/executor.go:127-138 | true exactly when some character is one of the listed metacharacters |
| Executor.MatchTokens | internal/executor/executor.go:41-77 | the index loops decide: prefix when the pattern ends in `*`, else equality, and no metacharacter in any command token |
| Executor.TokenizeAndMatch | internal/executor/executor.go:23-78 | matches exactly on `*`, on equal text, or on matching harmless tokens; quote errors never match |
| Executor.IsAllowed | internal/executor/executor.go:168-180 | true exactly when some trimmed nonblank entry matches |
| Executor.PrepareArgv | internal/executor/executor.go:183-205 | the argument vector, or the refusal, for every command |
| Executor.ArgvIsVetted | internal/executor/executor.go:183-213 | a process is started exactly for a nonempty tokenization vetted by an entry or let through by `*`; a vetted vector is the tokens of an equal entry, or has the entry's literal tokens, length included without a wildcard, and none of the listed metacharacters |
| Executor.AllowedArgv | internal/executor/executor.go:183-205 | past the allowlist a command fails before it starts exactly if it is no nonempty list of words, and such a command got past by `*` or as a literal entry |
| PamMatcher.TokenizeCommand | internal/pam/handlers.go:643-663 | the second tokenizer loop computes the blank-separated tokens |
| PamMatcher.MatchCommand | internal/pam/handlers.go:591-640 | the second matcher, for all patterns and commands |
| PamMatcher.IsCommandAllowed | internal/pam/handlers.go:575-587 | true exactly when some entry matches; an empty list admits nothing |
| PamMatcher.TokenizersAgree | internal/pam/handlers.go:643-663 | both tokenizers find the same tokens exactly when the text has no quotes and no NUL |
| PamMatcher.PamBlankSeparates | internal/pam/handlers.go:643-663 | the second tokenizer separates at every such blank |
| PamMatcher.MatchersAgree | internal/pam/handlers.go:575-640 | submission through PAM and execution decide alike for every allowlist of trimmed entries, on text free of quotes and NUL |
| PamMatcher.MatchersDisagreeOtherwise | internal/executor/executor.go:168-180 | each hypothesis of that agreement is needed, for the entry and for the command, and either matcher may be the stricter |
| PamMatcher.SpecialCharactersDivide | internal/pam/handlers.go:600-640 | quoting any harmless word, or a NUL after it, in the entry or in the command, makes the matchers disagree |
| PamMatcher.GluedStarIsLiteral | internal/pam/handlers.go:612-640 | a pattern that is one word ending in a star permits exactly its own text |
| PamMatcher.PrefixesAreNotMatched | internal/pam/handlers_test.go:427-428 | the expected prefix matches do not happen |
| Ledger.OnceEach | internal/api/v1.go:338-385 | in a legal log a request is filed once and decided, executed and finished at most once, as its phase tells |
| Ledger.OnlyOne | internal/api/v1.go:338-350 | two entries of one sort about one request are the same entry |
| Ledger.GrantLasts | internal/api/v1.go:338-385 | an approval is never taken back: the request stays with the process that won it |
| Ledger.ActorLasts | internal/api/v1.go:338-350 | nor does it change hands before its result is recorded |
| Ledger.RefusalLasts | internal/api/v1.go:404-408 | a denial stays, under the name of its actor |
| Ledger.RunLasts | internal/api/v1.go:352-385 | what an execution came to is never replaced |
| Ledger.RunsAreAuthorized | internal/api/v1.go:338-353 | an execution follows the grant its own process won in time, with the argument vector of the filed command |
| Ledger.RefusedNeverRun | internal/api/v1.go:344-353 | a denied or expired request is not executed at any time |
| Ledger.DecisionsRespectExpiry | internal/pam/store_sqlite.go:135-146 | decisions beat the expiry, and a first decision is turned away exactly when it does not, as the store compares times; within its tolerance |
| Ledger.LapsesAreDue | internal/pam/store_sqlite.go:212-218 | nothing expires earlier than the tolerance allows |
| Ledger.EntryFrame | internal/pam/store_sqlite.go:97-122 | an action leaves what other processes own, and every command and expiry, unchanged |
| Linearization.LookupHolds | internal/api/v1.go:284-302 | reading a request is one atomic look, and the early answers are what it saw |
| Linearization.CheckHolds | internal/api/v1.go:304-328 | the clock check relies only on the immutable expiry |
| Linearization.MarkHolds | internal/api/v1.go:305-310 | marking expired is one atomic lapse or nothing, and comes after the expiry |
| Linearization.DecidedHolds | internal/pam/handlers.go:296-306 | a decision is one atomic grant, refusal or rejection, and its answer says which |
| Linearization.LaunchHolds | internal/api/v1.go:352-353 | executing is one atomic run by the owner of the grant |
| Linearization.RecordHolds | internal/api/v1.go:360-385 | the unconditional update is one atomic finish of the updater's own run, or the store failed (what it writes: `Conformance.ResultIsRecorded`) |
| Linearization.FileNowHolds | internal/api/v1.go:87-137 | creating is one atomic filing of a new id |
| Linearization.SweepMatches | internal/daemon/server_v2.go:307-317 | a sweep is one atomic lapse of exactly the overdue requests |
| Linearization.OthersKeep | internal/pam/store_sqlite.go:126-175 | a step of one process disturbs no other |
| Linearization.NextKeeps | internal/pam/store_sqlite.go:126-175 | the simulation invariant survives every event |
| Linearization.InvariantHolds | internal/api/v1.go:264-432 | and so holds after every run |
| Conformance.SqlSwapColumns | internal/pam/store_sqlite.go:126-175 | `UpdateStateIf` of both SQL stores in columns: approvals, denials and failures guarded by the expiry and recorded with actor and time, other targets changing the status alone |
| Conformance.MemorySwapColumns | internal/pam/store_request.go:134-171 | that of the in-memory store: every target guarded, actor and time kept for approvals and cleared otherwise |
| Conformance.ReadsBackWhatWasWritten | internal/pam/store_db.go:24-97 | what `Create` and `Update` store, `Get` reads back, column by column for each store, and nothing else changes |
| Conformance.SweepCounts | internal/pam/store_sqlite.go:219-228 | a sweep counts the pending requests that are not before their expiry |
| Conformance.LaunchStep | internal/executor/executor.go:183-246 | execution succeeds exactly if the argument vector stands and the process ends cleanly, and otherwise yields the text of what went wrong |
| Conformance.ResultIsRecorded | internal/api/v1.go:352-385 | from every reachable state the last step of a v1 approval leaves the row completed with its output and exit code 0, or failed with the error text and 1, without approver; the answer is that result |
| Conformance.SweepStep | internal/pam/store_sqlite.go:212-228 | from every state and with every store, a sweep expires exactly the pending requests its reading is not before, and leaves none pending that is overdue by a second |
| Conformance.MarkStep | internal/api/v1.go:304-310 | marking an overdue request expired does so exactly if it is pending, and answers that it has expired |
| Conformance.AnswersAreOnRecord | internal/api/v1.go:264-432 | over all runs an answer reporting success is borne out by the table: the status, the caller's name, the output and the exit code; each sort of call reports only its own sort of success |
| Conformance.PamActsForTheAdmitted | internal/pam/handlers.go:220-270 | over all runs nothing comes of a PAM call unless its caller was let through at its first step |
| Conformance.V1FirstAnswers | internal/api/v1.go:284-328 | undisturbed, what v1 answers to unknown, decided, overdue and incomplete requests, and when its store fails |
| Conformance.V1Denies | internal/api/v1.go:396-426 | undisturbed, a v1 denial of a live request denies it under the caller's name |
| Conformance.V1ApprovalExecutes | internal/api/v1.go:338-385 | undisturbed, from arrival to answer: a winning v1 approval ends completed and answers the output exactly if the argument vector stands and the process ends cleanly, otherwise failed |
| Conformance.V1ApprovalFails | internal/api/v1.go:338-350 | undisturbed, a v1 approval that loses or whose store fails executes nothing |
| Conformance.PamFirstAnswers | internal/pam/handlers.go:220-294 | undisturbed, what PAM answers to callers it does not let through, and to unknown and overdue requests |
| Conformance.PamApproves | internal/pam/handlers.go:296-315 | undisturbed, PAM approve sets a live request to approved by "tg:" and the sender, and any other is a conflict |
| Conformance.PamDenies | internal/pam/handlers.go:319-415 | undisturbed, PAM deny sets it to denied under that name |
| Conformance.TelegramFirstAnswers | internal/telegram/webhook.go:105-116 | undisturbed, what Telegram answers to unknown and overdue requests, which it leaves as they are |
| Conformance.TelegramDenies | internal/telegram/webhook.go:118-133 | undisturbed, Telegram denies a live request under the user name, or "tg:" and the number |
| Conformance.CreateAnswers | internal/api/v1.go:80-137 | undisturbed, every answer of both create handlers in the order of their checks, the demanded reason included, and the row that is filed |
| Conformance.CleanupExpires | internal/daemon/server_v2.go:307-326 | undisturbed, the cleanup expires exactly the overdue requests, by the reading its store compares with |
| Runs.Linearizable | internal/api/v1.go:264-432 | every run is a legal log of atomic actions that yields the table and accounts for every answer |
| Runs.StepAppends | internal/pam/handlers.go:272-306 | a step makes at most one entry, by a process at work |
| Runs.RealTimeOrder | internal/pam/handlers.go:220-316 | calls that did not overlap appear in the log in their real order |
| Runs.OneEffectPerCall | internal/telegram/webhook.go:98-133 | each call settles a request at most once |
| Runs.EntriesAreAttributed | internal/pam/handlers.go:296-314 | each entry serves the call of its process; only v1 approvals execute, so PAM approvals never do |
| Runs.ExecutedAtMostOnce | internal/api/v1.go:338-353 | over all runs a request is executed at most once |
| Runs.ExecutedAtMostOnceAnywhere | internal/pam/store_request.go:134-171 | so it is with every store, the in-memory one included as long as ids are not filed twice, and at most one process is ever about to execute |
| Runs.ExecutionIsAuthorized | internal/api/v1.go:285-353 | what is executed was filed, approved in time by that very v1 call under its caller's name, and decided by nothing else |
| Runs.StartedProcessesAreVetted | internal/executor/executor.go:183-213 | over all runs the arguments of a started process are the words of a filed command, vetted by the allowlist |
| Runs.V1FilingsPassAgain | internal/api/v1.go:434-440 | over all runs what v1 filed is never refused by the allowlist at execution, and what else can stop it |
| Runs.PamFilingsMayFailAgain | internal/pam/handlers.go:458-463 | over all runs what PAM filed is refused at execution exactly if the executor's matcher does not allow it, and on one list of trimmed entries never if the command is safe |
| SubmissionCheck.ReadsWordByWord | internal/executor/executor.go:87-122 | a text whose blank-separated words each have paired quotes is read word by word |
| SubmissionCheck.SubmissionGuarantees | internal/pam/handlers.go:591-640 | PAM's permission by any trimmed entry guarantees the executor's exactly for safe commands: those readable word by word and not as nothing, and those PAM never matches by tokens |
| SubmissionCheck.Refutation | internal/executor/executor.go:107-115 | for every other command there is a trimmed entry by which PAM permits it and the executor does not |
| SubmissionCheck.SimpleCommandsAreSafe | internal/pam/handlers.go:643-663 | commands without quotes and NUL are safe, whatever the entries hold |
| SubmissionCheck.ExecutionImpliesSubmission | internal/executor/executor.go:23-78 | conversely the executor's permission guarantees PAM's exactly for commands it never matches by tokens |
| SubmissionCheck.MatchersAgreeOnEveryEntry | internal/pam/handlers.go:575-640 | the two matchers agree on every trimmed entry exactly for commands that neither matches by tokens |
| Scenarios.ReusedIdsRunTwice | internal/pam/store_request.go:108-114 | in memory, a request filed twice under one id can be executed twice |
| Scenarios.UnsafeFilingsDoFail | internal/pam/handlers.go:458-463 | every unsafe command has an allowlist and a run in which it is filed through PAM, approved through v1 and refused at execution |
| Scenarios.SafeFilingsAreNeverRefused | internal/api/v1.go:352-370 | over all runs and lists of trimmed entries, a PAM filing is never refused at execution exactly if its command is safe |
| Runs.PamApprovalsStay | internal/pam/handlers.go:296-314 | over all runs a request approved through PAM stays approved under that approver's name and is never executed |
| Runs.UpdateFindsApproved | internal/api/v1.go:339-385 | the result update always finds its row approved, and no two processes are between swap and update of one request |
| Runs.ReachableRows | internal/pam/store_sqlite.go:97-146 | an approver exactly while approved or denied; exit code 0 exactly on completed and 1 exactly on failed rows |
| Runs.StepMovesStatus | internal/pam/store_sqlite.go:126-175 | a step moves a status only along the life cycle, and loses no request |
| Runs.StatusChangesAreBounded | internal/api/v1.go:307-404 | over any run a status changes at most twice and never back to pending |
| Runs.StampIsAReading | internal/pam/store_sqlite.go:127 | a clock reading kept for a statement was taken by its own process, by a step of the same call |
| Runs.ReadingsPrecedeCommits | internal/pam/store_sqlite.go:126-146 | every decision, rejection and sweep takes effect at one event of the run, no earlier than the clock reading its process compares with, which was taken during the call |
| Runs.LateDecisionsFail | internal/pam/store_sqlite.go:135-146 | a decision succeeds only by a clock reading, taken during the call, that is before the expiry, inverted pairs of texts excepted; it takes effect late by less than the tolerance and the time since that reading |
| Scenarios.ApprovalsMayCommitLate | internal/pam/store_sqlite.go:127-146 | that time has no bound: any acceptable request approved while live may turn approved at any later time |
| Scenarios.ReadingsErrByUpToASecond | internal/pam/store_sqlite.go:127-146 | for every error below a second, a run that approves by a reading that much past the expiry, and one that refuses by a reading that much before it |
| Runs.EarlyDecisionsSucceed | internal/pam/store_sqlite.go:135-146 | a first decision on a filed request is turned away only by a reading that is not before the expiry, with the same exception |
| StoreEquivalence.SwapsAgree | internal/pam/store_request.go:134-171 | away from the expiry instant both stores accept the same decisions |
| StoreEquivalence.SweepsAgree | internal/pam/store_db.go:215-232 | both sweeps leave the same effective statuses |
| StoreEquivalence.OverwritesAgree | internal/pam/store_request.go:125-131 | replacing the record and rewriting its columns give the same effective status |
| StoreEquivalence.EventsAgree | internal/pam/store_request.go:134-216 | the relation between the stores survives every event |
| StoreEquivalence.StoresAreEquivalent | internal/pam/store_db.go:100-232 | over every run with new ids, no action at an expiry instant and no SQL statement waiting for a row lock: same requests, same effective statuses, same successes |
| StoreEquivalence.ExpiryAnswersDiffer | internal/pam/store_request.go:147-150 | on an overdue request the expiry statement writes and succeeds in SQL, and does neither in memory |
| StoreEquivalence.WaitingDiffers | internal/pam/store_db.go:106-112 | a statement that waits past the expiry decides in SQL and not in memory |
| StoreEquivalence.TheInstantItselfDiffers | internal/pam/store_db.go:106-112 | at exactly the expiry a decision succeeds in memory and fails in SQL, and only SQL sweeps |
| Handlers.Execute | internal/executor/executor.go:183-246 | success only for a clean exit of a started process, else the text of the error |
| Handlers.HandleApproveOrDeny | internal/api/v1.go:264-432 | undisturbed, the v1 handler does exactly the steps of its process, answer included (which come to `Conformance.V1FirstAnswers`, `V1Denies`, `V1ApprovalExecutes` and `V1ApprovalFails`) |
| Handlers.Admit | internal/pam/handlers.go:228-270 | whether a caller is let through, and the answer if not: no token, no authenticated sender, a sender not on the list, or what a full use of the enrolled token comes to |
| Handlers.HandlePam | internal/pam/handlers.go:220-415 | undisturbed, PAM approve and deny do exactly the steps of their process, let through as `Admit` finds (which come to `Conformance.PamFirstAnswers`, `PamApproves` and `PamDenies`) |
| Handlers.HandlePamCreate | internal/pam/handlers.go:418-496 | undisturbed, the PAM create handler does exactly the step of its process |
| Handlers.HandleTelegramDeny | internal/telegram/webhook.go:98-133 | undisturbed, the Telegram denial does exactly the steps of its process |
| Handlers.HandleCreate | internal/api/v1.go:80-137 | undisturbed, the create handler does exactly the step of its process |
| Handlers.PerformCleanup | internal/daemon/server_v2.go:307-326 | undisturbed, the sweeper does exactly the steps of its process (which come to `Conformance.CleanupExpires`) |
| TokenVault.Pam.StoreToken | internal/pam/pam.go:283-287 | its steps are those of a process that stores, errors included |
| TokenVault.Pam.DeleteToken | internal/pam/pam.go:338-342 | its steps are those of the process `Revoke`, errors included |
| TokenVault.Pam.RetrieveToken | internal/pam/pam.go:290-335 | whatever the others do while it holds no lock, it takes a process `Use` from its start to a token that passed a check, or to failure, stale token purged (when which: `FirstCheckDecides`, `SecondCheckDecides`) |
| TokenVault.Pam.UseToken | internal/pam/handlers.go:253-270 | retrieving, comparing and storing again are the whole process `Use` |
| TokenVault.Pam.EnrollDevice | internal/pam/handlers.go:197-210 | dating and storing a new token are the whole process `Enroll` |
| TokenVault.RunsAreSolo | internal/pam/pam.go:283-342 | every process of every run does what its method does, given what it met |
| TokenVault.OthersWait | internal/pam/pam.go:283-342 | nobody changes the tokens while a process holds the lock, in either mode |
| TokenVault.MoveKeepsLock | internal/pam/pam.go:283-342 | the lock always knows exactly who is inside: one writer, or readers |
| TokenVault.InvariantHolds | internal/pam/pam.go:283-342 | over all runs every stored and returned token is accounted for |
| TokenVault.OnlyStaleTokensArePurged | internal/pam/pam.go:305-328 | over all interleavings a token disappears only by request, or unused for longer than the limit in nanoseconds at that moment, so a refresh survives |
| TokenVault.PurgedTokensWereStale | internal/pam/pam.go:305-328 | every purge on record is of a token unused for longer than the limit |
| TokenVault.OnlyRevocationsRemove | internal/pam/pam.go:338-342 | removals by request belong to revocations |
| TokenVault.FirstCheckDecides | internal/pam/pam.go:290-306 | a token found within the limit, or with no limit, is returned and nothing changes; one beyond it is checked again; none is an error |
| TokenVault.SecondCheckDecides | internal/pam/pam.go:307-334 | under the write lock a token within the limit by now is returned, and one beyond it deleted |
| TokenVault.MatchingUses | internal/pam/handlers.go:253-270 | a returned token is compared with the presented one and, if equal, stored again with a new date |
| TokenVault.EnrolmentStores | internal/pam/handlers.go:197-210 | an enrolment stores its token with the dates it read |
| TokenVault.RevocationRemoves | internal/pam/pam.go:338-342 | a revocation deletes the user's token and no other |
| TokenVault.RetrievedTokensAreFresh | internal/pam/pam.go:303-334 | a returned token was stored for the user and passed the validity check by a clock reading taken during the call |
| TokenVault.TimesAreReadings | internal/pam/handlers.go:197-207 | every time a process works with was read off the clock by a step of its own |
| TokenVault.RecordsTellReadings | internal/pam/handlers.go:265-268 | so was every date on record: of enrolments, checks, renewals, stores and purges |
| TokenVault.NoDeadlock | internal/pam/pam.go:283-342 | whenever a process is unfinished, some process can move |
| EnrolmentOrder.LatestEnrolmentMayLose | internal/pam/handlers.go:253-267 | for any two values, a run in which an enrolment succeeds and a use under way then stores the older value again |
| EnrolmentOrder.EnrolmentPrevails | internal/pam/handlers.go:353-366 | in any reachable state the user's token keeps its value, or vanishes, whatever happens short of another enrolment, exactly if no process under way carries another value past every check |
| TokenVault.AcceptedUsesTraceToEnrolment | internal/pam/handlers.go:253-267 | every accepted token check goes back, through accepted checks each after its token was stored and within the limit of the date its predecessor's use set, to an enrolment of that value dated by its own clock reading |
| SqlSplitter.SplitSqlStatements | internal/db/db.go:173-219 | the kept lines fall into shortest ending runs and an unfinished rest, and these are the statements; put together they are the kept lines, all but the last have paired body markers if they hold a function header, and none is blank or a comment |
| SqlSplitter.SplitIsUnique | internal/db/db.go:180-211 | that determines the statements completely |
| SqlSplitter.NothingIsLost | internal/db/db.go:173-219 | the statements put together are the nonblank, noncomment lines, each with its newline |
| SqlSplitter.BodiesStayWhole | internal/db/db.go:188-210 | if part of a line of a statement but the last reads "CREATE OR REPLACE FUNCTION" or "CREATE FUNCTION" in any letter case, the statement has paired body markers |
| SqlLines.SemicolonTest | internal/db/db.go:206 | a line passes the statement-end test exactly if it is a text, a semicolon and spaces |
| SqlLines.MarkerTest | internal/db/db.go:198 | it passes the marker test exactly if it has "$$" in it |
| SqlLines.ContentTest | internal/db/db.go:183-186 | it is kept exactly if it holds something that does not begin a comment |
| SqlLines.HeaderTest | internal/db/db.go:188-192 | it passes the header test exactly if it has either form of words in it, in any letter case |
| SqlLines.SpacesAreWhiteSpace | internal/db/db.go:181 | the spaces that are trimmed are those of Unicode's White_Space property |
| SqlLines.TrimTakesSpaces | internal/db/db.go:181 | trimming takes away spaces at both ends and nothing else |
| SqlLines.TrimLeavesMiddle | internal/db/db.go:181 | and all of them |
| SqlSplitter.DollarsAppend | internal/db/db.go:198 | markers on both sides of a cut are counted on their own |
| SqlSplitter.AfterLastMarker | internal/db/db.go:200 | what is looked at behind the last marker |
| SqlSplitter.FunctionIsStatement | internal/db/db.go:188-210 | a header line, lines of which one opens a "$$" body, and a closing line of "$$", a tail and a semicolon or nothing are one statement, semicolons inside the body notwithstanding |
| SqlSplitter.FunctionsComeOutWhole | internal/db/db.go:173-219 | and come out as one, wherever they stand |
| SqlSplitter.PlainLinesEndAtSemicolons | internal/db/db.go:206-210 | lines of which none names a function end a statement exactly at a trailing semicolon |
| SqlSplitter.MigrationFunction | internal/db/migrations/001_pam_schema.sql:158-164 | so the function of the migration is one statement |
| SqlSplitter.EveryStatementRuns | internal/db/db.go:149-158 | no statement is blank or a comment after trimming, so none is skipped |
| SqlSplitter.RunMigrations | internal/db/db.go:129-170 | commits every statement in order, or nothing when the transaction cannot begin or commit or a statement is rejected |
| HtmlEscape.EscapeIsSubstitution | internal/telegram/bot.go:218-224 | the four passes are one simultaneous substitution |
| HtmlEscape.EscapeInPlace | internal/telegram/bot.go:218-224 | wherever they stand, the four characters become their four entities and no other changes |
| HtmlEscape.EscapedTextIsSafe | internal/telegram/bot.go:218-224 | escaped text holds no `<`, `>` or `"` |
| HtmlEscape.DecodeEscape | internal/telegram/bot.go:218-224 | decoding the four entities restores the text |
| HtmlEscape.EscapeIsInjective | internal/telegram/bot.go:218-224 | different texts are shown differently |

## Left out

- HTTP decoding, routing, CORS, logging, sockets, signals, configuration, notifications, pagination: the handlers enter
  the model after their inputs are decoded.
- Starting a process, timeouts and output capture: how a process ends is an input of each step.
- AES-GCM, SHA-256, HMAC, JSON, initData validation and ClawVault: the token store is a map that may fail, and a PAM
  handler is given the sender that initData authenticates, if any, and the user list in force. As wired in
  `internal/daemon/server_v2.go:127-134` that list is always empty and PAM lets nobody through.
- Inside the concurrent request protocol PAM's admission is an input of a step; `Handlers.Admit` ties it to the token
  vault, which models its own concurrency.
- The SQL engines: each statement is one atomic guarded change of the table. CHECK constraints, microsecond rounding and
  the retention job of the PostgreSQL schema are not part of this model.
- Reads of request status for display (`handleGetRequest`, `handleListRequests`, `handleStatus`): the store reads behind
  them are modelled.
- How `CreatedAt` and `ExpiresAt` are computed from the clock: a filed request carries any two instants, which includes
  an expiry five minutes after creation.
- Go's `time.Parse` on texts the store never writes: other offsets, more than nine fractional digits. Years outside 0 to
  9999 are not part of this model.
- Text that is not valid UTF-8; strings are sequences of characters. Of Unicode upper-casing the splitter's model keeps
  what a search for ASCII text can observe.
- TokenVault.AcceptedUsesTraceToEnrolment: does not claim that the latest enrolment wins, because it need not
  (`LatestEnrolmentMayLose`); exactly when it does is `EnrolmentPrevails`.
- PamMatcher.MatchersAgree: does not cover entries or commands with quotes or U+0000, on which the two matchers may differ
  (`SpecialCharactersDivide`); exactly when they agree on every entry is `MatchersAgreeOnEveryEntry`.
- StoreEquivalence.StoresAreEquivalent: does not cover SQL statements that wait for a row lock, where the two stores differ
  as `WaitingDiffers` shows.
- Runs.LateDecisionsFail: does not bound how late a decision takes effect, because the code does not, as
  `ApprovalsMayCommitLate` shows.
- Runs.ExecutedAtMostOnceAnywhere: does not cover ids filed twice in the in-memory store, where a second filing leads to a
  second execution as `ReusedIdsRunTwice` shows.
- The legacy server in `internal/daemon/server.go` and `internal/daemon/executor.go`, which the program does not start.

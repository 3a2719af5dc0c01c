# Verified models of fabric8-common

This project models the parts of fabric8-common whose correctness is an
interplay of several steps, and proves what they promise.

* `migration/` - schema migration. Any number of service replicas, built from
  the same or from an older list of scripts, run `Migrate` against one database.
  `Protocol` is a transition system: a client (the Go process) and its server
  session are kept apart, so that a client may crash or give up anywhere while
  its session, and its place in the queue for the advisory lock or the lock
  itself, live on until the server ends them.
  Statements fail, rollbacks fail, and a commit may report an error whether or
  not it takes effect, then or later. `Scripts` and `Effects` say what
  scripts do to a database, `Invariant` holds in every reachable state, `Guarantees`,
  `Termination` and `Undisturbed` are the results, and `Program` is the loop of
  `Migrate` itself, every statement of which is a step of the protocol.
* `cleaner/` - the undo log of the test suites: rows with foreign keys, which
  are checked at once or at the end of a transaction, transactions that insert
  and delete rows and are committed or rolled back, a hook that records inserted rows, a cleaner that
  deletes them in reverse order, and two overlapping recorders in a suite.
* `sentry/` - many goroutines, an unbuffered channel, one consumer, and a client
  context that each operation sets and clears.
* `ids/` - UUID slices that share arrays, their text, and their order.
* `httpsupport/`, `errors/` - request rewriting through chains of proxies, and
  errors on their way through wrapping and through services, with what
  `fmt.Sprintf` does to their details.

`dafny verify dfyconfig.toml` checks everything. Clients of a module read its
contracts; `old` state and frames are stated where the source updates in place.

## Where the code and what one expects of it differ

* At the loop head of `Migrate` the counter is usually at most the committed
  version plus one, but not always: when the last iteration found nothing to
  apply, the callee has set it to the version plus one and the loop has
  incremented it once more. `Guarantees.CounterAfterIteration` says exactly after
  which iterations the bound holds: those that applied a version, and those
  during which somebody else has advanced the database since it was read. For an
  undisturbed call that is known beforehand: the bound holds at every loop head
  if and only if the list is empty or the database is below its last version
  (`Undisturbed.UndisturbedCounter`, `Program.Replica.Migrate`).
  `Guarantees.CounterCanPassVersionByTwo` is a run.
* An error detail is handed to `FromStatusCode` as a format
  (auth/token.go:358). It survives any positive number of hops if and only if it
  has no `%`: `Errors.DetailSurvivesIffNoPercent`.
* A `goa.ErrorResponse` brings its own code, which may be the code of one of the
  error types: `Errors.ClassifiersAgreeWithConversion`.
* Rows of tables without a primary key cannot be cleaned; with error reporting
  on, one of them keeps the whole recorder from cleaning anything
  (`TestSuite.KeylessRowExample`).
* A transaction that deletes a row, creates it again and is rolled back leaves a
  second record of a row that is still there. The cleaning then begins with that
  row, and fails if another one names it: `History.RecreatedRowExample`.
* A recorded row that is gone again still counts for the cleaning: an unrecorded
  row that has got its key is deleted (`TestSuite.ReusedKeyExample`).
  `TestSuite.SuiteLeavesUnrecordedRows` and `TestSuite.SuiteRestores` say exactly
  when a suite ends with the database it should.
* Closing the Sentry client is safe if and only if every call has returned:
  `Channel.ClosingLastIsSafe`, `Channel.EarlyCloseCanPanic`.

## Assumptions

* A migration step is a partial function on the data outside the table
  `version`; a step may create that table, but writes no rows to it and contains
  no transaction control. The `catalog` argument names the connected database.
  The table `version`, if it exists at the start, is not empty and holds no
  negative number (the bootstrap script forbids negative ones; on an empty table
  the maximum is NULL and every run stops with an error).
* Every list of scripts in use is a prefix of one release. For finitely many
  lists that agree pairwise this is `Scripts.CompatibleListsHaveRelease`.
* In `Program`, a wait for the lock that never ends is represented by a statement
  that fails; `Termination` shows that the lock always can become free.
* gorm calls the create hook once for each INSERT that succeeded, with the row's
  primary key, also if the transaction is rolled back later. A foreign key has no
  cascading action, and is either checked after each statement or deferrable and
  deferred to the commit. A failed statement aborts a Postgres transaction, whose
  commit then rolls back and reports an error; a commit that reports an error has
  had no effect; no other session writes to the test database.
* fmt is that of the current Go; a `userInfo` callback and the callback of
  `ToString` are functions of their arguments.
* The Raven client puts its current context into each event. The Sentry client
  is set up once and closed at most once.

## Model

| member | source | states |
|---|---|---|
| Scripts.NextVersionInserts | migration/migration.go:146-148 | inserting the next version never meets a duplicate or a negative number: a version fails only by a step, a missing table, or a number that is no int4 |
| Scripts.ReplayRows | migration/migration.go:36-38 | applying versions v0+1..v adds exactly the rows v0+1..v, in order |
| Scripts.ReplaySplits | migration/migration.go:49-85 | a replay can be interrupted after any version and resumed |
| Effects.StepsRun | migration/migration.go:140-144 | steps run exactly if each one runs on the data the one before it has left and the table is not created twice; then the data is what the last one has left, and nothing else has changed but that the table may be there |
| Effects.ReplayRunsEveryStep | migration/migration.go:134-148 | a replay has run every step of every version on the data, one after the other |
| Effects.ReplaySucceedsIff | migration/migration.go:134-148 | a replay succeeds exactly if all its steps run one after the other, the first version creates the table if it is missing, none creates it twice, and the last number is an int4 |
| Scripts.CompatibleListsHaveRelease | migration/migration.go:33-34 | finitely many lists that agree pairwise on their common prefix are prefixes of one of them |
| Assets.GetMigrations | migration/migration.go:99-105 | one version with one step for each file, in the order of the names |
| Assets.FileIsExecuted | migration/migration.go:161-194 | the script of a file executes its text, or what the template engine makes of it if there are arguments; without the file or a proper template it fails |
| Assets.AppendedFilesAreCompatible | migration/migration.go:99-105 | a binary that only appends files replays the older versions alike |
| Assets.UnreadableFileBlocks | migration/migration.go:161-194 | a missing file or bad template stops every run before its version, whatever the data |
| Invariant.StepPreservesInv | migration/migration.go:39-156 | every move of a client or of the server keeps the protocol invariant |
| Guarantees.EveryRunIsAReplay | migration/migration.go:39-156 | in every interleaving with every failure the committed database is the sequential replay of the versions gained: the data is what all their steps have made of the initial data, and `version` gained exactly their rows |
| Guarantees.VersionsTakeEffectOnce | migration/migration.go:110-156 | each version takes effect at most once, in order, through a migrator that has it; effective transactions are as many as versions gained |
| Guarantees.OnlyTheLockHolderAdvances | migration/migration.go:111-148 | the database changes only by a commit of the lock holder, to the next version of its own list: nobody lowers, skips or adds versions it does not have |
| Guarantees.CounterAtLoopHead | migration/migration.go:49-85 | at every loop head, whatever others do, the counter is at most the committed version plus one, or plus two when the list is exhausted; if the loop ends the list is applied |
| Guarantees.CounterAfterIteration | migration/migration.go:49-85 | after an iteration the counter is at most the committed version plus one exactly if the iteration applied a version or somebody else has advanced the database since the read |
| Undisturbed.UndisturbedCounter | migration/migration.go:49-85 | in an undisturbed run that returns nil the bound holds at every loop head if and only if the list is empty or the database was below its last version; in one that fails it always holds |
| Guarantees.CounterCanPassVersionByTwo | migration/migration.go:124-132 | a concrete run in which the counter is the committed version plus two |
| Guarantees.SuccessMeansUpToDateForever | migration/migration.go:49-95 | after a nil return the database has every version of that list, then and ever after |
| Guarantees.RecoveryIsExact | migration/migration.go:58-82 | any two histories of failed, crashed and successful runs in which a full release succeeded end in the same database |
| Guarantees.ReadsAndInsertsAreSafe | migration/migration.go:202-226 | under the lock the version read is the committed one and never NULL; the INSERT meets no duplicate |
| Guarantees.FailureLeavesNoTrace | migration/migration.go:58-75 | a migrator that has failed or died before asking to commit changes nothing any more, in any interleaving |
| Guarantees.FailuresAreAlwaysPossible | migration/migration.go:49-85 | what the guarantees withstand: starts, deaths, aborted and late commits at any moment, and errors of begin, rollback and commit wherever they may succeed |
| Guarantees.CommitMayFail | migration/migration.go:77-83 | a commit may report an error as soon as it is asked for |
| Guarantees.FailingIsGivingUp | migration/migration.go:58-75 | whoever meets an error before asking for the commit has given up in the sense of FailureLeavesNoTrace |
| Guarantees.DyingIsGivingUp | migration/migration.go:49-77 | and so has a process that dies before it asks for the commit |
| Guarantees.QueuedSessionMayGetTheLock | migration/migration.go:111-116 | a client that dies or gives up in the queue for the lock may still be granted it |
| Guarantees.StatementsFailWhereSent | migration/migration.go:110-148 | a statement can fail exactly where one is sent |
| Guarantees.EmptyTableIsAnError | migration/migration.go:202-226 | the maximum of an empty table is an error |
| Guarantees.WorksOnTheNextVersion | migration/migration.go:134-148 | while a migrator works on version k under the lock, the database is exactly at version k - 1 |
| Termination.ClientMovesComeToAnEnd | migration/migration.go:49-85 | each statement brings its run strictly closer to the end, although the callee overwrites the counter and others advance the database |
| Termination.TransactionsAreBounded | migration/migration.go:49-54 | a run opens at most as many transactions as its list has versions |
| Termination.NeverStuck | migration/migration.go:111-116 | in every reachable state with an unfinished migrator the move it waits for is possible |
| Termination.EveryRunCanFinish | migration/migration.go:39-96 | from every reachable state every unfinished run is completed by due moves, each the move it then waits for; a run that has met no failure returns nil at their end exactly if the steps of the missing versions run on the data as it is and the table fits |
| Program.Replica.GetCurrentVersion | migration/migration.go:202-226 | -1 or the largest row: the version of the committed database at a state of the run during this call in which this replica holds the lock; or an error |
| Program.Replica.MigrateToNextVersion | migration/migration.go:110-156 | leaves the counter alone if the lock or the read failed, and else sets it to one more than the version read under the lock, never lowering it; an error names the statement that failed and the version at which the database stopped |
| Program.Replica.Migrate | migration/migration.go:39-96 | terminates, is a run of the protocol, and leaves the database it found with all steps of the versions gained run on its data, up to date after nil; the error says how the transaction ended; undisturbed, a failure in version k leaves the state after version k - 1, and the counter passes the committed version plus one at a loop head exactly if it succeeds on a non-empty list that was applied already; without faults and interference it returns nil exactly if the steps of the missing versions run on the data |
| ForeignKeys.DeleteUndoesInsert | test/suite/db_clean.go:75-101 | deleting a row that was just inserted is never blocked and gives back the database exactly |
| ForeignKeys.AcceptedIfNothingBreaks | test/suite/db_clean.go:68-91 | a statement is accepted exactly if it breaks no constraint that is checked at once |
| ForeignKeys.InsertionAdds | test/suite/db_clean.go:48-56 | an insertion adds its row and changes no other |
| ForeignKeys.OrderedRowsCanBeDeleted | test/suite/db_clean.go:75-101 | reverse-order deletion meets no immediate foreign key and leaves the other rows |
| ForeignKeys.DeletionSucceedsIff | test/suite/db_clean.go:69-108 | for any recorded list: deletion and deferred check succeed if and only if every recorded row that another one names at once was recorded before it, the last time, and the surviving rows name no deleted one |
| History.CleaningUndoesRecordedInserts | test/suite/db_clean.go:48-112 | after any history of transactions that insert and delete, recorded or not, accepted, rejected or rolled back: cleaning leaves exactly what everything but the recorded inserts would if and only if the recorded rows are in order, the others are consistent and have no recorded key, and no recorded row without a key is there |
| History.OrderedUnlessRecreated | test/suite/db_clean.go:48-56 | recorded rows are in order unless a transaction without effect has recorded a row that was there before it |
| History.RecreatedRowExample | test/suite/db_clean.go:75-99 | such a transaction, and a cleaning that it blocks although every row is recorded and has a key |
| History.OutsidersNameNoRecordedRow | test/suite/db_clean.go:69-112 | the unrecorded rows are consistent exactly if none of them names a recorded row |
| History.CleaningRestores | test/suite/db_clean.go:14-16 | if every insert was recorded and no initial row deleted, cleaning gives back the initial database exactly if no recorded row without a primary key is there and the recorded rows are in order, as they are unless a transaction creates a row again that it has deleted |
| History.CycleInOneTransaction | test/suite/db_clean.go:68-69 | two rows that name each other by deferrable keys are accepted in one transaction |
| History.CycleInTwoTransactions | test/suite/db_clean.go:68-69 | in two transactions both of them are rejected |
| Cleaner.Gorm.Create | test/suite/db_clean.go:48-56 | every registered hook records an inserted row once, and a rejected one not at all |
| Cleaner.Gorm.RunBatch | test/suite/db_clean.go:48-56 | a transaction of creates, raw inserts and deletions does to the database and to every hook what the history model says, also when it is rejected or rolled back |
| Cleaner.CleanedAllOrNothing | test/suite/db_clean.go:57-113 | a cleaning removes everything or changes nothing; it reports only when asked to, and then exactly that nothing was changed; without faults the database alone decides |
| Cleaner.CleanedReportsWhy | test/suite/db_clean.go:75-108 | the error names the table of the last recorded entity that has no keys or cannot be deleted, or says that the commit has failed after all deletions |
| Cleaner.WithoutHookCutsOut | test/suite/db_clean.go:65-67 | a cleaning removes its own hook and leaves the others in their order |
| Cleaner.Recorder.Clean | test/suite/db_clean.go:57-113 | database and error are those of the cleaning, so all or nothing for both settings of the flag, and its transaction is ended in any case; inside a caller's transaction nothing is committed, and an error ends that transaction |
| TestSuite.CleanedTestIsUndone | test/suite/db_test_suite.go:82-94 | once a test's rows are gone, the suite's recorder, which has them too, still leads back to the same database |
| TestSuite.TestIsCleaned | test/suite/db_test_suite.go:82-94 | without faults a test's recorded rows, and only those, are gone after it, exactly if they are in order, no other row names them and there is no error to report; otherwise nothing has changed |
| TestSuite.TestRestores | test/suite/db_test_suite.go:82-94 | a test whose body inserts recorded rows with keys, deletes none that was there and creates none again leaves the database as it was before its body |
| TestSuite.EveryTestStartsFresh | test/suite/db_test_suite.go:82-94 | if all tests are like that, each of them starts from the initial database |
| TestSuite.TidyTestsLeaveNothing | test/suite/db_test_suite.go:87-109 | and the suite ends with it even if the last cleaning fails |
| TestSuite.DBTestSuite.RunTest | test/suite/db_test_suite.go:82-94 | SetupTest, the body and TearDownTest do to the database what TestIsCleaned says, and report it |
| TestSuite.DBTestSuite.TearDownTest | test/suite/db_test_suite.go:87-94 | the test's rows are removed or nothing is; its hook is gone |
| TestSuite.DBTestSuite.TearDownSuite | test/suite/db_test_suite.go:101-109 | the suite's rows are removed exactly if the database allows it |
| TestSuite.SuiteRestores | test/suite/db_test_suite.go:64-109 | for any tests that insert recorded rows and delete no initial ones, and any failures of single cleanings: the last cleaning gives back the initial database if and only if no recorded row without a primary key is there and, unless nothing is left over anyway, the recorded rows are in order and none without a key was recorded while errors are reported; it does in any case if all rows have keys and no transaction creates a row again that it has deleted |
| TestSuite.SuiteLeavesUnrecordedRows | test/suite/db_test_suite.go:64-109 | for any tests at all: what is left is what everything but the recorded inserts would have made, exactly under a condition on what is recorded and there before the last cleaning |
| TestSuite.ReusedKeyExample | test/suite/db_clean.go:75-99 | an unrecorded row with the key of a recorded one that was rolled back is deleted by the last cleaning |
| TestSuite.KeptRowsStay | test/suite/db_clean.go:82-89 | for any tests, committed rows without a primary key, recorded or not, are all there after the last cleaning, whatever fails |
| TestSuite.KeylessRowExample | test/suite/db_clean.go:82-89 | one such row in one test: it stays, and with reporting on so does the row created before it, with an error |
| TestSuite.DBTestSuite.RunSuite | test/suite/db_test_suite.go:64-109 | SetupSuite, for each test SetupTest and TearDownTest, then TearDownSuite: database and outcome are those of the play of the suite, so the database is restored exactly under the condition of SuiteRestores, and by the tests alone under that of TidyTestsLeaveNothing |
| Client.Sentry.Execute | sentry/sentry.go:106-118 | emits one event with the client's context at that moment, and leaves the context empty |
| Client.Sentry.Loop | sentry/sentry.go:85-89 | the events are those of the received operations, in order, each with its own user |
| Client.CaptureError | sentry/sentry.go:93-115 | sends nothing on a client that was never set up, and else an operation whose event has the error, the user of the callback's answer, and the first of the two request ids that is not empty |
| Channel.StepPreservesInv | sentry/sentry.go:85-118 | each step of any goroutine keeps the context empty between operations, the events right and the calls in order |
| Channel.EachEventIsItsOwnCalls | sentry/sentry.go:93-118 | in every interleaving each event is that of its own call, in the order in which the calls were received |
| Channel.EventCarriesItsContext | sentry/sentry.go:93-118 | in every interleaving each event carries the error of its call, the user the callback gives for its context, and as a tag the first request id of its context that is not empty, if there is one |
| Channel.NothingIsLostOrDuplicated | sentry/sentry.go:85-118 | whenever the loop is idle, the events are those of a sequential run over the received operations; each goroutine's calls arrive once, in call order |
| Channel.CleanShutdownDeliversAll | sentry/sentry.go:52-56 | closed after its senders, the loop ends with every call executed exactly once |
| Channel.ClosingLastIsSafe | sentry/sentry.go:54-56 | no send meets a closed channel if closing comes last |
| Channel.EarlyCloseCanPanic | sentry/sentry.go:54-56 | in any state with an unfinished call, closing can lead to a panic |
| Channel.NeverStuck | sentry/sentry.go:85-118 | nothing but a close is possible exactly if all calls have returned and the loop is idle, or has ended if the channel is closed |
| Channel.RunsAreBounded | sentry/sentry.go:85-118 | every move but Close uses up work, so a run has at most as many moves as there is work at its start, and one close |
| Channel.InitialWork | sentry/sentry.go:85-118 | the work at the start is five moves for each call and two more |
| Channel.LoopEndsAfterClose | sentry/sentry.go:85-89 | after a close the run is bounded, and it can go no further exactly if it has panicked or all calls have returned and the loop has ended |
| Uuids.LessIsByteOrder | id/slice.go:97-101 | comparing canonical texts is comparing the sixteen bytes |
| Uuids.FirstDifferenceDecides | id/slice.go:97-101 | the first byte in which two UUIDs differ decides |
| Uuids.TextIsFiveGroups | id/slice.go:64-71 | the canonical text is five groups of 8, 4, 4, 4 and 12 hex digits |
| Uuids.HexIsTwoDigits | id/slice.go:64-71 | each byte is shown by its two hex digits, the higher one first |
| Uuids.LessIsStrictTotalOrder | id/slice.go:97-101 | Less is a strict total order |
| Uuids.SortedPermutationIsUnique | id/slice.go:92-106 | two sorted permutations of each other are equal |
| Slices.SortingHasOneResult | id/slice.go:103-106 | any two runs of swaps that end sorted end in the same list |
| Slices.Append | id/slice.go:46-49 | appends also when the slices overlap; in place exactly if there is room, and then changes only the room behind the slice |
| Slices.SliceVar.Add | id/slice.go:46-49 | the variable holds both lists; its old array changed at most behind the old slice |
| Slices.Diff | id/slice.go:14-28 | in order, the elements with one occurrence in the concatenation at the call, under aliasing; the slice's own cells and everything outside its room are unchanged |
| Slices.DiffIsSymmetricDifference | id/slice.go:13-28 | without duplicates the difference is a minus b followed by b minus a, and a permutation of the difference the other way round |
| Slices.DiffMembers | id/slice.go:13-28 | for all inputs the difference has no duplicates and holds exactly the elements with one occurrence |
| Slices.Sub | id/slice.go:31-44 | in order, the elements of s that are not in b |
| Slices.OutsideMembers | id/slice.go:30-44 | the result of a subtraction holds exactly the elements of s that are not in b |
| Slices.OutsideOfParts | id/slice.go:30-44 | a subtraction goes part by part, in order |
| Slices.OnceSplits | id/slice.go:13-28 | so does the selection of a difference |
| Slices.SelectionOfOne | id/slice.go:13-44 | an element is kept exactly if it is not subtracted, or occurs once |
| Slices.SubTwiceIsSubOfBoth | id/slice.go:30-44 | subtracting b and then c is subtracting both at once |
| Slices.Unique | id/slice.go:51-54 | no duplicates and the same set, for every iteration order |
| Slices.ToSlice | id/map.go:23-31 | the keys once each, in some order |
| Slices.Contains | id/slice.go:110-117 | true exactly for the elements |
| Slices.Swap | id/slice.go:104-106 | exchanges two cells and touches nothing outside the slice |
| Slices.SwappedAt | id/slice.go:104-106 | the list after a swap, element by element |
| Slices.ToString | id/slice.go:73-90 | what the callback, or else the UUID itself, shows of each element, joined by the separator |
| Slices.MapToString | id/map.go:45-62 | the same for the keys, in some order |
| Slices.JoinOfOne | id/slice.go:73-85 | a single element is what the callback shows, or its text without one |
| Slices.JoinOfParts | id/slice.go:73-85 | joining two parts with the separator joins the whole, for every separator and callback |
| Slices.ReadListInvertsJoin | id/slice.go:73-90 | without a callback the list can be read back from its text, for every separator |
| Slices.StringIsInjective | id/slice.go:73-90 | without a callback different lists have different texts, for every separator |
| Proxy.Direct | httpsupport/proxy.go:109-156 | the whole new URL, part by part: the target's scheme, http by default, and host, its path before the request's or the fixed path, its parameters followed by the request's; headers: only a missing User-Agent and a request id are set |
| Proxy.JoinsWithOneSlash | httpsupport/proxy.go:199-209 | the result is both parts, one slash trimmed on each side, with one slash in between |
| Proxy.JoiningSlashIsAssociative | httpsupport/proxy.go:199-209 | joining paths is associative |
| Proxy.JoinedParams | httpsupport/proxy.go:132-137 | the parameters of the new query are the target's followed by the request's |
| Proxy.ChainIsOneHop | httpsupport/proxy.go:121-137 | a chain of proxies is one proxy with the composed target, the last host and the last effective scheme |
| Proxy.ChainCollectsParams | httpsupport/proxy.go:132-137 | through a chain the query collects the parameters of every target, the last one's first and the request's last |
| Errors.WrappingIsInvisible | errors/errors.go:252-260 | wrapping to any depth changes neither classification nor conversion |
| Errors.ClassifiersReturnTheCause | errors/errors.go:187-195 | each classifier returns the unwrapped error exactly if it is of its type |
| Errors.MessagesAreFormatted | errors/errors.go:169-179 | each message is its source format filled in; a predefined one comes before the general one, an expected value before both |
| Errors.ClassifiersAgreeWithConversion | goasupport/jsonapi_errors_helpers/jsonapi_errors_converter.go.txt:32-98 | a classifier accepts an error exactly if the conversion has its code and that is not the code of a goa.ErrorResponse; at most one accepts it |
| Errors.StatusByType | goasupport/jsonapi_errors_helpers/jsonapi_errors_converter.go.txt:32-98 | status, title and id for each type by number and text; the detail is the error's own message unless a goa.ErrorResponse brings one |
| Errors.ResponseIsOneError | goasupport/jsonapi_errors_helpers/jsonapi_errors_converter.go.txt:148-173 | the one error is sent, with its status if the service has a response for it and with 500 otherwise |
| Errors.FromStatusCodeConvertsBack | errors/errors.go:25-41 | the error made from a status converts back to it, or to 500, with the message that Sprintf makes of the format |
| Format.KeptIffNoPercent | errors/errors.go:25-26 | a string comes back from any positive number of passes through Sprintf exactly if it has no '%'; one that has a '%' goes through no cycle and never loses its last '%' |
| Format.TwoPercents | errors/errors.go:25-26 | without arguments two '%' print one |
| Format.FlagsAreSkipped | errors/errors.go:25-26 | flags do not matter |
| Format.VerbIsMissing | errors/errors.go:25-26 | a verb is complained about as missing its argument |
| Format.StarIsMissing | errors/errors.go:25-26 | a starred width is complained about, and then the verb |
| Format.PrecisionIsMissing | errors/errors.go:25-26 | so is a starred precision |
| Format.IndexIsBad | errors/errors.go:25-26 | an argument index is complained about as bad |
| Format.UnclosedIndex | errors/errors.go:25-26 | an index that is not closed is its bracket alone, and bad |
| Format.SecondBracketIsVerb | errors/errors.go:25-26 | after a well-formed index another bracket is the verb |
| Format.SecondIndexIsRead | errors/errors.go:25-26 | after a malformed one another index is read |
| Format.BadIndexStaysBad | errors/errors.go:25-26 | a malformed index stays bad after a precision |
| Format.WidthIsSkipped | errors/errors.go:25-26 | a width of digits does not matter |
| Format.PrecisionIsSkipped | errors/errors.go:25-26 | nor does a precision |
| Format.NumberIsTooLarge | errors/errors.go:25-26 | a number over a million followed by another digit swallows the rest of the format |
| Errors.HopsFormatDetail | auth/token.go:354-369 | every hop passes the detail through Sprintf once |
| Errors.DetailSurvivesIffNoPercent | auth/token.go:354-369 | a detail survives any positive number of hops exactly if it has no '%' |
| Errors.HopsKeepStatus | auth/token.go:354-369 | after hops the status is the original one exactly if it is 500, or one of five for which every service has a response of its own; otherwise it is 500 |
| Errors.ClassAfterHop | goasupport/jsonapi_errors_helpers/jsonapi_errors_converter.go.txt:148-173 | after a hop the class is a function of the status; conversion and data conflict errors are gone |
| Errors.TypeAfterHop | goasupport/jsonapi_errors_helpers/jsonapi_errors_converter.go.txt:148-173 | what arrives for each type: a data conflict as a version conflict, a conversion error as a bad parameter, an unclassified error or one without a response as an internal error |
| Errors.LastNoteIsOutermost | auth/token.go:354-369 | the outermost note after several hops is the last client's |
| Errors.TrailingPercentExample | auth/token.go:358-358 | a detail that has no '%' but one at its end arrives with a complaint about a missing verb in its place |

## Left out

- SQL text, template syntax, asset loading and Postgres itself: parameters of `Assets.Package`; statements are the steps of the protocol.
- A table `version` that exists but is empty, and one written to by anybody but the migrators.
- Isolation levels other than READ COMMITTED, and writers other than migrators during a migration.
- gorm internals, cascading foreign keys, updates of rows after an insert, and a `db.Begin` that fails in the cleaner.
- Raven transport, excluded or nil errors, and a second initialisation of the global client.
- Slices.Diff: the fresh result slice is a sequence; its own array is not modelled.
- Errors.FromStatusCodeConvertsBack: the format arguments, which no caller in the repository passes.
- The status of a JSON-API error as text, and what net/http calls each status.
- Proxy.Direct: logging, gzip, ReverseProxy, panic recovery, URL parsing and escaping.
- A nil database handle, which Migrate answers with an error.
- Token parsing, key fetching, middleware, configuration, logging and metrics.

# libgs verification

A Dafny model of the parts of libgs (and of two pieces of the asio it ships) whose behaviour is decided by state that
many steps share, with proofs of what they guarantee. `dafny verify dfyconfig.toml` checks everything.

| files | subject |
|---|---|
| `ArgsTables`, `ArgsGrammar`, `ArgsEffects`, `ArgsParser` | the command-line parser: alias tables, the language of command lines, the effects of a parse, the object with its loop |
| `ArgsMeaning` | what each kind of token does at the head of the loop, in terms of the tables and the characters alone |
| `ArgsRuns`, `ArgsLaws`, `ArgsDuplicates`, `ArgsProvenance` | what whole parses guarantee |
| `Execution` | the `exec()` / `exit()` handshake as interleaved atomic steps |
| `ModulesOrder`, `ModulesRun`, `ModulesHistory`, `Modules` | the level-by-level initialisation runs under every timing of the futures |
| `ModulesInterleaved`, `ModulesSchedules` | any number of initialisation runs in progress at once |
| `StreambufSpec`, `Streambuf` | the get and put areas of the socket streambuf |
| `HandlerSpec`, `CompletionHandler` | ownership of type-erased completion handlers |
| `AlignedAllocation` | over-aligned allocation with the hidden offset |
| `Sequences`, `Decimal` | shared facts about sequences, and decimal printing |

## How the models are built

**Command-line parser.** `ArgsParser.ArgsParser` is the object: registration fills the two alias tables, and `Parsing`
runs the loop with the shared set (`cache`), the result map, the leftover list and the index. `exit(...)` and the
printers are values of `Exit`. The specification has two independent halves. The grammar (`ArgsGrammar.IsSegment`) says
which segments a command line may consist of, without an order of cases, and `ScanIsTheSegmentation` shows that the
scan which the loop performs finds the one segmentation there is. The effects (`ArgsEffects`) say what a segment does to
the shared set, the result and the leftovers. `ArgsMeaning` states both once more without the vocabulary of the
specification: which tokens are reserved, flags, keys, assignments, clusters or leftovers, with the characters and
conditions written out, and what each does from any state. All laws are stated for every table content and every
command line; the few that need a property of the tables name it (`WellKeyed`, `NumberedIds`, both kept by
registration, and `DistinctIdens`, which the caller controls).

Three behaviours of the code deserve attention, and each has its exact condition:

* Group ids and leftover tokens share one set, so a leftover that spells the id of a used group is taken for a
  duplicate: with a flag registered first (id `0`), `-a 0` exits with "Too many parameters."
  (`IdAsLeftover`, `DuplicateExitIff`, `DuplicateExitWithoutNumerals`).
* `-abc` equals `-a -b -c` when the letters before the last are plain flags and the last is a plain flag or a group key
  followed by its value (`ClusterExpansion`, behind any segments). For a cluster on its own and for a cluster with its
  value this is also necessary (`LoneClusterIff`, `ClusterValueIff`). A cluster of unregistered letters is recorded as a
  leftover twice (`UnknownPairIsPushedTwice`).
* When registrations share an identifier, the first use on the command line wins. The result is the same for all orders
  of the segments exactly when any two segments that set the same identifier give it the same value
  (`OrderIndependenceIff`). Distinct identifiers ensure that, and so does a parser that has flags only; a group key
  that shares an identifier with a flag or with another group key breaks it as soon as the values differ
  (`SharedIdenDependsOnOrder`, `SharedIdenOfGroups`).

**Handshake.** Each statement of `exec` and `exit` that touches a shared variable is one step; a schedule is any
sequence of turns. `run()` returns only when the io_context is stopped, because a work guard is held, and it returns at
once on an io_context that is already stopped (`3rd_party/asio/asio/detail/impl/scheduler.ipp`). For the first run the
handshake holds under every schedule: a call is ignored exactly when it finds the flag down (`CallOutcome`), and every
other call makes `exec()` return (`ExitMakesExecReturn`). Nothing restarts the io_context before a later run, and then an `exit()` between
the flag test and the restart is lost and `exec()` never returns; `HangsIffStartedStopped` shows that this is exactly the
case of a run entered on a stopped io_context, and `CompletedRunLeavesStopped` that every completed run, on a fresh
io_context or a stopped one, leaves one.

**Initialisation runs.** Time is a function from the points at which other code can run to what happens there: launched
futures complete, user code registers more initialisers. The results hold for every such function. Runs may also
overlap: an initialiser may call `run_init()` itself, and coroutine runs take turns at every `co_await`.
`ModulesInterleaved` is a machine in which any number of runs move one step at a time in any order; the orders that
nesting and suspension points allow are among them. `ModulesSchedules` shows that every history of the loops in
`Modules` is a schedule of that machine.

**Socket streambuf.** Every call takes a finite plan of what the socket and the polls answer. What
reaches the socket is exactly what it was ready to take before the plan fails (`FlushSends`), and what a reader gets is
what the socket offered, in order (`GetConservation`). The accounts compare what callers were told with what reached
the socket. A flush that fails after a partial send keeps the whole put area, so its
first bytes go out again: `PutConservation` shows that conservation holds exactly when no flush failed that way, and
`PartialFailureDuplicates` what every sync that does fail that way puts on the wire.

**Completion handlers.** Wrappers are objects over a shared store of targets; assignment is composed of move, swap and
destroy as in the original. A handler that uses wrappers while it runs is covered, because its invocation is the last
thing a call does.

**Aligned allocation.** Addresses are natural numbers, memory is a map from addresses to bytes, and the sums of
`std::size_t` are taken modulo 2^64. The results hold for every positive alignment, the powers of two among them. Other
users of the same allocator may allocate, free and write their own blocks between any two steps.

## Model

| member | source | states |
|---|---|---|
| ArgsTables.Check | libgs/core/args_parser.cpp:80-91 | an alias passes exactly when it is non-empty and all characters but the first and the last are printable ASCII other than space, `=` and backslash |
| ArgsTables.Register | libgs/core/args_parser.cpp:93-113 | each accepted alias that was free gets the id of the call and carries the identification, or its own name when that is empty; no entry is replaced and no other alias appears |
| ArgsTables.AcceptableIff | libgs/core/args_parser.cpp:80-111 | the accepted aliases with the characters written out: neither empty nor one or two dashes, and inside only characters from `!` to `<`, from `>` to `[` and from `]` to `~` |
| ArgsTables.UsualSpellings | libgs/core/args_parser.cpp:80-111 | `-c`, `--name` and bare names of letters, digits, dashes, underscores and dots are all accepted |
| ArgsTables.EntersUnique | libgs/core/args_parser.cpp:93-113 | what `Register` states determines the table |
| ArgsParser.ArgsParser.AddGroup | libgs/core/args_parser.cpp:175-179 | the group table is extended under a fresh id with the identification of the call, every alias remembers its add call, and the help text is not empty afterwards |
| ArgsParser.ArgsParser.AddFlag | libgs/core/args_parser.cpp:181-185 | the same for the flag table |
| ArgsParser.ArgsParser.IdsIdentifyCalls | libgs/core/args_parser.cpp:95-97 | within one parser, aliases of the two tables share a group id exactly when one add call registered them; all aliases are acceptable and all ids numerals |
| ArgsParser.ArgsParser.IdsApart | libgs/core/args_parser.cpp:95-97 | two parsers of one process never share a group id |
| Decimal.PrintInjective | libgs/core/args_parser.cpp:95-97 | the printed ids of different registrations differ |
| Decimal.NumeralIff | libgs/core/args_parser.cpp:95-97 | the digit strings without superfluous zero are exactly the printed numbers |
| ArgsParser.ArgsParser.CheckReserved | libgs/core/args_parser.cpp:234-294 | the outcome of a reserved token, including the argument count test |
| ArgsParser.ArgsParser.CheckLetters | libgs/core/args_parser.cpp:345-355 | whether everything behind the dash is a letter from A to Z or from a to z |
| ArgsParser.ArgsParser.ParseInterior | libgs/core/args_parser.cpp:362-377 | the loop over the interior letters has the effects of the letters in order, or exits where they do |
| ArgsParser.ArgsParser.ParseCluster | libgs/core/args_parser.cpp:362-402 | the cluster part of an iteration agrees with the specification from every state, with the pending letters recorded before a missing value is reported |
| ArgsParser.ArgsParser.ParseLong | libgs/core/args_parser.cpp:323-402 | the part of an iteration for tokens that are no aliases agrees with the specification |
| ArgsParser.ArgsParser.ParseOne | libgs/core/args_parser.cpp:233-402 | one iteration either exits as the specification does or reaches its next loop head |
| ArgsParser.ArgsParser.Parsing | libgs/core/args_parser.cpp:226-405 | for every table content and argv the loop terminates within bounds with the outcome, result map and leftover list of the specification |
| ArgsParser.ArgsParser.ParsingStrict | libgs/core/args_parser.cpp:407-417 | the overload without a leftover list returns the whole result map when nothing is left over, makes leftovers invalid arguments and passes every exit on |
| ArgsMeaning.StrictParse | libgs/core/args_parser.cpp:407-417 | a success of one overload is a success of the other with the same result exactly when nothing is left over; the strict one reports invalid arguments exactly for a leftover or when the other does |
| ArgsMeaning.AloneOnTheLine | libgs/core/args_parser.cpp:234-294 | the exit of every dash, version and help option that stands alone, whatever is configured |
| ArgsMeaning.FlagToken | libgs/core/args_parser.cpp:310-316 | a flag that is no group key stores its own identifier, from any state |
| ArgsMeaning.KeyToken | libgs/core/args_parser.cpp:295-309 | a group key followed by no alias stores that token, from any state |
| ArgsMeaning.KeyWithoutValue | libgs/core/args_parser.cpp:298-304 | a group key at the end or in front of an alias makes the arguments invalid, from any state |
| ArgsMeaning.AssignmentToken | libgs/core/args_parser.cpp:323-338 | a token of more than two characters that is no alias and whose part before the first `=` is a group key stores the part behind it |
| ArgsMeaning.LeftoverIff | libgs/core/args_parser.cpp:317-361 | a token that is no option is left over exactly when it is at most two characters long, has a `=` that ends no group key, or has no `=` and is not a dash followed by letters |
| ArgsMeaning.LeftoverToken | libgs/core/args_parser.cpp:317-361 | such a token is recorded once, or exits when its string has been recorded before |
| ArgsMeaning.ClusterIff | libgs/core/args_parser.cpp:339-361 | a longer token that starts with a dash and is no alias is taken apart letter by letter exactly when each later character lies in A to Z or a to z |
| ArgsMeaning.ClusterWithoutValue | libgs/core/args_parser.cpp:362-399 | a cluster whose last letter is a group key without a value exits as a duplicate if a letter before it is one, and as invalid otherwise |
| ArgsMeaning.FlagPair | libgs/core/args_parser.cpp:362-386 | two registered flags in one token, in either case of letters, are both recorded and nothing is left over |
| ArgsGrammar.ScanSound | libgs/core/args_parser.cpp:231-403 | what has been scanned are well-formed segments whose tokens are a prefix of the arguments, all of them when the scan does not stop |
| ArgsGrammar.SegmentIsHead | libgs/core/args_parser.cpp:295-401 | a well-formed segment is recognised whatever follows it |
| ArgsGrammar.ScanIsTheSegmentation | libgs/core/args_parser.cpp:231-403 | a list of segments is the scan of the arguments exactly when it is a well-formed segmentation of them: the grammar is unambiguous and each token lies in exactly one segment |
| ArgsGrammar.ResumeStep | libgs/core/args_parser.cpp:231-403 | the parse from any loop-head state is the effect of the first segment followed by the parse of the rest |
| ArgsEffects.AppliesIff | libgs/core/args_parser.cpp:217-224 | a run is cut short exactly when some string would enter the shared set twice |
| ArgsEffects.ApplyAllArgs | libgs/core/args_parser.cpp:306-316 | entries are never replaced and a new identifier gets the value of its first use |
| ArgsEffects.NothingDropped | libgs/core/args_parser.cpp:305-316 | with distinct identifiers there is one entry per use, holding its value |
| ArgsRuns.ParsesIff | libgs/core/args_parser.cpp:226-405 | a command line does not exit exactly when it has a reading as segments in which nothing enters the shared set twice |
| ArgsRuns.ExclusiveAndConserved | libgs/core/args_parser.cpp:217-224 | in a parse that does not exit each group is used at most once through any alias; with distinct identifiers the result has one entry per option use and holds each use's value |
| ArgsRuns.OrderIndependence | libgs/core/args_parser.cpp:295-403 | with distinct identifiers any permutation of the segments of a command line exits alike, has the same result map and only permutes the leftovers |
| ArgsRuns.OrderIndependenceIff | libgs/core/args_parser.cpp:295-403 | all permutations of the segments of a command line that parses give the same result map exactly when any two segments that set the same identifier give it the same value |
| ArgsRuns.FlagsAgree | libgs/core/args_parser.cpp:310-316 | with flags only any two segments agree, however many flags share an identifier |
| ArgsRuns.DisagreeingPair | libgs/core/args_parser.cpp:306-316 | of two segments that disagree about an identifier the first one decides the stored value |
| ArgsRuns.AdjacentSwap | libgs/core/args_parser.cpp:295-403 | in particular for two adjacent segments |
| ArgsRuns.SharedIdenDependsOnOrder | libgs/core/args_parser.cpp:306-316 | a group key and a flag that share an identifier disagree, so their order decides the stored value |
| ArgsRuns.SharedIdenOfGroups | libgs/core/args_parser.cpp:295-309 | the same for two group keys with different values |
| ArgsLaws.ClusterExpansion | libgs/core/args_parser.h:59-61 | `-abc` parses like `-a -b -c` at every loop head, exits included, also when the last letter takes a value |
| ArgsLaws.UnknownPairIsPushedTwice | libgs/core/args_parser.cpp:362-402 | a cluster of two unregistered letters ends up in the leftovers twice |
| ArgsLaws.AssignmentIff | libgs/core/args_parser.cpp:323-338 | `k=v` is taken as an assignment to group key `k` exactly when `v` is non-empty, or `k` is longer than one character and `k=` is no alias |
| ArgsLaws.InteriorEqIsNoAlias | libgs/core/args_parser.cpp:80-91 | registration can never have created a key that competes with a non-empty assignment |
| ArgsLaws.AssignmentForm | libgs/core/args_parser.h:55-57 | `k=v` parses like `k v` at every loop head |
| ArgsLaws.AssignmentFormIff | libgs/core/args_parser.cpp:295-338 | for an assignment that parses the two forms agree exactly when the value is no alias and the key is not reserved |
| ArgsDuplicates.DuplicateExitIff | libgs/core/args_parser.cpp:217-224 | a command line made of segments exits exactly when a group is used twice, a leftover is recorded twice, or a leftover spells the id of a used group |
| ArgsDuplicates.DuplicateExitWithoutNumerals | libgs/core/args_parser.cpp:217-224 | without numerals among the leftovers the third cause cannot occur |
| ArgsDuplicates.IdAsLeftover | libgs/core/args_parser.cpp:311-322 | a flag followed by a leftover exits exactly when the leftover is the flag's id |
| ArgsDuplicates.ClusterInterior | libgs/core/args_parser.cpp:362-377 | interior letters go through only if at most one of them is no flag, and then the flags of all others are recorded |
| ArgsDuplicates.LeftoversAreCopies | libgs/core/args_parser.cpp:317-402 | the leftover list is made of 0, 1 or 2 copies of the token of each segment, in order |
| ArgsDuplicates.StrictParsesIff | libgs/core/args_parser.cpp:407-417 | the overload without a leftover list succeeds exactly on readings in which no segment leaves a token over |
| ArgsProvenance.Provenance | libgs/core/args_parser.cpp:295-401 | every stored value has an origin that starts a segment: the token behind its key or cluster, which is no alias, or the part behind the first `=`, or a flag's own identifier |
| ArgsProvenance.ValueIsNotInterpreted | libgs/core/args_parser.cpp:295-309 | a token taken as the value of a group key is recorded and skipped whatever it spells |
| ArgsProvenance.ClusterValueIsNotInterpreted | libgs/core/args_parser.cpp:387-401 | so is the value that the last letter of a cluster takes, behind the effects of the interior letters |
| ArgsProvenance.PrintsIff | libgs/core/args_parser.cpp:239-294 | each of the three printers runs exactly for its option as the only argument |
| ArgsProvenance.PrintOptionAmongOthers | libgs/core/args_parser.cpp:239-294 | a version or help option among other arguments exits with too many parameters |
| ArgsProvenance.InvalidExit | libgs/core/args_parser.cpp:234-304 | behind arguments that parse, a lone dash or double dash, or a group key without a value of its own, makes the arguments invalid |
| ArgsProvenance.LoneClusterIff | libgs/core/args_parser.cpp:345-402 | a cluster that parses on its own equals its separate letters exactly when all letters are plain flags |
| ArgsProvenance.ClusterValueIff | libgs/core/args_parser.cpp:345-402 | a cluster that parses with its value equals its separate letters in front of that value exactly when the letters before the last are plain flags and the last is not reserved |
| Execution.NextKeepsInv | libgs/core/execution.cpp:51-78 | every atomic step keeps the invariant of the handshake |
| Execution.Handshake | libgs/core/execution.cpp:51-78 | for every interleaving of a run on a fresh io_context restart is never reached, no stop is lost, and a returned code was stored by an exit call that passed the guard, with the flag down |
| Execution.ReturnsAfterStop | libgs/core/execution.cpp:60-68 | once an exit call has executed stop, exec returns after at most three of its own steps |
| Execution.CallOutcome | libgs/core/execution.cpp:70-78 | from every state and under every schedule an exit call is ignored exactly when the flag is down at its first turn, and otherwise its four turns complete it |
| Execution.ExitMakesExecReturn | libgs/core/execution.cpp:51-78 | on a fresh io_context, once a call has found the flag up and had its four turns, exec returns within three turns of its own, whatever else is scheduled in between |
| Execution.ExitHandsOverItsCode | libgs/core/execution.cpp:51-78 | from every reachable state of a fresh run in which exec waits with the flag up, a further call that runs alone with exec makes exec return the code of that call |
| Execution.ReentryThrows | libgs/core/execution.cpp:51-56 | exec called while the flag is up throws and changes nothing |
| Execution.StopIsLost | libgs/core/execution.cpp:60-66 | a schedule of a run entered on a stopped io_context that ends with exec waiting and every exit call ignored |
| Execution.HungForever | libgs/core/execution.cpp:51-78 | that state lasts under every further schedule |
| Execution.HangsIffStartedStopped | libgs/core/execution.cpp:51-78 | some schedule hangs exactly when exec is entered on a stopped io_context |
| Execution.CompletedRunLeavesStopped | libgs/core/execution.cpp:51-78 | every completed run, on a fresh or a stopped io_context, leaves the io_context stopped and the flag down, and its result was stored by an exit call that passed the guard |
| Execution.Process.StepExec | libgs/core/execution.cpp:51-68 | one atomic step of exec on the shared variables |
| Execution.Process.StepExit | libgs/core/execution.cpp:70-78 | one atomic step of an exit call, which passes its guard exactly when the flag is up |
| Execution.Process.Schedule | libgs/core/execution.cpp:51-78 | a whole schedule has the effect of the state machine |
| Execution.FlagMeans | libgs/core/execution.cpp:80-83 | is_run answers true exactly when exec has raised the flag and no exit call has lowered it since |
| ModulesOrder.BucketHolds | libgs/core/modules.cpp:77 | each bucket holds the registrations of its level in order |
| ModulesOrder.DrainSorts | libgs/core/modules.cpp:26-30 | visiting the buckets in map order is a stable sort of the registrations by level |
| ModulesOrder.StableSortUnique | libgs/core/modules.cpp:26-30 | there is only one stable sort |
| ModulesOrder.DrainKeeps | libgs/core/modules.cpp:26-30 | no registration is lost or doubled by the buckets |
| ModulesRun.LevelFinishes | libgs/core/modules.cpp:39-40 | behind the waits of a level every function of it has finished, whatever the timing |
| ModulesRun.LaunchedTogether | libgs/core/modules.cpp:29-40 | the futures of a level run together: when none completes by itself, a level starts all its functions before any future ends |
| ModulesRun.RunLevelsOrder | libgs/core/modules.cpp:27-41 | a run starts its functions in order, each plain or awaitable one finishing before the next start, and none before all functions of lower levels have finished |
| ModulesHistory.RunOrder | libgs/core/modules.cpp:22-63 | one run from any reachable state: drains the registrations since the previous run, starts their stable sort (run_init without the awaitable ones), serially and behind the level barriers |
| ModulesHistory.LevelStartsExactly | libgs/core/modules.cpp:29-59 | the loops over a level start exactly the plain initialisers and the futures of the level, and in co_run_init the awaitable ones too |
| ModulesHistory.RunStartsExactly | libgs/core/modules.cpp:22-63 | run_init starts exactly the pending plain initialisers and futures and no awaitable one, whatever its level; co_run_init starts everything pending |
| ModulesHistory.ExactlyOnce | libgs/core/modules.cpp:22-78 | over every history of runs that do not overlap each registration is consumed by exactly one run or pending, started at most once, and started exactly when its run executes its kind |
| ModulesHistory.RunsAgree | libgs/core/modules.h:72-75 | without awaitable initialisers both kinds of run do the same |
| ModulesHistory.CoRunExecutesAll | libgs/core/modules.h:72-75 | co_run_init leaves nothing out |
| ModulesInterleaved.NextKeeps | libgs/core/modules.cpp:22-78 | every step of any of the overlapping runs, every registration and every completion of a future keeps the invariant |
| ModulesInterleaved.AnyInterleaving | libgs/core/modules.cpp:22-78 | over every interleaving of overlapping runs: each registration is drained by exactly one run or pending, in batches that follow the order of registration; each run starts, in order, the stable sort of its batch, serially and behind its level barriers; nothing starts twice, in one run or in two |
| ModulesInterleaved.IdleRunIsDone | libgs/core/modules.cpp:22-63 | a run with nothing left to do has started every function it executes, and all of them have ended, whatever the other runs did |
| ModulesInterleaved.RunStartsExactly | libgs/core/modules.cpp:22-63 | among any other runs, a run of run_init starts only plain initialisers and futures of its batch, a run of co_run_init anything of its batch, and all of that once it has nothing left to do |
| ModulesInterleaved.BatchesAreRegistrations | libgs/core/modules.cpp:24-77 | the batches of the runs and then the pending registrations are exactly the registrations of the schedule, in order, each with its level and kind |
| ModulesInterleaved.EveryRunCanFinish | libgs/core/modules.cpp:22-63 | from every reachable state of the overlapping runs each run can be completed |
| ModulesSchedules.RunMatches | libgs/core/modules.cpp:22-63 | a whole run_init or co_run_init under any timing is a schedule of one run of the machine, which ends with nothing left to do |
| ModulesSchedules.HistoryIsSchedule | libgs/core/modules.cpp:22-78 | every history of registrations and runs under any timing is a schedule of the machine, with the same registry and log |
| Modules.Modules.RegInit | libgs/core/modules.cpp:65-78 | a valid registration joins its bucket, an empty function object is refused |
| Modules.Modules.RunInitLevel | libgs/core/modules.cpp:52-61 | the loops over a level of run_init have the effect of the specification and start exactly the plain initialisers and futures of the level |
| Modules.Modules.CoRunInitLevel | libgs/core/modules.cpp:29-40 | the loops over a level of co_run_init have the effect of the specification and start everything of the level |
| Modules.Modules.DoRunInit | libgs/core/modules.cpp:47-63 | run_init as a whole; it starts exactly the pending plain initialisers and futures |
| Modules.Modules.DoCoRunInit | libgs/core/modules.cpp:22-45 | co_run_init as a whole; it starts everything pending |
| StreambufSpec.FlushIsPrefix | 3rd_party/asio/asio/basic_socket_streambuf.hpp:449-482 | the send loop sends a prefix, and succeeds exactly when it has sent everything |
| StreambufSpec.FlushSends | 3rd_party/asio/asio/basic_socket_streambuf.hpp:449-482 | the send loop sends exactly as much as the socket is ready to take before the plan fails or runs out, going on behind partial sends and would-blocks, and succeeds exactly when that is enough |
| StreambufSpec.AgainIsRetried | 3rd_party/asio/asio/basic_socket_streambuf.hpp:475-482 | a would-block followed by a successful poll changes nothing |
| StreambufSpec.StepSends | 3rd_party/asio/asio/basic_socket_streambuf.hpp:427-517 | what every operation puts on the wire, in terms of its plan |
| StreambufSpec.OverflowOkIff | 3rd_party/asio/asio/basic_socket_streambuf.hpp:427-499 | overflow reports success exactly when the socket takes the whole put area, or without a buffer the character |
| StreambufSpec.PutStepKeeps | 3rd_party/asio/asio/basic_socket_streambuf.hpp:427-517 | every write, sync and buffer switch keeps the byte accounts |
| StreambufSpec.PutConservation | 3rd_party/asio/asio/basic_socket_streambuf.hpp:427-517 | over every run the sent bytes followed by the pending ones are the accepted characters exactly when no operation's flush failed after a partial send |
| StreambufSpec.PartialFailureDuplicates | 3rd_party/asio/asio/basic_socket_streambuf.hpp:466-476 | every sync that fails after a partial send is followed, when a later sync succeeds, by a repetition of the sent bytes |
| StreambufSpec.PartialFailureOccurs | 3rd_party/asio/asio/basic_socket_streambuf.hpp:466-476 | a run from the fresh buffer in which such a sync occurs |
| StreambufSpec.UnderflowFills | 3rd_party/asio/asio/basic_socket_streambuf.hpp:373-425 | behind any number of would-blocks an underflow on an empty get area makes the first 504 bytes that arrive available in order; every other outcome leaves the area empty |
| StreambufSpec.StepTakes | 3rd_party/asio/asio/basic_socket_streambuf.hpp:373-425 | a read takes the first character of what is unread or of what the refill brings, a peek takes nothing |
| StreambufSpec.ReceivedIsOffered | 3rd_party/asio/asio/basic_socket_streambuf.hpp:373-425 | over every run the received bytes are the concatenated offers of the socket to the operations that found the get area empty |
| StreambufSpec.GetConservation | 3rd_party/asio/asio/basic_socket_streambuf.hpp:373-425 | over every run the delivered characters followed by the unread ones are the bytes the socket offered, in order |
| StreambufSpec.EndToEnd | 3rd_party/asio/asio/basic_socket_streambuf.hpp:373-499 | over a channel that offers a prefix of what was sent, and when no flush failed after a partial send, a reader sees a prefix of what the writer had accepted |
| Streambuf.SocketStreambuf.constructor | 3rd_party/asio/asio/basic_socket_streambuf.hpp:525-535 | both areas start empty inside their buffers |
| Streambuf.SocketStreambuf.SendAll | 3rd_party/asio/asio/basic_socket_streambuf.hpp:449-482 | the send loop against every plan of partial sends, would-blocks and failures: how much is sent and when it succeeds |
| Streambuf.SocketStreambuf.DoOverflow | 3rd_party/asio/asio/basic_socket_streambuf.hpp:427-499 | overflow in buffered and unbuffered mode, pointers staying inside the put buffer |
| Streambuf.SocketStreambuf.PutChar | 3rd_party/asio/asio/basic_socket_streambuf.hpp:427-499 | one character written: it joins the accepted ones exactly when the caller is told so, which is when there was room or the overflow succeeded |
| Streambuf.SocketStreambuf.DoSync | 3rd_party/asio/asio/basic_socket_streambuf.hpp:501-504 | sync flushes the put area and reports whether everything was sent |
| Streambuf.SocketStreambuf.DoSetBuf | 3rd_party/asio/asio/basic_socket_streambuf.hpp:506-517 | the switch to unbuffered mode is granted, and reported as granted, only with nothing pending |
| Streambuf.SocketStreambuf.DoUnderflow | 3rd_party/asio/asio/basic_socket_streambuf.hpp:373-425 | a refill goes behind the putback area, only when nothing is unread, makes exactly the offered bytes available and never goes beyond the buffer |
| Streambuf.SocketStreambuf.Close | 3rd_party/asio/asio/basic_socket_streambuf.hpp:213-217 | the destructor flushes what is pending |
| HandlerSpec.StepKeeps | 3rd_party/asio/asio/any_completion_handler.hpp:639-756 | every operation keeps ownership unshared, the table matching its target, and each target owned or freed once |
| HandlerSpec.OneShot | 3rd_party/asio/asio/any_completion_handler.hpp:639-756 | over every interleaving no two wrappers own the same target, each target is freed exactly once unless still owned, invoked at most once, and freed before its handler runs, and an owner has the function table of its target's type |
| HandlerSpec.InvokedIffCalled | 3rd_party/asio/asio/any_completion_handler.hpp:745-756 | over every interleaving a target is invoked exactly when some operation calls the wrapper that owns it at that moment |
| HandlerSpec.NoLeak | 3rd_party/asio/asio/any_completion_handler.hpp:698-703 | when all wrappers are gone every target has been freed exactly once |
| CompletionHandler.Targets.Invoke | 3rd_party/asio/asio/any_completion_handler.hpp:178-191 | the memory is freed before the handler runs |
| CompletionHandler.AnyCompletionHandler.Move | 3rd_party/asio/asio/any_completion_handler.hpp:671-677 | the moved-from wrapper has no target |
| CompletionHandler.AnyCompletionHandler.Swap | 3rd_party/asio/asio/any_completion_handler.hpp:718-722 | contents are exchanged, a wrapper with itself included |
| CompletionHandler.AnyCompletionHandler.Destroy | 3rd_party/asio/asio/any_completion_handler.hpp:699-703 | frees the target if there is one |
| CompletionHandler.AnyCompletionHandler.MoveAssign | 3rd_party/asio/asio/any_completion_handler.hpp:683-689 | takes the other's target and frees its own; a self-move changes nothing |
| CompletionHandler.AnyCompletionHandler.AssignNull | 3rd_party/asio/asio/any_completion_handler.hpp:692-696 | frees the target and empties the wrapper |
| CompletionHandler.AnyCompletionHandler.Call | 3rd_party/asio/asio/any_completion_handler.hpp:745-756 | frees and invokes the target once, and leaves the wrapper empty; an empty wrapper throws |
| CompletionHandler.Wrappers.DoAll | 3rd_party/asio/asio/any_completion_handler.hpp:613-756 | any interleaving over the objects has the effect of the state machine |
| AlignedAllocation.AlignUpLeast | 3rd_party/asio/asio/any_completion_handler.hpp:145-146 | std::align yields the least aligned address of the block |
| AlignedAllocation.Layout | 3rd_party/asio/asio/any_completion_handler.hpp:131-156 | alignment succeeds exactly when the sum of size and alignment does not wrap; then the region and its trailer lie in the block exactly when the whole request does not wrap either, and the region is aligned |
| AlignedAllocation.OffsetRoundTrip | 3rd_party/asio/asio/any_completion_handler.hpp:148-171 | reading back the stored offset bytes gives the offset |
| AlignedAllocation.StepKeeps | 3rd_party/asio/asio/any_completion_handler.hpp:131-176 | allocations, deallocations, writes into user regions and other uses of the allocator keep every trailer intact and the blocks disjoint |
| AlignedAllocation.OneDeallocation | 3rd_party/asio/asio/any_completion_handler.hpp:158-176 | in any memory that keeps the invariant a deallocation hands back base and length of the block of its ticket, and keeps the invariant |
| AlignedAllocation.DeallocateRecovers | 3rd_party/asio/asio/any_completion_handler.hpp:158-176 | after every interleaving deallocate hands back exactly the base and the length that allocate had asked for |
| AlignedAllocation.Arena.Allocate | 3rd_party/asio/asio/any_completion_handler.hpp:131-156 | computes request and address, writes only the trailer, and keeps the invariant of the blocks and trailers |
| AlignedAllocation.Arena.Deallocate | 3rd_party/asio/asio/any_completion_handler.hpp:158-176 | a null pointer does nothing; in a memory that keeps the invariant the result is the base and the length that the allocation of the pointer had asked for, and the invariant is kept |

## Left out

- Printing and the assembly of the help text: the printers are outcome tags, and of the help text only what registration appends is kept, because a later test asks whether it is empty.
- Splitting and trimming of a registration rule: `ArgsTables.Register` starts from the trimmed alias list.
- `libgs::value`: represented by the string it is built from.
- The `parsing` loop body is cut into methods, one per part of an iteration; the branches and their order are those of the source.
- Wrap-around of the registration counter and the truncation of `argc` to `int`.
- Several concurrent callers of `exec`, and other code that stops or restarts the io_context.
- Exceptions thrown by initialisers, and data races on the registry between threads: runs overlap step by step only.
- A wait of the initialisation or a call of the streambuf that never returns has no final state: waits return, and a streambuf call whose plan is used up times out.
- Streambuf connect, close, move construction and assignment, putback, and the multi-character transfers that std::streambuf builds from single ones.
- The socket itself: which bytes are offered and accepted is the plan's choice.
- Associated executors, allocators and cancellation slots of completion handlers, and user code run by the destructor of a handler.
- AlignedAllocation.Arena.Allocate: the caller passes the block that the underlying allocator returns, and allocator failure is not modelled.
- AlignedAllocation.DeallocateRecovers: is about requests whose total size does not wrap. For a wrapping sum of size and alignment allocate throws, and if only the size of the offset makes the request wrap, the trailer lies outside the block (`Layout`).
- The remaining libraries of the repository (ini, values, queues, mutexes, HTTP): not part of this model.

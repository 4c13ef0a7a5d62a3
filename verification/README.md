# Xdebug: the algorithms behind the debugger, modelled and proved

The repository is a step debugger for PHP: a C extension that speaks the DBGp protocol to an
editor, and a PHP test runner with a parallel scheduler and a diff engine. This project models
the parts of it that are algorithms or protocols rather than glue to the PHP engine, and proves
what they are for.

Every part has the same shape. A specification is written with functions and predicates, on
values. The code that changes state is a method, or a class with methods, in the source's own
form (loops over arrays, fields updated in place, linked elements), and its contract ties the
result or the new state to the specification. What the source promises is then a lemma about
the specification, for all inputs, all runs or all reachable states.

| files | what they model |
|---|---|
| `Subsequences`, `Differ` | the diff engine: trimming, the divide-and-conquer longest common subsequence, the numbered edit script |
| `Scheduling`, `SchedulerSafety`, `SchedulerRuns`, `SchedulerOrder`, `SchedulerPairs`, `SchedulerOvertaking`, `SchedulerBatches`, `SchedulerMaster`, `Gathering` | the parallel test scheduler: the messages between master and workers, conflict keys as locks, waiting queues, batches |
| `Escapes`, `EscapeForms`, `Numbers`, `Fullname`, `Symbols`, `PathGrammar`, `FullnameRoundTrip`, `HandwrittenPaths` | the printer of variable paths, the state machine that reads them back, and the grammar it reads by |
| `CommandParser`, `CommandGrammar`, `CommandRoundTrip`, `LineReader` | the DBGp command line parser, the grammar it accepts, and the reader that cuts the byte stream into lines |
| `Stepping`, `StackMirror`, `StackLedger`, `BitSets`, `Breakpoints`, `BreakpointAnswers` | step_into, step_over and step_out; the debugger's stack beside the engine's; breakpoint resolution |
| `LinkedList`, `HashSpec`, `HashTables`, `EvalIds` | the chained hash table over doubly linked lists, with its destructor, and the reference-counted sources of evaluated code on top of it |
| `PathMaps` | translating file positions: exact entries, directory rules, line ranges |
| `Base64`, `Base64Digits`, `Crc32` | the two codecs |

## Where the code does less than it promises

Six promises do not hold for every input. In each case the code is modelled as it is, a lemma
gives an input for which it fails, and another says exactly when it holds.

- A printed variable path does not always read back (`FullnameRoundTrip.FullnameRoundTripIff`,
  `FullnameRoundTrip.ColonSplitsName`, `Escapes.RoundTripIff`, `Escapes.RoundTripFails`). It does
  if and only if no NUL in a key or braced name is directly followed by an octal digit, no bare
  property name starts with `>` or has a `:` after its first character, static property names are
  bare and without `:`, and names of foreign private properties hold none of `[`, `-`, `:`.
- `step_out` does not always stop at the first handled statement after its frame has been popped
  (`Stepping.StepOutPassesBy`, `Stepping.StepOutStopsThereIff`). It does if and only if that
  statement is no deeper than the frame was; a caller that goes on to call an internal function
  with a callback is passed by.
- A stack rebuilt in the middle of a request stays right if and only if the handlers are not declined
  for any call it made a frame for (`StackMirror.RebuildLastsIff`). They are declined for a function
  first called while the observer was off (src/base/base.c:740-741), and its frame is then never popped
  (`StackMirror.DeclinedCallBreaksRebuild`). Evaluated code is not such a call: its handlers run around
  `xdebug_execute_ex`, whether the observer is on or not.
- A complete line is not always handed out: its chunk may go on without a delimiter at its end, and if
  the connection then closes, the line is lost (`LineReader.UnfinishedChunkHidesLine`). All lines of the
  stream are handed out if and only if there is no delimiter after the last point at which the bytes
  gathered end with one (`LineReader.AllLinesAreReadIff`); on a connection that stays open, a stream of
  whole lines is handed out completely if and only if every chunk is within the packet limit
  (`LineReader.WholeLinesAreReadIff`).
- Tests with a common conflict key do not always run in their original order without shuffling. Of two
  such tests the earlier one is never overtaken if and only if the later one is not marked "all" and
  every key of the earlier one is the first key of the later one
  (`SchedulerOvertaking.NeverOvertakenIff`). Otherwise there is a run in which it is: it waits for
  another key while the later test passes (`SchedulerOvertaking.WaitsTwice`), or lands below it on the
  stack (`SchedulerOvertaking.LandsOnTop`); a later test marked "all" comes first if there is a single
  worker (`SchedulerOvertaking.AllComesFirst`), and an earlier one is kept back if there are two
  (`SchedulerOvertaking.AllIsKept`). As a whole, the tests whose only key is the one named keep their
  order, and those marked "all" come out reversed (`SchedulerOrder.OriginalOrder`,
  `SchedulerOrder.AllRunsBackwards`).
- A line within a mapped range is not always found. Over ranges that do not overlap every such line is
  found if and only if the ranges are sorted (`PathMaps.FindsAllIff`); of two ranges out of order the
  second one is never found (`PathMaps.OutOfOrderMisses`). The parser accepts local ranges that go down
  after a skipped one (src/lib/maps/parser.c:663).

## Model

| member | source | states |
|---|---|---|
| `Subsequences.LongestCommonIff` | run-xdebug-tests.php:4139-4158 | a common subsequence is a longest one exactly when its length is what the length recurrence gives |
| `Subsequences.LcsReverse` | run-xdebug-tests.php:4117 | lengths computed on reversed halves are the lengths of the halves |
| `Subsequences.LcsSplitLower` | run-xdebug-tests.php:4121-4128 | no cut of the second text promises more than the longest common subsequence of the whole |
| `Subsequences.LcsSplitUpper` | run-xdebug-tests.php:4121-4128 | some cut attains it |
| `Subsequences.LcsTrim` | run-xdebug-tests.php:4054-4092 | a shared prefix and suffix belong to some longest common subsequence, so trimming loses nothing |
| `Differ.GetArrayDiffParted` | run-xdebug-tests.php:4054-4092 | cuts off the shared prefix and then the shared suffix; what is left differs at both ends |
| `Differ.CommonSubsequenceLength` | run-xdebug-tests.php:4139-4158 | the one-row table ends with the longest-common-subsequence length against every prefix of the second text |
| `Differ.BestCut` | run-xdebug-tests.php:4116-4128 | the split point is the last cut at which the forward and backward tables add up to the most |
| `Differ.CalculateCommonSubsequence` | run-xdebug-tests.php:4094-4137 | terminates and returns a longest common subsequence |
| `Differ.HirschbergIsLongest` | run-xdebug-tests.php:4094-4137 | the divide and conquer settles on a common subsequence that no other exceeds, for all texts |
| `Differ.DiffToArray` | run-xdebug-tests.php:4003-4052 | dropping ADDED gives the first text and dropping REMOVED the second; every number is the line in its own text; removals come before additions; the OLD entries number the longest common subsequence of the untrimmed texts |
| `Differ.ScriptIsMinimalIff` | run-xdebug-tests.php:4003-4052 | a script has the fewest changes of all scripts for its two texts exactly when it keeps that many OLD entries |
| `Scheduling.BatchSize` | run-xdebug-tests.php:1540-1542 | a batch size is at least one and at most the cap |
| `Scheduling.WorkerCount` | run-xdebug-tests.php:1384-1385 | there is at least one worker, and otherwise as many as requested or as there are tests, whichever is less |
| `SchedulerBatches.BatchSizeIsLeast` | run-xdebug-tests.php:1540-1542 | batches of this size, one for every worker, cover all files unless the cap is smaller, and no smaller size of at least one does |
| `SchedulerBatches.FillStops` | run-xdebug-tests.php:1543-1551 | a batch comes off the top of the stack; it ends with one test more than its size, and sooner only when the stack is empty |
| `SchedulerBatches.BatchesStaySmall` | run-xdebug-tests.php:1540-1551 | in every state of every run a worker has at most 33 tests at once, 5 if they are shuffled, 2 under valgrind |
| `SchedulerMaster.Scheduler.constructor` | run-xdebug-tests.php:1348-1385 | partition into parallel and sequential tests, reversal unless shuffled, and the number of workers: the initial state of the machine |
| `SchedulerMaster.Scheduler.Receive` | run-xdebug-tests.php:1512-1570 | one message is one step of the machine; tests_finished falls through to ready |
| `SchedulerMaster.Scheduler.Release` | run-xdebug-tests.php:1513-1527 | drops the locks of the worker and gives their waiting queues back to the stack |
| `SchedulerMaster.Scheduler.Requeue` | run-xdebug-tests.php:1518-1523 | a waiting queue is popped onto the stack, so it comes back reversed, and is gone |
| `SchedulerMaster.Scheduler.Schedule` | run-xdebug-tests.php:1528-1570 | fills a batch, puts tests with a held key aside, locks the keys of the batch, or terminates the worker |
| `SchedulerMaster.Scheduler.FindHeld` | run-xdebug-tests.php:1544-1549 | the first of a test's keys that is held, if any |
| `SchedulerMaster.Scheduler.TakeAll` | run-xdebug-tests.php:1553-1557 | every key of every test in the batch is recorded for the worker |
| `SchedulerSafety.StepKeepsInv` | run-xdebug-tests.php:1512-1570 | every message keeps the invariant: locks belong to busy workers, waiting tests wait for held keys, "all" tests are alone, nothing is lost |
| `SchedulerRuns.Reachable` | run-xdebug-tests.php:1329-1631 | the invariant holds in every reachable state |
| `SchedulerRuns.MutualExclusion` | run-xdebug-tests.php:1343-1345 | in every reachable state, running tests that share a conflict key are on one worker, the one recorded for the key; a test marked "all" runs only while one worker lives |
| `SchedulerRuns.NothingLost` | run-xdebug-tests.php:1473-1569 | in every reachable state each test is in exactly one of the stack, the sequential list, a waiting queue, a batch, or done; a waiting queue is not empty and its key is held by a busy worker |
| `SchedulerRuns.NeverStuck` | run-xdebug-tests.php:1479-1570 | while the master listens some worker is alive, and the message of any live worker can be handled |
| `SchedulerRuns.RunsEverything` | run-xdebug-tests.php:1479-1631 | when the master stops listening every test has run exactly once |
| `SchedulerRuns.LastWorkerLeavesNothing` | run-xdebug-tests.php:1565-1569 | the last worker is terminated only when every queue is empty and every test has run |
| `SchedulerRuns.RunsAreBounded` | run-xdebug-tests.php:1479-1570 | a run has no more scheduling messages than there are tests and workers |
| `SchedulerOrder.OriginalOrder` | run-xdebug-tests.php:1377-1382 | without shuffling, the tests done that conflict on one key alone are always a prefix of the original ones in their original order, those marked "all" a prefix of the original ones reversed, and in the end they are all of them |
| `SchedulerOrder.OrderIsKeptIff` | run-xdebug-tests.php:1377-1382 | a finished run keeps the order of the tests whose only conflict key is the one named; of the tests marked "all" it keeps it if and only if they read the same backwards |
| `SchedulerOrder.AllRunsBackwards` | run-xdebug-tests.php:1530-1533 | of two tests marked "all" every finished run has run the second one first |
| `SchedulerPairs.StaysAhead` | run-xdebug-tests.php:1513-1551 | in every unshuffled run, at any point, a test with a single conflict key is ahead of every later test that asks for that key first of all |
| `SchedulerOvertaking.NeverOvertakenIff` | run-xdebug-tests.php:1377-1382 | for any two lists of conflict keys with a key in common: in every unshuffled run a test with the one stays ahead of every later test with the other, if and only if the later list has no "all" and every key of the earlier one is the first key of the later one |
| `SchedulerOvertaking.SecondKeyIsOvertaken` | run-xdebug-tests.php:1377-1382 | a test is never overtaken by a later one whose only key is one of its own if and only if it has no other key |
| `SchedulerOvertaking.WaitsTwice` | run-xdebug-tests.php:1513-1551 | a finished run in which a test waits for its other key, comes back, and waits again behind the later test |
| `SchedulerOvertaking.LandsOnTop` | run-xdebug-tests.php:1513-1525 | a finished run in which one worker gives back two keys, and the queue of the later test lands on top of that of the earlier one |
| `SchedulerOvertaking.AllComesFirst` | run-xdebug-tests.php:1529-1533 | with a single worker a later test marked "all" runs before an earlier test that is still on the stack |
| `SchedulerOvertaking.AllIsKept` | run-xdebug-tests.php:1367-1375 | with two workers an earlier test marked "all" is kept back while a later one runs |
| `Escapes.AddSlashesToBuffer` | src/lib/compat.c:211-275 | the two passes write the escaped text into a buffer that is large enough |
| `Escapes.StripInPlace` | src/lib/stripcslashes.c:29-88 | rewriting in place leaves the stripped text and its length; characters after the terminator position are untouched |
| `Escapes.RoundTripIff` | src/lib/stripcslashes.c:29-88 | stripping what was escaped gives the text back if and only if no NUL is directly followed by an octal digit |
| `Escapes.RoundTripFails` | src/lib/stripcslashes.c:63-77 | a NUL before a digit 1 comes back as one character |
| `Escapes.EscapedIff` | src/lib/compat.c:224-236 | a text stays as it is if and only if it holds no NUL, no quote of either kind and no backslash |
| `EscapeForms.StripReads` | src/lib/stripcslashes.c:35-80 | however a text is written, with letters for control characters, one or two hexadecimal digits, one to three octal digits or a backslash before any other character, stripping gives the characters that the forms stand for |
| `EscapeForms.EveryTextHasForms` | src/lib/stripcslashes.c:29-88 | every text is written in such forms, so the result is fixed for all texts |
| `Numbers.KeyRoundTrip` | src/lib/var.c:445 | every 64-bit key survives being printed as a signed and read as an unsigned number |
| `Numbers.PrintsSigned` | src/lib/var_export_xml.c:271 | a key is printed as the signed number with the same 64 bits, without leading zeros |
| `Numbers.NumberIsRead` | src/lib/var.c:445 | any digits, leading zeros or not and whatever follows them, give their number, cut to 64 bits if it is too large; a minus sign counts down from zero |
| `Fullname.PrepareVariableName` | src/lib/var_export_xml.c:21-36 | the root gets its sigil, and a trailing double colon is cut off; the empty name becomes a lone sigil |
| `Fullname.ArrayElementName` | src/lib/var_export_xml.c:253-282 | an array element appends its escaped key in quotes, or its signed number, in brackets |
| `Fullname.ObjectElementName` | src/lib/var_export_xml.c:332-369 | a property appends its arrow and its bare, braced or starred name |
| `Symbols.GetPhpSymbol` | src/lib/var.c:594-832 | the loop over the characters makes the lookups of the state machine, with the keyword text of each; which these are is `PathGrammar.ReadsByGrammar` |
| `Symbols.FeedConcat` | src/lib/var.c:609-832 | reading a text in two parts is reading it whole |
| `PathGrammar.ReadsByGrammar` | src/lib/var.c:609-831 | for every text, well-formed or not, the lookups and their keywords are what a grammar of whole names, numbers and quoted texts gives: which character ends each, what is passed over, and what is looked up when the text breaks off |
| `PathGrammar.QuotedReads` | src/lib/var.c:722-743 | a quoted text goes on to the first quote of its kind that is not escaped; without one, all of it is looked up |
| `HandwrittenPaths.QuotedKeyIff` | src/lib/var.c:696-745 | a key between quotes of either kind is read as that key if and only if no NUL in it is followed by an octal digit |
| `HandwrittenPaths.QuotedNameIff` | src/lib/var.c:786-823 | a property name between quotes of either kind in braces likewise |
| `HandwrittenPaths.StaticRootRoundTripIff` | src/lib/var.c:765-784 | a path from `::name` is read as a static property of the class being executed and then its elements, if and only if these survive; outside a class the name is passed over and the elements alone are looked up |
| `FullnameRoundTrip.SurvivorIsRead` | src/lib/var.c:629-831 | an element that survives is read back as exactly the lookup it stands for |
| `FullnameRoundTrip.OthersAreMisread` | src/lib/var.c:629-831 | any other element is missing or different after reading, whatever follows it |
| `FullnameRoundTrip.FullnameRoundTripIff` | src/lib/var_export_xml.c:332-369 | reading a printed path performs exactly the lookups of the path if and only if every element survives |
| `FullnameRoundTrip.ColonSplitsName` | src/lib/var.c:660-676 | a bare property name with a colon in it is read as a property and then a static property |
| `CommandParser.CmdParse` | src/lib/cmd_parser.c:46-177 | the pointer-walking loop parses as the state machine does: code, command name and slots; what that accepts is `CommandGrammar.ParsesAsRead` |
| `CommandParser.CommandReader.OnCharacter` | src/lib/cmd_parser.c:82-165 | one turn of the switch is one transition, with the error it makes |
| `CommandParser.RunConcat` | src/lib/cmd_parser.c:80-166 | parsing a text in two parts is parsing it whole |
| `CommandGrammar.ParsesAsRead` | src/lib/cmd_parser.c:46-177 | for every line, the code, the name and the slots are what a grammar of whole options gives: each starts with a hyphen, a letter or hyphen and a space, and anything else is a parse error; a bare value ends at a space after its first character, a quoted one at the first unescaped quote and one character more; a letter used twice is an error |
| `CommandGrammar.NoOption` | src/lib/cmd_parser.c:83-105 | where an option must start, anything else gives a parse error, whatever follows, and leaves the slots alone |
| `CommandGrammar.MalformedIsRejected` | src/lib/cmd_parser.c:83-105 | after a name and any well-formed options with different letters, a text that does not start an option makes the line malformed; the slots read before it are kept |
| `CommandRoundTrip.ParsesCommandLine` | src/lib/cmd_parser.c:46-177 | a line of a name, options bare or quoted, and a last value parses to exactly those values in those slots if and only if no letter repeats; else the duplicate-argument error |
| `CommandRoundTrip.SlotsFill` | src/lib/cmd_parser.c:122-127 | slots fill up exactly when no letter is used twice or already taken |
| `CommandRoundTrip.SlotsHold` | src/lib/cmd_parser.c:116-127 | each slot holds the value of its option, and slots filled before are left alone |
| `CommandRoundTrip.AnyValueCanBeSent` | src/lib/cmd_parser.c:130-157 | every value, of whatever characters, reaches its slot when written between quotes with escapes |
| `LineReader.Connection.ReadLineDelim` | src/debugger/handler_dbgp.c:2429-2506 | one read returns, buffers and consumes what the reading function says |
| `LineReader.ReadConserves` | src/debugger/handler_dbgp.c:2442-2505 | a returned line and its delimiter, the buffer left and the stream still to come make up what there was |
| `LineReader.SessionReadsSettled` | src/debugger/handler_dbgp.c:2429-2506 | reading again and again hands out exactly the lines of what settles: the bytes up to the last point at which those gathered end with the delimiter, before a close, a failure or too much for one packet; and it fails for the packet limit exactly if the chunks exceed it |
| `LineReader.SessionReadsLines` | src/debugger/handler_dbgp.c:2429-2506 | the lines handed out are always a prefix of the lines of the stream |
| `LineReader.AllLinesAreReadIff` | src/debugger/handler_dbgp.c:2429-2506 | they are all lines of the stream if and only if no delimiter is left in what does not settle |
| `LineReader.ChunkingIsInvisible` | src/debugger/handler_dbgp.c:2429-2506 | of two ways to cut the same bytes into chunks, one hands out the first lines of the other, and both the same lines if and only if the same bytes settle |
| `LineReader.WholeLinesAreReadIff` | src/debugger/handler_dbgp.c:2442-2458 | on a connection that stays open, a stream of whole lines is handed out completely if and only if every chunk is within the packet limit, however it is cut |
| `LineReader.UnfinishedChunkHidesLine` | src/debugger/handler_dbgp.c:2442-2483 | a complete line is lost when its chunk, of a size one call can receive, goes on and the connection closes |
| `LineReader.SmallStreamsFit` | src/debugger/handler_dbgp.c:2452-2458 | while all that is received is below the packet limit, the buffer cannot overflow and every chunk fits |
| `Stepping.Debugger.HandleCommand` | src/debugger/handler_dbgp.c:1365-1404 | each command sets its flag, clears the other two and remembers the level and number of the top frame |
| `Stepping.Debugger.StatementCall` | src/debugger/debugger.c:407-441 | the first flag whose condition holds is cleared and execution stops |
| `Stepping.Debugger.AddStackFrame` | src/base/base.c:341-347 | a new frame is pushed with the next number |
| `Stepping.ReachableInv` | src/debugger/handler_dbgp.c:1365-1404 | in every state reached by any events and commands at most one step is pending, and frames are numbered in the order they were entered |
| `Stepping.StopClears` | src/debugger/debugger.c:407-441 | a stop leaves no step pending |
| `Stepping.NextStop` | src/debugger/debugger.c:242-275 | for every command and every well-nested run: step_into stops at the first handled statement, step_over at the first that is no deeper than where it was issued, step_out at the first that comes after its frame was popped and is no deeper than it was; never earlier |
| `Stepping.PoppedIff` | src/debugger/debugger.c:268-273 | the frame at the issuing level has another number exactly when the issuing frame has been popped |
| `Stepping.StepOutStopsThereIff` | src/debugger/debugger.c:257-275 | step_out stops at the first handled statement after its frame was popped if and only if that statement is no deeper than the frame was |
| `Stepping.StepOutPassesBy` | src/debugger/debugger.c:257-275 | from any state, a run in which it does not stop there |
| `Stepping.NoFrameNoStop` | src/debugger/handler_dbgp.c:1383-1403 | issued before there is any frame, step_over and step_out never stop |
| `StackMirror.Observer.CodeBegin` | src/base/base.c:470-521 | a call whose handlers run pushes one frame stamped with its caller, unless it is user code that finds the stack empty and no client: then the observer is switched off instead |
| `StackMirror.Observer.CodeEnd` | src/base/base.c:523-543 | pops only if the top frame carries the stamp of the ending call |
| `StackMirror.Observer.ExecuteBegin` | src/base/base.c:689-707 | the observer's begin handler does its part of the begin of a call: nothing while it is off, nothing for evaluated code |
| `StackMirror.Observer.ExecuteEnd` | src/base/base.c:709-727 | the observer's end handler likewise |
| `StackMirror.Observer.ExecuteExBegin` | src/base/base.c:573-591 | evaluated code begins with the same handler, whether the observer is on or off |
| `StackMirror.Observer.ExecuteExEnd` | src/base/base.c:584-597 | and ends with it |
| `StackMirror.Observer.AddFramesRecursively` | src/base/base.c:414-432 | one stamped frame for every call in progress that has a function, outermost first |
| `StackMirror.Observer.SwitchOnRebuiltStack` | src/debugger/debugger.c:1233-1248 | the stack is emptied and rebuilt, and the asking function's own frame dropped |
| `StackMirror.Vector.Push` | src/lib/vector.h:35-60 | the element is appended; storage grows from 0 to 32 and then by half when it is full, and only then, keeping what is there |
| `StackMirror.Vector.Pop` | src/lib/vector.h:62-66 | the last element is gone, the others stay |
| `StackMirror.BelongsIffRecorded` | src/base/base.c:461-468 | the stamp on the top frame is the ending call's exactly if that call is recorded |
| `StackMirror.NoFrameIsLost` | src/base/base.c:448-460 | in every state of every request, whatever switches, rebuilds and evaluated code there are, the frames of the recorded calls in progress are all on the stack, in order; an end never removes another live call's frame |
| `StackMirror.MirrorsIff` | src/base/base.c:448-460 | so the stack is exactly the list of recorded calls in progress if and only if it has no more frames than there are such calls |
| `StackMirror.EndPopsOwnFrame` | src/base/base.c:523-543 | while the stack is right, the end of a call removes its own frame or nothing |
| `StackMirror.StepMirrorsIff` | src/base/base.c:461-543 | one event keeps the stack right if and only if it is not the end of a recorded call whose handlers do not run |
| `StackMirror.InvStep` | src/base/base.c:689-727 | every event keeps the mirror, if the observer is only switched on cleanly |
| `StackMirror.AlwaysMirrors` | src/base/base.c:448-460 | in every state of such a request, from any depth, while the observer is on, the debugger stack is exactly the list of recorded calls in progress and their handlers will run; which calls are recorded is `StackLedger.RecordedAreOwed` |
| `StackMirror.InstalledMirrors` | src/base/base.c:448-460 | with handlers installed on every call, the stack is right in every state of a request that starts at any depth, with the observer on or off, and switches it on at any points, plainly or by a rebuild; which frames that are is `StackLedger.StackIsLedger` |
| `StackLedger.RecordedAreOwed` | src/base/base.c:470-521 | in every state of every request the recorded calls are those whose handlers ran when they began, unless user code found the stack empty and no client, or that have a function when the stack was last rebuilt |
| `StackLedger.RunHasLedger` | src/base/base.c:470-543 | every request has a ledger: for each state the calls in progress and whether they are owed a frame |
| `StackLedger.OwedFramesAreThere` | src/base/base.c:448-460 | whatever happens in a request, the frame of each of these calls, with the call it was made from, is on the stack, in order; after clean switches only, while the observer is on, nothing else is |
| `StackLedger.StackIsLedger` | src/base/base.c:448-543 | with handlers installed on every call, the stack is in every state exactly the frames that the events of the request alone account for: one for each call begun, handled and not ended, or present at the last rebuild |
| `StackMirror.SwitchOnMirrorsIff` | src/debugger/com.c:723-729 | switched on without a rebuild, the stack is right if and only if it has no more frames than recorded calls in progress, and stays right if and only if, besides, the handlers of those calls are not declined |
| `StackMirror.RebuildLastsIff` | src/base/base.c:439-444 | a rebuild gives the right stack at once, and it stays right if and only if the handlers are not declined for any call it made a frame for |
| `StackMirror.DeclinedCallBreaksRebuild` | src/base/base.c:740-741 | a call to a function whose handlers were declined: after a rebuild its frame is left behind |
| `StackMirror.StaleFrameStays` | src/base/base.c:709-714 | an observed call that ends while the observer is off leaves its frame behind |
| `BitSets.BitSet.constructor` | src/lib/set.c:50-59 | a new set has no members |
| `BitSets.BitSet.Resize` | src/lib/set.c:26-48 | growing keeps the members |
| `BitSets.BitSet.Add` | src/lib/set.c:81-92 | the members are the ones before and the position; a resizable set grows to hold it |
| `BitSets.MaskSelects` | src/lib/set.c:88-106 | setting one bit of a byte changes that bit and no other |
| `Breakpoints.BreakableLines` | src/debugger/debugger.c:974-988 | the set holds exactly the lines of the function's statements |
| `Breakpoints.LinesList.AddFunction` | src/debugger/debugger.c:1027-1050 | the list grows by an entry for the function and for everything nested in it, outer ones first; which functions these are and where each stands is `BreakpointAnswers.FlattenHolds` and `BreakpointAnswers.OuterFirst` |
| `Breakpoints.LinesList.CompileFile` | src/debugger/debugger.c:1115-1151 | compiling a file adds its functions from the latest on, then the methods and property hooks of its classes from the latest on, and the file itself last |
| `BreakpointAnswers.FlattenHolds` | src/debugger/debugger.c:1027-1050 | the list of some functions holds exactly the functions they contain, at any depth |
| `BreakpointAnswers.OuterFirst` | src/debugger/debugger.c:1029-1049 | a function comes before everything in it; what is declared in it follows in order, each with as many entries as it has functions |
| `BreakpointAnswers.ListsFollow` | src/debugger/debugger.c:1043-1049 | the lists of several functions follow each other without a gap or an overlap |
| `BreakpointAnswers.ListHolds` | src/debugger/debugger.c:1115-1151 | the list of a file holds exactly the functions, methods, property hooks and main code of all its compilations, and what is nested in them |
| `BreakpointAnswers.LatestFunctionFirst` | src/debugger/debugger.c:1130-1138 | a function compiled after others is listed before them and nothing else changes |
| `BreakpointAnswers.LatestClassFirst` | src/debugger/debugger.c:1141-1151 | of the classes the last comes first, its methods before its hooks; the main code is at the end |
| `Breakpoints.FindSmallestRange` | src/debugger/handler_dbgp.c:3002-3025 | the first of the narrowest functions around the line, or none |
| `Breakpoints.ScanForward` | src/debugger/handler_dbgp.c:3055-3068 | the nearest later breakable line within 5 and inside the function, or none |
| `Breakpoints.ScanBackward` | src/debugger/handler_dbgp.c:3070-3085 | the nearest earlier one, or none |
| `Breakpoints.ResolveIn` | src/debugger/handler_dbgp.c:3027-3087 | the line itself, else the nearest later, else the nearest earlier breakable line in reach, else unresolved |
| `Breakpoints.ResolutionIsUnique` | src/debugger/handler_dbgp.c:3027-3087 | that description fits one answer only |
| `BreakpointAnswers.AnswerIsUnique` | src/debugger/handler_dbgp.c:3002-3087 | the answer is determined by the functions in the order of the list, their lines and the lines of their statements |
| `BreakpointAnswers.ResolveLine` | src/debugger/handler_dbgp.c:3002-3087 | from a file compiled any number of times to the answer: unresolved if no function of the file, at any depth, is around the line; else the line of a statement of a function around it than which none is narrower: the line itself, or the nearest later one within five, or the nearest earlier one; of several such functions the first in the order of the list |
| `LinkedList.DifferFrom` | src/lib/llist.c:40-69 | a chain linked both ways holds no element twice |
| `LinkedList.List.InsertNext` | src/lib/llist.c:40-69 | the value stands right after the given element, or at the tail; links agree both ways |
| `LinkedList.List.Remove` | src/lib/llist.c:71-98 | the element is gone, its value is what the destructor gets; links agree both ways |
| `LinkedList.List.Empty` | src/lib/llist.c:105-110 | nothing is left; the values leave from the tail on |
| `HashTables.HashTable.constructor` | src/lib/hash.c:67-84 | an empty table of so many slots |
| `HashTables.HashTable.ExtendedFind` | src/lib/hash.c:193-212 | walks the list of the key's slot and finds what the specification finds |
| `HashTables.HashTable.AddOrUpdateKey` | src/lib/hash.c:137-169 | an existing entry is replaced and its value destroyed, a new one appended; the other slots are untouched |
| `HashTables.HashTable.ExtendedDelete` | src/lib/hash.c:171-191 | the entry is removed and its value destroyed, or nothing changes |
| `HashTables.HashTable.Destroy` | src/lib/hash.c:264-274 | the destructor is given every value left, slot by slot |
| `HashSpec.AddHolds` | src/lib/hash.c:137-169 | adding changes the finite map at the key and nowhere else; the size is the number of keys |
| `HashSpec.DeleteHolds` | src/lib/hash.c:171-191 | deleting removes the key from the map; the size is the number of keys |
| `HashSpec.RefinesMap` | src/lib/hash.c:137-212 | after any sequence of operations the table is the finite map they describe, every key is once in its own slot, and each stored value is in the table or has been destroyed, exactly once |
| `HashSpec.DestroyAccountsForAll` | src/lib/hash.c:264-274 | over the life of a table every stored value is destroyed exactly once |
| `EvalIds.IdKeyIsHex` | src/debugger/handler_dbgp.c:3247-3250 | the key of an id is the id in hexadecimal digits, at least four, with leading zeros only to make up four |
| `EvalIds.IdKeyInjective` | src/debugger/handler_dbgp.c:3247-3250 | different ids have different keys |
| `EvalIds.FileKeyInjective` | src/debugger/handler_dbgp.c:3242-3245 | different places have different keys |
| `EvalIds.KeysDiffer` | src/debugger/handler_dbgp.c:3242-3250 | no id has the key of a place |
| `EvalIds.EveryIdFindsItsRecord` | src/debugger/handler_dbgp.c:573-596 | after any registrations every id given out finds its own record, and no other id finds anything |
| `EvalIds.EveryPlaceFindsTheLatest` | src/debugger/handler_dbgp.c:3264-3266 | a place finds the latest record registered for it |
| `EvalIds.CountIsEntries` | src/debugger/handlers.c:77-85 | the count of a record is the number of table entries that point at it |
| `EvalIds.CountIs` | src/debugger/handler_dbgp.c:3262-3270 | a record counts 2 until its place is registered again, and 1 from then on |
| `EvalIds.NeverReleasedEarly` | src/debugger/handlers.c:81-84 | no record is released while the table lives |
| `EvalIds.ReleasedAtTheEnd` | src/debugger/handlers.c:77-85 | when the table is destroyed, each record's count reaches zero, once |
| `EvalIds.Context.InfoDtor` | src/debugger/handlers.c:77-85 | one reference less, and released at zero |
| `EvalIds.Context.RegisterEvalId` | src/debugger/handler_dbgp.c:3252-3273 | makes a record with the next id under both its keys; the record that is replaced is accounted for |
| `EvalIds.Context.ReturnEvalSource` | src/debugger/handler_dbgp.c:573-596 | gives the source registered under the id, or none |
| `PathMaps.Search` | src/lib/maps/maps_private.c:30-69 | the binary search over sorted disjoint ranges finds what a linear scan finds; over any ranges it finds what halving them leads to, and nothing but a range around the line: its path, and its single line or the line as far from its first as the one looked up is from the first of its side |
| `PathMaps.FindsAllIff` | src/lib/maps/maps_private.c:30-69 | over ranges that do not overlap every line of a range is found if and only if the ranges are sorted |
| `PathMaps.OutOfOrderMisses` | src/lib/maps/maps_private.c:30-69 | of two ranges out of order no line of the second one is found |
| `PathMaps.StrRNChr` | src/lib/strrnchr.h:20-34 | the last occurrence among the first n characters, or none |
| `PathMaps.FindRule` | src/lib/maps/maps_private.c:77-113 | the walk finds the longest directory of the path that has a rule |
| `PathMaps.RemoteToLocal` | src/lib/maps/maps_private.c:72-167 | the exact entry if there is one, else the longest directory or skip rule, else unknown |
| `PathMaps.LocalToRemote` | src/lib/maps/maps_private.c:211-280 | the same the other way, where skip rules of directories do not count; never a skip |
| `PathMaps.LookupIsUnique` | src/lib/maps/maps_private.c:72-167 | that description fits one result only, if the path's own ranges are sorted and disjoint |
| `PathMaps.LookupsKeepStep` | src/lib/maps/maps_private.c:48-53 | in either direction, the first line of a range of several goes to the first line of the other side, the last to the last, and the next line to the next one |
| `PathMaps.LookupsMeet` | src/lib/maps/maps_private.c:42-47 | every line of a range that maps to a single line goes there |
| `PathMaps.RuleApplies` | src/lib/maps/maps_private.c:77-113 | a path without an entry, under a directory with a rule and no directory with one in between, is skipped, or gets the other directory and keeps its line; a rule to skip counts only in the forward direction |
| `PathMaps.NoRuleApplies` | src/lib/maps/maps_private.c:77-113 | a path without an entry and without a rule for any of its directories is unknown |
| `PathMaps.LinesRoundTrip` | src/lib/maps/maps_private.c:169-208 | whichever reverse range around a local line is found, its remote position leads back to where the line was |
| `PathMaps.ThereAndBack` | src/lib/maps/maps_private.c:72-280 | for files and line ranges, the two lookups one after the other give back every position that maps at all, whatever the order of the reverse ranges |
| `PathMaps.RuleComesBackIff` | src/lib/maps/maps_private.c:77-113 | a local path under a directory rule comes back if and only if the forward map's entry for the remote path, or else its longest rule, agrees; it does when there is no such entry and no longer rule |
| `Base64.EncodeToBuffer` | src/lib/compat.c:82-112 | the loop writes the encoded text within the buffer allocated for it; its length is four for every three bytes begun |
| `Base64.DecodeStrict` | src/lib/compat.c:115-182 | answers true exactly for letters then padding, whitespace aside, with a legal end (RFC 4648 section 4); then the buffer holds the bytes the letters stand for |
| `Base64.SpellingIsUnique` | src/lib/compat.c:115-182 | a text spells at most one sequence of letters and one amount of padding |
| `Base64.DecodeEncode` | src/lib/compat.c:82-209 | the encoding of every message is legal and stands for the message |
| `Base64.EncodeThenDecode` | src/lib/compat.c:185-209 | the two loops one after the other return every message |
| `Base64Digits.SameNumber` | src/lib/compat.c:82-112 | the letters of an encoding, as digits in base 64, are the same number as the bytes of the message, with zeros for the bits missing at the end |
| `Base64Digits.LetterIsInAlphabet` | src/lib/compat.c:52-58 | the letter for a digit is the one in table 1 of RFC 4648, and the padding is the equals sign |
| `Base64Digits.LetterCount` | src/lib/compat.c:82-112 | there are as many letters as the message has groups of six bits, the last one completed |
| `Crc32.TableIsRight` | src/lib/crc32.c:19-84 | each of the 256 entries is what eight single-bit shifts of its index give |
| `Crc32.ShiftByteLinear` | src/lib/crc32.c:17 | shifting a byte out distributes over exclusive or |
| `Crc32.AllEntries` | src/lib/crc32.c:19-84 | the whole table is right |
| `Crc32.UpdateAbsorbs` | src/lib/crc32.c:17 | with a right table, one table step is eight bit steps |
| `Crc32.ComputeCrc32` | src/lib/crc32.c:87-97 | the table loop computes the bit-at-a-time reflected CRC-32 (section 8 of RFC 1952) of every byte string |
| `Crc32.DetectsOneByte` | src/lib/crc32.c:87-97 | changing any one byte of any message changes its checksum |
| `Crc32.CheckValue` | src/lib/crc32.c:87-97 | the checksum of the digits 1 to 9 is the check value of this CRC |

## Left out

- The regular-expression comparison of the diff engine: it is not an equivalence, so equality is `===` throughout. Writing the diff out and reporting results are not modelled either.
- The scheduler's sockets, message encoding, unexpected worker deaths and the result, error and JUnit messages. A test name that PHP takes for false (such as "0") would stop the pops early; names are taken to be true. Two entries for one file are two tests.
- With shuffling no order is claimed.
- PHP values: the path reader yields the list of lookups and their keywords, not values, and the class name it passes along with a lookup is not modelled. The page counters of the exporter are left out.
- Failures to allocate memory, and machine overflow of levels, line numbers and counters.
- Conditional, line, exception and function breakpoints while a step is pending, breaks on return values, and several fibers: the stepping lemmas speak of one stack and of nothing else that stops.
- Which of a call's handlers run, and how, is a property of the call in `StackMirror`; the tests that decide it in the engine are not modelled. Frames hold the call and its stamp only. The name `:` alone makes `prepare_variable_name` look at the byte before its text; the model takes it for no colon.
- Which methods and property hooks belong to a file is given to `Breakpoints` with its classes; the comparison of file names is left out.
- EvalIds.Context.ReturnEvalSource: gives the whole source; cutting it to the requested first and last line is not modelled.
- `breakpoint_update -n`, re-set exception breakpoints and the reply messages of resolved breakpoints.
- The bytes a key hashes to: `HashSpec` and `HashTables` hold for any hash function. Keys are compared for equality; the source's look at the first byte of an empty key is not modelled. Elements of the hash are kept in the list nodes themselves. Sorted traversal is left out.
- The parser of map files. That a range of several lines maps to as many and that the reverse map mirrors the forward one are preconditions of the round trips; so is, for line ranges, that the remote ranges of the forward map are sorted and disjoint. The parser does not check that a skipped range comes after the one before it, and since such a range has no local lines (its `local_end` is -1), it accepts local ranges that go down after it (src/lib/maps/parser.c:663). For ranges that are not sorted a lookup gives a range around the line or nothing (`PathMaps.FindsAllIff`).
- The decoder of Base64 is modelled in strict mode only, which is how the debugger calls it, with its output starting at the beginning of the buffer.
- `xdebug_vector_clone`, clearing a bit set, log writing, file opening, control-socket commands other than their effect on the debugger's stack, INI handling, the installer and the compatibility stubs.

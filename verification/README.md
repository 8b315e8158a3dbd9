# A verified model of the ESP32OS core

The files in this directory model eight hand-written state machines, string machines and pieces of
arithmetic of the ESP32OS firmware and prove what they promise. One module stands for one component:

- `History.dfy`, `LineEditor.dfy`, `Tokenizer.dfy`: the shell's history ring, its byte-driven line
  editor and its in-place argument parser, against the last 20 lines of a sequence, a zipper and a
  token list. `Keyboard.dfy` tells what the keys do in bytes and entered lines alone.
- `CommandLines.dfy`, `Replay.dfy`, `Execution.dfy`: executing a line, from the variables that were set
  to the arguments of the handler, and `run`, `at` and `every`, which print their arguments into a line
  that is executed later.
- `Environment.dfy`, `Expansion.dfy`: the variable table against a map, its stored form, and the
  bounded expansion loop against an unbounded recursive expansion.
- `Scheduler.dfy`: jobs, timers, the queue of slot pointers and the worker, as interleaved steps with
  a ledger of what was fired, executed and dropped. `Requests.dfy` holds every run against the requests
  that were made in it.
- `Mqtt.dfy`: the subscription table and the broker's session, with every call cut at the points where
  it holds no lock. `MqttCalls.dfy` holds every run against the subscriptions that were asked for.
- `Checksum.dfy`, `PingStats.dfy`: the internet checksum of RFC 1071 and the running ping statistics.
- `Duty.dfy`, `Pwm.dfy`, `PwmCalls.dfy`: the duty arithmetic, the timer allocator with its eight
  channels, and what each call does to the output in plain numbers.
- `Paths.dfy`: path resolution and the working directory.
- `CStrings.dfy`, `CIntegers.dfy`: C strings in buffers and the unsigned integers of the firmware.

Code that changes state is a class or a method over arrays and fields. Each method is tied to a pure
function of the old state, and the theorems are about those functions: single calls, whole runs and
all interleavings. The services below a component (flash, timers, the MQTT library, the LEDC
peripheral, GPIO checks, `stat`, the console) appear as parameters that say how they answered.

`dafny verify dfyconfig.toml` checks the project.

## Where the code does not do what one would expect

Each of these is kept as the code has it, and the members named say exactly when it happens.

- The first Up recalls the oldest retained line, not the newest (`FirstUpIsNewestIff`). Up and Down
  both move towards the newest line (`UpWalksFromOldest`, `DownWalksToNewest`, `UpIsDown`).
- Home, End and Delete, where they are sent as `ESC [ 1 ~`, `ESC [ 4 ~` and `ESC [ 3 ~`, also type
  a tilde, wherever there is room for it (`HomeEndMoveIff`, `DeleteKeyDeletesIff`).
- On a socket the first 100 ms without a byte end the call, and with it the session, as if the peer
  had gone (`FirstPauseCloses`, `SocketLineIff`).
- Names longer than a slot are compared uncut and stored cut, so two entries can share a name
  and a stored variable is not found again (`SetKeepsDistinctIff`, `SetThenGetIff`,
  `ScheduleKeepsNamesIff`, `LongNamesCollide` in both modules).
- An unclosed `${` near the end of a text makes the expansion step past its terminator (`Expand`,
  `DanglesIff`). In the shell the padding of the line buffer stops it, except for a line that fills
  its buffer (`ShellExecute`).
- `run`, `at` and `every` drop the quotes of their arguments, and `#`, `--help` and the limit of 15
  arguments can change what is executed later (`ReplayIff`).
- A job cancelled while its pointer is queued or held breaks the accounts (`CancelKeepsAccountsIff`)
  and, unless a new job gets the slot before the pointer drains, leaves the slot marked completed,
  without a job, until a cancel of the empty name (`CancelStrandsIff`, `LeavesStrandedIff`,
  `StrandingHappens`). A new job in the slot can have its command run before its time and twice
  (`StalePointerRunsNextJob`). A fire whose job is gone when it is read is lost (`LostIff`).
- A failed start of the MQTT client leaves the module connecting, and `os_mqtt_connect` reporting
  success without doing anything, until the module is deinitialised (`StuckIff`,
  `FailedStartHappens`, `ReinitRecovers`).
- A message that the MQTT library refuses leaves table and broker apart on its topic, unless the
  broker had it that way already, until a connected event, or a message on that topic that is
  accepted or asks for what the broker has (`AgreementIff`, `RefusedSendIff`,
  `RefusedSubscribeHappens`, `RefusalsCancelOut`).
- The running mean of `os_ping` is taken in 32 bits and drops once a numerator is cut
  (`ExactIffNothingWraps`, `LongPingWraps`).
- The recorded PWM percentage can fall to zero at full duty (`TrackedExactIff`,
  `TrackedCanBeZeroAtFullDuty`). The header of `os_pwm` says that initialising a channel in use returns
  an invalid state and that a percentage over 100 is an invalid argument; the code restarts the channel
  and clamps the percentage, and the model follows the code.
- A working directory longer than its buffer is cut (`ChdirThenNameIff`, `LongPathIsCut`), `cd /`
  followed by a name that begins with `spiffs` is not `cd /spiffs...` (`JoinedIff`,
  `RootHidesMountName`), and `ls` without arguments lists another directory when the working
  directory's path begins with the mount point's name (`ReportedCwdIff`, `ReportedCwdMisleads`).

## Premises

- MQTT: one API caller at a time; the link changes and its event is delivered in one step; a call
  into the client library may be refused at any time and reaches the broker only while the link is up
  (only `TableMatchesBroker` and `BrokerHasWhatIsWanted` assume that none is refused then); the messages
  of the connected event itself get through; `os_mqtt_connect` is called only when there is no client;
  every link starts a clean session (section 3.1.2.4 of MQTT 3.1.1).
- Scheduler: a stopped timer does not fire any more, a one-shot timer fires at most once, and the
  callback, the worker's copy of the command and its locked update are each atomic.
- Environment: the flash returns the last committed blob; in the runs every commit succeeds.
- Line editor: the caller's buffer holds `buf_sz` characters and `buf_sz` is at most 256, the size of
  the editor's own buffer, as at all call sites.

## Model

| member | source | states |
|---|---|---|
| `ShellHistory.History.AddLine` | components/os_shell/src/os_shell.c:45-61 | an empty line and a repetition of the newest line leave the retained lines alone (the repetition resets navigation); any other line, cut to 255 characters, becomes the newest, and the oldest goes when there are more than 20 |
| `ShellHistory.History.PrevLine` | components/os_shell/src/os_shell.c:63-70 | Up moves towards the newest line and recalls retained entry count-1-nav, wrap-around of the ring included; nothing on an empty history |
| `ShellHistory.History.NextLine` | components/os_shell/src/os_shell.c:72-79 | Down moves towards nav 0 and recalls retained entry count-1-nav; from nav 0 it leaves the history with the empty line |
| `ShellHistory.AddOutcome` | components/os_shell/src/os_shell.c:45-61 | an empty line changes nothing, a repetition of the newest only ends the navigation, and any other line becomes the newest of at most 20, up to 255 characters of it |
| `ShellHistory.PushStores` | components/os_shell/src/os_shell.c:56-59 | writing at head and advancing it modulo 20 stores the last 20 lines in ring order |
| `ShellHistory.RingHoldsLastLines` | components/os_shell/src/os_shell.c:45-79 | after any mix of add, prev and next the ring holds exactly the last 20 remembered additions and -1 <= nav < count |
| `ShellHistory.CollapseMeaning` | components/os_shell/src/os_shell.c:47-55 | what is remembered: exactly the non-empty additions, no line twice in a row, and every line when none is empty or repeated |
| `ShellHistory.CollapseKeepsOrder` | components/os_shell/src/os_shell.c:47-55 | the remembered lines keep their order: they split the additions into consecutive blocks of one line, its repetitions and empty lines |
| `ShellHistory.UpWalksFromOldest` | components/os_shell/src/os_shell.c:63-70 | k presses of Up show the k-th oldest retained line and then stay on the newest |
| `ShellHistory.FirstUpIsNewestIff` | components/os_shell/src/os_shell.c:66-68 | the first Up shows the line entered last if and only if the oldest retained line equals it |
| `ShellHistory.FirstUpShowsOldest` | components/os_shell/src/os_shell.c:66-68 | a concrete history on which the first Up does not show the line entered last |
| `ShellHistory.DownWalksToNewest` | components/os_shell/src/os_shell.c:72-79 | from nav j, presses of Down show the j newer lines, older ones first, then once the empty line, and then nothing |
| `ShellHistory.UpIsDown` | components/os_shell/src/os_shell.c:63-79 | while newer lines are left, Up and Down recall the same line and leave the same state |
| `LineEditor.EditBuffer.Put` | components/os_shell/src/os_shell.c:322-339 | a printable byte is inserted at the cursor, or dropped when buf_sz-1 characters are there |
| `LineEditor.EditBuffer.RemoveAt` | components/os_shell/src/os_shell.c:270-273 | one character is taken out of the buffer, the text behind it moves down, and a NUL follows |
| `LineEditor.EditBuffer.Rubout` | components/os_shell/src/os_shell.c:267-281 | backspace removes the character before the cursor and nothing else |
| `LineEditor.EditBuffer.Delete` | components/os_shell/src/os_shell.c:239-247 | the character at the cursor is removed and the cursor stays |
| `LineEditor.EditBuffer.MoveLeft` | components/os_shell/src/os_shell.c:219-224 | the cursor moves over one character, the text stays |
| `LineEditor.EditBuffer.MoveRight` | components/os_shell/src/os_shell.c:213-218 | the cursor moves over one character, the text stays |
| `LineEditor.EditBuffer.MoveHome` | components/os_shell/src/os_shell.c:225-231 | the cursor moves to the start, the text stays |
| `LineEditor.EditBuffer.MoveEnd` | components/os_shell/src/os_shell.c:232-238 | the cursor moves to the end, the text stays |
| `LineEditor.EditBuffer.Cancel` | components/os_shell/src/os_shell.c:283-288 | the line is empty afterwards although stale bytes remain behind its length |
| `LineEditor.EditBuffer.KillLine` | components/os_shell/src/os_shell.c:299-305 | the line is empty afterwards |
| `LineEditor.EditBuffer.Load` | components/os_shell/src/os_shell.c:190-212 | a recalled line, cut to buf_sz-1 characters, replaces the edited one in spite of stale bytes; the cursor goes to its end |
| `LineEditor.EditBuffer.CopyOut` | components/os_shell/src/os_shell.c:258-265 | the caller's buffer gets exactly left + right of the cursor, with its NUL; the edited text is NUL-free and its strlen is len |
| `LineEditor.OnBracket` | components/os_shell/src/os_shell.c:187-250 | the third byte of an escape sequence acts on buffer, cursor and history as on the zipper, and ends the sequence |
| `LineEditor.OnEnter` | components/os_shell/src/os_shell.c:258-265 | Enter returns the edited line and its length and adds it to the history |
| `LineEditor.OnEdit` | components/os_shell/src/os_shell.c:253-341 | every other byte outside a sequence edits as on the zipper, whatever the history |
| `LineEditor.OnKey` | components/os_shell/src/os_shell.c:252-341 | a byte outside a sequence: ESC, Enter, end of file on an empty line, or an edit |
| `LineEditor.OnByte` | components/os_shell/src/os_shell.c:183-341 | the escape state machine: which of the three states a byte is interpreted in and which one it leaves |
| `LineEditor.OnPoll` | components/os_shell/src/os_shell.c:176-181 | a timeout or error is waited out, except that 0 on a socket ends the call with -1 |
| `LineEditor.ReadInto` | components/os_shell/src/os_shell.c:175-342 | for every stream of polls the loop ends in exactly the outcome, line, cursor, escape state and history of the zipper editor |
| `LineEditor.ReadLine` | components/os_shell/src/os_shell.c:165-343 | the whole call from an empty line: returned length, caller's buffer and history are those of the zipper editor, and on -1 the caller's buffer is untouched |
| `LineEditor.ReadIsSound` | components/os_shell/src/os_shell.c:165-343 | whatever bytes arrive, a returned line is printable, NUL-free and at most buf_sz-1 long, and the history stays valid and printable |
| `LineEditor.ReadInParts` | components/os_shell/src/os_shell.c:175-342 | reading a stream in two parts is reading it at once |
| `LineEditor.TypingInserts` | components/os_shell/src/os_shell.c:321-340 | typing a text inserts it at the cursor in order, until the buffer is full |
| `LineEditor.EnterReturnsTyped` | components/os_shell/src/os_shell.c:258-265 | round trip: every printable line that fits can be typed, and Enter returns exactly it |
| `LineEditor.BackspacesUndoTyping` | components/os_shell/src/os_shell.c:267-281 | as many backspaces as characters typed restore the line, at any cursor position |
| `LineEditor.CursorMovesKeepText` | components/os_shell/src/os_shell.c:213-247 | cursor moves never change the text, left and right are inverses, and left then delete is backspace |
| `LineEditor.UpKeyRecalls` | components/os_shell/src/os_shell.c:184-201 | the three bytes of the Up key recall the previous line into the buffer and leave the escape state |
| `LineEditor.UpKeysWalkHistory` | components/os_shell/src/os_shell.c:184-201 | the byte stream of k Up keys shows the k-th oldest retained line |
| `LineEditor.PausesDoNotMatter` | components/os_shell/src/os_shell.c:176-181 | on the serial line polls that time out or fail change nothing: only the bytes count |
| `LineEditor.FirstPauseCloses` | components/os_shell/src/os_shell.c:128-181 | on a socket the call does what it does on the serial line up to the first poll that yields nothing, which ends it with -1 |
| `LineEditor.SocketLineIff` | components/os_shell/src/os_shell.c:128-181 | on a socket a line is returned if and only if the bytes before the first such poll make the serial line return it |
| `LineEditor.TildeKeyEffect` | components/os_shell/src/os_shell.c:184-250 | every key that sends ESC [ c ~ acts at its third byte and then types a tilde, if there is room |
| `LineEditor.HomeEndMoveIff` | components/os_shell/src/os_shell.c:225-238 | sent in that form, Home and End do no more than move the cursor if and only if the line is full |
| `LineEditor.DeleteKeyEffect` | components/os_shell/src/os_shell.c:239-247 | the four bytes of the Delete key delete at the cursor, if anything is there, and then type a tilde, if there is room |
| `LineEditor.DeleteKeyDeletesIff` | components/os_shell/src/os_shell.c:239-247 | the Delete key does no more than delete if and only if the cursor is at the end of a full line |
| `LineEditor.DeleteKeyLeavesTilde` | components/os_shell/src/os_shell.c:239-247 | with a character at the cursor the key replaces it by a tilde |
| `Keyboard.ArrowsPlaceText` | components/os_shell/src/os_shell.c:213-224 | byte streams: after typing a + b, pressing ESC [ D as often as b is long and ESC [ C j times, and typing t, Enter returns a, the first j characters of b, t and the rest of b |
| `Keyboard.LeftPlacesText` | components/os_shell/src/os_shell.c:219-224 | byte streams: after typing a + b, as many presses of ESC [ D as b is long and t, Enter returns a + t + b |
| `Keyboard.HomeAndEndPlaceText` | components/os_shell/src/os_shell.c:225-238 | byte streams: any of ESC [ H, ESC [ 1 and Ctrl+A puts what is typed next in front of the line; any of ESC [ F, ESC [ 4 and Ctrl+E after it puts it behind |
| `Keyboard.KillStartsOver` | components/os_shell/src/os_shell.c:283-305 | byte streams: Ctrl+C and Ctrl+U, wherever the cursor is, leave only what is typed after them |
| `Keyboard.RuboutsRetype` | components/os_shell/src/os_shell.c:267-281 | byte streams: codes 8 and 127 take back what was typed last, one character each, and Enter returns what is typed instead behind the rest |
| `Keyboard.EofOnlyWhenEmpty` | components/os_shell/src/os_shell.c:290-292 | byte streams: Ctrl+D ends the call with -1 on an empty line and does nothing on any other; codes 13 and 10 both enter the line |
| `Keyboard.OtherByte` | components/os_shell/src/os_shell.c:294-340 | every other byte that is not printable is ignored |
| `Keyboard.StrayEscape` | components/os_shell/src/os_shell.c:184-250 | ESC before any byte but [ is as good as nothing, and ESC [ swallows every byte but nine |
| `Keyboard.DeleteAtCursor` | components/os_shell/src/os_shell.c:239-247 | ESC [ 3 takes out the character behind the cursor, and nothing at the end of the line |
| `Keyboard.RecallKeys` | components/os_shell/src/os_shell.c:190-212 | ESC [ A and ESC [ B replace the line by the one recalled, cut to the buffer, cursor at its end, and leave it when there is none |
| `Tokenizer.SkipSpaces` | components/os_shell/src/os_shell.c:395 | stops at the first character that is no white space, or at the NUL |
| `Tokenizer.ScanWord` | components/os_shell/src/os_shell.c:402-406 | stops at the end of the word: white space, or the closing quote of a quoted one, or the NUL |
| `Tokenizer.CutWord` | components/os_shell/src/os_shell.c:398-408 | one token is cut off by a single NUL behind it, every other character of the line is unchanged |
| `Tokenizer.ChainWords` | components/os_shell/src/os_shell.c:393-409 | the tokens cut so far are a beginning of the token list and the rest comes from where parsing stands |
| `Tokenizer.CutReadsBack` | components/os_shell/src/os_shell.c:398-408 | tokens that stand cut off in the buffer read back, as C strings, as the words of the line, in order and disjoint |
| `Tokenizer.TakeArg` | components/os_shell/src/os_shell.c:393-409 | one round of the loop keeps all earlier tokens in place, records the next one, and reports when only white space is left |
| `Tokenizer.CutArgs` | components/os_shell/src/os_shell.c:393-409 | the loop terminates with every token of the limit cut off, and overwrites delimiters only |
| `Tokenizer.ParseArgs` | components/os_shell/src/os_shell.c:388-412 | for every NUL-terminated line: argc <= max_argc-1, argv ends in NULL, and argv read as C strings after all NUL writes is the pure token list, quotes and unterminated quotes included; the tokens are disjoint and in order; only white space and quotes were overwritten, by NULs |
| `CommandLines.JoinedWordsParse` | components/os_shell/src/os_shell.c:388-412 | printing plain words with single spaces and parsing gives the words back, as far as the limit allows |
| `CommandLines.WordsInFront` | components/os_shell/src/os_shell.c:388-412 | words in front of a line become its first tokens and the line's own tokens follow unchanged |
| `CommandLines.LimitCuts` | components/os_shell/src/os_shell.c:393 | a smaller argument limit gives a prefix of the tokens of a larger one |
| `CommandLines.JoinedArgsParseIff` | components/os_shell/src/shell_commands.c:1100-1106 | printing the arguments of any line and parsing again gives them back if and only if each is non-empty, free of white space and does not begin with a quote |
| `CommandLines.JoinFits` | components/os_shell/src/shell_commands.c:1100-1106 | the printed arguments are never longer than the line they came from |
| `CommandLines.TrimAfter` | components/os_shell/src/os_shell.c:431-433 | trimming a line removes its trailing white space and nothing before it |
| `CommandLines.TrimmedAway` | components/os_shell/src/os_shell.c:431-433 | what trimming takes away is white space: the codes 32 and 9 to 13 (IsSpaceIs) |
| `CommandLines.TokensOfStart` | components/os_shell/src/os_shell.c:393-409 | the tokens of a line by how it starts: white space is skipped, a plain word, a closed quoted word and a quote that is never closed each give one token, and what follows gives the rest, up to the limit |
| `CommandLines.EveryLineStarts` | components/os_shell/src/os_shell.c:393-409 | every line is empty or starts in one of these four ways, so that these laws settle the tokens of every line |
| `Replay.TrimInPlace` | components/os_shell/src/os_shell.c:431-433 | trailing white space is overwritten by NULs, leaving the trimmed line as a C string |
| `Replay.Prepare` | components/os_shell/src/os_shell.c:423-433 | the line buffer holds the trimmed expansion, cut to 255 characters before and after expanding; the expansion reads behind the buffer if and only if the line has at least 255 characters, its first 255 dangle and their expansion is shorter than 255 |
| `Replay.ParseAndDecide` | components/os_shell/src/os_shell.c:435-448 | the parsed arguments decide between nothing, help and a dispatch |
| `Replay.ShellExecute` | components/os_shell/src/os_shell.c:416-458 | the whole path from a line to the dispatched argv refines its pure definition for every environment and every line of at most 254 characters, unclosed braces included; for longer lines it does unless the expansion reads behind the buffer, and exactly when that happens |
| `Replay.ExecuteLiteral` | components/os_shell/src/os_shell.c:421-450 | without a dollar sign the effect of a line does not depend on the environment |
| `Replay.AppendArg` | components/os_shell/src/shell_commands.c:1102-1105 | one strncat with its size computation, wrap included, appends the argument whole when the joined line fits |
| `Replay.JoinArgs` | components/os_shell/src/shell_commands.c:1100-1106 | the strncat loop builds the arguments joined by single spaces when they fit |
| `Replay.HandOver` | components/os_shell/src/shell_commands.c:1093-1118 | for arguments parsed from a line of at most 255 characters nothing is ever cut: the background task or job gets the exact joined arguments |
| `Replay.RelayedArgs` | components/os_shell/src/shell_commands.c:1127-1134 | the arguments a relaying line passes on are those of X, as far as the limit of 15 allows |
| `Replay.ReplayEffectIff` | components/os_shell/src/shell_commands.c:1120-1145 | on effects alone: relaying X ends in the effect of X if and only if X is replayable |
| `Replay.ReplayIff` | components/os_shell/src/shell_commands.c:1093-1172 | for every X without a dollar sign, any quoting included: run X, at n X and every n X later lead to exactly what X leads to if and only if X is blank, a comment, or has a plain command name not hidden by # or --help and, unless it asks for help, plain arguments that stay within the limit of 15 |
| `Replay.QuotedArgumentIsLost` | components/os_shell/src/shell_commands.c:1128-1134 | an empty argument or one with white space, which needs quotes, never survives a replay |
| `Execution.PlainLineDispatches` | components/os_shell/src/os_shell.c:416-457 | a line of plain words without a dollar sign calls the handler with the first 15 of them, for every environment |
| `Execution.HelpIsShown` | components/os_shell/src/os_shell.c:439-448 | with --help in second place the help text of the first word is shown instead |
| `Execution.TemplateExecutes` | components/os_shell/src/os_shell.c:423-457 | the expansion comes first: a line written as text, $NAME and ${NAME} leads to what the values put in its place lead to, cut to 255 characters, trimmed and split |
| `Execution.SetThenUsed` | components/os_shell/src/os_shell.c:427-457 | from the store to the handler: after a variable is set to words, a command with $NAME or ${NAME} behind it is called with these words, each an argument of its own |
| `Execution.UnsetLeavesNothing` | components/os_shell/src/os_shell.c:427-457 | with a name that is not set behind it the command is called alone |
| `Execution.WordsAreHandedOver` | components/os_shell/src/shell_commands.c:1093-1172 | the words behind run, or behind at or every and a delay, are handed over as a line of these words |
| `Execution.RunsOverIff` | components/os_shell/src/os_shell.c:423-427 | the expansion reads behind the line buffer if and only if what is kept of the line fills it, ends in an open brace, and means less than 255 characters |
| `Environment.Store.FindSlot` | components/os_env/src/os_env.c:59-67 | the first used slot whose name is equal |
| `Environment.Store.FindFreeSlot` | components/os_env/src/os_env.c:69-77 | the first unused slot |
| `Environment.Store.SaveAll` | components/os_env/src/os_env.c:79-89 | the committed blob is the used entries in slot order, then zeroes; a failed write keeps the old blob |
| `Environment.Store.Init` | components/os_env/src/os_env.c:91-132 | the table is loaded from the committed blob, or empty without one; a second init changes nothing |
| `Environment.Store.SetVar` | components/os_env/src/os_env.c:147-171 | the result, the new table and the new blob of a set, for every name and value, errors leaving both unchanged |
| `Environment.Store.Get` | components/os_env/src/os_env.c:173-190 | the buffer holds the looked-up value, cut to its size, with a NUL; on an error it is untouched |
| `Environment.Store.UnsetVar` | components/os_env/src/os_env.c:192-209 | the result, the new table and the new blob of an unset |
| `Environment.Store.Clear` | components/os_env/src/os_env.c:211-222 | the table and the committed blob are empty afterwards |
| `Environment.SetThenLookup` | components/os_env/src/os_env.c:147-190 | for a name of at most 15 characters, get after set returns the value cut to 127 characters, and every other name answers as before |
| `Environment.SetThenGetIff` | components/os_env/src/os_env.c:147-190 | get after set returns the cut value if and only if the name has at most 15 characters |
| `Environment.UnsetThenLookup` | components/os_env/src/os_env.c:192-209 | after unset the name is absent and every other name answers as before |
| `Environment.SetKeepsDistinctIff` | components/os_env/src/os_env.c:154-164 | names stay distinct after a set if and only if the name has at most 15 characters or its first 15 are no name present |
| `Environment.LongNamesCollide` | components/os_env/src/os_env.c:154-164 | a concrete name of 16 characters that two sets store twice |
| `Environment.LookupCompact` | components/os_env/src/os_env.c:79-89 | compaction answers every lookup as the full table does |
| `Environment.LoadIsCompact` | components/os_env/src/os_env.c:91-105 | loading a saved blob gives the used entries compacted in their original slot order |
| `Environment.PersistenceKeepsLookups` | components/os_env/src/os_env.c:79-105 | every name answers the same after a restart as before |
| `Environment.SetFailsIff` | components/os_env/src/os_env.c:154-161 | a set finds no slot if and only if the name is new and 16 variables are present |
| `Environment.SetHolds` | components/os_env/src/os_env.c:147-171 | a set on the table is a set on the map it stands for |
| `Environment.UnsetHolds` | components/os_env/src/os_env.c:192-209 | an unset on the table is a removal from the map it stands for |
| `Environment.RestartHolds` | components/os_env/src/os_env.c:79-105 | the reloaded table stands for the same map, with distinct names and the same count |
| `Environment.TableRefinesMap` | components/os_env/src/os_env.c:79-222 | over any run of set, unset, clear and restart with names of at most 15 characters, the table and the committed blob both stand for a map of at most 16 entries |
| `EnvExpansion.ScanBrace` | components/os_env/src/os_env.c:264-266 | the braced scan stops at the closing brace, the end, or after 15 characters |
| `EnvExpansion.ScanName` | components/os_env/src/os_env.c:271-277 | the bare scan stops at the first other character, the end, or after 15 characters |
| `EnvExpansion.Emit` | components/os_env/src/os_env.c:289-291 | a value is appended as far as it fits, with room for the NUL |
| `EnvExpansion.Fetch` | components/os_env/src/os_env.c:287-288 | the value a name answers with, empty for an unset name or before init |
| `EnvExpansion.OneRound` | components/os_env/src/os_env.c:253-292 | one round consumes one piece of the input and appends its contribution as far as it fits |
| `EnvExpansion.Expand` | components/os_env/src/os_env.c:244-297 | the output is the longest prefix of the unbounded expansion that fits, with its NUL in bounds; the scan goes astray behind the input if and only if the input dangles, its expansion leaves room in the buffer, and no second NUL stands behind the first |
| `EnvExpansion.DanglesIff` | components/os_env/src/os_env.c:262-269 | the scan can pass the terminator if and only if the braces overrun: the first unclosed brace has at most 15 characters behind it, or, past the 16 a longer one uses up, a later one does |
| `EnvExpansion.RoundPassesNone` | components/os_env/src/os_env.c:262-283 | no round skips an unclosed brace unless it starts at one |
| `EnvExpansion.SameAnswersSameExpansion` | components/os_env/src/os_env.c:288-291 | an expansion depends on the environment only through its lookups |
| `EnvExpansion.RestartKeepsExpansions` | components/os_env/src/os_env.c:79-105 | every expansion answers the same after a restart as before |
| `EnvExpansion.TemplateExpands` | components/os_env/src/os_env.c:253-293 | a line written as text, bare names, braced names, lone dollar signs and unclosed braces expands to the text with each name replaced by its value, values not expanded again, a lone dollar sign kept and an unclosed brace lost; it dangles if and only if it ends in a brace left open |
| `EnvExpansion.EveryLineIsATemplate` | components/os_env/src/os_env.c:253-293 | every line can be written so, and its expansion is what these pieces mean |
| `EnvExpansion.AnswerIs` | components/os_env/src/os_env.c:287-292 | a name stands for the value that is stored for it, and an unset one for nothing |
| `EnvExpansion.NoDollarNoChange` | components/os_env/src/os_env.c:254-257 | a line without a dollar sign expands to itself |
| `EnvExpansion.UnclosedBraces` | components/os_env/src/os_env.c:264-269 | a short unclosed brace at the end dangles; a longer one loses 16 characters and the line goes on as text |
| `Scheduler.Table.FindJob` | components/os_scheduler/src/os_scheduler.c:76-89 | the first occupied slot whose name is equal |
| `Scheduler.Table.FindFreeSlot` | components/os_scheduler/src/os_scheduler.c:66-74 | the first slot that is neither running nor completed and has no timer |
| `Scheduler.Table.ScheduleJob` | components/os_scheduler/src/os_scheduler.c:230-277 | the result and the new slots, timers and queue for every request and every failure of the timer service |
| `Scheduler.Table.CancelJob` | components/os_scheduler/src/os_scheduler.c:279-299 | the named job's timer and slot are gone, the queue and the worker's pointer are not touched |
| `Scheduler.Table.TimerCallback` | components/os_scheduler/src/os_scheduler.c:108-117 | the fire is counted, wrapping at 32 bits, and the slot queued unless eight pointers are queued |
| `Scheduler.Table.WorkerTake` | components/os_scheduler/src/os_scheduler.c:96 | the worker receives the oldest queued pointer |
| `Scheduler.Table.WorkerRead` | components/os_scheduler/src/os_scheduler.c:97 | the command that runs is the one the slot holds when it is read, later and without the lock |
| `Scheduler.Table.WorkerFinish` | components/os_scheduler/src/os_scheduler.c:98-103 | a job that does not repeat is completed and not running any more |
| `Scheduler.StepIsSafe` | components/os_scheduler/src/os_scheduler.c:66-299 | every step keeps: running and completed never both, repeat implies running, a slot with a timer is exactly one of them and shares its timer with no other slot |
| `Scheduler.ScheduleKeepsNamesIff` | components/os_scheduler/src/os_scheduler.c:237-249 | names of scheduled jobs stay distinct if and only if the new one has at most 23 characters or its first 23 are not in use |
| `Scheduler.EveryRunIsSafe` | components/os_scheduler/src/os_scheduler.c:66-299 | after every interleaving, mid-flight cancels included: the slots are safe, names of at most 23 characters are distinct, and for each job fires = executed + queued + in flight + dropped + lost, where a fire is executed only if the job was still in its slot when its command was read |
| `Scheduler.LostIff` | components/os_scheduler/src/os_scheduler.c:91-106 | a fire is lost if and only if the worker comes to read the command of a job that has been cancelled |
| `Scheduler.PointersFaithfulIff` | components/os_scheduler/src/os_scheduler.c:91-117 | after every run: each pointer in flight denotes the job it was queued for if and only if none of these jobs has been cancelled |
| `Scheduler.StalePointerRunsNextJob` | components/os_scheduler/src/os_scheduler.c:91-106 | a run from the start on which a stale pointer runs the command of the job that got the slot, before that job has fired, so that it runs twice |
| `Scheduler.DisciplinedRunAccounted` | components/os_scheduler/src/os_scheduler.c:66-299 | without mid-flight cancels the slots agree with the accounts of their jobs throughout |
| `Scheduler.DisciplinedRunsConserveJobs` | components/os_scheduler/src/os_scheduler.c:66-299 | without mid-flight cancels no fire is lost, so fires = executed + queued + in flight + dropped; every queued pointer denotes the same still-scheduled job, a one-shot runs at most once and is completed exactly when it has run, and occupied slots = successful schedules - successful cancels <= 8 |
| `Scheduler.CancelKeepsAccountsIff` | components/os_scheduler/src/os_scheduler.c:279-299 | a cancel keeps the accounts in order if and only if the job's pointer is neither queued nor held by the worker |
| `Scheduler.GetsStrandedIff` | components/os_scheduler/src/os_scheduler.c:97-102 | in any safe state a step leaves a slot completed without name or timer if and only if the worker is done with a pointer to an emptied slot |
| `Scheduler.LeavesStrandedIff` | components/os_scheduler/src/os_scheduler.c:279-299 | such a slot stays so under every step but a cancel of the empty name that finds it, which frees it |
| `Scheduler.StaysStranded` | components/os_scheduler/src/os_scheduler.c:66-299 | it stays so over every run without a cancel of the empty name |
| `Scheduler.CancelStrandsIff` | components/os_scheduler/src/os_scheduler.c:279-299 | after a cancel and any run in which the slot is given to no new job and no empty name is cancelled, once its pointers have drained, the slot is stranded if and only if a pointer to it was queued or held when it was cancelled |
| `Scheduler.CancelledWhileRunning` | components/os_scheduler/src/os_scheduler.c:97-102 | in particular a job cancelled while it runs leaves its slot stranded and occupied, and a cancel of the empty name frees it |
| `Scheduler.LongNamesCollide` | components/os_scheduler/src/os_scheduler.c:237-249 | from the start, a name of 24 characters or more can be scheduled twice and both jobs get the same name |
| `Scheduler.StrandingHappens` | components/os_scheduler/src/os_scheduler.c:91-106 | a run from the start that strands a slot, and the cancel that frees it |
| `ScheduledRequests.ScheduleOutcome` | components/os_scheduler/src/os_scheduler.c:230-277 | which requests are accepted and which error every other one gets: empty name or command or a zero delay, name in use, no slot or no timer, a timer that does not start |
| `ScheduledRequests.TurnedDown` | components/os_scheduler/src/os_scheduler.c:230-277 | a request that is turned down leaves slots, timers and queue as they were |
| `ScheduledRequests.CancelOutcome` | components/os_scheduler/src/os_scheduler.c:279-299 | a cancel frees one job of the name and its timer and nothing else, and changes nothing if there is none |
| `ScheduledRequests.EveryJobIsItsRequest` | components/os_scheduler/src/os_scheduler.c:249-260 | after every interleaving each job in the table has the command (255 characters), name (23), output, delay and repeat mode of the request that got its timer, and the timer repeats as that request says |
| `ScheduledRequests.AskedInTheRun` | components/os_scheduler/src/os_scheduler.c:230-277 | the request kept for a timer is one of the run |
| `ScheduledRequests.WorkerRunsWhatWasAsked` | components/os_scheduler/src/os_scheduler.c:96-97 | after every interleaving: when the worker comes to read a job that is still scheduled, it reads the command and the output of the request that got that job's timer |
| `ScheduledRequests.QueueIsFifo` | components/os_scheduler/src/os_scheduler.c:96-116 | after every interleaving the worker has received, in order, what the fires have queued, at most eight pointers waiting; a fire that finds eight is dropped |
| `ScheduledRequests.ArmedIff` | components/os_scheduler/src/os_scheduler.c:256-260 | after every interleaving exactly the repeating timers and those that have not fired are armed |
| `Mqtt.Client.Start` | components/os_mqtt/src/os_mqtt.c:224-248 | a first init clears the table and the connection state, a failure or a second one changes nothing |
| `Mqtt.Client.BeginDeinit` | components/os_mqtt/src/os_mqtt.c:250-256 | deinit begins the disconnect, which does nothing without a client |
| `Mqtt.Client.FinishDeinit` | components/os_mqtt/src/os_mqtt.c:258-265 | the module is not initialised any more |
| `Mqtt.Client.StoreSubscription` | components/os_mqtt/src/os_mqtt.c:449-481 | the part of subscribe up to the unlock: initialised flag, length check, duplicate, full table, or the slot written |
| `Mqtt.Client.RemoveSubscription` | components/os_mqtt/src/os_mqtt.c:498-509 | the part of unsubscribe up to the unlock: initialised flag, and the slot of the topic, if any, becomes inactive |
| `Mqtt.Client.CheckConnected` | components/os_mqtt/src/os_mqtt.c:484 | whether the broker is told is decided by the state at a moment of its own |
| `Mqtt.Client.SendToBroker` | components/os_mqtt/src/os_mqtt.c:485-489 | the call into the client library changes the session exactly when it reaches the broker |
| `Mqtt.Client.OnConnected` | components/os_mqtt/src/os_mqtt.c:144-151 | on a clean session the resubscribe loop leaves exactly the active table, quality of service included |
| `Mqtt.Client.OnDisconnected` | components/os_mqtt/src/os_mqtt.c:153-160 | the link, if there was one, and the session are gone |
| `Mqtt.Client.BeginConnect` | components/os_mqtt/src/os_mqtt.c:295-311 | connect refuses before init and returns at once while connecting or connected |
| `Mqtt.Client.CreateClient` | components/os_mqtt/src/os_mqtt.c:363-365 | creating the client, with no lock held, either yields one or leads to the failure branch |
| `Mqtt.Client.SetFailed` | components/os_mqtt/src/os_mqtt.c:366-370 | without a client the state becomes failed and the call ends |
| `Mqtt.Client.StopClient` | components/os_mqtt/src/os_mqtt.c:408-410 | the client, its link and the session are gone while the table is still full |
| `Mqtt.Client.OnError` | components/os_mqtt/src/os_mqtt.c:194-199 | an error event marks the module failed and touches neither link nor table |
| `Mqtt.Client.StartClient` | components/os_mqtt/src/os_mqtt.c:373-395 | a client that cannot be started is destroyed and the state is left connecting |
| `Mqtt.Client.BeginDisconnect` | components/os_mqtt/src/os_mqtt.c:400-406 | disconnect refuses without a client and otherwise announces itself |
| `Mqtt.Client.ClearAll` | components/os_mqtt/src/os_mqtt.c:412-415 | the state is disconnected and the table empty |
| `Mqtt.TableAdd` | components/os_mqtt/src/os_mqtt.c:475-479 | using a free slot for a new topic adds exactly that topic to the table |
| `Mqtt.TableRemove` | components/os_mqtt/src/os_mqtt.c:504-507 | clearing the slot of a topic removes exactly it |
| `Mqtt.StepKeepsInv` | components/os_mqtt/src/os_mqtt.c:116-520 | every step of the caller and of the event task keeps: while connected, table and session disagree exactly on the topics left apart, but for that of the call in flight |
| `Mqtt.RunKeepsInv` | components/os_mqtt/src/os_mqtt.c:116-520 | the same after every legal interleaving |
| `Mqtt.AgreementIff` | components/os_mqtt/src/os_mqtt.c:116-520 | after every interleaving, refusals of the client library included: while CONNECTED and with no call in flight, table and broker's session agree on a topic, quality of service included, if and only if the messages since the last connected event have not left it apart |
| `Mqtt.TableMatchesBroker` | components/os_mqtt/src/os_mqtt.c:116-520 | with a library that refuses nothing while the link is up: after every interleaving, while CONNECTED and with no call in flight, the broker's session is exactly the active table |
| `Mqtt.SendHasClient` | components/os_mqtt/src/os_mqtt.c:484-515 | a call that found the module connected has its started client when it reaches the library, whatever events come in between; while the module is connected it has the link as well |
| `Mqtt.RefusedSendIff` | components/os_mqtt/src/os_mqtt.c:485-515 | a refused message leaves its topic apart if and only if the session was not already as the message would have made it, for subscribe and unsubscribe |
| `Mqtt.RefusalsCancelOut` | components/os_mqtt/src/os_mqtt.c:447-520 | a run from the start on which a refused unsubscribe undoes a refused subscribe, with no connected event in between |
| `Mqtt.RefusedSubscribeHappens` | components/os_mqtt/src/os_mqtt.c:447-494 | a run from the start on which a refused subscribe leaves a topic in the table that the broker never hears of |
| `Mqtt.ReconnectRepairs` | components/os_mqtt/src/os_mqtt.c:144-151 | over whole runs: whatever was refused before a connected event, from then on until the next refusal the session is the table whenever the module is CONNECTED and idle |
| `Mqtt.GetsStuckIff` | components/os_mqtt/src/os_mqtt.c:373-395 | a step leads into connecting without a client if and only if it is a start that fails |
| `Mqtt.LeavesStuckIff` | components/os_mqtt/src/os_mqtt.c:250-264 | a step leads out of it if and only if it is a deinit |
| `Mqtt.StuckIff` | components/os_mqtt/src/os_mqtt.c:293-396 | after every interleaving: the module is connecting without a client, where connect reports success and does nothing, if and only if of all starts and deinits the last is a start that failed |
| `Mqtt.ReinitRecovers` | components/os_mqtt/src/os_mqtt.c:224-265 | deinit and init lead out: connect then goes on to create a client |
| `Mqtt.FailedStartHappens` | components/os_mqtt/src/os_mqtt.c:383-390 | a run that reaches that state |
| `MqttCalls.SubscribeResultIff` | components/os_mqtt/src/os_mqtt.c:449-473 | what subscribe returns before it looks at the connection: not initialised or 128 characters, already there, full, or stored |
| `MqttCalls.TableIsWanted` | components/os_mqtt/src/os_mqtt.c:224-520 | after every interleaving the table holds exactly the topics asked for and not given up, at most eight, with the first quality of service asked for, any number over 2 counting as 0 |
| `MqttCalls.BrokerHasWhatIsWanted` | components/os_mqtt/src/os_mqtt.c:116-520 | with a library that refuses nothing while the link is up: while CONNECTED and idle the broker's session holds exactly these topics, with exactly the quality of service asked for |
| `MqttCalls.TopicAsWantedIff` | components/os_mqtt/src/os_mqtt.c:116-520 | refusals included: on a topic the session is as wanted if and only if the messages of the run have not left it apart |
| `MqttCalls.ConnectedIff` | components/os_mqtt/src/os_mqtt.c:144-199 | after every interleaving the state is CONNECTED if and only if a connected event came and since then no disconnected or error event, no disconnect and no deinit |
| `MqttCalls.ReadyAndClientIff` | components/os_mqtt/src/os_mqtt.c:224-415 | the module is initialised, and a client exists, if and only if the inits, creations, starts and stops of the run say so |
| `Checksum.SumWords` | components/os_networking/src/os_networking.c:303-306 | the loop computes the sum of the host-order words, an odd last octet padded, modulo 2^32 |
| `Checksum.FoldAndComplement` | components/os_networking/src/os_networking.c:307-309 | the complement of the result is the one 16-bit one's complement representative of the sum, for every 32-bit sum |
| `Checksum.PingChecksum` | components/os_networking/src/os_networking.c:301-310 | for every buffer of up to 131074 octets the result is the complement of the one's complement sum taken word by word |
| `Checksum.SumFits` | components/os_networking/src/os_networking.c:305 | for every buffer of up to 131074 octets the 32-bit sum never overflows |
| `Checksum.LongerBuffersOverflow` | components/os_networking/src/os_networking.c:305 | the bound is exact: every longer buffer of all ones overflows |
| `Checksum.FoldedIsOnesSum` | components/os_networking/src/os_networking.c:307-308 | two folds suffice, for every sum that fits in 32 bits |
| `Checksum.SwapAdds` | components/os_networking/src/os_networking.c:301-310 | swapping octets commutes with one's complement addition |
| `Checksum.SameOctetsOnTheWire` | components/os_networking/src/os_networking.c:350 | summing in host order and storing in host order puts the same two octets on the wire as the big-endian definition |
| `Checksum.StampedChecksZero` | components/os_networking/src/os_networking.c:349-350 | with the checksum in its zeroed even-aligned field the whole buffer checks to zero |
| `Checksum.StampPacket` | components/os_networking/src/os_networking.c:349-350 | the two assignments to the checksum field leave a packet that checks to zero and differs nowhere else |
| `Checksum.RfcExample` | components/os_networking/src/os_networking.c:301-310 | the example of section 3 of RFC 1071 sums to ddf2 in network order and to f2dd in host order |
| `Checksum.OddIsPadded` | components/os_networking/src/os_networking.c:306 | a last single octet counts as if a zero stood behind it |
| `PingStats.Ping` | components/os_networking/src/os_networking.c:340-378 | the result for every list of attempts, lost ones included: sent and received are their numbers, max is the largest time, min the smallest (or zero without a reply, or if every time is 0xFFFFFFFF), and with no 32-bit wrap min <= avg <= max and 0 <= 2 (sum - n avg) <= n (n-1) |
| `PingStats.MeanUpdate` | components/os_networking/src/os_networking.c:366-371 | one reply keeps the mean between the extremes and its shortfall under the bound |
| `PingStats.MeanIsBounded` | components/os_networking/src/os_networking.c:340-372 | with no 32-bit wrap: received <= sent, min and max are the smallest and largest time, min <= avg <= max, and 0 <= 2 (sum - n avg) <= n (n-1) after n replies |
| `PingStats.SmallTimesDoNotWrap` | components/os_networking/src/os_networking.c:370-371 | attempts times the largest time below 2^32 rules every wrap out |
| `PingStats.SmallSumDoesNotWrap` | components/os_networking/src/os_networking.c:370-371 | if the times add up to less than 2^32 no numerator is ever cut |
| `PingStats.ExactIffNothingWraps` | components/os_networking/src/os_networking.c:340-372 | for every number of attempts an int holds: the 32-bit statistics equal those of unbounded integers after every attempt if and only if no numerator is cut |
| `PingStats.MeanUpdateIff` | components/os_networking/src/os_networking.c:370-371 | up to 92682 replies, one reply keeps the mean in its bounds if and only if its numerator is not cut |
| `PingStats.MeanOkIffNothingWraps` | components/os_networking/src/os_networking.c:340-372 | up to 92682 attempts, the mean keeps its bounds after every attempt if and only if no numerator is cut |
| `PingStats.LongPingWraps` | components/os_networking/src/os_networking.c:330-372 | 4299267 replies of 999 milliseconds, under the receive timeout, take the mean to zero |
| `Duty.ProductsFit` | components/os_pwm/src/os_pwm.c:139 | no 64-bit product overflows for any 32-bit pulse and any valid frequency |
| `Duty.RegisterIsQuotient` | components/os_pwm/src/os_pwm.c:129-140 | below one period the register value is the exact floor of pulse times 8191 over the period, and the division is by a non-zero period |
| `Duty.RegisterBoundedAndMonotone` | components/os_pwm/src/os_pwm.c:129-140 | the register value is at most 8191 and a longer pulse never lowers it, at every frequency up to 40 MHz, where the period floors to zero |
| `Duty.TrackedNeverOverstates` | components/os_pwm/src/os_pwm.c:392-402 | the recorded percentage converted back is at most the register value, even when the 32-bit cast wraps |
| `Duty.TrackedExactIff` | components/os_pwm/src/os_pwm.c:398-402 | apart from the cap the record is exact if and only if the percentage fits 32 bits or what the cast leaves is still capped |
| `Duty.TrackedCanBeZeroAtFullDuty` | components/os_pwm/src/os_pwm.c:398-402 | a pulse that keeps the output fully on and is recorded as zero percent |
| `Pwm.Driver.AllocTimer` | components/os_pwm/src/os_pwm.c:77-87 | the lowest free timer is marked and counted once, or nothing changes |
| `Pwm.Driver.GiveTimer` | components/os_pwm/src/os_pwm.c:94-104 | the count goes down and the bit is cleared when it reaches zero |
| `Pwm.Driver.Start` | components/os_pwm/src/os_pwm.c:158-184 | a first init clears channels, counts and bitmap; a second one changes nothing |
| `Pwm.Driver.Stop` | components/os_pwm/src/os_pwm.c:186-214 | all channels are released in order and the driver is off |
| `Pwm.Driver.OpenChannel` | components/os_pwm/src/os_pwm.c:216-307 | the result and the new state on every path: invalid arguments, an active channel restarted, no timer, a failed timer or channel set-up, success |
| `Pwm.Driver.SetUp` | components/os_pwm/src/os_pwm.c:258-301 | both failures give the claimed timer back |
| `Pwm.Driver.CloseChannel` | components/os_pwm/src/os_pwm.c:309-338 | an active channel and its timer are released, an inactive one is left alone |
| `Pwm.Driver.WritePercent` | components/os_pwm/src/os_pwm.c:340-373 | the clamped percentage is recorded and its register value written, only if the peripheral accepts |
| `Pwm.Driver.WriteMicros` | components/os_pwm/src/os_pwm.c:375-409 | the register value and the recorded percentage of a pulse, at the channel's own frequency, with no division by zero |
| `Pwm.Driver.WriteFreq` | components/os_pwm/src/os_pwm.c:411-442 | the channel's own timer gets the frequency and the channel records it, only if the peripheral accepts |
| `Pwm.Driver.ActiveCount` | components/os_pwm/src/os_pwm.c:485-502 | the number of active channels, which is the number of counted timers and at most four |
| `Pwm.BitCountOwner` | components/os_pwm/src/os_pwm.c:60-64 | usage bit set, count one, and owned by an active channel are the same thing, and the owner is unique |
| `Pwm.StepKeepsInv` | components/os_pwm/src/os_pwm.c:158-442 | every call on every failure path keeps the invariant of bitmap, counts, channels, frequencies and duties |
| `Pwm.RunKeepsInv` | components/os_pwm/src/os_pwm.c:158-442 | the same after every run |
| `Pwm.StepIsolates` | components/os_pwm/src/os_pwm.c:216-442 | a call for another channel leaves a channel's record, duty and timer frequency alone |
| `Pwm.RunIsolates` | components/os_pwm/src/os_pwm.c:216-442 | over every run of calls for other channels a channel keeps its record, its duty and the frequency of its timer |
| `Pwm.EachChannelIsPrivate` | components/os_pwm/src/os_pwm.c:158-442 | under every call each channel behaves as one with a timer of its own, except that there is no room while four others are active; so its recorded frequency is the last one set successfully on its timer |
| `Pwm.EachRunIsPrivate` | components/os_pwm/src/os_pwm.c:158-442 | over every run of calls for all channels, failures included, each channel shows exactly what it would show with a timer of its own, given for each call whether fewer than four others are active |
| `Pwm.ActiveChannelsAreTimers` | components/os_pwm/src/os_pwm.c:77-104 | as many channels are active as timers are counted, never more than four |
| `Pwm.RoomIff` | components/os_pwm/src/os_pwm.c:243-256 | after the channel's own timer is given back there is none free if and only if four other channels are active |
| `Pwm.NoMemIff` | components/os_pwm/src/os_pwm.c:251-256 | init returns NO_MEM if and only if other channels own all timers, that is, if four others are active |
| `PwmCalls.AdjustResultIff` | components/os_pwm/src/os_pwm.c:340-442 | setting a duty or a frequency: which of invalid state, invalid argument, the error of the peripheral and success is returned |
| `PwmCalls.SetUpResultIff` | components/os_pwm/src/os_pwm.c:216-307 | setting a channel up: the same, and NO_MEM if and only if four other channels are active |
| `PwmCalls.FailureLeaves` | components/os_pwm/src/os_pwm.c:216-442 | a failed call changes nothing; a failed set-up leaves its channel off and the others as they were |
| `PwmCalls.PercentOutput` | components/os_pwm/src/os_pwm.c:340-373 | after an accepted duty in percent the register is the exact floor of percent times 8191 over 100, 8191 from 100 percent on, the record is the percentage capped at 100, and nothing else changes |
| `PwmCalls.PercentMonotone` | components/os_pwm/src/os_pwm.c:340-373 | more percent never lower the output |
| `PwmCalls.MicrosOutput` | components/os_pwm/src/os_pwm.c:375-409 | after an accepted duty in microseconds the register is the exact floor of pulse times 8191 over the period, or 8191 for a longer pulse, and the record is the percentage, cut to 32 bits and capped at 100 |
| `PwmCalls.FreqOutput` | components/os_pwm/src/os_pwm.c:411-442 | an accepted frequency reaches the timer of the channel and its record and nothing else |
| `PwmCalls.SetUpOutput` | components/os_pwm/src/os_pwm.c:258-306 | a channel set up is active on its pin at its frequency, with no output, on a timer no other channel owns |
| `Paths.FileSystem.AbsPath` | components/os_fs/src/os_fs.c:104-126 | the output is the full path cut to the buffer, always terminated, for every path, directory and buffer size |
| `Paths.FileSystem.CwdBase` | components/os_fs/src/os_fs.c:117-122 | the local buffer never cuts: it holds mount point, working directory and one slash at the end |
| `Paths.FileSystem.ChangeDir` | components/os_fs/src/os_fs.c:128-146 | the new working directory and the result for every answer of stat; it stays a terminated non-empty string |
| `Paths.FullPathIs` | components/os_fs/src/os_fs.c:108-124 | the full path in plain strings: a path under the mount point stays, another absolute one gets it in front, a relative one follows mount point and working directory, one slash between |
| `Paths.ChdirOutcome` | components/os_fs/src/os_fs.c:132-145 | NOT_FOUND, INVALID_ARG or success by what stat finds at the first 143 characters; only then is the rest behind the mount point kept, up to 127 characters, or the root |
| `Paths.Idempotent` | components/os_fs/src/os_fs.c:108-111 | resolving a resolved path changes nothing, from any working directory |
| `Paths.CutIdempotent` | components/os_fs/src/os_fs.c:104-126 | the same for results cut to any buffer size |
| `Paths.ChdirThenNameIff` | components/os_fs/src/os_fs.c:139-144 | after chdir(p) a relative name r resolves to p's full path, one slash if missing, and r, if and only if that path can be kept: at most 134 characters, or 135 of which only the last is a closing slash |
| `Paths.JoinedIff` | components/os_fs/src/os_fs.c:108-123 | naming a/b is naming b below a if and only if a is not the root or b does not begin with the mount point's name |
| `Paths.ReportedCwdIff` | components/os_shell/src/shell_commands.c:282 | ls without arguments reaches the working directory through the path getcwd reports if and only if that path begins with a slash and not with the mount point |
| `Paths.RunKeepsCwdOk` | components/os_fs/src/os_fs.c:128-146 | in every run of changes the stored directory stays a non-empty NUL-free string of at most 127 characters |
| `Paths.RunRefinesIdeal` | components/os_fs/src/os_fs.c:104-146 | while the paths fit, a run of changes resolves every name as a working directory of unbounded length does |
| `Paths.RunThenChdirIff` | components/os_fs/src/os_fs.c:104-146 | the law of chdir and relative names at the end of any run of changes, failed ones included, with its exact condition |
| `Paths.LongPathIsCut` | components/os_fs/src/os_fs.c:139-144 | from the start: changing to a directory whose full path has 138 characters makes names resolve elsewhere |
| `Paths.RootHidesMountName` | components/os_fs/src/os_fs.c:108-123 | changing to the root and naming spiffs is not naming /spiffs |
| `Paths.ReportedCwdMisleads` | components/os_shell/src/shell_commands.c:282 | from the start: inside a directory named like the mount point, ls without arguments lists the mount point |

## Left out

- Console, sockets, SPIFFS, NVS, Wi-Fi, HTTP, LEDC, GPIO and the MQTT library: only their answers.
- Creation and deletion of mutexes (except that PWM and MQTT init can fail to get theirs), queues,
  tasks and handles; init and deinit of the scheduler with its initialised flag. NULL arguments.
- Echo, prompt and redraw of the line editor.
- The command table and the handlers behind a dispatch; `atoi` of the delay, the generated job names
  and the messages of `run`, `at` and `every`.
- The MQTT user callback, statistics, publishing, the broker URL check and reconnection policy.
- `os_env_list`, `os_scheduler_list`, `os_pwm_get_config` and the other reporting functions, which only
  read the modelled state.
- Liveness: nothing says that a queued job runs or that a connection comes about.
- The log and telemetry rings, which repeat the history ring; `os_kernel`, `os_ipc` and `os_timer`,
  whose content is mostly that of FreeRTOS; OTA, web portal, Telnet, dashboard, tools and boot.
- Replay.AppendArg: the command buffer is a string value, so that strncat writes it in place is not modelled.
- EnvExpansion.Expand: does not model what is read once the scan has gone astray behind the input.
- Environment.TableRefinesMap: covers names of at most 15 characters; longer ones are covered by SetKeepsDistinctIff.
- PingStats.MeanOkIffNothingWraps: covers up to 92682 attempts, beyond which the allowed shortfall exceeds 2^32; ExactIffNothingWraps covers every number an int holds.
- Pwm.StepKeepsInv: the frequency and duty of the peripheral are the values last accepted; rounding inside LEDC is not modelled.
- Paths.RunRefinesIdeal: the file system does not change during a run of directory changes.

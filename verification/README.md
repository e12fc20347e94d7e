# A verified model of Foundry's runtime algorithms

Foundry's runtime is mostly Windows I/O, SQL and HTTP. Between those calls stand self-contained algorithms: a lock-free
drain protocol, a JSON reader and writer, calendar arithmetic, path normalization and case folding, an incremental channel
index with bounded delivery, the agent's turn, a tree digest, stream assemblers, command-line quoting and framing. This
project models them in Dafny, branch for branch, and proves what each is for.

`dafny verify dfyconfig.toml` checks the whole project.

## What is modelled

Text is a sequence of 16-bit units (`Utf16`), so lone surrogates are values like any other; `Utf8` encodes it as the source
does, with U+FFFD for each of them. Code that changes state step by
step is a class or a method with loops, proved equal to a specification function; the laws are lemmas about that function.
Protocols between several parties are state machines: a run is any sequence of enabled steps, and the lemmas speak of every
run.

- **Drain protocol** (`RuntimeLoop`, `RuntimeOrder`). Each interlocked operation, each insertion into the queue and each turn of the owner
  thread is one step. The invariant says that the admission word counts the calls in flight and that exactly one call has
  the duty to insert the close marker. The class methods are the operations; the machine composes them. `RuntimeOrder` says
  of every run that the owner takes items in the order they were queued and runs each admitted call once.
- **Slots and per-key queues** (`ExecutionSlots`, `SerialQueue`). The sections between awaits are the steps.
- **JSON** (`JsonText`, `JsonNumber`, `ProviderJson`, `JsonGrammar`, `JsonAlphabet`, `JsJson`, `JsonRoundTrip`, `Decimal`). The
  explicit-stack reader equals a recursive reading; that reading accepts exactly the trees of a grammar; the writer's texts
  are such trees, which gives the round trip. `JsonAlphabet` writes the terminals of the grammar as character literals and
  holds the reader against them.
- **Calendar** (`Calendar`, `EcmaIso`). The nested divisions agree with counting days one by one and have an inverse.
- **Paths and case** (`WindowsPath`, `FinalPath`, `NodePath`, `EcmaScriptCase`, `RepositoryPaths`). The one-pass normalizer
  equals splitting, folding over a stack and joining; a path of any form resolves to the place it leads to; lowering works
  segment by segment; so containment is a prefix of segments.
- **Content digest** (`ContentState`, `ContentTree`). The stack walk equals the recursive one; the hashed byte string can be
  decoded, so it tells trees apart as far as UTF-8 tells their names apart.
- **Command lines** (`GitRunner`). Quoting is undone by the C runtime's rules.
- **Project channel** (`ChannelIndex`, `ChannelPages`, `ChannelDelivery`, `ChannelLaws`). The index equals a fold of the log, pages equal a
  linear filter, over any run each message is acknowledged once, and a request sent again later in a run is answered as it
  was. `ChannelLaws` says when a message is sent, and of which events the index and a page speak.
- **Agent turn** (`AgentLoop`). What the provider, the tools, the store and the user do is a script of outcomes; the turn is
  proved for every script: the script alone says which iterations begin, how the last one ends the turn, and how each
  reservation is settled.
- **Framing** (`LineReader`, `SseReader`) and **stream assemblers** (`ChatCompletionsStream`, `AnthropicStream`,
  `AnthropicContent`, `ProviderCalls`, `IntOrder`).
- `Wrappers` and `Sequences` hold what several modules share.

## Where a promise holds only under a condition

In each case the code is modelled as it is, a lemma gives the exact condition or the form without it, and another lemma
gives an input on which the promise fails.

- The JSON reader accepts a `\u` escape of fewer than four digits padded with NUL characters, because .NET's `TryParse`
  ignores NUL characters at the end. It accepts exactly RFC 8259 texts when the text holds no NUL character
  (`ParseAcceptsExactlyRfc`, `PaddedEscapeIsAccepted`). `IsDate` has the same edge
  (`IsDateIsDate`, `PaddedDatePasses`), which its one caller excludes: the rule for `startDate` tests a pattern of digits
  first (`src/Foundry.Protocol/Contracts.json:2911-2928`).
- `PortableRelative` cuts the target's spelling at the root's length. Lowering can change a name's length (U+0130), so a
  target inside the root can get a wrong relative path. It is right exactly when the root's names are spelled as long in the
  target as in the root (`RelativeIsExact`, `RelativeGoesWrong`).
- A turn's reservation is settled unless the transaction that commits the response is rolled back after `Settle` has already
  set the handle to null: then the failure path finds no handle and the reservation stays open. That happens exactly when an
  iteration that the script lets begin meets that fate (`Run`, `LastDecides`, `RolledBackCommitLoses`).
- A reservation whose response was committed stays settled as completed when a tool, a cancellation or the next admission
  then fails the turn (`SettledByFate`, `FailedToolStaysCompleted`): only a request that fails before its commit is settled
  as not completed.
- A page of the channel fails when its first message alone exceeds 64 KiB (`CrashesWhen`, `BigMessageCrashes`). Following
  pages reads the visible messages up to the first such one, so it reads them all exactly when each fits a page alone
  (`FollowsForward`, `FollowsBackward`). `Send` limits content to 2,048 bytes
  (`src/Foundry.Runtime.Core/ToolDefinitions.cs:277`), so only a row that something else stored can be so large.
- The application of a command line is read back by the rule for argv[0] exactly when it has no quote and does not both
  hold a blank and end with a backslash (`ApplicationReadsBack`, `BlankAndSlashGoWrong`). The runner's own application is the
  path of an existing git.exe (`src/Foundry.Runtime.Core/GitRunner.cs:87-115`), which neither holds a quote nor ends so.
- The content digest tells two trees apart exactly when they still differ with every lone surrogate replaced by U+FFFD
  (`DigestIsShown`); for names without lone surrogates that is when they differ (`DigestIsTree`). Files named U+D800 and
  U+D801 hash alike (`LoneSurrogatesCollide`).
- Normalizing a timestamp twice is normalizing it once exactly when six digits can write its year (`NormalizeIdempotent`).
  `+999999-12-31T23:59:59.999-00:01` normalizes to a text that is refused (`NormalizeFailsTwice`); every text with an unsigned
  year that is read normalizes once and for all (`UnsignedNormalizesOnce`). The contracts give such texts a pattern at the
  level of the rule, which `Apply` does not test (`src/Foundry.Protocol/Contracts.cs:66`), so a signed one can arrive there.
- What a path resolves to resolves to itself unless it is the root of `\\.` or `\\?` and the current directory is not on
  `\\.` too (`ResolveIdempotent`): `\\.\..` resolves to `\\.\`, and that to the root of the current directory's device
  (`DeviceRootMoves`). A path like `C:x` resolves to a place unless the folder it is resolved against is on another device
  and has no backslash in the third place (`ResolvesToLanding`): with the current directory on a share it stays `C:x`
  (`DriveStaysRelative`).
- Server-sent events do not depend on the cut as long as no read ends between a carriage return and its line feed
  (`AnyCutIsWhole`). The cleaned reads are the cleaned text exactly then (`CleanReadsAreClean`), and a cut there can make
  two frames of one (`CutsMatterInsideLineEndings`), as the source's own comment says.
- Whether a stream of server-sent events keeps the limits does depend on the cut, because the buffer is measured before its
  blocks are taken off (`ReadsKeep`). A line that just fits the limit with its blank line, and a unit after it, are accepted
  exactly when a read begins after the blank line (`LimitsDependOnTheCut`): in reads of at most 64 KiB, as the source's buffer
  holds, the same text is accepted when the last of them does and refused when it begins before the blank line
  (`SmallReadsAreAcceptedOrRefused`).

## Model

| member | source | states |
|---|---|---|
| RuntimeLoop.RuntimeLoop.constructor | src/Foundry.Runtime.Core/RuntimeLoop.cs:8-17 | a new loop admits, has not been asked to drain, and has nothing queued or active |
| RuntimeLoop.RuntimeLoop.TryAdmit | src/Foundry.Runtime.Core/RuntimeLoop.cs:160-163 | the compare-and-swap admits exactly when the word is still the one read, and then adds one |
| RuntimeLoop.RuntimeLoop.EndAdmission | src/Foundry.Runtime.Core/RuntimeLoop.cs:166 | takes one off with 32-bit wrap-around; the caller has to queue the marker exactly when only the close bit is left |
| RuntimeLoop.RuntimeLoop.RequestDrain | src/Foundry.Runtime.Core/RuntimeLoop.cs:115 | the first drain wins and no other |
| RuntimeLoop.RuntimeLoop.CloseAdmission | src/Foundry.Runtime.Core/RuntimeLoop.cs:118 | sets the sign bit; the caller has to queue the marker exactly when no call was in flight |
| RuntimeLoop.RuntimeLoop.ClaimClose | src/Foundry.Runtime.Core/RuntimeLoop.cs:167-170 | the first claim of the marker wins and no other |
| RuntimeLoop.RuntimeLoop.Enqueue | src/Foundry.Runtime.Core/RuntimeLoop.cs:172-177 | appends at the end of the queue, or fails and changes nothing once adding is complete |
| RuntimeLoop.RuntimeLoop.CompleteIfDrained | src/Foundry.Runtime.Core/RuntimeLoop.cs:206-216 | with the loop closing and nothing active, takes the stored cleanup, runs it once, and completes adding; otherwise changes nothing |
| RuntimeLoop.RuntimeLoop.RunNext | src/Foundry.Runtime.Core/RuntimeLoop.cs:61-68 | one turn of the owner on the head item: a handler, a posted callback, a continuation (dropped after the drain) or the marker |
| RuntimeLoop.TurnMatchesRunNext | src/Foundry.Runtime.Core/RuntimeLoop.cs:179-216 | the turn of the interleaving machine changes the fields exactly as the class method does |
| RuntimeLoop.StepKeepsInv | src/Foundry.Runtime.Core/RuntimeLoop.cs:112-216 | every step of every thread keeps the invariant that ties the admission word, the marker duty, the queue, the active count and the cleanup together |
| RuntimeLoop.RunsKeepInv | src/Foundry.Runtime.Core/RuntimeLoop.cs:112-216 | every state of every run, whatever the interleaving, satisfies that invariant |
| RuntimeLoop.AdmittedCallsAreServed | src/Foundry.Runtime.Core/RuntimeLoop.cs:144-196 | in every run no insertion of an admitted call fails and no admitted handler meets the closing test; each is waiting, queued, running or finished |
| RuntimeLoop.MarkerFollowsEveryAdmittedItem | src/Foundry.Runtime.Core/RuntimeLoop.cs:156-170 | the close marker is queued at most once, with no call in flight, behind every admitted item; only continuations follow it |
| RuntimeLoop.ReturnedCallsLeaveTheMarker | src/Foundry.Runtime.Core/RuntimeLoop.cs:112-170 | once a drain is accepted and all calls have returned, the marker has been queued; and an empty queue with nothing running is a completed drain |
| RuntimeLoop.DrainIsLast | src/Foundry.Runtime.Core/RuntimeLoop.cs:198-216 | when the loop drains, every admitted handler and observed operation has finished; the cleanup ran once, directly before, exactly if the accepted drain had one; afterwards continuations are only dropped |
| RuntimeLoop.NoCleanupBeforeDrain | src/Foundry.Runtime.Core/RuntimeLoop.cs:206-216 | no cleanup runs before the loop drains |
| RuntimeOrder.TurnsFollowInsertions | src/Foundry.Runtime.Core/RuntimeLoop.cs:61-68 | in every run the items that turns have taken, followed by those still queued, are the items in the order they were queued |
| RuntimeOrder.CallsInsertTheirItems | src/Foundry.Runtime.Core/RuntimeLoop.cs:144-196 | in every run each call is where a call that began so may be, and its item was queued exactly when it is past its insertion |
| RuntimeOrder.EachCallRunsOnce | src/Foundry.Runtime.Core/RuntimeLoop.cs:144-196 | an admitted Post or Invoke is at its insertion, is queued once, or has run once, and never two of these; a call not admitted is none of them |
| RuntimeOrder.DrainedHasRunEachCall | src/Foundry.Runtime.Core/RuntimeLoop.cs:144-216 | when the loop drains, every admitted Post and Invoke has run exactly once, before that |
| RuntimeOrder.RefusedAfterDrain | src/Foundry.Runtime.Core/RuntimeLoop.cs:112-165 | a call is refused only once a drain was accepted, and the accepted drain is one that began, with its own cleanup |
| RuntimeOrder.OpenLoopAdmits | src/Foundry.Runtime.Core/RuntimeLoop.cs:156-165 | while no drain is accepted and there is room, a call that reads the count and finds it unchanged is admitted |
| RuntimeOrder.FirstDrainIsAccepted | src/Foundry.Runtime.Core/RuntimeLoop.cs:112-121 | with no drain accepted, the first drain call to try is accepted and its cleanup kept |
| RuntimeOrder.TurnsStartAndFinish | src/Foundry.Runtime.Core/RuntimeLoop.cs:61-68 | what each turn starts and finishes: a handler at its turn, a continuation the work it resumes unless it is dropped, a posted callback no work of its own |
| ProviderJson.Reader.SkipSpace | src/Foundry.Providers/ProviderJson.cs:27 | passes over exactly the leading white space |
| ProviderJson.Reader.Attach | src/Foundry.Providers/ProviderJson.cs:29-35 | a value becomes the root, the next item, or the member of the pending key with a repeated key keeping its place |
| ProviderJson.Reader.ReadString | src/Foundry.Providers/ProviderJson.cs:103-132 | reads the string body that the recursive reading reads, or fails where it fails |
| ProviderJson.Reader.ReadUnit | src/Foundry.Providers/ProviderJson.cs:110-130 | one raw or escaped unit and its length, including the padded `\u` form that TryParse accepts |
| ProviderJson.Reader.ReadNumber | src/Foundry.Providers/ProviderJson.cs:134-157 | reads the longest numeral, or fails where the recursive reading fails |
| ProviderJson.Reader.Literal | src/Foundry.Providers/ProviderJson.cs:97-101 | reads the word or fails |
| ProviderJson.Reader.ReadKey | src/Foundry.Providers/ProviderJson.cs:85-95 | reads a key and its colon and gives the key to the open object |
| ProviderJson.Reader.ReadValue | src/Foundry.Providers/ProviderJson.cs:38-63 | the first half of a turn: the recursive reading of the whole text stands as before, one value or one opening later |
| ProviderJson.Reader.CloseOrContinue | src/Foundry.Providers/ProviderJson.cs:66-82 | the second half of a turn: closes a container, goes on to the next member, or ends with the root, as the recursive reading does |
| ProviderJson.Reader.Parse | src/Foundry.Providers/ProviderJson.cs:22-83 | the explicit-stack loop returns, on every text, exactly what the recursive reading returns, and terminates |
| JsonNumber.NumberIsNumeral | src/Foundry.Providers/ProviderJson.cs:134-157 | a text is read as a number exactly when it is a number of RFC 8259 section 6 |
| JsonGrammar.ParseAcceptsTrees | src/Foundry.Providers/ProviderJson.cs:22-158 | every tree of the grammar nested at most 256 deep is read to its value, a repeated key keeping its first place and last value |
| JsonGrammar.ParseFindsTree | src/Foundry.Providers/ProviderJson.cs:22-158 | every accepted text is the text of such a tree, and the value read is that tree's |
| JsonGrammar.ParseAcceptsExactlyTrees | src/Foundry.Providers/ProviderJson.cs:22-158 | the accepted texts are exactly those of the trees |
| JsonGrammar.ParseAcceptsExactlyRfc | src/Foundry.Providers/ProviderJson.cs:22-158 | the RFC 8259 texts nested at most 256 deep are exactly the accepted texts without NUL characters |
| JsonGrammar.PaddedEscapeIsAccepted | src/Foundry.Providers/ProviderJson.cs:126-128 | a `\u` escape of one digit and three NUL characters is accepted although it is not JSON |
| JsonAlphabet.StringsAreSpellings | src/Foundry.Providers/ProviderJson.cs:103-132 | a text is read as a string of some units exactly when elements that spell them stand before its closing quote: a unit as itself, one of the eight one-letter escapes, or a `\u` escape of hexadecimal digits in either case, by their places in the alphabets |
| JsonAlphabet.EscapesAreRead | src/Foundry.Providers/ProviderJson.cs:126-128 | every spelling of a unit by four hexadecimal digits, each letter in either case, is read as that unit |
| JsonAlphabet.ScalarsAreRead | src/Foundry.Providers/ProviderJson.cs:38-63 | a whole text is read as a value that is no container exactly when it is that value's text, by the alphabets, with white space around it |
| JsonAlphabet.ContainersAreWritten | src/Foundry.Providers/ProviderJson.cs:66-95 | the brackets, braces, commas and colons of the grammar's texts are those of RFC 8259 |
| JsonAlphabet.TooDeepIsRefused | src/Foundry.Providers/ProviderJson.cs:38-50 | a text that opens more than 256 containers first is refused as too deep, whatever follows |
| JsJson.OrderedIsJavaScriptOrder | src/Foundry.Protocol/JsJson.cs:58 | the sort lists array indices ascending and then the other keys in insertion order, and is a permutation |
| JsJson.OrderedFixed | src/Foundry.Protocol/JsJson.cs:58 | members already in that order stay as they are |
| JsJson.ArrayIndexIs | src/Foundry.Protocol/JsJson.cs:85-86 | a key is an array index exactly when it is the decimal spelling, without needless zeros, of a number below 2^32 - 1 |
| JsJson.IndicesComeFirst | src/Foundry.Protocol/JsJson.cs:58 | a member written before one whose key is an array index has an array index no larger |
| JsJson.NamedAreOthers | src/Foundry.Protocol/JsJson.cs:58 | the members that keep their insertion order are exactly those whose keys are no array index |
| JsJson.Quote | src/Foundry.Protocol/JsJson.cs:106-130 | appends the quoted string: short escapes, hexadecimal escapes of control units and lone surrogates, pairs as they are |
| JsonAlphabet.StringIsWritten | src/Foundry.Protocol/JsJson.cs:106-130 | a string is written between quotes, unit by unit: seven units by their letters, other control units and surrogates without their other half by `\u` and four digits with letters in lower case, and every other unit as itself, pairs included |
| JsJson.Write | src/Foundry.Protocol/JsJson.cs:42-83 | appends the text of a value, whatever the builder already holds |
| JsJson.WriteMembers | src/Foundry.Protocol/JsJson.cs:55-65 | appends an object with undefined members left out, in JavaScript order, with commas between |
| JsJson.WriteItems | src/Foundry.Protocol/JsJson.cs:70-73 | appends an array with commas between its items |
| JsJson.Stringify | src/Foundry.Protocol/JsJson.cs:21-27 | the text of a value, or nothing for undefined |
| JsonRoundTrip.WrittenIsRfc | src/Foundry.Protocol/JsJson.cs:42-83 | what is written for a value nested at most 256 deep is an RFC 8259 text, the text of that value's tree |
| JsonRoundTrip.RoundTrip | src/Foundry.Protocol/JsJson.cs:21-130 | reading what was written gives the normal form: keys in JavaScript order, undefined dropped or null, for every string with lone surrogates |
| JsonRoundTrip.PlainComesBack | src/Foundry.Protocol/JsJson.cs:21-130 | a value without undefined, with finite numbers other than negative zero, comes back up to the order of members, its members in JavaScript order |
| JsonRoundTrip.SortedComesBack | src/Foundry.Protocol/JsJson.cs:21-130 | and comes back exactly when its members already are in that order |
| JsonRoundTrip.NormalWritesTheSame | src/Foundry.Protocol/JsJson.cs:42-83 | the normal form is written as the value was |
| JsonRoundTrip.StringifyFixedPoint | src/Foundry.Protocol/JsJson.cs:21-130 | writing what was read gives the same text again |
| JsonRoundTrip.WrittenIsWellFormed | src/Foundry.Protocol/JsJson.cs:122-125 | every surrogate in a written text is half of a pair |
| Decimal.DigitsInjective | src/Foundry.Protocol/JsJson.cs:85-86 | different numbers have different decimal spellings, so an array index is one key |
| Calendar.FloorIsFloor | src/Foundry.Protocol/EcmaIso.cs:12 | the source's Floor over truncating division is floor division for every integer |
| Calendar.DaysOfNext | src/Foundry.Protocol/EcmaIso.cs:14-20 | the Gregorian calendar's next date has the next number |
| Calendar.DaysCounts | src/Foundry.Protocol/EcmaIso.cs:14-20 | Days agrees with counting one date at a time from 1 January 1970, both ways |
| Calendar.CivilOfDays | src/Foundry.Protocol/EcmaIso.cs:46-50 | the conversion gives back every valid date from its number |
| Calendar.DaysOfCivil | src/Foundry.Protocol/EcmaIso.cs:46-50 | for every integer the conversion gives a valid date with that number, the one counted to |
| Calendar.OrderOfDays | src/Foundry.Protocol/EcmaIso.cs:46-50 | dates come in the order of their numbers |
| EcmaIso.PartsInRange | src/Foundry.Protocol/EcmaIso.cs:43-50 | an instant's parts are in range and stand for that instant, before the epoch too |
| EcmaIso.InstantsOfYears | src/Foundry.Protocol/EcmaIso.cs:43-50 | an instant is written with one of some consecutive years exactly when it lies from the beginning of the first to that of the year after the last |
| EcmaIso.EpochOfFormat | src/Foundry.Protocol/EcmaIso.cs:30-53 | Epoch undoes Format for every year of up to six digits of either sign |
| EcmaIso.FormatInjective | src/Foundry.Protocol/EcmaIso.cs:43-53 | different instants have different texts, whatever their years |
| EcmaIso.FormatIs | src/Foundry.Protocol/EcmaIso.cs:43-53 | where the punctuation of ECMA-262, section 21.4.1.32, stands between the padded parts |
| EcmaIso.EpochBetween | src/Foundry.Protocol/EcmaIso.cs:30-41 | every text that is read stands for an instant of a year of at most seven digits |
| EcmaIso.EpochOfShifted | src/Foundry.Protocol/EcmaIso.cs:30-41 | an offset in the place of a text's Z takes its minutes off the instant |
| EcmaIso.NormalizeIdempotent | src/Foundry.Protocol/EcmaIso.cs:30-53 | normalizing a text twice is normalizing it once exactly when six digits can write the year; otherwise the second time fails |
| EcmaIso.UnsignedNormalizesOnce | src/Foundry.Protocol/EcmaIso.cs:30-53 | every text with an unsigned year that is read normalizes to a text that normalizes to itself |
| EcmaIso.NormalizeFailsTwice | src/Foundry.Protocol/EcmaIso.cs:30-53 | the last millisecond of the year 999999, written with the offset -00:01, normalizes to a text that stands for no instant |
| EcmaIso.NormalizeIsInstant | src/Foundry.Protocol/EcmaIso.cs:30-53 | any two texts normalize to the same text exactly when they stand for the same instant, or both for none |
| EcmaIso.OrderOfTexts | src/Foundry.Protocol/EcmaIso.cs:43-53 | in the years 0 to 9999 the ordinal order of formatted texts is the order of instants |
| EcmaIso.IsDateIsDate | src/Foundry.Protocol/EcmaIso.cs:21-29 | without NUL characters a text is a date exactly when it is the text of a valid date of a four-digit year |
| EcmaIso.PaddedDatePasses | src/Foundry.Protocol/EcmaIso.cs:21-29 | with a NUL character a text that is no date passes |
| FinalPath.LastSeparator | src/Foundry.Platform/FinalPath.cs:333-343 | the last backslash, or -1 when there is none |
| FinalPath.Up | src/Foundry.Platform/FinalPath.cs:272-307 | a ".." segment drops the last name, or is kept above the root when that is allowed |
| FinalPath.Take | src/Foundry.Platform/FinalPath.cs:266-319 | a finished segment is pushed on the stack that the text and the counters stand for |
| FinalPath.Turn | src/Foundry.Platform/FinalPath.cs:251-328 | one turn of the loop keeps the text equal to the fold of the segments read so far |
| FinalPath.Normalize | src/Foundry.Platform/FinalPath.cs:244-330 | the one-pass machine returns, for every text and both flags, the join of the folded segments |
| WindowsPath.RootedHasOnlyNames | src/Foundry.Platform/FinalPath.cs:244-330 | not allowed above the root, no empty, "." or ".." segment is left |
| WindowsPath.NormalizeIdempotent | src/Foundry.Platform/FinalPath.cs:244-330 | normalizing twice is normalizing once, for both flags |
| WindowsPath.NormalizeInParts | src/Foundry.Platform/FinalPath.cs:244-330 | normalizing the first of two joined paths changes nothing |
| WindowsPath.NormalizeKeepsMeaning | src/Foundry.Platform/FinalPath.cs:244-330 | from every folder a path leads to where its normal form leads |
| WindowsPath.RootedNormalIsPlace | src/Foundry.Platform/FinalPath.cs:244-330 | a rooted path's normal form names the folders from the root to where the path leads |
| WindowsPath.NormalFormIsMeaning | src/Foundry.Platform/FinalPath.cs:244-330 | two relative paths have the same normal form exactly when they lead to the same place from every folder |
| NodePath.FindRoot | src/Foundry.Platform/FinalPath.cs:197-241 | the device of a path, where its folders begin and whether they begin at the root, for every form of root |
| NodePath.Resolve | src/Foundry.Platform/FinalPath.cs:115-189 | the loop over the path and the folder it is resolved against gives, for every path, current directory and drive directory, the resolution in two steps |
| NodePath.ResolvesToLanding | src/Foundry.Platform/FinalPath.cs:115-189 | a path resolves to the place it leads to: from its own root, from the root of the current directory, or from a folder; a drive's path whose folder is on another device stays relative, and the empty path and "." are the current directory as spelled when that begins with a separator |
| NodePath.DriveAbsoluteAlone | src/Foundry.Platform/FinalPath.cs:115-189 | a drive-absolute path resolves to its drive and its folded names, whatever the current directory and the drives' directories are |
| NodePath.ShowReadsBack | src/Foundry.Platform/FinalPath.cs:197-241 | a device and names written as a path are read back as that device and those names, but for the roots of `\\.` and `\\?` |
| NodePath.ResolveIdempotent | src/Foundry.Platform/FinalPath.cs:115-189 | what a path that leads somewhere resolves to resolves to itself, from any current directory, exactly unless it is one of those roots (that of `\\.` stays when the current directory is on `\\.`) |
| NodePath.DeviceRootMoves | src/Foundry.Platform/FinalPath.cs:226-234 | `\\.\..` resolves to `\\.\`, and that to the root of the current directory's device |
| NodePath.DriveStaysRelative | src/Foundry.Platform/FinalPath.cs:143-159 | with the current directory on a share, `C:x` resolves to `C:x` |
| FinalPath.ResolvedNames | src/Foundry.Platform/FinalPath.cs:115-189 | resolving keeps the drive and the names a path leads through |
| FinalPath.ResolveIdempotent | src/Foundry.Platform/FinalPath.cs:115-189 | a resolved path resolves to itself |
| FinalPath.ResolveBelow | src/Foundry.Platform/FinalPath.cs:115-189 | a path joined below a root resolves by walking on from the root's names |
| EcmaScriptCase.BinarySearch | src/Foundry.Platform/EcmaScriptCase.cs:136 | the index of the value, or the complement of the index of the first larger one |
| EcmaScriptCase.Contains | src/Foundry.Platform/EcmaScriptCase.cs:134-142 | a code point is found exactly when it is in one of the sorted disjoint ranges |
| EcmaScriptCase.IsFinalSigma | src/Foundry.Platform/EcmaScriptCase.cs:49-77 | final exactly when the nearest code point before that is not case-ignorable is cased and the nearest after is not |
| EcmaScriptCase.ToLower | src/Foundry.Platform/EcmaScriptCase.cs:19-42 | the text lowered code point by code point, sigma by its context |
| EcmaScriptCase.SigmaByItsNeighbours | src/Foundry.Platform/EcmaScriptCase.cs:25-75 | a capital sigma lowers to U+03C2 exactly when the nearest unit before it that is not case-ignorable is cased and the nearest after it is not, and to U+03C3 otherwise; every other unit by the tables or to itself |
| EcmaScriptCase.LowerAroundBackslash | src/Foundry.Platform/EcmaScriptCase.cs:19-77 | the two sides of a backslash are lowered apart: the sigma scans never cross it |
| EcmaScriptCase.LowerOfJoin | src/Foundry.Platform/EcmaScriptCase.cs:19-77 | a joined path is lowered segment by segment |
| RepositoryPaths.IsInside | src/Foundry.Runtime.Core/RepositoryPaths.cs:72-89 | compares the resolved, lowered paths of any two spellings: equal, or the root's with one backslash a prefix |
| RepositoryPaths.InsideIsPrefix | src/Foundry.Runtime.Core/RepositoryPaths.cs:72-89 | a drive-absolute path is inside a root exactly when the root's lowered segments are a prefix of its own |
| RepositoryPaths.InsideIsOrder | src/Foundry.Runtime.Core/RepositoryPaths.cs:72-89 | being inside is reflexive, transitive, and antisymmetric up to case |
| RepositoryPaths.DriveAbsoluteCompare | src/Foundry.Runtime.Core/RepositoryPaths.cs:72-89 | in every setting drive-absolute paths are compared and made relative by their own places alone |
| RepositoryPaths.LandedCompare | src/Foundry.Runtime.Core/RepositoryPaths.cs:72-89 | paths that lead to drives, however they are spelled, are compared and made relative as the drive-absolute paths of their places |
| RepositoryPaths.LandedInsideIsPrefix | src/Foundry.Runtime.Core/RepositoryPaths.cs:72-89 | so one of them is inside another exactly when the other's lowered drive and names are a prefix of its own |
| RepositoryPaths.ValidateRelative | src/Foundry.Runtime.Core/RepositoryPaths.cs:16-27 | the refusal of a relative path, in the source's order of tests, or none |
| RepositoryPaths.RefusedExactly | src/Foundry.Runtime.Core/RepositoryPaths.cs:16-31 | exactly which relative paths are refused, and which as absolute: segments may not be empty, ".", "..", ".git" when lowered, hold a colon, or end in a dot or a space |
| RepositoryPaths.GitIsRefused | src/Foundry.Runtime.Core/RepositoryPaths.cs:29-30 | no path with ".git" among its segments, each letter in either case, is admitted |
| RepositoryPaths.AdmittedIsInside | src/Foundry.Runtime.Core/RepositoryService.cs:239-243 | every admitted path joins to a path inside the root, and PortableRelative gives it back with "/" separators |
| RepositoryPaths.AdmittedIsInsideFrom | src/Foundry.Runtime.Core/RepositoryService.cs:239-243 | so in every setting the methods find an admitted path, joined to a drive-absolute root, inside it and give it back with "/" |
| RepositoryPaths.PortableRelative | src/Foundry.Runtime.Core/RepositoryPaths.cs:81-87 | the resolved target's spelling cut at the resolved root's length, with "/" separators, or a failure when it is shorter, for any two spellings |
| RepositoryPaths.RelativeIsExact | src/Foundry.Runtime.Core/RepositoryPaths.cs:81-87 | below a root the relative path is right exactly when the root's names are spelled as long in the target as in the root |
| RepositoryPaths.RelativeGoesWrong | src/Foundry.Runtime.Core/RepositoryPaths.cs:81-87 | U+0130 in the root and its two-unit lowering in the target: inside, and the relative path is wrong |
| RepositoryPaths.SlashedIsJoin | src/Foundry.Runtime.Core/RepositoryPaths.cs:86 | replacing the separators is joining the segments with "/" |
| ContentState.AppendToHash | src/Foundry.Platform/ExistingEntry.cs:145-175 | short, grown and changed files are refused; otherwise every byte is appended, whatever the sizes of the reads |
| ContentState.HashFile | src/Foundry.Runtime.Core/CommandRunner.cs:342-351 | a file adds its record and its counts, or fails by the limits before it fails by its content |
| ContentState.Turn | src/Foundry.Runtime.Core/CommandRunner.cs:322-352 | one turn with the stack leaves the recursive walk of what remains unchanged, with less left |
| ContentState.Digest | src/Foundry.Runtime.Core/CommandRunner.cs:315-354 | the explicit-stack walk hashes, counts and fails exactly as the recursive pre-order walk does |
| ContentTree.DigestLimits | src/Foundry.Runtime.Core/CommandRunner.cs:315-354 | the walk succeeds exactly when everything is readable and the files, the folders with links, and the bytes stay within their limits |
| ContentTree.WalkHashes | src/Foundry.Runtime.Core/CommandRunner.cs:315-354 | what is hashed is the pre-order list of the visible tree's records |
| ContentState.RecordsAre | src/Foundry.Runtime.Core/CommandRunner.cs:337-348 | the layout of the hashed records: a letter for the kind and NUL characters between the parts |
| ContentTree.OneRecord | src/Foundry.Runtime.Core/CommandRunner.cs:337-348 | one record of UTF-8 names and targets can be read off the front of a byte string in one way only |
| ContentTree.DecodesOnce | src/Foundry.Runtime.Core/CommandRunner.cs:337-348 | a byte string encodes at most one list of records, down to the bytes of its names and targets |
| ContentTree.SameFlatten | src/Foundry.Runtime.Core/CommandRunner.cs:321-340 | a list of records is that of at most one tree, whatever its depth |
| Utf8.EncodedAlike | src/Foundry.Runtime.Core/CommandRunner.cs:319 | two UTF-16 texts are encoded alike exactly when they are equal with every lone surrogate replaced by U+FFFD |
| Utf8.BytesOfScalar | src/Foundry.Runtime.Core/CommandRunner.cs:319 | the length of a code point's encoding, its leading byte and its bits are those of RFC 3629, section 3 |
| ContentTree.DigestIsShown | src/Foundry.Runtime.Core/CommandRunner.cs:315-354 | two trees within the limits hash the same bytes exactly when, outside ".git" and devices, they are equal with lone surrogates replaced |
| ContentTree.DigestIsTree | src/Foundry.Runtime.Core/CommandRunner.cs:315-354 | without lone surrogates in names and targets, two trees hash the same bytes exactly when they are equal outside ".git" and device entries |
| ContentTree.LoneSurrogatesCollide | src/Foundry.Runtime.Core/CommandRunner.cs:319 | the trees of one file named U+D800 and of one named U+D801 hash the same bytes |
| GitRunner.Quote | src/Foundry.Runtime.Core/GitRunner.cs:301-315 | the four forms of a quoted argument, the loop's backslash counting included |
| GitRunner.Command | src/Foundry.Runtime.Core/GitRunner.cs:250-255 | the quoted application and arguments joined by spaces, refused when an argument holds a NUL character |
| GitRunner.ScanQuoted | src/Foundry.Runtime.Core/GitRunner.cs:301-315 | the C runtime reads one quoted argument back, before a space or the end |
| GitRunner.ArgumentsReadBack | src/Foundry.Runtime.Core/GitRunner.cs:255 | the C runtime reads the joined arguments back, empty ones and runs of backslashes and quotes included, in both versions of its rule for doubled quotes |
| GitRunner.ApplicationReadsBack | src/Foundry.Runtime.Core/GitRunner.cs:255 | the rule for argv[0] reads the application back exactly when it has no quote and does not both hold a blank and end with a backslash |
| GitRunner.BlankAndSlashGoWrong | src/Foundry.Runtime.Core/GitRunner.cs:301-315 | an application of a blank and a backslash is read back with two backslashes |
| GitRunner.CommandReadsBack | src/Foundry.Runtime.Core/GitRunner.cs:250-255 | the whole command line is read back as the application and its arguments |
| ChannelIndex.AgentChannel.constructor | src/Foundry.Runtime.Core/AgentChannel.cs:55-67 | a new index is current for every log |
| ChannelIndex.AgentChannel.RefreshIndex | src/Foundry.Runtime.Core/AgentChannel.cs:55-67 | outside a transaction the index becomes the fold of the whole log, in batches of 2,000 rows; inside one nothing changes |
| ChannelIndex.BatchAdvances | src/Foundry.Runtime.Core/AgentChannel.cs:62-65 | one batch takes exactly the events up to the sequence it records, which is further on |
| ChannelIndex.FoldAnswers | src/Foundry.Runtime.Core/AgentChannel.cs:72-95 | the index answers what reading the whole log answers: a project's messages, a count, a last receipt, the message of a request |
| ChannelLaws.MessagesStandForEvents | src/Foundry.Runtime.Core/AgentChannel.cs:72-95 | a project's messages are its message events, each once and in order, with their own sequence, sender, recipient, actor and time |
| ChannelIndex.AppendKeepsCurrent | src/Foundry.Runtime.Core/AgentChannel.cs:55-67 | appending leaves the index current for what it has read, so refreshes and appends may interleave |
| ChannelPages.Find | src/Foundry.Runtime.Core/AgentChannel.cs:290-295 | the binary search finds the first message after the cursor, or the first not before it |
| ChannelPages.Gather | src/Foundry.Runtime.Core/AgentChannel.cs:296-304 | up to twenty-one visible messages in the page's direction, as a linear filter gives them |
| ChannelPages.Select | src/Foundry.Runtime.Core/AgentChannel.cs:305-311 | takes messages while there are at most twenty and their JSON fits 64 KiB |
| ChannelPages.ReadPage | src/Foundry.Runtime.Core/AgentChannel.cs:285-315 | a page is what filtering all the messages linearly gives, with the cursor of its last message when there are more |
| ChannelPages.CrashesWhen | src/Foundry.Runtime.Core/AgentChannel.cs:305-314 | a page fails exactly when its first message alone is over the byte limit |
| ChannelPages.BigMessageCrashes | src/Foundry.Runtime.Core/AgentChannel.cs:305-314 | a visible message over the limit, wherever it stands in a project, fails the pages that begin at it, forward and backward |
| ChannelPages.FollowsForward | src/Foundry.Runtime.Core/AgentChannel.cs:285-315 | following the cursors forward reads the visible messages after the first cursor once, in order, up to one that no page can hold; all of them exactly when each fits a page alone |
| ChannelPages.FollowsBackward | src/Foundry.Runtime.Core/AgentChannel.cs:285-315 | following them backward reads those before it once, each page in order, down to one that no page can hold; all of them exactly when each fits a page alone |
| ChannelPages.ProjectIsSorted | src/Foundry.Runtime.Core/AgentChannel.cs:91-92 | a project's indexed messages are in ascending sequence, as the binary search needs |
| ChannelLaws.SeesItsMessages | src/Foundry.Runtime.Core/AgentChannel.cs:296-303 | an inbox shows the messages for its task or for everyone that are not of its own agent nor older than the task; a conversation those for the task or for everyone and those it sent |
| ChannelDelivery.LongestCut | src/Foundry.Runtime.Core/AgentChannel.cs:419-424 | the binary search finds the longest cut that fits |
| ChannelDelivery.Include | src/Foundry.Runtime.Core/AgentChannel.cs:406-426 | a request carries the pending messages that fit whole, or the first one cut |
| ChannelDelivery.PageIsPending | src/Foundry.Runtime.Core/AgentChannel.cs:394-395 | the inbox page begins with the first messages not yet acknowledged and is empty only when none is pending; it fails exactly when the first of them fits no page |
| ChannelDelivery.AcknowledgeKeepsInv | src/Foundry.Runtime.Core/AgentChannel.cs:434-437 | a success takes exactly the request's messages off the front of what is pending |
| ChannelDelivery.RunsDeliverOnce | src/Foundry.Runtime.Core/AgentChannel.cs:389-437 | over any run of appends, requests, failures and successes, the acknowledged batches are the inbox up to the last receipt, in order and each message once |
| ChannelDelivery.FailureLeavesPending | src/Foundry.Runtime.Core/AgentLoop.cs:158-166 | a failed request's messages stay first, whatever events come between |
| ChannelDelivery.Send | src/Foundry.Runtime.Core/AgentChannel.cs:330-367 | the answer of a send and the log after it are those of a plain reading of the log |
| ChannelLaws.SendsExactlyWhen | src/Foundry.Runtime.Core/AgentChannel.cs:330-361 | a send appends its message, with the letter's own fields, exactly when the request id has 1 to 200 units, the content is not secret-like, the sender is available, the request has no message yet, a named recipient is available, and the task has sent fewer than 1,000; otherwise it appends nothing |
| ChannelLaws.FirstFailureDecides | src/Foundry.Runtime.Core/AgentChannel.cs:335-359 | which refusal the first of these tests to fail gives |
| ChannelLaws.RepeatsAreAnswered | src/Foundry.Runtime.Core/AgentChannel.cs:345-352 | a repeated request is answered with its message when project, content and recipient are the same, and refused otherwise |
| ChannelLaws.MessagesComeFromSends | src/Foundry.Runtime.Core/AgentChannel.cs:330-361 | in every run each message in the log comes from a send whose content is not secret-like, whose sender is available and whose named recipient is available |
| ChannelLaws.SendsStayInLog | src/Foundry.Runtime.Core/AgentChannel.cs:330-361 | and each send of a run that may be sent when it is made has its message in the log ever after |
| ChannelDelivery.SendKeepsOnce | src/Foundry.Runtime.Core/AgentChannel.cs:345-359 | sends keep one message for each request and at most 1,000 for each sender |
| ChannelDelivery.SendIsIdempotent | src/Foundry.Runtime.Core/AgentChannel.cs:345-352 | whatever events come between, a repeated send gives the first one's message and appends nothing; with other content it is refused |
| ChannelDelivery.TrafficSendsOnce | src/Foundry.Runtime.Core/AgentChannel.cs:330-367 | in every run of sends and other events each request has one message and no task more than its limit |
| ChannelDelivery.TrafficIsIdempotent | src/Foundry.Runtime.Core/AgentChannel.cs:345-352 | a send answered at any step of a run is answered alike whenever it is repeated later in the run |
| AgentLoop.ReceiveItem | src/Foundry.Runtime.Core/AgentLoop.cs:99-127 | an item of the stream is accepted exactly when it is not cancelled, unexpected, late, over the output limit, or a repeated or surplus call |
| AgentLoop.Receive | src/Foundry.Runtime.Core/AgentLoop.cs:91-136 | the stream succeeds exactly when every item is accepted in turn and it does not break; its calls come in order |
| AgentLoop.ItemsMean | src/Foundry.Runtime.Core/AgentLoop.cs:111-126 | an accepted stream has at most sixteen distinct non-empty call ids, only when tools are offered, and ends at its completion |
| AgentLoop.Check | src/Foundry.Runtime.Core/AgentLoop.cs:137-155 | the checks of a response pass exactly when it is complete, within its limits, and reuses no call id |
| AgentLoop.Converse | src/Foundry.Runtime.Core/AgentLoop.cs:88-136 | the stream is received while a slot is held exactly when there is one, its items are as they have to be and it does not break; otherwise the reservation is settled as not completed |
| AgentLoop.Respond | src/Foundry.Runtime.Core/AgentLoop.cs:88-166 | one response is committed, with its state saved and its reservation settled as completed, exactly when it passes; the reservation is lost exactly when its commit is rolled back, and settled as not completed in every other case |
| AgentLoop.RunTools | src/Foundry.Runtime.Core/AgentLoop.cs:177-187 | the response's calls are executed in order with no reservation held, as many as their outcomes and the limit of fifty in the turn allow, and neither ledger nor seen ids change |
| AgentLoop.ExecutedRun | src/Foundry.Runtime.Core/AgentLoop.cs:177-187 | how many that is: all that run, and then the first that fails or is left unknown, but none that is cancelled before it starts or over the limit |
| AgentLoop.Iterate | src/Foundry.Runtime.Core/AgentLoop.cs:86-199 | an iteration that goes on has run a tool and holds a new reservation |
| AgentLoop.Run | src/Foundry.Runtime.Core/AgentLoop.cs:54-213 | for every script: the script alone says which iterations begin, whether the last of them completes the turn, and whether it leaves a reservation open; nothing else is held at the end; the attempts, saved responses and settlements are, iteration by iteration, those of the fates; the tools that ran, at most 50, are those of the responses in order, as many of the last one's as its outcomes allow; the last action is the terminal record, and the iteration limit is never reached |
| AgentLoop.BeginsUpToLast | src/Foundry.Runtime.Core/AgentLoop.cs:86-199 | the iterations that begin are exactly those up to the last |
| AgentLoop.LastDecides | src/Foundry.Runtime.Core/AgentLoop.cs:86-199 | some iteration that begins meets a fate that ends the turn exactly when the last one does |
| AgentLoop.TurnSettlesAll | src/Foundry.Runtime.Core/AgentLoop.cs:65-70 | each reservation but a lost one is settled as often as it is admitted, and all admitted ones are settled whenever a tool runs |
| AgentLoop.RolledBackCommitLoses | src/Foundry.Runtime.Core/AgentLoop.cs:159-166 | a script whose first response is completed and its commit rolled back leaves the reservation open |
| AgentLoop.SettledByFate | src/Foundry.Runtime.Core/AgentLoop.cs:65-70 | for every turn: one reservation is admitted for each iteration that begins, and they are settled in that order, as completed exactly when the iteration's response was committed; only the last one can be lost, and only a lost one is not settled |
| AgentLoop.SettlementsAre | src/Foundry.Runtime.Core/AgentLoop.cs:65-70 | the settlement of iteration `k` is of the reservation admitted for it, with the outcome that the iteration's fate says |
| AgentLoop.FatesExactly | src/Foundry.Runtime.Core/AgentLoop.cs:86-199 | exactly when an iteration is lost, completes the turn, goes on, stops after its commit, or fails before it |
| AgentLoop.FailedToolStaysCompleted | src/Foundry.Runtime.Core/AgentLoop.cs:159-187 | a committed response stays settled as completed although its first tool fails |
| AgentLoop.RecordedExecutions | src/Foundry.Runtime.Core/AgentLoop.cs:159-187 | whenever a tool is executed, the state saved last has its call as the first one without a result |
| AgentLoop.HistoryNeverRepeats | src/Foundry.Runtime.Core/AgentLoop.cs:147-151 | over all the turns of one task's history no call id is executed twice |
| AgentLoop.HistoryIsBounded | src/Foundry.Runtime.Core/AgentLoop.cs:149-150 | and at most 1,000 calls are executed in it |
| AgentLoop.AddAllKeeps | src/Foundry.Runtime.Core/AgentLoop.cs:233-245 | adding ids to the seen set keeps its order and its members distinct and adds exactly those ids |
| AgentLoop.SavedIdsComeBack | src/Foundry.Runtime.Core/AgentLoop.cs:247-255 | the saved list of seen ids is read back as it was |
| ExecutionSlots.Pool.Try | src/Foundry.Runtime.Core/ExecutionSlots.cs:17-25 | a caller enters while there is a slot, waits at the end of the list otherwise, and is refused when cancelled |
| ExecutionSlots.Pool.Wake | src/Foundry.Runtime.Core/ExecutionSlots.cs:22-23 | a woken caller leaves the list and looks again |
| ExecutionSlots.Pool.Finish | src/Foundry.Runtime.Core/ExecutionSlots.cs:27 | gives up one slot and signals every listed waiter |
| ExecutionSlots.RunsKeepInv | src/Foundry.Runtime.Core/ExecutionSlots.cs:14-28 | in every run the active count is the number of callers inside and within the limit, and with a slot free every listed waiter is signalled |
| ExecutionSlots.CancelledTakesNoSlot | src/Foundry.Runtime.Core/ExecutionSlots.cs:19-25 | a cancelled caller that looks leaves the list without a slot |
| ExecutionSlots.WakingTakesFreeSlot | src/Foundry.Runtime.Core/ExecutionSlots.cs:17-25 | a waiter can always look again when a slot is free, and then takes one |
| SerialQueue.Creating.Register | src/Foundry.Runtime.Core/RepositoryService.cs:406-409 | gives the operation to wait for and puts this one in its place |
| SerialQueue.Creating.Release | src/Foundry.Runtime.Core/RepositoryService.cs:412 | removes the key exactly when this operation is still the last |
| SerialQueue.StepKeepsInv | src/Foundry.Runtime.Core/RepositoryService.cs:403-420 | every step keeps the chain of each key in order |
| SerialQueue.OneAtATimeInOrder | src/Foundry.Runtime.Core/RepositoryService.cs:403-420 | in every run a later operation of a key starts only after every earlier one has settled, so no two run at once |
| SerialQueue.NeverBlocked | src/Foundry.Runtime.Core/RepositoryService.cs:414-419 | an operation whose predecessors have all settled, failed or not, is running or may start |
| SerialQueue.AbsentKeyIsIdle | src/Foundry.Runtime.Core/RepositoryService.cs:403-420 | a key that the map lacks has only settled operations |
| SerialQueue.MapEmpties | src/Foundry.Runtime.Core/RepositoryService.cs:412 | once every caller has finished the map is empty |
| LineReader.Reader.Push | src/Foundry.Protocol/LineReader.cs:11-30 | the lines that end in this chunk and the pending rest, or a failure exactly when a line or the rest is too long |
| LineReader.Reader.Finish | src/Foundry.Protocol/LineReader.cs:31 | drops the unterminated line |
| LineReader.AnyCutIsWhole | src/Foundry.Protocol/LineReader.cs:11-30 | pushing chunks one by one is pushing their concatenation |
| LineReader.CutsDoNotMatter | src/Foundry.Protocol/LineReader.cs:11-30 | any two ways of cutting a text give the same lines, or both fail, exactly when a line or the tail is over the limit |
| LineReader.LinesAreText | src/Foundry.Protocol/LineReader.cs:18-28 | the lines with their newlines and the tail are the text, and none holds a newline |
| SseReader.Parse | src/Foundry.Providers/SseReader.cs:77-87 | a block's last event name, trimmed, and its data lines joined, or nothing without data |
| SseReader.FrameIsItsLines | src/Foundry.Providers/SseReader.cs:77-87 | a block is a frame exactly when a line begins with "data:"; its data are what follows on those lines, one under another, and its name what follows "event:" on the last line that begins so, without the white space around it |
| SseReader.BlocksAreText | src/Foundry.Providers/SseReader.cs:52-58 | the blocks, each with its blank line, and the rest are the text, and no blank line is within a block or the rest |
| SseReader.LineEndingsBecomeFeeds | src/Foundry.Providers/SseReader.cs:50 | a carriage return, with its line feed if it has one, becomes a line feed, and every other unit stays |
| SseReader.Reader.Feed | src/Foundry.Providers/SseReader.cs:40-63 | one read delivers the blocks it completes and keeps the rest, or fails by the byte, buffer or event limit |
| SseReader.Reader.Turn | src/Foundry.Providers/SseReader.cs:54-62 | one turn of the inner loop takes the next block, or fails past the event limit |
| SseReader.Reader.Split | src/Foundry.Providers/SseReader.cs:52-63 | the inner loop takes blocks until no blank line is left or the event limit is passed |
| SseReader.CleanReadsAreClean | src/Foundry.Providers/SseReader.cs:44-50 | the cleaned reads together are the cleaned text exactly when no read ends between a carriage return and its line feed; otherwise they are longer |
| SseReader.ReadsKeep | src/Foundry.Providers/SseReader.cs:33-64 | a reading succeeds exactly when at every read the bytes so far, what is undelivered with this read, and the blocks so far keep their limits |
| SseReader.AnyCutIsWhole | src/Foundry.Providers/SseReader.cs:33-64 | reads that cut no line ending deliver a prefix of the frames of the whole text, and all of them exactly when each read keeps the limits |
| SseReader.FramesOfWholeText | src/Foundry.Providers/SseReader.cs:33-64 | the same for any cut of a text without carriage returns: its frames are those of the text split at blank lines |
| SseReader.CutsDoNotMatter | src/Foundry.Providers/SseReader.cs:33-64 | two cuts between line endings whose reads keep the limits deliver the same frames |
| SseReader.LimitsDependOnTheCut | src/Foundry.Providers/SseReader.cs:50-51 | a line that just fits the limit with its blank line, and one more unit, cut anyhow, are accepted exactly when some read begins after the blank line |
| SseReader.SmallReadsAreAcceptedOrRefused | src/Foundry.Providers/SseReader.cs:21-51 | the same text in reads of at most 64 KiB, cut in two ways: accepted the one way and refused the other |
| SseReader.CutsMatterInsideLineEndings | src/Foundry.Providers/SseReader.cs:50 | cut between a carriage return and its line feed, two data lines are two frames; uncut they are one |
| ProviderCalls.ValidateCalls | src/Foundry.Providers/AzureRequests.cs:149-157 | accepts exactly calls of advertised tools with distinct ids |
| ProviderCalls.BuildExpected | src/Foundry.Providers/AzureRequests.cs:139-140 | the last call of each id |
| ProviderCalls.RequiredResults | src/Foundry.Providers/AzureRequests.cs:131-146 | accepts exactly results with distinct ids that are the pending calls' ids, each with its call's name |
| ProviderCalls.ResultsArePermutations | src/Foundry.Providers/AzureRequests.cs:131-157 | after valid calls the next request is accepted exactly when its results are a permutation of the calls by id and name |
| ProviderCalls.CallsComeBack | src/Foundry.Providers/AzureRequests.cs:122-128 | the calls kept in a continuation are read back as they were |
| ChatCompletionsStream.Add | src/Foundry.Providers/ChatCompletionsStream.cs:96-105 | a fragment extends the part of its index: ids and names replace, argument text appends |
| ChatCompletionsStream.ReadChoice | src/Foundry.Providers/ChatCompletionsStream.cs:46-75 | one choice of a frame, with its failures and the text it yields |
| ChatCompletionsStream.ReadFrames | src/Foundry.Providers/ChatCompletionsStream.cs:27-76 | the frames up to a failure, with nothing allowed after the end mark |
| ChatCompletionsStream.ChoicesSucceed | src/Foundry.Providers/ChatCompletionsStream.cs:52-74 | choices are read to a good end exactly when all are supported, exactly one finish reason comes, and nothing follows it |
| ChatCompletionsStream.FramesMarked | src/Foundry.Providers/ChatCompletionsStream.cs:29-35 | frames are read to the end mark exactly when it comes once and last and all choices before it are read |
| ChatCompletionsStream.Read | src/Foundry.Providers/ChatCompletionsStream.cs:19-93 | delivers exactly when the stream ends well; then the text events concatenate to the continuation's content, the calls follow in index order, valid, and present exactly when the finish reason says so |
| ChatCompletionsStream.ArgumentsAreConcatenated | src/Foundry.Providers/ChatCompletionsStream.cs:104 | a call's argument text is the concatenation of its fragments' |
| ChatCompletionsStream.CallIsSpelled | src/Foundry.Providers/ChatCompletionsStream.cs:96-109 | the call of an index has the last id and the last name given for it, neither empty, and what all its argument text parses to; without them there is no call |
| ChatCompletionsStream.InterleavingDoesNotMatter | src/Foundry.Providers/ChatCompletionsStream.cs:19-105 | two streams that end alike, with the same texts, finish reasons and fragments of each index, deliver the same events or nothing |
| AnthropicStream.Append | src/Foundry.Providers/AnthropicStream.cs:117-126 | appends to the builder of a block and field, which begins with the field's text |
| AnthropicStream.AppendDefers | src/Foundry.Providers/AnthropicStream.cs:117-126 | with builders written back, appending to one is appending to the field itself, positions of fields included |
| AnthropicStream.Apply | src/Foundry.Providers/AnthropicStream.cs:109-139 | a delta appended by builder, or a signature replaced in place |
| AnthropicStream.ReadFrames | src/Foundry.Providers/AnthropicStream.cs:29-88 | builders written back at the end give the blocks that appending every delta in place gives |
| AnthropicStream.FieldIsConcatenated | src/Foundry.Providers/AnthropicStream.cs:109-139 | a text field is what the block started with and then all its deltas in order, whatever comes between |
| AnthropicStream.FinalizeAll | src/Foundry.Providers/AnthropicStream.cs:89 | the blocks in the order given, each finalized, or a failure |
| AnthropicStream.CollectCalls | src/Foundry.Providers/AnthropicStream.cs:90-91 | the calls of the tool-use blocks in order |
| AnthropicStream.Read | src/Foundry.Providers/AnthropicStream.cs:17-103 | delivers exactly when each frame fits those before it, the message stops, the blocks that start are those that stop, there is a good reason and no bad one, and the calls are complete, valid and agree with it; then the text of the text deltas, the calls in index order, and the blocks with their deltas applied and their assembled JSON replaced by what it is read as |
| AnthropicStream.FramesHold | src/Foundry.Providers/AnthropicStream.cs:29-82 | frames are read to their end exactly when each fits those before it, and the state then holds each block as its own deltas leave it, the blocks stopped, the last good reason and the text |
| AnthropicStream.CallHasInput | src/Foundry.Providers/AnthropicStream.cs:143-154 | a finalized tool use is one call with a non-empty id and name whose arguments parse from its assembled JSON |
| AnthropicContent.ContentIsDelivered | src/Foundry.Providers/AnthropicStream.cs:88-89 | each block of a delivered message: with assembled JSON, that member is gone, the input is what it parses to, and every other member keeps its value and place; without it the block is as the deltas left it; a tool use has a non-empty id, a non-empty name and an input |
| AnthropicContent.ContentWhen | src/Foundry.Providers/AnthropicStream.cs:143-154 | there is content exactly when each block's assembled JSON parses and each tool use has its id, its name, and an input or the JSON of one |
| AnthropicContent.CallsAreToolUses | src/Foundry.Providers/AnthropicStream.cs:90-91 | the calls are the tool uses of the content, in order, each with its own id, name and input |
| AnthropicContent.OtherMembersStay | src/Foundry.Providers/AnthropicStream.cs:109-139 | deltas leave every member but the text fields and the signature as it started, in order |
| AnthropicContent.SignatureIsLast | src/Foundry.Providers/AnthropicStream.cs:109-139 | a block's signature is that of its last signature delta |
| AnthropicContent.TextsAreDelivered | src/Foundry.Providers/AnthropicStream.cs:109-139 | the texts delivered are those of the text deltas that are not empty, in order, and no other |
| IntOrder.AscendingIs | src/Foundry.Providers/AnthropicStream.cs:89 | ordering by index lists every index once, ascending |

## Left out

- Timing and threads: each section between awaits on the owner thread is one atomic step; only RuntimeLoop's operations from
  other threads are interleaved one by one.
- The `exited` task, callback failures and transaction scopes of RuntimeLoop; a failing cleanup completes adding like any
  other.
- A turn of the owner thread in RuntimeLoop is atomic: the calls that its body makes are steps of their own beside it. It
  finishes at most one work item, at its end, while .NET can run continuations of the same context inline within a turn.
- The cleanup of RuntimeLoop is assumed to observe no task: `ObserveRejectedTask` called from it would raise the active count
  again, and continuations queued before adding completes would run after the cleanup.
- Aliasing in the JSON reader: the source attaches an open container and fills it afterwards; the model attaches it when it
  closes, with the same value at the end.
- Parsing and formatting of doubles: `num` and `show` are parameters. The round trip assumes that a finite number prints as a
  numeral and that reading and printing it again gives that text.
- The writer's other inputs (wire models, JsonElement, non-generic dictionaries, reflection over records) and its recursion
  depth.
- The Unicode tables are parameters. Lowering assumes that a backslash is neither cased nor case-ignorable, lowers to itself,
  and that no character lowers to nothing or to a text with a separator; the U+0130 example assumes that character's row.
- 64-bit overflow of instants near the ends of the range, which the source's unchecked arithmetic would wrap.
- RepositoryPaths.InsideIsPrefix: for places on drives; of places on shares and devices the model says how they are compared.
- NodePath.ResolvesToLanding: assumes that the current directory and the drive's directory, if any, say their device and begin
  at its root, as Windows keeps them; Resolve itself is modelled for any.
- Reserved device names and names of secrets: the patterns are one predicate, `listed`.
- Handles, leases and reparse-point checks around the lexical path rules.
- SHA-256 and the locale order of a folder's entries: the digest is the bytes hashed, and a folder lists its entries in order.
- The `channel.changed` event that follows a message is one of the other events of the log.
- Parsing of event rows, redaction, availability and bindings in the channel: what a row holds and whether a sender or
  recipient is available are inputs; a row the source cannot read is `Damaged`.
- AnthropicContent.ContentIsDelivered: assumes that the block which a stream starts has each key once, as a dictionary has, and lists
  members in the order in which they were set.
- ChannelDelivery.Include: assumes that a longer cut of a message is never smaller on the wire, as appending text is.
- AgentLoop.Run: store operations other than the commit of a response are assumed to succeed on the failure paths, and event-delivery
  failures, which end a turn without its terminal record, are left out, as are progress, warnings and usage figures.
- AgentLoop.HistoryIsBounded: for a history that begins within the limit of 1,000 seen ids.
- Expiry of a turn after ten minutes appears as cancellation in the script.
- Ids of saved calls that are null in old provider state.
- Metadata and usage events of the stream assemblers; a frame whose payload, type or usage the source refuses is
  `Unreadable`. Events that were delivered before a stream fails are not kept in a failed result.
- The history and system text that a continuation carries beside its content and calls.
- Decoding UTF-8: line and event readers take decoded text with the number of its bytes, and the decoder is assumed not to
  depend on the cut.
- Cancellation and idle timeouts of SseReader.
- HTTP, SQL, credentials, windows and every foreign call.

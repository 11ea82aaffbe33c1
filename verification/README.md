# Verified models of the VM host and the Cocoa GUI

This project models the parts of the repository in which a small, hand-written algorithm carries a large
claim, and proves the claim or the exact condition under which it holds.

* **Entry recovery** (`GuestSemantics`, `GuestMachine`, `Embed`). Guest code is a tree of computations that may acquire
  resources, nest entries, raise or fault. `Ideal` gives it the meaning of structured exceptions with one
  handler per entry. `VmHandle` is the machine: recovery slots in a shared registry, a stack of idle
  baselines, a callback depth, the watermark and the tier journal, all rewound by hand after a long jump.
  The machine is proved to answer, log and restore what `Ideal` says, for every guest and every nesting;
  it departs from it exactly when slots run out or when a nested recovery empties the record of a
  redirected frame that is still live. `Ideal` itself agrees with a machine that unwinds a stack of handlers.
* **Smalltalk text** (`Reading`, `Format`, `FormatLiterals`, `FormatMargins`, `Colorize`, `ColorizeFlags`,
  `Regex`, `Highlight`, `ColorizeVsHighlight`, `Utf16Match`, `Mst2st`, `Quoting`). The re-indenter, the native
  colouring scanner, the web highlighter's regular expression (leftmost, ordered alternatives, greedy
  repetition with backtracking), the bracket matcher, the string escaper and its readers. `Reading` reads text
  one character at a time; the formatter and the bracket matcher are measured against it.
* **The primary's life cycle** (`Supervisor`, `Drain`, `FileIn`). Transition systems for the watchdog, the
  main thread's re-sync and drain, and parked file-ins, with every interleaving of the threads' accesses.
* **The game session** (`Game`, `GameAtoms`). Each function as one step, then the stop and the poll at the
  granularity of single atomic accesses.
* **Codecs and stores** (`Base64`, `CommandBatch`, `Bitmap`, `Persist`, `Symbols`). Base64 decoding bit by bit,
  the drawing-command parser, the copy of pixel rows, the diff-only save and prefix completion.

Code that changes state is written as classes and methods with loops; each such method is proved against a
function on values, and the claims are proved of that function. `Text` and `Options` are shared helpers.

## What the proofs found

* *Compiled depth can drift.* When a nested entry recovers under compiled code, recovery zeroes the compiled
  depth and the still-live compiled activation then subtracts one. In 32-bit wrapping arithmetic a top-level
  entry leaves the depth at 2^32 - 1 (a build with overflow checks stops there). The depth is zero exactly
  when the number of such stranded activations is a multiple of 2^32.
* *An outer journal does not survive a nested recovery* unless it was what the recovery leaves, and a
  redirected frame whose record was emptied panics on return.
* *The two colourers differ* on exactly four kinds of token: a `$` whose character starts a token, an
  unterminated quote, a symbol directly followed by `:`, and a fraction directly followed by a word
  character. Each kind alone is enough.
* *A `{` inside a literal array is never closed*: the literal depth is one too high for each of them.
* *A death event can take down a live primary.* Events carry no generation. It is not enough that retired
  generations stay silent: a death posted by the current generation behind a queued restart request also
  retires its successor. A death retires its own generation exactly when, as it is posted, nothing is queued
  and the watchdog is receiving, handing over or supervising that generation.
* *A second demo can be launched over the first one's window*, because nothing marks a launched demo as
  running until its StartLoop is drained. Once it runs, no launch finds its window. Otherwise the window is
  gone at the next launch exactly when a due stop was serviced or a StopLoop drained before that poll.
* *A launch can overtake a stop that is due*, since a poll never looks at the stop flag: exactly when the loop
  is not running by then, as before a StartLoop or after a StopLoop. The late stop then hits the new demo.
  And a running demo that stops itself is followed by the next one without a reset.
* *A launch can overtake the reset* of a stop in progress, when a poll checks for a reset before the stop has
  flagged one and the loop was not running, or is read as inactive after the stop has cleared it. The reset is
  then the next thing handed out only if it was flagged by the take: otherwise a second launch, or frames, can
  come out first, but no more than two answers. A demo launched before the stop's second access also loses the
  session it was just given.
* *A launch can be taken while a loop is running*: when a StartLoop is drained between a poll's reading of the
  loop and its take. Neither this nor the point before happens in a run where no stop or poll overlaps what the
  other thread does.
* *A restart does not always close the old game*: a StartLoop still queued brings it back after the stop, and
  a window painted before its StartLoop was drained is not seen as a running game.
* *A parked file-in is bound to the stamp, not to the generation's start*: a generation takes the parked
  request exactly when it read its stamp after the request's bump, even if it registered before.
* *The formatter does not keep every literal byte for byte*, as `cocoa_gui/src/format.rs:5-12` says it does, nor
  emit lines that start inside one verbatim: it trims whitespace at the end of a line in a string or comment
  and the character of a `$` at the end of a code line, and gives an unterminated literal one final newline.
  Every other literal keeps its text.
* *A save with a duplicated key* stores an earlier definition when the last one equals what was stored before.

## Model

| member | source | states |
|---|---|---|
| `GuestSemantics.RunIsIdeal` | src/embed.rs:698-753 | a guest run with slots and journal crashes exactly when it is unsafe (no free slot, or a recovery under a live redirected frame), and otherwise has the outcome and log of structured exceptions; on a return the journal is exactly what it was, less a closed anchor or parked return, or, after a recovery, empty with the stranded decrements owed |
| `GuestSemantics.EntryIsIdeal` | src/embed.rs:830-908 | the same for one entry: value, error or shape default, with callbacks answering their default under either policy |
| `GuestMachine.MachineIsIdeal` | src/embed.rs:698-908 | a step-by-step machine that unwinds a stack of handlers one frame at a time gets, for every guest over every stack, to the outcome of structured exceptions and has logged the same |
| `GuestMachine.EntryIsMachine` | src/embed.rs:698-908 | and goes on, after an entry, with the answer structured exceptions give it |
| `GuestSemantics.EvalIsTransparent` | src/embed.rs:698-753 | code that evaluates an item goes on with the very value the item finished with, after its log; under Resume with its message or its fault's three numbers, on an empty journal; under Die not at all |
| `GuestSemantics.ExecIsTransparent` | src/embed.rs:764-815 | the same for `exec`, which goes on with nothing |
| `GuestSemantics.CallbackIsTransparent` | src/embed.rs:830-908 | a callback goes on with its handler's word, or with its default under either policy, a fault leaving its line |
| `GuestSemantics.OpenScopesAreTheJournal` | src/interpreter/compiled_call.rs:130-175 | with resources taken one inside the other the journal lists exactly the open activations, redirected frames and pools, innermost first, and counts the activations modulo 2^32 |
| `GuestSemantics.CloseUndoesOpen` | src/interpreter/compiled_call.rs:130-175 | giving a resource back undoes taking it, unless a recovery came between; then a compiled activation leaves one more decrement owed and a redirected frame cannot be given back |
| `GuestSemantics.CleanIffNothingStranded` | src/embed.rs:651-671 | a top-level entry started with a clean journal leaves it clean exactly when the compiled activations its recoveries stranded cancel modulo 2^32 |
| `GuestSemantics.OuterJournalAfterRecovery` | src/embed.rs:634-671 | after any entry in which something was recovered, its own raise or a nested one's, the journal is empty but for the decrements owed, so the outer one survives exactly when it was that |
| `GuestSemantics.RecoveryUnderCompiledCodeDrifts` | src/interpreter/compiled_call.rs:167-171 | the smallest guest after which the compiled depth is 2^32 - 1 |
| `GuestSemantics.RaiseUnwindsExactlyOneLevel` | src/embed.rs:1587-1637 | at any nesting depth a raise costs exactly the innermost entry; every level above logs its answer and finishes |
| `Embed.PushKeepsSound` | src/codecache/deopt_trap.rs:478-495 | live entries keep owning distinct slots, the cached top is the last, each has a baseline |
| `Embed.PushTakesOneSlot` | src/codecache/deopt_trap.rs:482-489 | a push uses up exactly one free slot |
| `Embed.PopUndoesPush` | src/embed.rs:565-568 | the pop that answers a push restores registry, slot stack, cached top and baselines |
| `Embed.VmHandle.constructor` | src/embed.rs:531-547 | a fresh handle has no live entry, the boot watermark and an empty journal |
| `Embed.VmHandle.PushEntryFrame` | src/codecache/deopt_trap.rs:478-495 | claims a free slot and makes it the top; fails only with no slot free |
| `Embed.VmHandle.PopEntryFrame` | src/codecache/deopt_trap.rs:510-518 | releases the top slot and re-exposes the one below |
| `Embed.VmHandle.PushIdleBaseline` | src/embed.rs:549-556 | the current watermark becomes the top baseline |
| `Embed.VmHandle.BeginEntry` | src/embed.rs:846-903 | after it one pop, and one decrement for a callback, lead back to the state before |
| `Embed.VmHandle.PopEntry` | src/embed.rs:565-568 | both stacks lose their tops together |
| `Embed.VmHandle.RestoreAfterGuestFatal` | src/embed.rs:634-671 | the watermark is the top baseline's, or the boot one with none; the arena never grows; the journal is empty |
| `Embed.VmHandle.EnterCallback` | src/embed.rs:177-179 | one more callback |
| `Embed.VmHandle.LeaveCallback` | src/embed.rs:181-183 | one callback fewer, never below zero |
| `Embed.VmHandle.RaiseGuestFatal` | src/codecache/deopt_trap.rs:747-757 | the message is addressed to the innermost live entry and control lands there |
| `Embed.VmHandle.TakeLastGuestFatalMessage` | src/codecache/deopt_trap.rs:764-767 | reads back and clears what was addressed to the top slot only |
| `Embed.VmHandle.TakeLastCrashInfo` | src/codecache/deopt_trap.rs:682-691 | the same for a fault |
| `Embed.VmHandle.HandleFatal` | src/embed.rs:595-623 | Resume rewinds and reports the error, Die terminates |
| `Embed.VmHandle.LandInEval` | src/embed.rs:713-732 | both recovery arms: the error that was thrown, the entering state, an empty journal |
| `Embed.VmHandle.LandInCallback` | src/embed.rs:867-895 | both arms answer the default whatever the policy, count the callback down and name a fault on the transcript |
| `Embed.VmHandle.Guarded` | src/embed.rs:734-752 | the part the entry points share: run under a slot and a baseline, pop both unless a jump skipped that |
| `Embed.VmHandle.Eval` | src/embed.rs:698-753 | answers the item's own value, its message, its fault's numbers, blank or its compile error, and leaves slots, baselines, depth and watermark as found on every way out |
| `Embed.VmHandle.Exec` | src/embed.rs:764-815 | the same, answering nothing for a finished item |
| `Embed.VmHandle.DispatchCallback` | src/embed.rs:830-908 | the handler's word or the default, which a raise answers under either policy; a fault adds its line |
| `Embed.VmHandle.RunGuest` | src/embed.rs:741-750 | a guest body's raise lands in the innermost live entry with its message posted there |
| `Embed.VmHandle.Serve` | cocoa_gui/src/supervisor.rs:388-450 | any sequence of failing and succeeding top-level entries answers and logs as structured exceptions do and drifts nowhere; alive exactly when every entry survives |
| `Format.ScanLine` | cocoa_gui/src/format.rs:31-68 | one line's scan |
| `Format.CountLeadingClosers` | cocoa_gui/src/format.rs:83-92 | closers before the first character that is neither a closer nor a blank |
| `Format.EmitLine` | cocoa_gui/src/format.rs:70-98 | a line's output from the state it starts in |
| `Format.OneFinalNewline` | cocoa_gui/src/format.rs:101-108 | trailing empty lines collapse to one newline |
| `Format.FormatSource` | cocoa_gui/src/format.rs:22-110 | the whole loop computes `Formatted` |
| `Format.ScanAcrossNewline` | cocoa_gui/src/format.rs:33-68 | stopping at a newline and going on is one uninterrupted scan, whatever precedes the newline |
| `Format.LineStartsAgree` | cocoa_gui/src/format.rs:27-68 | the state at every line start is that of one scan of the whole text |
| `Format.FormatIsIdempotent` | cocoa_gui/src/format.rs:1-12 | formatting twice is formatting once, for every text |
| `Format.FormatKeepsContent` | cocoa_gui/src/format.rs:5-12 | the output has the input's lines up to trailing blank ones, each in the same lexical state, code lines differing in their margins only, others at their end only |
| `Format.FormatKeepsInk` | cocoa_gui/src/format.rs:5-12 | no graphic character is lost, added or moved |
| `Format.EndsWithOneNewline` | cocoa_gui/src/format.rs:101-108 | the output of every text ends with exactly one newline |
| `FormatMargins.MarginIsDepth` | cocoa_gui/src/format.rs:27-98 | every kept non-blank line that starts in code has four spaces for each level: the greatest excess of opening over closing brackets, outside literals, over all ends of the text before it, less the closers it starts with |
| `FormatMargins.ScanIsReading` | cocoa_gui/src/format.rs:31-68 | the scanner's state is that of a reading one character at a time, its depth that greatest excess |
| `FormatLiterals.LiteralsSurviveIff` | cocoa_gui/src/format.rs:5-12 | every string, comment and character literal keeps its text exactly when no whitespace at a line's end belongs to a literal, and a text that ends in an open literal ends with one newline |
| `FormatLiterals.BlankEnd` | cocoa_gui/src/format.rs:70-78 | trimming a line's end touches a literal exactly when the rest of the line ends inside one or on a `$` |
| `Regex.StarIsRun` | gui/assets/smtk.js:300-301 | a greedy star gives back its run one unit at a time |
| `Regex.OnlyFromTop` | gui/assets/smtk.js:300-301 | backtracking below a run's top is fruitless when nothing matches there |
| `Highlight.MatchIsToken` | gui/assets/smtk.js:300-301 | what the expression matches at a place, by ordered alternatives and backtracking, is the token the rules describe there |
| `Highlight.Exec` | gui/assets/smtk.js:307-308 | the leftmost match from a place, with the alternative that made it |
| `Highlight.HighlightSmalltalk` | gui/assets/smtk.js:303-322 | the loop wraps exactly the matches |
| `Colorize.ScanQuoted` | cocoa_gui/src/colorize.rs:83-114 | a quoted token, to the end of the text when unterminated |
| `Colorize.ScanWord` | cocoa_gui/src/colorize.rs:147-189 | keywords, pseudo-variables, sends |
| `Colorize.ScanNumber` | cocoa_gui/src/colorize.rs:190-214 | word-bounded numbers |
| `Colorize.ScanToken` | cocoa_gui/src/colorize.rs:80-247 | one turn of the scanner |
| `Colorize.SpansUtf16Checked` | cocoa_gui/src/colorize.rs:58-249 | the spans of the scan in UTF-16 units |
| `Colorize.SpansAreOrdered` | cocoa_gui/src/colorize.rs:72-249 | spans are non-empty, ordered and disjoint, in either mode and from any state |
| `Colorize.Utf16SpansAreOrdered` | cocoa_gui/src/colorize.rs:12-14 | so are they in UTF-16 units, inside the text and on character boundaries |
| `Colorize.CheckedErasesToPlain` | cocoa_gui/src/colorize.rs:153-185 | checked mode with its flags taken back is plain mode |
| `Colorize.MoreKnownFlagsLess` | cocoa_gui/src/colorize.rs:157-184 | knowing more selectors only takes flags away |
| `ColorizeFlags.FlaggedIff` | cocoa_gui/src/colorize.rs:47-57 | for every text and all sets a span is flagged exactly when it is a lowercase identifier, no pseudo-variable and no known unary selector, whose nearest earlier token past blanks and comments ends a primary, or a keyword not followed by `=` that is no known part; both outside every open array literal, in which a `}` closes nothing |
| `ColorizeFlags.StepIsToken` | cocoa_gui/src/colorize.rs:80-247 | each turn of the scan takes one token of the text and moves the send-position state by the token's class |
| `Colorize.ArrayDepth` | cocoa_gui/src/colorize.rs:115-121 | after a closed array literal the depth is what it was plus one for each brace token in it |
| `ColorizeVsHighlight.SameSpansIffAgrees` | cocoa_gui/src/colorize.rs:1-10 | the scanner's plain spans are the expression's matches exactly when the walk meets none of the four kinds of token |
| `ColorizeVsHighlight.EachKindDisagrees` | cocoa_gui/src/colorize.rs:95-203 | for a text of each of the four kinds the spans differ |
| `ColorizeVsHighlight.StartsTokenIff` | gui/assets/smtk.js:300-301 | the test on the characters after a `$` says whether the expression has a token there |
| `ColorizeVsHighlight.PlainTextsAgree` | cocoa_gui/src/colorize.rs:1-10 | every text with no `$`, no unterminated quote, no symbol directly followed by a colon and no fraction directly followed by a word character is coloured alike |
| `Utf16Match.TokensOfUnits` | gui/assets/smtk.js:300-308 | matching UTF-16 units finds the code points' tokens at their unit offsets |
| `Utf16Match.OneRuleSetTwoRenderers` | cocoa_gui/src/colorize.rs:1-14 | offset for offset in UTF-16 units, both renderers agree on a text exactly under that condition |
| `Utf16Match.PlainTextsColourAlike` | cocoa_gui/src/colorize.rs:1-14 | and so is every such text in UTF-16 units |
| `Mst2st.SkipAtom` | scripts/mst2st.py:24-43 | where an atom ends |
| `Mst2st.StringEndIsFirstPairing` | scripts/mst2st.py:27-36 | a string ends at the first place where its quotes pair up and no quote follows, or runs off the text |
| `Mst2st.FindMatching` | scripts/mst2st.py:46-61 | the loop computes `Matching`; none stands for the raised error |
| `Mst2st.MatchingIsFirstBalance` | scripts/mst2st.py:46-61 | with brackets open, the first place the walk reaches where they are closed, and none exactly when there is none |
| `Mst2st.FindsShortestBalancedPrefix` | scripts/mst2st.py:46-61 | from an opening bracket, the end of the shortest prefix balanced on the walk over atoms, and an error exactly when none exists |
| `Mst2st.MatchesTheReading` | scripts/mst2st.py:24-61 | from an opening bracket, the least end at which the text, read one character at a time as code, string, comment or character literal, is in code with as many closing as opening brackets read in code, and an error exactly when there is none |
| `Quoting.EscapeStFront` | cocoa_gui/src/filein.rs:64-66 | the three replacements act on each character by itself |
| `Quoting.ExtractAsmPragma` | src/bin/asm_preview.rs:20-41 | the text of the first literal after the first tag, or none |
| `Quoting.FindIsFirst` | src/bin/asm_preview.rs:21-23 | the first occurrence |
| `Quoting.ReadersAgree` | cocoa_gui/src/format.rs:36-45 | on every text the formatter's lexer, the atom skipper and the extractor agree where a literal ends and whether it does |
| `Quoting.OneEscapeThreeReaders` | cocoa_gui/src/filein.rs:61-66 | a quoted, escaped string is one atom exactly when no quote follows; then the lexer is back in code at its end and the extractor gives it back with newlines flattened |
| `Quoting.StillInside` | cocoa_gui/src/format.rs:36-45 | at every cut between two characters of the original the lexer is still inside the string |
| `Quoting.PragmaRoundTrip` | src/bin/asm_preview.rs:15-19 | a pragma holding an escaped string is extracted from any source in which its tag comes first |
| `Supervisor.Watchdog.AwaitRegistration` | cocoa_gui/src/supervisor.rs:221-277 | how each end of a boot moves the watchdog; a received registration is not handed over yet |
| `Supervisor.Watchdog.HandOver` | cocoa_gui/src/supervisor.rs:279-290 | the link goes to main, or the watchdog returns when main is gone |
| `Supervisor.Watchdog.BootFailure` | cocoa_gui/src/supervisor.rs:229-276 | the first generation's failure returns; a later one counts, and the fifth in a row exits |
| `Supervisor.Watchdog.Supervise` | cocoa_gui/src/supervisor.rs:292-300 | any event retires the current generation |
| `Supervisor.Watchdog.WatchdogMain` | cocoa_gui/src/supervisor.rs:185-302 | the loop over any sequence of boots and events |
| `Supervisor.WhenBlocked` | cocoa_gui/src/supervisor.rs:194-302 | whenever it blocks: one registration more than events consumed, every link delivered once in increasing order, at most four failed boots between two registrations |
| `Supervisor.ExitsAfterFiveFailures` | cocoa_gui/src/supervisor.rs:71-72 | it exits with 73 exactly when the fifth boot in a row after a registration fails |
| `Supervisor.ExactlyThePastIsStopped` | cocoa_gui/src/supervisor.rs:229-300 | in every run that goes on, the generations before the current one, replaced or failed, are exactly those whose stop flag is set |
| `Supervisor.DeathRetiresItsOwnIff` | cocoa_gui/src/supervisor.rs:292-300 | in every run a death retires the generation that died exactly when, as it was posted, nothing was queued and the watchdog was receiving, handing over or supervising that generation |
| `Supervisor.DeathWhileBeingReceived` | cocoa_gui/src/supervisor.rs:363-378 | a run in which a generation dies between sending its registration and being supervised, and is replaced by its own death |
| `Supervisor.LiveGenerationNeedsARestart` | cocoa_gui/src/supervisor.rs:63-71 | with all deaths posted so, a live generation is retired only by a restart request |
| `Supervisor.RetiredGenerationKillsItsSuccessor` | cocoa_gui/src/supervisor.rs:78-82 | a run in which a retired generation's late death retires a live one |
| `Supervisor.RestartJustBeforeTheDeath` | cocoa_gui/src/supervisor.rs:168-170 | a run in which a current generation's death does, a restart request being queued ahead |
| `Drain.ShownInOrder` | cocoa_gui/src/main.rs:233-270 | in every interleaving envelopes are shown generation by generation, in send order, at most once; each generation switched to has one restart note, between what earlier ones and what it sent; role, id, reply link and inbox name one generation |
| `Drain.AllDeliveredIff` | cocoa_gui/src/main.rs:248-255 | everything a replaced generation sent is shown exactly when it sent nothing after its inbox was last found empty |
| `Drain.LateSendIsLost` | cocoa_gui/src/main.rs:254-266 | a run in which an envelope sent between the last empty poll and the switch is never shown |
| `Drain.StepConserves` | cocoa_gui/src/main.rs:254-271 | shown, then queued, is sent: every access keeps that for every generation |
| `Drain.DrainState.DrainInbox` | cocoa_gui/src/main.rs:254-256 | dispatches until the inbox is empty |
| `Drain.DrainState.SwitchTo` | cocoa_gui/src/main.rs:257-266 | the four fields change together |
| `Drain.DrainState.DrainPerform` | cocoa_gui/src/main.rs:233-279 | one undisturbed drain is a run of the single accesses and ends on the newest generation with an empty inbox; if it took up a link, a busy game's stop is serviced before its queue is drained |
| `Game.Session.StopForResync` | cocoa_gui/src/main.rs:243-245 | a stop is due if one was or the game is busy |
| `Game.ResyncShutsIff` | cocoa_gui/src/main.rs:233-279 | whatever happens between the check and the drain, the old game is shut at the end of a re-sync exactly when the queue as drained has no StartLoop after its last StopLoop, and a stop was due or asked for, or the game was busy, or the queue has a StopLoop, or nothing was open and nothing launched |
| `Game.ResyncMissesUnstartedLoop` | cocoa_gui/src/main.rs:234-245 | a queued StartLoop, and a window painted before its StartLoop, each survive a re-sync |
| `FileIn.Parking.RequestAfterRestart` | cocoa_gui/src/filein.rs:37-43 | a new number, and the slot holds this request |
| `FileIn.Parking.TakeFor` | cocoa_gui/src/filein.rs:53-59 | empties the slot for a stamp that counts the request, and else leaves it |
| `FileIn.RunsAtMostOnce` | cocoa_gui/src/filein.rs:30-35 | in every interleaving a request runs at most once over all generations, and only as the newest one parked |
| `FileIn.RunByOneStampedAfterTheRequest` | cocoa_gui/src/filein.rs:10-22 | whatever ran was requested before the generation that ran it read its stamp |
| `FileIn.TakesIffStampedAfterTheRequest` | cocoa_gui/src/filein.rs:50-59 | in every run a stamped generation that comes for the parked request takes it exactly when the request was bumped before the stamp was read, and else leaves everything as it is |
| `FileIn.RegisteredBeforeTheRequest` | cocoa_gui/src/supervisor.rs:354-390 | a generation registered before the request runs it when its stamp comes later |
| `FileIn.OneRequesterParksInOrder` | cocoa_gui/src/filein.rs:31-35 | with one requesting thread the newest parked request is the newest request |
| `FileIn.TwoRequestersMayParkOutOfOrder` | cocoa_gui/src/filein.rs:38-41 | with two it need not be |
| `Game.Session.EnsurePane` | cocoa_gui/src/game.rs:106-148 | a window is created only if there is none and one can be |
| `Game.Session.CloseWindow` | cocoa_gui/src/game.rs:171-205 | session closed, window gone, loop inactive |
| `Game.Session.Apply` | cocoa_gui/src/game.rs:269-296 | one drained command |
| `Game.Session.Drain` | cocoa_gui/src/game.rs:261-297 | the queue is emptied and its commands applied in order |
| `Game.Session.ServiceStopOnMain` | cocoa_gui/src/game.rs:312-317 | a stop that is due closes the window and flags the reset |
| `Game.Session.RequestLaunch` | cocoa_gui/src/game.rs:322-330 | the launch is pending, and a running game is to stop |
| `Game.Session.PollPrimaryStep` | cocoa_gui/src/game.rs:361-382 | reset, then launch, then frame |
| `Game.Session.GameTick` | cocoa_gui/src/game.rs:389-406 | Escape asks for a stop, otherwise a frame is due |
| `Game.RunsStaySound` | cocoa_gui/src/game.rs:48-53 | in every run a window, or a running loop, exists only in an open session |
| `Game.ClosedStaysClosed` | cocoa_gui/src/game.rs:171-175 | no run brings a closed window back until a launch is taken or a StartLoop drained |
| `Game.StopThenReset` | cocoa_gui/src/game.rs:307-317 | after a serviced stop, in every continuation, the reset is handed out before anything else |
| `Game.IdleUntilWoken` | cocoa_gui/src/game.rs:299-305 | a run stays idle throughout exactly when no launch is asked for, no due stop is serviced and no StartLoop is drained that a later command does not stop; then it hands out nothing |
| `Game.FrameHandedIff` | cocoa_gui/src/game.rs:377-404 | after every run a poll hands out a frame with mask `m` exactly when the loop is running, no reset is due, and the last tick without Escape had that mask and came after the last poll that handed out a frame |
| `Game.LaunchHandedIff` | cocoa_gui/src/game.rs:322-376 | a poll hands out the launch of an entry exactly when no loop is running, no reset is due, and the last launch asked for was of it and came after the last launch handed out |
| `Game.ResetHandedIff` | cocoa_gui/src/game.rs:312-365 | a poll hands out a reset exactly when a stop that was due has been serviced since the last reset |
| `Game.WindowShowsItsSession` | cocoa_gui/src/game.rs:106-148 | in every run from the start an open window shows the drawing commands drained since its session was opened, in order, and its timer runs exactly when a StartLoop was drained since the last close |
| `Game.WindowWithoutLoopIff` | cocoa_gui/src/game.rs:261-297 | in every run from the start there is a window without a running loop exactly when, since the last close, a launch was taken and after it a drawing command drained, and no StartLoop was drained |
| `Game.LaunchAfterALoopFindsNoWindow` | cocoa_gui/src/game.rs:319-325 | from a running game, in every continuation, the next launch taken finds the old window gone |
| `Game.WindowGoneAtLaunchIff` | cocoa_gui/src/game.rs:319-325 | an open window, its loop running or not, is gone when the next launch is taken exactly when a due stop has been serviced or a StopLoop drained before that poll |
| `Game.ResetBeforeLaunchIff` | cocoa_gui/src/game.rs:357-376 | the next launch comes after a reset exactly when one was due already or a due stop was serviced before it |
| `Game.LaunchOvertakesStopIff` | cocoa_gui/src/game.rs:361-376 | with a stop due and not serviced, the next poll takes a launch exactly when one has been asked for, no older reset is due, and the loop is not running, because it never was or a StopLoop came last |
| `Game.LateStopHitsTheLaunch` | cocoa_gui/src/game.rs:312-317 | that stop then closes the session of the demo just launched and has it reset |
| `Game.SecondLaunchOverTheFirst` | cocoa_gui/src/game.rs:366-376 | a run that launches a second demo over the first one's window |
| `GameAtoms.AtomsAreSteps` | cocoa_gui/src/game.rs:312-382 | uninterrupted, the atomic accesses are the coarse steps |
| `GameAtoms.LaunchOvertakesResetIff` | cocoa_gui/src/game.rs:312-376 | over all interleavings of a stop and a poll, a launch overtakes the reset exactly when the reset check precedes the flag and the loop was not running or its state is read after being cleared |
| `GameAtoms.ResetDueIff` | cocoa_gui/src/game.rs:312-365 | over all interleavings of any number of stops and polls with the other functions, a reset is due exactly when a stop has made its fifth access since the last poll's check |
| `GameAtoms.StopUnfinishedIff` | cocoa_gui/src/game.rs:312-317 | a stop is under way exactly when one has begun and the main thread has had fewer than four turns since |
| `GameAtoms.LaunchOvertakesSomeResetIff` | cocoa_gui/src/game.rs:312-376 | in each of them a poll takes a launch ahead of an outstanding reset exactly when no reset had been flagged since the check before its own, of what stopped and started the loop before its reading the last was a stop, a launch was asked for since the last take, and a stop has flagged its reset since the poll's check or has begun and not finished |
| `GameAtoms.ResetIsNextIff` | cocoa_gui/src/game.rs:312-376 | after such a launch the next thing handed out is the reset in every continuation exactly when the stop had flagged it by the take; in any case it comes after at most two more answers, one if no loop was running at the take |
| `GameAtoms.FlaggedThenReset` | cocoa_gui/src/game.rs:307-365 | once flagged, the reset is the next thing handed out by any poll not past its check, in every continuation |
| `GameAtoms.LaunchWhileRunningIff` | cocoa_gui/src/game.rs:366-376 | a poll takes a launch while a loop is running exactly when a StartLoop was drained between its reading of the loop and its take, and not stopped again |
| `GameAtoms.LaunchKeepsSessionIff` | cocoa_gui/src/game.rs:171-175 | over all interleavings of a stop and a poll, a demo launched keeps its session exactly when the poll opens it after the stop's second access |
| `GameAtoms.ApartRunsAreSteps` | cocoa_gui/src/game.rs:312-382 | every run in which no turn comes in the middle of the other thread's stop or poll reaches the state, and hands out what, a run of whole functions does |
| `GameAtoms.ApartStopThenReset` | cocoa_gui/src/game.rs:307-317 | so in each of them a stop is followed by its reset |
| `GameAtoms.LaunchOvertakesReset` | cocoa_gui/src/game.rs:312-376 | such an interleaving, after which the reset hits the demo just launched |
| `Base64.AlphabetRuns` | cocoa_gui/src/canvas.rs:37-38 | the alphabet's runs of consecutive characters and its two single ones |
| `Base64.DecodingTable` | cocoa_gui/src/canvas.rs:37-41 | the table holds every alphabet character's value and nothing else |
| `Base64.Base64Decode` | cocoa_gui/src/canvas.rs:36-69 | the loop decodes the alphabet characters' values, skipping all else |
| `Base64.DecodedBits` | cocoa_gui/src/canvas.rs:55-67 | bit for bit, the first floor(3k/4) whole bytes of the k six-bit values laid end to end |
| `Base64.DecodedLength` | cocoa_gui/src/canvas.rs:42-68 | k alphabet characters give floor(3k/4) bytes |
| `Base64.DecodeInvertsEncode` | cocoa_gui/src/canvas.rs:33-36 | decoding inverts the encoding of section 4 of RFC 4648 for every byte string, with padding and other characters anywhere |
| `CommandBatch.SkipWs` | cocoa_gui/src/canvas.rs:210-215 | where the whitespace ends |
| `CommandBatch.ReadString` | cocoa_gui/src/canvas.rs:216-230 | a quoted text, or nothing with the place unmoved |
| `CommandBatch.ReadNumber` | cocoa_gui/src/canvas.rs:231-243 | an integer, or nothing with a lone sign used up |
| `CommandBatch.ParseArgs` | cocoa_gui/src/canvas.rs:265-284 | the arguments of one operation, and where reading stopped |
| `CommandBatch.ParseOps` | cocoa_gui/src/canvas.rs:206-291 | terminates in bounds on every text and reads its operations |
| `CommandBatch.BatchRoundTrip` | cocoa_gui/src/canvas.rs:199-205 | a written batch, with any whitespace between tokens and anything after it, reads back as the same operations and arguments |
| `CommandBatch.BrokenBatchKeepsWhatWasRead` | cocoa_gui/src/canvas.rs:245-290 | a malformed or cut-off batch gives every operation before the break and the broken one with the arguments read so far |
| `Bitmap.CopyRows` | cocoa_gui/src/canvas.rs:122-160 | row by row, never past either buffer, for any stride and any length of the source |
| `Bitmap.RowsLandInPlace` | cocoa_gui/src/canvas.rs:135-141 | with wide enough rows every bitmap row is the source's row and its untouched padding: no shear |
| `Persist.Image.CreateOrReopenMethod` | image_store/src/lib.rs:1178-1202 | a new version, numbered after the latest, live again |
| `Persist.Image.RemoveMethod` | image_store/src/lib.rs:1056-1076 | a live method gets a deleted version, anything else is left |
| `Persist.Image.WriteDifferences` | cocoa_gui/src/host_service.rs:655-670 | the methods that differ from what was stored are written, and counted |
| `Persist.Image.RemoveVanished` | cocoa_gui/src/host_service.rs:672-685 | stored keys missing from the buffer are removed, in any order |
| `Persist.Image.PersistEditorClass` | cocoa_gui/src/host_service.rs:632-695 | the rows after a save, and the three counts |
| `Persist.SavedAt` | cocoa_gui/src/host_service.rs:648-685 | what a save leaves at each key |
| `Persist.VersionsCountWrites` | image_store/src/lib.rs:1056-1202 | a save raises a method's version number by one for each definition that differs from what was stored, and by one for a removal, which keeps category and source |
| `Persist.SavedIsBufferIff` | cocoa_gui/src/host_service.rs:648-685 | the stored methods become the buffer's exactly when no last definition equal to the stored one has a different one before it |
| `Persist.DistinctBufferIsSaved` | cocoa_gui/src/host_service.rs:624-631 | with distinct keys they always do |
| `Persist.DuplicateKeySavesTheFirst` | cocoa_gui/src/host_service.rs:648-670 | a buffer with a duplicated key whose first definition wins |
| `Persist.IdenticalMethodKeepsItsVersion` | cocoa_gui/src/host_service.rs:625-627 | a method's version is untouched exactly when all its definitions in the buffer are the stored one, or it was gone and stays out |
| `Persist.CountsAddUp` | cocoa_gui/src/host_service.rs:654-694 | with distinct keys the counts add up to the number of differing keys |
| `Persist.SecondSaveIdleIff` | cocoa_gui/src/host_service.rs:648-694 | a second save adds and removes nothing, and changes nothing exactly when no key has two different sources |
| `Symbols.PartitionPoint` | cocoa_gui/src/symbols.rs:98 | the binary search's cut |
| `Symbols.BetweenSharesThePrefix` | cocoa_gui/src/symbols.rs:95-96 | strings that share a prefix are contiguous in the order |
| `Symbols.MatchingIsTheRun` | cocoa_gui/src/symbols.rs:95-104 | the run from the cut is what a full filter finds |
| `Symbols.PrefixFilter` | cocoa_gui/src/symbols.rs:97-105 | search, take-while and cap give the first `max` of a full filter |

## Left out

- Recovery on POSIX, where an entry reuses its thread's one slot and `dispatch_callback` refuses to nest: the model is the nesting form, with a slot per entry.
- Other threads' use of the recovery-slot registry: it is process-wide, and the model lets no other thread claim or release a slot while an entry runs.
- `pending_deopts` is a map keyed by frame address; the model's stack of addresses is the same for distinct live frames, which end in the reverse order of their redirection.
- The sibling entry points (`render_fragment`, `fire_widget_action`, `eval_to_string`, `eval_to_bytes`): the same slot, baseline and pop protocol around other bodies.
- The printing of a result, which is guest code too: an item's value stands for its print string, and a raise while printing for a raise of the item.
- Guest loops: a guest is a finite tree whose branches depend on earlier answers, so a body that runs forever has no model.
- `publish_ui_vm` and the UI-VM generation: a counter with easy facts.
- The machine side of a long jump (signals, alternate stacks, thread exit), the interpreter, the garbage collector and the compilers: a jump is a landing in the top slot, a fatal exit ends the thread.
- The 32-bit width of the formatter's depth, of the save's counters, and the 64-bit width of the file-in counter: unbounded here.
- HTML escaping and the markup around highlighted spans: the highlighter's model records the spans it wraps.
- A UI rebuild, which discards the current inbox: runs of `Drain` contain none.
- Channel failure other than main being gone when a link is sent: the watchdog itself holds a sender of its event channel, so its receive cannot fail.
- What `game.rs` draws and plays, and the failure of the individual graphics calls: one flag says whether a window can be created.
- Memory orderings weaker than sequential consistency: `GameAtoms` interleaves the accesses of game.rs one at a time, while the source uses Acquire, Release and, for the key mask, Relaxed.
- The single accesses of the main thread's other functions and of the locked queue: in `GameAtoms` a drain, a launch request, a tick or a re-sync check is one access.
- A file-in's effect on the world, and the debugger's and the metrics' part of the primary's loop.
- Storage errors, which the save ignores, version pruning, which never touches the latest version, and the class shell: a method is its latest version.
- Parsing the editor buffer: a buffer is the sequence of its methods.
- Floating-point numbers in a command batch: the wire carries integers.
- `package_tree_text`, `browse_records_text`, `clean_field` and the symbol cache: straight-line loops with easy facts.

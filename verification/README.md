# Verified model of e2e-nntp

e2e-nntp is a small concurrent NNTP server that injects faults on request. This project models its session
loop, its article store, its BODY replies with their holds, and its counters, and proves what they keep in every
run. `dafny verify dfyconfig.toml` checks everything.

| file | models |
|---|---|
| `ByteStrings`, `Words`, `Wire`, `Streams` | Go strings, the parts of the string library in use and what they do to white space, letter case and brackets; lines, dot-stuffing and data blocks (section 3.1.1 of RFC 3977); the reader and writer of a session |
| `Articles`, `ArticleForms`, `Posting`, `PostedIds` | the header/body split, HEAD, ARTICLE and POST, and the ID an article is stored under (sections 6.2.1 to 6.2.3 and 6.3.1 of RFC 3977) |
| `FileNames`, `Ordering`, `ArticleStores`, `StoreRuns` | percent-encoded file names (section 2.1 of RFC 3986), the store as a class over a directory, and its runs |
| `Chaos`, `HoldGates`, `BodySessions`, `BodyRuns`, `BodyGuarantees`, `BodyCounts`, `BodyProgress`, `BodyHolds`, `BodyRefills`, `BodyServing` | the fault profile, the lock-protected hold as a class, any number of BODY replies stepping on it, and one BODY as the server's own loop |
| `Sessions`, `Framing`, `SessionEnds`, `AuthTraces`, `AuthLines`, `CommandRules`, `ReplyCodes` | the command loop, what it makes of a stream, AUTHINFO (section 2.3 of RFC 4643), who is answered what, and the reply codes |
| `Sums`, `MaxRegisters`, `Connections`, `FirstCommands`, `ConnectionRuns`, `TransferStamps`, `Metrics` | admission, counted sessions, peak and transfer times, one atomic operation a step |

How concurrency is modelled: what the server does under one lock, or with one atomic operation, is one step of a
state machine, and theorems speak of every sequence of steps by any number of sessions. The objects whose methods
update fields (`HoldGate`, `ArticleStore`, `Directory`, `Reader`, `Writer`, `MetricState`) are classes as well.
Those of the hold, the store and the streams are proved against the functions the steps use, those of the counters
with the steps of other recorders between their own; `BodyServing.FinishedRepliesKeepTheContract`
shows that the replies of the step-by-step account keep the contract of the loop.
Random rolls, clock readings, file-system failures and the outcome of a commit seen from the command loop are
parameters or arbitrary values: only a roll at 0 or 100 per cent is fixed.

Where the code differs from what one might expect, or from its documentation:

- The documentation of `hold_body` says that it serves that many more lines and then blocks every BODY. It blocks
  exactly the replies whose snapshot of the profile had a line budget (`BodyHolds.BlockedExactlyWhenGated`); a reply
  that started before is served in full (`BodyHolds.ServedInFullThroughAnExhaustedHold`). And it serves that many
  more only to lines that are not blocked yet (`BodyRefills.BudgetIsServedBeforeANewWait`): a new budget wakes no
  line that is (`BodyRefills.RefillWakesNoOne`), only a profile that lets go of an article or of the
  budget held before, or that holds nothing, does (`BodyRefills.WokenExactlyByLettingGo`).
- A gated reply waits at its next line for any hold, even one that names other articles only and has no budget
  (`BodyHolds.BlockedWithoutBudgetOrName`). A blocked line has a live budget if and only if some profile had one
  since the channel it waits on was armed (`BodyHolds.LiveBudgetOfABlockedLine`), which may be after the wait began
  (`BodyHolds.BudgetAfterTheWaitBegan`).
- A posted line loses all its trailing carriage returns, a served one just one, and only a doubled leading dot is
  undone. POST followed by ARTICLE therefore gives back the sent bytes exactly for blocks of verbatim lines
  (`Wire.PostThenArticle`).
- When the temporary file of a post cannot be created or written, the rest of the article is served as commands
  (`Framing.BrokenPostLeaks`).
- An ID that starts with `.incoming-` is stored and then lost at the next reload or restart
  (`StoreRuns.PostedThenLost`), and it can take the file of a post in flight (`StoreRuns.ClashLosesAgreement`;
  `StoreRuns.CommitAgrees` says exactly when).
- The accepted connections alive never exceed the largest `max_conns` set, though they can exceed one that was
  lowered under them (`ConnectionRuns.AtMostTheLimitAreServed`, `ConnectionRuns.LoweredLimitIsExceeded`). A connection is refused by the slots held when it
  arrived (`ConnectionRuns.RefusedExactlyWhenFullOnArrival`), so that it can be refused though it is the only one
  left (`ConnectionRuns.RefusedThoughAlone`).
- The first transfer time is the one set first. Once recorders are done it is not after the last
  (`TransferStamps.FirstIsNotAfterLast`), but it is the earliest exactly when no earlier reading is tried after it
  (`TransferStamps.FirstIsEarliestUnlessOvertaken`).
- A recorder that a reset catches on its way still stores its value afterwards, in the peak
  (`ConnectionRuns.PeakSinceReset`) and in the last transfer time (`TransferStamps.LastIsTheLatest`).

## Model

| member | source | states |
|---|---|---|
| Wire.NextLineExactly | server.go:719-728 | for every input one read gives its first line with the line feed exactly when that fits 65536 bytes, an over-long line exactly when the buffer fills first, and the end exactly when neither comes |
| Wire.NextLineOfText | server.go:719-728 | a line with its CRLF is read whole when it fits 65536 bytes and refused as over-long otherwise, whatever follows it |
| Wire.ServedLineExactly | server.go:757-781 | serving takes one carriage return off the end of a line and puts one dot before a leading one, and changes no other line |
| Wire.StuffedLineDecodes | server.go:757-774 | the reader never takes a stuffed line for the terminator and gets the line back without its trailing carriage returns |
| Wire.ReadBackContents | server.go:757-774 | for every byte string, reading what `writeDotStuffed` wrote gives the content's lines without trailing carriage returns and leaves the rest unread, if and only if every stuffed line fits the buffer; otherwise the read fails as over-long |
| Wire.ReadSentBlock | store.go:156-178 | any block of sendable lines is read in full, each line decoded, and nothing after its terminator is consumed |
| Wire.PostThenArticle | store.go:156-184 | ARTICLE answers with the posted block byte for byte if and only if no sent line has a trailing carriage return or an undoubled leading dot |
| Wire.CanonicalArticleRoundTrip | store.go:156-184 | an article of clean lines, stuffed by the client, is stored as those lines and served as the block that was sent |
| Wire.RepostedIsStable | store.go:164-170 | reading an article and posting what was read changes it at most once |
| Wire.TextInjective | store.go:178-178 | stored text determines its lines |
| Streams.Writer.WriteDotStuffed | server.go:757-774 | the loop over the lines writes each line stuffed with one carriage return removed, and the terminator when asked |
| Words.EqualFoldExactly | store.go:203-203 | two strings are equal under folding exactly when they have the same letters in the same places, in any case |
| Words.UpperExactly | server.go:730-737 | what the upper case of a command is says exactly which letters it was sent with, in any case |
| Words.SpacesAre | server.go:736-736 | the white space that trimming and splitting know is tab, line feed, vertical tab, form feed, carriage return and space |
| Words.StripBracketsIs | store.go:251-253 | one pair of angle brackets comes off, with the white space around it, whatever stands between |
| Words.PlainIdIsKept | store.go:251-253 | an ID without brackets at its ends loses the white space around it and nothing else |
| Words.FieldsOfSpread | server.go:355-361 | words with any white space between them are split into exactly those words |
| Words.JoinSpaceIs | server.go:360-360 | joined words have exactly one space between any two |
| Articles.FirstBlankIsTheSeparator | store.go:211-222 | in an accepted post with a blank line, the first CRLFCRLF is exactly the first blank line the reader saw, and it is not at the start |
| Articles.MessageIdLineNamesHeader | store.go:239-249 | a line that gives a Message-ID also makes its block look like headers |
| Articles.AcceptedPostSplits | store.go:211-249 | the complete split of an accepted post: at its first blank line when it has one and is not bare yEnc, nowhere otherwise; so acceptance implies that the header test succeeds |
| Articles.HeadAndBodyMakeTheArticle | store.go:211-237 | HEAD serves exactly the lines before the first blank one, BODY those after it, and with one empty line between they are what ARTICLE serves |
| Articles.BodyOnlyPost | store.go:211-237 | without a blank line, or as bare yEnc, BODY serves the whole article and HEAD a header made from the ID |
| ArticleForms.DividedExactly | store.go:211-237 | where any article is divided, however it came into the store: nowhere when it is bare yEnc; at its first CRLFCRLF if what stands before that looks like headers; else at its first pair of line feeds if what stands before those does |
| ArticleForms.NamesHeaderExactly | store.go:239-249 | a line makes its block a header block exactly when, trimmed, it starts with one of the five names in any letter case |
| ArticleForms.LfArticleSplits | store.go:211-237 | an article whose lines end with line feeds alone is divided at its first empty line when what stands before it looks like headers |
| ArticleForms.CrlfArticleSplits | store.go:211-237 | an article with CRLF line ends is divided at its first empty line likewise, wherever else line feeds stand |
| ArticleForms.BareYencIsAllBody | store.go:211-237 | an article that starts with `=ybegin`, after any line ends, is all body, and HEAD makes up its header |
| Posting.ReadLines | store.go:154-178 | the reading loop's header buffer and text are those of the block at the head of the input; over-long lines, a cut connection and a file that takes no more lines are told apart, the last leaving unread exactly what follows the failing line |
| Posting.ReadPostedArticle | store.go:140-199 | what the input amounts to as a post under each fault of the temporary file, and what it leaves unread; the file stays, holding the text, exactly for an article that names itself and was written in full, and otherwise only when it cannot be removed |
| Posting.ReadLinesAreClean | store.go:164-170 | every line kept of any block has no line feed and no trailing carriage return |
| Posting.HandlePost | server.go:478-496 | the session goes on unless a line was over-long; the reply says whether the article was stored under its own ID with its own text, was a duplicate, could not be moved into place, or could not be posted, each exactly when; unless it was stored, index and files stay as they were, but for a temporary file that cannot be removed |
| Posting.HandleHead | server.go:455-463 | 430 for an unknown article, else the status line and the stuffed header block |
| Posting.HandleArticle | server.go:465-473 | 430 for an unknown article, else the status line and the stuffed article |
| Posting.SentThenServed | server.go:465-496 | from the wire and back through any store: once the post of a sent block is committed, ARTICLE finds the decoded lines under its ID and serves the block itself exactly when all its lines are verbatim, and HEAD and BODY divide it at its first blank line |
| PostedIds.PostedIdIsTheFirstNamed | store.go:201-209 | a post is stored under the ID between the brackets of the first header line that has the name `message-id:`, in any letter case and with any white space around the brackets |
| PostedIds.NoNameNoPostedId | store.go:201-209 | a post none of whose header lines has that name has no ID, whatever its body says |
| PostedIds.SynthesizedHeaderNamesTheArticle | store.go:227-237 | the header that HEAD makes up for an article names that article |
| PostedIds.RequestedId | server.go:324-326 | a request with the ID in angle brackets asks for the ID |
| PostedIds.ClientFindsItsArticle | server.go:465-496 | from a client's lines to its request: a sent block that names an ID in its header is a post under that ID, and once it is committed to any store, a request for the ID in brackets finds its decoded lines |
| FileNames.UnescapeUndoesEscape | store.go:36-38 | decoding a file name gives back the ID it was made from, for every ID |
| FileNames.EscapeInjective | store.go:36-38 | two IDs never share a file |
| FileNames.EscapeKeepsPlainPrefix | store.go:127-127 | a file name starts with plain characters such as `.incoming-` exactly when the ID does |
| FileNames.EscapeHasNoSlash | store.go:36-38 | a file name never leaves the directory |
| FileNames.EscapesExactly | store.go:36-38 | exactly which bytes of an ID its file name keeps, `@` among them; every other one becomes a percent sign and two capital hexadecimal digits |
| StoreRuns.EveryArticleIsServed | store.go:53-138 | after every run that stores ordinary IDs, an ID is served exactly while it is indexed, with the contents it was last posted with |
| ArticleStores.ArticleStore.Commit | store.go:67-78 | an ID already indexed, `.` and `..` are duplicates; of the others exactly those whose rename fails are not stored; a stored post moves its temporary file and is indexed; otherwise nothing changes |
| ArticleStores.ArticleStore.DeleteById | store.go:80-91 | an absent ID is reported; exactly a failed removal keeps a present one, but not a file that is gone already; otherwise file and index entry go together |
| ArticleStores.ArticleStore.DeleteByPrefix | store.go:93-116 | removes the first of the sorted matching IDs, rounded down from the percentage, or exactly those before the first removal that fails |
| ArticleStores.ArticleStore.MatchingIds | store.go:99-105 | the sorted matching IDs do not depend on the order the map yields them in |
| ArticleStores.ArticleStore.Reload | store.go:118-138 | the index becomes the decoded names of the article files; exactly an unreadable directory leaves it alone |
| Ordering.IncreasingUnique | store.go:105-105 | a sorted list is determined by its elements |
| Ordering.LessExactly | store.go:105-105 | the order is that of bytes: a proper prefix first, otherwise the smaller byte at the first difference |
| StoreRuns.CommitAgrees | store.go:67-78 | storing an article keeps index and directory in agreement if and only if its file name is not that of another post in flight |
| StoreRuns.ReloadKeepsIndex | store.go:118-138 | a reload changes nothing if and only if no indexed ID starts with `.incoming-` |
| StoreRuns.EveryRunAgrees | store.go:67-138 | every run of posts in flight, commits, deletes stopped anywhere and reloads that stores ordinary IDs keeps files and index in agreement, each file with the contents it was posted with, and a reload or restart changes nothing |
| StoreRuns.EveryRunFromEmptyAgrees | store.go:25-34 | the same from an empty directory |
| StoreRuns.ClashLosesAgreement | store.go:67-78 | a run after which index and directory disagree: a post whose ID is the name of another post in flight takes that post's file |
| StoreRuns.TemporaryLookingIdIsLost | store.go:127-129 | an accepted article whose ID starts with `.incoming-` is gone after the next reload |
| StoreRuns.PostedThenLost | store.go:127-129 | from an empty directory, one post under such an ID is enough |
| StoreRuns.DeletesTheSmallestShare | store.go:93-116 | a prefix delete removes matching IDs only, each of them below every match left, as many as it counted; at 100 no match is left |
| StoreRuns.DirectoryNamesExactly | store.go:67-78 | the only IDs whose file names are no files are the empty one, `.` and `..` |
| Chaos.NamesMessageId | server.go:660-668 | the loop finds a held ID exactly when one is equal to it up to angle brackets |
| Chaos.RefusedExactly | control.go:41-76 | a profile is refused exactly for a percentage outside 0 to 100, a negative delay, limit or budget, or a held ID that is empty without its brackets |
| HoldGates.HoldGate.SetChaosLocked | server.go:631-657 | installs the profile, closes the released-channel when a hold was dropped, refills the budget and arms a channel exactly when something is held |
| HoldGates.HoldGate.SetChaos | control.go:169-180 | an inadmissible profile, or a server without test control, changes nothing |
| HoldGates.HoldGate.HeldBody | server.go:672-679 | the armed, open channel for an article the live profile holds, else none |
| HoldGates.HoldGate.SpendHoldLine | server.go:683-694 | spends one line of the budget, or returns the armed, open channel when it is used up; and counts as one question of the reply that asks |
| HoldGates.InstallKeepsInv | server.go:631-657 | after any install: armed exactly when something is held, the armed channel open, every other channel closed exactly once, the budget within the configured one |
| HoldGates.InstallReleases | server.go:631-657 | the armed channel survives an install if and only if the new profile drops nothing the old one held and still holds something |
| HoldGates.KeptExactlyWhenHeldOn | server.go:635-657 | the armed channel survives an install if and only if every article held before is held still, a line budget is not taken away, and something is held: more names in the list, or the same in other words, release nothing |
| BodySessions.OutputIsPrefix | server.go:387-450 | what a reply has written is a prefix of the fast path's reply for the same body, and all of it exactly when it ended with a full terminator |
| BodyRuns.StepKeepsInv | server.go:387-450 | every install, start, session step and close keeps channels, waits, output, budget and counters consistent |
| BodyRuns.RunKeepsInv | server.go:387-450 | the same for every run |
| BodyGuarantees.EveryReplyIsAPrefix | server.go:410-450 | in every reachable state, for every reply, corrupted or not: a prefix of the fast path's bytes, and equal exactly after a good terminator |
| BodyGuarantees.ChannelsInEveryState | server.go:631-657 | in every reachable state a channel is armed exactly when something is held; it is open, all others are closed, and none was closed twice |
| BodyGuarantees.BlockedBodiesWaitForTheLiveHold | server.go:635-694 | a blocked body waits on the one armed channel; blocked by ID, the live profile names it; blocked at a line under a budget, the live profile has one |
| BodyGuarantees.BudgetIsConserved | server.go:683-694 | lines admitted since the last install plus what remains are the installed budget, and over the run no more lines were admitted than budgets installed |
| BodyCounts.RecordersInEveryState | metrics.go:50-55 | in every reachable state, with what resets cleared added back: each ID has one count per reply of that article past its count step, and transfers and recorders on their way are the replies with a full terminator |
| BodyCounts.CountsUntilReset | metrics.go:50-55 | before the first reset the transfer counter counts exactly the replies with a full terminator, less the recorders on their way, and each ID its own |
| BodyCounts.CountsBetweenResets | metrics.go:25-55 | since a reset, transfers are the replies fully terminated since, with the recorders the reset caught and without those on their way now; each ID counts its own replies since; the counts are ahead of the transfers by the recorders in between now, less those then |
| BodyProgress.SchedulesAreBounded | server.go:387-450 | session steps use up a bound made of remaining lines and phases, in whatever order the sessions take them |
| BodyProgress.ReleasedRepliesFinish | server.go:653-656 | after a profile without a hold no body is blocked, every schedule is bounded, and one that cannot go on has finished every reply |
| BodyProgress.ClosedServerFinishes | server.go:398-404 | once the server is closed, held bodies give up their waits and every schedule finishes |
| BodyProgress.HoldServesAtMostItsBudget | server.go:418-426 | until the next install, the gated lines let out are at most the remaining budget and the lines already through |
| BodyRefills.BudgetIsServedBeforeANewWait | server.go:683-694 | from an install to the next, a line comes to wait only after exactly the installed number of lines was served, unless it waited since before the install |
| BodyRefills.RefillWakesNoOne | server.go:635-652 | a blocked line stays blocked, without a step until the server closes, under a profile that refills the budget and holds every article held before |
| BodyRefills.BlockedUnderARefilledBudget | server.go:635-652 | for every profile with a line budget and every refill of it, a reachable state in which a line is blocked and the whole refill is left |
| BodyRefills.ChannelStaysArmed | server.go:635-657 | over any run, the armed channel stays armed if and only if every profile installed holds on to what its predecessor held: each article, a line budget, and something at all |
| BodyRefills.WokenExactlyByLettingGo | server.go:635-657 | a reply still waiting after a run can go on then if and only if some profile installed in it let go of an article or of the budget its predecessor held, or held nothing |
| BodyHolds.PassingReplyFinishesAlone | server.go:397-450 | from any state, a reply whose snapshot has no budget and that no ID holds finishes by steps of its own, leaving hold and other replies alone |
| BodyHolds.GatedReplyStaysHeld | server.go:417-431 | a gated reply at a line of an exhausted hold writes nothing in any run without a new profile or a close |
| BodyHolds.BlockedExactlyWhenGated | server.go:417-431 | an exhausted hold blocks a reply at a line if and only if its snapshot had a line budget |
| BodyHolds.HeldByIdWritesNothing | server.go:398-404 | a reply at most whose status line is out, and whose article the live profile names, writes nothing in any run without a new profile or a close, whatever other sessions do |
| BodyHolds.BlockedExactlyWhenNamed | server.go:398-404 | without a line budget, a reply at its ID check can be finished without a new profile or a close if and only if the live profile does not name its article |
| BodyHolds.ServedInFullThroughAnExhaustedHold | server.go:417-431 | for every admissible profile with a line budget, a reachable state in which it is used up and a run from there that serves a reply started before it in full |
| BodyHolds.BlockedWithoutBudgetOrName | server.go:683-694 | a reachable state in which a reply is blocked by a profile that has no budget and does not name it |
| BodyHolds.ArmedBudgetStays | server.go:635-652 | as long as a channel stays armed, a line budget never goes away |
| BodyHolds.LiveBudgetOfABlockedLine | server.go:635-694 | over any run, a blocked line has a live budget if and only if some profile live since its channel was armed had one |
| BodyHolds.BudgetAfterTheWaitBegan | server.go:635-652 | a line that began to wait under IDs alone can have a live budget later |
| BodyServing.Corrupt | server.go:783-793 | a body of two bytes or more has one byte inverted, a shorter one is left alone |
| BodyServing.PassGate | server.go:417-426 | only a reply that started under a budget asks the gate, once a line, and spends from it; after a wait it goes on only on a closed channel and gives up only for a closed server |
| BodyServing.PassIdCheck | server.go:398-404 | an article the live profile names goes on only once the channel armed then has been closed, any other at once; a wait is given up only for a closed server |
| BodyServing.ServeLine | server.go:415-436 | one turn of the loop: the line waits for its part of the budget, is written stuffed, and only then may be the last |
| BodyServing.ServeLines | server.go:415-436 | the loop serves the lines in order, each stuffed, asks the gate exactly once for each under a budget, and stops early only for a drop the snapshot allows or because the server has closed |
| BodyServing.WriteEnding | server.go:437-448 | a good ending, split or not, is the terminator; a bad one lacks its line feed |
| BodyServing.ServeBody | server.go:397-450 | with other sessions and installs interfering at every wait, a complete reply is the same bytes on the fast and the line-by-line path; if the profile live at the check names the article, nothing is served unless the channel armed then has been closed; a reply that nothing holds leaves hold and server alone |
| BodyServing.HandleBody | server.go:387-450 | 430 for an unknown article; otherwise status line and reply of the possibly corrupted body; an article held by ID is not served before its channel is closed; the session ends exactly when the reply was cut short, a reply given up means a closed server, only complete replies are recorded, and each outcome is one the rolls allow |
| BodyServing.FinishedRepliesKeepTheContract | server.go:387-450 | in every run of any number of sessions, a finished reply has the bytes the loop's contract gives its outcome, the rolls allow the outcome, and a reply was shut down only by a closed server |
| BodyServing.PartialRepliesAreStrict | server.go:432-448 | a cut or badly terminated reply is a strict prefix of the full one |
| BodyServing.FixedRollsFixTheOutcome | server.go:432-448 | at 0 per cent no ending is bad and no reply dropped, and at 100 no ending is good, or no reply that has a line gets to its ending |
| BodyRuns.CorruptionIsOneByte | server.go:783-793 | a corrupted body differs from the article's in exactly one byte, whose every bit is flipped, so that doing it again restores it |
| BodyRuns.FixedRollsFixTheBody | server.go:393-396 | at 0 per cent the body served is the article's, at 100 it is corrupted whenever it has two bytes |
| Sessions.FinishTurn | server.go:327-333 | a reply is written; one that asks for an article hands the stream to the article reader, and the loop goes on behind the block |
| Sessions.HandleConnection | server.go:187-346 | the greeting, and for a welcome connection a loop whose log of commands, replies and articles is that of the recursive account of the stream and which writes exactly the lines of that log |
| Framing.CommandLineSplits | server.go:730-737 | a command line is cut at its first space, the command in upper case, the argument trimmed |
| Framing.BlocksFollowPosts | server.go:327-333 | a block is asked for exactly after a POST of an authenticated session |
| Framing.ScriptIsRecovered | server.go:211-346 | a script sent ahead comes out as exactly its commands and articles, whatever becomes of each post that can be written down, and the unsent remainder is served from there |
| Framing.BrokenPostLeaks | store.go:140-183 | a sent post is recovered exactly when its article can be written down; otherwise its remaining lines are served as commands |
| SessionEnds.NothingIsReadAfterTheEnd | server.go:707-728 | for every client and every input: once a session is over, by an over-long line in a command or an article or by its last reply, it does the same with whatever bytes follow |
| Framing.FloodEndsTheScript | server.go:215-222 | a script followed by an over-long line comes out as exactly its commands and articles, and the session ends there |
| Framing.FloodEndsThePost | server.go:478-486 | a script followed by a post with an over-long line comes out as exactly its commands and articles, nothing of that post is stored, and the session ends there |
| AuthTraces.PassIsJudgedByLog | server.go:366-376 | PASS answers 281 exactly when the configured user was named last, the password matches and no rejection is injected; 482 exactly when no user was named since the last verdict; 481 otherwise |
| AuthTraces.EverySessionIsGrounded | server.go:298-381 | in every session: authenticated exactly when the latest verdict is 281; reauthentication due exactly when the latest verdict or injected 480 is no 281; every 281 uses the last USER since the last verdict; BODY reaches the article exactly in the first state without the second; POST is let in exactly in the first |
| AuthLines.UserNames | server.go:354-365 | from the bytes sent, in any letter case and with any blanks between and after the words: AUTHINFO USER names exactly the words that follow it, one space between any two, and changes nothing else |
| AuthLines.PassLetsIn | server.go:366-376 | from the bytes sent: PASS from someone named is answered 281 exactly when name and password are the configured ones and no rejection is injected, else 481, and either forgets the name |
| AuthLines.OtherSubcommandIsRefused | server.go:377-380 | AUTHINFO with any other subcommand and some words is answered 501 and changes nothing |
| AuthLines.SubcommandAloneIsRefused | server.go:355-359 | AUTHINFO with a subcommand alone, whichever it is, is answered 501 and changes nothing |
| AuthLines.LogsInExactlyWithTheCredentials | server.go:354-381 | from any state, USER and then PASS, as sent and without an injected rejection, log in if and only if both are the configured ones word for word |
| CommandRules.EverySessionIsRuled | server.go:232-343 | in every session's log: GROUP, STAT, HEAD and ARTICLE are answered to clients that are logged in and 480 to all others; so are the control commands where test control is on, elsewhere they are unknown; CAPABILITIES, MODE and DATE are answered to everyone; 205 answers QUIT alone, which ends the session; any other command is unknown |
| ReplyCodes.AuthCodes | server.go:354-381 | each answer to AUTHINFO has the code it is named for |
| ReplyCodes.LoopCodes | server.go:273-344 | each answer of the loop and of the authentication check has the code it is named for |
| ReplyCodes.EventCodes | server.go:478-496 | a post is answered 240 exactly when it was committed and 441 otherwise, an over-long command line 501 |
| ReplyCodes.GreetingCodes | server.go:187-209 | 502 exactly above a positive limit, else 400 exactly by its roll, and a connection is served exactly when greeted 200 or 201 and not dropped |
| ReplyCodes.ResultIsThePost | server.go:478-496 | what a session logs of a block it read is what the block amounts to as a post |
| MaxRegisters.StepKeepsTop | metrics.go:41-48 | no load or swap loses the largest of the number and the values still being recorded |
| MaxRegisters.RetryMeansRisen | metrics.go:41-48 | a failed swap of a recorder that began since the last reset means that the number has strictly risen since it was loaded |
| MaxRegisters.BusyRunKeepsTop | metrics.go:41-48 | with recorders beginning at any time, whenever none is on its way the number is the largest of the old one and of all values ever brought |
| MaxRegisters.EachRecorderFinishes | metrics.go:41-48 | however many others begin meanwhile, a recorder takes no more steps than its distance from the number allows |
| Connections.MoveKeepsInv | server.go:174-231 | each step of each connection keeps the counters equal to the connections they count, each ticket at least the holder's rank, and each decision that of ticket and limit |
| FirstCommands.OnlyControlIsNotCounted | server.go:224-231 | a first command MODE CONTROL leaves the session count and the peak alone; any other adds one session and offers the new count to the peak |
| FirstCommands.ControlLineDeclares | server.go:350-352 | on the wire, MODE CONTROL in any letter case with blanks after it is that declaration |
| ConnectionRuns.CountersInEveryState | server.go:174-231 | in every run: sessions are the live connections whose first command is not MODE CONTROL, between 0 and the active ones; attempts are accepted, rejected and undecided ones, less those undecided at the last reset |
| ConnectionRuns.AtMostTheLimitAreServed | server.go:179-197 | with limits positive and at most M, never more than M accepted connections are alive |
| ConnectionRuns.RefusedExactlyWhenFullOnArrival | server.go:179-197 | in every run, a connection is decided as refused if and only if the limit it read is positive and no larger than the slots held when it arrived |
| ConnectionRuns.LoweredLimitIsExceeded | server.go:192-196 | for every limit above 1, a reachable state in which more connections are served than a limit lowered since allows |
| ConnectionRuns.RefusedThoughAlone | server.go:192-196 | for every positive limit, a reachable state in which a connection is refused though every other has left |
| ConnectionRuns.PeakFollowsSessions | server.go:224-230 | without a reset, the largest of the peak and the values still being recorded is the highest number of sessions there was, and the peak never falls |
| ConnectionRuns.PeakIsTheHighest | metrics.go:41-48 | once recorders are done the peak is exactly the highest number of sessions |
| ConnectionRuns.PeakSinceReset | control.go:183-189 | since any reset, once recorders are done, the peak is the largest of the sessions there were and of the values the reset caught on their way; it is exactly the highest number of sessions if and only if none of those was larger |
| TransferStamps.FirstIsNotAfterLast | metrics.go:25-63 | in every run, with resets anywhere: the first time is the one set first since the last reset; once recorders are done it is not after the last, nor is any time recorded since, whatever the clocks said |
| TransferStamps.LastIsTheLatest | metrics.go:25-63 | in every run, with resets anywhere, once recorders are done: no time of a recorder since the reset or caught by it is after the last, which is one of those or zero; it is exactly the latest recorded since if and only if no caught recorder brought a later one |
| TransferStamps.LastIsTheLatestOfAll | metrics.go:58-63 | without a reset, the last time is the latest of all |
| TransferStamps.FirstIsEarliestUnlessOvertaken | metrics.go:56-57 | in every run, the try that sets the first time sets the earliest since the last reset if and only if every time tried after it, read from the clock before or after, is no earlier |
| TransferStamps.FirstNeedNotBeEarliest | metrics.go:56-57 | any two different clock readings can be recorded so that the later one is the first |
| Metrics.AtomicMax.Raise | metrics.go:58-63 | the retry loop ends while others raise the number, which is then the largest of the old value, the new one and the others' |
| Metrics.MetricState.RecordPeak | metrics.go:41-48 | the peak becomes the largest of the old peak, the given value and what others recorded |
| Metrics.MetricState.RecordBody | metrics.go:50-64 | with any steps of other recorders between any two of its own: the new counters are the old ones with its own additions and theirs, bytes modulo 2^64; the first time is set unless it is already; the last is the largest of all; and counts, transfers and times stay in step |

## Left out

- Sockets, TLS, listeners, the accept loop and goroutine shutdown: a session is its unread input and its written output.
- Sleeps, slow and timed-out replies, and real time: a clock reading is an arbitrary number.
- The random generator: a roll between 1 and 99 per cent goes either way.
- The texts of CAPABILITIES, DATE, GROUP, STAT and the control commands: the loop writes whatever text their handlers give.
- JSON metrics, the STAT counters, and parsing the text of a CHAOS command: formatting and number parsing.
- Letters and white space outside ASCII: Go's case folding and trimming treat some of them specially, the model does not.
- Subdirectories, permissions, name lengths and case-insensitive file systems: a directory is a map from names to contents with atomic renames and removals that may fail.
- Constant-time comparison of credentials: they match when both fields are equal.
- Copying the list of held IDs when a profile is installed: the model's list is a value.
- The unread part of the buffer when a connection ends within a line: the session ends there.
- A reset of the counters is one step in each of the accounts; the server reads the sessions first and clears field by field afterwards.
- Taking the snapshot of the profile, loading the article and corrupting its body are one step of a BODY session, which touch neither the hold nor what other sessions see.
- Sessions.HandleConnection: the greeting's rolls, the connection's number and limit, the results of rolls and of a commit, and the text that another command's handler writes are parameters; those handlers are in the other modules.
- BodyProgress.ClosedServerFinishes: says that every wait can be given up, not that goroutines are scheduled.

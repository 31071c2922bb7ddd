# Verified models of rustpbx

rustpbx is a SIP PBX written in Rust. This project models the parts of it whose correctness spans many steps, and
proves what they promise for every input, every run and every interleaving. `dafny verify dfyconfig.toml` checks all
of it; the modules follow the program's own components.

* **Paged log search** (`Lines`, `SpanSuffix`, `IdMatch`, `SearchScan`, `SearchReading`, `SearchPage`, `LogSearch`,
  `SearchRun`, `SearchProgress`, `SearchExact`). A search is answered in pages that may stop anywhere: byte budget,
  deadline, line limit, result size, files per page. What the world decides meanwhile (when time is up, how much a read
  returns, whether a file was replaced) is an explicit schedule; the loops are proved equal to functions of their
  schedule, and the results hold for every schedule and every limit, which may differ from page to page. Main results:
  the pages of any finished chain of cursors return exactly the lines of one unbroken scan, every cursor reached passes
  its own resume checks, the reported coverage contains every pinned byte exactly once, undisturbed searches finish
  within a bound given by the pinned lengths, and the exact condition under which every gap is reported.
* **Log follow, tail and rotation** (`FollowReader`, `TailReader`, `Rotation`). A forward reader, a backward block
  reader, and a cursor that moves along renamed archives while a writer appends, renames and creates. Main results: both
  readers compute what plain line splitting says, and following across rotation is exactly-once under every
  interleaving of writer steps with the separate open, list and read steps of follow calls.
* **Rolling handover** (`CallIds`, `SuccessorPump`, `Ownership`, `ManifestSize`, `Handover`, `Eviction`). Two processes share the public
  ports during a release. Main results: the exact meaning of the call-id manifest, one fate for every datagram over
  every run, ownership of live calls under manifest reordering, the order of a handover, and the pace of eviction.
* **Wire formats** (`Stretches`, `WsFrame`, `SmtpPayload`). The WebSocket framing of sections 5.2 and 5.3 of RFC 6455 and the mail
  payload, whose receiver is written from section 4.5.2 of RFC 5321. Main results are round trips.
* **Small state machines** (`TaskCounters`, `Throttle`, `DrainWait`). Concurrent counters with removal at zero, the
  failure-report throttle, and the drain wait.

Code that updates state step by step is modelled by methods and classes proved against specification functions and
predicates; protocols and concurrency by transition systems whose invariants are proved over whole runs.

## What the code does not do

Some promises turn out false of the code. The model keeps the code as it is; the lemmas give an input on which the
promise fails and the condition under which it holds.

* The gaps of a search can miss an overlong last line without newline, when a page stops exactly at the end of the
  file. `SearchExact.GapsExactIff` is the exact condition: every finished search reports every gap if and only if no
  pinned file ends so, or some overlong line has its newline. `SearchExact.GapCanBeLost` gives the schedules of a failing
  search for every other disk, `SearchRun.UnhaltedGaps` says that pages which are not halted lose nothing. The lines
  returned are exact all the same.
* The tail of a file that is a lone newline is empty although the file has one (empty) line. `TailReader.ReadLogTail`
  states the equality with an if-and-only-if that excludes exactly this file.
* "Strict manifest membership" (src/rolling.rs:1218-1219) is not what the two keys give: `CallIds.KnownIff` and
  `CallIds.SharedSegmentKnown` show that every Call-ID with the same first '-'-segment as a live one is recognised.
* A manifest whose body exceeds one mebibyte counts as an empty one, and then responses for live calls of the
  predecessor are injected into the successor. `Ownership.SafeIffReadable` is the exact condition,
  `Ownership.OversizedManifestLosesCalls` the failing family, and `ManifestSize.ManyCallsLost` an ordinary member of it:
  40,330 dialogs with Call-IDs of twenty digits.
* Released sockets imply a relay listener only until the handover window is over: `Handover.ReleasedMeansRelayed` has
  the exact phase, `Handover.ListenerGoneAfterWindow` reaches the state after it.

## Model

| member | source | states |
|---|---|---|
| `Lines.LineEndMeaning` | src/log_search.rs:493-539 | the end of the line at `i` is behind its first newline, or the end of the text: no newline before it, and one at it unless the text ends there |
| `Lines.LinesFromSound` | src/log_search.rs:493-539 | lines of a text are each one line, only the last may lack its newline, and concatenated they are the text |
| `Lines.LinesFromUnique` | src/log_search.rs:493-539 | any division of a text into such lines is this one |
| `SpanSuffix.GrammarAccepted` | src/log_search.rs:429-474 | everything in the span grammar is accepted by the scanner |
| `SpanSuffix.AcceptedInGrammar` | src/log_search.rs:429-474 | everything the scanner accepts is in the span grammar (names, quote-aware balanced brace blocks, colons, then whitespace) |
| `SpanSuffix.AcceptsIff` | src/log_search.rs:429-474 | the scanner's turns accept exactly the grammar, on every byte string |
| `SpanSuffix.FindBlockEnd` | src/log_search.rs:442-468 | the position scan finds the end of a brace block that the specification scan finds; its depth is a natural number throughout |
| `SpanSuffix.Recognise` | src/log_search.rs:429-474 | the recogniser terminates and answers true exactly for `}:` followed by nested spans and whitespace |
| `IdMatch.IsInsideBraces` | src/log_search.rs:480-486 | the last brace before an occurrence is an opening one |
| `IdMatch.IsWholeId` | src/log_search.rs:476-490 | an occurrence is a whole Call-ID: bounded by bytes no Call-ID contains, or by a span or session context |
| `IdMatch.LineMatches` | src/log_search.rs:475-491 | true exactly when some occurrence, overlapping ones included, of some searched ID is whole |
| `SearchScan.ScanIsScanOfLines` | src/log_search.rs:646-693 | the scan by positions equals the scan over the lines of an independent split |
| `SearchScan.RestAfterLine` | src/log_search.rs:668-689 | what is left before a line is what the line contributes and what is left behind it, with the time it carries over |
| `SearchScan.RestInsideSkippedLine` | src/log_search.rs:500-511 | stopping inside a line known to be overlong leaves exactly what was left before it |
| `SearchScan.RestAfterRewind` | src/log_search.rs:677-681 | going back over a line after its timestamp was stored changes nothing that is still to be found |
| `SearchReading.Budget.Stopped` | src/log_search.rs:144-156 | stopped exactly when the byte budget is spent or deadline or cancellation has struck by the moment of asking |
| `SearchReading.LogReader.FillBuf` | src/log_search.rs:158-177 | a refill of whatever length the schedule gives within budget and file, charged to the budget; none when late |
| `SearchReading.ReadLine` | src/log_search.rs:493-539 | the loop follows its schedule: outcome, position, budget and skipping flag are those of the turn-by-turn specification |
| `SearchReading.ReadMeans` | src/log_search.rs:493-539 | whatever the schedule: a whole line and whether it is overlong, or a stop by a halted budget with the skipping flag set exactly when the line is known to be overlong |
| `SearchPage.ConservesRewind` | src/log_search.rs:677-681 | a page that goes back over a hit that does not fit loses and repeats nothing |
| `SearchPage.JudgeLine` | src/log_search.rs:667-675 | time in force, gaps and hit of a line are those of the specification scan |
| `SearchPage.LineTakenSound` | src/log_search.rs:663-692 | a whole line moves the page on without loss or repetition; a page is full only before a hit that does not fit |
| `SearchPage.TakeLine` | src/log_search.rs:663-692 | the branches for a whole line give the page of the specification |
| `SearchPage.ScanFile` | src/log_search.rs:646-693 | the inner loop follows its schedule |
| `SearchPage.ScanMeans` | src/log_search.rs:646-693 | whatever the schedule, reading one file conserves found plus left, keeps the limits, and ends early only for a limit, a full page, a halted budget or a cut file |
| `LogSearch.TilesCoverOnce` | src/log_search.rs:694-705 | intervals that tile contain each byte between the two cursors once and no other byte |
| `LogSearch.FileAdvances` | src/log_search.rs:694-711 | the cursor after a file, with its coverage entry, moves the search on exactly |
| `LogSearch.VisitFile` | src/log_search.rs:615-657 | opening the cursor's file, checking the byte before it and reading on follow the schedule |
| `LogSearch.VisitMeans` | src/log_search.rs:615-657 | without disturbance a file is refused only to a cursor that cannot be resumed there; otherwise nothing is lost or repeated |
| `LogSearch.FillPage` | src/log_search.rs:610-715 | the outer loop follows its schedule, file by file |
| `LogSearch.PageMet` | src/log_search.rs:541-741 | every page, whatever its schedule, limit and cursor: why it may fail, its bounds, why it ends, that found plus left is conserved, and that a gap is lost only by a halted budget |
| `LogSearch.Search` | src/log_search.rs:541-741 | the answer is the one the specification gives for this schedule, and meets that contract |
| `SearchRun.EveryCursorResumes` | src/log_search.rs:585-596 | every cursor a chain of pages reaches passes every check of a resumed search wherever the pinned bytes are unchanged |
| `SearchRun.AdvancesTransitive` | src/log_search.rs:541-741 | what two successive pages did composes: found, gaps, coverage and cursor |
| `SearchRun.RunAdvances` | src/log_search.rs:541-741 | by induction over any chain of pages, each with its own limit and schedule, failed and repeated ones included |
| `SearchRun.PagedEqualsUnpaged` | src/log_search.rs:541-741 | the lines of a finished chain of pages are exactly the lines of one unbroken scan of the pinned files |
| `SearchRun.PagedGaps` | src/log_search.rs:706-719 | the gaps of the unbroken scan are those of the pages and the one a page passed by, which only a file ending in an overlong line without newline can cause |
| `SearchRun.CoverageTiles` | src/log_search.rs:694-705 | over a finished search every byte of every pinned file is reported as covered exactly once |
| `SearchRun.UnhaltedGaps` | src/log_search.rs:706-719 | pages that run out of neither time nor bytes report exactly the gaps of the unbroken scan |
| `SearchProgress.ReadGetsOn` | src/log_search.rs:493-539 | with time left, a line is read whole or found overlong and read into: the budget outlasts any one line |
| `SearchProgress.PageGetsOn` | src/log_search.rs:610-715 | a page on steady files that is not late moves its cursor strictly forward, whatever its limit |
| `SearchProgress.SearchFinishes` | src/log_search.rs:541-741 | undisturbed pages finish the search within one more page per file than the pinned files have bytes |
| `SearchExact.ClosedOverlongTold` | src/log_search.rs:663-666 | every finished search reports an overlong line that has its newline, whatever the schedules |
| `SearchExact.GapCanBeLost` | src/log_search.rs:501-511 | for every disk whose overlong lines are all last lines without newline: schedules and pages of a finished search that does not report them |
| `SearchExact.GapsExactIff` | src/log_search.rs:706-719 | all finished searches report exactly the gaps of the unbroken scan if and only if no file ends in an overlong line without newline or some overlong line has one |
| `FollowReader.KeptLinesSplit` | src/log_viewer.rs:364-412 | reading may be cut at any line boundary: the kept lines concatenate |
| `FollowReader.KeptLinesAreSplitLines` | src/log_viewer.rs:364-412 | the kept lines are those of an ordinary split with overlong lines left out |
| `FollowReader.ReadOneLine` | src/log_viewer.rs:365-396 | whatever the chunks: the line at a position, overlong or not, or that it exceeds the read budget |
| `FollowReader.TakeFollowTurn` | src/log_viewer.rs:364-412 | one line taken, passed over as overlong, or the reason to stop or fail |
| `FollowReader.ReadFollowFile` | src/log_viewer.rs:342-432 | lines are exactly the acceptable lines of content[start..next]; next is a boundary; with data left it advances or the line exceeds the budget; why it stops or fails |
| `TailReader.NewlinesAtMostLines` | src/log_viewer.rs:78-91 | each line holds at most one newline |
| `TailReader.TextsSuffix` | src/log_viewer.rs:98-130 | the texts from any line start on are a suffix of all texts |
| `TailReader.ReadBlocksBackward` | src/log_viewer.rs:78-91 | the block loop counts the newlines of what it has read and ends at the start, beyond the limit, or at its budget |
| `TailReader.FragmentReached` | src/log_viewer.rs:103-109 | when only a leading fragment is left and more newlines than the limit were read, the limit is reached |
| `TailReader.TakeTurn` | src/log_viewer.rs:99-129 | one piece from the right: taken, skipped as overlong, or the reason to stop |
| `TailReader.ReadLogTail` | src/log_viewer.rs:70-139 | without gaps the lines are the last min(limit, n) lines if and only if the file is not a lone newline (or the limit is 0); every gap and failure has its cause |
| `TailReader.TailAgreesWithFollow` | src/log_viewer.rs:342-432 | where no line is overlong, tail and follow from offset 0 see the same lines |
| `Rotation.RenameKeepsWorld` | src/builder/log_writer.rs:150-171 | the first free collision number keeps archive names in order of creation |
| `Rotation.WriterKeepsReader` | src/builder/log_writer.rs:121-136 | no writer step invalidates what a call in progress knows |
| `Rotation.SortedUnique` | src/log_viewer.rs:186-251 | two sorted listings with the same entries are equal |
| `Rotation.ListingIsStretch` | src/log_viewer.rs:186-251 | a listing from the cursor's archive on is the stretch of files created from there on |
| `Rotation.MovesOnOk` | src/log_viewer.rs:299-328 | at the end of an archive the cursor moves to the file created next, never over one |
| `Rotation.StepKeepsInv` | src/log_viewer.rs:253-340 | every writer or reader step keeps the invariant |
| `Rotation.FollowsExactlyOnce` | src/log_viewer.rs:253-340 | in every state of every interleaving the consumed bytes, behind those skipped at the start, are a prefix of the whole log that ends at the cursor |
| `Rotation.ConsumedOnlyGrows` | src/log_viewer.rs:253-340 | nothing consumed is taken back or repeated unless a call starts over |
| `Rotation.ArchiveIsFound` | src/log_viewer.rs:186-251 | a cursor whose file was rotated away is always found among the archives |
| `Rotation.ListedIsFound` | src/log_viewer.rs:299-307 | a listing leads back to the cursor's archive by its first name, whatever the writer did since |
| `Rotation.OnlyLimitsStartOver` | src/log_viewer.rs:286-298 | in every run, only a limit of the directory search makes a call start over |
| `CallIds.CollectLiveCallIds` | src/rolling.rs:937-946 | the loop lists every dialog id and its bare Call-ID |
| `CallIds.KnownIff` | src/rolling.rs:342-353 | a Call-ID, with or without '-', is known after a push exactly when its first segment is that of a live dialog id |
| `CallIds.LiveCallKnown` | src/rolling.rs:937-951 | every live dialog's own Call-ID is recognised |
| `CallIds.SharedSegmentKnown` | src/rolling.rs:1218-1225 | membership is by first segment, not strict |
| `SuccessorPump.RollingRuntime.NoteManifest` | src/rolling.rs:300-333 | the manifest is replaced as a whole and everything held back is handed to the flush |
| `SuccessorPump.RollingRuntime.BufferPending` | src/rolling.rs:367-377 | the oldest entry leaves a full buffer, the new one is last |
| `SuccessorPump.RollingRuntime.PumpInbound` | src/rolling.rs:1188-1232 | the pump's branches give the verdict of the decision function, and only a buffered datagram changes the state |
| `SuccessorPump.ManifestAccounted` | src/rolling.rs:300-333 | a manifest moves exactly the held-back datagrams to the flush |
| `SuccessorPump.RunAccounted` | src/rolling.rs:1138-1179 | after every run buffer, flush, relays and injections hold exactly the datagrams of that fate, each once, and the buffer is the newest 64 since the last flush |
| `SuccessorPump.RelayedAtMostOnce` | src/rolling.rs:1188-1232 | no datagram is relayed twice, injected twice, or both relayed and injected or still waiting |
| `SuccessorPump.StepFates` | src/rolling.rs:300-377 | only waiting datagrams change their fate, and only to evicted or flushing, relayed or expired |
| `SuccessorPump.OneFateEach` | src/rolling.rs:1138-1179 | after every run the datagrams read are entered in order, each with one fate, and one that such a datagram may have |
| `SuccessorPump.FinalFateStays` | src/rolling.rs:1138-1179 | a fate other than waiting never changes, whatever follows |
| `Ownership.PushRecognises` | src/rolling.rs:832-854 | a pushed manifest recognises every call live when it was made |
| `Ownership.RunKeepsInv` | src/rolling.rs:829-854 | because dialogs only end, every manifest under way recognises every call live now, in whatever order manifests arrive |
| `Ownership.ResponseNeverStolen` | src/rolling.rs:1218-1230 | a response for a call live on the predecessor is relayed or dropped, never injected, once a readable manifest was the last applied |
| `Ownership.ResponseFate` | src/rolling.rs:1218-1230 | over whole runs of both processes, a response for a call live when it was read, after a readable manifest, is relayed or dropped for good |
| `Ownership.RequestFate` | src/rolling.rs:1197-1217 | over whole runs of both processes, a To-tagged request that is not locally known is never injected: it is relayed, waits, or ran out of room or time waiting |
| `Ownership.SafeIffReadable` | src/rolling.rs:1389-1392 | the exact condition for ownership safety: the last manifest applied fitted the body limit, or no call is left |
| `Ownership.ReadableWhileBodiesFit` | src/rolling.rs:1389-1392 | while pushed bodies fit, no run leaves the safe states |
| `Ownership.OversizedManifestLosesCalls` | src/rolling.rs:1418-1439 | for every set of dialogs whose manifest is too long there is a run in which a live call's response is read and injected |
| `ManifestSize.ManyIdsOverflow` | src/rolling.rs:1389-1392 | 40,330 dialog ids of 24 characters make a body longer than is read |
| `ManifestSize.ManyCallsLost` | src/rolling.rs:1389-1392 | for every number of distinct ordinary dialogs from there on, a run in which the response of any of them is injected |
| `Handover.RunKeepsInv` | src/rolling.rs:556-666 | the invariant of the termination sequence in every reachable state |
| `Handover.ReleasedMeansRelayed` | src/rolling.rs:584-666 | anything public is given up only in predecessor role, with the loopback listener up exactly until the window is over; a failed handover has given up nothing |
| `Handover.ListenerGoneAfterWindow` | src/rolling.rs:584-666 | the state after the window is reachable and has no listener |
| `Handover.RoleNeverReverts` | src/rolling.rs:556-582 | once predecessor, always predecessor |
| `Handover.SelfEchoNeverAccepted` | src/rolling.rs:735-794 | the handoff loop is ended only by an answer of another process that was not in predecessor role |
| `Handover.LoneProcessNeverHandsOver` | src/rolling.rs:463-479 | without a heartbeat of another instance nothing is ever given up |
| `Eviction.FindIdle` | src/rolling.rs:905-910 | the loop keeps exactly the connections whose peer is not busy, in order |
| `Eviction.IdleKeysAre` | src/rolling.rs:905-910 | they are the registered idle connections, each once |
| `Eviction.Evictor.CloseBatch` | src/rolling.rs:911-921 | each closer is taken out of the registry before it is called, so it is called at most once, whatever registers and unregisters in the pauses |
| `Eviction.BatchIs` | src/rolling.rs:905-911 | a batch is made of distinct registered keys that are not busy, at most 20 |
| `Eviction.Evictor.Round` | src/rolling.rs:860-929 | at most 20 connections close in a round, none of them busy, none twice; nothing while gated |
| `Eviction.RoundShrinks` | src/rolling.rs:956-963 | a round takes min(20, n) idle connections and no busy one |
| `Eviction.RoundsNeeded` | src/rolling.rs:860-929 | only the busy connections are left after k rounds if and only if k is at least n/20, rounded up |
| `WsFrame.XorTwice` | examples/rwi_outbound_bridge.py:91-93 | exclusive or with the same octet twice is the identity |
| `WsFrame.BigEndianRoundTrip` | examples/rwi_outbound_bridge.py:76-85 | packing and unpacking a length of any width are inverse |
| `WsFrame.MaskedTwice` | examples/rwi_outbound_bridge.py:91-93 | masking twice with the same key is the identity |
| `WsFrame.WriteFrame` | examples/rwi_outbound_bridge.py:96-116 | the buffer built step by step is the encoding, for every length that fits 64 bits |
| `WsFrame.Socket.RecvExactly` | examples/rwi_outbound_bridge.py:57-64 | however the stream is chopped, exactly the next n octets, or None when it ends before |
| `WsFrame.Socket.ReadFrame` | examples/rwi_outbound_bridge.py:67-93 | reads the frame at the position and stops behind it, or returns None |
| `WsFrame.FrameRoundTrip` | examples/rwi_outbound_bridge.py:67-116 | wherever a written frame stands in a stream, masked or not, it is read back with its payload, and the next read starts behind it |
| `WsFrame.StrictPrefixUnread` | examples/rwi_outbound_bridge.py:67-93 | no strict prefix of a frame is read as a frame |
| `WsFrame.FramesRoundTrip` | examples/rwi_outbound_bridge.py:67-116 | a concatenation of written frames is read back as those frames, and then what follows |
| `WsFrame.StreamRoundTrip` | examples/rwi_outbound_bridge.py:67-116 | a stream that breaks off inside a frame yields exactly the frames before it |
| `SmtpPayload.DotStuffAndTerminate` | src/mail.rs:169-180 | the loop builds the stuffed lines and the terminating line |
| `SmtpPayload.EncodeHeaderOnlyBreaks` | src/mail.rs:123-125 | encoding changes a value if and only if it holds a line break, keeps every other character, and leaves nothing more to change |
| `SmtpPayload.HeaderBlock` | src/mail.rs:150-167 | the four header lines common to all mails, each ended by CRLF |
| `SmtpPayload.HeadersOneLine` | src/mail.rs:150-167 | whatever the inputs, no header line contains a CR or LF |
| `SmtpPayload.StuffedPlain` | src/mail.rs:169-178 | a stuffed line is never the terminator, and removing one leading dot gives back the trimmed line |
| `SmtpPayload.ReceiveLines` | src/mail.rs:169-180 | the receiver of section 4.5.2 of RFC 5321 gets stuffed lines back one by one |
| `SmtpPayload.PayloadReceived` | src/mail.rs:202-209 | the receiver gets exactly five header lines, a blank line and the body's lines without trailing CRs, and stops at the end of the payload: no earlier line is the terminator |
| `SmtpPayload.UnterminatedUnreceived` | src/mail.rs:169-180 | without the last line nothing would be received |
| `SmtpPayload.BuildPayload` | src/mail.rs:202-209 | the payload built step by step is received that way |
| `TaskCounters.HoldersMove` | src/utils.rs:289-318 | one step of one task changes a location's holders by that task alone |
| `TaskCounters.DroppingFinds` | src/utils.rs:306-310 | a guard being dropped finds its location, with a positive count |
| `TaskCounters.StepKeepsCounts` | src/utils.rs:289-318 | every atomic step keeps each count equal to the guards holding it and the global count equal to the tasks it counts |
| `TaskCounters.StepKeepsZeros` | src/utils.rs:311-317 | an entry at zero always has a task about to remove it |
| `TaskCounters.NeverNegative` | src/untracked_tasks.rs:47-88 | under every interleaving, in both variants, a count is the number of its holders, so never negative, and no holder's entry is missing |
| `TaskCounters.QuiescentMapExact` | src/utils.rs:285-318 | at rest the map's keys are exactly the locations with live guards, with their numbers, and the global count is their total |
| `Throttle.ThrottleState.ThrottleDecision` | src/db_report.rs:53-76 | the in-place update gives the decision and the table of the specification |
| `Throttle.KeysIndependent` | src/db_report.rs:40-76 | a key's entry is the one a run of only its own failures leaves |
| `Throttle.DecisionsIndependent` | src/db_report.rs:53-76 | so is every decision about it |
| `Throttle.NothingLost` | src/db_report.rs:53-76 | suppressed counts reported plus the current counter equal the failures not broadcast |
| `Throttle.Spaced` | src/db_report.rs:53-76 | two broadcasts of a key are at least the cooldown apart |
| `Throttle.RateBound` | src/db_report.rs:28-32 | an interval of length L holds at most L / cooldown + 1 broadcasts of a key |
| `DrainWait.ScheduleUnique` | src/shutdown.rs:68-87 | probe answers and timeout leave no choice about which probes are made and when |
| `DrainWait.WaitTurn` | src/shutdown.rs:73-86 | one turn makes the probes due and ends the wait, or leaves it waiting one poll interval after a busy answer before the deadline |
| `DrainWait.WaitUntilDrained` | src/shutdown.rs:68-87 | Drained exactly after two drained answers a settle window apart, Timeout exactly after a busy answer at or past the deadline, less than 3 s after it; and an end within a bounded number of turns |

## Left out

- Inputs instead of effects: clocks, deadlines, chunk sizes, directory contents, manifest arrival, relay answers and mask keys are parameters or nondeterministic choices; UTF-8 validity, lossy decoding, RFC 3339 parsing and SIP parsing are function parameters.
- GapsExactIff: takes lossy decoding to give at most three bytes for one, as replacement by U+FFFD does.
- FollowsExactlyOnce: takes each directory scan as one step, and no deletion of archives, reuse of inodes or clock running backwards; a call that starts over begins a new count.
- NoteManifest: replacing the set, storing the time and taking the buffer are one step, and so is one datagram decision.
- RunAccounted: a relay counts as made when its POST is issued, whether or not it is answered.
- ReleasedMeansRelayed: an unreadable heartbeat body, which counts as a heartbeat of instance 0, is the model's heartbeat of another instance.
- NothingLost: the suppressed counter is unbounded, not 64 bits wide.
- WaitUntilDrained: sleeps are exact and probes take no time; without a timeout the wait is watched for a given number of turns.
- WriteFrame: a payload of 2^64 octets or more, for which packing the length fails, is given as None.
- SearchFinishes: like the other results on finishing, says nothing of pages that are timed or disturbed.
- Candidate selection of the search: directory enumeration, archive periods, symlink checks, the candidate limit, and request validation.
- Cursor encoding as base64 JSON, the search worker, its semaphore and the HTTP responses.
- In the handover: TLS, HTTP serving, the AMI proxy, registration handoff, egress relaying and real sockets.
- Multipart mail, base64, boundary generation and the SMTP dialogue.
- `initiate` of the drain flag, `reset_task_metrics`, `reset_for_tests` and the snapshot views: one-line members.
- Configuration, licensing, authentication, metrics, SIP call control, media and the web console: wiring, or dependent on code outside the repository.

# Verification model of the inter-agent message bus

This project models the bus that lets coding-agent sessions on one machine send each other messages, and proves
what its parts promise, alone and together. It is written for Dafny 4.11; `dafny verify dfyconfig.toml` checks it.

**The broker** (`broker/broker.js`) is a single process with four tables (records by lease token, tokens by id,
recently seen ids, queued mail by session) and one delivery chain per registration. `broker_model.dfy` gives every
handler as a function on values. `broker.dfy` is the process itself: a class with heap records, loops and a mailbox
directory, each method proved equal to its function. `world.dfy` runs the same functions as a step machine in which
any handler, any settled forward, a GC tick, the clock or a crash may come next, with a history beside it that numbers
every push; `broker_runs.dfy` proves that this machine, with the numbers replaced by the envelopes, is the process.
The `world_*.dfy` files prove the results about all runs: tables that agree, leases nobody else can touch, order of
delivery and of requeued mail, conservation and ownership of mail, honest answers, and what a GC tick can change.
`broker_answers.dfy` ties those answers to the responses the process sends.

**What the small functions mean** is stated apart from them. `patterns.dfy` has the source's regular expressions as they
are written there, with a matcher, and proves that the model's predicates are what they match. `slugs.dfy` says what any
display name becomes, word by word. `decisions.dfy` gives the broker's answers as decision tables, and
`world_answers.dfy` says in every run what a push becomes, how long a lease lasts and how long an id stays with its
session; the times and limits are written there in numbers.

**The adapters**: `dedupe.dfy` has the two bounded memories of message ids (first-in first-out in the PTY sidecars,
least-recently-used in the Codex app-server adapter) against reference definitions; `sanitizer.dfy` the terminal
sanitizer against its regular expression; `sidecar.dfy` the deliver branch and the character stream with its delayed
submit keys; `app_server.dfy` the app-server adapter's deliver branch. `composition.dfy` puts the broker and the
sidecars together: frames on the wire may be read long after the broker has given them up and queued the message
again, and the result is at-most-once typing. `typing_distance.dfy` says exactly when two typings of one id are far
apart.

**The connections**: `lines.dfy` splits arbitrarily chunked streams, `calls.dfy` is the client with its queue of
waiting calls and the broker's serial answering, end to end. `json.dfy` is the encoder these and the mailbox files take
as a parameter; `text.dfy`, `sequences.dfy` and `wrappers.dfy` are shared vocabulary.

**Two smaller machines**: `wrapper.dfy` is the Codex wrapper's enable, disable and thread watch across their awaits;
`policy.dfy` is the launch-policy argument loop against a token grammar.

Conventions: time is a natural number of milliseconds that only grows; lease tokens are numbers handed out once;
`sha256` of a session id is taken to be injective, except that the 12-digit short id may collide; JSON texts come from
an abstract encoder whose output decodes to what was encoded, has no raw newline (section 7 of RFC 8259) and is not
blank. For the text left in a client's buffer the encoder has one more law (section 2 and section 4 of RFC 8259): a
response is the text of an object, so it starts with a brace, white space in front of it is skipped, and with any
other text in front it does not parse. A forward's outcome, the thread state and the results of starting and stopping
a sidecar are parameters.

## Properties that do not hold as one might expect

- A GC tick is not always transparent. `WorldGc.TickInvisibleIffCalm` proves exactly when it is, for the answers to all
  requests then and after any later run: when no record and no recent id has reached its collection time.
  `WorldGc.StaleStateIsReached` is a run to a state in which it can be told. What a register would flush is never
  changed by the tick itself.
- The client does not clear its receive buffer when a socket closes. `Calls.OwnResponsesIffBufferBlank` proves that
  calls on the next socket get their own responses in every run exactly when that leftover text is nothing but JSON
  white space. `Calls.CutAnswerSpoilsNextCall` is the failing input: after a socket that closed inside an answer, at
  least one character in, the next socket's first call fails with `invalid_response` whatever the broker answers.
- The PTY stream is exactly the accepted lines only while no line holds a submit key itself; the time slice of a
  rendered line is not sanitized. `Sidecar.StreamIsExactIffLinesAreCrFree` and `Sidecar.RenderedIsCleanIffTimeIs` give
  the conditions, `Composition.ControlInSentAt` gives it for what a sender pushes: a control character among the
  characters 11 to 15 of `sent_at`. `Composition.SubmitKeyExample` is such a push.
- A disable can be undone without a later enable. `Wrapper.DisableIsUndoneIffRestarting` proves that this happens
  exactly when an enable with a changed profile, which has found the thread ready, is waiting for the sidecar to stop at
  the moment the disable arrives.
- An enable that is answered `enabled` can be undone without a later disable. `Wrapper.EnableIsUndoneIffStopping` proves
  that this happens exactly when, at its arrival, a disable waits or an enable with a changed profile is waiting for the
  sidecar to stop, and the enable can be answered so at all. `Wrapper.StoppingHappens` is a run to such a state.
- `-c=value` is ignored, unlike every other short or long flag with a value: `Policy.EqualsFormIffNotShortConfig`.
- Two typings of one id into a session need not have 256 other ids typed between them: a write that throws leaves the
  id in the dedupe window, and a new sidecar process starts with an empty window.
  `TypingDistance.TypingsOfOneIdAreFarApartIffSmooth` proves that the distance is kept in every run exactly on machines
  whose terminal writes never throw and whose sidecars are never started anew. The failing runs are
  `TypingDistance.BrokenLinesAreForgotten`, where 256 broken-off lines let an id be typed twice in a row, and
  `TypingDistance.RestartForgets`. What holds on every machine is the distance between admissions,
  `Composition.AdmissionsOfOneIdAreFarApart`.

## Model

| member | source | states |
|---|---|---|
| `Text.TrimIsEmptyIffBlank` | broker/broker.js:579 | a line is skipped exactly when it holds only white space |
| `Text.TrimDropsBothEnds` | broker/broker.js:108 | `trim` takes the white space off both ends and nothing else |
| `Text.CollapseSpacesBetween` | broker/broker.js:108 | a run of white space between two texts becomes one space |
| `Text.LengthAddsUp` | broker/broker.js:110 | a length counts one for every character up to U+FFFF and two for the others |
| `Patterns.KindsAndNames` | broker/broker.js:79-80 | kinds and named ids are exactly what their regular expressions match |
| `Patterns.HashedIds` | broker/broker.js:81 | so are hashed ids |
| `Patterns.ParticipantIds` | broker/broker.js:82 | so are participant ids |
| `Patterns.WhiteSpace` | broker/broker.js:108 | `\s` is the white space and the line ends of ECMA-262 |
| `Identity.NamedAndHashedAreDisjoint` | broker/broker.js:80-82 | named and hashed participant ids have no word in common |
| `Identity.SlugIsIdentityOnCanonical` | broker/broker.js:114-127 | a handle already in canonical form is its own slug |
| `Identity.NormalizeNameIsIdempotent` | broker/broker.js:114-127 | normalizing a display name that was accepted gives the same id again, and the id is a legal named id |
| `Slugs.SlugOfHandle` | broker/broker.js:114-127 | in words joined by single dashes only the case changes: a capital letter becomes the small letter of the same rank |
| `Slugs.SlugOfWords` | broker/broker.js:114-127 | whatever stands between two words becomes one dash |
| `Slugs.SlugDropsEnds` | broker/broker.js:114-127 | what stands before the first word and behind the last one is dropped |
| `Slugs.SlugOfNothing` | broker/broker.js:114-127 | a text without words has no slug |
| `Slugs.SlugOfForeignLetters` | broker/broker.js:114-127 | the two letters outside ASCII whose small form has an ASCII letter are read as that letter |
| `Slugs.NameOrRefusal` | broker/broker.js:114-127 | a name is refused exactly when its slug does not begin with a letter or has more than 64 characters |
| `Identity.CandidatesAre` | broker/broker.js:129-137 | the default ids are `kind:short`, then the same with one digit from 0 to 9 |
| `Identity.BuildParticipantIdFindsFreeId` | broker/broker.js:129-137 | the id is found exactly when one of the 11 candidates is free, is not in use, and passes the id grammar |
| `BrokerModel.FindBySession` | broker/broker.js:147-152 | the record found belongs to the session, and none is found only when the session has none |
| `BrokerModel.ValidateGivesGoodProfile` | broker/broker.js:356-391 | a request that passes validation has a legal kind, a session and a legal name if any |
| `Decisions.ProfileDecides` | broker/broker.js:356-391 | the refusals of a register that need no table, in order, and what an accepted request says |
| `Decisions.RegisterDecides` | broker/broker.js:356-463 | a register is refused by the first line of the tables that applies, or answered with the id it asked for, had, or is first free, a lease of 75 s, and whether it had that id |
| `Decisions.RegisterRecords` | broker/broker.js:426-444 | its record, its recent id and its chain hold what the request says, and the chain reaches an adapter exactly when a trusted path was given |
| `Decisions.HeartbeatDecides` | broker/broker.js:465-472 | a heartbeat is refused for an unknown or an expired lease, or buys 75 s |
| `Decisions.UnregisterDecides` | broker/broker.js:548-557 | only an unknown token cannot unregister; the record goes and its id is marked as seen now |
| `Decisions.PushDecides` | broker/broker.js:498-509 | the four refusals of a push in order; otherwise it goes out under the id of its lease |
| `Decisions.RouteDecides` | broker/broker.js:521-545 | a holder with a live lease is dialled, a recent id is queued for its session, any other id fails, and the sender is told so |
| `Decisions.SettledDecides` | broker/broker.js:526-534 | a sender that waits is told `delivered`, or `queued` with the adapter's reason |
| `BrokerModel.UnexpiredTwice` | broker/broker.js:346-352 | pruning a queue earlier never changes what is left of it later |
| `BrokerTables.RegisterKeepsTables` | broker/broker.js:356-463 | every register, also one that deletes an expired record and then fails, keeps the four tables in agreement |
| `BrokerTables.HeartbeatKeepsTables` | broker/broker.js:465-472 | a heartbeat keeps the tables in agreement |
| `BrokerTables.UnregisterKeepsTables` | broker/broker.js:548-557 | an unregister keeps the tables in agreement |
| `BrokerTables.DispatchKeepsTables` | broker/broker.js:521-545 | routing a push keeps the tables in agreement |
| `BrokerTables.CompleteKeepsTables` | broker/broker.js:283-318 | a settled forward, with its requeue, keeps the tables in agreement |
| `BrokerTables.GcKeepsTables` | broker/broker.js:327-354 | a GC tick keeps the tables in agreement |
| `BrokerTables.ReloadKeepsTables` | broker/broker.js:208-230 | so does a restart |
| `BrokerTables.ReclaimKeepsId` | broker/broker.js:405-424 | reclaiming an expired record of the same kind with no name or the same name always succeeds with the same id |
| `BrokerTables.HandleNamesItself` | broker/broker.js:366 | asking for a canonical handle by name asks for exactly that id |
| `BrokerProcess.Broker.FindParticipantBySessionId` | broker/broker.js:147-152 | the scan returns a record of the session, or none when there is none |
| `BrokerProcess.Broker.BuildId` | broker/broker.js:129-137 | the candidate loop returns the first free candidate |
| `BrokerProcess.Broker.DeleteRecentAliases` | broker/broker.js:139-145 | exactly the session's other ids leave the recent table |
| `BrokerProcess.Broker.RewriteMailboxFile` | broker/broker.js:190-198 | the file of one queue holds its text, and is absent when the queue is |
| `BrokerProcess.Broker.EnqueueMailbox` | broker/broker.js:200-206 | one entry is appended to one queue, and the directory still mirrors the mailbox |
| `BrokerProcess.Broker.CompleteForward` | broker/broker.js:283-318 | the head link settles: accepted mail is gone, other mail goes to the end of its session's queue, and a waiting sender is told which |
| `BrokerProcess.Broker.HandleHeartbeat` | broker/broker.js:465-472 | the whole new state and the answer of a heartbeat |
| `BrokerProcess.Broker.HandleUnregister` | broker/broker.js:548-557 | the whole new state and the answer of an unregister |
| `BrokerProcess.Broker.HandlePush` | broker/broker.js:498-545 | every check in order, the routing, and an envelope whose sender is the id bound to the lease |
| `BrokerProcess.Broker.FlushMailbox` | broker/broker.js:301-318 | the queue leaves the mailbox and its unexpired entries stand on the new chain, in order |
| `BrokerProcess.Broker.HandleRegister` | broker/broker.js:356-463 | the whole new state and the answer of a register, on every path |
| `BrokerProcess.Broker.Gc` | broker/broker.js:327-354 | the tick removes exactly the collectable records, the old recent ids and the expired mail, and the directory follows |
| `BrokerProcess.Broker.ParseMailboxFile` | broker/broker.js:214-222 | the loop keeps exactly the fresh entries of the lines that parse, in order |
| `BrokerProcess.Broker.LoadMailboxFromDisk` | broker/broker.js:208-230 | the mailbox is what the directory's fresh entries say, and the directory is rewritten to mirror it |
| `BrokerProcess.Broker.Restart` | broker/broker.js:208-230 | a new process starts with just the mail of the directory |
| `BrokerProcess.RestartKeepsMail` | broker/broker.js:190-230 | a crash at any step boundary followed by a start gives exactly the unexpired queued entries |
| `MailboxFiles.PrintThenLoad` | broker/broker.js:190-222 | printing a queue and loading the text gives back its unexpired entries in order |
| `MailboxFiles.LineComesTo` | broker/broker.js:214-222 | a line of a file comes to an entry exactly when it parses and was queued less than 300 s ago, whatever the other lines are |
| `MailboxFiles.SplitThenJoin` | broker/broker.js:214 | the lines of a file joined again are the file |
| `MailboxFiles.CrashThenLoad` | broker/broker.js:190-230 | loading a mirrored directory gives exactly the pruned mailbox |
| `BrokerRuns.WorldIsTheBroker` | broker/broker.js:327-557 | in every run the numbered step machine with envelopes put back is the broker process: its tables, clock and tokens |
| `BrokerAnswers.AnswersAreTheBrokers` | broker/broker.js:498-545 | and in every run a push has an answer in the step machine exactly when the process has given its sender one, and it is that one |
| `WorldTables.RegisterEffect` | broker/broker.js:405-454 | what a register does to every table, whichever way its id was chosen, and that a failed one removes at most an expired record |
| `WorldTables.TablesAgreeInEveryRun` | broker/broker.js:84-94 | in every run the token and id tables are inverse, sessions have one record, recent ids map to their latest registrant with no two for one session, and tokens are never reused |
| `WorldLeases.StepKeepsValidLease` | broker/broker.js:320-354 | no step but its own unregister removes a record with a valid lease, changes its id or session, or lowers its expiry |
| `WorldLeases.ValidLeaseIsUntouched` | broker/broker.js:320-354 | over whole runs: a record whose lease is valid at the start and whose expiry then is not yet passed at the end keeps its id and session and its lease is still valid, unless it unregisters or the broker crashes |
| `WorldLeases.DeadTokenStaysDead` | broker/broker.js:465-500 | once a token fails validity it never again authenticates a heartbeat or a push, in any continuation |
| `WorldLeases.ValidLeaseIsRecent` | broker/broker.js:323-354 | every record with a valid lease is in the recent table |
| `WorldLeases.RouteReachesHolder` | broker/broker.js:521-545 | a push is only ever routed to the session that last registered the target id |
| `WorldLeases.UnregisterEndsLease` | broker/broker.js:548-557 | after an unregister the token never authenticates again and mail for the id waits for the session |
| `WorldLeases.HeartbeatBuysOneTerm` | broker/broker.js:320-325 | after a heartbeat the id is reached live for exactly 75 s, then through the mailbox |
| `WorldLeases.EligibleForTenMinutes` | broker/broker.js:323-345 | no push fails as unknown within 600 s of the latest holder's last sign of life unless that session took another id |
| `WorldLeases.IneligibleAfterGc` | broker/broker.js:327-345 | it always does after a tick at or beyond 600 s with no valid lease on the id |
| `WorldLeases.RegisteredIdIsAddressable` | broker/broker.js:422-442 | every id a register hands out passes push validation and routes to that registration |
| `WorldAnswers.PushIsLetThrough` | broker/broker.js:498-545 | in every run a push that no line refuses becomes one more record as it was sent, at one place; any other changes nothing |
| `WorldAnswers.RegisterBuysOneTerm` | broker/broker.js:426-442 | after a register the id is reached live and its lease authenticates for exactly 75 s |
| `WorldAnswers.HeartbeatKeepsAlive` | broker/broker.js:465-472 | so does the lease after a heartbeat |
| `WorldAnswers.IdStaysWithSession` | broker/broker.js:327-342 | over runs an id stays with the session that has it until ten minutes after its lease has ended, unless the session unregisters or asks for another name, or the broker dies |
| `WorldAnswers.BoundIdIsNotGiven` | broker/broker.js:422-424 | so long no other session is given it |
| `WorldAnswers.TickFreesId` | broker/broker.js:330-342 | from then on a tick frees it for whoever asks first |
| `WorldOrder.DeliveryOrder` | broker/broker.js:283-318 | for every registration in every run: forwards are a prefix of its plan, at most one is unsettled, delivered mail and requeued mail are each a subsequence of the plan and every settled forward is in exactly one of them |
| `WorldOrder.PlanStartsWithMailbox` | broker/broker.js:301-318 | a plan starts with the unexpired mailbox at registration, oldest first, and that queue is then gone |
| `WorldOrder.PlanOnlyGrows` | broker/broker.js:283-293 | afterwards it only grows at its end, by the live pushes routed to it in the order they ran |
| `WorldOrder.PlanOfARegistration` | broker/broker.js:283-318 | in every run the plan of a registration is the unexpired mailbox of its session when it registered, then the live pushes routed to it since, in order |
| `WorldMail.RequeuedInPlanOrder` | broker/broker.js:200-206 | in every run the entries of a queue that came back from forwards of one registration stand in the order of its plan |
| `WorldMail.ExpiredMailHadItsTime` | broker/broker.js:301-352 | in every run a message that expired last entered the mailbox at least 300 s before |
| `WorldTheorems.InvInEveryRun` | broker/broker.js:283-557 | all invariants hold in every run |
| `WorldTheorems.ExactlyOneSpot` | broker/broker.js:283-318 | conservation: in every run each validated push is in exactly one chain link, queue entry, line of the accept log, or end |
| `WorldTheorems.OnlyHeadMoves` | broker/broker.js:283-318 | a settled forward takes the head to the end of the accept log or of its session's queue; every other message stays at its spot or moves one link nearer on that chain |
| `WorldTheorems.NothingLostWithoutCrash` | broker/broker.js:283-318 | in a run without a crash no push is ever lost |
| `WorldTheorems.AnswersTellTheTruth` | broker/broker.js:526-545 | a sender is told `delivered` exactly when the adapter accepted its push, `failed` exactly when nobody held the id, and no push is accepted twice |
| `WorldTheorems.MailStaysWithItsOwner` | broker/broker.js:498-546 | whatever is queued, chained or dialled belongs to the session that held the target id when it was pushed |
| `WorldTheorems.FromIsTheLeaseHolder` | broker/broker.js:510-512 | every envelope carries the id register bound to the presented lease |
| `WorldGc.GcKeepsFlush` | broker/broker.js:346-352 | a tick never changes what a register would flush, now or later |
| `WorldGc.GcLeavesFreshMail` | broker/broker.js:346-352 | after a tick the mailbox holds exactly the entries still inside their time to live |
| `WorldGc.TickKeeps` | broker/broker.js:327-345 | a tick keeps a record until exactly ten minutes after its lease has ended, and a recent id until ten minutes after it was last seen |
| `WorldGc.CalmTicksChangeNothing` | broker/broker.js:327-354 | a tick at a calm moment, inserted anywhere in a run, changes nothing but expired mail in every later state |
| `WorldGc.StaleIdIsVisible` | broker/broker.js:343-345 | a recent id past its time makes a tick visible: queued without it, refused after it |
| `WorldGc.StaleRecordIsVisible` | broker/broker.js:330-342 | so does a record past its time, to a register under another kind |
| `WorldGc.TickInvisibleIffCalm` | broker/broker.js:327-354 | a tick is invisible to every push, register, heartbeat and unregister, at once and after every later run, if and only if it collects no record and no recent id |
| `WorldGc.StaleStateIsReached` | broker/broker.js:327-354 | a run reaches a state in which a tick can be told |
| `WorldGc.StepKeepsSessionsLegal` | broker/broker.js:359-361 | the hypothesis of that equivalence, session ids of legal length, is kept by every step |
| `Lines.NewlineAt` | broker/broker.js:576 | the first newline, or the length |
| `Lines.ExtractIsFaithful` | broker/broker.js:574-578 | splitting loses nothing and no line holds a newline |
| `Lines.ExtractUnlines` | broker/broker.js:574-578 | there is only one way to split: printed lines split into themselves |
| `Lines.ExtractInChunks` | broker/broker.js:572-578 | the lines of a stream are those of a first part and those of the kept rest with the second part |
| `Lines.NonBlankAt` | broker/broker.js:579 | a line is skipped exactly when it is white space, wherever it stands |
| `Lines.LineReader.OnData` | broker/broker.js:573-592 | one chunk: exactly the complete, non-blank lines are taken off and the rest is kept |
| `Lines.ChunkingDoesNotMatter` | broker/broker.js:570-594 | for any chunking the lines handed out are those of the whole stream |
| `Calls.BusClient.Send` | client/client.js:110-116 | one request line is written and one call waits, or without a socket the call is rejected |
| `Calls.BusClient.OnData` | client/client.js:60-75 | each non-blank line settles the oldest waiting call, lines nobody waits for are dropped |
| `Calls.BusClient.OnClose` | client/client.js:77-80 | every waiting call is rejected, in order, and the receive buffer stays |
| `Calls.BrokerConnection.OnData` | broker/broker.js:573-580 | the lines of a chunk join the chain of lines to answer |
| `Calls.BrokerConnection.AnswerNext` | broker/broker.js:580-591 | the oldest line gets one answer line |
| `Calls.GotIsPrefix` | client/client.js:60-66 | what a reader has handed out is always a prefix of the lines sent, all of them when nothing is under way |
| `Calls.EachRequestAnsweredOnce` | broker/broker.js:570-595 | for any chunking the broker answers each request once and in the order sent |
| `Calls.EachCallSettledOnce` | client/client.js:60-116 | every call is settled once and in order, by the response to its own request (an error rejects it with its code or `broker_error`, every other response resolves it) or by the disconnect, and none is left waiting when the socket is closed or nothing is under way |
| `Calls.OwnResponsesIffBufferBlank` | client/client.js:60-84 | in every run every answer that is heard settles its own call, rejecting it for an error and resolving it for any other response, if and only if the buffer holds nothing but JSON white space at the start |
| `Calls.StaleBufferIsRead` | client/client.js:60-75 | a run for any response in which the first call is settled with the leftover text in front of it |
| `Calls.StaleBufferSpoils` | client/client.js:60-75 | with any other text in the buffer the first call is rejected with `invalid_response`, whatever the broker answers |
| `Calls.CutAnswerStays` | client/client.js:77-84 | a socket closed at any point of a response leaves the received part in the buffer |
| `Calls.CutAnswerSpoilsNextCall` | client/client.js:60-84 | so does a socket that closed after any part of an answer to the first call of the next one |
| `Dedupe.FifoWindow.SeenBefore` | adapters/claude-pty/sidecar.js:91-99 | true exactly for the last 256 ids answered false; a hit changes nothing; never more than 256 entries |
| `Dedupe.ConsecutiveMissesDistinct` | adapters/claude-pty/sidecar.js:91-99 | any 257 consecutive misses are pairwise distinct |
| `Dedupe.RepeatsAreSeparated` | adapters/codex-pty/sidecar.js:79-87 | two misses of one id have 256 misses of other, pairwise distinct ids between them |
| `Dedupe.RepeatNeedsManyIds` | adapters/claude-pty/sidecar.js:91-99 | a repeated miss takes more than 256 different ids |
| `Dedupe.FewIdsMissOnce` | adapters/claude-pty/sidecar.js:91-99 | with at most 256 ids in play each is a miss at most once |
| `Dedupe.LruWindow.SeenBefore` | adapters/codex-app-server/adapter.py:111-125 | true exactly when the value was seen before and fewer than `size` different others since |
| `Dedupe.RecencyStep` | adapters/codex-app-server/adapter.py:117-125 | one call keeps the dictionary the most recent `size` distinct values in recency order |
| `Dedupe.HitIffRecent` | adapters/codex-app-server/adapter.py:117-125 | being among these is the reference definition: seen, and fewer than `size` different values since |
| `Dedupe.FewValuesMissOnce` | adapters/codex-app-server/adapter.py:117-125 | with at most `size` values in play each is answered false only once |
| `Sanitizer.MatchLengthIsUnique` | adapters/claude-pty/sidecar.js:35-36 | at any place the escape pattern matches at most one length |
| `Patterns.EscapePattern` | adapters/claude-pty/sidecar.js:35 | the escapes of the model are exactly what the regular expression matches, its second alternative only where the first matches nothing |
| `Patterns.EscapeClasses` | adapters/claude-pty/sidecar.js:35-36 | so are its classes of characters and the class of controls |
| `Sanitizer.NothingIsEmpty` | adapters/claude-pty/sidecar.js:38 | null is shown as nothing |
| `Sanitizer.ScannerDecidesPattern` | adapters/claude-pty/sidecar.js:35 | the left-to-right scanner finds a match exactly when the regular expression does, with its length |
| `Sanitizer.SanitizedIsClean` | adapters/claude-pty/sidecar.js:37-41 | no C0, C1 or DEL character comes out of the sanitizer |
| `Sanitizer.SanitizeIsIdentityOnClean` | adapters/claude-pty/sidecar.js:37-41 | clean text is left alone |
| `Sanitizer.SanitizeIsIdempotent` | adapters/codex-pty/sidecar.js:29-35 | sanitizing twice is sanitizing once |
| `Sanitizer.SanitizerKeepsTheRest` | adapters/claude-pty/sidecar.js:35-41 | leftmost replacement: the matches found follow one another without overlap, none begins at a place they leave, and the output is exactly the characters at those places, in order, with controls as spaces |
| `Sidecar.PtySidecar.Write` | adapters/claude-pty/sidecar.js:121-122 | the characters up to the first write that throws are typed |
| `Sidecar.PtySidecar.Deliver` | adapters/claude-pty/sidecar.js:101-136 | the reply on every path, the dedupe query, and what is typed |
| `Sidecar.PtySidecar.Submit` | adapters/claude-pty/sidecar.js:129-131 | a submit timer types one key or nothing |
| `Sidecar.StreamIsTheLines` | adapters/claude-pty/sidecar.js:120-132 | under any interleaving of deliveries and timers the stream without submit keys is the accepted lines in order, and the keys add up |
| `Sidecar.StreamIsExactIffLinesAreCrFree` | adapters/claude-pty/sidecar.js:120-132 | that is the lines themselves if and only if no line holds a submit key; then keys never outnumber acceptances and match them when no timer is pending |
| `Sidecar.UnhurriedStream` | adapters/codex-pty/sidecar.js:108-115 | when each timer fires before the next delivery the stream is line, key, line, key |
| `Sidecar.RenderedIsCleanIffTimeIs` | adapters/claude-pty/sidecar.js:55-61 | a rendered line holds a control character, or a submit key, exactly when its time slice does |
| `Sidecar.TimeShown` | adapters/claude-pty/sidecar.js:56 | the time shown is the characters 11 to 15 of the time stamp and a Z |
| `Sidecar.DeliveryDecides` | adapters/claude-pty/sidecar.js:101-136 | a delivery is refused for the first of five reasons, or accepted; the window is asked when the first three do not apply |
| `AppServer.Adapter.Deliver` | adapters/codex-app-server/adapter.py:208-272 | the reply on every path, the dedupe query, and the turns injected |
| `AppServer.FewIdsTriedOnce` | adapters/codex-app-server/adapter.py:233-265 | while at most 256 ids have been asked for, no id is tried twice, whether or not the helper says that it became a turn |
| `AppServer.TurnDecides` | adapters/codex-app-server/adapter.py:208-272 | a delivery is refused for the first of five reasons, or accepted; the helper decides only when the terminal does not work |
| `AppServer.BrokerMailIsWellFormed` | broker/broker.js:504-519 | no adapter refuses, for its id or body, an authorised delivery of mail the broker let through |
| `Composition.BrokerKeepsInv` | broker/broker.js:232-318 | a broker step keeps wire, sidecars and broker in agreement |
| `Composition.ReadKeepsInv` | adapters/claude-pty/sidecar.js:101-136 | so does a sidecar reading a frame at any time |
| `Composition.InvInEverySystemRun` | broker/broker.js:232-318 | they agree in every run of broker and sidecars |
| `Composition.WireGrows` | broker/broker.js:232-254 | a frame is put on the wire exactly when a chain that can reach its adapter dials its head |
| `Composition.ReadOnce` | adapters/claude-pty/sidecar.js:101-136 | a sidecar answers a frame once, and `accepted` exactly when it has typed the line |
| `Composition.AdmissionsOfOneIdAreFarApart` | adapters/claude-pty/sidecar.js:91-119 | however often the broker times out, requeues and flushes again, when one life of a sidecar lets an id through its window twice the admissions around, typed to the end or broken off, have 257 different ids |
| `Composition.FewIdsAdmittedOnce` | adapters/claude-pty/sidecar.js:91-119 | when the pushes meant for a session use at most 256 ids each gets through at most once |
| `Composition.TypedAreWholeAdmissions` | adapters/claude-pty/sidecar.js:117-132 | what is typed to the end into a session is what its sidecar let through and did not break off |
| `Composition.FewIdsTypedOnce` | adapters/claude-pty/sidecar.js:91-136 | then no id is typed into the session twice |
| `TypingDistance.TypedApartIfWhole` | adapters/claude-pty/sidecar.js:91-136 | in any run in which no line of a session broke off and its sidecar did not restart, two typings of one id have 256 typings of other, pairwise different ids between them |
| `TypingDistance.BrokenLinesAreForgotten` | adapters/claude-pty/sidecar.js:91-135 | the failing run: an id is typed, 256 other ids break off at any given character, and the id is typed again with nothing typed in between |
| `TypingDistance.RestartForgets` | adapters/claude-pty/sidecar.js:69 | and one with a new sidecar process between the two typings |
| `TypingDistance.TypingsOfOneIdAreFarApartIffSmooth` | adapters/claude-pty/sidecar.js:91-136 | the exact condition: that distance is kept for every session in every run if and only if no write can throw and sidecars are not started anew |
| `Composition.DeliveredMeansTyped` | broker/broker.js:526-529 | a sender told `delivered` had its message typed to the end in the session that held the target id |
| `Composition.TypedLinesAreGenuine` | adapters/claude-pty/sidecar.js:55-61 | every line typed into a session renders a push meant for it and opens with the id bound to the sender's lease |
| `Composition.CleanMessageIsTypedAsSent` | broker/broker.js:510-519 | from the request to the screen: under the bound sender id, an id and a body without control characters are typed as sent, with the broker's time when none was given |
| `Composition.ControlInSentAt` | adapters/claude-pty/sidecar.js:55-61 | the line of a pushed message holds a control character, or a submit key, if and only if its `sent_at` has one among the characters shown |
| `Composition.SubmitKeyExample` | adapters/claude-pty/sidecar.js:55-61 | a push for which it does |
| `Policy.QuotedAssignment` | adapters/codex-app-server/resolve_wrapper_policy.py:37-60 | a quoted `key="value"` reads back as key and value, whatever the value |
| `Policy.QuotedOverrideIsExplicit` | adapters/codex-app-server/resolve_wrapper_policy.py:37-60 | a quoted override of a mode key says what the flag with the bare value says |
| `Policy.AssignmentReads` | adapters/codex-app-server/resolve_wrapper_policy.py:37-60 | an assignment reads back with white space and one pair of equal quotes dropped |
| `Policy.OverrideSets` | adapters/codex-app-server/resolve_wrapper_policy.py:56-118 | a text without `=` assigns nothing, and four keys set a mode when their value is not empty |
| `Patterns.PythonSpace` | adapters/codex-app-server/resolve_wrapper_policy.py:38 | the white space Python strips |
| `Policy.FlagsByKind` | adapters/codex-app-server/resolve_wrapper_policy.py:81-159 | the flags with a value, by what they set |
| `Policy.SplitValueReadsFlag` | adapters/codex-app-server/resolve_wrapper_policy.py:44-53 | it finds a value exactly when the flag stands there with one, and steps over what the grammar's token covers |
| `Policy.AddOverride` | adapters/codex-app-server/resolve_wrapper_policy.py:113-118 | an override is recorded and sets a mode exactly when it names one with a value |
| `Policy.TakeLongFlag` | adapters/codex-app-server/resolve_wrapper_policy.py:81-120 | the long flags take exactly the tokens the grammar gives them |
| `Policy.TakeShortFlag` | adapters/codex-app-server/resolve_wrapper_policy.py:122-159 | so do the short flags |
| `Policy.ResolvePolicy` | adapters/codex-app-server/resolve_wrapper_policy.py:63-192 | the loop ends and computes what the tokens of the command line mean |
| `Policy.TokensAppend` | adapters/codex-app-server/resolve_wrapper_policy.py:76-79 | arguments read to the end do not influence how the following ones are read |
| `Policy.NothingAfterDashes` | adapters/codex-app-server/resolve_wrapper_policy.py:78-79 | what follows a `--` that no flag consumes has no effect |
| `Policy.EqualsFormIffNotShortConfig` | adapters/codex-app-server/resolve_wrapper_policy.py:44-159 | in token position `flag=value` means `flag value` for every flag with a value except, always, `-c` |
| `Policy.LastExplicitApprovalWins` | adapters/codex-app-server/resolve_wrapper_policy.py:81-118 | without the strong flags the last explicit approval setting wins over earlier ones and the configuration, whichever flag or override makes it |
| `Policy.LastExplicitSandboxWins` | adapters/codex-app-server/resolve_wrapper_policy.py:89-118 | the same for the sandbox mode |
| `Policy.StrongFlagsWin` | adapters/codex-app-server/resolve_wrapper_policy.py:161-181 | a bypass flag anywhere forces never and danger-full-access, else a full-auto flag forces on-request and workspace-write |
| `Policy.ConfigurationDecides` | adapters/codex-app-server/resolve_wrapper_policy.py:67-68 | when no argument sets a mode the configuration does: one key, or the other when that is missing or empty |
| `Policy.ListsAndProfile` | adapters/codex-app-server/resolve_wrapper_policy.py:97-118 | directories and overrides are listed in order, the last profile counts, and nothing else touches them |
| `Policy.NothingAsked` | adapters/codex-app-server/resolve_wrapper_policy.py:63-75 | without arguments the policy is the configuration's |
| `Policy.ForeignIsIgnored` | adapters/codex-app-server/resolve_wrapper_policy.py:76-176 | an argument that is no flag has no effect, wherever it stands |
| `Policy.FlagWithoutValue` | adapters/codex-app-server/resolve_wrapper_policy.py:44-49 | nor has a flag at the end without its value |
| `Wrapper.Bus.StartSidecar` | adapters/codex-pty/wrapper.js:297-329 | a start is made only when none runs or is under way; otherwise the running one is awaited |
| `Wrapper.Bus.EnableBus` | adapters/codex-pty/wrapper.js:359-387 | the whole new state of an enable up to its first await |
| `Wrapper.Bus.EnableAfterStop` | adapters/codex-pty/wrapper.js:366-386 | the rest of an enable that had to stop the sidecar |
| `Wrapper.Bus.DisableBus` | adapters/codex-pty/wrapper.js:389-396 | the whole new state of a disable up to its first await |
| `Wrapper.Bus.DisableAfterStart` | adapters/codex-pty/wrapper.js:392-396 | a disable that waited for a start goes on to stop what it started |
| `Wrapper.Bus.DisableAfterStop` | adapters/codex-pty/wrapper.js:396-407 | the end of a disable, whether the stop worked or not |
| `Wrapper.Bus.SidecarStarted` | adapters/codex-pty/wrapper.js:304-325 | what a settled start leaves |
| `Wrapper.Bus.ThreadReady` | adapters/codex-pty/wrapper.js:343-347 | the watcher starts the sidecar only while it is wanted and not running |
| `Wrapper.Bus.ThreadNotReady` | adapters/codex-pty/wrapper.js:335-352 | a watch without a thread starts nothing and is an error only while the bus is wanted |
| `Wrapper.AtMostOneStart` | adapters/codex-pty/wrapper.js:297-329 | under every interleaving at most one `sidecar.start` is under way, exactly while the promise is set |
| `Wrapper.DisableIsFinal` | adapters/codex-pty/wrapper.js:331-408 | when requests come one at a time, a disable answered `disabled` keeps the sidecar off until the next enable, in every interleaving with the watcher and starts under way |
| `Wrapper.DisableIsUndoneIffRestarting` | adapters/codex-pty/wrapper.js:359-408 | some run undoes a disable without a later enable if and only if a profile-changing enable waits for the stop when it arrives |
| `Wrapper.RestartHappens` | adapters/codex-pty/wrapper.js:364-367 | that situation is reachable |
| `Wrapper.EnableIsFinal` | adapters/codex-pty/wrapper.js:331-408 | an enable answered `enabled` that arrived while nothing was on its way to stop the sidecar keeps it on, in every interleaving, until somebody asks for a stop |
| `Wrapper.EnableIsUndoneIffStopping` | adapters/codex-pty/wrapper.js:359-408 | some run undoes an enable answered `enabled` without a later stop if and only if a request is on its way to stop the sidecar when it arrives and it can be answered so |
| `Wrapper.StoppingHappens` | adapters/codex-pty/wrapper.js:365-396 | that situation is reachable |
| `Wrapper.AnswersAreTrue` | adapters/codex-pty/wrapper.js:331-408 | every answer is true when it is given, a failed stop leaves the sidecar as it was and is reported, and `awaiting_thread` means that the watch is on |
| `Wrapper.StartSettles` | adapters/codex-pty/wrapper.js:304-325 | a start that settles is over, reported, and leaves the sidecar running if it worked |
| `Wrapper.StopClearsError` | adapters/codex-pty/wrapper.js:366-400 | a stop that works clears the error of earlier attempts |
| `Wrapper.RequestsWaitForStart` | adapters/codex-pty/wrapper.js:297-395 | a request that awaits a start goes on when it has settled, and not before |
| `Wrapper.WatchTells` | adapters/codex-pty/wrapper.js:331-352 | a thread that is found while the bus is wanted begins or joins a start; a watch that finds none says why |
| `Wrapper.WatchWaitsForStart` | adapters/codex-pty/wrapper.js:343-357 | the watch is on until the start it waits for has settled |
| `Wrapper.WatchStartsSidecar` | adapters/codex-pty/wrapper.js:331-387 | an enable before the first prompt waits, and the sidecar starts when the thread appears |
| `Wrapper.EnableStartsSidecar` | adapters/codex-pty/wrapper.js:359-387 | with the thread there an enable starts the sidecar and is answered when it runs |
| `Wrapper.EnableWhileRunning` | adapters/codex-pty/wrapper.js:364-365 | without a change of profile a running sidecar is left alone |
| `Wrapper.DisableStopsStart` | adapters/codex-pty/wrapper.js:389-400 | a disable waits for the start under way and stops what it has started |
| `Wrapper.ProfileRestarts` | adapters/codex-pty/wrapper.js:364-387 | an enable with another profile stops the sidecar and starts it again |

## Left out

- Broker project, cwd, capabilities and adapter name of a record, `list_participants`, `registry.json` and the log: write-only copies of fields.
- Sockets, file modes, process spawning, signals and terminals: input and output. Files are maps and writes to them succeed.
- Capability tokens: whether a delivery is authorised is a parameter of the adapters; `session-auth.js` and `session_auth.py` are not part of this model.
- Resolving the delivery socket path: a path is absent, refused or accepted. In the composition the sidecar behind an accepted path is the one of the registration's session: the accepted path is built from the session id, and session ids are assumed to be free of path segments, since one with `..` in it can name the path of another session.
- Text in UTF-8 chunks: chunks are strings of whole characters.
- `toLowerCase` outside ASCII: only the two foreign letters whose lower case is ASCII matter to the slug and are modelled.
- JSON values that are not strings where the code only tests for truth (`reply_to`, `conversation_id`, `source`, `sent_at`) and configuration values that are not strings: modelled as optional strings.
- Slices of `sent_at` are taken on characters; the source takes them on UTF-16 units.
- An adapter or broker reply that parses to a value that is not an object: replies are objects.
- BrokerProcess.Broker.LoadMailboxFromDisk: every file in the directory is a mailbox file; the filter on file names is not modelled.
- BrokerProcess.Broker.HandleRegister: the tables' agreement is not repeated in the class invariant; it is proved of the functions the methods equal (`BrokerTables`).
- Composition.FewIdsTypedOnce: assumes the session's sidecar does not restart, because its window starts empty again (`TypingDistance.RestartForgets`); `Composition.FewIdsAdmittedOnce` covers each life of a sidecar on its own.
- Composition: the app-server adapter is not composed with the broker; its own at-most-once result is `AppServer.FewIdsTriedOnce`.
- AppServer.Adapter.Deliver: the rendered text is not modelled, and deliveries are handled one after the other; the adapter's lock makes the dedupe query atomic.
- Calls: reconnecting and its back-off are not modelled; a new socket is a new run that starts with the old receive buffer.
- Wrapper: the text of status replies and the exit of the child process.
- `cli/bus`, `codex-desktop`, `claude-pty/wrapper.js`, `session-control.js`, `client.py` and the remaining scripts: plumbing, or easier copies of what is modelled.

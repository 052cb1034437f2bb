# Verification model of the EtherNet/IP scanner

This project models the parts of the scanner where order, time and byte layouts have to be
right, and proves what the program promises about them for every input, every run and every
interleaving. `dafny verify dfyconfig.toml` checks everything.

| file | what it models |
|---|---|
| `Lifecycle.dfy` | Callers of `forward_open` and `forward_close` and the I/O thread, sharing a flag per connection, an open counter and a command queue. One step is one atomic action of one thread; a sequence of enabled steps is one interleaving. |
| `Connections.dfy` | `IoConnection` as a class: the send schedule, the sequence counters, the receive timeout. Time is an unbounded integer in nanoseconds. |
| `Worker.dfy`, `IoWorker.dfy` | The loop of the I/O thread: on table values, with the history of every connection, and as a class that owns the connection objects and updates them in place. |
| `WorkerLifecycle.dfy` | The loop in any interleaving with the callers: its table of connection objects against the lifecycle. |
| `Delivery.dfy` | What arrives and what is sent, from the wire to the handlers: dispatch of datagrams, the packets of due connections, the effect of commands. |
| `FileUpload.dfy` | The chunked file upload against any stream of replies and against an honest device. |
| `EdsParser.dfy`, `EdsLayout.dfy`, `EdsWriter.dfy` | The EDS text parser as a cursor class, the grammar of exactly the texts it accepts, and a writer for exactly the sections it can return. |
| `EdsSpacing.dfy` | The characters the parser tells apart, white space written into accepted texts, and the texts that cause each error. |
| `CommonPacket.dfy`, `Encapsulation.dfy`, `MessageRouter.dfy`, `ForwardOpen.dfy`, `ConnectionPath.dfy`, `PathText.dfy` | The wire formats and path notations, and how they agree with each other. |
| `WireLayout.dfy`, `ForwardOpenLayout.dfy`, `PathSpelling.dfy` | The same formats by offset, code and character: what stands where on the wire, what a Forward Open carries for a configuration, how paths are spelled. |
| `Wire.dfy` | Bytes, little-endian fields, results. |

Code that works step by step is a method with loops, or a class whose methods update fields;
each is proved equal to a function of its inputs or of the old state, and the promises are
proved about those functions. The standards behind the formats are sections 2-3 and 2-6 of
Volume 2 and section 3-5, chapter 7 and appendix C, section C-1.4, of Volume 1 of The CIP
Networks Library.

## Hypotheses

The code does not enforce these; each is a hypothesis of the results that need it, and where
dropping it breaks the result the model shows how.

- The O->T interval is not zero and fewer than 2^32 slots are missed at once. Both are needed:
  `Schedule.NextSendIsLeastGridPointAfterNow` holds if and only if they do (for a due packet).
- A key (device address, T->O connection ID) is not granted again while an earlier holder is
  around. It is needed for the place of a connection, not for the counter or the single winner
  of a close. Without it an open connection is in no place exactly when the `Remove` of another
  connection with its key took it out of the table
  (`Lifecycle.OpenConnectionIsPlacedUnlessOusted`); `Lifecycle.StaleRemoveOrphansNewHolder` is
  a run in which that happens.
- The worker is running. Otherwise the increment of a refused `Add` is never undone
  (`Lifecycle.RefusedAddIsNeverUndone`).
- A path with its configuration data is an even number of at most 510 bytes
  (`ForwardOpen.AcceptedOpenIsReadBack` is an if and only if).
- The payload of a packet, and every other length behind a 16-bit field, fits that field. The
  round trips are stated as if and only if.

## Where code and documentation differ

The model follows the code.

- `src/io/connection.rs:52` says `on_close` is not called on forward close. It is, once, exactly
  when the worker finds the connection timed out before it receives the `Remove`
  (`Lifecycle.OnCloseAfterForwardCloseIff`; `Lifecycle.OnCloseCanFollowForwardClose` is such a
  run).
- `src/io/manager.rs:74` accepts configuration data of 509 and 510 bytes. The data segment is
  then 512 bytes long and the path size byte is wrong for every path
  (`ForwardOpen.LargestConfigDataIsMisannounced`).
- `src/eip/cpf.rs:113` says two items are expected. More are accepted, and whatever follows the
  second one is not looked at (`CommonPacket.FastDecodeIgnoresLaterItems`).
- `src/objects/file.rs:231` says `upload` uploads the whole file. After an upload that stopped on
  an error it finishes that transfer for the first handler and fails
  (`FileUpload.ResumedUploadIsLost`). It returns the file exactly when the object is loaded,
  which `state()` tells beforehand (`FileUpload.HonestUploadSucceedsIffLoaded`).

## Model

| member | source | states |
|---|---|---|
| Lifecycle.CounterIsExact | src/io/thread.rs:44-65 | In every interleaving the counter is the number of open flags plus the opens and closes caught between their two atomic actions. |
| Lifecycle.CounterNeverUnderflows | src/io/thread.rs:57-64 | The counter is never negative, every decrement finds it positive, and a connection is decremented at most once and never while its flag is open. |
| Lifecycle.RunKeepsInv | src/io/thread.rs:269-349 | Every run keeps the invariant on flags, queue, table, worker and counter, whatever keys the target grants. |
| Lifecycle.OneSwapWins | src/io/thread.rs:58-63 | A closed flag was closed by exactly one of the caller and the worker. |
| Lifecycle.ForwardCloseIffCallerWon | src/io/manager.rs:224-240 | While the worker runs, a run in which a `forward_close` has finished contains its Forward Close if and only if that call found the flag open, and then the worker did not. |
| Lifecycle.ForwardOpenRuns | src/io/manager.rs:196-217 | From every state, whatever the others are doing, the three steps of a `forward_open` can be taken: its `Add` is then last in the queue or, without a worker, refused; nothing else but the counter has changed. |
| Lifecycle.BegunOpenCanFinish | src/io/manager.rs:196-217 | At any point of any run a `forward_open` that has begun can take its remaining steps at once. |
| Lifecycle.ForwardCloseRuns | src/io/manager.rs:224-240 | From every state a `forward_close` can run to its end; it sends a Forward Close if and only if the flag was open and the worker runs. |
| Lifecycle.WonCloseCanFinish | src/io/manager.rs:229-238 | At any point of any run with a running worker, a `forward_close` that has won its swap and is not finished can take its remaining steps at once, and they end with the Forward Close sent. |
| Lifecycle.RefusedCloseSendsNothing | src/io/manager.rs:229-232 | A `forward_close` whose `Remove` was refused never sends a Forward Close. |
| Lifecycle.WorkerCanStop | src/io/thread.rs:234-266 | The worker can stop in every state, and only that changes. |
| Lifecycle.StoppedWorkerDoesNothing | src/io/thread.rs:234-266 | After it stopped, only callers take steps, and queue and table stay as they are. |
| Lifecycle.OnCloseOnceAfterTimeout | src/io/thread.rs:335-347 | In any run `on_close` of a connection happens at most once, after a timeout took that connection out of the table, and never after its `Remove` was received. |
| Lifecycle.OnCloseRunsIffTimedOut | src/io/thread.rs:335-347 | In every run `on_close` has run once for a connection that was found timed out and not at all for any other, unless the worker is just about to run it. |
| Lifecycle.HistoryOfRun | src/io/thread.rs:315-349 | The recorded callbacks, timeouts and removals are the steps the run took. |
| Lifecycle.ClosedEntryIsBeingRemoved | src/io/manager.rs:225-229 | While the worker runs, a table entry with a closed flag has exactly one `Remove`: queued, or about to be sent by the caller that closed it. |
| Lifecycle.FreshRunKeepsInv | src/io/thread.rs:269-349 | With fresh keys every run keeps the invariant and, of two connections with one key, at least one out of the way. |
| Lifecycle.OpenConnectionIsPlacedUnlessOusted | src/io/thread.rs:269-313 | Whatever keys the target grants: while the worker runs, a connection with an open flag is in exactly one place if no `Remove` of another connection with the same key took it out of the table, and in none if one did. |
| Lifecycle.FreshRunOustsNobody | src/io/thread.rs:296-298 | With fresh keys no step of any run does that. |
| Lifecycle.OpenConnectionIsInOnePlace | src/io/manager.rs:212-217 | With fresh keys and a running worker, a connection with an open flag is in exactly one place: about to be sent, queued once, in the table, or held by the worker because it timed out. |
| Lifecycle.QuiescentTableIsTheOpenConnections | src/io/manager.rs:62-64 | When nothing is in flight, the table holds exactly the connections with open flags, and the counter is their number. |
| Lifecycle.RemoveHitsItsOwner | src/io/thread.rs:296-298 | With fresh keys a received `Remove` takes out the connection it was sent for, or nothing. |
| Lifecycle.AddFindsItsKeyFree | src/io/thread.rs:277-294 | With fresh keys the worker never finds the key of an `Add` occupied. |
| Lifecycle.OnCloseAfterForwardCloseIff | src/io/connection.rs:52-53 | For a connection whose `forward_close` won and whose `Remove` was received, `on_close` runs in the whole run exactly once if the worker had found it timed out before it received the `Remove`, and never if not. |
| Lifecycle.OnCloseCanFollowForwardClose | src/io/connection.rs:52-53 | A run in which the caller wins the close and `on_close` runs all the same. |
| Lifecycle.StaleRemoveOrphansNewHolder | src/io/thread.rs:296-298 | A run with a reused key in which a late `Remove` leaves an open, counted connection in no place. |
| Lifecycle.RefusedAddIsNeverUndone | src/io/manager.rs:196-216 | Once an `Add` was refused, the connection stays open and counted in every later state. |
| Lifecycle.RefusedAddIsReachable | src/io/manager.rs:212-216 | Such a refusal is reachable. |
| Schedule.NextSendIsLeastGridPointAfterNow | src/io/connection.rs:172-178 | For a due packet the new `next_send` is the least grid point strictly after now if and only if the interval is positive and fewer than 2^32 slots were missed. |
| Schedule.ZeroIntervalStandsStill | src/io/connection.rs:172-178 | With an interval of zero the schedule stands still. |
| Schedule.TruncationLosesWholeWraps | src/io/connection.rs:172-178 | With too many missed slots `next_send` falls short by a whole multiple of 2^32 intervals. |
| Schedule.SlotsStayOnGrid | src/io/connection.rs:172-178 | In every run of due services each slot taken is t0 + k * API, no later than its service, and the next slot lies after it. |
| Schedule.SlotsAreFarApart | src/io/connection.rs:172-178 | Slots of different services differ by at least one interval per service, so a slot yields at most one packet. |
| Schedule.WindowHoldsFewSends | src/io/connection.rs:172-178 | A window of width W holds at most ceil(W / API) + 1 sends. |
| Connections.IoConnection.constructor | src/io/connection.rs:122-134 | A new connection sends at once, has a zeroed output of its size and counts its timeout from creation. |
| Connections.IoConnection.AdvanceSchedule | src/io/connection.rs:172-178 | The first half of `build_packet` sets `next_send` to the specified slot and changes nothing else. |
| Connections.IoConnection.BuildPacket | src/io/connection.rs:172-209 | The whole new state and the bytes of the packet; no packet and no counter change if the output has the wrong size on a fixed-size connection. |
| Connections.IoConnection.OnReceive | src/io/connection.rs:213-249 | The parsed input, or none, and the new state: only accepted packets move the timeout. |
| Connections.PacketNumbers | src/io/connection.rs:194-202 | The n-th packet built since creation carries sequence number n mod 2^32 and, if it has one, sequence count n mod 2^16, whatever happened in between. |
| Connections.NthPacketIsRecovered | src/io/connection.rs:194-249 | The n-th packet decodes to the O->T ID and n mod 2^32 if and only if its payload fits 16 bits, and a mirrored receiver gets n mod 2^16 (0 for class 0), the run bit and the exact output. |
| WorkerTable.OnlyAcceptedDatagramsCount | src/io/thread.rs:351-389 | After any sequence of datagrams an entry differs only in the time of the last one it accepted and the size warning, and not at all if none has its sender and connection ID; so malformed, unmatched and refused ones change no schedule, counter or timeout. |
| Delivery.SuitableDataIsRead | src/io/connection.rs:213-249 | Data is accepted if and only if it holds the headers and, on a fixed-size connection, its size; the handler gets the fields at their offsets. |
| Delivery.ArrivalIsDispatched | src/io/thread.rs:351-389 | For every table, sender, T->O ID, number and data below 65536 bytes, the datagram changes at most the entry under sender and ID; if that exists and the data suits it, its receive time is the arrival time and exactly its input goes to that handler; otherwise nothing does. |
| Delivery.MalformedIsDropped | src/io/thread.rs:374-377 | A datagram that is no implicit packet changes nothing and is handed to nobody. |
| Delivery.ArrivalsAreHandedOn | src/io/thread.rs:351-389 | Any sequence of datagrams: the handlers get, in order, the data that is for them and suits them, told by sender and ID alone. |
| Delivery.ArrivalsAreHeard | src/io/connection.rs:241-242 | And every connection was last heard when the last data that suits it arrived. |
| WorkerTable.LastAcceptedIsLatest | src/io/connection.rs:241-242 | With times in order that time is the latest of all accepted ones. |
| WorkerTable.DeadlineLiesAhead | src/io/thread.rs:239-248 | After a service the sleep deadline is strictly after now and no later than any remaining connection's next send and timeout. |
| WorkerTable.ReceivingDefersDeadlines | src/io/thread.rs:250-254 | Whatever arrives during the wait can only move those deadlines later. |
| WorkerRuns.HistoryChangesNothing | src/io/thread.rs:234-266 | The runs with recorded attempts and receipts are the runs of the table. |
| WorkerRuns.NoSlotIsMissedAndTimeoutsAreActedOn | src/io/thread.rs:234-266 | If every turn starts less than one interval after the deadline before it, then in every run no slot was skipped, each was attempted within that delay of its grid time from the second one on, every removal of a served connection came within that delay of its timeout, and the deadline lies before every next slot and timeout. |
| WorkerRuns.EveryTurnActsOnWhatIsDue | src/io/thread.rs:234-266 | Every further turn of such a run starts within that delay of the next slot and the timeout of every connection in the table, removes those that timed out, attempts the slots that are due, and leaves nothing due. |
| WorkerRuns.ConsecutiveAttempts | src/io/connection.rs:172-178 | Being on time means: consecutive slots are one interval apart and the attempts differ from that by at most the delay. |
| WorkerRuns.RemovedIffSilent | src/io/thread.rs:315-349 | A service removes an entry if and only if the timeout has passed since its creation and since every datagram it ever accepted. |
| WorkerRuns.WindowHoldsFewAttempts | src/io/thread.rs:315-334 | In any run of the loop with positive intervals and fewer than 2^32 missed slots, however late it wakes, a connection attempts at most ceil(W / API) + 1 sends in any window of width W. |
| WorkerRuns.SentPacketIsRecovered | src/io/thread.rs:322-334 | In any run the packet a turn puts on the wire for a connection is its n-th: it decodes to n mod 2^32 if and only if its payload fits 16 bits, and a mirrored receiver gets n mod 2^16 (0 for class 0), the run bit and the exact output. |
| Delivery.DueConnectionSends | src/io/thread.rs:315-334 | A connection that is due and not timed out sends, if its output fits, a packet with its numbers one up, its run bit and what `on_send` left; if not, it sends nothing and its numbers stay. |
| Delivery.OthersDoNotSend | src/io/thread.rs:315-349 | Nothing is sent before its slot, and a connection past its timeout is dropped unsent. |
| Delivery.FreshConnectionSends | src/io/connection.rs:122-134 | A new connection is due at once and first sends number 1 with the run bit set and an output of zeros of its size. |
| Delivery.AddedConnectionSends | src/io/thread.rs:277-294 | An `Add` for a free key makes that connection send; one for an occupied key changes nothing. |
| Delivery.CommandedOutputIsSent | src/io/thread.rs:299-308 | The next packet of a connection carries the output and run bit that were commanded last. |
| Delivery.CommandsChangeTheirConnection | src/io/thread.rs:299-308 | Such commands change no other connection and no schedule. |
| Delivery.RemovedConnectionIsGone | src/io/thread.rs:296-298 | A `Remove` takes out the entry under its key and leaves the others as they are. |
| Delivery.CommandsRunUpToShutdown | src/io/thread.rs:269-313 | Commands run in order up to a shutdown; those behind it are never executed. |
| IoWorker.Worker.Execute | src/io/thread.rs:269-313 | One command changes the table of connection objects as specified; an `Add` for an occupied key is refused. |
| IoWorker.Worker.DrainCommands | src/io/thread.rs:269-313 | All queued commands up to a shutdown, in order. |
| IoWorker.Worker.ServiceConnections | src/io/thread.rs:315-349 | Timed-out entries leave, due connections send; the packets on the wire and the entries removed are exactly the specified ones, in whatever order the map is visited. |
| IoWorker.Worker.Deadline | src/io/thread.rs:242-248 | The deadline is the earliest of all next deadlines, at most the idle wait away. |
| IoWorker.Worker.ReceiveAll | src/io/thread.rs:351-389 | Every datagram is handed to the connection it is for, and to no other; the inputs handed to `on_receive` are the accepted ones, in order. |
| IoWorker.Worker.Turn | src/io/thread.rs:234-266 | One turn of the loop: drain, service, deadline, receive, with the packets sent, the entries timed out and the inputs handed on. |
| WorkerLifecycle.LoopMatchesItsRun | src/io/thread.rs:234-266 | For any interleaving of the callers with the worker: in turn after turn from the start, the loop has an entry exactly where the lifecycle has one in that very run, with the settings of the connection that is there. |
| WorkerLifecycle.RoundClosesTheTimedOut | src/io/thread.rs:335-347 | In each turn of such a run `on_close` runs once for every connection whose entry the turn finds timed out, and for no other. |
| WorkerLifecycle.OpenConnectionIsServedUnlessOusted | src/io/thread.rs:269-313 | After a turn that leaves the queue empty, an open connection whose `forward_open` has returned has an entry of its own with its settings, if and only if no `Remove` of another connection with its key took that out. |
| WorkerLifecycle.OpenConnectionIsServed | src/io/thread.rs:269-313 | With fresh keys every such connection has. |
| WorkerLifecycle.FreshAddsFindTheirKeyFree | src/io/thread.rs:277-294 | With fresh keys the loop finds no entry under the key of any `Add` it receives. |
| WorkerLifecycle.TurnIsARound | src/io/thread.rs:234-266 | Every turn can be taken: after any steps of the callers the worker has steps that receive the commands at the head of the queue and then take out exactly the entries that timed out. |
| FileUpload.FileObject.BeginUpload | src/objects/file.rs:135-167 | The new state, the request sent and the handler calls of every outcome. |
| FileUpload.FileObject.HandleTransfers | src/objects/file.rs:170-229 | One transfer: new state, request, handler calls and result for every reply. |
| FileUpload.FileObject.FinishUpload | src/objects/file.rs:254-277 | The object returns to loaded and the handler is called once, with the status the size check gives. |
| FileUpload.FileObject.Upload | src/objects/file.rs:232-251 | The loop over transfers and what the channel delivers. |
| FileUpload.StrayRepliesChangeNothing | src/objects/file.rs:178-213 | Session errors and packets too short to be read, and no other replies, are stray: taking them out of any stream of replies changes neither the upload nor the handler call. |
| FileUpload.UploadTracksAcceptedChunks | src/objects/file.rs:209-219 | For any replies the transfer number counts the accepted packets mod 256 and the content is their chunks in order; success is reported if and only if the reply that ends the upload is a last packet with the number that was due and the content then has the announced size, and with exactly that content. |
| FileUpload.HandlerIsToldTheStatus | src/objects/file.rs:178-229 | For any stream of replies the status the handler gets is a function of the reply that ended the upload: the failing status itself, 0x20 for a wrong number or total size, 0x22 for an unexpected type, 0 otherwise. |
| FileUpload.RefusedUploadIsReported | src/objects/file.rs:145-167 | A refused initiate gives its status to the handler and to the caller; a session error or short answer goes to the caller and changes nothing. |
| FileUpload.UploadReportsTheStatus | src/objects/file.rs:232-251 | After any number of accepted packets and any reply that is none, `upload` returns the file, an error with exactly the status the handler got, or the session error, truncation or invalid packet. |
| FileUpload.HonestUploadReturnsTheFile | src/objects/file.rs:231-251 | Against an honest device `upload` returns exactly the file, for every length below 2^32, every transfer size and past the wrap of the transfer number. |
| FileUpload.EveryFileCanBeServed | src/objects/file.rs:209-219 | Every file below 2^32 bytes has an honest device for every transfer size. |
| FileUpload.HonestUploadSucceedsIffLoaded | src/objects/file.rs:232-251 | With an honest device `upload` returns the file if the object is loaded when it is called, and fails if it is not. |
| FileUpload.UploadReturnsAnnouncedSize | src/objects/file.rs:264-273 | `upload` returns a file only if it started the transfer itself, and of the announced size. |
| FileUpload.ResumedUploadIsLost | src/objects/file.rs:232-250 | An upload taken up after an error completes for the first handler and fails for the caller. |
| EdsParser.Cursor.Next | src/eds/parse.rs:61-67 | One character, counting the line it ends. |
| EdsParser.Cursor.SkipBlanks | src/eds/parse.rs:81-91 | White space and comments are skipped, and nothing else. |
| EdsParser.Cursor.ParseString | src/eds/parse.rs:159-173 | A quoted string with its escapes, appended to what the field has so far. |
| EdsParser.Cursor.ParseToken | src/eds/parse.rs:189-200 | Unquoted text up to a separator, quote, comment or end of line, which stays unread. |
| EdsParser.Cursor.ParseFields | src/eds/parse.rs:153-207 | All fields of an entry, or the error with the line it names. |
| EdsParser.Cursor.ParseEntry | src/eds/parse.rs:136-208 | A whole entry. |
| EdsParser.Parse | src/eds/parse.rs:98-134 | The cursor loop computes the specified sections or the specified error. |
| EdsLayout.ParseOfPrint | src/eds/parse.rs:98-208 | Parsing a printed document gives exactly its sections, for all blanks, comments, escapes and layouts; the line of an entry is 1 plus the newlines before its keyword. |
| EdsLayout.AcceptsExactlyPrints | src/eds/parse.rs:98-208 | A text parses if and only if it is the print of some document. |
| EdsLayout.ErrorsNameALine | src/eds/parse.rs:93-208 | Every error names a line of the text: at least 1, at most 1 plus its newlines. |
| EdsLayout.BlankSkipped | src/eds/parse.rs:73-91 | White space and comments before something else are skipped exactly. |
| EdsLayout.ChunksRead | src/eds/parse.rs:156-200 | Adjacent strings are joined in order, and strings win over unquoted text. |
| EdsWriter.ParseOfWritten | src/eds/parse.rs:98-208 | Sections, written with escapes, parse back to themselves, lines apart. |
| EdsWriter.ResultsAreTheWritableSections | src/eds/parse.rs:98-208 | Lines apart, the results of the parser are exactly the writable sections. |
| EdsWriter.RewritingLosesOnlyLines | src/eds/parse.rs:98-208 | Parsing what was written for a parse result gives that result again, lines apart. |
| EdsWriter.WordAmongBlanks | src/eds/parse.rs:174-200 | A word with any white space and comments before and after it is a field with exactly that word. |
| EdsWriter.StringsAmongBlanks | src/eds/parse.rs:159-179 | Strings with any white space and comments between them are one field with the joined text. |
| EdsWriter.EscapeIsRead | src/eds/parse.rs:163-168 | Every string has a quoted form on one line that reads back as the string. |
| EdsSpacing.WhiteIsWhitespace | src/eds/parse.rs:81-91 | The white space of the parser is exactly the 25 characters with the Unicode White_Space property, tab, line end, vertical tab, form feed and carriage return among them. |
| EdsSpacing.SpecialCharacters | src/eds/parse.rs:139-200 | Exactly `,` `;` `"` `$` and the line end end unquoted text; exactly `;` `[` `"` `,` are rejected before `=`. |
| EdsSpacing.SpacingPlaysNoPart | src/eds/parse.rs:98-208 | Any of those white-space characters, written into any accepted text before a header or entry, around a section name or keyword, and around every field, change nothing but lines. |
| EdsSpacing.ResultsAreTheSpelledSections | src/eds/parse.rs:98-208 | The sections some text stands for, told with the characters that names, keywords and tokens may have: an if and only if. |
| EdsSpacing.StringsWin | src/eds/parse.rs:174-179 | A field is a string if and only if something in it is quoted, and then has the text of its strings only. |
| EdsSpacing.NewlinesCounts | src/eds/parse.rs:61-67 | Lines are counted by the line-end characters of the text. |
| EdsSpacing.HeaderMustClose | src/eds/parse.rs:107-118 | Behind any items, a header not closed on its line is that error, with its line. |
| EdsSpacing.NameNeedsEquals | src/eds/parse.rs:137-150 | A name of an entry followed by one of `;` `[` `"` `,` or the end of the text is that error, with its line, the trimmed name and the character. |
| EdsSpacing.EntryNeedsSection | src/eds/parse.rs:119-127 | An entry before any header is that error, with the line of its `;`. |
| EdsSpacing.EntryNeedsSemicolon | src/eds/parse.rs:201-205 | Behind any items and fields, a field that nothing ends is that error, with the line of the keyword. |
| EdsSpacing.StringMustClose | src/eds/parse.rs:159-173 | Behind any items, fields and chunks, a string that is not closed is that error, with the last line. |
| PathText.Display | src/cip/connection_manager/path.rs:197-207 | The loop writes upper-case hex bytes with single spaces. |
| PathText.FromStrOfShown | src/cip/connection_manager/path.rs:197-223 | Every path is read back from its display. |
| PathText.ResolvePath | src/eds/mod.rs:221-238 | The loop over the words of a path string computes the specified bytes or fails. |
| PathText.PathStringResolves | src/eds/mod.rs:221-248 | Bytes and bracketed or plain parameter references, with any white space between them, resolve to the bytes and the parameters' defaults in order; it fails exactly when a parameter is missing or has no default. |
| PathText.HexPathsResolveAlike | src/eds/mod.rs:231-235 | A text that `FromStr` accepts resolves to the same bytes. |
| PathText.LeIsExact | src/eds/mod.rs:230 | The bytes of a default lose nothing if and only if the value fits the size of the parameter. |
| PathSpelling.DisplayIsSpacedHex | src/cip/connection_manager/path.rs:197-207 | Character by character: two digits of `0123456789ABCDEF` for each byte, a space between two bytes, nothing else. |
| PathSpelling.HexIsRead | src/cip/connection_manager/path.rs:213-223 | Digits in either case, with leading zeros and behind at most one plus sign, are read as their value if that is at most 255 and rejected otherwise. |
| PathSpelling.HexBytesAreExactly | src/cip/connection_manager/path.rs:213-223 | Nothing else is a hex byte. |
| PathSpelling.DefaultIsLittleEndian | src/eds/mod.rs:230 | Byte i of a default is its i-th lowest byte; a size of 0 takes one byte and a size above 8 takes eight. |
| PathSpelling.SpelledPathResolves | src/eds/mod.rs:221-248 | Hex bytes in either case and references in any letter case, with leading zeros and any brackets, resolve to those bytes in order, and fail exactly when one of them has none. |
| CommonPacket.Encode | src/eip/cpf.rs:73-80 | The loop appends the bytes of all items behind their count. |
| CommonPacket.Decode | src/eip/cpf.rs:83-98 | The loop reads up to count items, or reports the specified error. |
| CommonPacket.DecodeOfEncode | src/eip/cpf.rs:73-98 | Decoding an encoding followed by any bytes gives the same items if and only if their number and lengths fit 16 bits. |
| CommonPacket.EncodeConnectedPacket | src/eip/cpf.rs:148-166 | For all parts the fast encoder writes the bytes of the generic encoding of the two items. |
| CommonPacket.DecodeConnectedPacket | src/eip/cpf.rs:110-144 | The fast decoder reads the fixed layout, with the specified errors. |
| CommonPacket.FastDecodeRefinesGeneric | src/eip/cpf.rs:83-144 | On every buffer the fast decoder accepts if and only if there are at least two items and the generic reading of the first two gives an 8-byte sequenced address and connected data, with equal values. |
| CommonPacket.FastDecodeIsGenericOnTwoItems | src/eip/cpf.rs:83-144 | On a count of 2 that is the generic decoder itself. |
| CommonPacket.FastDecodeIgnoresLaterItems | src/eip/cpf.rs:111-116 | With more items the fast decoder accepts a packet the generic one rejects. |
| CommonPacket.ConnectedRoundTrip | src/eip/cpf.rs:110-166 | A connected packet decodes to what was encoded if and only if its data is shorter than 65536 bytes. |
| WireLayout.ConnectedPacketOnTheWire | src/eip/cpf.rs:148-166 | The bytes of an implicit packet by offset: count 2, type 0x8002 with ID and number, type 0xB1 with the data. |
| WireLayout.ConnectedPacketIsRead | src/eip/cpf.rs:110-144 | The fast decoder accepts exactly those offsets with a count from 2 on, and tells short packets from wrong ones. |
| WireLayout.ItemsOnTheWire | src/eip/cpf.rs:73-80 | Count, then for each item its type, its length modulo 65536 and its data at its offset. |
| WireLayout.DecodedPacketIsThere | src/eip/cpf.rs:83-98 | Whatever the decoder accepts is the encoding of what it returns, up to where it stopped. |
| WireLayout.CutListIsTold | src/eip/cpf.rs:83-98 | A list cut off between items gives those before the cut, inside a header a truncation, inside the data an invalid packet. |
| Encapsulation.Encode | src/eip/encaps.rs:80-90 | The header and the data. |
| Encapsulation.Decode | src/eip/encaps.rs:93-122 | The packet, or an error if the length does not match. |
| Encapsulation.DecodeOfEncode | src/eip/encaps.rs:80-122 | A packet survives if and only if its data fits the length field. |
| Encapsulation.FrameAlwaysDecodes | src/session.rs:76-83 | A frame cut by the length in its header is never rejected. |
| Encapsulation.ReadFrames | src/session.rs:76-83 | Reading header then body, over and over, splits a stream as specified. |
| Encapsulation.StreamSplitsIntoItsPackets | src/session.rs:76-83 | Any concatenation of encoded packets splits back into the same packets. |
| WireLayout.EncapsulationOnTheWire | src/eip/encaps.rs:80-90 | The 24-byte header by offset, then the data. |
| WireLayout.EncapsulationIsRead | src/eip/encaps.rs:93-122 | The decoder accepts exactly the buffers whose header announces what follows it. |
| WireLayout.RrDataOnTheWire | src/eip/encaps.rs:68-78 | SendRRData: command 0x6F, the session handle, interface handle 0, the timeout, the items. |
| MessageRouter.DecodePath | src/cip/epath.rs:84-107 | The loop over segments, with the specified errors. |
| MessageRouter.PathRoundTrip | src/cip/epath.rs:71-122 | Every path survives in both segment sizes, and its length is even and at most 12. |
| MessageRouter.BuildRequest | src/message_router.rs:55-65 | The request as the nesting of its three layers. |
| MessageRouter.RequestStackIsInvertible | src/message_router.rs:55-65 | Unwrapping the layers recovers service, path, data and extra items exactly, if and only if the body fits the 16-bit length. |
| MessageRouter.DecodeResponse | src/cip/message_router.rs:37-62 | The fields of a reply, or the specified errors. |
| MessageRouter.ReadReply | src/message_router.rs:68-76 | What the caller gets from a reply packet, or the specified errors. |
| MessageRouter.ReplyStackIsInvertible | src/message_router.rs:68-76 | A reply comes back field for field, with the items behind the data item, if and only if it has fewer than 256 words of additional status and the body fits the 16-bit length. |
| WireLayout.PathOnTheWire | src/cip/epath.rs:71-82 | Class 0x20, instance 0x24, attribute 0x30 in one byte, or the next code, a pad byte and two bytes. |
| WireLayout.PathDecoderTellsWhatFollows | src/cip/epath.rs:84-122 | Behind a path, another path overrides it, an unknown code is invalid and a cut segment truncated. |
| WireLayout.RouterRequestOnTheWire | src/cip/message_router.rs:9-22 | Service, path size in words, path, data. |
| WireLayout.RequestOnTheWire | src/message_router.rs:55-65 | A null address item of type 0, an unconnected data item of type 0xB2 with the request, then the extra items, in SendRRData with the session handle and timeout 0. |
| WireLayout.ResponseIsRead | src/cip/message_router.rs:37-62 | Reply fields by offset, and exactly which replies are too short. |
| WireLayout.ReplyIsRead | src/message_router.rs:68-76 | The reply is read from the second item, and the items behind it are returned. |
| ConnectionPath.AddPort | src/cip/connection_manager/path.rs:62-82 | A port segment is appended, padded to an even length. |
| ConnectionPath.PathBytesOfThen | src/cip/connection_manager/path.rs:156-159 | The bytes of a chain of builder calls are those of its parts. |
| ConnectionPath.PathIsUniquelyDecodable | src/cip/connection_manager/path.rs:62-172 | A path reads back as exactly the calls that built it if and only if links have at most 255 bytes, major revisions are at most 127 and data segments at most 255 whole words. |
| ConnectionPath.PathHasEvenLength | src/cip/connection_manager/path.rs:62-172 | Every chain of builder calls has an even length. |
| ConnectionPath.EncodedPath | src/cip/connection_manager/params.rs:251-262 | The path with its configuration data segment. |
| ConnectionPath.EncodedPathIsDecodable | src/cip/connection_manager/params.rs:251-262 | Configuration data keeps the path even and readable. |
| WireLayout.PortOnTheWire | src/cip/connection_manager/path.rs:62-82 | The port in the low four bits or, from 15 on, in 16 bits behind; bit 4 and a length for links that are not one byte; a pad byte. |
| WireLayout.LogicalOnTheWire | src/cip/connection_manager/path.rs:161-172 | Class 0x20, instance 0x24 and connection point 0x2C in 8 or 16 bits. |
| WireLayout.KeyOnTheWire | src/cip/connection_manager/path.rs:131-141 | The ten bytes of an electronic key by offset. |
| WireLayout.ConfigDataOnTheWire | src/cip/connection_manager/params.rs:251-262 | 0x80, size in words, the data and a pad byte. |
| ForwardOpen.ParamsRoundTrip | src/cip/connection_manager/params.rs:49-90 | Network parameters survive if and only if the form is large or the size at most 511. |
| ForwardOpen.TransportRoundTrip | src/cip/connection_manager/params.rs:129-150 | Every class, trigger and direction survives its byte. |
| ForwardOpen.EncodeRequest | src/cip/connection_manager/forward_open.rs:34-53 | The request body, appended field by field. |
| ForwardOpen.PathSizeByteIsExact | src/cip/connection_manager/forward_open.rs:50 | The path size byte is exact if and only if the path is an even number of at most 510 bytes. |
| ForwardOpen.RequestIsReadBack | src/cip/connection_manager/forward_open.rs:34-62 | A target reads the request back field for field if and only if path and sizes fit. |
| ForwardOpen.PlanOpen | src/io/manager.rs:74-142 | Which configurations are accepted, which form is picked, and the request. |
| ForwardOpenLayout.WhatIsAccepted | src/io/manager.rs:74-115 | Exactly which configurations are accepted, and that the large form is used if and only if a wire size exceeds 511. |
| ForwardOpenLayout.ForwardOpenOnTheWire | src/io/manager.rs:117-142 | What a target finds at each offset, in terms of the configuration: IDs only where the originator chooses them, serial, vendor, multiplier, the rate (at most 2^32-1), type, priority, size type and wire size of each direction, transport byte and path. |
| ForwardOpenLayout.ParamsAreRead | src/cip/connection_manager/params.rs:49-90 | Which bits a reader takes each network parameter from. |
| ForwardOpenLayout.TransportIsRead | src/cip/connection_manager/params.rs:129-150 | Which bits a reader takes direction, trigger and class from. |
| ForwardOpenLayout.ConnectionIsSetUp | src/io/manager.rs:164-194 | The connection sends at the granted O->T interval and times out after the granted T->O interval times 4, 8, 16 and so on up to 512. |
| ForwardOpen.AcceptedSizesAreNotTruncated | src/io/manager.rs:94-111 | Whatever sizes are accepted, the emitted parameters decode to the full wire sizes. |
| ForwardOpen.AcceptedOpenIsReadBack | src/io/manager.rs:74-142 | An accepted request is read back if and only if its whole path is an even number of at most 510 bytes. |
| ForwardOpen.LargestConfigDataIsMisannounced | src/io/manager.rs:74-79 | With 509 or 510 bytes of configuration data it never is. |
| ForwardOpen.BuiltPacketsHaveTheNegotiatedSize | src/io/connection.rs:180-208 | On an accepted fixed-size connection every packet built in any run has a data item of exactly the negotiated size. |
| ForwardOpen.AcceptedPacketsHaveTheNegotiatedSize | src/io/connection.rs:229-242 | At any moment of a run so has every packet it accepts, and a packet of another size does not put off the timeout. |

## Left out

- Sockets, the wake-up byte, `ppoll`, scheduling and thread start: waiting is an arbitrary choice of times and datagrams. A failed send counts as an attempt.
- Wait errors and the real clock: times are inputs of each turn, and the timed results say which order they need.
- `OpenFlag` and `forward_open`/`forward_close` as objects: they run on several threads, so they are steps on a state value, each atomic action by itself. `SetOutput` and `SetRun` change neither place nor flag and are in the worker model only.
- `Shutdown`, a panic and a dropped receiver are one step that stops the worker; commands still queued are then never received.
- A router or session error between `Remove` and Forward Close: the step of sending Forward Close is optional, and its reply is not modelled.
- WorkerRuns.NoSlotIsMissedAndTimeoutsAreActedOn: the first attempt of a connection may come late, because its schedule starts when it is created, before the worker has received it; the bound starts with the slot after that.
- `on_send` is an arbitrary output buffer per service.
- Socket address items and the destination of O->T data (src/io/manager.rs:246-261), and decoding the Forward Open reply: straight field reads.
- The status and session handle checks of a TCP session (src/session.rs:84-92).
- Reading a file object's state on creation (src/objects/file.rs:85-122) and the capacity reserved for a file.
- Error texts. Errors of the codecs are kinds; errors of the EDS parser keep the line and the keyword; None stands for the errors of path texts.
- `route` strings, which need parsers of ports and IPv4 addresses; the `port` segments they build are modelled.
- The EDS accessors, `parse_int` and bit-flag tables; the default of a parameter is an input of `resolve_path`.
- White space is the Unicode White_Space property; decoding bytes into characters is not modelled.
- Log messages. The flags that keep a size warning from being repeated are modelled.
- Memory use and buffer reuse: output buffers are sequences.
- Identity, parameter and assembly objects, discovery and real-number parameter scaling.

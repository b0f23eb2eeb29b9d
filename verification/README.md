# Code Scout, modelled and proved in Dafny

Code Scout streams an app's logs to a dashboard while the app runs, and lets people search
what was stored. This project models the parts of it where state lives across an unbounded
run of events, or where text is written in one place and read back in another, and proves
what those parts promise.

| files | system |
|---|---|
| `Octets`, `Wire`, `Mailbox`, `DeviceSocket`, `RequestLoop`, `ServedStream` | the WebSocket device client: handshake scanner, frame decoder and encoder, the two-queue mailbox, the request loop on top, and all of it end to end |
| `LiveEvents`, `LogPane`, `NetPane`, `NetTable`, `LivePage` | the two scripts of the live page: the capped, pausable, filtered log list, and the network table with its map, queue, rows, selection and filter |
| `HubSession`, `HubRuns`, `HubCodes`, `HubWhole` | the live hub: replay ring, watchers, questions to the device, pairing codes, and all of it together |
| `SearchQuery`, `SearchCount`, `SearchExact`, `SearchText`, `SearchErrors` | the search language: tokeniser, parser, the writer that must invert it, what free text becomes, and what is refused |
| `Overview`, `Chart`, `Waterfall`, `PageStrip`, `TagSplit`, `TablePaging`, `GridLink` | thousands grouping, chart scaling, waterfall geometry, page strip, tag folding, device-table paging and its links |

Code that changes state is a class whose methods are proved against functions on values;
what the system promises is proved of those functions, for every input and every run.
`dafny verify dfyconfig.toml` checks everything.

## Where a promise holds only in part

Each of these is a statement about the code as it stands, with the exact condition proved.

- A search filter written out is to be read back as itself. It is not when a tag holds a
  space, a tab or a quote, and such a tag can be typed: tags are not quoted when they are
  written. Nor is it when the query ends in odd white space, which is trimmed
  (`SearchExact.TypedTagIsLost`, `SearchExact.FiltersReadBackExactly`).
- A dashboard that reconnects is to be caught up or told what it missed. Announcements of
  the watcher count carry no number, but their frame still sets the browser's last event id,
  to zero; a dashboard whose last event was an announcement is taken for a newcomer
  (`HubRuns.ReconnectCatchesUpExactly`), and every subscription is followed by one
  (`HubRuns.WatchingResetsThePlace`).
- A minted code is to be claimable until it expires. Ending a session strikes its code off
  even when the code has since been minted again for another session
  (`HubCodes.EndingSparesOthersExactly`, `HubCodes.RedrawnCodeIsStranded`); over every run
  that is the only way a waiting session is lost (`HubCodes.ReachableExactlyUnlessStruck`).
- Ending a session is to hang up on its device. A device attached after the end is kept
  (`HubRuns.EndedSessionsHoldADeviceExactly`).
- Pausing the log list neither loses nor reorders log events (`LogPane.NothingIsLost`), but
  the marker for missed events is not queued and overtakes those that are
  (`LogPane.MarkersDivideTheEvents`, `LogPane.MarkerStandsWhereItCameExactly`).
- The request and the response of a call may arrive in either order; the call is the same
  exactly when they do not contradict each other about method and URL
  (`NetPane.EitherOrderExactlyWhenTheyAgree`).
- A ping is to be answered. After a close frame the client goes on answering, but its socket
  has been ended and nothing more is written (`DeviceClient.AnswersAreWritten`).
- The body of an answer can overwrite the id of the question
  (`RequestLoop.ReplyKeepsRequestExactlyWhenBodyDoes`).
- A grid's link describes the grid but for a direction without a sort column, an empty
  filter and a filter on a nameless column (`GridLink.LinkRoundTripsExactly`).
- The tallest bar of the chart is full until a hundred times its count overflows
  (`Chart.TallestBarIsFullExactlyWithinTheBound`).
- A negative number may be grouped with a comma behind its sign; the only caller passes a
  negative number for the smallest 64-bit integer alone
  (`Overview.SignTakesACommaExactlyWhenGroupsAreFull`).

## Model

| member | source | states |
|---|---|---|
| Octets.ArithmeticIsBitwise | e2e/device.js:79-80 | masking with 0x0f and 0x7f and setting the top bit are the arithmetic used on 0..255 |
| Octets.XorTwice | e2e/device.js:116 | XOR with the same octet twice gives the octet back |
| Wire.TakeFrame | e2e/device.js:76-89 | a cut consumes its payload and at least two octets, and never yields a payload of 65536 octets or an opcode of 16 |
| Wire.TakeFrameIgnoresWhatFollows | e2e/device.js:76-89 | octets that arrive later never change a cut that could be made |
| Wire.LeftoverIsIncomplete | e2e/device.js:69-100 | the drain loop stops only when no frame can be cut |
| Wire.DrainInTwoSteps | e2e/device.js:69-100 | draining a stream in two parts, the leftover in front of the second, is draining it whole |
| Wire.MaskingTwiceIsTheIdentity | e2e/device.js:116 | the masking loop is an involution for every key and length |
| Wire.MaskInPlace | e2e/device.js:116 | the in-place loop leaves exactly the masked octets |
| Wire.DecodeInvertsEncode | e2e/device.js:113-128 | the reference peer of RFC 6455, sections 5.2 and 5.3, decodes every frame it encodes, in all three length forms, masked or not, whatever follows |
| Wire.DecodeAllInvertsEncodeAll | e2e/device.js:113-128 | the same for any list of frames |
| Wire.TakesSupportedFrame | e2e/device.js:76-89 | an unmasked frame under 65536 octets is cut off exactly, whatever follows |
| Wire.ReadsBackExactlySupportedFrames | e2e/device.js:76-89 | a legal frame is read back as sent if and only if it is unmasked and under 65536 octets |
| Wire.UnfinishedFrameStays | e2e/device.js:78-86 | any proper prefix of a supported frame is left in the buffer |
| Wire.DrainInvertsEncodeAll | e2e/device.js:76-100 | draining the concatenation of supported frames and an unfinished rest takes exactly the frames and leaves exactly the rest |
| Wire.BuildFrame | e2e/device.js:113-128 | the frame written is the masked encoding with FIN set and the minimal length; 65536 octets and more throw |
| Wire.ClientFrameIsAnEncoding | e2e/device.js:113-128 | what the client writes is the reference encoding of its opcode and payload, FIN and MASK set |
| Wire.ServerReadsClientFrame | e2e/device.js:113-128 | the reference server decodes what the client writes to the same opcode and payload |
| Mailbox.PairingLaw | e2e/device.js:130-136 | over every interleaving of arrivals, calls and timeouts the k-th message belongs to the k-th call; queues hold the rest in order; a timed-out call keeps its place |
| Mailbox.QueuesBalance | e2e/device.js:20-25 | the two queues are never both in use and their sizes account for calls minus messages |
| Mailbox.LostExactlyToTimeouts | e2e/device.js:95-98 | message k reaches a caller if and only if call k was made and had not timed out before |
| Mailbox.SettledForGood | e2e/device.js:130-136 | no arrival, call or timeout changes what a settled call settled with |
| Mailbox.SettledForGoodOverRuns | e2e/device.js:130-136 | nor does any run of them |
| DeviceClient.FindBlankLine | e2e/device.js:48-66 | the first end of the response head, or that there is none |
| DeviceClient.TwoChunksAreOne | e2e/device.js:48-104 | two chunks in a row are one chunk, wherever the cut falls |
| DeviceClient.ChunkingIsInvisible | e2e/device.js:48-104 | any chunking of a stream leaves the client as the stream in one chunk does, from any settled point |
| DeviceClient.ReceiveSettles | e2e/device.js:69-100 | after every data event no further frame or head could be taken |
| DeviceClient.StreamDecides | e2e/device.js:28-104 | in every run, with calls and timeouts in between, the bytes alone decide messages, socket traffic and leftover |
| DeviceClient.HandshakeIsDecidedByTheStatus | e2e/device.js:48-66 | over every run whose stream starts with a response head: the client opens if and only if the head starts with HTTP/1.1 101, octet by octet; otherwise it is refused with that head, and whatever follows is never read, answered or delivered |
| DeviceClient.NothingBeforeTheHead | e2e/device.js:50-54 | over every run without an empty line everything is kept and nothing has happened |
| DeviceClient.FlowAnswersFrames | e2e/device.js:76-104 | frames are answered one by one, in order: texts delivered, a pong with its payload for a ping, an end for a close |
| DeviceClient.AnswersAreWritten | e2e/device.js:92-128 | of these answers the server decodes the pongs up to the first close, after which Node writes nothing, and the socket is ended once per close |
| DeviceClient.ServerIsUnderstood | e2e/device.js:28-128 | for every run whose stream is an upgrade, encoded frames and an unfinished one: messages are the texts in order, the server decodes exactly one pong per ping up to the first close, the socket is ended once per close, and the buffer is exactly the unfinished frame |
| DeviceClient.CallersGetTextsInOrder | e2e/device.js:28-136 | in those runs call k gets text k, is rejected if it timed out first, or still waits |
| DeviceClient.DeviceSocket.constructor | e2e/device.js:20-25 | a fresh client |
| DeviceClient.DeviceSocket.OnData | e2e/device.js:48-66 | the data event does what the model makes of the chunk; connect is rejected with the head exactly when the upgrade is refused |
| DeviceClient.DeviceSocket.ReadHandshake | e2e/device.js:48-66 | buffering, the scan, the hand-over of what follows the head |
| DeviceClient.DeviceSocket.Feed | e2e/device.js:69-72 | appends and drains |
| DeviceClient.DeviceSocket.DrainBuffer | e2e/device.js:74-100 | the loop takes every whole frame and reacts to each |
| DeviceClient.DeviceSocket.Deliver | e2e/device.js:95-98 | a text goes to the first waiter or into the queue |
| DeviceClient.DeviceSocket.Next | e2e/device.js:130-136 | takes the first queued message or queues a waiter |
| DeviceClient.DeviceSocket.OnTimeout | e2e/device.js:130-136 | rejects the call and leaves its waiter in the queue |
| DeviceClient.DeviceSocket.WriteFrame | e2e/device.js:106-128 | writes exactly one frame, or throws and writes nothing |
| DeviceClient.DeviceSocket.Send | e2e/device.js:106-111 | the same for a text |
| RequestLoop.AskedAreTheQuestions | e2e/device.js:146-164 | over every run `asked` is exactly the frames with a truthy `req` in arrival order; reply i is to question i: every field of its body with its value, the id of the question unless the body has one, and nothing else; only a question whose body throws or whose reply has 65536 octets or more goes without, as the last |
| RequestLoop.ReplyIsTheBodyWithItsRequest | e2e/device.js:160 | there is exactly one reply to a frame whose body does not throw: the body, with the `req` of the frame where the body has none |
| RequestLoop.QuestionsGrow | e2e/device.js:157-158 | a message is a question if and only if it is an object whose `req` is there and truthy |
| RequestLoop.TheFirstEndDecides | e2e/device.js:150-161 | over every run the loop serves as long as its calls bring JSON that is not null, every question can be answered and it was not stopped; what comes first of a rejection or no JSON, a null or an unanswerable question, and a stop decides whether it returns, throws or stops |
| RequestLoop.ReplyKeepsRequestExactlyWhenBodyDoes | e2e/device.js:158 | the reply carries its question's `req` if and only if the body does not set another |
| RequestLoop.NothingAfterTheEnd | e2e/device.js:146-164 | a loop that has ended never asks or answers again |
| RequestLoop.QuestionsComeFromTheStream | e2e/device.js:146-164 | with the mailbox law, for a loop whose calls settled as the device says: while serving, the questions are those among the arrived messages, one per call, none skipped |
| ServedStream.DatabaseIsServed | e2e/device.js:28-164 | end to end over every order of chunks, timeouts and turns: the loop hears the texts from its first call on, none skipped, all of them once it waits; it asks itself exactly the questions among them; reply i answers question i; the server decodes exactly its pongs up to the first close and, in order, exactly the replies made before the socket was ended |
| ServedStream.HeededRepliesAreSent | e2e/device.js:90-128 | the replies the server reads are those made by the first happening after which the socket has been ended, or all of them |
| ServedStream.LifeIsARun | e2e/device.js:28-164 | the device under the loop lives, but for the replies it writes, through a run of its own over the same octets |
| ServedStream.SidesAreSent | e2e/device.js:106-128 | pongs and replies do not disturb each other on the wire: the server reads either as if the other had not been written |
| ServedStream.HeardSoFar | e2e/device.js:146-153 | over every life of the loop what it heard are the messages from its first call on, in order |
| ServedStream.WaitingHeardAll | e2e/device.js:146-153 | a loop that serves and waits has heard every message that came |
| RequestLoop.DatabaseServer.constructor | e2e/device.js:146-150 | starts by asking for one message, and keeps which call that was |
| RequestLoop.DatabaseServer.Stop | e2e/device.js:163 | sets the flag only |
| RequestLoop.DatabaseServer.Answer | e2e/device.js:155-158 | records the question, then writes one reply, or throws with the question recorded: when the body throws or the reply cannot be framed |
| RequestLoop.DatabaseServer.TakeTurn | e2e/device.js:149-159 | one turn: reads, ignores, answers, returns or throws as the model does |
| RequestLoop.DatabaseServer.OnSettled | e2e/device.js:148-160 | only with what the device made of the call the loop waits on: one turn, one reply at most, and the next call if it goes on; every settled call stays on record as it settled |
| RequestLoop.DatabaseServer.OnData | e2e/device.js:48-104 | a chunk arrives under the loop: what had settled stays, no call is added |
| RequestLoop.DatabaseServer.OnTimeout | e2e/device.js:130-136 | a timer runs out under the loop, likewise |
| LogPane.NothingIsLost | view/live_stream.templ:252-407 | in every reachable state events added and then queued are the events that arrived; nothing is queued unless paused; rows are the last `cap` added since Clear; every hole reported is marked |
| LogPane.NeverMoreThanTheCap | view/live_stream.templ:247-250 | never more than 2000 rows |
| LogPane.PageHoldsTheLast2000 | view/live_stream.templ:247-250 | the page holds exactly the last 2000 events added since Clear |
| LogPane.FilterAlwaysHolds | view/live_stream.templ:263-287 | at every handler boundary a row reads time, level and message, in lower case info where there is no level, and is hidden exactly when its level is off or the highlighted text does not occur in it |
| LogPane.RowsAreHiddenAsAskedFor | view/live_stream.templ:263-287 | over every run a row is hidden if and only if the button of its level has been switched off by the clicks so far, or the text typed last is not empty and does not occur in the row, in lower case |
| LogPane.NoteShowsWhenBlank | view/live_stream.templ:303-368 | over every run the note for an empty list shows if and only if nothing has been added or marked since Clear or the start |
| LogPane.MarkerSplits | view/live_stream.templ:356-368 | the j-th marker, with the count reported, has j markers in front of it and behind it what `Behind` says |
| LogPane.MarkersDivideTheEvents | view/live_stream.templ:289-407 | over every run, behind the j-th marker stand exactly the events added since it was reported, as far as Clear and the cap have left them |
| LogPane.MarkerStandsWhereItCameExactly | view/live_stream.templ:356-407 | in a list that is moving, behind a marker stand the events that arrived after it if and only if nothing was queued when it came, a later Clear took what was, or the cap did |
| LogPane.LogList.constructor | view/live_stream.templ:247-255 | the list as served |
| LogPane.LogList.OnLog | view/live_stream.templ:392-407 | the log handler does what the model makes of the event |
| LogPane.LogList.OnPause | view/live_stream.templ:289-301 | the pause button, flushing the queue on resume |
| LogPane.LogList.OnClear | view/live_stream.templ:303-308 | the clear button |
| LogPane.LogList.OnLevel | view/live_stream.templ:281-286 | a level button |
| LogPane.LogList.OnHighlight | view/live_stream.templ:271-287 | the highlight box |
| LogPane.LogList.OnConnected | view/live_stream.templ:381-390 | the connected event with its count of missed events |
| LogPane.LogList.AppendRow | view/live_stream.templ:322-354 | addRow: appends and drops the oldest rows over the cap |
| LogPane.LogList.FilterRows | view/live_stream.templ:271-279 | applyFilter, row by row |
| NetPane.AlwaysCoherent | view/live_stream.templ:504-746 | over every run: map, queue and rows hold the same calls under distinct ids, rows in queue order and never stale; at most `cap`; the selection is null or live; a row is hidden exactly when another state than that of its call is picked, or the trimmed text typed does not occur in its path, in lower case; the badge is the count |
| NetPane.RowsAreHiddenAsAskedFor | view/live_stream.templ:676-746 | over every run the row of a call is hidden if and only if the last status picked is that of other calls, or the last text typed, trimmed and in lower case, is not empty and does not occur in the lower-case path of the call |
| NetPane.SelectionIsTheLastClicked | view/live_stream.templ:656-693 | over every run the selection is the call clicked last, until that is evicted |
| NetPane.PageHoldsTheLast500 | view/live_stream.templ:504-507 | the page holds exactly the last 500 calls created |
| NetPane.NeverMoreThanTheCap | view/live_stream.templ:504-507 | never more than 500 calls, in map, queue and table alike |
| NetPane.CallsFollowTheEvents | view/live_stream.templ:656-746 | over every run which calls are held, in which order and what they contain is decided by the events alone, not by clicks, status buttons or typing |
| NetPane.EachCallIsItsOwnStory | view/live_stream.templ:686-733 | the calls held are the last `cap` created, and each is the fold over its own id's events since its creation, whatever is interleaved |
| NetPane.StoryIsItsSummary | view/live_stream.templ:709-727 | that fold is the latest request, the latest response or error, the latest method and URL given |
| NetPane.StateOfAStory | view/live_stream.templ:521-525 | the state of a call from its events; once an error has arrived it stays err |
| NetPane.TimesOfAStory | view/live_stream.templ:700-727 | when a call was sent, done and said to start: by the stamp of its last request, last response or error, and first event, or by the time of arrival where there is no stamp |
| NetPane.EitherOrderExactlyWhenTheyAgree | view/live_stream.templ:709-727 | a request and a response give the same call in either order if and only if they do not contradict each other about method and URL |
| NetPane.IngestingNew | view/live_stream.templ:695-733 | a new id is appended, the oldest beyond the cap go, the call just created stays, the others are untouched |
| NetPane.IngestingKnown | view/live_stream.templ:695-733 | a known id changes that call only |
| NetPane.EvictingKeepsLast | view/live_stream.templ:686-693 | evict keeps the last `cap` in order and never the newest out |
| NetTable.CallObject.Take | view/live_stream.templ:709-727 | the shared call object absorbs an event in place |
| NetTable.NetworkTable.OnNet | view/live_stream.templ:695-735 | ingest on shared objects does what the model makes of the event |
| NetTable.NetworkTable.OnStatus | view/live_stream.templ:738-746 | a status button |
| NetTable.NetworkTable.OnType | view/live_stream.templ:676-737 | the path box |
| NetTable.NetworkTable.OnClick | view/live_stream.templ:574-576 | a click on a row |
| NetTable.NetworkTable.EvictOld | view/live_stream.templ:686-693 | the eviction loop |
| NetTable.NetworkTable.RenderCall | view/live_stream.templ:563-594 | rewrites or adds one row, the detail pane and the filter |
| NetTable.NetworkTable.FilterRows | view/live_stream.templ:676-684 | applyNetFilter, row by row |
| NetTable.NetworkTable.SelectCall | view/live_stream.templ:656-665 | moves the mark and shows the call |
| LivePage.PauseNeverReachesTheTable | view/live_stream.templ:394-407 | over every run of the page the calls held, their order and their contents are those of a table given only the network events that arrived, queued ones included: pauses, clicks, status buttons and typing change none of them |
| LivePage.ForwardingIsExact | view/live_stream.templ:394-402 | the table gets exactly the network events that arrived, in order |
| LivePage.Page.OnLog | view/live_stream.templ:392-407 | one log event reaches both panes |
| LivePage.Page.OnPause | view/live_stream.templ:289-301 | pausing touches the log list only |
| LivePage.Page.OnClear | view/live_stream.templ:303-308 | so does clearing |
| LivePage.Page.OnLevel | view/live_stream.templ:281-286 | and a level button |
| LivePage.Page.OnHighlight | view/live_stream.templ:271-287 | and the highlight box |
| LivePage.Page.OnConnected | view/live_stream.templ:381-390 | and a connected event |
| LivePage.Page.OnClick | view/live_stream.templ:574-576 | a click on a call touches the table only |
| LivePage.Page.OnStatus | view/live_stream.templ:738-746 | so does a status button |
| LivePage.Page.OnType | view/live_stream.templ:676-737 | and the path box |
| HubSession.Session.constructor | internal/live/hub.go:250-261 | a session with no events, watchers or questions |
| HubSession.Session.Remember | internal/live/hub.go:158-165 | the ring is the last 512 and `dropped` counts the rest |
| HubSession.Session.EventsSince | internal/live/hub.go:173-194 | the loop computes the backlog and the count of missed events |
| HubSession.Session.Publish | internal/live/hub.go:313-348 | numbers the batch, remembers it, offers it to each watcher; a full channel loses events, an ended session takes none |
| HubSession.Session.Watch | internal/live/hub.go:491-510 | backlog, missed count and a new channel under one lock, or the refusal |
| HubSession.Session.AnnounceWatchers | internal/live/hub.go:549-565 | an event without a number to each watcher |
| HubSession.Session.Cancel | internal/live/hub.go:514-535 | closes the channel once, and only if it is still subscribed |
| HubSession.Session.End | internal/live/hub.go:584-628 | final event, every channel and every question closed once, device let go and hung up on if there is one |
| HubSession.Session.AttachDevice | internal/live/hub.go:356-363 | attaches, live or not |
| HubSession.Session.Ask | internal/live/hub.go:385-408 | registers the question before anything is written, or refuses |
| HubSession.Session.Deliver | internal/live/hub.go:445-468 | the first answer to a pending question, and no other |
| HubSession.Session.Forget | internal/live/hub.go:410-416 | the asker leaves nothing pending |
| HubRuns.Next | internal/live/hub.go:303-628 | no critical section ever sends on or closes a closed channel, in any interleaving |
| HubRuns.RunsAreLawful | internal/live/hub.go:125-194 | over every run numbers have no gaps, the ring is the last 512 published, at most 20 watchers, each channel carries genuine events in order, short only of those it had no room for |
| HubRuns.EveryRunIsLawful | internal/live/hub.go:250-261 | so of every run of a new session |
| HubRuns.BoundsOfEveryRun | internal/live/hub.go:50-71 | at most 20 watchers, at most 256 events waiting for each, and the ring of a live session is the last 512 events |
| HubRuns.HistoryIsWhatWasPublished | internal/live/hub.go:313-348 | over every run the history tells, in order, every log of every batch published before the end under its kind and time, an empty batch once and without a log, and then the end with its reason |
| HubRuns.LogsAreKeptInOrder | internal/live/hub.go:329-334 | the logs of the history are those given to Publish before the end, one batch behind the other |
| HubRuns.SinceAccountsForAll | internal/live/hub.go:173-194 | last seen + missed + backlog is everything published; the backlog is the rest of the history; missed is what fell out of the ring |
| HubRuns.WatchHasNoHoleAndNoDuplicate | internal/live/hub.go:480-488 | whatever happens after Watch, backlog and channel are the history from where the backlog starts, in order, none twice, all of it unless the channel was full, the final event included |
| HubRuns.ReconnectCatchesUpExactly | server/handlers/live_handler.go:335-369 | a watcher whose place is known, if only from before it last came back, is caught up if and only if nothing was written to it since, or the last thing written had a number, or nothing was published past its place |
| HubRuns.ReconnectAfterAnyRun | server/handlers/live_handler.go:279-369 | the same for a watcher that comes back, is written its backlog and part of its channel over any run, and drops: its place is never past what was published |
| HubRuns.WatchingResetsThePlace | internal/live/hub.go:504-512 | the announcement that follows each Watch, at any distance, reaches the watcher unless its channel is full by then; when it is the last thing the watcher took, whatever comes before and after, the watcher hands back zero |
| HubRuns.QuestionsHaveOneFate | internal/live/hub.go:365-468 | over every run a question gets its own first answer, or is closed by the end, or is given up, whichever came first, and is pending only until then |
| HubRuns.EndedSessionsHoldADeviceExactly | internal/live/hub.go:350-363 | an ended session still holds a device if and only if it was attached after the end |
| HubRuns.UncancelledAreWatching | internal/live/hub.go:480-512 | over every run of a session whoever subscribed and has not cancelled has been offered every event since |
| HubRuns.EndedSessionsAreFinished | internal/live/hub.go:584-628 | over every run an ended session has no watchers and no open questions, its last event says it ended, every channel is closed, and whoever had not cancelled was offered that event |
| HubRuns.WatchersAreThoseWatching | internal/live/hub.go:491-535 | over every run a watcher is subscribed if and only if it came while there was room in a live session and has neither cancelled nor been let go by the end |
| HubRuns.WatchIsRefusedExactly | internal/live/hub.go:491-500 | over every run Watch is refused if and only if the session has ended, or 20 are watching |
| HubRuns.AskIsRefusedExactly | internal/live/hub.go:385-400 | over every run Ask is refused if and only if the session has ended, or no device was ever attached |
| HubRuns.CancelledIsOut | internal/live/hub.go:514-535 | a watcher that has cancelled is out for good: its channel is closed and nothing is sent to it again |
| HubCodes.Hub.SweepLocked | internal/live/hub.go:674-688 | in any iteration order: ends what expired or went quiet, forgets what ended over a minute ago, strikes their codes off |
| HubCodes.Hub.CountLive | internal/live/hub.go:222-227 | the number of a project's sessions that have not ended |
| HubCodes.Hub.Mint | internal/live/hub.go:215-265 | sweeps, bounds, draws at most nine codes, files the first unused one |
| HubCodes.Hub.Claim | internal/live/hub.go:269-301 | sweeps, then joins the session on file under the code or refuses |
| HubCodes.Hub.End | internal/live/hub.go:570-579 | ends a live session once |
| HubCodes.Hub.Touch | internal/live/hub.go:472-478 | records that the device is there |
| HubCodes.RunAgrees | internal/live/hub.go:196-204 | in every state of every run a code on file belongs to a session waiting under it |
| HubCodes.SessionsAreDated | internal/live/hub.go:215-301 | over every run a code lives five minutes from its minting, and a session knows its project, when its device last joined or was touched, and when it ended |
| HubCodes.SessionsEndExactly | internal/live/hub.go:570-692 | over every run a session ends if and only if it is ended by its id, or the hub looks, at a minting, claim or sweep, after five minutes of waiting or 45 seconds of silence |
| HubCodes.SessionsAreForgottenExactly | internal/live/hub.go:674-688 | over every run a session is forgotten if and only if the hub looks more than a minute after it ended |
| HubCodes.StatesAreAsTheyCame | internal/live/hub.go:215-301 | over every run a session waits until it is joined, is connected from then on, and is over once it has been ended |
| HubCodes.MintAnswersExactly | internal/live/hub.go:222-249 | too many when 20 sessions of the project wait or are connected, no code when all that were drawn are on file, and otherwise the first that is not |
| HubCodes.MintFilesTheCode | internal/live/hub.go:251-264 | the new session waits under its code for its project, and of the others nothing else has changed |
| HubCodes.ClaimConnectsOne | internal/live/hub.go:287-300 | a claim that succeeds takes its code off file and connects its session, and changes nothing else |
| HubCodes.CodesLetInExactly | internal/live/hub.go:267-301 | a code lets a device in if and only if it is on file, for the device's project, and no session that carries it is due to be ended |
| HubCodes.NoSessionIsJoinedTwice | internal/live/hub.go:291-294 | over every run no two devices join the same session |
| HubCodes.ProjectsAreBounded | internal/live/hub.go:222-230 | no project ever holds more than 20 live sessions |
| HubCodes.EndingSparesOthersExactly | internal/live/hub.go:584-589 | ending a session leaves every other one reachable if and only if its code is not on file for another |
| HubCodes.ReachableExactlyUnlessStruck | internal/live/hub.go:215-301 | over every run a waiting session is on file under its code if and only if no other session that carried the code was ended, by End or a sweep, since it was minted |
| HubCodes.WaitingSessionsCanBeClaimed | internal/live/hub.go:232-249 | while no code of a connected session is drawn again every waiting session is on file under its code, in every state |
| HubCodes.RedrawnCodeIsStranded | internal/live/hub.go:232-249 | a code redrawn while its first session is connected stops working when that session ends, though its own is waiting |
| HubWhole.BooksAreRuns | internal/live/hub.go:196-301 | in every run of the whole hub the book of codes lives a run of its own, publishing and answering being signs of life |
| HubWhole.StreamsAreRuns | internal/live/hub.go:303-628 | and so does each session, an end by the hub, an expiry or a silence being its end |
| HubWhole.RunsInStep | internal/live/hub.go:570-692 | in every state of every run a session is over for its watchers exactly when it is ended or forgotten in the book |
| HubWhole.EndingReachesEveryWatcher | internal/live/hub.go:570-692 | over every run a session ended by End or by a sweep, forgotten or not, has nobody left subscribed or waiting, every channel closed, and every watcher that had not cancelled offered all events up to the final one |
| HubWhole.LiveSessionsKeepTheirWatchers | internal/live/hub.go:480-535 | over every run a session that is not over has let go of no watcher but those that cancelled |
| HubWhole.WatchersAreToldWhy | internal/live/hub.go:584-692 | the final event of a session says when it ended and why: what End was given, that the code ran out, or that the device fell silent |
| HubWhole.SignsOfLife | internal/live/hub.go:303-478 | publishing and answering renew when a live session was last seen, nothing else that happens in it does, and no other session is touched |
| HubWhole.HappensToItsSession | internal/live/hub.go:303-628 | what happens inside a session happens to that one and no other; of a forgotten one only what is left in its channels can be taken |
| HubWhole.RegistryHappensToTheEnded | internal/live/hub.go:215-301 | minting, claiming, touching and sweeping leave every session as it is that they do not end |
| SearchQuery.ReadToken | pkg/search/parser.go:202-243 | the two loops read the token the grammar says, quoted runs whole, escapes resolved, or find the quote unclosed |
| SearchQuery.Parse | pkg/search/parser.go:63-200 | the loop computes the filter of the query, or the first problem and where |
| SearchText.PhraseIsTheText | pkg/search/parser.go:63-200 | words typed with one space between each two are the text as typed, and nothing else is set |
| SearchText.TextIsItsWordsInOrder | pkg/search/parser.go:63-200 | the text of a query is its free words and quoted texts, in order, with one space between each two, whatever fields stand between them; the fields are what they are alone, and the query is refused if and only if they are |
| SearchText.OnlyWhiteSpaceIsCutOff | pkg/search/parser.go:63-64 | white space of any kind around a phrase makes no difference to what it is read as, and any other character in front of it stays in the text |
| SearchText.ValuesAreQuotedExactly | internal/domain/search_query.go:142-149 | a value is written as it is if and only if no space, tab, colon, quote or backslash is in it; a quoted one is longer by two quotes and a backslash for each quote and backslash of its own |
| SearchErrors.FieldsAreRefusedExactly | pkg/search/parser.go:101-190 | by name as typed: an unknown field, a dash before another than a tag, a missing value behind the colon, and a value the field does not take are refused where they stand, and nothing else |
| SearchErrors.FieldsSetWhatTheySay | pkg/search/parser.go:117-190 | by name as typed: levels and tags are added unless they are there, of everything else the last one counts, and nothing else is set |
| SearchErrors.WordsAreNotNegated | pkg/search/parser.go:191-194 | a dash before anything but a field is refused |
| SearchErrors.FirstProblemIsReported | pkg/search/parser.go:63-200 | a query is refused for its first term that cannot be taken in, whatever follows, and by where that term stands |
| SearchErrors.UnclosedQuoteIsReported | pkg/search/parser.go:202-243 | a quote that is not closed is reported where its token starts |
| SearchQuery.TermReads | pkg/search/parser.go:202-243 | a written term followed by a space or the end is read as its prefix and value, however the value was quoted |
| SearchQuery.ParsesAllTerms | pkg/search/parser.go:63-200 | a query written from readable terms is parsed to what taking the terms one by one gives |
| SearchQuery.WrittenFiltersReadBack | internal/domain/search_query.go:8-59 | a writable filter, trimmed when written, is read back as itself with its lists sorted, quoted values of any content included |
| SearchExact.ParsedFiltersAreValid | pkg/search/parser.go:63-200 | whatever the query, the filter has known levels, no repeats, no empty entries, a known window: a filter without these is never read back |
| SearchCount.OutsideCounts | pkg/search/parser.go:213-243 | a token carries exactly the quotes and odd white space of its text, less the quotes that open and close its runs |
| SearchCount.QueryWeighs | internal/domain/search_query.go:15-59 | a written filter puts each of its quotes and odd white space characters into the query once, and two quotes around each value that is quoted |
| SearchCount.TermsDrop | pkg/search/parser.go:213-243 | wherever the tokeniser takes runs to begin and end, it drops at least the quotes put around values, and one more when a term holds a quote of its own |
| SearchExact.FiltersReadBackExactly | internal/domain/search_query.go:8-59 | for every filter: it is read back as itself with its lists sorted if and only if it is writable and its query has no white space at its ends |
| SearchExact.ReadBackHasQuotelessTags | internal/domain/search_query.go:26-31 | a filter that is read back has no double quote in a tag, whatever else is quoted |
| SearchExact.TypedTagIsLost | internal/domain/search_query.go:26-31 | every tag with a space, tab or quote can be typed, is read whole, and makes a filter that is not read back |
| Overview.ValueOfDigits | view/overview_templ.go:927-940 | the decimal digits of a number have its value |
| Overview.WriteCommaGroup | view/overview_templ.go:927-940 | the loop writes the grouped text for every 64-bit integer |
| Overview.LoopWritesGroups | view/overview_templ.go:927-940 | the left-to-right loop writes the groups counted from the right, all of three digits but the first, of one to three |
| Overview.CommaGroupRoundTrip | view/overview_templ.go:927-940 | for n >= 0 deleting the commas gives the digits, and the length is that of the digits and one per comma |
| Overview.CommaGroupDeterminesTheNumber | view/overview_templ.go:927-940 | different numbers are written differently |
| Overview.SignTakesACommaExactlyWhenGroupsAreFull | view/overview_templ.go:927-940 | a negative number gets a comma behind its sign if and only if its digits fill whole groups |
| Overview.DeltaIsGroupedAsAMagnitude | view/overview_templ.go:942-951 | deltaLabel groups a non-negative number for every delta but the smallest 64-bit integer |
| Overview.LabelDeterminesTheDelta | view/overview_templ.go:942-951 | two deltas with the same label are the same |
| Overview.LabelSaysWhichWay | view/overview_templ.go:942-951 | an arrow up and the digits of the growth, or an arrow down and those of the loss, and then the suffix |
| Overview.NoChangeIsSaid | view/overview_templ.go:942-951 | for no change the label says so |
| Chart.ChartPeak | view/overview_templ.go:854-862 | positive, at least every total, and one of them unless 1 |
| Chart.BarsKeepTheirScale | view/overview_templ.go:866-875 | heights are in [2,100] and monotone; 2 exactly for empty buckets, 100 exactly at the peak |
| Chart.BarIsItsHundredths | view/overview_templ.go:866-875 | a bar that is not empty is as high as its whole hundredths of the peak, but at least 4 |
| Chart.TallestBarIsFullExactlyWithinTheBound | view/overview_templ.go:866-875 | the tallest bar is full if and only if a hundred times its count fits 64 bits |
| Chart.ErrorShareGrows | view/overview_templ.go:794-806 | at most 100, monotone in the errors, 0 exactly for an empty bucket, 100 exactly when the errors reach the total |
| Chart.ErrorShareIsItsHundredths | view/overview_templ.go:794-806 | in between it is the whole hundredths of the logs that are errors, but at least 6 |
| Waterfall.CallWindow | view/network_helpers.go:102-123 | the least start and the smallest span of at least a millisecond reaching every end; one second for no calls |
| Waterfall.WindowIsOrderIndependent | view/network_helpers.go:102-123 | the window depends on which calls there are, not on their order |
| Waterfall.WaterfallBar | view/network_helpers.go:127-157 | the reassignments compute the clamped offset and width |
| Waterfall.StateByWhatArrived | internal/domain/network.go:55-66 | an error decides; otherwise a response without its request is an orphan, one with it is complete, and without one the call is pending |
| Waterfall.DurationByTheClock | internal/domain/network.go:68-79 | from start to end, nothing while pending or when the end lies before the start |
| Waterfall.WidthOfAFinishedCall | view/network_helpers.go:137-156 | as wide as it was long, but at least 2, and cut at the end of the window |
| Waterfall.BarsStayInside | view/network_helpers.go:127-157 | 0 <= offset, width at least the smaller of 2 and what is left, the end at most 100, offsets in start order |
| Waterfall.PendingRunsToTheEnd | view/network_helpers.go:127-157 | a pending bar ends at 100 |
| Waterfall.ListedBarsAreToScale | view/network_helpers.go:102-157 | for listed calls that end after they start, bars are to scale wherever the minimum width does not apply |
| Waterfall.ClippedExactlyPastTheWindow | view/network_helpers.go:102-157 | a listed bar's offset is clipped if and only if the call starts past the window, and then it ends before it starts |
| PageStrip.Pagination | view/dashboard_templ.go:1200-1256 | the counting loop writes the strip in closed form |
| PageStrip.LoopWritesStrip | view/dashboard_templ.go:1200-1256 | the loop's cells are a left end, the current page and a right end |
| PageStrip.StripLaws | view/dashboard_templ.go:1200-1256 | at most seven cells; numbers increase and include 1, total, current and its neighbours in range |
| PageStrip.GapExactlyWhenTwoAreLeftOut | view/dashboard_templ.go:1200-1256 | a side has a gap if and only if at least two of its pages are left out |
| TagSplit.SplitTags | view/log_filters_templ.go:818-828 | the loop selects in order what is shown and what is folded |
| TagSplit.FlagRule | view/log_filters_templ.go:818-828 | a tag is shown if and only if the filter mentions it or fewer than ten were shown before it |
| TagSplit.SelectPartitions | view/log_filters_templ.go:818-828 | shown and folded together are the tags, none lost or doubled |
| TagSplit.SplitLaws | view/log_filters_templ.go:818-828 | mentioned tags are shown, folded ones are neutral and behind at least ten shown, ten or fewer are all shown |
| TablePaging.WalkShowsTheRest | view/live_db_templ.go:630-636 | following next shows every row from there on exactly once, even when pages stop early |
| TablePaging.PreviousThenNextSkipsNothing | view/live_db_templ.go:611-636 | going back and then on skips no row |
| TablePaging.PreviousReachesTheStart | view/live_db_templ.go:611-617 | going back n times subtracts n pages and stops at the start |
| TablePaging.RangeMatchesRows | view/live_db_helpers.go:77-87 | the range shown is the rows shown, and continues on the next page |
| GridLink.RowsURL | view/live_db_templ.go:81-98 | the parameters set, for any iteration order of the filters |
| GridLink.AddFilters | view/live_db_templ.go:92-96 | exactly the filters with text are added |
| GridLink.NamesDiffer | view/live_db_templ.go:81-98 | no two parameters share a name, so no filter collides with a fixed one |
| GridLink.FiltersAreRecognised | server/handlers/live_db_handler.go:143-152 | the reader takes a parameter for a filter exactly when it is one on a named column |
| GridLink.LinkCarriesTheGrid | view/live_db_templ.go:81-98 | what the handler reads from a link, for every grid |
| GridLink.LinkRoundTripsExactly | view/live_db_templ.go:81-98 | the handler reads the same grid back if and only if the offset is not negative, a direction has a sort column and no filter is empty or nameless |
| GridLink.OpenedGridsRoundTrip | server/handlers/live_db_handler.go:129-190 | a grid opened from any link links to itself if and only if a direction comes with a sort column |
| GridLink.DigitsAreRead | server/handlers/live_db_handler.go:310-316 | digits are read for their value as far as 64 bits go |
| GridLink.SignsAreRead | server/handlers/live_db_handler.go:310-316 | a plus changes nothing and a minus reads as zero |
| GridLink.OtherTextIsNoOffset | server/handlers/live_db_handler.go:310-316 | any other text reads as zero |
| GridLink.NoOffsetIsTheFirstRow | server/handlers/live_db_handler.go:129-190 | a link without an offset opens the first row |

## Left out

- Sockets, timers, promises and EventSource are modelled by the order of their events only; the error event of a write to an ended socket is not modelled.
- ServedStream.DatabaseIsServed: frames a test sends on the device by itself are not part of a run.
- UTF-8: a device message is its payload octets, and strings are sequences of characters, so positions in search errors count characters where the parser counts bytes.
- JSON, URL escaping, dates, letter case and path extraction are parameters of the modules that use them.
- DeviceClient: 64-bit lengths, fragmentation and masked server frames are misread by the client, as `Wire.ReadsBackExactlySupportedFrames` states, and excluded from the stream theorems.
- Wire.BuildFrame: the masking key is fixed, as in the source.
- LogPane: the text of the counters, the note for an empty list and scrolling are not modelled beyond when the note shows.
- NetTable.NetworkTable: a table row is a value holding the call as it was when rendered, where the page holds a mutable element; call objects are shared on the heap as in the script.
- NetPane: cell texts (duration, status, size) are functions of the call and not spelled out.
- HubSession: `last seen` times and the lookup of a session by id are in HubCodes; the metadata shown on cards is not modelled.
- HubSession.Session.Ask: the write outside the lock and the ten-second timer are the steps between registering and forgetting, at any distance.
- HubSession.Session.Watch: a watcher cancelled by a disconnect is closed and may still be drained, as in the source; what a closed browser does with it is not modelled.
- HubWhole: the two halves are put together as values, where in the source one object holds both.
- HubCodes.Hub.Mint: ids are taken to be new, codes are drawn from outside, and a failing random source is not modelled.
- HubCodes: listing sessions, closing the hub at shutdown (ending each session) and the pairing alphabet are easy members.
- SearchQuery: `Since` is the time of parsing less the window and is not part of the filter; sorting and UUID parsing are the library's, of which only what a theorem needs is asked for.
- Waterfall: percentages are exact reals; float rounding is ignored.
- Chart: counts are 64-bit, and products that overflow wrap as in the source.
- PageStrip, TagSplit, TablePaging: the HTML around the cells, chips and links.
- The generated templates, the ingest path, storage, fingerprinting, retention, access control, tokens, configuration and cron jobs are not modelled: wiring, or easy members.

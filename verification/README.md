# litredis: a verified model

litredis is a small in-memory key-value server that speaks RESP2, with expiring keys, snapshots,
publish/subscribe and a command line client. This project models three parts of it in Dafny and
proves what they promise:

* **The RESP2 codec.** The server prints replies and reads flat commands; the client frames a reply
  with a loop over a stack of counters and then parses it by recursion. `Resp`, `Client`, `Server` and
  `Protocol` hold the functions, `ClientLoop` and `ServerLoop` the readers as loops over a stream,
  each proved against its function. `Grammar`, `CommandGrammar`, `FramerProof`, `ParserProof` and
  `ServerProof` hold the theorems; `Shell` does the same for the client's argument splitting and
  quoting.
* **Publish/subscribe and sessions.** `PubSub` and `Session` model the registry and one session as
  objects. `PubSubRuns` is a step system in which a publish is a snapshot, one send per subscriber and
  an eviction, interleaved with session commands, queue draining and disconnects; `SessionSteps` proves
  that a session command is a run of it. `SessionProof` follows one session while others change the
  shared state at will, and `EndToEnd` a connection from the bytes it reads to the replies shown.
* **The expiring store and its snapshots.** `Store` holds the map with dead entries in it, `StoreLoop`
  the object. `LiveMap` is what a client may believe: a map of live keys with their texts and
  deadlines. `StoreRuns` proves that whole runs, saves and restarts among them, cannot tell the two
  apart, also with the purge and `get`'s removal split in two. `KeyRuns` follows one key from
  a write to the next, `Counters` and `Persistence` follow counters through interleavings and deadlines
  through restarts.

Strings are byte sequences that satisfy `Utf8.Valid`; only the shell works on characters. Time is a
number of nanoseconds, passed to each operation; a stream is a finite byte sequence. Functions with
the suffix `Key`, and the functions named in a method's `ensures`, are the specifications of the
methods; the lemmas are about those functions.

Two places where the code does not do what its documentation says, both modelled as the code has them:

* A counter command on an expired *string* does not start from zero, as `src/store/mod.rs:88-89` says
  of missing keys: it answers an error and leaves an empty string without a deadline
  (`LiveMap.ExpiredStringShows`). `LiveMap.RefinesIff` shows that this is the only exception.
* A purge, or a `get` of an expired key, can remove a key that was written again after it was seen
  expired (`StoreRuns.LateRemovalLosesAWrite`). `StoreRuns.HousekeepingView` and
  `StoreRuns.LateMeansRewritten` show that this is the only harm.

Two more where a plain reading of the code promises more than it does:

* The second written for a deadline can grow between two saves of one process
  (`Persistence.SecondGrowsIff` says when); it never grows across a load
  (`Persistence.SecondNeverGrows`).
* The client's parser takes frames that are not RESP2. `Grammar.ParserReadsTheGrammar` says which; the
  server writes none of them (`Grammar.EncodedIsResp2`).

## Model

| member | source | states |
|---|---|---|
| FramerProof.FramerAgreesWithParser | src/bin/litredis-cli.rs:135-204 | on every byte stream, if the recursive parser accepts a value, nested to any depth, the stack-based framer returns exactly that value's bytes |
| FramerProof.FrameFollowsItems | src/bin/litredis-cli.rs:143-201 | from any state of the framing loop, if the values still due parse, the loop ends where the last of them ends |
| FramerProof.StepOwesTheRest | src/bin/litredis-cli.rs:161-196 | one turn of the loop keeps every counter positive and leaves counters whose sum is the number of values still unread |
| FramerProof.ConsumeItemDue | src/bin/litredis-cli.rs:206-215 | consuming an item lowers the number of values due by exactly one and keeps all counters positive, whatever arrays close |
| FramerProof.FrameStepKeepsPositive | src/bin/litredis-cli.rs:161-196 | on any input, accepted or not, no turn of the loop leaves a counter that is zero or negative |
| Grammar.ParserReadsTheGrammar | src/bin/litredis-cli.rs:249-356 | the parser accepts a frame as a value exactly when the frame spells the value in a grammar wider than RESP2, and the frame is RESP2 exactly when besides no text or integer line holds a carriage return and no length has a sign or a zero in front |
| Grammar.NumberLineIff | src/bin/litredis-cli.rs:217-225 | the lines read as numbers are a sign, decimal digits within 64 bits and carriage returns behind, with the value the digits have |
| Grammar.EncodedIsResp2 | src/protocol/resp.rs:108-122 | the server writes nothing but RESP2: every encoded value spells its normal form there |
| Grammar.LenientText | src/bin/litredis-cli.rs:391-396 | a text with a carriage return in it is accepted and is not RESP2 |
| Grammar.LenientInteger | src/bin/litredis-cli.rs:217-225 | an integer with a carriage return behind it is accepted and is not RESP2 |
| Grammar.LenientLength | src/bin/litredis-cli.rs:217-225 | a length with a sign or a zero in front is accepted and is not RESP2 |
| ParserProof.ParseValueLocal | src/bin/litredis-cli.rs:263-389 | the parser depends only on the bytes it consumes: the same bytes anywhere give the same value and length |
| ParserProof.EncodingsArePrefixFree | src/bin/litredis-cli.rs:249-261 | no accepted encoding is a proper prefix of another |
| ParserProof.ParseEncoded | src/protocol/resp.rs:108-122 | an encoded value, nested or not, parses back to its last byte, up to escaping of line texts and the error prefix |
| ClientLoop.NextReplyIff | src/bin/litredis-cli.rs:118-128 | framing and then parsing accepts a value for the next bytes exactly when the parser alone does |
| ClientLoop.RepliesArrive | src/bin/litredis-cli.rs:112-133 | any list of replies, encoded and concatenated, is shown by the client in order and the loop ends cleanly |
| ClientLoop.ReadLineAt | src/bin/litredis-cli.rs:358-389 | the scanning loop finds the first line feed and refuses a line without CRLF |
| ClientLoop.ParseRespValue | src/bin/litredis-cli.rs:263-356 | the parser with its loop over array items computes the recursive specification, values and errors alike |
| ClientLoop.ParseBulkAt | src/bin/litredis-cli.rs:292-326 | a bulk string is read with each length, truncation, terminator and UTF-8 error in its turn |
| ClientLoop.Consume | src/bin/litredis-cli.rs:206-215 | the popping loop computes the specification of `consume_item` |
| ClientLoop.ReadRespFrame | src/bin/litredis-cli.rs:135-204 | the framing loop returns the raw bytes its specification names, or its error, and leaves the stream behind them |
| ClientLoop.RunReadLoop | src/bin/litredis-cli.rs:112-133 | the read loop yields every reply up to the end of the stream or the first error |
| Decimal.ParsePrintI64 | src/protocol/resp.rs:112 | every 64-bit integer survives printing and parsing |
| Decimal.ParseI64Iff | src/protocol/resp.rs:129-133 | a text is a signed number exactly when it is an optional sign and digits with a value within 64 bits |
| Decimal.ParseU64Iff | src/protocol/resp.rs:124-127 | the same for unsigned numbers, without a minus sign |
| Resp.SanitizeIsEscape | src/protocol/resp.rs:135-137 | the two replacements in a row are one escape per byte |
| Resp.SanitizedIsOneLine | src/protocol/resp.rs:135-137 | a sanitized text has no line ending in it |
| Resp.SanitizeIsIdentityIff | src/protocol/resp.rs:135-137 | sanitizing changes nothing exactly on texts that are one line already |
| Resp.SanitizeKeepsUtf8 | src/protocol/resp.rs:135-137 | sanitizing keeps a text well-formed UTF-8 |
| CommandGrammar.ParsesIff | src/protocol/resp.rs:10-106 | an argument list parses to a command exactly when it writes it: the keyword and EX and REPLACE in any letter case, as many arguments as the command takes, every number within 64 bits |
| CommandGrammar.RefusedIff | src/protocol/resp.rs:10-133 | every other list is refused: an empty one as such, a number that does not parse as an invalid argument, the rest as an unknown command under the first argument in capitals |
| CommandGrammar.ParseWritten | src/protocol/resp.rs:10-106 | every command has an argument list that parses to exactly that command |
| Utf8.ValidIff | src/protocol/resp.rs:334-338 | a string is accepted as UTF-8 exactly when it is the encoding of some sequence of Unicode scalar values |
| ServerProof.ServerValueIsClientValue | src/protocol/resp.rs:152-205 | a value the server reads from a stream is read by the client's parser as the same value to the same byte |
| ServerProof.ReadValueLocal | src/protocol/resp.rs:152-338 | a frame the server accepts is accepted with the same value wherever it stands in a stream |
| ServerProof.FrameCostsOneItem | src/connection.rs:72-99 | a complete frame, good command or bad, costs one item and reading goes on right behind it |
| ServerProof.FramingErrorIsLast | src/connection.rs:78-98 | an item that closes the connection is the last one sent |
| ServerProof.BrokenFrameEnds | src/connection.rs:72-98 | behind any commands, a broken frame sends one last item that closes the connection, and the end of the stream sends none |
| ServerProof.UnknownPrefixCloses | src/connection.rs:78-98 | commands and then a byte that starts no frame: the commands are all heard, and then the closing error |
| ServerProof.EncodedCommandIsRead | src/protocol/resp.rs:207-296 | an encoded argument list is read back exactly when it is within the array and bulk limits, and which limit refuses it otherwise |
| ServerProof.CommandsArrive | src/protocol/resp.rs:139-187 | over a stream of encoded argument lists the server hears, in order, what each list parses to |
| ServerLoop.ReadLine | src/protocol/resp.rs:306-325 | reading a line from the stream computes the specification and leaves the stream behind the line |
| ServerLoop.ReadBulk | src/protocol/resp.rs:263-296 | reading a bulk string from the stream computes the specification, each error in its turn |
| ServerLoop.ReadItems | src/protocol/resp.rs:228-237 | the loop over array items reads exactly the announced number and refuses a nested array |
| ServerLoop.ReadRespValue | src/protocol/resp.rs:152-240 | the reader on a stream computes the specification of one value |
| ServerLoop.CommandOf | src/protocol/resp.rs:163-187 | the loop over array items collects the arguments or refuses the first that is no bulk string |
| ServerLoop.RunReadCommands | src/connection.rs:68-100 | the reading loop sends exactly the items of its specification, up to the end of the stream or a framing error |
| ServerLoop.PrintCommand | src/protocol/resp.rs:139-150 | the appending loop prints the array of bulk strings |
| Shell.SplitUndoesQuoting | src/bin/litredis-cli.rs:70-110 | any list of arguments, each quoted or plain enough not to need it, joined by spaces, splits into itself |
| Shell.ReplacesAreOneEscape | src/bin/litredis-cli.rs:449-451 | the two replacements in a row are one escape per character |
| Shell.QuotedEscaped | src/bin/litredis-cli.rs:83-94 | the quoted-string loop reads an escaped text back and stops behind its closing quote |
| Shell.SplitLine | src/bin/litredis-cli.rs:70-110 | the splitting loops compute the specification, unterminated quotes included |
| Shell.BlanksAreSkipped | src/bin/litredis-cli.rs:70-82 | spaces, tabs and line ends between arguments, however many, make no difference |
| PubSubRuns.NextKeepsInv | src/pubsub.rs:38-124 | every step of every interleaving keeps the whole invariant of registry, sessions, queues and publishes in flight |
| PubSubRuns.MirrorsAgree | src/session.rs:106-184 | at every point of every run a registry entry stands in its client's own set; for a running client that was not signalled the converse holds too; no channel is kept empty |
| PubSubRuns.CleanedNeverReappears | src/connection.rs:57 | once a client was cleaned up after its loop, its id is in no channel ever again |
| PubSubRuns.MessagesAreConserved | src/pubsub.rs:95-107 | over whole runs the publish counts sum to the messages written out, still queued and discarded at a close |
| PubSubRuns.QueuesAreOrdered | src/connection.rs:47-53 | no queue exceeds 1024, messages are written in the order they were accepted, and only those of channels the client asked for |
| PubSubRuns.PublishNeverStuck | src/pubsub.rs:95-124 | at every point of every run a publish in flight can send to whoever it waits for, and evict once it waits for nobody |
| PubSubRuns.ConnectStarts | src/session.rs:41-57 | a connection starts running, with nothing in its set and its queue |
| PubSubRuns.DrainsWriteTheQueue | src/connection.rs:47-53 | a running client that drains writes out all its queue holds, in order |
| PubSubRuns.LeavingLosesTheQueue | src/connection.rs:42-58 | whichever way a client leaves its loop, the cleanup takes it out of every channel and exactly what was still queued is lost |
| PubSubRuns.LogsOnlyGrow | src/pubsub.rs:98-107 | what a client accepted and what it wrote is only ever appended to |
| PubSubRuns.SendReaches | src/pubsub.rs:95-107 | one send puts the message at the end of a queue with room and counts it, signals a full one, lists full and closed ones for eviction, and touches nobody else |
| PubSubRuns.UninterruptedPublish | src/pubsub.rs:77-124 | a publish nobody interrupts does, in any send order and also on a channel nobody holds, what the publish method does at once, mailbox by mailbox and entry by entry |
| PubSub.PubSub.NextClientId | src/pubsub.rs:38-40 | ids are handed out once each |
| PubSub.PubSub.Subscribe | src/pubsub.rs:42-57 | exactly one entry comes in, client by client and channel by channel |
| PubSub.PubSub.Unsubscribe | src/pubsub.rs:59-67 | exactly one entry goes, and its channel with the last of them |
| PubSub.PubSub.UnsubscribeAll | src/pubsub.rs:69-75 | the entries left are exactly those of other clients, and no channel is kept empty |
| PubSub.PubSub.SendAll | src/pubsub.rs:95-107 | in any order, exactly the subscribers with an open queue of fewer than 1024 messages are counted and gain the message at its end, exactly the open full ones are signalled, exactly the closed or full ones are listed as unreachable |
| PubSub.PubSub.Publish | src/pubsub.rs:77-124 | the answer counts the subscribers with an open queue of fewer than 1024 messages; exactly those queues gain the message, exactly the open full ones are signalled, exactly the entries of closed or full ones leave this channel, and nothing else changes |
| Session.ClientSession.SubscribeTo | src/session.rs:152-162 | subscribing channel by channel computes the specification of session, registry and replies |
| Session.ClientSession.UnsubscribeFrom | src/session.rs:175-183 | unsubscribing channel by channel computes the specification of session, registry and replies |
| Session.ClientSession.ExecuteSessionCommand | src/session.rs:118-184 | the session commands compute the specification for some order of walking the set |
| Session.ClientSession.ExecuteCommand | src/session.rs:59-104 | a command computes the specified outcome on session, store and registry |
| SessionProof.AuthenticatedIff | src/session.rs:86-104 | on a server with a password a session is authenticated exactly when the right AUTH was among its commands, and a subscribed session is |
| SessionProof.NothingBeforeAuth | src/session.rs:59-68 | no command before the right AUTH touches store or registry, whatever other sessions do |
| SessionProof.StepAuth | src/session.rs:86-104 | no command loses authentication and only the right password gains it |
| SessionProof.SubscribedIsSilent | src/session.rs:70-82 | while a session's set is not empty no command of it changes the store or sends a message |
| SessionProof.SubscribeCounts | src/session.rs:152-162 | the k-th SUBSCRIBE reply counts the old set united with the channels so far, repeats once |
| SessionProof.UnsubscribeCounts | src/session.rs:175-183 | the k-th UNSUBSCRIBE reply counts what the channels so far leave of the set |
| SessionProof.BareUnsubscribe | src/session.rs:164-173 | UNSUBSCRIBE without channels counts n-1 down to 0 in any order of the set, and answers nil and 0 on an empty one |
| SessionProof.AuthAnswers | src/session.rs:86-104 | the answer to AUTH without a password, to the right one and to any other, and that nothing else changes |
| SessionProof.UnauthenticatedAnswers | src/session.rs:60-68 | before the right AUTH, PING is answered and everything else is refused |
| SessionProof.SubscribedAnswers | src/session.rs:70-82 | in subscribed mode PING is answered in two parts and other commands of the store are refused |
| SessionProof.PlainAnswers | src/commands/mod.rs:9-34 | PING, ECHO and the commands of the store are answered at once and leave the session alone |
| SessionProof.PublishAnswers | src/commands/mod.rs:21-24 | PUBLISH answers the number of clients with room and does to mailboxes and registry exactly what a publish does |
| SessionProof.SessionAnswers | src/session.rs:118-184 | QUIT alone closes the session; what each session command makes of the set |
| SessionProof.StepKeepsMirror | src/session.rs:106-184 | every command keeps the session's set and the registry in step; QUIT leaves nothing of it in the registry |
| SessionSteps.SessionCommandIsARun | src/session.rs:118-184 | SUBSCRIBE, UNSUBSCRIBE (bare in any order too), RESET and QUIT leave the set, the registry and all else exactly as a run of single steps, one per channel, and QUIT alone stops the client |
| SessionSteps.PublishCommandIsARun | src/pubsub.rs:77-124 | a PUBLISH command answers and leaves what its snapshot, sends and eviction with nothing in between count and leave |
| EndToEnd.WrittenAreAnswers | src/connection.rs:20-55 | what a connection writes is, in order and in full, the replies of its session to the items read, one error for each refused item and one three-part message for each message drained, up to an item that closes it |
| EndToEnd.WrittenIsShown | src/connection.rs:20-60 | whatever bytes a client sends and whatever other sessions do, the bytes written back are framed and parsed as exactly those answers, in order, up to the normal form |
| EndToEnd.CommandsAreAnswered | src/connection.rs:20-100 | a client that sends encoded argument lists is shown, in order and in full, what its session answers to the commands they parse to |
| EndToEnd.ReadCommandsAreGood | src/protocol/resp.rs:263-338 | on any byte stream, every string that reaches the session is UTF-8 and within length |
| EndToEnd.CommandIsGood | src/session.rs:59-104 | every reply to every command can be framed and parsed, and everything stored, queued or remembered stays UTF-8 |
| StoreLoop.DataStore.Get | src/store/mod.rs:54-67 | a get answers the text in the live view and leaves the view; a dead entry goes |
| StoreLoop.DataStore.Set | src/store/mod.rs:70-73 | a set changes one item of the live view, whatever was there, live or dead: the text, and a deadline that many seconds from now or none |
| StoreLoop.DataStore.Del | src/store/mod.rs:76-81 | a delete takes one key out of the live view and tells whether it was there |
| StoreLoop.DataStore.DelAllKeys | src/commands/strings.rs:22-26 | the counting loop of DEL takes the set of keys out of the live view and counts those that were there, repeats once |
| StoreLoop.DataStore.IncrBy | src/store/mod.rs:90-113 | an increment creates, flushes, refuses or updates the entry, and is one addition on the live view unless it meets an expired string |
| StoreLoop.DataStore.Expire | src/store/mod.rs:116-125 | a key of the live view, and no other, gets a new deadline and keeps its text |
| StoreLoop.DataStore.Persist | src/store/mod.rs:140-149 | a key of the live view, and no other, loses its deadline and keeps its text |
| StoreLoop.DataStore.Copy | src/store/mod.rs:153-164 | an item of the live view is copied, deadline and all, unless the destination is in the view and is to be kept |
| StoreLoop.DataStore.PurgeExpired | src/store/mod.rs:167-177 | scan and deletes, in any order, remove exactly the dead entries and leave the live view |
| StoreLoop.DataStore.Execute | src/commands/strings.rs:8-53 | every command answers and leaves the live view as the map of live keys would, but for a counter on an expired string |
| LiveMap.RefinesIff | src/store/mod.rs:54-177 | a command behaves as on the map of live keys exactly when it is no counter on an expired string |
| LiveMap.CommandRefines | src/store/mod.rs:54-164 | reply and live view of every command are those of the map of live keys |
| LiveMap.ExpiredStringShows | src/store/entry.rs:36-43 | a counter on an expired string answers an error and leaves a live empty string, where the map would answer the delta |
| LiveMap.DelAllIsOneRemoval | src/commands/strings.rs:22-26 | DEL removes the listed keys and counts the live ones among them, repeats once |
| LiveMap.TimeAndPurge | src/store/mod.rs:167-177 | time passing is one pruning of the live view, and a purge at any moment is invisible |
| StoreRuns.RunRefines | src/store/mod.rs:54-177 | every run, saves and restarts included, in which no removal hits a live key and no counter an expired string answers what the map of live keys answers and ends with its live view and its saved view |
| StoreRuns.HousekeepingAnywhere | src/store/mod.rs:54-177 | purges and lazy removals inserted anywhere in a run with saves and restarts change no reply and no view at its end |
| StoreRuns.HousekeepingIsInvisible | src/store/mod.rs:54-177 | two stores with the same live and saved view answer the same and end with the same views over runs, with saves and restarts, that differ only in housekeeping |
| StoreRuns.NumbersAreTexts | src/store/mod.rs:54-177 | two stores that differ only in holding a number or its decimal text answer the same over every run with copies, saves, restarts and late removals, and still differ only there at its end, if no counter hits an expired entry |
| StoreRuns.HousekeepingStaysQuiet | src/store/mod.rs:90-113 | housekeeping never brings a counter onto an expired string that was not on one without it |
| StoreRuns.NextKeepsInv | src/store/mod.rs:167-177 | every step keeps it that a key waiting for its removal is dead unless it was written again |
| StoreRuns.RunKeepsInv | src/store/mod.rs:167-177 | so it holds at every point of every run |
| StoreRuns.LateMeansRewritten | src/store/mod.rs:167-177 | in every run that starts with nothing noticed, only a key that was written again since it was noticed can be removed alive |
| StoreRuns.PurgeIsComplete | src/store/mod.rs:167-177 | a purge leaves exactly the live keys |
| StoreRuns.UninterruptedPurge | src/store/mod.rs:167-177 | noticing the dead keys and then removing them one by one, each in any order, is the purge |
| StoreRuns.HousekeepingView | src/store/mod.rs:167-177 | a housekeeping step changes the live view exactly when it removes a live key, and then only at that key |
| StoreRuns.LateRemovalLosesAWrite | src/store/mod.rs:57-60 | the removal of a key that was written again loses the write |
| KeyRuns.SetThenShows | src/store/mod.rs:54-73 | after SET with EX n, and over any run that does not write the key, GET answers the value until exactly n seconds later and nil from then on, TTL the whole seconds left and then -2; without EX the value for good and -1 |
| KeyRuns.ExpireThenShows | src/store/mod.rs:116-138 | EXPIRE answers 1 exactly on a live key, which then shows its text until exactly n seconds later |
| KeyRuns.PersistThenShows | src/store/mod.rs:140-149 | PERSIST answers 1 exactly on a live key, which then shows its text for good |
| KeyRuns.DelThenShowsNothing | src/store/mod.rs:76-81 | a deleted key shows nothing until it is written again |
| KeyRuns.CopyThenShows | src/store/mod.rs:153-164 | COPY answers 1 exactly when the source is live and the destination may be written, which then shows the source's text until the source's deadline |
| Counters.CountersAddUp | src/store/mod.rs:90-113 | over any interleaving the final number is the first plus what the commands answered with an integer meant to add, and the deadline stays |
| Counters.CounterAnswers | src/store/mod.rs:90-113 | a counter command answers and stores the sum exactly when the key's text is a number, or it counts as zero, and the sum is within 64 bits; it answers which error otherwise and changes nothing |
| Counters.ErrorsChangeNothing | src/store/mod.rs:100-109 | a counter command that answers an error leaves an unexpired key as it was |
| Counters.DecrBySubtractsIff | src/commands/strings.rs:37-39 | a DECRBY that answers an integer has subtracted its argument exactly when the argument has a 64-bit negation |
| Persistence.SaveThenLoad | src/persistence.rs:43-111 | saving and loading a store is, key by key and in any snapshot order, one reload of the entry |
| Persistence.KeptIff | src/persistence.rs:54-93 | an entry comes back, with its value, exactly when it was live at the save and its deadline, a second less if the save lies later in its second than the deadline, is in a later second than the load |
| Persistence.DeadStaysDead | src/persistence.rs:58-62 | a key whose deadline passed before the load does not come back |
| Persistence.LostOnlyNearTheEnd | src/persistence.rs:58-62 | a key live at the save is dropped only with at most two seconds less two nanoseconds of life left at the load |
| Persistence.TwoSecondsIsTight | src/persistence.rs:90-93 | with exactly two seconds less two nanoseconds left a key can be dropped |
| Persistence.DeadlineDrift | src/persistence.rs:51-93 | after n restarts a surviving deadline lies from n whole seconds before to one second behind the second it started in |
| Persistence.DriftIsTight | src/persistence.rs:51-93 | every one of n linked restarts can take a whole second off |
| Persistence.SecondNeverGrows | src/persistence.rs:90-93 | the second written for a key never grows from a save to any save behind one or more later loads, whether or not the key survives the load after it |
| Persistence.SecondGrowsIff | src/persistence.rs:90-93 | between two saves of one process it grows exactly when the first save lies later in its second than the deadline in its own and the second save does not, and then by one |
| Persistence.SecondCanGrow | src/persistence.rs:90-93 | a save at 1.9 seconds writes 9 for a deadline at 10.5 seconds, a save at 2.1 writes 10 |
| Persistence.FollowAllIsPointwise | src/persistence.rs:43-111 | the store after any number of restarts holds exactly the keys that survived each of them |
| Persistence.ReloadRefines | src/persistence.rs:43-93 | the live view after a restart is the reload of the live view at the save |
| Persistence.RestartKeepsLikeness | src/persistence.rs:57-89 | two stores that look alike at a save look alike after the load |
| Persistence.BuildStore | src/store/mod.rs:29-39 | the loop over the entries inserts them one after the other |

## Left out

* Sockets, Tokio tasks, timers and ctrl-c (`src/server.rs`, `src/main.rs`): a stream is a finite byte
  sequence and scheduling is a choice of steps.
* File writing, temporary names, renaming and JSON text: a snapshot is a sequence of nodes.
* DashMap and mutex internals: single operations on the maps are atomic; the scan of the purge and the
  lookup of `get` are split from their removals in `StoreRuns`, the locks of a publish in `PubSubRuns`.
  `StoreLoop.DataStore.Copy` is atomic here, where the program reads the source and writes the destination
  under two locks.
* The few instructions between the two clock readings of a save or a load: both clocks are read at once.
* Panics: deadlines beyond the range of `Instant`, client id wrap-around and memory limits. DECRBY of
  the least integer wraps, as in a release build; a debug build panics there.
* Message texts of protocol, `io` and integer parse errors: the model keeps their kinds, and `EndToEnd`
  holds for any UTF-8 texts. A framing error is told from a closed connection by its reason instead of
  by its text.
* A save that other commands interrupt: `StoreRuns` lists the entries at one moment.
* A connection task that stops receiving: `read_commands` then ends early with a prefix of its items.
* Client ids start at 0 in `PubSubRuns` and at 1 in `PubSub`.
* A `Subscriber` is its client id: a session always registers its own two senders.
* Terminal layout of arrays (`format_array_lines`), configuration merging and logging.
* No claim is made that a client hears nothing after UNSUBSCRIBE: queued messages and sends in flight
  may still reach it.

# Verified models of Vambiant Term

Vambiant Term is a terminal for working with coding agents: a daemon runs the
sessions, asks model providers, queues the agents' permission requests and
replicates screens to viewers. This project models the parts of it whose
correctness is a matter of protocols, state machines and arithmetic, and proves
what they promise. `dafny verify dfyconfig.toml` checks everything.

| file | what it models |
|---|---|
| `Approvals.dfy`, `Agents.dfy` | an approval from the request to the one answer that reaches the agent, as a state machine over critical sections, and the daemon's methods that run them |
| `Watchdog.dfy`, `ApprovalWatches.dfy` | who is reminded of, which approvals are watched, and which watches are left behind |
| `Wire.dfy`, `Viewer.dfy`, `Replication.dfy` | screen contents from the session through deltas to the viewer's grid |
| `Server.dfy`, `Client.dfy` | topics, bounded outboxes and slow clients; calls and queued notifications |
| `EndToEnd.dfy` | the last two rows put together: from the session to the viewer through outbox, wire and client |
| `EditDistance.dfy` | the distance behind command corrections, and the search for the best candidate |
| `Calendar.dfy`, `Stamps.dfy` | dates from day counts, and time stamps (section 5.6 of RFC 3339) |
| `WebSocket.dfy` | framing, masking and fragmentation (sections 5.2 to 5.4 of RFC 6455) |
| `Detector.dfy`, `Osc.dfy`, `Segmenter.dfy` | terminal modes, shell-integration marks and the blocks made of them |
| `Providers.dfy` | retries, circuit breakers and the walk down the fallback chain |
| `Policy.dfy`, `Workspace.dfy` | permission rules, the floor below them, and a repository's policy laid over the global one |
| `CodexThreads.dfy` | subscribing to the threads of an app-server, with retries |
| `Redact.dfy` | replacing secrets in place, and the entropy layer |
| `Keymap.dfy` | reading and writing key chords, and resolving bindings |
| `Text.dfy`, `Strings.dfy`, `Decimals.dfy`, `Sequences.dfy`, `Bytes.dfy`, `Numbers.dfy`, `Wrappers.dfy` | dictionary order, splitting and joining, decimal numbers, sequences, bytes, powers of two, options and results |

Code that changes state step by step is a class or a method with loops here, tied
to a specification function or to steps of a state machine; the theorems are
about those.

## Where the code and its documentation differ

The model follows the code. In these places it does not do what its comments or
documents say, and the project states exactly when it does:

- Attaching takes the snapshot before it subscribes (`crates/vtermd/src/rpc.rs:196-209`),
  so a flush between the two never reaches the viewer
  (`Replication.ExactUnlessFlushedInWindow`).
- A connection dropped for falling behind is said to be disconnected
  (`crates/vt-ipc/src/server.rs:195`); the thread serving it holds another sender,
  so its socket stays open until it hangs up or a write fails
  (`Server.SocketShutExactlyWhenOver`).
- Fallback chains are said never to go twice through the same profile
  (`docs/04-ai-provider-layer.md:159`). The list of profiles tried is only compared
  with the next link, not with what the walk over cooling profiles picks: the promise
  holds exactly when the links settle (`Providers.NoneTwiceExactlyWhenSettled`), and
  otherwise the chain may never end (`Providers.EndsExactlyWhenSettled`).
- A repository's policy is said to narrow and never to widen
  (`crates/vt-policy/src/workspace.rs:1-3`). Two provider lists with nothing in
  common come out empty, which stands for every provider
  (`Workspace.ProvidersIntersectUnlessDisjoint`), and a repository's `ask` can come
  before a global `deny` (`Workspace.LaxerExactlyWhenAskBeforeDeny`).
- Tearing a session down leaves its approvals in the watchdog, and nothing else ever
  does (`ApprovalWatches.StrandedWasForgotten`); with requests made at clear ids, as
  fresh ones are, it does until the id is asked for again
  (`ApprovalWatches.StrandedExactlyWhenForgotten`).
- Every deferred request is said to get a watchdog
  (`docs/03-agent-integration.md:152-154`). A repeated id defeats that exactly when it is
  asked for before it is clear (`ApprovalWatches.RequestIsSafeExactlyWhenClear`).
- Of one batch of events only the last approval is held
  (`crates/vtermd/src/agents.rs:683-728`); a decision on any other reaches the agent
  neither through a hook nor as a keystroke (`Approvals.UnheldIsNeverAnswered`).
- A `D` with no `C` and a second `A` in the middle of a command are said to count as
  disorder (`crates/vt-blocks/src/segment.rs:5-7`). The `A` closes the command instead
  (`Segmenter.PromptClosesCommand`), and so does the `D` after a `B`
  (`Segmenter.EndClosesUnexecutedCommand`); in everything else the count is as
  documented (`Segmenter.CountedExactlyUnlessItCloses`).
- A nonce of `633;E` that is empty, or has a semicolon or a backslash, ends up in the
  command, whole or in part (`Osc.CommandOfTail`, `Osc.CommandRoundTrip`).

A limit, of which the documents say nothing: time stamps sort as text only over some
ranges of years (`Stamps.StampsSortInYears` gives them all).

## Model

| member | source | states |
|---|---|---|
| `Approvals.AnsweredExactlyOnce` | crates/vtermd/src/agents.rs:399-451 | In every interleaving of asking, holding (with its timeout), deciding, withdrawing and unregistering, an approval is answered at most once, by the hook reply if the hook was still open and by the keystroke y or n otherwise, as the decision says; and exactly once when both the resolver and the hook thread are done. |
| `Approvals.AnswersSayTheDecision` | crates/vtermd/src/agents.rs:399-451 | Whatever answers an approval in any run says what the one step that took it decided: the reply allows with its input exactly for an Allow and denies for its reason exactly for a Deny, the key is y exactly for an Allow and n exactly for a Deny, and it is a key exactly when the hook gave up waiting. |
| `Approvals.OpenUntilClosed` | crates/vtermd/src/agents.rs:732-754 | The hook of an approval is open exactly until its thread closes it. |
| `Approvals.HookRepliesOnce` | crates/vtermd/src/agents.rs:732-754 | In every run the hook thread of an approval replies once, when it is done and not before. |
| `Approvals.TakenBackEndsWithdrawn` | crates/vtermd/src/agents.rs:495-522 | An approval taken back is never answered, and is marked withdrawn once none of its own steps can run. |
| `Approvals.ThreadsRunApart` | crates/vtermd/src/agents.rs:399-451 | The hook thread never waits for the resolver, and the resolver for the hook thread only while that closes the hook. |
| `Approvals.OwnStepsAreBounded` | crates/vtermd/src/agents.rs:732-754 | However a run goes on, the hook thread and the resolver of an approval make at most seven more steps between them, and neither the decision on its way nor whether the approval is held changes. |
| `Approvals.CanComeToRest` | crates/vtermd/src/agents.rs:732-754 | From any state whatsoever the two threads of an approval can be run to their end, by steps of their own only and no more of them than its rank bounds. |
| `Approvals.DecidedEndsAnswered` | crates/vtermd/src/agents.rs:399-451 | Once a held approval has been taken with a decision: in every run from there that leaves none of its own steps able to run, it has been answered exactly once: with the allowing or denying reply of that decision, or with y or n if the hook gave up waiting. |
| `Approvals.DecidedCanBeAnswered` | crates/vtermd/src/agents.rs:399-451 | And from every such state at most six steps of its own lead to that answer. |
| `Approvals.UnheldIsNeverAnswered` | crates/vtermd/src/agents.rs:399-451 | An approval that no hook waits behind gets no answer, through a hook or by keystroke, in any run, decided or not. |
| `Approvals.ResolvedAtMostOnce` | crates/vtermd/src/agents.rs:399-413 | With fresh ids, `decide` and `withdraw` together take an approval out of the inbox at most once, and an approval in the inbox was never taken. |
| `Approvals.RequestsCoverResolutions` | crates/vtermd/src/agents.rs:495-554 | Even when ids are reused there are never more resolutions of an id than requests for it, counting what is still pending or being asked. |
| `Approvals.SettledIsFinal` | crates/vtermd/src/agents.rs:495-522 | Once decided, an approval keeps its decision and is never withdrawn; once withdrawn it is never decided. |
| `ApprovalWatches.PendingIsArmed` | crates/vtermd/src/agents.rs:527-554 | With fresh ids every pending approval is armed in the watchdog at every step, because arming comes before insertion and disarming after removal. |
| `ApprovalWatches.FreshAsksWhenClear` | crates/vtermd/src/agents.rs:527-554 | An id never asked for before is clear. |
| `ApprovalWatches.PendingIsArmedWhenClear` | crates/vtermd/src/agents.rs:527-554 | So is every pending approval of any run whose requests are each made at a clear id, used before or not: one that is not being asked for, not in the inbox, and that nobody who took it out has yet to disarm. |
| `ApprovalWatches.UnclearRequestIsUnwatched` | crates/vtermd/src/agents.rs:527-554 | From any state that keeps the invariant where an id is not clear, for whichever of the three reasons, asking for it can be followed by steps, none a further request, that leave the id in the inbox and unwatched. |
| `ApprovalWatches.RequestIsSafeExactlyWhenClear` | crates/vtermd/src/agents.rs:527-554 | After a run whose requests were made at clear ids, one more request is sure to leave every pending approval watched, whatever follows short of another request, exactly when its id is clear. |
| `ApprovalWatches.ReusedIdIsUnwatched` | crates/vtermd/src/agents.rs:527-554 | The shortest run that leaves an approval in the inbox unwatched: its id is asked for again while it is in the inbox, and then the first is decided. |
| `ApprovalWatches.UnregisterStrandsWatch` | crates/vtermd/src/agents.rs:332-341 | With requests made at clear ids, tearing a session down takes its approvals out of the inbox but not out of the watchdog; unless the id is asked for again, the watch stays for the rest of the run. |
| `ApprovalWatches.StrandedExactlyWhenForgotten` | crates/vtermd/src/agents.rs:332-341 | With requests made at clear ids, fresh or reused, a watch stands with nothing under way to remove it exactly when some earlier step tore down a session that had the approval in the inbox and the id was not asked for since. |
| `ApprovalWatches.StrandedWasForgotten` | crates/vtermd/src/agents.rs:332-341 | One half of it needs no condition: in any run a stranded watch was left by such a teardown. |
| `ApprovalWatches.QuietEndsStrandNothing` | crates/vtermd/src/agents.rs:332-341 | So no step of the run leaves a watch behind exactly when every session torn down had nothing in the inbox at that moment. |
| `ApprovalWatches.RemindersKeepPace` | crates/vtermd/src/agents.rs:155-215 | Over whole runs with a clock that does not go back, reminders times the interval never exceed the time waited. |
| `Agents.Agents.Ask` | crates/vtermd/src/agents.rs:527-554 | `ask` performs exactly the arm and insert steps of the state machine. |
| `Agents.Agents.Decide` | crates/vtermd/src/agents.rs:399-451 | `decide` performs the take, disarm, write, look and route steps, or nothing when the id is not in the inbox. |
| `Agents.Agents.Withdraw` | crates/vtermd/src/agents.rs:495-522 | `withdraw` performs the take, disarm and mark steps, or nothing. |
| `Agents.Agents.Hold` | crates/vtermd/src/agents.rs:732-754 | `hold` replies with the decision if there is one, and otherwise expires and closes the hook under the decision lock. |
| `Agents.Agents.Unregister` | crates/vtermd/src/agents.rs:332-341 | `unregister` forgets exactly the tokens of the session and takes exactly its approvals out of the inbox. |
| `Agents.Agents.Tick` | crates/vtermd/src/agents.rs:155-215 | One tick reminds exactly the overdue watches and counts on those that are pending. |
| `Watchdog.Dog.Arm` | crates/vt-agent/src/watchdog.rs:31-39 | Arming is the specified change of the pending vector: first of its id wins. |
| `Watchdog.Dog.Disarm` | crates/vt-agent/src/watchdog.rs:42-44 | Disarming is the specified removal. |
| `Watchdog.Dog.Due` | crates/vt-agent/src/watchdog.rs:48-59 | The loop reminds exactly the overdue entries, in place, and returns their ids in order. |
| `Watchdog.Membership` | crates/vt-agent/src/watchdog.rs:31-59 | What is armed after arming, disarming and reminding, and that no id is ever watched twice. |
| `Watchdog.OverdueIdsAre` | crates/vt-agent/src/watchdog.rs:48-59 | An id is reported exactly when some watch of it is overdue. |
| `Watchdog.DueKeepsCount` | crates/vt-agent/src/watchdog.rs:48-59 | With ticks at most an interval apart the reminders are exactly the time waited divided by the interval. |
| `EditDistance.DistanceIsLeastCost` | crates/vt-blocks/src/correct.rs:51-74 | The recursive distance is the least cost of all scripts of keeps, inserts, deletes, substitutions and one-off neighbour swaps that rewrite one word into the other, and some script costs that much. |
| `EditDistance.DistanceLaws` | crates/vt-blocks/src/correct.rs:48-74 | It is symmetric, zero exactly on equal words, and between the difference of the lengths and the longer length. |
| `EditDistance.TriangleWithoutSwaps` | crates/vt-blocks/src/correct.rs:48-74 | The triangle inequality holds for all words whose two shorter distances are reached by scripts without a swap. |
| `EditDistance.Compose` | crates/vt-blocks/src/correct.rs:48-74 | Two scripts without swaps, one after the other, make one script of no more cost. |
| `EditDistance.TriangleFails` | crates/vt-blocks/src/correct.rs:48-74 | It is not a metric: a concrete triple, one step of which is a swap, breaks the triangle inequality. |
| `EditDistance.ComputeDistance` | crates/vt-blocks/src/correct.rs:51-74 | The two-dimensional table, filled in place by nested loops, ends in that distance. |
| `EditDistance.Closest` | crates/vt-blocks/src/correct.rs:77-95 | The search returns the best eligible candidate (fewest edits, then byte length, then dictionary order), and none exactly when no candidate is eligible. |
| `EditDistance.FewestBytes` | crates/vt-blocks/src/correct.rs:77-95 | The length that breaks ties is in bytes of UTF-8: each character takes the fewest that hold its code point (section 3 of RFC 3629). |
| `Calendar.CivilFromDaysCounts` | crates/vt-agent/src/claude.rs:205-218 | For every integer day, the eras-and-months arithmetic (with the truncating division of the source) gives a valid proleptic Gregorian date whose day count, defined from leap years and month lengths, is that day. |
| `Calendar.CivilFollowsTheCalendar` | crates/vt-agent/src/claude.rs:205-218 | Day 0 is 1970-01-01 and each next day is the calendar successor. |
| `Calendar.CivilIsOrderIsomorphism` | crates/vt-agent/src/claude.rs:205-218 | Days and valid dates correspond one to one, in order. |
| `Calendar.NextDateCounts` | crates/vt-agent/src/claude.rs:205-218 | The calendar successor counts one day more. |
| `Calendar.DaysOfDateIsMonotone` | crates/vt-agent/src/claude.rs:205-218 | Counting days is strictly monotone and injective on valid dates. |
| `Stamps.StampsKeepOrder` | crates/vt-agent/src/claude.rs:223-233 | Stamps of years with four digits sort, as text, in the order of their seconds. |
| `Stamps.StampReadsBack` | crates/vt-agent/src/claude.rs:223-233 | For every number of seconds, the fields read off the stamp are a valid date and time of day and count up to those seconds. |
| `Stamps.FiveDigitYearsSortEarly` | crates/vt-agent/src/claude.rs:223-233 | The stamp of 10000-01-01 sorts before that of the day before it. |
| `Stamps.StampsSortInYears` | crates/vt-agent/src/claude.rs:223-233 | For any two years, below zero as well: the stamps from the one through the other sort, as text, in the order of their seconds exactly when it is one year or none; or the years are not negative and equally wide; or they are from -1 to below 10000; or they are two negative years in a row, of which the second is narrower. |
| `Stamps.StampsSortUpToYear` | crates/vt-agent/src/claude.rs:223-233 | From year 0 up to a year, exactly when that year is below 10000. |
| `Wire.EncodeRowsAre` | crates/vtermd/src/wire.rs:34-68 | A delta carries exactly the asked-for rows that exist, each fully encoded. |
| `Viewer.Grid.Overwrite` | crates/vt-ffi/src/viewer.rs:144-153 | One line overwrites exactly its row of the flat cell array with its characters, colours and attributes, blank where it is too short; every other row stays. |
| `Viewer.Grid.Apply` | crates/vt-ffi/src/viewer.rs:137-159 | Applying a delta in place (reallocating on full or a change of size, skipping rows out of range) gives the specified picture. |
| `Viewer.FullDeltaShows` | crates/vt-ffi/src/viewer.rs:137-159 | Whatever the viewer held, a full delta makes it draw exactly the snapshot: every cell its character, its decoded foreground and background and its attributes, and cursor, position and number. |
| `Viewer.LinesDeltaShows` | crates/vt-ffi/src/viewer.rs:137-159 | A delta of damaged rows makes exactly those rows draw those of the snapshot, cell by cell, keeps every other row, and sets cursor, position and number. |
| `Viewer.CanvasIs` | crates/vt-ffi/src/viewer.rs:137-143 | A full delta or one of another size starts from blank cells, any other from what there was. |
| `Viewer.FittedDraws` | crates/vt-ffi/src/viewer.rs:146-153 | A line of any length is drawn as far as it fits, and blank beyond. |
| `Viewer.PaintLinesAre` | crates/vt-ffi/src/viewer.rs:144-153 | Painting lines in any order changes exactly the rows they name. |
| `Viewer.DrawsOne` | crates/vt-ffi/src/viewer.rs:30-59 | A picture draws one snapshot only: character, colours and attributes of every cell, decoded as the renderer takes them, tell the snapshot. |
| `Replication.MergeRows` | crates/vtermd/src/session.rs:379-397 | Merging damage loses no damaged row and names none twice. |
| `Replication.MergeSpans` | crates/vtermd/src/session.rs:379-397 | Merged damage spans all columns that either had, and reaches no further than they did. |
| `Replication.ViewerShowsUpToOwed` | crates/vtermd/src/rpc.rs:196-209 | At every step of every run, after any prefix of the deltas it was sent, the viewer shows the snapshot the last one was made of, except in rows that flushes between its snapshot and its subscription left owed. |
| `Replication.QuietWindowIsExact` | crates/vtermd/src/session.rs:326-369 | With no flush in that window, every picture the viewer passes through draws exactly a snapshot, cell by cell, under the number it was flushed with. |
| `Replication.ShownWasHad` | crates/vtermd/src/session.rs:326-369 | The snapshots in question are ones the session had at some step of the run. |
| `Replication.NumbersCountFlushes` | crates/vtermd/src/session.rs:326-369 | Deltas carry the count of flushes: a viewer receives consecutive numbers. |
| `Replication.CaughtUp` | crates/vtermd/src/rpc.rs:196-209 | With no flush in that window and no damage left to flush, a viewer that has everything that was sent shows the session as it is now: cells, cursor, position and number. |
| `Replication.SessionIsLastDrawn` | crates/vtermd/src/session.rs:326-369 | The session as it is now is what was last output or redrawn. |
| `Replication.LossyWindow` | crates/vtermd/src/rpc.rs:196-209 | For any positive number of flushes in the window there is a run in which the first of them draws a row the viewer never gets. |
| `Replication.StaleLink` | crates/vtermd/src/rpc.rs:196-209 | A viewer that missed that row and receives another shows a picture the session never had. |
| `Replication.ExactUnlessFlushedInWindow` | crates/vtermd/src/rpc.rs:196-209 | So an attach shows only true pictures exactly when no flush falls between its snapshot and its subscription. |
| `Server.OutboxIsBounded` | crates/vt-ipc/src/server.rs:182-200 | In every reachable state an outbox is the newest part of what was queued and holds at most 512 lines. |
| `Server.SubscriberGetsPrefix` | crates/vt-ipc/src/server.rs:153-200 | For every interleaving of deliveries, drains, responses, subscriptions and hang-ups, what a connection is queued of a topic while it stays subscribed is a gap-free prefix of what is published, and all of it while it stays registered. |
| `Server.SubscribedExactlyWhenAsked` | crates/vt-ipc/src/server.rs:153-166 | In every run a connection is subscribed to a topic exactly when it is registered and asked for it, while registered, after it last took that back. |
| `Server.SubscribingGetsPrefix` | crates/vt-ipc/src/server.rs:153-200 | From the request to subscribe on, by a registered connection, it is queued a gap-free prefix of what is published, all of it while it stays registered; and it was queued nothing of the topic before it first asked. |
| `Server.UnaskedGetsNothing` | crates/vt-ipc/src/server.rs:176-200 | A connection that is not subscribed and does not ask is queued nothing of a topic, in any run. |
| `Server.DeliveryIs` | crates/vt-ipc/src/server.rs:182-200 | Connection by connection: a broadcast is for everyone registered, a publication for who is subscribed; they are queued it last if they have room among 512 and a writer, and are unregistered if not; everyone else keeps what they have. |
| `Server.DroppedExactlyWhenFull` | crates/vt-ipc/src/server.rs:182-200 | A delivery unregisters a selected connection exactly when its outbox is full or its writer is gone. |
| `Server.DroppedGetsNothing` | crates/vt-ipc/src/server.rs:182-200 | A dropped connection is queued no further publication, whatever follows. |
| `Server.SocketShutExactlyWhenOver` | crates/vt-ipc/src/server.rs:182-275 | In every run a stream ends exactly when its connection hung up, and a socket is shut exactly when that happened or a write failed: falling behind, however often, never does it. |
| `Server.StepKeepsInv` | crates/vt-ipc/src/server.rs:144-200 | Every step keeps ids distinct, registered connections served, and outboxes bounded. |
| `Server.Registry.SetSubscription` | crates/vt-ipc/src/server.rs:153-166 | The search changes the topics of the one connection with the id and nothing else. |
| `Server.Registry.Deliver` | crates/vt-ipc/src/server.rs:182-200 | The in-place retain offers the line to every selected connection and keeps those not selected or with room. |
| `Server.Registry.Forget` | crates/vt-ipc/src/server.rs:269-274 | The serving thread takes its connection out. |
| `Client.NotificationsAreConserved` | crates/vt-ipc/src/client.rs:37-102 | For any mix of calls and requests for a notification, whatever fails on the way, the notifications returned followed by those queued are those queued at first followed by those read from the wire, in order. |
| `Client.AnswersOwnRequest` | crates/vt-ipc/src/client.rs:48-69 | A call that succeeds returns the first response with its own id; before it came only requests and responses to others that were no errors. |
| `Client.FirstToDecide` | crates/vt-ipc/src/client.rs:48-77 | A call reads up to the first item that is not to be passed over, and that decides: a failed read, any error in a response, or its own response, whose value is null if it has none; the end of the stream fails it. |
| `Client.FirstNotification` | crates/vt-ipc/src/client.rs:91-102 | Asking for a notification with none queued takes the first to arrive and reads no further; a request that wants an answer is none. |
| `Client.IdsCountCalls` | crates/vt-ipc/src/client.rs:42-47 | Each call takes the next id, modulo 64 bits, so no two calls share one before. |
| `Client.Client.Call` | crates/vt-ipc/src/client.rs:37-77 | The reading loop takes exactly the items up to the one that decides, and queues the notifications among them. |
| `Client.Client.NextNotification` | crates/vt-ipc/src/client.rs:91-102 | It hands out the oldest queued notification, and reads the wire only when none is queued. |
| `EndToEnd.WireKeepsTopics` | crates/vt-ipc/src/server.rs:153-200 | What a client reads of a topic is, in order, what was queued of it. |
| `EndToEnd.ClientGetsPrefix` | crates/vt-ipc/src/client.rs:37-102 | However calls and requests for a notification are mixed, what the client hands out of a topic is a prefix of what was queued to its connection, and all of it once everything is drained and handed out. |
| `EndToEnd.ViewerGetsPrefix` | crates/vt-ipc/src/server.rs:153-200 | From a subscription on, under every interleaving of publications, other traffic, drains, hang-ups, calls and requests for a notification, the deltas handed to the viewer are a prefix of those published, and all of them once nothing is under way. |
| `EndToEnd.ViewerShowsASnapshot` | crates/vt-ffi/src/viewer.rs:137-159 | Through server, wire and client together: with no flush between snapshot and subscription the viewer at every moment shows a snapshot the session had, with cursor, position and number. |
| `EndToEnd.ViewerCatchesUp` | crates/vt-ffi/src/viewer.rs:137-159 | And once nothing is under way nor left to flush, it shows the session as it is now. |
| `WebSocket.ParseEncoded` | crates/vt-agent/src/ws.rs:166-195 | A frame laid out as in section 5.2 of RFC 6455 is read back whole, for all three length forms, masked or not, and nothing after it is touched. |
| `WebSocket.FrameLayout` | crates/vt-agent/src/ws.rs:229-257 | Byte by byte (section 5.2): the final bit and the opcode, the mask bit, the length in as few bytes as it takes and big-endian, the key, and each byte of the payload against byte i modulo 4 of it. |
| `WebSocket.PrefixIsNoFrame` | crates/vt-agent/src/ws.rs:166-195 | Anything short of a whole frame is none: an end within two bytes, truncated later. |
| `WebSocket.MaskedTwice` | crates/vt-agent/src/ws.rs:192-196 | Unmasking with the same key gives the payload back (section 5.3). |
| `Bytes.XorIsBitwise` | crates/vt-agent/src/ws.rs:192-196 | What masking does to a byte: a bit is set exactly when the two differ. |
| `WebSocket.BigEndianRoundTrip` | crates/vt-agent/src/ws.rs:175-182 | A length that fits is read back from its big-endian bytes. |
| `WebSocket.WrittenTextIsReceived` | crates/vt-agent/src/ws.rs:229-263 | What a written text frame adds to the stream is received as its payload, and nothing is answered. |
| `WebSocket.FragmentsReassemble` | crates/vt-agent/src/ws.rs:164-216 | However a message is split into fragments, with pings and ignored frames between, its concatenation is received (section 5.4) and what follows stays unread. |
| `WebSocket.OnePongEach` | crates/vt-agent/src/ws.rs:204-208 | What answering adds to the outgoing stream reads as one pong for each ping, with its payload, in order. |
| `WebSocket.CloseIsAnswered` | crates/vt-agent/src/ws.rs:209-213 | A close frame ends the conversation and is answered by a close frame. |
| `WebSocket.BreaksOff` | crates/vt-agent/src/ws.rs:164-216 | A conversation that breaks off between frames ends, one that breaks off within a frame fails; the pings before are answered and nothing is received. |
| `WebSocket.Writer.NextMask` | crates/vt-agent/src/ws.rs:220-227 | The three shifts in place are one step of the generator. |
| `WebSocket.Writer.WriteFrame` | crates/vt-agent/src/ws.rs:229-257 | Building the head piece by piece and masking the payload appends exactly one encoded frame. |
| `WebSocket.Socket.ReadFrame` | crates/vt-agent/src/ws.rs:166-197 | Reading byte by byte finds the same frame, truncation or end as parsing the whole input. |
| `WebSocket.Socket.RecvText` | crates/vt-agent/src/ws.rs:164-216 | The loop over frames returns the specified message and leaves the specified input and writer. |
| `Detector.ChunksDoNotMatter` | crates/vt-agent/src/generic.rs:212-240 | For any splitting of a byte stream the final modes, the carry and the concatenated reports are those of one call on the whole stream; the carry never exceeds 12 bytes. |
| `Detector.FedIsReading` | crates/vt-agent/src/generic.rs:212-240 | They are what one reads off the stream position by position, with no carry at all. |
| `Detector.ModesAreTheLastSaid` | crates/vt-agent/src/generic.rs:150-180 | However a stream is cut, each mode is on at its end exactly when a control sequence that turns it on stands somewhere in it and none that turns it off stands after. |
| `Detector.SequencesMean` | crates/vt-agent/src/generic.rs:150-189 | What each of the eight sequences does where it stands: its own mode and no other, with its own report exactly if that changed it. |
| `Detector.ChunkContinues` | crates/vt-agent/src/generic.rs:212-240 | The next chunk continues the reading although it scans the whole carry again. |
| `Detector.RescanIsIdempotent` | crates/vt-agent/src/generic.rs:182-189 | Applying the sequence at the start of the carry a second time changes and reports nothing. |
| `Detector.CarryOfCarry` | crates/vt-agent/src/generic.rs:234-238 | The carry of a chunk behind the carry of the stream is the carry of the longer stream. |
| `Detector.MatchStays` | crates/vt-agent/src/generic.rs:155-180 | A match stays the same match whatever follows: no sequence of the table begins with another. |
| `Detector.MatchIsLocal` | crates/vt-agent/src/generic.rs:155-180 | Past eight bytes or a second escape no further input changes what matches. |
| `Detector.Detector.Set` | crates/vt-agent/src/generic.rs:182-189 | A flag is set, and reported exactly when that changed it. |
| `Detector.Detector.Match` | crates/vt-agent/src/generic.rs:212-228 | The search of the table applies the first sequence the input starts with, if any, and reports what that changed. |
| `Detector.Detector.OnOutput` | crates/vt-agent/src/generic.rs:212-240 | The index loop, which skips matched sequences, computes the specified modes, reports and carry. |
| `Osc.ScanConcat` | crates/vt-core/src/osc.rs:67-112 | Scanning a concatenation is scanning the parts in turn, offsets counted on. |
| `Osc.ChunksDoNotMatter` | crates/vt-core/src/osc.rs:67-112 | Any cutting of a stream gives the same marks at the same offsets. |
| `Osc.PayloadIsBounded` | crates/vt-core/src/osc.rs:84-91 | The payload never exceeds 64 KiB. |
| `Osc.ControlStringIsScanned` | crates/vt-core/src/osc.rs:67-121 | A control string with either terminator gives the mark its payload parses to, just past the terminator, exactly when the payload fits 64 KiB. |
| `Osc.CommandRoundTrip` | crates/vt-core/src/osc.rs:167-216 | Any ASCII command, escaped and sent as 633;E with either terminator, is scanned back as that command, and any nonce without a terminator with it, exactly when the payload fits 64 KiB and the nonce is not empty and has neither semicolon nor backslash. |
| `Osc.EmptyNonceIsMisread` | crates/vt-core/src/osc.rs:179-185 | An empty nonce is read as a semicolon at the end of the command. |
| `Osc.CommandOfTail` | crates/vt-core/src/osc.rs:167-190 | What the tail of 633;E is read as, for every nonce: its last field is the nonce if it is not empty and has no backslash, and the rest, or all of it, becomes part of the command. |
| `Osc.ExitRoundTrip` | crates/vt-core/src/osc.rs:148-160 | A decimal exit status is read back, exactly when it fits 32 bits, from 133;D and 633;D alike. |
| `Osc.CodesMean` | crates/vt-core/src/osc.rs:146-195 | Which code of either kind is which mark, whatever follows it; which have parameters, and what is malformed. |
| `Osc.OtherKindsAreNothing` | crates/vt-core/src/osc.rs:124-136 | Any other kind of control string gives no mark. |
| `Osc.StatusIsRead` | crates/vt-core/src/osc.rs:148-160 | A status may have a sign, leading zeros and blanks around it and fields behind it, and counts within 32 bits. |
| `Osc.OnlyNumeralsAreRead` | crates/vt-core/src/osc.rs:148-160 | Anything else is no status. |
| `Osc.PromptRoundTrip` | crates/vt-core/src/osc.rs:138-155 | The key and value pairs of a prompt mark are read back, in order. |
| `Osc.BareParameters` | crates/vt-core/src/osc.rs:138-146 | A parameter without a value has an empty one; empty parameters are dropped. |
| `Osc.Unescape` | crates/vt-core/src/osc.rs:197-216 | The index loop undoes the escapes as specified. |
| `Osc.EscapesAre` | crates/vt-core/src/osc.rs:197-216 | The two characters of an escape are hexadecimal digits in either case, or a plus and one. |
| `Osc.PlainTextStays` | crates/vt-core/src/osc.rs:197-216 | Text without a backslash before an x stays as it is. |
| `Osc.Scanner.Scan` | crates/vt-core/src/osc.rs:67-112 | The loop over a chunk moves the state machine on and returns its marks. |
| `Segmenter.BlocksAreInOrder` | crates/vt-blocks/src/segment.rs:61-168 | With rows that never decrease, every closed marked block starts no later than it ends, its output row in between, and the next one starts no earlier than the one before ended. |
| `Segmenter.BlocksTellTheMarks` | crates/vt-blocks/src/segment.rs:61-150 | Which marks close a block, and what is in it, told from the marks alone: the command line reported within or before, the rows of its opening, its output and its end, its exit status and how long it ran; of a prompt, or a command a prompt cut short, the rows. |
| `Segmenter.WaitsBetweenPromptAndExecution` | crates/vt-blocks/src/segment.rs:174-183 | The shell waits at its prompt exactly while a prompt is open, or a command that has not begun to run. |
| `Segmenter.CorruptedAtTheThird` | crates/vt-blocks/src/segment.rs:217-228 | Corruption is reported exactly at the third mark out of order, where out of order is told from the marks alone: malformed, or an execution or end with no command open. |
| `Segmenter.CountedExactlyUnlessItCloses` | crates/vt-blocks/src/segment.rs:3-10 | What is counted is exactly what is documented as disorder, except a prompt while a command is open and an end of one that has not begun to run: either closes the command and is not counted. |
| `Segmenter.PromptClosesCommand` | crates/vt-blocks/src/segment.rs:76-88 | A second A in the middle of a command closes it and is not counted. |
| `Segmenter.EndClosesUnexecutedCommand` | crates/vt-blocks/src/segment.rs:126-146 | A D right after a B, with no C, closes the command and is not counted. |
| `Segmenter.SilentOnceCorrupted` | crates/vt-blocks/src/segment.rs:61-64 | It is reported once, and nothing is handed over afterwards. |
| `Segmenter.Segmenter.OnMark` | crates/vt-blocks/src/segment.rs:61-150 | The match over marks performs the specified transition and returns the specified block or corruption, its wording included. |
| `Segmenter.Segmenter.OnOutput` | crates/vt-blocks/src/segment.rs:185-197 | A background block is guessed exactly when the shell waits at its prompt and a new row was reached. |
| `Providers.AtMostOneCallDelivers` | crates/vtermd/src/ai.rs:468-511 | In every run of a chain, whatever breakers and providers do, at most one call delivers chunks, and it is the last call made. |
| `Providers.OnlyTheLastCallDelivers` | crates/vt-ai/src/resilience.rs:126-162 | On one provider only the last call delivers, there are at most max(1, max_attempts) calls, and a failure after a delivery is given up. |
| `Providers.RetriesWhileTransient` | crates/vt-ai/src/resilience.rs:58-162 | Calls are repeated exactly while they deliver nothing, fail for a moment and the policy allows another; the last failure leads to a fallback exactly when nothing was delivered and it was a 429 or the last attempt at a passing failure, and is given up otherwise. |
| `Providers.CallsAreBounded` | crates/vtermd/src/ai.rs:468-511 | Each time a profile is tried it is called at most max(1, max_attempts) times. |
| `Providers.SettledChainEnds` | crates/vtermd/src/ai.rs:468-511 | When the fallback links settle, the chain ends and tries no profile twice, whatever the breakers do meanwhile. |
| `Providers.EndsExactlyWhenSettled` | crates/vtermd/src/ai.rs:468-511 | A chain is sure to end exactly when following the fallback links reaches, within as many links as there are profiles, a profile without a fallback, with itself for one, or a name that is no profile. |
| `Providers.NoneTwiceExactlyWhenSettled` | crates/vtermd/src/ai.rs:468-511 | A chain is sure to try no profile twice exactly when its fallback links settle in that sense. |
| `Providers.UnluckyChainGoesOn` | crates/vtermd/src/ai.rs:190-222 | Otherwise, with everyone else cooling and one profile failing, that profile is called again and again, once a round, for any number of rounds. |
| `Providers.TwoProfilesDoNotSettle` | crates/vtermd/src/ai.rs:190-222 | Two profiles that are each other's fallback are enough. |
| `Providers.PickDescends` | crates/vtermd/src/ai.rs:190-222 | A profile is picked from what is left of the chain. |
| `Providers.PickWalks` | crates/vtermd/src/ai.rs:190-222 | The profile picked is the first along the fallback links that is not cooling, and none exactly when everyone is, up to where the links end or come back. |
| `Providers.RoundSays` | crates/vtermd/src/ai.rs:468-511 | One round told by its calls: who is tried, every call logged with what it delivered, and how it goes on: an answer, the next profile, the last error, or a refusal with nothing called. |
| `Providers.BackoffGrows` | crates/vt-ai/src/resilience.rs:46-55 | Whatever the jitter, each of the first six waits is longer than the last. |
| `Providers.BackoffWithin` | crates/vt-ai/src/resilience.rs:46-55 | A wait is the base doubled with each attempt, six times at most, and up to half the base more. |
| `Providers.JitterFollowsClock` | crates/vt-ai/src/resilience.rs:46-55 | What is more follows the clock, round and round below half the base. |
| `Providers.StreamWithRetry` | crates/vt-ai/src/resilience.rs:126-162 | The retry loop makes the specified calls and returns the specified verdict. |
| `Providers.PickProfile` | crates/vtermd/src/ai.rs:190-222 | The walk over cooling profiles, with its list of names seen, picks as specified. |
| `Providers.RunStream` | crates/vtermd/src/ai.rs:444-465 | Only a 429 opens the breaker, for the cooldown from now, and only a fallback verdict names the next profile. |
| `Providers.RunChain` | crates/vtermd/src/ai.rs:468-511 | The loop, cut off after a number of rounds, reaches the specified state of the chain. |
| `Providers.Breakers.Cooling` | crates/vt-ai/src/resilience.rs:98-107 | The time left, or none; an expired breaker is forgotten. |
| `Policy.FloorIsNeverApproved` | crates/vt-policy/src/rules.rs:343-351 | Under every policy a request is on the floor exactly when its adapter only guesses, its command does not parse, or some finding, anywhere in the list, is unparseable, obfuscated or reads credentials, destroys outside the worktree or reaches a protected branch; then it is never approved, and denied exactly when its class is blocked. |
| `Policy.FloorIsAllThatIsNeverApproved` | crates/vt-policy/src/rules.rs:318-389 | And only the floor keeps every policy from approving: off it some policy approves the request, for real. |
| `Policy.ReasonIsNamed` | crates/vt-policy/src/floor.rs:69-110 | The reason reported is the adapter before the parse error before the first finding on the floor, by its class and token. |
| `Policy.FloorReasonIsWorst` | crates/vt-policy/src/floor.rs:69-110 | A verdict is off the floor exactly when the adapter is real, the command parsed and no finding is on the floor, told by class and flag; a reason from findings names the class and token of a worst one among all on the floor. |
| `Policy.ApprovedExactlyWhen` | crates/vt-policy/src/rules.rs:318-389 | What is approved and applied, as an exact condition on switches, floor, safety class and the first matching rule. |
| `Policy.FirstMatchDecides` | crates/vt-policy/src/rules.rs:357-389 | Off the floor the first rule that matches decides under its own name, an approval of a blocked class turning into a denial; without a match the request is asked about, and nothing is applied unless autonomy is on and not a dry run. |
| `Policy.FieldsMatchAlone` | crates/vt-policy/src/rules.rs:357-385 | Every field of a matcher counts for itself: absent it matches anything, and otherwise exactly what it names. |
| `Policy.Check` | crates/vt-policy/src/floor.rs:69-110 | The loop over findings returns the first reason. |
| `Policy.Validate` | crates/vt-policy/src/rules.rs:259-275 | A policy is accepted exactly when reading credentials, obfuscation and the unparseable are not allowed and every pattern compiles, and the error names an actual offence. |
| `Policy.Evaluate` | crates/vt-policy/src/rules.rs:318-389 | The first-match loop computes the specified outcome. |
| `Workspace.NarrowedApprovesExactlyWhen` | crates/vt-policy/src/workspace.rs:83-105 | The narrowed policy approves exactly what the global one approves, the repository has switched on, does not block, and catches with no restrictive rule. |
| `Workspace.NarrowingNeverApprovesMore` | crates/vt-policy/src/workspace.rs:20-105 | So it never approves more, keeps every class at least as strict, keeps the never-allow classes of a valid global policy, and switches nothing on. |
| `Workspace.NarrowingIsValid` | crates/vt-policy/src/workspace.rs:20-105 | Narrowing a valid policy by one whose patterns compile gives a valid policy. |
| `Workspace.LaxerExactlyWhenAskBeforeDeny` | crates/vt-policy/src/workspace.rs:91-104 | A decision is laxer than the global one exactly when the global policy denies by a rule and the first restrictive rule of the repository that matches says ask. |
| `Workspace.ProvidersIntersectUnlessDisjoint` | crates/vt-policy/src/workspace.rs:117-128 | Provider lists intersect, and never widen, exactly unless both are non-empty with nothing in common; then every provider is permitted. |
| `Workspace.EgressIntersects` | crates/vt-policy/src/workspace.rs:107-143 | Mode, size cap and exclusions are the intersection. |
| `Workspace.NarrowerModeIsKept` | crates/vt-policy/src/workspace.rs:107-116 | Of two egress modes the narrower is kept, whichever policy has it. |
| `Workspace.Narrow` | crates/vt-policy/src/workspace.rs:20-30 | The narrowing is as specified, and there is a warning for exactly what was looser and ignored. |
| `Workspace.NarrowSafety` | crates/vt-policy/src/workspace.rs:32-81 | Each class gets the stricter decision; protected branches are united. |
| `Workspace.StricterIs` | crates/vt-policy/src/workspace.rs:32-81 | Of two settings the one further along allow, warn, confirm, block is taken, whichever policy has it. |
| `Workspace.NarrowAutonomy` | crates/vt-policy/src/workspace.rs:83-105 | Switches are combined, approving repository rules dropped, each with a warning, the others put first. |
| `Workspace.ReportsAre` | crates/vt-policy/src/workspace.rs:83-105 | There is a warning for exactly the repository rules that approve. |
| `Workspace.NarrowEgress` | crates/vt-policy/src/workspace.rs:107-143 | Field by field, the specified egress section. |
| `CodexThreads.ThreadsArePartitioned` | crates/vtermd/src/codex.rs:120-163 | In every run, with retries from other threads, subscribed and pending stay duplicate-free and apart, and every thread ever noted is in exactly one of them. |
| `CodexThreads.OneResumeInFlight` | crates/vtermd/src/codex.rs:135-144 | At most one resume is in flight for a thread, none for a subscribed one, and a thread with none waits for a retry or could not be sent to. |
| `CodexThreads.SubscribedExactlyByConsent` | crates/vtermd/src/codex.rs:147-163 | In every run a thread is subscribed exactly when the server has accepted a request for it that was in flight. |
| `CodexThreads.AnswerSettles` | crates/vtermd/src/codex.rs:147-163 | An accepted request subscribes its thread; a refused one leaves it pending with no request, unsubscribed, and one more retry to come; nothing else changes. |
| `CodexThreads.StrayAnswer` | crates/vtermd/src/codex.rs:147-163 | An answer to nobody's request changes nothing. |
| `CodexThreads.RunRecords` | crates/vtermd/src/codex.rs:135-144 | In every run ids of requests only grow, what is in flight was sent, and a thread whose request could not be sent waits without one. |
| `CodexThreads.RetriesFollowRefusals` | crates/vtermd/src/codex.rs:147-185 | Every refusal brings one retry, and nothing else does: retries made and still to come are the refusals so far. |
| `CodexThreads.SubscribedIsNeverResumed` | crates/vtermd/src/codex.rs:128-163 | A subscribed thread stays subscribed and is never sent another resume. |
| `CodexThreads.EveryoneIsAsked` | crates/vtermd/src/codex.rs:135-163 | After every message and every retry, whatever sends failed before, each thread known by then is subscribed or has a resume in flight, exactly unless it was neither before and its send fails now. |
| `CodexThreads.StepKeeps` | crates/vtermd/src/codex.rs:235-261 | Every step under the lock keeps the invariant and forgets no thread. |
| `CodexThreads.Threads.Note` | crates/vtermd/src/codex.rs:128-132 | A new thread becomes pending, a known one stays where it is. |
| `CodexThreads.Threads.ResumePending` | crates/vtermd/src/codex.rs:135-144 | The pass sends to exactly the pending threads without a request, in any order, with any sends failing. |
| `CodexThreads.Threads.OnResponse` | crates/vtermd/src/codex.rs:147-163 | The thread whose request is answered is subscribed, or made pending again and handed back for a retry. |
| `CodexThreads.Threads.OnMessage` | crates/vtermd/src/codex.rs:235-261 | One turn of the reading loop is one step of the state machine. |
| `Redact.ReplaceSpans` | crates/vt-redact/src/pipeline.rs:87-103 | Replacing ordered spans in place from the right gives the text around them with a placeholder between the pieces: simultaneous replacement, all other text unchanged. |
| `Redact.PiecesAre` | crates/vt-redact/src/pipeline.rs:87-103 | What is kept is the text between one span and the next. |
| `Redact.OneRule` | crates/vt-redact/src/pipeline.rs:75-104 | Each rule leaves its own name in place of what it found in the text the rules before it left. |
| `Redact.ReplaceOne` | crates/vt-redact/src/pipeline.rs:98-103 | One replacement moves nothing to its left. |
| `Redact.WordsAreRedacted` | crates/vt-redact/src/pipeline.rs:152-179 | Line for line and word for word, the redacted text consists of the redacted words: every separator is kept. |
| `Redact.NothingRandomIsLeft` | crates/vt-redact/src/pipeline.rs:152-179 | No word of the redacted text looks random, whatever the entropy estimate. |
| `Redact.PlainTextIsKept` | crates/vt-redact/src/pipeline.rs:152-179 | A text with no random word is left as it is. |
| `Redact.RandomExactlyWhen` | crates/vt-redact/src/pipeline.rs:111-149 | A word looks random exactly when, the punctuation around it aside, it has 32 characters or more, is no link or path, has only letters, digits and six signs, lacks at most one of the four kinds, has at most three slashes, and is dense. |
| `Redact.RedactedWordIs` | crates/vt-redact/src/pipeline.rs:164-176 | A random word is redacted between its punctuation, which stays. |
| `Redact.CountIsOfRandomWords` | crates/vt-redact/src/pipeline.rs:152-179 | The count returned is that of the random words of the text, each as often as it stands there. |
| `Redact.RedactionIsIdempotent` | crates/vt-redact/src/pipeline.rs:152-179 | A second pass changes nothing. |
| `Redact.CoreIsFoundAfterLead` | crates/vt-redact/src/pipeline.rs:165-168 | The first occurrence of a word's core is the core itself, so the punctuation around it is what is kept. |
| `Redact.LooksRandom` | crates/vt-redact/src/pipeline.rs:117-149 | The loop of flags and counts decides the specified shape. |
| `Redact.RedactWord` | crates/vt-redact/src/pipeline.rs:164-176 | The core of a random word gives way to the placeholder; any other word stays. |
| `Redact.RedactLine` | crates/vt-redact/src/pipeline.rs:159-177 | Words are joined by single spaces as they were, and the random ones counted. |
| `Redact.RedactEntropy` | crates/vt-redact/src/pipeline.rs:152-179 | The nested loops build the specified text and count. |
| `Redact.Apply` | crates/vt-redact/src/pipeline.rs:62-109 | A pipeline that is late for a rule returns nothing; otherwise all rules and then the entropy layer were applied, and the count is that of the spans found and the random words replaced. |
| `Keymap.RoundTrip` | crates/vt-config/src/keymap.rs:70-151 | Every chord that can be read is written so that it reads back the same. |
| `Keymap.SpellingIsCanonical` | crates/vt-config/src/keymap.rs:70-151 | The canonical spelling of any chord read from any text reads as the same chord. |
| `Keymap.SpellingIsInjective` | crates/vt-config/src/keymap.rs:129-151 | No two readable chords share a spelling. |
| `Keymap.ReadingIsReadable` | crates/vt-config/src/keymap.rs:70-125 | What reading can produce: one key that is no space, plus or upper-case letter, or a named key. |
| `Keymap.ReadingSays` | crates/vt-config/src/keymap.rs:70-125 | For any text that is read: the prefix, each modifier exactly if some part names it in any case under any of its names, shift also for an upper-case letter, and the key that the last part names. |
| `Keymap.ReadingFails` | crates/vt-config/src/keymap.rs:70-125 | Reading fails exactly on nothing, on a part that is no modifier, the first such reported, or on a last part that is no key. |
| `Keymap.NamedKeysAre` | crates/vt-config/src/keymap.rs:40-67 | The keys there are names for. |
| `Keymap.SpellingsAreChords` | crates/vt-config/src/keymap.rs:387-417 | The map keyed by spelling is the map keyed by chord, spelled out: no chord hides another. |
| `Keymap.LastWriterWins` | crates/vt-config/src/keymap.rs:393-399 | A chord is bound by the last entry that reads as it. |
| `Keymap.FileOverridesDefaults` | crates/vt-config/src/keymap.rs:411-417 | A chord the file binds to an existing action belongs to the file; every other chord keeps its default. |
| `Keymap.ProfileDecides` | crates/vt-config/src/keymap.rs:387-410 | Each profile has its own table; with both, a chord in the second is bound as that says. |
| `Keymap.FileIsBoundOrReported` | crates/vt-config/src/keymap.rs:411-417 | Every entry of the file is either bound or reported, in order, an unknown action before a chord that cannot be read. |
| `Keymap.ConflictsAreChords` | crates/vt-config/src/keymap.rs:418-430 | An action has several spellings in the table exactly when two different chords are bound to it. |
| `Keymap.ParseChord` | crates/vt-config/src/keymap.rs:70-125 | The loop over modifiers and the key rules read as specified. |
| `Keymap.ToText` | crates/vt-config/src/keymap.rs:129-151 | The pushed parts joined are the canonical spelling. |
| `Keymap.Resolver.Resolve` | crates/vt-config/src/keymap.rs:387-418 | Defaults of the active profile, then the file in the order of its keys; the errors in the same order; the prefix in canonical spelling or ctrl+b. |
| `Keymap.Conflicts` | crates/vt-config/src/keymap.rs:418-430 | Grouping the bindings by action finds exactly the actions with more than one spelling, with all of their spellings. |

## Left out

- Sockets, pseudo-terminals, HTTP, the keychain and the C interface: streams are sequences, and what a read, a send or a provider does is an input.
- Waking of waiting threads and all liveness that depends on scheduling: `Approvals.DecidedEndsAnswered` says what holds once no step is left, `Approvals.CanComeToRest` that this can be reached, not that it is.
- Clocks and sleeps: times are inputs that do not go back; that the source's clocks behave so is assumed.
- Shared references to approvals: a handle is an index into the list of all approvals ever asked for, and object identity is that index.
- Agents.Agents.Decide: runs its five critical sections one after the other; interleavings with other threads are covered by the state machine, not by the method.
- Batches of events: which approval of a batch is held is an input of `Agents.Agents.Ask`.
- Agents.Agents.Tick: leaves out the grace period after which a session without events is reported, a separate loop of the same function.
- The session's flush loop and the terminal core enter by their contracts: damage covers every changed row, a change of size comes with full damage.
- JSON, TOML, regular expressions and UTF-8 decoding: values are opaque, a request or a rule comes with the matches it has, and a payload's text is its bytes. Slicing text at a byte that is no character boundary is not modelled.
- EndToEnd.ViewerGetsPrefix: takes the writing and reading of lines as an input that is faithful, and one connection that stays subscribed to one session.
- Client.Client.Call: a response with neither result nor error is the text of a JSON null.
- WebSocket.Socket.RecvText: gives the message's bytes; the lossy decoding to text, the opening handshake, writes that fail and lengths larger than memory are left out.
- Providers.RunChain: stops after a number of rounds given by the caller, since the loop of the source need not end; the file of profiles is taken to stay the same for one chain, as are the policy and the route.
- Providers.BackoffGrows: leaves out that durations saturate at the largest one.
- Redact.LooksRandom: takes the entropy estimate as a predicate on the trimmed word; the rules' spans are taken to be in order and apart, as matches of one expression are.
- Redact.Apply: models lateness by rule, and leaves out panics caught at the boundary.
- Keymap.Resolver.Resolve: takes the tables of defaults and actions as inputs; what it reports of conflicts is `Keymap.Conflicts`, whose wording and order are left out.
- CodexThreads.Threads.OnMessage: leaves out what a message means beyond the threads it names and the request it answers, and the end of the connection.
- The rule functions that suggest corrections, the shell parser and the checks behind verdicts, vendor event translation, configuration tables, themes, storage and the user interface: long tables or code of one branch each.
- Floating point: costs, contrast and entropy.

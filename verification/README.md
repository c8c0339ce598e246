# Verified models of Mallow's core

Mallow is an algorithmic-trading platform: an API gateway in Go, a trading runtime (helm), a signal engine
(herald, in Rust) and a desktop client (fathom). This project models the parts of it whose correctness is
hardest to see from the code, in Dafny, and proves what they are for. `dafny verify dfyconfig.toml` verifies
everything.

What is proved, component by component:

- **WebSocket fan-out** (`WsPipeline`, `WsDelivered`, `WsResume`, `WsSafeResume`, `WsChannels`, `WsTokens`,
  `WsConsumers`, `WsSubscriptions`, `WsSubjects`, `WsAnswers`, `WsConn`, `WsFrame`). A connection is a step
  relation over its bounded queue, the writer's hand, the goroutines blocked on the queue and the closing of the
  connection. Every run delivers each account subscription without gap, repeat or reorder, and never gets stuck. On
  top of that law, reconnecting by sequence number is shown lossless under an exact condition, for any number of
  reconnects, with each connection being a whole run of the step relation. Control messages keep the live
  subscriptions equal to the held ones.
- **Edit distance** (`EditDistance`, `Completion`, `StableSort`). The in-place table is the length of a shortest
  edit script, including the shortcut on equal characters, and a metric; the completion list follows.
- **`.mallow` files** (`MallowFile`, `MallowReading`, `MallowRoundTrip`, `MallowLaws`, `Text`, `Numbers`,
  `NumberLiterals`, `Decimal`). What a text says line by line, and both round trips, each with the exact condition
  under which it holds.
- **Rate limiter** (`RateLimit`). What it admits over whole runs, and exactly when that agrees with the fixed
  window its documentation describes.
- **JWKS cache** (`JwksKeys`, `JwksProtocol`). Double-checked refreshing under two locks, over all interleavings.
- **Chart history** (`ChartSeries`, `ChartHistory`, `ChartRuns`, `ChartSeam`). Live ticks against paged loading back.
- **Herald synchronisation** (`HeraldSync`, `HeraldCalls`, `HeraldLink`). What a heartbeat converges to, with
  failing calls.
- **Fleet registry** (`FleetRegistry`, `FleetHistory`), **metrics** (`Metrics`, `MetricLabels`), **retries** (`Retry`,
  `RetryDelays`).

What a function of the model computes is stated a second time wherever it could be wrong unnoticed: frames, answers,
subjects, keys, kept lines, suggestions and delays are described by laws that do not mention the function itself.

Code that updates state in place is modelled by classes and methods. Each is proved against functions on values;
most objects carry the run that has led to them as a ghost field, so that their methods promise the laws of whole
runs and not just one update.

Where the code and its documentation disagree the model follows the code:

- The rate limiter is documented as a fixed window; it renews the expiry on every request, so it counts bursts
  (`RateLimit.AgreesWithFixedWindow`, `RateLimit.SteadyClientIsRefused`).
- `resume` is documented as lossless replay; with several owned ids in one channel, resuming at the last frame's
  number is not (`WsResume.TwoIdsCanLose`). Resuming at any number up to which nothing was missed is
  (`WsResume.ResumeIsExact`); `WsSafeResume.SafeToResume` says which numbers a client can know to be such. The smallest
  last number over the ids is one as soon as every id has a number. While one has none, that policy starts afresh and
  loses what lies between the connections (`WsResume.SmallestIsEnough`).
  An account payload that is not valid JSON cannot be put in an envelope and is skipped without an error.
- The envelope key is documented as the helm or account id; for the `.>` channels it is the last token of a longer
  subject (`WsChannels.KeyIsId`, `WsChannels.TradeKeyIsHand`).
- Bars subscriptions are documented never to collide; timeframes with a colon make them
  (`WsSubscriptions.KeysCollide`, `WsSubjects.AcknowledgedNotMade`).
- The heartbeat is documented as the safety net for lost registrations; it compares hands, not symbols, so a hand
  registered under some of its symbols only is never completed (`HeraldSync.PartialIsNotHealed`).
- Loading back asks for bars up to one millisecond before the oldest second and the hosted service compares
  strictly, so a bar in that last millisecond is never fetched (`ChartHistory.LastMillisecondIsLost`).
- A short page is documented as the reliable sign that the hosted history is exhausted; a page cut short by the start
  of the live window is one too (`ChartSeam.SeamEndsLoading`, `ChartSeam.HostedLoadsWholeHistory`).

## Model

| member | source | states |
|---|---|---|
| `WsPipeline.Delivery` | api-gateway/internal/ws/conn.go:297-405 | at every point of every run, the frames of an account subscription that are written, in the writer's hand, queued and waiting, in that order, are exactly its in-scope messages: no gap, repeat or reorder; the client has a prefix of them |
| `WsPipeline.NothingLost` | api-gateway/internal/ws/conn.go:336-405 | the same conservation for every source but the market ones, so for control replies too |
| `WsPipeline.OnlyMarketDropped` | api-gateway/internal/ws/conn.go:338-347 | in every run only market frames are given up, and the queue never exceeds 256 |
| `WsPipeline.MarketInOrder` | api-gateway/internal/ws/conn.go:338-347 | a market subscription's surviving frames are a subsequence of what it offered, and what it offered is, frame by frame, what is on its way and what was dropped |
| `WsPipeline.NeverStuck` | api-gateway/internal/ws/conn.go:357-405 | while any frame is undelivered on an open connection some step that brings frames closer to the client can be taken, and it shrinks the outstanding work |
| `WsPipeline.DrainedMeansDelivered` | api-gateway/internal/ws/conn.go:297-405 | once nothing is outstanding the client has every in-scope message handed to the callback |
| `WsDelivered.WrittenCarry` | api-gateway/internal/ws/conn.go:297-334 | over every run, the i-th frame written for an account subscription is an envelope with its channel, what follows the last dot of the subject, the sequence number and the payload of the i-th message its callback was handed that the user may see; once nothing is outstanding there is one for each |
| `WsDelivered.RepliesInOrder` | api-gateway/internal/ws/conn.go:349-375 | over every run, the replies written are the first of those the read loop made, in order, and all of them once nothing is outstanding |
| `WsDelivered.OnlyWhenFull` | api-gateway/internal/ws/conn.go:338-375 | a frame is given up, or a goroutine kept waiting, only by a step from a queue of 256 |
| `WsDelivered.DroppedIsOverflow` | api-gateway/internal/ws/conn.go:338-347 | over every run, what is dropped is exactly the bars that arrived while the queue held 256 frames, in order |
| `WsDelivered.FirstInFirstOut` | api-gateway/internal/ws/conn.go:338-405 | as long as the queue has room before every step, what is written, in hand and queued is, in order of arrival over all sources, one frame for each bar, visible message and reply |
| `WsDelivered.ClosedForCause` | api-gateway/internal/ws/conn.go:357-394 | a connection is closed for slowness only while a goroutine waits with a frame that arrived at a queue of 256, and for a failed write only with a frame in hand |
| `WsDelivered.NobodyElseIsHeldUp` | api-gateway/internal/ws/conn.go:338-375 | on an open connection bars always come in, a waiting goroutine holds up its own source and no other, and gets in if and only if there is room |
| `WsPipeline.Pipe.EnqueueMarket` | api-gateway/internal/ws/conn.go:340-347 | with fewer than 256 frames queued the bar is queued last and nothing is dropped; otherwise it is dropped and the line stays; the object's fields remain the result of a run of the step relation |
| `WsPipeline.Pipe.EnqueueAccount` | api-gateway/internal/ws/conn.go:357-374 | the frame is appended to its source's flow, queued if there is room and waiting otherwise, and no other flow changes |
| `WsPipeline.Pipe.EnqueueControl` | api-gateway/internal/ws/conn.go:349-352 | a reply is one more frame of the read loop, behind the ones before it |
| `WsPipeline.Pipe.HandleAccountMsg` | api-gateway/internal/ws/conn.go:297-327 | afterwards all that is on its way for the subscription is exactly what its callback was handed in scope |
| `WsPipeline.Pipe.Take` | api-gateway/internal/ws/conn.go:383-384 | taking a frame leaves the line from client to queue as it is |
| `WsPipeline.Pipe.Write` | api-gateway/internal/ws/conn.go:385-394 | what the client then has of any account subscription is a beginning of its in-scope messages, and nothing already written changes |
| `WsPipeline.Pipe.Close` | api-gateway/internal/ws/conn.go:92-107 | closing, for any of its reasons, disables every further step and keeps what was written |
| `WsPipeline.Pipe.Unblock` | api-gateway/internal/ws/conn.go:365-369 | a waiting goroutine's frame is queued and no source's flow changes |
| `WsChannels.OneOwner` | api-gateway/internal/ws/hub.go:40-64 | a subject is matched by the consumer filter of at most one id without dots, for exact and for `.>` filters |
| `WsChannels.KeyIsId` | api-gateway/internal/ws/conn.go:316-334 | for a subject matched by an id without dots, the envelope key is the id if and only if nothing follows the id, or what follows ends in it |
| `WsChannels.TableKeyIsId` | api-gateway/internal/ws/hub.go:58-64 | the same for every channel of the table |
| `WsChannels.TradeKeyIsHand` | api-gateway/internal/ws/conn.go:316-334 | a trade event, whose subject names helm and hand, is keyed by the hand, so the documented key fails there |
| `WsChannels.ResolveScope` | api-gateway/internal/service/helm.go:68-81 | the loop lists every owned account once, none empty, in order of first appearance, and the non-empty helm ids as they come |
| `WsChannels.HelmIdsMember` | api-gateway/internal/service/helm.go:70-73 | the helm ids are exactly the non-empty ids of the list |
| `WsChannels.HelmIdsDistinct` | api-gateway/internal/service/helm.go:70-73 | they are distinct if and only if the list names no helm twice |
| `WsChannels.HelmIdsInOrder` | api-gateway/internal/service/helm.go:70-73 | they are taken over in the order of the list, one for each helm that has an id |
| `WsChannels.LastTokenIsAfterLastDot` | api-gateway/internal/ws/conn.go:329-334 | the last token ends the subject, has no dot, and stands behind a dot unless it is everything |
| `WsResume.VisitGivesPrefix` | api-gateway/internal/ws/conn.go:240-327 | one connection gives its client, per id, the in-scope sequence numbers after its starting point from the first one on, up to where it was cut off |
| `WsResume.VisitGivesAll` | api-gateway/internal/ws/conn.go:240-327 | a connection whose consumers have handed over all they should, with nothing left on its way, has given its client all there is after its starting point |
| `WsResume.ResumeIsExact` | api-gateway/internal/ws/conn.go:259-270 | a client that knows an id from some origin on and resumes after any s, before or after what it has seen, ends up with all there is, repeats dropped, if and only if nothing in scope up to s was unseen |
| `WsResume.AnyReconnects` | api-gateway/internal/ws/conn.go:240-295 | over any number of connections cut off anywhere, each started afresh or resumed at a number up to which nothing was missed, the client has exactly what was in scope from the origin to its last number; and everything, once the last connection is read to the end |
| `WsResume.SmallestIsEnough` | api-gateway/internal/ws/conn.go:259-270 | whatever the number of ids, a client that resumes at the smallest last number over its ids, starting afresh while one has none, has per id exactly what was in scope from its last fresh start to its last number, for any number of connections cut off anywhere |
| `WsResume.EachMessageOnce` | api-gateway/internal/ws/conn.go:259-293 | with distinct ids without dots, a client that resumes only where nothing was missed has every message once and under one id |
| `WsSafeResume.SafeToResume` | api-gateway/internal/ws/conn.go:259-270 | for a client that knows only what it has seen of distinct ids without dots: resuming at a number is lossless in every stream that fits if and only if, for every id, each number from its last one up to there was seen under some id |
| `WsSafeResume.BridgedIsLossless` | api-gateway/internal/ws/conn.go:259-270 | one direction for a given stream: with all those numbers seen, reading to the end completes every id |
| `WsSafeResume.LosingWorld` | api-gateway/internal/ws/conn.go:259-270 | the other: a number that was not seen can be a message of that id, in a stream that differs there only and fits all that was seen |
| `WsResume.StartIsConsumerStart` | api-gateway/internal/ws/conn.go:262-270 | the start of a consumer in the resume model is the start the subscribe handler gives it |
| `WsResume.DueToOne` | api-gateway/internal/ws/hub.go:40-64 | a sequence number is due to one of distinct dotless ids at most |
| `WsResume.MergeKnown` | api-gateway/internal/ws/conn.go:259-270 | one more connection, cut off anywhere, extends what is known without gap or repeat |
| `WsResume.OneIdIsEnough` | api-gateway/internal/ws/conn.go:259-270 | with one owned id, a client that records the last frame's sequence number has, after any number of connections cut off anywhere, everything in scope from the first connection that gave it anything up to that number |
| `WsResume.TwoIdsCanLose` | api-gateway/internal/ws/conn.go:259-270 | with two ids, resuming at the last frame's number can lose a message for good: a concrete run of two connections |
| `WsResume.ListedTwice` | api-gateway/internal/service/helm.go:70-73 | an id listed twice is subscribed to twice: a resumed client that reads to the end is sent each of its messages on both |
| `WsResume.ScopedAscending` | api-gateway/internal/ws/conn.go:254-293 | the sequence numbers due to an id are strictly ascending |
| `WsSubscriptions.LiveIsHeld` | api-gateway/internal/ws/conn.go:132-295 | after any sequence of control messages, whatever the broker answered, a subscription is live exactly when the connection holds it |
| `WsSubscriptions.RunKeepsInv` | api-gateway/internal/ws/conn.go:132-295 | the closed and forming subscription of every key are live under that key, every account consumer is live, and nothing else is |
| `WsSubscriptions.CloseReleasesAll` | api-gateway/internal/ws/conn.go:92-107 | closing after any sequence of control messages leaves no subscription live |
| `WsSubscriptions.AccountsCreatedOnce` | api-gateway/internal/ws/conn.go:132-151 | the account consumers are those the first `hello` or `subscribe` set out to create and the broker granted, whatever the order and number of later messages |
| `WsConsumers.EveryIdHasItsConsumer` | api-gateway/internal/ws/conn.go:240-295 | from the first starting message on, every owned id of every channel, account ids or helm ids as the channel is keyed, has the consumer the broker granted: the channel's stream, prefix plus id, and the number to resume after |
| `WsConsumers.OnlyOwnedIds` | api-gateway/internal/ws/conn.go:240-295 | and every account consumer held is such a one |
| `WsConsumers.FilterIsMatches` | api-gateway/internal/ws/conn.go:272-275 | a consumer's filter, matched token by token as the broker does, accepts exactly the subjects of its channel and id |
| `WsConsumers.TheFiveChannels` | api-gateway/internal/ws/hub.go:58-64 | the five channels with their streams and filters; fill and portfolio are made for account ids, the others for helm ids |
| `WsSubscriptions.SubscribeAnswer` | api-gateway/internal/ws/conn.go:164-215 | an acknowledged subscribe has both subscriptions of its key live, a refused one has nothing live under its key, a repeated one changes nothing, and no other key is touched |
| `WsSubscriptions.UnsubscribeAnswer` | api-gateway/internal/ws/conn.go:217-232 | after an unsubscribe, known key or not, nothing of that key is live and an acknowledgement is sent |
| `WsAnswers.PlainAnswers` | api-gateway/internal/ws/conn.go:132-151 | ping, unknown operations and subscribing to an account channel change nothing but add one reply each; hello adds one complaint per refused consumer, once |
| `WsAnswers.SubscribeReply` | api-gateway/internal/ws/conn.go:137-215 | every other subscribe gets exactly one reply behind the complaints of an implicit hello: by channel, blank symbol, and whether its bars are live under timeframe:symbol, M1 by default |
| `WsAnswers.SubscribeTouchesNothingElse` | api-gateway/internal/ws/conn.go:164-215 | a subscribe ends no subscription and begins none but its own bars |
| `WsAnswers.UnsubscribeTouchesNothingElse` | api-gateway/internal/ws/conn.go:217-232 | an unsubscribe begins no subscription and ends none but its own bars |
| `WsAnswers.LiveSubjects` | api-gateway/internal/ws/conn.go:180-204 | after any control messages every live bars subscription listens to bars.{tf}.{symbol} or bars.live.{tf}.{symbol} and is framed under {tf}:{symbol} |
| `WsSubscriptions.PlanCovers` | api-gateway/internal/ws/conn.go:254-275 | the plan has one consumer for every channel and owned id, in order, and no other, each with the channel's resume point |
| `WsSubscriptions.AddBarsIs` | api-gateway/internal/ws/conn.go:190-215 | a bars subscription makes both subscriptions or leaves only used-up attempts |
| `WsSubscriptions.KeyInjective` | api-gateway/internal/ws/conn.go:178-180 | keys tell (timeframe, symbol) pairs apart when no timeframe has a colon |
| `WsSubscriptions.KeysCollide` | api-gateway/internal/ws/conn.go:178-180 | two different pairs share a key if and only if one timeframe is the other plus a colon and more, with the symbols shifted by as much |
| `WsSubjects.RunForPairs` | api-gateway/internal/ws/conn.go:164-232 | after any control messages every held key belongs to one pair, and its two live subscriptions listen to that pair's subjects |
| `WsSubjects.HeldForOne` | api-gateway/internal/ws/conn.go:178-215 | a key is held for one pair only |
| `WsSubjects.OwnSubjects` | api-gateway/internal/ws/conn.go:182-215 | an acknowledged subscribe listens to its own subjects if and only if its key was free or held for the same pair |
| `WsSubjects.PlainTimeframes` | api-gateway/internal/ws/conn.go:164-215 | while no timeframe with a colon is asked for, every acknowledged subscribe listens to its own subjects |
| `WsSubjects.AcknowledgedNotMade` | api-gateway/internal/ws/conn.go:178-188 | a concrete run with two acknowledgements, two attempts and no live subscription to the second pair's subjects |
| `WsConn.Conn.HandleControl` | api-gateway/internal/ws/conn.go:132-151 | the dispatch on a control message computes the specified next state |
| `WsConn.Conn.SubscribeBars` | api-gateway/internal/ws/conn.go:164-215 | validation, the existing-key shortcut and the two subscriptions compute the specified next state |
| `WsConn.Conn.UnsubscribeBars` | api-gateway/internal/ws/conn.go:217-232 | both subscriptions of the key are released and an acknowledgement is sent, known key or not |
| `WsConn.Conn.StartAccountSubs` | api-gateway/internal/ws/conn.go:240-295 | the nested loops create one consumer per channel and owned id, on the first call only |
| `WsConn.Conn.Close` | api-gateway/internal/ws/conn.go:92-107 | everything held is released on the first call and nothing happens on later ones |
| `WsConn.Conn.IsAccountChannel` | api-gateway/internal/ws/conn.go:153-160 | the loop finds a channel name exactly when the table has it |
| `WsFrame.RoundTrip` | api-gateway/internal/ws/protocol.go:64-73 | a market frame decodes to what was encoded if and only if its key is shorter than 64 KiB |
| `WsFrame.DecodeEncode` | api-gateway/internal/ws/protocol.go:64-73 | what a client makes of an encoded frame, for keys of any length |
| `WsFrame.Layout` | api-gateway/internal/ws/protocol.go:58-73 | the bytes on the wire: tag, length of the key with the high byte first, key, payload |
| `EditDistance.Compute` | fathom-tde/src/lib/monaco-script.ts:109-122 | the table filled in place ends with the distance in its last cell |
| `EditDistance.FillBorder` | fathom-tde/src/lib/monaco-script.ts:111-113 | first row and first column hold their final values |
| `EditDistance.FillRow` | fathom-tde/src/lib/monaco-script.ts:115-119 | one more row holds its final values and the rows above stay |
| `EditDistance.ShortestScript` | fathom-tde/src/lib/monaco-script.ts:109-122 | the value is the length of a shortest insert/delete/replace script: one of that length exists and none is shorter |
| `EditDistance.NoShorterScript` | fathom-tde/src/lib/monaco-script.ts:114-119 | no script that turns one string into the other is shorter than the value |
| `EditDistance.Traceback` | fathom-tde/src/lib/monaco-script.ts:114-119 | a script of exactly that length exists |
| `EditDistance.Neighbours` | fathom-tde/src/lib/monaco-script.ts:116-118 | cells next to each other differ by at most one, which is why taking only the diagonal on equal characters is optimal |
| `EditDistance.EditIsLipschitz` | fathom-tde/src/lib/monaco-script.ts:114-119 | one edit moves the distance to any string by at most one |
| `EditDistance.DistMetric` | fathom-tde/src/lib/monaco-script.ts:109-122 | zero exactly on equal strings, symmetric, triangle inequality |
| `EditDistance.DistBounds` | fathom-tde/src/lib/monaco-script.ts:109-122 | at least the difference of the lengths |
| `EditDistance.DistAtMostLonger` | fathom-tde/src/lib/monaco-script.ts:109-122 | at most the length of the longer string |
| `Completion.SuggestionsAreClose` | fathom-tde/src/lib/monaco-script.ts:248-262 | only catalogue entries that match the prefix or are within two edits, so an entry that does not match never differs in length by more than two |
| `Completion.SuggestionsAreComplete` | fathom-tde/src/lib/monaco-script.ts:248-262 | every match, and every entry within two edits where the fuzzy search applies, is shown unless the list is full |
| `Completion.NothingCloserIsCut` | fathom-tde/src/lib/monaco-script.ts:250-262 | an entry is cut only from a full list, and nothing shown is farther away: matches first, then by distance |
| `Completion.FuzzyOrder` | fathom-tde/src/lib/monaco-script.ts:253-258 | the fuzzy part runs from closest to farthest, ties in catalogue order |
| `Completion.SuggestionsAre` | fathom-tde/src/lib/monaco-script.ts:248-263 | the list, position by position: the entries that start with the prefix in catalogue order; if fewer than five and two letters are typed, then the others within two edits, closest first and ties in catalogue order; of all that the first five |
| `Completion.SuggestedOnce` | fathom-tde/src/lib/monaco-script.ts:248-263 | from a catalogue without repeats no entry is suggested twice |
| `StableSort.SortByStable` | fathom-tde/src/lib/monaco-script.ts:257-258 | sorting orders the keys and, key by key, keeps exactly the elements and their order |
| `StableSort.SortPlaces` | fathom-tde/src/lib/monaco-script.ts:257-258 | the sorted list is a permutation ordered by key and, where keys are equal, by position |
| `MallowFile.ParseMallowFile` | fathom-tde/src/lib/mallow-file.ts:64-90 | the loop over the lines computes the parse: last valid setting of each key, kept lines in order, script byte for byte |
| `MallowFile.ReadLine` | fathom-tde/src/lib/mallow-file.ts:72-87 | the branch-by-branch dispatch absorbs one line as each setting's reader says, and keeps exactly the lines that set nothing |
| `MallowFile.InterpretSnoc` | fathom-tde/src/lib/mallow-file.ts:71-88 | the value of a setting is that of the last line that sets it |
| `MallowReading.SplitIs` | fathom-tde/src/lib/mallow-file.ts:62-68 | a text is split into block and script exactly as the pattern says: an opening mark, the shortest block before a line break and three dashes, at most one line break, the script |
| `MallowReading.KeptLinesAre` | fathom-tde/src/lib/mallow-file.ts:71-89 | the lines kept of a block are, in order and as often as they occur, those without colon that are not blank and those with a value whose key is none of the seven or whose value its setting does not take |
| `MallowReading.KeptSurvives` | fathom-tde/src/lib/mallow-file.ts:72-87 | the same for one line |
| `MallowReading.SettingsAre` | fathom-tde/src/lib/mallow-file.ts:71-87 | each of the seven settings is what the last line says that gives its key a non-empty value it can be, or absent |
| `MallowReading.ReadModeIs` | fathom-tde/src/lib/mallow-file.ts:26-26 | a size mode is read from exactly its own name |
| `Text.SpacesAre` | fathom-tde/src/lib/mallow-file.ts:75-79 | trimming takes away exactly the white space and line terminators of ECMAScript |
| `MallowReading.NoBlock` | fathom-tde/src/lib/mallow-file.ts:64-66 | any other text is all script |
| `MallowReading.WrittenSettings` | fathom-tde/src/lib/mallow-file.ts:92-100 | the settings are written as key, colon, blank and value in a fixed order, absent and empty ones left out |
| `MallowLaws.PrintParse` | fathom-tde/src/lib/mallow-file.ts:62-104 | printing then parsing returns the same metadata, extra lines and script if and only if the file is faithful: plain values, extra lines the parser keeps, no closing mark among them, and no bare script that looks like a block |
| `MallowLaws.ParsePrintParse` | fathom-tde/src/lib/mallow-file.ts:62-104 | parse-print-parse equals parse if and only if the text is stable, a condition on its own lines and script |
| `MallowLaws.OrdinaryTextIsStable` | fathom-tde/src/lib/mallow-file.ts:62-104 | no line of the block starting with dashes or ending in a carriage return, and no vanishing block above another, is enough |
| `MallowLaws.EditKeepsTheRest` | fathom-tde/src/lib/mallow-file.ts:92-104 | changing or clearing the settings of a file that would come back gives one that comes back if and only if no line of dashes ends up behind a setting and no bare script looks like a block |
| `MallowLaws.ParsedShape` | fathom-tde/src/lib/mallow-file.ts:71-89 | parsed values are non-empty, trimmed and single-line; parsed extra lines are lines the parser keeps |
| `MallowLaws.NoInnerMarker` | fathom-tde/src/lib/mallow-file.ts:62-62 | only the first line of a block can start with three dashes |
| `MallowLaws.CarriageReturnIgnored` | fathom-tde/src/lib/mallow-file.ts:71-87 | a trailing carriage return does not change how a line is read |
| `MallowLaws.UnstableFiles` | fathom-tde/src/lib/mallow-file.ts:62-104 | three concrete files that do not come back |
| `MallowLaws.VanishingBlock` | fathom-tde/src/lib/mallow-file.ts:62-104 | an empty block above a script that is itself a block: parse-print-parse differs from parse |
| `MallowLaws.UnstableText` | fathom-tde/src/lib/mallow-file.ts:62-104 | a concrete such text |
| `MallowRoundTrip.SplitFramed` | fathom-tde/src/lib/mallow-file.ts:62-68 | reading back framed lines gives the lines up to an inner line of dashes, less trailing carriage returns, and the script unless there is one |
| `MallowRoundTrip.SettingsReadBack` | fathom-tde/src/lib/mallow-file.ts:80-100 | reading the printed settings gives the settings |
| `Numbers.ReadPrint` | fathom-tde/src/lib/mallow-file.ts:83-84 | a printed number, negative, fractional or infinite, reads back as itself |
| `Numbers.ShortenKeepsValue` | fathom-tde/src/lib/mallow-file.ts:83-84 | dropping zeros at the end of a fraction keeps the value |
| `NumberLiterals.LiteralMeans` | fathom-tde/src/lib/mallow-file.ts:83-84 | every decimal literal is read as its digits, shifted by point and exponent, with its sign |
| `Decimal.ReadSigns` | fathom-tde/src/lib/mallow-file.ts:83-84 | the exponent of a literal may have either sign |
| `NumberLiterals.OnlyLiterals` | fathom-tde/src/lib/mallow-file.ts:83-84 | nothing is read but decimal literals, infinity and literals of the other bases |
| `NumberLiterals.OtherBases` | fathom-tde/src/lib/mallow-file.ts:83-84 | hexadecimal, octal and binary literals count in their base |
| `RateLimit.Limiter.Handle` | api-gateway/internal/middleware/ratelimit.go:35-71 | local requests and requests during a store error pass; any other passes if and only if it is among the first N of its burst, whatever failed before |
| `RateLimit.StoreCountsBursts` | api-gateway/internal/middleware/ratelimit.go:46-61 | after any run, store errors included, the store holds, per address, the length of its current burst |
| `RateLimit.AdmittedEarlyInBurst` | api-gateway/internal/middleware/ratelimit.go:46-70 | in any run a request the store answers for is admitted if and only if it is among the first N of its burst |
| `RateLimit.BlockedUntilSilence` | api-gateway/internal/middleware/ratelimit.go:53-68 | a blocked address stays blocked until it has been silent for a full minute |
| `RateLimit.AtMostLimitPerMinute` | api-gateway/internal/middleware/ratelimit.go:46-70 | at most N of an address's admissions fall in any half-open 60-second span |
| `RateLimit.RunBound` | api-gateway/internal/middleware/ratelimit.go:34-72 | the same bound over whole runs of all addresses interleaved, store errors included, for the requests the store answers for |
| `RateLimit.NeverMoreGenerous` | api-gateway/internal/middleware/ratelimit.go:17-61 | whatever the limiter admits, the documented fixed window would admit |
| `RateLimit.AgreesWithFixedWindow` | api-gateway/internal/middleware/ratelimit.go:17-61 | it decides like the documented fixed window on a whole run if and only if every request is early in its burst or within a minute of the burst's first request |
| `RateLimit.SteadyClientIsRefused` | api-gateway/internal/middleware/ratelimit.go:17-61 | a concrete client the fixed window would serve and the code refuses |
| `RateLimit.SecondRequest` | api-gateway/internal/middleware/ratelimit.go:52-61 | with one request allowed, a second is refused up to 59,999 milliseconds after the first and admitted from 60,000 on |
| `RateLimit.AlwaysAdmitted` | api-gateway/internal/middleware/ratelimit.go:38-60 | local requests pass uncounted, and every request passes while the store fails |
| `JwksKeys.LookupIsScan` | api-gateway/internal/middleware/jwt.go:298-311 | the two tables answer every query as a direct scan of the document: the last usable entry with the kid, or the first usable one without |
| `JwksKeys.KidFindsLast` | api-gateway/internal/middleware/jwt.go:298-352 | a query by kid is answered by the last entry with it that has kty OKP, crv Ed25519 and an x that decodes to 32 bytes, and by nothing if and only if there is none |
| `JwksKeys.NoKidFindsFirst` | api-gateway/internal/middleware/jwt.go:298-352 | a query without kid is answered by the first such entry without one |
| `JwksKeys.CollectKeys` | api-gateway/internal/middleware/jwt.go:333-352 | the loop builds the tables of the document |
| `JwksKeys.Cache.Refresh` | api-gateway/internal/middleware/jwt.go:314-360 | a successful fetch replaces tables and expiry, a failed one changes nothing |
| `JwksKeys.Cache.Resolve` | api-gateway/internal/middleware/jwt.go:268-312 | a lookup by one caller: error without a URL or when a needed fetch fails, else the scan of the stored document |
| `JwksProtocol.RunKeepsInv` | api-gateway/internal/middleware/jwt.go:273-311 | mutual exclusion of refreshers, spacing of refreshes and the origin of the cache hold in every run |
| `JwksProtocol.OneRefreshPerLifetime` | api-gateway/internal/middleware/jwt.go:278-296 | over all interleavings with a monotone clock at most one refresh runs at a time, and successful ones lie more than one lifetime apart |
| `JwksProtocol.RefreshesBoundedByTime` | api-gateway/internal/middleware/jwt.go:278-296 | the number of successful refreshes is bounded by the time passed |
| `JwksProtocol.AnswersFromLatest` | api-gateway/internal/middleware/jwt.go:273-311 | an answer comes from the document stored last, unexpired at the request's captured time, and is what a scan of it gives |
| `JwksProtocol.WaitersAreServed` | api-gateway/internal/middleware/jwt.go:283-296 | a waiter whose clock reading predates a successful refresh never fetches, in any continuation |
| `JwksProtocol.NoDeadlock` | api-gateway/internal/middleware/jwt.go:274-296 | in every reachable state an unfinished call can move or the lock holder can |
| `ChartSeries.RunKeepsInv` | fathom-tde/src/hooks/use-chart-data.ts:124-180 | every interleaving of ticks, requests, pages and failures keeps times strictly rising, keeps the cursor in flight at the first bar, and never loses a bar shown |
| `ChartSeries.PageKeepsInv` | fathom-tde/src/hooks/use-chart-data.ts:131-141 | a page strictly before the cursor keeps the invariant |
| `ChartSeries.TickCommutesWithPage` | fathom-tde/src/hooks/use-chart-data.ts:137-180 | a tick while a page is on its way has the same effect as one after it |
| `ChartSeries.TickShows` | fathom-tde/src/hooks/use-chart-data.ts:172-180 | a tick that is not stale is shown in place of the bar of its time, and every other bar stays as it is |
| `ChartSeries.RunShows` | fathom-tde/src/hooks/use-chart-data.ts:124-180 | over any run a bar stays unaltered unless a tick of its own time comes, and only bars of ticks and pages are added |
| `ChartSeries.Chart.OnTick` | fathom-tde/src/hooks/use-chart-data.ts:172-180 | the bars keep rising, and the last one is the tick unless it was stale |
| `ChartSeries.Chart.BeginLoadMore` | fathom-tde/src/hooks/use-chart-data.ts:124-129 | no request while one is in flight, when exhausted or with no bars; else the cursor is the first bar's time |
| `ChartSeries.Chart.EndLoadMore` | fathom-tde/src/hooks/use-chart-data.ts:131-147 | the page goes in front of the bars as they are by then, the whole keeps rising, and there is more only if the page has bars and says so |
| `ChartSeries.Chart.AbandonLoadMore` | fathom-tde/src/hooks/use-chart-data.ts:142-147 | a failed request only clears the flag |
| `ChartHistory.PagesFit` | fathom-tde/src/service/data-service.ts:173-196 | pages served for a cursor are rising and strictly before it, for both backends |
| `ChartHistory.PageIsSorted` | fathom-tde/src/service/data-service.ts:84-93 | whatever the order of a hosted reply, the page shows each of its bars once, by time, ties in the order of the reply; there is more only behind a full page |
| `ChartHistory.MockHasNoMore` | fathom-tde/src/service/data-service.ts:173-196 | a series without backend has nothing to load |
| `ChartHistory.DrainStops` | fathom-tde/src/service/data-service.ts:92-93 | loading back stops after at most one request per full page and one more, with at most the older bars added |
| `ChartHistory.DrainIsFromHistory` | fathom-tde/src/service/data-service.ts:92-93 | every bar in front after loading back is a bar of the history |
| `ChartHistory.RequestsQuotient` | fathom-tde/src/service/data-service.ts:92-93 | that number of requests is n / limit + 1 |
| `ChartHistory.DrainKeepsInv` | fathom-tde/src/hooks/use-chart-data.ts:124-148 | the series invariant holds at the end of loading back |
| `ChartHistory.LoadsWholeHistory` | fathom-tde/src/service/data-service.ts:173-196 | loading back yields exactly the whole history in front of the chart if and only if no page boundary falls just behind a bar in a skipped millisecond |
| `ChartHistory.ShowsTheHistory` | fathom-tde/src/service/data-service.ts:173-196 | loaded back completely, the k-th bar has the second, prices and volume of the k-th stored bar |
| `ChartHistory.LoadsCompletely` | fathom-tde/src/service/data-service.ts:180-193 | local files, and hosted histories with no bar in the last millisecond of a second, load completely |
| `ChartHistory.LastMillisecondIsLost` | fathom-tde/src/service/data-service.ts:180-183 | a concrete hosted history that does not |
| `ChartRuns.RunIsDrain` | fathom-tde/src/hooks/use-chart-data.ts:124-180 | in any run of ticks, requests, served pages and failures, a chart that has run out of older bars shows what undisturbed loading back brings, with the ticks merged in |
| `ChartRuns.RunLoadsWholeHistory` | fathom-tde/src/hooks/use-chart-data.ts:124-180 | in any such run the whole history is in front of the chart's bars if and only if no page boundary skips a bar |
| `ChartRuns.ServedIsPossible` | fathom-tde/src/service/data-service.ts:173-196 | such runs are possible ones, so the series invariant holds throughout |
| `ChartSeam.HostedIsWhole` | almanac/crates/herald/src/http/data/unified.rs:62-120 | a live window in front of the disk answers like one history if and only if it is all of it, holds nothing before the cursor, or holds a full page before it |
| `ChartSeam.SeamEndsLoading` | fathom-tde/src/service/data-service.ts:92-93 | otherwise its short page is taken for the end of the history and the older bars on disk are never asked for |
| `ChartSeam.HostedLoadsWholeHistory` | fathom-tde/src/service/data-service.ts:173-196 | loading back from such a service yields the whole history if and only if no page boundary skips a bar and no page is cut short by the start of the window |
| `HeraldSync.NeverWorse` | helm/internal/app/lifecycle.go:198-240 | with non-empty orphan ids, whatever calls fail or are lost, the missing and orphaned hands after a heartbeat are among those before, and each call that took effect removes its hand from them |
| `HeraldSync.BringsIntoStep` | helm/internal/app/lifecycle.go:198-240 | one failure-free heartbeat leaves no hand missing or orphaned |
| `HeraldSync.InStepDoesNothing` | helm/internal/app/lifecycle.go:233-240 | a heartbeat that finds everything in step makes no calls |
| `HeraldSync.HeartbeatDone` | helm/internal/app/lifecycle.go:198-240 | exactly what a failure-free heartbeat leaves in the registry |
| `HeraldSync.ConvergesExactly` | helm/internal/app/lifecycle.go:198-240 | a failure-free heartbeat, its two walks in any orders, makes the registry exactly the running hands' entries plus the fallback hands if and only if no listed hand was registered incompletely and no fallback hand shares an orphan's id |
| `HeraldSync.PartialIsNotHealed` | helm/internal/app/lifecycle.go:214-221 | a hand listed under any symbol is left as it is, complete or not |
| `HeraldSync.RestartRegistersEverything` | helm/internal/app/lifecycle.go:75-87 | registering everything after an engine restart heals it |
| `HeraldSync.PartialRegistration` | helm/internal/fleet/actor/herald.go:42-64 | a lost call leaves a hand listed under its first symbol only |
| `HeraldSync.CallEffects` | helm/internal/fleet/actor/herald.go:42-64 | a call takes effect when it reports success or when only its answer is lost, and not when it is rejected or lost on the way |
| `HeraldSync.EmptyOrphanWipes` | almanac/crates/herald/src/registry/mod.rs:201-214 | an orphan with an empty id takes the whole registry with it |
| `HeraldCalls.HandCalls` | helm/internal/fleet/actor/herald.go:42-64 | a hand is registered symbol by symbol in order, with no call after the first that does not report success and none left out before |
| `HeraldCalls.HeartbeatCalls` | helm/internal/app/lifecycle.go:198-240 | a failure-free heartbeat makes exactly one call per symbol of each missing hand, in the order of the second walk, and then one per orphan |
| `HeraldCalls.NothingIsSkipped` | helm/internal/app/lifecycle.go:90-128 | whatever fails, every missing hand is tried and then every orphan, once and in order |
| `HeraldLink.ListingShowsOrphans` | helm/internal/app/lifecycle.go:205-231 | missing and orphaned hands read off a listing, in any order, are those of the registry |
| `HeraldLink.Compare` | helm/internal/app/lifecycle.go:212-221 | the walk computes the expected and the missing ids |
| `HeraldLink.Link.RegisterOneHand` | helm/internal/fleet/actor/herald.go:47-64 | symbol by symbol, giving up at the first call that does not report success |
| `HeraldLink.Link.ReregisterByIds` | helm/internal/app/lifecycle.go:90-112 | the walk registers exactly the asked-for running hands, in order |
| `HeraldLink.Link.DeregisterByIds` | helm/internal/app/lifecycle.go:116-128 | every listed id is deregistered, failures skipped |
| `HeraldLink.Link.DoHeartbeat` | helm/internal/app/lifecycle.go:198-240 | the heartbeat's effect on registry and oracle is the specified one; nothing without a listing |
| `HeraldLink.Link.OnReady` | helm/internal/app/lifecycle.go:139-149 | a new engine id triggers registering everything, a known one nothing |
| `FleetRegistry.AlwaysWiredAlike` | helm/internal/fleet/registry.go:80-178 | after any sequence of whole calls every live runtime has the registry's ports |
| `FleetRegistry.InterleavingDoesNotMatter` | helm/internal/fleet/registry.go:80-178 | final wiring depends only on the injections among themselves and the spawns and teardowns among themselves |
| `FleetRegistry.LastInjectionWins` | helm/internal/fleet/registry.go:80-155 | each port holds its last injection |
| `FleetRegistry.RunInjected` | helm/internal/fleet/registry.go:80-178 | the registry's ports are the injections replayed in order |
| `FleetRegistry.RunAlive` | helm/internal/fleet/registry_lifecycle.go:22-145 | who is live and paused depends on spawns and teardowns only |
| `FleetHistory.PortsHold` | helm/internal/fleet/registry.go:80-178 | after any calls each port of the registry and of every live helm holds what was injected last for that port |
| `FleetHistory.LiveSince` | helm/internal/fleet/registry_lifecycle.go:22-108 | every live helm was made by a spawn that nothing undid, is paused unless that spawn found it active, and streams if the run context was set before and it was not in error |
| `FleetHistory.SpawnMakes` | helm/internal/fleet/registry_lifecycle.go:22-145 | a spawn leaves the helm live whenever it was or its adapter could be built, a teardown never |
| `FleetRegistry.Registry.Propagate` | helm/internal/fleet/registry.go:80-155 | one setter overwrites one field of the registry and the same field of every live runtime, and nothing else about them |
| `FleetRegistry.Registry.SetRuntime` | helm/internal/fleet/registry.go:162-178 | the connection is stored and reaches every live runtime; the run context is set |
| `FleetRegistry.Registry.SpawnHelm` | helm/internal/fleet/registry_lifecycle.go:22-108 | a known helm is left alone, a failing adapter changes nothing, else a fresh runtime is wired field by field and agrees with the registry on every port |
| `FleetRegistry.Registry.WirePorts` | helm/internal/fleet/registry_lifecycle.go:53-86 | the field-by-field copies reach every port |
| `FleetRegistry.HelmRuntime.Receive` | helm/internal/fleet/registry.go:80-155 | one port of a runtime is overwritten |
| `FleetRegistry.Registry.TeardownHelm` | helm/internal/fleet/registry_lifecycle.go:128-145 | the runtime is stopped and removed; an unknown id changes nothing |
| `Metrics.LabelsInjective` | api-gateway/internal/metrics/metrics.go:143-159 | for fixed names the rendered label string determines every value |
| `MetricLabels.LabelsReadBack` | api-gateway/internal/metrics/metrics.go:143-159 | a label string is read back by a reader of the exposition format as the names and values it was made of |
| `MetricLabels.KeysReadBack` | api-gateway/internal/metrics/metrics.go:67-73 | the keys of the two tables carry method, route and status under those names |
| `Metrics.EscapedValueEnds` | api-gateway/internal/metrics/metrics.go:157-159 | an escaped value ends at its closing quote and nowhere else |
| `Metrics.BuildLabels` | api-gateway/internal/metrics/metrics.go:143-155 | the loop renders the pairs, ignoring an odd one out |
| `Metrics.RequestsAreExact` | api-gateway/internal/metrics/metrics.go:66-73 | each request counter is the number of finished requests with exactly its labels, modulo 2^64 |
| `Metrics.RouteCountsAreExact` | api-gateway/internal/metrics/metrics.go:70-71 | a route's counter is the number of its finished requests, modulo 2^64 |
| `Metrics.RouteTimesAreExact` | api-gateway/internal/metrics/metrics.go:70-72 | a route's time is the sum over its finished requests, modulo 2^64 |
| `Metrics.InFlightIsDifference` | api-gateway/internal/metrics/metrics.go:66-68 | the gauge is started minus finished, in signed 64-bit arithmetic |
| `Metrics.WrapIs` | api-gateway/internal/metrics/metrics.go:60-66 | the signed 64-bit number that agrees modulo 2^64 |
| `Metrics.RouteIsSumOfRequests` | api-gateway/internal/metrics/metrics.go:67-73 | a route's requests added up over every method and status give its count |
| `Metrics.TablesAgree` | api-gateway/internal/metrics/metrics.go:67-73 | the same, read off the two string-keyed tables |
| `Metrics.Recorder.RequestStarted` | api-gateway/internal/metrics/metrics.go:66-66 | the gauge is started minus finished afterwards |
| `Metrics.Recorder.RequestFinished` | api-gateway/internal/metrics/metrics.go:67-73 | afterwards the gauge and the counters of the request's labels and of its route are exact for all recordings so far |
| `Retry.Do` | pkg/retry/retry.go:32-62 | the loop computes the specified outcome: verdict, calls made, time slept |
| `Retry.CallsAndVerdict` | pkg/retry/retry.go:37-59 | every call but the last failed retryably and was followed by a full sleep; success, giving up and interruption are told by the last call |
| `Retry.CallsBounded` | pkg/retry/retry.go:32-67 | between one and MaxAttempts calls, success exactly when the last one succeeded |
| `Retry.BaseGrows` | pkg/retry/retry.go:86-91 | delays before jitter never decrease and stay within the maximum and the exponential |
| `Retry.JitterBounds` | pkg/retry/retry.go:93-108 | jitter moves a delay by at most its share, never below zero |
| `Retry.SleepsWithinBudget` | pkg/retry/retry.go:32-109 | every run, under any policy, replies, interruptions and random numbers, sleeps no longer than its budget |
| `Retry.TotalSleep` | pkg/retry/retry.go:32-109 | whatever policy it is given, a run sleeps at most (1+J) times (n-1)·MaxDelay and at most (1+J) times InitialDelay·(M^(n-1)-1)/(M-1), with the policy's defaults filled in |
| `RetryDelays.SleepsBetweenCalls` | pkg/retry/retry.go:37-59 | a run sleeps exactly its delays between calls plus the part of one cut short; uninterrupted, at least (1-J) times the delays before jitter |
| `RetryDelays.BaseStep` | pkg/retry/retry.go:86-91 | the first delay is the initial one and each next one the multiple of the one before, cut off at the maximum |
| `RetryDelays.JitterIs` | pkg/retry/retry.go:93-108 | a delay is the random point of the interval from base less its share to base plus its share |
| `RetryDelays.NormalizeKeeps` | pkg/retry/retry.go:64-84 | fields in range are kept, the others become 1 attempt, 100 ms, 2 s, factor 2 and the nearest jitter |
| `Retry.SeriesSum` | pkg/retry/retry.go:86-88 | the geometric series is InitialDelay·(M^k-1)/(M-1) |

Environment assumptions, stated as parameters or `requires`: callbacks of one subscription are serial; a JetStream
consumer hands over the messages of its subject in stream order and the stream keeps them; clocks are monotone; the
store increments and expires as documented; a backend answers every cursor from one history (for the hosted one
`ChartSeam.HostedIsWhole` says exactly when it does), and the disk of `ChartSeam` holds every bar up to the live
window; each React state updater of the chart is one step, whereas `loadMore` reads `barsRef` while the updater of
a tick may still be queued (fathom-tde/src/hooks/use-chart-data.ts:137-180), so that in the code such a tick can be
overwritten; one call of an injected port setter, spawn or teardown is not interrupted by another.

## Left out

- The window inside `close` between closing `done` and closing the socket, and subscriptions created while a
  close is under way: closing is one step of the model.
- Delivery times: the five-second limit on a blocked enqueue, pings and write deadlines only appear as steps that
  close the connection.
- Message metadata that cannot be read (sequence number 0), stream retention, and ids that contain NATS wildcards.
- The client's own handling of frames; only what it is sent and what it resumes with is modelled.
- JSON, base64, Ed25519 and regular-expression engines: decoded values, or functions written to match them.
- Numbers.ReadPrint: rounding to float64 (beyond fifteen digits) and printing with an exponent are not modelled.
- MallowFile.ReadLine, MallowFile.ParseMallowFile: read numbers as `Numbers` does, hence without rounding.
- Metrics.RouteTimesAreExact: takes the milliseconds already truncated to whole numbers, as the conversion does.
- Retry.TotalSleep: computes over the reals, so rounding of float64 and of durations to nanoseconds is
  left out.
- FleetRegistry.Registry.SpawnHelm: does not model portfolio, risk and market-data wiring inside a runtime, nor a
  port set between the two locks of a spawn, nor the start of the streams of helms spawned before the run context
  is set.
- ChartSeries.RunKeepsInv: one symbol and timeframe; a page that arrives after a symbol change is not modelled.
- HeraldSync.BringsIntoStep: the running set does not change during the heartbeat.
- JwksKeys.Cache.Refresh: the request and the decoding are one step that succeeds or fails.
- WsConn.Conn.HandleControl: strings.TrimSpace is a parameter, and error details carry no broker message text.
- Token checking, CORS, proxying, exporting of metrics and the rest of the gateway: one-branch code or foreign
  libraries.
- Helm's hands, portfolio, risk and reconciliation; herald's indicators, ledger and script engine; fathom's user
  interface: not part of this model.

# Verification of the TradeStation API wrapper

This project models the parts of the wrapper that keep state over time and proves what they promise: the incremental
JSON stream and its reconnecting session, the token store with its lock file and refresh protocol, the request loop
with its retries and ambiguous writes, the threaded byte stream, pagination, order checks and preflighted writes, and
the tool that cuts the API specification down to its v3 part. `dafny verify dfyconfig.toml` checks all of it.

## What is modelled

**Streams.** `Text`, `Utf8`, `Json`, `JsonRoundTrip` and `JsonValue` hold an explicit grammar of JSON text (sections
2, 4 and 7 of RFC 8259, with the three extra words Python accepts), a recursive-descent reader that stands for
`raw_decode`, the Python value a text denotes, and the incremental UTF-8 decoder (sections 3 and 4 of RFC 3629).
`Scanner` is the bracket-and-string scanner, `StreamParser` the parser object, `ChunkIndependence` the proof that
cutting a stream into chunks is invisible, and `StreamSession` the event generator over many connections with its
reconnect budget and the 401 refresh behind every connection.

**Tokens.** `TokenLock` is the lock file as steps of any number of threads in any number of processes with crashes;
judging a lock stale and renaming it away are two separate steps, as in the source. `TokenRefresh` runs loads, token
requests (section 6 of RFC 6749), compare-and-swap and saves over that lock, again in every interleaving.

**Requests.** `Reals` holds shared arithmetic, `RateLimit` the delays, `Rest` the request loop against a broker that may or may not have applied
what it received (writes are not idempotent in the sense of section 9.2.2 of RFC 9110; Retry-After is section 10.2.3),
`OrderValidation` the risk checks over orders with nested triggered orders, `Client` the order-placing, replacing and
cancelling calls with the trace of all requests a client ever sent, `Pagination` the page loop against any server.
What the request model enforces on construction (`src/tradestation_api_wrapper/models.py:338-361`) is assumed only where
a lemma says `IsRequest`.

**Transport and tooling.** `Transport` is the reader thread, the bounded queue and the consumer as a two-actor
machine. `SchemaClosure` is the worklist over the reference graph, `SpecFilter` the in-place filter of the document.
`JsonPointer` resolves local references (sections 3, 4 and 6 of RFC 6901), `SpecReferences` says which of them the
filtered document still carries, and `BrokenReferences` which of those still lead where they led before.

Prices, quantities and seconds are exact reals. The random source, the clock, the network, the broker, the scheduler
and the other processes are arbitrary inputs of the model.

## Promises that do not hold as written

Each has a concrete witness and an exact condition.

- The lock file excludes only if no rename hits the file of a live holder. Two waiters that both judged the same
  leftover stale can end up inside together (`TokenLock.DoubleSteal`, from the empty system); `TokenLock.RenameIsSafeIff`
  says exactly which renames are safe in themselves, `TokenLock.SafeRenameIsNotEnough` that one safe rename does not
  settle the later ones, and `TokenLock.CarefulRunsExclude` gives two timing assumptions under which all of them are.
- Malformed stream text may be rejected in two calls and held back in one (`ChunkIndependence.MalformedThenBracketIsHeld`,
  `ChunkIndependence.SplitRaisesAlikeIff`), and a call that raises drops the messages it had already decoded
  (`ChunkIndependence.MalformedTailDropsMessage`, `ChunkIndependence.SplitDeliversAlikeIff`). On well-formed streams
  neither happens.
- `docs/safety-invariants.md:14` calls every 5xx answer to a write ambiguous; the code lists four statuses of that
  class (`src/tradestation_api_wrapper/rest.py:34`). The model follows the code: `Rest.ServerErrorIsAmbiguousIff` gives
  for every 5xx status a run in which the write was applied, and says which of them end ambiguous.
- `docs/safety-invariants.md:17` promises that an acknowledgement without a usable id asks for reconciliation; an id of
  white space at the top of the acknowledgement passes for usable (`Client.FirstOrderIdIsBlankIff`,
  `Client.BlankIdIsAccepted`).
- A timeout of the opening of a stream is reported as a transport error, because the wrapped timeout is caught by the
  last handler of the reader (`Transport.OpenTimeoutIsMasked`). A timeout while reading a chunk, or the body of a refused
  open (`Transport.RefusalTimeoutIsReported`), is reported as a timeout; `Transport.NetworkTimeoutIff` separates them.
- A lock file need not belong to its holder or to a dead process: when writing the pid fails, the file of a live process
  stays (`TokenLock.FailedWriteLeavesFile`). The promise holds exactly if the file was not
  abandoned by a process that lives (`TokenLock.FileIsOwnedIff`), so wherever no such write fails and no pid is given
  out again (`TokenLock.FileIsHeldOrDead`).
- The specification filter can break local references that it keeps: from outside paths and schemas, such as shared
  responses (`BrokenReferences.SharedResponseBreaks`); to paths it removes (`BrokenReferences.RemovedPathBreaks`); into
  lists of tags it shortens (`BrokenReferences.UnusedTagBreaks`); and, because it reads a reference into the inside of a
  schema as a schema of another name (`SchemaClosure.ReferenceNamesTargetIff`), into schemas
  (`BrokenReferences.PartOfSchemaBreaks`). `BrokenReferences.NothingBreaksIff` is the exact condition.

## Model

| member | source | states |
|---|---|---|
| Utf8.DecodeConserves | src/tradestation_api_wrapper/stream.py:39-47 | the bytes fed to the decoder are the encoding of the text it gave out followed by the bytes it still holds |
| Utf8.PendingIsShort | src/tradestation_api_wrapper/stream.py:39-47 | at most three bytes ever wait, and they are the unfinished start of a character |
| Utf8.DecodeEncoded | src/tradestation_api_wrapper/stream.py:39-47 | any encoded text in front of more bytes is decoded whole |
| Utf8.DecodeSplit | src/tradestation_api_wrapper/stream.py:39-47 | decoding in two calls is decoding in one, wherever the split falls; a refusal of the first part refuses the whole |
| JsonRoundTrip.ValueReadWasWritten | src/tradestation_api_wrapper/stream.py:57 | whatever the reader accepts is a text of the grammar in front of the rest it returns |
| JsonRoundTrip.ParseEmit | src/tradestation_api_wrapper/stream.py:57 | every text of the grammar is read back as itself, with the rest untouched |
| JsonRoundTrip.ObjectDecodedIff | src/tradestation_api_wrapper/stream.py:57-66 | the reader returns an object and a rest if and only if the buffer is that object's text followed by that rest |
| Scanner.ScanBuffer | src/tradestation_api_wrapper/stream.py:183-207 | the one-pass scanner with early exit computes the scan of the whole buffer |
| Scanner.ValueKeeps | src/tradestation_api_wrapper/stream.py:183-207 | scanning any complete value leaves the open brackets and the string state as they were, by induction on the grammar |
| Scanner.ScannerOnObjectPrefix | src/tradestation_api_wrapper/stream.py:183-207 | on a non-empty prefix of an object text the scanner says incomplete exactly when the prefix is proper |
| Scanner.ObjectsArePrefixFree | src/tradestation_api_wrapper/stream.py:57-66 | no object text is a proper prefix of another, so nothing is decoded early |
| StreamParser.JsonStreamParser.FeedChunk | src/tradestation_api_wrapper/stream.py:42-66 | one call changes buffer and pending bytes to those of the specification and returns its messages or its error |
| StreamParser.JsonStreamParser.DecodeBuffer | src/tradestation_api_wrapper/stream.py:51-66 | the in-place loop takes off the front of the buffer exactly what the recursive specification takes off |
| ChunkIndependence.DrainSplit | src/tradestation_api_wrapper/stream.py:51-66 | for any text, well-formed or not, cut anywhere: the messages of the whole are those of the first part and then those of the held text with the second part |
| ChunkIndependence.DrainConserves | src/tradestation_api_wrapper/stream.py:51-66 | the buffer is the text used up, which decodes to the messages and nothing else, followed by the text held |
| ChunkIndependence.DrainUnfinished | src/tradestation_api_wrapper/stream.py:57-62 | an unfinished object is held back without raising and without delivering |
| ChunkIndependence.RejectionIsFinal | src/tradestation_api_wrapper/stream.py:58-64 | no continuation turns a rejected text into a message |
| ChunkIndependence.SplitRaisesAlikeIff | src/tradestation_api_wrapper/stream.py:58-64 | two calls raise alike with one call exactly unless the first part was rejected and the joined rest scans as unfinished |
| ChunkIndependence.MalformedThenBracketIsHeld | src/tradestation_api_wrapper/stream.py:58-62 | a concrete malformed text rejected in two calls and held back in one |
| ChunkIndependence.SplitDeliversAlikeIff | src/tradestation_api_wrapper/stream.py:42-66 | from any state, two chunks of bytes or two of text deliver the same in two calls as in one exactly if the first holds no message, or the call on the first and the call on both fail alike, by bytes that are not UTF-8 or text that the loop rejects |
| ChunkIndependence.MalformedTailDropsMessage | src/tradestation_api_wrapper/stream.py:58-65 | a concrete text that delivers an object in two calls and nothing in one |
| ChunkIndependence.FeedTwice | src/tradestation_api_wrapper/stream.py:42-66 | two calls on byte chunks, the first not raising, are one call on the joined bytes: the same messages and state, or an error of the same cause |
| ChunkIndependence.ChunkingIsInvisible | src/tradestation_api_wrapper/stream.py:42-66 | any run of calls that does not raise equals one call on all the bytes |
| ChunkIndependence.DrainStreamPrefix | src/tradestation_api_wrapper/stream.py:51-66 | on any prefix of a well-formed stream exactly the objects complete in it are delivered and nothing raises |
| ChunkIndependence.StreamInAnyChunks | src/tradestation_api_wrapper/stream.py:42-66 | for any chunking of any initial part of a well-formed stream: no error, and exactly the objects complete in the characters received, in order |
| ChunkIndependence.WholeStreamInAnyChunks | src/tradestation_api_wrapper/stream.py:42-66 | any chunking of a whole stream delivers all its objects and leaves both buffers empty |
| ChunkIndependence.FeedingConserves | src/tradestation_api_wrapper/stream.py:42-66 | for any chunks that do not raise: used text, which decodes to exactly the messages, then buffer, then pending bytes are what was fed |
| StreamSession.ReadingIsDelivery | src/tradestation_api_wrapper/stream.py:115-126 | reading chunk by chunk delivers what the messages of all chunks deliver, and a parse error counts only if nothing stopped the reading before |
| StreamSession.DeliverStopsAtGoAway | src/tradestation_api_wrapper/stream.py:116-124 | events are the classified messages in order, up to and including the first GoAway or up to a raised error event |
| StreamSession.ConnectionEvents | src/tradestation_api_wrapper/stream.py:115-126 | the events of a connection depend only on the complete objects received, not on chunks or a truncated last object |
| StreamSession.TradeStationStream.ReadConnection | src/tradestation_api_wrapper/stream.py:112-126 | the nested loops over chunks and messages compute the reading of the connection |
| StreamSession.EndingsAreClassified | src/tradestation_api_wrapper/stream.py:127-156 | one more connection follows exactly a GoAway, a rate limit, a status outside 4xx or an unknown failure, with budget left, after a bounded wait that carries the new count; every other ending returns or raises what ended it |
| StreamSession.OutcomeIsLastEnding | src/tradestation_api_wrapper/stream.py:109-156 | in a whole session all connections opened but the last ended in a transient way, and the last ended as the outcome says: at its end or with GoAway, with a parse error, an error event, or the failure that is raised |
| StreamSession.TurnCounts | src/tradestation_api_wrapper/stream.py:110-156 | a turn opens once, and its count is one more than before, or one if it yielded data |
| StreamSession.TradeStationStream.Events | src/tradestation_api_wrapper/stream.py:109-156 | the generator's acts and its outcome are those of the specified session |
| StreamSession.SessionRefinesIdeal | src/tradestation_api_wrapper/stream.py:109-156 | over all connections a session of chunked bytes does exactly what a session of lists of complete objects does |
| StreamSession.SessionIsWellNumbered | src/tradestation_api_wrapper/stream.py:110-156 | every wait carries the number of reconnects since the last event other than GoAway, and it never exceeds the maximum |
| StreamSession.ReconnectBudget | src/tradestation_api_wrapper/stream.py:110-156 | a session that yields E events other than GoAway opens its source at most 1 + max * (1 + E) times |
| StreamSession.NoBudgetOneOpen | src/tradestation_api_wrapper/stream.py:129-147 | with no reconnects allowed the source is opened once |
| StreamSession.ConnectOnce | src/tradestation_api_wrapper/rest.py:248-269 | the opening loop with one refresh after a 401 makes the specified connection |
| StreamSession.TwoAttemptsEach | src/tradestation_api_wrapper/rest.py:248-269 | k connections use at most 2k HTTP opens |
| StreamSession.HttpOpenBudget | src/tradestation_api_wrapper/rest.py:248-286 | the whole session makes at most 2 * (1 + max * (1 + E)) HTTP opens under the derived stream policy |
| TokenLock.StepKeepsInv | src/tradestation_api_wrapper/auth.py:186-240 | every step but a rename of a live holder's file keeps: whoever holds the lock created the file at the path, and the file carries its pid |
| TokenLock.InvIsExclusive | src/tradestation_api_wrapper/auth.py:186-202 | then at most one live thread holds the lock and the file at the path is its own |
| TokenLock.FileIsHeldOrAbandoned | src/tradestation_api_wrapper/auth.py:186-240 | after any run from the empty system, with or without misfires, the file at the path is held by the actor that created it, or since then that actor's process crashed or its pid could not be written |
| TokenLock.FileIsHeldIff | src/tradestation_api_wrapper/auth.py:186-240 | that file is held exactly if no step took its holder away since it was created |
| TokenLock.FileIsOwnedIff | src/tradestation_api_wrapper/auth.py:186-240 | it belongs to its holder or to a dead process exactly if it was not abandoned by a process that lives |
| TokenLock.FileIsHeldOrDead | src/tradestation_api_wrapper/auth.py:186-240 | where every pid is written and none is reused, the file belongs to its holder or to a dead process |
| TokenLock.FailedWriteLeavesFile | src/tradestation_api_wrapper/auth.py:190-196 | a concrete run in which writing the pid fails and the file stays, with its creator alive and nobody holding it |
| TokenLock.AbandonedLockCanBeTaken | src/tradestation_api_wrapper/auth.py:213-261 | a file that its creator does not hold, with no pid or that of a dead process, can be stolen and the lock taken by any waiting actor once the stale window has passed |
| TokenLock.ExitRemovesOwnFile | src/tradestation_api_wrapper/auth.py:204-211 | leaving removes the leaver's own file |
| TokenLock.RunsExclude | src/tradestation_api_wrapper/auth.py:180-240 | in every run without such a rename, with any number of processes and crashes, the lock excludes |
| TokenLock.MisfireLetsTwoIn | src/tradestation_api_wrapper/auth.py:222-240 | after such a rename there is a continuation with two threads inside |
| TokenLock.RenameIsSafeIff | src/tradestation_api_wrapper/auth.py:213-240 | a rename preserves exclusion in all continuations without a later misfire exactly when the file at the path is not that of a live holder |
| TokenLock.SafeRenameIsNotEnough | src/tradestation_api_wrapper/auth.py:213-240 | after a rename that hit nobody's live lock, a continuation can still let two threads in |
| TokenLock.LeftoverIsReachable | src/tradestation_api_wrapper/auth.py:186-202 | a crash inside leaves a lock file with two waiters before it |
| TokenLock.DoubleSteal | src/tradestation_api_wrapper/auth.py:213-240 | a concrete run from the empty system in which two waiters steal a leftover lock in turn and both get in |
| TokenLock.CarefulStepIsSafe | src/tradestation_api_wrapper/auth.py:213-240 | if renames remove the file that was judged and pids are written within the stale window, no live lock is ever renamed |
| TokenLock.CarefulRunsExclude | src/tradestation_api_wrapper/auth.py:180-240 | under these assumptions every run from the empty system excludes, and none of its renames hits a live holder's file |
| TokenRefresh.MemoryTokenStore.CompareAndSwapRefreshToken | src/tradestation_api_wrapper/auth.py:97-107 | the swap happens exactly when the stored refresh token is the expected one, and otherwise nothing changes |
| TokenRefresh.GrantKeepsRefresh | src/tradestation_api_wrapper/auth.py:42-65 | a token response without a refresh token keeps the very one in use, and one that brings another installs that |
| TokenRefresh.ActKeepsInv | src/tradestation_api_wrapper/auth.py:143-161 | every act of every call and every lock step keeps the agreement of stages with the lock, matched swaps, earned swaps, due requests and one refresh per manager |
| TokenRefresh.RunsKeepInv | src/tradestation_api_wrapper/auth.py:375-432 | so does every interleaving |
| TokenRefresh.NoRefreshIsLost | src/tradestation_api_wrapper/auth.py:386-432 | in every interleaving each swap installs a token granted for the refresh token in the store at that moment, and every token a call returns was in the store during the call |
| TokenRefresh.RefreshTokenSurvives | src/tradestation_api_wrapper/auth.py:386-432 | runs made of refreshes never lose a non-empty refresh token |
| TokenRefresh.StoredServesAll | src/tradestation_api_wrapper/auth.py:375-397 | once a token outside the refresh margin is stored, every waiting or new unforced call that returns gets it, and no request is sent |
| TokenRefresh.OneRefreshServesAll | src/tradestation_api_wrapper/auth.py:386-432 | from the moment a refresh stores such a token, when beside it there are only waiting calls of any manager and unforced ones of its own, the refreshing call, all of those and all new unforced ones get it when they return, and no further request is sent |
| RateLimit.BackoffIsBounded | src/tradestation_api_wrapper/rate_limit.py:31-34 | the backoff is between zero and the maximum and below the doubling of the base |
| RateLimit.DelayIsBounded | src/tradestation_api_wrapper/rate_limit.py:27-38 | for any jitter ratio no sleep is negative or longer than the ceiling or the jittered maximum, whatever the server asks or chance draws |
| Rest.RequestJson | src/tradestation_api_wrapper/rest.py:145-241 | the loop ends after the turns, with the outcome and the sleeps, that its closed form determines; it returns exactly on a success with a JSON object, ends ambiguous exactly for a write that was lost, answered with a listed status or with an unreadable success, and exhausted only with all attempts used and the last one lost |
| Rest.RequestIsDetermined | src/tradestation_api_wrapper/rest.py:155-241 | the world and the random draws determine the number of sends, the outcome and the sleeps |
| Rest.WriteTurns | src/tradestation_api_wrapper/rest.py:168-241 | a write is sent at most twice, the second time only after a 401 |
| Rest.WritesApplyAtMostOnce | src/tradestation_api_wrapper/rest.py:168-241 | a broker that never applies what it answers 401 applies a write at most once |
| Rest.ServerErrorIsAmbiguousIff | src/tradestation_api_wrapper/rest.py:231-241 | a write that the broker applied and answered with any 5xx status ends ambiguous exactly for 500, 502, 503 and 504, and as a plain error for all others |
| Rest.DefiniteWriteOutcome | src/tradestation_api_wrapper/rest.py:168-241 | unless the broker applies what it answers 401, a write it applied ends in a return, as ambiguous, or in an error status that is neither success nor listed |
| Rest.SafeTurns | src/tradestation_api_wrapper/rest.py:155-241 | at most max(1, attempts) + 1 sends, and the attempt count never exceeds the limit |
| Rest.WaitIsBounded | src/tradestation_api_wrapper/rest.py:155-241 | the total wait is at most retries times the longest sleep, and without jitter and Retry-After at most base * (2^retries - 1), written `SeriesWait` |
| OrderValidation.OrderFailureIsFirst | src/tradestation_api_wrapper/validation.py:58-85 | an order is accepted exactly when it and all orders below it pass; otherwise the error is the first in pre-order |
| OrderValidation.GroupFailureIsFirst | src/tradestation_api_wrapper/validation.py:88-92 | the same for a group of orders |
| OrderValidation.PassedIsWithinLimit | src/tradestation_api_wrapper/validation.py:58-113 | a well-formed request that passes its checks has a defined amount within the limit, in an allowlisted account, with the kill switch off |
| OrderValidation.AcceptedOrdersAreWithinLimit | src/tradestation_api_wrapper/validation.py:58-113 | in an accepted group every order at every depth has an amount within the limit |
| OrderValidation.AcceptedGroupIsBounded | src/tradestation_api_wrapper/validation.py:58-113 | the total amount of an accepted group is at most the number of its orders times the limit |
| Client.FirstOrderIdIsNotEmpty | src/tradestation_api_wrapper/models.py:679-686 | the order id read from an acknowledgement is never empty |
| Client.FirstOrderIdIsBlankIff | src/tradestation_api_wrapper/models.py:679-686 | the id is white space only exactly if the acknowledgement's own id is; an id taken from a listed order is stripped |
| Client.BlankIdIsAccepted | src/tradestation_api_wrapper/trade.py:48-52 | an acknowledgement with such an id asks for no reconciliation |
| Client.FlagAfterUpdates | src/tradestation_api_wrapper/trade.py:30-66 | after any updates reconciliation is required exactly if the write was ambiguous, an error was acknowledged, or no id is known and no snapshot came |
| Client.CleanTradeIsConfirmed | src/tradestation_api_wrapper/client.py:245-269 | a new trade that needs no reconciliation means: success with an object, a non-empty id, no errors, applied at most once |
| Client.AppliedOrderIsReported | src/tradestation_api_wrapper/client.py:245-269 | unless the broker applies what it answers 401, an order it applied yields a trade or an error status that is neither success nor listed; without an acknowledgement the trade asks for reconciliation |
| Client.TradeStationClient.PlaceOrder | src/tradestation_api_wrapper/client.py:245-269 | sends exactly one write, and none exactly if scope, capability or any order of the tree fails |
| Client.TradeStationClient.PlaceOrderGroup | src/tradestation_api_wrapper/client.py:283-307 | sends exactly one write for the group, and none exactly if scope, capabilities or any order of the forest fail |
| Client.TradeStationClient.AssertOrderBelongsToAccount | src/tradestation_api_wrapper/client.py:635-640 | passes exactly if the look-up succeeded and lists that id for that account or for none |
| Client.TradeStationClient.ReplaceOrder | src/tradestation_api_wrapper/client.py:309-348 | the write is sent exactly after a clearing look-up in this call and with a valid replacement; nothing is sent exactly if a local check fails; the whole trace stays permitted |
| Client.TradeStationClient.CancelOrder | src/tradestation_api_wrapper/client.py:350-359 | the same for a cancel, which ignores the kill switch |
| Client.PermissionsAddUp | src/tradestation_api_wrapper/client.py:309-359 | a trace extended by a permitted call stays permitted as a whole, whatever came before |
| Pagination.GetOrderPages | src/tradestation_api_wrapper/client.py:600-622 | against any server: the pages are the answers to at most max requests, each but the last names an unsent token, and the outcome is the one the last page determines, with all orders in order |
| Pagination.TokensAreDistinct | src/tradestation_api_wrapper/client.py:607-621 | no page token is sent twice |
| Pagination.NoRepeatOnWholeChain | src/tradestation_api_wrapper/client.py:615-621 | a server that answers by token alone repeats no token on the way to a last page |
| Pagination.ReadFollowsChain | src/tradestation_api_wrapper/client.py:600-622 | a chain of pages that ends within the limit is read to its end |
| Pagination.ReturnsIffChainEnds | src/tradestation_api_wrapper/client.py:600-622 | for such a server the read returns exactly if the chain from the start ends within the limit, and returns exactly its orders |
| Transport.ReaderConserves | src/tradestation_api_wrapper/transport.py:110-147 | while the consumer is there, every reader step adds the same to what is on its way as to what was read |
| Transport.StepKeepsInv | src/tradestation_api_wrapper/transport.py:102-163 | every step of reader, queue and consumer, and an early exit, keeps the queue bound and the conservation of chunks |
| Transport.RunsAreSafe | src/tradestation_api_wrapper/transport.py:102-163 | in every interleaving: bounded queue, bounded lead, delivery of an in-order prefix; a normal end means all chunks to the end of the stream and no failure; an error is the reader's own, after all its chunks |
| Transport.NetworkTimeoutIff | src/tradestation_api_wrapper/transport.py:126-183 | a network timeout is raised exactly for a timeout while reading a chunk or the body of a refused open, and of the timeouts exactly that of the opening itself becomes a transport error |
| Transport.OpenTimeoutIsMasked | src/tradestation_api_wrapper/transport.py:142-181 | a run in which opening times out and the consumer gets a transport error |
| Transport.RefusalTimeoutIsReported | src/tradestation_api_wrapper/transport.py:136-179 | a run in which reading the body of a refused open times out and the consumer gets a network timeout |
| Transport.StoppingIsFinite | src/tradestation_api_wrapper/transport.py:110-163 | after a stop the reader takes at most eight more steps, among them at most one completed read and two waits for the queue |
| Transport.StoppingReaderCanMove | src/tradestation_api_wrapper/transport.py:117-147 | after a stop the reader always has a step that lowers the rank, even with a full queue and no consumer |
| Transport.ConsumerIsNotStranded | src/tradestation_api_wrapper/transport.py:144-158 | a consumer at an empty queue is never left waiting for a finished reader |
| SchemaClosure.ReferencesAreMentions | tools/pin_tradestation_spec.py:72-83 | the references of a value are those of the objects found at any path inside it |
| SchemaClosure.SchemaReferences | tools/pin_tradestation_spec.py:72-83 | the accumulating traversal collects exactly the references |
| SchemaClosure.ReferenceNamesTargetIff | tools/pin_tradestation_spec.py:75-77 | a reference is read as the schema it points to exactly if it does not point inside that schema |
| SchemaClosure.ReferencedSchemas | tools/pin_tradestation_spec.py:53-69 | the worklist ends on any graph, cyclic or not, and keeps exactly the defined schemas reachable from the paths |
| SchemaClosure.TurnKeeps | tools/pin_tradestation_spec.py:60-68 | one turn of the worklist keeps: all names met are reachable, and everything referred to is resolved or waiting |
| SchemaClosure.ClosedHoldsReachable | tools/pin_tradestation_spec.py:60-69 | a closed set of names holds everything reachable |
| SpecFilter.CollectPathTags | tools/pin_tradestation_spec.py:86-94 | collects exactly the tags of all operations, or fails where the source raises |
| SpecFilter.SpecDocument.FilterV3Only | tools/pin_tradestation_spec.py:22-50 | rewrites the document in place to the specified one, also where it stops half way |
| SpecFilter.FilterIsIdempotent | tools/pin_tradestation_spec.py:22-50 | filtering a filtered document succeeds and changes nothing |
| JsonPointer.ReferenceRoundTrip | tools/pin_tradestation_spec.py:75-77 | the reference to any place, whatever characters its names hold, is read back as that place |
| SpecReferences.CarriesAfter | tools/pin_tradestation_spec.py:22-50 | the filtered document carries a reference exactly if the v3 paths, a schema they reach or the rest of the document before did, of tags and groups only the entries in use |
| BrokenReferences.WholeSchemaIsReadIff | tools/pin_tradestation_spec.py:75-77 | a reference to a whole schema is followed to that schema exactly if its name holds neither slash nor tilde |
| BrokenReferences.KeptReferencesHold | tools/pin_tradestation_spec.py:22-69 | no reference to a whole schema of such a name, from a kept path or a kept schema, loses that schema |
| BrokenReferences.HoldsIff | tools/pin_tradestation_spec.py:22-50 | a pointer that resolved before still resolves, into a shortened list to the same entry, exactly if it leads into no removed path, no unreached schema and no entry at or behind a dropped one; and then to the same value, unless it names a container that is cut |
| BrokenReferences.NothingBreaksIff | tools/pin_tradestation_spec.py:22-83 | no local reference that resolved before is broken exactly if none carried by a kept part leads into a removed path, a schema not reached as the filter reads references, or an entry at or behind a dropped one |
| BrokenReferences.SharedResponseBreaks | tools/pin_tradestation_spec.py:22-50 | a document whose shared response loses the schema it refers to, whatever its name |
| BrokenReferences.PartOfSchemaBreaks | tools/pin_tradestation_spec.py:72-83 | a document whose kept v3 path loses the schema into which it refers |
| BrokenReferences.RemovedPathBreaks | tools/pin_tradestation_spec.py:26-27 | a document whose kept v3 path loses the path to which it refers, whatever other path that is |
| BrokenReferences.UnusedTagBreaks | tools/pin_tradestation_spec.py:35-41 | a document that loses the tag to which it refers |

## Left out

- TokenLock.CarefulRunsExclude: assumes that a rename removes the file that was judged and that a live creator writes its pid within the stale window; exclusion is false without them. Reading the pid and the age of the lock file is one step of the model.
- TokenRefresh.NoRefreshIsLost: rests on the same two assumptions, and takes the rename that installs a token file as one atomic write.
- StreamSession.SessionRefinesIdeal: covers connections that carried an initial part of a well-formed stream; a consumer that stops early sees a prefix of the acts, and exceptions raised by closing a source do not occur.
- Client.TradeStationClient.ReplaceOrder: the contract does not say which refusal is reported when several apply; turning an order into a replace request, with its advanced options, is an input.
- Transport.RunsAreSafe: a closed event loop, exceptions raised by closing the response, and a cancelled put that lands after the next one started do not occur; reads return.
- SpecFilter.SpecDocument.FilterV3Only: the order of members in an object is not modelled, nor is the extraction of the document from the web page.
- BrokenReferences.NothingBreaksIff: percent-encoding in the fragment of a reference is taken as plain text, and references to other documents are not looked at.
- RateLimit.DelayIsBounded: for base delays, maxima and ceilings that are not negative.
- Rest.WaitIsBounded: for base delays, maxima and ceilings that are not negative.
- `raw_decode` limits: recursion depth and the limit on digits of an integer; a lone surrogate inside a text chunk.
- HTTP-date values of Retry-After, float rounding, 28-digit decimal rounding.
- Rejection of a malformed acknowledgement or order by the data models after a successful response.
- `_process_is_running`: a process is alive or not, and a permission error counts as alive; a crashed pid may be given to a new process.
- The httpx transport, the blocking `send`, URL quoting, query building and request encoding.
- `OAuthManager` is a step machine rather than a class, because its methods interleave with those of other processes; the authorization-code exchange is one act that stores a token.
- A kill-switch file that appears or disappears during a call.
- Plain read endpoints, reconciliation, order status sets, redaction, payload hashes, PKCE and the loopback server: one-branch properties or foreign code.

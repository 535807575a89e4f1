# Pusher, verified

Pusher reads push requests from Kafka, filters them, sends them to APNS or Firebase, counts what became
of them, and publishes failures on feedback topics; a second program, the feedback listener, reads those
topics and deletes dead device tokens from one table per game and platform. Its functions are short. What
is hard is what holds over whole runs of goroutines that share bounded channels, counters and caches, and
that is what is proved here.

Three of its parts are goroutines around channels: the APNS sender, the Firebase handler and the feedback
listener. Each is a state with one field per goroutine and channel, a step relation with one step per
blocking point or visible effect, and theorems about every state that some run reaches, for every
interleaving, arrival and answer. What the source does by updating objects is done by classes on the heap:
the timeout heap, the invalid-token handler with its buffer and its statements, the APNS handler with its
shared metadata maps, the rate limiter and the deduplicator over a small Redis. Their methods are proved
against functions on values, and the theorems are about those functions. Time, the answers of APNS and
Firebase, and the failures of Redis and Postgres are parameters.

| files | what they model |
|---|---|
| `ApnsPipeline`, `ApnsLedger`, `ApnsProgress`, `ApnsAnswers` | consumer, router and one lane per game: push queue, workers, response queue, retries |
| `ApnsResponses`, `ApnsReasons` | the APNS message handler on the heap |
| `Firebase`, `FirebaseAnswers` | permits, senders, response pool |
| `Redis`, `RateLimiter`, `RateLimitRaces` | the rate limiter, call by call and under races |
| `Fnv`, `Dedup` | hash keys, sampling, the deduplication cache against its log |
| `Topic`, `TopicParsing` | the topic expression, its matcher and the topic formats |
| `Broker`, `DeleteStatement`, `TokenTables`, `InvalidTokens`, `Listener` | the feedback listener and its tables |
| `TimeoutHeap` | the heap of pending requests |
| `EndToEnd` | from a failed push to the row of its token |
| `Numerals`, `Sums`, `Wrappers` | decimal numbers, weighted sums, optional values |

Conservation laws are stated by weight: for every function from message numbers to numbers, the weights of
all places add up to the weight of what arrived. Weight one counts; weight one for a single number and zero
for all others says in how many places that message is.

## What turned out

- The APNS sender can stop for good when notifications may be retried. The response goroutine pushes a
  throttled notification back into the queue whose workers wait for that same goroutine. With a queue of P,
  a response channel of R and W workers this takes P + R + W + 1 notifications in one lane, no fewer, and
  nothing gets out of it. `ApnsProgress.DeadlockFreeIff`: the sender is free of it exactly when
  `maxRetryAttempts` is at most 1, whatever the capacities; with more attempts it is safe for up to P + R + W
  messages and no more (`ApnsProgress.DeadlockFreeUpToIff`).
- A message for an unknown game and a push that comes back without a response are never released, and keep
  the wait group above zero in every run that follows (`ApnsLedger.StrandedForever`). Both happen
  (`ApnsProgress.UnknownGameStrands`, `ApnsProgress.NoResponseStrands`), and of a sender that has finished
  they are exactly the messages not released (`ApnsProgress.RestReleases`).
- The rate limiter grants exactly the limit per device and minute of the clock. Of the spans of 60 seconds it
  keeps the limit for exactly those that begin with a minute; in all others twice the limit can pass
  (`RateLimiter.LimitHoldsIff`). C callers that race can pass C - 1 more than the limit, so the limit holds
  exactly for a single caller (`RateLimitRaces.RacesKeepTheLimitIff`), unless nothing is granted at all.
- A push of APNS that has expired still uses up the device's rate: the handler asks the limiter before it
  looks at the expiry (`ApnsResponses.ExpiredUsesRate`).
- Device token and message are joined by a bar before hashing. The parts can be told apart exactly when
  neither contains a bar (`Dedup.UnambiguousIff`); a bar anywhere gives a different pair with the same
  deduplication key (`Dedup.BarMoves`).
- A device that fails on an ios topic is reported under platform ios, which the broker ignores: its token is
  never deleted (`EndToEnd.GcmTokenIdentity`).
- A mark `deleteToken` that the sender of the push put into the metadata itself survives into the feedback of
  any failure. Mark and deletion agree exactly when the message brought no mark, or its token is deleted
  anyway (`EndToEnd.MarkedIffRouted`).
- A negative sampling percentage samples every device, as 100 and more do (`Dedup.SampledIsBelow`).

## Model

| member | source | states |
|---|---|---|
| `ApnsLedger.StepKeepsInv` | extensions/apns/apns_message_handler.go:308-368 | every step of consumer, router, workers and response goroutine keeps channel bounds, attempt counts, the sent count and, for every weighting, the balance of each lane and of the whole |
| `ApnsLedger.LaneConserves` | extensions/apns/apns_push_queue.go:132-162 | a step inside a lane moves weight between queue, workers, responses and outcomes without changing what was pushed |
| `ApnsLedger.PendingLedger` | extensions/kafka_consumer.go:272-284 | the wait group equals the messages held by consumer, inbox, router and lanes, plus pushes without response, plus unknown games; it is never negative |
| `ApnsLedger.ExactlyOnePlace` | pusher/pusher.go:87-103 | a message that arrived is in exactly one of: somewhere in the pipeline, stranded, released; so it is released at most once, and one that has not arrived is nowhere |
| `ApnsLedger.ZeroMeansConfirmed` | extensions/apns/apns_message_handler.go:187-226 | the wait group is zero exactly when no goroutine or channel holds an unreleased message and none is stranded |
| `ApnsLedger.PushesBounded` | extensions/apns/apns_message_handler.go:300-328 | in all lanes together no notification is pushed more than max(1, maxRetryAttempts) times |
| `ApnsLedger.AttemptsCountPushes` | extensions/apns/apns_message_handler.go:304-326 | SendAttempts of every notification in a lane is the number of its pushes, and one more while it waits to be pushed again |
| `ApnsLedger.StrandedForever` | pusher/pusher.go:100-102 | a message of an unknown game, or lost to a push without a response, is never released in any later run, and the wait group stays above zero |
| `ApnsLedger.AtMostOneOutcome` | extensions/apns/apns_message_handler.go:341-351 | over all lanes a notification is reported successful, reported failed or lost at most once |
| `ApnsLedger.MetricsAddUp` | extensions/apns/apns_message_handler.go:226-227 | in every state ack + failed + lost is at most sent + 1, and equals sent once lane and router are at rest, however often pushes were retried |
| `ApnsAnswers.EveryPushIsAnsweredOnce` | extensions/apns/apns_push_queue.go:135-155 | every push of a notification is still queued, with the client, answered, or lost without an answer |
| `ApnsAnswers.OnlyThrottledIsRetried` | extensions/apns/apns_message_handler.go:315-328 | a notification pushed k times was answered "TooManyRequests", with attempts left, at least k - 1 times |
| `ApnsAnswers.ResultsAreAnswers` | extensions/apns/apns_message_handler.go:341-351 | every success stands for an answer without a reason, every failure for one with a reason that is not retried |
| `ApnsAnswers.RestReportsAnswers` | extensions/apns/apns_message_handler.go:315-351 | a lane at rest has pushed again exactly as often as it was throttled with attempts left, and reported exactly the other answers, each as what it was |
| `ApnsAnswers.PushedByOwnHandler` | pusher/pusher.go:98-102 | in every run a message is pushed by the handler of the game it arrived for, and only games without a handler are turned away |
| `ApnsAnswers.HandledInOrder` | pusher/pusher.go:87-99 | every handler first pushes its messages in the order of their arrival |
| `ApnsProgress.StepSpends` | extensions/apns/apns_message_handler.go:315-328 | every step except an arrival strictly lowers a measure made of remaining attempts and stages |
| `ApnsProgress.RunsTerminate` | extensions/apns/apns_message_handler.go:308-328 | a run has at most (8 * maxRetryAttempts + 12) steps per arrival, whatever APNS answers |
| `ApnsProgress.QuietIff` | extensions/apns/apns_push_queue.go:132-162 | nothing but an arrival can happen exactly when every lane is empty or jammed and consumer and router are idle or stuck behind full channels |
| `ApnsProgress.JammedHolds` | extensions/apns/apns_push_queue.go:100-105 | a jammed lane holds exactly P + R + W + 1 unsettled notifications |
| `ApnsProgress.ProgressWithinCapacity` | extensions/apns/apns_push_queue.go:100-105 | while no lane holds more than P + R + W, the system is at rest exactly when it has nothing left to do |
| `ApnsProgress.JamOutlastsRuns` | extensions/apns/apns_message_handler.go:325-327 | a jammed lane stays jammed in every run, and the wait group never falls below what it holds |
| `ApnsProgress.JamReachable` | extensions/apns/apns_message_handler.go:318-326 | with two attempts or more, P + R + W + 1 arrivals can lead to a jam in which nothing can move, for all capacities and pool sizes |
| `ApnsProgress.DeadlockFreeIff` | extensions/apns/apns_message_handler.go:308-328 | every reachable state at rest has finished its work if and only if maxRetryAttempts is at most 1 |
| `ApnsProgress.DeadlockFreeUpToIff` | extensions/apns/apns_push_queue.go:100-105 | every state at rest after at most k arrivals has finished its work if and only if maxRetryAttempts is at most 1 or k at most P + R + W |
| `ApnsProgress.RestReleases` | extensions/apns/apns_message_handler.go:341 | of a sender that has finished, the messages released are exactly those not stranded |
| `ApnsProgress.UnknownGameStrands` | pusher/pusher.go:98-102 | a message of any game without a handler gets stranded |
| `ApnsProgress.NoResponseStrands` | extensions/apns/apns_push_queue.go:143-145 | in every configuration a push without a response strands its message |
| `ApnsProgress.ResultsOvertakeSent` | extensions/apns/apns_message_handler.go:226-227 | a success can be reported before its push is reported as sent, so the bound sent + 1 is attained |
| `ApnsResponses.Handler.HandleMessages` | extensions/apns/apns_message_handler.go:179-228 | a message is released at once or pushed once, by the checks in the source's order: unreadable exactly when it does not decode, expired only if its expiry is set and past, sent only if not; exact new state of handler, duplicate count and both Redis databases, which may be one |
| `ApnsResponses.MetadataOnArrival` | extensions/apns/apns_message_handler.go:237-250 | a notification's metadata is what was given, with game, device token, host name and second of arrival put in, and that second is what will be reported |
| `ApnsResponses.MetadataAtTheEnd` | extensions/apns/apns_message_handler.go:330-360 | the reported metadata has no timestamp, has the mark for the four reasons, and is otherwise unchanged |
| `ApnsResponses.PayloadKeepsTheRest` | extensions/apns/apns_message_handler.go:429-454 | only the key M of a payload that is an object is ever touched, and not when it holds something else than an object |
| `ApnsResponses.MergeKeepsWhatIsSet` | extensions/apns/apns_message_handler.go:448-452 | merging leaves what is set as it is and leaves out nothing else |
| `ApnsResponses.SameAlertIsDuplicate` | extensions/apns/apns_message_handler.go:195-206 | of two pushes to a device with the same alert, whatever else they carry, the second is a duplicate exactly while the first is remembered |
| `ApnsResponses.AlertIsLookedUp` | extensions/apns/apns_message_handler.go:255-275 | a payload is recognised by its device and its aps part, or the whole string |
| `ApnsResponses.NoAlertIsNew` | extensions/apns/apns_message_handler.go:256-273 | a payload without an alert is never compared with anything |
| `ApnsResponses.ExpiredUsesRate` | extensions/apns/apns_message_handler.go:212-225 | without errors a readable message uses up one unit of its device's rate unless the limit was reached, whether it has expired or not |
| `ApnsResponses.AddMetadataToPayload` | extensions/apns/apns_message_handler.go:429-454 | metadata goes under M where that is free or an object, for every order of the map iteration, and never overwrites what is set |
| `ApnsResponses.ScreeningBlocksNothing` | extensions/apns/apns_message_handler.go:195-217 | looking for duplicates never changes the verdict on a message, even when one Redis serves limiter and deduplicator |
| `ApnsResponses.Handler.HandleAPNSResponse` | extensions/apns/apns_message_handler.go:308-368 | it pushes again exactly when the reason is "TooManyRequests" and attempts are left, which is when the step system retries, then touching nothing but the attempt and the queue; otherwise one release, one result, the shared metadata finished and reported |
| `RateLimiter.Limiter.Allow` | extensions/rate_limiter.go:58-102 | verdict and Redis afterwards are those of the specification, in the presence of failed reads, bad values and failed or unacknowledged writes |
| `RateLimiter.OnlyTheCounterBlocks` | extensions/rate_limiter.go:65-101 | nothing that fails ever stops a message: only a number read from Redis that has reached the limit does |
| `RateLimiter.KeyAsPrinted` | extensions/rate_limiter.go:59 | the key is the device, a colon and the minute of the hour in decimal |
| `RateLimiter.CounterLivesAMinute` | extensions/rate_limiter.go:89-93 | after an increment the key is readable for exactly sixty seconds |
| `RateLimiter.KeyInjective` | extensions/rate_limiter.go:59 | two keys agree only for the same device and minute of the hour |
| `RateLimiter.IncrementTracks` | extensions/rate_limiter.go:89-93 | incrementing with a 60 s expiry counts for its own device and minute and for no later use of the same key |
| `RateLimiter.ExactlyTheLimit` | extensions/rate_limiter.go:59-93 | in any time-ordered run without errors, k calls of a device in an absolute minute are granted exactly min(k, limit) times |
| `RateLimiter.AtMostTwiceTheLimit` | extensions/rate_limiter.go:55-57 | at most twice the limit is granted to a device in any 60 s |
| `RateLimiter.TwiceTheLimitHappens` | extensions/rate_limiter.go:59 | in every span of 60 s that does not begin with a minute, a run grants twice the limit |
| `RateLimiter.LimitHoldsIff` | extensions/rate_limiter.go:55-57 | no run exceeds the limit in a given span of 60 s if and only if it begins with a minute or the limit grants nothing |
| `RateLimitRaces.HalvesMakeAllow` | extensions/rate_limiter.go:65-93 | a read followed by its increment is one call of Allow |
| `RateLimitRaces.GrantedBounded` | extensions/rate_limiter.go:65-93 | with at most C calls between read and increment, every interleaving grants at most limit + C - 1 messages per device and minute |
| `RateLimitRaces.CounterPlusWaiting` | extensions/rate_limiter.go:77-93 | when calls end in the minute they began, the stored counter plus the calls not yet counted equals the calls granted |
| `RateLimitRaces.BoundAttained` | extensions/rate_limiter.go:65-93 | the bound limit + C - 1 is reached by some interleaving |
| `RateLimitRaces.RacesKeepTheLimitIff` | extensions/rate_limiter.go:55-57 | no interleaving exceeds the limit if and only if there is at most one caller or the limit grants nothing |
| `InvalidTokens.SplitTokens` | feedback/invalid_token.go:191-201 | both platforms have a map, a group is present exactly when some token belongs to it, and holds its tokens in order of arrival |
| `DeleteStatement.Build` | feedback/invalid_token.go:212-226 | the text written piece by piece is the statement of the group, with the tokens as its parameters in order |
| `DeleteStatement.StatementAsText` | feedback/invalid_token.go:214-225 | the text for one token and for two |
| `DeleteStatement.ReadsStatement` | feedback/invalid_token.go:212-226 | the statement reads back as its table and placeholders ?0 to ?n-1 in order if and only if n > 0 |
| `InvalidTokens.Handler.DeleteTokensFromGame` | feedback/invalid_token.go:205-267 | the tables change as the statement says; an answered statement adds the rows its table lost to success and the tokens beyond them to nonexistent, any other adds its tokens to error, and nothing else moves |
| `InvalidTokens.FlushCountsFairly` | feedback/invalid_token.go:229-264 | over a whole flush every group is counted by what its own table has lost between the beginning and the end |
| `InvalidTokens.FlushErrors` | feedback/invalid_token.go:230-239 | a flush counts as errors exactly the tokens of the groups that were not answered |
| `InvalidTokens.Handler.DeleteTokens` | feedback/invalid_token.go:181-189 | for every order of the map iterations, each group has exactly one execution, sizes add up to the tokens, answers tell the rows lost, and the tables are those of deleting the tokens of the groups not refused one by one |
| `InvalidTokens.Handler.Receive` | feedback/invalid_token.go:149-160 | a token joins the buffer, and the buffer is flushed and emptied exactly when it is full |
| `InvalidTokens.Handler.Tick` | feedback/invalid_token.go:162-166 | the timer flushes and empties the buffer |
| `InvalidTokens.CountsAddUp` | feedback/invalid_token.go:229-264 | over any executions, success + nonexistent + error counts equal the sum of max(group size, rows affected) |
| `InvalidTokens.FlushDeletesEach` | feedback/invalid_token.go:177-189 | a flush without refusals leaves the tables that deleting its tokens one by one leaves |
| `InvalidTokens.GroupsFailAlone` | feedback/invalid_token.go:177-180 | a refused group keeps its rows, and the table of any other group is what it would be without the refusal |
| `TokenTables.TablesAreDistinct` | feedback/invalid_token.go:214 | distinct games and platforms have distinct tables, underscores in game names included |
| `TokenTables.GroupTokensInOrder` | feedback/invalid_token.go:196-198 | the tokens of a group are in order of arrival |
| `TokenTables.DeleteEachIsPurged` | feedback/invalid_token.go:203-239 | deleting tokens one by one amounts to purging each table of its tokens, so their order is immaterial |
| `TokenTables.PurgeOneMoreGroup` | feedback/invalid_token.go:184-188 | purging the table of one more group adds precisely that group's tokens to those deleted |
| `TokenTables.StatementPurges` | feedback/invalid_token.go:214-229 | executing the text of a group's statement removes exactly the rows of its tokens from its table, or nothing |
| `Broker.RoutesKnownPlatforms` | feedback/broker.go:153-181 | the broker emits no platform but apns and gcm |
| `Listener.TokensStayInOrder` | feedback/broker.go:115-181 | flushed batches, buffer, channel and the token in the broker's hand are, in order, the tokens of the messages the broker has taken |
| `Listener.RunReceives` | feedback/kafka_consumer.go:244-251 | a run has received exactly the records sent to it, in order, under game and platform of their topics |
| `Listener.ReleasedInOrder` | feedback/kafka_consumer.go:228-253 | messages are released once each in order of arrival; the wait group is the number not released, and zero only when nothing is under way |
| `Listener.BatchesAreBounded` | feedback/invalid_token.go:147-166 | between steps the buffer is shorter than its size and no batch is longer, under any mix of full and timed flushes |
| `Listener.HandlerMeetsOnlyGoodTokens` | feedback/invalid_token.go:191-198 | no token ever reaches SplitTokens without a map for its platform, or with a table name that is not one word |
| `Listener.FlushedIsFlush` | feedback/invalid_token.go:181-189 | the flush step of the listener is what the handler's statements do |
| `Listener.BatchingIsInvisible` | feedback/invalid_token.go:177-189 | in every state the tables are the initial ones with the accepted tokens of all batches deleted one by one |
| `Listener.DrainedMeansDeleted` | feedback/broker.go:115-181 | once drained without refusals, the tables are the initial ones with the token of every message received deleted one by one |
| `Listener.RunsTerminate` | feedback/broker.go:120-149 | without new messages only boundedly many working steps happen, however often the timer fires |
| `Listener.CanDrain` | feedback/invalid_token.go:147-173 | from every state a run without arrivals releases and flushes everything received |
| `TopicParsing.TriesTheGames` | extensions/common.go:34 | the ends that backtracking tries for the game group are exactly those of the games in the expression's language |
| `TopicParsing.GameLongestFirst` | extensions/common.go:34 | a longer game is tried before every shorter one |
| `TopicParsing.ParsesTheLongestGame` | extensions/common.go:43-49 | parsing returns (g, p) if and only if g is the longest game that a separator and platform p follow, and fails only when no game is announced |
| `TopicParsing.AnnouncesIff` | extensions/common.go:34 | a topic announces a game and a platform when it is "push-", the game, a hyphen or underscore, gcm, apns or ios, and anything |
| `TopicParsing.ParseInvertsPrint` | extensions/kafka_producer.go:131-132 | parsing any of the printed topics gives back game and platform if and only if the game is in the expression's language, platform names inside the game included |
| `TopicParsing.TopicsReadBack` | pusher/gcm.go:86-90 | the three formats written out read back as their game and platform if and only if the game is in the expression's language |
| `TimeoutHeap.TimeoutHeap.Swap` | extensions/timeout_heap.go:67-71 | two nodes trade places and indices, nothing else changes |
| `TimeoutHeap.TimeoutHeap.Push` | extensions/timeout_heap.go:73-80 | sifting up keeps heap order and indices and adds exactly the node |
| `TimeoutHeap.TimeoutHeap.Pop` | extensions/timeout_heap.go:82-91 | the root leaves with index -1; sifting down keeps heap order, indices and all other nodes |
| `TimeoutHeap.TimeoutHeap.AddRequest` | extensions/timeout_heap.go:129-135 | a new node expiring one timeout from now joins the heap, and the call continues the history that accounts for the contents |
| `TimeoutHeap.TimeoutHeap.CompleteHasExpiredRequest` | extensions/timeout_heap.go:100-116 | it takes an expired node that is earliest of all, or refuses because no stored node has expired, and continues the history |
| `TimeoutHeap.RootIsEarliest` | extensions/timeout_heap.go:109 | in heap order no node expires before the root |
| `TimeoutHeap.HistoryConserves` | extensions/timeout_heap.go:129-141 | over the history of any heap, what was added is what was taken and what is left, node by node |
| `TimeoutHeap.TakenInOrder` | extensions/timeout_heap.go:137-141 | over the history of any heap whose clock does not go back, requests are taken in the order they expire, whatever is added in between and whatever the timeout |
| `Firebase.PermitsAddUp` | extensions/firebase/message_handler.go:166-187 | free permits and running sends add up to the number of workers, so returning a permit never blocks |
| `Firebase.InFlightBounded` | extensions/firebase/message_handler.go:69-78 | at most 3N messages are in sends, response channel and response pool |
| `Firebase.ConfirmedOnce` | extensions/firebase/message_handler.go:83-145 | each message handed over is held in exactly one place or has been released exactly once |
| `Firebase.ConfirmedAfterReport` | extensions/firebase/message_handler.go:192-206 | a release follows a rejection or exactly one report of success or failure; no message is both sent and rejected, so one that was sent is released after exactly one result |
| `Firebase.ResultsFollowSent` | extensions/firebase/message_handler.go:175-202 | a result is reported only for a message reported as sent, so ack + failed never exceeds sent |
| `FirebaseAnswers.ReportedAsAnswered` | extensions/firebase/message_handler.go:192-206 | a success is only reported for a push that went through, a failure for one that did not, and once all is done every answer has been reported as what it was |
| `FirebaseAnswers.AnsweredOnce` | extensions/firebase/message_handler.go:166-187 | the client is asked about a message at most once |
| `Firebase.DeadlockFreeIff` | extensions/firebase/message_handler.go:69-78 | every state at rest has finished its work if and only if there is at least one worker |
| `Firebase.RunsTerminate` | extensions/firebase/message_handler.go:166-206 | a run has boundedly many steps per message handed over |
| `Fnv.XorBits` | extensions/dedup_messages.go:142 | the exclusive or of a hash step sets a bit exactly when the bits of its arguments differ |
| `Fnv.StepIsFnv1a` | extensions/dedup_messages.go:142 | a step is the bitwise exclusive or of state and byte, times the 64-bit FNV prime, modulo 2^64 (section 2 of draft-eastlake-fnv) |
| `Fnv.HashInOrder` | extensions/dedup_messages.go:142-145 | the hash starts from the 64-bit offset basis and takes the bytes in order |
| `Fnv.FoldConcat` | extensions/dedup_messages.go:142-145 | writing pieces one after the other hashes their concatenation |
| `Fnv.StepIsBijective` | extensions/dedup_messages.go:142 | for a fixed byte a step has an inverse on all 64-bit states |
| `Fnv.SuffixKeepsCollisions` | extensions/dedup_messages.go:141-147 | a shared suffix neither makes nor removes a collision |
| `Fnv.OneByteSeparates` | extensions/dedup_messages.go:141-147 | strings of equal length that differ in exactly one byte never have the same hash |
| `Dedup.Deduplicator.IsUnique` | extensions/dedup_messages.go:77-139 | verdict and cache afterwards are those of the specification, fail-open on errors |
| `Dedup.OnlyRedisFindsDuplicates` | extensions/dedup_messages.go:120-138 | a message is a duplicate exactly when it is sampled, Redis answers, and its key is live |
| `Dedup.CheckedIff` | extensions/dedup_messages.go:79-106 | a device is checked exactly when its game is configured with a negative percentage or one above the device's percentile |
| `Dedup.SampleBits` | extensions/dedup_messages.go:99 | the sample value is the top sixteen bits of the device's hash |
| `Dedup.CacheAgreesWithLog` | extensions/dedup_messages.go:112-138 | a key is live in Redis exactly when some accepted call of the log still holds it |
| `Dedup.UniqueIffForgotten` | extensions/dedup_messages.go:112-138 | a sampled call is accepted exactly when no earlier accepted call with its key lies within the last ttl |
| `Dedup.AcceptancesAreApart` | extensions/dedup_messages.go:112-138 | two acceptances of a key are at least a ttl apart; duplicates do not extend the window |
| `Dedup.KeyHashesTheJoin` | extensions/dedup_messages.go:141-147 | the key is the decimal hash of device, bar and message joined |
| `Dedup.OneByteChangesTheKey` | extensions/dedup_messages.go:141-147 | messages that differ in one byte never share a key for a device |
| `Dedup.DevicesCollideIff` | extensions/dedup_messages.go:141-147 | two devices share the key of a message exactly when their own hashes collide |
| `Dedup.UnambiguousIff` | extensions/dedup_messages.go:143-145 | no other device and message are joined to the same bytes if and only if neither contains a bar |
| `Dedup.BarMoves` | extensions/dedup_messages.go:144 | a bar inside device or message can be taken for the separator: the pair cut there is another with the same key |
| `Dedup.SampledIsBelow` | extensions/dedup_messages.go:88-110 | the three-way branch is the one test percentile < percentage, except that a negative percentage samples everything |
| `Dedup.SampleGrows` | extensions/dedup_messages.go:100-106 | the sampled devices grow with the percentage |
| `Dedup.SampleSizeExact` | extensions/dedup_messages.go:99-106 | of the 65536 sample values exactly 655 * p + min(p, 36) are sampled |
| `EndToEnd.ApnsTokenIdentity` | extensions/apns/apns_message_handler.go:353-362 | through topic, parser and broker a failed response becomes an invalid token of the same device, game and platform if and only if its reason is fatal and routing is on |
| `EndToEnd.BothListsAgree` | feedback/broker.go:155 | the handler's list of fatal reasons and the broker's are the same four |
| `EndToEnd.MarkedIffRouted` | extensions/apns/apns_message_handler.go:353-360 | for all metadata, the mark in the feedback agrees with the broker's routing if and only if the message brought no mark or its reason is fatal |
| `EndToEnd.BroughtMarkMisleads` | extensions/apns/apns_message_handler.go:330-360 | a push throttled to the end keeps a mark its sender put there, and is not routed |
| `EndToEnd.GcmTokenIdentity` | extensions/firebase/message_handler.go:233-246 | from message topic to broker a failed push becomes an invalid token exactly when its platform is gcm, its error fatal and routing on |
| `EndToEnd.DrainedRows` | feedback/invalid_token.go:177-189 | at the end of a drained run, and unless this game and platform were refused, a row of table game_platform is gone if and only if a record received on a topic of that game and platform says its token is dead, and untouched otherwise, whatever became of other groups |
| `EndToEnd.OnlyCondemnedRowsGo` | feedback/broker.go:153-181 | at the end of any run, refusals or not, a row is as before, or condemned by a record received and gone altogether |
| `EndToEnd.RejectedTokenIsGone` | feedback/broker.go:153-166 | once a run has received the feedback about a token that APNS rejected for good and is drained, the token is in no row of table game_apns, unless the statements of that table were refused |

## Left out

- Goroutines: the APNS sender, the Firebase handler and the listener are step systems on values, since their
  point is interleaving; a step is one channel operation or one visible effect. The bodies that update
  objects between those points are the classes.
- Channels of capacity 0, which hand over without a buffer; every capacity in the step systems is at least 1.
- The pool of APNS clients: a worker takes a client and puts it back before using it, so it never holds one
  at a blocking point. A pool of size 0, which would block every worker, is not modelled.
- Shutdown: closing of channels, stop signals and waiting with a timeout. Tokens in the buffer when the
  handler stops are dropped by the source.
- A wait group of nil, which switches the accounting off.
- A topic that does not match the expression: the source panics on it; here parsing returns None and the
  listener's consumer has no step for it.
- JSON: a document either decodes to the fields the code looks at or does not; encoding the aps part for the
  deduplicator is some fixed function to bytes.
- Retry delays, tickers and the pause between two tokens only order steps.
- Clock and time zone: minutes are counted from a fixed start, so a zone change that repeats part of an hour
  is not modelled; timestamps do not overflow.
- CounterPlusWaiting: is stated for calls that end in the minute they began; GrantedBounded needs no such
  assumption.
- Redis and Postgres: maps with expiry and tables of rows. In a statement the table name is read as one word;
  case folding and quoting of identifiers by Postgres are not modelled.
- Kafka: delivery, offsets and repeated delivery.
- Reading configuration, logging, tracing, latency metrics, the fan-out to several reporters, and the
  translation of APNS and Firebase error codes to names for metrics.

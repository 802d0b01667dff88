# A verified model of the tsdb-gw stateful cores

tsdb-gw is a gateway in front of hosted time-series databases. It authenticates clients against
grafana.com, validates the metrics they send, and publishes them to Kafka. A persister re-sends
host metadata at a fixed interval. This project models the parts of it that keep state and proves
that each fast, in-place or concurrent mechanism does what a simple description of it says.

| component | modules |
|---|---|
| key cache (org map, 256 shards, 15-byte subkeys, background clearing) | `Keys`, `KeyCache`, `KeyCacheRuns`, `KeyCacheConcurrent` |
| Kafka publisher (topic filters, org rewriting in place, buffer memo, pools, counters) | `Schema`, `PublishSpec`, `Publisher`, `Buffers`, `PublishForms`, `PublishBatch`, `PublishCounters`, `PublishMeaning` |
| what consumers of the topics can rely on | `PublishRuns`, `PublishStates`, `PublishLosses`, `PublisherRuns` |
| settings and flags | `Text`, `TopicSettings`, `Flags` |
| token and instance caches | `AuthCache`, `AuthCheck`, `AuthRuns`, `AuthConcurrent` |
| carbon ingest | `Carbon` |
| HTTP batch preparation and validation | `Validation`, `IngestSpec`, `Ingest` |
| persister | `PersisterSpec`, `Persister`, `PersisterRuns` |

Code that changes things in place is modelled by classes and methods (`KeyCache`, `Publisher`,
`Buffers`, `Flags`, `AuthCache`, `AuthCheck`, `Ingest`, `Persister`, the two-pass `EatDotsInPlace`).
Each method is proved against a specification function, and the lemmas are about those functions.
Locks and channels are modelled by step machines with one step per critical section
(`KeyCacheConcurrent`, `AuthConcurrent`, `Carbon`); a run is any list of steps, and a step that is
not enabled does nothing. Automatic induction is switched off throughout: every inductive proof makes
its recursive calls itself.

Foreign code is a parameter: the hash behind a metric id, the partition functions, the storage
schema lookup and the encoded size are the function fields of `Schema.World`; grafana.com's replies,
the outcome of a Kafka send, of a push and of a table operation, the decoding of a stored payload,
clocks and the order of map iteration are arguments. Strings are sequences of code points, as the
functions that trim and split them see them; where the code looks at single bytes it looks for ASCII
characters, and UTF-8 orders strings as their code points do. Unsigned 32- and 64-bit conversions are
written out where the code makes them.

## Results that differ from what one might expect

- A point is preceded by its definition in its own topic and partition, in every run that loses no
  definition, if and only if no two metrics of one identity clash on their way to the topics
  (`PublishRuns.DefinitionFirstIff`). With distinct topic names this is a condition on the
  organisations alone (`CoherentByOrgs`). Topics that map different organisations to the same one can
  break it; settings without a rewrite list never do.
- Keys stay touched when a send fails or a call is rejected. With coherent topics the promise can be
  kept from a state on if and only if its log is in order and covers every key in the cache
  (`PublishStates.SafeIff`). So a failed send does no damage if and only if what arrived is in order
  and every full metric it lost is in the log all the same; a rejected call if and only if every key
  its metrics touch up to the first error is covered; an overtaken send if and only if every full
  metric it has yet to deliver is in the log already. From an empty log and without coherence,
  `PublishLosses` has the cases of two calls.
- What a topic is sent is the metric as the topic's organisation sees it if and only if the buffer was
  made after a rewrite, or the id fits the fields and the tags were sorted by then. It is the topic
  that made the buffer that counts: for a metric whose id does not fit, as administrators may send, a
  rewriting topic further on, or between the two, does not help, and the bytes depend on the order of
  the topics (`PublishForms.SentAsSeenIff`, `MemoKeepsForm`, `OrderMatters`).
- `SetId` and the partitioners by tag sort a metric's tags in place, so a metric that was not
  canonical can come back from `Publish` with sorted tags and a new id (`PublishForms.RewriteUndone`).
  An error in the topic loop leaves the organisation rewritten; carbon retries such a metric as the
  other organisation's, and can thereby count it as valid without sending it (`Carbon.RetryDropsMetric`).
- The published counters count a message once per configured topic of that name
  (`PublishCounters.CountersAddUp`).
- A token whose organisation is not permitted is remembered as an invalid key by `Auth`, while the
  background validation takes the same reply for a failure. The two judgements differ for exactly the
  expired tokens with that reply (`AuthCheck.JudgementsDifferIff`), and a token that was accepted once
  stays accepted however often its organisation is refused (`AuthRuns.RefusedOrgStaysAccepted`).
- Unread entries are dropped at their second expiry in all cases exactly if the time-to-live is at
  least one second less one nanosecond (`AuthRuns.SecondExpiryDropsIff`).
- The comment on `AddInvalid` speaks of up to 10 examples per error; the code keeps 9.
- `PersistHandler` stores a payload before decoding it: an undecodable one replaces a good one in the
  table while memory keeps the old metrics (`PersisterRuns.PersistAgreesIff`, `UndecodableDrifts`),
  and on a restart it hides every later row (`PersisterSpec.ReloadIff`, `OneBadRowHidesOthers`).
- A refused push inside the loop of the persister's `Send` returns with the mutex held, a refused
  last push does not (`Persister.Persister.Send`).
- Stopping the carbon listener abandons what the workers have buffered (`Carbon.AbandonedForever`).

## Model

| member | source | states |
|---|---|---|
| `KeyCache.Membership` | publish/kafka/keycache/shard.go:9-12 | a 16-byte key is held exactly if its last 15 bytes are in the shard of its first byte |
| `KeyCache.SumIsCardinality` | publish/kafka/keycache/cache.go:31-37 | the shard sizes add up to the number of distinct 16-byte keys |
| `KeyCache.Cache.constructor` | publish/kafka/keycache/cache.go:16-22 | a new cache holds no key |
| `KeyCache.Cache.Touch` | publish/kafka/keycache/cache.go:25-28 | on the set of keys: membership, then insertion |
| `KeyCache.Cache.TouchShard` | publish/kafka/keycache/shard.go:28-36 | only the slot of the first byte changes, by the last 15 bytes |
| `KeyCache.Cache.Len` | publish/kafka/keycache/cache.go:31-37 | the loop over 256 shards gives the cardinality of the key set |
| `KeyCache.Cache.Clear` | publish/kafka/keycache/cache.go:40-43 | removes exactly the keys with the given first byte and returns how many are left |
| `KeyCache.FlattenSame` | publish/kafka/keycache/keycache.go:86-93 | two org maps stand for the same set exactly if they agree on every organisation, so dropping empty caches is unobservable |
| `KeyCache.ClearAllFlattens` | publish/kafka/keycache/keycache.go:86-93 | clearing cache by cache and unlinking the empty ones is one filter on the whole set, and no empty cache stays |
| `KeyCache.KeyCache.constructor` | publish/kafka/keycache/keycache.go:22-29 | starts empty; 256 tick periods never exceed the interval and miss it by less than 256 |
| `KeyCache.KeyCache.CacheOf` | publish/kafka/keycache/keycache.go:34-47 | creating a missing organisation's cache changes nothing observable |
| `KeyCache.KeyCache.Touch` | publish/kafka/keycache/keycache.go:33-49 | on the set of (organisation, key): membership, then insertion |
| `KeyCache.KeyCache.Len` | publish/kafka/keycache/keycache.go:52-64 | the cardinality of the set of (organisation, key) |
| `KeyCache.KeyCache.Tick` | publish/kafka/keycache/keycache.go:67-99 | removes exactly the keys whose first byte is `clearIdx`, unlinks every empty cache, moves to the next shard modulo 256 |
| `KeyCacheRuns.TurnOf` | publish/kafka/keycache/keycache.go:67-99 | from any index, 256 consecutive ticks clear each shard exactly once |
| `KeyCacheRuns.ForgottenExactly` | publish/kafka/keycache/keycache.go:67-99 | an untouched key survives a run exactly if the ticks in it do not reach its shard's turn |
| `KeyCacheRuns.ResendBound` | publish/kafka/keycache/keycache.go:33-49 | after any history, a second touch answers true exactly until the shard's turn, and false once 256 ticks have passed |
| `KeyCacheRuns.Perform` | publish/kafka/keycache/keycache.go:33-99 | the events of a run are what the methods do to the set and the index |
| `KeyCacheConcurrent.StepKeeps` | publish/kafka/keycache/keycache.go:33-99 | every lock-granular step of `Touch` and `clear` keeps the invariant tying cache contents to the log |
| `KeyCacheConcurrent.ReachableInv` | publish/kafka/keycache/keycache.go:33-99 | the invariant holds in every interleaving |
| `KeyCacheConcurrent.TouchSound` | publish/kafka/keycache/keycache.go:33-49 | in every interleaving a touch that answers true was preceded by one of the same organisation and key, even through an unlinked cache |
| `KeyCacheConcurrent.UnlinkSound` | publish/kafka/keycache/keycache.go:76-93 | the entry `clear` deletes is the cache it snapshotted, and that cache was empty when its `Len` scan counted the first shard |
| `KeyCacheConcurrent.KeptSound` | publish/kafka/keycache/keycache.go:86-93 | a cache the goroutine keeps has a record of some key |
| `KeyCacheConcurrent.ReachableInCycle` | publish/kafka/keycache/keycache.go:76-97 | in every interleaving what is linked is what the log says, and each cycle visits all it snapshotted |
| `KeyCacheConcurrent.CycleSound` | publish/kafka/keycache/keycache.go:66-99 | cycle `q` is for shard `q` modulo 256, and when it is over that shard was reset in every cache linked when it began |
| `KeyCacheConcurrent.ResendAfterCycle` | publish/kafka/keycache/keycache.go:33-99 | the resend bound in every interleaving: after the cycle of its shard a key is answered false again, unless touched in between |
| `Schema.SortSorts` | vendor/github.com/grafana/metrictank/schema/metric.go:66-82 | the in-place tag sort of `SetId` yields a sorted list |
| `Schema.SortPermutes` | vendor/github.com/grafana/metrictank/schema/metric.go:66-82 | and a permutation of the tags |
| `Schema.CanonFacts` | vendor/github.com/grafana/metrictank/schema/metric.go:66-82 | `SetId` is idempotent and does not depend on the order of the tags |
| `Schema.SortIff` | vendor/github.com/grafana/metrictank/schema/metric.go:66-67 | tag lists sort to the same if and only if they are permutations |
| `Schema.IdsSeparate` | vendor/github.com/grafana/metrictank/schema/metric.go:66-82 | without a hash collision ids are equal if and only if organisation, name, unit, type, interval and the tags in any order are |
| `Schema.KeysSeparate` | publish/kafka/publish.go:320-324 | an id has a key if and only if its organisation fits 32 bits, and different ids have different keys |
| `Schema.UnderBack` | publish/kafka/publish.go:411-439 | changing the organisation there and back with `SetId` each time is one `SetId` |
| `Publisher.MetricData.SetId` | vendor/github.com/grafana/metrictank/schema/metric.go:66-82 | the object becomes the canonical form of its record; name, value, time and organisation stay |
| `Buffers.Buffer.Reslice` | publish/kafka/publish.go:335-342 | the reslice to 33 or 29 is only possible within the capacity |
| `Buffers.Buffer.Append` | publish/kafka/publish.go:345-354 | marshalling uses the buffer itself or a new larger one |
| `Buffers.Pool.Get` | util/buffer_pool.go:18-20 | a buffer that is then in no pool: a pooled one, or a new one of the pool's capacity |
| `Buffers.Pool.Put` | util/buffer_pool.go:22-24 | the buffer is in the pool, emptied |
| `Publisher.Publisher.FullBuffer` | publish/kafka/publish.go:346-348 | a buffer nobody else holds, with the full metric |
| `Publisher.Publisher.PointBuffer` | publish/kafka/publish.go:328-344 | a buffer of capacity 33 nobody else holds, resliced within range |
| `Publisher.Publisher.DataFromMetricData` | publish/kafka/publish.go:316-356 | a point exactly if the key was seen, and the key is then seen; an error exactly if the id has no key; the pools stay disjoint and free of duplicates; what the buffer carries is pinned by `PublishForms.MessageCarries` |
| `Publisher.Publisher.BufferFor` | publish/kafka/publish.go:418-428 | the memo's buffer, or a new one entered in the memo and in the release list |
| `Publisher.Publisher.Discards` | publish/kafka/publish.go:401-405 | some discard prefix of the topic is a prefix of the name |
| `Publisher.Publisher.RewriteOrg` | publish/kafka/publish.go:411-416 | the organisation is rewritten in place exactly for the topic's source |
| `Publisher.Publisher.PartitionAndRestore` | publish/kafka/publish.go:430-439 | the partition of the metric as rewritten; organisation and id restored, unless partitioning fails |
| `Publisher.Publisher.SendTo` | publish/kafka/publish.go:411-456 | a topic that takes the metric does what `PublishSpec.SendStep` says, on metric, keys, drafts, buffers and counts |
| `Publisher.Publisher.SendBuffer` | publish/kafka/publish.go:430-456 | partition, restore and append one message with the memo's buffer |
| `Publisher.Publisher.PublishTopics` | publish/kafka/publish.go:399-457 | the topic loop follows `PublishSpec.Topics`, also where an error ends it |
| `Publisher.Publisher.PublishMetric` | publish/kafka/publish.go:383-457 | one metric follows `PublishSpec.Through`, interval deduction included |
| `Publisher.Publisher.PublishMetrics` | publish/kafka/publish.go:383-458 | the metric loop follows `PublishSpec.Metrics`; buffers held are pairwise different and in no pool |
| `Publisher.Publisher.Release` | publish/kafka/publish.go:460-468 | every buffer of the call goes to one pool once: capacity 33 to the one, others to the other |
| `Publisher.Publisher.Report` | publish/kafka/publish.go:485-493 | each counter grows by the messages of its kind, once per configured topic of that name |
| `Publisher.Publisher.Send` | publish/kafka/publish.go:460-494 | the log grows by the acknowledged messages, counters only on success, buffers released in either case and only then |
| `Publisher.Publisher.Publish` | publish/kafka/publish.go:358-495 | for every batch, outcome and state: the answer, the log, the keys, the metrics and the counters are those of the step form; pools and key cache stay valid; without a producer nothing happens; every acknowledged message carries value and time of a metric of the call, and with distinct names each counter rises by the messages of its kind |
| `PublishForms.MessagesAre` | publish/kafka/publish.go:399-457 | one message per topic that takes the metric, in topic order, and none for the others |
| `PublishForms.LoopMeans` | publish/kafka/publish.go:395-457 | for every metric: the topic loop gets through if and only if each buffer made has a key and each taking topic a partition; then messages, memo, keys and one touch per distinct effective organisation are the described ones; else the first failing topic leaves metric and keys as it saw them |
| `PublishForms.RewriteUndone` | publish/kafka/publish.go:411-439 | for every metric: past the loop only id and tag order can differ; on an error the organisation is foreign if and only if the first failing topic rewrites it |
| `PublishForms.FormFacts` | publish/kafka/publish.go:411-439 | a metric with a consistent id comes back exactly as it was |
| `PublishForms.MadeAsSeenIff` | publish/kafka/publish.go:411-428 | a topic that makes a buffer encodes its organisation's view of the metric if and only if it or an earlier topic rewrote it, or the id fits and the tags are sorted by then |
| `PublishForms.SentAsSeenIff` | publish/kafka/publish.go:418-446 | the message of a topic, from the memoised buffer: a full metric is that of the topic's view, and a point has its key, if and only if that holds where the buffer was made |
| `PublishForms.MemoKeepsForm` | publish/kafka/publish.go:418-428 | a plain topic after a rewriting one is sent the buffer of the plain topic before it, not its own view |
| `PublishForms.OrderMatters` | publish/kafka/publish.go:395-428 | for a metric whose id does not fit, a plain topic gets different bytes before and after a rewriting one |
| `PublishForms.MessageCarries` | publish/kafka/publish.go:328-353 | a message carries value and time of its metric, the time of a point modulo 2^32; it is a point with organisation, without, or a full metric as configured, and a point has the key of the id encoded |
| `PublishForms.MessagePartition` | publish/kafka/publish.go:430-430 | the partition is that of the topic's method, of its own number of partitions and of the organisation it sees, the name, or name and tags |
| `PublishSpec.AcknowledgedAre` | publish/kafka/publish.go:470-482 | what arrives of a payload arrives once and in order |
| `PublishBatch.SettleTwice` | publish/kafka/publish.go:383-458 | a metric listed twice is not changed by its second turn |
| `PublishBatch.BatchMeans` | publish/kafka/publish.go:383-458 | for every batch: the loops reach the end if and only if every metric has or gets an interval and passes all topics; then keys, payload in metric-then-topic order and metrics are the described ones; else the first failing metric leaves keys and metrics as described |
| `PublishBatch.CalledLeaves` | publish/kafka/publish.go:383-458 | what any call leaves of each of its metrics: settled before the failing one, untouched after it |
| `PublishBatch.ForeignIff` | publish/kafka/publish.go:411-439 | a call leaves a metric with another organisation if and only if that metric stops it at a topic that rewrites |
| `PublishBatch.CalledKeys` | publish/kafka/publish.go:383-433 | a call gets through if and only if each of its metrics would; the keys it touches, rejected or not, told from its metrics alone |
| `PublishBatch.CallCarries` | publish/kafka/publish.go:383-458 | every message of a call carries value and time of a metric of the call |
| `PublishBatch.CallCountedByKind` | publish/kafka/publish.go:447-454 | with distinct names each counter counts the full metrics, the points or the points without organisation |
| `PublishBatch.CalledAnyway` | publish/kafka/publish.go:383-458 | the loops do the same for different objects whatever they are called |
| `PublishBatch.CallCounted` | publish/kafka/publish.go:441-454 | for every successful call the counters report at least the messages sent, and exactly those if and only if no topic name of theirs is configured twice |
| `PublishBatch.DistinctNamesCounted` | publish/kafka/publish.go:485-493 | with distinct topic names every successful call reports exactly what it sent |
| `PublishCounters.CountersAddUp` | publish/kafka/publish.go:485-493 | the three counters sum to the number of messages if and only if every message's topic name is configured once |
| `PublishMeaning.CanonicalMessages` | publish/kafka/publish.go:395-457 | for a metric with a consistent id each message is as if encoded on its own for its topic's organisation |
| `PublishMeaning.CanonicalTouches` | publish/kafka/publish.go:418-428 | and each of its keys is touched exactly once |
| `PublishMeaning.TopicsMean` | publish/kafka/publish.go:395-457 | the topic loop for such metrics gets through if and only if every taking topic is deliverable, and yields the simple form |
| `PublishMeaning.MetricsMean` | publish/kafka/publish.go:383-458 | the batch loop for such metrics meets the simple form: payload, keys, metrics unchanged but for a deduced interval |
| `PublishRuns.NoRewriteCoherent` | publish/kafka/publish.go:411-416 | without rewriting every configuration is coherent |
| `PublishRuns.FullFor` | publish/kafka/publish.go:325-349 | whichever topic gets a metric, by the time its message is sent a full metric that describes it is in the log |
| `PublishRuns.ArrivedKeeps` | publish/kafka/publish.go:470-482 | losing points only keeps definition before point |
| `PublishRuns.PublishKeeps` | publish/kafka/publish.go:383-494 | every call that gets through and loses no full metric keeps the invariant between keys and log |
| `PublishRuns.StepKeeps` | publish/kafka/publish.go:358-495 | so does every event of a run that does no harm, ticks and rejected calls included |
| `PublishRuns.CoherentSuffices` | publish/kafka/publish.go:316-495 | with coherent topics definition before point survives failed sends that lose points only and rejected calls that touched no new key |
| `PublishRuns.IncoherentRun` | publish/kafka/publish.go:407-428 | every clash of two metrics yields a run of two delivered calls with an unexplained point |
| `PublishRuns.DefinitionFirstIff` | publish/kafka/publish.go:316-495 | definition before point holds in every run that does no harm if and only if the topics are coherent or points are switched off |
| `PublishRuns.CoherentByOrgs` | publish/kafka/publish.go:407-416 | with distinct topic names coherence is a condition on organisations, and on partitions where points do not carry the organisation |
| `PublishRuns.ParsedWithoutRewrites` | publish/kafka/publish.go:179-194 | settings parsed without a rewrite list keep the promise |
| `PublishStates.SafeIff` | publish/kafka/publish.go:316-495 | for every state: all harmless runs from it keep definition before point if and only if its log is in order and covers every cached key |
| `PublishStates.UncoveredBreaks` | publish/kafka/publish.go:325-344 | a key without its definition has a harmless call that sends an unexplained point |
| `PublishStates.SendStaysCoveredIff` | publish/kafka/publish.go:470-482 | a call in any covered state leaves a covered one if and only if every full metric lost is in the log all the same |
| `PublishStates.SafeAfterSendIff` | publish/kafka/publish.go:470-482 | the state after a send is safe if and only if that is so and what arrived is in order |
| `PublishStates.SafeAfterRejectionIff` | publish/kafka/publish.go:421-433 | the state after a rejected call is safe if and only if every key its metrics touch up to the first error is covered |
| `PublishStates.OvertakingSafeIff` | publish/kafka/publish.go:458-470 | between a call's loops and its send it is safe for others to send if and only if its full metrics are all in the log already |
| `PublishLosses.LostSendIff` | publish/kafka/publish.go:470-482 | from an empty log, a send and its repetition: kept if and only if every full metric of the first arrived |
| `PublishLosses.RejectedIff` | publish/kafka/publish.go:421-433 | from an empty log, a rejected call and a later one: kept if and only if the rejected call's metrics touch none of the later metric's keys up to the first error |
| `PublishLosses.RejectedCallBreaksOrder` | publish/kafka/publish.go:421-433 | a metric that gets its batch rejected leaves the keys of the one before it touched and undefined |
| `PublishLosses.ReorderedSendBreaksOrder` | publish/kafka/publish.go:325-349 | two calls whose sends overtake their touches put the point ahead of its definition, in the right order they do not |
| `PublisherRuns.Create` | publish/kafka/publish.go:200-301 | a new publisher starts with the promise kept |
| `PublisherRuns.Publish` | publish/kafka/publish.go:358-495 | the object's `Publish` keeps the promise about its key cache and its log |
| `PublisherRuns.Tick` | publish/kafka/keycache/keycache.go:67-99 | and so does a tick of its key cache |
| `PublisherRuns.PublishAsEvent` | publish/kafka/publish.go:358-495 | a call of the object on different metrics is the event of the runs, on keys, index and log |
| `PublisherRuns.TickAsEvent` | publish/kafka/keycache/keycache.go:67-99 | and so is a tick |
| `TopicSettings.Parse` | publish/kafka/publish.go:116-198 | total; succeeds if and only if counts fit and entries parse; then one setting per topic, with shared or positional entries |
| `TopicSettings.ParseTopics` | publish/kafka/publish.go:141-197 | the loop succeeds if and only if every entry looked at parses |
| `TopicSettings.PrefixesClean` | publish/kafka/publish.go:171-177 | no discard prefix is empty or contains the separator |
| `TopicSettings.SharedByAll` | publish/kafka/publish.go:129-163 | one scheme and at most one organisation hold for any number of topics; without further options nothing is discarded or rewritten |
| `TopicSettings.RewriteRoundTrip` | publish/kafka/publish.go:179-194 | `a:b` rewrites `a` to `b`, for all unsigned 64-bit numbers, taken as signed |
| `TopicSettings.RewriteEntryIff` | publish/kafka/publish.go:179-194 | an entry is read if and only if it is two such numbers around one colon |
| `TopicSettings.MethodNames` | publish/kafka/publish.go:149-152 | every partition method is read from its own name |
| `TopicSettings.Reread` | publish/kafka/publish.go:116-198 | settings written as option lists and parsed come back as they were, topic by topic |
| `Text.SplitJoin` | publish/kafka/publish.go:118-127 | splitting undoes joining for pieces free of the separator |
| `Text.AtoiPrint` | util/flags.go:30-34 | parsing a printed integer gives it back if and only if it fits 64 bits |
| `Text.AtoiPlus` | util/flags.go:30-34 | a plus sign is read over |
| `Text.AtoiZero` | util/flags.go:30-34 | leading zeros count for nothing |
| `Text.ParseUintPrint` | publish/kafka/publish.go:184-193 | the same for unsigned numbers |
| `Text.PrintIntInjective` | persister/persister.go:108-108 | different integers print differently |
| `Flags.Int64SliceFlag.Set` | util/flags.go:24-37 | appends the numbers before the first bad piece; succeeds exactly if there is none |
| `Flags.ShowIsJoin` | util/flags.go:39-42 | printing, replacing blanks and trimming brackets amount to joining with a comma and a blank |
| `Flags.RoundTrip` | util/flags.go:24-42 | parsing the text of any list of 64-bit integers gives the list, empty and negative included |
| `Flags.Reparse` | util/flags.go:24-42 | the same through the flag objects |
| `AuthCache.ResponseCache.Get` | auth/gcom/cache.go:63-73 | the remembered answer, with the read time stamped in whole seconds; nothing for an unknown key |
| `AuthCache.ResponseCache.Set` | auth/gcom/cache.go:75-85 | exactly that key's entry is replaced |
| `AuthCache.ResponseCache.Clear` | auth/gcom/cache.go:87-91 | no entry is left |
| `AuthCache.ResponseCache.ExpiredKeys` | auth/gcom/cache.go:106-117 | exactly the keys retrieved before the oldest allowed time, each once |
| `AuthCache.ResponseCache.Update` | auth/gcom/cache.go:120-149 | drops an unread entry, refreshes a read one, leaves it on a failure, never adds one |
| `AuthCache.ResponseCache.Validate` | auth/gcom/cache.go:105-151 | a whole validation is the entry-by-entry map `Validated` |
| `AuthCheck.InstanceKeySplits` | auth/gcom/auth.go:161-169 | the cache key splits back into id and token if and only if the id has no colon |
| `AuthCheck.InstanceKeyInjective` | auth/gcom/auth.go:240-242 | colon-free ids never share a cache key |
| `AuthCheck.Authenticator.Auth` | auth/gcom/auth.go:124-159 | admin key, then cache, then oracle: a remembered user is accepted, a remembered rejection is an invalid key; both rejections are remembered, failures are not |
| `AuthCheck.Authenticator.CheckInstance` | auth/gcom/auth.go:240-265 | cache, then oracle, under the pair's own key; failures are not remembered |
| `AuthCheck.Authenticator.AuthTwice` | auth/gcom/auth.go:136-158 | what is decided about a first request answers the second, whatever would be said then; an undecided one is asked again |
| `AuthCheck.Authenticator.CheckTwice` | auth/gcom/auth.go:240-265 | the same for instances |
| `AuthRuns.StalenessBound` | auth/gcom/cache.go:93-151 | in every timely run an entry is at most TTL plus the tick gap old unless the last tick failed for it, and just after a tick older than TTL exactly if it failed |
| `AuthRuns.DefiniteStaleness` | auth/gcom/cache.go:93-151 | with ticks every TTL/2 and definite answers, every entry of every reachable state is at most TTL + TTL/2 old, and at most TTL just after a tick |
| `AuthCheck.Authenticator.ValidateTokens` | auth/gcom/cache.go:105-151 | the token cache after a background validation with any replies, wrong-organisation ones counted as failures |
| `AuthCheck.Authenticator.ValidateInstances` | auth/gcom/cache.go:210-254 | the instance cache after one |
| `AuthCheck.JudgementsDifferIff` | auth/gcom/cache.go:120-127 | judging replies as validation does and as `Auth` does differs at a key if and only if its entry has expired and the organisation is refused |
| `AuthCheck.WrongOrgValidated` | auth/gcom/cache.go:120-149 | there the one keeps the entry, the other would drop it or make it a rejection |
| `AuthCheck.TokenValidated` | auth/gcom/cache.go:119-149 | the entry of an expired token after each reply: dropped or refreshed with user or rejection, or kept |
| `AuthCheck.InstanceValidated` | auth/gcom/cache.go:224-252 | the same for instances |
| `AuthRuns.Perform` | auth/gcom/cache.go:63-151 | the events of a run are what the cache's methods do |
| `AuthConcurrent.Perform` | auth/gcom/cache.go:63-151 | the steps under the lock are what the cache's methods do |
| `AuthRuns.RefusedOrgStaysAccepted` | auth/gcom/cache.go:120-127 | through every run of refusals and failures, reads included, an accepted token stays accepted as the same user |
| `AuthRuns.FailuresKeep` | auth/gcom/cache.go:120-127 | while validation fails an entry keeps its answer and retrieval time, however old and however often read |
| `AuthRuns.ReadNeverDropped` | auth/gcom/cache.go:137-145 | an entry a tick drops was last touched before it was retrieved |
| `AuthRuns.UnreadLife` | auth/gcom/cache.go:137-149 | an unread entry survives its first expiry with the new answer, and is dropped at its second exactly if the two times fall into different seconds; it then stays away until it is set |
| `AuthRuns.SecondExpiryDropsIff` | auth/gcom/cache.go:141-141 | that is so for all times if and only if the TTL is at least a second less a nanosecond |
| `AuthConcurrent.ReachableInv` | auth/gcom/cache.go:105-151 | in every interleaving of requests, clears and the phases of a validation the answers held are answers given |
| `AuthConcurrent.CachedWasGiven` | auth/gcom/cache.go:105-151 | every cached answer was given about that very key, and the key was set since the last clear |
| `AuthConcurrent.AllAsked` | auth/gcom/cache.go:109-120 | a validation that is over has asked about each key it began with, in order, whatever happened in between |
| `AuthConcurrent.OnlyTheseChange` | auth/gcom/cache.go:119-150 | only a read, a store, a clear or a definite verdict about the key changes its entry, and only a store adds one |
| `Carbon.Conservation` | ingest/carbon/carbon.go:114-187 | in every run with any number of workers, of any class of packets as many were received as are dropped, rejected, refused, valid, in flight or buffered |
| `Carbon.CountersAddUp` | ingest/carbon/carbon.go:114-187 | received equals the sum of the other counters, the channel, the packets in hand and all buffers, abandoned ones included |
| `Carbon.CountersCount` | ingest/carbon/carbon.go:114-187 | in every run each counter has counted the packets of its own steps, counted over the steps: dropped, malformed or unparsable, unauthorised, published, failed; the channel is first in, first out |
| `Carbon.ChannelBounded` | ingest/carbon/carbon.go:121-131 | the channel never overflows, and a blocking one never drops a packet |
| `Carbon.OnePlace` | ingest/carbon/carbon.go:114-187 | a packet received once is in exactly one place |
| `Carbon.ObjectsExclusive` | ingest/carbon/carbon.go:148-152 | in every run every allocated metric object is in the pool or in one buffer, exactly once |
| `Carbon.ReachableOrderly` | ingest/carbon/carbon.go:99-108 | workers leave only once the channel is closed and drained |
| `Carbon.AfterShutdown` | ingest/carbon/carbon.go:99-108 | once all workers have left, every packet is settled or in an abandoned buffer |
| `Carbon.AbandonedForever` | ingest/carbon/carbon.go:153-156 | no later step touches the buffer of a worker that has left |
| `Carbon.ShutdownAbandons` | ingest/carbon/carbon.go:153-156 | and a run exists in which such a buffer holds a packet |
| `Carbon.FailedFlushLeaves` | ingest/carbon/carbon.go:142-147 | a failed publish keeps the objects of the buffer in order; what it makes of each record: settled, stopped at, or untouched |
| `Carbon.RetriedForeignIff` | ingest/carbon/carbon.go:142-147 | a metric is retried as another organisation's if and only if it stopped the publish at a topic that rewrites it |
| `Carbon.OwnersKeptIff` | ingest/carbon/carbon.go:134-187 | for every run: at every point all buffered metrics belong to their senders if and only if no flush stops that way |
| `Carbon.NoRewriteFaithful` | ingest/carbon/carbon.go:134-187 | without rewriting there is none |
| `Carbon.RetryDropsMetric` | ingest/carbon/carbon.go:140-152 | a configuration in which the retry succeeds, counts the metric as valid and sends nothing |
| `Validation.EatDotsAgain` | vendor/github.com/grafana/metrictank/schema/metric.go:255-306 | cleaning a clean name changes nothing |
| `Validation.ScanIsEatDots` | vendor/github.com/grafana/metrictank/schema/metric.go:284-305 | one scan with an owed dot finds the non-empty parts joined by dots |
| `Validation.ScanLength` | vendor/github.com/grafana/metrictank/schema/metric.go:260-273 | the dots counted as superfluous are exactly the characters the scan leaves out |
| `Validation.CountDots` | vendor/github.com/grafana/metrictank/schema/metric.go:260-273 | the first pass counts them, the trailing one included |
| `Validation.CopyParts` | vendor/github.com/grafana/metrictank/schema/metric.go:284-305 | the second pass never writes beyond its buffer and fills it |
| `Validation.EatDotsInPlace` | vendor/github.com/grafana/metrictank/schema/metric.go:255-306 | the two passes give the name's non-empty parts joined by dots |
| `Validation.ValidateTag` | vendor/github.com/grafana/metrictank/schema/metric.go:322-364 | the scans accept a tag if and only if, position by position, key and value around the first equals sign are allowed |
| `Validation.ValidateTags` | vendor/github.com/grafana/metrictank/schema/metric.go:312-320 | the loop accepts exactly lists of such tags |
| `Validation.ValidateAgain` | vendor/github.com/grafana/metrictank/schema/metric.go:43-61 | validating again gives the same verdict and changes nothing more |
| `IngestSpec.PublishedSound` | ingest/metrics.go:86-106 | what passes would pass again unchanged; it is the sender's with a consistent id, or an administrator's as sent |
| `IngestSpec.PreparedAgain` | ingest/metrics.go:86-106 | an object listed twice meets the same verdict and is not changed by its second turn |
| `IngestSpec.PassedMean` | ingest/metrics.go:86-106 | the published positions are exactly the valid ones, increasing |
| `IngestSpec.FaultsMean` | ingest/metrics.go:93-98 | the refused ones are exactly the others, once each, with their own reason and organisation |
| `IngestSpec.NothingLost` | ingest/metrics.go:86-106 | published and refused add up to the batch |
| `IngestSpec.ErrorsAddUp` | ingest/metrics_response.go:21-32 | the counts per error add up to the number of refused metrics |
| `IngestSpec.DiscardsAddUp` | ingest/metrics.go:108-115 | the discards over all organisations and reasons add up to it too, in any order of visiting |
| `Ingest.MetricsResponse.AddInvalid` | ingest/metrics_response.go:21-32 | the response stays the report of the log: per error the count and its first nine positions, in order |
| `Ingest.DiscardsByOrg.Add` | ingest/metrics.go:68-75 | every count per organisation and reason stays that of the log |
| `Ingest.Validate` | vendor/github.com/grafana/metrictank/schema/metric.go:43-61 | the first fault, and the name cleaned in place unless an earlier check failed |
| `Ingest.PrepareOne` | ingest/metrics.go:87-103 | verdict and record of one metric are the specified ones |
| `Ingest.PrepareNext` | ingest/metrics.go:86-103 | one turn of the loop, also for an object that had one before |
| `Ingest.PrepareAll` | ingest/metrics.go:86-106 | the loop appends exactly the valid objects in order, and reports and counts the others |
| `Ingest.Counters.AddDiscards` | ingest/metrics.go:111-115 | every sample grows by its own count; labels of different organisations never collide |
| `Ingest.Counters.PrepareIngest` | ingest/metrics.go:77-117 | the whole call: published objects, records, response, counters and samples; published plus invalid is the batch length |
| `PersisterSpec.RowKeyInjective` | persister/persister.go:108-108 | row keys are equal if and only if organisation and host are |
| `PersisterSpec.RowKeySplits` | persister/persister.go:108-108 | the key splits at its first colon into the organisation's number and the host |
| `PersisterSpec.ReloadIff` | persister/storage/storage.go:109-142 | a reload agrees with the table if and only if every decodable row has the prefix and no undecodable one precedes it |
| `PersisterSpec.OneBadRowHidesOthers` | persister/storage/storage.go:126-131 | one undecodable row keeps a later good one from being loaded |
| `PersisterSpec.ChunksMean` | persister/persister.go:243-267 | batches concatenate to everything in order, none is empty, all but the last are full |
| `PersisterSpec.FullChunks` | persister/persister.go:253-259 | full batches sent so far are the first batches of the whole |
| `PersisterSpec.StampedAgrees` | persister/persister.go:249-251 | sending changes nothing in memory but times and intervals |
| `PersisterSpec.BlankIff` | persister/persister.go:249-251 | rows are alike without stamps if and only if they agree in everything but time and interval |
| `PersisterSpec.SendTold` | persister/persister.go:240-269 | pushed metrics, position by position: the time of sending, the configured interval, all else as it was; memory holds exactly these, the rest untouched |
| `Persister.Persister.Persist` | persister/persister.go:210-216 | exactly that row is replaced, unless the mutex is held for good |
| `Persister.Persister.PersistHandler` | persister/persister.go:108-134 | reply and state for every payload and store outcome: stored first, kept in memory only if decodable |
| `Persister.Persister.RemoveRows` | persister/persister.go:166-179 | reply and state for any set of rows the table deletes: memory follows only if the call reports success |
| `Persister.Persister.Retrieve` | persister/storage/storage.go:109-142 | exactly the decodable rows with the prefix before the first undecodable one |
| `Persister.Persister.Load` | persister/persister.go:71-87 | memory is overridden by what was retrieved, or unchanged when reading failed |
| `Persister.Persister.SendRow` | persister/persister.go:249-260 | one row: batches full, stamps up to the last metric handled |
| `Persister.Persister.Send` | persister/persister.go:240-269 | pushed batches are the first chunks up to the first refusal, all of them on success; exactly the pushed metrics are stamped, all with the given time and the configured interval, field by field; the mutex stays held exactly if a full batch was refused |
| `PersisterRuns.PersistAgreesIff` | persister/persister.go:108-134 | memory and table stay in agreement if and only if the payload decodes, or nothing was held for it |
| `PersisterRuns.UndecodableDrifts` | persister/persister.go:110-125 | an undecodable payload after a good one of the same host makes them disagree |
| `PersisterRuns.RemoveAgreesIff` | persister/persister.go:166-179 | they stay in agreement if and only if no held row is forgotten on one side only |
| `PersisterRuns.StepSound` | persister/persister.go:71-269 | every clean event keeps agreement, readability and the mutex free |
| `PersisterRuns.Request` | persister/persister.go:108-179 | the events of a run are what the persister's methods do: storing and removing |
| `PersisterRuns.SendAll` | persister/persister.go:240-269 | sending |
| `PersisterRuns.Start` | persister/persister.go:50-87 | and starting anew over the same table |
| `PersisterRuns.MemoryIsStore` | persister/persister.go:71-216 | through every clean run memory is what generation makes of the table, and a restart at any point holds the same |
| `PersisterRuns.LastWriteWins` | persister/persister.go:108-116 | each host of each organisation has its own last payload in the table; others never interfere |

## Left out

- PublishMeaning.MetricsMean: the simple form, for metrics whose id fits their fields; all others are covered by `PublishBatch.BatchMeans`.
- PublishRuns.CoherentSuffices: assumes that the metrics of calls that get through are consistent and that no two of them have colliding hashes, without which a point does not identify a metric.
- PublishStates.SafeIff: assumes coherent topics and metrics without colliding hashes; without coherence there are harmless runs from the empty state that break the promise (`DefinitionFirstIff`).
- PublishLosses.LostSendIff: two calls from an empty log with distinct topic names, as `RejectedIff`; the general statements are those of `PublishStates`.
- KeyCacheConcurrent.TouchSound: `Len` is not among the concurrent steps.
- Publisher.Publisher.Publish: message size and duration statistics are not modelled; calls are modelled one at a time, overlapping ones only in `KeyCacheConcurrent` and `PublishLosses.ReorderedSendBreaksOrder`.
- Publisher.Publisher.DataFromMetricData: marshalling never fails here, and bytes are represented by the values they encode.
- Persister.Persister.Send: metrics are values in the memory map, so a receiver that kept a pushed metric and saw it change is not captured.
- Ingest.Counters.PrepareIngest: timestamp statistics are not modelled.
- Carbon.Conservation: empty packets, which are ignored before they are counted, are not modelled; an unbuffered channel is a channel of one; what a packet is made of and why it is rejected is an argument of the step.
- Strings that are not valid UTF-8.
- HTTP handlers, routing, middleware, tracing, logging and statistics.
- The bodies of `validateToken` and `validateInstance` and the request collapsing in front of them: grafana.com is an oracle.
- The rate limiter, whose token bucket is library code.
- Kafka client, partition functions, message encoding, hashing and storage schemas: parameters.
- Bigtable beyond a table whose operations succeed or fail, and rows without the column family.
- Query proxies, bulk importer, file authentication and roles.
- DataDog, Prometheus and OpenTSDB decoding and the tags generated from host metadata.
- Floating-point arithmetic: metric values are opaque.

# GreenLab: verified models of its stateful parts

GreenLab is a telemetry platform: devices batch readings with an SDK, services ingest, rate-limit, alert on and
broadcast them, and an identity service hands out rotating refresh tokens. This project models the parts that keep
state and proves what they promise, over every input and every interleaving. `dafny verify dfyconfig.toml` checks all of it.

| file | component |
|---|---|
| `BatchSpec.dfy`, `BatchLoop.dfy`, `BatchGo.dfy`, `BatchPython.dfy`, `BatchTheorems.dfy` | the SDK batcher, in Go and in Python |
| `ServerDecode.dfy`, `ServerTheorems.dfy`, `ServerStores.dfy` | how the ingestion service reads the SDK's payloads, and which runs it stores as recorded |
| `SdkClient.dfy`, `SdkClientRuns.dfy` | the SDK client: buffer, posting, schema retry, and one call as a run of many |
| `RateLimit.dfy` | the sliding-window rate limiter |
| `AlertRule.dfy`, `RuleEngine.dfy`, `RuleEngineRuns.dfy` | alert rules, the engine, its workers and reloads |
| `IngestDomain.dfy`, `Ingest.dfy` | grouping by timestamp, batches, replay with a dead-letter queue |
| `Hub.dfy` | the realtime subscription hub and its broadcasts |
| `RefreshTokens.dfy` | refresh-token rotation |
| `Pagination.dfy`, `Slugs.dfy` | page arithmetic; slug makers and the slug recogniser |
| `Prelude.dfy` | shared datatypes and Go's time arithmetic |

Code that updates variables step by step is a method with loops, or a class where methods or closures share state;
each is proved against a function or predicate, and the theorems are about that. Concurrent code has, beside its class, a
state machine whose actions are the critical sections; a run is any sequence of actions, those not enabled doing nothing.

Results that were not evident beforehand:

- The greedy cut needs the fewest payloads for readings in *any* order, not only for time-ordered ones.
- The server looks the k-th value of a payload up under schema index k, while the SDK leaves out fields without a
  reading; and a channel's indices may have gaps. So a payload is read as meant exactly when each field with a reading
  has as its index its rank among those fields. A lone reading of the field at index 2 is stored under the one at index
  1, or refused if there is none.
- The SDK writes the base time under the key `ts`, the server looks for `t` (deserialize_msgpack.go, line 15), so
  offsets count from the server's clock. A run is decoded at its own times, to the millisecond, exactly when that clock
  still shows the base's time to the millisecond. And as offsets count from now, one of more than 30 s (and
  the delay until it is checked) has the whole payload refused, although the batcher packs up to 65.5 s. So a run is
  stored as recorded exactly when indices are ranks, the clock still shows the base's time, the channel id is valid and
  every offset passes that check.
- With exact arithmetic the Go and Python batchers differ only for bases before 1970 that are not whole seconds (floor
  against truncation); a lone reading half a second before 1970 is such a case.
- Requests read at the same nanosecond share one entry of the limiter's sorted set. With clocks
  read in order a window then holds at most `requests` different admitted times, and with up to n requests an instant
  at most n * (requests - 1) + 1 admitted requests, which is reached. There are two more ways the limiter can forget: a key that expires before its last times
  leave the window, and pipelines that run in another order than their clocks were read, since a later reading prunes
  for all. If delays between reading and pipeline differ by up to d, the bounds hold for spans of the window less d,
  and can fail for spans longer than that by `requests` nanoseconds.
- Waiting the seconds of a `Retry-After` is enough exactly if they fall short of the window by less than `requests`
  nanoseconds: for windows of whole seconds or below one second, but hardly for 1.5 s.
- After a 409 the SDK client sends all payloads again from the first, so the runs accepted before the conflict are
  delivered twice. If an answer is lost, `Send` reports an error for readings the server has.
- Revoking all of a user's refresh tokens ends a family exactly if no refresh of it is between its redemption and its
  save, and a logout ends the family of its token exactly if nothing else holds it; runs in which such a refresh leaves
  the user a token that can be redeemed are given.

Where code and comments differ the code is followed: the comment on `IngestReplay` speaks of three retries with waits of
100, 200 and 400 ms; the code makes three attempts with waits of 100 and 200 ms.

Assumptions: times are integer nanoseconds (Python: microseconds, exact arithmetic); an ingestion call reads the clock
once to decode and once to check; Redis answers, runs one pipeline at a time and scores exactly, and clocks show times
from 1970 on (only `RateLimit.AdmittedCount` needs them in the order of the pipelines); the engine's clock does not go
back; new UUIDs are fresh and hashes of different tokens differ; the token table's single-statement updates are atomic.
Network, publisher, repository and marshalling outcomes are parameters. float64 values the code only forwards are
opaque; alert thresholds are compared as reals.

## Model

| member | source | states |
|---|---|---|
| BatchGo.BuildBatches | sdk/go/batch.go:37-139 | for every list of readings and every schema, the loop over base time and slot arrays returns the specified payloads or the specified error |
| BatchGo.Batcher.FlushBatch | sdk/go/batch.go:71-96 | the filled slots go out in schema order as one payload and the current run is closed |
| BatchGo.Batcher.Add | sdk/go/batch.go:106-129 | one reading goes on with the run if it fits 16 bits of milliseconds, else closes it and begins a new one |
| BatchGo.ClampedOffset | sdk/go/batch.go:107-121 | saturating subtraction, truncating division and clamping decide as exact offsets do |
| BatchLoop.CutIsRuns | sdk/go/batch.go:106-136 | cutting reading by reading gives the greedy runs of the recursive specification |
| BatchTheorems.BatchesDeliver | sdk/go/batch.go:28-139 | a call succeeds iff there are readings and fields and all fields are known; then the runs concatenate to the input, all of a run lies less than 65 536 ms after its first reading, no run could have taken the next reading, and each yields one payload carrying it |
| BatchTheorems.FitsExactly | sdk/go/batch.go:10-121 | a reading shares a payload with a base iff it lies less than 65 536 ms after it, in nanoseconds |
| BatchTheorems.BatchErrors | sdk/go/batch.go:38-58 | otherwise the error is for no readings, no fields, or the first reading's field the schema lacks |
| BatchTheorems.PayloadCarriesRun | sdk/go/batch.go:71-96 | a payload has the base second and, at each present field's rank in the schema, that field's last value and offset; lengths agree, are not zero, offsets fit uint16 |
| BatchTheorems.CarriesDetermines | sdk/go/batch.go:71-96 | that description fixes the payload completely |
| BatchTheorems.FewestPayloads | sdk/go/batch.go:106-138 | no cutting into runs whose readings all lie less than 65 536 ms after the first uses fewer payloads, in any reading order |
| BatchTheorems.GreedyStaysAhead | sdk/go/batch.go:106-138 | from any later start the greedy cut needs no more runs than any cutting of the rest |
| BatchTheorems.DecodedTime | sdk/go/batch.go:84-126 | a decoded time is early by less than 1001 ms, and not late iff the reading is not before its base's whole second |
| BatchPython.BuildBatches | sdk/python/greenlab/batch.py:23-108 | the Python loop over optional slots returns the same cut, with its own rounding of the base |
| BatchPython.PyBatcher.Flush | sdk/python/greenlab/batch.py:58-77 | the slots that are not None become one payload |
| BatchPython.MicrosOffset | sdk/python/greenlab/batch.py:90-92 | its offset, computed exactly, is the whole milliseconds the Go batcher computes |
| BatchPython.BatchersAgree | sdk/python/greenlab/batch.py:70-75 | Go and Python produce equal results, arithmetic being exact, iff no run's base is a fractional second before 1970; always for times from 1970 on |
| BatchPython.BatchersDiffer | sdk/python/greenlab/batch.py:70-75 | for a lone reading half a second before 1970 Go sends base second -1 and Python 0 |
| ServerDecode.Deserialize | services/ingestion/internal/transport/http/deserialize.go:42-112 | for any schema, parsing, version check, index lookup and offsets give the specified fields and times or error |
| ServerDecode.Parse | services/ingestion/internal/transport/http/deserialize_msgpack.go:26-52 | the value kept for each index, with uint8 wrap-around and overwriting |
| ServerDecode.Resolve | services/ingestion/internal/transport/http/deserialize.go:57-86 | names and values in index order, or the least index among those sent that the schema lacks |
| ServerDecode.ResolveOffsets | services/ingestion/internal/transport/http/resolve_td_offsets.go:17-39 | no offsets mean the base time, a wrong number is an error, else each name gets base plus its offset, later equal names winning |
| ServerTheorems.VersionChecked | services/ingestion/internal/transport/http/deserialize.go:49-55 | a payload with values is refused for its schema version iff it and the server both name one and they differ |
| ServerTheorems.IndicesChecked | services/ingestion/internal/transport/http/deserialize.go:57-93 | then it is read iff the schema has all leading indices and the offsets are none or as many; else the least missing index or the wrong number is reported |
| ServerTheorems.ReadByIndex | services/ingestion/internal/transport/http/deserialize.go:76-112 | the value and offset at place i go to the field with index i + 1 |
| ServerTheorems.ValueIsLast | services/ingestion/internal/transport/http/deserialize_msgpack.go:35-38 | of all values whose place plus one is the index modulo 256 the last one counts |
| ServerTheorems.ViewOfPayload | services/ingestion/internal/transport/http/deserialize.go:76-86 | a payload of r values is read iff the schema has the indices 1 to r |
| ServerTheorems.ServerReadsWhatWasMeant | services/ingestion/internal/transport/http/deserialize.go:57-112 | the server gives every field its last value, at a time off by exactly its delay less the offset's rounding, iff each field with a reading has its rank among those as index |
| ServerTheorems.DecodedExactly | services/ingestion/internal/transport/http/deserialize.go:63-96 | a run is decoded under its fields at its own times to the millisecond iff indices are ranks and the server's clock still shows the base's time |
| ServerTheorems.ValueMovesToAnotherField | sdk/go/batch.go:72-80 | a reading of the second of two fields is decoded under the first |
| ServerTheorems.GapIsRefused | services/ingestion/internal/transport/http/deserialize.go:81-84 | a channel whose only field has position 2 is never read |
| ServerTheorems.AMinuteLate | services/ingestion/internal/transport/http/deserialize.go:63-66 | a lone reading that arrives a minute later is given a time a minute late |
| ServerStores.IngestCompact | services/ingestion/internal/transport/http/handler.go:155-199 | decoding and the service together publish one batch of the decoded input's readings, or nothing; nothing for another schema version |
| ServerStores.OtherVersionUnpublished | services/ingestion/internal/transport/http/deserialize.go:49-55 | no batch the SDK builds for one schema version is published under another, whatever both schemas are |
| ServerStores.StoredExactly | services/ingestion/internal/transport/http/handler.go:155-199 | a run is published under its fields, once each, with its last values and at its own times to the millisecond iff indices are ranks, the server's clock still shows the base's time, the channel id is valid and every offset passes the check |
| ServerStores.PublishedAsRecorded | services/ingestion/internal/application/ingest_service.go:189-231 | whatever the iteration order, what is published for a payload is the run as recorded iff that condition holds |
| ServerStores.AcceptedWithinSkew | services/ingestion/internal/domain/reading.go:34-43 | a payload that can be read is accepted iff every offset is at a time the check allows; with a check that comes soon, at most 30 s plus the delay until it |
| ServerStores.RunAccepted | services/ingestion/internal/application/ingest_service.go:112-115 | one field whose last reading is too far from the base costs the whole payload |
| ServerStores.FarApartRefused | sdk/go/batch.go:106-121 | two readings 31 s apart make one payload, which can be decoded as recorded and is refused |
| SdkClient.Client.SendReadings | sdk/go/client.go:150-167 | the batches for the held schema are taken in order up to the first that is not, or whose answer is lost, which is reported |
| SdkClient.Client.Send | sdk/go/client.go:112-147 | the buffer is emptied; one pass, and after a 409 with a fetched schema exactly one more; nil on a non-empty buffer only if the server has taken every batch of the schema then held |
| SdkClient.PassSucceeds | sdk/go/client.go:150-167 | a pass ends without error iff the server has taken all batches of its schema and answered the last |
| SdkClient.PassStopsAt | sdk/go/client.go:160-165 | the first post that is not accepted ends the pass: with its payload taken if only the answer was lost, and a mismatch iff it was a 409 |
| SdkClient.SentNil | sdk/go/client.go:122-146 | nil iff all batches are accepted for the schema held or, after a first 409 and a schema fetched, for that one; the server has then taken every batch of the schema held |
| SdkClient.LostAnswer | sdk/go/client.go:188-191 | a payload taken whose answer is lost makes the pass report an error |
| SdkClientRuns.SendIsARun | sdk/go/client.go:112-147 | left to itself a call of the protocol ends as the sequential `Send`: same error or none, same payloads in the server's log, same schema |
| SdkClient.TakenThenPending | sdk/go/client.go:99-120 | in every interleaving the batches taken, in lock order, then the buffer, are the readings recorded |
| SdkClient.VersionOfSchema | sdk/go/client.go:137-154 | schema and version held always belong together |
| SdkClient.SendDelivers | sdk/go/client.go:112-167 | nil only if every batch for one schema was accepted in order; at most two passes, the second only after a 409 |
| SdkClient.NilMeansDelivered | sdk/go/client.go:109-124 | after nil the accepted payloads carry every run of the readings |
| SdkClient.DeliveredOnce | sdk/go/client.go:112-167 | when a call returns, every run has been delivered iff it returns nil or lost the answer to its last payload, and each exactly once iff besides nothing was taken before a conflict |
| SdkClient.ResentAfterConflict | sdk/go/client.go:126-147 | a conflict on the second payload makes the second pass deliver the first again |
| RateLimit.RateLimiter.Handle | shared/pkg/middleware/ratelimit.go:29-85 | the stored set stays that of the key's request history, other keys are untouched, and the decision is the one for that history |
| RateLimit.CountsTheHistory | shared/pkg/middleware/ratelimit.go:38-49 | for any history, a request counts exactly the times of earlier ones that no request since has pruned and no expiry has dropped |
| RateLimit.ExpiryHarmless | shared/pkg/middleware/ratelimit.go:48-51 | expiry leaves a request's count as pruning alone does iff the key was not dropped while a time in it would still count |
| RateLimit.AdmissionLaw | shared/pkg/middleware/ratelimit.go:61-83 | admitted iff fewer than the limit of times are kept; with different times, of requests; with clocks in order, of the window it closes |
| RateLimit.VerdictMeans | shared/pkg/middleware/ratelimit.go:61-76 | an admitted request is told how many more would be, a refused one the whole seconds of the window, at least one |
| RateLimit.SecondCountsFirst | shared/pkg/middleware/ratelimit.go:38-51 | of two requests the second counts the first iff that lies within its window and the key has not run out |
| RateLimit.DistinctTimesBound | shared/pkg/middleware/ratelimit.go:28-84 | the admitted requests of a span have at most the limit of different times: spans of the window with clocks in order, of the window less the spread of delays in any order |
| RateLimit.DelayWorst | shared/pkg/middleware/ratelimit.go:35-51 | with delays differing by d, a span of the window less d plus the limit in nanoseconds can hold one time too many |
| RateLimit.AdmittedCount | shared/pkg/middleware/ratelimit.go:36-71 | with clocks in order, the admitted requests of a span number the sum of the instants' shares, each fixed by how many share the instant and how many different times precede it |
| RateLimit.SharedInstantBound | shared/pkg/middleware/ratelimit.go:44-47 | with up to n requests an instant such a span holds at most n * (limit - 1) + 1 admitted ones |
| RateLimit.SharingAllowed | shared/pkg/middleware/ratelimit.go:44-47 | the limit bounds all histories with up to n requests an instant iff n or the limit is one |
| RateLimit.WindowBound | shared/pkg/middleware/ratelimit.go:28-84 | every such span holds at most the limit of admitted requests, if no two share an instant |
| RateLimit.PromptIsSteady | shared/pkg/middleware/ratelimit.go:48-51 | from settings and clocks: with clocks in order and delays that grow by no more than the key outlives the window, whole windows are safe |
| RateLimit.RetryAfterSuffices | shared/pkg/middleware/ratelimit.go:72-76 | waiting the announced seconds without other requests leads to admission, whatever came before, iff they fall short of the window by less than the limit in nanoseconds |
| AlertRule.ConditionLaws | services/alert-notification/internal/domain/alert/rule.go:96-112 | each condition's direction, its value at the threshold, its complement, that only one value equals the threshold, that above, below and equal exclude each other and leave nothing out, and that unknown conditions never trigger |
| AlertRule.CooldownExact | services/alert-notification/internal/application/rule_engine.go:94 | the int64 cooldown product is exact iff the cooldown is below 292 years either way |
| RuleEngine.Engine.LoadRules | services/alert-notification/internal/application/rule_engine.go:45-64 | every channel's slice is the list filtered by channel, in order; an error changes nothing |
| RuleEngine.Engine.CheckAndReserve | services/alert-notification/internal/application/rule_engine.go:90-101 | the locked check-and-set reserves iff the rule is not cooling: it never fired, or its cooldown or more ago |
| RuleEngine.Engine.Evaluate | services/alert-notification/internal/application/rule_engine.go:67-122 | firing times and alerts are those of evaluating the channel's rules in order |
| RuleEngine.IndexEvaluatesAsScan | services/alert-notification/internal/application/rule_engine.go:51-79 | evaluating through the index reserves and alerts as a scan of the flat list does |
| RuleEngineRuns.CooldownRespected | services/alert-notification/internal/application/rule_engine.go:90-101 | in every interleaving two reservations of a rule are at least the later one's cooldown apart |
| RuleEngineRuns.ReservedUnlessRecent | services/alert-notification/internal/application/rule_engine.go:90-101 | in every interleaving a due rule is refused iff some reservation of it lies less than its cooldown before, else it is reserved |
| RuleEngineRuns.AlertsAreDue | services/alert-notification/internal/application/rule_engine.go:72-118 | every alert is of an enabled rule of one loaded list and of the event's channel, triggered by the event's value, and says what both say |
| RuleEngineRuns.DueRulesAreChecked | services/alert-notification/internal/application/rule_engine.go:72-90 | no due rule is passed over: a worker beyond one has checked it |
| RuleEngineRuns.FiringRate | services/alert-notification/internal/application/rule_engine.go:90-101 | with cooldowns of at least c an interval of length L holds at most L/c + 1 reservations |
| RuleEngineRuns.ReservationsAccounted | services/alert-notification/internal/application/rule_engine.go:98-120 | publish attempts plus workers about to publish equal the reservations, rule by rule |
| RuleEngineRuns.SnapshotOfOneLoad | services/alert-notification/internal/application/rule_engine.go:57-70 | a worker's rules are the filter of one loaded list, never a mix |
| RuleEngineRuns.ReloadsInvisible | services/alert-notification/internal/application/rule_engine.go:45-64 | leaving the reloads out of any run changes no firing time, reservation, alert or evaluation, unless one begins on a channel whose rules they changed |
| RuleEngineRuns.EvaluateIsARun | services/alert-notification/internal/application/rule_engine.go:67-122 | an undisturbed call is a run of the protocol with the outcome of the sequential method |
| IngestDomain.ReplayAcceptance | services/ingestion/internal/domain/reading.go:48-58 | for windows up to 106 751 days a replay time is accepted iff it lies between the window's start and 30 s ahead |
| IngestDomain.ReplayWindowWraps | services/ingestion/internal/domain/reading.go:53-55 | at 106 752 days the int64 window wraps and every time is refused |
| IngestDomain.TimestampAcceptance | services/ingestion/internal/domain/reading.go:34-43 | a time is refused as future iff more than 30 s ahead, else as too old iff there is a bound and it is older |
| IngestDomain.ChannelIdIsPattern | services/ingestion/internal/domain/reading.go:16-29 | a channel id is valid iff it is five dash-joined groups of 8, 4, 4, 4 and 12 hexadecimal digits, not all zeros |
| Ingest.GroupByTimestamp | services/ingestion/internal/application/ingest_service.go:189-231 | for any iteration order: fails iff some field's own time is invalid, else the readings are a split of the fields by effective time |
| Ingest.SplitUnique | services/ingestion/internal/application/ingest_service.go:189-231 | two splits of the same fields have the same groups, so order only permutes |
| Ingest.SplitPartitions | services/ingestion/internal/application/ingest_service.go:204-224 | each field is in exactly the group of its effective time, with its value |
| Ingest.AcceptedOrFaulty | services/ingestion/internal/application/ingest_service.go:99-115 | an item is accepted iff there is no fault to report |
| Ingest.AcceptedMeans | services/ingestion/internal/application/ingest_service.go:99-115 | accepted iff the id is valid, there are fields, and the request's time and each field's own time are in bounds |
| Ingest.FaultMeans | services/ingestion/internal/application/ingest_service.go:99-115 | the fault reported is for a bad id, else for missing fields, else for a time that is wrong in that way |
| Ingest.ReadingOfItem | services/ingestion/internal/application/ingest_service.go:76-231 | each reading published for an item has its names and tags, and fields of it with their values, at the field's own time, else the request's, else the server's |
| Ingest.FieldPublished | services/ingestion/internal/application/ingest_service.go:204-231 | each field of an item is in exactly one of its readings |
| Ingest.IngestService.Ingest | services/ingestion/internal/application/ingest_service.go:63-88 | a faulty request publishes nothing, an accepted one its readings |
| Ingest.IngestService.IngestBatch | services/ingestion/internal/application/ingest_service.go:92-122 | the first faulty item stops everything, otherwise exactly one batch goes out, the items' readings one after the other |
| Ingest.BatchTotal | services/ingestion/internal/application/ingest_service.go:112-118 | the batch holds as many field values as its items |
| Ingest.IngestService.IngestReplay | services/ingestion/internal/application/ingest_service.go:130-184 | at most three attempts with 0, 100 or 300 ms of waiting, nil iff one succeeds, each reading to the queue once and in order iff none does |
| Ingest.ReplayFaultMeans | services/ingestion/internal/application/ingest_service.go:136-146 | a replayed item is refused for a bad id, missing fields or a time outside the window, in that order |
| Ingest.ReplayedAsSent | services/ingestion/internal/application/ingest_service.go:142-149 | it goes out as one reading with its fields and tags, at the time sent with it, else the server's |
| Hub.SubscriptionHub.Subscribe | services/query-realtime/internal/application/hub.go:27-35 | the subscription itself is registered, in the place of one with its channel and id; every other registration stays, and the flat set gains the pair |
| Hub.SubscriptionHub.Unsubscribe | services/query-realtime/internal/application/hub.go:38-48 | the registration for the channel and id is removed, every other stays, and no empty channel is kept |
| Hub.SubscriptionHub.TotalSubscriptions | services/query-realtime/internal/application/hub.go:90-98 | the sum over channels is the size of the flat set |
| Hub.SubscriptionHub.SubscriberCount | services/query-realtime/internal/application/hub.go:83-87 | the number of ids registered for the channel |
| Hub.SubscriptionHub.Targets | services/query-realtime/internal/application/hub.go:56-65 | the snapshot lists each of the channel's subscriptions once |
| Hub.SubscribeThenUnsubscribe | services/query-realtime/internal/application/hub.go:27-48 | subscribing a new id and unsubscribing it restores the map |
| Hub.RegisteredExactly | services/query-realtime/internal/application/hub.go:27-48 | in every run the hub has exactly the subscriptions made and not replaced or ended since |
| Hub.BroadcastReachesSnapshot | services/query-realtime/internal/application/hub.go:55-80 | a finished broadcast has written once to exactly the subscriptions made for its channel, and not replaced or ended, when it took its snapshot |
| Hub.SnapshotInstant | services/query-realtime/internal/application/hub.go:56-65 | each call works on the subscriptions there were at its own snapshot step |
| Hub.AlwaysTidy | services/query-realtime/internal/application/hub.go:27-48 | in every run the map has no empty channel |
| RefreshTokens.AuthService.GetAndRevoke | services/iam/internal/infrastructure/postgres/token_repo.go:68-85 | redeems a token that is in the table, unrevoked and unexpired, and only then |
| RefreshTokens.AuthService.Refresh | services/iam/internal/application/auth_service.go:144-167 | exactly a token in the table, unrevoked and unexpired, is exchanged for one of the same user and family that lives seven days; it stays redeemed whatever fails next |
| RefreshTokens.AuthService.Logout | services/iam/internal/application/auth_service.go:169-182 | no token of that hash can be redeemed at any time, every other one as before |
| RefreshTokens.AuthService.RevokeAllForUser | services/iam/internal/infrastructure/postgres/token_repo.go:97-100 | no token of that user can be redeemed at any time, every other one as before |
| RefreshTokens.RedeemedWhenDue | services/iam/internal/infrastructure/postgres/token_repo.go:68-105 | in every interleaving a token can be redeemed iff it was saved less than seven days before and no redemption, logout or revocation of its user has taken effect since, whatever expired rows are gone |
| RefreshTokens.LogoutIsFinal | services/iam/internal/application/auth_service.go:169-182 | whatever follows in any run, a logged-out token is never redeemable |
| RefreshTokens.PasswordChangeIsFinal | services/iam/internal/application/auth_service.go:220-222 | nor is any token the user had when their tokens were revoked |
| RefreshTokens.AtMostOneHolder | services/iam/internal/application/auth_service.go:144-167 | in every interleaving a family has at most one of unrevoked token and call about to save one |
| RefreshTokens.RedeemedOnce | services/iam/internal/application/auth_service.go:145-149 | no token is redeemed twice over a run, even after its row is deleted |
| RefreshTokens.DeadFamiliesStayDead | services/iam/internal/application/auth_service.go:144-182 | a family without holder never gets one again |
| RefreshTokens.LogoutEndsFamily | services/iam/internal/application/auth_service.go:169-182 | a logout ends the family of its token iff no other token and no call holds it |
| RefreshTokens.FamilyOutlivesLogout | services/iam/internal/application/auth_service.go:169-182 | logging out with a token that a refresh has redeemed leaves a redeemable one once it saves |
| RefreshTokens.RevokedFamily | services/iam/internal/application/auth_service.go:220-222 | revoking all of a user's tokens ends a family iff no call is about to save into it |
| RefreshTokens.FamilyOutlivesRevocation | services/iam/internal/application/auth_service.go:144-167 | a refresh that saves after the revocation leaves the user a redeemable token |
| Pagination.ParseOffset | shared/pkg/pagination/cursor.go:61-74 | values in range are kept; a page below 1 becomes 1, a limit below 1 becomes 20 and one above 100 becomes 100 |
| Pagination.OffsetWraps | shared/pkg/pagination/cursor.go:77-79 | the offset is the plain product iff that is an int64 |
| Pagination.OffsetExact | shared/pkg/pagination/cursor.go:77-79 | offsets of existing pages do not wrap and lie inside the list |
| Pagination.PagesCover | shared/pkg/pagination/cursor.go:82-91 | the page count is the least that covers the total |
| Pagination.PagesAreTheList | shared/pkg/pagination/cursor.go:77-91 | pages 1 to the count concatenate to the list, all full but a non-empty last |
| Slugs.RecogniserIsPattern | services/iam/internal/domain/tenant/validate.go:5-9 | accepted iff non-empty words of letters and digits joined by single dashes |
| Slugs.SlugifyAccepted | frontend/src/pages/WorkspacesPage.tsx:84-86 | the result is empty or accepted, keeps the name's letters and digits in order, and is empty iff there are none |
| Slugs.SlugifyJoinsWords | frontend/src/pages/WorkspacesPage.tsx:84-86 | the result is the lower-cased name's runs of letters and digits, joined by single dashes |
| Slugs.SlugifyFixesSlugs | frontend/src/pages/WorkspacesPage.tsx:84-86 | accepted slugs are fixed points |
| Slugs.SignupSlugAccepted | services/iam/internal/application/auth_service.go:394-399 | every signup slug is accepted and ends in its UUID part |
| Slugs.SignupSlugIs | services/iam/internal/application/auth_service.go:394-399 | it is made of the letters and digits before the first `@`, or of "user" if there are none |

## Left out

- RateLimit.WindowBound: for different clock readings per key; `SharedInstantBound` says what equal ones do.
- RateLimit.AdmittedCount: for clocks in the order of the pipelines; in any order `CountsTheHistory` fixes each decision.
- RateLimit.RateLimiter.Handle: the branch that admits when Redis fails, float64 rounding of scores, and the header texts.
- RuleEngineRuns.CooldownRespected: takes the workers' clock readings to be non-decreasing; a wall clock set back is not modelled.
- RuleEngineRuns.ReservedUnlessRecent: cooldowns of 292 years and more, whose int64 product may wrap around; `AlertRule.CooldownExact` says for which it does.
- RefreshTokens.RedeemedWhenDue: tables swept by a clock that was ahead of the redemption's.
- RuleEngine.Engine.LoadRules: `refreshedAt` and logging, which nothing reads.
- BatchPython.BatchersAgree: float rounding of `total_seconds() * 1000` and of `timestamp()`, by which some whole-millisecond offsets (1001 ms is one) come out a millisecond low in Python.
- BatchPython.MicrosOffset: the same rounding.
- ServerTheorems.ServerReadsWhatWasMeant: schemas in which two fields have one name; the registry does not forbid them, but the SDK and the server file fields by name.
- ServerDecode.Deserialize: message sizes, MessagePack bytes and the other payload formats.
- SdkClient.Client.Send: compression, the recommended-format header, the local configuration file and timeouts; a timeout is a post refused or its answer lost, or a failed fetch.
- Hub.BroadcastReachesSnapshot: dropping by a full or closed subscription happens after the write.
- RefreshTokens.AuthService.Refresh: access tokens and their blacklist, user agents and addresses.
- RefreshTokens.AuthService.RevokeAllForUser: a failing statement, which the callers only log.
- Slugs.SlugifyFixesSlugs: lower-casing itself is a parameter, required to leave the slug alone.
- The Python SDK client: it repeats the Go client without holding its lock across schema and version.
- HTTP handlers (but for the path of a compact payload) and routers, configuration, the Postgres, Kafka, SMTP and webhook layers, and all React components: plumbing around the parts modelled.
- Cursor encoding, hashing, signing and compression: calls into libraries.
- Query and API-key caches, CRUD services, provisioning and notification status: they would add only easy members.

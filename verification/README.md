# Inference gateway: a verified model

A Dafny model of the parts of the inference platform whose correctness is not visible from reading one function:
the hand-written Protocol Buffers codecs, the router's admission and selection machinery, the scheduler's queue
and dispatch protocol, and the control plane's quota enforcer with the caches around it.
`dafny verify dfyconfig.toml` checks everything.

## What is modelled

**Codecs** (`Wire`, `Schema`, `Decoding`, `RoundTrip`, `Fields`, `InferenceMessages`, `ExecutionMessages`,
`MessageTypes`, `PackedLists`, `Format`, `MessageBytes`). The wire primitives are defined from the Protocol Buffers Encoding specification (sections "Base
128 Varints", "Message Structure", "Length-Delimited Records", "Groups") and proved to invert their encoders and
never to look past what they consume. `Schema.Run` says what a decode loop does for any message descriptor,
including where the code is narrower than the specification: a second packed chunk replaces the list, unpacked
doubles are skipped, malformed map entries end silently; `PackedLists` says exactly when a packed field is read as the
specification would read it. The classes marshal and unmarshal field by field as the Go
methods do and are proved against that semantics; the theorems about merging, unknown fields, field order and round
trips then hold for every descriptor, every byte string and every map iteration order. `Format` says by numbers what
the bytes of a field are and how they are read, and `MessageBytes` which field of a message goes out under which number.

**Router** (`Sorting`, `Percentile`, `Health`, `CircuitBreaker`, `BreakerLaws`, `TokenBucket`, `Scoring`, `ScoreLaws`,
`Routing`, `Reports`, `Backend`, `RouterService`, `RouteLaws`, `Policies`).
In-place stable insertion sort, the nearest-rank percentile over a ring buffer, the timed breaker, the token bucket,
the ranking, `Route`'s use of them for one request from the tenant's policy to the response, and the reports of
concurrent requests to breaker and tracker. The `Laws` modules say what a caller relies on over logs of events and in
numbers: what a breaker refuses, which of two models comes first, what a request gets. Time and scores are reals and the clock is passed to each
call.

**Scheduler** (`Batching`, `LaneQueue`, `PriorityOrder`, `Scheduler`, `Delivery`). The three-lane queue as a class and as one list sorted by lane;
the adaptive wait; and the whole of Schedule, batcher and reply goroutines as interleaved atomic
steps; `Delivery` says from the steps of a run alone what each caller receives, what the counters count and what a batch
holds.

**Quotas and caches** (`TtlCache`, `CacheLaws`, `Auth`, `Policies`, `MinuteWindow`, `Quota`, `QuotaOvershoot`). One protocol for
a cache with a time to live, in which testing the cache, reading the table and storing the result are separate steps; the key store, the
quota configurations and the tenant policies as instances; the per-minute counters with their flush loop; and the
daily limit under interleaved checks and records.

## Where the code and its documentation differ

The model follows the code.

- `docs/adr/ADR-001` and `services/router/internal/scoring/scorer_test.go:108` say that a rollout weight of 0 gives a
  model the score 0 and so excludes it. The code turns 0 into 1: `Scoring.ZeroWeightIsNoWeight`,
  `Scoring.TotalIsNeverZero`, `Scoring.FinishedRolloutsCompete`.
- `services/scheduler/internal/queue/queue_test.go:48` expects a critical item to overtake a high one. They share a
  lane: `PriorityOrder.UrgencyKeptIff` gives exactly the runs of enqueues and drains in which nobody can tell, and
  `LaneQueue.UrgencyOrderIff` the arrival orders for filling a queue and draining it.
- `docs/adr/ADR-002` says that high and critical items are accepted even when the queue is full. The code refuses
  every item at the maximal depth: `LaneQueue.ModelQueue.Enqueue`.
- A scalar double of -0.0 is not transmitted: `RoundTrip.RoundTripsIff`, `MessageTypes.ResponsesRoundTripIff`.
- Breaker and health tracker are told of an outcome in two separate steps. Their agreement survives every run if and
  only if requests report one at a time: `Reports.AgreeIffOneAtATime`, with the run that breaks it in
  `Reports.OvertakingDisagrees`.
- `Route` compares the best candidate with itself to find out whether it fell back, so its responses never report a
  fallback: `RouterService.RouterServer.Route`.
- An invalidation can be overtaken by a lookup that read the old row: `TtlCache.InvalidateTakesEffectIff` and
  `TtlCache.InvalidateCanBeOvertaken`.
- A flush or a check that read the clock in the previous minute and got the lock in the next one loses tokens:
  `MinuteWindow.ExactIffOnTime`, with the run in `MinuteWindow.LateReadingLosesTokens`; `MinuteWindow.MissedIffLost`
  says which orders of steps lose tokens.
- A check reserves nothing, so the daily limit is not a limit when requests overlap:
  `QuotaOvershoot.LimitKeptIff`, with the exact excess in `QuotaOvershoot.OvershootBound` and
  `QuotaOvershoot.OvershootReached`.

## Model

| member | source | states |
|---|---|---|
| Wire.ConsumeVarintInverts | gen/go/inference/v1/inference.go:165-165 | reading a varint gives back any 64-bit number that was written, whatever follows it |
| Wire.ConsumeBytesInverts | gen/go/inference/v1/inference.go:163-163 | reading a length-delimited record gives back its content and length |
| Wire.ConsumeTagInverts | gen/go/inference/v1/inference.go:159-161 | reading a key gives back field number and wire type |
| Wire.ConsumeFixed64Inverts | gen/go/inference/v1/inference.go:385-393 | reading eight little-endian bytes gives back the pattern written |
| Wire.ConsumeValueStable | gen/go/inference/v1/inference.go:185-185 | skipping a value, nested groups included, does not depend on the bytes behind it |
| Wire.NextStable | gen/go/execution/v1/execution.go:51-72 | a complete field reads the same whatever follows it |
| Schema.NextInverts | gen/go/inference/v1/inference.go:123-154 | every field as the encoders spell it reads back as that field |
| Schema.UnpackInverts | gen/go/inference/v1/inference.go:376-393 | unpacking a packed list of doubles gives back the list |
| Schema.PackInverts | gen/go/inference/v1/inference.go:376-393 | packing an unpacked payload gives back its bytes, up to a tail shorter than a double |
| Schema.EntryInverts | gen/go/inference/v1/inference.go:395-412 | reading an encoded map entry gives back its key and value |
| Format.VarintSpells | gen/go/inference/v1/inference.go:79-84 | a varint is the number to the base 128, low digit first, every byte but the last marked, and no leading zero |
| Format.NumberIsVarint | gen/go/inference/v1/inference.go:79-84 | no other bytes are |
| Format.ReadsNumber | gen/go/inference/v1/inference.go:165-165 | bytes marked but for the last read as their value to the base 128, up to ten of them and 64 bits |
| Format.ReadsNoNumber | gen/go/inference/v1/inference.go:165-165 | bytes that are all marked are cut short or too long |
| Format.SmallRecords | gen/go/inference/v1/inference.go:123-154 | for field numbers up to 15 and short values: a string is [8 * num + 2, length] and the string, a varint [8 * num, v], a double 8 * num + 1 and eight bytes of which byte i is v / 256^i % 256 |
| Format.LittleEndianDigit | gen/go/inference/v1/inference.go:376-383 | byte i of a fixed-width value is its i-th digit to the base 256 |
| Format.SkipsByNumber | gen/go/inference/v1/inference.go:185-185 | how a value of wire type 1, 4, 5, 6 or 7 is read, skipped or refused, by the number of its type |
| Format.GroupEnds | gen/go/inference/v1/inference.go:185-185 | a group ends at the key of type 4 with its own number and is refused at any other |
| Format.GroupPasses | gen/go/inference/v1/inference.go:185-185 | before that, one complete field after the other is passed over |
| Format.GroupsTooDeep | gen/go/inference/v1/inference.go:185-185 | groups nested more than ten thousand deep are refused |
| Format.SpellsIsEncoding | gen/go/inference/v1/inference.go:123-154 | the encodings of a message are exactly the byte strings that spell it field by field, said by numbers |
| Format.SpeltDecodes | gen/go/inference/v1/inference.go:156-189 | those bytes decode into the message, up to the sign of zero doubles |
| Format.DecodesInt | gen/go/inference/v1/inference.go:164-166 | behind the key 8 * num a number decodes into the integer field congruent to it, or into whether it is not 0 |
| Format.DecodesDouble | gen/go/inference/v1/inference.go:248-252 | behind the key 8 * num + 1 eight bytes decode into their value to the base 256 |
| Format.DecodesBytes | gen/go/inference/v1/inference.go:162-171 | behind the key 8 * num + 2 and its length a string replaces the old one, joins the list, or is the new list of doubles |
| Format.DecodesMessage | gen/go/inference/v1/inference.go:167-170 | a nested message is appended if its bytes decode, and otherwise their error is the result |
| Format.EntryKeepsWhatWasRead | gen/go/inference/v1/inference.go:395-412 | a malformed map entry keeps the key and value read before the malformed part |
| Decoding.Merge | gen/go/inference/v1/inference.go:235-263 | if a decodes, decoding a ++ b is decoding b into the result of decoding a, errors included |
| Decoding.UnknownFieldInvisible | gen/go/execution/v1/execution.go:51-72 | a complete field with an unknown number or the wrong wire type, at any field boundary, changes nothing |
| Decoding.RunIsFold | gen/go/inference/v1/inference.go:156-189 | exactly which byte strings decode, and that the result is a fold over their fields |
| Decoding.FoldBySlot | gen/go/inference/v1/inference.go:156-189 | each message field is a function of the payloads with its own number alone |
| Decoding.LastOneWins | gen/go/inference/v1/inference.go:248-252 | for scalars and packed lists only the last payload counts |
| Decoding.StringsConcatenate | gen/go/inference/v1/inference.go:171-171 | repeated strings are appended in order |
| Decoding.MessagesConcatenate | gen/go/inference/v1/inference.go:167-170 | repeated messages are decoded afresh and appended in order |
| Decoding.LastEntryWins | gen/go/inference/v1/inference.go:180-182 | per map key the last entry wins, and other keys keep their value |
| PackedLists.PackedAsSpecifiedIff | gen/go/inference/v1/inference.go:248-259 | a packed field ends as the encoding specification says if and only if no double comes unpacked and every chunk finds an empty list, the message's own and every earlier chunk's |
| Decoding.FieldOrderIrrelevant | gen/go/inference/v1/inference.go:156-189 | byte strings that agree number by number decode alike |
| Decoding.AdjacentFieldsCommute | gen/go/inference/v1/inference.go:156-189 | swapping adjacent fields with different numbers does not change the decoded message |
| RoundTrip.DecodeEncode | gen/go/inference/v1/inference.go:123-189 | decoding any encoding into a fresh message gives the message up to the sign of zero doubles |
| RoundTrip.RoundTripsIff | gen/go/inference/v1/inference.go:212-263 | it gives the very same message if and only if no scalar double in it is negative zero |
| RoundTrip.EncodingsAreUnambiguous | gen/go/inference/v1/inference.go:123-154 | no byte string encodes two messages that differ in more than signs of zero |
| RoundTrip.NormalChangesIff | gen/go/inference/v1/inference.go:225-226 | what an encoding drops is the sign of zero doubles and nothing else |
| Fields.TurnKnown | gen/go/inference/v1/inference.go:158-184 | one turn of a decode loop at a known field: the step semantics takes the same error or the same change |
| Fields.TurnUnknown | gen/go/inference/v1/inference.go:185-185 | one turn at any other field: the value is skipped, or its error returned |
| Fields.AppendPackedField | gen/go/inference/v1/inference.go:376-383 | the loop appends one more field of an encoding, and nothing for an empty list |
| Fields.AppendMapField | gen/go/inference/v1/inference.go:144-150 | whatever order the map is iterated in, the result is an encoding |
| InferenceMessages.UnpackFixed64 | gen/go/inference/v1/inference.go:385-393 | the loop computes the list of whole eight-byte groups |
| InferenceMessages.AppendMessages | gen/go/inference/v1/inference.go:129-132 | nested messages are encoded one record each |
| InferenceMessages.ChatMessage.MarshalProto | gen/go/inference/v1/inference.go:79-84 | for strings under 128 bytes [0x0a, length] and the role, then [0x12, length] and the content, nothing for an empty one; for any strings an encoding, whose bytes are spelt by base-128 digits |
| InferenceMessages.ChatMessage.UnmarshalProto | gen/go/inference/v1/inference.go:86-101 | the loop leaves the message and returns the error that the decode semantics says |
| InferenceMessages.ShortChatSpells | gen/go/inference/v1/inference.go:79-84 | the encodings of a chat message of short strings are those literal bytes and no others |
| MessageTypes.ReadChat | gen/go/inference/v1/inference.go:86-101 | those literal bytes unmarshal into a new chat message with that role and content |
| InferenceMessages.InferenceRequest.MarshalProto | gen/go/inference/v1/inference.go:123-154 | an encoding of the request, and byte for byte the records of its fields in their order |
| InferenceMessages.InferenceRequest.UnmarshalProto | gen/go/inference/v1/inference.go:156-189 | the loop leaves the request and returns the error that the decode semantics says |
| InferenceMessages.InferenceResponse.MarshalProto | gen/go/inference/v1/inference.go:212-233 | an encoding of the response, and byte for byte the records of its fields in their order |
| InferenceMessages.InferenceResponse.UnmarshalProto | gen/go/inference/v1/inference.go:235-263 | the loop leaves the response and returns the error that the decode semantics says |
| ExecutionMessages.ExecuteRequest.MarshalProto | gen/go/execution/v1/execution.go:31-49 | an encoding of the request, and byte for byte the records of its fields in their order |
| ExecutionMessages.ExecuteRequest.UnmarshalProto | gen/go/execution/v1/execution.go:51-72 | the loop leaves the request and returns the error that the decode semantics says |
| ExecutionMessages.ExecuteResponse.MarshalProto | gen/go/execution/v1/execution.go:85-96 | an encoding of the response, and byte for byte the records of its fields in their order |
| ExecutionMessages.ExecuteResponse.UnmarshalProto | gen/go/execution/v1/execution.go:98-114 | the loop leaves the response and returns the error that the decode semantics says |
| MessageBytes.ChatOnWire | gen/go/inference/v1/inference.go:79-84 | role and content of any length go out as records 1 and 2 |
| MessageBytes.RequestOnWire | gen/go/inference/v1/inference.go:123-154 | field by field, the number and the bytes under which each field of a request goes out |
| MessageBytes.ResponseOnWire | gen/go/inference/v1/inference.go:212-233 | the same for a response |
| MessageBytes.ExecuteRequestOnWire | gen/go/execution/v1/execution.go:31-49 | the same for an execute request |
| MessageBytes.ExecuteResponseOnWire | gen/go/execution/v1/execution.go:85-96 | the same for an execute response |
| MessageTypes.RequestsRoundTrip | gen/go/execution/v1/execution.go:31-72 | both request types survive encoding and decoding unchanged, nil metadata read back as empty |
| MessageTypes.ResponsesRoundTripIff | gen/go/inference/v1/inference.go:212-263 | an inference response survives if and only if none of its three scalar doubles is negative zero |
| MessageTypes.ExecuteResponsesRoundTripIff | gen/go/execution/v1/execution.go:85-114 | an execute response survives if and only if its latency is not negative zero |
| MessageTypes.CopyRequest | gen/go/inference/v1/inference.go:123-189 | marshalling a request gives an encoding of it, and unmarshalling that into a new object succeeds and copies it, nil metadata read back as empty |
| MessageTypes.CopyResponse | gen/go/inference/v1/inference.go:212-263 | the same for a response, up to the sign of zero doubles; exactly so if and only if none of the three is negative zero |
| MessageTypes.CopyExecuteRequest | gen/go/execution/v1/execution.go:31-72 | the same for an execute request, exactly |
| MessageTypes.CopyExecuteResponse | gen/go/execution/v1/execution.go:85-114 | the same for an execute response, exactly if and only if its latency is not negative zero |
| Sorting.SwapDown | services/scheduler/internal/batcher/batcher.go:106-110 | the inner loop inserts one element, in place, behind every key that is not greater |
| Sorting.InsertionSort | services/router/internal/scoring/scorer.go:266-272 | the loops turn the array into its stable sort |
| Sorting.StableSortIsTheOne | services/router/internal/scoring/scorer.go:266-272 | the result is the only sorted sequence that keeps every key's elements and their order |
| Sorting.FilterCommutesWithSort | services/router/internal/scoring/scorer.go:266-272 | deleting elements before or after sorting makes no difference |
| Percentile.P99Exceeds | services/scheduler/internal/batcher/batcher.go:97-114 | the percentile exceeds x if and only if strictly more than 1% of the values do |
| Percentile.SortedCopyP99 | services/scheduler/internal/batcher/batcher.go:97-114 | the sorted copy is read at the percentile's rank |
| Percentile.RingAt | services/scheduler/internal/batcher/batcher.go:90-95 | what every slot of a wrapping ring holds after any history of writes |
| Percentile.RingFull | services/router/internal/scoring/scorer.go:69-91 | a full ring is a rotation of the latest writes |
| Batching.LatencyHist.Record | services/scheduler/internal/batcher/batcher.go:90-95 | the ring takes one more sample of the history |
| Batching.LatencyHist.CurrentP99 | services/scheduler/internal/batcher/batcher.go:97-114 | however the ring has wrapped, the result is the percentile of the latest samples: above x if and only if more than 1% of them are |
| Batching.AdaptiveWait | services/scheduler/internal/batcher/batcher.go:185-196 | the wait is the one for the queue's depth and that percentile |
| Batching.TightensIff | services/scheduler/internal/batcher/batcher.go:185-196 | the wait is minimal if and only if the queue is deep or more than 1% of the recent batches ran over 1.5 times the objective |
| Batching.DefaultWait | services/scheduler/internal/batcher/batcher.go:41-49 | with the default settings the wait is 5, 15 or 30 ms, and when each |
| Health.ModelHealth.RecordSuccess | services/router/internal/scoring/scorer.go:69-79 | rings, totals and percentile follow the history with one more success; the percentile exceeds x if and only if more than 1% of the positive latencies among the latest hundred outcomes do |
| Health.ModelHealth.RecordFailure | services/router/internal/scoring/scorer.go:81-91 | the same for a failure, which leaves the percentile alone |
| Health.ModelHealth.UpdateP99 | services/router/internal/scoring/scorer.go:93-115 | the percentile becomes that of the window's positive latencies, or stays if there are none |
| Health.ModelHealth.ErrorRate | services/router/internal/scoring/scorer.go:117-135 | the rate times the number of the latest outcomes, a hundred at most, is how many of them failed |
| Health.PositivesOfRing | services/router/internal/scoring/scorer.go:93-115 | looking over all slots of the ring, unused ones included, gives the percentile of the window |
| Health.ZerosOfRing | services/router/internal/scoring/scorer.go:117-135 | counting zeros in the used slots counts the window's failures |
| Health.PercentileInNumbers | services/router/internal/scoring/scorer.go:93-115 | the percentile of the window, counted over the latest hundred outcomes |
| Health.RateInNumbers | services/router/internal/scoring/scorer.go:117-135 | the rate is 0 without outcomes and otherwise the share of failures among the latest hundred |
| CircuitBreaker.Guard.AllowRequest | services/router/internal/policy/policy.go:43-57 | permits if and only if the state is not open or the last failure is more than the timeout ago, and the fields follow the log |
| CircuitBreaker.Guard.RecordSuccess | services/router/internal/policy/policy.go:59-69 | the fields follow the transition function |
| CircuitBreaker.Guard.RecordFailure | services/router/internal/policy/policy.go:71-80 | the fields follow the transition function |
| CircuitBreaker.LeavingOpen | services/router/internal/policy/policy.go:43-57 | the only way out of Open is a permitted request after the timeout |
| CircuitBreaker.OpeningsFarApart | services/router/internal/policy/policy.go:43-80 | two entries into Open are more than the timeout apart |
| CircuitBreaker.OpeningsTakeTime | services/router/internal/policy/policy.go:43-80 | N entries into Open take more than N - 1 timeouts |
| CircuitBreaker.ClosingTakesSuccesses | services/router/internal/policy/policy.go:43-80 | every path from Open to Closed has a probe after the timeout and then the required successes with no failure between |
| BreakerLaws.FieldsByLog | services/router/internal/policy/policy.go:59-80 | over any log the counter is the number of failures since the last success and the time that of the last failure |
| BreakerLaws.OpensIff | services/router/internal/policy/policy.go:71-80 | a breaker opens exactly at a failure that is the threshold-th in a row when closed, and at any failure when half-open |
| BreakerLaws.OpensAtThird | services/router/internal/policy/policy.go:33-40 | with the default settings that is the third and no earlier one |
| BreakerLaws.OpenIff | services/router/internal/policy/policy.go:43-80 | it is open if and only if it has opened and no request since came later than the timeout |
| BreakerLaws.RefusedIff | services/router/internal/policy/policy.go:43-57 | a request is refused if and only if so and it comes within the timeout of the last failure |
| BreakerLaws.TrippedGuardRefuses | services/router/internal/policy/policy.go:33-80 | a new guard with three failures permits a request if and only if it comes more than 20 seconds after the third |
| BreakerLaws.ProbedGuardTakesTwo | services/router/internal/policy/policy.go:33-80 | after that request it is half-open, two successes close it, and a failure after one opens it |
| TokenBucket.RateLimiter.Allow | services/router/internal/policy/policy.go:200-220 | answers as the specification does for the log of all calls so far |
| TokenBucket.Exact | services/router/internal/policy/policy.go:200-220 | a call is allowed if and only if it overdraws no budget that starts at it or at an earlier call, even when the policy changes |
| TokenBucket.ExactForFixedPolicy | services/router/internal/policy/policy.go:200-220 | with fixed rate and burst: if and only if for every j the number allowed since j plus one is at most burst plus rate times the time since j |
| TokenBucket.WindowBound | services/router/internal/policy/policy.go:200-220 | no window of time sees more grants than burst plus rate times its length |
| TokenBucket.Isolated | services/router/internal/policy/policy.go:200-206 | what a call gets depends on its own tenant's calls alone |
| Scoring.Score | services/router/internal/scoring/scorer.go:222-273 | filter, score and in-place sort compute the ranking: exactly the models that pass the filters, each with the score that Scored gives in numbers, best first, ties as they came |
| Scoring.ScoredIff | services/router/internal/scoring/scorer.go:238-330 | a score is the one computed if and only if its five components, its weighted sum by mode, its rollout factor and its reason are those written out in numbers |
| Scoring.RankedIsRanking | services/router/internal/scoring/scorer.go:222-273 | the ranking is the only sequence that holds those scores of exactly the admissible models, best first, ties as they came |
| ScoreLaws.BetterComesFirst | services/router/internal/scoring/scorer.go:266-272 | of two candidates the one with the greater total comes first, and with equal totals the one that came first |
| ScoreLaws.SmallerComesFirst | services/router/internal/scoring/scorer.go:290-304 | with a low budget the smaller of two models alike in everything else stands ahead, wherever it stood before |
| ScoreLaws.SmallerIsNoWorse | services/router/internal/scoring/scorer.go:276-304 | with a low budget the smaller or equal tier never has the smaller total |
| ScoreLaws.HealthierIsNoWorse | services/router/internal/scoring/scorer.go:306-310 | a lower error rate never lowers the total |
| ScoreLaws.ShorterQueueIsNoWorse | services/router/internal/scoring/scorer.go:312-320 | a shorter queue never lowers the total |
| ScoreLaws.CheaperIsNoWorse | services/router/internal/scoring/scorer.go:290-304 | a lower price never lowers the total |
| ScoreLaws.TotalWithinOne | services/router/internal/scoring/scorer.go:238-250 | without a rollout 0 < total <= 1 |
| Scoring.RankedIsStableDescending | services/router/internal/scoring/scorer.go:222-273 | the ranking is the only descending order of exactly the eligible candidates with ties as they came |
| Scoring.LeavingOutCommutes | services/router/internal/scoring/scorer.go:222-273 | leaving models out before scoring equals striking them off the full ranking |
| Scoring.RolloutWeights | services/router/cmd/main.go:49-62 | the weight of every model is what the last enabled rollout naming it says, as the canary if it names it twice; models in no enabled rollout have none |
| Scoring.TotalIsNeverZero | services/router/internal/scoring/scorer.go:246-249 | no weights at all give a total of zero |
| Scoring.ZeroWeightIsNoWeight | services/router/internal/scoring/scorer.go:246-247 | a model with rollout weight 0 scores as if it had no weight |
| Scoring.FinishedRolloutsCompete | services/router/cmd/main.go:49-62 | a canary at 0% and the base of a canary at 100% compete with full weight |
| Routing.Router.Admit | services/router/cmd/main.go:222-229 | the candidates are the models whose breaker is not open or saw its last failure more than 20 seconds ago, and every breaker has been asked in turn |
| Routing.Router.RecordSuccess | services/router/cmd/main.go:273-275 | breaker and tracker of the model, and no other, take the success and still agree |
| Routing.Router.RecordFailure | services/router/cmd/main.go:243-271 | breaker and tracker of the model, and no other, take the failure and still agree |
| Routing.Router.Route | services/router/cmd/main.go:222-275 | the best admitted model is called; its history takes one outcome, its breaker one report, every breaker asked its question, and nothing else changes |
| Routing.BreakersFollowRequests | services/router/cmd/main.go:222-275 | along every run of requests each model's breaker is what its own events make of a new one, so the theorems on breaker runs hold of it |
| RouterService.RouterServer.Route | services/router/cmd/main.go:172-312 | policy, rate limit, choice, outcome and response of one request: a limited request touches no breaker and no history; any other gets the reply of the best admitted model under the policy in force, with every breaker and history afterwards determined, and never reports a fallback |
| RouterService.RouterServer.Limit | services/router/cmd/main.go:182-197 | the policy comes from the cache protocol and the call goes on the tenant's bucket under it |
| RouterService.RouterServer.Dispatch | services/router/cmd/main.go:199-306 | the part of Route behind the rate limit; comparing the best candidate with itself never finds a fallback |
| RouterService.Cost | services/router/cmd/main.go:280-288 | the loop prices the output tokens at the first model with the id, and at nothing when there is none |
| RouterService.PromptLength | services/router/cmd/main.go:199-203 | the loop adds up the prompt and all message contents |
| RouteLaws.NoModelIff | services/router/cmd/main.go:222-238 | no model is found if and only if none is enabled, fit for the task, allowed to the tenant and not held back by its breaker |
| RouteLaws.ServedMeans | services/router/cmd/main.go:222-312 | any other request goes to such a model that none of them scores better than, which names the executor, the canary flag and the price of the response, and whose breaker and history alone hear of the outcome |
| RouteLaws.CanaryIsRolling | services/router/cmd/main.go:240-240 | a response is a canary if and only if the last enabled rollout naming its model has a share strictly between 0 and 1 |
| RouteLaws.PriceOfFirst | services/router/cmd/main.go:280-288 | the price is that of the first record with the id |
| Routing.BlockedModelsOnlyDropOut | services/router/cmd/main.go:222-238 | asking the breakers first gives the full ranking with the blocked models deleted |
| Routing.AgreementIsKept | services/router/cmd/main.go:245-275 | the breaker counts the trailing failures, and Closed means fewer than the threshold, after every report |
| Routing.BreakerCountShowsInRing | services/router/internal/scoring/scorer.go:69-91 | as many slots behind the ring's head are failures as the breaker counts, up to the ring's size |
| Reports.AgreeIffOneAtATime | services/router/cmd/main.go:243-275 | with at most k requests between their two reports, every run that leaves no report half told ends in agreement if and only if k is 1 |
| Reports.OvertakingDisagrees | services/router/cmd/main.go:265-275 | for every k of at least 2, a run of two requests that ends in disagreement |
| Reports.InOrderRunsAgree | services/router/cmd/main.go:243-275 | for every k, reports that reach the tracker in the order of the breaker end in agreement |
| Reports.EveryReportArrives | services/router/cmd/main.go:243-275 | in every run the tracker has and will have been told exactly what the breaker was told; only the order can differ |
| Backend.ModelBackend.Allow | services/router/internal/policy/policy.go:43-57 | the breaker object answers by its state and last failure, steps as specified and still agrees with the tracker object |
| Backend.ModelBackend.RecordSuccess | services/router/cmd/main.go:273-275 | both objects take the success, and they still agree |
| Backend.ModelBackend.RecordFailure | services/router/cmd/main.go:265-267 | both objects take the failure, and they still agree |
| Backend.ModelBackend.CounterShowsInArray | services/router/internal/scoring/scorer.go:69-91 | as many slots of the tracker's array behind head are 0 as the breaker object counts, up to the ring's size, and Closed means fewer than the threshold |
| LaneQueue.ModelQueue.Enqueue | services/scheduler/internal/queue/queue.go:54-73 | accepts exactly below the maximal depth; priorities 2 and 3 go to the end of the high lane, 1 of the normal and all others of the low one; and counts |
| LaneQueue.ModelQueue.Drain | services/scheduler/internal/queue/queue.go:76-96 | removes and returns exactly the first n, or as many as there are, of high ++ normal ++ low, and counts |
| LaneQueue.PushInserts | services/scheduler/internal/queue/queue.go:61-70 | enqueueing is stable insertion by lane into the list of what comes next |
| LaneQueue.FillThenDrainSorts | services/scheduler/internal/queue/queue.go:54-96 | enqueues and a full drain give the stable sort by lane |
| LaneQueue.UrgencyOrderIff | services/scheduler/internal/queue/queue.go:63-64 | items come out in the order of their priorities if and only if no high one came in before a critical one |
| PriorityOrder.UrgencyKeptIff | services/scheduler/internal/queue/queue.go:54-96 | over any run of enqueues and drains, what comes out and what is left are those of a queue in which critical goes first, if and only if no critical item is accepted while a high one waits |
| LaneQueue.PositionAfter | services/scheduler/internal/queue/queue.go:54-96 | the exact place of an item after any run of enqueues and drains |
| LaneQueue.BoundedBypass | services/scheduler/internal/queue/queue.go:54-96 | an item with p ahead and h accepted overtakers is returned within (p + h) / n + 1 drains of n |
| LaneQueue.HighLaneIsNotOvertaken | services/scheduler/internal/queue/queue.go:63-64 | a remark to the above: for an item of the high lane h is 0 |
| Scheduler.StepKeeps | services/scheduler/cmd/main.go:85-130 | every atomic step keeps the invariant: at most one place per item, replies kept for whoever waits, callers and counters accounted for |
| Scheduler.ReachableInv | services/scheduler/internal/batcher/batcher.go:198-294 | so every interleaving does |
| Scheduler.AcceptedAreEntered | services/scheduler/internal/queue/queue.go:54-96 | along every run, the items in the lanes, in flight or replied to are those from before and exactly those whose enqueueing met a queue with room |
| Scheduler.EnteredItemsHaveOnePlace | services/scheduler/internal/batcher/batcher.go:162-225 | in every run each item that entered the queue is in the lanes, in flight or replied to, in exactly one of them, whether or not its caller is still there; nothing else is in any of them |
| Scheduler.AtMostOneResult | services/scheduler/internal/batcher/batcher.go:256-294 | in no run does an item get two results, and every result is for an item that entered the queue |
| Scheduler.SendsNeverBlock | services/scheduler/internal/batcher/batcher.go:256-294 | no send on a channel of capacity one ever blocks, even when the caller has left |
| Scheduler.BatchCompletes | services/scheduler/internal/batcher/batcher.go:198-225 | from every reachable state the batch in flight completes by its own replies alone |
| Scheduler.CompletedBatchIsDelivered | services/scheduler/cmd/main.go:112-129 | then every caller of the batch still waiting finds a reply |
| Delivery.ReceivesWhatWasSent | services/scheduler/cmd/main.go:112-129 | in every run, a caller receives a result if and only if the answer was sent for its item, and an error if and only if an error was; never both |
| Delivery.ChannelsHoldWhatWasSent | services/scheduler/internal/batcher/batcher.go:277-290 | a channel holds what was sent on it |
| Delivery.CountersCountActions | services/scheduler/cmd/main.go:112-129 | answers counted or about to be are the receives of answers; errors are the timeouts and the receives of errors; calls and cancellations are counted one by one |
| Delivery.QueueIsLaneRun | services/scheduler/internal/queue/queue.go:54-96 | the queue in any run is what its enqueues and drains alone make of the three lanes |
| Delivery.PrioritiesStay | services/scheduler/cmd/main.go:85-100 | with the priorities that the requests came with |
| Delivery.BatchIsFirstOfQueue | services/scheduler/internal/batcher/batcher.go:198-225 | a batch is the first n of that queue, or all of it, and each of them is going to be replied to |
| Delivery.TurnedAwayIffFull | services/scheduler/internal/queue/queue.go:54-60 | a request is turned away if and only if that queue is full |
| Scheduler.QuiescentCounters | services/scheduler/internal/queue/queue.go:54-96 | a remark: in every run the counters alone balance whenever no caller stands between a lock region or a select and its counter |
| TtlCache.BoundedStaleness | services/control-plane/internal/quota/quota.go:190-210 | under any interleaving an answer at t is what the table held at some instant from t - TTL - delay to t, delay 0 being the atomic case |
| TtlCache.SweepIsInvisible | services/api-gateway/internal/auth/auth.go:83-94 | leaving the sweeps out of any run changes no answer |
| TtlCache.NothingOldIsServedIff | services/control-plane/internal/quota/quota.go:190-210 | no older value is ever served again if and only if no fresh entry and no pending store holds one |
| TtlCache.InvalidateTakesEffectIff | services/api-gateway/internal/auth/auth.go:97-101 | an invalidation ends all older answers if and only if no read of an old row is waiting to be stored |
| TtlCache.UpsertTakesEffectIff | services/control-plane/internal/quota/quota.go:176-186 | an upsert puts its value in table and cache, and ends all older answers under exactly the same condition |
| TtlCache.InvalidateCanBeOvertaken | services/api-gateway/internal/auth/auth.go:47-81 | a key that was disabled and invalidated can still be accepted |
| CacheLaws.HitIff | services/control-plane/internal/quota/quota.go:190-210 | in every run a lookup is answered at once if and only if the latest store of its key is within the time to live and no invalidation came after it, and then with what that store answered |
| CacheLaws.ReadAnswers | services/control-plane/internal/quota/quota.go:199-206 | a table read answers nothing if and only if there is no row and nothing stands in for one, and otherwise nothing is answered yet |
| CacheLaws.StoreAnswers | services/control-plane/internal/quota/quota.go:176-210 | a store answers the row at the read of its own lookup, or what its own upsert wrote |
| CacheLaws.KeysHitIff | services/api-gateway/internal/auth/auth.go:47-81 | for API keys the time to live is 60 seconds, that bound excluded |
| CacheLaws.ConfigsHitIff | services/control-plane/internal/quota/quota.go:190-210 | for quota configurations too |
| CacheLaws.PoliciesHitIff | services/router/internal/policy/policy.go:148-168 | for policies it is 30 seconds, that bound included |
| Auth.Store.Validate | services/api-gateway/internal/auth/auth.go:47-81 | an entry answers before it expires; otherwise the principal of an enabled key of an enabled tenant, which is kept for 60 seconds, or none, which is not kept |
| Auth.JoinedIff | services/api-gateway/internal/auth/auth.go:54-76 | the join of the two tables, field by field: a key is resolved if and only if it and its tenant are enabled |
| Auth.Store.Invalidate | services/api-gateway/internal/auth/auth.go:97-101 | exactly this key leaves the cache |
| Auth.Store.Cleanup | services/api-gateway/internal/auth/auth.go:83-94 | the loop keeps exactly the entries that have not expired |
| Auth.RotatedKeyIsReadAgain | services/api-gateway/internal/auth/auth.go:47-101 | uncontended, a lookup after a change of the tables and an invalidation answers by the new tables |
| Policies.PolicyStore.Get | services/router/internal/policy/policy.go:154-162 | a hit is an entry of at most thirty seconds, that bound included |
| Policies.PolicyStore.Set | services/router/internal/policy/policy.go:164-168 | exactly the policy's tenant is replaced |
| Policies.Loader.Load | services/router/cmd/main.go:182-192 | the cached policy for 30 seconds, otherwise the row or the permissive default (balanced, 50 per second, burst 100), which is then kept; the store follows the protocol |
| MinuteWindow.UsedIsTallyLessMissed | services/control-plane/internal/quota/quota.go:223-252 | for every order of lock regions, the counter is the minute's tally less what came before it was last started |
| MinuteWindow.CheckIsExactIff | services/control-plane/internal/quota/quota.go:223-239 | checks decide by the tally, for all estimates and limits, if and only if nothing was missed |
| MinuteWindow.MissedIffLost | services/control-plane/internal/quota/quota.go:223-252 | nothing was missed if and only if no positive count came unwatched after the first check or was followed by another minute's check or flush |
| MinuteWindow.ExactIffOnTime | services/control-plane/internal/quota/quota.go:223-252 | checks decide by the tally in every run with readings at most d minutes late if and only if d is 0 |
| MinuteWindow.CheckDecides | services/control-plane/internal/quota/quota.go:223-239 | with minutes in order, a check decides by the tokens recorded since the minute's first check |
| MinuteWindow.FlushIsInvisible | services/control-plane/internal/quota/quota.go:241-252 | with minutes in order, leaving the flushes out changes no decision |
| MinuteWindow.RowIsArrivedAndDue | services/control-plane/internal/quota/quota.go:150-163 | what the table's minute row holds has reached the counting step or is still on its way |
| MinuteWindow.CounterWithinRow | services/control-plane/internal/quota/quota.go:136-164 | in any order the live counter is at most the table's minute row |
| MinuteWindow.LateReadingLosesTokens | services/control-plane/internal/quota/quota.go:223-252 | one late flush or check lets a minute exceed its limit |
| Quota.Enforcer.LoadConfig | services/control-plane/internal/quota/quota.go:190-210 | the cached configuration if under 60 seconds old, otherwise the row, which is kept; a missing row is not |
| Quota.Enforcer.UpsertConfig | services/control-plane/internal/quota/quota.go:176-186 | the row is replaced and then the entry |
| Quota.Enforcer.CheckMinute | services/control-plane/internal/quota/quota.go:223-239 | the decision by the live counter, which restarts at a new minute |
| Quota.Enforcer.Check | services/control-plane/internal/quota/quota.go:108-133 | allowed if and only if the context, the minute, the day and the budget hold, and denied for the first that does not, the day and the budget judged by the sums of the recorded calls of the same 86400 seconds, and the minute, when minutes are in order, by its tally |
| Quota.JudgedIff | services/control-plane/internal/quota/quota.go:108-133 | each of the five verdicts is returned if and only if its own condition holds, written out |
| Quota.LimitsInForce | services/control-plane/internal/quota/quota.go:27-35 | a tenant without a configuration runs under the defaults |
| Quota.Enforcer.Record | services/control-plane/internal/quota/quota.go:136-164 | day row, minute row and live counter each take the tokens once: tokens and cost of a row are the sums over the calls of its tenant and window |
| Quota.Enforcer.FlushMinutes | services/control-plane/internal/quota/quota.go:241-252 | the loop drops exactly the counters of other minutes |
| Quota.UpsertIsInForce | services/control-plane/internal/quota/quota.go:176-210 | uncontended, the next load after an upsert returns the new configuration |
| QuotaOvershoot.OvershootBound | services/control-plane/internal/quota/quota.go:108-164 | along every interleaving and across days, use plus estimates in flight is at most L + (k - 1) E |
| QuotaOvershoot.OvershootReached | services/control-plane/internal/quota/quota.go:108-164 | some run ends with that much in the day's usage row and nothing in flight, for all k, E >= 1 and L >= E |
| QuotaOvershoot.LimitKeptIff | services/control-plane/internal/quota/quota.go:122-126 | the day's recorded usage keeps the daily limit in every run if and only if requests do not overlap or are free |

## Left out

- Message types StreamChunk (both packages), HealthRequest, HealthResponse, SetStatusRequest, SetStatusResponse: their fields are of kinds the general theorems cover already.
- The difference between a nil and an empty metadata map: a message's value holds the entries only.
- RoundTrip.RoundTripsIff: encodings shorter than 2^64 bytes, the most a length prefix can announce.
- The protowire library is not part of this model; its primitives are defined from the encoding specification, with its recursion limit of 10000 for nested groups.
- The decode methods read a value by its wire type and then choose the field, where the source repeats the read in every case of the switch; nested message pointers are never nil.
- Strings are byte sequences (no UTF-8 validation) and doubles are 64-bit patterns in the codecs.
- Generated service descriptors, handlers and client stubs, the codec type switch, HTTP handlers, server-sent events, metrics pages, logging, `main` functions and connection pools.
- Floating-point rounding: scores, tokens, latencies, costs and times of the router are reals; the percentile's rank is the exact integer.
- Overflow of 64-bit token and request counters, which are unbounded here.
- Routing.Router: keeps breakers and outcome histories as maps of values; `Backend.ModelBackend` joins the breaker and tracker classes for one model. Looking an object up in the registry's or the tracker's map of pointers, under its lock, is left out.
- Scoring.Score: reads one snapshot of health and queue depths; the source reads them model by model.
- RouterService.RouterServer.Route: health and queue depths are read while no other request reports; the metrics counters, the audit log, trace ids, and the response fields copied from the executor's answer are left out. Breakers are asked each at its own clock reading, for models with distinct ids (the id is the table's key).
- Routing.Router.RecordSuccess, Routing.Router.RecordFailure: both reports in one step; the two steps are the subject of Reports.
- Scheduler.ReachableInv: one model with its one batcher; that the registry makes one queue and one batcher per model, by locking, is assumed, as is that the dial to the executor succeeds (after a failed first dial the source hands back a nil client).
- Scheduler.BatchCompletes: safety and completion of a batch in flight only; `Stop` abandons queued items until their callers time out, so not every queued item is drained.
- When the batcher's loop drains (its ticker and wait) is left to the interleaving; any drain of any size may come at any time.
- Database errors other than a missing row, the last-used update of a key, and SQL itself: tables are maps, and an upsert or an insert-or-add is one step.
- Quota.Enforcer.Check: windows are counted from the epoch in a fixed time zone; daylight-saving jumps of the formatted local time are not modelled.
- QuotaOvershoot.OvershootBound: a check reads the clock and the day row in one step, for a tenant whose limit does not change meanwhile; the spend budget has no such bound, because costs are not bounded by the estimate at the cheapest rate.
- TtlCache.BoundedStaleness: tables change only through steps of the protocol, and a step's clock reading belongs to the step.
- The model registry, rollout evaluation, request log, Python executor and benchmark.

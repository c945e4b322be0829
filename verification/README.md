# A verified model of the gateway's quota, access and failover logic

The gateway stands between clients and LLM providers. It counts and bills every request against the limits of a user, its groups and a total; it decides which provider, path and model a principal may reach; it fails over between providers; and it shows what was counted on charts. This project models that logic in Dafny and proves what it keeps.

- `Admission`, `Limiter`: one admission call (count, decide, settle a refusal) and one accounting call. The limiter is a class over its counters.
- `Protocol`: every request as a step machine. Each store command of each request is a step of its own, because neither the in-process store nor a Redis pipeline makes a batch atomic. A run is any sequence of clock ticks, starts, commands with the replies they get, usage reports and ends, so requests interleave freely, commands and settlements land late, and buckets roll over in the middle of a request. `Conservation` holds whatever the backend replies; `RateBound` and `BudgetBound` prove the limits over all runs in which the backend tells the truth about the limit's own counters. `Sequential` proves that a request running alone in this machine is the limiter's own call.
- `MemoryStore`, `StoreRefinement`, `StoreBounds`, `LateCount`: the expiring, sweeping, int64 store as a class, and the protocol run over it with every reply the store's own. Within a counter's lifetime the store reads as the plain map; after it, it starts again at zero. So the budget bound holds of the store as it stands, and the rate bound exactly as long as increments are sent within the lifetime of their counter.
- `LastSeenGate`, `AuthFailures`: the two-generation maps, as classes, with proofs over all runs of their methods.
- `Access`, `Keys`: merging of grants, the passthrough gate, and the texts that name counters and cache entries.
- `Pricing`, `Failover`, `Breaker`, `Concurrency`: cost arithmetic in wrapping int64, the candidate pipeline, the circuit breaker and the learner of concurrency.
- `Calendar`, `History`: buckets on the Gregorian calendar, spans of buckets, retention and the chunked readers.
- `Common`, `Decimal`, `DivMod`, `Int64`: sums and counts over sequences, decimal text, division, and Go's int64.

Time is an integer number of nanoseconds since 1970. A bucket is an integer (the minute, hour, day or month number) that stands for its label; `Calendar.LabelInjective` says that labels and buckets determine each other. Cost limits are whole micro-USD. The clock, the store's availability, `path.Match`, URL unescaping, model resolution and discovery health are parameters. Automatic induction is switched off wherever it would apply, so every inductive lemma is proved by its own body.

## Findings

- `README.md:968-971` says that a refused request is counted in every scope. The code compensates every scope but the violator (`limits.go:1672-1704`); the model follows the code, and `LimiterModel.CallEffect` states the effect on every counter.
- The cost guard of failover resolves prices without the `modelMeta` free marks that billing honours (`failover.go:363-368`, `routes_unified.go:1116-1126`). "A failover candidate is never billed more than the head" is therefore false; `Failover.FreeHeadCanFailOverToBilled` gives a case, and `Failover.BilledNoMoreIff` the exact condition.
- `saturatingMulInt64` misses one overflow, the smallest int64 times minus one; `Pricing.SaturatingMulExact` states that it is the only one. Costs never reach it, since usage and prices are not negative.
- The rate bound is not unconditional. A request reads its clock once (`limits.go:1551`); if its increments reach the store after the counter's lifetime, two minutes for a minute counter, they start a new count and the request is admitted beyond the limit of the bucket it belongs to. `LateCount.LateIncrement` gives the run for both request limits, and `LateCount.RateHoldsIff` the exact bound on the delay.
- The last-seen throttle is not unconditional either. A gate that is full at its ceiling and rotated less than a minute ago rotates again for every new scope and forgets young entries (`limits.go:717-728`). `LastSeenGateModel.CeilingRun` reaches that state from an empty gate with 69,633 scopes, and `LastSeenGateModel.ThrottlesIff` gives the exact condition.

A request that fails over calls accounting once per attempted candidate (`routes_unified.go:749`), and by that file's own account a candidate that failed over bills nothing (`routes_unified.go:755-757`). `BudgetBound.CappedOvershoot` counts only the reports that bill and takes their number as a parameter; for that route it is one.

## Model

| member | source | states |
|---|---|---|
| `RateBound.AdmittedAtMostLimit` | limits.go:1550-1617 | In every run, under every interleaving of single store commands and with settlements arbitrarily late, a scope whose per-minute or per-day request limit is at most L has at most L admitted requests in any one bucket, if the backend tells the truth about that one counter |
| `RateBound.CounterCoversPassing` | limits.go:1672-1704 | A request counter is never below the number of requests that passed its limit, since a compensation only takes back its own increment |
| `RateBound.StepKeepsRate` | limits.go:1578-1594 | Every step of every request keeps the number of requests that passed the limit within it |
| `BudgetBound.OvershootBound` | limits.go:1596-1614 | If at most K requests of a scope are in flight and each spends at most C, the scope's token or cost total in any bucket never exceeds limit - 1 + K*C, in every run and across rollovers, if the backend tells the truth about the budget while its bucket lasts |
| `BudgetBound.CappedOvershoot` | limits.go:2274-2277 | The same bound from the code's own plausibility caps, whatever the upstreams report |
| `BudgetBound.SpenderIsCleared` | limits.go:1806-1907 | Only an admitted request that found the budget below its limit, or started before the bucket, writes to a budget counter, and never a negative amount |
| `BudgetBound.ClearedByReading` | limits.go:1465-1490 | A request becomes cleared only by a truthful reading that shows the whole bucket's total below the limit, token readings being two separate reads |
| `StoreBounds.AdmittedAtMostLimitInStore` | limits.go:437-454 | The rate bound over the expiring, sweeping int64 store itself, for every run whose increments of the counter are sent within its lifetime and that has fewer than 2^63 requests |
| `LateCount.RateHoldsIff` | limits.go:170-187 | For both request limits: all runs over the store whose increments come less than a given lag after their bucket began keep the limit if and only if the lag is at most the counter's lifetime |
| `LateCount.LateIncrement` | limits.go:1550-1571 | The run outside that condition: two requests of one bucket, the second sending its increments when the counter has just expired, both admitted under a limit of one |
| `StoreBounds.OvershootBoundInStore` | limits.go:477-487 | The budget bound over the expiring store itself, however late reads and charges come, wherever the bound fits int64 |
| `StoreBounds.CappedOvershootInStore` | limits.go:2274-2277 | The same from the code's own caps |
| `StoreBounds.InTimeIsTrue` | limits.go:437-487 | Until a counter's lifetime has passed since its bucket began, the store answers increments and reads of it with the truth |
| `Conservation.Conserved` | limits.go:1672-1704 | In every settled run, whatever the backend replied, the total's requests are the admitted ones and its rejections the refused ones, each other scope's requests are its admitted plus its own rejections, and the other scopes' rejections add up to the total's |
| `Conservation.RequestCounter` | limits.go:1578-1594 | A scope's minute, hour and day request counters are its admitted requests plus those it refused itself |
| `Conservation.RejectionCounter` | limits.go:1672-1704 | A scope's daily rejection counter is the requests it refused; the total's is every refusal |
| `Conservation.RejectionsAddUp` | limits.go:1672-1704 | The rejections of any list of scopes that covers all violators sum to the total's |
| `Protocol.RunInv` | limits.go:1550-1617 | In every reachable state each counter is the sum of what the requests executed on it, and every request has executed a prefix of the commands the code sends for its phase |
| `Protocol.NetNonNegative` | limits.go:1672-1704 | At every moment, settlements half sent included, no request has taken more off a counter than it put there |
| `Sequential.AloneIsCheckAndCount` | limits.go:1550-1617 | From any state, a request whose steps are not interleaved and are answered with the truth reaches exactly the verdict and counters of the limiter's admission call and touches no other request |
| `Admission.FusedIsNaive` | limits.go:1550-1617 | Deciding from the one flat reply gives the violation, scope, rule and retry time that reading the six limits one by one in scope order gives |
| `Admission.VerdictInFields` | limits.go:1578-1616 | The reference verdict said field by field, each field with its own metric and window, both directions |
| `Admission.PlanDecision` | limits.go:1465-1490 | In the flat plan the first probe that fires for a scope is that scope's first breached budget, and no other scope's probe answers for it |
| `Admission.NetOfRefusal` | limits.go:1672-1704 | A refused and settled call leaves one on the violator's own request counters, its rejection marks, and zero everywhere else |
| `Admission.ApplyAllValue` | limits.go:511-521 | A batch moves every counter by the sum of its entries on it and no other counter |
| `Admission.AdmittedPasses` | limits.go:1578-1616 | An admitted call passed every limit of every scope on its own reply |
| `LimiterModel.Limiter.CheckAndCount` | limits.go:1550-1617 | Over the counters before the call and in the limits' own fields: admitted exactly when every request limit of every scope has room for one more and no token or cost budget is used up; refused by the first of the six limits of the first scope that does not pass, with the wait to the end of that limit's own minute, day or month. The counters are those of `AfterCheck`; a failed round trip refuses, and what the server had executed of it stays counted |
| `LimiterModel.Limiter.Decide` | limits.go:1578-1617 | The evaluation loop equals the specified decision on any fitting reply and settles exactly the violator it found |
| `LimiterModel.Limiter.SettleRejection` | limits.go:1672-1704 | The batch it sends compensates every scope but the violator and records the rejection for the violator and, when present, the total; a failed round trip leaves what the server executed of it |
| `LimiterModel.Limiter.AccountWith` | limits.go:1806-1907 | For distinct scopes, every counter after the report is the old value plus what is owed: on hour, day and month of every listed scope the prompt tokens, completion tokens and cost, each dropped when negative or over 2^30 or 2^40, one request per window for a served model, and nothing on any other counter |
| `Admission.ReportEffect` | limits.go:1862-1907 | Every counter before and after a report whose batch went through |
| `Admission.NetOfCharges` | limits.go:1862-1907 | A report charges each counter of each listed scope exactly once and no other counter |
| `LimiterModel.AddModelScope` | limits.go:2298-2328 | The served model's scope is added exactly when its id has 1 to 256 bytes, does not end in a slash and holds no control byte |
| `LimiterModel.BuildBudgetProbes` | limits.go:1465-1490 | The loop builds the specified plan: each probe carries its scope's own field and points at that scope's own counters of that field's window, and every positive budget has one |
| `Admission.PlanOfInFields` | limits.go:1465-1490 | The flat plan in the fields: nothing asked for that is not a budget, no budget left out, every key its own |
| `LimiterModel.ReplyIsFinal` | limits.go:1550-1617 | With distinct scopes each increment's own reply is the counter's value after the whole batch |
| `LimiterModel.BudgetReadsUnmoved` | limits.go:1550-1617 | The batch's increments do not move what its budget reads see |
| `LimiterModel.CallEffect` | limits.go:1550-1617 | Every counter before and after a call: plus one on its scopes when admitted; plus one on the violator and its rejection marks alone when refused |
| `MemoryStoreModel.ReadsTheSum` | limits.go:437-487 | For every run of writes, reading a windowed key before its lifetime has passed since its bucket began gives the int64 sum of all deltas ever applied to it, whenever sweeps fired |
| `MemoryStoreModel.ReadsTheSumInBucket` | limits.go:170-187 | In particular inside the key's own bucket, of any window, and for the window's slack after it |
| `MemoryStoreModel.ReadsItsOwnLife` | limits.go:437-487 | With a clock that never goes back, every key of any kind reads at every time exactly as its own writes alone would have it: sweeps and other keys are never seen |
| `MemoryStoreModel.GoneOnSchedule` | limits.go:437-454 | An increment never extends a life: a counter is gone one lifetime after its first increment, however often it was incremented |
| `MemoryStoreModel.SetIsRead` | limits.go:462-475 | A set value is read until its lifetime ends, and setting it changes the reading of no other key |
| `MemoryStoreModel.FloorIsNeeded` | limits.go:391-399 | Without the floor a month key would vanish 49 hours into its month; with it, it does not |
| `MemoryStoreModel.MemoryStore.SweepLocked` | limits.go:537-543 | Exactly the expired entries go |
| `MemoryStoreModel.MemoryStore.ApplyIncr` | limits.go:437-454 | The store becomes the specified one: due sweep, restart of an expired entry, wrapping add, expiry kept |
| `MemoryStoreModel.MemoryStore.ApplySet` | limits.go:462-475 | The store becomes the specified one: due sweep, value and expiry replaced |
| `MemoryStoreModel.MemoryStore.Get` | limits.go:477-487 | An unexpired value, or zero |
| `MemoryStoreModel.MemoryStore.IncrMulti` | limits.go:511-521 | The batch is the run of its entries, and each reply is the value right after its own entry |
| `StoreRefinement.StoreRefinesMap` | limits.go:437-487 | The expiring store keyed by text reads, for every command sequence the limiter can send, as the never-expiring map keyed by structured counters |
| `StoreRefinement.StoreServesProtocol` | limits.go:437-543 | For every interleaved run, the same commands sent at the same times through the expiring, sweeping store keyed by text leave every counter reading as in the protocol, up to int64, until its lifetime has passed since its bucket began |
| `StoreRefinement.RunSendsInTime` | limits.go:1550-1907 | In every run every counting, settling and accounting command carries its window's lifetimes and is sent no earlier than its own bucket began, settlements after a rollover included |
| `StoreRefinement.RunSends` | limits.go:511-521 | The counters of a run are the batch application of exactly the commands it sent |
| `LastSeenGateModel.ThrottlesExactly` | limits.go:687-731 | In every run, as long as no young entry was lost before it, a call is answered true if and only if its scope had no true answer in the last sixty whole seconds, whatever rotates or doubles |
| `LastSeenGateModel.ThrottlesIff` | limits.go:717-728 | The throttle is exact along a run, whoever calls next at any point of it, if and only if no call of the run, unknown to a gate that is full at its ceiling and rotated less than a throttle ago, made it drop an entry younger than the throttle |
| `LastSeenGateModel.LossIsWrong` | limits.go:717-728 | Each such rotation makes the next call of a dropped scope wrong |
| `LastSeenGateModel.BelowCeilingLosesNothing` | limits.go:717-728 | Until capacity reaches its maximum no young entry is lost |
| `LastSeenGateModel.HeldBackOnlyIfRecent` | limits.go:696-716 | In every run, ceiling or not, a call is held back only because of a recent true answer for the same scope |
| `LastSeenGateModel.HeldBackIsCarriedOver` | limits.go:700-716 | A scope that is held back is carried over, so that the next rotation cannot drop it |
| `LastSeenGateModel.CeilingRun` | limits.go:717-728 | From an empty gate, 4096 + 65536 + 1 users at one instant and the first of them again: the first is answered true twice at once |
| `LastSeenGateModel.LastSeenGate.Due` | limits.go:687-731 | The method is one step of the gate the runs are stated over |
| `LastSeenGateModel.GateKeyInjective` | limits.go:688-688 | The throttle key determines kind and id |
| `Access.PassthroughGate` | routes_passthrough.go:1184-1230 | Over any principal built by merging, in the matcher, the decoder and the prefix split alone: accepted exactly when one group, or the personal grant with the first group's paths, names the provider, has no paths or names what the path decodes to, and has no models or names the model as sent, bare, or under this provider; the provider is denied exactly when no grant names it |
| `Access.AllowsPassthroughPath` | auth.go:325-334 | Allowed exactly when the list is empty, or the path decodes and one pattern matches the decoded path |
| `Access.UndecodableIsRefused` | auth.go:325-334 | Where every group restricts paths, a path that does not decode is refused |
| `Access.SpellingDoesNotMatter` | auth.go:325-334 | Two spellings of one decoded path are authorised alike |
| `Access.CoverageInPlainTerms` | auth.go:352-463 | Single-grant coverage said in the fields of the groups and of the personal grant |
| `Access.JoiningAddsOnlyItsOwn` | auth.go:887-945 | Appending a group authorises exactly the old triples plus the group's own |
| `Access.MultiGrantGate` | routes_passthrough.go:1190-1209 | Path check, restriction check and model check together accept exactly when one held grant covers all three |
| `Access.SingleGrantGate` | routes_passthrough.go:1210-1230 | The other order of checks, for one grant, accepts exactly when that grant covers |
| `Access.AllowsPassthroughPathForProvider` | auth.go:393-403 | True exactly when one held grant, the personal one on the primary group's paths included, reaches provider and path |
| `Access.HasModelRestrictionForProviderPath` | auth.go:420-430 | False exactly when some grant reaching provider and path allows every model |
| `Access.AllowsPassthroughModelForPath` | auth.go:444-463 | True exactly when one grant reaching provider and path allows one of the ids |
| `Access.UnionMatches` | auth.go:819-830 | The union of lists matches a candidate exactly when one of the lists does, an empty list meaning everything |
| `Access.ProviderUnion` | auth.go:887-945 | A merged principal allows a provider exactly when one of its grants does |
| `Access.ComputeUnionOrAll` | auth.go:819-830 | The loops compute the specified union |
| `Access.MatchGlob` | auth.go:487-497 | True exactly when the list is empty or some pattern matches |
| `Access.EffectiveGroup` | auth.go:887-945 | The loops compute the specified merge: names, unions, grants, strictest cache settings |
| `Access.MergedFields` | auth.go:933-944 | A merged principal's servers, agents and models are the unions of its members' lists, the personal grant joining for models |
| `Access.MergedServers` | auth.go:902-902 | The union of server lists is what some member may use |
| `Access.MergedAgents` | auth.go:903-903 | The union of agent lists is what some member may use |
| `Access.MergedModels` | auth.go:901-919 | The union of model lists is what some member or the personal grant lists |
| `Access.MergedCacheExact` | auth.go:904-931 | Caching is refused exactly when some member refuses it, and left open exactly when all are silent |
| `Access.MergedTTLIsLeast` | auth.go:911-913 | The merged lifetime is the least positive one, zero exactly when there is none |
| `Access.MergedName` | auth.go:934-934 | The names of the members in order with plus signs between |
| `Access.EffectiveGroupNames` | auth.go:837-852 | The names are distinct, non-empty, primary first, exactly those given, in order of first appearance |
| `Access.LimitScopesWellFormed` | routes_unified.go:880-908 | The scopes are the user with its limits, each group with its own limits, and the unlimited total, in that order; with distinct groups they are pairwise distinct and none is a model's |
| `Access.ModelsCacheKey` | auth.go:248-277 | The text the method writes decodes to the group kind, ordered member names and personal grant it was written from |
| `Keys.CacheKeyRoundTrip` | auth.go:217-277 | Any principal, of arbitrary strings, is recovered from its cache key |
| `Keys.UserModelRoundTrip` | limits.go:113-115 | User and model are recovered from the scope id for arbitrary strings |
| `Keys.WindowKeyInjective` | limits.go:1393-1395 | For arbitrary ids the key text determines all five parts when kind, metric, window and bucket hold no colon |
| `Keys.RenderInjective` | limits.go:1393-1403 | Two counters share a store key exactly when scope, metric, window and bucket all agree |
| `Keys.RenderText` | limits.go:1393-1403 | The text of a counter: prefix, kind, id, metric, window and label, with colons between |
| `Calendar.LabelInjective` | limits.go:1326-1344 | Two buckets of a window share a label only when they are equal |
| `Calendar.RetryAfterExact` | limits.go:1408-1429 | The retry time is the least whole number of seconds after which the bucket is over |
| `Calendar.EnforceTTLCoversBucket` | limits.go:170-187 | Each floor exceeds its window's longest bucket by its slack |
| `Calendar.BucketIff` | limits.go:1326-1344 | An instant is in a bucket exactly from the bucket's start to the next one's |
| `Calendar.MonthStartIsCivil` | limits.go:1326-1344 | The first of every month of every year is where the closed form of the Gregorian calendar has it, 1970-01-01 being day 0 |
| `Calendar.CivilBuckets` | limits.go:1326-1344 | An instant is in the minute, hour, day and month of its civil date and time |
| `Calendar.CivilMonth` | limits.go:1326-1344 | The day of a civil date is in its month, that many days after its first |
| `Calendar.MonthLabel` | limits.go:1335-1336 | Month labels are four digits of year and two of month |
| `Calendar.DayLabel` | limits.go:1333-1334 | then two of day |
| `Calendar.HourLabel` | limits.go:1329-1330 | then two of hour |
| `Calendar.MinuteLabel` | limits.go:1331-1332 | then two of minute |
| `Pricing.WrittenCostExact` | pricing.go:119-128 | For all token counts and valid prices the cost written to a counter is the nearest micro-USD of the true product sum, or nothing when that exceeds the cap; no wrapped or saturated figure is ever written |
| `Pricing.CostIsCutOff` | pricing.go:119-128 | The computed cost is the rounding of the true product sum cut off at the largest int64 |
| `Pricing.SaturatingMulExact` | pricing.go:164-176 | The post-multiply check is the exact clamp for every pair of int64 values if and only if the pair is not the smallest value and minus one |
| `Pricing.SaturatingAddExact` | pricing.go:182-191 | The wrapped sum's test is the exact clamp for every pair |
| `Pricing.RoundedDivIsNearest` | pricing.go:142-156 | On totals that are not negative it rounds to nearest, halves up |
| `Pricing.NearestIsNearest` | pricing.go:142-156 | The rounding used as reference is within half a unit of the quotient |
| `Pricing.CostMonotone` | pricing.go:119-128 | A price no dearer on either side costs no more for every usage, saturation included |
| `Pricing.GeneratedPriceExact` | pricing.go:225-245 | A generated row bills exactly its whole micro-USD figures |
| `Pricing.PricePrecedence` | pricing.go:225-245 | An operator's own price wins, a nil one being none; then the built-in table; then a generated row that prices some side; else there is no price |
| `Pricing.GeneratedPrice` | pricing.go:232-240 | A generated row is priced in USD per million tokens, its figures being micro-USD, input and output each its own |
| `Pricing.MicrosIsNearest` | pricing.go:120-121 | The scaled price is the nearest whole number |
| `Failover.NeverDearer` | failover.go:397-458 | Every candidate left by ordering, guard and cap costs no more than the head for every usage when the head's price is known, and nothing when it is not |
| `Failover.OrderedIsStable` | failover.go:324-353 | The order is a permutation of the routable candidates, discovery-healthy ones first, each class in its original order |
| `Failover.OrderedMembers` | failover.go:324-353 | The list is never empty; its members are exactly the request-healthy candidates, or all when none is healthy; with failover off it is the primary alone |
| `Failover.GuardedMembers` | failover.go:422-458 | Guard and cap keep the head, give a sub-sequence of the candidates, keep only those the guard allows, and all of those unless the cap was reached |
| `Failover.GuardedTail` | failover.go:397-443 | Of the candidates after the head the guard keeps exactly those priced within it: both known and neither side above the head's, the head unknown and the candidate zero on both sides, or neither known |
| `Failover.BilledBy` | routes_unified.go:1116-1126 | Nothing if the entry under the canonical id, or failing that under the bare id, marks the candidate free; otherwise its price, found under the canonical id first |
| `Failover.BilledNoMoreIff` | routes_unified.go:1116-1126 | An allowed candidate is billed no more than the head for every usage if and only if the head is not marked free, or the candidate is, or has no price |
| `Failover.FreeHeadCanFailOverToBilled` | modelmeta.go:157-165 | A model of two healthy providers, the first marked free: the whole pipeline leaves both, the first is billed nothing and the second is billed |
| `Failover.OrderedFailoverCandidates` | failover.go:324-353 | The loops compute the specified order |
| `Failover.FilterCandidatesByCost` | failover.go:422-443 | The loop keeps the head, reorders nothing, and keeps of the rest exactly the candidates priced within the head |
| `Failover.TryList` | routes_unified.go:305-307 | The list is never empty, starts with the head of the order, is a sub-sequence of the order with each discovery-health class in the order given and the healthy class first, holds a request-unhealthy candidate only when all were, none dearer than its head, and, unless the cap was reached, exactly the candidates whose prices are within the head's |
| `Failover.SubSeqPlaces` | failover.go:422-443 | What a sub-sequence is: its elements sit at increasing places of the original |
| `BreakerModel.BreakerExact` | failover.go:705-748 | After every outcome sequence the state is the one given by the failures since the last success: closed below three, else the backoff after k failed probes is min(30s*2^k, 5m) |
| `BreakerModel.UnhealthyIff` | failover.go:758-769 | A provider is skipped exactly while its last opening is still cooling down |
| `BreakerModel.UnhealthyMeansRecentFailure` | failover.go:758-769 | A skipped provider had three failures since its last success, one of them less than five minutes ago and not after now |
| `BreakerModel.CooldownIgnoresFailures` | failover.go:714-726 | A failure during cooldown changes nothing, a success closes |
| `BreakerModel.BackoffDoubles` | failover.go:728-740 | Each failed probe doubles the backoff up to five minutes |
| `BreakerModel.RequestHealthTracker.Record` | failover.go:705-748 | One provider's state takes one step of the breaker and no other provider's moves |
| `BreakerModel.RequestHealthTracker.Healthy` | failover.go:758-769 | The answer is the state's, and asking changes no provider's state |
| `ConcurrencyModel.InFlightIsBegunMinusEnded` | concurrency.go:60-72 | In every run, with end repeated at will, in-flight is begun minus ended and the learned value stays in 0..63 |
| `ConcurrencyModel.OneSignal` | concurrency.go:75-116 | An overload never raises a known value; a success lowers 4*(64-learned)-successes by exactly one until the value is unknown again |
| `ConcurrencyModel.ClassifyExact` | concurrency.go:78-86 | Overload is 429, 503, 504 or a missed deadline, success any status below 400 |
| `ConcurrencyModel.Recovery` | concurrency.go:75-116 | Closed form of n successes after an overload |
| `ConcurrencyModel.ConcurrencyLearner.Begin` | concurrency.go:60-72 | In-flight rises by one for that provider alone |
| `ConcurrencyModel.ConcurrencyLearner.End` | concurrency.go:60-72 | Only the first end of a call counts |
| `ConcurrencyModel.ConcurrencyLearner.Observe` | concurrency.go:75-116 | One provider takes the step of the signal its reply classifies as |
| `ConcurrencyModel.ConcurrencyLearner.Limit` | concurrency.go:122-135 | The smallest of the known values, zero when none is known |
| `AuthFailuresModel.NeverOvercounts` | auth.go:587-627 | In every run the reported count never exceeds the source's true failures of the last minute |
| `AuthFailuresModel.ExactWhileItFits` | auth.go:607-620 | While all sources fit one generation it is the exact fixed-window count |
| `AuthFailuresModel.KeptThroughRotation` | auth.go:591-598 | A source that fails no more keeps its count through a rotation until its window ends, as long as no more other sources fail than one generation holds |
| `AuthFailuresModel.Bounded` | auth.go:538-538 | Each generation holds at most 50,000 entries in every run |
| `AuthFailuresModel.AuthFailureTracker.Get` | auth.go:587-598 | The current generation's live count, else the previous one's, else zero |
| `AuthFailuresModel.AuthFailureTracker.Increment` | auth.go:607-627 | The method is one step of the tracker the runs are stated over |
| `History.SpanTotalsMulti` | limits.go:3033-3078 | For any ids, metrics, span and chunking, row by row and in input order, each figure is the sum of that id's own span of buckets; a failed round trip gives no answer at all, and empty input makes no trip |
| `History.ReplySlice` | limits.go:3057-3075 | The readings of one id and metric sit at their stride of the flat reply |
| `History.ChunkedGetMulti` | limits.go:2984-3002 | The answer is all values in order, given exactly when every trip made succeeded |
| `History.HistoryBucketKeysAt` | limits.go:2941-2954 | Composing the two step-backs names exactly the buckets of the span, oldest first |
| `History.StepBackBucket` | limits.go:2914-2927 | Stepping back i windows lands in the bucket i before, whatever the day of the month |
| `History.SpansTile` | limits.go:2941-2954 | A span of a+b is the older b followed by the newer a, all distinct |
| `History.SpanLabelsDistinct` | limits.go:2941-2954 | No two points of a chart share a label |
| `History.SpanWithinRetention` | admin.go:1118-1129 | Every bucket within the span cap began less than its window's lifetime ago, for 13 months by the real calendar |
| `History.CapIsTight` | admin.go:1118-1129 | One more hour or day could be out of retention |
| `History.MonthCapIsTight` | admin.go:1118-1129 | A fourteenth month is out of retention at the end of every month |
| `History.MonthRangeToDayBuckets` | admin.go:1766-1785 | The days named are exactly the requested ones less than 35 days old, or the last requested day alone when all are older |

## Left out

- HTTP handlers, routing, headers, JSON, streaming, the admin pages and their configuration: plumbing around the modelled decisions.
- Redis and RESP transport, the store latch and the switch between the shared store and the per-replica one: the protocol assumes one backend throughout a run, as the code documents that counts diverge otherwise.
- int64 wrap-around of counters in the limiter and the step protocol: counters are unbounded there; wrap-around is modelled in `MemoryStore` and carried through `StoreRefinement` and `StoreBounds`.
- Statistics that accounting writes besides the limits: user-model, latency, failover and cache-miss families, last-seen marks, and the in-process rejection counter; they read no limit.
- Text of violation messages and log lines.
- `failoverCandidates` and model resolution: the pipeline starts from a given primary and extra list.
- A size bound of the last-seen gate: the copy-forward branch inserts without a capacity test, so only the throttle is proved.
- SHA-256, `path.Match`, URL unescaping: parameters.
- Floating-point rounding of prices: prices are exact reals, and a scaled price is required to fit int64.
- Overflow of Go's `time.Duration` and of span sums.
- `chunkedCurrentUsage`, the event ring, the response cache and the model metadata tables: only easy members.
- History.MonthRangeToDayBuckets: requires a span of at least one, which the request validation of the admin endpoints ensures.
- Access.PassthroughGate: requires at least one group, each an ordinary configured group rather than a merged one, which is how principals are built.

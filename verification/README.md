# Verified models of eidola's state machines

eidola is a Go microservice framework. Between its gRPC, Redis and metrics plumbing it holds several small
state machines whose correctness is not visible from any one function: a weighted balancer, a circuit breaker,
a connection pool that resizes itself, a request batcher, a token manager, four rate limiters, a compressing
writer, a retry budget and a one-time-password generator. This project models them in Dafny and proves what
holds of them over every input, every run and every interleaving. Where a promised property is false of the
code, the project gives the failing input and the exact condition under which the property holds.

Each component has one file with the code's own shape (classes whose methods change fields, loops with
invariants), every method tied to a step on values; the runs of those steps, and the theorems about them, are
in the same file or in the `_runs` file beside it.

| file | component |
|---|---|
| `prelude.dfy`, `bytes.dfy` | sums, repeated addition, iteration, occurrence counts; byte strings |
| `fair_share.dfy`, `weight_balancer.dfy`, `fair_weights.dfy`, `weight_reports.dfy` | smooth weighted round robin, over integers and over 32-bit words, which weights are served fairly, and what reports do to them |
| `circuit_breaker.dfy`, `breaker_answers.dfy` | the three-state breaker; when it opens and what it answers |
| `conn_pool.dfy`, `pool_runs.dfy`, `adaptive_pool.dfy` | the pool, its interleavings, its resizing |
| `batch_processing.dfy`, `batch_runs.dfy` | one batch, and every run of the batcher |
| `token_manager.dfy`, `token_runs.dfy`, `token_acceptance.dfy`, `blacklist_runs.dfy` | store, blacklist and manager, every run of manager calls, what is accepted after it, and the blacklist by itself |
| `token_bucket.dfy`, `adaptive_limiter.dfy`, `response_times.dfy` | the token bucket, the limiter that retunes it, and the response times it goes by |
| `window_limiters.dfy`, `window_races.dfy`, `slide_races.dfy` | the window limiters, with each call one step and with racing callers |
| `adaptive_compression.dfy` | the framing of compressed messages |
| `retry_budget.dfy`, `retry_runs.dfy` | the retry budget, one call, and any number of callers |
| `totp.dfy` | time-based one-time passwords |

## What was found

- **The weighted balancer is unfair as coded.** The integer algorithm is exactly fair. The code keeps current
  weights in `uint32` and compares them unsigned, so a weight below zero looks huge. Three or more connections
  of equal weight starve all but the first; weights 5 and 1 send everything to the connection of weight 1 from
  the fifth pick on. Three or more positive weights always put some connection a full pick ahead
  of its share; two do so unless they differ by little against their greatest common divisor (`FairIff`).
- **The breaker can get stuck half-open**, exactly when a success adds no permit and one plus the initial
  permits is below the success threshold. `Reset` forgets outstanding requests, so the concurrency count
  stays exact if and only if every Reset finds nothing outstanding. `WindowSize` never changes any answer.
- **The pool drops a returned connection when somebody waits**, neither keeping nor closing it. Scaling down
  an idle pool without a minimum brings the limit to zero, which means no limit.
- **The batcher** answers a lone request with the unsplit response, so the batcher for independent requests is
  never transparent and drops their errors; a finished `Flush` gives back a slot it
  never took, so the concurrency limit can be exceeded without bound; a refused launch can leave requests
  pending with no timer; exactly the requests in the channel are abandoned by `Close`.
- **The adaptive limiter admits nothing, ever, if the initial rate is below 10**, because its bucket then holds
  less than one token whatever the rate grows to.
- **The window limiters** race. The fixed window keeps its long-run rate however calls interleave, but `n` callers
  can get (n + 1) times the rate into one interval; the sliding window lets rate + n - 1 into one.
- **The compressed frame loses data** when the threshold exceeds 2^24 and a message of at least 2^24 bytes is
  sent uncompressed: the mark overwrites the top byte of the length.

## Reading the model

- A method's contract equates the new state with a function of the old one; the lemmas are about that function.
- Times are integers (or, where a duration enters a product, nanoseconds) read from one clock that does not go
  back. Random strings, factory results, processor replies, load readings and cancellations are inputs.
- Floating-point quantities are exact reals, truncated or floored where the code converts them to integers.
- A critical section, or a call the code takes atomically, is one step; sections in between are interleaved.

## Model

| member | source | states |
|---|---|---|
| FairShare.ScanFindsFirstMax | loadbalance/round_robin/weight_balancer.go:38-50 | the scan picks the first eligible connection whose weight is the largest, and nothing only if nothing is eligible |
| FairShare.PickConservesSum | loadbalance/round_robin/weight_balancer.go:38-52 | with any filter and any weights a pick leaves the sum of the current weights as it was |
| FairShare.RunIsBalanced | loadbalance/round_robin/weight_balancer.go:38-52 | after t picks the current weight of each connection is exactly what it is owed, t·w minus picks·W, and above -W |
| FairShare.NeverAFullPickAhead | loadbalance/round_robin/weight_balancer.go:38-52 | at no time has a connection been served a full pick more than its exact share |
| FairShare.NeverFarBehind | loadbalance/round_robin/weight_balancer.go:38-52 | the mirror bound: at no time has a connection fallen behind its exact share by more than (n - 1)·(W - 1) / W picks |
| FairShare.FullRound | loadbalance/round_robin/weight_balancer.go:38-52 | W picks from the zero state serve each connection its weight and return to the zero state |
| FairShare.ExactShareOfAnyRound | loadbalance/round_robin/weight_balancer.go:38-52 | any W consecutive picks, from any time on, serve connection i exactly w_i times |
| WeightBalancer.Balancer.Scan | loadbalance/round_robin/weight_balancer.go:32-50 | the loop over 32-bit words adds every eligible weight with wrap-around and finds the first maximum of the unsigned comparison |
| WeightBalancer.Balancer.Pick | loadbalance/round_robin/weight_balancer.go:31-56 | the whole new state of a pick: the integers the algorithm would hold after this choice, reduced modulo 2^32; effective weights unchanged |
| WeightBalancer.Balancer.Done | loadbalance/round_robin/weight_balancer.go:56-73 | a report moves the effective weight by one and saturates at 0 and 2^32 - 1 |
| WeightReports.ReportsAddUp | loadbalance/round_robin/weight_balancer.go:56-73 | a stretch of reports that meets neither end of the range moves the effective weight by successes less failures |
| WeightReports.FailuresDrain | loadbalance/round_robin/weight_balancer.go:64-68 | n failures in a row take a weight w to max(0, w - n) |
| WeightReports.SuccessesRestore | loadbalance/round_robin/weight_balancer.go:64-68 | n successes in a row take it to min(w + n, 2^32 - 1) |
| WeightReports.ReportsAreMonotone | loadbalance/round_robin/weight_balancer.go:56-73 | of two report sequences the one with failures wherever the other has them never leaves the higher weight |
| WeightReports.DrainedIsNotPicked | loadbalance/round_robin/weight_balancer.go:38-52 | a connection at current and effective weight zero is not picked by the algorithm, and not charged, while the eligible weights sum above zero |
| WeightReports.DrainedIsNotPicked32 | loadbalance/round_robin/weight_balancer.go:38-52 | nor by the code over words, while any eligible word compared is above zero |
| WeightBalancer.EveryRunIsCongruent | loadbalance/round_robin/weight_balancer.go:31-73 | over every run, any filters and any changes of the effective weights, words are congruent to their integer counterparts and sum to 0 modulo 2^32 |
| WeightBalancer.InRangeSameChoice | loadbalance/round_robin/weight_balancer.go:43-46 | a pick of the code is the integer algorithm's when the integers compared lie in [0, 2^32) |
| WeightBalancer.SameChoiceIff | loadbalance/round_robin/weight_balancer.go:43-46 | while the integers compared fit 32 signed bits, code and algorithm choose alike if and only if the eligible ones share one sign |
| WeightBalancer.AgreesIffNothingNegative | loadbalance/round_robin/weight_balancer.go:31-52 | for every t, the code's first t picks are the algorithm's if and only if the algorithm compares no negative weight in them (3·W at most 2^32) |
| WeightBalancer.DebtIsPicked | loadbalance/round_robin/weight_balancer.go:43-46 | at the first negative comparison the code picks exactly the connection in debt, where the algorithm would not |
| WeightBalancer.SharesAreFairIff | loadbalance/round_robin/weight_balancer.go:31-52 | by the code's own count of picks, no connection is ever a full pick ahead of its share if and only if the algorithm compares no negative weight in its first W picks (3·W at most 2^32) |
| WeightBalancer.FairSharesAreExact | loadbalance/round_robin/weight_balancer.go:31-52 | and where shares are fair, any W consecutive picks of the code serve each connection exactly its weight |
| FairWeights.SmallestIsNeverPicked | loadbalance/round_robin/weight_balancer.go:38-52 | among three or more positive weights a smallest one cannot be picked as long as nothing compared is negative |
| FairWeights.FairIff | loadbalance/round_robin/weight_balancer.go:31-52 | for any weights with 3·W at most 2^32, the code's shares are fair if and only if at most two weights are positive and two positive ones a, b, in the order of the connections, satisfy b - a <= gcd(a, b) and a - b <= 2·gcd(a, b) |
| FairWeights.ThreeAreNeverFair | loadbalance/round_robin/weight_balancer.go:31-52 | with three or more positive weights the code puts some connection a full pick ahead of its share |
| FairWeights.TwoGoNegativeIff | loadbalance/round_robin/weight_balancer.go:38-52 | with exactly two positive weights, beside any number of zero ones, the algorithm compares no negative weight in a round if and only if the two are that close |
| WeightBalancer.EqualWeightsStarve | loadbalance/round_robin/weight_balancer.go:43-52 | three or more equal weights: while t·n·v is below 2^32 every one of the picks goes to connection 0 |
| WeightBalancer.FiveToOneInverts | loadbalance/round_robin/weight_balancer.go:43-52 | weights 5 and 1: from the fifth pick on, for four hundred million picks, the light connection is always chosen |
| CircuitBreaker.CircuitBreaker.Allow | internal/circuitbreaker/circuitbreaker.go:129-170 | the answer and the whole new state of Allow, in each of the three states and at the concurrency limit |
| CircuitBreaker.CircuitBreaker.Success | internal/circuitbreaker/circuitbreaker.go:173-205 | the whole new state of a success report |
| CircuitBreaker.CircuitBreaker.CountFailure | internal/circuitbreaker/circuitbreaker.go:221-240 | the loop keeps exactly the failures later than now - WindowSize, in order, and counts them |
| CircuitBreaker.CircuitBreaker.Failure | internal/circuitbreaker/circuitbreaker.go:208-251 | the whole new state of a failure report |
| CircuitBreaker.CircuitBreaker.Reset | internal/circuitbreaker/circuitbreaker.go:294-304 | the whole new state of a reset |
| CircuitBreaker.WindowSizeIsInvisible | internal/circuitbreaker/circuitbreaker.go:173-251 | two breakers that differ only in WindowSize give the same answers and states on every run |
| BreakerAnswers.ClosedIsUnderThreshold | internal/circuitbreaker/circuitbreaker.go:173-304 | in every reachable closed state the failures reported since the last success, closing or reset, counted from the calls, are fewer than max(1, Threshold) |
| BreakerAnswers.FailureOpensIff | internal/circuitbreaker/circuitbreaker.go:208-251 | in every run a reported failure leaves the breaker closed if and only if it was closed and the failures in a row are still fewer than that; otherwise it is open |
| BreakerAnswers.AllowAnswers | internal/circuitbreaker/circuitbreaker.go:129-170 | what Allow answers after any run whose Resets find nothing outstanding, from the outstanding requests, the time of the last opening and what the episode has admitted |
| CircuitBreaker.FailuresAreARecount | internal/circuitbreaker/circuitbreaker.go:208-251 | in every reachable state the failure count is a recount, over all failures since the last clear, of those in the window of the last one |
| CircuitBreaker.HalfOpenLedger | internal/circuitbreaker/circuitbreaker.go:146-198 | in a half-open episode admitted + permits left = 1 + HalfOpenMaxRequests + successes·g, where g is the whole part of HalfOpenMaxRequests·ProgressiveFactor, and an episode admits at most 1 + HalfOpenMaxRequests + (max(1, SuccessThreshold) - 1)·g, late reports included |
| CircuitBreaker.NeverStuckIff | internal/circuitbreaker/circuitbreaker.go:129-205 | every reachable quiet breaker admits a request if and only if HalfOpenMaxRequests·ProgressiveFactor >= 1 or 1 + HalfOpenMaxRequests >= SuccessThreshold |
| CircuitBreaker.RecoversInTime | internal/circuitbreaker/circuitbreaker.go:129-205 | under that condition max(1, SuccessThreshold) admitted-then-successful requests close the breaker from any reachable state |
| CircuitBreaker.ConcurrencyIsExactIff | internal/circuitbreaker/circuitbreaker.go:129-304 | the concurrency count is the number of outstanding requests throughout a run if and only if every Reset in it happens with nothing outstanding, and then the limit holds throughout |
| CircuitBreaker.ResetUnboundsConcurrency | internal/circuitbreaker/circuitbreaker.go:294-304 | with Reset, under any limit, any number of requests can be outstanding at once |
| ConnPool.ConnPool.GetIdleConn | internal/connpool/pool.go:250-268 | takes the last idle connection, or closes it if it has expired and takes none |
| ConnPool.ConnPool.BeginGet | internal/connpool/pool.go:124-167 | outcome, new pool and connections closed of the first critical section of Get |
| ConnPool.ConnPool.Retry | internal/connpool/pool.go:210-246 | the same for a woken waiter, who does not wait again |
| ConnPool.ConnPool.Put | internal/connpool/pool.go:271-300 | the returned connection is kept, closed or dropped, and which; one returned a second time is also refreshed where it already stands |
| ConnPool.ConnPool.Close | internal/connpool/pool.go:303-329 | every idle connection is closed, in order, once |
| ConnPool.ConnPool.Clean | internal/connpool/pool.go:345-378 | a cleaner tick keeps the unexpired idle connections in order and closes the others |
| ConnPool.ConnPool.CheckHealth | internal/connpool/adaptive_pool.go:198-242 | a health check keeps the healthy idle connections in order and closes the others |
| PoolRuns.StepRespectsLimit | internal/connpool/pool.go:124-300 | no step but a resize raises active + idle above both its value and a positive limit, also while it is above a shrunken limit |
| PoolRuns.LoadStaysBelowPeak | internal/connpool/pool.go:124-300 | over any interleaving with resizes, active + idle stays below every common bound of the limits in force |
| PoolRuns.Capacity | internal/connpool/pool.go:124-300 | over every interleaving with MaxActive fixed and positive, active + idle never exceeds it |
| PoolRuns.ActiveIsExact | internal/connpool/pool.go:124-300 | on an open pool active is the number checked out plus the creations in flight |
| PoolRuns.EveryConnectionInOnePlace | internal/connpool/pool.go:124-329 | every connection made is exactly one of checked out, idle, closed once, or dropped; none is dropped without waiting |
| PoolRuns.EverythingIsClosed | internal/connpool/pool.go:271-329 | after Close and the return of all connections, each one made and not dropped has been closed exactly once |
| PoolRuns.DropWitness | internal/connpool/pool.go:287-290 | a reachable state in which the only connection made is neither checked out, idle nor closed |
| PoolRuns.DropsIff | internal/connpool/pool.go:287-290 | some reachable state has dropped a connection if and only if waiting is enabled |
| PoolRuns.StepKeepsOrder | internal/connpool/pool.go:250-371 | the idle list stays sorted by last use through every step |
| PoolRuns.MostRecentlyUsedFirst | internal/connpool/pool.go:250-268 | Get discards an idle connection only if every idle one has expired, and otherwise returns the most recently used one |
| PoolRuns.IdleIsBounded | internal/connpool/pool.go:271-300 | every reachable pool holds at most max(0, MaxIdle) idle connections |
| PoolRuns.ReturnedIff | internal/connpool/pool.go:271-300 | a connection returned while nobody waits, or to a closed pool, ends up last among the idle ones if and only if the pool is open and fewer than MaxIdle were idle; otherwise it is closed once |
| PoolRuns.ReturnedIsReused | internal/connpool/pool.go:124-300 | and one that was kept is the next handed out, unless it expires in between |
| PoolRuns.CreatedIff | internal/connpool/pool.go:124-246 | an open reachable pool with no idle connection lets one be created exactly when those checked out and being created are fewer than the limit; otherwise the caller waits, or is told that the pool is exhausted |
| PoolRuns.ClosedIsClosed | internal/connpool/pool.go:124-329 | a closed pool hands out nothing in any continuation |
| PoolRuns.TickKeeps | internal/connpool/pool.go:345-378 | a cleaner tick of a reachable pool keeps exactly the idle connections used within the timeout and closes exactly the others |
| PoolRuns.HealthCheckKeeps | internal/connpool/adaptive_pool.go:198-242 | a health check of a reachable pool keeps exactly the idle connections not found bad and closes exactly the bad ones |
| AdaptivePool.AdaptivePool.CheckAndAdjustPool | internal/connpool/adaptive_pool.go:260-314 | the new limit, scale time and counters of an adjustment |
| AdaptivePool.AdjustedStaysInRange | internal/connpool/adaptive_pool.go:260-314 | unless the options scale an idle pool to zero, an adjustment keeps the limit between one and MaxConnections |
| AdaptivePool.GrowsIff | internal/connpool/adaptive_pool.go:260-314 | the limit rises exactly when the cooldown is over, the load is high and both the scaled limit and the maximum are above it, and to the smaller of the two |
| AdaptivePool.ShrinksIff | internal/connpool/adaptive_pool.go:260-314 | it falls exactly when the cooldown is over, the load is low, nobody waits and both the scaled limit and the minimum are below it, and to the larger of the two |
| AdaptivePool.FullPoolGrows | internal/connpool/adaptive_pool.go:260-314 | a pool in full use, with a factor of two or more, grows at the next check unless it is at its maximum |
| AdaptivePool.ExceedsMaximumIff | internal/connpool/adaptive_pool.go:260-314 | some run of the pool and its own adjustments holds more than MaxConnections if and only if there is no positive minimum, the scale-down factor is below one and the thresholds let an idle pool be scaled down |
| AdaptivePool.BecomesUnlimitedIff | internal/connpool/adaptive_pool.go:296-311 | an adjustment sets the limit to zero exactly when it scales down, the minimum is not positive and the scaled limit is below one |
| AdaptivePool.ScaleDownToZero | internal/connpool/adaptive_pool.go:296-311 | checks of an idle pool, one cooldown apart, bring the limit from any value to zero, which means no limit |
| BatchProcessing.AdaptiveBatcher.Receive | internal/batch/adaptive_batcher.go:245-301 | one received request: pending list, slot, timer and the batch launched, if any |
| BatchProcessing.AdaptiveBatcher.TimerFired | internal/batch/adaptive_batcher.go:303-334 | a timer tick launches the whole pending list if a slot is free |
| BatchProcessing.AdaptiveBatcher.TakeForFlush | internal/batch/adaptive_batcher.go:591-602 | Flush takes the whole pending list and no slot |
| BatchProcessing.AdaptiveBatcher.ProcessBatch | internal/batch/adaptive_batcher.go:340-501 | whichever exit is taken, every item gets its specified response or error and its Done is closed exactly once; the active count drops by one |
| BatchProcessing.BatchingPreservesMeaning | internal/batch/adaptive_batcher.go:356-482 | if merge, process and split act as f on lists, every live item of a batch with two or more live ones gets f of its own request, whatever was cancelled around it |
| BatchProcessing.TransparentIff | internal/batch/adaptive_batcher.go:356-486 | when merge, process and split act as f on every list, every live item of every batch gets f of its own request if and only if splitting the reply to a single request leaves it as it is |
| BatchProcessing.FaultReachesEveryone | internal/batch/adaptive_batcher.go:461-469 | if the merged live requests meet a fault, every live item of the batch ends with no response and with the fault, or what the handler makes of it |
| BatchProcessing.UnmergeableFails | internal/batch/adaptive_batcher.go:377-400 | several live items without a merge function all fail for that reason, whatever the processor would have said |
| BatchProcessing.ProcessesIff | internal/batch/adaptive_batcher.go:369-409 | a batch reaches the processor, and only then resizes later ones, if and only if a failing processor makes itself felt in some answer |
| BatchProcessing.ResponseIff | internal/batch/adaptive_batcher.go:356-486 | a live item gets a response if and only if the batch was sent and met no fault, and the item is alone or the split reply is longer than its rank; and which response that is |
| BatchProcessing.SplitErrors | internal/batch/adaptive_batcher.go:472-486 | the error of a live item among several once the batch met no fault: no split function, too few responses, or none |
| BatchProcessing.ExactlyOneAnswer | internal/batch/adaptive_batcher.go:340-501 | without a handler every item of every batch ends with exactly one of a response and an error |
| BatchProcessing.CanceledIsTold | internal/batch/adaptive_batcher.go:356-367 | a cancelled item ends with no response and is told so, whatever happens to the others |
| BatchProcessing.MultiActsPointwise | internal/batch/adaptive_batcher.go:641-681 | the batcher built for independent requests, with the default merge and split, acts as the processor's responses whatever errors come with them |
| BatchProcessing.MultiLoneRequest | internal/batch/adaptive_batcher.go:472-486 | such a batcher hands the only live item of any batch the whole reply record |
| BatchProcessing.MultiIsNeverTransparent | internal/batch/adaptive_batcher.go:641-681 | so it is never transparent: a lone request never gets its own response |
| BatchProcessing.AdaptiveBatcher.constructor | internal/batch/adaptive_batcher.go:141-182 | limits that are not positive get their defaults, and the first batch size is the maximum |
| BatchProcessing.LimitsArePositive | internal/batch/adaptive_batcher.go:141-153 | the limits in force are positive, those asked for where these are, and normalising again changes nothing |
| BatchRuns.ArrivalOrder | internal/batch/adaptive_batcher.go:238-337 | in every run the launched batches, then the pending list, then the channel are the accepted requests in arrival order |
| BatchRuns.DoneExactlyOnce | internal/batch/adaptive_batcher.go:340-501 | Done is never closed twice, is closed once for every item of a finished batch, and for every accepted request once the batcher is empty |
| BatchRuns.ConcurrencyLimit | internal/batch/adaptive_batcher.go:276-292 | without Flush the active count is the number of running batches and within the limit; each finished Flush batch widens it by one |
| BatchRuns.ReceiveLaunchesIff | internal/batch/adaptive_batcher.go:245-301 | a received request launches all that is pending exactly when that reaches the batch size, or the minimum with the first having waited the latency, and a slot is free; and the whole queue afterwards |
| BatchRuns.FireLaunchesIff | internal/batch/adaptive_batcher.go:303-334 | a timer tick launches all that is pending exactly when there is something and a slot is free |
| BatchRuns.FlushLaunchesIff | internal/batch/adaptive_batcher.go:591-602 | a Flush launches all that is pending whatever slots are taken |
| BatchRuns.SizeFollowsLoad | internal/batch/adaptive_batcher.go:420-436 | with factors on either side of one the batch size never rises under high load, never falls under low load, and keeps its range |
| BatchRuns.SizeIsScaled | internal/batch/adaptive_batcher.go:420-436 | the new batch size is the scaled one, rounded towards zero and cut off at the bound on its side |
| BatchRuns.BecomesUnattendedIff | internal/batch/adaptive_batcher.go:264-334 | a step leaves pending requests without a timer exactly when it has a batch to launch, finds the active count at its limit and leaves no timer running |
| BatchRuns.UnattendedMeansRefused | internal/batch/adaptive_batcher.go:264-334 | requests pending without a timer mean that the run met a launch with the active count at its limit |
| BatchRuns.FlushUnboundsConcurrency | internal/batch/adaptive_batcher.go:591-602 | with Flush any number of batches of the loop run at once, whatever the limit, in a run with the batcher's own batch size |
| BatchRuns.RefusalStrands | internal/batch/adaptive_batcher.go:303-334 | under every limit, a reachable state with a request pending, no timer, nothing queued and nothing running |
| BatchRuns.AbandonedIff | internal/batch/adaptive_batcher.go:238-243 | once the loop has stopped, no continuation ever completes an accepted request if and only if it is still in the channel |
| BatchRuns.StopAbandons | internal/batch/adaptive_batcher.go:238-243 | a reachable state in which the only accepted request is abandoned |
| TokenManager.TokenStore.RevokeToken | auth/token/store.go:124-142 | the token is marked and its refresh string leaves the index; a missing token is reported |
| TokenManager.TokenStore.CleanupExpiredTokens | auth/token/store.go:169-189 | the loop drops exactly the expired and revoked tokens and their refresh strings, in whatever order it visits them |
| TokenManager.Blacklist.IsBlacklisted | auth/token/blacklist.go:52-70 | an entry counts until its expiry, and looking up an expired one removes it |
| TokenManager.Blacklist.CleanupExpired | auth/token/blacklist.go:83-95 | the loop removes exactly the expired entries |
| BlacklistRuns.ListedIff | auth/token/blacklist.go:41-95 | after any run of the blacklist, with expired entries forgotten by lookups and cleanups anywhere in it, an identity is listed exactly until the time it was last listed for |
| BlacklistRuns.ForgetsExpired | auth/token/blacklist.go:52-95 | a cleanup forgets exactly the expired entries; a lookup exactly its own, if expired |
| TokenManager.TokenManager.ValidateToken | auth/token/token.go:186-258 | verdict and new state, with every error path in the code's order |
| TokenManager.TokenManager.RefreshToken | auth/token/token.go:261-312 | result and new state, including what has already been revoked when a later stage fails |
| TokenManager.TokenManager.RevokeToken | auth/token/token.go:315-358 | error and new state, with one day of blacklisting for an expired token |
| TokenRuns.RefreshMeans | auth/token/token.go:261-312 | a refresh either leaves the store alone and fails, or revokes a live token and, on success, stores its successor |
| TokenRuns.BlacklistIsInvisible | auth/token/token.go:220-302 | in every kept state a call leaves the same store and gives the same reply as with no blacklist |
| TokenRuns.StepKeepsManager | auth/token/token.go:113-377 | every call keeps: index and unrevoked tokens correspond one to one, and blacklisted identities are revoked or gone |
| TokenRuns.IndexPointsToLiveTokens | auth/token/store.go:72-189 | after every run each refresh-index entry points to a stored, unrevoked token carrying that string |
| TokenRuns.RedeemedAtMostOnce | auth/token/token.go:261-312 | in every run no refresh string is redeemed twice, and none redeemed would be again |
| TokenRuns.OneAcceptedTokenPerLogin | auth/token/token.go:113-312 | after every run two accepted access tokens of one login have the same identity, and, signatures being unforgeable, are the same token |
| TokenRuns.RevokedForever | auth/token/token.go:186-377 | once revoked, a token is never accepted or refreshed, across cleanups and blacklist expiry |
| TokenAcceptance.AcceptedIff | auth/token/token.go:186-258 | after every run a token issued in it is accepted as its user if and only if it has not expired, was not revoked and its refresh string was not used up; it is answered as expired exactly past its expiry, and as revoked in the remaining case |
| TokenAcceptance.RefreshableIff | auth/token/token.go:261-358 | its refresh string is honoured exactly as long, and until then revoking it succeeds |
| TokenAcceptance.IssuedIsAccepted | auth/token/token.go:113-258 | what a login or a refresh of any run issues is accepted up to its expiry and answered as expired afterwards, with the user and the lifetime asked for |
| TokenAcceptance.CleanupLeavesTheGood | auth/token/token.go:361-377 | after every run a cleanup leaves in the store exactly the tokens that would still be accepted, each with its refresh string, and on the blacklist only entries that still count |
| TokenAcceptance.BlacklistCovers | auth/token/token.go:261-358 | after every run with a blacklist whose revocations present the claims as issued, each unexpired token revoked or used up is listed |
| TokenAcceptance.AskingForgets | auth/token/blacklist.go:52-70 | a validation that gets as far as the blacklist forgets an expired entry of its token, and no other |
| TokenRuns.CleanupAndBlacklistAreInvisible | auth/token/token.go:186-377 | two runs of the same calls with cleanups inserted anywhere, each with or without blacklist, get the same logins, acceptances, refreshes and refusals |
| TokenBuckets.TokenBucket.Allow | ratelimit/token_bucket.go:45-72 | refill up to the bucket size, then take one token if there is one |
| TokenBuckets.TokenBucket.UpdateRate | ratelimit/token_bucket.go:75-81 | the time so far is paid at the old rate |
| TokenBuckets.EarnedIsProduct | ratelimit/token_bucket.go:46-51 | the nanosecond-by-nanosecond yield of a rate is the elapsed seconds times the rate |
| TokenBuckets.RefillGain | ratelimit/token_bucket.go:45-58 | between two instants a bucket gains at most the highest rate's yield, at least the lowest's unless full, and stays between empty and full |
| AdaptiveLimiters.AdaptiveLimiter.AverageResponseTime | ratelimit/adaptive_limiter.go:197-213 | the loop averages the positive samples, zero if there are none |
| ResponseTimes.AverageIsOfTheLast | ratelimit/adaptive_limiter.go:153-213 | after any run the average over the ring is that of the last response times recorded, up to the sample size (100 if not positive), in whatever position the ring stands |
| ResponseTimes.AverageIsMean | ratelimit/adaptive_limiter.go:197-213 | an average is the mean of the positive entries rounded down, and zero if there are none |
| ResponseTimes.StatisticsAreExact | ratelimit/adaptive_limiter.go:110-124 | after any run the counters of admitted and rejected requests count the calls by their answers |
| ResponseTimes.RejectsSinceAdjustment | ratelimit/adaptive_limiter.go:110-124 | the consecutive rejections are all those since the last adjustment, whatever was admitted in between |
| AdaptiveLimiters.AdaptiveLimiter.AdjustRate | ratelimit/adaptive_limiter.go:192-251 | the new rate for any load reading, clamped, and the bucket retuned to it |
| AdaptiveLimiters.MoreLoadNeverRaisesTheRate | ratelimit/adaptive_limiter.go:222-244 | a higher load or slower responses never give a higher rate, for whatever lowered and raised rates lie on either side of the current one |
| AdaptiveLimiters.HighLoadLowers | ratelimit/adaptive_limiter.go:222-244 | above the high threshold the rate never rises, and strictly falls if the factor is below one and the rate above its minimum; and to what |
| AdaptiveLimiters.LowLoadRaises | ratelimit/adaptive_limiter.go:222-244 | below the low threshold with quick responses it never falls, and strictly rises if the factor is above one and the rate below its maximum; and to what |
| AdaptiveLimiters.MiddleLoadKeeps | ratelimit/adaptive_limiter.go:222-244 | in between it stays, except that slow responses take off a twentieth |
| AdaptiveLimiters.RateBound | ratelimit/adaptive_limiter.go:110-251 | in every run with any load readings, a stretch admits at most the bucket size plus MaxRate times its length |
| AdaptiveLimiters.GapIsEnough | ratelimit/adaptive_limiter.go:110-251 | with an initial rate of 10 or more, after any run and one more request, requests that come at least 1/MinRate after the one before are never rejected |
| AdaptiveLimiters.PacedIsNeverRejected | ratelimit/adaptive_limiter.go:110-251 | with an initial rate of 10 or more, a caller who waits 1/MinRate between requests is never rejected, whatever is adjusted in between |
| AdaptiveLimiters.ServesIff | ratelimit/adaptive_limiter.go:97-100 | some request of some run is admitted if and only if the initial rate is at least 10 |
| WindowLimiters.SlideWindowLimiter.LimitUnary | ratelimit/slide_window.go:45-68 | the removing loop leaves exactly the timestamps not older than the interval, in order; then the request is queued if there is room |
| WindowLimiters.SlidingWindowBound | ratelimit/slide_window.go:45-68 | with requests served in the order of their stamps, every closed window of one interval holds at most rate admissions in every run |
| WindowLimiters.SlidingRefusesIff | ratelimit/slide_window.go:45-68 | in that order a request is refused exactly when, by the full history, the window that ends at it holds rate admissions |
| SlideRaces.LateStampBound | ratelimit/slide_window.go:45-68 | with the clock read before the lock is taken, n callers served in any order put at most rate + n - 1 admissions into a closed window of one interval |
| SlideRaces.LateStampBoundIsReached | ratelimit/slide_window.go:45-68 | for every rate of two or more and every n, a run reaches that bound |
| SlideRaces.RateHoldsIff | ratelimit/slide_window.go:45-68 | the rate bounds every closed window of every run if and only if there is one caller at most or the rate is one at most |
| WindowLimiters.FixWindowLimiter.LimitUnary | ratelimit/fix_window.go:42-65 | window and counter after a request, taken as one step, and its verdict |
| WindowLimiters.FixedWindowBound | ratelimit/fix_window.go:42-65 | in every run a half-open span of k intervals admits at most (k + 1)·rate, so one interval at most twice the rate |
| WindowLimiters.FixedRefusesIff | ratelimit/fix_window.go:42-65 | a request is refused exactly when its window has admitted rate already |
| WindowLimiters.FixedWindowBoundIsReached | ratelimit/fix_window.go:42-65 | for every rate and every k, a run admits (k + 1)·rate within k intervals |
| WindowRaces.LongRunBound | ratelimit/fix_window.go:42-65 | with the atomic operations interleaved by any number of callers, the admissions up to any time are at most the rate for each interval elapsed and once more |
| WindowRaces.RaceBound | ratelimit/fix_window.go:42-65 | under every interleaving of n callers, a half-open stretch of k intervals admits at most (n + k)·rate |
| WindowRaces.RaceBoundIsReached | ratelimit/fix_window.go:49-56 | for every n, k and rate an interleaving admits exactly (n + k)·rate: n - 1 callers clear the counter late |
| WindowRaces.TwiceTheRateIff | ratelimit/fix_window.go:42-65 | twice the rate bounds every interval of every interleaving if and only if there is at most one caller |
| AdaptiveCompression.MarkedLength | internal/compression/adaptive.go:196-199 | the marked header holds the length modulo 2^24 |
| AdaptiveCompression.AdaptiveWriter.Write | internal/compression/adaptive.go:121-186 | buffer, output and compressor after a write, and its failure when the algorithm is not registered |
| AdaptiveCompression.AdaptiveWriter.Close | internal/compression/adaptive.go:189-210 | the finished frame |
| AdaptiveCompression.Decompress | internal/compression/adaptive.go:81-107 | what reading any frame to its end gives, with each error |
| AdaptiveCompression.ReadAnswers | internal/compression/adaptive.go:81-107 | exactly which frames give each of the three errors, and what is read from any other |
| AdaptiveCompression.ReadsAccepted | internal/compression/adaptive.go:81-210 | for every threshold, split and registry, a frame reads back what its writer accepted if and only if it was compressed or is shorter than 2^24 bytes |
| AdaptiveCompression.UnregisteredAccepts | internal/compression/adaptive.go:135-140 | without the algorithm nothing is compressed, and the writer accepts all the data exactly when it is below the threshold or empty |
| AdaptiveCompression.RoundTripIff | internal/compression/adaptive.go:81-210 | data written in any pieces is read back whole if and only if it is shorter than 2^24 bytes or reaches the threshold; without the algorithm, if and only if it is shorter than both, or empty |
| AdaptiveCompression.CompressedIff | internal/compression/adaptive.go:121-210 | the compressed mark depends on the total length alone, never on the split |
| AdaptiveCompression.RoundTrip | internal/compression/adaptive.go:81-210 | for thresholds from 1 to 2^24 any data in any pieces is read back whole, and marked compressed exactly from the threshold on |
| AdaptiveCompression.LongUncompressedIsTruncated | internal/compression/adaptive.go:196-199 | with a larger threshold, data from 2^24 bytes up to it comes back cut to its length modulo 2^24 |
| RetryBudget.Budget.CanRetry | internal/retry/retry.go:84-101 | whether there is room and the ratio is respected |
| RetryBudget.RetryInterceptor.Call | internal/retry/retry.go:148-212 | a call retries exactly up to the first retry that may not go, replies with the last outcome or the cancellation, counts its retries and gives every permit back |
| RetryBudget.GoesIff | internal/retry/retry.go:148-212 | what a retry takes: attempts left, a retryable failure, room in the budget and in the ratio after the retries before it, and no cancellation |
| RetryBudget.SuccessInTheEnd | internal/retry/retry.go:148-212 | a lone call that fails retryably k times and would then succeed makes exactly k retries and succeeds, if attempts and budget allow |
| RetryBudget.ReturnedTellsAll | internal/retry/retry.go:148-212 | a call ends well exactly if its last attempt did, and passes on the code of a failure |
| RetryRuns.BudgetBounds | internal/retry/retry.go:84-121 | over every interleaving of n callers: current retries are the permits held and at most the limit + n - 1, retries exceed the allowed share by at most n, and no permit is out once all have returned |
| RetryRuns.PeakIsExact | internal/retry/retry.go:84-212 | for every limit, ratio, number of attempts and n callers, the most retries ever in flight are min(limit + n - 1, n·attempts), or none without a positive limit and ratio: never more, and reached |
| Totp.FillBytes | auth/mfa/totp.go:188-192 | the loop fills in the counter's bytes, most significant first |
| Totp.CounterBytesInvert | auth/mfa/totp.go:188-192 | the eight bytes determine the counter below 2^64, and every eight bytes are some counter's |
| Totp.Truncate | auth/mfa/totp.go:206-210 | the code's index and shift expression computes the truncated value |
| Totp.TruncatedIsLow31Bits | auth/mfa/totp.go:206-210 | section 5.3 of RFC 4226: the offset is the low half of the last byte, in range, and the value is the low 31 bits of the four bytes it selects |
| Totp.CodeIsExact | auth/mfa/totp.go:121-127 | a code has exactly Digits decimal digits and denotes the truncated digest modulo 10^Digits; it fails only if the secret does not decode |
| Totp.CodeIsRemainder | auth/mfa/totp.go:206-214 | the number that the code spells is below 10^Digits and differs from the truncated digest by a multiple of it |
| Totp.BytesOfStep | auth/mfa/totp.go:121-192 | from the epoch on the bytes that are hashed are those of the time step |
| Totp.PaddedIsExact | auth/mfa/totp.go:213-214 | zero padding gives exactly the width, and the digits denote the number |
| Totp.NewTOTP | auth/mfa/totp.go:76-108 | the configuration afterwards, and when creation fails |
| Totp.NormalisedIsStable | auth/mfa/totp.go:90-103 | a normalised configuration is usable, holds no space or padding in its secret, and normalising again changes nothing |
| Totp.DefaultsFillIn | auth/mfa/totp.go:94-103 | what is given is kept and the rest filled in: six digits, thirty seconds, SHA1 |
| Totp.TOTP.GenerateOTP | auth/mfa/totp.go:186-217 | the code computed is the specified one for the counter |
| Totp.TOTP.ValidateCodeWithWindow | auth/mfa/totp.go:143-168 | accepts exactly the codes of the time steps within the window around now, white space around them aside |
| Totp.TrimmedIsMiddle | auth/mfa/totp.go:148-149 | trimming a code takes white space off both ends, and all of it |
| Totp.StepShift | auth/mfa/totp.go:156-158 | moving by whole periods moves by as many time steps, before the epoch too |
| Totp.CodesAreAcceptedNearby | auth/mfa/totp.go:121-168 | a code made at one time is accepted at any other whose time step is at most the window away |
| Totp.CodesAreAcceptedInTime | auth/mfa/totp.go:121-168 | a code made at one time is accepted at any other at most window periods away, before or after |

## Left out

- WeightBalancer.Balancer.Done: does not model the compare-and-swap loop, whose retries end in one successful step; nor a report landing between two lines of a pick, since a pick is one step.
- WeightBalancer.EveryRunIsCongruent: takes any change of an effective weight as a step, which covers reports without naming the pick they belong to.
- WeightBalancer.SharesAreFairIff: assumes 3·W at most 2^32, which lets a wrapped debt, always above -W, beat every other weight at the first negative comparison.
- CircuitBreaker.CircuitBreaker.Allow: permits, failure counts and concurrency are unbounded naturals, not `uint32`; listeners, names and statistics are not modelled, and the options do not change during a run.
- CircuitBreaker.NeverStuckIff: speaks of runs in which every admitted request reports once.
- ConnPool.ConnPool.Retry: the goroutine that waits on the condition variable without holding the lock is not modelled; being woken is a step that a waiter may take at any time.
- ConnPool.ConnPool.Put: the per-connection closed flag is not part of this model; the runs return each checked-out connection once.
- AdaptivePool.AdaptivePool.CheckAndAdjustPool: is one step; health-check timeouts become the set of connections found unhealthy, and preconnecting is left out.
- BatchProcessing.AdaptiveBatcher.ProcessBatch: waiting and processing averages and rate statistics are left out; the load factor they lead to is an input.
- BatchRuns.FlushUnboundsConcurrency: the flushed requests are cancelled before their batches start, so the batch size stays the initial one.
- BatchProcessing.MultiActsPointwise: supposes that the processor's responses are f of the requests; a caller's own merge or split replaces the default one and is covered by TransparentIff.
- BatchRuns.ArrivalOrder: the caller's own early return when its context ends is left out, since it does not touch the queue; size limits refuse a request before it is accepted.
- TokenManager.TokenManager.GenerateToken: signing, JSON and base64 are replaced by a token that is either garbled or holds its claims and whether its signature verifies; revoking does not check the signature, as in the code.
- TokenRuns.OneAcceptedTokenPerLogin: unforgeable signatures are a hypothesis of the second part; takes each manager call as one step, so two overlapping refreshes of the same token are outside the claim; it assumes fresh random strings.
- TokenAcceptance.BlacklistCovers: supposes that revocations present the claims as issued; the code decodes a token to be revoked without checking its signature, so altered claims can set another expiry, which the store's own mark makes up for.
- PoolRuns.ReturnedIff: a return while somebody waits drops the connection, which is the subject of DropsIff.
- PoolRuns.TickKeeps: at exactly the timeout the cleaner closes a connection that Get would still hand out, as in the code.
- BreakerAnswers.AllowAnswers: supposes quiet Resets, the exact condition of ConcurrencyIsExactIff, without which the count is not the number of outstanding requests.
- AdaptivePool.FullPoolGrows: asks for a high-load threshold of at most one and a factor of two or more, since a smaller factor can round down to the same limit; GrowsIff is the exact condition.
- TokenRuns.RevokedForever: reads the clock once per call and in whole seconds, where the code reads it several times.
- AdaptiveLimiters.MoreLoadNeverRaisesTheRate: names the lowered and raised rates instead of the products that the code computes for them.
- AdaptiveLimiters.AdaptiveLimiter.Allow: the statistics are unbounded; waiting a second for a token and then asking again is two calls.
- AdaptiveLimiters.RateBound: ignores floating-point rounding, and takes the time stamp of a call to be read in execution order.
- WindowLimiters.FixWindowLimiter.LimitUnary: is one step; calls that interleave between the atomic operations are the subject of WindowRaces.
- WindowLimiters.SlidingWindowBound: supposes that requests are served in the order of their stamps, which the code does not ensure, since it reads the clock before it takes the lock; SlideRaces drops this.
- AdaptiveCompression.AdaptiveWriter.Write: the branch that writes uncompressed data through is unreachable, since nothing clears the flag it tests; the compressor's bytes appear at Close; a negative buffer capacity, which panics, and failing writers are not modelled.
- RetryBudget.RetryInterceptor.Call: is a lone caller's call, several callers being the subject of RetryRuns; deadlines, delays and the widening of timeouts are left out; whether the context ends during a delay is an input.
- RetryRuns.BudgetBounds: counters do not wrap, and a negative ratio counts as zero.
- Totp.CodeIsExact: HMAC-SHA1 and base32 are arbitrary functions, and the counter of a negative time step, which the language leaves open, is arbitrary.
- Totp.TOTP.GenerateOTP: takes 10^Digits as an unbounded integer; from 19 digits on the code's conversion leaves the range of its integers, and what it yields is up to the platform.
- Totp.TOTP.ValidateCodeWithWindow: offsets do not overflow; codes are sequences of characters rather than bytes, which cannot matter because codes hold digits only.
- The channel-based token bucket interceptor, Redis limiters and Lua scripts: no single intended behaviour to refine.
- internal/batch/processor.go: its timer is never read and its responses never reach the caller's channel.
- internal/circuitbreaker/adaptive_breaker.go: tunes a copy of the options that the base breaker never sees.
- Simple round robin, least-active, random and hash balancers, backoff formulas, role tables, field masks, the plugin manager and error aggregation: they would only add easy members.
- gRPC, TLS, OCSP, etcd, Redis, Prometheus, tracing, logging, memory pools and serialization: I/O or library behaviour that the repository does not define.

# Verified model of easycall's client core

easycall is a Go micro-service framework. This project models the parts of it in which threads, counters,
buffers and links have to agree, and proves what they guarantee.

* **Sessions** (`SessionProtocol`, `SessionInvariant`, `SessionTheorems`, `SessionProgress`, `SessionTimers`,
  `SessionScenarios`, `OutcomeSpec`, `SessionManager`). A caller numbers a request, is counted on its node, registers a session and
  waits on an unbuffered channel; reply handlers and a timer goroutine race to answer and destroy it. The
  protocol is a step system in which every shared access of `DestorySessionAndRespPkg` is a step of its own and
  the network may reorder, duplicate or lose messages. One joint invariant gives: a refinement of "pending, then
  answered or timed out, once"; no cross-talk; exact load accounting; nothing lost; and exactly which calls and
  timer goroutines can end. The same operations also
  appear as methods on mutable objects, and a lemma shows that the method is the protocol run without
  interruption.
* **Circuit breaker** (`Breaker`, `BreakerThreads`, `BreakerTheorems`, `BreakerSequential`, `BreakerScenarios`).
  The record and name table as objects; then concurrent calls, where every counter access is its own step,
  because the counters are raised outside the lock; then the sequential behaviour and the exact trip count.
* **Connection pool** (`Pool`, `PoolThreads`, `PoolScenarios`). The object with its retry and drain loops, and the
  unlocked check-then-create under concurrency, with bounds that are attained for every size.
* **Load balancer** (`LoadBalancer`, `LoadBalancerTheorems`). The selection loops, joined with the session
  manager's counts; balance of least-active selection, coverage of round robin, exact weighted shares.
* **Wire format and framing** (`Package`, `Connection`). The encoder that fills and patches a buffer, the decoder
  that slices it, the read loop under arbitrarily cut reads and the write queue.
* **Service client** (`ConnectionTable`, `ServiceClient`, `Exchange`, `PlainCodec`). The table of connection pools;
  the request path over balancer, pools, session table, head, codec and connection, with its refusals and the
  caller that blocks; one request and its reply through both sides (`Start`, then
  `Complete`); and a concrete codec.
* **Middleware chain** (`ServiceChain`). The list and its links as heap objects, the handler that ends the chain,
  and the reply that keeps the request's head.

`Wrappers` and `Sets` hold an option type and two cardinality facts.

What the code does differently from its evident intention, each shown by a lemma:

* A request whose encoding fails never returns: its caller waits in its own send on a channel that nobody else
  has, and stays in `Active` (`CompletesIff`, `FailedStaysCounted`, `EncodeFailureOccurs`).
* The timer goroutine of a call answered in time waits for ever on a stopped timer; every other one can end
  (`StrandedOccurs`, `ParkedForever`, `EndsIff`).
* A service that answers under another number sends its answer to another caller, or to nobody; each caller gets
  the answer to its own request exactly when that answer kept the request's number (`AnswersOwnIff`,
  `OwnAnswerIff`, `ReplacedHeadCrossTalks`).
* Failures can overtake invocations when a counter reset exposes a call: one in flight at the reset of `failCount`,
  or counted before that of `invokeCount` follows. One such call is enough, and without any the failures stay below
  (`FailuresCanOvertake`, `NeverOvertakenIff`).
* Line 119 of `easy_connection.go` tests the head length against the body bound, so no body length is refused
  (`BodyLengthNeverRefused`, `PkgLenExact`).
* Least-active selection can pick the busiest node once loads are unequal, from the beginning or because calls
  have ended (`PicksLeastIff`, `CanPickBusiest`).
* Of a pool of any size, a `Release` can block if and only if more than `maxSize + 1` operations may create at once
  (`ReleaseCanBlock`, `NoReleaseBlocksIff`).

Assumptions: fewer than 2^64 sessions are begun on one client; 32-bit and 64-bit counters other than that do not
overflow; each request owns its head object; rates are real numbers.

## Model

| member | source | states |
|---|---|---|
| SessionInvariant.StepKeeps | session_manager.go:43-78 | every step of callers, handlers, timers, servers and reloads keeps the joint invariant over table, mutexes, channels, threads and loads |
| SessionTheorems.AtMostOnce | session_manager.go:66-72 | in every reachable state a session's channel has carried at most one value, is closed only after it and dropped only once closed, and no thread about to send or close can meet a nil or closed channel |
| SessionTheorems.RunRefines | session_manager.go:56-78 | every run, seen as outcomes, is a run of the specification pending, then answered or timed out, once |
| OutcomeSpec.SettledStays | session_manager.go:56-78 | in that specification an outcome never changes once it is there |
| SessionTheorems.OutcomeIsFinal | service_client.go:184-207 | what a caller has received at any point of a run stays its outcome to the end of the run, whatever duplicates and timers follow |
| SessionTheorems.NilMeansTimeout | service_client.go:184-187 | a nil package is delivered only after the call's own timer has fired |
| SessionTheorems.AnswersOwnIff | service_client.go:192-207 | a received package carries the caller's own non-zero number, and answers the caller's own request if and only if it kept the number of the request it answers |
| ServiceChain.OwnAnswerIff | service_handler.go:58-101 | so a caller receives the answer to its own request if and only if the service that answered kept that request's number |
| SessionTheorems.NoCrossTalk | service_client.go:192-207 | in particular no caller receives another's answer while no service has answered under another number |
| SessionScenarios.ReplacedHeadCrossTalks | service_handler.go:92-101 | a run in which a caller receives the answer to another's request |
| SessionTheorems.ReturnedChannelUsable | service_client.go:189 | the unlocked read on return sees a channel that is not nil, not closed and has carried nothing |
| SessionTheorems.LoadAccounting | session_manager.go:46-72 | Active of every node object, old or new, is the number of calls counted in and not out, so never negative |
| SessionTheorems.QuiescentIsEmpty | session_manager.go:62-76 | when every caller has its value and no session mutex is held, the table is empty and every Active is zero |
| SessionTheorems.NoLostSession | session_manager.go:43-78 | an open session is in the table with its timer pending, or some thread past the table delete has yet to finish with it |
| SessionProgress.RankNeverRises | session_manager.go:56-78 | no step of anybody moves a call away from completion, except its own failure to encode |
| SessionProgress.ProgressEnabled | service_client.go:161-189 | for every unfinished call whose encoding has not failed, some step is enabled that brings it strictly closer |
| SessionProgress.HelpStays | service_client.go:161-189 | no step of anybody disables that helpful step before the call is closer to its end, so it is enough that each goroutine is run eventually |
| SessionProgress.CompletesIff | service_client.go:167-181 | a call can still complete if and only if its encoding has not failed |
| SessionProgress.FailedStaysCounted | service_client.go:168-171 | a call whose encoding failed keeps its channel open and its place in Active |
| SessionScenarios.EncodeFailureOccurs | service_client.go:177-180 | such a call is reachable |
| SessionTimers.ParkedForever | service_client.go:184-187 | a timer goroutine parked on a stopped timer stays there in every run |
| SessionScenarios.StrandedOccurs | session_manager.go:74-76 | such a goroutine is reachable: a call answered before its timer fires leaves one |
| SessionTimers.EndsIff | service_client.go:184-187 | from any reachable state a timer goroutine can still end if and only if it is not parked on a stopped timer |
| SessionManager.EasySessionManager.InitSession | session_manager.go:43-54 | next number modulo 2^64, Active plus one, a fresh open session registered under the number and nothing else in the table changed |
| SessionManager.EasySessionManager.GetSession | session_manager.go:36-41 | the one registered session that carries the number, and none exactly if no registered session carries it |
| SessionManager.EasySessionManager.DestorySessionAndRespPkg | session_manager.go:56-78 | the whole new state: table without the number, one value sent and channel closed and dropped if it was open, Active reduced exactly then, timer stopped |
| SessionManager.EasySessionManager.Process | service_client.go:192-207 | number 0 and unknown numbers change nothing, loads included; otherwise the registered session is destroyed with the reply |
| SessionManager.DestroyedTwice | session_manager.go:66-72 | destroying again, with any response, changes nothing |
| SessionManager.UninterruptedDestroy | session_manager.go:56-78 | a protocol thread that is not interrupted does exactly what the method does |
| Breaker.CbInfo.Call | circuit_breaker.go:97-172 | a closed breaker runs a call unless failCount > failRate * invokeCount with more than countBase invocations; an open one none until failTime has passed; a half-open one exactly those drawing below limitRate that do not trip it; and what each case leaves in every field |
| Breaker.Breakers.CbCall | circuit_breaker.go:77-173 | creates the record with defaults if needed, applies the call to it and leaves every other name's record alone |
| Breaker.Breakers.CbConfigure | circuit_breaker.go:46-75 | replaces only the configuration, or creates a fresh record, of that name |
| Breaker.CountsInOrder | circuit_breaker.go:100-172 | without overlap failures stay below invocations through every branch |
| BreakerTheorems.InvocationAccounting | circuit_breaker.go:165-172 | under any interleaving invokeCount - 1 is exactly the running, failing, succeeded and failed calls of its epoch, and invokeCount is at least 1 |
| BreakerTheorems.FailureAccounting | circuit_breaker.go:97-172 | failCount is this epoch's own failures plus those of exposed calls, and is at most invokeCount - 1 plus the exposed calls |
| BreakerTheorems.TripTestReads | circuit_breaker.go:131-134 | the trip test never divides by zero and what it read obeys the same bound |
| BreakerTheorems.SequentialCounts | circuit_breaker.go:147-172 | in every run without overlapping calls failCount is below invokeCount |
| BreakerScenarios.FailuresCanOvertake | circuit_breaker.go:156-171 | with exactly one call exposed by a reset, a reachable state has failCount at least invokeCount |
| BreakerScenarios.NeverOvertakenIff | circuit_breaker.go:147-172 | failCount stays below invokeCount in every reachable state with at most k exposed calls, outside a recovery, if and only if k is zero |
| BreakerTheorems.StatusFollowsLog | circuit_breaker.go:97-163 | in every reachable state the status is what the log of trips, trials, recoveries and admissions leads to in a three-state machine |
| BreakerTheorems.TrialFollowsTrip | circuit_breaker.go:100-107 | a trial starts directly after a trip, by a call stamped more than failTime after it |
| BreakerTheorems.NothingPassesWhileOpen | circuit_breaker.go:109-130 | after a trip no call is admitted and the breaker does not close before the next trial |
| BreakerTheorems.RecoveryFollowsTrial | circuit_breaker.go:147-153 | the breaker closes only out of a trial, by a later-stamped and so different call more than limitTime after the one that began it |
| BreakerTheorems.TrialAdmits | circuit_breaker.go:112-118 | under any interleaving, every call that passes during a trial drew below the limit rate |
| BreakerTheorems.TimesKept | circuit_breaker.go:97-153 | with a fixed configuration, trips, trials, recoveries and admissions keep its failTime, limitTime and limitRate |
| BreakerSequential.RunTrial | circuit_breaker.go:112-118 | of n evenly spread draws during a trial exactly the least whole number not below limitRate * n are run |
| BreakerSequential.DefaultsAdmitTwoOfTen | circuit_breaker.go:12-17 | with the defaults, two of ten |
| BreakerSequential.UninterruptedCall | circuit_breaker.go:97-173 | a thread that nobody overlaps does in the step system exactly what the method does |
| BreakerSequential.TripsExactly | circuit_breaker.go:131-144 | with all calls failing and no window reset, exactly the least count that trips the test are run and none after it until failTime has passed |
| BreakerSequential.DefaultsTripAfterTen | circuit_breaker.go:12-17 | with the defaults that count is ten |
| BreakerSequential.TripsIff | circuit_breaker.go:131-134 | from a record in order such a count exists if and only if the failure rate is below one |
| Pool.GenericPool.constructor | pool.go:37-60 | adjusts the size, dials minSize times (never, if negative) and counts exactly the dials that succeed, all idle, open and stamped now |
| Pool.GenericPool.Acquire | pool.go:62-85 | terminates; the connection is open and its stamp plus lifetime not past; exactly the idle ones before it, each closed or past its lifetime, are closed and discounted; at most one is created |
| Pool.GenericPool.getOrCreate | pool.go:87-115 | an error once shut down; else the oldest idle connection, else a new counted one below the size, else an error |
| Pool.GenericPool.Release | pool.go:118-124 | puts the connection last; the channel has room for it |
| Pool.GenericPool.Shutdown | pool.go:154-167 | nothing is left idle, every idle connection is closed, curSize is the number still held; refused the second time |
| Pool.GenericPool.CloseAll | pool.go:137-151 | the same draining without shutting down |
| PoolThreads.OvershootBound | pool.go:99-114 | with at most k operations ever between size check and count, curSize plus those creating is at most maxSize - 1 + k, so at most maxSize for k = 1 |
| PoolScenarios.OvershootIsExact | pool.go:99-114 | for every maxSize and k that is the least bound on curSize |
| PoolThreads.Conservation | pool.go:74-131 | curSize is the idle connections plus those out and not yet discounted, and every connection is in exactly one place |
| PoolThreads.ReleaseNeverBlocks | pool.go:118-124 | with at most maxSize + 1 creating at once a Release always has room |
| PoolScenarios.ReleaseCanBlock | pool.go:47-122 | for every maxSize, maxSize + 2 operations creating at once can leave a Release facing a full channel |
| PoolScenarios.NoReleaseBlocksIff | pool.go:47-122 | for every maxSize, no Release ever waits with at most k operations creating at once if and only if k is at most maxSize + 1 |
| LoadBalancer.Balancer.ByActive | load_balancer.go:55-72 | the loop finds the last least-active node and hands over to round robin when that is the last of the list |
| LoadBalancer.Balancer.ByRandomWeight | load_balancer.go:98-115 | the node of the weighted scan; no positive total has no draw |
| LoadBalancerTheorems.TakeTurns | load_balancer.go:117-122 | as many calls as there are nodes return the node list rotated to where the counter stands: every node exactly as often as it is listed |
| LoadBalancer.Balancer.GetNode | load_balancer.go:32-53 | by strategy: a least-active node unless the counter moved, the node of the counter, of the draw or of the hash; errors for an empty list and an unknown strategy |
| LoadBalancerTheorems.SameHash | load_balancer.go:91-96 | the same hash on the same list gives the same node, whatever draws and counters |
| LoadBalancerTheorems.EveryHash | load_balancer.go:91-96 | the hashes below the number of nodes give every node, whatever the draw |
| LoadBalancerTheorems.EveryDraw | load_balancer.go:74-80 | the draws below the number of nodes give every node, whatever the hash |
| LoadBalancerTheorems.EveryWeightedDraw | load_balancer.go:98-115 | over all draws below the total weight, weighted selection gives each node as often as DrawCount says |
| LoadBalancer.Arrive | service_client.go:128-161 | GetNode with the least-active strategy and a session on its node raise exactly that node's Active |
| LoadBalancerTheorems.PicksLeastIff | load_balancer.go:55-72 | the picked node is least active if and only if the last index is not a minimum or round robin lands on a minimum |
| LoadBalancerTheorems.CanPickBusiest | load_balancer.go:67-69 | a load for which the busiest node is picked |
| LoadBalancerTheorems.ArrivalsBalance | load_balancer.go:55-72 | from equal loads, k arrivals give each of n nodes k / n or one more, from any counter |
| LoadBalancerTheorems.ArriveTimes | service_client.go:128-161 | the same for k requests on the node objects themselves |
| LoadBalancerTheorems.RoundRobinCovers | load_balancer.go:117-122 | among those picks every index comes up exactly once, wherever the counter starts |
| LoadBalancerTheorems.DrawCount | load_balancer.go:105-113 | the draws choosing a node number its weight, one more for the first node, one less for the node completing the total |
| LoadBalancerTheorems.WeightedShares | load_balancer.go:98-115 | the shares sum to the total, differ from the weights by at most one, and the scan never runs out |
| Package.EncodeWithBodyData | easy_package.go:261-302 | fails exactly on an unknown format or unencodable head; otherwise byte by byte: 2, the format, the two lengths most significant byte first, the head as the format's codec writes it, the body, 3 |
| Package.EncodeWithBody | easy_package.go:212-259 | the same with the body encoded by the format's codec |
| Package.FrameParts | easy_package.go:140-149 | header fields, head, body and end mark of a frame are exactly where the decoder looks and fill it |
| Package.RoundTrip | easy_package.go:140-168 | decoding an encoded package returns its format, head and body |
| Package.FrameLayout | easy_package.go:296-299 | the same layout of every frame, in numbers |
| Package.WordRoundTrip | easy_package.go:298-299 | the length words are read back as written |
| Package.DecodeInNumbers | easy_package.go:140-168 | for any bytes whose lengths do not wrap: too few panic, a format other than 0 and 1 is an error, an unreadable head is an error, else the package sliced at the lengths in numbers |
| Package.SeqCodecInverse | easy_package.go:224-227 | a concrete codec for numbers satisfies the inverse hypothesis |
| PlainCodec.HeadCodecInverse | easy_package.go:224-227 | so does a concrete codec for whole heads |
| Connection.Read | easy_connection.go:90-140 | the loop dispatches exactly the frames of the recursive description, for any input and cuts; each has marks 2 and 3, format 0 or 1, an admissible head length and the length its big-endian words say |
| Connection.BodyLengthNeverRefused | easy_connection.go:107-122 | the header checks accept exactly the known formats with an admissible head length, whatever the body length |
| Connection.PkgLenExact | easy_connection.go:123-123 | the 32-bit frame length is right if and only if the lengths keep to the bound |
| Connection.SentIsWellFormed | easy_connection.go:102-138 | every frame of the encoder passes every check of Read |
| Connection.DispatchesWhole | easy_connection.go:90-140 | exactly the first frames are dispatched, up to the first that has not all arrived or whose read was cut short |
| Connection.EasyConnection.Send | easy_connection.go:35-44 | an open connection queues the package last, a closed one drops it |
| Connection.EasyConnection.WriteNext | easy_connection.go:50-77 | a nil ends the loop; the oldest package goes to the wire, whole or up to the failure that ends the loop |
| Connection.EasyConnection.EndRead | easy_connection.go:80-86 | the end of the read loop closes the connection and tells the Write loop to end after what is queued |
| Connection.Carry | easy_connection.go:35-140 | a single queued package, written and read whole, is the one frame dispatched on the other side |
| Connection.EasyConnection.DispatchedArePrefix | easy_connection.go:35-140 | whatever has arrived and however reads are cut, what is dispatched is an initial run of what was queued |
| Connection.EasyConnection.AllDispatched | easy_connection.go:35-140 | with everything written, arrived and read whole, it is all that was queued |
| ConnectionTable.Borrow | service_client.go:153-157 | Acquire and Release together: a usable connection that the pool has back, and none only if no idle one is usable and the dial fails |
| ConnectionTable.PoolTable.Connect | service_client.go:135-159 | a pool is made and filled for an address first used; the connection is usable and in that address's pool, and there is none exactly if the address cannot be reached |
| ServiceClient.ServiceClient.Route | service_client.go:109-159 | the node decided on and a usable connection of that node's pool, or the reason to refuse; only balancer and pools change |
| ServiceClient.ServiceClient.KeyNamesNode | service_client.go:118-131 | a request with a route key goes to the node its hash names, and is refused only if that one cannot be reached |
| ServiceClient.ServiceClient.SameKeySameNode | service_client.go:118-131 | two requests with route keys of the same hash go to the same node, whatever counters, draws and strategies |
| ServiceClient.ServiceClient.HashUnused | service_client.go:116-120 | without a key the hash has no influence unless hashing is the strategy |
| ServiceClient.ServiceClient.StrategySelects | service_client.go:116-131 | without a key the client's own strategy selects |
| ServiceClient.ServiceClient.PlanRefuses | service_client.go:109-156 | the refusals by their guards: 1001 for a foreign service, no manager, an empty list, an unknown strategy and unreachable nodes, 1002 exactly for an unknown service |
| ServiceClient.ServiceClient.RequestAsyncWithHead | service_client.go:107-190 | the refusals with their codes, which change no session, load or head; a keyed request on the node of its hash; any request not refused is numbered into its head, counted on the chosen node only, and either registered, queued as its frame on a usable connection and given the session's open channel, or, if it cannot be encoded, taken out of the table, still counted, and never returns |
| Exchange.ReplyArrives | service_handler.go:92-101 | a reply's frame passes every check of the reader, and the client reads off it exactly the number, code and body the handler answered with |
| Exchange.Settle | service_client.go:192-207 | a reply under the number of a registered open session is the one value on that session's channel, which is then closed, and the load drops by one |
| Exchange.Start | service_client.go:107-190 | a request that is not refused and can be encoded leaves a registered open session, one more on the node's load and just its own frame in the channel |
| Exchange.Complete | service_client.go:192-207 | from there, through write loop, wire, read loop, chain and all the way back: the caller's closed channel carries the service's own code and body (or 1002 and the empty object) under the caller's number, the number is out of the table and the load one lower |
| Exchange.PlainWirePasses | easy_package.go:212-302 | with the concrete codecs such an exchange is possible for any head of ordinary size and any number but 0 |
| ServiceChain.ServiceContext.AddMiddleware | service_context.go:53-67 | the element goes last in its service's list and is linked from the one before; the list stays acyclic and linked in order, other services keep theirs |
| ServiceChain.ServiceHandler.constructor | service_handler.go:19-43 | following Next from element 0 visits the registered elements in order and then the handler's own, also when none is registered |
| ServiceChain.ServiceHandler.Dispatch | service_handler.go:45-68 | an undecodable frame goes nowhere; otherwise each middleware runs the rest of the chain as often as it calls the next, and one reply is queued for each time the last link is reached, if it can be encoded and the client's connection is open |
| ServiceChain.ServiceHandler.OnRequest | service_handler.go:70-102 | the queued frame decodes to: for an unknown method 1002, its message and the empty object; for a known one the service's own code, message and body, in the format it chose, under the request's number; or the head the service put in |
| ServiceChain.ServiceKeepsHead | service_handler.go:58-101 | a reply keeps the protocol's correlation condition if and only if the service kept the number |
| ServiceChain.AllPass | service_handler.go:61-61 | when all call the next once, every middleware runs once in order and then the handler |
| ServiceChain.StopsAt | service_handler.go:61-61 | a middleware that does not call the next ends the run there |
| ServiceChain.AnswerCount | service_handler.go:61-61 | a request is answered as often as the product of how often each middleware calls the next |
| ServiceChain.RunsWhole | service_handler.go:28-61 | a chain in which every middleware calls the next once runs all of them in order, then the last link, and answers once |
| ServiceChain.Serve | service_context.go:96-101 | from a context's list to the client: a request runs through the middlewares registered for the service, in that order, and then the handler |

## Left out

- etcd, watching, leases and registration (`service_register.go`, network parts of `node_manager.go`): foreign calls; a reload only appears as new node objects with Active 0.
- The TCP stack, HTTP and the goroutine pools: nondeterministic steps that delay, reorder, duplicate or drop; a send into a full or closed write channel is not modelled as blocking or panicking.
- JSON and msgpack: parameters assumed to be inverse; `DecodeWithBody` and the getters and setters of heads and packages.
- CRC32 and `rand`: arbitrary numbers.
- Connection.DispatchesWhole: assumes that a 10-byte header is read whole unless the stream ends, because the code does not loop on a short header read.
- Pool.GenericPool.Shutdown: for a pool that nobody else is using; Acquire or Release racing with it meets a closed channel.
- Pool.GenericPool.constructor: a negative size with no positive maximum, for which making the channel panics.
- Pool.GenericPool.getOrCreate: with no other thread a wait on a full pool always times out; waiting for another's Release is in PoolThreads.
- SessionManager.EasySessionManager.DestorySessionAndRespPkg: the method assumes its caller is ready to receive; blocking and interleaving are in SessionProtocol.
- LoadBalancer.Balancer.ByRoundRobin: the 64-bit counter is unbounded here, and the balancer is used by one thread at a time, as it has no lock.
- LoadBalancerTheorems.WeightedShares: weights are non-negative with a positive total.
- Breaker.CbInfo.Call: float32 rounding of rates and ratios is not modelled.
- Sequence numbers after 2^64 sessions on one client: the reuse of numbers and the refused number 0 are outside the reachable states considered.
- ServiceClient.ServiceClient.RequestAsyncWithHead: one caller at a time; the node list, draws, the routing hash, the clock and dials are parameters, bodies are given as bytes, and the timer goroutine and the mutex a blocked caller holds are only in SessionProtocol.
- Exchange.Complete: starts from what Start leaves, with nobody else interfering and frames read whole; interleaving is in SessionProtocol, cut reads in Connection.
- ServiceChain.ServiceHandler.Dispatch: a service answers each run of the same request alike, and middlewares do not write replies of their own.
- Connection.EasyConnection.WriteNext: the closed channel, which the loop never sees because a nil goes before it.
- Package.Head: token, uid, request address and trace number of a head are only carried, and left out.
- The error mapping of `Request`.
- A second NewServiceHandler, or AddMiddleware after it, for the same list: it would relink the last element.
- `easy_config.go`, `gateway_handler.go`, `http_handler.go`, `apm_monitor.go`, `utils.go` and the examples: easy members or foreign I/O.

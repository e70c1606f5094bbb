# aoni: a verified model of its concurrent and stateful core

aoni is an HTTP client for Go. This project models, in Dafny, the parts of it whose correctness is not visible from
one function body: protocols between goroutines, caches and indexes that must agree with a simple specification, loops
with wrapping or saturating arithmetic, and parser/printer pairs. Every statement is for all inputs, all runs or all
histories; no input size, number of goroutines or run length is bounded.

One module per component:

| module | component |
|---|---|
| `H3Engine` | HTTP/3 connection pool: single-flight dial promises racing with `Close` and `CloseIdleConnections` |
| `Hedging` | the two-attempt hedging race with its drain goroutine and one-shot context cleanup |
| `ReAuth` | the re-authentication barrier with generations, and the replay loop around it |
| `PacEngine`, `PacText` | the PAC engine's result cache under a read-write lock; PAC result text and directives |
| `DnsCache` | fresh hits, negative caching, NXDOMAIN cut, serve-stale and eviction |
| `DomainTrie` | the reverse-domain trie on linked nodes, against a flat list of patterns |
| `CookieJar` | the partitioned in-memory cookie jar, isolated by proxy |
| `RttTracker` | the round-trip-time ring buffer with its dirty-flagged sorted copy, and the hedging delay |
| `Redirects` | the redirect chain |
| `Retry` | the retry loop and Retry-After |
| `ProxyRotator` | the wrapping round-robin counter and one rotating call |
| `Fragment` | chunked socket writes |
| `GrpcWeb` | gRPC-Web framing |
| `Prelude` | shared vocabulary |

How concurrency is modelled: each critical section (lock to unlock) and each channel operation is one atomic step on a
state value. The class of a component carries the same sections as code that updates fields, and its methods are
proved equal to those steps; `Next` interleaves the steps of any number of goroutines, and `Run` is a whole
interleaving. The theorems about runs rest on an invariant that every step keeps. Loops over a Go map take its entries
in an arbitrary order. Results of I/O, clocks, timers and jitter are arbitrary values.

Properties that the code does not have on every input, and exactly when it has them:

- The hedging winner keeps its context if and only if the response identifies the attempt's own context
  (`Hedging.WinnerKeepsItsContextExactlyWhenIdentified`, with the run `Hedging.ForeignContextLosesTheWinner`).
- DNS eviction, interleaved with lookups, is invisible on every run whose deletions hit no live entry, if and only if
  the configured maximum stale TTL is at least -1ns (`DnsCache.EvictionInvisibleExactlyWhen`, with the run
  `DnsCache.NegativeRetentionIsVisible`). Over all runs it never is: a store between inspection and deletion is lost
  (`DnsCache.DisturbedDeletionIsVisible`, `DnsCache.EvictionShowsOnSomeRun`). A single deletion shows in the next
  lookup of the host if and only if the entry still matters then (`DnsCache.DeletionShowsExactlyWhen`).
- Every response of a hedging race that is not returned is closed if and only if no error that the loop received came
  together with a body (`Hedging.OpenBodiesAreAccountedFor`, with the run `Hedging.ErrorBodyIsDropped`).
- A cookie lives as long as section 5.3 of RFC 6265 says if and only if it has no positive Max-Age or its Expires says
  the same (`CookieJar.LifetimeIsStandardExactlyWhen`): the jar never turns Max-Age into an expiry.
- A rotating call visits every proxy once if and only if the pool size passes the power-of-two test or the counter
  does not wrap inside the call (`ProxyRotator.RotationIsEvenExactlyWhen`).
- Two hosts can share a PAC cache entry if and only if one of them ends in a bar and the other one
  (`PacEngine.KeysShareExactlyWhenClashing`). In every environment (glob, subnet test, URL parser) that knows a proxy,
  the engine never answers or routes wrong for a set of hosts if and only if no two of them clash in this way
  (`PacEngine.AnswersAreRightExactlyWhenSeparate`; for any clashing pair the run `PacEngine.ClashMisroutes` has one
  host-suffix rule and two calls). Hosts without a bar are such a set.
- A PAC directive list survives printing and parsing if and only if it is non-empty and each directive is well formed
  (`PacText.RoundTripExactlyWhenWellFormed`).
- A gRPC-Web stream round-trips if and only if every length comparison survives its truncation to 32 bits; below 2^32
  bytes it always does (`GrpcWeb.RoundTripExactlyWhenSurviving`, `GrpcWeb.RoundTrip`).
- The retry loop's condition can fail if and only if the limit is below 2^32 - 1 (`Retry.LoopIsBoundedExactlyWhen`),
  and a run leaves a response unclosed that it does not return if and only if what it meets makes it find the context
  done at the top of a round while it holds a response (`Retry.LeftUnclosed`, with the run
  `Retry.CancellationDropsTheResponse`).
- A fragmented write returns whatever it meets if and only if it stays out of the size loop, has nothing to write, or
  draws positive chunk sizes. Otherwise it returns exactly when the size is zero and the inner connection reports an
  error on an empty write (`Fragment.WriteReturnsExactlyWhen`).
- A cookie goes to the hosts that sections 5.3 and 5.4 of RFC 6265 name if and only if it has a Domain attribute or
  the host is not below the one it came from (`CookieJar.GoesByStandardExactlyWhen`): the jar does not remember that a
  cookie is host-only, so such a cookie also goes to subdomains (`CookieJar.HostOnlyCookiesReachSubdomains`).
- The hedging delay agrees with the formula documented beside `Multiplier` if and only if the bounds do not cross
  (`RttTracker.Bounded`). Where they cross, the model follows the code: the lower bound wins.

Where documentation and code disagree otherwise: `FromStd` drops SameSite and Partitioned, so a returned cookie no
longer says that it was partitioned; the model stores what the code stores.

## Model

| member | source | states |
|---|---|---|
| `H3Engine.Engine.Reserve` | h3_engine.go:242-293 | The locked section at the head of the loop, as an update of the engine's fields, is exactly the pool step that the interleaving uses |
| `H3Engine.Engine.Settle` | h3_engine.go:300-327 | The locked section after the dial frees the address, and publishes, fails or hands over for discarding; nothing else changes |
| `H3Engine.Engine.CloseIdleConnections` | h3_engine.go:432-441 | Whatever order the map gives, exactly the pooled connections are shut and the pool is emptied |
| `H3Engine.Engine.Close` | h3_engine.go:444-468 | Whatever order the maps give, the fixed and all pooled connections are shut, all pending dials cancelled, both maps emptied |
| `H3Engine.StepKeepsInv` | h3_engine.go:215-329 | Every atomic step of every goroutine keeps the pool invariant (promises, connections, addresses, program counters) |
| `H3Engine.RunKeepsInv` | h3_engine.go:215-329 | The invariant and one dialer per address hold in every state of every interleaving |
| `H3Engine.OneDialerPerAddress` | h3_engine.go:253-297 | At no moment do two goroutines dial the same address |
| `H3Engine.DoneClosedExactlyOnce` | h3_engine.go:300-325 | A promise's channel is open exactly while its maker has yet to settle it, and is then closed once, never twice |
| `H3Engine.WaitersAreNeverStranded` | h3_engine.go:253-274 | A waiting caller can wake, or waits for a goroutine that can still move |
| `H3Engine.OpenConnectionsAreAccountedFor` | h3_engine.go:296-327 | Every open connection is the fixed one, pooled under its own address, or held by its unpublished dialer |
| `H3Engine.CloseLeavesNothingOpen` | h3_engine.go:444-468 | Once Close has run and all dialers have finished, no connection is left open |
| `H3Engine.ClosedIsFinal` | h3_engine.go:215-251 | After Close no later step gives a caller a connection, and every running dial is cancelled |
| `H3Engine.ConnectionsMatchTheirOrigin` | h3_engine.go:233-269 | A caller only ever gets the fixed connection or one dialled to its own address |
| `H3Engine.HandedOverIsOpen` | h3_engine.go:223-265 | A connection taken from the engine, the pool or a promise is open when it is handed over |
| `H3Engine.FastPathDecides` | h3_engine.go:216-240 | Under the read lock a caller gets the pooled connection if and only if that one is open, else goes on to the loop |
| `H3Engine.LoopDecides` | h3_engine.go:242-293 | At the head of the loop a caller gets the pooled connection iff it is open, else waits iff a dial is pending, else dials with the pending promise |
| `H3Engine.DialerDecides` | h3_engine.go:300-327 | After the dial the address is free; a failure is reported, a success pooled, put into the promise and announced, or discarded once closed |
| `H3Engine.WaiterDecides` | h3_engine.go:259-273 | A woken waiter gets the promise's connection iff it is open, else tries again or gives up |
| `H3Engine.IdleCloseShutsThePool` | h3_engine.go:432-441 | Closing idle connections shuts exactly the pooled ones and leaves dials and promises alone |
| `Hedging.Race.constructor` | pipeline/resilience.go:323-353 | The state in which the select loop is entered |
| `Hedging.Race.CleanUp` | pipeline/resilience.go:444-460 | Only the first call cancels: the loser's context, or both |
| `Hedging.Race.TimerFired` | pipeline/resilience.go:361-367 | The timer starts the second attempt once |
| `Hedging.Race.AcceptWinner` | pipeline/resilience.go:395-417 | The winner's arm: drain the rest, cancel the other context, wrap the body |
| `Hedging.Race.ResultReceived` | pipeline/resilience.go:369-388 | The receive arm as one step of the interleaving |
| `Hedging.StepKeepsInv` | pipeline/resilience.go:318-463 | Every step of loop, senders, drain goroutine and body close keeps the race invariant |
| `Hedging.RunKeepsInv` | pipeline/resilience.go:318-463 | The invariant holds in every state of every run |
| `Hedging.NoSenderBlocks` | pipeline/resilience.go:323-323 | A sender always finds a free slot in the two-slot channel |
| `Hedging.ActiveCountIsExact` | pipeline/resilience.go:353-390 | `activeCount` is launched minus received, which is the number of results in flight |
| `Hedging.ErrorExitMeansBothFailed` | pipeline/resilience.go:377-393 | An error exit that is no cancellation comes after both attempts failed and carries the first error received |
| `Hedging.NothingIsLeftBehind` | pipeline/resilience.go:338-375 | Every launched attempt is returned, was an error received, or is drained; the drain goroutine always has something to wait for |
| `Hedging.OpenBodiesAreAccountedFor` | pipeline/resilience.go:343-350 | After draining, the open bodies are the winner's and those that came with a received error; so all others are closed if and only if there is no such error |
| `Hedging.ErrorBodyIsDropped` | pipeline/resilience.go:377-388 | A run that leaves the body of a failed attempt open |
| `Hedging.WinnerKeepsItsContextExactlyWhenIdentified` | pipeline/resilience.go:395-417 | Before its body is closed the winner's context is live and the loser's cancelled, if and only if the response identifies its attempt |
| `Hedging.OtherExitsCancelBoth` | pipeline/resilience.go:325-326 | Nothing is cancelled while the loop runs; an exit without a winner cancels both contexts |
| `Hedging.ForeignContextLosesTheWinner` | pipeline/resilience.go:403-407 | A concrete run in which a response made under another context makes the winner's own context be cancelled |
| `Hedging.TimerLaunchesTheSecond` | pipeline/resilience.go:361-367 | The timer launches the second attempt beside the first, once; after that it changes nothing |
| `Hedging.ReceiveDecides` | pipeline/resilience.go:369-388 | A received response wins; a received error goes on, and launches the second attempt at once if nothing is in flight |
| `Hedging.CancellationDrainsTheRest` | pipeline/resilience.go:357-359 | A done request context ends the race and drains everything in flight |
| `ReAuth.ReauthBarrier.Arrive` | middleware/reauth.go:47-75 | The first locked section of `execute`: settle, wait, or become the refresher |
| `ReAuth.ReauthBarrier.Complete` | middleware/reauth.go:79-84 | The locked section after the refresh |
| `ReAuth.StepKeepsInv` | middleware/reauth.go:40-138 | Every step of every caller keeps the barrier invariant |
| `ReAuth.RunKeepsInv` | middleware/reauth.go:40-138 | The invariant holds in every state of every interleaving |
| `ReAuth.OneRefreshAtATime` | middleware/reauth.go:56-82 | At no moment do two callers run the refresh |
| `ReAuth.OneRefreshPerGeneration` | middleware/reauth.go:73-81 | No two refreshes of a run start in the same generation |
| `ReAuth.SharedResultIsLatest` | middleware/reauth.go:49-66 | A caller served by the barrier gets the outcome of the latest completed refresh, completed after its generation snapshot |
| `ReAuth.WaitersAreNeverStranded` | middleware/reauth.go:56-83 | A waiter can wake, or the refresh it waits for is still running |
| `ReAuth.EveryReplayHasItsOwnRefresh` | middleware/reauth.go:109-135 | At most MaxRetries replays, and the n-th only after at least n refreshes succeeded since the first send |
| `ReAuth.CallsTakeASnapshot` | middleware/reauth.go:110-111 | A call notes the refreshes completed before it is first sent |
| `ReAuth.CallersDecide` | middleware/reauth.go:47-75 | A triggering reply with replays left goes to the barrier, any other is handed back; there a caller settles, waits or refreshes, each exactly when it must |
| `ReAuth.RefreshOutcomeDecides` | middleware/reauth.go:126-133 | A failed refresh is returned; after a good one the request is sent again with a new snapshot |
| `ReAuth.CompletionIsAnnounced` | middleware/reauth.go:79-86 | A finished refresh frees the barrier and lets everyone waiting wake |
| `PacEngine.KeyInjective` | proxy/pac.go:162-162 | Two calls with the same key are the same call, or their hosts clash |
| `PacEngine.KeysShareExactlyWhenClashing` | proxy/pac.go:162-162 | Two different hosts can share a cache entry if and only if one of them ends in a bar and the other |
| `PacEngine.BarFreeHostsAreSeparate` | proxy/pac.go:162-162 | No two hosts without a bar clash |
| `PacEngine.PACEngine.constructor` | proxy/pac.go:137-146 | An empty default route means DIRECT |
| `PacEngine.PACEngine.AddRule` | proxy/pac.go:149-157 | The rule is appended and the cache emptied |
| `PacEngine.PACEngine.FindProxyForURL` | proxy/pac.go:161-183 | The cached answer, or first-match evaluation of the rules, which is then cached |
| `PacEngine.StepKeepsInv` | proxy/pac.go:149-183 | For any set of hosts no two of which clash, every step of every reader and writer keeps the lock, cache and answer invariant |
| `PacEngine.RunKeepsInv` | proxy/pac.go:149-183 | The invariant holds in every state of every interleaving |
| `PacEngine.CacheIsNeverStale` | proxy/pac.go:149-183 | For such hosts, whenever no writer holds the lock, every cache entry is first-match evaluation of the current rules |
| `PacEngine.AnswersWereInForce` | proxy/pac.go:161-183 | For such hosts, a call returns what a rule list said that was in force between its start and its return |
| `PacEngine.OneRuleTellsApart` | proxy/pac.go:222-290 | In every environment, one rule by host suffix matches exactly one of two calls for clashing hosts |
| `PacEngine.ClashMisroutes` | proxy/pac.go:161-220 | In every environment and for any two clashing hosts, a run with one rule and two calls whose second answer routes as no rule list ever said |
| `PacEngine.AnswersAreRightExactlyWhenSeparate` | proxy/pac.go:149-220 | In every environment that knows a proxy, every answer (and every route) of every run for a set of hosts was in force during its call, if and only if no two of the hosts clash |
| `PacEngine.FirstMatchDecides` | proxy/pac.go:170-182 | The first rule that matches decides, and the default route if none does |
| `PacEngine.RuleMeaning` | proxy/pac.go:222-290 | When a rule matches, letter by letter: "local" hosts, dotted suffixes, whole and first-label matches, pattern and subnet |
| `PacText.ItemRoundTrip` | proxy/pac.go:40-99 | A well-formed directive's text has no semicolon and parses back to the directive |
| `PacText.ItemIsWellFormed` | proxy/pac.go:59-99 | Whatever one part between semicolons parses to is well formed |
| `PacText.PartOfTwoWords` | proxy/pac.go:59-99 | What a part of two words means however it is spaced and in whatever case: DIRECT, or kind, address and URL with its scheme |
| `PacText.PartOfOneWord` | proxy/pac.go:60-74 | A part of one word is DIRECT, a blank one nothing |
| `PacText.SplitJoins` | proxy/pac.go:56-56 | The parts joined by semicolons are the text, and none holds one |
| `PacText.ParsePACResult` | proxy/pac.go:50-107 | The parsing loop computes the parse function and never gives an empty list |
| `PacText.ParseIsTotal` | proxy/pac.go:50-107 | Any text gives a non-empty list of well-formed directives |
| `PacText.RoundTripExactlyWhenWellFormed` | proxy/pac.go:40-107 | Parsing the joined texts gives the list back if and only if it is non-empty and well formed |
| `PacText.NormalFormIsStable` | proxy/pac.go:40-107 | Printing what was parsed and parsing it again changes nothing |
| `DnsCache.NxAncestor` | dns/cache.go:178-200 | Finds an error if and only if some dot-suffix from that position on holds a fresh NXDOMAIN |
| `DnsCache.InMemoryDNSCache.CheckAncestorNXDOMAIN` | dns/cache.go:178-200 | The dot-to-dot scan finds the nearest such ancestor |
| `DnsCache.InMemoryDNSCache.ReadFast` | dns/cache.go:204-231 | The reads on entry, as the step of the interleaving: fresh hit, recheck window, cut, or nothing |
| `DnsCache.InMemoryDNSCache.ReadInBody` | dns/cache.go:233-261 | The reads of the single-flight body, and the entry it may serve stale |
| `DnsCache.InMemoryDNSCache.StoreAnswer` | dns/cache.go:267-363 | What the body stores and returns once upstream answered, whatever the cache holds by then |
| `DnsCache.InMemoryDNSCache.LookupIPAddr` | dns/cache.go:204-334 | The three sections one after the other with nothing in between |
| `DnsCache.InMemoryDNSCache.PurgeExpired` | dns/cache.go:166-175 | A pass with nothing in between, in whatever order the map gives: exactly the entries past their stale limit go |
| `DnsCache.EvictionInvisibleFrom` | dns/cache.go:166-334 | Worlds that differ only in dead entries give the same answers and upstream queries for every future interleaving, with and without its eviction steps |
| `DnsCache.NoStoreIsUndisturbed` | dns/cache.go:168-170 | If no key is stored between its inspection and its deletion, no deletion hits a live entry |
| `DnsCache.NegativeRetentionIsVisible` | dns/cache.go:318-325 | With a retention below -1ns, a run in which the pass deletes an entry that is still fresh |
| `DnsCache.DisturbedDeletionIsVisible` | dns/cache.go:166-175 | For any other retention, a run in which a store between inspection and deletion is lost |
| `DnsCache.EvictionInvisibleExactlyWhen` | dns/cache.go:166-334 | Eviction is invisible on every run whose deletions hit no live entry, if and only if the retention is at least -1ns |
| `DnsCache.EvictionShowsOnSomeRun` | dns/cache.go:166-334 | Over all runs it is visible, whatever the configuration |
| `DnsCache.DeletionShowsExactlyWhen` | dns/cache.go:204-334 | The next lookup of a host can tell that its entry was deleted if and only if the entry is fresh, in its recheck window, or could be served stale, and the cut does not give the same answer |
| `DnsCache.EntriesAreLogged` | dns/cache.go:283-363 | After any interleaving every positive entry, and every entry a waiting lookup may serve stale, is an upstream answer for its own host, with its limits |
| `DnsCache.CachedAnswersAreGenuine` | dns/cache.go:204-334 | After any interleaving, addresses from cache are an upstream answer for that host before its fresh limit, or its stale limit when serving stale |
| `DnsCache.CutExactlyBelowNxDomain` | dns/cache.go:226-252 | Without fresh entry or recheck window, no upstream query and a negative answer if and only if negative caching is on and a proper dot-suffix holds a fresh NXDOMAIN |
| `DnsCache.NotFoundIsRepeatedExactlyUntil` | dns/cache.go:207-301 | A not-found answer is given again without a query exactly before its time plus the negative TTL, 300s by default |
| `DnsCache.NxDomainCutsBelowExactlyUntil` | dns/cache.go:178-301 | Until then a missing name refuses every host below it, and a host with missing data refuses none |
| `DnsCache.AddressesAreRepeatedExactlyUntil` | dns/cache.go:207-363 | Addresses are given again without a query exactly before the TTL, 30s by default and at least 5s for records |
| `DnsCache.StaleIsServedExactlyUntil` | dns/cache.go:219-310 | With upstream out of reach, old addresses are served iff that is on and the stale limit not passed, then 30s more without asking |
| `DnsCache.RecordsErrorServesStale` | dns/cache.go:275-280 | A failing record lookup serves stale before the plain resolver is asked |
| `DnsCache.AnswerFollowsUpstream` | dns/cache.go:267-327 | Otherwise the answer is what upstream said |
| `DomainTrie.Node.SetChild` | trie/domain.go:52-74 | One link is set, every other stays |
| `DomainTrie.Trie.Reach` | trie/domain.go:50-74 | The walk from the root reaches the node of the reversed pattern, making missing nodes, and changes no stored value |
| `DomainTrie.Trie.Insert` | trie/domain.go:39-78 | Walking and extending linked nodes stores the value under the reversed pattern and changes no other pattern |
| `DomainTrie.Trie.MatchNode` | trie/domain.go:98-131 | The backtracking search over nodes agrees with the search over the stored patterns |
| `DomainTrie.Trie.Match` | trie/domain.go:82-95 | A lookup answers with the value of the pattern that search settles on |
| `DomainTrie.FindIsBest` | trie/domain.go:98-131 | The search finds a pattern if and only if one matches, and then the most specific one |
| `DomainTrie.SpecificityIsTotal` | trie/domain.go:80-81 | Of two different patterns matching one domain exactly one is more specific |
| `DomainTrie.TableHoldsLast` | trie/domain.go:76-77 | The stored patterns are the inserted ones, each with its last value |
| `DomainTrie.LookupAgreesWithInsertions` | trie/domain.go:39-131 | For any insertions, a lookup succeeds if and only if some pattern matches, with the last value of the most specific |
| `DomainTrie.ReverseAt` | trie/domain.go:88-89 | A lookup goes through the labels from the last to the first |
| `DomainTrie.PathAt` | trie/domain.go:52-74 | So does an insertion, with "*" as the wildcard step |
| `DomainTrie.MatchesMeansCovers` | trie/domain.go:98-131 | A pattern matches iff, from the right, each label is "*" or the domain's, and the lengths agree or a leading "*" takes the rest |
| `DomainTrie.MoreSpecificMeansBeats` | trie/domain.go:109-128 | The more specific pattern has a label where the other, from the right, first has "*" or no more |
| `DomainTrie.InsertAllAndMatch` | trie/domain.go:34-95 | On linked nodes and labels as written: a lookup succeeds iff a pattern covers the domain, with the last value of the one that beats all others; a literal pattern finds its own last value |
| `CookieJar.DomainMatchMeaning` | cookie/cookie.go:246-265 | Same name, or no address literal and the host ends in a dot and the domain (both directions) |
| `CookieJar.PathMatchMeaning` | cookie/cookie.go:172-196 | Same path, or a proper prefix that stops at a slash (both directions) |
| `CookieJar.LifetimeIsStandardExactlyWhen` | cookie/jar.go:221-223 | A cookie expires when the standard says, if and only if it has no positive Max-Age or Expires says the same |
| `CookieJar.GoesByStandardExactlyWhen` | cookie/memory_jar.go:52-114 | A stored cookie goes to a host exactly when the standard says, if and only if it has a Domain attribute or the host is not below its own |
| `CookieJar.HostOnlyCookiesReachSubdomains` | cookie/memory_jar.go:52-114 | A live cookie without Domain attribute, for the root path and any scheme, is sent to every host below its own |
| `CookieJar.ReceivedIsSentExactlyWhen` | cookie/memory_jar.go:45-131 | From receipt to request, in plain terms: acceptance, lifetime, partition, host, path and scheme, both ways, and the fields kept |
| `CookieJar.MemoryJar.Take` | cookie/memory_jar.go:51-85 | One received cookie is refused, deletes its key, or replaces what its key holds |
| `CookieJar.MemoryJar.SetCookies` | cookie/memory_jar.go:45-89 | All cookies of a reply are taken in order, then expired ones purged; every cookie stays under its own key |
| `CookieJar.MemoryJar.PurgeExpired` | cookie/jar.go:241-253 | Exactly the expired cookies go |
| `CookieJar.MemoryJar.Cookies` | cookie/memory_jar.go:92-131 | Each unexpired cookie that partition, domain, path and scheme admit, exactly once, longest path first |
| `CookieJar.Collect` | cookie/memory_jar.go:101-126 | The filtering loop lists exactly the admitted cookies, whatever order the map gives |
| `CookieJar.SortForBrowser` | cookie/cookie.go:419-428 | The same cookies, ordered by non-increasing path length, those of equal length in the order they came |
| `CookieJar.PartitionsAndProxiesDoNotInterfere` | cookie/jar.go:107-124 | Deleting other partitions' partitioned cookies and other proxies' operations from a history leaves the returned cookies unchanged |
| `CookieJar.JarIsLastWrite` | cookie/memory_jar.go:45-131 | What a jar holds live under a key is the last accepted cookie received for it |
| `CookieJar.CookiesAreTheLastOnesReceived` | cookie/memory_jar.go:45-131 | A request gets, per key, the last accepted cookie of its proxy if it is unexpired and may be sent, and nothing else |
| `RttTracker.RTTTracker.constructor` | telemetry/rtt.go:97-107 | An empty window; a capacity that is not positive means 100 |
| `RttTracker.RTTTracker.Record` | telemetry/rtt.go:110-136 | A positive sample joins the history, and the ring, the minimum, the smoothed value and the dirty flag keep the tracker valid |
| `RttTracker.RTTTracker.Percentile` | telemetry/rtt.go:139-165 | The nearest-rank percentile of the last min(n, capacity) positive samples since Reset: the sorted copy is never stale |
| `RttTracker.RTTTracker.MaxRTT` | telemetry/rtt.go:186-202 | The greatest sample of that window |
| `RttTracker.RTTTracker.Reset` | telemetry/rtt.go:238-250 | The history is empty and the tracker valid |
| `RttTracker.IndexFor` | telemetry/rtt.go:159-162 | The clamped index is one less than the clamped nearest rank |
| `RttTracker.RecordKeepsRing` | telemetry/rtt.go:118-123 | Writing at the wrapped index slides the window of last samples by one |
| `RttTracker.EntryIsPercentile` | telemetry/rtt.go:154-164 | An entry of the sorted ring is the percentile of the window, by counting smaller samples |
| `RttTracker.PercentileMeaning` | telemetry/rtt.go:138-139 | At least p percent of the samples are at or below it, fewer than p percent below it |
| `RttTracker.PercentileIsMonotone` | telemetry/rtt.go:139-165 | Percentiles do not decrease in p, and each is a single value |
| `RttTracker.StatsOfOneMore` | telemetry/rtt.go:125-133 | One more sample keeps the minimum exact and the smoothed value the moving average of the history |
| `RttTracker.SmoothMeaning` | telemetry/rtt.go:132-132 | Nine parts of the old value and one of the sample, rounded down |
| `RttTracker.SmoothedIsBetween` | telemetry/rtt.go:129-133 | The moving average lies between two of the samples |
| `RttTracker.ExtremePercentiles` | telemetry/rtt.go:159-162 | Percentiles up to 0 give the least sample and from 100 on the greatest |
| `RttTracker.Bounded` | telemetry/rtt.go:78-78 | The delay lies within its bounds, and is the documented formula if and only if the bounds do not cross |
| `RttTracker.ComputeDelay` | telemetry/rtt.go:45-79 | The lower bound below ten samples, else the scaled percentile within the normalised bounds |
| `Redirects.DeleteSensitive` | fast/cookies.go:170-173 | The loop removes the sensitive headers and no other |
| `Redirects.DeleteRepresentation` | fast/redirect.go:142-144 | The loop removes the representation headers and no other |
| `Redirects.Redirect` | fast/redirect.go:73-101 | Method, body, URI, scrubbing and Referer of the next request |
| `Redirects.ExecuteWithRedirects` | fast/redirect.go:19-105 | At most limit + 1 requests, forming a redirect chain, and the outcome its last hop gives |
| `Redirects.SensitiveHeadersStopAtTheHost` | fast/cookies.go:170-178 | A caller's sensitive header goes out if and only if no earlier redirect changed the host; Cookie likewise for leaving the domain hierarchy |
| `Redirects.MethodFollowsTheStatus` | fast/redirect.go:134-147 | Method, body and representation headers are the caller's until a 301/302/303 on a non-GET/HEAD; from then on a bare GET |
| `Redirects.RefererIsThePreviousUri` | fast/redirect.go:97-101 | Referer is the previous URI, and absent after a step from https to http |
| `Redirects.OtherHeadersAreUntouched` | fast/redirect.go:46-104 | All other headers reach every request as the caller gave them |
| `Redirects.NoCredentialCrossesHosts` | fast/redirect.go:93-95 | To another host, compared letter by letter, none of the caller's fourteen credentials goes along |
| `Redirects.ChainFollowsTheLocation` | fast/redirect.go:58-87 | A chain goes on only after a 301, 302, 303, 307 or 308 with a Location, to the URI it resolves to |
| `Redirects.EngineAddsItsShare` | fast/cookies.go:24-150 | Each request carries the jar's cookies behind the caller's, and URI credentials if it had none |
| `Retry.ParseRetryAfter` | middleware/resilience.go:307-337 | Non-negative seconds give the product with 10^9 saturated at the 64-bit maximum; never negative; exactly which values give nothing |
| `Retry.ActiveAttempts` | middleware/retry.go:332-334 | The limit is a 32-bit number, and zero if and only if a positive override is a multiple of 2^32 |
| `Retry.AllowRetryForMethod` | middleware/retry.go:240-267 | The loop and tests decide the method rule, both ways |
| `Retry.CalculateRetrySleep` | middleware/retry.go:373-385 | Exceeded exactly when the header asks for more than the limit; otherwise the header's delay if there is one |
| `Retry.BetweenAttempts` | middleware/retry.go:173-205 | Stops for the first reason in the loop's order (rewind, method rule, Retry-After limit, cancelled sleep), or says which sleep was taken |
| `Retry.Round` | middleware/retry.go:166-223 | One round extends the run by its events, or stops it for a stated reason |
| `Retry.Loop` | middleware/retry.go:166-224 | At most the limit's dispatches, each repeat allowed, the events of the whole run, and why it stopped |
| `Retry.Do` | middleware/retry.go:151-231 | The handler's response, error, dispatches, sleeps and closes |
| `Retry.AtMostOneUnclosed` | middleware/retry.go:188-211 | At every moment at most one response is unclosed; a close hits an unclosed one, and none is closed twice |
| `Retry.LeftUnclosed` | middleware/retry.go:167-191 | A run leaves unclosed what it returns (unless rewinding failed), and a response it does not return if and only if its turns make it find the context done at the top of a round while it holds one |
| `Retry.CancellationDropsTheResponse` | middleware/retry.go:167-169 | Such a run: a 503, then a context done before the second round |
| `Retry.UnsafeMethodsRepeatOnlyWhenRefused` | middleware/retry.go:240-267 | A non-idempotent request without key, list or permission is repeated only after a 429 or 425 |
| `Retry.AllowedMeaning` | middleware/retry.go:240-267 | The method rule by name: the list in whatever case, or six methods, keys, permission, 429 and 425 |
| `Retry.AutomaticKeyAllows` | middleware/retry.go:156-158 | With an automatic key every method may be repeated |
| `Retry.RepliesDecide` | middleware/retry.go:212-223 | The four fatal errors and any reply not to be retried end the run with that reply; no other does |
| `Retry.RepeatsTakeTheirTurn` | middleware/retry.go:167-205 | A repeat takes a live context, a rewound body and a finished sleep |
| `Retry.ErrorsByExit` | middleware/retry.go:167-229 | The error that goes with each way out; no attempts give no response and no error |
| `Retry.BuiltAttemptsMeaning` | middleware/retry.go:139-145 | The limit, else one more than the retries, at least one, and the truncated override |
| `Retry.SleepsFollowTheHeader` | middleware/retry.go:373-385 | A sleep is the header's saturated seconds or time left, never above MaxRetryAfter when that is set, or the backoff's |
| `Retry.LoopIsBoundedExactlyWhen` | middleware/retry.go:166-166 | The wrapping counter passes the limit at some point if and only if the limit is below 2^32 - 1 |
| `ProxyRotator.MaskIsModulo` | proxy/proxy.go:396-402 | Masking is the remainder for every size that passes the power-of-two test |
| `ProxyRotator.PowersDivide` | proxy/proxy.go:396-397 | That test picks out exactly the sizes that divide the counter's range |
| `ProxyRotator.VisitsInRange` | proxy/proxy.go:399-405 | Every computed index lies in the pool, and for powers of two is the counter modulo the size even across the wrap |
| `ProxyRotator.PowerOfTwoVisitsEachOnce` | proxy/proxy.go:399-405 | A power-of-two pool is visited without repetition from every counter value |
| `ProxyRotator.NoWrapVisitsEachOnce` | proxy/proxy.go:399-405 | Any other pool is, when the counter does not wrap inside the call |
| `ProxyRotator.WrapVisitsTwice` | proxy/proxy.go:403-405 | Otherwise two rounds of the call hit the same client |
| `ProxyRotator.RotationIsEvenExactlyWhen` | proxy/proxy.go:396-405 | Visits are without repetition if and only if one of those two conditions holds |
| `ProxyRotator.Rotator.Advance` | proxy/proxy.go:401-405 | The counter's increment and the index of the round |
| `ProxyRotator.Judge` | proxy/proxy.go:411-427 | A client serves the call if and only if it was dispatched to without proxy fault; otherwise the tallies stay exact |
| `ProxyRotator.CounterIs` | proxy/proxy.go:401-405 | After m increments the wrapping counter is its start plus m, modulo 2^32 |
| `ProxyRotator.Rotator.Search` | proxy/proxy.go:399-432 | The loop stops at the first client that serves the call, or after all rounds with exact tallies |
| `ProxyRotator.Rotator.Rotate` | proxy/proxy.go:399-442 | The clients looked at, which one served and became sticky, or why all failed |
| `ProxyRotator.Rotator.Try` | proxy/proxy.go:376-442 | The sticky try and the rotation together: clients looked at, outcome, counter and sessions |
| `ProxyRotator.Rotator.Do` | proxy/proxy.go:359-443 | The same with an empty pool, and the two facts below about the clients of an even call |
| `ProxyRotator.RoundsLookAtVisits` | proxy/proxy.go:399-409 | The rounds look at exactly the visited clients other than the sticky one |
| `ProxyRotator.NoClientTwice` | proxy/proxy.go:384-427 | For a power-of-two pool, or without a wrap inside the call, no client is dispatched to twice |
| `ProxyRotator.EachOnceReachesAll` | proxy/proxy.go:399-405 | Visits without repetition leave no client out |
| `ProxyRotator.FailedCallTriedEveryone` | proxy/proxy.go:384-442 | Then a failing call found every client unavailable or cooled down, or tried it at fault and closed its response |
| `ProxyRotator.FaultMeaning` | proxy/proxy.go:484-500 | A fault is any error but a cancelled context, or a 407, 429, 502, 503 or 504 |
| `ProxyRotator.LastErrMeaning` | proxy/proxy.go:388-424 | The error kept is that of the latest faulty dispatch |
| `ProxyRotator.FailureMeaning` | proxy/proxy.go:434-442 | Why a call failed: that error, else a cooldown met in a round, else no healthy client |
| `ProxyRotator.StickyMeaning` | proxy/proxy.go:378-394 | A known session in the pool is tried at its client first, and nothing else is |
| `Fragment.Conn.Write` | fragment/fragment.go:125-130 | Any writer that reports an error with every short write |
| `Fragment.FragmentedConn.constructor` | fragment/fragment.go:46-72 | A limit of -1 means none and 0 means 4096 |
| `Fragment.FragmentedConn.ResolveChunkSize` | fragment/fragment.go:136-144 | A jittered size lies in [min, max); otherwise the fixed size |
| `Fragment.FragmentedConn.WriteSlices` | fragment/fragment.go:92-105 | The slices reach the peer as a prefix of the buffer, whole unless an error is reported, and the first error ends the loop |
| `Fragment.FragmentedConn.WriteChunks` | fragment/fragment.go:117-133 | For every choice of sizes the loop stops, sends a prefix of the buffer, and hands on only non-empty pieces within the largest size |
| `Fragment.FragmentedConn.Write` | fragment/fragment.go:74-134 | After any writes the peer has exactly the concatenation of the reported prefixes, and `totalWritten` is their length |
| `Fragment.WholeWritesAreTransparent` | fragment/fragment.go:74-134 | Without short writes the peer has exactly the buffers |
| `Fragment.WriteReturnsExactlyWhen` | fragment/fragment.go:85-134 | A write returns whatever it meets if and only if it stays out of the size loop, has nothing to write, or draws positive sizes; otherwise exactly when the size is zero and an empty inner write fails |
| `GrpcWeb.Uint32Inverts` | mod/body.go:262-262 | Big-endian encoding and decoding of 32-bit lengths are inverse, up to the truncation of the length |
| `GrpcWeb.EncodeLayout` | mod/body.go:260-263 | On the wire: flags, four length bytes with the highest first, payload |
| `GrpcWeb.TrailerIsTheHighBit` | codec/decode/grpc.go:107-114 | The trailer mark is bit 0x80 of the flags |
| `GrpcWeb.BuildFrame` | mod/body.go:260-263 | The array filled in place is the encoding of one data frame |
| `GrpcWeb.ReadFrames` | codec/decode/grpc.go:49-78 | The re-slicing loop hands on the frames and ends as the decode function says |
| `GrpcWeb.DecodeOne` | codec/decode/grpc.go:49-70 | What one encoded frame and any bytes after it decode to |
| `GrpcWeb.DecodeOfEncoding` | codec/decode/grpc.go:49-78 | What any encoded frames and any bytes after them decode to |
| `GrpcWeb.RoundTrip` | codec/decode/grpc.go:49-78 | Below 2^32 bytes, exactly the frames up to the first trailer come back, in order |
| `GrpcWeb.RoundTripExactlyWhenSurviving` | codec/decode/grpc.go:56-58 | At any length they come back if and only if each comparison survives the truncation to 32 bits |
| `GrpcWeb.LongStreamIsRefused` | codec/decode/grpc.go:56-58 | A whole frame is refused when payload and further bytes come to exactly 2^32 |
| `GrpcWeb.DecodedIsAPrefix` | codec/decode/grpc.go:49-78 | On every input: the frames handed on encode to a prefix of it, and success if and only if they are all of it or end in a trailer |
| `GrpcWeb.CutInsideAFrame` | codec/decode/grpc.go:50-75 | A cut strictly inside a frame before the trailer is rejected, with the error of the part that was cut |
| `GrpcWeb.RoutingIsRightExactlyWhen` | codec/decode/grpc.go:236-244 | A binary stream is misrouted if and only if its flag is a letter or digit, its base64 form if and only if the flag is 248 or more |

## Left out

- Dialing, TLS, QUIC, sockets, DNS transports and the HTTP engines: each is a nondeterministic step with a result.
- Foundation, mach and seal libraries (concurrent maps, LRU, breaker, backoff, pattern slicer, URI, compression):
  their sources are not part of this model; only the contract each caller relies on is used.
- Functional options, request modifiers other than the gRPC-Web frame, the facade and typed wrappers: they would only
  add easy members.
- The response cache of pipeline/cache.go and the on-disk cookie storage: not part of this model.
- Object pools and log, HAR and curl output: not part of this model.
- Sleeping, timers and jitter: durations are arbitrary values; the values passed to user callbacks such as OnRetry are
  not modelled.
- Lower-casing and case-insensitive comparison: ASCII letters only, where Go folds all of Unicode.
- ReAuth.OneRefreshPerGeneration: generations are unbounded, so the wrap of the 64-bit counter is not modelled; a
  missing Refresh function, which makes the middleware pass everything through, is not modelled either.
- DnsCache.EvictionInvisibleExactlyWhen: one eviction goroutine, one inspected key at a time; the reads on entry are
  one step, as are those of the single-flight body, each with one clock reading that is not before a coarse time
  already used to inspect. A flight stands for all callers that share its result, and the client response timeout only
  decides what upstream answers.
- DnsCache.InMemoryDNSCache.PurgeExpired: states the pass that nothing interleaves with, like LookupIPAddr.
- DnsCache.InMemoryDNSCache.LookupIPAddr: states the call that nothing interleaves with; the interleaving is in the
  steps it is made of.
- DomainTrie.Trie.Match: works on label sequences, like Insert.
- DomainTrie.InsertAllAndMatch: works on label sequences, like Insert.
- DomainTrie.Trie.Insert: works on label sequences; trimming, lower-casing, splitting at dots and the refusal of empty
  patterns are not modelled, nor is the read-write lock.
- CookieJar.PartitionsAndProxiesDoNotInterfere: proxies are modelled on values as one jar per proxy, without a storage
  backend and without the table's limit of 10000 jars.
- CookieJar.MemoryJar.Cookies: SameSite is not modelled.
- PacEngine.CacheIsNeverStale: the resolver behind subnet rules is a fixed function.
- RttTracker.ComputeDelay: percentiles, multipliers and averages are real numbers, without rounding, infinities or
  NaN; `AverageRTT` is left out.
- Redirects.ExecuteWithRedirects: Location resolution, URI text, credentials in URIs and the domain-hierarchy test are
  parameters; header names are a closed set of known names and an open rest.
- Retry.ParseRetryAfter: the header value is given as a decimal number, a date or neither, so the digit-by-digit
  parsing is not modelled.
- Retry.Loop: excludes the limit 2^32 - 1, at which the counter wraps and the loop has no end of its own.
- Retry.Do: excludes the same limit; how a body is rewound and which errors are wrapped is reduced to success or
  failure.
- ProxyRotator.Rotator.Do: no other call advances the counter meanwhile; health trackers, cooldown clocks and session
  expiry only decide what a client is found to be, and an override of the pool by UpdateClients is not modelled.
- Fragment.FragmentedConn.WriteChunks: excludes the same calls as Write.
- Fragment.FragmentedConn.Write: calls do not interleave; the calls excluded are those that panic, or return only if
  an empty inner write fails.
- GrpcWeb.ReadFrames: what a frame's payload means (trailer status, compression, unmarshalling) is a parameter that
  accepts or refuses the frame; the streaming reader is not part of this model.

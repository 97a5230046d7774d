# ZeusDNS: a model of the forwarder and proofs about it

ZeusDNS is a local DNS forwarder: it answers from a bounded cache, races its
DoH/DoT upstreams on a miss, keeps a pool of warm TLS connections per upstream,
points the machine's DNS settings at itself while it runs, and replaces its own
binary on update. This project models the five parts whose correctness is not
visible in one function, and proves what they promise over whole runs.

`dafny verify dfyconfig.toml` checks everything.

## The parts

**Response cache** (`CacheKeys`, `CacheTtl`, `Recency`, `LruInclusion`,
`LruHistory`, `LruInputs`, `LinkedList`, `Cache`, `MessageObjects`). `Recency` says
what a bounded recency list is; `Cache` is the real thing, a map of keys to elements
of a heap-allocated ring with a sentinel, updated in place, and is proved equal to
it operation by operation. A ghost argument carries the list, or for the server the
history of calls, so the theorems of `LruInclusion`, `LruHistory` and `LruInputs`
hold of the class. The clock is a parameter, in nanoseconds. Messages that are
handed around are heap objects, so sharing and copying are part of the model.

**Query path** (`Race`, `Server`, `ServerSession`, `Singleflight`, `QueryPath`,
`Provenance`, `QueryProgress`, `QueryHistory`, `RateLimiter`, `HostnameCache`,
`HostnameProgress`, `HostnameHistory`). `Server` is one query from arrival to reply,
on shared message objects; `ServerSession` is any number of them in a row, while the
clients write what they like to the replies they hold. `QueryPath` and `Provenance`
interleave any number of clients, `QueryProgress` shows that all of them are
answered, and `QueryHistory` tells by what, from the labels of the run. `Race` is
the channel of one race. `RateLimiter` and `HostnameCache` are the two small tables
beside it.

**Connection pool** (`DotPool`, `DotPoolSafety`, `DotPoolShutdown`, `DotPoolRuns`,
`DotPoolProgress`, `DotPoolAttempts`, `DotPoolReuse`). One program counter per
goroutine; channel operations are atomic; reading the closed flag and sending on the
channel are separate steps.

**DNS takeover** (`SystemDns`, `SystemDnsHistory`, `BackupFate`, `TakeoverFate`,
`TakeoverScope`, `BootstrapDns`) and **update** (`UpdateSwap`, `UpdateSchedules`,
`Checksums`). Each method changes the durable state one effect at a time and reports
the effects in order. A crash is a prefix of them, a failure is a field of `Env`, a
history is any sequence of such runs.

## Where the code and its documentation differ

The model follows the code. These differences are proved, each with the exact
condition and a run or an input that shows it.

- The limiter is called sliding-window. It keeps that promise exactly when the
  limit is 1 (`SlidingWindowIffLimitIsOne`); in general at most twice the limit
  less one get through in a window's length, and that bound is reached
  (`BoundIsReached`).
- "After Close returns, all Exchange calls return an error": true of calls made
  after it (`ExchangeAfterCloseFails`). A call already under way can still succeed
  exactly when it is past the closed check of `getConn` and has seen no error
  (`SucceedsAfterCloseIff`; a run of a new client: `SuccessAfterClose`).
- `Close` leaves the pool empty for good exactly when no `putConn` is between its
  closed check and its send at the moment the flag is set (`PoolStaysEmptyIff`; a run
  of a new client that leaves a connection behind: `LeakFromNewClient`).
- The pool size bounds all connections except the one `Close` may just have taken
  from the pool: there can be one more than the pool size for that moment
  (`WarmedClientStaysBounded`, reached in `NineConnections`).
- A deletion of the `.old` binary that was put off to the next reboot survives into
  the next update, and can then delete the only copy (`LostBinary`, from any installed
  disk). One update may be interrupted anywhere exactly when no such deletion is due
  (`SurvivesUpdateIff`). A schedule of updates and reboots is safe, however its updates
  go, exactly when no reboot comes after two updates with no reboot between them
  (`AlwaysSafeIff`).
- The crash-resume guard keeps any existing backup file, also one whose writing was
  cut short. Exactly which histories end with such a file is `CorruptIff`; every machine
  can get there (`CutShortRun`). The takeover can then never happen again, and this is
  the only state in which it cannot (`MayTakeOverIff`, `NextRunMayTakeOverIff`).
- The TTL of the OPT pseudo-record is counted by `minTTL`, though it is not a TTL
  (section 6.1.3 of RFC 6891): a positive answer with a plain OPT record is never
  cached (`PlainOptBlocksStoring`; exactly what is stored: `StoredIff`).
- A checksum lookup takes the base name of each listed file. A name with a drive
  prefix behind a separator can therefore hide a later entry
  (`DrivePrefixShadows`, for every plain name, names of Windows assets among them;
  exactly when: `FindsOwnDigestIff`).

Two more are differences of description only, with no theorem about them:

- README.md of the repository describes ordered failover; the code races all
  upstreams, and so does the model.
- The truncation comment speaks of a retry over TCP for the full response; the code
  applies the same limit to replies over TCP.

## Model

| member | source | states |
|---|---|---|
| CacheKeys.SameKeyIffSameQuestion | dns/cache.go:34-44 | Two queries get the same key exactly when class, type and DO bit (bit 15 of the last OPT record's TTL field) agree and the names, each with its final dot, are letter by letter the same up to ASCII case; only a message without a question has no key |
| CacheKeys.KeyReadsBack | dns/cache.go:38-42 | A key can be read back into its four parts, because names end in a dot and the DO suffix starts with a colon |
| CacheKeys.DecimalReadsBack | dns/cache.go:39 | Decimal printing is injective and contains no colon |
| CacheTtl.MinTtl | dns/cache.go:46-58 | The loop computes the least TTL field over all three sections |
| CacheTtl.MinTtlIsLeast | dns/cache.go:46-58 | That value is a lower bound attained by some record, and 0 when there is none |
| CacheTtl.NegativeTtl | dns/cache.go:60-79 | The loop computes the TTL of the first SOA in the authority section |
| CacheTtl.NegativeTtlFromFirstSoa | dns/cache.go:60-79 | It is the smaller of the SOA's TTL and MINIMUM, clamped to 30..3600, and 0 exactly when there is no SOA |
| CacheTtl.StoreTtl | dns/cache.go:114-136 | The lifetime Put gives a response, in plain numbers: for a positive one the smallest TTL of any record, for a negative one the smaller of TTL and MINIMUM of the first SOA, in both cases at least 30 and at most 3600; 0 when it is not stored |
| CacheTtl.LifetimeIsKept | dns/cache.go:114-136 | The same for the lifetime used everywhere else |
| CacheTtl.KeptForOne | dns/cache.go:114-136 | There is exactly one such number for every response |
| CacheTtl.StoredIff | dns/cache.go:111-136 | Exactly which responses are stored: negative ones with an SOA, positive ones with no zero TTL field anywhere; then for 30..3600 s |
| CacheTtl.PlainOptBlocksStoring | dns/cache.go:50-54 | A positive answer with an OPT record whose TTL field is 0 is never stored |
| LinkedList.List.PushFront | dns/cache.go:146 | The ring gains the element in front and stays consistently linked both ways |
| LinkedList.List.Remove | dns/cache.go:99 | The ring loses exactly that element, the order of the others is kept |
| LinkedList.List.MoveToFront | dns/cache.go:103 | The element goes to the front, the order of the others is kept |
| LinkedList.List.Back | dns/cache.go:148 | The last element, or none when the ring is empty |
| LinkedList.CacheEntry.Overwrite | dns/cache.go:140-141 | The entry gets a fresh copy of the message and the new expiry |
| MessageObjects.Message.Copy | dns/cache.go:106 | A new object with the same content |
| Cache.Cache.constructor | dns/cache.go:27-32 | A new cache represents the empty recency list |
| Cache.Cache.Fetch | dns/cache.go:93-108 | Expired entries are dropped, live ones move to the front and are answered by a fresh copy under the query's Id |
| Cache.Cache.Get | dns/cache.go:83-109 | Get is the list's lookup: map, ring and entries represent the stepped list, and the answer is a fresh object with the list's answer |
| Cache.Cache.Renew | dns/cache.go:139-143 | Storing under a present key overwrites its entry in place and moves it to the front |
| Cache.Cache.Evict | dns/cache.go:147-153 | An overfull cache loses exactly its least recently used entry, from ring and map alike |
| Cache.Cache.Admit | dns/cache.go:145-153 | Storing under a new key inserts in front and evicts at the back |
| Cache.Cache.Put | dns/cache.go:113-154 | Put is the list's store, ignored responses included; no message object that existed before is changed |
| Cache.Plan | dns/cache.go:114-136 | Key and lifetime decide the operation a Put amounts to |
| Cache.DropFacts | dns/cache.go:99-100 | Taking an entry out of map and ring keeps them in bijection, in list order |
| Cache.PromoteFacts | dns/cache.go:103 | So does moving one to the front |
| Cache.AddFacts | dns/cache.go:146 | So does adding one |
| Cache.BackFacts | dns/cache.go:148-151 | The ring's last element belongs to the list's last key |
| Recency.StepKeepsBound | dns/cache.go:83-154 | Every operation keeps keys distinct and the list within its size |
| Recency.AfterIsBounded | dns/cache.go:12-18 | So does every history |
| LruInclusion.LookKeepsInclusion | dns/cache.go:83-109 | A lookup keeps the smaller cache a subsequence of the larger, and its hits agree |
| LruInclusion.InsertKeepsInclusion | dns/cache.go:137-153 | So does a store, with both evictions |
| LruInclusion.Inclusion | dns/cache.go:83-154 | After the same history the smaller cache's list is a subsequence of the larger one's and the gap is at most the difference of sizes |
| LruInclusion.HitsAreMonotoneInSize | dns/cache.go:83-109 | Every hit of the smaller cache is a hit of the larger one with the same message |
| LruHistory.HistoryTracksList | dns/cache.go:83-154 | Position in the list and presence are what the history of stores, hits and expiries says |
| LruHistory.AnswerFromHistory | dns/cache.go:83-154 | Under a monotone clock the exact answer of a lookup: the latest accepted store, unless expired or crowded out |
| LruHistory.HitExplained | dns/cache.go:98-108 | A hit is the response of the most recent accepted Put for that question, and the seconds it is kept, at most 3600, have not run out since |
| LruHistory.MissExplained | dns/cache.go:93-102 | A miss means never accepted, kept long enough, or at least `size` distinct other keys stored or hit since the key was last used |
| LruInputs.InputsAgree | dns/cache.go:83-154 | Under a monotone clock, which lookups hit and what is crowded out can be computed from the operations alone, without any cache, and agree with what the list does |
| LruInputs.AnswerFromInputs | dns/cache.go:83-154 | The exact answer of a lookup as a function of the operations before it |
| LruInputs.AnsweredIff | dns/cache.go:83-154 | Exactly when a query is answered, from the calls before it: the cache has a size, the latest accepted Put for the question is still to be kept, and it has not been crowded out |
| LruInputs.RecentlyUsedIsFound | dns/cache.go:98-108 | A key stored or found with fewer than `size` other keys mentioned since is found, as long as its entry has not expired |
| LruInputs.MissFromInputs | dns/cache.go:93-102 | Why a query misses, told from the calls before it alone |
| LruHistory.CrowdedOutNeedsOthers | dns/cache.go:147-152 | Eviction takes at least `size` distinct other keys |
| Race.DecidesOnce | dns/server.go:370-402 | Every order of arrival decides on exactly one outcome |
| Race.RaceIsCorrect | dns/server.go:345-402 | In every run the outcome is the first usable result in order of arrival; it fails exactly when all results are in and none is usable, with the first error; only a winner reaches the cache |
| Race.NoSendBlocks | dns/server.go:359-368 | At any moment an upstream that has not sent can send at once, whatever the receiver has done |
| Race.RaceEnds | dns/server.go:372-402 | No run of a race of N upstreams takes more than 2N + 1 steps, and one that cannot go on is decided, with every upstream having sent |
| Race.LateResultsDoNotMatter | dns/server.go:389-395 | Results after the winner change nothing |
| Server.ApplyEdnsTruncation | dns/server.go:422-433 | TC is set and Extra dropped exactly when the reply exceeds the client's size, and nothing else changes |
| Server.FittedIs | dns/server.go:332-337 | A client's copy is the response under the client's Id; beyond 512 bytes, or the larger size its last OPT record offers, it has TC set and no Extra |
| Server.FlightReplyIs | dns/server.go:324-337 | A lost flight is answered by an empty SERVFAIL under the client's Id and question, any other by the fitted response |
| Server.AwaitWinner | dns/server.go:370-402 | The receiving loop returns the first usable response object or the first error |
| Server.ResolveRace | dns/server.go:345-402 | The cache takes exactly the winner's response, and the winner object itself is handed out unchanged |
| Server.Server.constructor | dns/server.go:96-104 | A new server has an empty cache that holds no objects yet and a limiter of 100 per second |
| Server.Server.Screen | dns/server.go:267-305 | Oversized, rate-limited and question-less queries are refused with FormErr, Refused and ServFail in that order; oversized ones are not counted |
| Server.Server.FromCache | dns/server.go:307-314 | A cached reply is fitted to the client without the cache noticing |
| Server.Server.CopyOut | dns/server.go:324-337 | A flight's client gets its own copy under its own Id, or SERVFAIL; the shared response is not written |
| Server.Server.FromFlight | dns/server.go:316-340 | From the miss to the reply, for the leader and for the followers of a flight |
| Server.Server.ServeDNS | dns/server.go:264-341 | One whole query: limiter, reply and cache afterwards, told of the history of Gets and Puts; the reply is a fresh object the cache does not hold, and whatever the cache holds that it did not hold before is new |
| Server.RepliesComeFromHistoryOrFlight | dns/server.go:307-341 | After any history, a reply is the latest accepted Put under the query's key, alive, or what the query's flight came to, under the query's Id |
| Server.RepliesAreDetached | dns/cache.go:104-108 | What the cache represents depends on its own objects only |
| ServerSession.Round | dns/server.go:332-337 | One query after the clients have written to the replies they hold: it is handled as the calls before it say, and its reply is one more object apart from the cache and from what came in |
| ServerSession.ServeAll | dns/server.go:307-341 | Over any number of queries of a new server, with arbitrary writes to all earlier replies before each of them: every query is handled as the calls and the limiter before it say, and the replies are pairwise distinct objects that the cache never holds |
| ServerSession.RepliesOfSession | dns/server.go:307-341 | In every such session, if no earlier request read the clock later than this one did on arrival, a query that is not turned away gets, under its own Id, the latest accepted Put of its key, alive, or what its flight came to |
| ServerSession.AnsweredInSessionIff | dns/server.go:307-341 | In every session whose clock does not run backwards: a query is answered from the cache exactly when the latest accepted response to its question is still to be kept and not crowded out, and then only looks into the cache; otherwise it gets what its flight comes to, and the leader stores that |
| ServerSession.RefusalsOfSession | dns/server.go:264-305 | In every session of a new server with requests in order of time: a query is turned away exactly if it is larger than 4096 bytes (FORMERR), or its sender has used up the limit of its window (REFUSED), or it has no question (SERVFAIL); the reply has its Id and question and no records, and the cache is not touched |
| Singleflight.FlightsNeverOverlap | dns/server.go:321-323 | After any arrivals and endings, at most one flight per key is under way, and a caller then waits for the one of its own key, starting it only if there was none |
| QueryPath.StepKeepsInv | dns/server.go:307-341 | Every step of every client keeps cache, flights and replies accounted for by what upstreams gave |
| QueryPath.RunKeepsInv | dns/server.go:307-341 | So does every interleaving |
| QueryPath.RunKeepsOneWinner | dns/server.go:389-395 | In every interleaving a flight has at most one winning response, and a lost one has none |
| Provenance.RepliesAreGenuine | dns/server.go:307-341 | Every non-error reply has the client's Id and is, up to Id, TC and dropped Extra, a usable upstream response to a query with the same class, type, name and DO bit, from the flight waited for or a cached copy still to be kept |
| Provenance.CoalescedClientsShareTheWinner | dns/server.go:321-337 | Clients answered from one flight got copies of one and the same response |
| Provenance.LostMeansNoneUsable | dns/server.go:324-330 | A lost flight is over and no upstream gave a usable response in it |
| Provenance.AnyAnswerIsPossible | dns/server.go:307-341 | A run from the idle server in which a client is answered, for any question and any usable response |
| Provenance.OneRacePerKey | dns/server.go:318-323 | At most one race per question is under way |
| QueryHistory.FlightIsARace | dns/server.go:362-402 | In every interleaving, told from the labels of the run: a flight waits until its first usable result or until every upstream has sent one, and comes to that result, or to none |
| QueryHistory.LostIff | dns/server.go:366-402 | A flight is lost exactly when it is over, has received a result from every upstream, and none was usable; until something usable comes, all others are still awaited |
| QueryHistory.CollectOutcome | dns/server.go:321-340 | After any run, a waiting client can go on exactly when its flight is over; it gets the flight's first usable result under its own Id, with TC and without Extra exactly if it is too long, or SERVFAIL if there was none |
| QueryHistory.UpstreamsAreAsked | dns/server.go:316-323 | The upstreams are asked what a client asked, with recursion desired |
| QueryHistory.CacheFollowsCalls | dns/server.go:307-385 | In every interleaving the cache is what the clients' Gets and the winners' Puts have left of it |
| QueryHistory.AnsweredFromCacheIff | dns/server.go:307-314 | Exactly when a client of an interleaved run is answered from the cache, and by which response; otherwise it goes on to a flight |
| QueryProgress.RunsAreBounded | dns/server.go:307-393 | Without new clients a run has at most as many steps as there was left to do |
| QueryProgress.EveryClientIsAnswered | dns/server.go:307-393 | After any run of an idle server: without new clients only so many steps follow, and when no step but an arrival is possible, every client has its reply |
| RateLimiter.IpRateLimiter.constructor | dns/server.go:40-47 | A new limiter has no counters |
| RateLimiter.IpRateLimiter.Allow | dns/server.go:50-69 | Decision and table afterwards, collection included |
| RateLimiter.IpRateLimiter.DeleteStale | dns/server.go:55-59 | The deleting loop removes exactly the stale counters, in any order |
| RateLimiter.GcIsTransparent | dns/server.go:54-61 | With a monotone clock, collecting changes no decision on any trace |
| RateLimiter.ClientsAreIsolated | dns/server.go:62-68 | The decisions for one IP depend only on its own request times |
| RateLimiter.LimiterIsPerClient | dns/server.go:50-69 | The same for the limiter with its collection |
| RateLimiter.AllowedIff | dns/server.go:62-68 | The i-th request of an IP is allowed exactly if it opens a window or is among the first `limit` of its window, where windows depend on the request times only |
| RateLimiter.NextIsAllowedIff | dns/server.go:50-69 | The same for what the limiter says after any trace of all clients' requests, with its collection |
| RateLimiter.CollectsExactlyStale | dns/server.go:54-61 | Beyond 10000 counters and half a minute after the last collection every counter that no longer counts goes, and no other ever does |
| RateLimiter.WindowBound | dns/server.go:62-68 | What can still get through in an interval, from any counter |
| RateLimiter.LimiterBound | dns/server.go:50-69 | At most 2 * max(1, limit) - 1 requests of one IP get through in any closed interval of one window's length |
| RateLimiter.BoundIsReached | dns/server.go:62-68 | A trace that reaches that bound, for every limit |
| RateLimiter.SlidingWindowIffLimitIsOne | dns/server.go:25-38 | The sliding-window promise holds exactly when the limit is 1 |
| HostnameCache.AddressesAreGenuine | dns/resolver_cache.go:44-95 | In every interleaving an address is the literal host or the first one a resolver gave for that host, in the flight joined or put in the map less than its TTL before the look |
| HostnameCache.ErrorsAreOwn | dns/resolver_cache.go:61-94 | A caller fails only if its own context expired or the resolver failed its flight; a flight whose resolver gave addresses fails no caller with a live context, whoever else was cancelled |
| HostnameCache.MapIsSound | dns/resolver_cache.go:68-84 | At most one resolution per host, cached lists are never empty, failures never reach the map |
| HostnameCache.FailuresLeaveTheMap | dns/resolver_cache.go:74-82 | A run in which every resolution fails leaves the map as it was |
| HostnameCache.RunKeepsInv | dns/resolver_cache.go:49-95 | The invariant over every interleaving |
| HostnameHistory.FlightTellsItsAnswer | dns/resolver_cache.go:68-84 | Told from the labels of any run: a flight comes to the first address its resolver gave, or to a failure exactly if that gave none |
| HostnameHistory.MapHoldsLatestSave | dns/resolver_cache.go:80-82 | The map holds, for each host, the list of the flight that saved last with that saving's expiry, and nothing else |
| HostnameHistory.LookOutcome | dns/resolver_cache.go:44-60 | Exactly what a caller who looks gets: the literal, the first cached address while its TTL lasts, or a flight |
| HostnameHistory.CollectOutcome | dns/resolver_cache.go:68-95 | Exactly what a waiting caller gets, and when: the resolver's first address, its failure, or the caller's own cancellation |
| HostnameProgress.RunsAreBounded | dns/resolver_cache.go:44-95 | Without new calls only a bounded number of steps are taken, cancellations apart |
| HostnameProgress.EveryCallerReturns | dns/resolver_cache.go:44-95 | When no step but a call or a cancellation is possible, every caller has returned |
| DotPool.StepMoves | dns/dot.go:90-149 | Every step of every goroutine moves at most one connection, in one of five ways |
| DotPool.MoveConserves | dns/dot.go:90-149 | Each of them keeps every dialled connection in exactly one place |
| DotPoolSafety.ExactlyOnePlace | dns/dot.go:90-149 | A dialled connection is in the pool once, in one goroutine's hands, or closed once |
| DotPoolSafety.StepKeepsSemaphore | dns/dot.go:182-188 | The semaphore counts the exchanges inside it and never exceeds the pool size |
| DotPoolSafety.StepKeepsFailedOut | dns/dot.go:209-216 | A connection that saw an error stays with the goroutine that closes it |
| DotPoolSafety.RunKeepsInv | dns/dot.go:90-218 | The invariant over every interleaving |
| DotPoolSafety.PoolIsSafe | dns/dot.go:102-149 | In every run no connection is closed twice and none that failed is pooled |
| DotPoolSafety.LiveConnectionsBounded | dns/dot.go:182-216 | Pooled connections and those an Exchange owns or is dialling never exceed the pool size once warming is over |
| DotPoolSafety.WarmedClientStaysBounded | dns/dot.go:90-149 | From a new client, after any WarmPool, whatever Exchange and Close do: all connections, whoever owns or dials them, are at most the pool size plus the one Close has taken and not closed yet |
| DotPoolAttempts.FailedExchangeTriedTwice | dns/dot.go:191-217 | In every run of an open client: an Exchange that returned an error without being cancelled has failed exactly twice, dialling or on a connection; one that succeeded at most once |
| DotPoolAttempts.SucceedsIffLastDid | dns/dot.go:191-217 | In every run: an Exchange succeeds exactly if the last write and read it tried did |
| DotPoolAttempts.WarmPoolFillsEveryPlace | dns/dot.go:119-131 | A WarmPool that ran to its end on an open client has dialled eight times |
| DotPoolReuse.DialsNoMoreThanOverlap | dns/dot.go:90-114 | As long as nothing fails, a client dials at most as many connections as exchanges ever were past the semaphore at once, and closes none |
| DotPoolReuse.WaitsOnlyForEight | dns/dot.go:182-188 | An Exchange waits at the semaphore exactly while eight others are past it, and can always be cancelled there |
| DotPoolRuns.NineConnections | dns/dot.go:90-149 | A run of a new client with one connection more than the pool size |
| DotPoolShutdown.ExchangeAfterCloseFails | dns/dot.go:133-173 | An Exchange called after Close has returned fails without dialling |
| DotPoolShutdown.SucceedsAfterCloseIff | dns/dot.go:90-114 | Exactly which exchanges can still succeed once the flag is set |
| DotPoolShutdown.SealedForGood | dns/dot.go:104-149 | A pool with the flag set and nobody sending stays so |
| DotPoolShutdown.PoolStaysEmptyIff | dns/dot.go:104-149 | Exactly when the pool is sure to be empty whenever Close has returned |
| DotPoolShutdown.LeakRun | dns/dot.go:104-114 | From any state with a putConn past its check while Close drains, a run in which it pushes after the drain |
| DotPoolRuns.LeakFromNewClient | dns/dot.go:104-149 | Such a run from a new client: Close has returned and the pool holds a connection |
| DotPoolRuns.SuccessAfterClose | dns/dot.go:133-149 | A run of a new client in which Close returns and an Exchange then succeeds |
| DotPoolShutdown.NothingLeaks | dns/dot.go:136-149 | In a sealed pool after Close every dialled connection is closed or owned |
| DotPoolShutdown.OwnersCloseAfterFlag | dns/dot.go:104-149 | From the moment the flag is set with nobody about to send: a connection owned at any later time is closed, once, by the time its owner no longer holds it |
| DotPoolShutdown.AllClosedInTheEnd | dns/dot.go:104-149 | And when all goroutines are done, every connection ever dialled is closed |
| DotPoolProgress.RunsAreBounded | dns/dot.go:90-218 | Without new calls a run of all goroutines is bounded, whatever the contexts do |
| DotPoolProgress.UnfinishedGoesOn | dns/dot.go:133-190 | While a call has not returned, some goroutine can go on without any context expiring: nobody waits for ever for a token, or for the Close let in first |
| DotPoolProgress.CallsReturn | dns/dot.go:90-218 | After any run of a new client: only so many steps follow without new calls, and when none is possible, every call has returned |
| SystemDns.Machine.SaveSystemDNS | windows/dns.go:151-182 | Effects and result of saving, with a write that can stop half-way |
| SystemDns.Machine.RunScript | windows/dns.go:306-323 | Each line takes effect or reports an error on its own; success means every line worked |
| SystemDns.AllSucceedIff | windows/dns.go:306-323 | A script has no error exactly if every one of its lines worked on an interface that exists |
| SystemDns.LinesAreIndependent | windows/dns.go:298-301 | A line takes effect if it works, whatever became of the others |
| SystemDns.Machine.SetSystemDNS | windows/dns.go:284-325 | The effects of the takeover; it succeeds exactly if the backup loads and no line reports an error, and then every interface saved with servers points at 127.0.0.1 and all others are as they were |
| SystemDns.Machine.RestoreSystemDNS | windows/dns.go:329-385 | Restoring, with the backup deleted only after a script without errors |
| SystemDns.Machine.Run | cmd/runner.go:47-128 | Save unless a backup exists, flip once listening, restore at the end |
| SystemDnsHistory.SnapshotDescribes | windows/dns.go:94-137 | A snapshot holds one original entry per interface |
| SystemDnsHistory.RunIsLegal | cmd/runner.go:47-128 | Every effect of every Run happens in a state where it is safe |
| SystemDnsHistory.HistoryKeepsInv | cmd/runner.go:47-128 | The invariant over any number of runs, each stopped after any number of effects, with outside changes while no backup exists |
| SystemDnsHistory.TakeoverIsBackedUp | cmd/runner.go:51-63 | An interface taken over points at 127.0.0.1 and an intact backup holds its original entry; no snapshot is ever taken while one is taken over |
| SystemDnsHistory.RestoreOutcome | windows/dns.go:329-385 | After any history, a restore without an interface error gives every saved interface its original setting, normalised, from an entry that is its original one; the backup goes exactly then |
| TakeoverScope.TakeoverIsComplete | windows/dns.go:292-325 | After any history, a takeover script without errors takes over exactly the saved interfaces that had servers |
| TakeoverScope.RunTakesOver | cmd/runner.go:47-100 | After any history, a Run that can save and serve, and whose takeover goes well, comes to a state in which exactly the interfaces that had servers point at 127.0.0.1 |
| TakeoverScope.RunGivesBack | cmd/runner.go:47-128 | After any history, a Run that has or makes a backup, however its takeover goes, ends with every interface given back and the backup deleted, if its restore goes well |
| SystemDnsHistory.RestoringAgainChangesNothing | windows/dns.go:329-385 | Once all is given back, restoring again changes no interface |
| SystemDnsHistory.CorruptBackupIsFinal | cmd/runner.go:57-64 | A backup cut short is never written, restored from or removed again |
| BackupFate.CorruptIff | cmd/runner.go:57-64 | After any history, the backup is cut short exactly when the last session that started writing it was stopped between its two effects or failed half-way |
| BackupFate.CutShortRun | windows/dns.go:173-179 | From every machine, a history that ends so |
| TakeoverFate.NextRunMayTakeOverIff | cmd/runner.go:47-100 | Some Run begun now can take an interface over exactly when the backup is not cut short and some interface saved, or to be saved, has servers |
| TakeoverFate.MayTakeOverIff | cmd/runner.go:47-128 | The takeover can still happen some day exactly when the backup is not cut short |
| SystemDnsHistory.RestoredIsOriginalIff | windows/dns.go:342-357 | After any history, exactly which interfaces such a restore leaves with the very setting they had when saved |
| BootstrapDns.GetBootstrapDNS | windows/dns.go:194-219 | The two loops collect the usable servers at their first occurrence, or fall back to the public ones |
| BootstrapDns.FirstUsesHoldsUsable | windows/dns.go:201-214 | The list holds exactly the usable servers, without repeats |
| BootstrapDns.FoundIff | windows/dns.go:201-214 | A server is found exactly if it is usable and some interface lists it |
| BootstrapDns.FirstUsesInOrder | windows/dns.go:201-214 | The servers are in the order in which they are first listed |
| BootstrapDns.BootstrapNeverLoops | windows/dns.go:184-193 | It is never empty and never holds 127.0.0.1, whatever the system reports |
| UpdateSwap.Machine.Update | updater/update.go:116-206 | The effects of an update in order; success means the verified candidate is installed |
| UpdateSwap.Machine.Rename | updater/update.go:186-204 | The two renames with rollback and cleanup |
| UpdateSwap.UpdateOutcome | updater/update.go:148-206 | What an Update that runs to its end leaves, in each case: the new binary and a service that runs again, or the old binary in its place (at its .old name only if the rollback failed), never a candidate |
| UpdateSwap.SwapsWhileStopped | updater/update.go:177-190 | If the service can be stopped, no rename happens while it runs |
| UpdateSwap.UpdateIsSafe | updater/update.go:156-206 | With no deletion due, each effect finds the other copy in place |
| UpdateSwap.NeverLosesTheBinary | updater/update.go:156-206 | Over any history of updates stopped anywhere and reboots, none begun with a deletion due, a trusted image is at the install path or its .old name |
| UpdateSwap.SurvivesUpdateIff | updater/update.go:194-200 | An update may be interrupted anywhere exactly when no deletion is due |
| UpdateSwap.CrashAside | updater/update.go:184-200 | From any disk with a deletion due, the interrupted update after which a reboot deletes the only copy |
| UpdateSwap.UpdateKeepsWhole | updater/update.go:156-206 | No update loses the last binary without a reboot |
| UpdateSchedules.AlwaysSafeIff | updater/update.go:156-206 | From an installed disk with no deletion due, a schedule of updates and reboots keeps a trusted image in place, however the updates go and wherever they stop, exactly when no reboot comes after two updates with no reboot between them |
| UpdateSchedules.LostBinary | updater/update.go:184-200 | From every such disk: an update that puts its deletion off, a second stopped after the rename aside, and a reboot leave no binary at either name |
| UpdateSwap.RetryKeepsOld | updater/update.go:172-175 | A retry that finds no installed binary leaves the .old copy alone |
| Checksums.IsHex | updater/update.go:461-476 | True exactly of non-empty strings of hex digits |
| Checksums.ReadLine | updater/update.go:408-431 | The entry on a line in either format, or none |
| Checksums.Scan | updater/update.go:406-438 | The digest chosen for an asset, or the empty string |
| Checksums.ScanIsFirstMatch | updater/update.go:406-443 | The digest is 64 hex digits from the first well-formed matching line, and empty exactly when there is none |
| Checksums.EntryParses | updater/update.go:413-428 | A printed entry, text or binary, with or without a carriage return, parses back |
| Checksums.SplitJoins | updater/update.go:406 | Splitting undoes joining of lines |
| Checksums.EachNameFindsItsDigest | updater/update.go:402-443 | In a printed body mixed with blank and malformed lines, each name finds its own digest unless an earlier entry has it as its base name |
| Checksums.FindsOwnDigestIff | updater/update.go:432-437 | Exactly when it does |
| Checksums.ColonFreeNamesAreUnshadowed | updater/update.go:432-437 | Names without a colon always do |
| Checksums.CaseIsIgnored | updater/update.go:432-437 | Asset names that differ in ASCII case only have the same digest |
| Checksums.DirectoryIsIgnored | updater/update.go:432-437 | An entry that lists a file in a directory is found by the file's name |
| Checksums.DrivePrefixShadows | updater/update.go:432-437 | For every plain name f, listed as x/c:f and then c:f: the second finds the first's digest, not its own; if findAsset accepts f, it accepts c:f |
| Checksums.UsualNameIsEligible | updater/update.go:208-216 | Lower-case names with windows and then the architecture in them are names findAsset accepts |

## Left out

- Go's `container/list` is not part of the repository; the ring is modelled from its published behaviour.
- A disabled cache keeps an empty map and list where the source leaves them nil; no operation looks at them.
- Cache.Cache.Put: the clock is read once per call, and the mutex is not modelled: each Get and Put is one atomic step.
- CacheTtl.MinTtl: the loop runs over a fresh concatenation; the source's append could write into spare capacity of the answer slice, which values cannot express.
- The sections of a message are values, so a copy of a message that shared its record slices is not expressible.
- ServerSession.ServeAll: queries one after another on message objects; interleaved clients are in QueryPath, as steps on values. Whether a caller leads or follows a flight is an argument there, decided by the flight table in QueryPath.
- QueryPath.StepKeepsInv: packed lengths are left open, so a reply may or may not be truncated at each step; the exact condition is in Server.ApplyEdnsTruncation.
- HostnameCache.AddressesAreGenuine: parsing a literal address is an arbitrary predicate, and the 10 s limit of a resolution is one of its failures.
- The progress theorems say that a next step exists: that each dial, exchange and resolution comes to an end, with success or error, is what its deadline is for.
- BootstrapDns.BootstrapNeverLoops: parsing and address classes are an arbitrary predicate that accepts the public resolvers and rejects 127.0.0.1.
- DotPoolSafety.LiveConnectionsBounded: WarmPool's own dials are not counted while it still runs; the server calls it before serving.
- SystemDnsHistory.HistoryKeepsInv: one Run at a time, unique interface aliases, well-formed PowerShell output, and no outside change of the settings while a backup file exists.
- Checksums.EachNameFindsItsDigest: case folding is ASCII, and base names have no UNC or device prefix; release assets have neither.
- UpdateSwap.Machine.Update: downloads, the version guards and the two verifications are outcomes of the environment; a restart of the service that fails is not retried by the code and not claimed.
- The mixed-case mapping of the DNS library's canonical names is ASCII; bytes that are not UTF-8 are not modelled.
- The JSON format and SHA-256 checksum of the backup file: a file either loads or does not.
- Deadlines, timeouts and TLS of the connection pool; dialling and exchanging succeed or fail at will.
- Query logging, pre-warming, listening and shutdown of the server.
- Choosing checksum files by name (of choosing the asset only the test of a name is modelled), GitHub's JSON, minisign and hashing.
- DoH transport, upstream URL parsing, WFP and ACL calls, service management, configuration and the terminal interface: thin layers over libraries that are not part of this model.

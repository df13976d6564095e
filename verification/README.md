# GitFusion: a verified model

GitFusion answers questions about repositories, pull requests and pipelines by asking GitHub, GitLab or
Bitbucket, and caches what it gets. This project models the parts of it that do real algorithmic or
concurrent work and proves what they keep.

- **The job-trace protocol** (the `Trace` modules). Any number of `GetJobTrace` calls run
  interleaved with each other, with expiry, eviction, invalidation, the marking of finished jobs, and a
  provider whose logs grow until the job is finished. A step is one atomic access of something shared: the
  two tier lookups of a `Get`, the provider call and the marker read are all separate steps. The state also
  records history (who fetched what, when, and what was lost), which the theorems speak about.
  `BoundedTrace` is the bounded read, `Tiers` the expiry rule, `CacheClients` the caches as mutable objects and
  `TraceService` one undisturbed call over them, which `TraceSolo` shows to be a run of the protocol.
  `TraceScripts` holds the pieces that concrete runs are put together from.
- **Markers and job listing** (`JobListing`, `Markers`): the 500-job cap, the in-place stable sort, the
  terminal markers and the keys trace requests look up.
- **Post-filtered pagination** (`Pagination`, `PullRequests`): the loop with its 64-bit counters, early return
  and page cap refines "filter the flattened list, then slice", for exactly the pages whose numbers fit.
- **Push iterators** (`Iterators`): scans, filter and collector over a consumer that may stop, along page chains
  that need not end; a consumer is an object with a state and a step function.
- **Cached lists** (`ListCaching`, `ListTransparency`, `ListService`): a step machine in which a fetch begins, hears
  the provider and ends, while misses join it, refreshes overlap it and entries are lost; how old an answer can
  be, and whose it is.
- **Keys and queries** (`Decimal`, `Keys`, `BitbucketQuery`): printers and the parsers that invert them.

The model is sequentially consistent. The provider, the clock, cancellation and lower-casing are parameters.

## Results that differ from what one might expect

- "A done-tier trace is final" does not hold of the interleaved code, although the comments in
  `internal/cache/pipeline_job_trace_cache.go` call such a trace immutable: the marker is read after the
  fetch. `TraceFinality.StaleAnswer` is a run, from a fresh service and for every request, in which a finished
  job's trace is answered with an unfinished log from the done tier; `TraceFinality.AlwaysFinalIff` is the
  exact condition.
- A cached list can be older than the age up to which it is served (half a minute for pipelines, a minute for pull
  requests), by as long as a fetch takes: `ListCaching.AlwaysWithinIff`. A background refresh that began earlier
  can overwrite what a newer fetch brought: `ListCaching.CanGoBackIff`.
- Page numbers have no upper bound, and the skip counter wraps around. Page 2^63-1 of a merged listing answers
  the data of the first page, with the total -99 if that is full (`PullRequests.LastPageNumberRepeatsFirst`).
  `PullRequests.ExactIff` and `PullRequests.ExactOnSmallPagesIff` say for which pages the listing is right.
- The list keys are not injective on all requests. `Keys.OwnsKeyIff` says exactly which requests own their
  key and `ListTransparency.AlwaysDirectIff` what that means for answers; for traces, `Keys.OwnsTraceKeyIff` and
  `TraceRivals.AlwaysOwnLogIff`. The terminal-marker key needs no condition on the server name.
- The total of a post-filtered page is exact only in the cases `PullRequests.PostFilterTotal` names; past
  the last match it counts skipped places.
- `ScanBitbucketBranches` does not restart from the beginning on the same options object
  (`Iterators.RescanStartsAtLastPage`).
- A missing repository name filter and an empty one share a cache key; they mean the same only for lists
  without nil entries, on which the listing without a filter panics (`Iterators.EmptyNameIffNoNil`).

## Model

| member | source | states |
|---|---|---|
| TraceRuns.InvReachable | internal/services/pipelines/pipelines_provider.go:193-238 | every reachable state of the interleaved protocol satisfies all invariants: one open flight per key, sole writers, accounting, soundness of traces, spacing, marker leases, invalidation progress |
| TraceTheorems.NothingShadowed | internal/cache/terminal_aware_cache.go:7-35 | in every reachable state at most one of the two tiers serves a key, so looking at done first never hides an entry |
| TraceTheorems.FetchesConserved | internal/services/pipelines/pipelines_provider.go:206-230 | per key, provider calls = errors + oversized answers + removed entries + expired entries + what is shown now + what is being dealt with, and the last two together are at most one |
| TraceTheorems.SingleFetch | internal/services/pipelines/pipelines_provider.go:210-230 | in every reachable state, for every key that has lost nothing so far (no failed call, oversized answer, removed or expired entry), the provider was called at most once and all answered calls got the same trace, whatever happened to other keys |
| TraceTheorems.AnswersArePassedOn | internal/services/pipelines/pipelines_provider.go:206-237 | the calls for a key have been given at most as many different answers as there were provider calls for it |
| TraceTheorems.StoredTraces | internal/services/pipelines/pipelines_provider.go:222-227 | both tiers only ever hold whole, untruncated bodies of at most 512 KiB that are prefixes of their job's log and reach at least as far as the log did when the fetch began |
| TraceTheorems.AnswersTheRequest | internal/services/pipelines/pipelines_provider.go:204-237 | whichever entry or flight an answer comes from, it is a prefix of the log of the job its fetch asked for, under the key of the call; of at most 4 MiB, and flagged only if it is just that long and the log longer; that is the very job of the call if its server and project have no separator, or if neither server name has one |
| TraceOutcomes.FailuresAreTheProviders | internal/services/pipelines/pipelines_provider.go:211-233 | in every reachable state the flights of a key that hand out an error are exactly as many as its failed provider calls, each called the provider itself, and every call told of an error was told of one of theirs |
| TraceOutcomes.NoErrorNoFailure | internal/services/pipelines/pipelines_provider.go:231-233 | as long as no provider call for a key has failed, no call for it is told of an error |
| TraceOutcomes.RecheckHandsOn | internal/services/pipelines/pipelines_provider.go:212-215 | on every run, a flight that settles without calling the provider delivers the trace the tiers showed for its key in the state in which it looked |
| TraceRivals.AlwaysOwnLogIff | internal/services/pipelines/pipelines_provider.go:204-237 | over all runs, a request is only ever answered with its own job's log if and only if neither its server nor its project has a separator |
| TraceTheorems.MarkedReadsGoToDone | internal/services/pipelines/pipelines_provider.go:224-227 | a marker read within 24 hours of a marking that preceded it sends the trace to the done tier unless that marker was evicted between the two, whatever invalidations happen |
| TraceTheorems.DoneStoresApart | internal/cache/pipeline_job_trace_cache.go:13-18 | two done-tier stores of a key have their marker reads more than 12 hours apart, unless an entry of the key was removed between the first store and the second flight's miss |
| TraceTheorems.DoneStoresInALease | internal/cache/pipeline_job_trace_cache.go:37-42 | on every schedule, the done-tier stores of a key in any 24-hour marker lease are at most two plus the removals of the key between the first and the last of them |
| TraceAge.AnswerAge | internal/services/pipelines/pipelines_provider.go:206-237 | on every run, an answer holds all that the job's log held in some state the run passed through (as far as 4 MiB go), and the call, or the flight it waited for, came by it no later after that state than its fetch took plus 30 seconds if the live tier kept it, twelve hours if the done tier did, nothing otherwise |
| TraceTheorems.SurvivorsAreNew | internal/cache/terminal_aware_cache.go:37-45 | once Invalidate has returned, every visible entry was stored after it began; one fetched before it began was stored by a flight that was open when it began |
| TraceTheorems.QuietInvalidationEmpties | internal/cache/terminal_aware_cache.go:37-45 | if no flight has been open since Invalidate began, no reader finds anything in either tier once it has returned |
| TraceFinality.DoneTierIsFinished | internal/services/pipelines/pipelines_provider.go:182-189 | the job of a done-tier entry is finished; if it was finished when the provider was called, the entry is its final log |
| TraceFinality.AlwaysFinalIff | internal/services/pipelines/pipelines_provider.go:217-226 | a flight about to call the provider can end up storing a stale trace in the done tier if and only if the job is unfinished or unknown, and its log still small enough to store; quantifies over all later runs |
| TraceFinality.StaleRun | internal/services/pipelines/pipelines_provider.go:217-226 | from any such state, the run (fetch, job finishes and is marked, marker read, store) after which the done tier shows a stale trace to every reader of the key |
| TraceFinality.StaleAnswer | internal/services/pipelines/pipelines_provider.go:206-226 | for every request, a run from a fresh service after which a call for the finished job has been answered with an untruncated trace that is not its log |
| TraceFinality.MarkedBeforeFetchIsFinal | internal/services/pipelines/pipelines_provider.go:224-227 | if the marker was set before the call began, no later run makes that flight store a stale trace |
| TraceProgress.CallCanReturn | internal/services/pipelines/pipelines_provider.go:210-237 | from every reachable state every call can return within eleven steps of itself and of the leader it waits for |
| TraceProgress.FlightsAdvance | internal/services/pipelines/pipelines_provider.go:211-230 | every step of a flight takes it nearer to its end, so a flight takes at most seven |
| TraceContent.MarkersStayTrue | internal/services/pipelines/pipelines_provider.go:95-98 | marking one job never makes another job's marker true, because marker keys are injective |
| BoundedTrace.BoundedRead | internal/services/gitlab/gitlab.go:437-449 | the trace is the longest prefix of the body of at most 4 MiB and flagged exactly when bytes were lost |
| BoundedTrace.CacheableIff | internal/services/pipelines/pipelines_provider.go:222-224 | exactly the bodies of at most 512 KiB are cacheable, and then the trace is the whole body |
| TraceService.PipelineService.GetJobTrace | internal/services/pipelines/pipelines_provider.go:206-237 | a call that meets no other: a hit asks nobody and changes nothing; a cacheable answer is served again for 30 seconds, or for twelve hours if the job is marked; errors and larger answers leave the cache alone; other keys are untouched |
| TraceSolo.SoloRun | internal/services/pipelines/pipelines_provider.go:206-237 | the undisturbed call is a run of the protocol: from any state without a flight for its key, steps of one call and its flight alone give the method's answer, its cache contents and its number of provider calls |
| CacheClients.TerminalAwareCache.Get | internal/cache/terminal_aware_cache.go:19-25 | serves the done tier's visible entry first, else the live tier's |
| CacheClients.TerminalAwareCache.Set | internal/cache/terminal_aware_cache.go:27-35 | the new contents of both tiers, and that what is set is what is served next unless a visible done entry shadows a live one |
| CacheClients.TerminalAwareCache.Invalidate | internal/cache/terminal_aware_cache.go:37-45 | leaves only entries that had already expired, so nothing is served for any key at any later time |
| CacheClients.Client.ScanKeys | internal/cache/manager.go:47-50 | the scanned keys are exactly those of unexpired entries, each once |
| CacheClients.Manager.InvalidateCache | internal/cache/manager.go:44-90 | clears exactly the caches of the endpoint and leaves all others as they are; an unknown endpoint is an error and changes nothing |
| JobListing.ListPipelineJobs | internal/services/gitlab/gitlab.go:360-392 | the loop, break and sort give the stable sort of the first 500 jobs scanned, or the error met before the cap |
| JobListing.ListsTheFirst | internal/services/gitlab/gitlab.go:360-378 | of a scan the first 500 jobs are listed, whatever follows them; if there are fewer, all of them, or the error that comes after them |
| JobListing.ListedAs | internal/services/gitlab/gitlab.go:465-471 | a job is listed under its own name and status, with an identifier that reads back as its number |
| JobListing.SliceStable | internal/services/gitlab/gitlab.go:380-385 | sorting in place turns the array into the stable sort of what it held |
| JobListing.StableSortProperties | internal/services/gitlab/gitlab.go:383-385 | the order is ascending by number and, for every number, keeps the jobs with it in their order |
| JobListing.StableSortUnique | internal/services/gitlab/gitlab.go:383-385 | two ascending sequences that agree on the jobs of every number are equal, so the promise settles the result |
| JobListing.NewestFirstIsReversed | internal/services/gitlab/gitlab.go:380-385 | for strictly descending numbers, GitLab's newest-first order, the sort is the reversal |
| JobListing.ListingIgnoresOrder | internal/services/gitlab/gitlab.go:360-392 | two scans of at most 500 jobs that agree on the jobs of every number, and on the error, are listed alike |
| JobListing.OrderHiddenIff | internal/services/gitlab/gitlab.go:360-392 | jobs with different numbers are listed alike in every order if and only if there are at most 500 of them; past the cap the order decides which are listed |
| TraceProtocol.TerminalIffFinal | internal/services/pipelines/pipelines_provider.go:84-93 | the statuses taken for finished are exactly those that no step of a job's life cycle leaves |
| Markers.MarkTerminalJobs | internal/services/pipelines/pipelines_provider.go:183-189 | every job whose status no step of the life cycle leaves gets a new marker lease, and every other marker stays as it was |
| Markers.MarkerAgreement | internal/services/pipelines/pipelines_provider.go:95-98 | for every request string that reads as a job number, the key the trace request looks up is marked by a listing exactly when the listing is of that server and has that job as finished |
| Markers.RefreshPipelineJobs | internal/services/pipelines/pipelines_provider.go:170-179 | a successful listing marks its finished jobs; a failed one changes no marker |
| Markers.ListedJobsAreFound | internal/services/pipelines/pipelines_provider.go:224-226 | after a listing the marker lookup of a trace request succeeds for exactly 24 hours if the job was listed as finished, and otherwise as long as it did before |
| Pagination.ClampPagination | internal/api/pagination.go:5-28 | page at least 1, page size 1 to 100, valid values kept, missing or invalid ones replaced by 1 and 20 |
| Pagination.TotalFitsInt64 | internal/services/github/github.go:461 | for clamped parameters and pages up to (2^63-1)/100 the computed totals fit 64 bits |
| PullRequests.PagesBelowAreExact | internal/services/github/github.go:410-488 | so on all those pages the listing answers exactly what filtering and slicing would |
| PullRequests.ListPullRequestsWithPostFilter | internal/services/github/github.go:403-489 | the loop with skip counter, early return, cancellation, errors and page cap answers the slice of the filtered flattened pages that the 64-bit skip counter passes to, with the 64-bit totals, in at most 50 queries for any NextPage numbers |
| PullRequests.AnswersTheList | internal/services/github/github.go:393-489 | over whatever lists a provider hands out page by page, the answer is the slice of the merged, or closed and not merged, pull requests of the first 50 of them, with its total; a failure or cancellation is the answer only if it comes in time and the page is not full before |
| PullRequests.WantedIff | internal/services/github/github.go:503-513 | among these a pull request is there if and only if it has been merged, or has not, as asked |
| PullRequests.ShownAs | internal/services/github/github.go:516-533 | a pull request is shown under its own number and title, with an identifier that reads back, as merged if it has been, else as GitHub says |
| PullRequests.OpenListingIsOpen | internal/services/github/github.go:343-389 | an open listing only shows open pull requests, if GitHub honours the state asked of it |
| PullRequests.ExactIff | internal/services/github/github.go:410-488 | for every provider that is the slice and total of unbounded integers, if and only if page * perPage + 1 fits 64 bits |
| PullRequests.ExactOnSmallPagesIff | internal/services/github/github.go:391-488 | for every provider whose pages hold at most 100 pull requests, if and only if the skip count (page - 1) * perPage fits |
| PullRequests.WrappedSkipRepeats | internal/services/github/github.go:410-456 | whenever the wrapped skip counter is not positive, a later page repeats the data, or the error, of the first |
| PullRequests.LastPageNumberRepeatsFirst | internal/services/github/github.go:410-488 | page 2^63-1 with 100 a page starts its skip counter at -200 and answers the data of page 1 with the total -99 or less; page 184467440737095518 skips 84 |
| PullRequests.ListPullRequests | internal/services/github/github.go:325-340 | merged and closed are the post-filtered closed list, open and everything else the direct list of the state GitHub knows |
| PullRequests.PagesPartition | internal/services/github/github.go:410-479 | for a fixed provider that answers page k, pages 1..k one after the other are exactly the first k*PerPage matches in provider order, as long as the skip count of page k fits 64 bits |
| PullRequests.AnsweredIff | internal/services/github/github.go:437-443 | such a page is answered if and only if the walk meets no error or the page is full before it does |
| PullRequests.PagesPartitionIff | internal/services/github/github.go:410-479 | pages 1..k partition the matches for every provider that answers page k if and only if that skip count fits |
| PullRequests.PagesHaveTheState | internal/services/github/github.go:502-526 | a merged or closed listing only returns pull requests converted to that state, if GitHub honours the state asked of it |
| PullRequests.PostFilterTotal | internal/services/github/github.go:456-488 | for pages whose numbers fit: how the total relates to the number N of matches, at most N+1 on early return, N or the skipped places otherwise, and exactly when it equals N |
| PullRequests.DirectTotal | internal/services/github/github.go:365-379 | the data is the page's slice of GitHub's list; all three branches aim at an estimate that is at least N, less than one page above it, gives the right number of pages and is exact on the last page, and the total is that estimate if and only if it fits 64 bits |
| Iterators.ScanGitHubList | pkg/github/pagination.go:13-46 | over whatever lists GitHub serves in numbered pages, the consumer sees their items in order, and the failure after them if there is one, until it stops; in general, for every scan that finishes, the consumer is fed the pages visited until it stops or the chain ends, and is shown nothing after it stops |
| Iterators.VisitedIsNeeded | pkg/github/pagination.go:23-44 | the scan goes on from a visited page if and only if that page leads on and the events so far have not stopped the consumer |
| Iterators.ComesToAnEndIff | pkg/github/pagination.go:23-44 | repeating the turns of the loop comes to an end if and only if the scan finishes within some number of pages, the condition under which the scans are proved |
| Iterators.NeverFinishesIffTrapped | pkg/github/pagination.go:23-44 | a scan goes on for ever if and only if it starts in a set of pages and consumer states that each lead back into it without a stop |
| Iterators.LastPositiveWins | pkg/github/pagination.go:51-58 | the page size is the last positive one given, or the default |
| Iterators.NeverEndsIffTrapped | pkg/github/pagination.go:23-44 | the page chain never comes to an end, as a consumer that never stops needs it to, if and only if it starts in a set of pages that each lead back into it |
| Iterators.EndsFinishes | pkg/github/pagination.go:23-44 | over a chain that ends every consumer's scan finishes, on a prefix of the chain, and makes of it what it would make of the whole chain |
| Iterators.ScanBitbucketBranches | pkg/bitbucket/pagination.go:10-36 | as for GitHub, over whatever lists Bitbucket serves from the page the options name; the options are left at the last page fetched |
| Iterators.ScanTwice | pkg/bitbucket/pagination.go:10-36 | two scans with the same options object, however early the first one stops: the second starts at the last page the first one fetched |
| Iterators.RescanStartsAtLastPage | pkg/bitbucket/pagination.go:29-33 | a consumer that did not stop gets the last page only when it scans again, so the scan repeats itself if and only if the earlier pages were empty |
| Iterators.RescanAfterStop | pkg/bitbucket/pagination.go:23-33 | a consumer that did stop ends in the same state again if the pages before the one it stopped on were empty |
| Iterators.FilterComposes | internal/services/github/github.go:103-131 | for every consumer, however early it stops, wrapping its yield equals filtering the events first |
| Iterators.CollectIsPrefix | pkg/xiter/iter.go:8-25 | collecting gives the items before the first error, and that error |
| Iterators.CollectRepositories | pkg/xiter/iter.go:8-25 | over whatever lists GitHub serves, collecting the name-filtered scan gives their repositories in order, filtered, together with the failure after them |
| Iterators.CollectorNeedsTheEnd | pkg/xiter/iter.go:13-22 | the collector stops on errors only, so its scan of GitHub's pages finishes if and only if their chain ends |
| Iterators.ListRepositories | internal/services/github/github.go:73-101 | over whatever lists GitHub serves, the service returns their repositories in order, filtered; an error takes the items with it, and a nil repository that no filter holds back is a panic |
| Iterators.PassesIff | internal/services/github/github.go:113-128 | a repository passes a name if and only if the lower-cased name occurs in its lower-cased name |
| Iterators.EmptyNameIffNoNil | internal/services/repositories/repositories_provider.go:73 | over the same pages, a listing without a name filter and one with an empty name end alike if and only if no nil repository comes before the first error; otherwise the first panics and the second leaves the nils out |
| Decimal.WrapIsRemainder | internal/services/github/github.go:411 | the wrap-around of the 64-bit products and sums is the remainder of 2^64 in the signed range |
| Decimal.AtoiOfItoa | internal/services/gitlab/gitlab.go:467 | parsing undoes printing on every 64-bit integer |
| Decimal.PrintNatDigits | internal/services/gitlab/gitlab.go:467 | the digits printed are the decimal ones, with no zero in front |
| Decimal.AtoiIff | internal/api/pipeline_handler.go:147-168 | a string is parsed, and as which number, exactly when it is that 64-bit number with nothing around it but one sign and zeros in front |
| Keys.DecodeListOfKey | internal/services/pipelines/pipelines_provider.go:126-136 | with separator-free server, project and status and an arbitrary ref, the key reads back as the request; the pull request key likewise |
| Keys.OwnsKeyIff | internal/services/pullrequests/pullrequests_provider.go:53 | no other request prints a request's key if and only if none of its four texts has a separator |
| Keys.TraceKeyInjective | internal/services/pipelines/pipelines_provider.go:204 | with separator-free server names the trace key names one request |
| Keys.OwnsTraceKeyIff | internal/services/pipelines/pipelines_provider.go:204 | over all requests, no other shares a trace key if and only if neither server nor project has a separator |
| Keys.TerminalJobKeyInjective | internal/services/pipelines/pipelines_provider.go:95-98 | a marker key names one job of one server, whatever the server is called |
| Keys.RepositoryKeyInjective | internal/services/repositories/repositories_provider.go:73 | with separator-free servers and owners the repository key names one list; the name is arbitrary |
| Keys.OwnsRepositoryKeyIff | internal/services/repositories/repositories_provider.go:73 | over all requests, no other shares a repository key if and only if server, owner and name have no separator |
| ListService.ListThroughCache | internal/services/pipelines/pipelines_provider.go:138-152 | a listing that meets no other: an entry that is young enough is served without asking; otherwise it asks, takes its time, and stores the answer when the fetch ends unless it is an error |
| ListService.SoloRun | internal/services/pipelines/pipelines_provider.go:138-152 | that listing is a run of the step machine, with the same answer and the same cache |
| ListCaching.BoundedStaleness | internal/services/pipelines/pipelines_provider.go:147-152 | over a changing provider, in every reachable state of interleaved listings, joined fetches, background refreshes, losses and waiting, an answered listing has what the provider said to this request at some time no longer ago than entries are served and a fetch takes |
| ListCaching.AlwaysWithinIff | internal/cache/cache.go:25-27 | an answer is never older than a given age, on all runs over all providers, if and only if the age is at least the time to live or the synchronous refresh delay, whichever is less, plus the longest fetch |
| ListCaching.PipelineListAge | internal/cache/pipeline_cache.go:13-26 | for pipeline lists that bound is 30 seconds plus the longest fetch |
| ListCaching.PullRequestListAge | internal/cache/pullrequest_cache.go:12-26 | for pull request lists it is 60 seconds plus the longest fetch |
| ListCaching.CanGoBackIff | internal/cache/cache.go:21-27 | over every provider that never fails, a served list can be replaced by one said earlier if and only if fetches take time and background refreshes start before calls have to wait |
| ListCaching.BothCanGoBack | internal/cache/pullrequest_cache.go:12-26 | with the delays of both list caches that is so as soon as fetches take any time |
| ListTransparency.CacheTransparent | internal/services/pullrequests/pullrequests_provider.go:53-69 | over a frozen provider, in every reachable state, listings with readable keys are answered as direct calls would be |
| ListTransparency.PipelinesTransparent | internal/services/pipelines/pipelines_provider.go:126-152 | so are pipeline listings with a separator-free server, project and status and any ref, absent filters being printed as empty ones |
| ListTransparency.PullRequestsTransparent | internal/services/pullrequests/pullrequests_provider.go:53-69 | and pull request listings with a separator-free server, owner and state and any repository |
| ListTransparency.AlwaysDirectIff | internal/services/pullrequests/pullrequests_provider.go:53-69 | a request can never be given another request's answer, on any run, if and only if none of its four texts has a separator |
| BitbucketQuery.BuildQuery | internal/services/bitbucket/bitbucket.go:554-570 | the query parts joined as the listing joins them, absent when there is none |
| BitbucketQuery.SanitizeIsEscape | internal/services/bitbucket/bitbucket.go:557-558 | the two passes in their order are one simultaneous escape |
| BitbucketQuery.ScanOfEscape | internal/services/bitbucket/bitbucket.go:557-559 | a scanner of quoted literals stops exactly at the closing quote and gives the ref back, for every ref and whatever follows |
| BitbucketQuery.QueryMeansTheFilter | internal/services/bitbucket/bitbucket.go:554-570 | for every ref and status the query reads back, by a grammar that knows neither, as exactly the ref comparison and the status comparison |
| BitbucketQuery.QuerySelects | internal/services/bitbucket/bitbucket.go:646-713 | among all pipelines the query selects exactly those of the ref asked for that will be listed with the status asked for, except those in another state or with another result that is listed alike |
| BitbucketQuery.StatusSelects | internal/services/bitbucket/bitbucket.go:647-713 | each status that can be asked for has one clause, which holds of exactly the pipelines listed with that status except those sub-states |
| BitbucketQuery.ClauseMisses | internal/services/bitbucket/bitbucket.go:646-713 | the pipelines the clause of their own listed status misses: expired, with another result than those named, paused, in another state |
| BitbucketQuery.OrderMattersIff | internal/services/bitbucket/bitbucket.go:557-558 | the two passes in the other order give the same if and only if the ref has no quote |

## Left out

- HTTP handlers, routing, generated code, Kubernetes access, provider JSON decoding, avatars, timestamps: plumbing.
- Inside the cache library and singleflight: only their contracts are modelled (keyed map with expiry, errors not
  stored, one leader per key). Random eviction appears as removals at any time.
- Early refresh of the trace tiers and markers: those caches do not use it.
- Panics in a flight and the leader's context: a cancelled leader is one of the ways a fetch can fail for its followers.
- Scans that never return: `Iterators.NeverFinishesIffTrapped` says which they are; the scan methods are proved for
  all others. `Iterators.CollectRepositories` needs a chain that ends, by `Iterators.CollectorNeedsTheEnd`.
- Early refreshes in `ListCaching` may happen at any read past the minimum delay; the maximum delay, by which a read
  must start one, and the back-off between refreshes only make runs fewer and are not modelled.
- ListService.ListThroughCache: leaves out the background refresh that a hit may start, which ends later as a step of
  `ListCaching`.
- PullRequests.PostFilterTotal: does not relate the totals of pages beyond 64 bits to the number of matches, because
  there they are the wrapped sums that `PullRequests.PostFiltered64` states.
- `ListUserOrganizations`: two tasks that share nothing until both are joined.
- URL encoding of the Bitbucket query, and the "skipped" status, which is answered without a query.
- GitLab's repository listing, which drops the pagination option, and the error mapping of all providers.
- GitLab's pipeline status table and the source tables, project path splitting: finite case splits settled by one
  reading.
- What a job's life cycle is in detail: it is taken to move forward through the statuses that
  `internal/services/gitlab/gitlab.go:528-547` names, and success, failed, canceled and skipped never to change
  again, as `internal/services/pipelines/pipelines_provider.go:83` says; of other statuses nothing is assumed but that
  they come first.
- The HTTP status of an unsupported cache endpoint: `internal/api/cache_handler.go:46` compares with a text that
  `internal/cache/manager.go:88` never produces.
- The library's stable sort is modelled as insertion sort; `JobListing.StableSortUnique` shows any stable sort agrees.
- Provider errors are texts; wrapping them with context is not modelled.

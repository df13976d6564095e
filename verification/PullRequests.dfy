/** GitHub pull request listing: the direct path, and the post-filtered path for merged and closed. */
module PullRequests {
  import opened Wrappers
  import opened Decimal
  import opened Pagination

  // ---------- Pull requests and their states ----------

  /** GitHub's pull request, as far as the listing looks at it. */
  datatype GhPullRequest = GhPullRequest(id: int, number: int, title: string, state: string, mergedAt: Option<int>)

  datatype PrState = PrOpen | PrClosed | PrMerged

  datatype PullRequest = PullRequest(id: string, number: int, title: string, state: PrState)

  function MapPullRequestStateToGitHub(state: string): string {
    if state == "merged" || state == "closed" then "closed"
    else if state == "open" then "open"
    else "all"
  }

  predicate MatchesStateFilter(pr: GhPullRequest, state: string) {
    if state == "merged" then pr.mergedAt.Some?
    else if state == "closed" then pr.mergedAt.None?
    else true
  }

  function ConvertState(pr: GhPullRequest): PrState {
    if pr.mergedAt.Some? then PrMerged
    else if pr.state == "closed" then PrClosed
    else PrOpen
  }

  function Convert(pr: GhPullRequest): PullRequest {
    PullRequest(Itoa(pr.id), pr.number, pr.title, ConvertState(pr))
  }

  function ConvertAll(prs: seq<GhPullRequest>): (r: seq<PullRequest>)
    ensures |r| == |prs|
    ensures forall i :: 0 <= i < |prs| ==> r[i] == Convert(prs[i])
  {
    seq(|prs|, i requires 0 <= i < |prs| => Convert(prs[i]))
  }

  function Matching(prs: seq<GhPullRequest>, state: string): seq<GhPullRequest> {
    if prs == [] then []
    else (if MatchesStateFilter(prs[0], state) then [prs[0]] else []) + Matching(prs[1..], state)
  }

  lemma {:induction false} MatchingConcat(a: seq<GhPullRequest>, b: seq<GhPullRequest>, state: string)
    ensures Matching(a + b, state) == Matching(a, state) + Matching(b, state)
  {
    if a == [] {
      assert a + b == b;
    } else {
      var head := if MatchesStateFilter(a[0], state) then [a[0]] else [];
      MatchingConcat(a[1..], b, state);
      assert (a + b)[0] == a[0] && (a + b)[1..] == a[1..] + b;
      assert Matching(a, state) == head + Matching(a[1..], state);
      assert Matching(a + b, state) == head + (Matching(a[1..], state) + Matching(b, state));
    }
  }

  lemma MatchingSnoc(a: seq<GhPullRequest>, pr: GhPullRequest, state: string)
    ensures Matching(a + [pr], state) ==
            Matching(a, state) + if MatchesStateFilter(pr, state) then [pr] else []
  {
    MatchingConcat(a, [pr], state);
  }

  // ---------- Requests and responses ----------

  datatype ListOptions = ListOptions(state: string, page: int, perPage: int)

  datatype Response = Response(data: seq<PullRequest>, total: int, page: int, perPage: int)

  /** GitHub's answers by page number, a page without one failing with `failure`; and the turn from which
      the request's context is cancelled, if it is. A listing reads at most 50 pages, so a finite map
      stands for any provider. */
  datatype Provider = Provider(answers: map<int, Result<Page<GhPullRequest>, string>>, failure: string,
                               cancelledFrom: Option<nat>, cancellation: string)
  {
    function Fetch(page: int): Result<Page<GhPullRequest>, string> {
      if page in answers then answers[page] else Err(failure)
    }

    predicate Cancelled(turn: nat) {
      cancelledFrom.Some? && turn >= cancelledFrom.value
    }
  }

  const POST_FILTER_MAX_PAGES: nat := 50

  const POST_FILTER_PAGE_SIZE: nat := 100

  // ---------- The pages the listing may look at ----------

  datatype WalkEnd = Exhausted | Capped | Broken(error: string)

  datatype Walked = Walked(pages: seq<Page<GhPullRequest>>, end: WalkEnd)

  /** The pages from `page` on after `queried` queries: at most 50 queries in all, and how it ends. */
  function Walk(p: Provider, page: int, queried: nat): Walked
    decreases POST_FILTER_MAX_PAGES - queried, page
  {
    if p.Cancelled(queried) then Walked([], Broken(p.cancellation))
    else if queried >= POST_FILTER_MAX_PAGES then Walked([], Capped)
    else if p.Fetch(page).Err? then Walked([], Broken(p.Fetch(page).error))
    else
      var pg := p.Fetch(page).value;
      if pg.next == 0 then Walked([pg], Exhausted)
      else
        var rest := Walk(p, pg.next, queried + 1);
        Walked([pg] + rest.pages, rest.end)
  }

  function Flatten(pages: seq<Page<GhPullRequest>>): seq<GhPullRequest> {
    if pages == [] then [] else pages[0].items + Flatten(pages[1..])
  }

  /** All matching pull requests of the walk, in provider order. */
  function AllMatching(p: Provider, state: string): seq<GhPullRequest> {
    Matching(Flatten(Walk(p, 1, 0).pages), state)
  }

  // ---------- The specification: filter the flattened list, then slice ----------

  function Min(a: int, b: int): int {
    if a <= b then a else b
  }

  /** The slice [from, to) of a list, clipped at its end. */
  function Slice<T>(xs: seq<T>, from: nat, to: nat): seq<T>
    requires from <= to
  {
    xs[Min(from, |xs|)..Min(to, |xs|)]
  }

  /** What clamping leaves of the two 64-bit parameters. */
  predicate Clamped(opts: ListOptions) {
    1 <= opts.page <= MAX_INT64 && 1 <= opts.perPage <= 100
  }

  function Skipped(opts: ListOptions): int {
    (opts.page - 1) * opts.perPage
  }

  lemma SkippedNonNegative(opts: ListOptions)
    requires Clamped(opts)
    ensures 0 <= Skipped(opts) && Skipped(opts) + opts.perPage == opts.page * opts.perPage
  {
    assert (opts.page - 1) * opts.perPage == opts.page * opts.perPage - opts.perPage;
    ProductNonNegative(opts.page - 1, opts.perPage);
  }

  /** What the listing answers, told without loops or counters: if the matches fill the page, that page
      and the total `Page*PerPage + 1`; otherwise the walk's error, or what there is of the page. */
  function PostFiltered(p: Provider, opts: ListOptions): Result<Response, string>
    requires Clamped(opts)
  {
    SkippedNonNegative(opts);
    var skip := Skipped(opts);
    var matches := AllMatching(p, opts.state);
    var data := ConvertAll(Slice(matches, skip, skip + opts.perPage));
    if |matches| >= skip + opts.perPage then
      Ok(Response(data, opts.page * opts.perPage + 1, opts.page, opts.perPage))
    else
      match Walk(p, 1, 0).end
      case Broken(e) => Err(e)
      case _ => Ok(Response(data, skip + |data|, opts.page, opts.perPage))
  }

  // ---------- The same on 64-bit integers ----------

  /** The skip counter as it is computed: for very large pages the product wraps around. */
  function Skip64(opts: ListOptions): int {
    Wrap64(Skipped(opts))
  }

  /** How many matches a skip counter passes over; a negative one passes over none. */
  function Passed(skip: int): nat {
    if skip < 0 then 0 else skip
  }

  /** What the listing answers with every product and sum wrapped as the code wraps it. */
  function PostFiltered64(p: Provider, opts: ListOptions): Result<Response, string>
    requires Clamped(opts)
  {
    var from := Passed(Skip64(opts));
    var matches := AllMatching(p, opts.state);
    var data := ConvertAll(Slice(matches, from, from + opts.perPage));
    if |matches| >= from + opts.perPage then
      Ok(Response(data, Wrap64(Wrap64(opts.page * opts.perPage) + 1), opts.page, opts.perPage))
    else
      match Walk(p, 1, 0).end
      case Broken(e) => Err(e)
      case _ => Ok(Response(data, Wrap64(Skip64(opts) + |data|), opts.page, opts.perPage))
  }

  // ---------- The loop, and its refinement of the specification ----------

  lemma {:induction false} FlattenConcat(a: seq<Page<GhPullRequest>>, b: seq<Page<GhPullRequest>>)
    ensures Flatten(a + b) == Flatten(a) + Flatten(b)
  {
    if a == [] {
      assert a + b == b;
    } else {
      assert (a + b)[1..] == a[1..] + b;
      FlattenConcat(a[1..], b);
    }
  }

  lemma FlattenSnoc(a: seq<Page<GhPullRequest>>, pg: Page<GhPullRequest>)
    ensures Flatten(a + [pg]) == Flatten(a) + pg.items
  {
    FlattenConcat(a, [pg]);
    assert Flatten([pg]) == pg.items + Flatten([]);
  }

  /** What `skip` and `result` hold once the matches `seen` have gone by, from `skip0` on. */
  predicate Counters(seen: seq<GhPullRequest>, skip0: int, skip: int, result: seq<PullRequest>) {
    && skip == (if skip0 <= 0 then skip0 else if |seen| <= skip0 then skip0 - |seen| else 0)
    && result == ConvertAll(seen[Min(Passed(skip0), |seen|)..])
  }

  lemma CountersSkip(seen: seq<GhPullRequest>, pr: GhPullRequest, skip0: int, skip: int, result: seq<PullRequest>)
    requires Counters(seen, skip0, skip, result) && skip > 0
    ensures Counters(seen + [pr], skip0, skip - 1, result)
  {
    assert (seen + [pr])[Min(skip0, |seen| + 1)..] == [];
  }

  lemma CountersTake(seen: seq<GhPullRequest>, pr: GhPullRequest, skip0: int, skip: int, result: seq<PullRequest>)
    requires Counters(seen, skip0, skip, result) && skip <= 0
    ensures Counters(seen + [pr], skip0, skip, result + [Convert(pr)])
  {
    assert (seen + [pr])[Passed(skip0)..] == seen[Passed(skip0)..] + [pr];
  }

  /** A page filled by the first matches is the slice of all matches. */
  lemma FilledPage(seen: seq<GhPullRequest>, later: seq<GhPullRequest>, from: nat, needed: nat)
    requires |seen| == from + needed
    ensures Slice(seen + later, from, from + needed) == seen[from..]
  {
  }

  /** The page number the walk turns to after its first i pages. */
  function Turn(walked: seq<Page<GhPullRequest>>, i: nat): int
    requires i <= |walked|
  {
    if i == 0 then 1 else walked[i - 1].next
  }

  /** The loop has walked these pages, one query each, and none of them was the last. */
  predicate Walking(p: Provider, walked: seq<Page<GhPullRequest>>) {
    && |walked| <= POST_FILTER_MAX_PAGES
    && forall i :: 0 <= i < |walked| ==>
         !p.Cancelled(i) && p.Fetch(Turn(walked, i)) == Ok(walked[i]) && walked[i].next != 0
  }

  lemma WalkOne(p: Provider, page: int, queried: nat, pg: Page<GhPullRequest>)
    requires !p.Cancelled(queried) && queried < POST_FILTER_MAX_PAGES && p.Fetch(page) == Ok(pg) && pg.next != 0
    ensures var rest := Walk(p, pg.next, queried + 1);
            Walk(p, page, queried) == Walked([pg] + rest.pages, rest.end)
  {
  }

  lemma WalkingShorter(p: Provider, walked: seq<Page<GhPullRequest>>)
    requires Walking(p, walked) && walked != []
    ensures var shorter := walked[..|walked| - 1];
            Walking(p, shorter) && Turn(shorter, |shorter|) == Turn(walked, |shorter|)
  {
    var shorter := walked[..|walked| - 1];
    assert forall i :: 0 <= i <= |shorter| ==> Turn(shorter, i) == Turn(walked, i);
  }

  /** Then the whole walk is these pages and what follows from where the loop stands. */
  lemma {:induction false} WalkSoFar(p: Provider, walked: seq<Page<GhPullRequest>>)
    requires Walking(p, walked)
    ensures var rest := Walk(p, Turn(walked, |walked|), |walked|);
            Walk(p, 1, 0) == Walked(walked + rest.pages, rest.end)
    decreases |walked|
  {
    var n := |walked| - 1;
    if n < 0 {
      assert walked + Walk(p, 1, 0).pages == Walk(p, 1, 0).pages;
    } else {
      WalkingShorter(p, walked);
      WalkSoFar(p, walked[..n]);
      WalkOne(p, Turn(walked, n), n, walked[n]);
      WalkJoins(walked[..n], walked[n], Walk(p, walked[n].next, n + 1));
      assert walked == walked[..n] + [walked[n]];
    }
  }

  lemma WalkJoins(walked: seq<Page<GhPullRequest>>, pg: Page<GhPullRequest>, rest: Walked)
    ensures walked + ([pg] + rest.pages) == walked + [pg] + rest.pages
  {
  }

  /** The walk ends with these pages, in this way. */
  predicate WalkEnds(p: Provider, walked: seq<Page<GhPullRequest>>, end: WalkEnd) {
    Walk(p, 1, 0) == Walked(walked, end)
  }

  /** The inner loop: goes through one page, skipping and taking matches, until the result is full. */
  method FilterPage(ghPRs: seq<GhPullRequest>, state: string, needed: int, skip: int, result: seq<PullRequest>,
                    ghost seen: seq<GhPullRequest>, ghost skip0: int)
    returns (skip': int, result': seq<PullRequest>, i: nat, filled: bool)
    requires Counters(seen, skip0, skip, result) && |result| < needed
    ensures i <= |ghPRs| && Counters(seen + Matching(ghPRs[..i], state), skip0, skip', result')
    ensures filled ==> |result'| == needed
    ensures !filled ==> |result'| < needed && i == |ghPRs|
  {
    skip', result', i := skip, result, 0;
    assert seen + Matching(ghPRs[..0], state) == seen;
    while i < |ghPRs|
      invariant i <= |ghPRs|
      invariant Counters(seen + Matching(ghPRs[..i], state), skip0, skip', result') && |result'| < needed
    {
      var pr := ghPRs[i];
      ghost var sofar := seen + Matching(ghPRs[..i], state);
      MatchingSnoc(ghPRs[..i], pr, state);
      assert ghPRs[..i + 1] == ghPRs[..i] + [pr];
      i := i + 1;
      if !MatchesStateFilter(pr, state) {
        continue;
      }
      assert seen + Matching(ghPRs[..i], state) == sofar + [pr];
      if skip' > 0 {
        CountersSkip(sofar, pr, skip0, skip', result');
        skip' := skip' - 1;
        continue;
      }
      CountersTake(sofar, pr, skip0, skip', result');
      result' := result' + [Convert(pr)];
      if |result'| >= needed {
        return skip', result', i, true;
      }
    }
    filled := false;
  }

  /** The post-filtering loop, with its counters, its early return and its page cap, filters and slices
      the flattened pages, in at most 50 queries whatever page numbers the provider hands out. */
  method ListPullRequestsWithPostFilter(p: Provider, opts: ListOptions)
    returns (res: Result<Response, string>, pagesQueried: nat)
    requires Clamped(opts)
    ensures res == PostFiltered64(p, opts)
    ensures pagesQueried <= POST_FILTER_MAX_PAGES
  {
    var needed := opts.perPage;
    var skip := Skip64(opts);
    ghost var skip0 := skip;
    var result: seq<PullRequest> := [];
    var ghPage := 1;
    pagesQueried := 0;
    ghost var walked: seq<Page<GhPullRequest>> := [];
    while true
      invariant Walking(p, walked) && |walked| == pagesQueried && ghPage == Turn(walked, |walked|)
      invariant Counters(Matching(Flatten(walked), opts.state), skip0, skip, result) && |result| < needed
      decreases POST_FILTER_MAX_PAGES - pagesQueried
    {
      if p.Cancelled(pagesQueried) {
        AnswerAtEnd(p, opts, walked, skip0, skip, result);
        return Err(p.cancellation), pagesQueried;
      }
      if pagesQueried >= POST_FILTER_MAX_PAGES {
        AnswerAtEnd(p, opts, walked, skip0, skip, result);
        break;
      }
      var answer := p.Fetch(ghPage);
      pagesQueried := pagesQueried + 1;
      if answer.Err? {
        AnswerAtEnd(p, opts, walked, skip0, skip, result);
        return Err(answer.error), pagesQueried;
      }
      var taken, filled;
      skip, result, taken, filled := FilterPage(answer.value.items, opts.state, needed, skip, result,
                                                Matching(Flatten(walked), opts.state), skip0);
      if filled {
        Filled(p, opts, walked, answer.value, taken, skip0, skip, result);
        var total := Wrap64(Wrap64(opts.page * opts.perPage) + 1);
        return Ok(Response(result, total, opts.page, opts.perPage)), pagesQueried;
      }
      if answer.value.next == 0 {
        AnswerAfterLast(p, opts, walked, answer.value, skip0, skip, result);
        break;
      }
      WalkingGrows(p, opts.state, walked, answer.value, skip0, skip, result);
      walked := walked + [answer.value];
      ghPage := answer.value.next;
    }
    var total := Wrap64(Skip64(opts) + |result|);
    res := Ok(Response(result, total, opts.page, opts.perPage));
  }

  lemma MatchingWalked(walked: seq<Page<GhPullRequest>>, pg: Page<GhPullRequest>, state: string)
    ensures Matching(Flatten(walked + [pg]), state) ==
            Matching(Flatten(walked), state) + Matching(pg.items[..|pg.items|], state)
  {
    FlattenSnoc(walked, pg);
    MatchingConcat(Flatten(walked), pg.items, state);
    assert pg.items[..|pg.items|] == pg.items;
  }

  /** When the walk ends before the page is full, its error or what there is of the page is the answer. */
  lemma Unfilled(p: Provider, opts: ListOptions, walked: seq<Page<GhPullRequest>>, end: WalkEnd,
                 skip0: int, skip: int, result: seq<PullRequest>)
    requires Clamped(opts) && skip0 == Skip64(opts) && WalkEnds(p, walked, end)
    requires Counters(Matching(Flatten(walked), opts.state), skip0, skip, result) && |result| < opts.perPage
    ensures PostFiltered64(p, opts) ==
            if end.Broken? then Err(end.error)
            else Ok(Response(result, Wrap64(skip0 + |result|), opts.page, opts.perPage))
  {
    var all := AllMatching(p, opts.state);
    var from := Passed(skip0);
    assert all[Min(from, |all|)..] == Slice(all, from, from + opts.perPage);
  }

  /** Where the loop leaves with the page unfilled: cancelled, at the cap, or at a failing page. */
  lemma AnswerAtEnd(p: Provider, opts: ListOptions, walked: seq<Page<GhPullRequest>>,
                    skip0: int, skip: int, result: seq<PullRequest>)
    requires Clamped(opts) && skip0 == Skip64(opts) && Walking(p, walked)
    requires Counters(Matching(Flatten(walked), opts.state), skip0, skip, result) && |result| < opts.perPage
    ensures p.Cancelled(|walked|) ==> PostFiltered64(p, opts) == Err(p.cancellation)
    ensures !p.Cancelled(|walked|) && |walked| == POST_FILTER_MAX_PAGES ==>
              PostFiltered64(p, opts) == Ok(Response(result, Wrap64(skip0 + |result|), opts.page, opts.perPage))
    ensures !p.Cancelled(|walked|) && |walked| < POST_FILTER_MAX_PAGES && p.Fetch(Turn(walked, |walked|)).Err? ==>
              PostFiltered64(p, opts) == Err(p.Fetch(Turn(walked, |walked|)).error)
  {
    WalkSoFar(p, walked);
    assert walked + [] == walked;
    var rest := Walk(p, Turn(walked, |walked|), |walked|);
    if rest.pages == [] {
      Unfilled(p, opts, walked, rest.end, skip0, skip, result);
    }
  }

  /** Where the last page has been gone through with the page unfilled. */
  lemma AnswerAfterLast(p: Provider, opts: ListOptions, walked: seq<Page<GhPullRequest>>, pg: Page<GhPullRequest>,
                        skip0: int, skip: int, result: seq<PullRequest>)
    requires Clamped(opts) && skip0 == Skip64(opts) && Walking(p, walked) && Answered(p, walked, pg)
    requires pg.next == 0
    requires Counters(Matching(Flatten(walked), opts.state) + Matching(pg.items[..|pg.items|], opts.state),
                      skip0, skip, result) && |result| < opts.perPage
    ensures PostFiltered64(p, opts) == Ok(Response(result, Wrap64(skip0 + |result|), opts.page, opts.perPage))
  {
    MatchingWalked(walked, pg, opts.state);
    WalkSoFar(p, walked);
    Unfilled(p, opts, walked + [pg], Exhausted, skip0, skip, result);
  }

  /** The provider answers the next query of the walk with this page. */
  predicate Answered(p: Provider, walked: seq<Page<GhPullRequest>>, pg: Page<GhPullRequest>) {
    !p.Cancelled(|walked|) && |walked| < POST_FILTER_MAX_PAGES && p.Fetch(Turn(walked, |walked|)) == Ok(pg)
  }

  /** Where the loop goes on to the next page. */
  lemma WalkingGrows(p: Provider, state: string, walked: seq<Page<GhPullRequest>>, pg: Page<GhPullRequest>,
                     skip0: int, skip: int, result: seq<PullRequest>)
    requires Walking(p, walked) && Answered(p, walked, pg) && pg.next != 0
    requires Counters(Matching(Flatten(walked), state) + Matching(pg.items[..|pg.items|], state), skip0, skip, result)
    ensures Walking(p, walked + [pg]) && Turn(walked + [pg], |walked + [pg]|) == pg.next
    ensures Counters(Matching(Flatten(walked + [pg]), state), skip0, skip, result)
  {
    MatchingWalked(walked, pg, state);
  }

  /** Once the page is full, the matches seen are a prefix of all matches and end where the slice ends. */
  lemma Filled(p: Provider, opts: ListOptions, walked: seq<Page<GhPullRequest>>, pg: Page<GhPullRequest>, i: nat,
               skip0: int, skip: int, result: seq<PullRequest>)
    requires Clamped(opts) && skip0 == Skip64(opts) && i <= |pg.items|
    requires Walking(p, walked) && Answered(p, walked, pg)
    requires Counters(Matching(Flatten(walked), opts.state) + Matching(pg.items[..i], opts.state), skip0, skip, result)
    requires |result| == opts.perPage
    ensures PostFiltered64(p, opts) ==
            Ok(Response(result, Wrap64(Wrap64(opts.page * opts.perPage) + 1), opts.page, opts.perPage))
  {
    WalkSoFar(p, walked);
    var before := Flatten(walked) + pg.items[..i];
    var after := AllAfter(p, walked, pg, i);
    MatchingConcat(Flatten(walked), pg.items[..i], opts.state);
    MatchingConcat(before, after, opts.state);
    FilledPage(Matching(before, opts.state), Matching(after, opts.state), Passed(skip0), opts.perPage);
  }

  lemma AllAfter(p: Provider, walked: seq<Page<GhPullRequest>>, pg: Page<GhPullRequest>, i: nat)
    returns (after: seq<GhPullRequest>)
    requires i <= |pg.items| && walked + [pg] <= Walk(p, 1, 0).pages
    ensures Flatten(Walk(p, 1, 0).pages) == Flatten(walked) + pg.items[..i] + after
  {
    var all := Walk(p, 1, 0).pages;
    var rest := all[|walked| + 1..];
    after := pg.items[i..] + Flatten(rest);
    assert all == walked + [pg] + rest;
    FlattenConcat(walked + [pg], rest);
    FlattenSnoc(walked, pg);
    assert pg.items == pg.items[..i] + pg.items[i..];
  }

  // ---------- For which pages 64 bits are enough ----------

  /** The products fit, and 64-bit arithmetic does not show. */
  lemma FitsThenExact(p: Provider, opts: ListOptions)
    requires Clamped(opts) && opts.page * opts.perPage + 1 <= MAX_INT64
    ensures PostFiltered64(p, opts) == PostFiltered(p, opts)
  {
    FittingNumbers(opts);
    var from := Skipped(opts);
    FittingTotal(opts, |Slice(AllMatching(p, opts.state), from, from + opts.perPage)|);
  }

  /** None of the numbers the listing computes wraps. */
  lemma FittingNumbers(opts: ListOptions)
    requires Clamped(opts) && opts.page * opts.perPage + 1 <= MAX_INT64
    ensures 0 <= Skipped(opts) == Skip64(opts) == Passed(Skip64(opts))
    ensures Wrap64(Wrap64(opts.page * opts.perPage) + 1) == opts.page * opts.perPage + 1
  {
    SkippedNonNegative(opts);
  }

  lemma FittingTotal(opts: ListOptions, n: nat)
    requires Clamped(opts) && opts.page * opts.perPage + 1 <= MAX_INT64 && n <= opts.perPage
    ensures Wrap64(Skip64(opts) + n) == Skipped(opts) + n
  {
    SkippedNonNegative(opts);
  }

  /** Whatever the provider has, the loop answers what filtering and slicing would. */
  ghost predicate Exact(opts: ListOptions)
    requires Clamped(opts)
  {
    forall p: Provider :: PostFiltered64(p, opts) == PostFiltered(p, opts)
  }

  /** The exact condition, which a caller can check: the largest number the listing computes fits. */
  lemma ExactIff(opts: ListOptions)
    requires Clamped(opts)
    ensures Exact(opts) <==> opts.page * opts.perPage + 1 <= MAX_INT64
  {
    if opts.page * opts.perPage + 1 <= MAX_INT64 {
      forall p: Provider
        ensures PostFiltered64(p, opts) == PostFiltered(p, opts)
      {
        FitsThenExact(p, opts);
      }
    } else {
      SkippedNonNegative(opts);
      var p := Only(opts.state, opts.page * opts.perPage);
      OnlyMatches(opts.state, opts.page * opts.perPage);
      assert PostFiltered(p, opts).value.total > MAX_INT64;
      assert PostFiltered64(p, opts) != PostFiltered(p, opts);
    }
  }

  /** Pages of the size GitHub is asked for. */
  predicate SmallPages(p: Provider) {
    forall n :: n in p.answers && p.answers[n].Ok? ==> |p.answers[n].value.items| <= POST_FILTER_PAGE_SIZE
  }

  ghost predicate ExactOnSmallPages(opts: ListOptions)
    requires Clamped(opts)
  {
    forall p: Provider :: SmallPages(p) ==> PostFiltered64(p, opts) == PostFiltered(p, opts)
  }

  /** With at most 100 pull requests a page, the skip counter alone decides: no list is long enough to
      fill a page whose last place does not fit 64 bits. */
  lemma ExactOnSmallPagesIff(opts: ListOptions)
    requires Clamped(opts)
    ensures ExactOnSmallPages(opts) <==> Skipped(opts) <= MAX_INT64
  {
    SkippedNonNegative(opts);
    if Skipped(opts) <= MAX_INT64 {
      forall p: Provider | SmallPages(p)
        ensures PostFiltered64(p, opts) == PostFiltered(p, opts)
      {
        SmallWalk(p, 1, 0);
        MatchingLength(Flatten(Walk(p, 1, 0).pages), opts.state);
        if opts.page * opts.perPage + 1 <= MAX_INT64 {
          FitsThenExact(p, opts);
        }
      }
    } else {
      var p := Only(opts.state, 0);
      OnlyMatches(opts.state, 0);
      assert SmallPages(p) && PostFiltered(p, opts).value.total > MAX_INT64;
    }
  }

  /** Once the wrapped skip counter is not positive, a later page repeats the data of the first. */
  lemma WrappedSkipRepeats(p: Provider, opts: ListOptions)
    requires Clamped(opts) && Skip64(opts) <= 0
    ensures var first := PostFiltered64(p, opts.(page := 1));
            && (first.Err? ==> PostFiltered64(p, opts) == first)
            && (first.Ok? ==> PostFiltered64(p, opts).Ok? && PostFiltered64(p, opts).value.data == first.value.data)
  {
  }

  /** The largest page number there is: its skip counter starts at -200, so it answers the data of the
      first page, with a negative total. Another large one starts at 84. */
  lemma LastPageNumberRepeatsFirst(p: Provider, state: string)
    ensures Skip64(ListOptions(state, MAX_INT64, 100)) == -200
    ensures Skip64(ListOptions(state, 184467440737095518, 100)) == 84
    ensures match PostFiltered(p, ListOptions(state, 1, 100))
            case Err(e) => PostFiltered64(p, ListOptions(state, MAX_INT64, 100)) == Err(e)
            case Ok(first) =>
              var total := if |first.data| == 100 then -99 else -200 + |first.data|;
              PostFiltered64(p, ListOptions(state, MAX_INT64, 100)) ==
              Ok(Response(first.data, total, MAX_INT64, 100))
  {
    var opts, one := ListOptions(state, MAX_INT64, 100), ListOptions(state, 1, 100);
    assert Skip64(one) == 0 == Skipped(one);
    WrapTurns(-200, 50);
    WrapTurns(-100, 50);
  }

  /** Every page number a client is likely to send is exact. */
  lemma PagesBelowAreExact(p: Provider, opts: ListOptions)
    requires Clamped(opts) && opts.page <= MAX_INT64 / 100
    ensures PostFiltered64(p, opts) == PostFiltered(p, opts)
  {
    TotalFitsInt64(opts.page, opts.perPage);
    FitsThenExact(p, opts);
  }

  // Providers with one page.

  /** A pull request that passes the filter of this state. */
  function Passing(state: string): GhPullRequest {
    GhPullRequest(1, 1, "", "closed", if state == "merged" then Some(0) else None)
  }

  function Only(state: string, n: nat): Provider {
    Provider(map[1 := Ok(Page(seq(n, _ => Passing(state)), 0, 0))], "", None, "")
  }

  lemma {:induction false} AllPassing(prs: seq<GhPullRequest>, state: string)
    requires forall pr :: pr in prs ==> MatchesStateFilter(pr, state)
    ensures Matching(prs, state) == prs
  {
    if prs != [] {
      assert prs[0] in prs;
      assert forall pr :: pr in prs[1..] ==> pr in prs;
      AllPassing(prs[1..], state);
      assert prs == [prs[0]] + prs[1..];
    }
  }

  lemma OnlyMatches(state: string, n: nat)
    ensures Walk(Only(state, n), 1, 0).end == Exhausted && |AllMatching(Only(state, n), state)| == n
  {
    var pg: Page<GhPullRequest> := Page(seq(n, _ => Passing(state)), 0, 0);
    assert Only(state, n).Fetch(1) == Ok(pg);
    assert Walk(Only(state, n), 1, 0) == Walked([pg], Exhausted);
    assert |[pg][1..]| == 0;
    assert Flatten([pg]) == pg.items + Flatten([pg][1..]) == pg.items;
    AllPassing(pg.items, state);
  }

  lemma {:induction false} MatchingLength(prs: seq<GhPullRequest>, state: string)
    ensures |Matching(prs, state)| <= |prs|
  {
    if prs != [] {
      MatchingLength(prs[1..], state);
    }
  }

  /** Small pages make short walks. */
  lemma {:induction false} SmallWalk(p: Provider, page: int, queried: nat)
    requires SmallPages(p) && queried <= POST_FILTER_MAX_PAGES
    ensures |Flatten(Walk(p, page, queried).pages)| <= (POST_FILTER_MAX_PAGES - queried) * POST_FILTER_PAGE_SIZE
    decreases POST_FILTER_MAX_PAGES - queried
  {
    if !p.Cancelled(queried) && queried < POST_FILTER_MAX_PAGES && p.Fetch(page).Ok? {
      var pg := p.Fetch(page).value;
      assert page in p.answers;
      if pg.next == 0 {
        assert Flatten([pg]) == pg.items + Flatten([]);
      } else {
        SmallWalk(p, pg.next, queried + 1);
        var rest := Walk(p, pg.next, queried + 1);
        assert ([pg] + rest.pages)[1..] == rest.pages;
      }
    }
  }

  // ---------- Pages partition the list ----------

  /** The data of one page; nothing if it fails. */
  function DataOf(p: Provider, opts: ListOptions): seq<PullRequest>
    requires Clamped(opts)
  {
    match PostFiltered64(p, opts)
    case Ok(r) => r.data
    case Err(_) => []
  }

  /** The pages of a listing by number, and the first k of them one after the other. */
  function PagesOf(p: Provider, state: string, perPage: int): nat -> seq<PullRequest>
    requires 1 <= perPage <= 100
  {
    (k: nat) => if 1 <= k <= MAX_INT64 then DataOf(p, ListOptions(state, k, perPage)) else []
  }

  function PagesUpTo(pages: nat -> seq<PullRequest>, k: nat): seq<PullRequest> {
    if k == 0 then [] else PagesUpTo(pages, k - 1) + pages(k)
  }

  /** The walk does not break, or not before this many matches have gone by. */
  predicate Enough(p: Provider, state: string, count: nat) {
    !Walk(p, 1, 0).end.Broken? || |AllMatching(p, state)| >= count
  }

  lemma AnsweredAt(p: Provider, opts: ListOptions)
    requires Clamped(opts)
    ensures PostFiltered64(p, opts).Ok? <==> Enough(p, opts.state, Passed(Skip64(opts)) + opts.perPage)
  {
  }

  lemma SkipFits(opts: ListOptions)
    requires Clamped(opts) && Skipped(opts) <= MAX_INT64
    ensures 0 <= Skipped(opts) == Passed(Skip64(opts))
  {
    SkippedNonNegative(opts);
  }

  /** Exactly when a page is answered. */
  lemma AnsweredIff(p: Provider, opts: ListOptions)
    requires Clamped(opts) && Skipped(opts) <= MAX_INT64
    ensures 0 <= Skipped(opts)
    ensures PostFiltered64(p, opts).Ok? <==> Enough(p, opts.state, Skipped(opts) + opts.perPage)
  {
    SkipFits(opts);
    AnsweredAt(p, opts);
  }

  lemma PageData(p: Provider, opts: ListOptions)
    requires Clamped(opts) && Skipped(opts) <= MAX_INT64 && PostFiltered64(p, opts).Ok?
    ensures 0 <= Skipped(opts)
    ensures PostFiltered64(p, opts).value.data ==
            ConvertAll(Slice(AllMatching(p, opts.state), Skipped(opts), Skipped(opts) + opts.perPage))
  {
    SkippedNonNegative(opts);
  }

  lemma ConvertedSlicesJoin(prs: seq<GhPullRequest>, a: nat, b: nat)
    requires a <= b
    ensures ConvertAll(Slice(prs, 0, a)) + ConvertAll(Slice(prs, a, b)) == ConvertAll(Slice(prs, 0, b))
  {
    assert Slice(prs, 0, a) + Slice(prs, a, b) == Slice(prs, 0, b);
  }

  /** An answered page is its slice. */
  lemma PageIsSlice(p: Provider, state: string, perPage: int, k: nat, from: nat)
    requires 1 <= perPage <= 100 && 0 < k <= MAX_INT64
    requires from == (k - 1) * perPage <= MAX_INT64 && Enough(p, state, from + perPage)
    ensures PagesOf(p, state, perPage)(k) == ConvertAll(Slice(AllMatching(p, state), from, from + perPage))
  {
    AnsweredIff(p, ListOptions(state, k, perPage));
    PageData(p, ListOptions(state, k, perPage));
  }

  lemma Multiple(k: nat, d: nat)
    ensures 0 <= k * d
    ensures k > 0 ==> k * d == (k - 1) * d + d && 0 <= (k - 1) * d
  {
    ProductNonNegative(k, d);
    if k > 0 {
      ProductNonNegative(k - 1, d);
    }
  }

  function Place(k: nat, d: nat): (r: nat)
    ensures r == k * d
  {
    Multiple(k, d);
    k * d
  }

  lemma PlacesGrow(j: nat, k: nat, d: nat)
    requires j <= k
    ensures Place(j, d) <= Place(k, d)
    ensures j > 0 ==> Place(j, d) == Place(j - 1, d) + d
  {
    ProductNonNegative(k - j, d);
    assert (k - j) * d == k * d - j * d;
    Multiple(j, d);
  }

  predicate SliceAt(pages: nat -> seq<PullRequest>, all: seq<GhPullRequest>, d: nat, j: nat)
    requires 0 < j
  {
    pages(j) == ConvertAll(Slice(all, Place(j - 1, d), Place(j - 1, d) + d))
  }

  /** Slices that follow each other make one slice. */
  lemma {:induction false} SlicesJoin(pages: nat -> seq<PullRequest>, all: seq<GhPullRequest>, d: nat, k: nat)
    requires forall j :: 0 < j <= k ==> SliceAt(pages, all, d, j)
    ensures PagesUpTo(pages, k) == ConvertAll(Slice(all, 0, Place(k, d)))
  {
    if k > 0 {
      SlicesJoin(pages, all, d, k - 1);
      PlacesGrow(k, k, d);
      assert SliceAt(pages, all, d, k);
      ConvertedSlicesJoin(all, Place(k - 1, d), Place(k, d));
    }
  }

  /** Page k is answered. A provider that fails only after page k is full does not keep it from that. */
  predicate PageAnswered(p: Provider, state: string, perPage: int, k: nat)
    requires 1 <= perPage <= 100 && k <= MAX_INT64
  {
    k == 0 || PostFiltered64(p, ListOptions(state, k, perPage)).Ok?
  }

  /** The pages before an answered one are answered. */
  lemma EarlierAnswered(p: Provider, state: string, perPage: int, j: nat, k: nat)
    requires 1 <= perPage <= 100 && 0 < j <= k <= MAX_INT64 && PageAnswered(p, state, perPage, k)
    requires (k - 1) * perPage <= MAX_INT64
    ensures Place(j - 1, perPage) <= MAX_INT64 && Enough(p, state, Place(j - 1, perPage) + perPage)
  {
    AnsweredIff(p, ListOptions(state, k, perPage));
    PlacesGrow(j - 1, k - 1, perPage);
  }

  /** For a fixed provider that answers page k, pages 1..k together are exactly the first k*PerPage matches:
      no gap, no repetition, no reordering; as long as the last of them can be skipped to. */
  lemma PagesPartition(p: Provider, state: string, perPage: int, k: nat)
    requires 1 <= perPage <= 100 && k <= MAX_INT64 && PageAnswered(p, state, perPage, k)
    requires (k - 1) * perPage <= MAX_INT64
    ensures 0 <= k * perPage
    ensures PagesUpTo(PagesOf(p, state, perPage), k) == ConvertAll(Slice(AllMatching(p, state), 0, k * perPage))
  {
    var all, pages := AllMatching(p, state), PagesOf(p, state, perPage);
    forall j | 0 < j <= k
      ensures SliceAt(pages, all, perPage, j)
    {
      EarlierAnswered(p, state, perPage, j, k);
      PageIsSlice(p, state, perPage, j, Place(j - 1, perPage));
    }
    SlicesJoin(pages, all, perPage, k);
  }

  ghost predicate Partitions(state: string, perPage: int, k: nat)
    requires 1 <= perPage <= 100 && k <= MAX_INT64 && 0 <= k * perPage
  {
    forall p: Provider :: PageAnswered(p, state, perPage, k) ==>
      PagesUpTo(PagesOf(p, state, perPage), k) == ConvertAll(Slice(AllMatching(p, state), 0, k * perPage))
  }

  /** Exactly how far the pages partition every list: to the last page whose skip counter fits. */
  lemma PagesPartitionIff(state: string, perPage: int, k: nat)
    requires 1 <= perPage <= 100 && k <= MAX_INT64
    ensures 0 <= k * perPage
    ensures Partitions(state, perPage, k) <==> (k - 1) * perPage <= MAX_INT64
  {
    Multiple(k, perPage);
    if (k - 1) * perPage <= MAX_INT64 {
      forall p: Provider | PageAnswered(p, state, perPage, k)
        ensures PagesUpTo(PagesOf(p, state, perPage), k) == ConvertAll(Slice(AllMatching(p, state), 0, k * perPage))
      {
        PagesPartition(p, state, perPage, k);
      }
    } else {
      var p := Only(state, 1);
      OnlyMatches(state, 1);
      WrappedPageRepeats(state, perPage, k);
      assert |PagesUpTo(PagesOf(p, state, perPage), k)| > |ConvertAll(Slice(AllMatching(p, state), 0, k * perPage))|;
    }
  }

  /** The first page whose skip counter does not fit. */
  lemma {:induction false} FirstWrapped(perPage: nat, k: nat, skip: nat) returns (first: nat)
    requires 1 <= perPage && 0 < k && skip == (k - 1) * perPage > MAX_INT64
    ensures 1 < first <= k && (first - 2) * perPage <= MAX_INT64 < (first - 1) * perPage
    decreases k
  {
    assert (k - 2) * perPage == skip - perPage;
    if skip - perPage > MAX_INT64 {
      first := FirstWrapped(perPage, k - 1, skip - perPage);
    } else {
      first := k;
    }
  }

  /** Up to a page that wraps, a list of one pull request has been answered twice. */
  lemma WrappedPageRepeats(state: string, perPage: int, k: nat)
    requires 1 <= perPage <= 100 && 0 < k <= MAX_INT64 && (k - 1) * perPage > MAX_INT64
    ensures |PagesUpTo(PagesOf(Only(state, 1), state, perPage), k)| >= 2
  {
    var pages := PagesOf(Only(state, 1), state, perPage);
    var first := FirstWrapped(perPage, k, (k - 1) * perPage);
    FirstPagesHaveOne(state, perPage, first - 1);
    FirstWrappedHasOne(state, perPage, first);
    PagesUpToGrows(pages, first, first);
    PagesUpToGrows(pages, first, k);
  }

  /** More pages, no less data. */
  lemma {:induction false} PagesUpToGrows(pages: nat -> seq<PullRequest>, j: nat, k: nat)
    requires j <= k
    ensures |PagesUpTo(pages, j)| <= |PagesUpTo(pages, k)|
    ensures 0 < j ==> |PagesUpTo(pages, j)| == |PagesUpTo(pages, j - 1)| + |pages(j)|
    decreases k
  {
    if j < k {
      PagesUpToGrows(pages, j, k - 1);
    }
  }

  lemma FirstWrappedHasOne(state: string, perPage: int, first: nat)
    requires 1 <= perPage <= 100 && 1 < first <= MAX_INT64
    requires (first - 2) * perPage <= MAX_INT64 < (first - 1) * perPage
    ensures |PagesOf(Only(state, 1), state, perPage)(first)| == 1
  {
    assert (first - 1) * perPage == (first - 2) * perPage + perPage;
    WrappedPageHasOne(ListOptions(state, first, perPage));
  }

  lemma FirstPagesHaveOne(state: string, perPage: int, k: nat)
    requires 1 <= perPage <= 100 && 0 < k <= MAX_INT64 && (k - 1) * perPage <= MAX_INT64
    ensures |PagesUpTo(PagesOf(Only(state, 1), state, perPage), k)| == 1
  {
    Multiple(k, perPage);
    OnlyMatches(state, 1);
    PagesPartition(Only(state, 1), state, perPage, k);
  }

  lemma WrappedPageHasOne(opts: ListOptions)
    requires Clamped(opts) && MAX_INT64 < Skipped(opts) <= MAX_INT64 + 100
    ensures |DataOf(Only(opts.state, 1), opts)| == 1
  {
    OnlyMatches(opts.state, 1);
    JustWrapped(Skipped(opts));
  }

  lemma JustWrapped(n: int)
    requires MAX_INT64 < n <= MAX_INT64 + 100
    ensures Wrap64(n) < 0
  {
    assert n - MIN_INT64 == TWO_TO_64 + (n - MAX_INT64 - 1);
  }

  lemma DataIsOfTheMatches(p: Provider, opts: ListOptions, i: nat) returns (pr: GhPullRequest)
    requires Clamped(opts) && PostFiltered64(p, opts).Ok? && i < |PostFiltered64(p, opts).value.data|
    ensures pr in AllMatching(p, opts.state) && PostFiltered64(p, opts).value.data[i] == Convert(pr)
  {
    var from := Passed(Skip64(opts));
    var slice := Slice(AllMatching(p, opts.state), from, from + opts.perPage);
    assert PostFiltered64(p, opts).value.data == ConvertAll(slice);
    pr := slice[i];
  }

  /** A filtered page never holds a pull request of another state, when GitHub honours the state the
      listing asks it for. */
  lemma PagesHaveTheState(p: Provider, opts: ListOptions, i: nat)
    requires Clamped(opts) && (opts.state == "merged" || opts.state == "closed")
    requires forall pr :: pr in Flatten(Walk(p, 1, 0).pages) ==> pr.state == MapPullRequestStateToGitHub(opts.state)
    requires PostFiltered64(p, opts).Ok? && i < |PostFiltered64(p, opts).value.data|
    ensures PostFiltered64(p, opts).value.data[i].state == if opts.state == "merged" then PrMerged else PrClosed
  {
    var pr := DataIsOfTheMatches(p, opts, i);
    MatchingOnly(Flatten(Walk(p, 1, 0).pages), opts.state, pr);
  }

  lemma {:induction false} MatchingOnly(prs: seq<GhPullRequest>, state: string, pr: GhPullRequest)
    ensures pr in Matching(prs, state) <==> pr in prs && MatchesStateFilter(pr, state)
  {
    if prs != [] {
      MatchingOnly(prs[1..], state, pr);
      assert pr in prs <==> pr == prs[0] || pr in prs[1..];
    }
  }

  // ---------- The listing over plain lists ----------

  /** The provider hands out these lists, one a page: page i names page i + 1, and the last one none. Or, after
      them, the listing is cancelled or the next page fails. */
  predicate HandsOut(p: Provider, lists: seq<seq<GhPullRequest>>, failure: Option<string>) {
    && (lists != [] || failure.Some?)
    && (forall i :: 0 <= i < |lists| ==>
          && !p.Cancelled(i) && p.Fetch(i + 1).Ok? && p.Fetch(i + 1).value.items == lists[i]
          && p.Fetch(i + 1).value.next == if i + 1 < |lists| || failure.Some? then i + 2 else 0)
    && match failure
       case None => p.cancelledFrom.None?
       case Some(e) => FailsAt(p, |lists|, e)
  }

  predicate FailsAt(p: Provider, turn: nat, e: string) {
    if p.Cancelled(turn) then e == p.cancellation else p.Fetch(turn + 1) == Err(e)
  }

  /** The failure comes before fifty pages have been read, or it is a cancellation right then. */
  predicate FailsInTime(p: Provider, lists: seq<seq<GhPullRequest>>, failure: Option<string>) {
    failure.Some? && (|lists| < 50 || (|lists| == 50 && p.Cancelled(50)))
  }

  function Where<T>(xs: seq<T>, keep: T -> bool): seq<T> {
    if xs == [] then [] else (if keep(xs[0]) then [xs[0]] else []) + Where(xs[1..], keep)
  }

  lemma {:induction false} MatchingIsWhere(prs: seq<GhPullRequest>, state: string, keep: GhPullRequest -> bool)
    requires forall pr: GhPullRequest :: keep(pr) == MatchesStateFilter(pr, state)
    ensures Matching(prs, state) == Where(prs, keep)
  {
    if prs != [] {
      MatchingIsWhere(prs[1..], state, keep);
    }
  }

  /** From page i on, the walk goes through the rest of the first fifty lists, and meets the failure if it
      comes in time. */
  lemma {:induction false} RestIsWalked(p: Provider, lists: seq<seq<GhPullRequest>>, failure: Option<string>, i: nat)
    requires HandsOut(p, lists, failure) && i <= 50 && (i < |lists| || (i == |lists| && failure.Some?))
    ensures var walked := Walk(p, i + 1, i);
            && (walked.end.Broken? <==> FailsInTime(p, lists, failure))
            && (walked.end.Broken? ==> walked.end.error == failure.value)
            && Flatten(walked.pages) == Joined(lists[i..Max(i, Min(50, |lists|))])
    decreases 50 - i
  {
    var end := Max(i, Min(50, |lists|));
    if i < 50 && i < |lists| {
      assert !p.Cancelled(i) && p.Fetch(i + 1).Ok? && p.Fetch(i + 1).value.items == lists[i];
      var pg := p.Fetch(i + 1).value;
      assert lists[i..end][0] == lists[i] && lists[i..end][1..] == lists[i + 1..end];
      assert [pg][1..] == [];
      if pg.next != 0 {
        RestIsWalked(p, lists, failure, i + 1);
        var rest := Walk(p, i + 2, i + 1);
        assert ([pg] + rest.pages)[1..] == rest.pages;
        assert Max(i + 1, Min(50, |lists|)) == end;
      } else {
        assert lists[i + 1..end] == [];
        assert Flatten([pg]) == pg.items + Flatten([]);
      }
    } else {
      var none := lists[i..end];
      assert none == [];
      if i < |lists| {
        assert !p.Cancelled(i) && p.Fetch(i + 1).value.items == lists[i];
      } else {
        assert FailsAt(p, i, failure.value);
      }
      assert Walk(p, i + 1, i).pages == [];
      assert Joined(none) == [];
    }
  }

  function Max(a: int, b: int): int {
    if a >= b then a else b
  }

  /** The pull requests a listing of this state is to show: the merged ones, or those closed without. */
  function Wanted(state: string, prs: seq<GhPullRequest>): seq<GhPullRequest>
    requires state == "merged" || state == "closed"
  {
    if state == "merged" then Where(prs, (pr: GhPullRequest) => pr.mergedAt.Some?)
    else Where(prs, (pr: GhPullRequest) => pr.mergedAt.None?)
  }

  lemma MatchesOfTheList(p: Provider, lists: seq<seq<GhPullRequest>>, failure: Option<string>, state: string)
    requires HandsOut(p, lists, failure) && (state == "merged" || state == "closed")
    ensures Walk(p, 1, 0).end.Broken? <==> FailsInTime(p, lists, failure)
    ensures Walk(p, 1, 0).end.Broken? ==> Walk(p, 1, 0).end.error == failure.value
    ensures AllMatching(p, state) == Wanted(state, Joined(lists[..Min(50, |lists|)]))
  {
    var first := lists[..Min(50, |lists|)];
    RestIsWalked(p, lists, failure, 0);
    assert lists[0..Max(0, Min(50, |lists|))] == first;
    if state == "merged" {
      MatchingIsWhere(Joined(first), state, (pr: GhPullRequest) => pr.mergedAt.Some?);
    } else {
      MatchingIsWhere(Joined(first), state, (pr: GhPullRequest) => pr.mergedAt.None?);
    }
  }

  /** Over whatever lists a provider hands out, the listing answers its slice of the wanted pull requests of
      the first fifty of them, and a total: one more than the places up to the end of a full page, or those
      up to the last pull request shown. Only if the page is not full, a failure in time is the answer. */
  lemma AnswersTheList(p: Provider, lists: seq<seq<GhPullRequest>>, failure: Option<string>, opts: ListOptions)
    requires HandsOut(p, lists, failure) && Clamped(opts) && (opts.state == "merged" || opts.state == "closed")
    requires opts.page * opts.perPage + 1 <= MAX_INT64
    ensures var wanted := Wanted(opts.state, Joined(lists[..Min(50, |lists|)]));
            var from := (opts.page - 1) * opts.perPage;
            && 0 <= from
            && var data := ConvertAll(wanted[Min(from, |wanted|)..Min(from + opts.perPage, |wanted|)]);
               PostFiltered64(p, opts) ==
               if |data| == opts.perPage then Ok(Response(data, opts.page * opts.perPage + 1, opts.page, opts.perPage))
               else if FailsInTime(p, lists, failure) then Err(failure.value)
               else Ok(Response(data, from + |data|, opts.page, opts.perPage))
  {
    FitsThenExact(p, opts);
    SkippedNonNegative(opts);
    MatchesOfTheList(p, lists, failure, opts.state);
  }

  /** What is wanted is what has the field, or lacks it. */
  lemma {:induction false} WantedIff(state: string, prs: seq<GhPullRequest>, pr: GhPullRequest)
    requires state == "merged" || state == "closed"
    ensures pr in Wanted(state, prs) <==> pr in prs && (pr.mergedAt.Some? <==> state == "merged")
  {
    if prs != [] {
      WantedIff(state, prs[1..], pr);
      assert pr in prs <==> pr == prs[0] || pr in prs[1..];
    }
  }

  /** A pull request is shown under its own number and title, with an identifier that reads back as its own,
      as merged if it has been, else as closed or open as GitHub says. */
  lemma ShownAs(pr: GhPullRequest)
    requires IsInt64(pr.id)
    ensures Atoi(Convert(pr).id) == Some(pr.id) && Convert(pr).number == pr.number && Convert(pr).title == pr.title
    ensures Convert(pr).state.PrMerged? <==> pr.mergedAt.Some?
    ensures Convert(pr).state.PrClosed? <==> pr.mergedAt.None? && pr.state == "closed"
  {
    AtoiOfItoa(pr.id);
  }

  /** An open listing only shows open pull requests, if GitHub honours the state the listing asks it for. */
  lemma OpenListingIsOpen(pg: Page<GhPullRequest>, opts: ListOptions, r: Response, i: nat)
    requires forall pr :: pr in pg.items ==> pr.state == "open" && pr.mergedAt.None?
    requires ListPullRequestsDirect(Ok(pg), opts) == Ok(r) && i < |r.data|
    ensures r.data[i].state == PrOpen
  {
    assert pg.items[i] in pg.items;
  }

  // ---------- Totals ----------

  /** The total of a filtered page against the number N of all matches within the page cap: it is exact
      if and only if the page is the last one, is reached but empty at the very end, or has exactly one
      match after it. On an early return it never exceeds N + 1; past the end it counts skipped places. */
  lemma PostFilterTotal(p: Provider, opts: ListOptions)
    requires Clamped(opts) && opts.page * opts.perPage + 1 <= MAX_INT64 && PostFiltered64(p, opts).Ok?
    ensures var n, total := |AllMatching(p, opts.state)|, PostFiltered64(p, opts).value.total;
            && 0 <= Skipped(opts)
            && (n >= Skipped(opts) + opts.perPage ==> Skipped(opts) + opts.perPage < total <= n + 1)
            && (n < Skipped(opts) + opts.perPage ==> total == if n < Skipped(opts) then Skipped(opts) else n)
            && (total == n <==> Skipped(opts) <= n < Skipped(opts) + opts.perPage
                                || n == Skipped(opts) + opts.perPage + 1)
  {
    SkippedNonNegative(opts);
    FitsThenExact(p, opts);
  }

  // ---------- The direct path ----------

  /** One request to GitHub, which filters open and all natively. */
  function ListPullRequestsDirect(answer: Result<Page<GhPullRequest>, string>, opts: ListOptions)
    : Result<Response, string>
  {
    match answer
    case Err(e) => Err(e)
    case Ok(pg) =>
      var total :=
        if pg.last > 0 then Wrap64(pg.last * opts.perPage)
        else if |pg.items| < opts.perPage then Wrap64(Wrap64((opts.page - 1) * opts.perPage) + |pg.items|)
        else Wrap64(opts.page * opts.perPage);
      Ok(Response(ConvertAll(pg.items), total, opts.page, opts.perPage))
  }

  function CeilDiv(n: nat, d: nat): nat
    requires d > 0
  {
    (n + d - 1) / d
  }

  /** What GitHub sends for an in-range page of its list: the slice, and the number of the last page,
      which it leaves out on the last page itself. */
  predicate GitHubAnswers(pg: Page<GhPullRequest>, list: seq<GhPullRequest>, opts: ListOptions)
    requires Clamped(opts)
  {
    SkippedNonNegative(opts);
    var skip := Skipped(opts);
    && (skip < |list| || (list == [] && opts.page == 1))
    && pg.items == Slice(list, skip, skip + opts.perPage)
    && pg.last == if skip + opts.perPage < |list| then CeilDiv(|list|, opts.perPage) else 0
  }

  lemma CeilDivBounds(n: nat, d: nat)
    requires d > 0
    ensures n <= CeilDiv(n, d) * d < n + d
  {
    var q, r := (n + d - 1) / d, (n + d - 1) % d;
    assert n + d - 1 == q * d + r;
  }

  lemma NoMultipleBetween(a: int, b: int, d: nat)
    requires d > 0 && a < b
    ensures a * d + d <= b * d
  {
    ProductNonNegative(b - a - 1, d);
    assert (b - a - 1) * d == b * d - a * d - d;
  }

  lemma CeilDivUnique(n: nat, d: nat, q: nat)
    requires d > 0 && n <= q * d < n + d
    ensures CeilDiv(n, d) == q
  {
    CeilDivBounds(n, d);
    var c := CeilDiv(n, d);
    if c != q {
      NoMultipleBetween(if c < q then c else q, if c < q then q else c, d);
    }
  }

  /** The total the direct listing aims at: whole pages, or the true number on the last page. */
  function DirectEstimate(n: nat, opts: ListOptions): int
    requires Clamped(opts)
  {
    if Skipped(opts) + opts.perPage < n then CeilDiv(n, opts.perPage) * opts.perPage else n
  }

  /** The direct listing returns its slice of GitHub's list. In all three branches its total is an estimate
      less than one page above the true number that gives the right number of pages, and is exact on the
      last page; 64 bits spoil it if and only if the estimate does not fit them. */
  lemma DirectTotal(pg: Page<GhPullRequest>, list: seq<GhPullRequest>, opts: ListOptions)
    requires Clamped(opts) && GitHubAnswers(pg, list, opts)
    ensures var r, estimate := ListPullRequestsDirect(Ok(pg), opts).value, DirectEstimate(|list|, opts);
            && 0 <= Skipped(opts) && r.page == opts.page && r.perPage == opts.perPage
            && |r.data| == Min(|list| - Skipped(opts), opts.perPage)
            && (forall i :: 0 <= i < |r.data| ==> r.data[i] == Convert(list[Skipped(opts) + i]))
            && (r.total == estimate <==> estimate <= MAX_INT64)
            && |list| <= estimate < |list| + opts.perPage
            && CeilDiv(estimate, opts.perPage) == CeilDiv(|list|, opts.perPage)
            && (|list| <= Skipped(opts) + opts.perPage ==> estimate == |list|)
  {
    SkippedNonNegative(opts);
    var n := |list|;
    CeilDivBounds(n, opts.perPage);
    var q, estimate := CeilDiv(n, opts.perPage), DirectEstimate(n, opts);
    DirectTotal64(pg, list, opts);
    CeilDivUnique(estimate, opts.perPage, q);
  }

  lemma DirectTotal64(pg: Page<GhPullRequest>, list: seq<GhPullRequest>, opts: ListOptions)
    requires Clamped(opts) && GitHubAnswers(pg, list, opts)
    ensures ListPullRequestsDirect(Ok(pg), opts).value.total == Wrap64(DirectEstimate(|list|, opts))
  {
    SkippedNonNegative(opts);
    CeilDivBounds(|list|, opts.perPage);
    if Skipped(opts) + opts.perPage < |list| {
      PositiveFactor(CeilDiv(|list|, opts.perPage), opts.perPage);
    } else {
      WrapTwice(Skipped(opts), |pg.items|);
    }
  }

  lemma PositiveFactor(q: nat, d: nat)
    requires 0 < q * d
    ensures 0 < q
  {
  }

  // ---------- Which path a listing takes ----------

  /** GitHub by the state and the page size it is asked for. */
  type Api = map<(string, int), Provider>

  function Asked(api: Api, state: string, perPage: int): Provider {
    if (state, perPage) in api then api[(state, perPage)] else Provider(map[], "no such list", None, "")
  }

  /** Merged and closed go through the closed list in pages of 100; open through the open list and every
      other state through all, in pages of the size asked for. */
  method ListPullRequests(api: Api, opts: ListOptions) returns (res: Result<Response, string>)
    requires Clamped(opts)
    ensures opts.state == "merged" || opts.state == "closed" ==>
              res == PostFiltered64(Asked(api, "closed", 100), opts)
    ensures opts.state == "open" ==>
              res == ListPullRequestsDirect(Asked(api, "open", opts.perPage).Fetch(opts.page), opts)
    ensures opts.state != "merged" && opts.state != "closed" && opts.state != "open" ==>
              res == ListPullRequestsDirect(Asked(api, "all", opts.perPage).Fetch(opts.page), opts)
    ensures opts.state != "merged" && opts.state != "closed" ==>
              var answer := Asked(api, if opts.state == "open" then "open" else "all", opts.perPage).Fetch(opts.page);
              (answer.Err? ==> res == Err(answer.error)) && (answer.Ok? ==> res.Ok?)
  {
    var ghState := MapPullRequestStateToGitHub(opts.state);
    if opts.state == "merged" || opts.state == "closed" {
      var pagesQueried;
      res, pagesQueried := ListPullRequestsWithPostFilter(Asked(api, ghState, POST_FILTER_PAGE_SIZE), opts);
      return;
    }
    res := ListPullRequestsDirect(Asked(api, ghState, opts.perPage).Fetch(opts.page), opts);
  }
}

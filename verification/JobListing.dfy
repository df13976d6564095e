/** Listing a GitLab pipeline's jobs: at most 500 of them, then a stable sort by job number. */
module JobListing {
  import opened Wrappers
  import opened Decimal
  import opened Iterators

  /** GitLab's job, as far as the listing looks at it. */
  datatype GlJob = GlJob(id: int, name: string, status: string)

  datatype PipelineJob = PipelineJob(id: string, name: string, status: string)

  function MapGitLabJob(j: GlJob): PipelineJob {
    PipelineJob(Itoa(j.id), j.name, j.status)
  }

  function MapJobs(jobs: seq<GlJob>): (r: seq<PipelineJob>)
    ensures |r| == |jobs|
    ensures forall i :: 0 <= i < |jobs| ==> r[i] == MapGitLabJob(jobs[i])
  {
    seq(|jobs|, i requires 0 <= i < |jobs| => MapGitLabJob(jobs[i]))
  }

  const MAX_JOBS_TOTAL: nat := 500

  // ---------- The stable sort ----------

  predicate SortedById(jobs: seq<GlJob>) {
    forall i, j :: 0 <= i < j < |jobs| ==> jobs[i].id <= jobs[j].id
  }

  /** The jobs with one number, in the order they have. */
  function WithId(jobs: seq<GlJob>, id: int): seq<GlJob> {
    if jobs == [] then []
    else (if jobs[0].id == id then [jobs[0]] else []) + WithId(jobs[1..], id)
  }

  /** A rearrangement that keeps the order of jobs with the same number. */
  ghost predicate StableRearrangement(a: seq<GlJob>, b: seq<GlJob>) {
    forall id: int :: WithId(a, id) == WithId(b, id)
  }

  /** Moves x left past the jobs with larger numbers. */
  function InsertLast(jobs: seq<GlJob>, x: GlJob): seq<GlJob> {
    var n := |jobs|;
    if n == 0 || jobs[n - 1].id <= x.id then jobs + [x] else InsertLast(jobs[..n - 1], x) + [jobs[n - 1]]
  }

  function StableSort(jobs: seq<GlJob>): seq<GlJob> {
    var n := |jobs|;
    if n == 0 then [] else InsertLast(StableSort(jobs[..n - 1]), jobs[n - 1])
  }

  lemma {:induction false} WithIdConcat(a: seq<GlJob>, b: seq<GlJob>, id: int)
    ensures WithId(a + b, id) == WithId(a, id) + WithId(b, id)
  {
    if a == [] {
      assert a + b == b;
    } else {
      WithIdConcat(a[1..], b, id);
      var head := if a[0].id == id then [a[0]] else [];
      assert (a + b)[0] == a[0] && (a + b)[1..] == a[1..] + b;
      assert WithId(a + b, id) == head + (WithId(a[1..], id) + WithId(b, id));
    }
  }

  lemma WithIdSnoc(a: seq<GlJob>, x: GlJob, id: int)
    ensures WithId(a + [x], id) == WithId(a, id) + if x.id == id then [x] else []
  {
    WithIdConcat(a, [x], id);
    assert [x][1..] == [];
  }

  lemma {:induction false} InsertLastSorted(jobs: seq<GlJob>, x: GlJob)
    requires SortedById(jobs)
    ensures |InsertLast(jobs, x)| == |jobs| + 1 && SortedById(InsertLast(jobs, x))
    ensures forall j :: j in InsertLast(jobs, x) ==> j in jobs || j == x
    decreases |jobs|
  {
    var n := |jobs|;
    if n > 0 && jobs[n - 1].id > x.id {
      var shorter, last := jobs[..n - 1], jobs[n - 1];
      InsertLastSorted(shorter, x);
      var r := InsertLast(shorter, x);
      forall i | 0 <= i < |r|
        ensures r[i].id <= last.id
      {
        assert r[i] in r;
      }
    }
  }

  lemma {:induction false} InsertLastStable(jobs: seq<GlJob>, x: GlJob, id: int)
    ensures WithId(InsertLast(jobs, x), id) == WithId(jobs + [x], id)
    decreases |jobs|
  {
    var n := |jobs|;
    WithIdSnoc(jobs, x, id);
    if n > 0 && jobs[n - 1].id > x.id {
      var shorter, last := jobs[..n - 1], jobs[n - 1];
      assert jobs == shorter + [last];
      InsertLastStable(shorter, x, id);
      WithIdSnoc(shorter, x, id);
      WithIdSnoc(shorter, last, id);
      WithIdSnoc(InsertLast(shorter, x), last, id);
    }
  }

  /** The sort is ascending and keeps the order of equal numbers. */
  lemma {:induction false} StableSortProperties(jobs: seq<GlJob>, id: int)
    ensures var r := StableSort(jobs);
            |r| == |jobs| && SortedById(r) && WithId(r, id) == WithId(jobs, id)
    decreases |jobs|
  {
    var n := |jobs|;
    if n > 0 {
      var shorter, last := jobs[..n - 1], jobs[n - 1];
      assert jobs == shorter + [last];
      StableSortProperties(shorter, id);
      InsertLastSorted(StableSort(shorter), last);
      InsertLastStable(StableSort(shorter), last, id);
      WithIdSnoc(shorter, last, id);
      WithIdSnoc(StableSort(shorter), last, id);
    }
  }

  lemma {:induction false} WithIdMembers(jobs: seq<GlJob>, id: int)
    ensures forall j :: j in WithId(jobs, id) <==> j in jobs && j.id == id
  {
    if jobs != [] {
      WithIdMembers(jobs[1..], id);
      assert forall j :: j in jobs <==> j == jobs[0] || j in jobs[1..];
    }
  }

  /** The first job of a sorted sequence has the least number any rearrangement of it can start with. */
  lemma SameHead(a: seq<GlJob>, b: seq<GlJob>)
    requires SortedById(a) && SortedById(b) && StableRearrangement(a, b)
    requires a != []
    ensures b != [] && a[0] == b[0]
  {
    var x := a[0];
    assert x in WithId(a, x.id) by { WithIdMembers(a, x.id); }
    assert x in b by { assert WithId(a, x.id) == WithId(b, x.id); WithIdMembers(b, x.id); }
    var y := b[0];
    assert y in WithId(b, y.id) by { WithIdMembers(b, y.id); }
    assert y in a by { assert WithId(a, y.id) == WithId(b, y.id); WithIdMembers(a, y.id); }
    assert x.id == y.id;
    assert WithId(a, x.id)[0] == x && WithId(b, x.id)[0] == y;
    assert WithId(a, x.id) == WithId(b, x.id);
  }

  lemma SameEmptiness(a: seq<GlJob>, b: seq<GlJob>)
    requires StableRearrangement(a, b)
    ensures b != [] ==> a != []
  {
    if b != [] {
      assert WithId(a, b[0].id) == WithId(b, b[0].id);
    }
  }

  /** There is one sorted stable rearrangement, so the order is settled by the promise alone. */
  lemma {:induction false} StableSortUnique(a: seq<GlJob>, b: seq<GlJob>)
    requires SortedById(a) && SortedById(b) && StableRearrangement(a, b)
    ensures a == b
    decreases |a|
  {
    SameEmptiness(a, b);
    if a != [] {
      SameHead(a, b);
      forall id: int
        ensures WithId(a[1..], id) == WithId(b[1..], id)
      {
        var head := if a[0].id == id then [a[0]] else [];
        assert head + WithId(a[1..], id) == head + WithId(b[1..], id) by {
          assert WithId(a, id) == WithId(b, id);
        }
        assert WithId(a[1..], id) == (head + WithId(a[1..], id))[|head|..];
        assert WithId(b[1..], id) == (head + WithId(b[1..], id))[|head|..];
      }
      StableSortUnique(a[1..], b[1..]);
      assert a == [a[0]] + a[1..] && b == [b[0]] + b[1..];
    }
  }

  function Reversed(jobs: seq<GlJob>): (r: seq<GlJob>)
    ensures |r| == |jobs|
    ensures forall i :: 0 <= i < |jobs| ==> r[i] == jobs[|jobs| - 1 - i]
  {
    if jobs == [] then [] else Reversed(jobs[1..]) + [jobs[0]]
  }

  /** GitLab sends the newest job first; then sorting is reversing. */
  lemma {:induction false} NewestFirstIsReversed(jobs: seq<GlJob>)
    requires forall i, j :: 0 <= i < j < |jobs| ==> jobs[i].id > jobs[j].id
    ensures StableSort(jobs) == Reversed(jobs)
  {
    forall id: int
      ensures WithId(StableSort(jobs), id) == WithId(Reversed(jobs), id)
    {
      StableSortProperties(jobs, id);
      WithIdReversed(jobs, id);
    }
    StableSortProperties(jobs, 0);
    StableSortUnique(StableSort(jobs), Reversed(jobs));
  }

  lemma {:induction false} WithIdReversed(jobs: seq<GlJob>, id: int)
    requires forall i, j :: 0 <= i < j < |jobs| ==> jobs[i].id > jobs[j].id
    ensures WithId(Reversed(jobs), id) == WithId(jobs, id)
  {
    if jobs != [] {
      WithIdReversed(jobs[1..], id);
      WithIdSnoc(Reversed(jobs[1..]), jobs[0], id);
      if jobs[0].id == id {
        NoneWithId(jobs[1..], id);
      }
    }
  }

  lemma {:induction false} NoneWithId(jobs: seq<GlJob>, id: int)
    requires forall i :: 0 <= i < |jobs| ==> jobs[i].id != id
    ensures WithId(jobs, id) == []
  {
    if jobs != [] {
      NoneWithId(jobs[1..], id);
    }
  }

  // ---------- Sorting in place ----------

  /** Where the inner loop stands: x has moved left to place j of the sorted prefix s. */
  ghost predicate Moving(a: seq<GlJob>, s: seq<GlJob>, x: GlJob, j: nat) {
    Shifted(a, s, x, j) && InsertLast(s, x) == InsertLast(s[..j], x) + s[j..]
  }

  predicate Shifted(a: seq<GlJob>, s: seq<GlJob>, x: GlJob, j: nat) {
    && j <= |s| < |a|
    && (forall k :: 0 <= k < j ==> a[k] == s[k]) && a[j] == x && (forall k :: j <= k < |s| ==> a[k + 1] == s[k])
  }

  lemma InsertOneLeft(s: seq<GlJob>, x: GlJob, j: nat)
    requires 0 < j <= |s| && x.id < s[j - 1].id && InsertLast(s, x) == InsertLast(s[..j], x) + s[j..]
    ensures InsertLast(s, x) == InsertLast(s[..j - 1], x) + s[j - 1..]
  {
    assert s[..j][..j - 1] == s[..j - 1] && s[..j][j - 1] == s[j - 1];
    assert InsertLast(s[..j], x) == InsertLast(s[..j - 1], x) + [s[j - 1]];
    assert s[j - 1..] == [s[j - 1]] + s[j..];
  }

  lemma MovingOn(a: seq<GlJob>, s: seq<GlJob>, x: GlJob, j: nat)
    requires Moving(a, s, x, j) && j > 0 && x.id < a[j - 1].id
    ensures var b := a[j := a[j - 1]][j - 1 := x];
            Moving(b, s, x, j - 1) && b[|s| + 1..] == a[|s| + 1..]
  {
    InsertOneLeft(s, x, j);
  }

  method SwapLeft(a: array<GlJob>, j: nat)
    requires 0 < j < a.Length
    modifies a
    ensures a[..] == old(a[..])[j := old(a[j - 1])][j - 1 := old(a[j])]
  {
    a[j], a[j - 1] := a[j - 1], a[j];
  }

  /** The inner loop: swaps the job at place i with its left neighbour while that one's number is larger. */
  method MoveLeft(a: array<GlJob>, i: nat)
    requires i < a.Length
    modifies a
    ensures a[..i + 1] == InsertLast(old(a[..i]), old(a[i])) && a[i + 1..] == old(a[i + 1..])
  {
    ghost var s, x, was := a[..i], a[i], a[..];
    StartsMoving(was, i);
    var j := i;
    while j > 0 && a[j].id < a[j - 1].id
      invariant 0 <= j <= i && Moving(a[..], s, x, j) && a[..][i + 1..] == was[i + 1..]
    {
      MovingOn(a[..], s, x, j);
      SwapLeft(a, j);
      j := j - 1;
    }
    Settled(a[..], s, x, j);
    assert a[..i + 1] == a[..][..i + 1] && a[i + 1..] == a[..][i + 1..];
  }

  lemma StartsMoving(a: seq<GlJob>, i: nat)
    requires i < |a|
    ensures Moving(a, a[..i], a[i], i)
  {
    assert a[..i][..i] == a[..i] && a[..i][i..] == [];
  }

  /** sort.SliceStable with the listing's comparison: insertion by neighbour swaps, in place. */
  method SliceStable(a: array<GlJob>)
    modifies a
    ensures a[..] == StableSort(old(a[..]))
  {
    ghost var was := a[..];
    for i := 0 to a.Length
      invariant a[..i] == StableSort(was[..i]) && a[i..] == was[i..]
    {
      assert a[i] == a[i..][0] && was[i] == was[i..][0];
      assert a[i + 1..] == a[i..][1..] && was[i + 1..] == was[i..][1..];
      assert was[..i + 1][..i] == was[..i];
      MoveLeft(a, i);
    }
    assert was[..a.Length] == was && a[..a.Length] == a[..];
  }

  lemma InPlace(s: seq<GlJob>, x: GlJob)
    requires s == [] || s[|s| - 1].id <= x.id
    ensures InsertLast(s, x) == s + [x]
  {
  }

  lemma Settled(a: seq<GlJob>, s: seq<GlJob>, x: GlJob, j: nat)
    requires Moving(a, s, x, j) && (j == 0 || a[j - 1].id <= x.id)
    ensures a[..|s| + 1] == InsertLast(s, x)
  {
    InPlace(s[..j], x);
    Assembled(a, s, x, j);
  }

  lemma Assembled(a: seq<GlJob>, s: seq<GlJob>, x: GlJob, j: nat)
    requires Shifted(a, s, x, j)
    ensures a[..|s| + 1] == s[..j] + [x] + s[j..]
  {
    var r := s[..j] + [x] + s[j..];
    forall k | 0 <= k <= |s|
      ensures a[k] == r[k]
    {
      assert k > j ==> r[k] == s[k - 1];
    }
  }

  // ---------- The listing ----------

  /** The jobs the listing is about: those scanned before the cap, or the error met on the way there. */
  function JobsUpToCap(events: seq<Event<GlJob>>): Result<seq<GlJob>, string> {
    var jobs := ItemsBeforeFailure(events);
    if |jobs| >= MAX_JOBS_TOTAL then Ok(jobs[..MAX_JOBS_TOTAL])
    else if FirstFailure(events).Some? then Err(FirstFailure(events).value)
    else Ok(jobs)
  }

  lemma {:induction false} ItemsSplit<T>(events: seq<Event<T>>, i: nat)
    requires i <= |events| && (forall k :: 0 <= k < i ==> events[k].Item?)
    ensures ItemsBeforeFailure(events) == ItemsBeforeFailure(events[..i]) + ItemsBeforeFailure(events[i..])
    ensures FirstFailure(events) == FirstFailure(events[i..])
    ensures |ItemsBeforeFailure(events[..i])| == i
    decreases i
  {
    if i == 0 {
      assert events[0..] == events;
    } else {
      var rest := events[1..];
      ItemsSplit(rest, i - 1);
      assert events[..i][1..] == rest[..i - 1];
      assert rest[i - 1..] == events[i..];
      assert [events[0].value] + ItemsBeforeFailure(rest) ==
             [events[0].value] + ItemsBeforeFailure(rest[..i - 1]) + ItemsBeforeFailure(rest[i - 1..]);
    }
  }

  lemma ItemsSnoc<T>(events: seq<Event<T>>, i: nat)
    requires i < |events| && (forall k :: 0 <= k <= i ==> events[k].Item?)
    ensures ItemsBeforeFailure(events[..i + 1]) == ItemsBeforeFailure(events[..i]) + [events[i].value]
  {
    var sofar := events[..i + 1];
    ItemsSplit(sofar, i);
    assert sofar[..i] == events[..i];
    assert sofar[i..] == [events[i]];
    assert [events[i]][1..] == [];
  }

  lemma LoopIsOver(events: seq<Event<GlJob>>, i: nat)
    requires i <= |events| && (forall k :: 0 <= k < i ==> events[k].Item?)
    requires i == MAX_JOBS_TOTAL || (i == |events| && i < MAX_JOBS_TOTAL)
    ensures JobsUpToCap(events) == Ok(ItemsBeforeFailure(events[..i]))
  {
    ItemsSplit(events, i);
    if i == |events| {
      assert events[i..] == [];
      assert ItemsBeforeFailure(events) == ItemsBeforeFailure(events[..i]);
    }
    assert ItemsBeforeFailure(events)[..i] == ItemsBeforeFailure(events[..i]);
  }

  function Listing(events: seq<Event<GlJob>>): Result<seq<PipelineJob>, string> {
    match JobsUpToCap(events)
    case Err(e) => Err(e)
    case Ok(jobs) => Ok(MapJobs(StableSort(jobs)))
  }

  /** The jobs sorted, and then converted one by one. */
  method SortAndMap(rawJobs: seq<GlJob>) returns (result: seq<PipelineJob>)
    ensures result == MapJobs(StableSort(rawJobs))
  {
    var a := new GlJob[|rawJobs|](k requires 0 <= k < |rawJobs| => rawJobs[k]);
    assert a[..] == rawJobs;
    SliceStable(a);
    result := [];
    for k := 0 to a.Length
      invariant a[..] == StableSort(rawJobs)
      invariant result == MapJobs(a[..k])
    {
      result := result + [MapGitLabJob(a[k])];
    }
    assert a[..a.Length] == a[..];
  }

  /** The scan loop with its break at the cap, then the sort, then the conversion. */
  method ListPipelineJobs(events: seq<Event<GlJob>>) returns (res: Result<seq<PipelineJob>, string>)
    ensures res == Listing(events)
  {
    var rawJobs: seq<GlJob> := [];
    var i := 0;
    while i < |events|
      invariant 0 <= i <= |events|
      invariant forall k :: 0 <= k < i ==> events[k].Item?
      invariant rawJobs == ItemsBeforeFailure(events[..i])
      invariant |rawJobs| == i < MAX_JOBS_TOTAL
    {
      if events[i].Failure? {
        ItemsSplit(events, i);
        return Err(events[i].error);
      }
      ItemsSnoc(events, i);
      rawJobs := rawJobs + [events[i].value];
      i := i + 1;
      if |rawJobs| >= MAX_JOBS_TOTAL {
        break;
      }
    }
    LoopIsOver(events, i);
    var result := SortAndMap(rawJobs);
    res := Ok(result);
  }

  lemma {:induction false} ItemsThen(jobs: seq<GlJob>, more: seq<Event<GlJob>>)
    ensures ItemsBeforeFailure(Items(jobs) + more) == jobs + ItemsBeforeFailure(more)
    ensures FirstFailure(Items(jobs) + more) == FirstFailure(more)
    decreases |jobs|
  {
    var events := Items(jobs) + more;
    if jobs == [] {
      assert events == more;
      assert jobs + ItemsBeforeFailure(more) == ItemsBeforeFailure(more);
    } else {
      assert events[1..] == Items(jobs[1..]) + more;
      ItemsThen(jobs[1..], more);
      assert jobs == [jobs[0]] + jobs[1..];
    }
  }

  lemma CapTakesTheFirst(jobs: seq<GlJob>, more: seq<Event<GlJob>>)
    requires |jobs| <= 500
    ensures |jobs| == 500 || more == [] ==> JobsUpToCap(Items(jobs) + more) == Ok(jobs)
    ensures |jobs| < 500 && more != [] && more[0].Failure? ==> JobsUpToCap(Items(jobs) + more) == Err(more[0].error)
  {
    ItemsThen(jobs, more);
    assert (jobs + ItemsBeforeFailure(more))[..|jobs|] == jobs;
    if more == [] {
      assert jobs + [] == jobs;
    }
  }

  /** Of a scan, the first 500 jobs are listed, the one with the least number first, whatever follows them; if
      there are fewer, all of them, or the error that comes after them. */
  lemma ListsTheFirst(jobs: seq<GlJob>, more: seq<Event<GlJob>>)
    requires |jobs| <= 500
    ensures |jobs| == 500 || more == [] ==> Listing(Items(jobs) + more) == Ok(MapJobs(StableSort(jobs)))
    ensures |jobs| < 500 && more != [] && more[0].Failure? ==> Listing(Items(jobs) + more) == Err(more[0].error)
  {
    CapTakesTheFirst(jobs, more);
  }

  /** A job is listed under its own name and status, with an identifier that reads back as its number. */
  lemma ListedAs(j: GlJob)
    requires IsInt64(j.id)
    ensures Atoi(MapGitLabJob(j).id) == Some(j.id)
    ensures MapGitLabJob(j).name == j.name && MapGitLabJob(j).status == j.status
  {
    AtoiOfItoa(j.id);
  }

  // ---------- When the provider's order does not show ----------

  lemma RearrangedSortsAlike(a: seq<GlJob>, b: seq<GlJob>)
    requires StableRearrangement(a, b)
    ensures StableSort(a) == StableSort(b) && |a| == |b|
  {
    forall id: int
      ensures WithId(StableSort(a), id) == WithId(StableSort(b), id)
    {
      StableSortProperties(a, id);
      StableSortProperties(b, id);
      assert WithId(a, id) == WithId(b, id);
    }
    StableSortProperties(a, 0);
    StableSortProperties(b, 0);
    StableSortUnique(StableSort(a), StableSort(b));
  }

  /** Two scans of at most 500 jobs each that agree on the jobs of every number, and on the error if there is
      one, are listed alike. */
  lemma ListingIgnoresOrder(a: seq<Event<GlJob>>, b: seq<Event<GlJob>>)
    requires StableRearrangement(ItemsBeforeFailure(a), ItemsBeforeFailure(b)) && FirstFailure(a) == FirstFailure(b)
    requires |ItemsBeforeFailure(a)| <= MAX_JOBS_TOTAL
    ensures Listing(a) == Listing(b)
  {
    var jobs, others := ItemsBeforeFailure(a), ItemsBeforeFailure(b);
    RearrangedSortsAlike(jobs, others);
    if |jobs| == MAX_JOBS_TOTAL {
      assert jobs[..MAX_JOBS_TOTAL] == jobs && others[..MAX_JOBS_TOTAL] == others;
    }
  }

  predicate DistinctNumbers(jobs: seq<GlJob>) {
    forall i, j :: 0 <= i < j < |jobs| ==> jobs[i].id != jobs[j].id
  }

  lemma {:induction false} ItemsOfItems(jobs: seq<GlJob>)
    ensures ItemsBeforeFailure(Items(jobs)) == jobs && FirstFailure(Items(jobs)) == None
  {
    if jobs != [] {
      assert Items(jobs)[1..] == Items(jobs[1..]);
      ItemsOfItems(jobs[1..]);
    }
  }

  /** Whatever the order in which a provider sends these jobs, they are listed alike. */
  ghost predicate OrderHidden(jobs: seq<GlJob>) {
    forall others: seq<GlJob> :: StableRearrangement(jobs, others) ==> Listing(Items(jobs)) == Listing(Items(others))
  }

  /** For jobs with different numbers that is so if and only if there are at most 500. Past the cap the order
      decides which jobs are listed at all. */
  lemma OrderHiddenIff(jobs: seq<GlJob>)
    requires DistinctNumbers(jobs)
    ensures OrderHidden(jobs) <==> |jobs| <= 500
  {
    if |jobs| <= MAX_JOBS_TOTAL {
      forall others: seq<GlJob> | StableRearrangement(jobs, others)
        ensures Listing(Items(jobs)) == Listing(Items(others))
      {
        ItemsOfItems(jobs);
        ItemsOfItems(others);
        ListingIgnoresOrder(Items(jobs), Items(others));
      }
    } else {
      LastToFront(jobs);
      FrontIsListed(jobs);
    }
  }

  /** Of more than 500 jobs the last one is listed only if it comes to the front. */
  lemma FrontIsListed(jobs: seq<GlJob>)
    requires DistinctNumbers(jobs) && |jobs| > 500
    ensures Listing(Items(jobs)) != Listing(Items([jobs[|jobs| - 1]] + jobs[..|jobs| - 1]))
  {
    var n := |jobs| - 1;
    var others := [jobs[n]] + jobs[..n];
    ListingOfMany(jobs, jobs[n].id);
    ListingOfMany(others, jobs[n].id);
    assert others[..500][0].id == jobs[n].id;
  }

  lemma ListingOfMany(jobs: seq<GlJob>, id: int)
    requires |jobs| > 500
    ensures Listing(Items(jobs)).Ok? && (ListedAmong(Listing(Items(jobs)).value, id) <==> Among(jobs[..500], id))
  {
    ItemsOfItems(jobs);
    ListedIffAmong(jobs[..500], id);
  }

  /** Moving the last job to the front is a rearrangement of jobs with different numbers. */
  lemma LastToFront(jobs: seq<GlJob>)
    requires DistinctNumbers(jobs) && jobs != []
    ensures StableRearrangement(jobs, [jobs[|jobs| - 1]] + jobs[..|jobs| - 1])
  {
    var init, last := jobs[..|jobs| - 1], jobs[|jobs| - 1];
    assert jobs == init + [last];
    forall id: int
      ensures WithId(jobs, id) == WithId([last] + init, id)
    {
      WithIdConcat(init, [last], id);
      WithIdConcat([last], init, id);
      AmongIffWithId(init, id);
      assert [last][1..] == [];
    }
  }

  predicate Among(jobs: seq<GlJob>, id: int) {
    exists i :: 0 <= i < |jobs| && jobs[i].id == id
  }

  lemma {:induction false} AmongIffWithId(jobs: seq<GlJob>, id: int)
    ensures Among(jobs, id) <==> WithId(jobs, id) != []
  {
    if jobs != [] {
      AmongIffWithId(jobs[1..], id);
      assert Among(jobs, id) <==> jobs[0].id == id || Among(jobs[1..], id) by {
        if i :| 0 <= i < |jobs| && jobs[i].id == id {
          assert i > 0 ==> jobs[1..][i - 1].id == id;
        }
        if i :| 0 <= i < |jobs[1..]| && jobs[1..][i].id == id {
          assert jobs[i + 1].id == id;
        }
      }
    }
  }

  predicate ListedAmong(listed: seq<PipelineJob>, id: int) {
    exists i :: 0 <= i < |listed| && listed[i].id == Itoa(id)
  }

  /** A number is listed if and only if it is among the jobs that are sorted. */
  lemma ListedIffAmong(jobs: seq<GlJob>, id: int)
    ensures ListedAmong(MapJobs(StableSort(jobs)), id) <==> Among(jobs, id)
  {
    var sorted := StableSort(jobs);
    StableSortProperties(jobs, id);
    AmongIffWithId(jobs, id);
    AmongIffWithId(sorted, id);
    if i :| 0 <= i < |sorted| && MapJobs(sorted)[i].id == Itoa(id) {
      ItoaInjective(sorted[i].id, id);
    }
    if i :| 0 <= i < |sorted| && sorted[i].id == id {
      assert MapJobs(sorted)[i].id == Itoa(id);
    }
  }
}

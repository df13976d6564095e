/**
 Pipeline and pull request lists served through a cache keyed by the request, as a step machine. A fetch
 takes time: it begins, the provider says something, and it ends. A call that finds nothing it may be served
 leads a fetch or joins the one under way for its key; reading an entry of some age starts a fetch in the
 background; entries are lost at any time.
 */
module ListCaching {
  import opened Wrappers
  import opened Keys
  import opened Tiers

  /** A list response, as opaque here as it is to the cache. */
  type Response = string

  /** What the provider says to a request at a time. The settings it uses go with the server name. */
  type Provider = (nat, ListRequest) -> Result<Response, string>

  // ---------- The times of a cache ----------

  /** How long an entry lives, the age from which reading it starts a refresh in the background, the age
      beyond which a call waits for a new one; and how long the longest fetch takes. */
  datatype Times = Times(ttl: nat, early: nat, sync: nat, limit: nat) {
    /** The age up to which an entry is served. */
    function Fresh(): nat {
      if ttl <= sync then ttl else sync
    }
  }

  /** What a tier of such a cache stores besides the expiry: when it was stored. */
  datatype Timed<+V> = Timed(item: V, storedAt: nat)

  /** There is an entry and a call need not wait for a new one. */
  predicate Servable<V>(tier: Tier<Timed<V>>, key: string, clock: nat, sync: nat) {
    Visible(tier, key, clock) && clock <= tier[key].value.storedAt + sync
  }

  // ---------- States ----------

  datatype Fetch = Fetch(r: ListRequest, beganAt: nat, over: bool)

  /** A list, with the fetch it came from and the time at which the provider said it. */
  datatype Listed = Listed(value: Response, fetch: nat, saidAt: nat)

  /** A listing has found nothing, waits for a fetch, or was answered at some time with what the provider
      said earlier. */
  datatype Call =
    | Missed(r: ListRequest)
    | Waiting(r: ListRequest, fetch: nat)
    | Answered(r: ListRequest, answer: Result<Response, string>, at: nat, fetch: nat, saidAt: nat)

  datatype Service = Service(
    tier: Tier<Timed<Listed>>, clock: nat, fetches: seq<Fetch>, inFlight: map<string, nat>, calls: map<nat, Call>)

  function Empty(start: nat): Service {
    Service(map[], start, [], map[], map[])
  }

  // ---------- Steps ----------

  datatype Step =
    | Hit(c: nat, r: ListRequest, refresh: bool)
    | Miss(c: nat, r: ListRequest)
    | Lead(c: nat)
    | Join(c: nat)
    | End(f: nat, saidAt: nat)
    | Lose(keys: set<string>)
    | Wait(d: nat)

  /** No fetch lasts longer than `limit`, and what it brings was said while it lasted. */
  predicate Enabled(s: Service, t: Step, m: Times) {
    match t
    case Hit(c, r, refresh) =>
      && c !in s.calls && Servable(s.tier, r.Key(), s.clock, m.sync)
      && (refresh ==> s.clock > s.tier[r.Key()].value.storedAt + m.early)
    case Miss(c, r) => c !in s.calls && !Servable(s.tier, r.Key(), s.clock, m.sync)
    // The lookup and the look at the fetches under way are two accesses: one may have ended in between.
    case Lead(c) => c in s.calls && s.calls[c].Missed? && s.calls[c].r.Key() !in s.inFlight
    case Join(c) => c in s.calls && s.calls[c].Missed? && s.calls[c].r.Key() in s.inFlight
    case End(f, saidAt) =>
      && f < |s.fetches| && !s.fetches[f].over
      && s.fetches[f].beganAt <= saidAt <= s.clock <= s.fetches[f].beganAt + m.limit
    case Lose(_) => true
    case Wait(_) => true
  }

  function HitAnswer(s: Service, r: ListRequest): Call
    requires r.Key() in s.tier
  {
    var v := s.tier[r.Key()].value.item;
    Answered(r, Ok(v.value), s.clock, v.fetch, v.saidAt)
  }

  /** The calls after fetch f brought this answer: those that waited for it have it. */
  function Released(s: Service, f: nat, answer: Result<Response, string>, saidAt: nat): map<nat, Call> {
    map c | c in s.calls ::
      if s.calls[c].Waiting? && s.calls[c].fetch == f then Answered(s.calls[c].r, answer, s.clock, f, saidAt)
      else s.calls[c]
  }

  /** An answer is stored when the fetch ends, whatever is stored already; an error is not. */
  function Brought(s: Service, ttl: nat, f: nat, answer: Result<Response, string>, saidAt: nat): Tier<Timed<Listed>>
    requires f < |s.fetches|
  {
    match answer
    case Ok(v) => s.tier[s.fetches[f].r.Key() := Entry(Timed(Listed(v, f, saidAt), s.clock), s.clock + ttl)]
    case Err(_) => s.tier
  }

  function Act(s: Service, t: Step, p: Provider, m: Times): Service
    requires Enabled(s, t, m)
  {
    match t
    case Hit(c, r, refresh) =>
      s.(fetches := if refresh then s.fetches + [Fetch(r, s.clock, false)] else s.fetches,
         calls := s.calls[c := HitAnswer(s, r)])
    case Miss(c, r) => s.(calls := s.calls[c := Missed(r)])
    case Lead(c) =>
      var r := s.calls[c].r;
      s.(fetches := s.fetches + [Fetch(r, s.clock, false)],
         inFlight := s.inFlight[r.Key() := |s.fetches|],
         calls := s.calls[c := Waiting(r, |s.fetches|)])
    case Join(c) => s.(calls := s.calls[c := Waiting(s.calls[c].r, s.inFlight[s.calls[c].r.Key()])])
    case End(f, saidAt) =>
      var answer := p(saidAt, s.fetches[f].r);
      s.(tier := Brought(s, m.ttl, f, answer, saidAt),
         fetches := s.fetches[f := s.fetches[f].(over := true)],
         inFlight := map k | k in s.inFlight && s.inFlight[k] != f :: s.inFlight[k],
         calls := Released(s, f, answer, saidAt))
    case Lose(keys) => s.(tier := s.tier - keys)
    case Wait(d) => s.(clock := s.clock + d)
  }

  ghost predicate Run(s: Service, steps: seq<Step>, s': Service, p: Provider, m: Times)
    decreases |steps|
  {
    if steps == [] then s' == s
    else Enabled(s, steps[0], m) && Run(Act(s, steps[0], p, m), steps[1..], s', p, m)
  }

  /** What a service that started empty can become. */
  ghost predicate Reachable(s: Service, p: Provider, m: Times) {
    exists start: nat, steps: seq<Step> :: Run(Empty(start), steps, s, p, m)
  }

  lemma {:induction false} RunSnoc(s: Service, steps: seq<Step>, s1: Service, t: Step,
                                       p: Provider, m: Times)
    requires Run(s, steps, s1, p, m) && Enabled(s1, t, m)
    ensures Run(s, steps + [t], Act(s1, t, p, m), p, m)
    decreases |steps|
  {
    if steps == [] {
      assert [t][1..] == [];
    } else {
      RunSnoc(Act(s, steps[0], p, m), steps[1..], s1, t, p, m);
      assert (steps + [t])[1..] == steps[1..] + [t];
    }
  }

  lemma EmptyReachable(start: nat, p: Provider, m: Times)
    ensures Reachable(Empty(start), p, m)
  {
    assert Run(Empty(start), [], Empty(start), p, m);
  }

  lemma ReachableStep(s: Service, t: Step, p: Provider, m: Times) returns (s': Service)
    requires Reachable(s, p, m) && Enabled(s, t, m)
    ensures s' == Act(s, t, p, m) && Reachable(s', p, m)
  {
    var start: nat, steps: seq<Step> :| Run(Empty(start), steps, s, p, m);
    s' := Act(s, t, p, m);
    RunSnoc(Empty(start), steps, s, t, p, m);
  }

  // ---------- What every step keeps ----------

  predicate SoundFlight(s: Service, k: string) {
    k in s.inFlight ==>
      s.inFlight[k] < |s.fetches| && !s.fetches[s.inFlight[k]].over && s.fetches[s.inFlight[k]].r.Key() == k
  }

  /** An entry is what the provider said to some request with its key, stored within the time of a fetch. */
  predicate SoundEntry(s: Service, k: string, p: Provider, m: Times) {
    k in s.tier ==>
      var v, storedAt := s.tier[k].value.item, s.tier[k].value.storedAt;
      && v.fetch < |s.fetches| && s.fetches[v.fetch].r.Key() == k
      && p(v.saidAt, s.fetches[v.fetch].r) == Ok(v.value)
      && v.saidAt <= storedAt <= s.clock && storedAt <= v.saidAt + m.limit && s.tier[k].expiresAt == storedAt + m.ttl
  }

  predicate SoundCall(s: Service, c: nat, p: Provider, m: Times) {
    c in s.calls && !s.calls[c].Missed? ==>
      && s.calls[c].fetch < |s.fetches| && s.fetches[s.calls[c].fetch].r.Key() == s.calls[c].r.Key()
      && match s.calls[c]
         case Waiting(_, f) => !s.fetches[f].over
         case Answered(_, answer, at, f, saidAt) =>
           answer == p(saidAt, s.fetches[f].r) && saidAt <= at <= saidAt + m.Fresh() + m.limit
  }

  ghost predicate Sound(s: Service, p: Provider, m: Times) {
    && (forall k: string :: SoundFlight(s, k))
    && (forall k: string :: SoundEntry(s, k, p, m))
    && (forall c: nat :: SoundCall(s, c, p, m))
    && (forall f :: 0 <= f < |s.fetches| ==> s.fetches[f].beganAt <= s.clock)
  }

  lemma SoundFlightStep(s: Service, t: Step, k: string, p: Provider, m: Times)
    requires Enabled(s, t, m) && SoundFlight(s, k)
    ensures SoundFlight(Act(s, t, p, m), k)
  {
  }

  lemma SoundEntryStep(s: Service, t: Step, k: string, p: Provider, m: Times)
    requires Enabled(s, t, m) && SoundEntry(s, k, p, m)
    ensures SoundEntry(Act(s, t, p, m), k, p, m)
  {
  }

  /** A call moves, or a fetch begins. */
  lemma SoundCallMoves(s: Service, t: Step, c: nat, p: Provider, m: Times)
    requires Enabled(s, t, m) && Sound(s, p, m) && !t.End?
    ensures SoundCall(Act(s, t, p, m), c, p, m)
  {
    assert SoundCall(s, c, p, m);
    match t
    case Hit(_, r, _) => assert SoundEntry(s, r.Key(), p, m);
    case Join(d) => assert SoundFlight(s, s.calls[d].r.Key());
    case _ =>
  }

  lemma SoundCallStep(s: Service, t: Step, c: nat, p: Provider, m: Times)
    requires Enabled(s, t, m) && Sound(s, p, m)
    ensures SoundCall(Act(s, t, p, m), c, p, m)
  {
    if t.End? {
      assert SoundCall(s, c, p, m);
    } else {
      SoundCallMoves(s, t, c, p, m);
    }
  }

  lemma SoundStep(s: Service, t: Step, p: Provider, m: Times)
    requires Enabled(s, t, m) && Sound(s, p, m)
    ensures Sound(Act(s, t, p, m), p, m)
  {
    var s' := Act(s, t, p, m);
    forall k: string
      ensures SoundFlight(s', k) && SoundEntry(s', k, p, m)
    {
      SoundFlightStep(s, t, k, p, m);
      SoundEntryStep(s, t, k, p, m);
    }
    forall c: nat
      ensures SoundCall(s', c, p, m)
    {
      SoundCallStep(s, t, c, p, m);
    }
  }

  lemma {:induction false} SoundRun(s: Service, steps: seq<Step>, s': Service, p: Provider, m: Times)
    requires Sound(s, p, m) && Run(s, steps, s', p, m)
    ensures Sound(s', p, m)
    decreases |steps|
  {
    if steps != [] {
      SoundStep(s, steps[0], p, m);
      SoundRun(Act(s, steps[0], p, m), steps[1..], s', p, m);
    }
  }

  lemma SoundReachable(s: Service, p: Provider, m: Times)
    requires Reachable(s, p, m)
    ensures Sound(s, p, m)
  {
    var start: nat, steps: seq<Step> :| Run(Empty(start), steps, s, p, m);
    SoundRun(Empty(start), steps, s, p, m);
  }

  // ---------- How old an answer can be ----------

  /** No other request with the key of r has been fetched. */
  ghost predicate NoRival(s: Service, r: ListRequest) {
    forall f :: 0 <= f < |s.fetches| && s.fetches[f].r.Key() == r.Key() ==> s.fetches[f].r == r
  }

  /** The answer is what the provider said to this request at some time at most `age` ago. */
  ghost predicate SaidWithin(call: Call, p: Provider, age: nat)
    requires call.Answered?
  {
    exists t: nat :: t <= call.at <= t + age && call.answer == p(t, call.r)
  }

  /** In every reachable state of the service over a changing provider, every listing that was answered has
      what the provider said to this request within the age up to which entries are served and the length
      of a fetch. */
  lemma BoundedStaleness(s: Service, c: nat, p: Provider, m: Times)
    requires Reachable(s, p, m) && c in s.calls && s.calls[c].Answered? && NoRival(s, s.calls[c].r)
    ensures SaidWithin(s.calls[c], p, m.Fresh() + m.limit)
  {
    SoundReachable(s, p, m);
    assert SoundCall(s, c, p, m);
    var t := s.calls[c].saidAt;
    assert t <= s.calls[c].at <= t + (m.Fresh() + m.limit) && s.calls[c].answer == p(t, s.calls[c].r);
  }

  /** Every answer was said within this time, on all runs over all providers. */
  ghost predicate AlwaysWithin(age: nat, m: Times) {
    forall s: Service, p: Provider, c: nat ::
      Reachable(s, p, m) && c in s.calls && s.calls[c].Answered? && NoRival(s, s.calls[c].r)
      ==> SaidWithin(s.calls[c], p, age)
  }

  /** The bound cannot be improved: an answer is never older than this if and only if this is at least the
      age up to which entries are served and the length of a fetch together. */
  lemma AlwaysWithinIff(age: nat, m: Times)
    ensures AlwaysWithin(age, m) <==> m.Fresh() + m.limit <= age
  {
    if m.Fresh() + m.limit <= age {
      forall s: Service, p: Provider, c: nat |
        Reachable(s, p, m) && c in s.calls && s.calls[c].Answered? && NoRival(s, s.calls[c].r)
        ensures SaidWithin(s.calls[c], p, age)
      {
        BoundedStaleness(s, c, p, m);
      }
    } else {
      var r := ListRequest("", "", "", "", 1, 20);
      var s, p := OldestAnswer(r, m);
      assert Reachable(s, p, m) && NoRival(s, s.calls[1].r);
      assert !SaidWithin(s.calls[1], p, age);
    }
  }

  /** A provider that changes its answer after the first instant. */
  function Changing(): Provider {
    (t, _) => if t == 0 then Ok("earlier") else Ok("later")
  }

  lemma FirstBegun(p: Provider, r: ListRequest, m: Times) returns (s: Service)
    ensures Reachable(s, p, m)
    ensures s == Service(map[], 0, [Fetch(r, 0, false)], map[r.Key() := 0], map[0 := Waiting(r, 0)])
  {
    EmptyReachable(0, p, m);
    var s1 := ReachableStep(Empty(0), Miss(0, r), p, m);
    s := ReachableStep(s1, Lead(0), p, m);
  }

  /** A call leads a fetch that hears the provider at once and is over after d. */
  lemma FirstFetched(p: Provider, r: ListRequest, m: Times, d: nat) returns (s: Service)
    requires p(0, r).Ok? && d <= m.limit
    ensures Reachable(s, p, m) && s.fetches == [Fetch(r, 0, true)] && s.inFlight == map[] && s.calls.Keys == {0}
    ensures s.clock == d
    ensures s.tier == map[r.Key() := Entry(Timed(Listed(p(0, r).value, 0, 0), d), d + m.ttl)]
  {
    var s1 := FirstBegun(p, r, m);
    var s2 := ReachableStep(s1, Wait(d), p, m);
    s := ReachableStep(s2, End(0, 0), p, m);
  }

  /** The fetch hears the old answer at once and takes its whole time; the entry is served to the last, by a
      call that starts a refresh if there are to be any. */
  lemma OldestAnswer(r: ListRequest, m: Times) returns (s: Service, p: Provider)
    ensures p == Changing() && Reachable(s, p, m) && NoRival(s, r)
    ensures 1 in s.calls && s.calls[1] == Answered(r, Ok("earlier"), m.Fresh() + m.limit, 0, 0)
  {
    p := Changing();
    var s1 := FirstFetched(p, r, m, m.limit);
    var s2 := ReachableStep(s1, Wait(m.Fresh()), p, m);
    s := ReachableStep(s2, Hit(1, r, m.early < m.Fresh()), p, m);
  }

  // ---------- Whether an answer can replace a newer one ----------

  /** The step replaces what is served for k with something the provider said earlier. */
  predicate GoesBack(s: Service, t: Step, k: string, p: Provider, m: Times) {
    && Enabled(s, t, m)
    && var s' := Act(s, t, p, m);
       && Servable(s.tier, k, s.clock, m.sync) && Servable(s'.tier, k, s'.clock, m.sync)
       && s'.tier[k].value.item.saidAt < s.tier[k].value.item.saidAt
  }

  ghost predicate CanGoBack(p: Provider, m: Times) {
    exists s: Service, t: Step, k: string :: Reachable(s, p, m) && GoesBack(s, t, k, p, m)
  }

  /** Over every provider that never fails: a fetch that began earlier can overwrite what a newer one brought
      if and only if fetches take time and entries are refreshed before calls have to wait for them. */
  lemma CanGoBackIff(p: Provider, m: Times)
    requires forall t: nat, r: ListRequest :: p(t, r).Ok?
    ensures CanGoBack(p, m) <==> 0 < m.limit && m.early < m.Fresh()
  {
    if 0 < m.limit && m.early < m.Fresh() {
      var r := ListRequest("", "", "", "", 1, 20);
      var s := NewerStored(p, r, m);
      assert p(m.early + 1, r).Ok?;
      assert GoesBack(s, End(1, m.early + 1), r.Key(), p, m);
    } else {
      forall s: Service, t: Step, k: string | Reachable(s, p, m)
        ensures !GoesBack(s, t, k, p, m)
      {
        SoundReachable(s, p, m);
        if m.Fresh() <= m.early {
          OneAtATimeReachable(s, p, m);
        }
        NeverGoesBack(s, t, k, p, m);
      }
    }
  }

  lemma NeverGoesBack(s: Service, t: Step, k: string, p: Provider, m: Times)
    requires Sound(s, p, m) && (m.limit == 0 || AllOneAtATime(s))
    ensures !GoesBack(s, t, k, p, m)
  {
    assert SoundEntry(s, k, p, m);
    if t.End? && t.f < |s.fetches| && m.limit > 0 {
      assert OneAtATime(s, t.f);
    }
  }

  /** A slow refresh has begun; meanwhile the entry is lost and fetched anew. */
  lemma NewerStored(p: Provider, r: ListRequest, m: Times) returns (s: Service)
    requires forall t: nat :: p(t, r).Ok?
    requires m.early < m.Fresh()
    ensures Reachable(s, p, m) && s.clock == m.early + 2
    ensures |s.fetches| == 3 && s.fetches[1] == Fetch(r, m.early + 1, false)
    ensures Servable(s.tier, r.Key(), s.clock, m.sync) && s.tier[r.Key()].value.item.saidAt == m.early + 2
  {
    var s1 := RefreshBegun(p, r, m);
    var s2 := ReachableStep(s1, Lose({r.Key()}), p, m);
    var s3 := ReachableStep(s2, Wait(1), p, m);
    var s4 := ReachableStep(s3, Miss(2, r), p, m);
    var s5 := ReachableStep(s4, Lead(2), p, m);
    assert p(m.early + 2, r).Ok?;
    s := ReachableStep(s5, End(2, m.early + 2), p, m);
  }

  lemma RefreshBegun(p: Provider, r: ListRequest, m: Times) returns (s: Service)
    requires p(0, r).Ok? && m.early < m.Fresh()
    ensures Reachable(s, p, m) && s.clock == m.early + 1 && s.inFlight == map[] && s.calls.Keys == {0, 1}
    ensures s.fetches == [Fetch(r, 0, true), Fetch(r, m.early + 1, false)]
  {
    var s1 := FirstFetched(p, r, m, 0);
    var s2 := ReachableStep(s1, Wait(m.early + 1), p, m);
    s := ReachableStep(s2, Hit(1, r, true), p, m);
  }

  /** Without refreshes in the background every fetch is the one its key's calls wait for, and what is stored
      is not newer than it. */
  predicate OneAtATime(s: Service, f: nat)
    requires f < |s.fetches|
  {
    var k := s.fetches[f].r.Key();
    !s.fetches[f].over ==>
      k in s.inFlight && s.inFlight[k] == f && (k in s.tier ==> s.tier[k].value.item.saidAt <= s.fetches[f].beganAt)
  }

  ghost predicate AllOneAtATime(s: Service) {
    forall f :: 0 <= f < |s.fetches| ==> OneAtATime(s, f)
  }

  lemma OneAtATimeStep(s: Service, t: Step, p: Provider, m: Times, f: nat)
    requires Enabled(s, t, m) && Sound(s, p, m) && AllOneAtATime(s) && m.Fresh() <= m.early
    requires f < |Act(s, t, p, m).fetches|
    ensures OneAtATime(Act(s, t, p, m), f)
  {
    if t.Hit? {
      assert SoundEntry(s, t.r.Key(), p, m);
    } else if t.Lead? {
      assert SoundEntry(s, s.calls[t.c].r.Key(), p, m);
    }
    assert f < |s.fetches| ==> OneAtATime(s, f);
    assert t.End? ==> OneAtATime(s, t.f);
  }

  lemma {:induction false} OneAtATimeRun(s: Service, steps: seq<Step>, s': Service, p: Provider, m: Times)
    requires Sound(s, p, m) && AllOneAtATime(s) && Run(s, steps, s', p, m) && m.Fresh() <= m.early
    ensures AllOneAtATime(s')
    decreases |steps|
  {
    if steps != [] {
      var s1 := Act(s, steps[0], p, m);
      SoundStep(s, steps[0], p, m);
      forall f | 0 <= f < |s1.fetches|
        ensures OneAtATime(s1, f)
      {
        OneAtATimeStep(s, steps[0], p, m, f);
      }
      OneAtATimeRun(s1, steps[1..], s', p, m);
    }
  }

  lemma OneAtATimeReachable(s: Service, p: Provider, m: Times)
    requires Reachable(s, p, m) && m.Fresh() <= m.early
    ensures AllOneAtATime(s)
  {
    var start: nat, steps: seq<Step> :| Run(Empty(start), steps, s, p, m);
    OneAtATimeRun(Empty(start), steps, s, p, m);
  }

  // ---------- The two caches ----------

  /** A cached pipeline list is at most half a minute and a fetch old, and no less in the worst case. */
  lemma PipelineListAge(age: nat, limit: nat)
    ensures AlwaysWithin(age, Times(60 * SECOND, 5 * SECOND, 30 * SECOND, limit)) <==> 30_000_000_000 + limit <= age
  {
    AlwaysWithinIff(age, Times(60 * SECOND, 5 * SECOND, 30 * SECOND, limit));
  }

  /** A cached pull request list at most a minute and a fetch. */
  lemma PullRequestListAge(age: nat, limit: nat)
    ensures AlwaysWithin(age, Times(120 * SECOND, 10 * SECOND, 60 * SECOND, limit)) <==> 60_000_000_000 + limit <= age
  {
    AlwaysWithinIff(age, Times(120 * SECOND, 10 * SECOND, 60 * SECOND, limit));
  }

  /** In both, answers can go back in time as soon as fetches take any. */
  lemma BothCanGoBack(p: Provider, limit: nat)
    requires forall t: nat, r: ListRequest :: p(t, r).Ok?
    ensures CanGoBack(p, Times(60 * SECOND, 5 * SECOND, 30 * SECOND, limit)) <==> 0 < limit
    ensures CanGoBack(p, Times(120 * SECOND, 10 * SECOND, 60 * SECOND, limit)) <==> 0 < limit
  {
    CanGoBackIff(p, Times(60 * SECOND, 5 * SECOND, 30 * SECOND, limit));
    CanGoBackIff(p, Times(120 * SECOND, 10 * SECOND, 60 * SECOND, limit));
  }
}

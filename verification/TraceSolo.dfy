/** The undisturbed call of the service is a run of the protocol that nothing comes between. */
module TraceSolo {
  import opened Wrappers
  import opened BoundedTrace
  import opened Tiers
  import opened TraceProtocol
  import opened TraceScripts
  import opened TraceService

  /** A tier without the notes on who stored what. */
  function Plain(tier: Tier<Stored>): Tier<Trace> {
    map k | k in tier :: Entry(tier[k].value.trace, tier[k].expiresAt)
  }

  /** The protocol's caches as the service holds them. */
  function View(s: State): Caches {
    Caches(Plain(s.done), Plain(s.live), s.markers)
  }

  /** Call c has returned this answer. */
  predicate Answers(s: State, c: nat, answer: Result<Trace, string>) {
    && c in s.calls && s.calls[c].Returned?
    && match answer
       case Ok(trace) => s.calls[c].outcome.Delivered? && s.calls[c].outcome.trace == trace
       case Err(_) => s.calls[c].outcome.Failed?
  }

  function ToGet(provider: Result<Log, string>): Got {
    match provider
    case Ok(body) => Body(body)
    case Err(_) => NoBody
  }

  /** The flight of a call that misses has its answer. */
  lemma FetchedRun(s: State, c: nat, req: Request, got: Got) returns (steps: seq<Step>, s': State)
    requires c !in s.calls && req.Key() !in s.open && !Shows(s, req.Key()) && CanGet(s, req, got)
    ensures Run(s, steps, s') && OfOneCall(steps) && SameWorld(s, s')
    ensures Leads(s', c, |s.flights|, req, if Keeps(got) then ReadingMarker else Publishing)
    ensures s'.flights[|s.flights|].outcome == GotOutcome(|s.flights|, got)
    ensures s'.history.calls == s.history.calls + multiset{req.Key()}
  {
    var a, s1 := LeadRun(s, c, req);
    var b;
    b, s' := FetchRun(s1, |s.flights|, got);
    steps := JoinRuns(s, a, s1, b, s');
  }

  /** What can be kept is stored, and then the call returns. */
  lemma KeptRun(s: State, c: nat, f: nat, req: Request, trace: Trace) returns (steps: seq<Step>, s': State)
    requires Leads(s, c, f, req, ReadingMarker) && s.flights[f].outcome == Delivered(trace, f) && Cacheable(trace)
    ensures Run(s, steps, s') && OfOneCall(steps)
    ensures s'.jobs == s.jobs && s'.clock == s.clock && s'.history.calls == s.history.calls
    ensures View(s') == AfterFetch(View(s), req, trace, s.clock) && Answers(s', c, Ok(trace))
  {
    var a, s1 := StoreRun(s, f);
    var b;
    b, s' := ReturnRun(s1, c, f, req);
    steps := JoinRuns(s, a, s1, b, s');
    KeptView(s, s', f, req, trace);
  }

  lemma KeptView(s: State, s': State, f: nat, req: Request, trace: Trace)
    requires f < |s.flights| && s.flights[f].outcome == Delivered(trace, f) && Cacheable(trace)
    requires s.flights[f].key == req.Key() && s'.markers == s.markers
    requires var marked := Visible(s.markers, req.Marker(), s.clock);
             s'.done == StoredDone(s, f, marked, s.events + 1) && s'.live == StoredLive(s, f, marked, s.events + 1)
    ensures View(s') == AfterFetch(View(s), req, trace, s.clock)
  {
    assert Plain(s'.done) == AfterFetch(View(s), req, trace, s.clock).done;
    assert Plain(s'.live) == AfterFetch(View(s), req, trace, s.clock).live;
  }

  /** From s to s' the caches, the answer to call c and the number of provider calls are as the service
      method has them. */
  predicate Agrees(s: State, s': State, c: nat, req: Request, provider: Result<Log, string>) {
    var r := SoloCall(View(s), req, provider, s.clock);
    && View(s') == r.after && Answers(s', c, r.answer) && s'.jobs == s.jobs && s'.clock == s.clock
    && s'.history.calls[req.Key()] == s.history.calls[req.Key()] + if r.asked then 1 else 0
  }

  lemma SoloMiss(s: State, req: Request, provider: Result<Log, string>)
    requires !Shows(s, req.Key())
    ensures SoloCall(View(s), req, provider, s.clock) ==
            match provider
            case Err(e) => Solo(Err(e), true, View(s))
            case Ok(body) => Solo(Ok(BoundedRead(body)), true, AfterFetch(View(s), req, BoundedRead(body), s.clock))
  {
  }

  lemma SoloHit(s: State, c: nat, req: Request, provider: Result<Log, string>) returns (steps: seq<Step>, s': State)
    requires c !in s.calls && Shows(s, req.Key())
    ensures Run(s, steps, s') && OfOneCall(steps) && Agrees(s, s', c, req, provider)
  {
    steps, s' := HitRun(s, c, req);
  }

  lemma SoloKept(s: State, c: nat, req: Request, body: Log) returns (steps: seq<Step>, s': State)
    requires c !in s.calls && req.Key() !in s.open && !Shows(s, req.Key())
    requires CanGet(s, req, Body(body)) && Cacheable(BoundedRead(body))
    ensures Run(s, steps, s') && OfOneCall(steps) && Agrees(s, s', c, req, Ok(body))
  {
    SoloMiss(s, req, Ok(body));
    var a, s1 := FetchedRun(s, c, req, Body(body));
    assert View(s1) == View(s);
    var b;
    b, s' := KeptRun(s1, c, |s.flights|, req, BoundedRead(body));
    steps := JoinRuns(s, a, s1, b, s');
  }

  lemma SoloPassed(s: State, c: nat, req: Request, provider: Result<Log, string>) returns (steps: seq<Step>, s': State)
    requires c !in s.calls && req.Key() !in s.open && !Shows(s, req.Key())
    requires CanGet(s, req, ToGet(provider)) && !Keeps(ToGet(provider))
    ensures Run(s, steps, s') && OfOneCall(steps) && Agrees(s, s', c, req, provider)
  {
    SoloMiss(s, req, provider);
    var a, s1 := FetchedRun(s, c, req, ToGet(provider));
    assert View(s1) == View(s);
    var b;
    b, s' := ReturnRun(s1, c, |s.flights|, req);
    steps := JoinRuns(s, a, s1, b, s');
  }

  /** From any state without a flight for its key, with a job whose log stands still, a call that nothing
      comes between leaves the caches and answers exactly as the service method does. */
  lemma SoloRun(s: State, c: nat, req: Request, provider: Result<Log, string>) returns (steps: seq<Step>, s': State)
    requires c !in s.calls && req.Key() !in s.open && CanGet(s, req, ToGet(provider))
    ensures Run(s, steps, s') && OfOneCall(steps) && Agrees(s, s', c, req, provider)
  {
    if Shows(s, req.Key()) {
      steps, s' := SoloHit(s, c, req, provider);
    } else if Keeps(ToGet(provider)) {
      steps, s' := SoloKept(s, c, req, provider.value);
    } else {
      steps, s' := SoloPassed(s, c, req, provider);
    }
  }
}

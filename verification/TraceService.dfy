/** One GetJobTrace call that meets no other: the method as it runs over the cache objects. */
module TraceService {
  import opened Wrappers
  import opened BoundedTrace
  import opened Tiers
  import opened CacheClients
  import opened TraceProtocol

  // ---------- What such a call does, told as a function of the cache contents ----------

  datatype Caches = Caches(done: Tier<Trace>, live: Tier<Trace>, markers: Tier<bool>)

  datatype Solo = Solo(answer: Result<Trace, string>, asked: bool, after: Caches)

  /** The contents after a fetched trace has been dealt with. */
  function AfterFetch(c: Caches, req: Request, trace: Trace, now: nat): Caches {
    if !Cacheable(trace) then c
    else if Visible(c.markers, req.Marker(), now) then
      c.(done := c.done[req.Key() := Entry(trace, now + TRACE_DONE_TTL)])
    else
      c.(live := c.live[req.Key() := Entry(trace, now + TRACE_LIVE_TTL)])
  }

  function SoloCall(c: Caches, req: Request, provider: Result<Log, string>, now: nat): Solo {
    if Visible(c.done, req.Key(), now) then Solo(Ok(c.done[req.Key()].value), false, c)
    else if Visible(c.live, req.Key(), now) then Solo(Ok(c.live[req.Key()].value), false, c)
    else
      match provider
      case Err(e) => Solo(Err(e), true, c)
      case Ok(body) => Solo(Ok(BoundedRead(body)), true, AfterFetch(c, req, BoundedRead(body), now))
  }

  class PipelineService {
    const traceCache: TerminalAwareCache<Trace>
    const terminalJobs: Client<bool>

    /** A service as it is built: two separate tiers, and the three times to live. */
    ghost predicate Valid() {
      && traceCache.live != traceCache.done
      && traceCache.live.ttl == TRACE_LIVE_TTL && traceCache.done.ttl == TRACE_DONE_TTL
      && terminalJobs.ttl == TERMINAL_JOBS_TTL
    }

    ghost function Contents(): Caches
      reads traceCache.live, traceCache.done, terminalJobs
    {
      Caches(traceCache.done.entries, traceCache.live.entries, terminalJobs.entries)
    }

    constructor ()
      ensures Valid() && terminalJobs.entries == map[]
      ensures traceCache.live.entries == map[] && traceCache.done.entries == map[]
    {
      var live := new Client<Trace>(TRACE_LIVE_TTL);
      var done := new Client<Trace>(TRACE_DONE_TTL);
      traceCache := new TerminalAwareCache(live, done);
      terminalJobs := new Client<bool>(TERMINAL_JOBS_TTL);
    }

    /** With the answer the provider would give. A hit is served and changes nothing; so is an error. A
        fetched trace is returned and, if it may be cached, served again for 30 seconds, or for twelve
        hours when the job's marker is set; a trace that may not be cached leaves the cache alone. */
    method GetJobTrace(req: Request, provider: Result<Log, string>, now: nat)
      returns (res: Result<Trace, string>, asked: bool)
      requires Valid()
      modifies traceCache.live`entries, traceCache.done`entries
      ensures SoloCall(old(Contents()), req, provider, now) == Solo(res, asked, Contents())
      ensures asked <==> old(traceCache.Serves(req.Key(), now)).None?
      ensures !asked ==> res == Ok(old(traceCache.Serves(req.Key(), now)).value)
      ensures asked ==> (res.Ok? <==> provider.Ok?) && (provider.Err? ==> res == Err(provider.error))
      ensures asked && res.Ok? ==> res.value == BoundedRead(provider.value)
      ensures !asked || res.Err? || !Cacheable(res.value) ==>
                traceCache.live.entries == old(traceCache.live.entries)
                && traceCache.done.entries == old(traceCache.done.entries)
      ensures asked && res.Ok? && Cacheable(res.value) ==>
                var marked := Visible(terminalJobs.entries, req.Marker(), now);
                forall later: nat :: now <= later <= now + (if marked then 12 * 3600 else 30) * 1_000_000_000 ==>
                  traceCache.Serves(req.Key(), later) == Some(res.value)
      ensures forall key: string, later: nat :: key != req.Key() ==>
                traceCache.Serves(key, later) == old(traceCache.Serves(key, later))
    {
      var key := req.Key();
      var cached := traceCache.Get(key, now);
      if cached.Some? {
        return Ok(cached.value), false;
      }
      // Nobody else stores anything, so the re-check inside the flight misses as well.
      cached := traceCache.Get(key, now);
      assert cached.None?;
      asked := true;
      if provider.Err? {
        return Err(provider.error), asked;
      }
      var trace := BoundedRead(provider.value);
      if Cacheable(trace) {
        var marker := terminalJobs.Get(req.Marker(), now);
        traceCache.Set(key, trace, marker.Some?, now);
      }
      res := Ok(trace);
    }
  }
}

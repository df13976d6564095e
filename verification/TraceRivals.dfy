/** What a trace key that two requests share does to answers. */
module TraceRivals {
  import opened Keys
  import opened BoundedTrace
  import opened Tiers
  import opened TraceProtocol
  import opened TraceRuns
  import opened TraceTheorems
  import opened TraceScripts

  /** Whatever else is asked for, and whatever happens, a call for this request is only ever answered with
      the log of its own job. */
  ghost predicate AlwaysOwnLog(req: Request) {
    forall s: State, c: nat ::
      Reachable(s) && c in s.calls && s.calls[c].req == req && s.calls[c].Returned? && s.calls[c].outcome.Delivered?
      ==> req.Ref() in s.jobs && s.calls[c].outcome.trace.content <= s.jobs[req.Ref()].log
  }

  /** A separator in the server or the project lets a request to another server print the same key. */
  lemma TraceRival(req: Request) returns (q: Request)
    requires !(PipeFree(req.server) && PipeFree(req.project))
    ensures q.Key() == req.Key() && q.Ref() != req.Ref()
  {
    if !PipeFree(req.server) {
      var x, y := SplitAtPipe(req.server);
      q := Request(x, y + [PIPE] + req.project, req.jobId);
      MoveIntoProject(x, y, req.project, req.jobId);
      assert |x| < |req.server|;
    } else {
      var x, y := SplitAtPipe(req.project);
      q := Request(req.server + [PIPE] + x, y, req.jobId);
      MoveIntoProject(req.server, x, y, req.jobId);
      assert |q.server| > |req.server|;
    }
  }

  lemma RivalFetched(q: Request) returns (s: State)
    ensures Reachable(s) && s.calls.Keys == {0} && |s.flights| == 1 && s.jobs.Keys == {q.Ref()}
    ensures s.done == map[] && s.live == map[] && s.markers == map[]
    ensures s.flights[0].stage == ReadingMarker && s.flights[0].key == q.Key()
    ensures s.flights[0].outcome == Delivered(Trace([0], false), 0)
  {
    var s1 := AskingReachable(q, q.Ref(), [0]);
    var steps;
    steps, s := FetchRun(s1, 0, Body([0]));
    ReachableRun(s1, steps, s);
  }

  /** The rival's job is fetched and stored. */
  lemma RivalStored(q: Request) returns (s: State)
    ensures Reachable(s) && s.calls.Keys == {0} && s.jobs.Keys == {q.Ref()}
    ensures !Visible(s.done, q.Key(), s.clock) && Visible(s.live, q.Key(), s.clock)
  {
    var s1 := RivalFetched(q);
    var steps;
    steps, s := StoreRun(s1, 0);
    ReachableRun(s1, steps, s);
  }

  /** Then a call for this request is answered with the rival's log. */
  lemma RivalAnswer(req: Request, q: Request) returns (s: State)
    requires q.Key() == req.Key() && q.Ref() != req.Ref()
    ensures Reachable(s) && 1 in s.calls && s.calls[1].req == req && s.calls[1].Returned?
    ensures s.calls[1].outcome.Delivered? && req.Ref() !in s.jobs
  {
    var s1 := RivalStored(q);
    var steps;
    steps, s := HitRun(s1, 1, req);
    ReachableRun(s1, steps, s);
  }

  /** The exact condition, over all runs: neither the server nor the project has a separator. */
  lemma AlwaysOwnLogIff(req: Request)
    ensures AlwaysOwnLog(req) <==> PipeFree(req.server) && PipeFree(req.project)
  {
    if PipeFree(req.server) && PipeFree(req.project) {
      forall s: State, c: nat |
        Reachable(s) && c in s.calls && s.calls[c].req == req && s.calls[c].Returned? && s.calls[c].outcome.Delivered?
        ensures req.Ref() in s.jobs && s.calls[c].outcome.trace.content <= s.jobs[req.Ref()].log
      {
        AnswersTheRequest(s, c);
      }
    } else {
      var q := TraceRival(req);
      var s := RivalAnswer(req, q);
    }
  }
}

/** Which jobs get a terminal marker, and that a trace request looks up exactly the marker of its job. */
module Markers {
  import opened Wrappers
  import opened Decimal
  import opened Keys
  import opened Tiers
  import opened CacheClients
  import opened Iterators
  import opened JobListing
  import TraceProtocol

  /** The listing reports a job whose status no step of the life cycle leaves, and its marker has this key. */
  ghost predicate Reported(server: string, jobs: seq<PipelineJob>, key: string) {
    exists i :: 0 <= i < |jobs| && TraceProtocol.Final(jobs[i].status)
                && key == TerminalJobKey(server, jobs[i].id)
  }

  /** The markers after a listing: a new lease for every reported job, everything else as before. */
  ghost predicate MarkedFrom(before: Tier<bool>, after: Tier<bool>, server: string, jobs: seq<PipelineJob>,
                             expiresAt: nat)
  {
    forall key: string ::
      && (Reported(server, jobs, key) ==> key in after && after[key] == Entry(true, expiresAt))
      && (!Reported(server, jobs, key) ==> (key in after <==> key in before)
                                           && (key in before ==> after[key] == before[key]))
  }

  method MarkTerminalJobs(server: string, jobs: seq<PipelineJob>, terminalJobs: Client<bool>, now: nat)
    modifies terminalJobs`entries
    ensures MarkedFrom(old(terminalJobs.entries), terminalJobs.entries, server, jobs, now + terminalJobs.ttl)
  {
    for i := 0 to |jobs|
      invariant MarkedFrom(old(terminalJobs.entries), terminalJobs.entries, server, jobs[..i], now + terminalJobs.ttl)
    {
      TraceProtocol.TerminalIffFinal(jobs[i].status);
      if TraceProtocol.IsTerminalJobStatus(jobs[i].status) {
        terminalJobs.Set(TerminalJobKey(server, jobs[i].id), true, now);
      }
      forall key: string
        ensures Reported(server, jobs[..i + 1], key) <==>
                Reported(server, jobs[..i], key) ||
                (TraceProtocol.Final(jobs[i].status) && key == TerminalJobKey(server, jobs[i].id))
      {
        ReportedNext(server, jobs, i, key);
      }
    }
    assert jobs[..|jobs|] == jobs;
  }

  lemma ReportedNext(server: string, jobs: seq<PipelineJob>, i: nat, key: string)
    requires i < |jobs|
    ensures Reported(server, jobs[..i + 1], key) <==>
            Reported(server, jobs[..i], key) ||
            (TraceProtocol.Final(jobs[i].status) && key == TerminalJobKey(server, jobs[i].id))
  {
    var longer, shorter := jobs[..i + 1], jobs[..i];
    assert forall k :: 0 <= k < i ==> longer[k] == shorter[k];
    assert longer[i] == jobs[i];
  }

  ghost predicate FinishedAmong(jobs: seq<GlJob>, id: int) {
    exists j :: j in jobs && j.id == id && TraceProtocol.Final(j.status)
  }

  /** For every request string that reads as the job's number, the key the trace request looks up is
      marked by a listing exactly when the listing has that job as finished; and a listing of one server
      never marks a job of another, whatever the servers are called. */
  lemma MarkerAgreement(server: string, jobs: seq<GlJob>, asked: string, request: string, id: int)
    requires Atoi(request) == Some(id)
    ensures Reported(server, MapJobs(StableSort(jobs)), TerminalJobKey(asked, Itoa(id))) <==>
            asked == server && FinishedAmong(jobs, id)
  {
    var sorted, key := StableSort(jobs), TerminalJobKey(asked, Itoa(id));
    var listed := MapJobs(sorted);
    StableSortProperties(jobs, id);
    WithIdMembers(jobs, id);
    WithIdMembers(sorted, id);
    if Reported(server, listed, key) {
      var i :| 0 <= i < |listed| && TraceProtocol.Final(listed[i].status)
               && key == TerminalJobKey(server, listed[i].id);
      TerminalJobKeyInjective(asked, id, server, sorted[i].id);
      assert sorted[i] in WithId(sorted, id);
      assert sorted[i] in jobs;
    }
    if asked == server && FinishedAmong(jobs, id) {
      var j :| j in jobs && j.id == id && TraceProtocol.Final(j.status);
      assert j in WithId(jobs, id);
      assert j in sorted;
      var i :| 0 <= i < |sorted| && sorted[i] == j;
      assert listed[i] == MapGitLabJob(j);
    }
  }

  /** ListPipelineJobs on a cache miss: list, and mark what has finished unless the listing failed. */
  method RefreshPipelineJobs(server: string, events: seq<Event<GlJob>>, terminalJobs: Client<bool>, now: nat)
    returns (res: Result<seq<PipelineJob>, string>)
    modifies terminalJobs`entries
    ensures match JobsUpToCap(events)
            case Err(e) => res == Err(e) && terminalJobs.entries == old(terminalJobs.entries)
            case Ok(jobs) =>
              && res == Ok(MapJobs(StableSort(jobs)))
              && MarkedFrom(old(terminalJobs.entries), terminalJobs.entries, server, res.value, now + terminalJobs.ttl)
  {
    res := ListPipelineJobs(events);
    if res.Ok? {
      MarkTerminalJobs(server, res.value, terminalJobs, now);
    }
  }

  /** From listing to trace request: after a listing, the marker a trace request finds is there for exactly 24
      hours if its job was listed as finished, and otherwise as long as it was there before. */
  lemma ListedJobsAreFound(before: Tier<bool>, after: Tier<bool>, server: string, jobs: seq<GlJob>,
                           request: string, id: int, now: nat, later: nat)
    requires MarkedFrom(before, after, server, MapJobs(StableSort(jobs)), now + TERMINAL_JOBS_TTL)
    requires Atoi(request) == Some(id)
    ensures Visible(after, TerminalJobKey(server, Itoa(id)), later) <==>
            if FinishedAmong(jobs, id) then later <= now + 24 * 3600 * 1_000_000_000
            else Visible(before, TerminalJobKey(server, Itoa(id)), later)
  {
    MarkerAgreement(server, jobs, server, request, id);
    assert Reported(server, MapJobs(StableSort(jobs)), TerminalJobKey(server, Itoa(id))) <==> FinishedAmong(jobs, id);
  }
}

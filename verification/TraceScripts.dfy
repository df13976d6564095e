/** Runs of the trace protocol built piece by piece: what one call does when nothing comes between. */
module TraceScripts {
  import opened BoundedTrace
  import opened Tiers
  import opened TraceProtocol
  import opened TraceRuns

  /** Nothing changed about the world and the caches. */
  ghost predicate SameWorld(s: State, s': State) {
    && s'.jobs == s.jobs && s'.clock == s.clock
    && s'.done == s.done && s'.live == s.live && s'.markers == s.markers
  }

  /** Flight f is open and asks for req; call c waits for it. */
  predicate Leads(s: State, c: nat, f: nat, req: Request, stage: Stage) {
    && f < |s.flights| && s.flights[f].req == req && s.flights[f].key == req.Key() && s.flights[f].stage == stage
    && c in s.calls && s.calls[c] == InFlight(req, f)
  }

  /** Steps of a call and its flight only. */
  ghost predicate OfOneCall(steps: seq<Step>) {
    forall t :: t in steps ==> t.OfCall? || t.OfFlight?
  }

  lemma JoinRuns(s: State, a: seq<Step>, s1: State, b: seq<Step>, s2: State) returns (steps: seq<Step>)
    requires Run(s, a, s1) && Run(s1, b, s2) && OfOneCall(a) && OfOneCall(b)
    ensures Run(s, steps, s2) && OfOneCall(steps)
  {
    RunConcat(s, a, s1, b, s2);
    steps := a + b;
  }

  lemma RunOne(s: State, t: Step)
    requires Enabled(s, t)
    ensures Run(s, [t], Apply(s, t))
  {
    RunCons(s, t, [], Apply(s, t));
    assert [t] + [] == [t];
  }

  // ---------- A call that hits ----------

  predicate Shows(s: State, key: string) {
    Visible(s.done, key, s.clock) || Visible(s.live, key, s.clock)
  }

  /** What a lookup of the two tiers finds: the done tier's entry first. */
  function Found(s: State, key: string): Stored
    requires Shows(s, key)
  {
    if Visible(s.done, key, s.clock) then s.done[key].value else s.live[key].value
  }

  lemma HitDoneRun(s: State, c: nat, req: Request) returns (steps: seq<Step>, s': State)
    requires c !in s.calls && Visible(s.done, req.Key(), s.clock)
    ensures Run(s, steps, s') && steps == [OfCall(Start(c, req)), OfCall(HitDone(c))]
    ensures s' == s.(calls := s.calls[c := Returned(req, Served(s.done[req.Key()].value), s.clock)],
                     events := s.events + 2)
  {
    steps := [OfCall(Start(c, req)), OfCall(HitDone(c))];
    var s1 := Counted(ActCall(s, Start(c, req)));
    s' := Counted(ActCall(s1, HitDone(c)));
    RunTwo(s, steps[0], steps[1]);
    assert s'.calls == s.calls[c := Returned(req, Served(s.done[req.Key()].value), s.clock)];
  }

  lemma MissDoneRun(s: State, c: nat, req: Request) returns (steps: seq<Step>, s': State)
    requires c !in s.calls && !Visible(s.done, req.Key(), s.clock)
    ensures Run(s, steps, s') && steps == [OfCall(Start(c, req)), OfCall(MissDone(c))]
    ensures s' == s.(calls := s.calls[c := AtLive(req)], events := s.events + 2)
  {
    steps := [OfCall(Start(c, req)), OfCall(MissDone(c))];
    var s1 := Counted(ActCall(s, Start(c, req)));
    s' := Counted(ActCall(s1, MissDone(c)));
    RunTwo(s, steps[0], steps[1]);
    assert s'.calls == s.calls[c := AtLive(req)];
  }

  lemma HitLiveRun(s: State, c: nat, req: Request) returns (steps: seq<Step>, s': State)
    requires c !in s.calls && !Visible(s.done, req.Key(), s.clock) && Visible(s.live, req.Key(), s.clock)
    ensures Run(s, steps, s') && OfOneCall(steps)
    ensures s' == s.(calls := s.calls[c := Returned(req, Served(s.live[req.Key()].value), s.clock)],
                     events := s.events + 3)
  {
    var a, s1 := MissDoneRun(s, c, req);
    var t := OfCall(HitLive(c));
    s' := Counted(ActCall(s1, HitLive(c)));
    RunOne(s1, t);
    steps := JoinRuns(s, a, s1, [t], s');
    assert s'.calls == s.calls[c := Returned(req, Served(s.live[req.Key()].value), s.clock)];
  }

  /** A call whose key is shown is served from the cache and changes nothing else. */
  lemma HitRun(s: State, c: nat, req: Request) returns (steps: seq<Step>, s': State)
    requires c !in s.calls && Shows(s, req.Key())
    ensures Run(s, steps, s') && OfOneCall(steps)
    ensures SameWorld(s, s') && s'.flights == s.flights && s'.history == s.history
    ensures s'.calls == s.calls[c := Returned(req, Served(Found(s, req.Key())), s.clock)]
  {
    if Visible(s.done, req.Key(), s.clock) {
      steps, s' := HitDoneRun(s, c, req);
    } else {
      steps, s' := HitLiveRun(s, c, req);
    }
  }

  // ---------- A call that misses and leads ----------

  lemma LeadOne(s: State, c: nat, req: Request) returns (steps: seq<Step>, s': State)
    requires c in s.calls && s.calls[c] == AtDoor(req) && req.Key() !in s.open
    ensures Run(s, steps, s') && OfOneCall(steps)
    ensures SameWorld(s, s') && s'.history == s.history && |s'.flights| == |s.flights| + 1
    ensures Leads(s', c, |s.flights|, req, CheckingDone) && s'.calls == s.calls[c := InFlight(req, |s.flights|)]
  {
    s' := Counted(ActCall(s, Lead(c)));
    steps := [OfCall(Lead(c))];
    RunOne(s, OfCall(Lead(c)));
  }

  lemma DoorRun(s: State, c: nat, req: Request) returns (steps: seq<Step>, s': State)
    requires c !in s.calls && !Shows(s, req.Key())
    ensures Run(s, steps, s') && OfOneCall(steps)
    ensures s' == s.(calls := s.calls[c := AtDoor(req)], events := s.events + 3)
  {
    var a, s1 := MissDoneRun(s, c, req);
    var t := OfCall(MissLive(c));
    s' := Counted(ActCall(s1, MissLive(c)));
    RunOne(s1, t);
    steps := JoinRuns(s, a, s1, [t], s');
    assert s'.calls == s.calls[c := AtDoor(req)];
  }

  /** The call is at the door, and then it has opened its flight. */
  lemma Opened(s: State, s1: State, s': State, c: nat, req: Request)
    requires s1 == s.(calls := s.calls[c := AtDoor(req)], events := s.events + 3)
    requires SameWorld(s1, s') && s'.history == s1.history && |s'.flights| == |s1.flights| + 1
    requires Leads(s', c, |s1.flights|, req, CheckingDone) && s'.calls == s1.calls[c := InFlight(req, |s1.flights|)]
    ensures SameWorld(s, s') && s'.history == s.history && |s'.flights| == |s.flights| + 1
    ensures Leads(s', c, |s.flights|, req, CheckingDone) && s'.calls == s.calls[c := InFlight(req, |s.flights|)]
  {
  }

  lemma OpenRun(s: State, c: nat, req: Request) returns (steps: seq<Step>, s': State)
    requires c !in s.calls && req.Key() !in s.open && !Shows(s, req.Key())
    ensures Run(s, steps, s') && OfOneCall(steps)
    ensures SameWorld(s, s') && s'.history == s.history && |s'.flights| == |s.flights| + 1
    ensures Leads(s', c, |s.flights|, req, CheckingDone) && s'.calls == s.calls[c := InFlight(req, |s.flights|)]
  {
    var a, s1 := DoorRun(s, c, req);
    assert req.Key() !in s1.open && s1.calls[c] == AtDoor(req);
    var b;
    b, s' := LeadOne(s1, c, req);
    Opened(s, s1, s', c, req);
    steps := JoinRuns(s, a, s1, b, s');
  }

  lemma RecheckRun(s: State, c: nat, f: nat, req: Request) returns (steps: seq<Step>, s': State)
    requires Leads(s, c, f, req, CheckingDone) && !Shows(s, req.Key())
    ensures Run(s, steps, s') && steps == [OfFlight(RecheckMissDone(f)), OfFlight(RecheckMissLive(f))]
    ensures SameWorld(s, s') && s'.history == s.history && |s'.flights| == |s.flights|
    ensures Leads(s', c, f, req, Calling) && s'.calls == s.calls
  {
    steps := [OfFlight(RecheckMissDone(f)), OfFlight(RecheckMissLive(f))];
    var s1 := Counted(ActFlight(s, RecheckMissDone(f)));
    s' := Counted(ActFlight(s1, RecheckMissLive(f)));
    RunTwo(s, steps[0], steps[1]);
  }

  /** A call that finds nothing, and no flight for its key, is about to call the provider. */
  lemma LeadRun(s: State, c: nat, req: Request) returns (steps: seq<Step>, s': State)
    requires c !in s.calls && req.Key() !in s.open && !Shows(s, req.Key())
    ensures Run(s, steps, s') && OfOneCall(steps)
    ensures SameWorld(s, s') && s'.history == s.history && |s'.flights| == |s.flights| + 1
    ensures Leads(s', c, |s.flights|, req, Calling) && s'.calls == s.calls[c := InFlight(req, |s.flights|)]
  {
    var a, s1 := OpenRun(s, c, req);
    var b;
    b, s' := RecheckRun(s1, c, |s.flights|, req);
    steps := JoinRuns(s, a, s1, b, s');
  }

  // ---------- The provider call ----------

  /** What a flight gets when the job's log stands still: the whole of it, or an error. */
  datatype Got = Body(log: Log) | NoBody

  predicate CanGet(s: State, req: Request, got: Got) {
    got.Body? ==> req.Ref() in s.jobs && got.log == s.jobs[req.Ref()].log
  }

  function EndStep(f: nat, got: Got): FlightStep {
    match got
    case NoBody => FetchError(f)
    case Body(log) => if Cacheable(BoundedRead(log)) then EndFetch(f, log) else EndFetchLarge(f, log)
  }

  function GotOutcome(f: nat, got: Got): Outcome {
    match got
    case NoBody => Failed(f)
    case Body(log) => Delivered(BoundedRead(log), f)
  }

  predicate Keeps(got: Got) {
    got.Body? && Cacheable(BoundedRead(got.log))
  }

  lemma BeginOne(s: State, f: nat) returns (s': State)
    requires f < |s.flights| && s.flights[f].stage == Calling
    ensures Run(s, [OfFlight(BeginFetch(f))], s')
    ensures SameWorld(s, s') && s'.calls == s.calls && |s'.flights| == |s.flights|
    ensures s'.history.calls == s.history.calls + multiset{s.flights[f].key}
    ensures s'.flights[f].req == s.flights[f].req && s'.flights[f].key == s.flights[f].key
    ensures s'.flights[f].stage == Fetching
    ensures s.flights[f].req.Ref() in s.jobs ==> s'.flights[f].logAtBegin == s.jobs[s.flights[f].req.Ref()].log
  {
    s' := Counted(ActFlight(s, BeginFetch(f)));
    RunOne(s, OfFlight(BeginFetch(f)));
  }

  lemma EndOne(s: State, f: nat, got: Got) returns (s': State)
    requires f < |s.flights| && s.flights[f].stage == Fetching && CanGet(s, s.flights[f].req, got)
    requires got.Body? ==> s.flights[f].logAtBegin == got.log
    ensures Run(s, [OfFlight(EndStep(f, got))], s')
    ensures SameWorld(s, s') && s'.calls == s.calls && |s'.flights| == |s.flights|
    ensures s'.history.calls == s.history.calls
    ensures s'.flights[f].req == s.flights[f].req && s'.flights[f].key == s.flights[f].key
    ensures s'.flights[f].stage == if Keeps(got) then ReadingMarker else Publishing
    ensures s'.flights[f].outcome == GotOutcome(f, got)
  {
    s' := Counted(ActFlight(s, EndStep(f, got)));
    RunOne(s, OfFlight(EndStep(f, got)));
  }

  lemma FetchRun(s: State, f: nat, got: Got) returns (steps: seq<Step>, s': State)
    requires f < |s.flights| && s.flights[f].stage == Calling && CanGet(s, s.flights[f].req, got)
    ensures Run(s, steps, s') && OfOneCall(steps)
    ensures SameWorld(s, s') && s'.calls == s.calls && |s'.flights| == |s.flights|
    ensures s'.flights[f].req == s.flights[f].req && s'.flights[f].key == s.flights[f].key
    ensures s'.flights[f].stage == if Keeps(got) then ReadingMarker else Publishing
    ensures s'.flights[f].outcome == GotOutcome(f, got)
    ensures s'.history.calls == s.history.calls + multiset{s.flights[f].key}
  {
    var s1 := BeginOne(s, f);
    s' := EndOne(s1, f, got);
    steps := JoinRuns(s, [OfFlight(BeginFetch(f))], s1, [OfFlight(EndStep(f, got))], s');
  }

  // ---------- The store ----------

  /** The tiers after flight f has read the marker and stored its trace. */
  function StoredDone(s: State, f: nat, marked: bool, at: nat): Tier<Stored>
    requires f < |s.flights| && s.flights[f].outcome.Delivered?
  {
    if marked
    then s.done[s.flights[f].key := Entry(Stored(s.flights[f].outcome.trace, f, at), s.clock + TRACE_DONE_TTL)]
    else s.done
  }

  function StoredLive(s: State, f: nat, marked: bool, at: nat): Tier<Stored>
    requires f < |s.flights| && s.flights[f].outcome.Delivered?
  {
    if marked then s.live
    else s.live[s.flights[f].key := Entry(Stored(s.flights[f].outcome.trace, f, at), s.clock + TRACE_LIVE_TTL)]
  }

  function StoreStep(f: nat, marked: bool): FlightStep {
    if marked then StoreDone(f) else StoreLive(f)
  }

  lemma ReadOne(s: State, f: nat) returns (s': State)
    requires f < |s.flights| && s.flights[f].stage == ReadingMarker
    ensures Run(s, [OfFlight(ReadMarker(f))], s')
    ensures SameWorld(s, s') && s'.calls == s.calls && s'.history == s.history && s'.events == s.events + 1
    ensures |s'.flights| == |s.flights| && s'.flights[f].stage == Storing
    ensures s'.flights[f].terminal == Visible(s.markers, s.flights[f].req.Marker(), s.clock)
    ensures s'.flights[f].req == s.flights[f].req && s'.flights[f].key == s.flights[f].key
    ensures s'.flights[f].outcome == s.flights[f].outcome
  {
    s' := Counted(ActFlight(s, ReadMarker(f)));
    RunOne(s, OfFlight(ReadMarker(f)));
  }

  lemma StoreOne(s: State, f: nat) returns (s': State)
    requires f < |s.flights| && s.flights[f].stage == Storing && s.flights[f].outcome.Delivered?
    ensures Run(s, [OfFlight(StoreStep(f, s.flights[f].terminal))], s')
    ensures s'.jobs == s.jobs && s'.clock == s.clock && s'.markers == s.markers && s'.calls == s.calls
    ensures s'.history.calls == s.history.calls
    ensures s'.done == StoredDone(s, f, s.flights[f].terminal, s.events)
    ensures s'.live == StoredLive(s, f, s.flights[f].terminal, s.events)
    ensures |s'.flights| == |s.flights| && s'.flights[f].stage == Publishing
    ensures s'.flights[f].kept == (if s.flights[f].terminal then KeptDone else KeptLive)
    ensures s'.flights[f].req == s.flights[f].req && s'.flights[f].key == s.flights[f].key
    ensures s'.flights[f].outcome == s.flights[f].outcome
  {
    var t := StoreStep(f, s.flights[f].terminal);
    s' := Counted(ActFlight(s, t));
    RunOne(s, OfFlight(t));
  }

  /** The flight reads the marker and stores what it holds in the tier the marker chooses. */
  lemma StoreRun(s: State, f: nat) returns (steps: seq<Step>, s': State)
    requires f < |s.flights| && s.flights[f].stage == ReadingMarker && s.flights[f].outcome.Delivered?
    ensures Run(s, steps, s') && OfOneCall(steps)
    ensures s'.jobs == s.jobs && s'.clock == s.clock && s'.markers == s.markers && s'.calls == s.calls
    ensures s'.history.calls == s.history.calls
    ensures |s'.flights| == |s.flights| && s'.flights[f].stage == Publishing
    ensures s'.flights[f].req == s.flights[f].req && s'.flights[f].key == s.flights[f].key
    ensures s'.flights[f].outcome == s.flights[f].outcome
    ensures var marked := Visible(s.markers, s.flights[f].req.Marker(), s.clock);
            && s'.flights[f].kept == (if marked then KeptDone else KeptLive)
            && s'.done == StoredDone(s, f, marked, s.events + 1)
            && s'.live == StoredLive(s, f, marked, s.events + 1)
  {
    var s1 := ReadOne(s, f);
    s' := StoreOne(s1, f);
    steps := JoinRuns(s, [OfFlight(ReadMarker(f))], s1, [OfFlight(StoreStep(f, s1.flights[f].terminal))], s');
  }

  // ---------- The return ----------

  lemma ReturnRun(s: State, c: nat, f: nat, req: Request) returns (steps: seq<Step>, s': State)
    requires Leads(s, c, f, req, Publishing)
    ensures Run(s, steps, s') && steps == [OfFlight(Publish(f)), OfCall(Return(c))]
    ensures SameWorld(s, s') && s'.history == s.history
    ensures s'.calls == s.calls[c := Returned(req, s.flights[f].outcome, s.flights[f].gotAt)]
  {
    steps := [OfFlight(Publish(f)), OfCall(Return(c))];
    var s1 := Counted(ActFlight(s, Publish(f)));
    s' := Counted(ActCall(s1, Return(c)));
    RunTwo(s, steps[0], steps[1]);
    assert s'.calls == s.calls[c := Returned(req, s.flights[f].outcome, s.flights[f].gotAt)];
  }

  // ---------- From a fresh service ----------

  /** A fresh service whose provider knows just one job, still running, with this log. */
  function Fresh(ref: JobRef, log: Log): State {
    State(0, 0, map[ref := Job("running", log)], map[], map[], map[], map[], map[], [], [], NO_HISTORY, [], {})
  }

  lemma ReachableRun(s: State, steps: seq<Step>, s': State)
    requires Reachable(s) && Run(s, steps, s')
    ensures Reachable(s')
  {
    var s0: State, first: seq<Step> :| Initial(s0) && Run(s0, first, s);
    RunConcat(s0, first, s, steps, s');
  }

  lemma FreshReachable(ref: JobRef, log: Log)
    ensures Reachable(Fresh(ref, log))
  {
    assert Run(Fresh(ref, log), [], Fresh(ref, log));
  }

  /** A call from a fresh service that is about to ask the provider. */
  lemma AskingReachable(req: Request, ref: JobRef, log: Log) returns (s: State)
    ensures Reachable(s) && Leads(s, 0, 0, req, Calling) && SameWorld(Fresh(ref, log), s)
    ensures s.calls.Keys == {0} && |s.flights| == 1
  {
    var steps;
    FreshReachable(ref, log);
    steps, s := LeadRun(Fresh(ref, log), 0, req);
    ReachableRun(Fresh(ref, log), steps, s);
  }
}

/** Which done-tier traces are final logs. */
module TraceFinality {
  import opened Decimal
  import opened Keys
  import opened BoundedTrace
  import opened Tiers
  import opened TraceProtocol
  import opened TraceContent
  import opened TraceRuns
  import opened TraceTheorems
  import opened TraceScripts

  // ---------- Which done-tier traces are final ----------

  /** The job of a done-tier entry is finished, and if it was finished before the provider was called
      the entry is its final log. */
  lemma DoneTierIsFinished(s: State, k: string)
    requires Reachable(s) && k in s.done
    ensures var v := s.done[k].value;
            && v.flight < |s.flights|
            && var fl := s.flights[v.flight];
               && Terminal(s.jobs, fl.req.Ref())
               && (fl.terminalAtBegin ==> v.trace.content == s.jobs[fl.req.Ref()].log)
  {
    InvReachable(s);
    assert SoundEntry(s, s.done, KeptDone, TRACE_DONE_TTL, k);
    KeptWhenTerminal(s, s.done[k].value.flight);
  }

  lemma KeptWhenTerminal(s: State, f: nat)
    requires Content(s) && f < |s.flights| && s.flights[f].kept == KeptDone
    ensures s.flights[f].outcome.Delivered? && Terminal(s.jobs, s.flights[f].req.Ref())
    ensures s.flights[f].terminalAtBegin ==>
              s.flights[f].outcome.trace.content == s.jobs[s.flights[f].req.Ref()].log
  {
    assert SoundFlight(s, f);
  }

  /** Flight f has stored a trace in the done tier that is not the whole log of its job. */
  predicate Stale(s: State, f: nat) {
    && f < |s.flights| && s.flights[f].kept == KeptDone && s.flights[f].outcome.Delivered?
    && s.flights[f].req.Ref() in s.jobs
    && s.flights[f].outcome.trace.content != s.jobs[s.flights[f].req.Ref()].log
  }

  /** No run from s makes flight f keep a stale trace in the done tier. */
  ghost predicate AlwaysFinal(s: State, f: nat) {
    forall steps: seq<Step>, s': State :: Run(s, steps, s') ==> !Stale(s', f)
  }

  /** The job is already finished, or its log already too large to be stored. */
  predicate FinishedOrLarge(s: State, f: nat)
    requires f < |s.flights|
  {
    var ref := s.flights[f].req.Ref();
    ref in s.jobs && (Terminal(s.jobs, ref) || |s.jobs[ref].log| > MAX_CACHEABLE_TRACE_BYTES)
  }

  /** The flight can no longer go wrong: it has yet to call the provider about such a job, or has done so. */
  predicate Safe(s: State, f: nat) {
    && f < |s.flights|
    && var fl := s.flights[f];
       || (fl.stage == Calling && FinishedOrLarge(s, f))
       || (Begun(fl.stage) && (fl.terminalAtBegin || |fl.logAtBegin| > MAX_CACHEABLE_TRACE_BYTES))
  }

  lemma SafeIsNotStale(s: State, f: nat)
    requires Inv(s) && Safe(s, f)
    ensures !Stale(s, f)
  {
    assert SoundFlight(s, f);
    if s.flights[f].kept == KeptDone {
      KeptWhenTerminal(s, f);
      KeptIsWhole(s, Stored(s.flights[f].outcome.trace, f, 0));
    }
  }

  lemma SafeFlight(s: State, t: FlightStep, f: nat)
    requires Safe(s, f) && FlightEnabled(s, t)
    ensures Safe(Counted(ActFlight(s, t)), f)
  {
    if t.f == f && s.flights[f].stage != Calling {
      FlightMoves(s, t);
    }
  }

  lemma SafeUnmoved(s: State, s': State, f: nat)
    requires Safe(s, f) && f < |s'.flights| && s'.flights[f] == s.flights[f]
    requires JobExtends(s, s', s.flights[f].req.Ref())
    ensures Safe(s', f)
  {
  }

  lemma SafeCall(s: State, t: CallStep, f: nat)
    requires Safe(s, f) && CallEnabled(s, t)
    ensures Safe(Counted(ActCall(s, t)), f)
  {
    SafeUnmoved(s, Counted(ActCall(s, t)), f);
  }

  lemma SafeWorld(s: State, t: WorldStep, f: nat)
    requires Safe(s, f) && WorldEnabled(s, t)
    ensures Safe(Counted(ActWorld(s, t)), f)
  {
    ExtendsWorld(s, t);
    SafeUnmoved(s, Counted(ActWorld(s, t)), f);
  }

  lemma SafeInvalidate(s: State, t: InvalidateStep, f: nat)
    requires Safe(s, f) && InvalidateEnabled(s, t)
    ensures Safe(Counted(ActInvalidate(s, t)), f)
  {
    SafeUnmoved(s, Counted(ActInvalidate(s, t)), f);
  }

  lemma SafeStep(s: State, t: Step, f: nat)
    requires Safe(s, f) && Enabled(s, t)
    ensures Safe(Apply(s, t), f)
  {
    match t
    case OfCall(u) => SafeCall(s, u, f);
    case OfFlight(u) => SafeFlight(s, u, f);
    case OfWorld(u) => SafeWorld(s, u, f);
    case OfInvalidate(u) => SafeInvalidate(s, u, f);
  }

  lemma {:induction false} SafeRun(s: State, f: nat, steps: seq<Step>, s': State)
    requires Inv(s) && Safe(s, f) && Run(s, steps, s')
    ensures !Stale(s', f)
    decreases |steps|
  {
    if steps == [] {
      SafeIsNotStale(s, f);
    } else {
      InvStep(s, steps[0]);
      SafeStep(s, steps[0], f);
      SafeRun(Apply(s, steps[0]), f, steps[1..], s');
    }
  }

  // The run that makes a trace stale, piece by piece.

  /** The job writes one more byte, finishes, and is marked. */
  lemma FinishAndMark(s: State, ref: JobRef) returns (steps: seq<Step>, s': State)
    requires ref in s.jobs && !Terminal(s.jobs, ref)
    ensures Run(s, steps, s') && s'.flights == s.flights && s'.calls == s.calls
    ensures Terminal(s'.jobs, ref) && s'.jobs[ref].log == s.jobs[ref].log + [0]
    ensures Visible(s'.markers, TerminalJobKey(ref.server, Itoa(ref.id)), s'.clock)
  {
    TerminalIffFinal(s.jobs[ref].status);
    var t1 := Progress(ref, Job("failed", s.jobs[ref].log + [0]));
    var s1 := Counted(ActWorld(s, t1));
    s' := Counted(ActWorld(s1, Mark(ref)));
    steps := [OfWorld(t1), OfWorld(Mark(ref))];
    RunTwo(s, steps[0], steps[1]);
  }

  /** Every reader of this key is served a trace that is not the whole log of the job flight f asked for,
      from the done tier, by flight f. */
  predicate ServesStale(s: State, f: nat) {
    && Stale(s, f) && Visible(s.done, s.flights[f].key, s.clock)
    && s.done[s.flights[f].key].value.flight == f
    && s.done[s.flights[f].key].value.trace == s.flights[f].outcome.trace
  }

  lemma FetchThenFinish(s: State, f: nat) returns (steps: seq<Step>, s': State)
    requires f < |s.flights| && s.flights[f].stage == Calling
    requires s.flights[f].req.Ref() in s.jobs && !FinishedOrLarge(s, f)
    ensures Run(s, steps, s') && s'.calls == s.calls && |s'.flights| == |s.flights|
    ensures s'.flights[f].req == s.flights[f].req && s'.flights[f].key == s.flights[f].key
    ensures s'.flights[f].stage == ReadingMarker
    ensures s'.flights[f].outcome == Delivered(Trace(s.jobs[s.flights[f].req.Ref()].log, false), f)
    ensures var ref := s.flights[f].req.Ref();
            && Terminal(s'.jobs, ref) && s'.jobs[ref].log == s.jobs[ref].log + [0]
            && Visible(s'.markers, s.flights[f].req.Marker(), s'.clock)
  {
    var ref := s.flights[f].req.Ref();
    var a, s1 := FetchRun(s, f, Body(s.jobs[ref].log));
    var b;
    b, s' := FinishAndMark(s1, ref);
    RunConcat(s, a, s1, b, s');
    steps := a + b;
  }

  /** The flight fetches, then the job finishes and is marked, and only then the flight reads the marker. */
  lemma StaleFetch(s: State, f: nat) returns (steps: seq<Step>, s': State)
    requires f < |s.flights| && s.flights[f].stage == Calling
    requires s.flights[f].req.Ref() in s.jobs && !FinishedOrLarge(s, f)
    ensures Run(s, steps, s') && ServesStale(s', f)
    ensures s'.calls == s.calls && s'.flights[f].req == s.flights[f].req && s'.flights[f].key == s.flights[f].key
    ensures s'.flights[f].stage == Publishing && Terminal(s'.jobs, s.flights[f].req.Ref())
  {
    var ref := s.flights[f].req.Ref();
    var a, s1 := FetchThenFinish(s, f);
    var b;
    assert |s1.jobs[ref].log| == |s.jobs[ref].log| + 1;
    b, s' := StoreRun(s1, f);
    assert s'.done[s.flights[f].key].expiresAt == s'.clock + TRACE_DONE_TTL;
    RunConcat(s, a, s1, b, s');
    steps := a + b;
  }

  /** From every state in which the job is unfinished, or not even known yet, and its log small enough:
      the run that leaves a stale trace in the done tier, for every later reader. */
  lemma StaleRun(s: State, f: nat) returns (steps: seq<Step>, s': State)
    requires f < |s.flights| && s.flights[f].stage == Calling && !FinishedOrLarge(s, f)
    ensures Run(s, steps, s') && ServesStale(s', f)
  {
    var ref := s.flights[f].req.Ref();
    if ref in s.jobs {
      steps, s' := StaleFetch(s, f);
    } else {
      var t := OfWorld(Progress(ref, Job("running", [])));
      var s1 := Apply(s, t);
      assert s1.jobs == s.jobs[ref := Job("running", [])] && s1.flights == s.flights;
      steps, s' := StaleFetch(s1, f);
      RunCons(s, t, steps, s');
      steps := [t] + steps;
    }
  }

  /** Exactly when the done tier can be trusted: whatever happens next, a flight that is about to call
      the provider never keeps a stale trace in the done tier, if and only if the job is already
      finished or its log already too large to store. */
  lemma AlwaysFinalIff(s: State, f: nat)
    requires Reachable(s) && f < |s.flights| && s.flights[f].stage == Calling
    ensures AlwaysFinal(s, f) <==> FinishedOrLarge(s, f)
  {
    InvReachable(s);
    if FinishedOrLarge(s, f) {
      forall steps: seq<Step>, s': State | Run(s, steps, s')
        ensures !Stale(s', f)
      {
        SafeRun(s, f, steps, s');
      }
    } else {
      var steps, s' := StaleRun(s, f);
    }
  }

  // ---------- It does happen ----------

  /** For every request there is a run from a fresh service that ends with the done tier holding a stale
      trace of a finished job. */
  lemma StaleReachable(req: Request) returns (s: State)
    ensures Reachable(s) && ServesStale(s, 0) && s.calls.Keys == {0}
    ensures s.flights[0].req == req && s.flights[0].key == req.Key() && Terminal(s.jobs, req.Ref())
  {
    var s1 := AskingReachable(req, req.Ref(), []);
    var steps;
    steps, s := StaleFetch(s1, 0);
    ReachableRun(s1, steps, s);
  }

  /** And a later call for the finished job is answered with it. */
  lemma StaleAnswer(req: Request) returns (s: State, c: nat)
    ensures Reachable(s) && c in s.calls && s.calls[c].req == req && s.calls[c].Returned?
    ensures s.calls[c].outcome.Delivered? && Terminal(s.jobs, req.Ref())
    ensures s.calls[c].outcome.trace.content != s.jobs[req.Ref()].log && !s.calls[c].outcome.trace.truncated
  {
    var s1 := StaleReachable(req);
    var steps;
    c := 1;
    steps, s := HitRun(s1, c, req);
    ReachableRun(s1, steps, s);
    StoredTraces(s1, req.Key());
  }

  /** A marker set before the call begins is enough. */
  lemma MarkedBeforeFetchIsFinal(s: State, f: nat)
    requires Reachable(s) && f < |s.flights| && s.flights[f].stage == Calling
    requires s.flights[f].req.Marker() in s.markers
    ensures AlwaysFinal(s, f)
  {
    InvReachable(s);
    assert TrueMarker(s, s.flights[f].req.Ref());
    AlwaysFinalIff(s, f);
  }
}

/** How old an answer of the trace protocol can be. */
module TraceAge {
  import opened BoundedTrace
  import opened Tiers
  import opened TraceProtocol
  import opened TraceContent
  import opened TraceRuns

  // ---------- Until when an answer is handed out ----------

  /** In nanoseconds: not at all, 30 seconds, twelve hours. */
  function TimeToLive(kept: Kept): nat {
    match kept
    case Nowhere => 0
    case KeptLive => 30 * 1_000_000_000
    case KeptDone => 12 * 3600 * 1_000_000_000
  }

  /** What flight f fetched can be come by at time t: when the flight had it itself, or while the tier it
      stored it in shows it. */
  predicate Aged(s: State, f: nat, t: nat) {
    && f < |s.flights|
    && var fl := s.flights[f];
       && fl.called && Answered(fl.stage) && fl.calledAt <= fl.gotAt <= t
       && (t == fl.gotAt || (fl.kept != Nowhere && Settled(fl.stage) && t <= fl.storedAt + TimeToLive(fl.kept)))
  }

  predicate AgedFlight(s: State, f: nat)
    requires f < |s.flights|
  {
    var fl := s.flights[f];
    && (fl.stage == Fetching ==> fl.calledAt <= s.clock)
    && (Answered(fl.stage) ==> fl.gotAt <= s.clock)
    && (Answered(fl.stage) && fl.outcome.Delivered? ==> Aged(s, fl.outcome.source, fl.gotAt))
    && (fl.kept != Nowhere ==> fl.calledAt <= fl.gotAt <= fl.storedAt <= s.clock)
  }

  predicate AgedCall(s: State, c: nat) {
    c in s.calls && s.calls[c].Returned? && s.calls[c].outcome.Delivered? ==>
      Aged(s, s.calls[c].outcome.source, s.calls[c].asOf)
  }

  ghost predicate AllAged(s: State) {
    && (forall f :: 0 <= f < |s.flights| ==> AgedFlight(s, f))
    && (forall c: nat :: AgedCall(s, c))
  }

  lemma AgedForever(s: State, s': State, f: nat, t: nat)
    requires Aged(s, f, t) && Extends(s, s')
    ensures Aged(s', f, t)
  {
    assert FlightExtends(s.flights[f], s'.flights[f]);
  }

  /** What a tier shows can be come by now. */
  lemma ShownIsAged(s: State, tier: Tier<Stored>, kept: Kept, k: string)
    requires Content(s) && AllAged(s) && kept != Nowhere && Visible(tier, k, s.clock)
    requires SoundEntry(s, tier, kept, TimeToLive(kept), k)
    ensures Aged(s, tier[k].value.flight, s.clock)
  {
    var f := tier[k].value.flight;
    assert AgedFlight(s, f) && SoundFlight(s, f);
  }

  // ---------- Every step keeps it ----------

  lemma AgedFlightStays(s: State, s': State, f: nat)
    requires f < |s.flights| && AgedFlight(s, f) && Extends(s, s')
    requires s'.flights[f] == s.flights[f] && s'.clock >= s.clock
    ensures AgedFlight(s', f)
  {
    var fl := s.flights[f];
    if Answered(fl.stage) && fl.outcome.Delivered? {
      AgedForever(s, s', fl.outcome.source, fl.gotAt);
    }
  }

  /** A re-check that hits comes by what the tier shows. */
  lemma AgedHit(s: State, t: FlightStep)
    requires Inv(s) && AllAged(s) && FlightEnabled(s, t) && (t.RecheckHitDone? || t.RecheckHitLive?)
    ensures AgedFlight(Counted(ActFlight(s, t)), t.f)
  {
    var k := s.flights[t.f].key;
    assert AgedFlight(s, t.f) && SoundFlight(s, t.f);
    assert SoundEntry(s, s.done, KeptDone, TRACE_DONE_TTL, k) && SoundEntry(s, s.live, KeptLive, TRACE_LIVE_TTL, k);
    ExtendsFlight(s, t);
    if t.RecheckHitDone? {
      ShownIsAged(s, s.done, KeptDone, k);
      AgedForever(s, Counted(ActFlight(s, t)), s.done[k].value.flight, s.clock);
    } else {
      ShownIsAged(s, s.live, KeptLive, k);
      AgedForever(s, Counted(ActFlight(s, t)), s.live[k].value.flight, s.clock);
    }
  }

  /** The provider's answer comes from the flight itself, now. */
  lemma AgedAnswer(s: State, t: FlightStep)
    requires FlightEnabled(s, t) && AgedFlight(s, t.f) && SoundFlight(s, t.f)
    requires t.EndFetch? || t.EndFetchLarge? || t.FetchError?
    ensures AgedFlight(Counted(ActFlight(s, t)), t.f)
  {
  }

  /** Otherwise a flight has come by nothing yet, or keeps what it has. */
  lemma AgedKeeps(s: State, t: FlightStep)
    requires FlightEnabled(s, t) && AgedFlight(s, t.f) && SoundFlight(s, t.f)
    requires t.ReadMarker? || t.StoreDone? || t.StoreLive? || t.Publish?
    ensures AgedFlight(Counted(ActFlight(s, t)), t.f)
  {
    var fl := s.flights[t.f];
    ExtendsFlight(s, t);
    if fl.outcome.Delivered? {
      AgedForever(s, Counted(ActFlight(s, t)), fl.outcome.source, fl.gotAt);
    }
  }

  lemma AgedBefore(s: State, t: FlightStep)
    requires FlightEnabled(s, t) && AgedFlight(s, t.f) && SoundFlight(s, t.f)
    requires t.RecheckMissDone? || t.RecheckMissLive? || t.BeginFetch?
    ensures AgedFlight(Counted(ActFlight(s, t)), t.f)
  {
  }

  lemma AgedMove(s: State, t: FlightStep)
    requires Inv(s) && AllAged(s) && FlightEnabled(s, t)
    ensures AgedFlight(Counted(ActFlight(s, t)), t.f)
  {
    assert AgedFlight(s, t.f) && SoundFlight(s, t.f);
    if t.RecheckHitDone? || t.RecheckHitLive? {
      AgedHit(s, t);
    } else if t.EndFetch? || t.EndFetchLarge? || t.FetchError? {
      AgedAnswer(s, t);
    } else if t.ReadMarker? || t.StoreDone? || t.StoreLive? || t.Publish? {
      AgedKeeps(s, t);
    } else {
      AgedBefore(s, t);
    }
  }

  lemma AgedFlightStep(s: State, t: FlightStep)
    requires Inv(s) && AllAged(s) && FlightEnabled(s, t)
    ensures AllAged(Counted(ActFlight(s, t)))
  {
    var s' := Counted(ActFlight(s, t));
    ExtendsFlight(s, t);
    AgedMove(s, t);
    forall f | 0 <= f < |s'.flights|
      ensures AgedFlight(s', f)
    {
      if f != t.f { AgedFlightStays(s, s', f); }
    }
    AgedCallsStay(s, s');
  }

  lemma AgedCallsStay(s: State, s': State)
    requires AllAged(s) && Extends(s, s') && s'.calls == s.calls
    ensures forall c: nat :: AgedCall(s', c)
  {
    forall c: nat
      ensures AgedCall(s', c)
    {
      assert AgedCall(s, c);
      if c in s.calls && s.calls[c].Returned? && s.calls[c].outcome.Delivered? {
        AgedForever(s, s', s.calls[c].outcome.source, s.calls[c].asOf);
      }
    }
  }

  /** A call comes by what a tier shows, or by what its flight came by. */
  lemma AgedReturn(s: State, t: CallStep)
    requires Inv(s) && AllAged(s) && CallEnabled(s, t)
    ensures var call := MovedCall(s, t);
            call.Returned? && call.outcome.Delivered? ==> Aged(s, call.outcome.source, call.asOf)
  {
    if t.HitDone? {
      var k := s.calls[t.c].req.Key();
      assert SoundEntry(s, s.done, KeptDone, TRACE_DONE_TTL, k);
      ShownIsAged(s, s.done, KeptDone, k);
    } else if t.HitLive? {
      var k := s.calls[t.c].req.Key();
      assert SoundEntry(s, s.live, KeptLive, TRACE_LIVE_TTL, k);
      ShownIsAged(s, s.live, KeptLive, k);
    } else if t.Return? {
      assert AgedFlight(s, s.calls[t.c].flight);
    }
  }

  lemma AgedCallStep(s: State, t: CallStep)
    requires Inv(s) && AllAged(s) && CallEnabled(s, t)
    ensures AllAged(Counted(ActCall(s, t)))
  {
    var s' := Counted(ActCall(s, t));
    ExtendsCall(s, t);
    AgedReturn(s, t);
    forall f | 0 <= f < |s'.flights|
      ensures AgedFlight(s', f)
    {
      if f < |s.flights| { AgedFlightStays(s, s', f); }
    }
    forall c: nat
      ensures AgedCall(s', c)
    {
      assert AgedCall(s, c);
      if c in s'.calls && s'.calls[c].Returned? && s'.calls[c].outcome.Delivered? {
        AgedForever(s, s', s'.calls[c].outcome.source, s'.calls[c].asOf);
      }
    }
  }

  lemma AgedOtherwise(s: State, s': State)
    requires AllAged(s) && Extends(s, s')
    requires s'.flights == s.flights && s'.calls == s.calls && s'.clock >= s.clock
    ensures AllAged(s')
  {
    forall f | 0 <= f < |s'.flights|
      ensures AgedFlight(s', f)
    {
      AgedFlightStays(s, s', f);
    }
    AgedCallsStay(s, s');
  }

  lemma AgedWorld(s: State, t: WorldStep)
    requires AllAged(s) && WorldEnabled(s, t)
    ensures AllAged(Counted(ActWorld(s, t)))
  {
    ExtendsWorld(s, t);
    AgedOtherwise(s, Counted(ActWorld(s, t)));
  }

  lemma AgedInvalidate(s: State, t: InvalidateStep)
    requires AllAged(s) && InvalidateEnabled(s, t)
    ensures AllAged(Counted(ActInvalidate(s, t)))
  {
    ExtendsInvalidate(s, t);
    AgedOtherwise(s, Counted(ActInvalidate(s, t)));
  }

  lemma AgedStep(s: State, t: Step)
    requires Inv(s) && AllAged(s) && Enabled(s, t)
    ensures AllAged(Apply(s, t))
  {
    match t
    case OfCall(u) => AgedCallStep(s, u);
    case OfFlight(u) => AgedFlightStep(s, u);
    case OfWorld(u) => AgedWorld(s, u);
    case OfInvalidate(u) => AgedInvalidate(s, u);
  }

  lemma {:induction false} AgedRun(s: State, steps: seq<Step>, s': State)
    requires Inv(s) && AllAged(s) && Run(s, steps, s')
    ensures AllAged(s')
    decreases |steps|
  {
    if steps != [] {
      AgedStep(s, steps[0]);
      InvStep(s, steps[0]);
      AgedRun(Apply(s, steps[0]), steps[1..], s');
    }
  }

  // ---------- What the log held when the provider was called ----------

  /** The run passes through this state. */
  ghost predicate Passes(s: State, steps: seq<Step>, past: State)
    decreases |steps|
  {
    past == s || (steps != [] && Enabled(s, steps[0]) && Passes(Apply(s, steps[0]), steps[1..], past))
  }

  function LogIn(s: State, ref: JobRef): Log {
    if ref in s.jobs then s.jobs[ref].log else []
  }

  predicate HasCalled(s: State, f: nat) {
    f < |s.flights| && s.flights[f].called
  }

  lemma NotCalledByCall(s: State, t: CallStep, f: nat)
    requires CallEnabled(s, t) && !HasCalled(s, f)
    ensures !HasCalled(ActCall(s, t), f)
  {
  }

  lemma NotCalledByWorld(s: State, t: WorldStep, f: nat)
    requires WorldEnabled(s, t) && !HasCalled(s, f)
    ensures !HasCalled(ActWorld(s, t), f)
  {
  }

  lemma NotCalledByInvalidate(s: State, t: InvalidateStep, f: nat)
    requires InvalidateEnabled(s, t) && !HasCalled(s, f)
    ensures !HasCalled(ActInvalidate(s, t), f)
  {
  }

  /** Only BeginFetch makes it so, and it notes the clock and the log. */
  lemma CalledByFlight(s: State, t: FlightStep, f: nat)
    requires FlightEnabled(s, t) && !HasCalled(s, f) && HasCalled(ActFlight(s, t), f)
    ensures var fl := ActFlight(s, t).flights[f];
            fl.stage == Fetching && fl.calledAt == s.clock && fl.logAtBegin == LogIn(s, fl.req.Ref())
  {
    assert t.f == f;
  }

  lemma CalledByBegin(s: State, t: Step, f: nat)
    requires Enabled(s, t) && !HasCalled(s, f) && HasCalled(Apply(s, t), f)
    ensures var fl := Apply(s, t).flights[f];
            fl.stage == Fetching && fl.calledAt == s.clock && fl.logAtBegin == LogIn(s, fl.req.Ref())
  {
    match t
    case OfCall(u) => NotCalledByCall(s, u, f);
    case OfFlight(u) => CalledByFlight(s, u, f);
    case OfWorld(u) => NotCalledByWorld(s, u, f);
    case OfInvalidate(u) => NotCalledByInvalidate(s, u, f);
  }

  /** The note is true: the run passed through a state with this clock and this log. */
  lemma {:induction false} CalledDuring(s: State, steps: seq<Step>, s': State, f: nat) returns (past: State)
    requires Run(s, steps, s') && !HasCalled(s, f) && HasCalled(s', f)
    ensures Passes(s, steps, past)
    ensures s'.flights[f].calledAt == past.clock && s'.flights[f].logAtBegin == LogIn(past, s'.flights[f].req.Ref())
    decreases |steps|
  {
    var s1 := Apply(s, steps[0]);
    if HasCalled(s1, f) {
      past := s;
      CalledByBegin(s, steps[0], f);
      ExtendsRun(s1, steps[1..], s');
      assert FlightExtends(s1.flights[f], s'.flights[f]);
    } else {
      past := CalledDuring(s1, steps[1..], s', f);
    }
  }

  // ---------- The age of an answer ----------

  /** How long a flight took from calling the provider until it had the answer, or had stored it. */
  function FetchTime(fl: Flight): int {
    (if fl.kept == Nowhere then fl.gotAt else fl.storedAt) - fl.calledAt
  }

  /** On every run, every answer holds all that the log of its job held in some state the run passed
      through, and it was come by no later after that state than the fetch took and the tier that kept it
      shows its entries: 30 seconds, or twelve hours. */
  lemma AnswerAge(s0: State, steps: seq<Step>, s: State, c: nat) returns (past: State)
    requires Initial(s0) && Run(s0, steps, s)
    requires c in s.calls && s.calls[c].Returned? && s.calls[c].outcome.Delivered?
    ensures Passes(s0, steps, past) && s.calls[c].outcome.source < |s.flights|
    ensures var call, fl := s.calls[c], s.flights[s.calls[c].outcome.source];
            && fl.key == call.req.Key()
            && BoundedRead(LogIn(past, fl.req.Ref())).content <= call.outcome.trace.content
            && (!call.outcome.trace.truncated ==> LogIn(past, fl.req.Ref()) <= call.outcome.trace.content)
            && past.clock <= call.asOf <= past.clock + FetchTime(fl) + TimeToLive(fl.kept)
  {
    InvInitial(s0);
    InvRun(s0, steps, s);
    AgedRun(s0, steps, s);
    assert AgedCall(s, c) && SoundCall(s, c);
    var f := s.calls[c].outcome.source;
    assert AgedFlight(s, f);
    past := CalledDuring(s0, steps, s, f);
  }
}

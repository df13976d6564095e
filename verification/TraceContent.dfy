/** What the traces are: where each came from, and how it relates to the job's log. */
module TraceContent {
  import opened Decimal
  import opened Keys
  import opened BoundedTrace
  import opened Tiers
  import opened TraceProtocol
  import opened TraceInvariants

  // ---------- What only grows ----------

  ghost predicate JobExtends(s: State, s': State, ref: JobRef) {
    ref in s.jobs ==>
      && ref in s'.jobs && s.jobs[ref].log <= s'.jobs[ref].log
      && (Terminal(s.jobs, ref) ==> s'.jobs[ref] == s.jobs[ref])
  }

  predicate Begun(stage: Stage) {
    stage != CheckingDone && stage != CheckingLive && stage != Calling
  }

  /** The provider's answer is in, or the flight is past needing one. */
  predicate Answered(stage: Stage) {
    stage == ReadingMarker || stage == Storing || Settled(stage)
  }

  predicate Settled(stage: Stage) {
    stage == Publishing || stage == Closed
  }

  predicate FlightExtends(fl: Flight, fl': Flight) {
    && fl'.key == fl.key && fl'.req == fl.req && fl'.openedAt == fl.openedAt
    && (Begun(fl.stage) ==>
          && Begun(fl'.stage) && fl'.logAtBegin == fl.logAtBegin
          && fl'.terminalAtBegin == fl.terminalAtBegin && fl'.beganAt == fl.beganAt && fl'.called == fl.called
          && fl'.calledAt == fl.calledAt)
    && (Answered(fl.stage) ==> Answered(fl'.stage) && fl'.outcome == fl.outcome && fl'.gotAt == fl.gotAt)
    && (Settled(fl.stage) ==>
          fl' == fl.(stage := fl'.stage, closedAt := fl'.closedAt) && Settled(fl'.stage))
    && (fl.stage == Closed ==> fl' == fl)
  }

  /** Jobs and flights are never forgotten, terminal jobs and settled flights never change. */
  ghost predicate Extends(s: State, s': State) {
    && (forall ref: JobRef :: JobExtends(s, s', ref))
    && |s.flights| <= |s'.flights|
    && (forall f :: 0 <= f < |s.flights| ==> FlightExtends(s.flights[f], s'.flights[f]))
  }

  lemma FlightMoves(s: State, t: FlightStep)
    requires FlightEnabled(s, t)
    ensures FlightExtends(s.flights[t.f], ActFlight(s, t).flights[t.f])
  {
  }

  lemma ExtendsByMove(s: State, s': State, f: nat)
    requires Advanced(s, s', f) && s'.jobs == s.jobs
    requires FlightExtends(s.flights[f], s'.flights[f])
    ensures Extends(s, s')
  {
  }

  lemma ExtendsFlight(s: State, t: FlightStep)
    requires FlightEnabled(s, t)
    ensures Extends(s, Counted(ActFlight(s, t)))
  {
    FlightMoves(s, t);
    ExtendsByMove(s, Counted(ActFlight(s, t)), t.f);
  }

  lemma ExtendsCall(s: State, t: CallStep)
    requires CallEnabled(s, t)
    ensures Extends(s, Counted(ActCall(s, t)))
  {
  }

  lemma ExtendsWorld(s: State, t: WorldStep)
    requires WorldEnabled(s, t)
    ensures Extends(s, Counted(ActWorld(s, t)))
  {
  }

  lemma ExtendsInvalidate(s: State, t: InvalidateStep)
    requires InvalidateEnabled(s, t)
    ensures Extends(s, Counted(ActInvalidate(s, t)))
  {
  }

  lemma ExtendsStep(s: State, t: Step)
    requires Enabled(s, t)
    ensures Extends(s, Apply(s, t))
  {
    match t
    case OfCall(u) => ExtendsCall(s, u);
    case OfFlight(u) => ExtendsFlight(s, u);
    case OfWorld(u) => ExtendsWorld(s, u);
    case OfInvalidate(u) => ExtendsInvalidate(s, u);
  }

  lemma ExtendsTransitive(s0: State, s1: State, s2: State)
    requires Extends(s0, s1) && Extends(s1, s2)
    ensures Extends(s0, s2)
  {
    forall ref: JobRef
      ensures JobExtends(s0, s2, ref)
    {
      assert JobExtends(s0, s1, ref) && JobExtends(s1, s2, ref);
    }
    forall f | 0 <= f < |s0.flights|
      ensures FlightExtends(s0.flights[f], s2.flights[f])
    {
      assert FlightExtends(s0.flights[f], s1.flights[f]) && FlightExtends(s1.flights[f], s2.flights[f]);
    }
  }

  lemma {:induction false} ExtendsRun(s: State, steps: seq<Step>, s': State)
    requires Run(s, steps, s')
    ensures Extends(s, s')
    decreases |steps|
  {
    if steps != [] {
      ExtendsStep(s, steps[0]);
      ExtendsRun(Apply(s, steps[0]), steps[1..], s');
      ExtendsTransitive(s, Apply(s, steps[0]), s');
    }
  }

  // ---------- Soundness of a trace ----------

  /** The trace is a prefix of the log of the job the flight asked for. It holds what the log held when the
      provider was called, or it is flagged, holds 4 MiB, and the log holds more. If the job was finished
      by then it is the bounded read of the final log. */
  predicate TrueToLog(s: State, fl: Flight, trace: Trace) {
    && fl.req.Ref() in s.jobs
    && var log := s.jobs[fl.req.Ref()].log;
       && trace.content <= log && |trace.content| <= MAX_TRACE_BYTES
       && (if trace.truncated then |trace.content| == MAX_TRACE_BYTES < |log| else fl.logAtBegin <= trace.content)
       && BoundedRead(fl.logAtBegin).content <= trace.content
       && (fl.terminalAtBegin ==> Terminal(s.jobs, fl.req.Ref()) && trace == BoundedRead(log))
  }

  /** The trace is the answer flight f got from the provider, for a request with this key. */
  predicate Sound(s: State, key: string, trace: Trace, f: nat) {
    && f < |s.flights|
    && var fl := s.flights[f];
       && fl.key == key && fl.called && Answered(fl.stage) && fl.outcome == Delivered(trace, f)
       && TrueToLog(s, fl, trace)
  }

  lemma SoundForever(s: State, s': State, key: string, trace: Trace, f: nat)
    requires Sound(s, key, trace, f) && Extends(s, s')
    ensures Sound(s', key, trace, f)
  {
    assert JobExtends(s, s', s.flights[f].req.Ref());
    assert FlightExtends(s.flights[f], s'.flights[f]);
  }

  /** Flight f, for a request with this key, called the provider and got an error. */
  predicate Faulty(s: State, key: string, f: nat) {
    && f < |s.flights|
    && var fl := s.flights[f];
       fl.key == key && fl.called && Settled(fl.stage) && fl.outcome == Failed(f)
  }

  /** What is handed out: a sound trace, or the error of a provider call for the key. */
  predicate SoundOutcome(s: State, key: string, o: Outcome) {
    match o
    case Delivered(trace, f) => Sound(s, key, trace, f)
    case Failed(f) => Faulty(s, key, f)
  }

  lemma SoundOutcomeForever(s: State, s': State, key: string, o: Outcome)
    requires SoundOutcome(s, key, o) && Extends(s, s')
    ensures SoundOutcome(s', key, o)
  {
    match o
    case Delivered(trace, f) => SoundForever(s, s', key, trace, f);
    case Failed(f) => assert FlightExtends(s.flights[f], s'.flights[f]);
  }

  /** A flight holds, or held when it stored, a cacheable trace it fetched itself. */
  predicate HoldsOwn(s: State, f: nat)
    requires f < |s.flights|
  {
    var fl := s.flights[f];
    fl.outcome.Delivered? && fl.outcome.source == f && Cacheable(fl.outcome.trace)
    && Sound(s, fl.key, fl.outcome.trace, f)
  }

  predicate SoundFlight(s: State, f: nat)
    requires f < |s.flights|
  {
    var fl := s.flights[f];
    var ref := fl.req.Ref();
    && (fl.stage == Fetching ==>
          && fl.called
          && fl.logAtBegin <= (if ref in s.jobs then s.jobs[ref].log else [])
          && (fl.terminalAtBegin ==> Terminal(s.jobs, ref) && s.jobs[ref].log == fl.logAtBegin))
    && (fl.stage == ReadingMarker || fl.stage == Storing || fl.kept != Nowhere ==> HoldsOwn(s, f))
    && (Settled(fl.stage) ==> SoundOutcome(s, fl.key, fl.outcome))
    && (Settled(fl.stage) && fl.outcome.Failed? ==> fl.outcome.source == f)
    && (!Settled(fl.stage) ==> fl.kept == Nowhere)
    && ((fl.stage == Storing || fl.kept == KeptDone) && fl.terminal ==> Terminal(s.jobs, ref))
    && (fl.kept == KeptDone ==> fl.terminal)
    && (fl.kept == KeptLive ==> !fl.terminal)
  }

  /** A stored entry is what its flight kept. */
  predicate SoundEntry(s: State, tier: Tier<Stored>, kept: Kept, ttl: nat, key: string) {
    key in tier ==>
      && var v := tier[key].value;
         && v.flight < |s.flights|
         && var fl := s.flights[v.flight];
            && fl.key == key && fl.kept == kept && fl.outcome == Served(v)
            && tier[key].expiresAt == fl.storedAt + ttl
  }

  /** A marker is set only for a finished job. */
  predicate TrueMarker(s: State, ref: JobRef) {
    TerminalJobKey(ref.server, Itoa(ref.id)) in s.markers ==> Terminal(s.jobs, ref)
  }

  predicate SoundCall(s: State, c: nat) {
    c in s.calls && s.calls[c].Returned? ==> SoundOutcome(s, s.calls[c].req.Key(), s.calls[c].outcome)
  }

  ghost predicate Content(s: State) {
    && (forall f :: 0 <= f < |s.flights| ==> SoundFlight(s, f))
    && (forall k: string :: SoundEntry(s, s.done, KeptDone, TRACE_DONE_TTL, k))
    && (forall k: string :: SoundEntry(s, s.live, KeptLive, TRACE_LIVE_TTL, k))
    && (forall ref: JobRef :: TrueMarker(s, ref))
    && (forall c: nat :: SoundCall(s, c))
  }

  // ---------- Every step keeps it ----------

  /** A flight that did not move is as sound as before. */
  lemma SoundFlightStays(s: State, s': State, f: nat)
    requires f < |s.flights| && Extends(s, s') && SoundFlight(s, f)
    requires s'.flights[f] == s.flights[f]
    ensures SoundFlight(s', f)
  {
    var fl := s.flights[f];
    assert JobExtends(s, s', fl.req.Ref());
    if SoundOutcome(s, fl.key, fl.outcome) {
      SoundOutcomeForever(s, s', fl.key, fl.outcome);
    }
  }

  lemma SoundEntryStays(s: State, s': State, tier: Tier<Stored>, kept: Kept, ttl: nat, k: string)
    requires Extends(s, s') && SoundEntry(s, tier, kept, ttl, k) && kept != Nowhere
    requires forall f :: 0 <= f < |s.flights| ==> SoundFlight(s, f)
    ensures SoundEntry(s', tier, kept, ttl, k)
  {
    if k in tier {
      var f := tier[k].value.flight;
      assert SoundFlight(s, f) && FlightExtends(s.flights[f], s'.flights[f]);
    }
  }

  lemma SoundCallStays(s: State, s': State, c: nat)
    requires Extends(s, s') && SoundCall(s, c) && c in s'.calls && c in s.calls && s'.calls[c] == s.calls[c]
    ensures SoundCall(s', c)
  {
    var call := s.calls[c];
    if call.Returned? {
      SoundOutcomeForever(s, s', call.req.Key(), call.outcome);
    }
  }

  /** What a hit serves is sound. */
  lemma ServedIsSound(s: State, tier: Tier<Stored>, kept: Kept, ttl: nat, k: string)
    requires k in tier && SoundEntry(s, tier, kept, ttl, k) && kept != Nowhere
    requires forall f :: 0 <= f < |s.flights| ==> SoundFlight(s, f)
    ensures SoundOutcome(s, k, Served(tier[k].value))
  {
    assert SoundFlight(s, tier[k].value.flight);
  }

  lemma ContentCall(s: State, t: CallStep)
    requires Wired(s) && Content(s) && CallEnabled(s, t)
    ensures Content(Counted(ActCall(s, t)))
  {
    var s' := Counted(ActCall(s, t));
    ExtendsCall(s, t);
    forall f | 0 <= f < |s'.flights|
      ensures SoundFlight(s', f)
    {
      if f < |s.flights| { SoundFlightStays(s, s', f); }
    }
    forall k: string
      ensures SoundEntry(s', s'.done, KeptDone, TRACE_DONE_TTL, k)
      ensures SoundEntry(s', s'.live, KeptLive, TRACE_LIVE_TTL, k)
    {
      SoundEntryStays(s, s', s.done, KeptDone, TRACE_DONE_TTL, k);
      SoundEntryStays(s, s', s.live, KeptLive, TRACE_LIVE_TTL, k);
    }
    forall ref: JobRef
      ensures TrueMarker(s', ref)
    {
      assert TrueMarker(s, ref);
    }
    forall c: nat
      ensures SoundCall(s', c)
    {
      assert SoundCall(s, c);
      if c != t.c && c in s.calls { SoundCallStays(s, s', c); }
      if c == t.c { SoundReturn(s, t); }
    }
  }

  /** A call that returns hands over a sound outcome. */
  lemma SoundReturn(s: State, t: CallStep)
    requires Wired(s) && Content(s) && CallEnabled(s, t)
    ensures SoundCall(Counted(ActCall(s, t)), t.c)
  {
    var s' := Counted(ActCall(s, t));
    if t.HitDone? {
      ServedIsSound(s, s.done, KeptDone, TRACE_DONE_TTL, s.calls[t.c].req.Key());
    } else if t.HitLive? {
      ServedIsSound(s, s.live, KeptLive, TRACE_LIVE_TTL, s.calls[t.c].req.Key());
    } else if t.Return? {
      assert SoundFlight(s, s.calls[t.c].flight);
    }
    assert s'.jobs == s.jobs && s'.flights[..|s.flights|] == s.flights;
  }

  /** A re-check that hits takes over a sound trace. */
  lemma SoundHit(s: State, t: FlightStep)
    requires Wired(s) && Content(s) && FlightEnabled(s, t)
    requires t.RecheckHitDone? || t.RecheckHitLive?
    ensures SoundFlight(Counted(ActFlight(s, t)), t.f)
  {
    var fl := s.flights[t.f];
    var s' := Counted(ActFlight(s, t));
    assert SoundFlight(s, t.f);
    if t.RecheckHitDone? {
      ServedIsSound(s, s.done, KeptDone, TRACE_DONE_TTL, fl.key);
    } else {
      ServedIsSound(s, s.live, KeptLive, TRACE_LIVE_TTL, fl.key);
    }
    ExtendsFlight(s, t);
    SoundForever(s, s', fl.key, s'.flights[t.f].outcome.trace, s'.flights[t.f].outcome.source);
  }

  /** What the provider answered extends what the log held when the call began. */
  lemma TrueBody(s: State, f: nat, body: Log)
    requires f < |s.flights| && s.flights[f].stage == Fetching && SoundFlight(s, f)
    requires Answer(s, s.flights[f], body)
    ensures TrueToLog(s, s.flights[f], BoundedRead(body))
  {
    assert BoundedRead(s.flights[f].logAtBegin).content <= BoundedRead(body).content;
  }

  lemma SoundAnswer(s: State, t: FlightStep)
    requires FlightEnabled(s, t) && SoundFlight(s, t.f)
    requires t.EndFetch? || t.EndFetchLarge?
    ensures SoundFlight(Counted(ActFlight(s, t)), t.f)
  {
    TrueBody(s, t.f, t.body);
    var s' := Counted(ActFlight(s, t));
    assert TrueToLog(s', s'.flights[t.f], BoundedRead(t.body));
  }

  /** A marker that was seen was true; publishing changes nothing about the trace. */
  lemma SoundReadMarker(s: State, t: FlightStep)
    requires Wired(s) && Content(s) && FlightEnabled(s, t)
    requires t.ReadMarker? || t.Publish?
    ensures SoundFlight(Counted(ActFlight(s, t)), t.f)
  {
    var fl := s.flights[t.f];
    var s' := Counted(ActFlight(s, t));
    assert SoundFlight(s, t.f) && TrueMarker(s, fl.req.Ref());
    ExtendsFlight(s, t);
    assert s'.flights[t.f].outcome == fl.outcome;
    SoundOutcomeForever(s, s', fl.key, fl.outcome);
  }

  /** A flight stores the trace it fetched. */
  lemma SoundStore(s: State, t: FlightStep)
    requires FlightEnabled(s, t) && SoundFlight(s, t.f)
    requires t.StoreDone? || t.StoreLive?
    ensures SoundFlight(Counted(ActFlight(s, t)), t.f)
  {
    var fl := s.flights[t.f];
    var s' := Counted(ActFlight(s, t));
    assert HoldsOwn(s, t.f);
    ExtendsFlight(s, t);
    SoundForever(s, s', fl.key, fl.outcome.trace, t.f);
    assert s'.jobs == s.jobs && s'.flights[t.f].outcome == fl.outcome;
    assert HoldsOwn(s', t.f);
  }

  /** A flight that holds no trace yet is sound. */
  lemma SoundBefore(s: State, t: FlightStep)
    requires FlightEnabled(s, t) && SoundFlight(s, t.f)
    requires t.RecheckMissDone? || t.RecheckMissLive? || t.BeginFetch? || t.FetchError?
    ensures SoundFlight(Counted(ActFlight(s, t)), t.f)
  {
  }

  lemma SoundMove(s: State, t: FlightStep)
    requires Wired(s) && Content(s) && FlightEnabled(s, t)
    ensures SoundFlight(Counted(ActFlight(s, t)), t.f)
  {
    assert SoundFlight(s, t.f);
    if t.RecheckHitDone? || t.RecheckHitLive? {
      SoundHit(s, t);
    } else if t.EndFetch? || t.EndFetchLarge? {
      SoundAnswer(s, t);
    } else if t.ReadMarker? || t.Publish? {
      SoundReadMarker(s, t);
    } else if t.StoreDone? || t.StoreLive? {
      SoundStore(s, t);
    } else {
      SoundBefore(s, t);
    }
  }

  lemma SoundEntryStored(s: State, t: FlightStep, k: string)
    requires Content(s) && FlightEnabled(s, t)
    requires t.StoreDone? || t.StoreLive?
    requires k == s.flights[t.f].key
    ensures t.StoreDone? ==> SoundEntry(ActFlight(s, t), ActFlight(s, t).done, KeptDone, TRACE_DONE_TTL, k)
    ensures t.StoreLive? ==> SoundEntry(ActFlight(s, t), ActFlight(s, t).live, KeptLive, TRACE_LIVE_TTL, k)
  {
    assert SoundFlight(s, t.f);
  }

  lemma SoundEntryMove(s: State, t: FlightStep, k: string)
    requires Content(s) && FlightEnabled(s, t)
    ensures SoundEntry(Counted(ActFlight(s, t)), ActFlight(s, t).done, KeptDone, TRACE_DONE_TTL, k)
    ensures SoundEntry(Counted(ActFlight(s, t)), ActFlight(s, t).live, KeptLive, TRACE_LIVE_TTL, k)
  {
    ExtendsFlight(s, t);
    SoundEntryStays(s, Counted(ActFlight(s, t)), s.done, KeptDone, TRACE_DONE_TTL, k);
    SoundEntryStays(s, Counted(ActFlight(s, t)), s.live, KeptLive, TRACE_LIVE_TTL, k);
    if (t.StoreDone? || t.StoreLive?) && k == s.flights[t.f].key {
      SoundEntryStored(s, t, k);
    }
  }

  lemma ContentFlight(s: State, t: FlightStep)
    requires Wired(s) && Content(s) && FlightEnabled(s, t)
    ensures Content(Counted(ActFlight(s, t)))
  {
    var s' := Counted(ActFlight(s, t));
    ExtendsFlight(s, t);
    SoundMove(s, t);
    forall f | 0 <= f < |s'.flights|
      ensures SoundFlight(s', f)
    {
      if f != t.f { SoundFlightStays(s, s', f); }
    }
    forall k: string
      ensures SoundEntry(s', s'.done, KeptDone, TRACE_DONE_TTL, k)
      ensures SoundEntry(s', s'.live, KeptLive, TRACE_LIVE_TTL, k)
    {
      SoundEntryMove(s, t, k);
    }
    forall ref: JobRef
      ensures TrueMarker(s', ref)
    {
      assert TrueMarker(s, ref);
    }
    forall c: nat
      ensures SoundCall(s', c)
    {
      if c in s.calls { SoundCallStays(s, s', c); }
    }
  }

  /** Marking one job marks no other, so every marker stays true. */
  lemma MarkersStayTrue(s: State, t: WorldStep, ref: JobRef)
    requires WorldEnabled(s, t) && TrueMarker(s, ref)
    ensures TrueMarker(ActWorld(s, t), ref)
  {
    if t.Mark? && TerminalJobKey(ref.server, Itoa(ref.id)) == TerminalJobKey(t.ref.server, Itoa(t.ref.id)) {
      TerminalJobKeyInjective(ref.server, ref.id, t.ref.server, t.ref.id);
    }
  }

  /** Steps of the world and of Invalidate add no trace. */
  lemma ContentStays(s: State, s': State)
    requires Content(s) && Extends(s, s')
    requires s'.calls == s.calls && s'.flights == s.flights
    requires forall k :: k in s'.done ==> k in s.done && s'.done[k] == s.done[k]
    requires forall k :: k in s'.live ==> k in s.live && s'.live[k] == s.live[k]
    requires forall ref: JobRef :: TrueMarker(s', ref)
    ensures Content(s')
  {
    forall f | 0 <= f < |s'.flights|
      ensures SoundFlight(s', f)
    {
      SoundFlightStays(s, s', f);
    }
    forall k: string
      ensures SoundEntry(s', s'.done, KeptDone, TRACE_DONE_TTL, k)
      ensures SoundEntry(s', s'.live, KeptLive, TRACE_LIVE_TTL, k)
    {
      assert SoundEntry(s, s.done, KeptDone, TRACE_DONE_TTL, k);
      assert SoundEntry(s, s.live, KeptLive, TRACE_LIVE_TTL, k);
    }
    forall c: nat
      ensures SoundCall(s', c)
    {
      if c in s.calls { SoundCallStays(s, s', c); }
    }
  }

  lemma ContentWorld(s: State, t: WorldStep)
    requires Content(s) && WorldEnabled(s, t)
    ensures Content(Counted(ActWorld(s, t)))
  {
    var s' := Counted(ActWorld(s, t));
    ExtendsWorld(s, t);
    forall ref: JobRef
      ensures TrueMarker(s', ref)
    {
      MarkersStayTrue(s, t, ref);
    }
    ContentStays(s, s');
  }

  lemma ContentInvalidate(s: State, t: InvalidateStep)
    requires Content(s) && InvalidateEnabled(s, t)
    ensures Content(Counted(ActInvalidate(s, t)))
  {
    var s' := Counted(ActInvalidate(s, t));
    ExtendsInvalidate(s, t);
    forall ref: JobRef
      ensures TrueMarker(s', ref)
    {
      assert TrueMarker(s, ref);
    }
    ContentStays(s, s');
  }
}

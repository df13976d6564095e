/** No call is ever stuck. */
module TraceProgress {
  import opened Tiers
  import opened TraceProtocol
  import opened TraceInvariants
  import opened TraceContent
  import opened TraceRuns

  // ---------- No call is ever stuck ----------

  function StageDistance(stage: Stage): (d: nat)
    ensures 1 <= d <= 8
  {
    match stage
    case CheckingDone => 8
    case CheckingLive => 7
    case Calling => 6
    case Fetching => 5
    case ReadingMarker => 4
    case Storing => 3
    case Publishing => 2
    case Closed => 1
  }

  function CallDistance(flights: seq<Flight>, call: Call): nat {
    match call
    case Returned(_, _, _) => 0
    case AtDone(_) => 11
    case AtLive(_) => 10
    case AtDoor(_) => 9
    case InFlight(_, f) => if f < |flights| then StageDistance(flights[f].stage) else 0
  }

  /** How many steps of its own, and of its flight, a call is away from returning. */
  function Distance(s: State, c: nat): nat
    requires c in s.calls
  {
    CallDistance(s.flights, s.calls[c])
  }

  /** Every step of a flight takes it nearer to its end: no flight takes more than seven steps. */
  lemma FlightsAdvance(s: State, t: FlightStep)
    requires FlightEnabled(s, t)
    ensures StageDistance(MovedFlight(s, t).stage) < StageDistance(s.flights[t.f].stage) <= 8
  {
  }

  /** Every step of a call after its first takes it nearer to returning. */
  lemma CallMoves(s: State, t: CallStep)
    requires Wired(s) && CallEnabled(s, t) && !t.Start?
    ensures t.Lead? || CallDistance(s.flights, MovedCall(s, t)) < CallDistance(s.flights, s.calls[t.c])
    ensures t.Lead? ==> s.calls[t.c].AtDoor? && MovedCall(s, t) == InFlight(s.calls[t.c].req, |s.flights|)
  {
  }

  lemma CallsAdvance(s: State, t: CallStep)
    requires Wired(s) && CallEnabled(s, t) && !t.Start?
    ensures Distance(Counted(ActCall(s, t)), t.c) < Distance(s, t.c)
  {
    CallMoves(s, t);
    var s' := Counted(ActCall(s, t));
    assert s'.calls[t.c] == MovedCall(s, t);
    if t.Lead? {
      assert s'.flights[|s.flights|].stage == CheckingDone;
    } else {
      assert s'.flights == s.flights;
    }
  }

  lemma WaitersAdvance(s: State, t: FlightStep, c: nat)
    requires FlightEnabled(s, t) && c in s.calls && s.calls[c].InFlight? && s.calls[c].flight == t.f
    ensures c in Counted(ActFlight(s, t)).calls
    ensures Distance(Counted(ActFlight(s, t)), c) < Distance(s, c)
  {
    FlightsAdvance(s, t);
    assert Counted(ActFlight(s, t)).flights[t.f] == MovedFlight(s, t);
  }

  /** What the leader of an unfinished flight can do next; a fetch can at least fail. */
  lemma NextFlightStep(s: State, f: nat) returns (t: FlightStep)
    requires Content(s) && f < |s.flights| && s.flights[f].stage != Closed
    ensures FlightEnabled(s, t) && t.f == f
  {
    var fl := s.flights[f];
    assert SoundFlight(s, f);
    match fl.stage {
      case CheckingDone =>
        t := if Visible(s.done, fl.key, s.clock) then RecheckHitDone(f) else RecheckMissDone(f);
      case CheckingLive =>
        t := if Visible(s.live, fl.key, s.clock) then RecheckHitLive(f) else RecheckMissLive(f);
      case Calling => t := BeginFetch(f);
      case Fetching => t := FetchError(f);
      case ReadingMarker => t := ReadMarker(f);
      case Storing => t := if fl.terminal then StoreDone(f) else StoreLive(f);
      case Publishing => t := Publish(f);
    }
  }

  /** What a call that has not returned, and is not waiting for a flight to close, can do next. */
  lemma NextCallStep(s: State, c: nat) returns (t: CallStep)
    requires Wired(s) && c in s.calls && !s.calls[c].Returned?
    requires s.calls[c].InFlight? ==> s.flights[s.calls[c].flight].stage == Closed
    ensures CallEnabled(s, t) && !t.Start? && t.c == c
  {
    var req := s.calls[c].req;
    match s.calls[c] {
      case AtDone(_) => t := if Visible(s.done, req.Key(), s.clock) then HitDone(c) else MissDone(c);
      case AtLive(_) => t := if Visible(s.live, req.Key(), s.clock) then HitLive(c) else MissLive(c);
      case AtDoor(_) => t := if req.Key() in s.open then Join(c) else Lead(c);
      case InFlight(_, _) => t := Return(c);
    }
  }

  /** Some step of the call or of its flight's leader is enabled and brings the call nearer. */
  lemma NextStep(s: State, c: nat) returns (t: Step, s': State)
    requires Wired(s) && Content(s) && c in s.calls && !s.calls[c].Returned?
    ensures Enabled(s, t) && (t.OfCall? || t.OfFlight?) && s' == Apply(s, t)
    ensures c in s'.calls && Distance(s', c) < Distance(s, c)
  {
    if s.calls[c].InFlight? && s.flights[s.calls[c].flight].stage != Closed {
      var u := NextFlightStep(s, s.calls[c].flight);
      WaitersAdvance(s, u, c);
      t, s' := OfFlight(u), Counted(ActFlight(s, u));
    } else {
      var u := NextCallStep(s, c);
      CallsAdvance(s, u);
      t, s' := OfCall(u), Counted(ActCall(s, u));
    }
  }

  lemma NextReachable(s: State, c: nat) returns (t: Step, s': State)
    requires Reachable(s) && c in s.calls && !s.calls[c].Returned?
    ensures Enabled(s, t) && (t.OfCall? || t.OfFlight?) && s' == Apply(s, t) && Reachable(s')
    ensures c in s'.calls && Distance(s', c) < Distance(s, c)
  {
    InvReachable(s);
    t, s' := NextStep(s, c);
    ReachableStep(s, t);
  }

  lemma {:induction false} CallReturnsWithin(s: State, c: nat, d: nat) returns (steps: seq<Step>, s': State)
    requires Reachable(s) && c in s.calls && Distance(s, c) <= d
    ensures Run(s, steps, s') && |steps| <= d
    ensures c in s'.calls && s'.calls[c].Returned?
    ensures forall t :: t in steps ==> t.OfCall? || t.OfFlight?
    decreases d
  {
    if s.calls[c].Returned? {
      steps, s' := [], s;
    } else {
      var t, s1 := NextReachable(s, c);
      var rest;
      rest, s' := CallReturnsWithin(s1, c, d - 1);
      steps := [t] + rest;
      RunCons(s, t, rest, s');
    }
  }

  /** From every reachable state every call can be brought to return, by at most eleven steps of itself
      and of the leader it waits for. */
  lemma CallCanReturn(s: State, c: nat) returns (steps: seq<Step>, s': State)
    requires Reachable(s) && c in s.calls
    ensures Run(s, steps, s') && |steps| <= 11
    ensures c in s'.calls && s'.calls[c].Returned?
    ensures forall t :: t in steps ==> t.OfCall? || t.OfFlight?
  {
    steps, s' := CallReturnsWithin(s, c, 11);
  }
}

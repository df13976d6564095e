/** Who is told of an error, and what a flight hands on that did not call the provider. */
module TraceOutcomes {
  import opened Tiers
  import opened TraceProtocol
  import opened TraceInvariants
  import opened TraceContent
  import opened TraceRuns
  import opened TraceAge

  // ---------- Every error is the provider's ----------

  /** The settled flights of a key that hand out an error. */
  ghost function Faults(s: State, k: string): set<nat> {
    set f: nat | f < |s.flights| && s.flights[f].key == k && Settled(s.flights[f].stage) && s.flights[f].outcome.Failed?
  }

  /** There are as many as the provider calls for the key that failed. */
  ghost predicate ErrorsTallied(s: State) {
    forall k: string :: s.history.errors[k] == |Faults(s, k)|
  }

  /** Steps after which the same flights hand out an error. */
  lemma FaultsStay(s: State, s': State)
    requires ErrorsTallied(s) && s'.history.errors == s.history.errors
    requires forall k: string :: Faults(s', k) == Faults(s, k)
    ensures ErrorsTallied(s')
  {
    forall k: string
      ensures s'.history.errors[k] == |Faults(s', k)|
    {
      assert Faults(s', k) == Faults(s, k);
    }
  }

  /** A flight whose provider call fails hands out an error, and no other flight changes. */
  lemma FaultsAfterError(s: State, f: nat, k: string)
    requires FlightEnabled(s, FetchError(f))
    ensures var s', key := ActFlight(s, FetchError(f)), s.flights[f].key;
            && Faults(s', k) == (if k == key then Faults(s, k) + {f} else Faults(s, k))
            && |Faults(s', k)| == |Faults(s, k)| + if k == key then 1 else 0
  {
    var s' := ActFlight(s, FetchError(f));
    assert f !in Faults(s, k);
    forall g: nat | g < |s.flights|
      ensures g in Faults(s', k) <==> g in Faults(s, k) || (g == f && k == s.flights[f].key)
    {
      assert g != f ==> s'.flights[g] == s.flights[g];
    }
  }

  lemma ErrorsTalliedError(s: State, f: nat)
    requires ErrorsTallied(s) && FlightEnabled(s, FetchError(f))
    ensures ErrorsTallied(ActFlight(s, FetchError(f)))
  {
    var s' := ActFlight(s, FetchError(f));
    forall k: string
      ensures s'.history.errors[k] == |Faults(s', k)|
    {
      FaultsAfterError(s, f, k);
    }
  }

  /** Every other step of a flight leaves it unsettled, settles it with a trace, or settled it before. */
  lemma FaultsOtherwise(s: State, t: FlightStep, k: string)
    requires FlightEnabled(s, t) && SoundFlight(s, t.f) && !t.FetchError?
    ensures Faults(ActFlight(s, t), k) == Faults(s, k)
  {
    var s' := ActFlight(s, t);
    forall g: nat | g < |s.flights|
      ensures g in Faults(s', k) <==> g in Faults(s, k)
    {
      assert g != t.f ==> s'.flights[g] == s.flights[g];
    }
  }

  lemma ErrorsTalliedFlight(s: State, t: FlightStep)
    requires ErrorsTallied(s) && Content(s) && FlightEnabled(s, t)
    ensures ErrorsTallied(Counted(ActFlight(s, t)))
  {
    if t.FetchError? {
      ErrorsTalliedError(s, t.f);
    } else {
      assert SoundFlight(s, t.f);
      forall k: string
        ensures Faults(ActFlight(s, t), k) == Faults(s, k)
      {
        FaultsOtherwise(s, t, k);
      }
      FaultsStay(s, ActFlight(s, t));
    }
    FaultsCounted(ActFlight(s, t));
  }

  lemma FaultsCounted(s: State)
    requires ErrorsTallied(s)
    ensures ErrorsTallied(Counted(s))
  {
    assert forall k: string :: Faults(Counted(s), k) == Faults(s, k);
  }

  lemma ErrorsTalliedCall(s: State, t: CallStep)
    requires ErrorsTallied(s) && CallEnabled(s, t)
    ensures ErrorsTallied(Counted(ActCall(s, t)))
  {
    assert forall k: string :: Faults(ActCall(s, t), k) == Faults(s, k);
    FaultsStay(s, ActCall(s, t));
    FaultsCounted(ActCall(s, t));
  }

  lemma ErrorsTalliedOtherwise(s: State, s': State)
    requires ErrorsTallied(s) && s'.flights == s.flights && s'.history.errors == s.history.errors
    ensures ErrorsTallied(s')
  {
    assert forall k: string :: Faults(s', k) == Faults(s, k);
  }

  lemma ErrorsTalliedWorld(s: State, t: WorldStep)
    requires ErrorsTallied(s) && WorldEnabled(s, t)
    ensures ErrorsTallied(Counted(ActWorld(s, t)))
  {
    ErrorsTalliedOtherwise(s, Counted(ActWorld(s, t)));
  }

  lemma ErrorsTalliedInvalidate(s: State, t: InvalidateStep)
    requires ErrorsTallied(s) && InvalidateEnabled(s, t)
    ensures ErrorsTallied(Counted(ActInvalidate(s, t)))
  {
    ErrorsTalliedOtherwise(s, Counted(ActInvalidate(s, t)));
  }

  lemma ErrorsTalliedStep(s: State, t: Step)
    requires Inv(s) && ErrorsTallied(s) && Enabled(s, t)
    ensures ErrorsTallied(Apply(s, t))
  {
    match t
    case OfCall(u) => ErrorsTalliedCall(s, u);
    case OfFlight(u) => ErrorsTalliedFlight(s, u);
    case OfWorld(u) => ErrorsTalliedWorld(s, u);
    case OfInvalidate(u) => ErrorsTalliedInvalidate(s, u);
  }

  lemma {:induction false} ErrorsTalliedRun(s: State, steps: seq<Step>, s': State)
    requires Inv(s) && ErrorsTallied(s) && Run(s, steps, s')
    ensures ErrorsTallied(s')
    decreases |steps|
  {
    if steps != [] {
      ErrorsTalliedStep(s, steps[0]);
      InvStep(s, steps[0]);
      ErrorsTalliedRun(Apply(s, steps[0]), steps[1..], s');
    }
  }

  lemma ErrorsTalliedReachable(s: State)
    requires Reachable(s)
    ensures ErrorsTallied(s)
  {
    var s0: State, steps: seq<Step> :| Initial(s0) && Run(s0, steps, s);
    InvInitial(s0);
    assert forall k: string :: Faults(s0, k) == {};
    ErrorsTalliedRun(s0, steps, s);
  }

  /** Call c asked for key k and was told of an error. */
  predicate FailedFor(s: State, c: nat, k: string) {
    c in s.calls && s.calls[c].Returned? && s.calls[c].req.Key() == k && s.calls[c].outcome.Failed?
  }

  /** In every reachable state the flights of a key that hand out an error are exactly as many as its failed
      provider calls, each of them called the provider itself, and every call that was told of an error
      was told of the error of one of them. */
  lemma FailuresAreTheProviders(s: State, k: string)
    requires Reachable(s)
    ensures |Faults(s, k)| == s.history.errors[k]
    ensures forall f :: f in Faults(s, k) ==> s.flights[f].called && s.flights[f].outcome.source == f
    ensures forall c: nat :: FailedFor(s, c, k) ==> s.calls[c].outcome.source in Faults(s, k)
  {
    InvReachable(s);
    ErrorsTalliedReachable(s);
    forall f | f in Faults(s, k)
      ensures s.flights[f].called && s.flights[f].outcome.source == f
    {
      assert SoundFlight(s, f);
    }
    forall c: nat | FailedFor(s, c, k)
      ensures s.calls[c].outcome.source in Faults(s, k)
    {
      assert SoundCall(s, c);
    }
  }

  /** As long as no provider call for a key has failed, no call for it is told of an error. */
  lemma NoErrorNoFailure(s: State, k: string, c: nat)
    requires Reachable(s) && s.history.errors[k] == 0
    ensures !FailedFor(s, c, k)
  {
    FailuresAreTheProviders(s, k);
    assert Faults(s, k) == {};
  }

  // ---------- What a flight hands on without calling the provider ----------

  /** Flight f is settled and has not called the provider. */
  predicate HandsOn(s: State, f: nat) {
    f < |s.flights| && Settled(s.flights[f].stage) && !s.flights[f].called
  }

  /** The outcome is the trace one of the tiers shows for the key: the done tier's, if it shows any. */
  predicate IsShown(s: State, key: string, o: Outcome) {
    if Visible(s.done, key, s.clock) then o == Served(s.done[key].value)
    else Visible(s.live, key, s.clock) && o == Served(s.live[key].value)
  }

  /** Flight f has just come by what the tiers show. */
  predicate Looked(s: State, s': State, f: nat) {
    f < |s'.flights| && Settled(s'.flights[f].stage) && s'.flights[f].gotAt == s.clock
    && IsShown(s, s'.flights[f].key, s'.flights[f].outcome)
  }

  lemma LookedByFlight(s: State, t: FlightStep, f: nat)
    requires Inv(s) && FlightEnabled(s, t) && !HandsOn(s, f) && HandsOn(ActFlight(s, t), f)
    ensures Looked(s, ActFlight(s, t), f)
  {
    assert t.f == f && SoundFlight(s, f) && !Shadowed(s, s.flights[f].key);
  }

  lemma HandsOnByCall(s: State, t: CallStep, f: nat)
    requires CallEnabled(s, t) && !HandsOn(s, f)
    ensures !HandsOn(ActCall(s, t), f)
  {
  }

  lemma HandsOnByWorld(s: State, t: WorldStep, f: nat)
    requires WorldEnabled(s, t) && !HandsOn(s, f)
    ensures !HandsOn(ActWorld(s, t), f)
  {
  }

  lemma HandsOnByInvalidate(s: State, t: InvalidateStep, f: nat)
    requires InvalidateEnabled(s, t) && !HandsOn(s, f)
    ensures !HandsOn(ActInvalidate(s, t), f)
  {
  }

  lemma LookedByStep(s: State, t: Step, f: nat)
    requires Inv(s) && Enabled(s, t) && !HandsOn(s, f) && HandsOn(Apply(s, t), f)
    ensures t.OfFlight? && Looked(s, Apply(s, t), f)
  {
    match t
    case OfCall(u) => HandsOnByCall(s, u, f);
    case OfFlight(u) => LookedByFlight(s, u, f);
    case OfWorld(u) => HandsOnByWorld(s, u, f);
    case OfInvalidate(u) => HandsOnByInvalidate(s, u, f);
  }

  /** The run passes through the state in which the flight looked. */
  lemma {:induction false} UncalledHandsOn(s: State, steps: seq<Step>, s': State, f: nat) returns (past: State)
    requires Inv(s) && Run(s, steps, s') && !HandsOn(s, f) && HandsOn(s', f)
    ensures Passes(s, steps, past) && s'.flights[f].gotAt == past.clock
    ensures s'.flights[f].outcome.Delivered? && IsShown(past, s'.flights[f].key, s'.flights[f].outcome)
    decreases |steps|
  {
    var s1 := Apply(s, steps[0]);
    if HandsOn(s1, f) {
      past := s;
      LookedByStep(s, steps[0], f);
      ExtendsRun(s1, steps[1..], s');
      assert FlightExtends(s1.flights[f], s'.flights[f]);
    } else {
      InvStep(s, steps[0]);
      past := UncalledHandsOn(s1, steps[1..], s', f);
    }
  }

  /** On every run, a flight that settles without calling the provider delivers the trace that the tiers
      showed for its key in a state the run passed through, when it looked. */
  lemma RecheckHandsOn(s0: State, steps: seq<Step>, s: State, f: nat) returns (past: State)
    requires Initial(s0) && Run(s0, steps, s) && HandsOn(s, f)
    ensures Passes(s0, steps, past) && s.flights[f].gotAt == past.clock
    ensures s.flights[f].outcome.Delivered? && IsShown(past, s.flights[f].key, s.flights[f].outcome)
  {
    InvInitial(s0);
    past := UncalledHandsOn(s0, steps, s, f);
  }
}

/** What every step of the trace protocol keeps. */
module TraceInvariants {
  import opened Tiers
  import opened TraceProtocol

  // ---------- One open flight per key ----------

  ghost predicate Wired(s: State) {
    && (forall k :: k in s.open ==>
          s.open[k] < |s.flights| && s.flights[s.open[k]].key == k && s.flights[s.open[k]].stage != Closed)
    && (forall f :: 0 <= f < |s.flights| ==>
          && s.flights[f].key == s.flights[f].req.Key()
          && (s.flights[f].stage != Closed ==> s.flights[f].key in s.open && s.open[s.flights[f].key] == f))
    && (forall c :: c in s.calls && s.calls[c].InFlight? ==>
          s.calls[c].flight < |s.flights| && s.flights[s.calls[c].flight].key == s.calls[c].req.Key())
  }

  /** Flight f moved on inside its function and nothing else changed about the flights. */
  ghost predicate Advanced(s: State, s': State, f: nat) {
    && f < |s.flights| && |s'.flights| == |s.flights|
    && s'.flights == s.flights[f := s'.flights[f]]
    && s'.flights[f].key == s.flights[f].key && s'.flights[f].req == s.flights[f].req
    && s'.calls == s.calls
  }

  lemma WiredAdvance(s: State, s': State, f: nat)
    requires Wired(s) && Advanced(s, s', f)
    requires s.flights[f].stage != Closed && s'.flights[f].stage != Closed && s'.open == s.open
    ensures Wired(s')
  {
  }

  lemma WiredCall(s: State, t: CallStep)
    requires Wired(s) && CallEnabled(s, t)
    ensures Wired(ActCall(s, t))
  {
  }

  lemma WiredFlight(s: State, t: FlightStep)
    requires Wired(s) && FlightEnabled(s, t)
    ensures Wired(ActFlight(s, t))
  {
    if !t.Publish? {
      WiredAdvance(s, ActFlight(s, t), t.f);
    }
  }

  // ---------- A flight that has missed a tier stays the only writer of it ----------

  predicate MissedDone(stage: Stage) {
    stage == CheckingLive || MissedLive(stage)
  }

  predicate MissedLive(stage: Stage) {
    stage == Calling || Busy(stage)
  }

  predicate MissedAt(s: State, f: nat)
    requires f < |s.flights|
  {
    var fl := s.flights[f];
    && (MissedDone(fl.stage) ==> !Visible(s.done, fl.key, s.clock))
    && (MissedLive(fl.stage) ==> !Visible(s.live, fl.key, s.clock))
  }

  ghost predicate Missed(s: State) {
    forall f :: 0 <= f < |s.flights| ==> MissedAt(s, f)
  }

  lemma MissedCall(s: State, t: CallStep)
    requires Missed(s) && CallEnabled(s, t)
    ensures Missed(ActCall(s, t))
  {
    var s' := ActCall(s, t);
    forall f | 0 <= f < |s'.flights|
      ensures MissedAt(s', f)
    {
      assert f < |s.flights| ==> MissedAt(s, f);
    }
  }

  /** What a flight does to its own key does not concern the flights of other keys. */
  lemma MissedElsewhere(s: State, s': State, f: nat, g: nat)
    requires Wired(s) && Advanced(s, s', f) && s.flights[f].stage != Closed
    requires g < |s.flights| && g != f && MissedAt(s, g) && s'.clock == s.clock
    requires forall k: string :: k != s.flights[f].key ==>
               Visible(s'.done, k, s.clock) == Visible(s.done, k, s.clock)
               && Visible(s'.live, k, s.clock) == Visible(s.live, k, s.clock)
    ensures MissedAt(s', g)
  {
    if MissedDone(s.flights[g].stage) {
      assert s.flights[g].key != s.flights[f].key;
    }
  }

  lemma MissedOwn(s: State, t: FlightStep)
    requires FlightEnabled(s, t) && MissedAt(s, t.f)
    ensures MissedAt(ActFlight(s, t), t.f)
  {
  }

  lemma MissedOther(s: State, t: FlightStep, g: nat)
    requires Wired(s) && FlightEnabled(s, t) && g < |s.flights| && g != t.f && MissedAt(s, g)
    ensures MissedAt(ActFlight(s, t), g)
  {
    MissedElsewhere(s, ActFlight(s, t), t.f, g);
  }

  lemma MissedFlight(s: State, t: FlightStep)
    requires Wired(s) && Missed(s) && FlightEnabled(s, t)
    ensures Missed(ActFlight(s, t))
  {
    var s' := ActFlight(s, t);
    forall g | 0 <= g < |s'.flights|
      ensures MissedAt(s', g)
    {
      assert g < |s.flights| && MissedAt(s, g);
      if g == t.f {
        MissedOwn(s, t);
      } else {
        MissedOther(s, t, g);
      }
    }
  }

  lemma MissedWorld(s: State, t: WorldStep)
    requires Missed(s) && WorldEnabled(s, t)
    ensures Missed(ActWorld(s, t))
  {
    var s' := ActWorld(s, t);
    forall f | 0 <= f < |s'.flights|
      ensures MissedAt(s', f)
    {
      assert MissedAt(s, f);
    }
  }

  lemma MissedInvalidate(s: State, t: InvalidateStep)
    requires Missed(s) && InvalidateEnabled(s, t)
    ensures Missed(ActInvalidate(s, t))
  {
    var s' := ActInvalidate(s, t);
    forall f | 0 <= f < |s'.flights|
      ensures MissedAt(s', f)
    {
      assert MissedAt(s, f);
    }
  }

  // ---------- No key is served by both tiers ----------

  predicate Shadowed(s: State, key: string) {
    Visible(s.done, key, s.clock) && Visible(s.live, key, s.clock)
  }

  ghost predicate Exclusive(s: State) {
    forall k: string :: !Shadowed(s, k)
  }

  lemma ExclusiveCall(s: State, t: CallStep)
    requires Exclusive(s) && CallEnabled(s, t)
    ensures Exclusive(ActCall(s, t))
  {
    forall k: string
      ensures !Shadowed(ActCall(s, t), k)
    {
      assert !Shadowed(s, k);
    }
  }

  lemma ExclusiveFlight(s: State, t: FlightStep)
    requires Missed(s) && Exclusive(s) && FlightEnabled(s, t)
    ensures Exclusive(ActFlight(s, t))
  {
    assert MissedAt(s, t.f);
    forall k: string
      ensures !Shadowed(ActFlight(s, t), k)
    {
      assert !Shadowed(s, k);
    }
  }

  lemma ExclusiveWorld(s: State, t: WorldStep)
    requires Exclusive(s) && WorldEnabled(s, t)
    ensures Exclusive(ActWorld(s, t))
  {
    forall k: string
      ensures !Shadowed(ActWorld(s, t), k)
    {
      assert !Shadowed(s, k);
    }
  }

  lemma ExclusiveInvalidate(s: State, t: InvalidateStep)
    requires Exclusive(s) && InvalidateEnabled(s, t)
    ensures Exclusive(ActInvalidate(s, t))
  {
    forall k: string
      ensures !Shadowed(ActInvalidate(s, t), k)
    {
      assert !Shadowed(s, k);
    }
  }

  // ---------- Where every fetch went ----------

  function Shown(tier: Tier<Stored>, key: string, clock: nat): nat {
    if Visible(tier, key, clock) then 1 else 0
  }

  function Waiting(s: State, key: string): nat {
    if key in s.open && s.open[key] < |s.flights| && Busy(s.flights[s.open[key]].stage) then 1 else 0
  }

  /** Every provider call failed, was too large, was stored or is still being dealt with. */
  predicate CallsBalanced(s: State, k: string) {
    s.history.calls[k] == s.history.errors[k] + s.history.uncached[k] + s.history.stores[k] + Waiting(s, k)
  }

  /** Every stored entry was removed, ran out or is still shown. */
  predicate StoresBalanced(s: State, k: string) {
    s.history.stores[k] ==
    s.history.removed[k] + s.history.expired[k] + Shown(s.done, k, s.clock) + Shown(s.live, k, s.clock)
  }

  predicate Balanced(s: State, k: string) {
    CallsBalanced(s, k) && StoresBalanced(s, k)
  }

  ghost predicate Accounted(s: State) {
    forall k: string :: Balanced(s, k)
  }

  lemma BalancedCall(s: State, t: CallStep, k: string)
    requires Wired(s) && Balanced(s, k) && CallEnabled(s, t)
    ensures Balanced(ActCall(s, t), k)
  {
  }

  /** A step that does not touch the key keeps its balance. */
  lemma CallsBalancedElsewhere(s: State, t: FlightStep, k: string)
    requires Wired(s) && FlightEnabled(s, t) && CallsBalanced(s, k) && k != s.flights[t.f].key
    ensures CallsBalanced(ActFlight(s, t), k)
  {
    assert k in s.open ==> s.open[k] != t.f;
    assert Waiting(ActFlight(s, t), k) == Waiting(s, k);
  }

  lemma StoresBalancedElsewhere(s: State, t: FlightStep, k: string)
    requires FlightEnabled(s, t) && StoresBalanced(s, k) && k != s.flights[t.f].key
    ensures StoresBalanced(ActFlight(s, t), k)
  {
  }

  /** Calls, errors and oversized answers move a fetch between the columns of its own key. */
  lemma CallsBalancedFetch(s: State, t: FlightStep)
    requires Wired(s) && FlightEnabled(s, t) && CallsBalanced(s, s.flights[t.f].key)
    requires !t.StoreDone? && !t.StoreLive? && !t.Publish?
    ensures CallsBalanced(ActFlight(s, t), s.flights[t.f].key)
  {
    var key := s.flights[t.f].key;
    assert s.open[key] == t.f;
    assert Waiting(s, key) == if Busy(s.flights[t.f].stage) then 1 else 0;
    assert Waiting(ActFlight(s, t), key) == if Busy(MovedFlight(s, t).stage) then 1 else 0;
  }

  lemma StoresBalancedFetch(s: State, t: FlightStep, k: string)
    requires FlightEnabled(s, t) && StoresBalanced(s, k) && !t.StoreDone? && !t.StoreLive?
    ensures StoresBalanced(ActFlight(s, t), k)
  {
  }

  /** A store makes its entry visible, and nothing was visible before. */
  lemma BalancedStore(s: State, t: FlightStep)
    requires Wired(s) && FlightEnabled(s, t) && MissedAt(s, t.f) && Balanced(s, s.flights[t.f].key)
    requires t.StoreDone? || t.StoreLive?
    ensures Balanced(ActFlight(s, t), s.flights[t.f].key)
  {
    assert s.open[s.flights[t.f].key] == t.f;
  }

  lemma BalancedFlight(s: State, t: FlightStep, k: string)
    requires Wired(s) && Missed(s) && Balanced(s, k) && FlightEnabled(s, t)
    ensures Balanced(ActFlight(s, t), k)
  {
    if k != s.flights[t.f].key {
      CallsBalancedElsewhere(s, t, k);
      StoresBalancedElsewhere(s, t, k);
    } else if t.StoreDone? || t.StoreLive? {
      assert MissedAt(s, t.f);
      BalancedStore(s, t);
    } else if !t.Publish? {
      CallsBalancedFetch(s, t);
      StoresBalancedFetch(s, t, k);
    }
  }

  lemma BalancedWorld(s: State, t: WorldStep, k: string)
    requires Balanced(s, k) && WorldEnabled(s, t)
    ensures Balanced(ActWorld(s, t), k)
  {
  }

  lemma BalancedInvalidate(s: State, t: InvalidateStep, k: string)
    requires Balanced(s, k) && InvalidateEnabled(s, t)
    ensures Balanced(ActInvalidate(s, t), k)
  {
  }
}

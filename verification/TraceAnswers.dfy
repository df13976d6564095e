/** How many different answers the calls for one key can have been given. */
module TraceAnswers {
  import opened TraceProtocol
  import opened TraceInvariants
  import opened TraceContent

  /** The flights for a key that have called the provider. */
  ghost function Callers(s: State, k: string): set<nat> {
    set f: nat | f < |s.flights| && s.flights[f].key == k && s.flights[f].called
  }

  /** The history counts one provider call for each of them, and a flight calls at most once. */
  ghost predicate Tallied(s: State) {
    && (forall k: string :: s.history.calls[k] == |Callers(s, k)|)
    && (forall f :: 0 <= f < |s.flights| && !Begun(s.flights[f].stage) ==> !s.flights[f].called)
  }

  /** Steps that leave the flights that have called, and the count, as they are. */
  lemma TalliedStays(s: State, s': State)
    requires Tallied(s) && s'.history.calls == s.history.calls && |s.flights| <= |s'.flights|
    requires forall f :: 0 <= f < |s.flights| ==>
               s'.flights[f].called == s.flights[f].called && s'.flights[f].key == s.flights[f].key
               && (Begun(s.flights[f].stage) ==> Begun(s'.flights[f].stage))
    requires forall f :: |s.flights| <= f < |s'.flights| ==> !s'.flights[f].called
    ensures Tallied(s')
  {
    forall k: string
      ensures s'.history.calls[k] == |Callers(s', k)|
    {
      assert Callers(s', k) == Callers(s, k);
    }
  }

  /** Calling the provider adds the flight to its key's callers, and to no other's. */
  lemma CallersAfterCall(s: State, s': State, f: nat, k: string)
    requires Advanced(s, s', f) && !s.flights[f].called && s'.flights[f].called
    ensures Callers(s', k) == if k == s.flights[f].key then Callers(s, k) + {f} else Callers(s, k)
    ensures |Callers(s', k)| == |Callers(s, k)| + if k == s.flights[f].key then 1 else 0
  {
    assert f !in Callers(s, k);
    forall g: nat | g < |s.flights|
      ensures g in Callers(s', k) <==> g in Callers(s, k) || (g == f && k == s.flights[f].key)
    {
      assert g != f ==> s'.flights[g] == s.flights[g];
    }
  }

  lemma TalliedBegin(s: State, f: nat)
    requires Tallied(s) && FlightEnabled(s, BeginFetch(f))
    ensures Tallied(Counted(ActFlight(s, BeginFetch(f))))
  {
    var s' := Counted(ActFlight(s, BeginFetch(f)));
    assert Advanced(s, s', f);
    forall k: string
      ensures s'.history.calls[k] == |Callers(s', k)|
    {
      CallersAfterCall(s, s', f, k);
    }
  }

  lemma TalliedFlight(s: State, t: FlightStep)
    requires Tallied(s) && FlightEnabled(s, t)
    ensures Tallied(Counted(ActFlight(s, t)))
  {
    if t.BeginFetch? {
      TalliedBegin(s, t.f);
    } else {
      FlightMoves(s, t);
      assert MovedFlight(s, t).called == s.flights[t.f].called;
      TalliedStays(s, Counted(ActFlight(s, t)));
    }
  }

  lemma TalliedCall(s: State, t: CallStep)
    requires Tallied(s) && CallEnabled(s, t)
    ensures Tallied(Counted(ActCall(s, t)))
  {
    TalliedStays(s, Counted(ActCall(s, t)));
  }

  lemma TalliedWorld(s: State, t: WorldStep)
    requires Tallied(s) && WorldEnabled(s, t)
    ensures Tallied(Counted(ActWorld(s, t)))
  {
    TalliedStays(s, Counted(ActWorld(s, t)));
  }

  lemma TalliedInvalidate(s: State, t: InvalidateStep)
    requires Tallied(s) && InvalidateEnabled(s, t)
    ensures Tallied(Counted(ActInvalidate(s, t)))
  {
    TalliedStays(s, Counted(ActInvalidate(s, t)));
  }

  // ---------- Answers ----------

  /** The flights whose answers the calls for key k have been given, directly or through the cache. */
  ghost function Sources(s: State, k: string): set<nat> {
    set c: nat | c in s.calls && s.calls[c].Returned? && s.calls[c].req.Key() == k && s.calls[c].outcome.Delivered?
      :: s.calls[c].outcome.source
  }

  /** There are no more of them than provider calls for the key. */
  lemma SourcesAreCallers(s: State, k: string)
    requires Content(s) && Tallied(s)
    ensures Sources(s, k) <= Callers(s, k) && |Sources(s, k)| <= s.history.calls[k]
  {
    forall f | f in Sources(s, k)
      ensures f in Callers(s, k)
    {
      var c :| c in s.calls && s.calls[c].Returned? && s.calls[c].req.Key() == k && s.calls[c].outcome.Delivered?
               && s.calls[c].outcome.source == f;
      assert SoundCall(s, c);
    }
    SubsetSize(Sources(s, k), Callers(s, k));
  }

  lemma SubsetSize(a: set<nat>, b: set<nat>)
    requires a <= b
    ensures |a| <= |b|
  {
    assert b == a + (b - a);
  }

  /** Two calls with the same key and the same source were given the same trace. */
  lemma SameSourceSameTrace(s: State, c: nat, d: nat)
    requires Content(s) && c in s.calls && d in s.calls
    requires s.calls[c].Returned? && s.calls[d].Returned?
    requires s.calls[c].outcome.Delivered? && s.calls[d].outcome.Delivered?
    requires s.calls[c].outcome.source == s.calls[d].outcome.source
    ensures s.calls[c].outcome.trace == s.calls[d].outcome.trace
  {
    assert SoundCall(s, c) && SoundCall(s, d);
  }
}

/** The invariants together, over all runs from a fresh service. */
module TraceRuns {
  import opened TraceProtocol
  import opened TraceInvariants
  import opened TraceContent
  import opened TraceTiming
  import opened TraceInvalidation
  import opened TraceAnswers

  // ---------- All invariants, over all runs ----------

  /** The invariants that do not look at step numbers. */
  ghost predicate Timeless(s: State) {
    && Wired(s) && Missed(s) && Exclusive(s) && Accounted(s)
    && Sequential(s) && Spaced(s) && Marked(s)
  }

  ghost predicate Inv(s: State) {
    Timeless(s) && Content(s) && Handled(s) && Tallied(s)
  }

  lemma TimelessCounted(s: State)
    requires Timeless(s)
    ensures Timeless(Counted(s))
  {
    var s' := Counted(s);
    assert Wired(s');
    assert Missed(s') by {
      forall f | 0 <= f < |s'.flights| ensures MissedAt(s', f) { assert MissedAt(s, f); }
    }
    assert Exclusive(s') by {
      forall k: string ensures !Shadowed(s', k) { assert !Shadowed(s, k); }
    }
    assert Accounted(s') by {
      forall k: string ensures Balanced(s', k) { assert Balanced(s, k); }
    }
    assert Sequential(s') by {
      forall i, j | 0 <= i < |s'.flights| && 0 <= j < |s'.flights| ensures InOrder(s', i, j) {
        assert InOrder(s, i, j);
      }
    }
    SpacedOtherwise(s, s');
    assert Marked(s') by {
      forall m | 0 <= m < |s'.marks| ensures MarkStands(s', m) { assert MarkStands(s, m); }
      forall f, m | 0 <= f < |s'.flights| && 0 <= m < |s'.marks| ensures MarkSeen(s', f, m) {
        assert MarkSeen(s, f, m);
      }
    }
  }

  lemma InvCall(s: State, t: CallStep)
    requires Inv(s) && CallEnabled(s, t)
    ensures Inv(Counted(ActCall(s, t)))
  {
    WiredCall(s, t);
    MissedCall(s, t);
    ExclusiveCall(s, t);
    forall k: string ensures Balanced(ActCall(s, t), k) { BalancedCall(s, t, k); }
    SequentialCall(s, t);
    SpacedCall(s, t);
    MarkedCall(s, t);
    TimelessCounted(ActCall(s, t));
    ContentCall(s, t);
    HandledCall(s, t);
    TalliedCall(s, t);
  }

  lemma InvFlight(s: State, t: FlightStep)
    requires Inv(s) && FlightEnabled(s, t)
    ensures Inv(Counted(ActFlight(s, t)))
  {
    WiredFlight(s, t);
    MissedFlight(s, t);
    ExclusiveFlight(s, t);
    forall k: string ensures Balanced(ActFlight(s, t), k) { BalancedFlight(s, t, k); }
    SequentialFlight(s, t);
    SpacedFlight(s, t);
    MarkedFlight(s, t);
    TimelessCounted(ActFlight(s, t));
    ContentFlight(s, t);
    HandledFlight(s, t);
    TalliedFlight(s, t);
  }

  lemma InvWorld(s: State, t: WorldStep)
    requires Inv(s) && WorldEnabled(s, t)
    ensures Inv(Counted(ActWorld(s, t)))
  {
    SameFlights(s, ActWorld(s, t));
    MissedWorld(s, t);
    ExclusiveWorld(s, t);
    forall k: string ensures Balanced(ActWorld(s, t), k) { BalancedWorld(s, t, k); }
    SpacedWorld(s, t);
    MarkedWorld(s, t);
    TimelessCounted(ActWorld(s, t));
    ContentWorld(s, t);
    HandledWorld(s, t);
    TalliedWorld(s, t);
  }

  lemma InvInvalidate(s: State, t: InvalidateStep)
    requires Inv(s) && InvalidateEnabled(s, t)
    ensures Inv(Counted(ActInvalidate(s, t)))
  {
    SameFlights(s, ActInvalidate(s, t));
    MissedInvalidate(s, t);
    ExclusiveInvalidate(s, t);
    forall k: string ensures Balanced(ActInvalidate(s, t), k) { BalancedInvalidate(s, t, k); }
    SpacedInvalidate(s, t);
    SameMarks(s, ActInvalidate(s, t));
    TimelessCounted(ActInvalidate(s, t));
    ContentInvalidate(s, t);
    HandledInvalidate(s, t);
    TalliedInvalidate(s, t);
  }

  lemma SameFlights(s: State, s': State)
    requires Wired(s) && Sequential(s)
    requires s'.flights == s.flights && s'.open == s.open && s'.calls == s.calls
    ensures Wired(s') && Sequential(s')
  {
    forall i, j | 0 <= i < |s'.flights| && 0 <= j < |s'.flights| ensures InOrder(s', i, j) {
      assert InOrder(s, i, j);
    }
  }

  lemma SameMarks(s: State, s': State)
    requires Marked(s) && s'.flights == s.flights && s'.clock == s.clock
    requires s'.marks == s.marks && s'.marksLost == s.marksLost && s'.markers == s.markers
    ensures Marked(s')
  {
    forall m | 0 <= m < |s'.marks| ensures MarkStands(s', m) { assert MarkStands(s, m); }
    forall f, m | 0 <= f < |s'.flights| && 0 <= m < |s'.marks| ensures MarkSeen(s', f, m) {
      assert MarkSeen(s, f, m);
    }
  }

  lemma InvStep(s: State, t: Step)
    requires Inv(s) && Enabled(s, t)
    ensures Inv(Apply(s, t))
  {
    match t
    case OfCall(u) => InvCall(s, u);
    case OfFlight(u) => InvFlight(s, u);
    case OfWorld(u) => InvWorld(s, u);
    case OfInvalidate(u) => InvInvalidate(s, u);
  }

  lemma InvInitial(s: State)
    requires Initial(s)
    ensures Inv(s)
  {
    assert forall k: string :: Callers(s, k) == {};
  }

  lemma {:induction false} InvRun(s: State, steps: seq<Step>, s': State)
    requires Inv(s) && Run(s, steps, s')
    ensures Inv(s')
    decreases |steps|
  {
    if steps != [] {
      InvStep(s, steps[0]);
      InvRun(Apply(s, steps[0]), steps[1..], s');
    }
  }

  /** A state some run from a fresh service leads to. */
  ghost predicate Reachable(s: State) {
    exists s0: State, steps: seq<Step> :: Initial(s0) && Run(s0, steps, s)
  }

  lemma InvReachable(s: State)
    requires Reachable(s)
    ensures Inv(s)
  {
    var s0: State, steps: seq<Step> :| Initial(s0) && Run(s0, steps, s);
    InvInitial(s0);
    InvRun(s0, steps, s);
  }

  lemma RunTwo(s: State, t: Step, u: Step)
    requires Enabled(s, t) && Enabled(Apply(s, t), u)
    ensures Run(s, [t, u], Apply(Apply(s, t), u))
  {
    var s1, s2 := Apply(s, t), Apply(Apply(s, t), u);
    assert [t, u][1..] == [u] && [u][1..] == [];
    assert Run(s2, [], s2);
    assert Run(s1, [u], s2);
  }

  lemma RunCons(s: State, t: Step, steps: seq<Step>, s': State)
    requires Enabled(s, t) && Run(Apply(s, t), steps, s')
    ensures Run(s, [t] + steps, s')
  {
    assert ([t] + steps)[1..] == steps;
  }

  lemma {:induction false} RunConcat(s: State, a: seq<Step>, s1: State, b: seq<Step>, s2: State)
    requires Run(s, a, s1) && Run(s1, b, s2)
    ensures Run(s, a + b, s2)
    decreases |a|
  {
    if a == [] {
      assert a + b == b;
    } else {
      RunConcat(Apply(s, a[0]), a[1..], s1, b, s2);
      RunCons(s, a[0], a[1..] + b, s2);
      assert a + b == [a[0]] + (a[1..] + b);
    }
  }

  lemma ReachableStep(s: State, t: Step)
    requires Reachable(s) && Enabled(s, t)
    ensures Reachable(Apply(s, t))
  {
    var s0: State, steps: seq<Step> :| Initial(s0) && Run(s0, steps, s);
    RunCons(s, t, [], Apply(s, t));
    RunConcat(s0, steps, s, [t] + [], Apply(s, t));
  }
}

/** The order of flights, the spacing of done-tier stores, and how long markings last. */
module TraceTiming {
  import opened Tiers
  import opened TraceProtocol
  import opened TraceInvariants
  import opened TraceContent

  // ---------- Flights of one key follow each other ----------

  predicate InOrder(s: State, i: nat, j: nat)
    requires i < |s.flights| && j < |s.flights|
  {
    i < j && s.flights[i].key == s.flights[j].key ==> s.flights[i].stage == Closed
  }

  ghost predicate Sequential(s: State) {
    forall i, j :: 0 <= i < |s.flights| && 0 <= j < |s.flights| ==> InOrder(s, i, j)
  }

  lemma SequentialCall(s: State, t: CallStep)
    requires Wired(s) && Sequential(s) && CallEnabled(s, t)
    ensures Sequential(ActCall(s, t))
  {
    var s' := ActCall(s, t);
    forall i, j | 0 <= i < |s'.flights| && 0 <= j < |s'.flights|
      ensures InOrder(s', i, j)
    {
      assert i < |s.flights| && j < |s.flights| ==> InOrder(s, i, j);
    }
  }

  lemma SequentialFlight(s: State, t: FlightStep)
    requires Sequential(s) && FlightEnabled(s, t)
    ensures Sequential(ActFlight(s, t))
  {
    var s' := ActFlight(s, t);
    forall i, j | 0 <= i < |s'.flights| && 0 <= j < |s'.flights|
      ensures InOrder(s', i, j)
    {
      assert InOrder(s, i, j);
    }
  }

  // ---------- Done-tier stores of one key are a time-to-live apart ----------

  /** Flight i stored in the done tier, and no visible entry of its key has been removed since. */
  predicate Unremoved(s: State, i: nat)
    requires i < |s.flights|
  {
    s.flights[i].kept == KeptDone && s.history.removed[s.flights[i].key] == s.flights[i].removedAtStore
  }

  /** Until its time runs out the entry, or a later one, is there. */
  predicate StillThere(s: State, i: nat)
    requires i < |s.flights|
  {
    var fl := s.flights[i];
    Unremoved(s, i) ==>
      || s.clock > fl.storedAt + TRACE_DONE_TTL
      || (fl.key in s.done && s.done[fl.key].expiresAt >= fl.storedAt + TRACE_DONE_TTL)
  }

  predicate PastRead(fl: Flight) {
    fl.stage == Storing || fl.kept != Nowhere
  }

  predicate PastMiss(fl: Flight) {
    MissedDone(fl.stage) || fl.kept != Nowhere
  }

  /** A later flight of the key reads the marker after the store. If no entry of the key was removed
      between that store and its miss of the done tier, the stored entry's time had run out by then. */
  predicate Apart(s: State, i: nat, j: nat)
    requires i < |s.flights| && j < |s.flights|
  {
    var a, b := s.flights[i], s.flights[j];
    i < j && a.key == b.key && a.kept == KeptDone ==>
      && (PastMiss(b) ==> b.removedAtMiss >= a.removedAtStore)
      && (PastRead(b) ==> b.readAt >= a.storedAt)
      && (b.removedAtMiss == a.removedAtStore ==>
            && (MissedDone(b.stage) ==> s.clock > a.storedAt + TRACE_DONE_TTL)
            && (PastRead(b) ==> b.readAt > a.storedAt + TRACE_DONE_TTL))
  }

  /** Along a flight, clock readings and removal counts only grow. */
  predicate ReadBeforeStore(s: State, i: nat)
    requires i < |s.flights|
  {
    var fl := s.flights[i];
    && (fl.stage == Storing ==> fl.readAt <= s.clock)
    && (fl.kept != Nowhere ==> fl.readAt <= fl.storedAt <= s.clock)
    && (PastMiss(fl) ==> fl.removedAtMiss <= s.history.removed[fl.key])
    && (fl.kept == KeptDone ==> fl.removedAtMiss <= fl.removedAtStore <= s.history.removed[fl.key])
  }

  ghost predicate Spaced(s: State) {
    && (forall i :: 0 <= i < |s.flights| ==> StillThere(s, i) && ReadBeforeStore(s, i))
    && (forall i, j :: 0 <= i < |s.flights| && 0 <= j < |s.flights| ==> Apart(s, i, j))
  }

  lemma SpacedCall(s: State, t: CallStep)
    requires Spaced(s) && CallEnabled(s, t)
    ensures Spaced(ActCall(s, t))
  {
    var s' := ActCall(s, t);
    forall i | 0 <= i < |s'.flights|
      ensures StillThere(s', i) && ReadBeforeStore(s', i)
    {
      assert i < |s.flights| ==> StillThere(s, i) && ReadBeforeStore(s, i);
    }
    forall i, j | 0 <= i < |s'.flights| && 0 <= j < |s'.flights|
      ensures Apart(s', i, j)
    {
      assert i < |s.flights| && j < |s.flights| ==> Apart(s, i, j);
    }
  }

  lemma StillThereFlight(s: State, t: FlightStep, i: nat)
    requires FlightEnabled(s, t) && i < |s.flights| && StillThere(s, i) && ReadBeforeStore(s, i)
    ensures StillThere(ActFlight(s, t), i)
  {
    if t.StoreDone? {
      assert ActFlight(s, t).done[s.flights[t.f].key].expiresAt == s.clock + TRACE_DONE_TTL;
    } else {
      assert ActFlight(s, t).done == s.done;
      assert ActFlight(s, t).flights[i].kept == KeptDone ==> s.flights[i].kept == KeptDone;
    }
  }

  lemma ReadBeforeStoreFlight(s: State, t: FlightStep, i: nat)
    requires FlightEnabled(s, t) && Content(s) && i < |s.flights| && ReadBeforeStore(s, i)
    ensures ReadBeforeStore(ActFlight(s, t), i)
  {
    assert SoundFlight(s, t.f);
    assert ActFlight(s, t).history.removed == s.history.removed && ActFlight(s, t).clock == s.clock;
    if i == t.f {
      assert ActFlight(s, t).flights[i] == MovedFlight(s, t);
    } else {
      assert ActFlight(s, t).flights[i] == s.flights[i];
    }
  }

  /** Flight i moving: it is closed if anything later has its key. */
  lemma ApartEarlierMoves(s: State, t: FlightStep, j: nat)
    requires FlightEnabled(s, t) && j < |s.flights| && t.f != j && InOrder(s, t.f, j)
    ensures Apart(ActFlight(s, t), t.f, j)
  {
  }

  /** Flight j moving: its recheck misses only once every earlier entry has run out. */
  lemma ApartLaterMoves(s: State, t: FlightStep, i: nat)
    requires FlightEnabled(s, t) && SoundFlight(s, t.f)
    requires i < |s.flights| && i != t.f && StillThere(s, i) && ReadBeforeStore(s, i) && Apart(s, i, t.f)
    ensures Apart(ActFlight(s, t), i, t.f)
  {
  }

  lemma ApartFlight(s: State, t: FlightStep, i: nat, j: nat)
    requires FlightEnabled(s, t) && SoundFlight(s, t.f)
    requires i < |s.flights| && j < |s.flights| && StillThere(s, i) && ReadBeforeStore(s, i)
    requires Apart(s, i, j) && InOrder(s, i, j)
    ensures Apart(ActFlight(s, t), i, j)
  {
    if i != j {
      if t.f == i {
        ApartEarlierMoves(s, t, j);
      } else if t.f == j {
        ApartLaterMoves(s, t, i);
      }
    }
  }

  lemma SpacedFlight(s: State, t: FlightStep)
    requires Spaced(s) && Content(s) && Sequential(s) && FlightEnabled(s, t)
    ensures Spaced(ActFlight(s, t))
  {
    var s' := ActFlight(s, t);
    forall i | 0 <= i < |s'.flights|
      ensures StillThere(s', i) && ReadBeforeStore(s', i)
    {
      assert StillThere(s, i) && ReadBeforeStore(s, i);
      StillThereFlight(s, t, i);
      ReadBeforeStoreFlight(s, t, i);
    }
    forall i, j | 0 <= i < |s'.flights| && 0 <= j < |s'.flights|
      ensures Apart(s', i, j)
    {
      assert InOrder(s, i, j) && Apart(s, i, j) && StillThere(s, i) && ReadBeforeStore(s, i);
      assert SoundFlight(s, t.f);
      ApartFlight(s, t, i, j);
    }
  }

  /** The clock advances, and entries leave the done tier: either removed while visible, or unseen. */
  lemma SpacedOtherwise(s: State, s': State)
    requires Spaced(s) && s'.flights == s.flights && s'.clock >= s.clock
    requires forall k: string :: s'.history.removed[k] >= s.history.removed[k]
    requires forall k ::
               k in s.done && Visible(s.done, k, s'.clock) && s'.history.removed[k] == s.history.removed[k] ==>
                 k in s'.done && s'.done[k] == s.done[k]
    ensures Spaced(s')
  {
    forall i | 0 <= i < |s'.flights|
      ensures StillThere(s', i) && ReadBeforeStore(s', i)
    {
      assert StillThere(s, i) && ReadBeforeStore(s, i);
    }
    forall i, j | 0 <= i < |s'.flights| && 0 <= j < |s'.flights|
      ensures Apart(s', i, j)
    {
      assert Apart(s, i, j);
    }
  }

  lemma SpacedWorld(s: State, t: WorldStep)
    requires Spaced(s) && WorldEnabled(s, t)
    ensures Spaced(ActWorld(s, t))
  {
    SpacedOtherwise(s, ActWorld(s, t));
  }

  lemma SpacedInvalidate(s: State, t: InvalidateStep)
    requires Spaced(s) && InvalidateEnabled(s, t)
    ensures Spaced(ActInvalidate(s, t))
  {
    SpacedOtherwise(s, ActInvalidate(s, t));
  }

  // ---------- A marking lasts 24 hours ----------

  predicate MarkStands(s: State, m: nat)
    requires m < |s.marks|
  {
    var mk := s.marks[m];
    m !in s.marksLost ==>
      || s.clock > mk.at + TERMINAL_JOBS_TTL
      || (mk.key in s.markers && s.markers[mk.key].expiresAt >= mk.at + TERMINAL_JOBS_TTL)
  }

  /** A marking that stands when the marker is read is seen. */
  predicate MarkSeen(s: State, f: nat, m: nat)
    requires f < |s.flights| && m < |s.marks|
  {
    var fl, mk := s.flights[f], s.marks[m];
    && (PastRead(fl) ==> fl.marksSeen <= |s.marks|)
    && (PastRead(fl) && m < fl.marksSeen && mk.key == fl.req.Marker() ==>
          m in fl.lostSeen || fl.readAt > mk.at + TERMINAL_JOBS_TTL || fl.terminal)
  }

  ghost predicate Marked(s: State) {
    && (forall m :: 0 <= m < |s.marks| ==> s.marks[m].at <= s.clock && MarkStands(s, m))
    && (forall f, m :: 0 <= f < |s.flights| && 0 <= m < |s.marks| ==> MarkSeen(s, f, m))
    && (forall f :: 0 <= f < |s.flights| && PastRead(s.flights[f]) ==> s.flights[f].marksSeen <= |s.marks|)
  }

  lemma MarkSeenFlight(s: State, t: FlightStep, f: nat, m: nat)
    requires FlightEnabled(s, t) && Content(s) && f < |s.flights| && m < |s.marks|
    requires MarkSeen(s, f, m) && MarkStands(s, m)
    ensures MarkSeen(ActFlight(s, t), f, m)
  {
    assert SoundFlight(s, t.f);
  }

  lemma MarksSeenFlight(s: State, t: FlightStep, f: nat)
    requires FlightEnabled(s, t) && Content(s) && f < |s.flights|
    requires PastRead(s.flights[f]) ==> s.flights[f].marksSeen <= |s.marks|
    ensures PastRead(ActFlight(s, t).flights[f]) ==> ActFlight(s, t).flights[f].marksSeen <= |s.marks|
  {
    assert SoundFlight(s, t.f);
  }

  lemma MarkedFlight(s: State, t: FlightStep)
    requires Marked(s) && Content(s) && FlightEnabled(s, t)
    ensures Marked(ActFlight(s, t))
  {
    var s' := ActFlight(s, t);
    assert s'.marks == s.marks && s'.markers == s.markers && s'.clock == s.clock;
    forall m | 0 <= m < |s'.marks|
      ensures MarkStands(s', m)
    {
      assert MarkStands(s, m);
    }
    forall f, m | 0 <= f < |s'.flights| && 0 <= m < |s'.marks|
      ensures MarkSeen(s', f, m)
    {
      assert MarkSeen(s, f, m) && MarkStands(s, m);
      MarkSeenFlight(s, t, f, m);
    }
    forall f | 0 <= f < |s'.flights|
      ensures PastRead(s'.flights[f]) ==> s'.flights[f].marksSeen <= |s'.marks|
    {
      MarksSeenFlight(s, t, f);
    }
  }

  lemma MarkedCall(s: State, t: CallStep)
    requires Marked(s) && CallEnabled(s, t)
    ensures Marked(ActCall(s, t))
  {
    var s' := ActCall(s, t);
    forall m | 0 <= m < |s'.marks|
      ensures MarkStands(s', m)
    {
      assert MarkStands(s, m);
    }
    forall f, m | 0 <= f < |s'.flights| && 0 <= m < |s'.marks|
      ensures MarkSeen(s', f, m)
    {
      assert f < |s.flights| ==> MarkSeen(s, f, m);
    }
  }

  lemma MarkedWorld(s: State, t: WorldStep)
    requires Marked(s) && WorldEnabled(s, t)
    ensures Marked(ActWorld(s, t))
  {
    var s' := ActWorld(s, t);
    forall m | 0 <= m < |s'.marks|
      ensures MarkStands(s', m)
    {
      assert m < |s.marks| ==> MarkStands(s, m);
    }
    forall f, m | 0 <= f < |s'.flights| && 0 <= m < |s'.marks|
      ensures MarkSeen(s', f, m)
    {
      assert m < |s.marks| ==> MarkSeen(s, f, m);
    }
  }
}

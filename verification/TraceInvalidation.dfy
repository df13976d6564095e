/** What an invalidation clears while flights go on storing. */
module TraceInvalidation {
  import opened Tiers
  import opened TraceProtocol
  import opened TraceContent

  // ---------- Step numbers along a flight ----------

  predicate OnTime(s: State, f: nat)
    requires f < |s.flights|
  {
    var fl := s.flights[f];
    && fl.openedAt < s.events
    && (Busy(fl.stage) || fl.kept != Nowhere ==> fl.openedAt < fl.beganAt < s.events)
  }

  predicate EntryOnTime(s: State, tier: Tier<Stored>, key: string) {
    key in tier && tier[key].value.flight < |s.flights| ==>
      var v := tier[key].value;
      var fl := s.flights[v.flight];
      && fl.beganAt < v.storedAt < s.events
      && (fl.stage == Closed ==> v.storedAt < fl.closedAt)
  }

  // ---------- What an invalidation has dealt with ----------

  /** A visible entry that was stored before the invalidation began. */
  predicate Old(s: State, tier: Tier<Stored>, key: string, startedAt: nat) {
    Visible(tier, key, s.clock) && tier[key].value.storedAt < startedAt
  }

  /** Old entries of the done tier are on the list, still to be scanned, or gone. */
  ghost predicate DoneHandled(s: State, i: nat, key: string)
    requires i < |s.invalidations|
  {
    Old(s, s.done, key, s.invalidations[i].startedAt) ==>
      match s.invalidations[i].phase
      case ScanningDone(shard, keys) => key in keys || shard <= ShardOf(key)
      case DeletingDone(keys) => key in keys
      case _ => false
  }

  /** The live tier's turn comes second. */
  ghost predicate LiveHandled(s: State, i: nat, key: string)
    requires i < |s.invalidations|
  {
    Old(s, s.live, key, s.invalidations[i].startedAt) ==>
      match s.invalidations[i].phase
      case ScanningLive(shard, keys) => key in keys || shard <= ShardOf(key)
      case DeletingLive(keys) => key in keys
      case Over => false
      case _ => true
  }

  ghost predicate Handled(s: State) {
    && (forall f :: 0 <= f < |s.flights| ==> OnTime(s, f))
    && (forall k: string :: EntryOnTime(s, s.done, k) && EntryOnTime(s, s.live, k))
    && (forall i :: 0 <= i < |s.invalidations| ==> s.invalidations[i].startedAt <= s.events)
    && (forall i, k: string :: 0 <= i < |s.invalidations| ==> DoneHandled(s, i, k) && LiveHandled(s, i, k))
  }

  /** Steps that add no entry and leave the invalidations alone. */
  lemma HandledStays(s: State, s': State)
    requires Handled(s) && s'.events == s.events + 1 && s'.clock >= s.clock
    requires s'.invalidations == s.invalidations
    requires forall k :: k in s'.done ==> k in s.done && s'.done[k] == s.done[k]
    requires forall k :: k in s'.live ==> k in s.live && s'.live[k] == s.live[k]
    requires |s.flights| <= |s'.flights|
    requires forall f :: 0 <= f < |s.flights| ==> s'.flights[f] == s.flights[f]
    requires forall f :: |s.flights| <= f < |s'.flights| ==> OnTime(s', f)
    requires forall k :: k in s.done ==> s.done[k].value.flight < |s.flights|
    requires forall k :: k in s.live ==> s.live[k].value.flight < |s.flights|
    ensures Handled(s')
  {
    forall f | 0 <= f < |s'.flights|
      ensures OnTime(s', f)
    {
      assert f < |s.flights| ==> OnTime(s, f);
    }
    forall k: string
      ensures EntryOnTime(s', s'.done, k) && EntryOnTime(s', s'.live, k)
    {
      assert EntryOnTime(s, s.done, k) && EntryOnTime(s, s.live, k);
    }
    forall i, k: string | 0 <= i < |s'.invalidations|
      ensures DoneHandled(s', i, k) && LiveHandled(s', i, k)
    {
      assert DoneHandled(s, i, k) && LiveHandled(s, i, k);
    }
  }

  lemma FlightsOfEntries(s: State)
    requires Content(s)
    ensures forall k :: k in s.done ==> s.done[k].value.flight < |s.flights|
    ensures forall k :: k in s.live ==> s.live[k].value.flight < |s.flights|
  {
    forall k: string
      ensures k in s.done ==> s.done[k].value.flight < |s.flights|
      ensures k in s.live ==> s.live[k].value.flight < |s.flights|
    {
      assert SoundEntry(s, s.done, KeptDone, TRACE_DONE_TTL, k);
      assert SoundEntry(s, s.live, KeptLive, TRACE_LIVE_TTL, k);
    }
  }

  lemma HandledCall(s: State, t: CallStep)
    requires Handled(s) && Content(s) && CallEnabled(s, t)
    ensures Handled(Counted(ActCall(s, t)))
  {
    FlightsOfEntries(s);
    HandledStays(s, Counted(ActCall(s, t)));
  }

  lemma HandledWorld(s: State, t: WorldStep)
    requires Handled(s) && Content(s) && WorldEnabled(s, t)
    ensures Handled(Counted(ActWorld(s, t)))
  {
    FlightsOfEntries(s);
    HandledStays(s, Counted(ActWorld(s, t)));
  }

  /** An entry's flight has settled, so nothing about it changes but its closing. */
  lemma EntryOnTimeStays(s: State, s': State, tier: Tier<Stored>, kept: Kept, ttl: nat, k: string)
    requires SoundEntry(s, tier, kept, ttl, k) && kept != Nowhere && EntryOnTime(s, tier, k)
    requires forall f :: 0 <= f < |s.flights| ==> SoundFlight(s, f)
    requires Extends(s, s') && s'.events == s.events + 1
    requires forall f :: 0 <= f < |s.flights| ==>
               s'.flights[f].stage == Closed ==> s.flights[f].stage == Closed || s'.flights[f].closedAt == s.events
    ensures EntryOnTime(s', tier, k)
  {
    if k in tier {
      var f := tier[k].value.flight;
      assert SoundFlight(s, f) && FlightExtends(s.flights[f], s'.flights[f]);
    }
  }

  lemma EntryOnTimeStored(s: State, t: FlightStep)
    requires FlightEnabled(s, t) && OnTime(s, t.f)
    ensures t.StoreDone? ==> EntryOnTime(Counted(ActFlight(s, t)), ActFlight(s, t).done, s.flights[t.f].key)
    ensures t.StoreLive? ==> EntryOnTime(Counted(ActFlight(s, t)), ActFlight(s, t).live, s.flights[t.f].key)
  {
  }

  lemma EntryOnTimeMove(s: State, t: FlightStep, k: string)
    requires Handled(s) && Content(s) && FlightEnabled(s, t)
    ensures EntryOnTime(Counted(ActFlight(s, t)), ActFlight(s, t).done, k)
    ensures EntryOnTime(Counted(ActFlight(s, t)), ActFlight(s, t).live, k)
  {
    var s' := Counted(ActFlight(s, t));
    assert OnTime(s, t.f) && EntryOnTime(s, s.done, k) && EntryOnTime(s, s.live, k);
    ExtendsFlight(s, t);
    EntryOnTimeStays(s, s', s.done, KeptDone, TRACE_DONE_TTL, k);
    EntryOnTimeStays(s, s', s.live, KeptLive, TRACE_LIVE_TTL, k);
    EntryOnTimeStored(s, t);
  }

  lemma OnTimeMove(s: State, t: FlightStep, f: nat)
    requires FlightEnabled(s, t) && f < |s.flights| && OnTime(s, f) && SoundFlight(s, t.f)
    ensures OnTime(Counted(ActFlight(s, t)), f)
  {
    if f == t.f {
      FlightMoves(s, t);
    }
  }

  /** What a flight stores now is not old. */
  lemma HandledMove(s: State, t: FlightStep, i: nat, k: string)
    requires FlightEnabled(s, t) && i < |s.invalidations| && s.invalidations[i].startedAt <= s.events
    requires DoneHandled(s, i, k) && LiveHandled(s, i, k)
    ensures DoneHandled(Counted(ActFlight(s, t)), i, k) && LiveHandled(Counted(ActFlight(s, t)), i, k)
  {
  }

  lemma HandledFlight(s: State, t: FlightStep)
    requires Handled(s) && Content(s) && FlightEnabled(s, t)
    ensures Handled(Counted(ActFlight(s, t)))
  {
    var s' := Counted(ActFlight(s, t));
    forall f | 0 <= f < |s'.flights|
      ensures OnTime(s', f)
    {
      assert SoundFlight(s, t.f);
      OnTimeMove(s, t, f);
    }
    forall k: string
      ensures EntryOnTime(s', s'.done, k) && EntryOnTime(s', s'.live, k)
    {
      EntryOnTimeMove(s, t, k);
    }
    forall i, k: string | 0 <= i < |s'.invalidations|
      ensures DoneHandled(s', i, k) && LiveHandled(s', i, k)
    {
      assert DoneHandled(s, i, k) && LiveHandled(s, i, k);
      HandledMove(s, t, i, k);
    }
  }

  lemma HandledInvalidation(s: State, t: InvalidateStep, i: nat, k: string)
    requires InvalidateEnabled(s, t) && i < |Counted(ActInvalidate(s, t)).invalidations|
    requires i < |s.invalidations| ==> DoneHandled(s, i, k) && LiveHandled(s, i, k)
    ensures DoneHandled(Counted(ActInvalidate(s, t)), i, k) && LiveHandled(Counted(ActInvalidate(s, t)), i, k)
  {
  }

  lemma HandledInvalidate(s: State, t: InvalidateStep)
    requires Handled(s) && InvalidateEnabled(s, t)
    ensures Handled(Counted(ActInvalidate(s, t)))
  {
    var s' := Counted(ActInvalidate(s, t));
    forall f | 0 <= f < |s'.flights|
      ensures OnTime(s', f)
    {
      assert OnTime(s, f);
    }
    forall k: string
      ensures EntryOnTime(s', s'.done, k) && EntryOnTime(s', s'.live, k)
    {
      assert EntryOnTime(s, s.done, k) && EntryOnTime(s, s.live, k);
    }
    forall i, k: string | 0 <= i < |s'.invalidations|
      ensures DoneHandled(s', i, k) && LiveHandled(s', i, k)
    {
      assert i < |s.invalidations| ==> DoneHandled(s, i, k) && LiveHandled(s, i, k);
      HandledInvalidation(s, t, i, k);
    }
  }
}

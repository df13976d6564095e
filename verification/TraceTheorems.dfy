/** What holds of every run of the trace protocol. */
module TraceTheorems {
  import opened Keys
  import opened BoundedTrace
  import opened Tiers
  import opened TraceProtocol
  import opened TraceInvariants
  import opened TraceContent
  import opened TraceTiming
  import opened TraceInvalidation
  import opened TraceAnswers
  import opened TraceRuns

  // ---------- No entry is shadowed ----------

  /** In every reachable state at most one tier serves a key, so the order in which Get looks at the
      tiers never hides an entry. */
  lemma NothingShadowed(s: State, k: string)
    requires Reachable(s)
    ensures !(Visible(s.done, k, s.clock) && Visible(s.live, k, s.clock))
  {
    InvReachable(s);
    assert !Shadowed(s, k);
  }

  // ---------- How often the provider is called ----------

  /** Conservation: each provider call for a key failed, answered something too large, or gave an entry
      that was removed, ran out, or is shown now; at most one call is shown or still being dealt with. */
  lemma FetchesConserved(s: State, k: string)
    requires Reachable(s)
    ensures var h := s.history;
            h.calls[k] == h.errors[k] + h.uncached[k] + h.removed[k] + h.expired[k]
                          + Shown(s.done, k, s.clock) + Shown(s.live, k, s.clock) + Waiting(s, k)
    ensures Shown(s.done, k, s.clock) + Shown(s.live, k, s.clock) + Waiting(s, k) <= 1
  {
    InvReachable(s);
    assert Balanced(s, k) && !Shadowed(s, k);
    if Waiting(s, k) == 1 {
      assert MissedAt(s, s.open[k]);
    }
  }

  /** At any time, the calls for a key have been given at most as many different answers as there were
      provider calls for it: an answer is only ever passed on. */
  lemma AnswersArePassedOn(s: State, k: string)
    requires Reachable(s)
    ensures |Sources(s, k)| <= s.history.calls[k]
  {
    InvReachable(s);
    SourcesAreCallers(s, k);
  }

  /** For as long as a key has lost nothing - no failed call, no oversized answer, no entry removed or run
      out - any number of interleaved calls have reached the provider for it at most once, and all that
      have been answered were given the same trace; whatever happened to other keys. */
  lemma SingleFetch(s: State, k: string)
    requires Reachable(s)
    requires s.history.errors[k] == s.history.uncached[k] == s.history.removed[k] == s.history.expired[k] == 0
    ensures s.history.calls[k] <= 1
    ensures forall c, d :: AnsweredFor(s, c, k) && AnsweredFor(s, d, k) ==>
              s.calls[c].outcome.trace == s.calls[d].outcome.trace
  {
    FetchesConserved(s, k);
    OneCallOneAnswer(s, k);
  }

  lemma OneCallOneAnswer(s: State, k: string)
    requires Reachable(s) && s.history.calls[k] <= 1
    ensures forall c, d :: AnsweredFor(s, c, k) && AnsweredFor(s, d, k) ==>
              s.calls[c].outcome.trace == s.calls[d].outcome.trace
  {
    InvReachable(s);
    SourcesAreCallers(s, k);
    forall c, d | AnsweredFor(s, c, k) && AnsweredFor(s, d, k)
      ensures s.calls[c].outcome.trace == s.calls[d].outcome.trace
    {
      var both := {s.calls[c].outcome.source, s.calls[d].outcome.source};
      SubsetSize(both, Sources(s, k));
      SameSourceSameTrace(s, c, d);
    }
  }

  /** Call c asked for key k and has been given a trace. */
  predicate AnsweredFor(s: State, c: nat, k: string) {
    c in s.calls && s.calls[c].Returned? && s.calls[c].req.Key() == k && s.calls[c].outcome.Delivered?
  }

  // ---------- What is stored and what is answered ----------

  /** A whole body of at most 512 KiB, a prefix of its job's log that holds at least what the log held
      when its fetch began. */
  predicate WholeBody(s: State, v: Stored, key: string) {
    && v.flight < |s.flights| && s.flights[v.flight].key == key
    && var fl := s.flights[v.flight];
       && fl.req.Ref() in s.jobs
       && !v.trace.truncated && |v.trace.content| <= 512 * 1024
       && fl.logAtBegin <= v.trace.content <= s.jobs[fl.req.Ref()].log
  }

  /** In every reachable state both tiers hold whole bodies only. */
  lemma StoredTraces(s: State, k: string)
    requires Reachable(s)
    ensures k in s.done ==> WholeBody(s, s.done[k].value, k)
    ensures k in s.live ==> WholeBody(s, s.live[k].value, k)
  {
    InvReachable(s);
    if k in s.done {
      assert SoundEntry(s, s.done, KeptDone, TRACE_DONE_TTL, k);
      KeptIsWhole(s, s.done[k].value);
    }
    if k in s.live {
      assert SoundEntry(s, s.live, KeptLive, TRACE_LIVE_TTL, k);
      KeptIsWhole(s, s.live[k].value);
    }
  }

  lemma KeptIsWhole(s: State, v: Stored)
    requires Content(s) && v.flight < |s.flights|
    requires s.flights[v.flight].kept != Nowhere && s.flights[v.flight].outcome == Served(v)
    ensures WholeBody(s, v, s.flights[v.flight].key)
  {
    var fl := s.flights[v.flight];
    assert SoundFlight(s, v.flight);
    assert |v.trace.content| < MAX_TRACE_BYTES;
    assert BoundedRead(fl.logAtBegin).content == fl.logAtBegin;
  }

  /** Whichever flight or cache entry an answer comes from, it is a prefix of the log of the job its fetch
      asked for, under the key of the call; of at most 4 MiB, and of just that if it is flagged. That is the
      very request of the call if its server and project have no separator, or if just the two server names
      have none. */
  lemma AnswersTheRequest(s: State, c: nat)
    requires Reachable(s) && c in s.calls && s.calls[c].Returned? && s.calls[c].outcome.Delivered?
    ensures s.calls[c].outcome.source < |s.flights|
    ensures var asked, req, trace :=
              s.flights[s.calls[c].outcome.source].req, s.calls[c].req, s.calls[c].outcome.trace;
            && asked.Key() == req.Key() && asked.Ref() in s.jobs
            && trace.content <= s.jobs[asked.Ref()].log && |trace.content| <= 4 * 1024 * 1024
            && (trace.truncated ==> |trace.content| == 4 * 1024 * 1024 < |s.jobs[asked.Ref()].log|)
            && (PipeFree(req.server) && (PipeFree(req.project) || PipeFree(asked.server)) ==> asked == req)
  {
    InvReachable(s);
    assert SoundCall(s, c);
    var q, req := s.flights[s.calls[c].outcome.source].req, s.calls[c].req;
    assert q.Key() == req.Key();
    if PipeFree(req.server) && PipeFree(req.project) {
      PipeFreeOwnsTraceKey(req.server, req.project, req.jobId, q.server, q.project, q.jobId);
    } else if PipeFree(req.server) && PipeFree(q.server) {
      TraceKeyInjective(q.server, q.project, q.jobId, req.server, req.project, req.jobId);
    }
  }

  // ---------- How often the done tier is filled ----------

  /** A marker read within 24 hours of a marking that preceded it sends the trace to the done tier, unless
      the marker was evicted between the two; nothing else, invalidation included, stands in the way. */
  lemma MarkedReadsGoToDone(s: State, f: nat, m: nat)
    requires Reachable(s) && f < |s.flights| && m < |s.marks|
    requires PastRead(s.flights[f]) && m < s.flights[f].marksSeen
    requires s.marks[m].key == s.flights[f].req.Marker() && m !in s.flights[f].lostSeen
    requires s.flights[f].readAt <= s.marks[m].at + 24 * 3600 * 1_000_000_000
    ensures s.flights[f].terminal && s.flights[f].kept != KeptLive
  {
    InvReachable(s);
    assert MarkSeen(s, f, m) && SoundFlight(s, f);
  }

  /** Two done-tier stores of a key follow each other in the order of their flights. If no entry of the key
      was removed between the first store and the second flight's miss, their marker reads are more than
      twelve hours apart. */
  lemma DoneStoresApart(s: State, i: nat, j: nat)
    requires Reachable(s) && i < j < |s.flights| && s.flights[i].key == s.flights[j].key
    requires s.flights[i].kept == KeptDone && s.flights[j].kept == KeptDone
    ensures s.flights[i].readAt <= s.flights[j].readAt
    ensures s.flights[i].removedAtStore <= s.flights[j].removedAtMiss <= s.flights[j].removedAtStore
            <= s.history.removed[s.flights[j].key]
    ensures s.flights[i].removedAtStore == s.flights[j].removedAtMiss ==>
              s.flights[j].readAt > s.flights[i].readAt + 12 * 3600 * 1_000_000_000
  {
    InvReachable(s);
    assert Apart(s, i, j) && ReadBeforeStore(s, i) && ReadBeforeStore(s, j);
  }

  /** The flights that stored key k in the done tier after reading the marker in a 24-hour window. */
  ghost function DoneStores(s: State, k: string, from: nat): set<nat> {
    set f: nat | f < |s.flights| && s.flights[f].key == k && s.flights[f].kept == KeptDone
                 && from <= s.flights[f].readAt <= from + 24 * 3600 * 1_000_000_000
  }

  /** On every schedule there are at most two such stores in the life of a marker, and one more for each
      entry of the key that was removed between the first and the last of them. */
  lemma DoneStoresInALease(s: State, k: string, from: nat) returns (first: nat, last: nat)
    requires Reachable(s)
    ensures var all := DoneStores(s, k, from);
            all != {} ==>
              && first in all && last in all && (forall f :: f in all ==> first <= f <= last)
              && |all| <= 2 + s.flights[last].removedAtStore - s.flights[first].removedAtStore
    ensures |DoneStores(s, k, from)| <= 2 + s.history.removed[k]
  {
    first, last := 0, 0;
    var all := DoneStores(s, k, from);
    if all != {} {
      var gaps;
      first, last, gaps := CountStores(s, k, from, all);
      assert gaps <= 1;
      InvReachable(s);
      assert ReadBeforeStore(s, last);
    }
  }

  /** From the least of some of these stores to the last, every further one needs a gap of more than twelve
      hours, or a removal. */
  lemma {:induction false} CountStores(s: State, k: string, from: nat, all: set<nat>)
    returns (first: nat, last: nat, gaps: nat)
    requires Reachable(s) && all != {} && all <= DoneStores(s, k, from)
    ensures first in all && last in all && (forall f :: f in all ==> first <= f <= last)
    ensures s.flights[first].removedAtStore <= s.flights[last].removedAtStore
    ensures |all| <= 1 + gaps + s.flights[last].removedAtStore - s.flights[first].removedAtStore
    ensures s.flights[first].readAt + gaps * (TRACE_DONE_TTL + 1) <= s.flights[last].readAt
    decreases |all|
  {
    first := Least(all);
    var rest := all - {first};
    if rest == {} {
      assert all == {first};
      last, gaps := first, 0;
    } else {
      var second;
      second, last, gaps := CountStores(s, k, from, rest);
      assert forall f :: f in all ==> f == first || f in rest;
      assert first <= second <= last;
      gaps := OneMoreStore(s, first, second, s.flights[last].readAt, gaps);
    }
  }

  /** An earlier store adds a gap, or there was a removal. */
  lemma OneMoreStore(s: State, i: nat, j: nat, end: nat, gaps: nat) returns (more: nat)
    requires Reachable(s) && i < j < |s.flights| && s.flights[i].key == s.flights[j].key
    requires s.flights[i].kept == KeptDone && s.flights[j].kept == KeptDone
    requires s.flights[j].readAt + gaps * (TRACE_DONE_TTL + 1) <= end
    ensures s.flights[i].readAt + more * (TRACE_DONE_TTL + 1) <= end
    ensures s.flights[i].removedAtStore <= s.flights[j].removedAtStore
    ensures gaps + 1 <= more + s.flights[j].removedAtStore - s.flights[i].removedAtStore
  {
    DoneStoresApart(s, i, j);
    more := if s.flights[i].removedAtStore == s.flights[j].removedAtMiss then gaps + 1 else gaps;
  }

  lemma Least(xs: set<nat>) returns (x: nat)
    requires xs != {}
    ensures x in xs && forall y :: y in xs ==> x <= y
  {
    x :| x in xs;
    if xs != {x} {
      var z := Least(xs - {x});
      assert forall y :: y in xs ==> y == x || y in xs - {x};
      x := if x <= z then x else z;
    }
  }

  // ---------- What an invalidation leaves behind ----------

  /** Flight f was open at some step from `from` on. */
  predicate OpenSince(s: State, f: nat, from: nat)
    requires f < |s.flights|
  {
    s.flights[f].stage != Closed || s.flights[f].closedAt >= from
  }

  /** After Invalidate has returned, a visible entry was stored after it began, by a flight that was open
      meanwhile or opened later; one fetched earlier was stored by a flight open when it began. */
  lemma SurvivorsAreNew(s: State, i: nat, k: string, v: Stored)
    requires Reachable(s) && i < |s.invalidations| && s.invalidations[i].phase == Over
    requires (Visible(s.done, k, s.clock) && v == s.done[k].value)
             || (Visible(s.live, k, s.clock) && v == s.live[k].value)
    ensures v.storedAt >= s.invalidations[i].startedAt
    ensures v.flight < |s.flights| && OpenSince(s, v.flight, s.invalidations[i].startedAt)
    ensures s.flights[v.flight].beganAt < s.invalidations[i].startedAt ==>
              s.flights[v.flight].openedAt < s.invalidations[i].startedAt
  {
    InvReachable(s);
    assert DoneHandled(s, i, k) && LiveHandled(s, i, k);
    assert SoundEntry(s, s.done, KeptDone, TRACE_DONE_TTL, k) && SoundEntry(s, s.live, KeptLive, TRACE_LIVE_TTL, k);
    assert EntryOnTime(s, s.done, k) && EntryOnTime(s, s.live, k);
    assert OnTime(s, v.flight);
  }

  /** If no flight has been open since Invalidate began, both tiers are empty to every reader. */
  lemma QuietInvalidationEmpties(s: State, i: nat, k: string)
    requires Reachable(s) && i < |s.invalidations| && s.invalidations[i].phase == Over
    requires forall f :: 0 <= f < |s.flights| ==> !OpenSince(s, f, s.invalidations[i].startedAt)
    ensures !Visible(s.done, k, s.clock) && !Visible(s.live, k, s.clock)
  {
    if Visible(s.done, k, s.clock) {
      SurvivorsAreNew(s, i, k, s.done[k].value);
      assert false;
    }
    if Visible(s.live, k, s.clock) {
      SurvivorsAreNew(s, i, k, s.live[k].value);
      assert false;
    }
  }
}

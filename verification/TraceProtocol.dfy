/**
 The job-trace cache protocol as a step machine. Any number of GetJobTrace calls run interleaved with
 expiry, eviction, invalidation, terminal-job marking and a provider whose logs grow. Every step is one
 atomic access of a shared structure; in particular the fetch and the marker read are different steps,
 and so are the two tier lookups of one cache Get.
 */
module TraceProtocol {
  import opened Decimal
  import opened Keys
  import opened BoundedTrace
  import opened Tiers

  // ---------- The provider ----------

  /** A job is known to its git server by number; a retry yields a new number. */
  datatype JobRef = JobRef(server: string, id: int)

  datatype Job = Job(status: string, log: Log)

  /** How far along its life a job of this status is on GitLab: it is created, waits for its time, for a person or
      for a resource, is prepared and queued, and runs. What else there may be comes before all that. */
  function Progressed(status: string): nat {
    if status == "scheduled" || status == "manual" then 1
    else if status == "waiting_for_resource" then 2
    else if status == "preparing" then 3
    else if status == "pending" then 4
    else if status == "running" then 5
    else if status == "success" || status == "failed" || status == "canceled" || status == "skipped" then 6
    else 0
  }

  /** A job moves on or stays, writing its log, but it never moves back, and at the end it does not move. */
  predicate CanFollow(from: string, to: string) {
    Progressed(from) <= Progressed(to) && Progressed(from) < 6
  }

  /** No step of the life cycle leaves it. */
  ghost predicate Final(status: string) {
    forall to: string :: !CanFollow(status, to)
  }

  /** The statuses the service takes for finished. */
  predicate IsTerminalJobStatus(status: string) {
    status in {"success", "failed", "canceled", "skipped"}
  }

  /** They are exactly those that no step of the life cycle leaves. */
  lemma TerminalIffFinal(status: string)
    ensures IsTerminalJobStatus(status) <==> Final(status)
  {
    if !IsTerminalJobStatus(status) {
      assert CanFollow(status, status);
    }
  }

  predicate Terminal(jobs: map<JobRef, Job>, ref: JobRef) {
    ref in jobs && IsTerminalJobStatus(jobs[ref].status)
  }

  // ---------- Calls ----------

  datatype Request = Request(server: string, project: string, jobId: int) {
    function Key(): string {
      TraceKey(server, project, jobId)
    }
    function Ref(): JobRef {
      JobRef(server, jobId)
    }
    function Marker(): string {
      TerminalJobKey(server, Itoa(jobId))
    }
  }

  /** `source` is the flight that called the provider for it. A new flight has failed until it knows better. */
  datatype Outcome = Delivered(trace: Trace, source: nat) | Failed(source: nat)

  /** Where a call stands: the two lookups of the first Get, the door of the flight, the flight. An outcome
      is as of the clock reading at which the call, or the flight it waited for, came by it. */
  datatype Call =
    | AtDone(req: Request)
    | AtLive(req: Request)
    | AtDoor(req: Request)
    | InFlight(req: Request, flight: nat)
    | Returned(req: Request, outcome: Outcome, asOf: nat)

  // ---------- Flights ----------

  /** Where the leader of a flight stands inside the function it runs. */
  datatype Stage =
    | CheckingDone | CheckingLive | Calling | Fetching
    | ReadingMarker | Storing | Publishing | Closed

  datatype Kept = Nowhere | KeptLive | KeptDone

  /** A singleflight execution. The fields after `stage` and `outcome` record what the flight did: whether
      it has `called` the provider; what it read from the markers (`terminal`); the job's log and whether
      the job was finished when the provider was called (`logAtBegin`, `terminalAtBegin`); step numbers
      (`openedAt`, `beganAt`, `closedAt`); the clock at the provider call, when the outcome was there, at
      the marker read and at the store (`calledAt`, `gotAt`, `readAt`, `storedAt`); how many markings
      preceded the marker read, and which of them had been evicted (`marksSeen`, `lostSeen`); and how many
      removals of its key preceded its miss of the done tier and its store there (`removedAtMiss`,
      `removedAtStore`). */
  datatype Flight = Flight(
    key: string, req: Request, stage: Stage, outcome: Outcome,
    called: bool, terminal: bool, kept: Kept,
    logAtBegin: Log, terminalAtBegin: bool,
    openedAt: nat, beganAt: nat, closedAt: nat,
    calledAt: nat, gotAt: nat, readAt: nat, storedAt: nat,
    marksSeen: nat, lostSeen: set<nat>,
    removedAtMiss: nat, removedAtStore: nat)

  function NewFlight(req: Request, f: nat, openedAt: nat): Flight {
    Flight(req.Key(), req, CheckingDone, Failed(f), false, false, Nowhere, [], false,
           openedAt, 0, 0, 0, 0, 0, 0, 0, {}, 0, 0)
  }

  /** The provider has been called and the flight has not yet dealt with the answer. */
  predicate Busy(stage: Stage) {
    stage == Fetching || stage == ReadingMarker || stage == Storing
  }

  // ---------- Invalidation ----------

  /** Invalidate scans the done tier shard by shard, deletes what it saw, then does the live tier. */
  datatype Phase =
    | ScanningDone(shard: nat, keys: set<string>)
    | DeletingDone(keys: set<string>)
    | ScanningLive(shard: nat, keys: set<string>)
    | DeletingLive(keys: set<string>)
    | Over

  datatype Invalidation = Invalidation(startedAt: nat, phase: Phase)

  const TRACE_SHARDS: nat := 4

  /** Some fixed assignment of keys to shards. */
  ghost function ShardOf(key: string): (shard: nat)
    ensures shard < TRACE_SHARDS
  {
    var shard: nat :| shard < TRACE_SHARDS;
    shard
  }

  // ---------- States ----------

  /** What a tier stores for a key, with the flight and the step that stored it. */
  datatype Stored = Stored(trace: Trace, flight: nat, storedAt: nat)

  function Served(v: Stored): Outcome {
    Delivered(v.trace, v.flight)
  }

  /** Per-key counts of what happened. `removed` counts visible entries that were evicted or deleted,
      `expired` visible entries whose time ran out, `uncached` answers too large to store. */
  datatype History = History(
    calls: multiset<string>, errors: multiset<string>, uncached: multiset<string>,
    stores: multiset<string>, removed: multiset<string>, expired: multiset<string>)

  /** A marking: which marker was set, and when. `marksLost` are the markings whose marker was evicted after
      them. */
  datatype Marking = Marking(key: string, at: nat)

  datatype State = State(
    clock: nat,
    events: nat,
    jobs: map<JobRef, Job>,
    done: Tier<Stored>,
    live: Tier<Stored>,
    markers: Tier<bool>,
    calls: map<nat, Call>,
    open: map<string, nat>,
    flights: seq<Flight>,
    invalidations: seq<Invalidation>,
    history: History,
    marks: seq<Marking>,
    marksLost: set<nat>)

  const NO_HISTORY := History(multiset{}, multiset{}, multiset{}, multiset{}, multiset{}, multiset{})

  /** A fresh service against any provider, at any time. */
  predicate Initial(s: State) {
    && s.done == map[] && s.live == map[] && s.markers == map[]
    && s.calls == map[] && s.open == map[] && s.flights == [] && s.invalidations == []
    && s.history == NO_HISTORY && s.marks == [] && s.marksLost == {}
  }

  // ---------- Steps of one GetJobTrace call ----------

  // A lookup that can go two ways is two steps with complementary guards.

  datatype CallStep =
    | Start(c: nat, req: Request)
    | HitDone(c: nat)
    | MissDone(c: nat)
    | HitLive(c: nat)
    | MissLive(c: nat)
    | Join(c: nat)
    | Lead(c: nat)
    | Return(c: nat)

  predicate CallEnabled(s: State, t: CallStep) {
    if t.Start? then t.c !in s.calls
    else
      && t.c in s.calls
      && var call := s.calls[t.c];
         match t
         case HitDone(_) => call.AtDone? && Visible(s.done, call.req.Key(), s.clock)
         case MissDone(_) => call.AtDone? && !Visible(s.done, call.req.Key(), s.clock)
         case HitLive(_) => call.AtLive? && Visible(s.live, call.req.Key(), s.clock)
         case MissLive(_) => call.AtLive? && !Visible(s.live, call.req.Key(), s.clock)
         case Join(_) => call.AtDoor? && call.req.Key() in s.open
         case Lead(_) => call.AtDoor? && call.req.Key() !in s.open
         case Return(_) =>
           call.InFlight? && call.flight < |s.flights| && s.flights[call.flight].stage == Closed
  }

  /** Where the call stands after its step. */
  function MovedCall(s: State, t: CallStep): Call
    requires CallEnabled(s, t)
  {
    match t
    case Start(_, req) => AtDone(req)
    case HitDone(c) => Returned(s.calls[c].req, Served(s.done[s.calls[c].req.Key()].value), s.clock)
    case MissDone(c) => AtLive(s.calls[c].req)
    case HitLive(c) => Returned(s.calls[c].req, Served(s.live[s.calls[c].req.Key()].value), s.clock)
    case MissLive(c) => AtDoor(s.calls[c].req)
    case Join(c) => InFlight(s.calls[c].req, s.open[s.calls[c].req.Key()])
    case Lead(c) => InFlight(s.calls[c].req, |s.flights|)
    case Return(c) =>
      var fl := s.flights[s.calls[c].flight];
      Returned(s.calls[c].req, fl.outcome, fl.gotAt)
  }

  /** Only Lead does more than move its call: it opens a flight. */
  function ActCall(s: State, t: CallStep): State
    requires CallEnabled(s, t)
  {
    s.(calls := s.calls[t.c := MovedCall(s, t)],
       open := if t.Lead? then s.open[s.calls[t.c].req.Key() := |s.flights|] else s.open,
       flights := if t.Lead? then s.flights + [NewFlight(s.calls[t.c].req, |s.flights|, s.events)] else s.flights)
  }

  // ---------- Steps of the function a flight's leader runs ----------

  datatype FlightStep =
    | RecheckHitDone(f: nat)
    | RecheckMissDone(f: nat)
    | RecheckHitLive(f: nat)
    | RecheckMissLive(f: nat)
    | BeginFetch(f: nat)
    | EndFetch(f: nat, body: Log)
    | EndFetchLarge(f: nat, body: Log)
    | FetchError(f: nat)
    | ReadMarker(f: nat)
    | StoreDone(f: nat)
    | StoreLive(f: nat)
    | Publish(f: nat)

  /** A streamed body is some prefix of the log, with at least what the log held when the call began. */
  predicate Answer(s: State, fl: Flight, body: Log) {
    && fl.req.Ref() in s.jobs
    && fl.logAtBegin <= body <= s.jobs[fl.req.Ref()].log
  }

  predicate FlightEnabled(s: State, t: FlightStep) {
    && t.f < |s.flights|
    && var fl := s.flights[t.f];
       match t
       case RecheckHitDone(_) => fl.stage == CheckingDone && Visible(s.done, fl.key, s.clock)
       case RecheckMissDone(_) => fl.stage == CheckingDone && !Visible(s.done, fl.key, s.clock)
       case RecheckHitLive(_) => fl.stage == CheckingLive && Visible(s.live, fl.key, s.clock)
       case RecheckMissLive(_) => fl.stage == CheckingLive && !Visible(s.live, fl.key, s.clock)
       case BeginFetch(_) => fl.stage == Calling
       case EndFetch(_, body) => fl.stage == Fetching && Answer(s, fl, body) && Cacheable(BoundedRead(body))
       case EndFetchLarge(_, body) =>
         fl.stage == Fetching && Answer(s, fl, body) && !Cacheable(BoundedRead(body))
       case FetchError(_) => fl.stage == Fetching
       case ReadMarker(_) => fl.stage == ReadingMarker
       case StoreDone(_) => fl.stage == Storing && fl.terminal && fl.outcome.Delivered?
       case StoreLive(_) => fl.stage == Storing && !fl.terminal && fl.outcome.Delivered?
       case Publish(_) => fl.stage == Publishing
  }

  /** The flight after its step. */
  function MovedFlight(s: State, t: FlightStep): Flight
    requires FlightEnabled(s, t)
  {
    var fl := s.flights[t.f];
    match t
    case RecheckHitDone(_) => fl.(stage := Publishing, outcome := Served(s.done[fl.key].value), gotAt := s.clock)
    case RecheckMissDone(_) => fl.(stage := CheckingLive, removedAtMiss := s.history.removed[fl.key])
    case RecheckHitLive(_) => fl.(stage := Publishing, outcome := Served(s.live[fl.key].value), gotAt := s.clock)
    case RecheckMissLive(_) => fl.(stage := Calling)
    case BeginFetch(_) =>
      var ref := fl.req.Ref();
      fl.(stage := Fetching, called := true,
          logAtBegin := if ref in s.jobs then s.jobs[ref].log else [],
          terminalAtBegin := Terminal(s.jobs, ref),
          beganAt := s.events,
          calledAt := s.clock)
    case EndFetch(f, body) =>
      fl.(stage := ReadingMarker, outcome := Delivered(BoundedRead(body), f), gotAt := s.clock)
    case EndFetchLarge(f, body) =>
      fl.(stage := Publishing, outcome := Delivered(BoundedRead(body), f), gotAt := s.clock)
    case FetchError(f) => fl.(stage := Publishing, outcome := Failed(f), gotAt := s.clock)
    case ReadMarker(_) =>
      fl.(stage := Storing,
          terminal := Visible(s.markers, fl.req.Marker(), s.clock),
          readAt := s.clock,
          marksSeen := |s.marks|,
          lostSeen := s.marksLost)
    case StoreDone(_) =>
      fl.(stage := Publishing, kept := KeptDone, storedAt := s.clock, removedAtStore := s.history.removed[fl.key])
    case StoreLive(_) => fl.(stage := Publishing, kept := KeptLive, storedAt := s.clock)
    case Publish(_) => fl.(stage := Closed, closedAt := s.events)
  }

  /** A tier after flight f stores its trace in it. */
  function Stores(s: State, tier: Tier<Stored>, ttl: nat, f: nat): Tier<Stored>
    requires f < |s.flights| && s.flights[f].outcome.Delivered?
  {
    tier[s.flights[f].key := Entry(Stored(s.flights[f].outcome.trace, f, s.events), s.clock + ttl)]
  }

  function CountedFetch(h: History, t: FlightStep, key: string): History {
    match t
    case BeginFetch(_) => h.(calls := h.calls + multiset{key})
    case EndFetchLarge(_, _) => h.(uncached := h.uncached + multiset{key})
    case FetchError(_) => h.(errors := h.errors + multiset{key})
    case StoreDone(_) => h.(stores := h.stores + multiset{key})
    case StoreLive(_) => h.(stores := h.stores + multiset{key})
    case _ => h
  }

  function ActFlight(s: State, t: FlightStep): State
    requires FlightEnabled(s, t)
  {
    s.(flights := s.flights[t.f := MovedFlight(s, t)],
       done := if t.StoreDone? then Stores(s, s.done, TRACE_DONE_TTL, t.f) else s.done,
       live := if t.StoreLive? then Stores(s, s.live, TRACE_LIVE_TTL, t.f) else s.live,
       open := if t.Publish? then s.open - {s.flights[t.f].key} else s.open,
       history := CountedFetch(s.history, t, s.flights[t.f].key))
  }

  // ---------- Steps of the world around ----------

  datatype WorldStep =
    | Tick(d: nat)
    | Progress(ref: JobRef, job: Job)
    | Mark(ref: JobRef)
    | EvictDone(key: string)
    | EvictLive(key: string)
    | EvictMarker(key: string)

  predicate WorldEnabled(s: State, t: WorldStep) {
    match t
    case Tick(_) => true
    // The job takes a step of its life cycle, and its log only grows.
    case Progress(ref, job) =>
      ref in s.jobs ==> CanFollow(s.jobs[ref].status, job.status) && s.jobs[ref].log <= job.log
    // A listing reported the job as finished. It may have looked earlier: a finished job stays finished.
    case Mark(ref) => Terminal(s.jobs, ref)
    case EvictDone(key) => key in s.done
    case EvictLive(key) => key in s.live
    case EvictMarker(key) => key in s.markers
  }

  /** The keys whose entries a clock advance makes invisible. */
  function Expiring(tier: Tier<Stored>, from: nat, to: nat): set<string> {
    set k | k in tier && Visible(tier, k, from) && !Visible(tier, k, to)
  }

  /** The removals to count when a key leaves a tier: losing an entry nobody could see does not count. */
  function Losing(tier: Tier<Stored>, key: string, clock: nat): multiset<string> {
    if Visible(tier, key, clock) then multiset{key} else multiset{}
  }

  function DropDone(s: State, key: string): State {
    s.(done := s.done - {key},
       history := s.history.(removed := s.history.removed + Losing(s.done, key, s.clock)))
  }

  function DropLive(s: State, key: string): State {
    s.(live := s.live - {key},
       history := s.history.(removed := s.history.removed + Losing(s.live, key, s.clock)))
  }

  /** The markings that set this marker. */
  function MarksOf(marks: seq<Marking>, key: string): set<nat> {
    set m: nat | m < |marks| && marks[m].key == key
  }

  function ActWorld(s: State, t: WorldStep): State
    requires WorldEnabled(s, t)
  {
    match t
    case Tick(d) =>
      s.(clock := s.clock + d,
         history := s.history.(expired := s.history.expired
                               + multiset(Expiring(s.done, s.clock, s.clock + d))
                               + multiset(Expiring(s.live, s.clock, s.clock + d))))
    case Progress(ref, job) => s.(jobs := s.jobs[ref := job])
    case Mark(ref) =>
      var key := TerminalJobKey(ref.server, Itoa(ref.id));
      s.(markers := s.markers[key := Entry(true, s.clock + TERMINAL_JOBS_TTL)],
         marks := s.marks + [Marking(key, s.clock)])
    case EvictDone(key) => DropDone(s, key)
    case EvictLive(key) => DropLive(s, key)
    case EvictMarker(key) =>
      s.(markers := s.markers - {key}, marksLost := s.marksLost + MarksOf(s.marks, key))
  }

  // ---------- Steps of Invalidate ----------

  datatype InvalidateStep =
    | BeginInvalidate
    | ScanDoneShard(i: nat)
    | ScanLiveShard(i: nat)
    | DeleteDone(i: nat, key: string)
    | DeleteLive(i: nat, key: string)
    | NextPhase(i: nat)

  predicate InvalidateEnabled(s: State, t: InvalidateStep) {
    if t.BeginInvalidate? then true
    else
      && t.i < |s.invalidations|
      && var phase := s.invalidations[t.i].phase;
         match t
         case ScanDoneShard(_) => phase.ScanningDone? && phase.shard < TRACE_SHARDS
         case ScanLiveShard(_) => phase.ScanningLive? && phase.shard < TRACE_SHARDS
         case DeleteDone(_, key) => phase.DeletingDone? && key in phase.keys
         case DeleteLive(_, key) => phase.DeletingLive? && key in phase.keys
         case NextPhase(_) => PhaseComplete(phase)
  }

  predicate PhaseComplete(phase: Phase) {
    match phase
    case ScanningDone(shard, _) => shard == TRACE_SHARDS
    case DeletingDone(keys) => keys == {}
    case ScanningLive(shard, _) => shard == TRACE_SHARDS
    case DeletingLive(keys) => keys == {}
    case Over => false
  }

  function PhaseAfter(phase: Phase): Phase {
    match phase
    case ScanningDone(_, keys) => DeletingDone(keys)
    case DeletingDone(_) => ScanningLive(0, {})
    case ScanningLive(_, keys) => DeletingLive(keys)
    case DeletingLive(_) => Over
    case Over => Over
  }

  function SetPhase(s: State, i: nat, phase: Phase): State
    requires i < |s.invalidations|
  {
    s.(invalidations := s.invalidations[i := s.invalidations[i].(phase := phase)])
  }

  /** A scan skips what has expired. */
  ghost function SeenInShard(tier: Tier<Stored>, shard: nat, clock: nat): set<string> {
    set k | k in tier && Visible(tier, k, clock) && ShardOf(k) == shard
  }

  ghost function ActInvalidate(s: State, t: InvalidateStep): State
    requires InvalidateEnabled(s, t)
  {
    match t
    case BeginInvalidate =>
      s.(invalidations := s.invalidations + [Invalidation(s.events, ScanningDone(0, {}))])
    case ScanDoneShard(i) =>
      var p := s.invalidations[i].phase;
      SetPhase(s, i, ScanningDone(p.shard + 1, p.keys + SeenInShard(s.done, p.shard, s.clock)))
    case ScanLiveShard(i) =>
      var p := s.invalidations[i].phase;
      SetPhase(s, i, ScanningLive(p.shard + 1, p.keys + SeenInShard(s.live, p.shard, s.clock)))
    case DeleteDone(i, key) =>
      DropDone(SetPhase(s, i, DeletingDone(s.invalidations[i].phase.keys - {key})), key)
    case DeleteLive(i, key) =>
      DropLive(SetPhase(s, i, DeletingLive(s.invalidations[i].phase.keys - {key})), key)
    case NextPhase(i) => SetPhase(s, i, PhaseAfter(s.invalidations[i].phase))
  }

  // ---------- Runs ----------

  datatype Step =
    | OfCall(call: CallStep)
    | OfFlight(flight: FlightStep)
    | OfWorld(world: WorldStep)
    | OfInvalidate(invalidate: InvalidateStep)

  predicate Enabled(s: State, t: Step) {
    match t
    case OfCall(u) => CallEnabled(s, u)
    case OfFlight(u) => FlightEnabled(s, u)
    case OfWorld(u) => WorldEnabled(s, u)
    case OfInvalidate(u) => InvalidateEnabled(s, u)
  }

  function Counted(s: State): State {
    s.(events := s.events + 1)
  }

  ghost function Apply(s: State, t: Step): State
    requires Enabled(s, t)
  {
    match t
    case OfCall(u) => Counted(ActCall(s, u))
    case OfFlight(u) => Counted(ActFlight(s, u))
    case OfWorld(u) => Counted(ActWorld(s, u))
    case OfInvalidate(u) => Counted(ActInvalidate(s, u))
  }

  ghost predicate Run(s: State, steps: seq<Step>, s': State)
    decreases |steps|
  {
    if steps == [] then s' == s
    else Enabled(s, steps[0]) && Run(Apply(s, steps[0]), steps[1..], s')
  }
}

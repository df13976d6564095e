/** One listing that meets no other: the method as it runs over a cache object, and that it is a run of the
    step machine. */
module ListService {
  import opened Wrappers
  import opened Keys
  import opened Tiers
  import opened CacheClients
  import opened ListCaching

  /** What such a listing does: the entry it may be served at `now`, or a fetch that hears the provider at
      `saidAt` and ends at `end`. */
  function SoloListing(tier: Tier<Timed<Response>>, m: Times, p: Provider, r: ListRequest,
                       now: nat, saidAt: nat, end: nat)
    : (Result<Response, string>, Tier<Timed<Response>>)
  {
    if Servable(tier, r.Key(), now, m.sync) then (Ok(tier[r.Key()].value.item), tier)
    else
      match p(saidAt, r)
      case Ok(v) => (Ok(v), tier[r.Key() := Entry(Timed(v, end), end + m.ttl)])
      case Err(e) => (Err(e), tier)
  }

  /** An entry that has not expired but is too old to be served stays when the fetch for it fails. */
  method ListThroughCache(client: Client<Timed<Response>>, m: Times, p: Provider, r: ListRequest,
                          now: nat, saidAt: nat, end: nat)
    returns (res: Result<Response, string>)
    requires now <= saidAt <= end && client.ttl == m.ttl
    modifies client`entries
    ensures (res, client.entries) == SoloListing(old(client.entries), m, p, r, now, saidAt, end)
  {
    var cached := client.Get(r.Key(), now);
    if cached.Some? && now <= cached.value.storedAt + m.sync {
      return Ok(cached.value.item);
    }
    res := p(saidAt, r);
    if res.Ok? {
      client.Set(r.Key(), Timed(res.value, end), end);
    }
  }

  /** The tier without the notes on where its entries came from. */
  function Plain(tier: Tier<Timed<Listed>>): Tier<Timed<Response>> {
    map k | k in tier :: Entry(Timed(tier[k].value.item.value, tier[k].value.storedAt), tier[k].expiresAt)
  }

  /** It has missed and leads its fetch. */
  lemma SoloBegun(s: Service, c: nat, p: Provider, r: ListRequest, m: Times) returns (s': Service, steps: seq<Step>)
    requires c !in s.calls && r.Key() !in s.inFlight && !Servable(s.tier, r.Key(), s.clock, m.sync)
    ensures Run(s, steps, s', p, m)
    ensures s' == s.(fetches := s.fetches + [Fetch(r, s.clock, false)],
                     inFlight := s.inFlight[r.Key() := |s.fetches|],
                     calls := s.calls[c := Waiting(r, |s.fetches|)])
  {
    var none: seq<Step> := [];
    assert Run(s, none, s, p, m);
    var s1 := Act(s, Miss(c, r), p, m);
    RunSnoc(s, none, s, Miss(c, r), p, m);
    s' := Act(s1, Lead(c), p, m);
    steps := none + [Miss(c, r)] + [Lead(c)];
    RunSnoc(s, none + [Miss(c, r)], s1, Lead(c), p, m);
    assert s'.calls == s.calls[c := Waiting(r, |s.fetches|)];
  }

  lemma SoloFetch(s: Service, c: nat, p: Provider, r: ListRequest, m: Times, saidAt: nat, end: nat)
    returns (s': Service, steps: seq<Step>)
    requires c !in s.calls && r.Key() !in s.inFlight && s.clock <= saidAt <= end <= s.clock + m.limit
    requires !Servable(s.tier, r.Key(), s.clock, m.sync)
    ensures Run(s, steps, s', p, m)
    ensures c in s'.calls && s'.calls[c].Answered? && s'.calls[c].answer == p(saidAt, r)
    ensures s'.tier == match p(saidAt, r)
                       case Ok(v) => s.tier[r.Key() := Entry(Timed(Listed(v, |s.fetches|, saidAt), end), end + m.ttl)]
                       case Err(_) => s.tier
  {
    var wait, stop := Wait(end - s.clock), End(|s.fetches|, saidAt);
    var s1, begun := SoloBegun(s, c, p, r, m);
    var s2 := Act(s1, wait, p, m);
    RunSnoc(s, begun, s1, wait, p, m);
    s' := Act(s2, stop, p, m);
    steps := begun + [wait] + [stop];
    RunSnoc(s, begun + [wait], s2, stop, p, m);
  }

  lemma SoloHit(s: Service, c: nat, p: Provider, r: ListRequest, m: Times) returns (s': Service, steps: seq<Step>)
    requires c !in s.calls && Servable(s.tier, r.Key(), s.clock, m.sync)
    ensures Run(s, steps, s', p, m) && s'.tier == s.tier
    ensures c in s'.calls && s'.calls[c].Answered?
    ensures s'.calls[c].answer == Ok(s.tier[r.Key()].value.item.value)
  {
    var none: seq<Step> := [];
    assert Run(s, none, s, p, m);
    s' := Act(s, Hit(c, r, false), p, m);
    steps := none + [Hit(c, r, false)];
    RunSnoc(s, none, s, Hit(c, r, false), p, m);
  }

  /** Such a listing is a run of the machine: it hits, or misses and leads a fetch that takes until `end`. */
  lemma SoloRun(s: Service, c: nat, p: Provider, r: ListRequest, m: Times, saidAt: nat, end: nat)
    returns (s': Service, steps: seq<Step>)
    requires c !in s.calls && r.Key() !in s.inFlight && s.clock <= saidAt <= end <= s.clock + m.limit
    ensures Run(s, steps, s', p, m)
    ensures c in s'.calls && s'.calls[c].Answered?
    ensures (s'.calls[c].answer, Plain(s'.tier)) == SoloListing(Plain(s.tier), m, p, r, s.clock, saidAt, end)
  {
    if Servable(s.tier, r.Key(), s.clock, m.sync) {
      s', steps := SoloHit(s, c, p, r, m);
    } else {
      s', steps := SoloFetch(s, c, p, r, m, saidAt, end);
      assert Plain(s'.tier) == SoloListing(Plain(s.tier), m, p, r, s.clock, saidAt, end).1;
    }
  }
}

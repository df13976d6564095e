/** The caches as the objects they are: one client, the two-tier trace cache, and the manager of all. */
module CacheClients {
  import opened Wrappers
  import opened Tiers

  /** A cache client. Its entries expire by themselves; reading the clock is a parameter here. */
  class Client<V(==)> {
    const ttl: nat
    var entries: Tier<V>

    constructor (ttl: nat)
      ensures this.ttl == ttl && entries == map[]
    {
      this.ttl := ttl;
      entries := map[];
    }

    method Get(key: string, now: nat) returns (r: Option<V>)
      ensures r == Lookup(entries, key, now)
    {
      r := if key in entries && now <= entries[key].expiresAt then Some(entries[key].value) else None;
    }

    method Set(key: string, value: V, now: nat)
      modifies this`entries
      ensures entries == old(entries)[key := Entry(value, now + ttl)]
    {
      entries := entries[key := Entry(value, now + ttl)];
    }

    method Delete(key: string)
      modifies this`entries
      ensures entries == old(entries) - {key}
    {
      entries := entries - {key};
    }

    /** The keys of the entries that have not expired, in no particular order, each once. */
    method ScanKeys(now: nat) returns (keys: seq<string>)
      ensures forall k :: k in keys <==> Visible(entries, k, now)
      ensures forall i, j :: 0 <= i < j < |keys| ==> keys[i] != keys[j]
    {
      keys := [];
      var rest := entries.Keys;
      while rest != {}
        invariant rest <= entries.Keys
        invariant forall k :: k in keys <==> k !in rest && Visible(entries, k, now)
        invariant forall i, j :: 0 <= i < j < |keys| ==> keys[i] != keys[j]
        decreases |rest|
      {
        var k :| k in rest;
        rest := rest - {k};
        if now <= entries[k].expiresAt {
          keys := keys + [k];
        }
      }
    }
  }

  /** What scanning and then deleting leaves of a tier: what had expired already. */
  ghost function Cleared<V>(tier: Tier<V>, now: nat): Tier<V> {
    map k | k in tier && !Visible(tier, k, now) :: tier[k]
  }

  ghost function ClearedIf<V>(cleared: bool, tier: Tier<V>, now: nat): Tier<V> {
    if cleared then Cleared(tier, now) else tier
  }

  /** To every reader a cleared tier is empty, now and later. */
  lemma ClearedIsEmpty<V>(tier: Tier<V>, key: string, now: nat, later: nat)
    requires now <= later
    ensures Lookup(Cleared(tier, now), key, later) == None
  {
  }

  ghost function KeySet(keys: seq<string>): set<string> {
    set k | k in keys
  }

  /** The loop over the scanned keys. */
  method Clear<V(==)>(c: Client<V>, now: nat)
    modifies c`entries
    ensures c.entries == Cleared(old(c.entries), now)
  {
    var keys := c.ScanKeys(now);
    for i := 0 to |keys|
      invariant c.entries == old(c.entries) - KeySet(keys[..i])
    {
      c.Delete(keys[i]);
      assert KeySet(keys[..i + 1]) == KeySet(keys[..i]) + {keys[i]};
    }
    assert keys[..|keys|] == keys;
  }

  /** The short-lived live tier and the long-lived done tier. */
  class TerminalAwareCache<V(==)> {
    const live: Client<V>
    const done: Client<V>

    constructor (live: Client<V>, done: Client<V>)
      ensures this.live == live && this.done == done
    {
      this.live := live;
      this.done := done;
    }

    ghost function Serves(key: string, now: nat): Option<V>
      reads live, done
    {
      if Visible(done.entries, key, now) then Some(done.entries[key].value) else Lookup(live.entries, key, now)
    }

    /** Done first: an entry of the done tier is served whatever the live tier holds. */
    method Get(key: string, now: nat) returns (r: Option<V>)
      ensures r == Serves(key, now)
    {
      r := done.Get(key, now);
      if r.None? {
        r := live.Get(key, now);
      }
    }

    /** What is set is served for the tier's time, unless a done entry shadows a live one. */
    method Set(key: string, value: V, terminal: bool, now: nat)
      requires live != done
      modifies live`entries, done`entries
      ensures done.entries ==
              if terminal then old(done.entries)[key := Entry(value, now + done.ttl)] else old(done.entries)
      ensures live.entries ==
              if terminal then old(live.entries) else old(live.entries)[key := Entry(value, now + live.ttl)]
      ensures terminal || !Visible(old(done.entries), key, now) ==> Serves(key, now) == Some(value)
      ensures !terminal && Visible(old(done.entries), key, now) ==>
                Serves(key, now) == Some(old(done.entries)[key].value)
    {
      if terminal {
        done.Set(key, value, now);
        return;
      }
      live.Set(key, value, now);
    }

    /** Afterwards no key is served, now or later. */
    method Invalidate(now: nat)
      requires live != done
      modifies live`entries, done`entries
      ensures done.entries == Cleared(old(done.entries), now) && live.entries == Cleared(old(live.entries), now)
      ensures forall key: string, later: nat :: now <= later ==> Serves(key, later) == None
    {
      Clear(done, now);
      Clear(live, now);
      forall key: string, later: nat | now <= later
        ensures Serves(key, later) == None
      {
        ClearedIsEmpty(old(done.entries), key, now, later);
        ClearedIsEmpty(old(live.entries), key, now, later);
      }
    }
  }

  /** All caches of the service, by the endpoint they serve. */
  class Manager<V(==)> {
    const repositories: Client<V>
    const organizations: Client<V>
    const branches: Client<V>
    const pullRequests: Client<V>
    const pipelines: Client<V>
    const pipelineJobs: Client<V>
    const trace: TerminalAwareCache<V>

    constructor (repositories: Client<V>, organizations: Client<V>, branches: Client<V>, pullRequests: Client<V>,
                 pipelines: Client<V>, pipelineJobs: Client<V>, trace: TerminalAwareCache<V>)
      ensures this.repositories == repositories && this.organizations == organizations
      ensures this.branches == branches && this.pullRequests == pullRequests
      ensures this.pipelines == pipelines && this.pipelineJobs == pipelineJobs && this.trace == trace
    {
      this.repositories := repositories;
      this.organizations := organizations;
      this.branches := branches;
      this.pullRequests := pullRequests;
      this.pipelines := pipelines;
      this.pipelineJobs := pipelineJobs;
      this.trace := trace;
    }

    /** Every client, in a fixed order. */
    ghost function Clients(): seq<Client<V>> {
      [repositories, organizations, branches, pullRequests, pipelines, pipelineJobs, trace.done, trace.live]
    }

    /** No two caches are the same object. */
    ghost predicate Separate() {
      forall i, j :: 0 <= i < j < 8 ==> Clients()[i] != Clients()[j]
    }

    /** Clears exactly the caches of the endpoint; an unknown endpoint is an error and clears nothing. */
    method InvalidateCache(endpoint: string, now: nat) returns (r: Result<(), string>)
      requires Separate()
      modifies Clients()
      ensures r.Ok? <==> endpoint in {"repositories", "organizations", "branches", "pullrequests", "pipelines"}
      ensures repositories.entries == ClearedIf(endpoint == "repositories", old(repositories.entries), now)
      ensures organizations.entries == ClearedIf(endpoint == "organizations", old(organizations.entries), now)
      ensures branches.entries == ClearedIf(endpoint == "branches", old(branches.entries), now)
      ensures pullRequests.entries == ClearedIf(endpoint == "pullrequests", old(pullRequests.entries), now)
      ensures pipelines.entries == ClearedIf(endpoint == "pipelines", old(pipelines.entries), now)
      ensures pipelineJobs.entries == ClearedIf(endpoint == "pipelines", old(pipelineJobs.entries), now)
      ensures trace.done.entries == ClearedIf(endpoint == "pipelines", old(trace.done.entries), now)
      ensures trace.live.entries == ClearedIf(endpoint == "pipelines", old(trace.live.entries), now)
    {
      assert repositories == Clients()[0] && organizations == Clients()[1] && branches == Clients()[2];
      assert pullRequests == Clients()[3] && pipelines == Clients()[4] && pipelineJobs == Clients()[5];
      assert trace.done == Clients()[6] && trace.live == Clients()[7];
      if endpoint == "repositories" {
        Clear(repositories, now);
      } else if endpoint == "organizations" {
        Clear(organizations, now);
      } else if endpoint == "branches" {
        Clear(branches, now);
      } else if endpoint == "pullrequests" {
        Clear(pullRequests, now);
      } else if endpoint == "pipelines" {
        Clear(pipelines, now);
        Clear(pipelineJobs, now);
        trace.Invalidate(now);
      } else {
        return Err("unsupported endpoint: " + endpoint);
      }
      r := Ok(());
    }
  }
}

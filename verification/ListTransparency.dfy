/** Whose answer a cached list is: what keys that two requests share do, and the two listings of the service. */
module ListTransparency {
  import opened Wrappers
  import opened Decimal
  import opened Keys
  import opened ListCaching

  // ---------- What key collisions would do ----------

  predicate Readable(r: ListRequest) {
    r.OuterPipeFree() && IsInt64(r.page) && IsInt64(r.perPage)
  }

  /** Every request fetched so far is one whose key can be read back. */
  ghost predicate AllReadable(s: Service) {
    forall f :: 0 <= f < |s.fetches| ==> Readable(s.fetches[f].r)
  }

  ghost predicate Frozen(p: Provider) {
    forall t: nat, u: nat, r: ListRequest :: p(t, r) == p(u, r)
  }

  /** Over a frozen provider, whatever happens, readable requests are answered as direct calls would be. */
  lemma CacheTransparent(s: Service, c: nat, p: Provider, m: Times)
    requires Reachable(s, p, m) && AllReadable(s) && Frozen(p)
    requires c in s.calls && s.calls[c].Answered? && Readable(s.calls[c].r)
    ensures s.calls[c].answer == p(0, s.calls[c].r)
  {
    var r := s.calls[c].r;
    forall f | 0 <= f < |s.fetches| && s.fetches[f].r.Key() == r.Key()
      ensures s.fetches[f].r == r
    {
      DecodeListOfKey(s.fetches[f].r);
      DecodeListOfKey(r);
    }
    BoundedStaleness(s, c, p, m);
  }

  /** The service asks 64-bit pages only. */
  ghost predicate Asked64(s: Service) {
    forall f :: 0 <= f < |s.fetches| ==> IsInt64(s.fetches[f].r.page) && IsInt64(s.fetches[f].r.perPage)
  }

  /** Whatever else is asked for, a listing of r is answered as a direct call would be. */
  ghost predicate AlwaysDirect(r: ListRequest, m: Times) {
    forall s: Service, p: Provider, c: nat ::
      Reachable(s, p, m) && Frozen(p) && Asked64(s)
      && c in s.calls && s.calls[c].Answered? && s.calls[c].r == r
      ==> s.calls[c].answer == p(0, r)
  }

  /** Exactly which requests can never get another request's answer: those without a separator in any of
      their four texts. */
  lemma AlwaysDirectIff(r: ListRequest, m: Times)
    requires IsInt64(r.page) && IsInt64(r.perPage)
    ensures AlwaysDirect(r, m) <==> r.AllPipeFree()
  {
    if r.AllPipeFree() {
      forall s: Service, p: Provider, c: nat |
        Reachable(s, p, m) && Frozen(p) && Asked64(s)
        && c in s.calls && s.calls[c].Answered? && s.calls[c].r == r
        ensures s.calls[c].answer == p(0, r)
      {
        forall f | 0 <= f < |s.fetches| && s.fetches[f].r.Key() == r.Key()
          ensures s.fetches[f].r == r
        {
          PipeFreeOwnsKey(r, s.fetches[f].r);
        }
        BoundedStaleness(s, c, p, m);
      }
    } else {
      var q := KeyRival(r);
      var p: Provider := (t, x) => if x == q then Ok("rival") else Ok("own");
      assert Frozen(p);
      var s := WrongAnswer(p, q, r, m);
    }
  }

  /** After the rival was listed, r is answered with the rival's list. */
  lemma WrongAnswer(p: Provider, q: ListRequest, r: ListRequest, m: Times) returns (s: Service)
    requires q.Key() == r.Key() && p(0, q).Ok?
    ensures Reachable(s, p, m) && s.fetches == [Fetch(q, 0, true)]
    ensures 1 in s.calls && s.calls[1] == Answered(r, p(0, q), 0, 0, 0)
  {
    var s1 := FirstFetched(p, q, m, 0);
    s := ReachableStep(s1, Hit(1, r, false), p, m);
  }

  // ---------- The two listings ----------

  /** A pipeline listing. The API passes no empty ref. */
  datatype PipelineListing = PipelineListing(server: string, project: string, ref: Option<string>,
                                             status: Option<string>, page: int, perPage: int)
  {
    /** The key reads an absent filter as an empty one. */
    function Request(): ListRequest {
      ListRequest(server, project, ref.GetOr(""), status.GetOr(""), page, perPage)
    }
    predicate FromApi() {
      ref != Some("")
    }
  }

  function Given(s: string): Option<string> {
    if s == "" then None else Some(s)
  }

  /** The listing a request of this shape stands for. */
  function AsPipelines(r: ListRequest): PipelineListing {
    PipelineListing(r.a, r.b, Given(r.c), Given(r.d), r.page, r.perPage)
  }

  type Pipelines = (nat, PipelineListing) -> Result<Response, string>

  function OfPipelines(say: Pipelines): Provider {
    (t: nat, r: ListRequest) => say(t, AsPipelines(r))
  }

  /** A frozen provider to which an empty status is no status, as it is to all three. */
  ghost predicate FrozenPipelines(say: Pipelines) {
    && (forall t: nat, u: nat, l: PipelineListing :: say(t, l) == say(u, l))
    && (forall t: nat, l: PipelineListing :: l.status == Some("") ==> say(t, l) == say(t, l.(status := None)))
  }

  /** Over it a pipeline listing with a separator-free server, project and status and any ref is answered as
      a direct call would be, if those fetched before it were of this kind as well. */
  lemma PipelinesTransparent(s: Service, c: nat, say: Pipelines, l: PipelineListing, m: Times)
    requires FrozenPipelines(say) && Reachable(s, OfPipelines(say), m) && AllReadable(s)
    requires l.FromApi() && PipeFree(l.server) && PipeFree(l.project) && (l.status.Some? ==> PipeFree(l.status.value))
    requires IsInt64(l.page) && IsInt64(l.perPage)
    requires c in s.calls && s.calls[c].Answered? && s.calls[c].r == l.Request()
    ensures s.calls[c].answer == say(0, l)
  {
    var p := OfPipelines(say);
    forall t: nat, u: nat, r: ListRequest
      ensures p(t, r) == p(u, r)
    {
      assert say(t, AsPipelines(r)) == say(u, AsPipelines(r));
    }
    CacheTransparent(s, c, p, m);
    assert AsPipelines(l.Request()) == if l.status == Some("") then l.(status := None) else l;
  }

  /** A pull request listing. */
  datatype PullRequestListing = PullRequestListing(server: string, owner: string, repo: string, state: string,
                                                   page: int, perPage: int)
  {
    /** The same key shape: the repository is the third text, the state the last. */
    function Request(): ListRequest {
      ListRequest(server, owner, repo, state, page, perPage)
    }
  }

  function AsPullRequests(r: ListRequest): PullRequestListing {
    PullRequestListing(r.a, r.b, r.c, r.d, r.page, r.perPage)
  }

  type PullRequests = (nat, PullRequestListing) -> Result<Response, string>

  function OfPullRequests(say: PullRequests): Provider {
    (t: nat, r: ListRequest) => say(t, AsPullRequests(r))
  }

  /** A pull request listing with a separator-free server, owner and state and any repository likewise. */
  lemma PullRequestsTransparent(s: Service, c: nat, say: PullRequests, l: PullRequestListing, m: Times)
    requires forall t: nat, u: nat, x: PullRequestListing :: say(t, x) == say(u, x)
    requires Reachable(s, OfPullRequests(say), m) && AllReadable(s)
    requires PipeFree(l.server) && PipeFree(l.owner) && PipeFree(l.state) && IsInt64(l.page) && IsInt64(l.perPage)
    requires c in s.calls && s.calls[c].Answered? && s.calls[c].r == l.Request()
    ensures s.calls[c].answer == say(0, l)
  {
    var p := OfPullRequests(say);
    forall t: nat, u: nat, r: ListRequest
      ensures p(t, r) == p(u, r)
    {
      assert say(t, AsPullRequests(r)) == say(u, AsPullRequests(r));
    }
    CacheTransparent(s, c, p, m);
    assert AsPullRequests(l.Request()) == l;
  }
}

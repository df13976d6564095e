/**
 Push-style iterators. A scan hands its consumer one event after another until the consumer refuses to go
 on. A consumer is an object: what it remembers, and what it does with an event and answers.
 */
module Iterators {
  import opened Wrappers
  import opened Pagination

  /** What is yielded: an item without an error, or an error without an item. */
  datatype Event<+T> = Item(value: T) | Failure(error: string)

  /** How a consumer in state s takes an event: its next state, and whether it wants more. */
  type Step<!S, !T> = (S, Event<T>) -> (S, bool)

  class Consumer<S, T> {
    const step: Step<S, T>
    var state: S
    ghost var seen: seq<Event<T>>

    constructor (step: Step<S, T>, state: S)
      ensures this.step == step && this.state == state && seen == []
    {
      this.step := step;
      this.state := state;
      seen := [];
    }

    method Yield(e: Event<T>) returns (more: bool)
      modifies this
      ensures (state, more) == step(old(state), e)
      ensures seen == old(seen) + [e]
    {
      var (next, answer) := step(state, e);
      state, more := next, answer;
      seen := seen + [e];
    }
  }

  // ---------- What a consumer makes of a sequence of events ----------

  datatype Fed<+S> = Fed(state: S, consumed: nat, stopped: bool)

  /** Feeds the events one by one until the consumer stops. */
  function Feed<S, T>(step: Step<S, T>, s: S, events: seq<Event<T>>): (r: Fed<S>)
    ensures r.consumed <= |events| && (!r.stopped ==> r.consumed == |events|)
  {
    if events == [] then Fed(s, 0, false)
    else
      var (next, more) := step(s, events[0]);
      if !more then Fed(next, 1, true)
      else
        var r := Feed(step, next, events[1..]);
        Fed(r.state, r.consumed + 1, r.stopped)
  }

  lemma {:induction false} FeedConcat<S, T>(step: Step<S, T>, s: S, a: seq<Event<T>>, b: seq<Event<T>>)
    ensures var r := Feed(step, s, a);
            Feed(step, s, a + b) ==
            if r.stopped then r
            else var q := Feed(step, r.state, b); Fed(q.state, |a| + q.consumed, q.stopped)
  {
    if a == [] {
      assert a + b == b;
    } else {
      assert (a + b)[1..] == a[1..] + b;
      FeedConcat(step, step(s, a[0]).0, a[1..], b);
    }
  }

  lemma FeedSnoc<S, T>(step: Step<S, T>, s: S, a: seq<Event<T>>, e: Event<T>)
    requires !Feed(step, s, a).stopped
    ensures var (next, more) := step(Feed(step, s, a).state, e);
            Feed(step, s, a + [e]) == Fed(next, |a| + 1, !more)
  {
    FeedConcat(step, s, a, [e]);
    assert [e][1..] == [];
  }

  // ---------- Chains of pages ----------

  /** What fetching a page leads to: the events to yield, and the page to turn to, if any. */
  datatype Answer<+T> = Answer(events: seq<Event<T>>, next: Option<int>)

  /** A stateless provider: its answer for every page number; a page it does not know fails. */
  type Chain<+T> = map<int, Answer<T>>

  function At<T>(chain: Chain<T>, page: int): Answer<T> {
    if page in chain then chain[page] else Answer([Failure("no such page")], None)
  }

  /** The chain comes to an end within n pages. */
  predicate Ends<T>(chain: Chain<T>, page: int, n: nat)
    decreases n
  {
    n > 0 && (At(chain, page).next.Some? ==> Ends(chain, At(chain, page).next.value, n - 1))
  }

  /** The answers along the chain. */
  function Trail<T>(chain: Chain<T>, page: int, n: nat): (r: seq<Answer<T>>)
    requires Ends(chain, page, n)
    ensures 0 < |r| <= n
    decreases n
  {
    var a := At(chain, page);
    if a.next.None? then [a] else [a] + Trail(chain, a.next.value, n - 1)
  }

  /** The number of page i of a trail that starts at page `start`. */
  function TrailPage<T>(start: int, trail: seq<Answer<T>>, i: nat): int
    requires i <= |trail|
  {
    if i == 0 || trail[i - 1].next.None? then start else trail[i - 1].next.value
  }

  /** A set of pages that each lead back into it: a cycle, for one. */
  ghost predicate Trap<T>(chain: Chain<T>, pages: set<int>) {
    forall p :: p in pages ==> At(chain, p).next.Some? && At(chain, p).next.value in pages
  }

  lemma {:induction false} TrapsNeverEnd<T>(chain: Chain<T>, pages: set<int>, page: int, n: nat)
    requires page in pages && Trap(chain, pages)
    ensures !Ends(chain, page, n)
    decreases n
  {
    if n > 0 {
      TrapsNeverEnd(chain, pages, At(chain, page).next.value, n - 1);
    }
  }

  ghost predicate NeverEnds<T>(chain: Chain<T>, page: int) {
    forall n: nat :: !Ends(chain, page, n)
  }

  /** A page that never leads to an end leads to another such page that the provider knows. */
  lemma NeverEndsGoesOn<T>(chain: Chain<T>, page: int)
    requires NeverEnds(chain, page)
    ensures page in chain && At(chain, page).next.Some? && NeverEnds(chain, At(chain, page).next.value)
  {
    assert !Ends(chain, page, 1);
    var next := At(chain, page).next.value;
    forall n: nat
      ensures !Ends(chain, next, n)
    {
      assert !Ends(chain, page, n + 1);
    }
  }

  ghost predicate Trapped<T>(chain: Chain<T>, page: int) {
    exists pages: set<int> :: page in pages && Trap(chain, pages)
  }

  /** Exactly which scans do not come to an end by themselves: those that start in a trap. */
  lemma NeverEndsIffTrapped<T>(chain: Chain<T>, page: int)
    ensures NeverEnds(chain, page) <==> Trapped(chain, page)
  {
    if NeverEnds(chain, page) {
      var pages := set p | p in chain && NeverEnds(chain, p);
      forall p | p in pages
        ensures At(chain, p).next.Some? && At(chain, p).next.value in pages
      {
        NeverEndsGoesOn(chain, p);
        NeverEndsGoesOn(chain, At(chain, p).next.value);
      }
      NeverEndsGoesOn(chain, page);
      assert page in pages && Trap(chain, pages);
    } else if Trapped(chain, page) {
      var pages: set<int> :| page in pages && Trap(chain, pages);
      var n: nat :| Ends(chain, page, n);
      TrapsNeverEnd(chain, pages, page, n);
    }
  }

  function Stream<T>(trail: seq<Answer<T>>): seq<Event<T>> {
    if trail == [] then [] else trail[0].events + Stream(trail[1..])
  }

  lemma {:induction false} StreamConcat<T>(a: seq<Answer<T>>, b: seq<Answer<T>>)
    ensures Stream(a + b) == Stream(a) + Stream(b)
  {
    if a == [] {
      assert a + b == b;
    } else {
      assert (a + b)[1..] == a[1..] + b;
      StreamConcat(a[1..], b);
    }
  }

  lemma StreamSnoc<T>(a: seq<Answer<T>>, x: Answer<T>)
    ensures Stream(a + [x]) == Stream(a) + x.events
  {
    StreamConcat(a, [x]);
    assert Stream([x]) == x.events + Stream([]);
  }

  function Items<T>(items: seq<T>): (r: seq<Event<T>>)
    ensures |r| == |items|
    ensures forall i :: 0 <= i < |items| ==> r[i] == Item(items[i])
  {
    seq(|items|, i requires 0 <= i < |items| => Item(items[i]))
  }

  // ---------- Where a scan gets to ----------

  /** The scan is over within n pages: on each page the consumer stops, or the chain ends, or the scan goes
      on to be over within n - 1. */
  predicate Finishes<S, T>(step: Step<S, T>, s: S, chain: Chain<T>, page: int, n: nat)
    decreases n
  {
    n > 0 &&
    var a := At(chain, page);
    var r := Feed(step, s, a.events);
    r.stopped || a.next.None? || Finishes(step, r.state, chain, a.next.value, n - 1)
  }

  /** The answers of the pages the scan fetches. */
  function Visited<S, T>(step: Step<S, T>, s: S, chain: Chain<T>, page: int, n: nat): (r: seq<Answer<T>>)
    requires Finishes(step, s, chain, page, n)
    ensures 0 < |r| <= n
    decreases n
  {
    var a := At(chain, page);
    var r := Feed(step, s, a.events);
    if r.stopped || a.next.None? then [a] else [a] + Visited(step, r.state, chain, a.next.value, n - 1)
  }

  /** They follow each other along the chain. */
  lemma {:induction false} VisitedFollow<S, T>(step: Step<S, T>, s: S, chain: Chain<T>, page: int, n: nat, k: nat)
    requires Finishes(step, s, chain, page, n) && k < |Visited(step, s, chain, page, n)|
    ensures var pages := Visited(step, s, chain, page, n);
            pages[k] == At(chain, TrailPage(page, pages, k)) && (k < |pages| - 1 ==> pages[k].next.Some?)
    decreases n
  {
    if k > 0 {
      var a := At(chain, page);
      var r := Feed(step, s, a.events);
      var rest := Visited(step, r.state, chain, a.next.value, n - 1);
      VisitedFollow(step, r.state, chain, a.next.value, n - 1, k - 1);
      if k > 1 {
        VisitedFollow(step, r.state, chain, a.next.value, n - 1, k - 2);
      }
      assert Visited(step, s, chain, page, n) == [a] + rest;
    }
  }

  /** A page is fetched only if it has to be: no page before it stopped the consumer or ended the chain. */
  lemma {:induction false} VisitedIsNeeded<S, T>(step: Step<S, T>, s: S, chain: Chain<T>, page: int, n: nat, k: nat)
    requires Finishes(step, s, chain, page, n) && k < |Visited(step, s, chain, page, n)|
    ensures var pages := Visited(step, s, chain, page, n);
            k < |pages| - 1 <==> pages[k].next.Some? && !Feed(step, s, Stream(pages[..k + 1])).stopped
    decreases n
  {
    var pages, a := Visited(step, s, chain, page, n), At(chain, page);
    var r := Feed(step, s, a.events);
    var rest := pages[1..];
    assert pages[..k + 1] == [a] + rest[..k];
    assert ([a] + rest[..k])[1..] == rest[..k];
    FeedConcat(step, s, a.events, Stream(rest[..k]));
    if k > 0 {
      assert rest == Visited(step, r.state, chain, a.next.value, n - 1);
      VisitedIsNeeded(step, r.state, chain, a.next.value, n - 1, k - 1);
    }
  }

  // The loop itself, without any bound: one page after the other.

  datatype Place<S> = Turning(page: int, state: S) | Over(state: S)

  /** What one turn of the scan's loop makes of where it stands. */
  function Turn<S, T>(step: Step<S, T>, chain: Chain<T>, p: Place<S>): Place<S> {
    match p
    case Over(_) => p
    case Turning(page, s) =>
      var a := At(chain, page);
      var r := Feed(step, s, a.events);
      if r.stopped || a.next.None? then Over(r.state) else Turning(a.next.value, r.state)
  }

  function After<S, T>(step: Step<S, T>, chain: Chain<T>, p: Place<S>, turns: nat): Place<S> {
    if turns == 0 then p else Turn(step, chain, After(step, chain, p, turns - 1))
  }

  lemma {:induction false} AfterTurn<S, T>(step: Step<S, T>, chain: Chain<T>, p: Place<S>, turns: nat)
    ensures After(step, chain, p, turns + 1) == After(step, chain, Turn(step, chain, p), turns)
  {
    if turns > 0 {
      AfterTurn(step, chain, p, turns - 1);
    }
  }

  lemma {:induction false} OverStaysOver<S, T>(step: Step<S, T>, chain: Chain<T>, p: Place<S>, turns: nat)
    requires p.Over?
    ensures After(step, chain, p, turns) == p
  {
    if turns > 0 {
      OverStaysOver(step, chain, p, turns - 1);
    }
  }

  /** The loop is over after n turns if and only if it finishes within n pages. */
  lemma {:induction false} OverAfter<S, T>(step: Step<S, T>, s: S, chain: Chain<T>, page: int, n: nat)
    ensures After(step, chain, Turning(page, s), n).Over? <==> Finishes(step, s, chain, page, n)
    decreases n
  {
    if n > 0 {
      var p: Place<S> := Turning(page, s);
      AfterTurn(step, chain, p, n - 1);
      var q := Turn(step, chain, p);
      if q.Over? {
        OverStaysOver(step, chain, q, n - 1);
      } else {
        OverAfter(step, q.state, chain, q.page, n - 1);
      }
    }
  }

  ghost predicate ComesToAnEnd<S, T>(step: Step<S, T>, s: S, chain: Chain<T>, page: int) {
    exists turns: nat :: After(step, chain, Turning(page, s), turns).Over?
  }

  /** Exactly which scans return: those that finish within some number of pages. A chain without an end is
      no obstacle to a consumer that stops. */
  lemma ComesToAnEndIff<S, T>(step: Step<S, T>, s: S, chain: Chain<T>, page: int)
    ensures ComesToAnEnd(step, s, chain, page) <==> exists n: nat :: Finishes(step, s, chain, page, n)
  {
    if ComesToAnEnd(step, s, chain, page) {
      var turns: nat :| After(step, chain, Turning(page, s), turns).Over?;
      OverAfter(step, s, chain, page, turns);
    }
    if n: nat :| Finishes(step, s, chain, page, n) {
      OverAfter(step, s, chain, page, n);
    }
  }

  /** Pages and consumer states that each lead to another of them, the consumer wanting more. */
  ghost predicate ScanTrap<S(!new), T>(step: Step<S, T>, chain: Chain<T>, places: iset<(int, S)>) {
    forall p: int, s: S :: (p, s) in places ==> StaysIn(step, chain, places, p, s)
  }

  ghost predicate StaysIn<S, T>(step: Step<S, T>, chain: Chain<T>, places: iset<(int, S)>, p: int, s: S) {
    var r := Feed(step, s, At(chain, p).events);
    !r.stopped && At(chain, p).next.Some? && (At(chain, p).next.value, r.state) in places
  }

  ghost predicate ScanTrapped<S(!new), T>(step: Step<S, T>, s: S, chain: Chain<T>, page: int) {
    exists places: iset<(int, S)> :: (page, s) in places && ScanTrap(step, chain, places)
  }

  ghost predicate NeverFinishes<S, T>(step: Step<S, T>, s: S, chain: Chain<T>, page: int) {
    forall n: nat :: !Finishes(step, s, chain, page, n)
  }

  lemma NeverFinishesGoesOn<S, T>(step: Step<S, T>, s: S, chain: Chain<T>, page: int)
    requires NeverFinishes(step, s, chain, page)
    ensures var r := Feed(step, s, At(chain, page).events);
            !r.stopped && At(chain, page).next.Some? &&
            NeverFinishes(step, r.state, chain, At(chain, page).next.value)
  {
    assert !Finishes(step, s, chain, page, 1);
    var r, next := Feed(step, s, At(chain, page).events), At(chain, page).next.value;
    forall n: nat
      ensures !Finishes(step, r.state, chain, next, n)
    {
      assert !Finishes(step, s, chain, page, n + 1);
    }
  }

  lemma {:induction false} ScanTrapsNeverFinish<S(!new), T>(step: Step<S, T>, s: S, chain: Chain<T>, page: int,
                                                      places: iset<(int, S)>, n: nat)
    requires (page, s) in places && ScanTrap(step, chain, places)
    ensures !Finishes(step, s, chain, page, n)
    decreases n
  {
    if n > 0 {
      assert StaysIn(step, chain, places, page, s);
      ScanTrapsNeverFinish(step, Feed(step, s, At(chain, page).events).state, chain, At(chain, page).next.value,
                           places, n - 1);
    }
  }

  /** Exactly which scans go on for ever: those in a trap of pages and consumer states. */
  lemma NeverFinishesIffTrapped<S(!new), T>(step: Step<S, T>, s: S, chain: Chain<T>, page: int)
    ensures NeverFinishes(step, s, chain, page) <==> ScanTrapped(step, s, chain, page)
  {
    if NeverFinishes(step, s, chain, page) {
      var places: iset<(int, S)> := iset p: int, x: S | NeverFinishes(step, x, chain, p) :: (p, x);
      forall p: int, x: S | (p, x) in places
        ensures StaysIn(step, chain, places, p, x)
      {
        NeverFinishesGoesOn(step, x, chain, p);
      }
      assert (page, s) in places;
      assert ScanTrap(step, chain, places);
    } else if ScanTrapped(step, s, chain, page) {
      var places: iset<(int, S)> :| (page, s) in places && ScanTrap(step, chain, places);
      var n: nat :| Finishes(step, s, chain, page, n);
      ScanTrapsNeverFinish(step, s, chain, page, places, n);
    }
  }

  /** Over a chain that ends every scan finishes, and to the consumer it makes no difference that the pages
      after its stop are not fetched. */
  lemma {:induction false} EndsFinishes<S, T>(step: Step<S, T>, s: S, chain: Chain<T>, page: int, n: nat)
    requires Ends(chain, page, n)
    ensures Finishes(step, s, chain, page, n)
    ensures Visited(step, s, chain, page, n) <= Trail(chain, page, n)
    ensures Feed(step, s, Stream(Visited(step, s, chain, page, n))) == Feed(step, s, Stream(Trail(chain, page, n)))
    decreases n
  {
    var a := At(chain, page);
    var r := Feed(step, s, a.events);
    var trail := Trail(chain, page, n);
    assert trail == [a] + trail[1..];
    assert Stream(trail) == a.events + Stream(trail[1..]);
    FeedConcat(step, s, a.events, Stream(trail[1..]));
    if r.stopped || a.next.None? {
      assert Stream([a]) == a.events + Stream([a][1..]) == a.events;
      assert a.next.None? ==> trail == [a];
    } else {
      EndsFinishes(step, r.state, chain, a.next.value, n - 1);
      var pages := Visited(step, s, chain, page, n);
      assert pages == [a] + pages[1..];
      assert Stream(pages) == a.events + Stream(pages[1..]);
      FeedConcat(step, s, a.events, Stream(pages[1..]));
    }
  }

  // ---------- Lists handed out in pages ----------

  /** What a consumer is to see of these lists: their items in order, and the failure after them, if any. */
  function Told<T>(lists: seq<seq<T>>, failure: Option<string>): seq<Event<T>> {
    Items(Joined(lists)) + if failure.Some? then [Failure(failure.value)] else []
  }

  /** The chain hands out these lists, one a page, under these numbers, and then the failure. */
  ghost predicate HandsOut<T>(chain: Chain<T>, number: nat -> int, lists: seq<seq<T>>, failure: Option<string>) {
    && (lists != [] || failure.Some?)
    && (forall i :: 0 <= i < |lists| ==>
          At(chain, number(i)) ==
          Answer(Items(lists[i]), if i + 1 < |lists| || failure.Some? then Some(number(i + 1)) else None))
    && (failure.Some? ==> At(chain, number(|lists|)) == Answer([Failure(failure.value)], None))
  }

  lemma ItemsConcat<T>(a: seq<T>, b: seq<T>)
    ensures Items(a + b) == Items(a) + Items(b)
  {
  }

  lemma StreamOne<T>(a: Answer<T>)
    ensures Stream([a]) == a.events
  {
    assert [a][1..] == [];
    assert Stream([a]) == a.events + Stream([]);
  }

  lemma TrailMore<T>(chain: Chain<T>, page: int, n: nat)
    requires n > 0 && At(chain, page).next.Some? && Ends(chain, At(chain, page).next.value, n - 1)
    ensures Ends(chain, page, n)
    ensures Stream(Trail(chain, page, n)) ==
            At(chain, page).events + Stream(Trail(chain, At(chain, page).next.value, n - 1))
  {
    var a, rest := At(chain, page), Trail(chain, At(chain, page).next.value, n - 1);
    assert ([a] + rest)[1..] == rest;
  }

  /** From page i on, the chain ends, and its pages hold the rest of the lists. */
  lemma {:induction false} RestIsTold<T>(chain: Chain<T>, number: nat -> int, lists: seq<seq<T>>,
                                         failure: Option<string>, i: nat, n: nat)
    requires HandsOut(chain, number, lists, failure) && i + n == |lists| + 1
    requires i < |lists| || (i == |lists| && failure.Some?)
    ensures Ends(chain, number(i), n) && Stream(Trail(chain, number(i), n)) == Told(lists[i..], failure)
    decreases n
  {
    var a := At(chain, number(i));
    if i == |lists| {
      StreamOne(a);
      var rest := lists[i..];
      assert rest == [];
      assert Joined(rest) == [];
    } else {
      assert a == Answer(Items(lists[i]), if i + 1 < |lists| || failure.Some? then Some(number(i + 1)) else None);
      ItemsConcat(lists[i], Joined(lists[i + 1..]));
      assert lists[i..][0] == lists[i] && lists[i..][1..] == lists[i + 1..];
      if a.next.Some? {
        RestIsTold(chain, number, lists, failure, i + 1, n - 1);
        TrailMore(chain, number(i), n);
      } else {
        assert i + 1 == |lists| && failure.None?;
        var last := lists[i + 1..];
        assert last == [];
        assert Joined(last) == [];
        StreamOne(a);
      }
    }
  }

  /** How many pages a scan is given to finish makes no difference to those it visits. */
  lemma {:induction false} VisitedSame<S, T>(step: Step<S, T>, s: S, chain: Chain<T>, page: int, n: nat, m: nat)
    requires Finishes(step, s, chain, page, n) && Finishes(step, s, chain, page, m)
    ensures Visited(step, s, chain, page, n) == Visited(step, s, chain, page, m)
    decreases n
  {
    var a := At(chain, page);
    var r := Feed(step, s, a.events);
    if !r.stopped && a.next.Some? {
      VisitedSame(step, r.state, chain, a.next.value, n - 1, m - 1);
    }
  }

  lemma StreamPrefix<T>(a: seq<Answer<T>>, b: seq<Answer<T>>)
    requires a <= b
    ensures Stream(a) <= Stream(b)
  {
    assert b == a + b[|a|..];
    StreamConcat(a, b[|a|..]);
  }

  /** A scan over such a chain has shown its consumer what there is to see, until it stopped. */
  lemma ScanTells<S, T>(step: Step<S, T>, before: S, after: S, chain: Chain<T>, number: nat -> int,
                        lists: seq<seq<T>>, failure: Option<string>, n: nat, shown: seq<Event<T>>)
    requires HandsOut(chain, number, lists, failure) && Finishes(step, before, chain, number(0), n)
    requires Scanned(step, before, after, Visited(step, before, chain, number(0), n), shown)
    ensures var r := Feed(step, before, Told(lists, failure));
            after == r.state && shown == Told(lists, failure)[..r.consumed]
  {
    var m := |lists| + 1;
    RestIsTold(chain, number, lists, failure, 0, m);
    assert lists[0..] == lists;
    EndsFinishes(step, before, chain, number(0), m);
    VisitedSame(step, before, chain, number(0), n, m);
    StreamPrefix(Visited(step, before, chain, number(0), m), Trail(chain, number(0), m));
  }

  // ---------- What a scan does ----------

  /** A scan that visited these pages has fed its consumer all they hold until it stopped, and has shown it
      nothing more. */
  ghost predicate Scanned<S, T>(step: Step<S, T>, before: S, after: S, pages: seq<Answer<T>>, shown: seq<Event<T>>) {
    var r := Feed(step, before, Stream(pages));
    after == r.state && shown == Stream(pages)[..r.consumed]
  }

  /** The scan has been through `walked`, the consumer wants more, and these pages are still to come. */
  ghost predicate Onward<S, T>(step: Step<S, T>, before: S, now: S, chain: Chain<T>, pages: seq<Answer<T>>,
                               k: nat, page: int, left: nat, shown: seq<Event<T>>)
  {
    && k < |pages| && Finishes(step, now, chain, page, left) && pages[k..] == Visited(step, now, chain, page, left)
    && shown == Stream(pages[..k]) && Feed(step, before, shown) == Fed(now, |shown|, false)
  }

  /** The next page, fed to the consumer: the scan is over, or goes on from the page after. */
  lemma NextPage<S, T>(step: Step<S, T>, before: S, now: S, chain: Chain<T>, pages: seq<Answer<T>>,
                       k: nat, page: int, left: nat, shown: seq<Event<T>>)
    requires Onward(step, before, now, chain, pages, k, page, left, shown)
    ensures pages[k] == At(chain, page)
    ensures var a := At(chain, page);
            var r := Feed(step, now, a.events);
            if r.stopped || a.next.None? then
              k + 1 == |pages| && Scanned(step, before, r.state, pages, shown + a.events[..r.consumed])
            else
              Onward(step, before, r.state, chain, pages, k + 1, a.next.value, left - 1, shown + a.events)
  {
    var a := At(chain, page);
    var r := Feed(step, now, a.events);
    assert pages[k] == pages[k..][0] == a;
    assert pages[..k + 1] == pages[..k] + [a];
    StreamSnoc(pages[..k], a);
    FeedConcat(step, before, shown, a.events);
    if r.stopped || a.next.None? {
      assert |pages[k..]| == 1;
      assert pages == pages[..k + 1];
      assert Stream(pages)[..|shown| + r.consumed] == shown + a.events[..r.consumed];
    } else {
      assert pages[k + 1..] == pages[k..][1..];
    }
  }

  /** Yields the items of one page until the consumer stops. */
  method YieldItems<S, T>(c: Consumer<S, T>, items: seq<T>) returns (more: bool)
    modifies c
    ensures var r := Feed(c.step, old(c.state), Items(items));
            && c.state == r.state && more == !r.stopped
            && c.seen == old(c.seen) + Items(items)[..r.consumed]
    ensures more ==> c.seen == old(c.seen) + Items(items)
  {
    ghost var events := Items(items);
    for i := 0 to |items|
      invariant Feed(c.step, old(c.state), events[..i]) == Fed(c.state, i, false)
      invariant c.seen == old(c.seen) + events[..i]
    {
      more := c.Yield(Item(items[i]));
      FeedSnoc(c.step, old(c.state), events[..i], events[i]);
      assert events[..i + 1] == events[..i] + [events[i]];
      if !more {
        FeedConcat(c.step, old(c.state), events[..i + 1], events[i + 1..]);
        assert events == events[..i + 1] + events[i + 1..];
        return;
      }
    }
    assert events[..|items|] == events;
    more := true;
  }

  /** Yields the error of a failed page; the scan returns whatever the consumer answers. */
  method YieldError<S, T>(c: Consumer<S, T>, error: string)
    modifies c
    ensures var r := Feed(c.step, old(c.state), [Failure(error)]);
            c.state == r.state && c.seen == old(c.seen) + [Failure(error)][..r.consumed] && r.consumed == 1
  {
    var more := c.Yield(Failure(error));
    ghost var none: seq<Event<T>> := [];
    FeedSnoc(c.step, old(c.state), none, Failure(error));
    assert none + [Failure(error)] == [Failure(error)];
  }

  // ---------- GitHub lists ----------

  datatype ListOptions = ListOptions(page: int, perPage: int)

  /** WithPerPage: a positive value replaces the default of 100. */
  function WithPerPage(perPage: int, options: seq<int>): int
    decreases |options|
  {
    if options == [] then perPage
    else WithPerPage(if options[0] > 0 then options[0] else perPage, options[1..])
  }

  /** The page size that holds is the last positive one given, or the default. */
  lemma {:induction false} LastPositiveWins(perPage: int, options: seq<int>, value: int)
    ensures value > 0 ==> WithPerPage(perPage, options + [value]) == value
    ensures value <= 0 ==> WithPerPage(perPage, options + [value]) == WithPerPage(perPage, options)
    decreases |options|
  {
    if options == [] {
      assert (options + [value])[1..] == [];
    } else {
      assert (options + [value])[1..] == options[1..] + [value];
      LastPositiveWins(if options[0] > 0 then options[0] else perPage, options[1..], value);
    }
  }

  type GitHub<T> = map<ListOptions, Result<Page<T>, string>>

  function GitHubFetch<T>(api: GitHub<T>, opt: ListOptions): Result<Page<T>, string> {
    if opt in api then api[opt] else Err("no such page")
  }

  function GitHubAnswer<T>(r: Result<Page<T>, string>): Answer<T> {
    match r
    case Err(e) => Answer([Failure(e)], None)
    case Ok(pg) => Answer(Items(pg.items), if pg.next == 0 then None else Some(pg.next))
  }

  function GitHubChain<T>(api: GitHub<T>, perPage: int): Chain<T> {
    map opt | opt in api && opt.perPage == perPage :: opt.page := GitHubAnswer(api[opt])
  }

  /** The number GitHub gives page i of a list: the first is asked for without one. */
  function GitHubNumber(i: nat): int {
    if i == 0 then 0 else i + 1
  }

  /** GitHub serves these lists, one a page of this size, and then fails, if it does. */
  ghost predicate GitHubServes<T>(api: GitHub<T>, perPage: int, lists: seq<seq<T>>, failure: Option<string>) {
    && (lists != [] || failure.Some?)
    && (forall i :: 0 <= i < |lists| ==>
          var opt := ListOptions(GitHubNumber(i), perPage);
          && opt in api && api[opt].Ok? && api[opt].value.items == lists[i]
          && api[opt].value.next == if i + 1 < |lists| || failure.Some? then i + 2 else 0)
    && (failure.Some? ==>
          var opt := ListOptions(GitHubNumber(|lists|), perPage);
          opt in api && api[opt] == Err(failure.value))
  }

  lemma GitHubAt<T>(api: GitHub<T>, opt: ListOptions)
    ensures At(GitHubChain(api, opt.perPage), opt.page) == GitHubAnswer(GitHubFetch(api, opt))
  {
    assert forall o :: o in api && o.perPage == opt.perPage && o.page == opt.page ==> o == opt;
    assert opt in api ==> opt.page in GitHubChain(api, opt.perPage);
  }

  lemma GitHubHandsOut<T>(api: GitHub<T>, perPage: int, lists: seq<seq<T>>, failure: Option<string>)
    requires GitHubServes(api, perPage, lists, failure)
    ensures HandsOut(GitHubChain(api, perPage), GitHubNumber, lists, failure)
  {
    forall i | 0 <= i < |lists|
      ensures At(GitHubChain(api, perPage), GitHubNumber(i)) ==
              Answer(Items(lists[i]), if i + 1 < |lists| || failure.Some? then Some(GitHubNumber(i + 1)) else None)
    {
      GitHubAt(api, ListOptions(GitHubNumber(i), perPage));
    }
    GitHubAt(api, ListOptions(GitHubNumber(|lists|), perPage));
  }

  /** The options of the first fetch: each given option is applied to the defaults. */
  method FirstPage(options: seq<int>) returns (opt: ListOptions)
    ensures opt == ListOptions(0, WithPerPage(100, options))
  {
    opt := ListOptions(0, 100);
    for o := 0 to |options|
      invariant opt.page == 0 && WithPerPage(opt.perPage, options[o..]) == WithPerPage(100, options)
    {
      if options[o] > 0 {
        opt := opt.(perPage := options[o]);
      }
    }
  }

  /** ScanGitHubList: from page 0 (GitHub's first) along the NextPage chain, with the page size the
      options give, until the consumer stops or the chain ends. Over whatever lists GitHub serves in pages
      of that size, the consumer sees their items in order, and the failure, until it stops. */
  method ScanGitHubList<S, T>(api: GitHub<T>, options: seq<int>, c: Consumer<S, T>, ghost n: nat) returns (fetches: nat)
    requires c.seen == [] && Finishes(c.step, c.state, GitHubChain(api, WithPerPage(100, options)), 0, n)
    modifies c
    ensures var pages := Visited(c.step, old(c.state), GitHubChain(api, WithPerPage(100, options)), 0, n);
            fetches == |pages| && Scanned(c.step, old(c.state), c.state, pages, c.seen)
    ensures forall lists: seq<seq<T>>, failure: Option<string> ::
              GitHubServes(api, WithPerPage(100, options), lists, failure) ==>
              var r := Feed(c.step, old(c.state), Told(lists, failure));
              c.state == r.state && c.seen == Told(lists, failure)[..r.consumed]
  {
    fetches := ScanGitHubPages(api, options, c, n);
    forall lists: seq<seq<T>>, failure: Option<string> | GitHubServes(api, WithPerPage(100, options), lists, failure)
      ensures var r := Feed(c.step, old(c.state), Told(lists, failure));
              c.state == r.state && c.seen == Told(lists, failure)[..r.consumed]
    {
      GitHubHandsOut(api, WithPerPage(100, options), lists, failure);
      ScanTells(c.step, old(c.state), c.state, GitHubChain(api, WithPerPage(100, options)), GitHubNumber,
                lists, failure, n, c.seen);
    }
  }

  /** Its loop. */
  method ScanGitHubPages<S, T>(api: GitHub<T>, options: seq<int>, c: Consumer<S, T>, ghost n: nat)
    returns (fetches: nat)
    requires c.seen == [] && Finishes(c.step, c.state, GitHubChain(api, WithPerPage(100, options)), 0, n)
    modifies c
    ensures var pages := Visited(c.step, old(c.state), GitHubChain(api, WithPerPage(100, options)), 0, n);
            fetches == |pages| && Scanned(c.step, old(c.state), c.state, pages, c.seen)
  {
    var opt := FirstPage(options);
    ghost var chain, before := GitHubChain(api, opt.perPage), c.state;
    ghost var pages := Visited(c.step, before, chain, 0, n);
    ghost var left := n;
    fetches := 0;
    while true
      invariant opt.perPage == WithPerPage(100, options)
      invariant Onward(c.step, before, c.state, chain, pages, fetches, opt.page, left, c.seen)
      decreases left
    {
      var answer := GitHubFetch(api, opt);
      GitHubAt(api, opt);
      NextPage(c.step, before, c.state, chain, pages, fetches, opt.page, left, c.seen);
      fetches := fetches + 1;
      if answer.Err? {
        YieldError(c, answer.error);
        return;
      }
      var more := YieldItems(c, answer.value.items);
      if !more {
        return;
      }
      if answer.value.next == 0 {
        break;
      }
      opt := opt.(page := answer.value.next);
      left := left - 1;
    }
  }

  // ---------- Bitbucket branches ----------

  /** Bitbucket's page carries its own number and a link to the next one, empty on the last. */
  datatype BranchPage<+T> = BranchPage(branches: seq<T>, next: string, page: int)

  type Bitbucket<T> = map<int, Result<BranchPage<T>, string>>

  function BitbucketFetch<T>(api: Bitbucket<T>, pageNum: int): Result<BranchPage<T>, string> {
    if pageNum in api then api[pageNum] else Err("no such page")
  }

  function BitbucketAnswer<T>(r: Result<BranchPage<T>, string>): Answer<T> {
    match r
    case Err(e) => Answer([Failure(e)], None)
    case Ok(pg) => Answer(Items(pg.branches), if pg.next == "" then None else Some(pg.page + 1))
  }

  function BitbucketChain<T>(api: Bitbucket<T>): Chain<T> {
    map p | p in api :: BitbucketAnswer(api[p])
  }

  lemma BitbucketAt<T>(api: Bitbucket<T>, pageNum: int)
    ensures At(BitbucketChain(api), pageNum) == BitbucketAnswer(BitbucketFetch(api, pageNum))
  {
  }

  /** Bitbucket serves these lists from page `start` on: that page says it is number `first`, the later ones
      follow it, and each but the last links to a next one; and then it fails, if it does. */
  ghost predicate BitbucketServes<T>(api: Bitbucket<T>, start: int, first: int, lists: seq<seq<T>>,
                                     failure: Option<string>)
  {
    && (lists != [] || failure.Some?)
    && (forall i :: 0 <= i < |lists| ==>
          var number := BitbucketNumber(start, first, i);
          && number in api && api[number].Ok? && api[number].value.branches == lists[i]
          && api[number].value.page == first + i
          && (api[number].value.next != "" <==> i + 1 < |lists| || failure.Some?))
    && (failure.Some? ==>
          var number := BitbucketNumber(start, first, |lists|);
          number in api && api[number] == Err(failure.value))
  }

  function BitbucketNumber(start: int, first: int, i: nat): int {
    if i == 0 then start else first + i
  }

  function BitbucketNumbers(start: int, first: int): nat -> int {
    (i: nat) => BitbucketNumber(start, first, i)
  }

  lemma BitbucketHandsOut<T>(api: Bitbucket<T>, start: int, first: int, lists: seq<seq<T>>, failure: Option<string>)
    requires BitbucketServes(api, start, first, lists, failure)
    ensures HandsOut(BitbucketChain(api), BitbucketNumbers(start, first), lists, failure)
  {
    var number := BitbucketNumbers(start, first);
    forall i | 0 <= i < |lists|
      ensures At(BitbucketChain(api), number(i)) ==
              Answer(Items(lists[i]), if i + 1 < |lists| || failure.Some? then Some(number(i + 1)) else None)
    {
      assert number(i) == BitbucketNumber(start, first, i) && number(i) in api;
      assert number(i + 1) == first + i + 1;
    }
    assert number(|lists|) == BitbucketNumber(start, first, |lists|);
  }

  /** The options object of the caller, which the scan advances in place. */
  class BranchOptions {
    var pageNum: int

    constructor (pageNum: int)
      ensures this.pageNum == pageNum
    {
      this.pageNum := pageNum;
    }
  }

  /** The scan is over with these pages, and the options name the last of them. */
  ghost predicate LeftOptions<S, T>(step: Step<S, T>, before: S, after: S, start: int, pages: seq<Answer<T>>,
                                    pageNum: int, shown: seq<Event<T>>)
  {
    |pages| > 0 && Scanned(step, before, after, pages, shown) && pageNum == TrailPage(start, pages, |pages| - 1)
  }

  /** The scan goes on, and the options name the page it turns to. */
  ghost predicate OnwardAt<S, T>(step: Step<S, T>, before: S, now: S, chain: Chain<T>, start: int,
                                 pages: seq<Answer<T>>, k: nat, pageNum: int, left: nat, shown: seq<Event<T>>)
  {
    Onward(step, before, now, chain, pages, k, pageNum, left, shown) && pageNum == TrailPage(start, pages, k)
  }

  lemma NextPageAt<S, T>(step: Step<S, T>, before: S, now: S, chain: Chain<T>, start: int, pages: seq<Answer<T>>,
                         k: nat, pageNum: int, left: nat, shown: seq<Event<T>>)
    requires OnwardAt(step, before, now, chain, start, pages, k, pageNum, left, shown)
    ensures var a := At(chain, pageNum);
            var r := Feed(step, now, a.events);
            if r.stopped || a.next.None? then
              k + 1 == |pages|
              && LeftOptions(step, before, r.state, start, pages, pageNum, shown + a.events[..r.consumed])
            else
              OnwardAt(step, before, r.state, chain, start, pages, k + 1, a.next.value, left - 1, shown + a.events)
  {
    NextPage(step, before, now, chain, pages, k, pageNum, left, shown);
  }

  /** One turn of the scan's loop: fetches the page the options name, feeds it to the consumer, and turns the
      options to the next page if the scan goes on. */
  method ScanBranchPage<S, T>(api: Bitbucket<T>, rbo: BranchOptions, c: Consumer<S, T>) returns (more: bool)
    modifies c, rbo
    ensures var a := At(BitbucketChain(api), old(rbo.pageNum));
            var r := Feed(c.step, old(c.state), a.events);
            && c.state == r.state && c.seen == old(c.seen) + a.events[..r.consumed]
            && more == (!r.stopped && a.next.Some?)
            && rbo.pageNum == (if more then a.next.value else old(rbo.pageNum))
    ensures more ==> c.seen == old(c.seen) + At(BitbucketChain(api), old(rbo.pageNum)).events
  {
    var answer := BitbucketFetch(api, rbo.pageNum);
    BitbucketAt(api, rbo.pageNum);
    if answer.Err? {
      YieldError(c, answer.error);
      return false;
    }
    more := YieldItems(c, answer.value.branches);
    if !more {
      return;
    }
    if answer.value.next == "" {
      return false;
    }
    rbo.pageNum := answer.value.page + 1;
  }

  /** ScanBitbucketBranches: like the GitHub scan, from the page the options name; it leaves in them the
      number of the last page it fetched. Over whatever lists Bitbucket serves from there on, the consumer
      sees their branches in order, and the failure, until it stops. */
  method ScanBitbucketBranches<S, T>(api: Bitbucket<T>, rbo: BranchOptions, c: Consumer<S, T>, ghost n: nat)
    returns (fetches: nat)
    requires c.seen == [] && Finishes(c.step, c.state, BitbucketChain(api), rbo.pageNum, n)
    modifies c, rbo
    ensures var pages := Visited(c.step, old(c.state), BitbucketChain(api), old(rbo.pageNum), n);
            && fetches == |pages|
            && LeftOptions(c.step, old(c.state), c.state, old(rbo.pageNum), pages, rbo.pageNum, c.seen)
    ensures forall first: int, lists: seq<seq<T>>, failure: Option<string> ::
              BitbucketServes(api, old(rbo.pageNum), first, lists, failure) ==>
              var r := Feed(c.step, old(c.state), Told(lists, failure));
              c.state == r.state && c.seen == Told(lists, failure)[..r.consumed]
  {
    fetches := ScanBranchPages(api, rbo, c, n);
    forall first: int, lists: seq<seq<T>>, failure: Option<string> |
      BitbucketServes(api, old(rbo.pageNum), first, lists, failure)
      ensures var r := Feed(c.step, old(c.state), Told(lists, failure));
              c.state == r.state && c.seen == Told(lists, failure)[..r.consumed]
    {
      BitbucketHandsOut(api, old(rbo.pageNum), first, lists, failure);
      ScanTells(c.step, old(c.state), c.state, BitbucketChain(api),
                BitbucketNumbers(old(rbo.pageNum), first), lists, failure, n, c.seen);
    }
  }

  /** Its loop. */
  method ScanBranchPages<S, T>(api: Bitbucket<T>, rbo: BranchOptions, c: Consumer<S, T>, ghost n: nat)
    returns (fetches: nat)
    requires c.seen == [] && Finishes(c.step, c.state, BitbucketChain(api), rbo.pageNum, n)
    modifies c, rbo
    ensures var pages := Visited(c.step, old(c.state), BitbucketChain(api), old(rbo.pageNum), n);
            && fetches == |pages|
            && LeftOptions(c.step, old(c.state), c.state, old(rbo.pageNum), pages, rbo.pageNum, c.seen)
  {
    ghost var chain, before, start := BitbucketChain(api), c.state, rbo.pageNum;
    ghost var pages := Visited(c.step, before, chain, start, n);
    ghost var left := n;
    fetches := 0;
    var more := true;
    while more
      invariant if more then OnwardAt(c.step, before, c.state, chain, start, pages, fetches, rbo.pageNum, left, c.seen)
                else fetches == |pages| && LeftOptions(c.step, before, c.state, start, pages, rbo.pageNum, c.seen)
      decreases left, more
    {
      NextPageAt(c.step, before, c.state, chain, start, pages, fetches, rbo.pageNum, left, c.seen);
      more := ScanBranchPage(api, rbo, c);
      fetches := fetches + 1;
      left := left - 1;
    }
  }

  /** Where a scan leaves the options: at the last page it fetched. */
  function LeftAt<S, T>(step: Step<S, T>, s: S, chain: Chain<T>, page: int, n: nat): int
    requires Finishes(step, s, chain, page, n)
  {
    var pages := Visited(step, s, chain, page, n);
    TrailPage(page, pages, |pages| - 1)
  }

  /** Two scans with the same options object, however early the first one stops: the second starts at the
      last page the first one fetched. */
  method ScanTwice<S, T>(api: Bitbucket<T>, rbo: BranchOptions, first: Consumer<S, T>, second: Consumer<S, T>,
                         ghost n: nat, ghost m: nat)
    returns (fetches: nat, again: nat)
    requires first != second && first.seen == [] && second.seen == []
    requires Finishes(first.step, first.state, BitbucketChain(api), rbo.pageNum, n)
    requires Finishes(second.step, second.state, BitbucketChain(api),
                      LeftAt(first.step, first.state, BitbucketChain(api), rbo.pageNum, n), m)
    modifies first, second, rbo
    ensures var chain, start := BitbucketChain(api), old(rbo.pageNum);
            var pages := Visited(first.step, old(first.state), chain, start, n);
            var left := LeftAt(first.step, old(first.state), chain, start, n);
            var more := Visited(second.step, old(second.state), chain, left, m);
            && fetches == |pages| && Scanned(first.step, old(first.state), first.state, pages, first.seen)
            && again == |more| && Scanned(second.step, old(second.state), second.state, more, second.seen)
            && more[0] == pages[|pages| - 1]
  {
    ghost var chain, start := BitbucketChain(api), rbo.pageNum;
    LastVisited(first.step, first.state, chain, start, n);
    fetches := ScanBitbucketBranches(api, rbo, first, n);
    again := ScanBitbucketBranches(api, rbo, second, m);
  }

  /** The last page visited is the one the options are left at. */
  lemma LastVisited<S, T>(step: Step<S, T>, s: S, chain: Chain<T>, page: int, n: nat)
    requires Finishes(step, s, chain, page, n)
    ensures var pages := Visited(step, s, chain, page, n);
            pages[|pages| - 1] == At(chain, LeftAt(step, s, chain, page, n))
  {
    var pages := Visited(step, s, chain, page, n);
    VisitedFollow(step, s, chain, page, n, |pages| - 1);
  }

  /** The events of a scan's pages are those of the earlier pages and those of the last. */
  lemma StreamOfVisited<S, T>(step: Step<S, T>, s: S, chain: Chain<T>, page: int, n: nat)
    requires Finishes(step, s, chain, page, n)
    ensures var pages := Visited(step, s, chain, page, n);
            && Stream(pages) == Stream(pages[..|pages| - 1]) + pages[|pages| - 1].events
            && (pages[|pages| - 1].next.None? || Feed(step, s, Stream(pages)).stopped)
  {
    var pages := Visited(step, s, chain, page, n);
    var last := |pages| - 1;
    assert pages == pages[..last] + [pages[last]];
    StreamSnoc(pages[..last], pages[last]);
    VisitedIsNeeded(step, s, chain, page, n, last);
    assert pages[..last + 1] == pages;
  }

  lemma VisitedOne<S, T>(step: Step<S, T>, s: S, chain: Chain<T>, page: int)
    requires Finishes(step, s, chain, page, 1)
    ensures Visited(step, s, chain, page, 1) == [At(chain, page)]
    ensures Stream(Visited(step, s, chain, page, 1)) == At(chain, page).events
  {
    assert Stream([At(chain, page)]) == At(chain, page).events + Stream([At(chain, page)][1..]);
  }

  /** The same consumer scanning again after a scan it did not stop: it gets the last page and nothing else,
      so it gets the same again if and only if all earlier pages are empty. */
  lemma RescanStartsAtLastPage<S, T>(step: Step<S, T>, s: S, chain: Chain<T>, page: int, n: nat)
    requires Finishes(step, s, chain, page, n) && !Feed(step, s, Stream(Visited(step, s, chain, page, n))).stopped
    ensures var pages, left := Visited(step, s, chain, page, n), LeftAt(step, s, chain, page, n);
            && Finishes(step, s, chain, left, 1) && Visited(step, s, chain, left, 1) == [pages[|pages| - 1]]
            && (Stream(Visited(step, s, chain, left, 1)) == Stream(pages) <==> Stream(pages[..|pages| - 1]) == [])
  {
    var pages, left := Visited(step, s, chain, page, n), LeftAt(step, s, chain, page, n);
    LastVisited(step, s, chain, page, n);
    StreamOfVisited(step, s, chain, page, n);
    VisitedOne(step, s, chain, left);
    var earlier, last := Stream(pages[..|pages| - 1]), pages[|pages| - 1].events;
    assert |earlier + last| == |earlier| + |last|;
  }

  /** After a scan it stopped itself: if all pages before the one it stopped on are empty, the rescan stops
      on the same page, with the same state. */
  lemma RescanAfterStop<S, T>(step: Step<S, T>, s: S, chain: Chain<T>, page: int, n: nat)
    requires Finishes(step, s, chain, page, n) && Feed(step, s, Stream(Visited(step, s, chain, page, n))).stopped
    requires Stream(Visited(step, s, chain, page, n)[..|Visited(step, s, chain, page, n)| - 1]) == []
    ensures var pages, left := Visited(step, s, chain, page, n), LeftAt(step, s, chain, page, n);
            && Finishes(step, s, chain, left, 1)
            && Feed(step, s, Stream(Visited(step, s, chain, left, 1))) == Feed(step, s, Stream(pages))
  {
    LastVisited(step, s, chain, page, n);
    StreamOfVisited(step, s, chain, page, n);
    var pages := Visited(step, s, chain, page, n);
    assert Stream(pages) == pages[|pages| - 1].events;
    VisitedOne(step, s, chain, LeftAt(step, s, chain, page, n));
  }

  // ---------- Filtering by name ----------

  datatype Repository = Repository(name: string)

  predicate Contains(s: string, part: string) {
    exists i :: 0 <= i <= |s| && part <= s[i..]
  }

  /** Which repositories, nil ones included, pass the filter; `lower` is the lower-casing of names. */
  predicate Passes(repo: Option<Repository>, name: Option<string>, lower: string -> string) {
    name.None? || (repo.Some? && Contains(lower(repo.value.name), lower(name.value)))
  }

  /** With a name, a repository passes if and only if its lower-cased name has the lower-cased name in it;
      nil never does. Without one, everything passes. */
  lemma PassesIff(repo: Repository, name: string, lower: string -> string)
    ensures Passes(Some(repo), Some(name), lower) <==>
            exists before: string, after: string :: lower(repo.name) == before + lower(name) + after
    ensures !Passes(None, Some(name), lower) && Passes(None, None, lower) && Passes(Some(repo), None, lower)
  {
    var s, part := lower(repo.name), lower(name);
    if before: string, after: string :| s == before + part + after {
      assert s[|before|..] == part + after;
    }
    if i :| 0 <= i <= |s| && part <= s[i..] {
      assert s == s[..i] + part + s[i + |part|..];
    }
  }

  /** The yield function the filter hands to the inner scan. */
  function FilterStep<S>(step: Step<S, Option<Repository>>, name: Option<string>, lower: string -> string)
    : Step<S, Option<Repository>>
  {
    (s, e: Event<Option<Repository>>) =>
      match e
      case Failure(_) => step(s, e)
      case Item(repo) => if Passes(repo, name, lower) then step(s, e) else (s, true)
  }

  /** The events a filtered scan yields. */
  function FilterEvents(events: seq<Event<Option<Repository>>>, name: Option<string>, lower: string -> string)
    : seq<Event<Option<Repository>>>
  {
    if events == [] then []
    else (if events[0].Failure? || Passes(events[0].value, name, lower) then [events[0]] else [])
         + FilterEvents(events[1..], name, lower)
  }

  /** Wrapping the consumer's yield is the same, for every consumer and however early it stops, as
      filtering the events first. */
  lemma {:induction false} FilterComposes<S>(step: Step<S, Option<Repository>>, s: S,
                                             events: seq<Event<Option<Repository>>>,
                                             name: Option<string>, lower: string -> string)
    ensures var wrapped, plain :=
              Feed(FilterStep(step, name, lower), s, events), Feed(step, s, FilterEvents(events, name, lower));
            wrapped.state == plain.state && wrapped.stopped == plain.stopped
  {
    if events != [] {
      var e := events[0];
      var rest := FilterEvents(events[1..], name, lower);
      if e.Failure? || Passes(e.value, name, lower) {
        assert ([e] + rest)[0] == e && ([e] + rest)[1..] == rest;
        FilterComposes(step, step(s, e).0, events[1..], name, lower);
      } else {
        assert [] + rest == rest;
        FilterComposes(step, s, events[1..], name, lower);
      }
    }
  }

  // ---------- Collecting ----------

  datatype Collected<+T> = Collected(items: seq<T>, err: Option<string>)

  /** The callback of CollectFromScan: append the item, or note the error and stop. */
  function CollectStep<T>(): Step<Collected<T>, T> {
    (s: Collected<T>, e: Event<T>) =>
      match e
      case Failure(err) => (s.(err := Some(err)), false)
      case Item(item) => (s.(items := s.items + [item]), true)
  }

  function ItemsBeforeFailure<T>(events: seq<Event<T>>): seq<T> {
    if events == [] || events[0].Failure? then [] else [events[0].value] + ItemsBeforeFailure(events[1..])
  }

  function FirstFailure<T>(events: seq<Event<T>>): Option<string> {
    if events == [] then None
    else if events[0].Failure? then Some(events[0].error)
    else FirstFailure(events[1..])
  }

  /** Collecting gives the items before the first error, and that error. */
  lemma {:induction false} CollectIsPrefix<T>(s: Collected<T>, events: seq<Event<T>>)
    ensures Feed(CollectStep(), s, events).state ==
            Collected(s.items + ItemsBeforeFailure(events),
                      if FirstFailure(events).Some? then FirstFailure(events) else s.err)
    decreases |events|
  {
    if events == [] {
      assert s.items + [] == s.items;
    } else if events[0].Item? {
      CollectIsPrefix(s.(items := s.items + [events[0].value]), events[1..]);
      assert s.items + [events[0].value] + ItemsBeforeFailure(events[1..])
          == s.items + ([events[0].value] + ItemsBeforeFailure(events[1..]));
    } else {
      assert s.items + [] == s.items;
    }
  }

  function FilterRepos(repos: seq<Option<Repository>>, name: Option<string>, lower: string -> string)
    : seq<Option<Repository>>
  {
    if repos == [] then []
    else (if Passes(repos[0], name, lower) then [repos[0]] else []) + FilterRepos(repos[1..], name, lower)
  }

  lemma {:induction false} FilteredItems(events: seq<Event<Option<Repository>>>, name: Option<string>,
                                         lower: string -> string)
    ensures ItemsBeforeFailure(FilterEvents(events, name, lower)) ==
            FilterRepos(ItemsBeforeFailure(events), name, lower)
    ensures FirstFailure(FilterEvents(events, name, lower)) == FirstFailure(events)
  {
    if events != [] {
      var e := events[0];
      var rest := FilterEvents(events[1..], name, lower);
      FilteredItems(events[1..], name, lower);
      if e.Failure? || Passes(e.value, name, lower) {
        assert ([e] + rest)[0] == e && ([e] + rest)[1..] == rest;
      } else {
        assert [] + rest == rest;
      }
      if e.Item? {
        var items := ItemsBeforeFailure(events[1..]);
        assert ([e.value] + items)[0] == e.value && ([e.value] + items)[1..] == items;
      }
    }
  }

  lemma {:induction false} ItemsNeverStop(s: Collected<Option<Repository>>, items: seq<Option<Repository>>,
                                          name: Option<string>, lower: string -> string)
    ensures !Feed(FilterStep(CollectStep(), name, lower), s, Items(items)).stopped
    decreases |items|
  {
    if items != [] {
      assert Items(items)[1..] == Items(items[1..]);
      ItemsNeverStop(FilterStep(CollectStep(), name, lower)(s, Item(items[0])).0, items[1..], name, lower);
    }
  }

  /** The collector stops on errors only, and a failing page is the last one: its scan of GitHub's pages
      finishes if and only if the chain ends. */
  lemma {:induction false} CollectorNeedsTheEnd(s: Collected<Option<Repository>>, api: GitHub<Option<Repository>>,
                                                perPage: int, page: int, n: nat,
                                                name: Option<string>, lower: string -> string)
    ensures Finishes(FilterStep(CollectStep(), name, lower), s, GitHubChain(api, perPage), page, n)
            <==> Ends(GitHubChain(api, perPage), page, n)
    decreases n
  {
    var step := FilterStep(CollectStep<Option<Repository>>(), name, lower);
    var a := At(GitHubChain(api, perPage), page);
    if n > 0 && a.next.Some? {
      var opt := ListOptions(page, perPage);
      ItemsNeverStop(s, api[opt].value.items, name, lower);
      CollectorNeedsTheEnd(Feed(step, s, a.events).state, api, perPage, a.next.value, n - 1, name, lower);
    }
  }

  /** The three iterators together: collecting the filtered scan of GitHub's pages gives the repositories
      of the pages before the first failing one, filtered by name, and that page's error; over whatever lists
      GitHub serves, those of the lists, filtered, and the failure after them. */
  method CollectRepositories(api: GitHub<Option<Repository>>, name: Option<string>, lower: string -> string,
                             ghost n: nat)
    returns (repos: seq<Option<Repository>>, err: Option<string>)
    requires Ends(GitHubChain(api, 100), 0, n)
    ensures var events := Stream(Trail(GitHubChain(api, 100), 0, n));
            repos == FilterRepos(ItemsBeforeFailure(events), name, lower) && err == FirstFailure(events)
    ensures forall lists: seq<seq<Option<Repository>>>, failure: Option<string> ::
              GitHubServes(api, 100, lists, failure) ==>
              repos == FilterRepos(Joined(lists), name, lower) && err == failure
  {
    var step := FilterStep(CollectStep<Option<Repository>>(), name, lower);
    var c := new Consumer(step, Collected([], None));
    CollectorNeedsTheEnd(c.state, api, 100, 0, n, name, lower);
    EndsFinishes(step, c.state, GitHubChain(api, 100), 0, n);
    var _ := ScanGitHubList(api, [], c, n);
    ghost var events := Stream(Trail(GitHubChain(api, 100), 0, n));
    FilterComposes(CollectStep<Option<Repository>>(), Collected([], None), events, name, lower);
    CollectIsPrefix(Collected([], None), FilterEvents(events, name, lower));
    FilteredItems(events, name, lower);
    repos, err := c.state.items, c.state.err;
    forall lists: seq<seq<Option<Repository>>>, failure: Option<string> | GitHubServes(api, 100, lists, failure)
      ensures repos == FilterRepos(Joined(lists), name, lower) && err == failure
    {
      ServedItems(api, 100, lists, failure, n);
    }
  }

  lemma {:induction false} ToldItems<T>(items: seq<T>, failure: Option<string>)
    ensures var events := Items(items) + if failure.Some? then [Failure(failure.value)] else [];
            ItemsBeforeFailure(events) == items && FirstFailure(events) == failure
    decreases |items|
  {
    var events := Items(items) + if failure.Some? then [Failure(failure.value)] else [];
    if items != [] {
      ToldItems(items[1..], failure);
      assert events[1..] == Items(items[1..]) + if failure.Some? then [Failure(failure.value)] else [];
      assert [items[0]] + items[1..] == items;
    }
  }

  /** The events of a chain that ends are those of the lists it serves. */
  lemma ServedItems<T>(api: GitHub<T>, perPage: int, lists: seq<seq<T>>, failure: Option<string>, n: nat)
    requires GitHubServes(api, perPage, lists, failure) && Ends(GitHubChain(api, perPage), 0, n)
    ensures var events := Stream(Trail(GitHubChain(api, perPage), 0, n));
            ItemsBeforeFailure(events) == Joined(lists) && FirstFailure(events) == failure
  {
    GitHubHandsOut(api, perPage, lists, failure);
    RestIsTold(GitHubChain(api, perPage), GitHubNumber, lists, failure, 0, |lists| + 1);
    TrailSame(GitHubChain(api, perPage), 0, n, |lists| + 1);
    assert lists[0..] == lists;
    ToldItems(Joined(lists), failure);
  }

  lemma {:induction false} TrailSame<T>(chain: Chain<T>, page: int, n: nat, m: nat)
    requires Ends(chain, page, n) && Ends(chain, page, m)
    ensures Trail(chain, page, n) == Trail(chain, page, m)
    decreases n
  {
    if At(chain, page).next.Some? {
      TrailSame(chain, At(chain, page).next.value, n - 1, m - 1);
    }
  }

  // ---------- The repository listing ----------

  /** How far the listing's loop has got, or how it ended: it returns an error without the items, and it
      panics when it converts a nil repository. */
  datatype Listing = Listed(repos: seq<Repository>) | Failed(error: string) | Panicked

  /** The body of the listing's loop over the filtered scan. */
  function ListStep(): Step<Listing, Option<Repository>> {
    (s: Listing, e: Event<Option<Repository>>) =>
      match e
      case Failure(err) => (Failed(err), false)
      case Item(repo) =>
        if repo.None? then (Panicked, false)
        else if s.Listed? then (Listed(s.repos + [repo.value]), true)
        else (s, false)
  }

  function Present(repos: seq<Option<Repository>>): seq<Repository>
    requires None !in repos
  {
    seq(|repos|, i requires 0 <= i < |repos| => assert repos[i] in repos; repos[i].value)
  }

  /** What the listing answers, told of the items the filter lets through before the first error. */
  function ListingOf(items: seq<Option<Repository>>, error: Option<string>): Listing {
    if None in items then Panicked
    else if error.Some? then Failed(error.value)
    else Listed(Present(items))
  }

  lemma {:induction false} ListIsPrefix(repos: seq<Repository>, events: seq<Event<Option<Repository>>>)
    ensures Feed(ListStep(), Listed(repos), events).state ==
            match ListingOf(ItemsBeforeFailure(events), FirstFailure(events))
            case Listed(more) => Listed(repos + more)
            case other => other
    decreases |events|
  {
    if events == [] {
      assert repos + Present([]) == repos;
    } else if events[0].Item? && events[0].value.Some? {
      var head, rest := events[0].value, ItemsBeforeFailure(events[1..]);
      ListIsPrefix(repos + [head.value], events[1..]);
      assert None in [head] + rest <==> None in rest;
      if None !in rest {
        assert Present([head] + rest) == [head.value] + Present(rest);
        assert repos + [head.value] + Present(rest) == repos + ([head.value] + Present(rest));
      }
    } else if events[0].Item? {
      assert ItemsBeforeFailure(events)[0] == None;
    } else {
      assert ItemsBeforeFailure(events) == [];
    }
  }

  lemma ListingOfEvents(events: seq<Event<Option<Repository>>>, name: Option<string>, lower: string -> string)
    ensures Feed(FilterStep(ListStep(), name, lower), Listed([]), events).state ==
            ListingOf(FilterRepos(ItemsBeforeFailure(events), name, lower), FirstFailure(events))
  {
    FilterComposes(ListStep(), Listed([]), events, name, lower);
    ListIsPrefix([], FilterEvents(events, name, lower));
    FilteredItems(events, name, lower);
    assert forall more: seq<Repository> :: [] + more == more;
  }

  /** What the service makes of the repositories that pass the filter, and of the failure after them. */
  predicate Lists(listing: Listing, repos: seq<Option<Repository>>, failure: Option<string>) {
    if None in repos then listing == Panicked
    else if failure.Some? then listing == Failed(failure.value)
    else
      && listing.Listed? && |listing.repos| == |repos|
      && forall i :: 0 <= i < |repos| ==> repos[i] == Some(listing.repos[i])
  }

  lemma ListingTold(lists: seq<seq<Option<Repository>>>, failure: Option<string>, name: Option<string>,
                    lower: string -> string)
    ensures Lists(Feed(FilterStep(ListStep(), name, lower), Listed([]), Told(lists, failure)).state,
                  FilterRepos(Joined(lists), name, lower), failure)
  {
    ListingOfEvents(Told(lists, failure), name, lower);
    ToldItems(Joined(lists), failure);
    ListingIs(FilterRepos(Joined(lists), name, lower), failure);
  }

  lemma ListingIs(repos: seq<Option<Repository>>, failure: Option<string>)
    ensures Lists(ListingOf(repos, failure), repos, failure)
  {
    if None !in repos {
      forall i | 0 <= i < |repos|
        ensures repos[i] == Some(Present(repos)[i])
      {
        assert repos[i] in repos;
      }
    }
  }

  /** ListRepositories: an error takes the items with it, and an unfiltered nil repository is a panic. Over
      whatever lists GitHub serves, it lists those of their repositories that pass the filter. */
  method ListRepositories(api: GitHub<Option<Repository>>, name: Option<string>, lower: string -> string, ghost n: nat)
    returns (listing: Listing)
    requires Finishes(FilterStep(ListStep(), name, lower), Listed([]), GitHubChain(api, 100), 0, n)
    ensures var events := Stream(Visited(FilterStep(ListStep(), name, lower), Listed([]), GitHubChain(api, 100), 0, n));
            listing == ListingOf(FilterRepos(ItemsBeforeFailure(events), name, lower), FirstFailure(events))
    ensures forall lists: seq<seq<Option<Repository>>>, failure: Option<string> ::
              GitHubServes(api, 100, lists, failure) ==>
              Lists(listing, FilterRepos(Joined(lists), name, lower), failure)
  {
    var step := FilterStep(ListStep(), name, lower);
    var c := new Consumer(step, Listed([]));
    var _ := ScanGitHubList(api, [], c, n);
    listing := c.state;
    ListingOfEvents(Stream(Visited(step, Listed([]), GitHubChain(api, 100), 0, n)), name, lower);
    forall lists: seq<seq<Option<Repository>>>, failure: Option<string> | GitHubServes(api, 100, lists, failure)
      ensures Lists(listing, FilterRepos(Joined(lists), name, lower), failure)
    {
      ListingTold(lists, failure, name, lower);
    }
  }

  lemma {:induction false} NilsFiltered(repos: seq<Option<Repository>>, lower: string -> string)
    requires lower("") == ""
    ensures FilterRepos(repos, None, lower) == repos && None !in FilterRepos(repos, Some(""), lower)
    ensures None !in repos ==> FilterRepos(repos, Some(""), lower) == repos
  {
    if repos != [] {
      var head, rest := repos[0], repos[1..];
      NilsFiltered(rest, lower);
      assert repos == [head] + rest;
      if head.Some? {
        assert "" <= lower(head.value.name)[0..];
        assert Passes(head, Some(""), lower);
        assert FilterRepos(repos, Some(""), lower) == [head] + FilterRepos(rest, Some(""), lower);
      } else {
        assert FilterRepos(repos, Some(""), lower) == FilterRepos(rest, Some(""), lower);
      }
    }
  }

  /** The repository cache prints a missing name filter like an empty one. Over the same pages the two
      listings end alike if and only if no nil repository comes before the first error: without a filter it
      is a panic, with an empty one it is left out. */
  lemma EmptyNameIffNoNil(events: seq<Event<Option<Repository>>>, lower: string -> string)
    requires lower("") == ""
    ensures var items, error := ItemsBeforeFailure(events), FirstFailure(events);
            var unnamed := ListingOf(FilterRepos(items, None, lower), error);
            var named := ListingOf(FilterRepos(items, Some(""), lower), error);
            && (unnamed == Panicked <==> None in items)
            && named != Panicked
            && (unnamed == named <==> None !in items)
  {
    NilsFiltered(ItemsBeforeFailure(events), lower);
  }
}

/**
 * The worker side of the crawler, class `Scrapper` in main.py: the rule that
 * decides which extracted hrefs enter the shared frontier and visited set, the
 * seeding done by `main`, and the retry policy of the geolocation lookup.
 * The network, DNS, HTML parsing and the output file are not modelled; `urlparse`
 * is a function the caller supplies and the lookup's answers are a sequence.
 */
module Worker {
  import opened Types
  import Frontier
  import Visited

  // ---------------------------------------------------------------------------
  // Admission of extracted links
  // ---------------------------------------------------------------------------

  /** The parts of `urlparse(href)` the filter reads; Python's hostname may be None. */
  datatype Parsed = Parsed(scheme: Option<string>, hostname: Option<string>)

  /** The href filter: both the hostname and the scheme are present and non-empty. */
  predicate HasSchemeAndHost(p: Parsed)
  {
    p.hostname != None && p.hostname != Some("") && p.scheme != None && p.scheme != Some("")
  }

  /** The shared crawl state: the visited set and the frontier, as values. */
  datatype Shared = Shared(visited: Visited.VisitedState, frontier: Frontier.FrontierState)
  {
    predicate Valid() {
      visited.Valid() && frontier.Valid()
    }

    /** Both structures share one limit and their counters move together. */
    predicate Coupled() {
      visited.limit == frontier.limit && visited.count == frontier.count
    }

    /** Every URL waiting in the frontier is in the visited set. */
    predicate PendingVisited() {
      forall i :: 0 <= i < |frontier.list| ==> frontier.list[i] in visited.members
    }
  }

  /** One pass of the `for link in links` body: filter, test-and-admit, then enqueue. */
  function AdmitLink(s: Shared, href: Url, parse: Url -> Parsed): (r: Shared)
    ensures s.Valid() ==> r.Valid()
  {
    if !HasSchemeAndHost(parse(href)) then s
    else
      var admitted := s.visited.Admits(href);
      var visited := s.visited.CheckAndInsert(href);
      if admitted then Shared(visited, s.frontier.Insert(href)) else Shared(visited, s.frontier)
  }

  /** The shared state after the admission loop has run over `links` in order. */
  function Expand(s: Shared, links: seq<Url>, parse: Url -> Parsed): (r: Shared)
    ensures s.Valid() ==> r.Valid()
    ensures r.visited.limit == s.visited.limit && r.frontier.limit == s.frontier.limit
    ensures s.visited.count <= r.visited.count
    decreases |links|
  {
    if links == [] then s else Expand(AdmitLink(s, links[0], parse), links[1..], parse)
  }

  predicate Distinct(xs: seq<Url>)
  {
    forall i, j :: 0 <= i < j < |xs| ==> xs[i] != xs[j]
  }

  /** Two lists without repeats and without common URLs join into one without repeats. */
  lemma DistinctConcat(a: seq<Url>, b: seq<Url>)
    requires Distinct(a) && Distinct(b)
    requires forall x :: x in a ==> x !in b
    ensures Distinct(a + b)
  {
    forall i, j | 0 <= i < j < |a + b| ensures (a + b)[i] != (a + b)[j] {
      if j < |a| {
        assert (a + b)[i] == a[i] && (a + b)[j] == a[j];
      } else if i < |a| {
        assert (a + b)[i] == a[i] && (a + b)[j] == b[j - |a|];
        assert a[i] in a;
      } else {
        assert (a + b)[i] == b[i - |a|] && (a + b)[j] == b[j - |a|];
      }
    }
  }

  /** What one pass of the loop appends: the href itself, or nothing. */
  function QueuedHere(s: Shared, h: Url, parse: Url -> Parsed): seq<Url>
  {
    if AdmitLink(s, h, parse).frontier.list == s.frontier.list then [] else [h]
  }

  /** The hrefs the admission loop over `links` appends to the frontier, in order. */
  function Queued(s: Shared, links: seq<Url>, parse: Url -> Parsed): seq<Url>
    decreases |links|
  {
    if links == [] then []
    else QueuedHere(s, links[0], parse) + Queued(AdmitLink(s, links[0], parse), links[1..], parse)
  }

  /**
   * One pass: a filtered href changes nothing; any other is offered to
   * `check_and_insert` and, when admitted, to `insert`. So the href is appended
   * only if it passes the filter and is newly visited.
   */
  lemma AdmitLinkAppends(s: Shared, h: Url, parse: Url -> Parsed)
    ensures !HasSchemeAndHost(parse(h)) ==> AdmitLink(s, h, parse) == s
    ensures HasSchemeAndHost(parse(h)) ==>
      && AdmitLink(s, h, parse).visited == s.visited.CheckAndInsert(h)
      && AdmitLink(s, h, parse).frontier == if s.visited.Admits(h) then s.frontier.Insert(h) else s.frontier
    ensures var t := AdmitLink(s, h, parse);
      && t.frontier.list == s.frontier.list + QueuedHere(s, h, parse)
      && s.visited.members <= t.visited.members
      && t.visited.members - s.visited.members <= {h}
    ensures QueuedHere(s, h, parse) != [] ==>
      HasSchemeAndHost(parse(h)) && h !in s.visited.members && h in AdmitLink(s, h, parse).visited.members
  {
  }

  /** The admission loop only appends to the frontier and only adds to the visited set. */
  lemma {:induction false} ExpandAppends(s: Shared, links: seq<Url>, parse: Url -> Parsed)
    ensures var r := Expand(s, links, parse);
      && r.frontier.list == s.frontier.list + Queued(s, links, parse)
      && s.visited.members <= r.visited.members
    decreases |links|
  {
    if links != [] {
      var t := AdmitLink(s, links[0], parse);
      AdmitLinkAppends(s, links[0], parse);
      ExpandAppends(t, links[1..], parse);
      var here, later := QueuedHere(s, links[0], parse), Queued(t, links[1..], parse);
      assert Queued(s, links, parse) == here + later;
      assert Expand(s, links, parse) == Expand(t, links[1..], parse);
      assert s.frontier.list + here + later == s.frontier.list + (here + later);
    }
  }

  /**
   * Every href the admission loop appends is one of `links`, passes the filter, was
   * absent from the visited set before the loop and is in it afterwards.
   */
  lemma {:induction false} QueuedAreNewLinks(s: Shared, links: seq<Url>, parse: Url -> Parsed)
    ensures forall x :: x in Queued(s, links, parse) ==>
      && x in links
      && HasSchemeAndHost(parse(x))
      && x !in s.visited.members
      && x in Expand(s, links, parse).visited.members
    decreases |links|
  {
    if links != [] {
      var t := AdmitLink(s, links[0], parse);
      AdmitLinkAppends(s, links[0], parse);
      ExpandAppends(s, links, parse);
      ExpandAppends(t, links[1..], parse);
      QueuedAreNewLinks(t, links[1..], parse);
    }
  }

  /**
   * Progress: after the admission loop, every href of `links` that passes the filter
   * is in the visited set, unless the visited set's counter has reached its limit.
   */
  lemma {:induction false} ExpandOffersEveryLink(s: Shared, links: seq<Url>, parse: Url -> Parsed)
    ensures var r := Expand(s, links, parse);
      forall x :: x in links && HasSchemeAndHost(parse(x)) ==>
        x in r.visited.members || r.visited.count >= r.visited.limit
    decreases |links|
  {
    if links != [] {
      var t := AdmitLink(s, links[0], parse);
      var r := Expand(t, links[1..], parse);
      ExpandOffersEveryLink(t, links[1..], parse);
      ExpandAppends(t, links[1..], parse);
      AdmitLinkAppends(s, links[0], parse);
      assert Expand(s, links, parse) == r;
      forall x | x in links && HasSchemeAndHost(parse(x))
        ensures x in r.visited.members || r.visited.count >= r.visited.limit
      {
        if x != links[0] {
          assert x in links[1..];
        }
      }
    }
  }

  /** The admission loop appends no href twice. */
  lemma {:induction false} QueuedDistinct(s: Shared, links: seq<Url>, parse: Url -> Parsed)
    ensures Distinct(Queued(s, links, parse))
    decreases |links|
  {
    if links != [] {
      var t := AdmitLink(s, links[0], parse);
      AdmitLinkAppends(s, links[0], parse);
      ExpandAppends(s, links, parse);
      QueuedAreNewLinks(t, links[1..], parse);
      QueuedDistinct(t, links[1..], parse);
      DistinctConcat(QueuedHere(s, links[0], parse), Queued(t, links[1..], parse));
    }
  }

  /**
   * With the counters coupled, as `main` leaves them, the admission loop keeps them
   * coupled and every href it admits to the visited set also reaches the frontier.
   */
  lemma {:induction false} ExpandKeepsCoupled(s: Shared, links: seq<Url>, parse: Url -> Parsed)
    requires s.Coupled()
    ensures Expand(s, links, parse).Coupled()
    ensures forall x :: x in Expand(s, links, parse).visited.members && x !in s.visited.members ==>
      x in Queued(s, links, parse)
    decreases |links|
  {
    if links != [] {
      var t := AdmitLink(s, links[0], parse);
      AdmitLinkAppends(s, links[0], parse);
      ExpandAppends(s, links, parse);
      ExpandKeepsCoupled(t, links[1..], parse);
    }
  }

  /** The admission loop keeps every pending URL in the visited set. */
  lemma ExpandKeepsPendingVisited(s: Shared, links: seq<Url>, parse: Url -> Parsed)
    requires s.PendingVisited()
    ensures Expand(s, links, parse).PendingVisited()
  {
    ExpandAppends(s, links, parse);
    QueuedAreNewLinks(s, links, parse);
    var r := Expand(s, links, parse);
    var q := Queued(s, links, parse);
    forall i | 0 <= i < |r.frontier.list| ensures r.frontier.list[i] in r.visited.members {
      if i >= |s.frontier.list| {
        assert r.frontier.list[i] == q[i - |s.frontier.list|];
      } else {
        assert r.frontier.list[i] == s.frontier.list[i];
      }
    }
  }

  /** The seeding in `main`: both structures get the same seed list and the same limit. */
  function Seed(limit: int, urls: seq<Url>): (r: Shared)
    ensures r.Valid() && r.Coupled() && r.PendingVisited()
    ensures r.frontier.list == urls && r.visited.members == Visited.ElementsOf(urls)
  {
    Shared(Visited.VisitedState({}, limit, 0).BatchInsert(urls),
           Frontier.FrontierState([], limit, 0).BatchInsert(urls))
  }

  /** The limit `main` gives both structures. */
  const Limit: int := 3000

  // ---------------------------------------------------------------------------
  // The crawl as a sequence of atomic steps
  // ---------------------------------------------------------------------------

  /** A step of some worker: pop the next URL, or run the admission loop over a page's hrefs. */
  datatype Event = Next | Links(hrefs: seq<Url>)

  function CrawlStep(s: Shared, e: Event, parse: Url -> Parsed): Shared
  {
    match e
    case Next => Shared(s.visited, s.frontier.Pop())
    case Links(hrefs) => Expand(s, hrefs, parse)
  }

  /** The shared state after the events in order. */
  function Crawl(s: Shared, events: seq<Event>, parse: Url -> Parsed): Shared
    decreases |events|
  {
    if events == [] then s else Crawl(CrawlStep(s, events[0], parse), events[1..], parse)
  }

  /** The URLs popped for fetching by the `Next` events, in order. */
  function Popped(s: Shared, events: seq<Event>, parse: Url -> Parsed): seq<Url>
    decreases |events|
  {
    if events == [] then []
    else
      var here := if events[0].Next? && s.frontier.list != [] then [s.frontier.list[0]] else [];
      here + Popped(CrawlStep(s, events[0], parse), events[1..], parse)
  }

  /** What holds of the URLs fetched so far (`done`) and the shared state between steps. */
  predicate CrawlInvariant(done: seq<Url>, s: Shared)
  {
    && s.Valid() && s.Coupled()
    && Distinct(done + s.frontier.list)
    && forall x :: x in done + s.frontier.list ==> x in s.visited.members
  }

  /**
   * Every interleaving of pops and admission loops keeps the invariant: no URL is
   * fetched or queued twice, and everything fetched or queued has been visited.
   */
  lemma {:induction false} CrawlKeepsInvariant(done: seq<Url>, s: Shared, events: seq<Event>, parse: Url -> Parsed)
    requires CrawlInvariant(done, s)
    ensures CrawlInvariant(done + Popped(s, events, parse), Crawl(s, events, parse))
    decreases |events|
  {
    if events != [] {
      var t := CrawlStep(s, events[0], parse);
      var here := if events[0].Next? && s.frontier.list != [] then [s.frontier.list[0]] else [];
      assert Popped(s, events, parse) == here + Popped(t, events[1..], parse);
      match events[0] {
        case Next =>
          if s.frontier.list != [] {
            assert done + here + t.frontier.list == done + s.frontier.list;
          } else {
            assert t == s && done + here == done;
          }
        case Links(hrefs) =>
          CrawlLinksStep(done, s, hrefs, parse);
          assert done + here == done;
      }
      CrawlKeepsInvariant(done + here, t, events[1..], parse);
      assert Crawl(s, events, parse) == Crawl(t, events[1..], parse);
      assert done + here + Popped(t, events[1..], parse) == done + Popped(s, events, parse);
    } else {
      assert done + Popped(s, events, parse) == done;
    }
  }

  /** The admission-loop case of CrawlKeepsInvariant. */
  lemma CrawlLinksStep(done: seq<Url>, s: Shared, links: seq<Url>, parse: Url -> Parsed)
    requires CrawlInvariant(done, s)
    ensures CrawlInvariant(done, Expand(s, links, parse))
  {
    ExpandAppends(s, links, parse);
    QueuedAreNewLinks(s, links, parse);
    QueuedDistinct(s, links, parse);
    ExpandKeepsCoupled(s, links, parse);
    var r := Expand(s, links, parse);
    var q := Queued(s, links, parse);
    assert done + r.frontier.list == (done + s.frontier.list) + q;
    DistinctConcat(done + s.frontier.list, q);
  }

  /** The seeding of `main` from a list without repeats establishes the invariant. */
  lemma SeedEstablishesInvariant(limit: int, urls: seq<Url>)
    requires Distinct(urls)
    ensures CrawlInvariant([], Seed(limit, urls))
  {
    assert [] + urls == urls;
  }

  /** The URLs fetched so far, under the invariant, are distinct and visited. */
  lemma DoneDistinctAndVisited(done: seq<Url>, s: Shared)
    requires CrawlInvariant(done, s)
    ensures Distinct(done)
    ensures forall x :: x in done ==> x in s.visited.members
  {
    var all := done + s.frontier.list;
    forall i, j | 0 <= i < j < |done| ensures done[i] != done[j] {
      assert all[i] == done[i] && all[j] == done[j];
    }
    forall x | x in done ensures x in s.visited.members {
      assert x in all;
    }
  }

  /**
   * From a seed list without repeats, no URL is ever fetched twice and every URL
   * fetched was admitted to the visited set.
   */
  lemma FetchedAtMostOnce(urls: seq<Url>, events: seq<Event>, parse: Url -> Parsed)
    requires Distinct(urls)
    ensures Distinct(Popped(Seed(Limit, urls), events, parse))
    ensures forall x :: x in Popped(Seed(Limit, urls), events, parse) ==>
      x in Crawl(Seed(Limit, urls), events, parse).visited.members
  {
    var s := Seed(Limit, urls);
    SeedEstablishesInvariant(Limit, urls);
    CrawlKeepsInvariant([], s, events, parse);
    var fetched := Popped(s, events, parse);
    assert [] + fetched == fetched;
    DoneDistinctAndVisited(fetched, Crawl(s, events, parse));
  }

  /**
   * Why FetchedAtMostOnce needs seeds without repeats: `main` seeds from the lines of
   * initial.txt as they are, and a line given twice is popped, and so fetched, twice.
   */
  lemma RepeatedSeedFetchedTwice(u: Url, parse: Url -> Parsed)
    ensures Popped(Seed(Limit, [u, u]), [Next, Next], parse) == [u, u]
  {
    var s := Seed(Limit, [u, u]);
    var t := CrawlStep(s, Next, parse);
    assert t.frontier.list == [u];
    assert [Next, Next][1..] == [Next];
    assert Popped(t, [Next], parse) == [u] + Popped(CrawlStep(t, Next, parse), [], parse);
  }

  // ---------------------------------------------------------------------------
  // Geolocation lookup with retries
  // ---------------------------------------------------------------------------

  /** The sentinel `get_location` returns when no country is found. */
  const NotFound: string := "Country Not Found"

  /** `for _ in range(3)`. */
  const MaxAttempts: nat := 3

  /** One attempt at the lookup service: an exception, or the decoded JSON reply's fields. */
  datatype LookupOutcome = Raised | Reply(status: Option<string>, country: Option<string>)

  /** An attempt that ends the retries: status "success" and a non-empty country. */
  predicate Hit(o: LookupOutcome)
  {
    o.Reply? && o.status == Some("success") && o.country.Some? && o.country.value != ""
  }

  /** How many of the given answers the retry loop can consume. */
  function Budget(outcomes: seq<LookupOutcome>): (n: nat)
    ensures n <= MaxAttempts && n <= |outcomes|
    ensures n == MaxAttempts || n == |outcomes|
  {
    if |outcomes| < MaxAttempts then |outcomes| else MaxAttempts
  }

  /** The index of the first hit, if there is one. */
  function FirstHit(os: seq<LookupOutcome>): (r: Option<nat>)
    ensures r.None? <==> forall i :: 0 <= i < |os| ==> !Hit(os[i])
    ensures r.Some? ==>
      && r.value < |os| && Hit(os[r.value])
      && forall j :: 0 <= j < r.value ==> !Hit(os[j])
    decreases |os|
  {
    if os == [] then None
    else if Hit(os[0]) then Some(0)
    else match FirstHit(os[1..])
      case None => None
      case Some(i) => Some(i + 1)
  }

  /**
   * The result of `get_location(ip)` when the attempts are answered by `outcomes`:
   * the sentinel for an empty IP or when none of the first three attempts is a hit,
   * otherwise the country of the first hit.
   */
  function Location(ip: string, outcomes: seq<LookupOutcome>): (r: string)
    ensures ip == "" ==> r == NotFound
    ensures ip != "" && (forall i :: 0 <= i < Budget(outcomes) ==> !Hit(outcomes[i])) ==> r == NotFound
    ensures forall i ::
      (ip != "" && 0 <= i < Budget(outcomes) && Hit(outcomes[i]) && (forall j :: 0 <= j < i ==> !Hit(outcomes[j])))
      ==> r == outcomes[i].country.value
    ensures r == NotFound || exists i :: 0 <= i < MaxAttempts && i < |outcomes| && Hit(outcomes[i]) && r == outcomes[i].country.value
  {
    if ip == "" then NotFound
    else match FirstHit(outcomes[..Budget(outcomes)])
      case None => NotFound
      case Some(i) => outcomes[i].country.value
  }

  /** How many lookups `get_location(ip)` makes: none for an empty IP, then up to the first hit. */
  function AttemptsMade(ip: string, outcomes: seq<LookupOutcome>): (n: nat)
    ensures n <= MaxAttempts && n <= |outcomes|
    ensures ip == "" ==> n == 0
    ensures ip != "" ==> forall j :: 0 <= j < n - 1 ==> !Hit(outcomes[j])
    ensures ip != "" && n < Budget(outcomes) ==> 0 < n && Hit(outcomes[n - 1])
  {
    if ip == "" then 0
    else match FirstHit(outcomes[..Budget(outcomes)])
      case None => Budget(outcomes)
      case Some(i) => i + 1
  }

  /** Answers after the third are never consulted. */
  lemma LaterAnswersIgnored(ip: string, outcomes: seq<LookupOutcome>, more: seq<LookupOutcome>)
    requires |outcomes| >= MaxAttempts
    ensures Location(ip, outcomes + more) == Location(ip, outcomes)
    ensures AttemptsMade(ip, outcomes + more) == AttemptsMade(ip, outcomes)
  {
    assert (outcomes + more)[..MaxAttempts] == outcomes[..MaxAttempts];
  }

  // ---------------------------------------------------------------------------
  // The worker object
  // ---------------------------------------------------------------------------

  /** A crawler worker, sharing the visited set and the frontier with the others. */
  class Scrapper {
    const id: int
    const visited: Visited.SafeSet
    const frontier: Frontier.SafeList

    constructor (id: int, visited: Visited.SafeSet, frontier: Frontier.SafeList)
      ensures this.id == id && this.visited == visited && this.frontier == frontier
    {
      this.id := id;
      this.visited := visited;
      this.frontier := frontier;
    }

    /** The shared state as a value. */
    function SharedState(): Shared
      reads visited, frontier
    {
      Shared(visited.State(), frontier.State())
    }

    /**
     * The `for link in links` loop of `run`: each href whose parse has a hostname and
     * a scheme is offered to `check_and_insert`, and enqueued when that returns true.
     */
    method ExpandLinks(links: seq<Url>, parse: Url -> Parsed)
      requires visited.Valid() && frontier.Valid()
      modifies visited, frontier
      ensures visited.Valid() && frontier.Valid()
      ensures SharedState() == Expand(old(SharedState()), links, parse)
    {
      for i := 0 to |links|
        invariant visited.Valid() && frontier.Valid()
        invariant Expand(SharedState(), links[i..], parse) == Expand(old(SharedState()), links, parse)
      {
        assert links[i..][1..] == links[i + 1..];
        var urlString := links[i];
        var parsed := parse(urlString);
        if parsed.hostname == Some("") || parsed.hostname.None? {
          continue;
        }
        if parsed.scheme == Some("") || parsed.scheme.None? {
          continue;
        }
        var admitted := visited.CheckAndInsert(urlString);
        if admitted {
          frontier.Insert(urlString);
        }
      }
      assert links[|links|..] == [];
    }

    /**
     * `get_location`: the sentinel for an empty IP; otherwise up to three lookups,
     * skipping any that raised or whose status is not "success", returning the first
     * non-empty country, and the sentinel once the attempts run out.
     */
    method GetLocation(ip: string, outcomes: seq<LookupOutcome>) returns (location: string, attempts: nat)
      ensures location == Location(ip, outcomes)
      ensures attempts == AttemptsMade(ip, outcomes)
    {
      if ip == "" {
        return NotFound, 0;
      }
      attempts := 0;
      while attempts < MaxAttempts && attempts < |outcomes|
        invariant attempts <= Budget(outcomes)
        invariant forall j :: 0 <= j < attempts ==> !Hit(outcomes[j])
      {
        var response := outcomes[attempts];
        attempts := attempts + 1;
        if response.Raised? || response.status != Some("success") {
          continue;
        }
        var country := response.country;
        if country.Some? && country.value != "" {
          FirstHitAt(outcomes[..Budget(outcomes)], attempts - 1);
          return country.value, attempts;
        }
      }
      location := NotFound;
    }
  }

  /** A hit preceded only by misses is the first hit. */
  lemma FirstHitAt(os: seq<LookupOutcome>, k: nat)
    requires k < |os| && Hit(os[k]) && forall j :: 0 <= j < k ==> !Hit(os[j])
    ensures FirstHit(os) == Some(k)
  {
  }
}

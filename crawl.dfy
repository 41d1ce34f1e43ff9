/**
 * The scanner's crawler: `normalizeUrl` and the breadth-first `discoverLinks`.
 * URL parsing, resolution of an `href` against its page and serialisation
 * are the WHATWG URL Standard's and stay outside the model: a URL is the
 * parts the crawler reads or writes, and distinct values stand for distinct
 * serialisations.
 */
module Crawl {

  datatype Url = Url(origin: string, path: string, query: string, fragment: string)

  predicate EndsWithSlash(p: string) {
    |p| > 0 && p[|p| - 1] == '/'
  }

  /** `normalizeUrl`: the fragment is cleared and one trailing `/` is dropped unless the path is `/`. */
  function NormalizeUrl(u: Url): (r: Url)
    ensures r.origin == u.origin && r.query == u.query && r.fragment == ""
    ensures r.path == u.path <==> u.path == "/" || !EndsWithSlash(u.path)
    ensures r.path != u.path ==> r.path + "/" == u.path
  {
    if u.path != "/" && EndsWithSlash(u.path) then Url(u.origin, u.path[..|u.path| - 1], u.query, "")
    else Url(u.origin, u.path, u.query, "")
  }

  predicate EndsWithDoubleSlash(p: string) {
    |p| >= 2 && p[|p| - 1] == '/' && p[|p| - 2] == '/'
  }

  /**
   * Normalising twice changes nothing more exactly when the path is not
   * longer than `//` and ending in `//`: `/a//` becomes `/a/`, then `/a`.
   */
  lemma NormalizeIdempotentIff(u: Url)
    ensures NormalizeUrl(NormalizeUrl(u)) == NormalizeUrl(u) <==> !(|u.path| >= 3 && EndsWithDoubleSlash(u.path))
  {
    var p := u.path;
    var once := NormalizeUrl(u).path;
    if |p| >= 3 && EndsWithDoubleSlash(p) {
      assert once == p[..|p| - 1];
      assert once != "/" by { assert |once| >= 2; }
      assert EndsWithSlash(once);
      assert |NormalizeUrl(NormalizeUrl(u)).path| == |p| - 2;
    } else if once != p {
      assert once == p[..|p| - 1];
      assert once == "/" || !EndsWithSlash(once) by {
        if |p| == 2 {
          assert p == "/" + [p[1]] || p[0] != '/';
        }
      }
    }
  }

  /** A path outside `/api` stays outside it when normalised, since normalising only shortens it. */
  lemma NormalizeKeepsNonApi(u: Url)
    requires !("/api" <= u.path)
    ensures !("/api" <= NormalizeUrl(u).path)
  {
    var r := NormalizeUrl(u).path;
    assert r <= u.path by {
      if r != u.path {
        assert u.path == r + "/";
      }
    }
  }

  /** What `new URL(href, page)` gives: a resolved URL, or a throw. */
  datatype Href = Resolves(url: Url) | Unresolvable

  /** A page in the browser: the `href`s of its anchors, or navigation or evaluation threw. */
  datatype Page = Loaded(hrefs: seq<Href>) | LoadFailed

  /** A queue entry `{ url, depth }`. */
  datatype Entry = Entry(url: Url, depth: int)

  /** `discoverLinks`'s result. */
  datatype Discovery = Discovery(pagesFound: nat, maxDepthFound: int, urls: seq<Url>, sampleUrls: seq<Url>)

  predicate SameOriginNonApi(u: Url, origin: string) {
    u.origin == origin && !("/api" <= u.path)
  }

  /** The resolved `href`s up to the first one that throws. */
  function ResolvedPrefix(hrefs: seq<Href>): seq<Url> {
    if hrefs == [] || hrefs[0].Unresolvable? then []
    else [hrefs[0].url] + ResolvedPrefix(hrefs[1..])
  }

  /** The prefix is exactly the resolved `href`s before the first unresolvable one. */
  lemma {:induction false} ResolvedPrefixSpec(hrefs: seq<Href>)
    ensures |ResolvedPrefix(hrefs)| <= |hrefs|
    ensures forall k :: 0 <= k < |ResolvedPrefix(hrefs)| ==> hrefs[k] == Resolves(ResolvedPrefix(hrefs)[k])
    ensures |ResolvedPrefix(hrefs)| < |hrefs| ==> hrefs[|ResolvedPrefix(hrefs)|] == Unresolvable
  {
    if hrefs != [] && hrefs[0].Resolves? {
      ResolvedPrefixSpec(hrefs[1..]);
    }
  }

  /** The normalised forms of the same-origin links outside `/api`, in link order. */
  function Eligible(urls: seq<Url>, origin: string): seq<Url> {
    if urls == [] then []
    else
      var u := urls[|urls| - 1];
      if SameOriginNonApi(u, origin) then Eligible(urls[..|urls| - 1], origin) + [NormalizeUrl(u)]
      else Eligible(urls[..|urls| - 1], origin)
  }

  /**
   * An eligible link is normalised, same-origin and outside `/api`, and every
   * same-origin link outside `/api` is eligible in its normalised form.
   */
  lemma {:induction false} EligibleSpec(urls: seq<Url>, origin: string)
    ensures |Eligible(urls, origin)| <= |urls|
    ensures forall v :: v in Eligible(urls, origin) ==> v.origin == origin && v.fragment == "" && !("/api" <= v.path)
    ensures forall u :: u in urls && SameOriginNonApi(u, origin) ==> NormalizeUrl(u) in Eligible(urls, origin)
  {
    if urls != [] {
      var init := urls[..|urls| - 1];
      var u := urls[|urls| - 1];
      EligibleSpec(init, origin);
      if SameOriginNonApi(u, origin) {
        NormalizeKeepsNonApi(u);
      }
      assert forall w :: w in urls ==> w in init || w == u by {
        assert urls == init + [u];
      }
    }
  }

  /** The links a page offers the crawl, whatever has been visited. */
  function Outlinks(page: Page, origin: string): seq<Url> {
    match page
    case Loaded(hrefs) => Eligible(ResolvedPrefix(hrefs), origin)
    case LoadFailed => []
  }

  /** The entries the link loop pushes for resolved links `urls`: the eligible ones not yet visited, at `depth`. */
  function Pushed(urls: seq<Url>, origin: string, visited: seq<Url>, depth: int): seq<Entry> {
    if urls == [] then []
    else
      var u := urls[|urls| - 1];
      var init := Pushed(urls[..|urls| - 1], origin, visited, depth);
      if SameOriginNonApi(u, origin) && NormalizeUrl(u) !in visited then init + [Entry(NormalizeUrl(u), depth)] else init
  }

  /**
   * A pushed entry is an eligible, unvisited link at `depth`, and every
   * eligible link whose normalised form is unvisited is pushed.
   */
  lemma {:induction false} PushedSpec(urls: seq<Url>, origin: string, visited: seq<Url>, depth: int)
    ensures forall e :: e in Pushed(urls, origin, visited, depth) ==> e.depth == depth && e.url in Eligible(urls, origin) && e.url !in visited
    ensures forall u :: u in urls && SameOriginNonApi(u, origin) && NormalizeUrl(u) !in visited ==> Entry(NormalizeUrl(u), depth) in Pushed(urls, origin, visited, depth)
  {
    if urls != [] {
      var init := urls[..|urls| - 1];
      var u := urls[|urls| - 1];
      PushedSpec(init, origin, visited, depth);
      assert forall w :: w in urls ==> w in init || w == u by {
        assert urls == init + [u];
      }
    }
  }

  /** Every eligible link whose normalised form is unvisited is pushed, one entry at `depth`. */
  lemma {:induction false} PushedCovers(urls: seq<Url>, origin: string, visited: seq<Url>, depth: int)
    ensures forall v :: v in Eligible(urls, origin) && v !in visited ==> Entry(v, depth) in Pushed(urls, origin, visited, depth)
  {
    if urls != [] {
      PushedCovers(urls[..|urls| - 1], origin, visited, depth);
    }
  }

  /** One more `href` of the link loop: a resolved one extends the prefix, an unresolvable one ends it. */
  lemma ResolvedStep(hrefs: seq<Href>, i: nat, resolved: seq<Url>)
    requires i < |hrefs| && ResolvedPrefix(hrefs) == resolved + ResolvedPrefix(hrefs[i..])
    ensures hrefs[i].Unresolvable? ==> ResolvedPrefix(hrefs) == resolved
    ensures hrefs[i].Resolves? ==> ResolvedPrefix(hrefs) == (resolved + [hrefs[i].url]) + ResolvedPrefix(hrefs[i + 1..])
  {
    assert hrefs[i..][1..] == hrefs[i + 1..];
    if hrefs[i].Resolves? {
      assert ResolvedPrefix(hrefs[i..]) == [hrefs[i].url] + ResolvedPrefix(hrefs[i + 1..]);
      assert resolved + ([hrefs[i].url] + ResolvedPrefix(hrefs[i + 1..])) == (resolved + [hrefs[i].url]) + ResolvedPrefix(hrefs[i + 1..]);
    } else {
      assert ResolvedPrefix(hrefs[i..]) == [];
    }
  }

  lemma PushedStep(urls: seq<Url>, u: Url, origin: string, visited: seq<Url>, depth: int)
    ensures Pushed(urls + [u], origin, visited, depth)
         == Pushed(urls, origin, visited, depth) + (if SameOriginNonApi(u, origin) && NormalizeUrl(u) !in visited then [Entry(NormalizeUrl(u), depth)] else [])
  {
    assert (urls + [u])[..|urls + [u]| - 1] == urls;
  }

  /**
   * The `for (const href of links)` loop: each resolved same-origin link
   * outside `/api` whose normalised form is unvisited is pushed at `depth`;
   * a link that does not resolve throws and ends the loop.
   */
  method EnqueueLinks(hrefs: seq<Href>, origin: string, visited: seq<Url>, depth: int, queue: seq<Entry>) returns (q: seq<Entry>)
    ensures q == queue + Pushed(ResolvedPrefix(hrefs), origin, visited, depth)
  {
    q := queue;
    ghost var resolved: seq<Url> := [];
    var i := 0;
    while i < |hrefs|
      invariant 0 <= i <= |hrefs|
      invariant ResolvedPrefix(hrefs) == resolved + ResolvedPrefix(hrefs[i..])
      invariant q == queue + Pushed(resolved, origin, visited, depth)
    {
      ResolvedStep(hrefs, i, resolved);
      if hrefs[i].Unresolvable? {
        break;
      }
      var resolvedUrl := hrefs[i].url;
      PushedStep(resolved, resolvedUrl, origin, visited, depth);
      resolved := resolved + [resolvedUrl];
      if resolvedUrl.origin == origin && !("/api" <= resolvedUrl.path) {
        var normalized := NormalizeUrl(resolvedUrl);
        if normalized !in visited {
          q := q + [Entry(normalized, depth)];
        }
      }
      i := i + 1;
    }
    if i == |hrefs| {
      assert hrefs[i..] == [];
      assert resolved + [] == resolved;
    }
  }

  ghost predicate NoDuplicates<T>(s: seq<T>) {
    forall i, j :: 0 <= i < j < |s| ==> s[i] != s[j]
  }

  function Min(a: int, b: int): int {
    if a <= b then a else b
  }

  function Max(a: int, b: int): int {
    if a >= b then a else b
  }

  /** What the visit list and its ghost depths and parents record about the crawl so far. */
  ghost predicate CrawlTree(base: Url, maxDepth: real, fetch: Url -> Page, visited: seq<Url>, depths: seq<int>, parents: seq<int>, maxDepthFound: int) {
    && |depths| == |visited| && |parents| == |visited|
    && NoDuplicates(visited)
    && (forall i :: 0 <= i < |depths| ==> 0 <= depths[i] && depths[i] as real <= maxDepth && depths[i] <= maxDepthFound)
    && (if visited == [] then maxDepthFound == 0 else maxDepthFound in depths)
    && (visited != [] ==> visited[0] == NormalizeUrl(base) && depths[0] == 0)
    && (forall i {:trigger ParentLink(base, fetch, visited, depths, parents, i)} :: 0 < i < |visited| ==>
          ParentLink(base, fetch, visited, depths, parents, i))
  }

  /** Visited URL `i` was queued by an earlier visited page, one level below it, from that page's links. */
  ghost predicate ParentLink(base: Url, fetch: Url -> Page, visited: seq<Url>, depths: seq<int>, parents: seq<int>, i: int)
    requires 0 < i < |visited| && |depths| == |visited| && |parents| == |visited|
  {
    0 <= parents[i] < i && depths[i] == depths[parents[i]] + 1
    && visited[i] in Outlinks(fetch(visited[parents[i]]), base.origin)
  }

  /** The crawl's start entry: the normalised base URL at depth 0. */
  function Start(base: Url): Entry {
    Entry(NormalizeUrl(base), 0)
  }

  /**
   * Every queued entry is the start entry (pusher -1) or was pushed by a
   * visited page, at that page's depth plus one, from its links.
   */
  ghost predicate QueueFrom(base: Url, fetch: Url -> Page, visited: seq<Url>, depths: seq<int>, queue: seq<Entry>, from: seq<int>)
    requires |depths| == |visited|
  {
    && |from| == |queue|
    && (forall k {:trigger from[k]} :: 0 <= k < |from| ==>
          if from[k] == -1 then queue[k] == Start(base)
          else 0 <= from[k] < |visited| && queue[k].depth == depths[from[k]] + 1
               && queue[k].url in Outlinks(fetch(visited[from[k]]), base.origin))
  }

  /** The loop variables of `discoverLinks`. */
  datatype CrawlState = CrawlState(queue: seq<Entry>, visited: seq<Url>, maxDepthFound: int)

  /** Ghost bookkeeping: the depth and parent of each visited URL, the pusher of each queued entry. */
  datatype Provenance = Provenance(depths: seq<int>, parents: seq<int>, from: seq<int>)

  ghost predicate CrawlInv(base: Url, maxDepth: real, fetch: Url -> Page, st: CrawlState, pv: Provenance) {
    && CrawlTree(base, maxDepth, fetch, st.visited, pv.depths, pv.parents, st.maxDepthFound)
    && QueueFrom(base, fetch, st.visited, pv.depths, st.queue, pv.from)
    && (st.visited == [] ==> st.queue == [Start(base)] || (st.queue == [] && maxDepth < 0.0))
  }

  /** `v` is visited, or waits in the queue at a depth that will not be skipped. */
  ghost predicate Reached(maxDepth: real, visited: seq<Url>, queue: seq<Entry>, v: Url) {
    v in visited || exists k :: 0 <= k < |queue| && queue[k].url == v && queue[k].depth as real <= maxDepth
  }

  /** The depths of the visits and of the queue never go down: the crawl is breadth-first. */
  ghost predicate LevelOrder(depths: seq<int>, queue: seq<Entry>) {
    && (forall i, j :: 0 <= i < j < |depths| ==> depths[i] <= depths[j])
    && (forall i, j :: 0 <= i < j < |queue| ==> queue[i].depth <= queue[j].depth)
    && (queue != [] ==> queue[|queue| - 1].depth <= queue[0].depth + 1)
    && (depths != [] && queue != [] ==> depths[|depths| - 1] <= queue[0].depth)
  }

  /** Every link of a visited page that is within the depth budget one level down has been reached. */
  ghost predicate LinksReached(base: Url, maxDepth: real, fetch: Url -> Page, visited: seq<Url>, depths: seq<int>, queue: seq<Entry>)
    requires |depths| == |visited|
  {
    forall i, v :: 0 <= i < |visited| && (depths[i] + 1) as real <= maxDepth && v in Outlinks(fetch(visited[i]), base.origin) ==>
      Reached(maxDepth, visited, queue, v)
  }

  /** The frontier of the crawl: level order, and no link of a visited page lost. */
  ghost predicate Frontier(base: Url, maxDepth: real, fetch: Url -> Page, visited: seq<Url>, depths: seq<int>, queue: seq<Entry>) {
    |depths| == |visited| && LevelOrder(depths, queue) && LinksReached(base, maxDepth, fetch, visited, depths, queue)
  }

  /** Dropping a head entry that is already visited or too deep loses nothing. */
  lemma SkipKeepsFrontier(base: Url, maxDepth: real, fetch: Url -> Page, visited: seq<Url>, depths: seq<int>, queue: seq<Entry>)
    requires queue != [] && Frontier(base, maxDepth, fetch, visited, depths, queue)
    requires queue[0].url in visited || queue[0].depth as real > maxDepth
    ensures Frontier(base, maxDepth, fetch, visited, depths, queue[1..])
  {
    var tail := queue[1..];
    forall i, v | 0 <= i < |visited| && (depths[i] + 1) as real <= maxDepth && v in Outlinks(fetch(visited[i]), base.origin)
      ensures Reached(maxDepth, visited, tail, v)
    {
      assert Reached(maxDepth, visited, queue, v);
      if v !in visited {
        var k :| 0 <= k < |queue| && queue[k].url == v && queue[k].depth as real <= maxDepth;
        assert k != 0;
        assert tail[k - 1] == queue[k];
      }
    }
  }

  /** Visiting the head entry and queueing its new links one level down keeps the level order. */
  lemma VisitKeepsOrder(depths: seq<int>, queue: seq<Entry>, added: seq<Entry>)
    requires queue != [] && LevelOrder(depths, queue)
    requires forall e :: e in added ==> e.depth == queue[0].depth + 1
    ensures LevelOrder(depths + [queue[0].depth], queue[1..] + added)
  {
    var q := queue[1..] + added;
    forall i, j | 0 <= i < j < |q| ensures q[i].depth <= q[j].depth {
      if j >= |queue| - 1 {
        assert q[j] == added[j - (|queue| - 1)] && q[j] in added;
        if i < |queue| - 1 {
          assert q[i] == queue[i + 1];
        } else {
          assert q[i] == added[i - (|queue| - 1)] && q[i] in added;
        }
      } else {
        assert q[i] == queue[i + 1] && q[j] == queue[j + 1];
      }
    }
    if q != [] {
      if |queue| > 1 {
        assert q[0] == queue[1];
      } else {
        assert q[0] == added[0] && q[0] in added;
      }
      if added != [] {
        assert q[|q| - 1] == added[|added| - 1] && q[|q| - 1] in added;
      } else {
        assert q[|q| - 1] == queue[|queue| - 1];
      }
    }
  }

  /** Visiting the head entry and queueing every unvisited link of its page keeps every link reached. */
  lemma VisitKeepsLinks(base: Url, maxDepth: real, fetch: Url -> Page, visited: seq<Url>, depths: seq<int>, queue: seq<Entry>, added: seq<Entry>)
    requires queue != [] && |depths| == |visited| && LinksReached(base, maxDepth, fetch, visited, depths, queue)
    requires (queue[0].depth + 1) as real <= maxDepth ==>
      forall v :: v in Outlinks(fetch(queue[0].url), base.origin) && v !in visited + [queue[0].url] ==>
        Entry(v, queue[0].depth + 1) in added
    ensures LinksReached(base, maxDepth, fetch, visited + [queue[0].url], depths + [queue[0].depth], queue[1..] + added)
  {
    var v', ds', q' := visited + [queue[0].url], depths + [queue[0].depth], queue[1..] + added;
    forall i, v | 0 <= i < |v'| && (ds'[i] + 1) as real <= maxDepth && v in Outlinks(fetch(v'[i]), base.origin)
      ensures Reached(maxDepth, v', q', v)
    {
      if i < |visited| {
        assert v'[i] == visited[i] && ds'[i] == depths[i];
        assert Reached(maxDepth, visited, queue, v);
        if v !in v' {
          var k :| 0 <= k < |queue| && queue[k].url == v && queue[k].depth as real <= maxDepth;
          assert k != 0;
          assert q'[k - 1] == queue[k];
        }
      } else if v !in v' {
        var e := Entry(v, queue[0].depth + 1);
        var k :| 0 <= k < |added| && added[k] == e;
        assert q'[|queue| - 1 + k] == e;
      }
    }
  }

  /**
   * `discoverLinks(page, baseUrl, maxPages, maxDepth, timeLimitMs)` without its
   * time limit. Page loads are the oracle `fetch`. The ghost `depths` and
   * `parents` give, for each visited URL, the depth it was dequeued at and the
   * visited page whose link queued it.
   */
  method DiscoverLinks(base: Url, maxPages: real, maxDepth: real, fetch: Url -> Page)
    returns (d: Discovery, ghost depths: seq<int>, ghost parents: seq<int>)
    ensures d.pagesFound == |d.urls| && d.sampleUrls == d.urls[..Min(10, |d.urls|)]
    ensures NoDuplicates(d.urls)
    ensures d.urls == [] || (|d.urls| - 1) as real < maxPages
    ensures d.urls != [] ==> d.urls[0] == NormalizeUrl(base)
    ensures 0.0 < maxPages && 0.0 <= maxDepth ==> d.urls != []
    ensures CrawlTree(base, maxDepth, fetch, d.urls, depths, parents, d.maxDepthFound)
    ensures forall i, j :: 0 <= i < j < |depths| ==> depths[i] <= depths[j]
    ensures (|d.urls| as real) < maxPages ==>
              forall i, v :: 0 <= i < |d.urls| && (depths[i] + 1) as real <= maxDepth && v in Outlinks(fetch(d.urls[i]), base.origin) ==>
                v in d.urls
  {
    var st := CrawlState([Start(base)], [], 0);
    ghost var pv := Provenance([], [], [-1]);
    while st.queue != [] && (|st.visited| as real) < maxPages
      invariant st.visited == [] || (|st.visited| - 1) as real < maxPages
      invariant CrawlInv(base, maxDepth, fetch, st, pv)
      invariant Frontier(base, maxDepth, fetch, st.visited, pv.depths, st.queue)
      invariant st.visited == [] && 0.0 <= maxDepth ==> st.queue != []
      decreases maxPages.Floor + 1 - |st.visited|, |st.queue|
    {
      ghost var n := |st.visited|;
      ghost var (visited, depths, queue) := (st.visited, pv.depths, st.queue);
      st, pv := CrawlStep(base, maxDepth, fetch, st, pv);
      if st.visited == visited {
        SkipKeepsFrontier(base, maxDepth, fetch, visited, depths, queue);
      } else {
        VisitKeepsFrontier(base, maxDepth, fetch, visited, depths, queue);
      }
      assert |st.visited| == n || |st.visited| == n + 1;
    }
    if (|st.visited| as real) < maxPages {
      forall i, v | 0 <= i < |st.visited| && (pv.depths[i] + 1) as real <= maxDepth && v in Outlinks(fetch(st.visited[i]), base.origin)
        ensures v in st.visited
      {
        assert Reached(maxDepth, st.visited, st.queue, v);
      }
    }
    depths, parents := pv.depths, pv.parents;
    d := Discovery(|st.visited|, st.maxDepthFound, st.visited, st.visited[..Min(10, |st.visited|)]);
  }

  /** The entries a visit of `next` queues: the eligible links of its page not visited once `next` is. */
  function Added(base: Url, fetch: Url -> Page, visited: seq<Url>, next: Entry): seq<Entry> {
    match fetch(next.url)
    case Loaded(hrefs) => Pushed(ResolvedPrefix(hrefs), base.origin, visited + [next.url], next.depth + 1)
    case LoadFailed => []
  }

  /** The entries a visit queues are one level down, and cover every unvisited link of the page. */
  lemma AddedSpec(base: Url, fetch: Url -> Page, visited: seq<Url>, next: Entry)
    ensures forall e :: e in Added(base, fetch, visited, next) ==> e.depth == next.depth + 1
    ensures forall v :: v in Outlinks(fetch(next.url), base.origin) && v !in visited + [next.url] ==>
              Entry(v, next.depth + 1) in Added(base, fetch, visited, next)
  {
    var page := fetch(next.url);
    if page.Loaded? {
      PushedSpec(ResolvedPrefix(page.hrefs), base.origin, visited + [next.url], next.depth + 1);
      PushedCovers(ResolvedPrefix(page.hrefs), base.origin, visited + [next.url], next.depth + 1);
    }
  }

  /** Visiting the head entry and queueing what its page adds keeps the frontier. */
  lemma VisitKeepsFrontier(base: Url, maxDepth: real, fetch: Url -> Page, visited: seq<Url>, depths: seq<int>, queue: seq<Entry>)
    requires queue != [] && Frontier(base, maxDepth, fetch, visited, depths, queue)
    ensures Frontier(base, maxDepth, fetch, visited + [queue[0].url], depths + [queue[0].depth],
                     queue[1..] + Added(base, fetch, visited, queue[0]))
  {
    AddedSpec(base, fetch, visited, queue[0]);
    VisitKeepsOrder(depths, queue, Added(base, fetch, visited, queue[0]));
    VisitKeepsLinks(base, maxDepth, fetch, visited, depths, queue, Added(base, fetch, visited, queue[0]));
  }

  /**
   * One iteration of the crawl loop: the head of the queue is dequeued; a
   * visited or too-deep URL is skipped, otherwise it is visited and the
   * eligible unvisited links of its page are queued one level deeper.
   */
  method CrawlStep(base: Url, maxDepth: real, fetch: Url -> Page, st: CrawlState, ghost pv: Provenance)
    returns (st': CrawlState, ghost pv': Provenance)
    requires st.queue != [] && CrawlInv(base, maxDepth, fetch, st, pv)
    ensures CrawlInv(base, maxDepth, fetch, st', pv')
    ensures st.queue[0].url in st.visited || st.queue[0].depth as real > maxDepth ==>
              st'.visited == st.visited && pv'.depths == pv.depths && st'.queue == st.queue[1..]
    ensures !(st.queue[0].url in st.visited || st.queue[0].depth as real > maxDepth) ==>
              st'.visited == st.visited + [st.queue[0].url] && pv'.depths == pv.depths + [st.queue[0].depth]
              && st'.queue == st.queue[1..] + Added(base, fetch, st.visited, st.queue[0])
  {
    var next := st.queue[0];
    if next.url in st.visited || next.depth as real > maxDepth {
      assert QueueFrom(base, fetch, st.visited, pv.depths, st.queue[1..], pv.from[1..]);
      st', pv' := CrawlState(st.queue[1..], st.visited, st.maxDepthFound), Provenance(pv.depths, pv.parents, pv.from[1..]);
    } else {
      st', pv' := VisitHead(base, maxDepth, fetch, st, pv);
    }
  }

  /** The visiting half of an iteration: the head is added to the visits and its page's new links are queued. */
  method VisitHead(base: Url, maxDepth: real, fetch: Url -> Page, st: CrawlState, ghost pv: Provenance)
    returns (st': CrawlState, ghost pv': Provenance)
    requires st.queue != [] && CrawlInv(base, maxDepth, fetch, st, pv)
    requires st.queue[0].url !in st.visited && st.queue[0].depth as real <= maxDepth
    ensures CrawlInv(base, maxDepth, fetch, st', pv')
    ensures st'.visited == st.visited + [st.queue[0].url] && pv'.depths == pv.depths + [st.queue[0].depth]
    ensures st'.queue == st.queue[1..] + Added(base, fetch, st.visited, st.queue[0])
    ensures st'.maxDepthFound == Max(st.maxDepthFound, st.queue[0].depth)
  {
    var next := st.queue[0];
    ghost var parent := pv.from[0];
    var queue := st.queue[1..];
    ghost var from := pv.from[1..];
    assert QueueFrom(base, fetch, st.visited, pv.depths, queue, from);
    Visit(base, maxDepth, fetch, st.visited, pv.depths, pv.parents, st.maxDepthFound, next, parent);
    KeepQueue(base, fetch, st.visited, pv.depths, queue, from, next);
    var visited := st.visited + [next.url];
    ghost var depths := pv.depths + [next.depth];
    var maxDepthFound := Max(st.maxDepthFound, next.depth);
    var page := fetch(next.url);
    var q := queue;
    ghost var added: seq<Entry> := [];
    if page.Loaded? {
      q := EnqueueLinks(page.hrefs, base.origin, visited, next.depth + 1, queue);
      added := Pushed(ResolvedPrefix(page.hrefs), base.origin, visited, next.depth + 1);
      PushedSpec(ResolvedPrefix(page.hrefs), base.origin, visited, next.depth + 1);
    } else {
      assert queue + added == queue;
    }
    assert added == Added(base, fetch, st.visited, next);
    Requeue(base, fetch, visited, depths, queue, from, added);
    st' := CrawlState(q, visited, maxDepthFound);
    pv' := Provenance(depths, pv.parents + [parent], from + seq(|added|, _ => |visited| - 1));
  }

  /** Adding a dequeued, unvisited entry within the depth budget keeps the crawl tree. */
  lemma Visit(base: Url, maxDepth: real, fetch: Url -> Page, visited: seq<Url>, depths: seq<int>, parents: seq<int>, maxDepthFound: int, next: Entry, parent: int)
    requires CrawlTree(base, maxDepth, fetch, visited, depths, parents, maxDepthFound)
    requires next.url !in visited && next.depth as real <= maxDepth
    requires parent == -1 ==> next == Start(base)
    requires parent != -1 ==>
      0 <= parent < |visited| && next.depth == depths[parent] + 1 && next.url in Outlinks(fetch(visited[parent]), base.origin)
    ensures CrawlTree(base, maxDepth, fetch, visited + [next.url], depths + [next.depth], parents + [parent], Max(maxDepthFound, next.depth))
  {
    var v, ds, ps, m := visited + [next.url], depths + [next.depth], parents + [parent], Max(maxDepthFound, next.depth);
    assert parent == -1 ==> visited == [];
    assert 0 <= next.depth by {
      if parent != -1 {
        assert 0 <= depths[parent];
      }
    }
    forall i, j | 0 <= i < j < |v|
      ensures v[i] != v[j]
    {
      if j == |visited| {
        assert v[i] == visited[i];
      } else {
        assert v[i] == visited[i] && v[j] == visited[j];
      }
    }
    forall i | 0 < i < |v|
      ensures ParentLink(base, fetch, v, ds, ps, i)
    {
      if i < |visited| {
        assert ParentLink(base, fetch, visited, depths, parents, i);
        assert v[i] == visited[i] && ds[i] == depths[i] && ps[i] == parents[i];
        assert v[parents[i]] == visited[parents[i]] && ds[parents[i]] == depths[parents[i]];
      } else {
        assert v[parent] == visited[parent] && ds[parent] == depths[parent];
      }
    }
    if m == maxDepthFound && visited != [] {
      var w :| w in depths && w == maxDepthFound;
      assert w in ds;
    } else {
      assert ds[|depths|] == m;
    }
  }

  /** Entries already queued keep their provenance when one more page is visited. */
  lemma KeepQueue(base: Url, fetch: Url -> Page, visited: seq<Url>, depths: seq<int>, queue: seq<Entry>, from: seq<int>, next: Entry)
    requires |depths| == |visited| && QueueFrom(base, fetch, visited, depths, queue, from)
    ensures QueueFrom(base, fetch, visited + [next.url], depths + [next.depth], queue, from)
  {
    forall k | 0 <= k < |from| && from[k] != -1
      ensures (visited + [next.url])[from[k]] == visited[from[k]] && (depths + [next.depth])[from[k]] == depths[from[k]]
    {
    }
  }

  /** Entries the last visited page pushes were pushed by it, at its depth plus one. */
  lemma Requeue(base: Url, fetch: Url -> Page, visited: seq<Url>, depths: seq<int>, queue: seq<Entry>, from: seq<int>, added: seq<Entry>)
    requires |depths| == |visited| && visited != [] && QueueFrom(base, fetch, visited, depths, queue, from)
    requires forall e :: e in added ==> e.depth == depths[|visited| - 1] + 1 && e.url in Outlinks(fetch(visited[|visited| - 1]), base.origin)
    ensures QueueFrom(base, fetch, visited, depths, queue + added, from + seq(|added|, _ => |visited| - 1))
  {
    var q, f := queue + added, from + seq(|added|, _ => |visited| - 1);
    forall k | 0 <= k < |f|
      ensures if f[k] == -1 then q[k] == Start(base)
              else 0 <= f[k] < |visited| && q[k].depth == depths[f[k]] + 1 && q[k].url in Outlinks(fetch(visited[f[k]]), base.origin)
    {
      if k >= |queue| {
        assert q[k] == added[k - |queue|] && q[k] in added;
      } else {
        assert q[k] == queue[k] && f[k] == from[k];
      }
    }
  }
}

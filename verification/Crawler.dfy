/** The native crawler: a breadth-first worklist over a site, bounded by a link depth and by a
    number of pages. */
module Crawler {
  import opened BreadthFirst
  import opened CrawlSite

  // ----- the loop itself

  function LinkItems(site: Site, seeds: seq<Url>, links: seq<Url>, depth: nat, maxDepth: int): seq<Item<Url>> {
    if depth < maxDepth then Items(Kept(site, seeds, links), depth + 1) else []
  }

  lemma {:induction false} LinkItemsSnoc(site: Site, seeds: seq<Url>, links: seq<Url>, link: Url, depth: nat,
                                         maxDepth: int)
    ensures LinkItems(site, seeds, links + [link], depth, maxDepth) ==
            LinkItems(site, seeds, links, depth, maxDepth) +
            if depth < maxDepth && SameHost(site, seeds, link) then [Item(link, depth + 1)] else []
  {
    KeptSnoc(site, seeds, links, link);
    ItemsSnoc(Kept(site, seeds, links), link, depth + 1);
  }

  lemma {:induction false} ItemsSnoc(nodes: seq<Url>, node: Url, depth: nat)
    ensures Items(nodes + [node], depth) == Items(nodes, depth) + [Item(node, depth)]
  {
  }

  method ScanLinks(site: Site, seeds: seq<Url>, page: Url, links: seq<Url>, depth: nat, maxDepth: int,
                   queue: seq<Item<Url>>, found: map<Url, Source>)
    returns (queue': seq<Item<Url>>, found': map<Url, Source>)
    ensures queue' == queue + LinkItems(site, seeds, links, depth, maxDepth)
    ensures found' == Record(found, Tagged(links, FromHtml(page)))
  {
    queue', found' := queue, found;
    var i := 0;
    while i < |links|
      invariant 0 <= i <= |links|
      invariant queue' == queue + LinkItems(site, seeds, links[..i], depth, maxDepth)
      invariant found' == Record(found, Tagged(links[..i], FromHtml(page)))
    {
      var link := links[i];
      LinkItemsSnoc(site, seeds, links[..i], link, depth, maxDepth);
      TaggedSnoc(found, links[..i], link, FromHtml(page));
      assert links[..i + 1] == links[..i] + [link];
      if link !in found' {
        found' := found'[link := FromHtml(page)];
      }
      if depth < maxDepth && SameHost(site, seeds, link) {
        queue' := queue' + [Item(link, depth + 1)];
      }
      i := i + 1;
    }
    assert links[..|links|] == links;
  }

  lemma {:induction false} KeptSnoc(site: Site, seeds: seq<Url>, links: seq<Url>, link: Url)
    ensures Kept(site, seeds, links + [link]) ==
            Kept(site, seeds, links) + if SameHost(site, seeds, link) then [link] else []
  {
    if links == [] {
      assert ([] + [link])[1..] == [];
    } else {
      assert (links + [link])[1..] == links[1..] + [link];
      KeptSnoc(site, seeds, links[1..], link);
    }
  }

  lemma {:induction false} TaggedSnoc(found: map<Url, Source>, urls: seq<Url>, url: Url, how: Source)
    ensures var before := Record(found, Tagged(urls, how));
            Record(found, Tagged(urls + [url], how)) == if url in before then before else before[url := how]
  {
    assert Tagged(urls + [url], how) == Tagged(urls, how) + [Find(url, how)];
    RecordAppend(found, Tagged(urls, how), [Find(url, how)]);
  }

  method ScanEndpoints(urls: seq<Url>, how: Source, found: map<Url, Source>) returns (found': map<Url, Source>)
    ensures found' == Record(found, Tagged(urls, how))
  {
    found' := found;
    var i := 0;
    while i < |urls|
      invariant 0 <= i <= |urls|
      invariant found' == Record(found, Tagged(urls[..i], how))
    {
      assert urls[..i + 1] == urls[..i] + [urls[i]];
      TaggedSnoc(found, urls[..i], urls[i], how);
      if urls[i] !in found' {
        found' := found'[urls[i] := how];
      }
      i := i + 1;
    }
    assert urls[..|urls|] == urls;
  }

  lemma {:induction false} ScriptFindsSnoc(site: Site, scripts: seq<Url>, src: Url)
    ensures ScriptFinds(site, scripts + [src]) == ScriptFinds(site, scripts) + ScriptFinds(site, [src])
  {
    if scripts == [] {
      assert [] + [src] == [src];
    } else {
      assert (scripts + [src])[1..] == scripts[1..] + [src];
      ScriptFindsSnoc(site, scripts[1..], src);
    }
  }

  method ScanScripts(site: Site, scripts: seq<Url>, found: map<Url, Source>) returns (found': map<Url, Source>)
    ensures found' == Record(found, ScriptFinds(site, scripts))
  {
    found' := found;
    var i := 0;
    while i < |scripts|
      invariant 0 <= i <= |scripts|
      invariant found' == Record(found, ScriptFinds(site, scripts[..i]))
    {
      var src := scripts[i];
      var js := site.get(src);
      assert scripts[..i + 1] == scripts[..i] + [src];
      ScriptFindsSnoc(site, scripts[..i], src);
      RecordAppend(found, ScriptFinds(site, scripts[..i]), ScriptFinds(site, [src]));
      assert ScriptFinds(site, [src]) == if js.ok then Tagged(site.endpoints(src, js.body), FromJs(src)) else [];
      if js.ok {
        found' := ScanEndpoints(site.endpoints(src, js.body), FromJs(src), found');
      }
      i := i + 1;
    }
    assert scripts[..|scripts|] == scripts;
  }

  /** Recording one page more. */
  lemma {:induction false} RecordPage(site: Site, pages: seq<Url>, page: Url, more: seq<Url>, found: map<Url, Source>)
    requires more == pages + [page] && found == Record(map[], AllFinds(site, pages))
    ensures Record(map[], AllFinds(site, more)) == Record(found, Finds(site, page))
  {
    assert more[..|pages|] == pages;
    RecordAppend(map[], AllFinds(site, pages), Finds(site, page));
  }

  /** The queue as the search sees it: fragments are cut when an item is taken out. */
  function Clean(queue: seq<Item<Url>>): (r: seq<Item<Url>>)
    ensures |r| == |queue|
    ensures forall i :: 0 <= i < |r| ==> r[i] == Item(StripFragment(queue[i].node), queue[i].depth)
  {
    seq(|queue|, i requires 0 <= i < |queue| => Item(StripFragment(queue[i].node), queue[i].depth))
  }

  lemma {:induction false} CleanFollows(site: Site, seeds: seq<Url>, page: Url, at: nat)
    ensures Clean(Items(Follows(site, seeds, page), at)) == Items(Follows(site, seeds, page), at)
  {
    var next := Follows(site, seeds, page);
    forall i | 0 <= i < |next| ensures StripFragment(next[i]) == next[i] {
      assert next[i] in LinksOf(site, page);
      var j :| 0 <= j < |LinksOf(site, page)| && LinksOf(site, page)[j] == next[i];
      StripIsIdempotent(next[i]);
    }
  }

  function Bound(maxDepth: int): nat {
    if maxDepth < 0 then 0 else maxDepth
  }

  /** The search state that the loop's variables stand for. */
  ghost predicate Stands(
    site: Site, seeds: seq<Url>, maxDepth: int, queue: seq<Item<Url>>, seen: set<Url>, discovered: map<Url, Source>,
    s: State<Url>)
  {
    && Inv(Web(site, seeds), Bound(maxDepth), s)
    && s.queue == Clean(queue) && seen == s.depth.Keys && |seen| == |s.order|
    && discovered == Record(map[], AllFinds(site, s.order))
  }

  lemma {:induction false} Skipped(
    site: Site, seeds: seq<Url>, maxDepth: int, queue: seq<Item<Url>>, seen: set<Url>, discovered: map<Url, Source>,
    s: State<Url>)
    requires Stands(site, seeds, maxDepth, queue, seen, discovered, s)
    requires queue != [] && StripFragment(queue[0].node) in seen
    ensures Stands(site, seeds, maxDepth, queue[1..], seen, discovered, Skip(s))
  {
    SkipInv(Web(site, seeds), Bound(maxDepth), s);
  }

  function Queued(site: Site, seeds: seq<Url>, maxDepth: int, page: Url, at: nat): seq<Item<Url>> {
    if at < maxDepth then Items(Follows(site, seeds, page), at + 1) else []
  }

  lemma {:induction false} QueueAfter(site: Site, seeds: seq<Url>, maxDepth: int, rest: seq<Item<Url>>, page: Url,
                                      at: nat)
    ensures var more := Queued(site, seeds, maxDepth, page, at);
            && Clean(rest + more) == Clean(rest) + more
            && more == if at < Bound(maxDepth) then Items(Web(site, seeds).next(page), at + 1) else []
  {
    var more := Queued(site, seeds, maxDepth, page, at);
    CleanFollows(site, seeds, page, at + 1);
  }

  lemma {:induction false} Visited(
    site: Site, seeds: seq<Url>, maxDepth: int, queue: seq<Item<Url>>, seen: set<Url>, discovered: map<Url, Source>,
    s: State<Url>, page: Url, at: nat, more: seq<Item<Url>>, t: State<Url>)
    requires Stands(site, seeds, maxDepth, queue, seen, discovered, s)
    requires queue != [] && page == StripFragment(queue[0].node) && at == queue[0].depth && page !in seen
    requires more == Queued(site, seeds, maxDepth, page, at) && t == Visit(s, page, at, Clean(queue[1..]), more)
    ensures Stands(site, seeds, maxDepth, queue[1..] + more, seen + {page}, Record(discovered, Finds(site, page)), t)
  {
    VisitedInv(site, seeds, maxDepth, Web(site, seeds), Bound(maxDepth), queue, s, page, at, Clean(queue[1..]), more,
        t);
    SeenAfter(seen, s, page, at, t);
    RecordPage(site, s.order, page, t.order, discovered);
  }

  lemma {:induction false} VisitedInv(site: Site, seeds: seq<Url>, maxDepth: int, web: Graph<Url>, bound: nat,
                                      queue: seq<Item<Url>>, s: State<Url>, page: Url, at: nat, rest: seq<Item<Url>>,
                                      more: seq<Item<Url>>, t: State<Url>)
    requires web == Web(site, seeds) && bound == Bound(maxDepth) && Inv(web, bound, s) && s.queue == Clean(queue)
    requires queue != [] && page == StripFragment(queue[0].node) && at == queue[0].depth && page !in s.depth
    requires rest == Clean(queue[1..]) && more == Queued(site, seeds, maxDepth, page, at)
    requires t == Visit(s, page, at, rest, more)
    ensures Inv(web, bound, t) && t.queue == Clean(queue[1..] + more)
  {
    QueueAfter(site, seeds, maxDepth, queue[1..], page, at);
    VisitInv(web, bound, s, page, at, rest, more);
  }

  lemma {:induction false} SeenAfter(seen: set<Url>, s: State<Url>, page: Url, at: nat, t: State<Url>)
    requires seen == s.depth.Keys && |seen| == |s.order| && page !in seen
    requires t.order == s.order + [page] && t.depth == s.depth[page := at]
    ensures seen + {page} == t.depth.Keys && |seen + {page}| == |t.order|
  {
  }

  /** What a finished crawl has fetched: every page at its distance from the seeds and within
      the bound, nothing nearer left out, and everything within the bound if it drained. */
  ghost predicate FetchedByDistance(site: Site, seeds: seq<Url>, bound: nat, drained: bool, depth: map<Url, nat>) {
    && (forall p :: p in depth ==> depth[p] <= bound && Reached(site, seeds, p, depth[p])
                                   && (depth[p] > 0 ==> !Reached(site, seeds, p, depth[p] - 1)))
    && (forall p, q, n: nat :: p in depth && n < depth[p] && Reached(site, seeds, q, n) ==> q in depth)
    && (drained ==> forall q :: q in depth <==> Reached(site, seeds, q, bound))
  }

  /** Every fetched page is a seed or on a seed's host; and if the queue drained, every link of a
      page above the bound that leads to a seed's host was followed. */
  ghost predicate StaysOnHosts(site: Site, seeds: seq<Url>, bound: nat, drained: bool, depth: map<Url, nat>) {
    && (forall p :: p in depth ==> (exists s :: s in seeds && CutAtHash(s, p)) || OnSeedHost(site, seeds, p))
    && (drained ==> forall p, v :: p in depth && depth[p] < bound && LinksTo(site, p, v) && OnSeedHost(site, seeds, v)
                                   ==> v in depth)
  }

  lemma {:induction false} HostsAtTheEnd(site: Site, seeds: seq<Url>, bound: nat, drained: bool, depth: map<Url, nat>)
    requires FetchedByDistance(site, seeds, bound, drained, depth)
    ensures StaysOnHosts(site, seeds, bound, drained, depth)
  {
    forall p | p in depth ensures (exists s :: s in seeds && CutAtHash(s, p)) || OnSeedHost(site, seeds, p) {
      ReachedOnHost(site, seeds, p, depth[p]);
    }
    if drained {
      forall p, v | p in depth && depth[p] < bound && LinksTo(site, p, v) && OnSeedHost(site, seeds, v)
        ensures v in depth
      {
        assert Reached(site, seeds, v, depth[p] + 1);
        ReachedGrows(site, seeds, v, depth[p] + 1, bound);
      }
    }
  }

  lemma {:induction false} ReachedGrows(site: Site, seeds: seq<Url>, v: Url, m: nat, n: nat)
    requires m <= n && Reached(site, seeds, v, m)
    ensures Reached(site, seeds, v, n)
    decreases n
  {
    if m < n {
      ReachedGrows(site, seeds, v, m, n - 1);
    }
  }

  lemma {:induction false} FetchedAtTheEnd(site: Site, seeds: seq<Url>, web: Graph<Url>, bound: nat, drained: bool,
                                           depth: map<Url, nat>)
    requires web == Web(site, seeds) && VisitedByDistance(web, bound, drained, depth)
    ensures FetchedByDistance(site, seeds, bound, drained, depth)
  {
    forall v, n: nat ensures Near(web, v, n) <==> Reached(site, seeds, v, n) {
      NearIsReached(site, seeds, web, v, n);
    }
  }

  /** Whatever the site: the loop ends; each page is fetched once, at its distance from the
      seeds, nearest first; if the queue drained, exactly the pages within the depth bound
      were fetched, and if the page cap stopped it, no page left out is nearer than a fetched
      one; `discovered` holds exactly what the fetched pages yield, with its first source. */
  method Analyze(site: Site, seeds: seq<Url>, maxPages: int, maxDepth: int)
    returns (seen: set<Url>, discovered: map<Url, Source>, ghost order: seq<Url>, ghost depth: map<Url, nat>,
             ghost drained: bool)
    ensures seen == depth.Keys && |seen| == |order| && forall p :: p in order <==> p in seen
    ensures |seen| <= (if maxPages < 0 then 0 else maxPages) && (!drained ==> |seen| >= maxPages)
    ensures FetchedByDistance(site, seeds, Bound(maxDepth), drained, depth)
    ensures forall i, j :: 0 <= i < j < |order| ==> depth[order[i]] <= depth[order[j]]
    ensures StaysOnHosts(site, seeds, Bound(maxDepth), drained, depth)
    ensures RecordsYields(site, order, discovered)
  {
    seen, discovered := {}, map[];
    var queue := Items(seeds, 0);
    ghost var s := Start(Web(site, seeds));
    while queue != [] && |seen| < maxPages
      invariant Stands(site, seeds, maxDepth, queue, seen, discovered, s)
      invariant |seen| <= if maxPages < 0 then 0 else maxPages
      decreases maxPages - |seen|, |queue|
    {
      var norm, at := StripFragment(queue[0].node), queue[0].depth;
      if norm in seen {
        Skipped(site, seeds, maxDepth, queue, seen, discovered, s);
        s, queue := Skip(s), queue[1..];
      } else {
        ghost var more := Queued(site, seeds, maxDepth, norm, at);
        ghost var t := Visit(s, norm, at, Clean(queue[1..]), more);
        Visited(site, seeds, maxDepth, queue, seen, discovered, s, norm, at, more, t);
        s := t;
        seen := seen + {norm};
        queue, discovered := FetchPage(site, seeds, norm, at, maxDepth, queue[1..], discovered);
      }
    }
    order, depth, drained := s.order, s.depth, queue == [];
    VisitedAtTheEnd(Web(site, seeds), Bound(maxDepth), s);
    FetchedAtTheEnd(site, seeds, Web(site, seeds), Bound(maxDepth), drained, depth);
    HostsAtTheEnd(site, seeds, Bound(maxDepth), drained, depth);
    RecordsExactly(site, order);
  }

  /** The body of one visit: fetch, record, queue. */
  method FetchPage(site: Site, seeds: seq<Url>, norm: Url, at: nat, maxDepth: int, queue: seq<Item<Url>>,
                   found: map<Url, Source>)
    returns (queue': seq<Item<Url>>, found': map<Url, Source>)
    ensures queue' == queue + Queued(site, seeds, maxDepth, norm, at)
    ensures found' == Record(found, Finds(site, norm))
  {
    var res := site.get(norm);
    queue', found' := queue, found;
    if IsHtml(res) {
      queue', found' := ScanLinks(site, seeds, norm, LinksOf(site, norm), at, maxDepth, queue, found);
      found' := ScanScripts(site, site.scripts(norm, res.body), found');
      RecordAppend(found, Tagged(LinksOf(site, norm), FromHtml(norm)), ScriptFinds(site, site.scripts(norm, res.body)));
    } else {
      assert Queued(site, seeds, maxDepth, norm, at) == [];
      if res.ok && LooksLikeJs(norm, res) {
        found' := ScanEndpoints(site.endpoints(norm, res.body), FromJs(norm), found);
      }
    }
  }
}

/** A site as the native crawler sees it: a fixed function from URL to response, with what its
    pages yield and where they lead, as the loop computes it and as it is promised. */
module CrawlSite {
  import opened Wrappers
  import opened Text
  import opened BreadthFirst

  type Url = string

  /** `ok`: in scope and no transport error. */
  datatype Response = Response(ok: bool, contentType: string, body: string)

  /** The site, and the extraction oracles: `links` are the joined link targets of a page,
      `scripts` its script sources, `endpoints` the endpoints in a script, in order. */
  datatype Site = Site(
    get: Url -> Response,
    links: (Url, string) -> seq<Url>,
    scripts: (Url, string) -> seq<Url>,
    endpoints: (Url, string) -> seq<Url>,
    host: Url -> Option<string>)

  datatype Source = FromHtml(page: Url) | FromJs(script: Url)

  datatype Find = Find(url: Url, how: Source)

  function StripFragment(url: Url): (r: Url)
    ensures '#' !in r && r <= url && (|r| < |url| ==> url[|r|] == '#')
  {
    if url == "" || url[0] == '#' then "" else [url[0]] + StripFragment(url[1..])
  }

  lemma {:induction false} StripIsIdempotent(url: Url)
    requires '#' !in url
    ensures StripFragment(url) == url
  {
    if url != "" {
      StripIsIdempotent(url[1..]);
    }
  }

  function BeforeQuery(url: Url): (r: Url)
    ensures '?' !in r && r <= url && (|r| < |url| ==> url[|r|] == '?')
  {
    if url == "" || url[0] == '?' then "" else [url[0]] + BeforeQuery(url[1..])
  }

  predicate IsHtml(r: Response) {
    r.ok && Contains(ToLower(r.contentType), "html")
  }

  predicate LooksLikeJs(url: Url, r: Response) {
    || EndsWith(BeforeQuery(url), ".js")
    || Contains(ToLower(r.contentType), "javascript")
    || Contains(ToLower(r.contentType), "ecmascript")
  }

  function Stripped(urls: seq<Url>): (r: seq<Url>)
    ensures |r| == |urls| && forall i :: 0 <= i < |r| ==> r[i] == StripFragment(urls[i])
  {
    seq(|urls|, i requires 0 <= i < |urls| => StripFragment(urls[i]))
  }

  function LinksOf(site: Site, page: Url): seq<Url> {
    Stripped(site.links(page, site.get(page).body))
  }

  predicate SameHost(site: Site, seeds: seq<Url>, url: Url) {
    exists i :: 0 <= i < |seeds| && site.host(seeds[i]) == site.host(url)
  }

  // ----- what the crawl should find

  function Kept(site: Site, seeds: seq<Url>, links: seq<Url>): (r: seq<Url>)
    ensures forall v :: v in r <==> v in links && SameHost(site, seeds, v)
  {
    if links == [] then []
    else (if SameHost(site, seeds, links[0]) then [links[0]] else []) + Kept(site, seeds, links[1..])
  }

  /** The pages a page leads to. */
  function Follows(site: Site, seeds: seq<Url>, page: Url): seq<Url> {
    if IsHtml(site.get(page)) then Kept(site, seeds, LinksOf(site, page)) else []
  }

  /** The site as the crawl walks it. */
  function Web(site: Site, seeds: seq<Url>): Graph<Url> {
    Graph(Stripped(seeds), (page: Url) => Follows(site, seeds, page))
  }

  function Tagged(urls: seq<Url>, how: Source): (r: seq<Find>)
    ensures |r| == |urls| && forall i :: 0 <= i < |r| ==> r[i] == Find(urls[i], how)
  {
    seq(|urls|, i requires 0 <= i < |urls| => Find(urls[i], how))
  }

  function ScriptFinds(site: Site, scripts: seq<Url>): seq<Find> {
    if scripts == [] then []
    else
      var r := site.get(scripts[0]);
      (if r.ok then Tagged(site.endpoints(scripts[0], r.body), FromJs(scripts[0])) else [])
        + ScriptFinds(site, scripts[1..])
  }

  /** Everything one page yields, in the order it is met. */
  function Finds(site: Site, page: Url): seq<Find> {
    var r := site.get(page);
    if IsHtml(r) then Tagged(LinksOf(site, page), FromHtml(page)) + ScriptFinds(site, site.scripts(page, r.body))
    else if r.ok && LooksLikeJs(page, r) then Tagged(site.endpoints(page, r.body), FromJs(page))
    else []
  }

  function AllFinds(site: Site, pages: seq<Url>): seq<Find> {
    if pages == [] then [] else AllFinds(site, pages[..|pages| - 1]) + Finds(site, pages[|pages| - 1])
  }

  /** The first way a URL was found stays. */
  function Record(found: map<Url, Source>, finds: seq<Find>): map<Url, Source>
    decreases |finds|
  {
    if finds == [] then found
    else Record(if finds[0].url in found then found else found[finds[0].url := finds[0].how], finds[1..])
  }

  lemma {:induction false} RecordAppend(found: map<Url, Source>, a: seq<Find>, b: seq<Find>)
    ensures Record(found, a + b) == Record(Record(found, a), b)
    decreases |a|
  {
    if a == [] {
      assert a + b == b;
    } else {
      assert (a + b)[1..] == a[1..] + b;
      RecordAppend(if a[0].url in found then found else found[a[0].url := a[0].how], a[1..], b);
    }
  }

  // ----- what is promised, in terms of the site alone

  /** `v` is `url` up to the first `#`. */
  predicate CutAtHash(url: Url, v: Url) {
    v <= url && '#' !in v && (v == url || url[|v|] == '#')
  }

  ghost predicate HtmlPage(site: Site, p: Url) {
    site.get(p).ok && Mentions(site.get(p).contentType, "html")
  }

  /** A response that is fetched, no html page, and a script by its type or by its name before the
      first `?`. */
  ghost predicate ScriptPage(site: Site, p: Url) {
    && site.get(p).ok && !HtmlPage(site, p)
    && (|| Mentions(site.get(p).contentType, "javascript") || Mentions(site.get(p).contentType, "ecmascript")
        || exists q :: q <= p && '?' !in q && (q == p || p[|q|] == '?') && |q| >= 3 && q[|q| - 3..] == ".js")
  }

  /** The page is html and has a link to `v`. */
  ghost predicate LinksTo(site: Site, p: Url, v: Url) {
    HtmlPage(site, p) && exists l :: l in site.links(p, site.get(p).body) && CutAtHash(l, v)
  }

  ghost predicate OnSeedHost(site: Site, seeds: seq<Url>, v: Url) {
    exists s :: s in seeds && site.host(s) == site.host(v)
  }

  /** `v` can be reached from a seed by at most `n` links, each to the host of some seed. */
  ghost predicate Reached(site: Site, seeds: seq<Url>, v: Url, n: nat)
    decreases n
  {
    if n == 0 then exists s :: s in seeds && CutAtHash(s, v)
    else Reached(site, seeds, v, n - 1)
         || (OnSeedHost(site, seeds, v) && exists p :: Reached(site, seeds, p, n - 1) && LinksTo(site, p, v))
  }

  /** The script is fetched and names the endpoint. */
  ghost predicate Names(site: Site, script: Url, u: Url) {
    site.get(script).ok && u in site.endpoints(script, site.get(script).body)
  }

  /** The k-th script is the first that names it. */
  ghost predicate FirstNames(site: Site, scripts: seq<Url>, u: Url, k: nat) {
    k < |scripts| && Names(site, scripts[k], u) && forall j :: 0 <= j < k ==> !Names(site, scripts[j], u)
  }

  /** The page yields `u`: by a link, through one of its scripts, or as a script itself. */
  ghost predicate Yields(site: Site, p: Url, u: Url) {
    || LinksTo(site, p, u)
    || (HtmlPage(site, p) && exists s :: s in site.scripts(p, site.get(p).body) && Names(site, s, u))
    || (ScriptPage(site, p) && Names(site, p, u))
  }

  /** How the page yields it: links come before scripts, and scripts in their order. */
  ghost predicate YieldsAs(site: Site, p: Url, u: Url, how: Source) {
    if LinksTo(site, p, u) then how == FromHtml(p)
    else if HtmlPage(site, p) then
      exists k: nat :: FirstNames(site, site.scripts(p, site.get(p).body), u, k)
                  && how == FromJs(site.scripts(p, site.get(p).body)[k])
    else how == FromJs(p)
  }

  /** What is recorded is what the pages yield, each as the first page that does yields it. */
  ghost predicate RecordsYields(site: Site, order: seq<Url>, found: map<Url, Source>) {
    forall u :: RecordsYield(site, order, found, u)
  }

  ghost predicate RecordsYield(site: Site, order: seq<Url>, found: map<Url, Source>, u: Url) {
    && (u in found <==> exists i :: 0 <= i < |order| && Yields(site, order[i], u))
    && (u in found ==> exists i: nat :: FirstYield(site, order, i, u) && YieldsAs(site, order[i], u, found[u]))
  }

  ghost predicate FirstYield(site: Site, order: seq<Url>, i: nat, u: Url) {
    i < |order| && Yields(site, order[i], u) && forall j :: 0 <= j < i ==> !Yields(site, order[j], u)
  }

  // ----- the definitions of the loop mean that

  lemma {:induction false} StrippedIsCut(url: Url, v: Url)
    ensures StripFragment(url) == v <==> CutAtHash(url, v)
  {
    if CutAtHash(url, v) {
      SameCut(url, StripFragment(url), v, '#');
    }
  }

  lemma {:induction false} KindsOfPage(site: Site, p: Url)
    ensures IsHtml(site.get(p)) <==> HtmlPage(site, p)
    ensures !HtmlPage(site, p) ==> (site.get(p).ok && LooksLikeJs(p, site.get(p)) <==> ScriptPage(site, p))
  {
    var r, name := site.get(p), BeforeQuery(p);
    ContainsLower(r.contentType, "html");
    ContainsLower(r.contentType, "javascript");
    ContainsLower(r.contentType, "ecmascript");
    forall q | q <= p && '?' !in q && (q == p || p[|q|] == '?') ensures q == name {
      SameCut(p, q, name, '?');
    }
  }

  /** The pages a page leads to are those it links to on the host of some seed. */
  lemma {:induction false} FollowsExactly(site: Site, seeds: seq<Url>, p: Url, v: Url)
    ensures v in Follows(site, seeds, p) <==> LinksTo(site, p, v) && OnSeedHost(site, seeds, v)
  {
    KindsOfPage(site, p);
    LinkedExactly(site, p, v);
    if SameHost(site, seeds, v) {
      var i :| 0 <= i < |seeds| && site.host(seeds[i]) == site.host(v);
      assert seeds[i] in seeds;
    }
  }

  lemma {:induction false} LinkedExactly(site: Site, p: Url, v: Url)
    ensures v in LinksOf(site, p) <==> exists l :: l in site.links(p, site.get(p).body) && CutAtHash(l, v)
  {
    CutMembers(site.links(p, site.get(p).body), v);
  }

  lemma {:induction false} CutMembers(urls: seq<Url>, v: Url)
    ensures v in Stripped(urls) <==> exists l :: l in urls && CutAtHash(l, v)
  {
    if v in Stripped(urls) {
      var i :| 0 <= i < |urls| && Stripped(urls)[i] == v;
      StrippedIsCut(urls[i], v);
    }
    if l :| l in urls && CutAtHash(l, v) {
      var i :| 0 <= i < |urls| && urls[i] == l;
      StrippedIsCut(l, v);
      assert Stripped(urls)[i] == v;
    }
  }

  /** Distance in the graph that is searched is distance by links to the hosts of seeds. */
  lemma {:induction false} NearIsReached(site: Site, seeds: seq<Url>, web: Graph<Url>, v: Url, n: nat)
    requires web == Web(site, seeds)
    ensures Near(web, v, n) <==> Reached(site, seeds, v, n)
    decreases n
  {
    if n == 0 {
      CutMembers(seeds, v);
    } else {
      var m := n - 1;
      NearIsReached(site, seeds, web, v, m);
      forall p ensures Near(web, p, m) <==> Reached(site, seeds, p, m) {
        NearIsReached(site, seeds, web, p, m);
      }
      forall p ensures v in web.next(p) <==> LinksTo(site, p, v) && OnSeedHost(site, seeds, v) {
        FollowsExactly(site, seeds, p, v);
      }
    }
  }

  lemma {:induction false} ReachedOnHost(site: Site, seeds: seq<Url>, v: Url, n: nat)
    requires Reached(site, seeds, v, n)
    ensures (exists s :: s in seeds && CutAtHash(s, v)) || OnSeedHost(site, seeds, v)
    decreases n
  {
    if n > 0 && Reached(site, seeds, v, n - 1) {
      ReachedOnHost(site, seeds, v, n - 1);
    }
  }

  // ----- what a page yields

  ghost predicate Has(finds: seq<Find>, u: Url) {
    exists i :: 0 <= i < |finds| && finds[i].url == u
  }

  ghost predicate FirstAt(finds: seq<Find>, u: Url, i: nat) {
    i < |finds| && finds[i].url == u && !Has(finds[..i], u)
  }

  lemma {:induction false} HasJoin(a: seq<Find>, b: seq<Find>, u: Url)
    ensures Has(a + b, u) <==> Has(a, u) || Has(b, u)
  {
    var c := a + b;
    if i :| 0 <= i < |b| && b[i].url == u {
      assert c[|a| + i].url == u;
    }
    if i :| 0 <= i < |a| && a[i].url == u {
      assert c[i].url == u;
    }
  }

  lemma {:induction false} FirstInJoin(a: seq<Find>, b: seq<Find>, u: Url, i: nat)
    requires FirstAt(a + b, u, i)
    ensures if i < |a| then FirstAt(a, u, i) && (a + b)[i] == a[i]
            else !Has(a, u) && FirstAt(b, u, i - |a|) && (a + b)[i] == b[i - |a|]
  {
    if i < |a| {
      assert (a + b)[..i] == a[..i];
    } else {
      assert (a + b)[..i] == a + b[..i - |a|];
      HasJoin(a, b[..i - |a|], u);
    }
  }

  lemma {:induction false} TaggedHas(urls: seq<Url>, tag: Source, u: Url)
    ensures Has(Tagged(urls, tag), u) <==> u in urls
  {
    if u in urls {
      var i :| 0 <= i < |urls| && urls[i] == u;
      assert Tagged(urls, tag)[i].url == u;
    }
  }

  function NamedBy(site: Site, script: Url): seq<Find> {
    if site.get(script).ok then Tagged(site.endpoints(script, site.get(script).body), FromJs(script)) else []
  }

  lemma {:induction false} NamedHas(site: Site, script: Url, u: Url)
    ensures Has(NamedBy(site, script), u) <==> Names(site, script, u)
  {
    TaggedHas(site.endpoints(script, site.get(script).body), FromJs(script), u);
  }

  lemma {:induction false} ScriptsHave(site: Site, scripts: seq<Url>, u: Url)
    ensures Has(ScriptFinds(site, scripts), u) <==> exists s :: s in scripts && Names(site, s, u)
  {
    if scripts != [] {
      var s, rest := scripts[0], scripts[1..];
      assert ScriptFinds(site, scripts) == NamedBy(site, s) + ScriptFinds(site, rest);
      HasJoin(NamedBy(site, s), ScriptFinds(site, rest), u);
      NamedHas(site, s, u);
      ScriptsHave(site, rest, u);
      assert forall x :: x in scripts <==> x == s || x in rest;
    }
  }

  lemma {:induction false} ScriptsFirst(site: Site, scripts: seq<Url>, u: Url, i: nat) returns (k: nat)
    requires FirstAt(ScriptFinds(site, scripts), u, i)
    ensures FirstNames(site, scripts, u, k) && ScriptFinds(site, scripts)[i].how == FromJs(scripts[k])
  {
    var s, rest := scripts[0], scripts[1..];
    var named := NamedBy(site, s);
    assert ScriptFinds(site, scripts) == named + ScriptFinds(site, rest);
    FirstInJoin(named, ScriptFinds(site, rest), u, i);
    NamedHas(site, s, u);
    if i < |named| {
      k := 0;
    } else {
      k := ScriptsFirst(site, rest, u, i - |named|);
      k := k + 1;
    }
  }

  lemma {:induction false} PageHas(site: Site, p: Url, u: Url)
    ensures Has(Finds(site, p), u) <==> Yields(site, p, u)
  {
    var r := site.get(p);
    KindsOfPage(site, p);
    if HtmlPage(site, p) {
      var links, scripts := Tagged(LinksOf(site, p), FromHtml(p)), site.scripts(p, r.body);
      HasJoin(links, ScriptFinds(site, scripts), u);
      TaggedHas(LinksOf(site, p), FromHtml(p), u);
      LinkedExactly(site, p, u);
      ScriptsHave(site, scripts, u);
    } else if ScriptPage(site, p) {
      TaggedHas(site.endpoints(p, r.body), FromJs(p), u);
    }
  }

  lemma {:induction false} PageFirst(site: Site, p: Url, u: Url, i: nat)
    requires FirstAt(Finds(site, p), u, i)
    ensures YieldsAs(site, p, u, Finds(site, p)[i].how)
  {
    KindsOfPage(site, p);
    if HtmlPage(site, p) {
      var links, scripts := Tagged(LinksOf(site, p), FromHtml(p)), site.scripts(p, site.get(p).body);
      FirstInJoin(links, ScriptFinds(site, scripts), u, i);
      TaggedHas(LinksOf(site, p), FromHtml(p), u);
      LinkedExactly(site, p, u);
      if i >= |links| {
        var k := ScriptsFirst(site, scripts, u, i - |links|);
      }
    }
  }

  /** Recording keeps exactly the URLs found, each as first found. */
  lemma {:induction false} RecordMeans(found: map<Url, Source>, finds: seq<Find>, u: Url, after: map<Url, Source>)
    returns (i: nat)
    requires after == Record(found, finds)
    ensures u in after <==> u in found || Has(finds, u)
    ensures u in found ==> after[u] == found[u]
    ensures u in after && u !in found ==> FirstAt(finds, u, i) && after[u] == finds[i].how
    decreases |finds|
  {
    i := 0;
    if finds != [] {
      var first, rest := finds[0], finds[1..];
      var next := if first.url in found then found else found[first.url := first.how];
      assert finds == [first] + rest;
      HasJoin([first], rest, u);
      assert Has([first], u) <==> first.url == u by {
        assert [first][0] == first;
      }
      i := RecordMeans(next, rest, u, after);
      if u !in found && first.url == u {
        i := 0;
      } else {
        if u in after && u !in found {
          assert finds[..i + 1] == [first] + rest[..i];
          HasJoin([first], rest[..i], u);
        }
        i := i + 1;
      }
    }
  }

  lemma {:induction false} RecordsOneMore(site: Site, front: seq<Url>, page: Url, order: seq<Url>, u: Url,
                                          before: map<Url, Source>, after: map<Url, Source>)
    requires order == front + [page] && RecordsYield(site, front, before, u)
    requires after == Record(before, Finds(site, page))
    ensures RecordsYield(site, order, after, u)
  {
    var k := RecordMeans(before, Finds(site, page), u, after);
    PageHas(site, page, u);
    OnePageMore(site, front, page, order, u);
    if u in before {
      var i: nat :| FirstYield(site, front, i, u) && YieldsAs(site, front[i], u, before[u]);
      FirstStays(site, front, order, i, u);
    } else if u in after {
      PageFirst(site, page, u, k);
      assert FirstYield(site, order, |front|, u);
    }
  }

  lemma {:induction false} FirstStays(site: Site, front: seq<Url>, order: seq<Url>, i: nat, u: Url)
    requires front <= order && FirstYield(site, front, i, u)
    ensures FirstYield(site, order, i, u)
  {
  }

  /** Recording the finds of the pages in order is recording what they yield. */
  lemma {:induction false} RecordsExactly(site: Site, order: seq<Url>)
    ensures RecordsYields(site, order, Record(map[], AllFinds(site, order)))
    decreases |order|
  {
    if order != [] {
      var n := |order| - 1;
      var front, page := order[..n], order[n];
      var before, after := Record(map[], AllFinds(site, front)), Record(map[], AllFinds(site, order));
      RecordsExactly(site, front);
      RecordAppend(map[], AllFinds(site, front), Finds(site, page));
      forall u ensures RecordsYield(site, order, after, u) {
        RecordsOneMore(site, front, page, order, u, before, after);
      }
    }
  }

  lemma {:induction false} OnePageMore(site: Site, front: seq<Url>, page: Url, order: seq<Url>, u: Url)
    requires order == front + [page]
    ensures (exists i :: 0 <= i < |order| && Yields(site, order[i], u)) <==>
            (exists i :: 0 <= i < |front| && Yields(site, front[i], u)) || Yields(site, page, u)
  {
    if i :| 0 <= i < |front| && Yields(site, front[i], u) {
      assert order[i] == front[i];
    }
    if Yields(site, page, u) {
      assert order[|front|] == page;
    }
  }
}

/** The discovery feedback loop: what crawling engines report is fed to auditing engines. */
module Feedback {
  import opened Wrappers
  import opened Findings
  import opened Grouping

  const MAX_DISCOVERED: nat := 60
  const MAX_FED_SEEDS: nat := 40

  /** The URLs that evidence carries, in order. */
  function EvidenceUrls(es: seq<Evidence>): seq<string> {
    if es == [] then [] else (if es[0].url.Some? then [es[0].url.value] else []) + EvidenceUrls(es[1..])
  }

  function UrlsOf(obs: seq<Observation>): seq<string> {
    if obs == [] then [] else EvidenceUrls(obs[0].evidence) + UrlsOf(obs[1..])
  }

  /** The cap is looked at only after a URL has been added. */
  function Collected(into: seq<string>, urls: seq<string>, inScope: string -> bool, cap: nat): seq<string>
    decreases |urls|
  {
    if urls == [] then into
    else if urls[0] !in into && inScope(urls[0]) then
      if |into| + 1 >= cap then into + [urls[0]] else Collected(into + [urls[0]], urls[1..], inScope, cap)
    else Collected(into, urls[1..], inScope, cap)
  }

  /** What the scope check allows, a check that raises allowing nothing. */
  function Allows(check: string -> Call<bool>): string -> bool {
    (u: string) => check(u) == Gave(true)
  }

  datatype Collection = Collection(urls: seq<string>, raised: bool)

  /** The same with a check that may raise, which ends the call; a URL already in the list is not
      checked. */
  function Attempt(into: seq<string>, urls: seq<string>, check: string -> Call<bool>, cap: nat): Collection
    decreases |urls|
  {
    if urls == [] then Collection(into, false)
    else if urls[0] in into then Attempt(into, urls[1..], check, cap)
    else if check(urls[0]).Raised? then Collection(into, true)
    else if !check(urls[0]).value then Attempt(into, urls[1..], check, cap)
    else if |into| + 1 >= cap then Collection(into + [urls[0]], false)
    else Attempt(into + [urls[0]], urls[1..], check, cap)
  }

  class Discovery {
    var urls: seq<string>

    constructor ()
      ensures urls == []
    {
      urls := [];
    }

    method Collect(obs: seq<Observation>, check: string -> Call<bool>, cap: nat) returns (raised: bool)
      modifies this
      ensures Collection(urls, raised) == Attempt(old(urls), UrlsOf(obs), check, cap)
    {
      ghost var all := Attempt(urls, UrlsOf(obs), check, cap);
      var i := 0;
      while i < |obs|
        invariant 0 <= i <= |obs| && Attempt(urls, UrlsOf(obs[i..]), check, cap) == all
      {
        var es := obs[i].evidence;
        ghost var rest := UrlsOf(obs[i + 1..]);
        assert obs[i..][0] == obs[i] && obs[i..][1..] == obs[i + 1..];
        assert es[0..] == es;
        var j := 0;
        while j < |es|
          invariant 0 <= j <= |es| && Attempt(urls, EvidenceUrls(es[j..]) + rest, check, cap) == all
        {
          NextEvidence(es, j, rest);
          if es[j].url.Some? && es[j].url.value !in urls {
            var allowed := check(es[j].url.value);
            if allowed.Raised? {
              return true;
            }
            if allowed.value {
              urls := urls + [es[j].url.value];
              if |urls| >= cap {
                return false;
              }
            }
          }
          j := j + 1;
        }
        assert EvidenceUrls(es[|es|..]) + rest == rest;
        i := i + 1;
      }
      raised := false;
    }
  }

  lemma {:induction false} NextEvidence(es: seq<Evidence>, j: nat, rest: seq<string>)
    requires j < |es|
    ensures es[j].url.Some? ==>
              var all := EvidenceUrls(es[j..]) + rest;
              all != [] && all[0] == es[j].url.value && all[1..] == EvidenceUrls(es[j + 1..]) + rest
    ensures es[j].url.None? ==> EvidenceUrls(es[j..]) + rest == EvidenceUrls(es[j + 1..]) + rest
  {
    assert es[j..][0] == es[j] && es[j..][1..] == es[j + 1..];
  }

  function Merged(out: seq<string>, discovered: seq<string>, cap: nat): seq<string>
    decreases |discovered|
  {
    if discovered == [] then out
    else
      var out' := if discovered[0] in out then out else out + [discovered[0]];
      if |out'| >= cap then out' else Merged(out', discovered[1..], cap)
  }

  method MergeSeeds(seeds: seq<string>, discovered: seq<string>, cap: nat) returns (out: seq<string>)
    ensures out == Merged(seeds, discovered, cap)
  {
    out := seeds;
    var i := 0;
    while i < |discovered|
      invariant 0 <= i <= |discovered| && Merged(out, discovered[i..], cap) == Merged(seeds, discovered, cap)
    {
      assert discovered[i..][0] == discovered[i] && discovered[i..][1..] == discovered[i + 1..];
      if discovered[i] !in out {
        out := out + [discovered[i]];
      }
      if |out| >= cap {
        break;
      }
      i := i + 1;
    }
  }

  // ----- closed forms

  function Self(s: string): string { s }

  /** What is new in a list: in-scope URLs not known yet, each once. */
  function Fresh(into: seq<string>, urls: seq<string>, inScope: string -> bool): seq<string> {
    Distinct(Keep(urls, inScope), Self, set u | u in into)
  }

  function Min(a: int, b: int): int { if a <= b then a else b }
  function Max(a: int, b: int): int { if a <= b then b else a }

  lemma {:induction false} FreshTakes(into: seq<string>, urls: seq<string>, inScope: string -> bool)
    requires urls != [] && inScope(urls[0]) && urls[0] !in into
    ensures Fresh(into, urls, inScope) == [urls[0]] + Fresh(into + [urls[0]], urls[1..], inScope)
  {
    var kept := Keep(urls, inScope);
    assert kept[0] == urls[0] && kept[1..] == Keep(urls[1..], inScope);
    assert (set v | v in into + [urls[0]]) == (set v | v in into) + {urls[0]};
  }

  /** One call adds what is new up to the cap, but always at least the first new URL. */
  lemma {:induction false} CollectedExactly(into: seq<string>, urls: seq<string>, inScope: string -> bool, cap: nat,
                                            news: seq<string>)
    requires news == Fresh(into, urls, inScope)
    ensures Collected(into, urls, inScope, cap) == into + news[..Min(|news|, Max(1, cap - |into|))]
    decreases |urls|
  {
    if urls != [] {
      var u, tail := urls[0], urls[1..];
      if inScope(u) && u !in into {
        FreshTakes(into, urls, inScope);
        var more := Fresh(into + [u], tail, inScope);
        if |into| + 1 < cap {
          CollectedExactly(into + [u], tail, inScope, cap, more);
          var n := Min(|more|, Max(1, cap - |into + [u]|));
          assert news[..n + 1] == [u] + more[..n];
          assert into + [u] + more[..n] == into + ([u] + more[..n]);
        } else {
          assert news[..1] == [u];
        }
      } else {
        FreshSkips(into, urls, inScope);
        CollectedExactly(into, tail, inScope, cap, news);
      }
    } else {
      assert into + news[..0] == into;
    }
  }

  lemma {:induction false} FreshSkips(into: seq<string>, urls: seq<string>, inScope: string -> bool)
    requires urls != [] && !(inScope(urls[0]) && urls[0] !in into)
    ensures Fresh(into, urls, inScope) == Fresh(into, urls[1..], inScope)
  {
    var kept := Keep(urls, inScope);
    if inScope(urls[0]) {
      assert kept == [urls[0]] + Keep(urls[1..], inScope);
      assert kept[1..] == Keep(urls[1..], inScope);
    } else {
      assert kept == Keep(urls[1..], inScope);
    }
  }

  function Any(): string -> bool {
    (u: string) => true
  }

  /** What merging gives, for seeds of any length.  The cap is looked at after the first discovered
      URL, so seeds that have reached it are followed by that one if it is new. */
  function Merging(out: seq<string>, discovered: seq<string>, cap: nat, news: seq<string>): seq<string> {
    if |out| < cap then out + news[..Min(|news|, cap - |out|)]
    else if discovered != [] && discovered[0] !in out then out + [discovered[0]]
    else out
  }

  lemma {:induction false} MergedExactly(out: seq<string>, discovered: seq<string>, cap: nat, news: seq<string>)
    requires news == Fresh(out, discovered, Any())
    ensures Merged(out, discovered, cap) == Merging(out, discovered, cap, news)
    decreases |discovered|
  {
    var all := Any();
    if |out| < cap && discovered != [] {
      var u, tail := discovered[0], discovered[1..];
      if u !in out {
        FreshTakes(out, discovered, all);
        var more := Fresh(out + [u], tail, all);
        if |out| + 1 < cap {
          MergedExactly(out + [u], tail, cap, more);
          var n := Min(|more|, cap - |out + [u]|);
          assert news[..n + 1] == [u] + more[..n];
          assert out + [u] + more[..n] == out + ([u] + more[..n]);
        } else {
          assert news[..1] == [u];
        }
      } else {
        FreshSkips(out, discovered, all);
        MergedExactly(out, tail, cap, news);
      }
    } else {
      assert out + news[..0] == out;
    }
  }

  /** The fed seeds begin with the planned ones and are at most the cap, or one more than those;
      the rest comes from what was discovered. */
  lemma {:induction false} MergedIsBounded(seeds: seq<string>, discovered: seq<string>, cap: nat, out: seq<string>)
    requires out == Merged(seeds, discovered, cap)
    ensures seeds <= out && |out| <= Max(cap, |seeds| + 1)
    ensures forall u :: u in out ==> u in seeds || u in discovered
  {
    if |seeds| >= cap {
    } else {
      var all := Any();
      var news := Fresh(seeds, discovered, all);
      MergedExactly(seeds, discovered, cap, news);
      DistinctKeeps(Keep(discovered, all), Self, set v | v in seeds);
      KeepMeans(discovered, all);
    }
  }

  // ----- a check that raises

  /** The call comes to URL `i`, which is not in the list yet, before the list is full, and its
      check raises. */
  predicate RaisesAt(into: seq<string>, urls: seq<string>, check: string -> Call<bool>, cap: nat, i: nat) {
    && i < |urls| && urls[i] !in into && check(urls[i]).Raised?
    && |Fresh(into, urls[..i], Allows(check))| < Max(1, cap - |into|)
  }

  /** The first URL decides, or the call goes on behind it. */
  lemma {:induction false} RaisesNext(into: seq<string>, urls: seq<string>, check: string -> Call<bool>, cap: nat,
                                      i: nat, next: seq<string>)
    requires 0 < i < |urls| && (urls[0] in into || check(urls[0]).Gave?)
    requires next == if urls[0] in into || !check(urls[0]).value then into else into + [urls[0]]
    ensures RaisesAt(into, urls, check, cap, i) <==>
            (next == into || |next| < cap) && RaisesAt(next, urls[1..], check, cap, i - 1)
  {
    var front, tail := urls[..i], urls[1..];
    assert front[1..] == tail[..i - 1] && tail[i - 1] == urls[i];
    if next == into {
      FreshSkips(into, front, Allows(check));
    } else {
      FreshTakes(into, front, Allows(check));
    }
  }

  /** A call raises exactly when it comes to a URL whose check raises. */
  lemma {:induction false} RaisesExactly(into: seq<string>, urls: seq<string>, check: string -> Call<bool>, cap: nat)
    ensures Attempt(into, urls, check, cap).raised <==> exists i :: RaisesAt(into, urls, check, cap, i)
    decreases |urls|
  {
    if urls != [] {
      var u, tail := urls[0], urls[1..];
      if u !in into && check(u).Raised? {
        assert urls[..0] == [];
        assert RaisesAt(into, urls, check, cap, 0);
      } else {
        var next := if u in into || !check(u).value then into else into + [u];
        forall i: nat | 0 < i < |urls|
          ensures RaisesAt(into, urls, check, cap, i) <==>
                  (next == into || |next| < cap) && RaisesAt(next, tail, check, cap, i - 1)
        {
          RaisesNext(into, urls, check, cap, i, next);
        }
        RaisesExactly(next, tail, check, cap);
        if i: nat :| RaisesAt(next, tail, check, cap, i) {
          assert RaisesAt(into, urls, check, cap, i + 1) <==> next == into || |next| < cap;
        }
      }
    }
  }

  /** The list is that of a check which allows nothing where this one raises, over the URLs before
      the one that raises; without such a URL, over all of them. */
  lemma {:induction false} AttemptExactly(into: seq<string>, urls: seq<string>, check: string -> Call<bool>, cap: nat,
                                          c: Collection)
    returns (k: nat)
    requires c == Attempt(into, urls, check, cap)
    ensures k <= |urls| && c.urls == Collected(into, urls[..k], Allows(check), cap)
    ensures if c.raised then RaisesAt(into, urls, check, cap, k) else k == |urls|
    decreases |urls|
  {
    k := 0;
    if urls != [] {
      var u, tail := urls[0], urls[1..];
      if u !in into && check(u).Raised? {
        assert urls[..0] == [];
      } else if u !in into && check(u).value && |into| + 1 >= cap {
        k := |urls|;
        assert urls[..k] == urls;
      } else {
        var next := if u in into || !check(u).value then into else into + [u];
        k := AttemptExactly(next, tail, check, cap, c);
        k := k + 1;
        assert urls[..k][1..] == tail[..k - 1];
        if c.raised {
          RaisesNext(into, urls, check, cap, k, next);
        }
      }
    }
  }

  ghost predicate Sane(discovered: seq<string>, inScope: string -> bool) {
    NoRepeats(discovered, Self) && forall u :: u in discovered ==> inScope(u)
  }

  lemma {:induction false} NoRepeatsJoin(a: seq<string>, b: seq<string>)
    requires NoRepeats(a, Self) && NoRepeats(b, Self) && forall u :: u in b ==> u !in a
    ensures NoRepeats(a + b, Self)
  {
    var c := a + b;
    forall i, j | 0 <= i < j < |c| ensures Self(c[i]) != Self(c[j]) {
      if i < |a| <= j {
        assert a[i] in a && b[j - |a|] in b;
      } else if |a| <= i {
        assert Self(b[i - |a|]) != Self(b[j - |a|]);
      } else {
        assert Self(a[i]) != Self(a[j]);
      }
    }
  }

  /** One call keeps the list free of duplicates and in scope, keeps what was there as a
      prefix, and goes over the cap exactly when it was full and something new arrived. */
  lemma {:induction false} CollectStep(into: seq<string>, urls: seq<string>, inScope: string -> bool, cap: nat,
                                       after: seq<string>)
    requires Sane(into, inScope) && after == Collected(into, urls, inScope, cap) && cap > 0
    ensures Sane(after, inScope) && into <= after
    ensures |after| <= Max(cap, |into| + 1)
    ensures |after| > Max(cap, |into|) <==> |into| >= cap && Fresh(into, urls, inScope) != []
    ensures |into| < cap && |after| < cap ==> forall u :: u in urls && inScope(u) ==> u in after
  {
    var news := Fresh(into, urls, inScope);
    var n := Min(|news|, Max(1, cap - |into|));
    CollectedExactly(into, urls, inScope, cap, news);
    var kept, known := Keep(urls, inScope), set v | v in into;
    KeepMeans(urls, inScope);
    DistinctKeeps(kept, Self, known);
    DistinctIsDistinct(kept, Self, known);
    assert forall i, j :: 0 <= i < j < n ==> Self(news[i]) != Self(news[j]);
    NoRepeatsJoin(into, news[..n]);
    if |into| < cap && |after| < cap {
      forall u | u in urls && inScope(u) ensures u in after {
        if u !in into {
          DistinctCovers(kept, Self, known, u);
          var y :| y in news && Self(y) == Self(u);
          assert news[..n] == news;
        }
      }
    }
  }

  /** The list after a sequence of calls. */
  function CollectedAll(batches: seq<seq<string>>, inScope: string -> bool, cap: nat): seq<string>
    decreases |batches|
  {
    if batches == [] then []
    else Collected(CollectedAll(batches[..|batches| - 1], inScope, cap), batches[|batches| - 1], inScope, cap)
  }

  /** After `k` calls the list has no duplicates, only URLs in scope, and at most k - 1 more
      than the cap. */
  lemma {:induction false} CollectedIsBounded(batches: seq<seq<string>>, inScope: string -> bool, cap: nat)
    requires cap > 0
    ensures Sane(CollectedAll(batches, inScope, cap), inScope)
    ensures batches != [] ==> |CollectedAll(batches, inScope, cap)| <= cap + |batches| - 1
    decreases |batches|
  {
    if batches != [] {
      var n := |batches| - 1;
      CollectedIsBounded(batches[..n], inScope, cap);
      CollectStep(CollectedAll(batches[..n], inScope, cap), batches[n], inScope, cap,
          CollectedAll(batches, inScope, cap));
    }
  }

  // ----- the overrun happens

  function Names(n: nat): (r: seq<string>)
    ensures |r| == n && forall i :: 0 <= i < n ==> r[i] == NatText(i)
  {
    seq(n, i requires 0 <= i < n => NatText(i))
  }

  /** A call that fills the list, then calls that bring one new URL each. */
  function Batches(cap: nat, k: nat): seq<seq<string>>
    requires k > 0
  {
    if k == 1 then [Names(cap)] else Batches(cap, k - 1) + [[NatText(cap + k - 2)]]
  }

  lemma {:induction false} AllNew(into: seq<string>, urls: seq<string>, cap: nat)
    requires NoRepeats(urls, Self) && (forall u :: u in urls ==> u !in into) && |urls| <= Max(1, cap - |into|)
    ensures Collected(into, urls, (u: string) => true, cap) == into + urls
    decreases |urls|
  {
    if urls != [] {
      var u, tail := urls[0], urls[1..];
      assert forall i :: 0 <= i < |tail| ==> tail[i] == urls[i + 1];
      assert into + urls == into + [u] + tail;
      forall v | v in tail ensures v !in into + [u] && v in urls {
        var i :| 0 <= i < |tail| && tail[i] == v;
        assert Self(urls[0]) != Self(urls[i + 1]);
      }
      if |into| + 1 >= cap {
        assert tail == [];
      } else {
        AllNew(into + [u], tail, cap);
      }
    }
  }

  lemma {:induction false} NamesDiffer(n: nat)
    ensures NoRepeats(Names(n), Self) && NatText(n) !in Names(n)
  {
    forall i, j | 0 <= i < j <= n ensures NatText(i) != NatText(j) {
      if NatText(i) == NatText(j) {
        NatTextIsInjective(i, j);
      }
    }
  }

  /** For every cap and number of calls the bound is reached. */
  lemma {:induction false} OverrunIsAttained(cap: nat, k: nat)
    requires cap > 0 && k > 0
    ensures |Batches(cap, k)| == k && CollectedAll(Batches(cap, k), (u: string) => true, cap) == Names(cap + k - 1)
  {
    var all := (u: string) => true;
    var b := Batches(cap, k);
    if k == 1 {
      NamesDiffer(cap);
      AllNew([], Names(cap), cap);
      assert b[..0] == [] && CollectedAll([], all, cap) == [];
      assert [] + Names(cap) == Names(cap);
    } else {
      OverrunIsAttained(cap, k - 1);
      var n := cap + k - 2;
      assert b[..|b| - 1] == Batches(cap, k - 1);
      NamesDiffer(n);
      AllNew(Names(n), [NatText(n)], cap);
      assert Names(n) + [NatText(n)] == Names(n + 1);
    }
  }
}

/** What crawling engines report reaches the auditing engines: the seeds of a request, exactly, over
    whole runs. */
module Feeding {
  import opened Wrappers
  import opened Findings
  import opened Grouping
  import opened Registry
  import opened Planner
  import opened Feedback
  import opened EngineRun
  import opened EngineLoop

  /** The URLs that are not planned, in the order of their discovery. */
  function NotPlanned(discovered: seq<string>, planned: seq<string>): seq<string> {
    Keep(discovered, (u: string) => u !in planned)
  }

  /** Seeds to which what is not planned was added, as far as 40 go; seeds that were 40 or more by
      themselves still get the first discovery if it is not planned. */
  ghost predicate Fed(planned: seq<string>, discovered: seq<string>, seeds: seq<string>) {
    var more := NotPlanned(discovered, planned);
    if |planned| >= 40 then
      seeds == planned + if discovered != [] && discovered[0] !in planned then [discovered[0]] else []
    else if |planned| + |more| <= 40 then seeds == planned + more
    else |seeds| == 40 && planned <= seeds <= planned + more
  }

  // ----- merging feeds

  lemma {:induction false} DistinctOfDistinct(xs: seq<string>, seen: set<string>)
    requires NoRepeats(xs, Self)
    ensures Distinct(xs, Self, seen) == Keep(xs, (u: string) => u !in seen)
    decreases |xs|
  {
    if xs != [] {
      var x, rest := xs[0], xs[1..];
      assert forall i :: 0 <= i < |rest| ==> rest[i] == xs[i + 1];
      DistinctOfDistinct(rest, seen);
      DistinctOfDistinct(rest, seen + {x});
      forall y | y in rest ensures y != x {
        var i :| 0 <= i < |rest| && rest[i] == y;
        assert Self(xs[0]) != Self(xs[i + 1]);
      }
      KeepSame(rest, (u: string) => u !in seen, (u: string) => u !in seen + {x});
    }
  }

  lemma {:induction false} KeepAll(xs: seq<string>)
    ensures Keep(xs, Any()) == xs
  {
    if xs != [] {
      KeepAll(xs[1..]);
      assert xs == [xs[0]] + xs[1..];
    }
  }

  lemma {:induction false} FreshIsNotPlanned(planned: seq<string>, discovered: seq<string>)
    requires NoRepeats(discovered, Self)
    ensures Fresh(planned, discovered, Any()) == NotPlanned(discovered, planned)
  {
    var known := set u | u in planned;
    KeepAll(discovered);
    DistinctOfDistinct(discovered, known);
    KeepSame(discovered, (u: string) => u !in known, (u: string) => u !in planned);
  }

  lemma {:induction false} MergingFeeds(planned: seq<string>, discovered: seq<string>, seeds: seq<string>)
    requires NoRepeats(discovered, Self) && seeds == Merged(planned, discovered, MAX_FED_SEEDS)
    ensures Fed(planned, discovered, seeds)
  {
    var more := NotPlanned(discovered, planned);
    FreshIsNotPlanned(planned, discovered);
    MergedExactly(planned, discovered, MAX_FED_SEEDS, more);
    if |planned| < 40 {
      var n := Min(|more|, 40 - |planned|);
      assert seeds == planned + more[..n];
      assert n == |more| ==> more[..n] == more;
      assert planned + more[..n] <= planned + more by {
        assert more[..n] + more[n..] == more;
        assert planned + more == planned + more[..n] + more[n..];
      }
    } else {
      assert planned + [] == planned;
    }
  }

  // ----- over a run

  lemma {:induction false} RunGrows(units: seq<Unit>, m: nat, adapters: string -> Option<Adapter>, engines: Engines,
                                    check: string -> Call<bool>)
    requires m <= |units|
    ensures var p, q := RunUnits(units[..m], adapters, engines, check), RunUnits(units, adapters, engines, check);
            p.requests <= q.requests && p.discovered <= q.discovered && (p.aborted ==> q == p)
    decreases |units|
  {
    if m < |units| {
      var n := |units| - 1;
      assert units[..n][..m] == units[..m];
      RunGrows(units[..n], m, adapters, engines, check);
      var before := RunUnits(units[..n], adapters, engines, check);
      RequestsAreSound(units[..n], adapters, engines, check, before);
      AdvanceCollects(before, units[n], adapters, engines, check, RunUnits(units, adapters, engines, check));
    } else {
      assert units[..m] == units;
    }
  }

  /** The request of unit `k` in the log of the run. */
  function RequestAt(units: seq<Unit>, k: nat, adapters: string -> Option<Adapter>, engines: Engines,
                     check: string -> Call<bool>): nat
    requires k <= |units|
  {
    |RunUnits(units[..k], adapters, engines, check).requests|
  }

  /** The unit is reached, its engine is bound and can describe itself. */
  ghost predicate Runs(units: seq<Unit>, k: nat, adapters: string -> Option<Adapter>, engines: Engines,
                       check: string -> Call<bool>) {
    && k < |units| && Answers(units[k], adapters, engines)
    && !RunUnits(units[..k], adapters, engines, check).aborted
  }

  lemma {:induction false} RequestIsLogged(units: seq<Unit>, k: nat, adapters: string -> Option<Adapter>,
                                           engines: Engines, check: string -> Call<bool>, p: Progress, at: nat,
                                           known: seq<string>)
    requires Runs(units, k, adapters, engines, check) && p == RunUnits(units, adapters, engines, check)
    requires at == RequestAt(units, k, adapters, engines, check)
    requires known == RunUnits(units[..k], adapters, engines, check).discovered
    ensures at < |p.requests| && p.requests[at] == Sent(units[k].task.engine, Asked(units[k], adapters, engines, known))
  {
    assert units[..k + 1][..k] == units[..k];
    RunGrows(units, k + 1, adapters, engines, check);
  }

  /** The request made of an auditing engine: the planned seeds, and what was discovered before it
      as far as the cap allows. */
  lemma {:induction false} AuditIsFed(units: seq<Unit>, k: nat, adapters: string -> Option<Adapter>, engines: Engines,
                                      check: string -> Call<bool>, p: Progress, at: nat, known: seq<string>)
    requires Runs(units, k, adapters, engines, check) && p == RunUnits(units, adapters, engines, check)
    requires at == RequestAt(units, k, adapters, engines, check) && units[k].stage == AuditStage
    requires known == RunUnits(units[..k], adapters, engines, check).discovered
    ensures at < |p.requests| && p.requests[at].to == units[k].task.engine
    ensures Fed(units[k].task.seeds, known, p.requests[at].request.seeds)
  {
    RequestIsLogged(units, k, adapters, engines, check, p, at, known);
    RequestsAreSound(units[..k], adapters, engines, check, RunUnits(units[..k], adapters, engines, check));
    if known != [] {
      MergingFeeds(units[k].task.seeds, known, p.requests[at].request.seeds);
    } else {
      assert units[k].task.seeds + [] == units[k].task.seeds;
    }
  }

  /** When planned and discovered URLs are at most 40, the seeds are just those. */
  lemma {:induction false} FedAll(planned: seq<string>, discovered: seq<string>, seeds: seq<string>, u: string)
    requires Fed(planned, discovered, seeds) && |planned| + |discovered| <= 40
    ensures u in seeds <==> u in planned || u in discovered
  {
    var unplanned := (v: string) => v !in planned;
    KeepMeans(discovered, unplanned);
    KeepIsShort(discovered, unplanned);
    if |planned| == 40 {
      assert discovered == [];
    } else {
      assert seeds == planned + NotPlanned(discovered, planned);
    }
  }

  lemma {:induction false} KeepIsShort(xs: seq<string>, p: string -> bool)
    ensures |Keep(xs, p)| <= |xs|
  {
    if xs != [] {
      KeepIsShort(xs[1..], p);
    }
  }

  /** Below the cap at least the first discovery that is not planned is fed. */
  lemma {:induction false} FirstIsFed(planned: seq<string>, discovered: seq<string>, seeds: seq<string>)
    requires Fed(planned, discovered, seeds) && |planned| < 40 && NotPlanned(discovered, planned) != []
    ensures |seeds| > |planned| && seeds[|planned|] == NotPlanned(discovered, planned)[0]
  {
    var more := NotPlanned(discovered, planned);
    assert (planned + more)[|planned|] == more[0];
  }

  // ----- what is discovered

  lemma {:induction false} EvidenceUrlsExactly(es: seq<Evidence>, u: string)
    ensures u in EvidenceUrls(es) <==> exists e :: e in es && e.url == Some(u)
  {
    if es != [] {
      EvidenceUrlsExactly(es[1..], u);
      assert forall e :: e in es <==> e == es[0] || e in es[1..];
    }
  }

  /** The URLs of observations are those of their evidence. */
  lemma {:induction false} UrlsExactly(obs: seq<Observation>, u: string)
    ensures u in UrlsOf(obs) <==> exists o, e :: o in obs && e in o.evidence && e.url == Some(u)
  {
    if obs != [] {
      EvidenceUrlsExactly(obs[0].evidence, u);
      UrlsExactly(obs[1..], u);
      assert forall o :: o in obs <==> o == obs[0] || o in obs[1..];
    }
  }

  /** A URL that a unit's run reports, and that may be touched, is known to every later unit unless
      60 others are. */
  lemma {:induction false} ReportedIsKnown(units: seq<Unit>, j: nat, k: nat, adapters: string -> Option<Adapter>,
                                           engines: Engines, check: string -> Call<bool>, before: seq<string>,
                                           known: seq<string>, u: string)
    requires Runs(units, j, adapters, engines, check) && j < k <= |units|
    requires !RunUnits(units[..k], adapters, engines, check).aborted
    requires before == RunUnits(units[..j], adapters, engines, check).discovered
    requires known == RunUnits(units[..k], adapters, engines, check).discovered && |known| < 60
    requires u in Reports(units[j], adapters, engines, before) && check(u) == Gave(true)
    ensures u in known
  {
    var front := units[..k];
    assert front[..j] == units[..j] && front[..j + 1] == units[..j + 1] && units[..j + 1][..j] == units[..j];
    RunGrows(front, j + 1, adapters, engines, check);
    var p, q := RunUnits(units[..j], adapters, engines, check), RunUnits(units[..j + 1], adapters, engines, check);
    RequestsAreSound(units[..j], adapters, engines, check, p);
    assert q == Advance(p, units[j], adapters, engines, check);
    KnownAtOnce(p, units[j], adapters, engines, check, q, u);
  }

  lemma {:induction false} KnownAtOnce(p: Progress, u: Unit, adapters: string -> Option<Adapter>, engines: Engines,
                                       check: string -> Call<bool>, q: Progress, url: string)
    requires Answers(u, adapters, engines) && !p.aborted && Sane(p.discovered, Allows(check))
    requires q == Advance(p, u, adapters, engines, check) && !q.aborted && |q.discovered| < 60
    requires url in Reports(u, adapters, engines, p.discovered) && check(url) == Gave(true)
    ensures url in q.discovered
  {
    var urls := Reports(u, adapters, engines, p.discovered);
    var c := Attempt(p.discovered, urls, check, MAX_DISCOVERED);
    var k := AttemptExactly(p.discovered, urls, check, MAX_DISCOVERED, c);
    assert urls[..k] == urls;
    CollectStep(p.discovered, urls, Allows(check), MAX_DISCOVERED, c.urls);
  }

  /** What an engine finds is tested: a URL that may be touched and stands in the evidence of some
      run is a seed of every later auditing request for which planned and known URLs are at most
      40 together. */
  lemma {:induction false} FoundIsAudited(units: seq<Unit>, j: nat, k: nat, adapters: string -> Option<Adapter>,
                                          engines: Engines, check: string -> Call<bool>, p: Progress, at: nat,
                                          before: seq<string>, known: seq<string>, o: Observation, e: Evidence,
                                          u: string)
    requires Runs(units, j, adapters, engines, check) && Runs(units, k, adapters, engines, check) && j < k
    requires units[k].stage == AuditStage && p == RunUnits(units, adapters, engines, check)
    requires before == RunUnits(units[..j], adapters, engines, check).discovered
    requires known == RunUnits(units[..k], adapters, engines, check).discovered
    requires at == RequestAt(units, k, adapters, engines, check)
    requires o in Gathered(engines, adapters(units[j].task.engine).value, Asked(units[j], adapters, engines, before))
    requires e in o.evidence && e.url == Some(u) && check(u) == Gave(true)
    requires |units[k].task.seeds| + |known| <= 40
    ensures at < |p.requests| && p.requests[at].to == units[k].task.engine && u in p.requests[at].request.seeds
  {
    UrlsExactly(Gathered(engines, adapters(units[j].task.engine).value, Asked(units[j], adapters, engines, before)), u);
    ReportedIsKnown(units, j, k, adapters, engines, check, before, known, u);
    AuditIsFed(units, k, adapters, engines, check, p, at, known);
    FedAll(units[k].task.seeds, known, p.requests[at].request.seeds, u);
  }
}

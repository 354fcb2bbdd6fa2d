/** A run whose scope check is the scope engine's: when it is sure to end with a report. */
module ScanScope {
  import opened Wrappers
  import opened Text
  import opened Findings
  import opened ScopeRules
  import ScopeLaws
  import Feedback
  import Registry
  import R = EngineRun
  import EngineLoop
  import L = Lifecycle
  import O = Orchestrator

  /** The check of a reported URL; `split` is None for a URL that cannot be split. */
  function CheckOf(lib: Library, rules: seq<Rule>, authorized: bool,
                   split: string -> Option<Parts>): string -> Call<bool> {
    (url: string) => Answer(CheckSplit(lib, rules, authorized, split(url)))
  }

  function CheckSplit(lib: Library, rules: seq<Rule>, authorized: bool, parts: Option<Parts>): Decision {
    if parts.Some? then Check(lib, rules, authorized, parts.value, "") else CheckUrl(lib, rules, authorized, None)
  }

  function Answer(d: Decision): Call<bool> {
    if d.BadPattern? then Raised else Gave(Allowed(d))
  }

  // ----- when the check raises

  /** The rules of a kind before the j-th do not match. */
  predicate NoneBefore(rules: seq<Rule>, kind: Kind, matches: Rule -> Outcome, i: nat, j: nat) {
    forall l :: i <= l < j && l < |rules| && rules[l].kind == kind ==> matches(rules[l]) == No
  }

  predicate BreaksAt(rules: seq<Rule>, kind: Kind, matches: Rule -> Outcome, i: nat, j: nat) {
    i <= j < |rules| && rules[j].kind == kind && matches(rules[j]) == Raise && NoneBefore(rules, kind, matches, i, j)
  }

  lemma {:induction false} FindBreaks(rules: seq<Rule>, kind: Kind, matches: Rule -> Outcome, i: nat)
    requires i <= |rules|
    ensures Find(rules, kind, matches, i).Broken? <==> exists j :: BreaksAt(rules, kind, matches, i, j)
    ensures Find(rules, kind, matches, i).Nothing? <==> NoneBefore(rules, kind, matches, i, |rules|)
    decreases |rules| - i
  {
    if i < |rules| {
      if rules[i].kind != kind || matches(rules[i]) == No {
        var n := i + 1;
        FindBreaks(rules, kind, matches, n);
        if j: nat :| BreaksAt(rules, kind, matches, n, j) {
          assert BreaksAt(rules, kind, matches, i, j);
        }
        if j: nat :| BreaksAt(rules, kind, matches, i, j) {
          assert BreaksAt(rules, kind, matches, n, j);
        }
      } else if matches(rules[i]) == Raise {
        assert BreaksAt(rules, kind, matches, i, i);
      }
    }
  }

  /** The check of a URL raises exactly when a pattern that does not compile is reached: by the
      first exclude rule that does not simply fail to match, or, if all of them do, by the first
      such include rule. */
  lemma {:induction false} BadPatternExactly(lib: Library, rules: seq<Rule>, authorized: bool, u: Url)
    ensures var m := Matcher(lib, u);
            CheckUrl(lib, rules, authorized, Some(u)) == BadPattern <==>
              && authorized && !Guarded(lib, rules, u.host)
              && ((exists j :: BreaksAt(rules, EXCLUDE, m, 0, j))
                  || (NoneBefore(rules, EXCLUDE, m, 0, |rules|) && exists j :: BreaksAt(rules, INCLUDE, m, 0, j)))
  {
    FindBreaks(rules, EXCLUDE, Matcher(lib, u), 0);
    FindBreaks(rules, INCLUDE, Matcher(lib, u), 0);
  }

  /** Rules whose patterns compile never make the check raise. */
  lemma {:induction false} CompilingNeverRaises(lib: Library, rules: seq<Rule>, authorized: bool,
                                                split: string -> Option<Parts>, url: string)
    requires ScopeLaws.Compiles(lib, rules)
    ensures CheckOf(lib, rules, authorized, split)(url).Gave?
  {
    if split(url).Some? {
      var u := Parse(split(url).value, "");
      if u.Some? {
        ScopeLaws.FindExactly(rules, EXCLUDE, Matcher(lib, u.value));
        ScopeLaws.FindExactly(rules, INCLUDE, Matcher(lib, u.value));
      }
    }
  }

  // ----- when a report comes

  lemma {:induction false} NoRaiseNoBadUrl(cat: Registry.Catalog, job: O.Job, world: O.World)
    requires Registry.Valid(cat) && forall url :: world.check(url).Gave?
    ensures !O.MeetsBadUrl(cat, job, world)
  {
  }

  /** With patterns that compile a run ends with a report exactly when it may start, the target is
      authorized and every planned engine can describe itself. */
  lemma {:induction false} CompilingRulesReport(start: L.State, cat: Registry.Catalog, job: O.Job, world: O.World,
                                                previous: map<string, O.Finding'>,
                                                lib: Library, rules: seq<Rule>, split: string -> Option<Parts>)
    requires Registry.Valid(cat) && ScopeLaws.Compiles(lib, rules)
             && world.check == CheckOf(lib, rules, job.authorized, split)
    ensures O.Expected(start, cat, job, world, previous).Done? <==>
              O.Startable(start) && job.authorized && O.AllDescribed(cat, job, world)
  {
    forall url ensures world.check(url).Gave? {
      CompilingNeverRaises(lib, rules, job.authorized, split, url);
    }
    NoRaiseNoBadUrl(cat, job, world);
    O.ReportsExactly(start, cat, job, world, previous);
  }

  // ----- engines that report one URL

  function Sighting(url: string): Observation {
    Observation("", "", "", "", "", INFO, TENTATIVE, [], Location("", "", 0, "", None, None), "", [],
                [Evidence(Note, "", "", [], Some(url), "")], 0)
  }

  /** Every engine is well, describes itself, and reports this URL whenever it is run. */
  function Reporting(url: string): R.Engines {
    R.Engines(
      (a: Registry.Adapter) => Gave(""),
      (a: Registry.Adapter, r: R.Request) => Gave(R.HEALTHY),
      (a: Registry.Adapter, r: R.Request) => Gave(R.Prepared(0)),
      (a: Registry.Adapter, r: R.Request, p: R.Prepared) => Gave(R.Finished(0)),
      (a: Registry.Adapter, r: R.Request, x: R.Finished) => Gave(R.Raw(0)),
      (a: Registry.Adapter, r: R.Request, raw: R.Raw) => Gave([Sighting(url)]),
      (a: Registry.Adapter, r: R.Request, p: R.Prepared) => Gave(R.Done))
  }

  lemma {:induction false} ReportingReports(url: string, a: Registry.Adapter, r: R.Request)
    ensures R.Gathered(Reporting(url), a, r) == [Sighting(url)] && Feedback.UrlsOf([Sighting(url)]) == [url]
    ensures Reporting(url).describe(a) == Gave("")
  {
    var e := Reporting(url);
    assert e.health(a, r) == Gave(R.HEALTHY) && e.prepare(a, r) == Gave(R.Prepared(0));
    assert e.execute(a, r, R.Prepared(0)) == Gave(R.Finished(0)) && e.collect(a, r, R.Finished(0)) == Gave(R.Raw(0));
    var s := Sighting(url);
    assert [s][1..] == [] && s.evidence[1..] == [];
    assert Feedback.EvidenceUrls(s.evidence) == [url] + Feedback.EvidenceUrls([]);
    assert Feedback.UrlsOf([s]) == [url] + Feedback.UrlsOf([]);
  }

  /** A URL whose check raises, reported by the first engine, cuts the run short. */
  lemma {:induction false} OneUrlCutsShort(cat: Registry.Catalog, job: O.Job, world: O.World, url: string,
                                           units: seq<EngineLoop.Unit>)
    requires Registry.Valid(cat) && units == O.PlannedUnits(cat, job) && units != []
             && EngineLoop.Bound(units[0], O.Adapters(cat))
    requires world.engines == Reporting(url) && world.check(url).Raised?
    ensures O.AllDescribed(cat, job, world) && O.MeetsBadUrl(cat, job, world)
  {
    var adapters, e := O.Adapters(cat), world.engines;
    var a := adapters(units[0].task.engine).value;
    assert units[..0] == [] && EngineLoop.RunUnits([], adapters, e, world.check) == EngineLoop.START;
    ReportingReports(url, a, EngineLoop.RequestFor("", units[0], []));
    assert EngineLoop.Reports(units[0], adapters, e, []) == [url];
    assert [url][..0] == [] && Feedback.Fresh([], [], Feedback.Allows(world.check)) == [];
    assert Feedback.RaisesAt([], [url], world.check, Feedback.MAX_DISCOVERED, 0);
    assert EngineLoop.Meets(units, adapters, e, world.check, 0, 0);
  }

  /** Whatever engines that describe themselves do, a report is sure to come: if and only if the
      check raises at no URL at all, or nothing is planned. */
  lemma {:induction false} SureExactly(start: L.State, rules: Registry.Rules, ops: seq<Registry.Op>,
                                       cat: Registry.Catalog, job: O.Job,
                                       world: O.World, previous: map<string, O.Finding'>)
    requires cat == Registry.RunOps(rules, ops) && Registry.Valid(cat) && O.Startable(start) && job.authorized
    ensures (forall e :: O.AllDescribed(cat, job, world.(engines := e)) ==>
                           O.Expected(start, cat, job, world.(engines := e), previous).Done?) <==>
              O.PlannedUnits(cat, job) == [] || forall url :: world.check(url).Gave?
  {
    var units := O.PlannedUnits(cat, job);
    if units == [] || forall url :: world.check(url).Gave? {
      forall e | O.AllDescribed(cat, job, world.(engines := e))
        ensures O.Expected(start, cat, job, world.(engines := e), previous).Done? {
        O.ReportsExactly(start, cat, job, world.(engines := e), previous);
      }
    } else {
      var url :| world.check(url).Raised?;
      var w := world.(engines := Reporting(url));
      O.AllBound(rules, ops, cat, job);
      OneUrlCutsShort(cat, job, w, url, units);
      O.ReportsExactly(start, cat, job, w, previous);
    }
  }

  // ----- an input

  const SITE: seq<Rule> := [
    Rule(EXCLUDE, "h", ["https"], None, "/private", Some("["), None),
    Rule(INCLUDE, "h", ["https"], None, "/", None, None)
  ]

  const HIDDEN: Parts := Parts("https", "h", NoPort, "/private/x", "/private/x")

  lemma {:induction false} HiddenRaises(lib: Library, url: string, split: string -> Option<Parts>)
    requires lib.compile("[").None? && lib.address("h").None? && split(url) == Some(HIDDEN)
    ensures CheckOf(lib, SITE, true, split)(url) == Raised
  {
    var u := Url("https", "h", 443, "/private/x", "");
    assert ToLower("https") == "https" && ToLower("h") == "h" && ToUpper("") == "";
    assert Parse(HIDDEN, "") == Some(u);
    assert Matcher(lib, u)(SITE[0]) == Raise;
    assert BreaksAt(SITE, EXCLUDE, Matcher(lib, u), 0, 0);
    BadPatternExactly(lib, SITE, true, u);
  }

  /** An engine that reports a page below an excluded path whose pattern does not compile ends the
      run of an authorized target without a report and leaves the scan RUNNING, though every
      engine describes itself and none fails. */
  lemma {:induction false} BadPatternLeavesRunning(r: L.Record, to: L.Record, rules: Registry.Rules,
                                                   ops: seq<Registry.Op>, cat: Registry.Catalog,
                                                   job: O.Job, world: O.World, previous: map<string, O.Finding'>,
                                                   lib: Library, split: string -> Option<Parts>, url: string)
    requires cat == Registry.RunOps(rules, ops) && Registry.Valid(cat) && O.ReadyToPlan(r) && job.authorized
             && O.PlannedUnits(cat, job) != []
    requires lib.compile("[").None? && lib.address("h").None? && split(url) == Some(HIDDEN)
    requires world.check == CheckOf(lib, SITE, true, split) && world.engines == Reporting(url)
    requires to == O.Through(r, O.StatesFor(O.Expected(r.scan.state, cat, job, world, previous)), world.clock, 0)
    ensures O.AllDescribed(cat, job, world) && O.Expected(r.scan.state, cat, job, world, previous) == O.Aborted
    ensures to.scan.state == L.RUNNING
  {
    HiddenRaises(lib, url, split);
    O.AllBound(rules, ops, cat, job);
    OneUrlCutsShort(cat, job, world, url, O.PlannedUnits(cat, job));
    O.ReportsExactly(r.scan.state, cat, job, world, previous);
    O.WhereItEnds(r, O.Aborted, world.clock, to);
  }
}

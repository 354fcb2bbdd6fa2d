/** One scan from start to end. */
module Orchestrator {
  import opened Wrappers
  import opened Findings
  import opened Grouping
  import C = Correlation
  import CorrelationLaws
  import RiskScore
  import Validation
  import Proofs
  import Pipeline
  import History
  import Registry
  import Planner
  import PlannerLaws
  import EngineRun
  import EngineLoop
  import L = Lifecycle

  /** The request for a scan. */
  datatype Job = Job(
    authorized: bool, kind: Planner.Kind, policy: Planner.Policy, seeds: seq<string>, redundant: bool, validating: bool)

  /** What the run meets: the engines, the scope check, the answers to the validator's requests,
      the ids that will be drawn, the hash, and the times at which states are entered and at
      which findings are seen. */
  datatype World = World(
    engines: EngineRun.Engines, check: string -> Call<bool>, answer: (nat, Observation) -> Validation.Answer,
    newId: string -> string, digest: C.Hash, clock: nat -> int, seen: nat -> int)

  /** How `run` ends: by an exception at the first step, by an exception while engines run, with
      the empty report of an unauthorized target, or with a report. */
  datatype Ending = Illegal | Aborted | Refused
                  | Done(observations: seq<Observation>, report: Proofs.Report, enginesRun: seq<string>,
                         enginesFailed: seq<string>, skipped: seq<Registry.Capability>)

  function Answers(obs: seq<Observation>, answer: (nat, Observation) -> Validation.Answer): (r: seq<Validation.Answer>)
    ensures |r| == |obs|
  {
    seq(|obs|, i requires 0 <= i < |obs| => answer(i, obs[i]))
  }

  function Validated(obs: seq<Observation>, validating: bool,
                     answer: (nat, Observation) -> Validation.Answer): seq<Observation> {
    if validating then Validation.KeptAll(obs, Answers(obs, answer), Validation.Kept) else obs
  }

  function ThePlan(cat: Registry.Catalog, job: Job): Planner.Plan
    requires Registry.Valid(cat)
  {
    Planner.PlanOf(Planner.Wanted(job.kind, job.policy),
        PlannerLaws.Chooser(cat, job.policy.disabledEngines, job.redundant), Planner.StageKey, job.seeds)
  }

  function Adapters(cat: Registry.Catalog): string -> Option<Registry.Adapter> {
    (id: string) => Registry.AdapterFor(cat, id)
  }

  function Engines(cat: Registry.Catalog, job: Job, world: World): EngineLoop.Progress
    requires Registry.Valid(cat)
  {
    EngineLoop.RunUnits(EngineLoop.Units(ThePlan(cat, job).stages), Adapters(cat), world.engines, world.check)
  }

  /** Correlated, given their history, and scored. */
  function Results(h: C.Hash, obs: seq<Observation>, newId: string -> string, previous: map<string, Finding'>,
                   clock: nat -> int): seq<Finding'> {
    Mapped(History.CarriedAll(previous, C.Correlated(h, obs, newId), clock), RiskScore.Scored)
  }

  type Finding' = C.Finding

  function Reported(p: EngineLoop.Progress, obs: seq<Observation>, findings: seq<Finding'>,
                    plan: Planner.Plan): Ending {
    Done(obs, Proofs.Report(findings, Some(Proofs.BuildProofs(findings))), p.run, p.failed, plan.skipped)
  }

  /** Everything between the engines and the report. */
  method Conclude(h: C.Hash, obs: seq<Observation>, history: History.Store, scan: History.Scan, newId: string -> string,
                  clock: nat -> int)
    returns (findings: seq<Finding'>)
    modifies history
    ensures findings == Results(h, obs, newId, History.PreviousFindings(old(history.rows), scan), clock)
    ensures history.rows == old(history.rows) + [RowFor(scan, findings)]
  {
    var correlated := C.Correlate(h, obs, newId);
    var current := new Finding'[|correlated|](i requires 0 <= i < |correlated| => correlated[i]);
    assert current[..] == correlated;
    history.MergeHistory(scan, current, clock);
    ghost var carried := current[..];
    RiskScore.ApplyAll(current);
    findings := current[..];
    assert findings == Mapped(carried, RiskScore.Scored);
    history.Save(scan.(completed := true), current);
  }

  method Validate(obs: seq<Observation>, validating: bool, answer: (nat, Observation) -> Validation.Answer)
    returns (r: seq<Observation>)
    ensures r == Validated(obs, validating, answer)
  {
    r := obs;
    if validating {
      r := Validation.ValidateAll(obs, Answers(obs, answer));
    }
  }

  /** The states entered on the way, one after the other. */
  function Through(r: L.Record, states: seq<L.State>, clock: nat -> int, k: nat): L.Record
    decreases |states|
  {
    if states == [] then r
    else L.SetState(Through(r, states[..|states| - 1], clock, k), states[|states| - 1], clock(k + |states| - 1))
  }

  method Enter(store: L.ScanStore, states: seq<L.State>, clock: nat -> int, k: nat)
    modifies store
    ensures store.Contents() == Through(old(store.Contents()), states, clock, k)
  {
    var i := 0;
    ghost var before := store.Contents();
    while i < |states|
      invariant 0 <= i <= |states| && store.Contents() == Through(before, states[..i], clock, k)
    {
      assert states[..i + 1][..i] == states[..i];
      var legal := store.Set(states[i], clock(k + i));
      i := i + 1;
    }
    assert states[..|states|] == states;
  }

  predicate Startable(s: L.State) {
    s == L.CREATED || s == L.QUEUED
  }

  const REFUSAL: seq<L.State> := [L.QUEUED, L.PLANNING, L.FAILED]
  const ENGINES: seq<L.State> := [L.QUEUED, L.PLANNING, L.RUNNING]
  const REPORT: seq<L.State> := [L.CORRELATING, L.VALIDATING, L.REPORTING, L.COMPLETED]

  function Concluded(p: EngineLoop.Progress, plan: Planner.Plan, job: Job, world: World,
                     previous: map<string, Finding'>): Ending {
    var obs := Validated(p.observations, job.validating, world.answer);
    Reported(p, obs, Results(world.digest, obs, world.newId, previous, world.seen), plan)
  }

  function ExpectedOf(p: EngineLoop.Progress, plan: Planner.Plan, job: Job, world: World,
                      previous: map<string, Finding'>): Ending {
    if p.aborted then Aborted else Concluded(p, plan, job, world, previous)
  }

  function Expected(start: L.State, cat: Registry.Catalog, job: Job, world: World,
                    previous: map<string, Finding'>): Ending
    requires Registry.Valid(cat)
  {
    if !Startable(start) then Illegal
    else if !job.authorized then Refused
    else ExpectedOf(Engines(cat, job, world), ThePlan(cat, job), job, world, previous)
  }

  function StatesFor(e: Ending): seq<L.State> {
    match e
    case Illegal => []
    case Refused => REFUSAL
    case Aborted => ENGINES
    case Done(_, _, _, _, _) => ENGINES + REPORT
  }

  method PlanAndRun(cat: Registry.Catalog, job: Job, world: World) returns (plan: Planner.Plan, p: EngineLoop.Progress)
    requires Registry.Valid(cat)
    ensures plan == ThePlan(cat, job) && p == Engines(cat, job, world)
  {
    plan := Planner.MakePlan(Planner.Wanted(job.kind, job.policy),
        PlannerLaws.Chooser(cat, job.policy.disabledEngines, job.redundant),
                             Planner.StageKey, job.seeds);
    p := EngineLoop.RunStages(plan.stages, Adapters(cat), world.engines, world.check);
  }

  function RowFor(scan: History.Scan, findings: seq<Finding'>): History.Row {
    History.Row(scan.id, scan.tenant, scan.target, scan.createdAt, true, History.Index(findings))
  }

  method Finish(store: L.ScanStore, history: History.Store, scan: History.Scan, job: Job, world: World,
                p: EngineLoop.Progress, plan: Planner.Plan)
    returns (ending: Ending)
    modifies store, history
    ensures ending == Concluded(p, plan, job, world, History.PreviousFindings(old(history.rows), scan))
    ensures store.Contents() == Through(old(store.Contents()), REPORT, world.clock, 3)
    ensures ending.Done? && history.rows == old(history.rows) + [RowFor(scan, ending.report.findings)]
  {
    var obs := Validate(p.observations, job.validating, world.answer);
    var findings := Conclude(world.digest, obs, history, scan, world.newId, world.seen);
    Enter(store, REPORT, world.clock, 3);
    ending := Reported(p, obs, findings, plan);
  }

  method AfterEngines(store: L.ScanStore, history: History.Store, scan: History.Scan, job: Job, world: World,
                      p: EngineLoop.Progress, plan: Planner.Plan, ghost start: L.Record)
    returns (ending: Ending)
    requires store.Contents() == Through(start, ENGINES, world.clock, 0)
    modifies store, history
    ensures ending == ExpectedOf(p, plan, job, world, History.PreviousFindings(old(history.rows), scan))
    ensures store.Contents() == Through(start, StatesFor(ending), world.clock, 0)
    ensures ending.Done? ==> history.rows == old(history.rows) + [RowFor(scan, ending.report.findings)]
    ensures !ending.Done? ==> history.rows == old(history.rows)
  {
    ghost var mid := store.Contents();
    if p.aborted {
      ending := Aborted;
    } else {
      ending := Finish(store, history, scan, job, world, p, plan);
      EnginesThenReport(start, world.clock, ending, mid);
    }
  }

  lemma {:induction false} EnginesThenReport(start: L.Record, clock: nat -> int, ending: Ending, mid: L.Record)
    requires ending.Done? && mid == Through(start, ENGINES, clock, 0)
    ensures Through(start, StatesFor(ending), clock, 0) == Through(mid, REPORT, clock, 3)
  {
    assert |ENGINES| == 3;
    ThroughJoin(start, ENGINES, REPORT, clock, 0, mid, 3);
  }

  method RunAuthorized(store: L.ScanStore, history: History.Store, scan: History.Scan, cat: Registry.Catalog, job: Job,
                       world: World) returns (ending: Ending)
    requires Registry.Valid(cat)
    modifies store, history
    ensures ending == ExpectedOf(Engines(cat, job, world), ThePlan(cat, job), job, world,
              History.PreviousFindings(old(history.rows), scan))
    ensures store.Contents() == Through(old(store.Contents()), StatesFor(ending), world.clock, 0)
    ensures ending.Done? ==> history.rows == old(history.rows) + [RowFor(scan, ending.report.findings)]
    ensures !ending.Done? ==> history.rows == old(history.rows)
  {
    ghost var start := store.Contents();
    Enter(store, ENGINES, world.clock, 0);
    var plan, p := PlanAndRun(cat, job, world);
    ending := AfterEngines(store, history, scan, job, world, p, plan, start);
  }

  /** The whole run: plan, run the engines, validate, correlate, carry history, score, report. */
  method Run(store: L.ScanStore, history: History.Store, scan: History.Scan, cat: Registry.Catalog, job: Job,
             world: World) returns (ending: Ending)
    requires Registry.Valid(cat)
    modifies store, history
    ensures ending == Expected(old(store.scan.state), cat, job, world,
              History.PreviousFindings(old(history.rows), scan))
    ensures store.Contents() == Through(old(store.Contents()), StatesFor(ending), world.clock, 0)
    ensures ending.Done? ==> history.rows == old(history.rows) + [RowFor(scan, ending.report.findings)]
    ensures !ending.Done? ==> history.rows == old(history.rows)
  {
    if !Startable(store.scan.state) {
      ending := Illegal;
    } else if !job.authorized {
      Enter(store, REFUSAL, world.clock, 0);
      ending := Refused;
    } else {
      ending := RunAuthorized(store, history, scan, cat, job, world);
    }
  }

  lemma {:induction false} ThroughSnoc(r: L.Record, a: seq<L.State>, s: L.State, clock: nat -> int, k: nat)
    ensures Through(r, a + [s], clock, k) == L.SetState(Through(r, a, clock, k), s, clock(k + |a|))
  {
    assert (a + [s])[..|a|] == a;
  }

  lemma {:induction false} ThroughLast(r: L.Record, c: seq<L.State>, front: seq<L.State>, s: L.State, clock: nat -> int,
                                       k: nat)
    requires c == front + [s]
    ensures Through(r, c, clock, k) == L.SetState(Through(r, front, clock, k), s, clock(k + |front|))
  {
    assert c[..|c| - 1] == front;
  }

  lemma {:induction false} ThroughJoin(r: L.Record, a: seq<L.State>, b: seq<L.State>, clock: nat -> int, k: nat,
                                       mid: L.Record, n: nat)
    requires mid == Through(r, a, clock, k) && n == k + |a|
    ensures Through(r, a + b, clock, k) == Through(mid, b, clock, n)
    decreases |b|
  {
    if b == [] {
      assert a + b == a;
    } else {
      var front, s := b[..|b| - 1], b[|b| - 1];
      var x, y := Through(r, a + front, clock, k), Through(mid, front, clock, n);
      assert x == y by {
        ThroughJoin(r, a, front, clock, k, mid, n);
      }
      ThroughLast(r, a + b, a + front, s, clock, k);
      ThroughLast(mid, b, front, s, clock, n);
      assert k + |a + front| == n + |front|;
    }
  }

  // ----- how a run ends

  ghost predicate ReadyToPlan(r: L.Record) {
    L.Consistent(r) && Startable(r.scan.state)
  }

  lemma {:induction false} ThroughKeeps(r: L.Record, states: seq<L.State>, clock: nat -> int, k: nat)
    requires L.Consistent(r)
    ensures L.Consistent(Through(r, states, clock, k))
    decreases |states|
  {
    if states != [] {
      var n := |states| - 1;
      ThroughKeeps(r, states[..n], clock, k);
      L.SetKeepsConsistent(Through(r, states[..n], clock, k), states[n], clock(k + n));
    }
  }

  lemma {:induction false} ToPlanning(r: L.Record, clock: nat -> int)
    requires Startable(r.scan.state)
    ensures Through(r, [L.QUEUED] + [L.PLANNING], clock, 0).scan.state == L.PLANNING
  {
    ThroughSnoc(r, [], L.QUEUED, clock, 0);
    assert [] + [L.QUEUED] == [L.QUEUED];
    ThroughSnoc(r, [L.QUEUED], L.PLANNING, clock, 0);
  }

  lemma {:induction false} ToRunning(r: L.Record, clock: nat -> int, to: L.Record)
    requires Startable(r.scan.state) && to == Through(r, ENGINES, clock, 0)
    ensures to.scan.state == L.RUNNING
  {
    var a := [L.QUEUED] + [L.PLANNING];
    ToPlanning(r, clock);
    ThroughSnoc(r, a, L.RUNNING, clock, 0);
    assert ENGINES == a + [L.RUNNING];
  }

  lemma {:induction false} ToFailed(r: L.Record, clock: nat -> int, to: L.Record)
    requires Startable(r.scan.state) && to == Through(r, REFUSAL, clock, 0)
    ensures to.scan.state == L.FAILED
  {
    var a := [L.QUEUED] + [L.PLANNING];
    ToPlanning(r, clock);
    ThroughSnoc(r, a, L.FAILED, clock, 0);
    assert REFUSAL == a + [L.FAILED];
  }

  lemma {:induction false} ToCompleted(r: L.Record, clock: nat -> int, to: L.Record)
    requires r.scan.state == L.RUNNING && to == Through(r, REPORT, clock, 3)
    ensures to.scan.state == L.COMPLETED
  {
    var a := [L.CORRELATING];
    var b := a + [L.VALIDATING];
    var c := b + [L.REPORTING];
    ThroughSnoc(r, [], L.CORRELATING, clock, 3);
    assert [] + [L.CORRELATING] == a;
    ThroughSnoc(r, a, L.VALIDATING, clock, 3);
    ThroughSnoc(r, b, L.REPORTING, clock, 3);
    ThroughSnoc(r, c, L.COMPLETED, clock, 3);
    assert REPORT == c + [L.COMPLETED];
  }

  /** A run started from CREATED or QUEUED leaves the scan COMPLETED with a report, FAILED for an
      unauthorized target, and RUNNING, for good, when an exception ends it while engines run;
      the audit trail stays a legal path throughout. */
  lemma {:induction false} WhereItEnds(r: L.Record, ending: Ending, clock: nat -> int, to: L.Record)
    requires ReadyToPlan(r) && to == Through(r, StatesFor(ending), clock, 0)
    ensures L.Consistent(to)
    ensures ending.Done? ==> to.scan.state == L.COMPLETED
    ensures ending.Refused? ==> to.scan.state == L.FAILED
    ensures ending.Aborted? ==> to.scan.state == L.RUNNING
    ensures ending.Illegal? ==> to == r
  {
    ThroughKeeps(r, StatesFor(ending), clock, 0);
    if ending.Done? {
      var mid := Through(r, ENGINES, clock, 0);
      EnginesThenReport(r, clock, ending, mid);
      ToRunning(r, clock, mid);
      ToCompleted(mid, clock, to);
    } else if ending.Refused? {
      ToFailed(r, clock, to);
    } else if ending.Aborted? {
      ToRunning(r, clock, to);
    }
  }

  function PlannedUnits(cat: Registry.Catalog, job: Job): seq<EngineLoop.Unit>
    requires Registry.Valid(cat)
  {
    EngineLoop.Units(ThePlan(cat, job).stages)
  }

  /** A planned task whose engine cannot describe itself. */
  ghost predicate Undescribed(stages: seq<Planner.PlanStage>, adapters: string -> Option<Registry.Adapter>,
                              engines: EngineRun.Engines) {
    exists st, t :: st in stages && t in st.tasks && EngineLoop.Blocks(EngineLoop.Unit(st.kind, t), adapters, engines)
  }

  /** Every planned engine that has an adapter can describe itself. */
  ghost predicate AllDescribed(cat: Registry.Catalog, job: Job, world: World)
    requires Registry.Valid(cat)
  {
    !Undescribed(ThePlan(cat, job).stages, Adapters(cat), world.engines)
  }

  /** Collecting what the planned engines report comes to a URL whose scope check raises. */
  ghost predicate MeetsBadUrl(cat: Registry.Catalog, job: Job, world: World)
    requires Registry.Valid(cat)
  {
    exists k, i :: EngineLoop.Meets(PlannedUnits(cat, job), Adapters(cat), world.engines, world.check, k, i)
  }

  lemma {:induction false} BlocksMeans(stages: seq<Planner.PlanStage>, units: seq<EngineLoop.Unit>,
                                       adapters: string -> Option<Registry.Adapter>,
                                       engines: EngineRun.Engines)
    requires units == EngineLoop.Units(stages)
    ensures (exists u :: u in units && EngineLoop.Blocks(u, adapters, engines)) <==>
            Undescribed(stages, adapters, engines)
  {
    if u :| u in units && EngineLoop.Blocks(u, adapters, engines) {
      EngineLoop.UnitsMean(stages, u);
      var st :| st in stages && u.stage == st.kind && u.task in st.tasks;
      assert u == EngineLoop.Unit(st.kind, u.task);
    }
    if Undescribed(stages, adapters, engines) {
      var st, t :| st in stages && t in st.tasks && EngineLoop.Blocks(EngineLoop.Unit(st.kind, t), adapters, engines);
      EngineLoop.UnitsMean(stages, EngineLoop.Unit(st.kind, t));
    }
  }

  lemma {:induction false} AbortedExactly(cat: Registry.Catalog, job: Job, world: World)
    requires Registry.Valid(cat)
    ensures Engines(cat, job, world).aborted <==> !AllDescribed(cat, job, world) || MeetsBadUrl(cat, job, world)
  {
    EngineLoop.HowItEnds(PlannedUnits(cat, job), Adapters(cat), world.engines, world.check, Engines(cat, job, world));
    BlocksMeans(ThePlan(cat, job).stages, PlannedUnits(cat, job), Adapters(cat), world.engines);
  }

  /** A run ends with a report exactly when it may start, the target is authorized, every planned
      engine can describe itself, and collecting what they report comes to no URL whose scope
      check raises.  No other failure of an engine or of the validator matters. */
  lemma {:induction false} ReportsExactly(start: L.State, cat: Registry.Catalog, job: Job, world: World,
                                          previous: map<string, Finding'>)
    requires Registry.Valid(cat)
    ensures Expected(start, cat, job, world, previous).Done? <==>
              Startable(start) && job.authorized && AllDescribed(cat, job, world) && !MeetsBadUrl(cat, job, world)
    ensures Expected(start, cat, job, world, previous).Refused? <==> Startable(start) && !job.authorized
    ensures Expected(start, cat, job, world, previous).Aborted? <==>
              Startable(start) && job.authorized && (!AllDescribed(cat, job, world) || MeetsBadUrl(cat, job, world))
  {
    AbortedExactly(cat, job, world);
  }

  /** Failures are isolated up to the very report: the ending is that of a world in which every
      failing or unavailable engine returns nothing instead. */
  lemma {:induction false} FailuresChangeNothing(start: L.State, cat: Registry.Catalog, job: Job, world: World,
                                                 previous: map<string, Finding'>)
    requires Registry.Valid(cat)
    ensures Expected(start, cat, job, world, previous) ==
            Expected(start, cat, job, world.(engines := EngineRun.Quiet(world.engines)), previous)
  {
    EngineLoop.FailuresAreIsolated(EngineLoop.Units(ThePlan(cat, job).stages), Adapters(cat), world.engines,
        world.check);
  }

  lemma {:induction false} AllBound(rules: Registry.Rules, ops: seq<Registry.Op>, cat: Registry.Catalog, job: Job)
    requires cat == Registry.RunOps(rules, ops) && Registry.Valid(cat)
    ensures forall u :: u in PlannedUnits(cat, job) ==> EngineLoop.Bound(u, Adapters(cat))
  {
    var plan := ThePlan(cat, job);
    forall u | u in PlannedUnits(cat, job) ensures EngineLoop.Bound(u, Adapters(cat)) {
      EngineLoop.UnitsMean(plan.stages, u);
      var st :| st in plan.stages && u.stage == st.kind && u.task in st.tasks;
      PlannerLaws.PlannedCanRun(rules, ops, cat, job.policy.disabledEngines, job.redundant,
          Planner.Wanted(job.kind, job.policy), job.seeds,
                                plan, st, u.task, Registry.VALIDATION);
    }
  }

  /** However the registry came about, every planned engine is found when its task comes up, so
      no engine is ever listed as failed. */
  lemma {:induction false} NothingUnbound(rules: Registry.Rules, ops: seq<Registry.Op>, cat: Registry.Catalog, job: Job,
                                          world: World)
    requires cat == Registry.RunOps(rules, ops) && Registry.Valid(cat)
    ensures !Engines(cat, job, world).aborted ==> Engines(cat, job, world).failed == []
  {
    var units := PlannedUnits(cat, job);
    EngineLoop.HowItEnds(units, Adapters(cat), world.engines, world.check, Engines(cat, job, world));
    AllBound(rules, ops, cat, job);
    EngineLoop.NoneUnbound(units, Adapters(cat));
  }

  // ----- what a run needs, and what it reports

  /** A run may start where a scan is queued or can be, so that planning comes next. */
  lemma {:induction false} StartableExactly(r: L.Record, clock: nat -> int)
    ensures Startable(r.scan.state) <==>
            (r.scan.state == L.QUEUED || L.CanTransition(r.scan.state, L.QUEUED))
    ensures Startable(r.scan.state) ==> Through(r, [L.QUEUED, L.PLANNING], clock, 0).scan.state == L.PLANNING
  {
    if Startable(r.scan.state) {
      assert [L.QUEUED] + [L.PLANNING] == [L.QUEUED, L.PLANNING];
      ToPlanning(r, clock);
    }
  }

  lemma {:induction false} AllNamed(units: seq<EngineLoop.Unit>, adapters: string -> Option<Registry.Adapter>,
                                    names: seq<string>)
    requires (forall u :: u in units ==> EngineLoop.Bound(u, adapters))
             && names == EngineLoop.NamesOf(units, adapters, true)
    ensures |names| == |units| && forall i :: 0 <= i < |units| ==> names[i] == units[i].task.engine
    decreases |units|
  {
    if units != [] {
      var n := |units| - 1;
      assert units[n] in units;
      AllNamed(units[..n], adapters, EngineLoop.NamesOf(units[..n], adapters, true));
    }
  }

  /** A report lists as run the engine of every planned task, in the order of the plan, failures
      included; none as failed; what was skipped; and one observation for each that was gathered. */
  lemma {:induction false} ReportLists(rules: Registry.Rules, ops: seq<Registry.Op>, start: L.State,
                                       cat: Registry.Catalog, job: Job, world: World,
                                       previous: map<string, Finding'>, ending: Ending, units: seq<EngineLoop.Unit>)
    requires cat == Registry.RunOps(rules, ops) && Registry.Valid(cat) && units == PlannedUnits(cat, job)
    requires ending == Expected(start, cat, job, world, previous) && ending.Done?
    ensures |ending.enginesRun| == |units|
    ensures forall i :: 0 <= i < |units| ==> ending.enginesRun[i] == units[i].task.engine
    ensures ending.enginesFailed == [] && ending.skipped == ThePlan(cat, job).skipped
    ensures |ending.observations| == |Engines(cat, job, world).observations|
  {
    EngineLoop.HowItEnds(units, Adapters(cat), world.engines, world.check, Engines(cat, job, world));
    AllBound(rules, ops, cat, job);
    AllNamed(units, Adapters(cat), EngineLoop.NamesOf(units, Adapters(cat), true));
    EngineLoop.NoneUnbound(units, Adapters(cat));
  }

  // ----- runs make history

  lemma {:induction false} PreviousIgnoresFindings(rows: seq<History.Row>, a: History.Scan, b: History.Scan)
    requires a.id == b.id && a.tenant == b.tenant && a.target == b.target
    ensures History.Previous(rows, a) == History.Previous(rows, b)
    decreases |rows|
  {
    if rows != [] {
      PreviousIgnoresFindings(rows[..|rows| - 1], a, b);
    }
  }

  lemma {:induction false} ScoringKeepsIdentity()
    ensures History.KeepsIdentity(RiskScore.Scored)
  {
    forall f: Finding' ensures RiskScore.Scored(f).fingerprint == f.fingerprint
      && RiskScore.Scored(f).firstSeen == f.firstSeen && RiskScore.Scored(f).lastSeen == f.lastSeen {
      ScoredIs(f);
    }
  }

  lemma {:induction false} ScoredIs(f: Finding')
    ensures RiskScore.Scored(f) == f.(riskScore := RiskScore.ScoreOf(f))
  {
  }

  /** The row a run adds is the next step of the history whose law is proved over sequences of
      scans: the correlated findings, carried and scored. */
  lemma {:induction false} RunIsAHistoryStep(h: C.Hash, rows: seq<History.Row>, scan: History.Scan, v: seq<Observation>,
                                             newId: string -> string, clock: nat -> int, step: History.Scan)
    requires step == scan.(findings := C.Correlated(h, v, newId), completed := true)
    ensures History.KeepsIdentity(RiskScore.Scored)
    ensures RowFor(scan, Results(h, v, newId, History.PreviousFindings(rows, scan), clock)) ==
            History.Stored(rows, step, clock, RiskScore.Scored)
  {
    PreviousIgnoresFindings(rows, scan, step);
    ScoringKeepsIdentity();
  }

  // ----- the report's confirmed-only view

  predicate SameTrust(f: Finding', g: Finding') {
    f.id == g.id && f.fingerprint == g.fingerprint && f.confidence == g.confidence && f.engines == g.engines
  }

  lemma {:induction false} ResultsKeepTrust(h: C.Hash, obs: seq<Observation>, newId: string -> string,
                                            previous: map<string, Finding'>, clock: nat -> int, fs: seq<Finding'>)
    requires fs == C.Correlated(h, obs, newId)
    ensures var r := Results(h, obs, newId, previous, clock);
            |r| == |fs| && forall i :: 0 <= i < |r| ==> SameTrust(fs[i], r[i])
  {
    var r := Results(h, obs, newId, previous, clock);
    forall i | 0 <= i < |r| ensures SameTrust(fs[i], r[i]) {
      ScoredKeepsTrust(previous, fs[i], clock(i));
    }
  }

  lemma {:induction false} ScoredKeepsTrust(previous: map<string, Finding'>, f: Finding', now: int)
    ensures SameTrust(f, RiskScore.Scored(History.Carried(previous, f, now)))
  {
  }

  lemma {:induction false} SameTrustKeepsIds(fs: seq<Finding'>, r: seq<Finding'>)
    requires NoRepeats(fs, Proofs.IdOf) && |r| == |fs| && forall i :: 0 <= i < |r| ==> SameTrust(fs[i], r[i])
    ensures NoRepeats(r, Proofs.IdOf)
  {
    forall i, j | 0 <= i < j < |r| ensures Proofs.IdOf(r[i]) != Proofs.IdOf(r[j]) {
      assert Proofs.IdOf(fs[i]) != Proofs.IdOf(fs[j]);
    }
  }

  lemma {:induction false} CorrelatedIds(h: C.Hash, obs: seq<Observation>, newId: string -> string)
    requires forall a, b :: newId(a) == newId(b) ==> a == b
    ensures NoRepeats(C.Correlated(h, obs, newId), Proofs.IdOf)
  {
    var fs := C.Correlated(h, obs, newId);
    forall g | g in fs ensures g.id == newId(g.fingerprint) {
      CorrelationLaws.FindingsAreGroups(h, obs, newId, g);
    }
    if fs != [] {
      CorrelationLaws.FindingsAreGroups(h, obs, newId, fs[0]);
      Pipeline.IdsAreDistinct(fs, newId);
    }
  }

  /** End to end: with validation on and no engine claiming CONFIRMED, the confirmed-only view
      of the report holds exactly the reported findings with an observation whose reported
      condition was reproduced, or with two engines and not only false positives. */
  lemma {:induction false} ConfirmedViewOfReport(p: EngineLoop.Progress, plan: Planner.Plan, job: Job, world: World,
                                                 previous: map<string, Finding'>,
                                                 ending: Ending, f: Finding')
    requires job.validating && Pipeline.NoneConfirmed(p.observations)
    requires forall a, b :: world.newId(a) == world.newId(b) ==> a == b
    requires ending == Concluded(p, plan, job, world, previous)
    ensures f in Proofs.FilterConfirmed(ending.report).findings <==>
              f in ending.report.findings &&
              Pipeline.Trustworthy(world.digest, p.observations, Answers(p.observations, world.answer), f.fingerprint)
  {
    var obs, answers := p.observations, Answers(p.observations, world.answer);
    var v := Validation.KeptAll(obs, answers, Validation.Kept);
    ViewOfResults(world.digest, obs, answers, v, world.newId, previous, world.seen, ending.report.findings, f);
  }

  lemma {:induction false} ViewOfResults(h: C.Hash, obs: seq<Observation>, answers: seq<Validation.Answer>,
                                         v: seq<Observation>, newId: string -> string,
                                         previous: map<string, Finding'>, clock: nat -> int, r: seq<Finding'>,
                                         f: Finding')
    requires |obs| == |answers| && v == Validation.KeptAll(obs, answers, Validation.Kept) && Pipeline.NoneConfirmed(obs)
    requires forall a, b :: newId(a) == newId(b) ==> a == b
    requires r == Results(h, v, newId, previous, clock)
    ensures f in Proofs.FilterConfirmed(Proofs.Report(r, Some(Proofs.BuildProofs(r)))).findings <==>
              f in r && Pipeline.Trustworthy(h, obs, answers, f.fingerprint)
  {
    var fs := C.Correlated(h, v, newId);
    ResultsKeepTrust(h, v, newId, previous, clock, fs);
    CorrelatedIds(h, v, newId);
    SameTrustKeepsIds(fs, r);
    Proofs.FilterExactly(r, Proofs.FilterConfirmed(Proofs.Report(r, Some(Proofs.BuildProofs(r)))));
    KeepMeans(r, Proofs.TrustedFinding);
    if f in r {
      TrustOfResult(h, obs, answers, v, newId, fs, r, f);
    }
  }

  lemma {:induction false} TrustOfResult(h: C.Hash, obs: seq<Observation>, answers: seq<Validation.Answer>,
                                         v: seq<Observation>, newId: string -> string,
                                         fs: seq<Finding'>, r: seq<Finding'>, f: Finding')
    requires |obs| == |answers| && v == Validation.KeptAll(obs, answers, Validation.Kept) && Pipeline.NoneConfirmed(obs)
    requires fs == C.Correlated(h, v, newId) && |r| == |fs| && (forall i :: 0 <= i < |r| ==> SameTrust(fs[i], r[i]))
             && f in r
    ensures Proofs.TrustedFinding(f) <==> Pipeline.Trustworthy(h, obs, answers, f.fingerprint)
  {
    var i :| 0 <= i < |r| && r[i] == f;
    assert SameTrust(fs[i], f) && fs[i] in fs;
    Pipeline.TrustExactly(h, obs, answers, v, newId, fs[i]);
  }
}

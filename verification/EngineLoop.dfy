/** Running the planned engines in order, feeding discoveries forward, isolating failures. */
module EngineLoop {
  import opened Wrappers
  import opened Findings
  import opened Grouping
  import opened Registry
  import opened Planner
  import opened Feedback
  import opened EngineRun

  datatype Unit = Unit(stage: Stage, task: Task)

  /** A request, and the engine the plan names for it. */
  datatype Sent = Sent(to: string, request: Request)

  /** `aborted`: an engine failed to describe itself, or the scope check of what it reported
      raised; either ends the whole run. */
  datatype Progress = Progress(
    observations: seq<Observation>, discovered: seq<string>, run: seq<string>, failed: seq<string>,
    requests: seq<Sent>, aborted: bool)

  const START: Progress := Progress([], [], [], [], [], false)

  function Seeds(u: Unit, discovered: seq<string>): seq<string> {
    if u.stage == AuditStage && discovered != [] then Merged(u.task.seeds, discovered, MAX_FED_SEEDS) else u.task.seeds
  }

  function RequestFor(id: string, u: Unit, discovered: seq<string>): Request {
    Request(id, u.task.capabilities, Seeds(u, discovered))
  }

  function Advance(p: Progress, u: Unit, adapters: string -> Option<Adapter>, engines: Engines,
                   check: string -> Call<bool>): Progress {
    if p.aborted then p
    else
      match adapters(u.task.engine)
      case None => p.(failed := p.failed + [u.task.engine])
      case Some(a) =>
        match engines.describe(a)
        case Raised => p.(aborted := true)
        case Gave(id) =>
          var request := RequestFor(id, u, p.discovered);
          var obs := Gathered(engines, a, request);
          var collection := Attempt(p.discovered, UrlsOf(obs), check, MAX_DISCOVERED);
          Progress(p.observations + obs, collection.urls, p.run + [u.task.engine], p.failed,
                   p.requests + [Sent(u.task.engine, request)], collection.raised)
  }

  function RunUnits(units: seq<Unit>, adapters: string -> Option<Adapter>, engines: Engines,
                    check: string -> Call<bool>): Progress
    decreases |units|
  {
    if units == [] then START
    else Advance(RunUnits(units[..|units| - 1], adapters, engines, check), units[|units| - 1], adapters, engines, check)
  }

  function UnitsOf(st: PlanStage): (r: seq<Unit>)
    ensures |r| == |st.tasks| && forall i :: 0 <= i < |r| ==> r[i] == Unit(st.kind, st.tasks[i])
  {
    seq(|st.tasks|, i requires 0 <= i < |st.tasks| => Unit(st.kind, st.tasks[i]))
  }

  function Units(stages: seq<PlanStage>): seq<Unit>
    decreases |stages|
  {
    if stages == [] then [] else Units(stages[..|stages| - 1]) + UnitsOf(stages[|stages| - 1])
  }

  lemma {:induction false} AbortStays(units: seq<Unit>, more: seq<Unit>, adapters: string -> Option<Adapter>,
                                      engines: Engines, check: string -> Call<bool>)
    requires RunUnits(units, adapters, engines, check).aborted
    ensures RunUnits(units + more, adapters, engines, check) == RunUnits(units, adapters, engines, check)
    decreases |more|
  {
    if more == [] {
      assert units + more == units;
    } else {
      var n := |more| - 1;
      AbortStays(units, more[..n], adapters, engines, check);
      assert units + more == (units + more[..n]) + [more[n]];
    }
  }

  lemma {:induction false} UnitsSplit(stages: seq<PlanStage>, i: nat) returns (rest: seq<Unit>)
    requires i <= |stages|
    ensures Units(stages) == Units(stages[..i]) + rest
    decreases |stages|
  {
    if i == |stages| {
      rest := [];
      assert stages[..i] == stages && Units(stages) + [] == Units(stages);
    } else {
      var n := |stages| - 1;
      rest := UnitsSplit(stages[..n], i);
      assert stages[..n][..i] == stages[..i];
      rest := rest + UnitsOf(stages[n]);
    }
  }

  /** One task: look up the adapter, choose the seeds, run the engine, collect. */
  method RunTask(p: Progress, u: Unit, adapters: string -> Option<Adapter>, engines: Engines,
                 check: string -> Call<bool>) returns (q: Progress)
    requires !p.aborted
    ensures q == Advance(p, u, adapters, engines, check)
  {
    var adapter := adapters(u.task.engine);
    match adapter {
      case None =>
        q := p.(failed := p.failed + [u.task.engine]);
      case Some(a) =>
        var seeds := u.task.seeds;
        if u.stage == AuditStage && p.discovered != [] {
          seeds := MergeSeeds(u.task.seeds, p.discovered, MAX_FED_SEEDS);
        }
        var id := engines.describe(a);
        if id.Raised? {
          q := p.(aborted := true);
        } else {
          var request := Request(id.value, u.task.capabilities, seeds);
          var obs := RunEngine(engines, a, request);
          SurvivorsAreGathered(engines, a, request, obs);
          var known := new Discovery();
          known.urls := p.discovered;
          var raised := known.Collect(obs, check, MAX_DISCOVERED);
          q := Progress(p.observations + obs, known.urls, p.run + [u.task.engine], p.failed,
                        p.requests + [Sent(u.task.engine, request)], raised);
        }
    }
  }

  lemma {:induction false} StageStep(before: seq<Unit>, all: seq<Unit>, i: nat, adapters: string -> Option<Adapter>,
                                     engines: Engines, check: string -> Call<bool>)
    requires i < |all|
    ensures RunUnits(before + all[..i + 1], adapters, engines, check) ==
            Advance(RunUnits(before + all[..i], adapters, engines, check), all[i], adapters, engines, check)
  {
    assert before + all[..i + 1] == (before + all[..i]) + [all[i]];
  }

  lemma {:induction false} StageEnd(before: seq<Unit>, all: seq<Unit>, i: nat, adapters: string -> Option<Adapter>,
                                    engines: Engines, check: string -> Call<bool>)
    requires i <= |all| && (i < |all| ==> RunUnits(before + all[..i], adapters, engines, check).aborted)
    ensures RunUnits(before + all, adapters, engines, check) == RunUnits(before + all[..i], adapters, engines, check)
  {
    if i < |all| {
      assert before + all == (before + all[..i]) + all[i..];
      AbortStays(before + all[..i], all[i..], adapters, engines, check);
    } else {
      assert all[..i] == all;
    }
  }

  method RunStage(p: Progress, st: PlanStage, adapters: string -> Option<Adapter>, engines: Engines,
                  check: string -> Call<bool>, ghost before: seq<Unit>)
    returns (q: Progress)
    requires p == RunUnits(before, adapters, engines, check)
    ensures q == RunUnits(before + UnitsOf(st), adapters, engines, check)
  {
    q := p;
    ghost var all := UnitsOf(st);
    var i := 0;
    assert before + all[..0] == before;
    while i < |st.tasks| && !q.aborted
      invariant 0 <= i <= |st.tasks| && q == RunUnits(before + all[..i], adapters, engines, check)
    {
      StageStep(before, all, i, adapters, engines, check);
      q := RunTask(q, Unit(st.kind, st.tasks[i]), adapters, engines, check);
      i := i + 1;
    }
    StageEnd(before, all, i, adapters, engines, check);
  }

  /** The loop over stages and tasks. */
  method RunStages(stages: seq<PlanStage>, adapters: string -> Option<Adapter>, engines: Engines,
                   check: string -> Call<bool>) returns (p: Progress)
    ensures p == RunUnits(Units(stages), adapters, engines, check)
  {
    p := START;
    var i := 0;
    while i < |stages| && !p.aborted
      invariant 0 <= i <= |stages| && p == RunUnits(Units(stages[..i]), adapters, engines, check)
    {
      assert stages[..i + 1][..i] == stages[..i];
      p := RunStage(p, stages[i], adapters, engines, check, Units(stages[..i]));
      i := i + 1;
    }
    if p.aborted {
      ghost var rest := UnitsSplit(stages, i);
      AbortStays(Units(stages[..i]), rest, adapters, engines, check);
    } else {
      assert stages[..i] == stages;
    }
  }

  predicate Bound(u: Unit, adapters: string -> Option<Adapter>) {
    adapters(u.task.engine).Some?
  }

  /** A bound engine that cannot describe itself. */
  predicate Blocks(u: Unit, adapters: string -> Option<Adapter>, engines: Engines) {
    Bound(u, adapters) && engines.describe(adapters(u.task.engine).value).Raised?
  }

  /** A bound engine that can. */
  predicate Answers(u: Unit, adapters: string -> Option<Adapter>, engines: Engines) {
    Bound(u, adapters) && engines.describe(adapters(u.task.engine).value).Gave?
  }

  function Asked(u: Unit, adapters: string -> Option<Adapter>, engines: Engines, discovered: seq<string>): Request
    requires Answers(u, adapters, engines)
  {
    RequestFor(engines.describe(adapters(u.task.engine).value).value, u, discovered)
  }

  /** The URLs a unit's run reports. */
  function Reports(u: Unit, adapters: string -> Option<Adapter>, engines: Engines, discovered: seq<string>): seq<string>
    requires Answers(u, adapters, engines)
  {
    UrlsOf(Gathered(engines, adapters(u.task.engine).value, Asked(u, adapters, engines, discovered)))
  }

  // ----- failure isolation

  /** Engines that gather the same from every request run the same. */
  lemma {:induction false} SameGatheringsSameRun(units: seq<Unit>, adapters: string -> Option<Adapter>, e: Engines,
                                                 f: Engines, check: string -> Call<bool>)
    requires e.describe == f.describe && forall a, r :: Gathered(e, a, r) == Gathered(f, a, r)
    ensures RunUnits(units, adapters, e, check) == RunUnits(units, adapters, f, check)
    decreases |units|
  {
    if units != [] {
      SameGatheringsSameRun(units[..|units| - 1], adapters, e, f, check);
    }
  }

  /** Observations, discoveries, the seeds of every request and the lists of engines are those
      of a run in which every run of an engine that fails, at any of its six calls or by being
      unavailable, is replaced by one that fails at none and finds nothing. */
  lemma {:induction false} FailuresAreIsolated(units: seq<Unit>, adapters: string -> Option<Adapter>, engines: Engines,
                                               check: string -> Call<bool>)
    ensures NeverFails(Quiet(engines))
    ensures RunUnits(units, adapters, engines, check) == RunUnits(units, adapters, Quiet(engines), check)
  {
    QuietNeverFails(engines);
    forall a, r ensures Gathered(Quiet(engines), a, r) == Gathered(engines, a, r) {
      QuietGathersTheSame(engines, a, r);
    }
    SameGatheringsSameRun(units, adapters, engines, Quiet(engines), check);
  }

  /** Whatever it is asked, some call of the engine fails, or it finds nothing. */
  ghost predicate NeverReturns(engines: Engines, a: Adapter) {
    engines.describe(a).Gave? && forall r :: Gathered(engines, a, r) == []
  }

  function NotBy(e: string): Sent -> bool {
    (r: Sent) => r.to != e
  }

  lemma {:induction false} KeepNotBy(rs: seq<Sent>, r: Sent, e: string)
    ensures Keep(rs + [r], NotBy(e)) == Keep(rs, NotBy(e)) + if r.to != e then [r] else []
  {
    KeepSnoc(rs, r, NotBy(e));
  }

  function Without(units: seq<Unit>, e: string): seq<Unit>
    decreases |units|
  {
    if units == [] then []
    else Without(units[..|units| - 1], e) + if units[|units| - 1].task.engine == e then [] else [units[|units| - 1]]
  }

  ghost predicate SameButFor(p: Progress, q: Progress, e: string) {
    p.observations == q.observations && p.discovered == q.discovered && p.aborted == q.aborted
      && q.requests == Keep(p.requests, NotBy(e))
  }

  lemma {:induction false} AdvanceAlike(p: Progress, q: Progress, u: Unit, e: string,
                                        adapters: string -> Option<Adapter>,
                                        engines: Engines, check: string -> Call<bool>)
    requires SameButFor(p, q, e) && u.task.engine != e
    ensures SameButFor(Advance(p, u, adapters, engines, check), Advance(q, u, adapters, engines, check), e)
  {
    if Answers(u, adapters, engines) {
      KeepNotBy(p.requests, Sent(u.task.engine, Asked(u, adapters, engines, p.discovered)), e);
    }
  }

  lemma {:induction false} AdvanceSilent(p: Progress, u: Unit, a: Adapter, adapters: string -> Option<Adapter>,
                                         engines: Engines,
                                         check: string -> Call<bool>)
    requires adapters(u.task.engine) == Some(a) && NeverReturns(engines, a)
    ensures SameButFor(Advance(p, u, adapters, engines, check), p.(requests := Keep(p.requests, NotBy(u.task.engine))),
              u.task.engine)
  {
    KeepNotBy(p.requests, Sent(u.task.engine, Asked(u, adapters, engines, p.discovered)), u.task.engine);
    assert p.observations + [] == p.observations;
  }

  /** An engine that always fails may as well not be planned: taking all its tasks out of the
      plan changes no observation, no discovery and no other engine's request. */
  lemma {:induction false} FailingEngineMayGo(units: seq<Unit>, e: string, a: Adapter,
                                              adapters: string -> Option<Adapter>, engines: Engines,
                                              check: string -> Call<bool>)
    requires adapters(e) == Some(a) && NeverReturns(engines, a)
    ensures SameButFor(RunUnits(units, adapters, engines, check), RunUnits(Without(units, e), adapters, engines, check),
              e)
    decreases |units|
  {
    if units != [] {
      var n := |units| - 1;
      var u, front := units[n], units[..n];
      FailingEngineMayGo(front, e, a, adapters, engines, check);
      var p, q := RunUnits(front, adapters, engines, check), RunUnits(Without(front, e), adapters, engines, check);
      if u.task.engine == e {
        AdvanceSilent(p, u, a, adapters, engines, check);
        assert Without(front, e) + [] == Without(front, e);
      } else {
        AdvanceAlike(p, q, u, e, adapters, engines, check);
      }
    }
  }

  // ----- what is asked of engines

  /** The request made for a unit, whatever was discovered by then. */
  ghost predicate Asks(sent: Sent, u: Unit, adapters: string -> Option<Adapter>, engines: Engines,
                       inScope: string -> bool) {
    var r := sent.request;
    && Answers(u, adapters, engines) && engines.describe(adapters(u.task.engine).value) == Gave(r.engine)
    && sent.to == u.task.engine && r.capabilities == u.task.capabilities
    && u.task.seeds <= r.seeds && |r.seeds| <= Max(MAX_FED_SEEDS, |u.task.seeds| + 1)
    && (u.stage != AuditStage ==> r.seeds == u.task.seeds)
    && (forall s :: s in r.seeds ==> s in u.task.seeds || inScope(s))
  }

  lemma {:induction false} SeedsAreSound(u: Unit, adapters: string -> Option<Adapter>, engines: Engines,
                                         discovered: seq<string>,
                                         inScope: string -> bool)
    requires Answers(u, adapters, engines) && Sane(discovered, inScope)
    ensures Asks(Sent(u.task.engine, Asked(u, adapters, engines, discovered)), u, adapters, engines, inScope)
  {
    if u.stage == AuditStage && discovered != [] {
      MergedIsBounded(u.task.seeds, discovered, MAX_FED_SEEDS, Seeds(u, discovered));
    }
  }

  /** Every request goes to a planned task's engine under the id it describes itself by; its seeds
      begin with the planned ones, stay within the bound, are only added to in the audit stage,
      and what is added is in scope.  The list of discoveries has no duplicates, is in scope, and
      is at most the cap plus the number of engines run less one. */
  lemma {:induction false} RequestsAreSound(units: seq<Unit>, adapters: string -> Option<Adapter>, engines: Engines,
                                            check: string -> Call<bool>, p: Progress)
    requires p == RunUnits(units, adapters, engines, check)
    ensures Sane(p.discovered, Allows(check))
            && |p.discovered| <= if p.run == [] then 0 else MAX_DISCOVERED + |p.run| - 1
    ensures |p.requests| == |p.run|
    ensures forall r :: r in p.requests ==> exists u :: u in units && Asks(r, u, adapters, engines, Allows(check))
    decreases |units|
  {
    if units != [] {
      var n := |units| - 1;
      var u, before := units[n], RunUnits(units[..n], adapters, engines, check);
      RequestsAreSound(units[..n], adapters, engines, check, before);
      AdvanceCollects(before, u, adapters, engines, check, p);
      assert u in units;
      forall r | r in p.requests ensures exists v :: v in units && Asks(r, v, adapters, engines, Allows(check)) {
        if r in before.requests {
          var v :| v in units[..n] && Asks(r, v, adapters, engines, Allows(check));
          assert v in units;
        } else {
          SeedsAreSound(u, adapters, engines, before.discovered, Allows(check));
        }
      }
    }
  }

  lemma {:induction false} AdvanceCollects(p: Progress, u: Unit, adapters: string -> Option<Adapter>, engines: Engines,
                                           check: string -> Call<bool>, q: Progress)
    requires Sane(p.discovered, Allows(check)) && q == Advance(p, u, adapters, engines, check)
    ensures Sane(q.discovered, Allows(check)) && p.discovered <= q.discovered
    ensures |q.discovered| <= Max(MAX_DISCOVERED, |p.discovered| + 1)
    ensures |q.run| == |p.run| ==> q.discovered == p.discovered
  {
    if Answers(u, adapters, engines) && !p.aborted {
      var urls := Reports(u, adapters, engines, p.discovered);
      var c := Attempt(p.discovered, urls, check, MAX_DISCOVERED);
      var k := AttemptExactly(p.discovered, urls, check, MAX_DISCOVERED, c);
      CollectStep(p.discovered, urls[..k], Allows(check), MAX_DISCOVERED, c.urls);
    }
  }

  // ----- how a run ends

  function NamesOf(units: seq<Unit>, adapters: string -> Option<Adapter>, bound: bool): seq<string>
    decreases |units|
  {
    if units == [] then []
    else
      var u := units[|units| - 1];
      NamesOf(units[..|units| - 1], adapters, bound) + if Bound(u, adapters) == bound then [u.task.engine] else []
  }

  /** The engine of unit `k` can describe itself, and collecting what it reports comes to a URL,
      the i-th, whose scope check raises. */
  predicate Meets(units: seq<Unit>, adapters: string -> Option<Adapter>, engines: Engines, check: string -> Call<bool>,
                  k: nat, i: nat) {
    && k < |units| && Answers(units[k], adapters, engines)
    && var known := RunUnits(units[..k], adapters, engines, check).discovered;
       RaisesAt(known, Reports(units[k], adapters, engines, known), check, MAX_DISCOVERED, i)
  }

  lemma {:induction false} AdvanceAborts(p: Progress, u: Unit, adapters: string -> Option<Adapter>, engines: Engines,
                                         check: string -> Call<bool>)
    ensures Advance(p, u, adapters, engines, check).aborted <==>
              || p.aborted || Blocks(u, adapters, engines)
              || (Answers(u, adapters, engines)
                  && var urls := Reports(u, adapters, engines, p.discovered);
                     exists i :: RaisesAt(p.discovered, urls, check, MAX_DISCOVERED, i))
  {
    if Answers(u, adapters, engines) {
      RaisesExactly(p.discovered, Reports(u, adapters, engines, p.discovered), check, MAX_DISCOVERED);
    }
  }

  /** The run is cut short exactly when some bound engine cannot describe itself or some reported
      URL that collecting comes to cannot be checked; otherwise the engines listed as run are the
      bound ones, failures included, and those listed as failed are the ones without an adapter. */
  lemma {:induction false} HowItEnds(units: seq<Unit>, adapters: string -> Option<Adapter>, engines: Engines,
                                     check: string -> Call<bool>, p: Progress)
    requires p == RunUnits(units, adapters, engines, check)
    ensures p.aborted <==>
            (exists u :: u in units && Blocks(u, adapters, engines))
            || exists k, i :: Meets(units, adapters, engines, check, k, i)
    ensures !p.aborted ==> p.run == NamesOf(units, adapters, true) && p.failed == NamesOf(units, adapters, false)
    decreases |units|
  {
    if units != [] {
      var n := |units| - 1;
      var before := RunUnits(units[..n], adapters, engines, check);
      HowItEnds(units[..n], adapters, engines, check, before);
      AdvanceAborts(before, units[n], adapters, engines, check);
      assert forall u :: u in units <==> u in units[..n] || u == units[n];
      forall k: nat, i: nat | k < n ensures Meets(units, adapters, engines, check, k, i) <==>
        Meets(units[..n], adapters, engines, check, k, i) {
        assert units[..n][..k] == units[..k];
      }
      if Answers(units[n], adapters, engines) {
        var urls := Reports(units[n], adapters, engines, before.discovered);
        forall i: nat ensures Meets(units, adapters, engines, check, n, i) <==>
          RaisesAt(before.discovered, urls, check, MAX_DISCOVERED, i) {
        }
      }
      assert before.run + [] == before.run && before.failed + [] == before.failed;
    }
  }

  lemma {:induction false} NoneUnbound(units: seq<Unit>, adapters: string -> Option<Adapter>)
    requires forall u :: u in units ==> Bound(u, adapters)
    ensures NamesOf(units, adapters, false) == []
    decreases |units|
  {
    if units != [] {
      NoneUnbound(units[..|units| - 1], adapters);
      assert units[|units| - 1] in units;
    }
  }

  lemma {:induction false} UnitsMean(stages: seq<PlanStage>, u: Unit)
    ensures u in Units(stages) <==> exists st :: st in stages && u.stage == st.kind && u.task in st.tasks
    decreases |stages|
  {
    if stages != [] {
      var n := |stages| - 1;
      UnitsMean(stages[..n], u);
      if u in UnitsOf(stages[n]) {
        assert stages[n] in stages;
      } else if u in Units(stages) {
        var st :| st in stages[..n] && u.stage == st.kind && u.task in st.tasks;
        assert st in stages;
      }
      if st :| st in stages && u.stage == st.kind && u.task in st.tasks {
        if st !in stages[..n] {
          var i :| 0 <= i < |st.tasks| && st.tasks[i] == u.task;
          assert UnitsOf(stages[n])[i] == u;
        }
      }
    }
  }
}

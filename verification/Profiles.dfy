/** What a profile and the kind of a target lead to: which capabilities are planned, at which stage,
    and with which engines. */
module Profiles {
  import opened Wrappers
  import opened Grouping
  import opened Registry
  import opened Planner
  import opened PlannerLaws
  import Feedback
  import EngineLoop
  import O = Orchestrator

  // ----- profiles

  /** The mildest profile that enables a capability. */
  function Mildest(c: Capability): Profile {
    match c
    case FINGERPRINT_TECH => PASSIVE
    case CRAWL_HTTP => PASSIVE
    case ANALYSIS_TLS => PASSIVE
    case ANALYSIS_HEADERS => PASSIVE
    case ANALYSIS_SECRETS => PASSIVE
    case AUDIT_PASSIVE => PASSIVE
    case DISCOVERY_JS => STANDARD
    case DISCOVERY_CONTENT => STANDARD
    case AUDIT_TEMPLATES => STANDARD
    case AUDIT_ACTIVE => STANDARD
    case VALIDATION => STANDARD
    case _ => DEEP
  }

  function Reach(p: Profile): nat {
    match p
    case PASSIVE => 0
    case STANDARD => 1
    case DEEP => 2
  }

  /** A profile enables what it is the mildest for, and all that milder ones enable. */
  lemma {:induction false} ProfileExactly(p: Profile, c: Capability)
    ensures c in ProfileCapabilities(p) <==> Reach(Mildest(c)) <= Reach(p)
  {
    var caps := ProfileCapabilities(p);
    if p == DEEP {
      AllIsAll(c);
    } else if p == STANDARD {
      assert caps == [caps[0], caps[1], caps[2], caps[3], caps[4], caps[5], caps[6], caps[7], caps[8], caps[9],
          caps[10]];
    } else {
      assert caps == [caps[0], caps[1], caps[2], caps[3], caps[4], caps[5]];
    }
  }

  lemma {:induction false} AllIsAll(c: Capability)
    ensures c in ALL
  {
    var a := ALL;
    assert a[0] in a && a[1] in a && a[2] in a && a[3] in a && a[4] in a && a[5] in a && a[6] in a && a[7] in a;
    assert a[8] in a && a[9] in a && a[10] in a && a[11] in a && a[12] in a && a[13] in a && a[14] in a && a[15] in a;
    assert a[16] in a && a[17] in a && a[18] in a && a[19] in a && a[20] in a && a[21] in a;
  }

  // ----- kinds of target

  /** The kinds of target a capability is for, besides those it is for in any case. */
  function UsedBy(c: Capability): set<Kind> {
    match c
    case CRAWL_HTTP => {TRADITIONAL_WEB}
    case CRAWL_BROWSER => {SPA}
    case DISCOVERY_CONTENT => {TRADITIONAL_WEB}
    case DISCOVERY_JS => {SPA}
    case DISCOVERY_API_SPEC => {SPA, REST_API, GRAPHQL_API, SOAP_API}
    case AUDIT_ACTIVE => {TRADITIONAL_WEB, SPA}
    case AUDIT_TEMPLATES => {TRADITIONAL_WEB, SPA, REST_API}
    case AUDIT_API_REST => {REST_API, SOAP_API}
    case AUDIT_API_GRAPHQL => {GRAPHQL_API}
    case AUDIT_API_SOAP => {SOAP_API}
    case AUDIT_WEBSOCKET => {WEBSOCKET}
    case AUDIT_AUTHZ => {REST_API, GRAPHQL_API}
    case _ => {}
  }

  /** Fingerprinting, analysis of what is served, passive audit, validation and callbacks. */
  predicate ForAnyKind(c: Capability) {
    c.FINGERPRINT_TECH? || c.ANALYSIS_TLS? || c.ANALYSIS_HEADERS? || c.ANALYSIS_SECRETS? || c.AUDIT_PASSIVE?
    || c.VALIDATION? || c.OOB_CALLBACK?
  }

  lemma {:induction false} RelevantExactly(kind: Kind, c: Capability)
    ensures Relevant(kind, c) <==> kind == UNKNOWN_KIND || ForAnyKind(c) || kind in UsedBy(c)
  {
  }

  /** What is wanted: of an explicit list, or else of what the profile enables, all that is for any
      kind or for this one; for an unknown kind everything. */
  lemma {:induction false} WantedExactly(kind: Kind, policy: Policy, c: Capability)
    ensures c in Wanted(kind, policy) <==>
              && (if policy.capabilities != [] then c in policy.capabilities
                  else Reach(Mildest(c)) <= Reach(policy.profile))
              && (kind == UNKNOWN_KIND || ForAnyKind(c) || kind in UsedBy(c))
  {
    KeepMeans(Requested(policy), (x: Capability) => Relevant(kind, x));
    RelevantExactly(kind, c);
    ProfileExactly(policy.profile, c);
  }

  /** An explicit list is taken in its order, and whole for an unknown kind. */
  lemma {:induction false} ExplicitListStands(kind: Kind, policy: Policy)
    requires policy.capabilities != []
    ensures Wanted(kind, policy) ==
            Keep(policy.capabilities, (c: Capability) => kind == UNKNOWN_KIND || ForAnyKind(c) || kind in UsedBy(c))
    ensures kind == UNKNOWN_KIND ==> Wanted(kind, policy) == policy.capabilities
  {
    var p, q := (c: Capability) => Relevant(kind, c),
      (c: Capability) => kind == UNKNOWN_KIND || ForAnyKind(c) || kind in UsedBy(c);
    forall c ensures p(c) <==> q(c) {
      RelevantExactly(kind, c);
    }
    KeepSame(policy.capabilities, p, q);
    if kind == UNKNOWN_KIND {
      KeepEverything(policy.capabilities, p);
    }
  }

  lemma {:induction false} KeepEverything<T(!new)>(xs: seq<T>, p: T -> bool)
    requires forall x :: x in xs ==> p(x)
    ensures Keep(xs, p) == xs
  {
    if xs != [] {
      KeepEverything(xs[1..], p);
      assert xs == [xs[0]] + xs[1..];
    }
  }

  /** Without an explicit list, each profile wants all that the next milder one wants. */
  lemma {:induction false} ProfilesNest(kind: Kind, mild: Policy, strong: Policy, c: Capability)
    requires mild.capabilities == strong.capabilities == [] && Reach(mild.profile) <= Reach(strong.profile)
    ensures c in Wanted(kind, mild) ==> c in Wanted(kind, strong)
  {
    WantedExactly(kind, mild, c);
    WantedExactly(kind, strong, c);
  }

  // ----- stages

  /** Fingerprinting and reconnaissance come first, then crawling and discovery, then analysis and
      audit, and validation last. */
  lemma {:induction false} StageExactly(c: Capability)
    ensures StageOf(c) == FingerprintStage <==>
              c.FINGERPRINT_TECH? || c.DISCOVERY_SUBDOMAIN? || c.RECON_HTTP? || c.ANALYSIS_DNS?
    ensures StageOf(c) == DiscoveryStage <==>
              c.CRAWL_HTTP? || c.CRAWL_BROWSER? || c.DISCOVERY_CONTENT? || c.DISCOVERY_JS? || c.DISCOVERY_API_SPEC?
    ensures StageOf(c) == ValidationStage <==> c.VALIDATION?
    ensures StageOf(c) == AuditStage <==>
              c.ANALYSIS_TLS? || c.ANALYSIS_HEADERS? || c.ANALYSIS_SECRETS? || c.AUDIT_PASSIVE? || c.AUDIT_ACTIVE?
              || c.AUDIT_TEMPLATES? || c.AUDIT_API_REST? || c.AUDIT_API_GRAPHQL? || c.AUDIT_API_SOAP?
              || c.AUDIT_WEBSOCKET? || c.AUDIT_AUTHZ? || c.OOB_CALLBACK?
  {
  }

  function Turn(s: Stage): nat {
    match s
    case FingerprintStage => 0
    case DiscoveryStage => 1
    case AuditStage => 2
    case ValidationStage => 3
  }

  lemma {:induction false} StagesInTurn(order: seq<Stage>, choices: seq<Choice>, stageOf: Choice -> Stage,
                                        seeds: seq<string>, stages: seq<PlanStage>)
    requires stages == StagesOf(order, choices, stageOf, seeds)
    requires forall i, j :: 0 <= i < j < |order| ==> Turn(order[i]) < Turn(order[j])
    ensures forall i, j :: 0 <= i < j < |stages| ==> Turn(stages[i].kind) < Turn(stages[j].kind)
    ensures forall i :: 0 <= i < |stages| ==> stages[i].kind in order
    decreases |order|
  {
    if order != [] {
      var n := |order| - 1;
      StagesInTurn(order[..n], choices, stageOf, seeds, StagesOf(order[..n], choices, stageOf, seeds));
      assert forall s :: s in order[..n] ==> s in order && Turn(s) < Turn(order[n]);
    }
  }

  // ----- the plan

  /** A plan asks an engine for a capability at a stage, with the given seeds. */
  ghost predicate Plans(plan: Plan, s: Stage, e: string, c: Capability) {
    exists st, t :: st in plan.stages && t in st.tasks && st.kind == s && t.engine == e && c in t.capabilities
  }

  lemma {:induction false} TaskExists(choices: seq<Choice>, seeds: seq<string>, c: Choice) returns (t: Task)
    requires c in choices
    ensures t in Tasks(choices, seeds) && t.engine == c.engine && c.capability in t.capabilities
  {
    KeysMean(choices, EngineOf);
    var keys, tasks := Keys(choices, EngineOf), Tasks(choices, seeds);
    assert EngineOf(c) in keys;
    var i :| 0 <= i < |keys| && keys[i] == c.engine;
    t := tasks[i];
    assert t in tasks;
    TaskMeans(choices, seeds, t, c.capability);
  }

  /** Exactly what is planned: a capability with an engine, at the capability's stage, whenever it is
      wanted and the engine is chosen for it; always with the given seeds, and stage after stage. */
  lemma {:induction false} PlannedExactly(wanted: seq<Capability>, choose: Capability -> seq<string>,
                                          seeds: seq<string>, plan: Plan, s: Stage, e: string, c: Capability)
    requires plan == PlanOf(wanted, choose, StageKey, seeds)
    ensures Plans(plan, s, e, c) <==> c in wanted && e in choose(c) && StageOf(c) == s
    ensures forall st, t :: st in plan.stages && t in st.tasks ==> t.seeds == seeds
    ensures forall i, j :: 0 <= i < j < |plan.stages| ==> Turn(plan.stages[i].kind) < Turn(plan.stages[j].kind)
  {
    var choices := Choices(wanted, choose);
    StagesInTurn(STAGES, choices, StageKey, seeds, plan.stages);
    forall st, t | st in plan.stages && t in st.tasks
      ensures t.seeds == seeds && (c in t.capabilities <==> Choice(c, t.engine) in choices && StageOf(c) == st.kind)
    {
      TaskInStage(choices, seeds, plan.stages, st, t, c);
    }
    ChoicesMean(wanted, choose, Choice(c, e));
    if c in wanted && e in choose(c) && StageOf(c) == s {
      StageIsListed(s);
      ChoiceIsPlanned(STAGES, choices, seeds, plan.stages, Choice(c, e), s);
    }
  }

  lemma {:induction false} TaskInStage(choices: seq<Choice>, seeds: seq<string>, stages: seq<PlanStage>, st: PlanStage,
                                       t: Task, c: Capability)
    requires stages == StagesOf(STAGES, choices, StageKey, seeds) && st in stages && t in st.tasks
    ensures t.seeds == seeds && (c in t.capabilities <==> Choice(c, t.engine) in choices && StageOf(c) == st.kind)
  {
    StageIn(STAGES, choices, StageKey, seeds, st);
    TaskMeans(Select(choices, StageKey, st.kind), seeds, t, c);
    SelectMeans(choices, StageKey, st.kind);
  }

  lemma {:induction false} ChoiceIsPlanned(order: seq<Stage>, choices: seq<Choice>, seeds: seq<string>,
                                           stages: seq<PlanStage>, c: Choice, s: Stage)
    requires stages == StagesOf(order, choices, StageKey, seeds) && c in choices && s == StageKey(c) && s in order
    ensures exists st, t :: st in stages && t in st.tasks && st.kind == s && t.engine == c.engine
                            && c.capability in t.capabilities
  {
    var own := Select(choices, StageKey, s);
    SelectMeans(choices, StageKey, s);
    var t := TaskExists(own, seeds, c);
    var st := PlanStage(s, Tasks(own, seeds));
    StageIn(order, choices, StageKey, seeds, st);
    assert st in stages && t in st.tasks;
  }

  lemma {:induction false} StageIsListed(s: Stage)
    ensures s in STAGES
  {
    assert STAGES[0] in STAGES && STAGES[1] in STAGES && STAGES[2] in STAGES && STAGES[3] in STAGES;
  }

  // ----- the engines chosen

  /** The engine is registered, without a problem, approved, enabled, bound, not disabled by the
      policy, and offers the capability. */
  ghost predicate MayRun(cat: Catalog, disabled: set<string>, c: Capability, id: string) {
    && id in cat.engines && id !in disabled
    && var e := cat.engines[id];
       e.problems == [] && e.approval == APPROVED && e.manifest.enabled && e.adapter.Some?
       && c in e.manifest.capabilities
  }

  lemma {:induction false} CandidateExactly(cat: Catalog, disabled: set<string>, c: Capability, id: string)
    ensures Candidate(cat, disabled, c, id) <==> MayRun(cat, disabled, c, id)
  {
  }

  ghost predicate Native(cat: Catalog, id: string)
    requires id in cat.engines
  {
    cat.engines[id].manifest.integration.NATIVE?
  }

  /** `a` is preferred to `b`: native before foreign, and otherwise the one registered first. */
  ghost predicate Preferred(cat: Catalog, a: string, b: string)
    requires a in cat.engines && b in cat.engines
  {
    if Native(cat, a) != Native(cat, b) then Native(cat, a)
    else exists i, j :: 0 <= i < j < |cat.order| && cat.order[i] == a && cat.order[j] == b
  }

  lemma {:induction false} KeepFirst<T(!new)>(xs: seq<T>, p: T -> bool) returns (i: nat)
    requires Keep(xs, p) != []
    ensures i < |xs| && xs[i] == Keep(xs, p)[0] && p(xs[i]) && forall j :: 0 <= j < i ==> !p(xs[j])
  {
    i := 0;
    if !p(xs[0]) {
      i := KeepFirst(xs[1..], p);
      i := i + 1;
    }
  }

  lemma {:induction false} KeepBoth<T>(xs: seq<T>, p: T -> bool, q: T -> bool, both: T -> bool)
    requires forall x :: both(x) <==> p(x) && q(x)
    ensures Keep(Keep(xs, p), q) == Keep(xs, both)
  {
    if xs != [] {
      KeepBoth(xs[1..], p, q, both);
      var rest := Keep(xs[1..], p);
      assert ([xs[0]] + rest)[1..] == rest;
      assert [] + rest == rest;
    }
  }

  lemma {:induction false} KeepJoin<T>(a: seq<T>, b: seq<T>, p: T -> bool)
    ensures Keep(a + b, p) == Keep(a, p) + Keep(b, p)
  {
    if a == [] {
      assert a + b == b;
    } else {
      assert a + b == [a[0]] + (a[1..] + b) && a == [a[0]] + a[1..];
      KeepCons(a[0], a[1..] + b, p);
      KeepCons(a[0], a[1..], p);
      KeepJoin(a[1..], b, p);
    }
  }

  lemma {:induction false} ListedAt(cat: Catalog, ids: seq<string>)
    requires forall id :: id in ids ==> id in cat.engines
    ensures |Listed(cat, ids)| == |ids| && forall i :: 0 <= i < |ids| ==> Listed(cat, ids)[i] == cat.engines[ids[i]]
  {
    if ids != [] {
      ListedAt(cat, ids[1..]);
    }
  }

  function MayRunNative(disabled: set<string>, c: Capability, native: bool): Engine -> bool {
    (e: Engine) => Offers(e, c) && e.manifest.id !in disabled && IsNative(e) == native
  }

  lemma {:induction false} AvailableIs(cat: Catalog, disabled: set<string>, c: Capability, all: seq<Engine>)
    requires Valid(cat) && all == Listed(cat, cat.order)
    ensures Available(cat, disabled, c) ==
            Keep(all, MayRunNative(disabled, c, true)) + Keep(all, MayRunNative(disabled, c, false))
  {
    var offers := (e: Engine) => Offers(e, c);
    var native, foreign := IsNative, (e: Engine) => !IsNative(e);
    var free := (e: Engine) => e.manifest.id !in disabled;
    var matches := Keep(all, offers);
    var a, b := (e: Engine) => Offers(e, c) && IsNative(e), (e: Engine) => Offers(e, c) && !IsNative(e);
    KeepBoth(all, offers, native, a);
    KeepBoth(all, offers, foreign, b);
    KeepJoin(Keep(all, a), Keep(all, b), free);
    KeepBoth(all, a, free, MayRunNative(disabled, c, true));
    KeepBoth(all, b, free, MayRunNative(disabled, c, false));
  }

  /** In redundant mode every engine that may run is chosen; otherwise one is, if there is any. */
  lemma {:induction false} ChosenExactly(cat: Catalog, disabled: set<string>, redundant: bool, c: Capability,
                                         chosen: seq<string>, id: string)
    requires Valid(cat) && chosen == Chosen(cat, disabled, redundant, c)
    ensures redundant ==> (id in chosen <==> MayRun(cat, disabled, c, id))
    ensures !redundant ==> |chosen| <= 1
    ensures MayRun(cat, disabled, c, id) ==> chosen != []
    ensures id in chosen ==> MayRun(cat, disabled, c, id)
  {
    CandidateExactly(cat, disabled, c, id);
    if id in chosen {
      ChosenAreCandidates(cat, disabled, redundant, c, id);
    }
    if MayRun(cat, disabled, c, id) {
      var es := Available(cat, disabled, c);
      AvailableExactly(cat, disabled, c, cat.engines[id]);
      var i :| 0 <= i < |es| && es[i] == cat.engines[id];
      if redundant {
        assert chosen[i] == id;
      }
    }
  }

  /** The first of those with one property followed by those with another. */
  lemma {:induction false} FirstOfTwo<T(!new)>(all: seq<T>, a: T -> bool, b: T -> bool, es: seq<T>, k: nat)
    returns (i: nat)
    requires es == Keep(all, a) + Keep(all, b) && k < |all| && (a(all[k]) || b(all[k]))
    ensures es != [] && i < |all| && es[0] == all[i]
    ensures if a(all[k]) then a(all[i]) && i <= k else a(all[i]) || (b(all[i]) && i <= k)
  {
    KeepMeans(all, a);
    KeepMeans(all, b);
    assert all[k] in all;
    if Keep(all, a) != [] {
      i := KeepFirst(all, a);
    } else {
      i := KeepFirst(all, b);
    }
  }

  lemma {:induction false} PlaceInOrder(cat: Catalog, id: string) returns (k: nat)
    requires Valid(cat) && id in cat.engines
    ensures k < |cat.order| && cat.order[k] == id
    ensures |Listed(cat, cat.order)| == |cat.order| && Listed(cat, cat.order)[k] == cat.engines[id]
  {
    assert id in cat.order;
    k :| 0 <= k < |cat.order| && cat.order[k] == id;
    ListedAt(cat, cat.order);
  }

  lemma {:induction false} FirstAvailable(disabled: set<string>, c: Capability, all: seq<Engine>, es: seq<Engine>,
                                          k: nat) returns (i: nat)
    requires es == Keep(all, MayRunNative(disabled, c, true)) + Keep(all, MayRunNative(disabled, c, false))
    requires k < |all| && Offers(all[k], c) && all[k].manifest.id !in disabled
    ensures es != [] && i < |all| && es[0] == all[i] && (if IsNative(all[k]) then IsNative(all[i]) && i <= k
                                                         else IsNative(all[i]) || i <= k)
  {
    i := FirstOfTwo(all, MayRunNative(disabled, c, true), MayRunNative(disabled, c, false), es, k);
  }

  lemma {:induction false} ChosenAt(cat: Catalog, disabled: set<string>, c: Capability, es: seq<Engine>, id: string)
    returns (i: nat, k: nat)
    requires Valid(cat) && es == Available(cat, disabled, c) && Candidate(cat, disabled, c, id)
    ensures i < |cat.order| && k < |cat.order| && cat.order[k] == id && es != [] && es[0].manifest.id == cat.order[i]
    ensures if Native(cat, cat.order[k]) then Native(cat, cat.order[i]) && i <= k
            else Native(cat, cat.order[i]) || i <= k
  {
    var all := Listed(cat, cat.order);
    AvailableIs(cat, disabled, c, all);
    k := PlaceInOrder(cat, id);
    i := FirstAvailable(disabled, c, all, es, k);
    ListedAt(cat, cat.order);
    assert all[i] == cat.engines[cat.order[i]];
  }

  lemma {:induction false} PreferredAt(cat: Catalog, i: nat, k: nat, first: string, id: string)
    requires Valid(cat) && i < |cat.order| && k < |cat.order| && first == cat.order[i] && id == cat.order[k]
    requires if Native(cat, id) then Native(cat, first) && i <= k else Native(cat, first) || i <= k
    ensures id != first ==> Preferred(cat, first, id)
  {
  }

  /** So in either mode no engine that may run is preferred to the first that is chosen. */
  lemma {:induction false} PreferredIsChosen(cat: Catalog, disabled: set<string>, redundant: bool, c: Capability,
                                             chosen: seq<string>, id: string)
    requires Valid(cat) && chosen == Chosen(cat, disabled, redundant, c) && MayRun(cat, disabled, c, id)
    ensures chosen != [] && chosen[0] in cat.engines && (id != chosen[0] ==> Preferred(cat, chosen[0], id))
  {
    var i, k := ChosenAt(cat, disabled, c, Available(cat, disabled, c), id);
    PreferredAt(cat, i, k, chosen[0], id);
  }

  // ----- passive scans

  /** What sends crafted input, or goes beyond fetching, looking and analysing. */
  predicate GoesBeyond(c: Capability) {
    !(c.FINGERPRINT_TECH? || c.CRAWL_HTTP? || c.ANALYSIS_TLS? || c.ANALYSIS_HEADERS? || c.ANALYSIS_SECRETS?
      || c.AUDIT_PASSIVE?)
  }

  lemma {:induction false} AuditsGoBeyond(c: Capability)
    requires c.AUDIT_ACTIVE? || c.AUDIT_TEMPLATES? || c.AUDIT_API_REST? || c.AUDIT_API_GRAPHQL? || c.AUDIT_API_SOAP?
             || c.AUDIT_WEBSOCKET? || c.AUDIT_AUTHZ? || c.OOB_CALLBACK? || c.VALIDATION? || c.DISCOVERY_CONTENT?
    ensures GoesBeyond(c)
  {
  }

  lemma {:induction false} PassiveWants(policy: Policy, wanted: seq<Capability>, choose: Capability -> seq<string>,
                                        kind: Kind, seeds: seq<string>, plan: Plan, s: Stage, e: string, c: Capability)
    requires policy.profile == PASSIVE && policy.capabilities == [] && wanted == Wanted(kind, policy)
    requires plan == PlanOf(wanted, choose, StageKey, seeds) && Plans(plan, s, e, c)
    ensures !GoesBeyond(c)
  {
    PlannedExactly(wanted, choose, seeds, plan, s, e, c);
    WantedExactly(kind, policy, c);
  }

  /** Without an explicit list, a passive scan plans nothing that goes beyond. */
  lemma {:induction false} PassivePlan(cat: Catalog, job: O.Job, plan: Plan, s: Stage, e: string, c: Capability)
    requires Valid(cat) && job.policy.profile == PASSIVE && job.policy.capabilities == []
    requires plan == O.ThePlan(cat, job) && Plans(plan, s, e, c)
    ensures !GoesBeyond(c)
  {
    var choose := Chooser(cat, job.policy.disabledEngines, job.redundant);
    PassiveWants(job.policy, Wanted(job.kind, job.policy), choose, job.kind, job.seeds, plan, s, e, c);
  }

  /** And over its whole run no engine is ever asked for anything that does. */
  lemma {:induction false} PassiveRun(cat: Catalog, job: O.Job, world: O.World, sent: EngineLoop.Sent, c: Capability)
    requires Valid(cat) && job.policy.profile == PASSIVE && job.policy.capabilities == []
    requires sent in O.Engines(cat, job, world).requests && c in sent.request.capabilities
    ensures !GoesBeyond(c)
  {
    var units := O.PlannedUnits(cat, job);
    EngineLoop.RequestsAreSound(units, O.Adapters(cat), world.engines, world.check, O.Engines(cat, job, world));
    var u := AskedFor(units, O.Adapters(cat), world, sent);
    PlannedIn(O.ThePlan(cat, job), units, u);
    PassivePlan(cat, job, O.ThePlan(cat, job), u.stage, u.task.engine, c);
  }

  lemma {:induction false} AskedFor(units: seq<EngineLoop.Unit>, adapters: string -> Option<Adapter>, world: O.World,
                                    sent: EngineLoop.Sent) returns (u: EngineLoop.Unit)
    requires sent in EngineLoop.RunUnits(units, adapters, world.engines, world.check).requests
    ensures u in units && sent.request.capabilities == u.task.capabilities
  {
    var p := EngineLoop.RunUnits(units, adapters, world.engines, world.check);
    EngineLoop.RequestsAreSound(units, adapters, world.engines, world.check, p);
    u :| u in units && EngineLoop.Asks(sent, u, adapters, world.engines, Feedback.Allows(world.check));
  }

  lemma {:induction false} PlannedIn(plan: Plan, units: seq<EngineLoop.Unit>, u: EngineLoop.Unit)
    requires units == EngineLoop.Units(plan.stages) && u in units
    ensures forall c :: c in u.task.capabilities ==> Plans(plan, u.stage, u.task.engine, c)
  {
    EngineLoop.UnitsMean(plan.stages, u);
  }
}

/** Turning a target kind and a policy into a staged plan. */
module Planner {
  import opened Grouping
  import opened Registry

  datatype Profile = PASSIVE | STANDARD | DEEP

  datatype Kind = UNKNOWN_KIND | TRADITIONAL_WEB | SPA | REST_API | GRAPHQL_API | SOAP_API | WEBSOCKET

  datatype Stage = FingerprintStage | DiscoveryStage | AuditStage | ValidationStage

  /** An absent list of capabilities is the empty one, as the code treats the two alike. */
  datatype Policy = Policy(profile: Profile, capabilities: seq<Capability>, disabledEngines: set<string>)

  const ALL: seq<Capability> := [
    CRAWL_HTTP, CRAWL_BROWSER, DISCOVERY_CONTENT, DISCOVERY_JS, DISCOVERY_API_SPEC, DISCOVERY_SUBDOMAIN, RECON_HTTP,
    FINGERPRINT_TECH, ANALYSIS_TLS, ANALYSIS_DNS, ANALYSIS_HEADERS, ANALYSIS_SECRETS, AUDIT_PASSIVE, AUDIT_ACTIVE,
    AUDIT_TEMPLATES, AUDIT_API_REST, AUDIT_API_GRAPHQL, AUDIT_API_SOAP, AUDIT_WEBSOCKET, AUDIT_AUTHZ,
    OOB_CALLBACK, VALIDATION
  ]

  function ProfileCapabilities(p: Profile): seq<Capability> {
    match p
    case PASSIVE => [FINGERPRINT_TECH, CRAWL_HTTP, ANALYSIS_TLS, ANALYSIS_HEADERS, ANALYSIS_SECRETS, AUDIT_PASSIVE]
    case STANDARD => [
      FINGERPRINT_TECH, CRAWL_HTTP, DISCOVERY_JS, DISCOVERY_CONTENT, ANALYSIS_TLS, ANALYSIS_HEADERS, ANALYSIS_SECRETS,
      AUDIT_PASSIVE, AUDIT_TEMPLATES, AUDIT_ACTIVE, VALIDATION]
    case DEEP => ALL
  }

  function KindCapabilities(k: Kind): set<Capability> {
    match k
    case UNKNOWN_KIND => {}
    case TRADITIONAL_WEB => {CRAWL_HTTP, DISCOVERY_CONTENT, AUDIT_ACTIVE, AUDIT_TEMPLATES}
    case SPA => {CRAWL_BROWSER, DISCOVERY_JS, DISCOVERY_API_SPEC, AUDIT_ACTIVE, AUDIT_TEMPLATES}
    case REST_API => {DISCOVERY_API_SPEC, AUDIT_API_REST, AUDIT_AUTHZ, AUDIT_TEMPLATES}
    case GRAPHQL_API => {DISCOVERY_API_SPEC, AUDIT_API_GRAPHQL, AUDIT_AUTHZ}
    case SOAP_API => {DISCOVERY_API_SPEC, AUDIT_API_SOAP, AUDIT_API_REST}
    case WEBSOCKET => {AUDIT_WEBSOCKET}
  }

  const UNIVERSAL: set<Capability> :=
    {FINGERPRINT_TECH, ANALYSIS_TLS, ANALYSIS_HEADERS, ANALYSIS_SECRETS, AUDIT_PASSIVE, VALIDATION, OOB_CALLBACK}

  function StageOf(c: Capability): Stage {
    match c
    case FINGERPRINT_TECH => FingerprintStage
    case DISCOVERY_SUBDOMAIN => FingerprintStage
    case RECON_HTTP => FingerprintStage
    case ANALYSIS_DNS => FingerprintStage
    case CRAWL_HTTP => DiscoveryStage
    case CRAWL_BROWSER => DiscoveryStage
    case DISCOVERY_CONTENT => DiscoveryStage
    case DISCOVERY_JS => DiscoveryStage
    case DISCOVERY_API_SPEC => DiscoveryStage
    case VALIDATION => ValidationStage
    case _ => AuditStage
  }

  const STAGES: seq<Stage> := [FingerprintStage, DiscoveryStage, AuditStage, ValidationStage]

  predicate Relevant(kind: Kind, c: Capability) {
    kind == UNKNOWN_KIND || c in UNIVERSAL || c in KindCapabilities(kind)
  }

  function Requested(policy: Policy): seq<Capability> {
    if policy.capabilities != [] then policy.capabilities else ProfileCapabilities(policy.profile)
  }

  function Wanted(kind: Kind, policy: Policy): seq<Capability> {
    Keep(Requested(policy), (c: Capability) => Relevant(kind, c))
  }

  // ----- the plan as a group-by

  datatype Choice = Choice(capability: Capability, engine: string)

  datatype Task = Task(engine: string, capabilities: seq<Capability>, seeds: seq<string>)

  datatype PlanStage = PlanStage(kind: Stage, tasks: seq<Task>)

  datatype Plan = Plan(stages: seq<PlanStage>, skipped: seq<Capability>)

  function EngineOf(c: Choice): string { c.engine }
  function CapabilityOf(c: Choice): Capability { c.capability }
  function StageKey(c: Choice): Stage { StageOf(c.capability) }

  function Each(c: Capability, engines: seq<string>): (r: seq<Choice>)
    ensures |r| == |engines| && forall i :: 0 <= i < |r| ==> r[i] == Choice(c, engines[i])
  {
    seq(|engines|, i requires 0 <= i < |engines| => Choice(c, engines[i]))
  }

  /** Every capability wanted with every engine chosen for it, in order. */
  function Choices(wanted: seq<Capability>, choose: Capability -> seq<string>): seq<Choice>
    decreases |wanted|
  {
    if wanted == [] then []
    else Choices(wanted[..|wanted| - 1], choose) + Each(wanted[|wanted| - 1], choose(wanted[|wanted| - 1]))
  }

  function Skipped(wanted: seq<Capability>, choose: Capability -> seq<string>): seq<Capability> {
    Keep(wanted, (c: Capability) => choose(c) == [])
  }

  function TaskOf(engine: string, group: seq<Choice>, seeds: seq<string>): Task {
    Task(engine, Mapped(group, CapabilityOf), seeds)
  }

  /** One task per engine, in the order the engines are first chosen. */
  function Tasks(choices: seq<Choice>, seeds: seq<string>): (r: seq<Task>)
    ensures var keys := Keys(choices, EngineOf);
            |r| == |keys| && forall i :: 0 <= i < |r| ==>
              r[i] == TaskOf(keys[i], Select(choices, EngineOf, keys[i]), seeds)
  {
    var keys := Keys(choices, EngineOf);
    seq(|keys|, i requires 0 <= i < |keys| => TaskOf(keys[i], Select(choices, EngineOf, keys[i]), seeds))
  }

  /** A stage without tasks is left out. */
  function StageFor(s: Stage, choices: seq<Choice>, stageOf: Choice -> Stage, seeds: seq<string>): seq<PlanStage> {
    var tasks := Tasks(Select(choices, stageOf, s), seeds);
    if tasks == [] then [] else [PlanStage(s, tasks)]
  }

  function StagesOf(order: seq<Stage>, choices: seq<Choice>, stageOf: Choice -> Stage,
                    seeds: seq<string>): seq<PlanStage>
    decreases |order|
  {
    if order == [] then []
    else StagesOf(order[..|order| - 1], choices, stageOf, seeds) + StageFor(order[|order| - 1], choices, stageOf, seeds)
  }

  function PlanOf(wanted: seq<Capability>, choose: Capability -> seq<string>, stageOf: Choice -> Stage,
                  seeds: seq<string>): Plan {
    Plan(StagesOf(STAGES, Choices(wanted, choose), stageOf, seeds), Skipped(wanted, choose))
  }

  // ----- the scheduler

  lemma {:induction false} GroupGrows(choices: seq<Choice>, c: Choice, engine: string, seeds: seq<string>)
    ensures TaskOf(engine, Select(choices + [c], EngineOf, engine), seeds) ==
            var t := TaskOf(engine, Select(choices, EngineOf, engine), seeds);
            if engine == c.engine then t.(capabilities := t.capabilities + [c.capability]) else t
  {
    var g := Select(choices, EngineOf, engine);
    if engine == c.engine {
      MappedAppend(g, [c], CapabilityOf);
      assert Mapped([c], CapabilityOf) == [c.capability];
    } else {
      assert g + [] == g;
    }
  }

  lemma {:induction false} TasksOld(choices: seq<Choice>, c: Choice, seeds: seq<string>, i: nat, tasks: seq<Task>)
    requires tasks == Tasks(choices, seeds) && i < |tasks| && tasks[i].engine == c.engine
    ensures Tasks(choices + [c], seeds) == tasks[i := tasks[i].(capabilities := tasks[i].capabilities + [c.capability])]
  {
    var keys := Keys(choices, EngineOf);
    KeysAreDistinct(choices, EngineOf);
    assert keys[i] == c.engine;
    forall j | 0 <= j < |keys|
      ensures Tasks(choices + [c], seeds)[j] ==
              if j == i then tasks[j].(capabilities := tasks[j].capabilities + [c.capability]) else tasks[j]
    {
      GroupGrows(choices, c, keys[j], seeds);
    }
  }

  lemma {:induction false} TasksNew(choices: seq<Choice>, c: Choice, seeds: seq<string>, tasks: seq<Task>)
    requires tasks == Tasks(choices, seeds) && forall i :: 0 <= i < |tasks| ==> tasks[i].engine != c.engine
    ensures Tasks(choices + [c], seeds) == tasks + [Task(c.engine, [c.capability], seeds)]
  {
    var keys := Keys(choices, EngineOf);
    assert forall i :: 0 <= i < |keys| ==> keys[i] == tasks[i].engine;
    forall j | 0 <= j < |keys| ensures Tasks(choices + [c], seeds)[j] == tasks[j] {
      GroupGrows(choices, c, keys[j], seeds);
    }
    KeyHasMembers(choices, EngineOf, c.engine);
    assert TaskOf(c.engine, [], seeds) == Task(c.engine, [], seeds);
    GroupGrows(choices, c, c.engine, seeds);
    assert [] + [c.capability] == [c.capability];
  }

  /** Merge into the engine's task of this stage, or start one. */
  method Schedule(tasks: seq<Task>, c: Choice, seeds: seq<string>, ghost choices: seq<Choice>) returns (r: seq<Task>)
    requires tasks == Tasks(choices, seeds)
    ensures r == Tasks(choices + [c], seeds)
  {
    var i := 0;
    while i < |tasks| && tasks[i].engine != c.engine
      invariant 0 <= i <= |tasks| && forall j :: 0 <= j < i ==> tasks[j].engine != c.engine
    {
      i := i + 1;
    }
    if i < |tasks| {
      TasksOld(choices, c, seeds, i, tasks);
      r := tasks[i := tasks[i].(capabilities := tasks[i].capabilities + [c.capability])];
    } else {
      TasksNew(choices, c, seeds, tasks);
      r := tasks + [Task(c.engine, [c.capability], seeds)];
    }
  }

  ghost predicate Scheduled(stages: map<Stage, seq<Task>>, choices: seq<Choice>, stageOf: Choice -> Stage,
                            seeds: seq<string>) {
    forall s: Stage :: s in stages && stages[s] == Tasks(Select(choices, stageOf, s), seeds)
  }

  method Assign(stages: map<Stage, seq<Task>>, c: Choice, stageOf: Choice -> Stage, seeds: seq<string>,
                ghost choices: seq<Choice>)
    returns (r: map<Stage, seq<Task>>)
    requires Scheduled(stages, choices, stageOf, seeds)
    ensures Scheduled(r, choices + [c], stageOf, seeds)
  {
    var s := stageOf(c);
    var tasks := Schedule(stages[s], c, seeds, Select(choices, stageOf, s));
    r := stages[s := tasks];
    forall t: Stage ensures t in r && r[t] == Tasks(Select(choices + [c], stageOf, t), seeds) {
      assert Select(choices, stageOf, t) + [] == Select(choices, stageOf, t);
    }
  }

  method AssignAll(stages: map<Stage, seq<Task>>, c: Capability, engines: seq<string>, stageOf: Choice -> Stage,
                   seeds: seq<string>, ghost choices: seq<Choice>)
    returns (r: map<Stage, seq<Task>>)
    requires Scheduled(stages, choices, stageOf, seeds)
    ensures Scheduled(r, choices + Each(c, engines), stageOf, seeds)
  {
    r := stages;
    var i := 0;
    assert choices + Each(c, engines)[..0] == choices;
    while i < |engines|
      invariant 0 <= i <= |engines| && Scheduled(r, choices + Each(c, engines)[..i], stageOf, seeds)
    {
      r := Assign(r, Choice(c, engines[i]), stageOf, seeds, choices + Each(c, engines)[..i]);
      assert choices + Each(c, engines)[..i] + [Choice(c, engines[i])] == choices + Each(c, engines)[..i + 1];
      i := i + 1;
    }
    assert Each(c, engines)[..|engines|] == Each(c, engines);
  }

  lemma {:induction false} StagesStep(order: seq<Stage>, i: nat, choices: seq<Choice>, stageOf: Choice -> Stage,
                                      seeds: seq<string>)
    requires i < |order|
    ensures StagesOf(order[..i + 1], choices, stageOf, seeds) ==
            StagesOf(order[..i], choices, stageOf, seeds) + StageFor(order[i], choices, stageOf, seeds)
  {
    assert order[..i + 1][..i] == order[..i];
  }

  method NonEmptyStages(order: seq<Stage>, stages: map<Stage, seq<Task>>, stageOf: Choice -> Stage, seeds: seq<string>,
                        ghost choices: seq<Choice>)
    returns (r: seq<PlanStage>)
    requires Scheduled(stages, choices, stageOf, seeds)
    ensures r == StagesOf(order, choices, stageOf, seeds)
  {
    r := [];
    var i := 0;
    while i < |order|
      invariant 0 <= i <= |order| && r == StagesOf(order[..i], choices, stageOf, seeds)
    {
      StagesStep(order, i, choices, stageOf, seeds);
      if stages[order[i]] != [] {
        r := r + [PlanStage(order[i], stages[order[i]])];
      }
      i := i + 1;
    }
    assert order[..|order|] == order;
  }

  lemma {:induction false} WantedSnoc(wanted: seq<Capability>, i: nat, choose: Capability -> seq<string>)
    requires i < |wanted|
    ensures Choices(wanted[..i + 1], choose) == Choices(wanted[..i], choose) + Each(wanted[i], choose(wanted[i]))
    ensures Skipped(wanted[..i + 1], choose) ==
            Skipped(wanted[..i], choose) + if choose(wanted[i]) == [] then [wanted[i]] else []
  {
    assert wanted[..i + 1] == wanted[..i] + [wanted[i]];
    assert wanted[..i + 1][..i] == wanted[..i];
    KeepSnoc(wanted[..i], wanted[i], (c: Capability) => choose(c) == []);
  }

  function NoTasks(): map<Stage, seq<Task>> {
    map[FingerprintStage := [], DiscoveryStage := [], AuditStage := [], ValidationStage := []]
  }

  lemma {:induction false} NothingScheduled(choose: Capability -> seq<string>, stageOf: Choice -> Stage,
                                            seeds: seq<string>)
    ensures Scheduled(NoTasks(), Choices([], choose), stageOf, seeds) && Skipped([], choose) == []
  {
    var none := Choices([], choose);
    assert none == [];
    forall s: Stage ensures s in NoTasks() && NoTasks()[s] == [] == Tasks(Select(none, stageOf, s), seeds) {
      match s
      case FingerprintStage => case DiscoveryStage => case AuditStage => case ValidationStage =>
    }
  }

  method ScheduleOne(stages: map<Stage, seq<Task>>, skipped: seq<Capability>, wanted: seq<Capability>, i: nat,
                     choose: Capability -> seq<string>, stageOf: Choice -> Stage, seeds: seq<string>)
    returns (stages': map<Stage, seq<Task>>, skipped': seq<Capability>)
    requires i < |wanted| && Scheduled(stages, Choices(wanted[..i], choose), stageOf, seeds)
             && skipped == Skipped(wanted[..i], choose)
    ensures Scheduled(stages', Choices(wanted[..i + 1], choose), stageOf, seeds)
            && skipped' == Skipped(wanted[..i + 1], choose)
  {
    var c, engines := wanted[i], choose(wanted[i]);
    WantedSnoc(wanted, i, choose);
    if engines == [] {
      assert Choices(wanted[..i], choose) + Each(c, engines) == Choices(wanted[..i], choose);
      stages', skipped' := stages, skipped + [c];
    } else {
      stages' := AssignAll(stages, c, engines, stageOf, seeds, Choices(wanted[..i], choose));
      skipped' := skipped;
    }
  }

  method ScheduleAll(wanted: seq<Capability>, choose: Capability -> seq<string>, stageOf: Choice -> Stage,
                     seeds: seq<string>)
    returns (stages: map<Stage, seq<Task>>, skipped: seq<Capability>)
    ensures Scheduled(stages, Choices(wanted, choose), stageOf, seeds) && skipped == Skipped(wanted, choose)
  {
    stages, skipped := NoTasks(), [];
    NothingScheduled(choose, stageOf, seeds);
    var i := 0;
    assert wanted[..0] == [];
    while i < |wanted|
      invariant 0 <= i <= |wanted|
      invariant Scheduled(stages, Choices(wanted[..i], choose), stageOf, seeds)
                && skipped == Skipped(wanted[..i], choose)
    {
      stages, skipped := ScheduleOne(stages, skipped, wanted, i, choose, stageOf, seeds);
      i := i + 1;
    }
    assert wanted[..|wanted|] == wanted;
  }

  /** The planning loop yields exactly the group-by. */
  method MakePlan(wanted: seq<Capability>, choose: Capability -> seq<string>, stageOf: Choice -> Stage,
                  seeds: seq<string>) returns (plan: Plan)
    ensures plan == PlanOf(wanted, choose, stageOf, seeds)
  {
    var stages, skipped := ScheduleAll(wanted, choose, stageOf, seeds);
    var planned := NonEmptyStages(STAGES, stages, stageOf, seeds, Choices(wanted, choose));
    plan := Plan(planned, skipped);
  }
}

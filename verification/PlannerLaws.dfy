/** What a plan promises: nothing wanted is lost, no engine runs twice in a stage, order is
    kept, native engines come first, and whatever is planned can run. */
module PlannerLaws {
  import opened Grouping
  import opened Registry
  import opened Planner

  // ----- one task per engine, in first-use order

  function TaskEngine(t: Task): string {
    t.engine
  }

  lemma {:induction false} StageIn(order: seq<Stage>, choices: seq<Choice>, stageOf: Choice -> Stage,
                                   seeds: seq<string>, st: PlanStage)
    ensures st in StagesOf(order, choices, stageOf, seeds) <==>
              st.kind in order && st.tasks != [] && st.tasks == Tasks(Select(choices, stageOf, st.kind), seeds)
    decreases |order|
  {
    if order != [] {
      var n := |order| - 1;
      StageIn(order[..n], choices, stageOf, seeds, st);
      assert st.kind in order <==> st.kind in order[..n] || st.kind == order[n];
    }
  }

  /** In a stage every engine has one task; tasks follow the engines' first use among the
      stage's choices. */
  lemma {:induction false} OneTaskPerEngine(choices: seq<Choice>, seeds: seq<string>, tasks: seq<Task>)
    requires tasks == Tasks(choices, seeds)
    ensures NoRepeats(tasks, TaskEngine)
    ensures forall e :: (exists i :: 0 <= i < |tasks| && tasks[i].engine == e) <==> e in Mapped(choices, EngineOf)
    ensures forall i, j :: 0 <= i < j < |tasks| ==>
            FirstAt(choices, EngineOf, tasks[i].engine) < FirstAt(choices, EngineOf, tasks[j].engine)
  {
    var keys := Keys(choices, EngineOf);
    KeysAreDistinct(choices, EngineOf);
    KeysInOrder(choices, EngineOf, keys);
    forall i | 0 <= i < |tasks| ensures tasks[i].engine == keys[i] {
    }
    forall e ensures (exists i :: 0 <= i < |tasks| && tasks[i].engine == e) <==> e in Mapped(choices, EngineOf) {
      UsedExactly(choices, e);
      if e in keys {
        var i :| 0 <= i < |keys| && keys[i] == e;
        assert tasks[i].engine == e;
      }
    }
  }

  lemma {:induction false} UsedExactly(choices: seq<Choice>, e: string)
    ensures e in Keys(choices, EngineOf) <==> e in Mapped(choices, EngineOf)
  {
    KeysMean(choices, EngineOf);
    if e in Keys(choices, EngineOf) {
      var c :| c in choices && EngineOf(c) == e;
      var i :| 0 <= i < |choices| && choices[i] == c;
      assert Mapped(choices, EngineOf)[i] == e;
    }
    if e in Mapped(choices, EngineOf) {
      var i :| 0 <= i < |choices| && Mapped(choices, EngineOf)[i] == e;
      assert choices[i] in choices && EngineOf(choices[i]) == e;
    }
  }

  // ----- conservation

  function TaskCapabilities(tasks: seq<Task>): seq<Capability> {
    if tasks == [] then [] else tasks[0].capabilities + TaskCapabilities(tasks[1..])
  }

  function PlannedCapabilities(stages: seq<PlanStage>): seq<Capability>
    decreases |stages|
  {
    if stages == [] then []
    else PlannedCapabilities(stages[..|stages| - 1]) + TaskCapabilities(stages[|stages| - 1].tasks)
  }

  lemma {:induction false} TasksFrom(keys: seq<string>, choices: seq<Choice>, seeds: seq<string>, tasks: seq<Task>)
    requires |tasks| == |keys| && forall i :: 0 <= i < |keys| ==>
             tasks[i] == TaskOf(keys[i], Select(choices, EngineOf, keys[i]), seeds)
    ensures TaskCapabilities(tasks) == Mapped(Flattened(keys, choices, EngineOf), CapabilityOf)
  {
    if keys != [] {
      TasksFrom(keys[1..], choices, seeds, tasks[1..]);
      MappedAppend(Select(choices, EngineOf, keys[0]), Flattened(keys[1..], choices, EngineOf), CapabilityOf);
    }
  }

  lemma {:induction false} TasksConserve(choices: seq<Choice>, seeds: seq<string>)
    ensures multiset(TaskCapabilities(Tasks(choices, seeds))) == multiset(Mapped(choices, CapabilityOf))
  {
    var keys := Keys(choices, EngineOf);
    TasksFrom(keys, choices, seeds, Tasks(choices, seeds));
    Conserved(choices, EngineOf);
    MappedPermuted(Flattened(keys, choices, EngineOf), choices, CapabilityOf);
  }

  lemma {:induction false} PlannedSnoc(stages: seq<PlanStage>, choices: seq<Choice>, stageOf: Choice -> Stage,
                                       seeds: seq<string>, s: Stage)
    ensures multiset(PlannedCapabilities(stages + StageFor(s, choices, stageOf, seeds))) ==
            multiset(PlannedCapabilities(stages)) + multiset(Mapped(Select(choices, stageOf, s), CapabilityOf))
  {
    var own := Select(choices, stageOf, s);
    var tasks := Tasks(own, seeds);
    TasksConserve(own, seeds);
    if tasks == [] {
      assert stages + [] == stages;
    } else {
      assert (stages + [PlanStage(s, tasks)])[..|stages|] == stages;
    }
  }

  lemma {:induction false} FlattenedLast(order: seq<Stage>, choices: seq<Choice>, stageOf: Choice -> Stage)
    requires order != []
    ensures Flattened(order, choices, stageOf) ==
            Flattened(order[..|order| - 1], choices, stageOf) + Select(choices, stageOf, order[|order| - 1])
  {
    var n := |order| - 1;
    FlattenedMore(order[..n], order[n], choices, stageOf);
    assert order[..n] + [order[n]] == order;
  }

  lemma {:induction false} StagesConserve(order: seq<Stage>, choices: seq<Choice>, stageOf: Choice -> Stage,
                                          seeds: seq<string>)
    ensures multiset(PlannedCapabilities(StagesOf(order, choices, stageOf, seeds))) ==
            multiset(Mapped(Flattened(order, choices, stageOf), CapabilityOf))
    decreases |order|
  {
    if order != [] {
      var front, s := order[..|order| - 1], order[|order| - 1];
      StagesConserve(front, choices, stageOf, seeds);
      PlannedSnoc(StagesOf(front, choices, stageOf, seeds), choices, stageOf, seeds, s);
      FlattenedLast(order, choices, stageOf);
      MappedJoin(Flattened(front, choices, stageOf), Select(choices, stageOf, s), CapabilityOf);
    }
  }

  ghost predicate CoversStages(order: seq<Stage>) {
    (forall i, j :: 0 <= i < j < |order| ==> order[i] != order[j]) && forall s: Stage :: s in order
  }

  lemma {:induction false} StagesAreAll()
    ensures CoversStages(STAGES)
  {
    forall s: Stage ensures s in STAGES {
      match s
      case FingerprintStage => assert STAGES[0] == s;
      case DiscoveryStage => assert STAGES[1] == s;
      case AuditStage => assert STAGES[2] == s;
      case ValidationStage => assert STAGES[3] == s;
    }
  }

  lemma {:induction false} EachIsMany(c: Capability, engines: seq<string>, x: Capability)
    ensures multiset(Mapped(Each(c, engines), CapabilityOf))[x] == if x == c then |engines| else 0
    decreases |engines|
  {
    if engines == [] {
      assert Mapped(Each(c, engines), CapabilityOf) == [];
    } else {
      var n := |engines| - 1;
      EachIsMany(c, engines[..n], x);
      assert Mapped(Each(c, engines), CapabilityOf) == Mapped(Each(c, engines[..n]), CapabilityOf) + [c];
    }
  }

  lemma {:induction false} ChoicesAreMany(wanted: seq<Capability>, choose: Capability -> seq<string>, x: Capability)
    ensures multiset(Mapped(Choices(wanted, choose), CapabilityOf))[x] == multiset(wanted)[x] * |choose(x)|
    decreases |wanted|
  {
    if wanted != [] {
      var n := |wanted| - 1;
      ChoicesAreMany(wanted[..n], choose, x);
      ManySnoc(wanted[..n], wanted[n], choose, x);
      assert wanted == wanted[..n] + [wanted[n]];
    }
  }

  lemma {:induction false} ManySnoc(front: seq<Capability>, c: Capability, choose: Capability -> seq<string>,
                                    x: Capability)
    requires multiset(Mapped(Choices(front, choose), CapabilityOf))[x] == multiset(front)[x] * |choose(x)|
    ensures multiset(Mapped(Choices(front + [c], choose), CapabilityOf))[x] == multiset(front + [c])[x] * |choose(x)|
  {
    var n, k := multiset(front)[x], |choose(x)|;
    ChoicesSnoc(front, c, choose);
    EachIsMany(c, choose(c), x);
    CountSnoc(front, c, x);
    Distributes(n, k);
  }

  lemma {:induction false} ChoicesSnoc(front: seq<Capability>, c: Capability, choose: Capability -> seq<string>)
    ensures multiset(Mapped(Choices(front + [c], choose), CapabilityOf)) ==
            multiset(Mapped(Choices(front, choose), CapabilityOf)) + multiset(Mapped(Each(c, choose(c)), CapabilityOf))
  {
    assert (front + [c])[..|front|] == front;
    MappedJoin(Choices(front, choose), Each(c, choose(c)), CapabilityOf);
  }

  lemma {:induction false} Distributes(n: nat, k: nat)
    ensures (n + 1) * k == n * k + k
  {
  }

  lemma {:induction false} CountSnoc<T>(xs: seq<T>, x: T, y: T)
    ensures multiset(xs + [x])[y] == multiset(xs)[y] + if x == y then 1 else 0
  {
  }

  lemma {:induction false} SkippedAre(wanted: seq<Capability>, choose: Capability -> seq<string>, x: Capability)
    ensures multiset(Skipped(wanted, choose))[x] == if choose(x) == [] then multiset(wanted)[x] else 0
    decreases |wanted|
  {
    if wanted != [] {
      var n := |wanted| - 1;
      assert wanted == wanted[..n] + [wanted[n]] && wanted[..n + 1] == wanted;
      SkippedAre(wanted[..n], choose, x);
      WantedSnoc(wanted, n, choose);
    }
  }

  lemma {:induction false} PlannedAreChosen(wanted: seq<Capability>, choose: Capability -> seq<string>,
                                            stageOf: Choice -> Stage, seeds: seq<string>, plan: Plan)
    requires plan == PlanOf(wanted, choose, stageOf, seeds)
    ensures multiset(PlannedCapabilities(plan.stages)) == multiset(Mapped(Choices(wanted, choose), CapabilityOf))
  {
    var choices := Choices(wanted, choose);
    StagesConserve(STAGES, choices, stageOf, seeds);
    StagesAreAll();
    ConservedOver(STAGES, choices, stageOf);
    MappedPermuted(Flattened(STAGES, choices, stageOf), choices, CapabilityOf);
  }

  /** In every mode, a capability is planned once for each time it is wanted and each engine
      chosen for it, and skipped each time it is wanted when none is. */
  lemma {:induction false} NothingIsLost(wanted: seq<Capability>, choose: Capability -> seq<string>,
                                         stageOf: Choice -> Stage, seeds: seq<string>, plan: Plan, x: Capability)
    requires plan == PlanOf(wanted, choose, stageOf, seeds)
    ensures multiset(PlannedCapabilities(plan.stages)) == multiset(Mapped(Choices(wanted, choose), CapabilityOf))
    ensures multiset(PlannedCapabilities(plan.stages))[x] == multiset(wanted)[x] * |choose(x)|
    ensures multiset(plan.skipped)[x] == if choose(x) == [] then multiset(wanted)[x] else 0
  {
    PlannedAreChosen(wanted, choose, stageOf, seeds, plan);
    ChoicesAreMany(wanted, choose, x);
    SkippedAre(wanted, choose, x);
  }

  /** So with one engine per capability, planned and skipped together are what is wanted. */
  lemma {:induction false} PlannedOrSkipped(wanted: seq<Capability>, choose: Capability -> seq<string>,
                                            stageOf: Choice -> Stage, seeds: seq<string>, plan: Plan)
    requires plan == PlanOf(wanted, choose, stageOf, seeds)
    requires forall c :: c in wanted ==> |choose(c)| <= 1
    ensures multiset(PlannedCapabilities(plan.stages)) + multiset(plan.skipped) == multiset(wanted)
  {
    var planned, skipped, all := multiset(PlannedCapabilities(plan.stages)), multiset(plan.skipped), multiset(wanted);
    forall x ensures planned[x] + skipped[x] == all[x] {
      NothingIsLost(wanted, choose, stageOf, seeds, plan, x);
      assert all[x] != 0 ==> x in wanted;
      OnceOrNever(all[x], |choose(x)|);
    }
    assert planned + skipped == all;
  }

  lemma {:induction false} OnceOrNever(n: nat, k: nat)
    requires n != 0 ==> k <= 1
    ensures n * k + (if k == 0 then n else 0) == n
  {
  }

  // ----- capabilities keep the wanted order

  function Name(e: string): string { e }

  lemma {:induction false} SelectOne<T, K>(x: T, key: T -> K, k: K)
    ensures Select([x], key, k) == if key(x) == k then [x] else []
  {
    assert Select([], key, k) == [] && [] + [x] == [x];
  }

  lemma {:induction false} ChoiceSelected(c: Choice, stageOf: Choice -> Stage, s: Stage, e: string)
    ensures Mapped(Select(Select([c], stageOf, s), EngineOf, e), CapabilityOf) ==
            if c.engine == e && stageOf(c) == s then [c.capability] else []
  {
    var ofStage := Select([c], stageOf, s);
    SelectOne(c, stageOf, s);
    if stageOf(c) == s {
      SelectOne(c, EngineOf, e);
      assert ofStage == [c] && Mapped([c], CapabilityOf) == [c.capability];
    } else {
      assert ofStage == [] && Select([], EngineOf, e) == [];
    }
  }

  lemma {:induction false} SelectedAppend(a: seq<Choice>, b: seq<Choice>, stageOf: Choice -> Stage, s: Stage, e: string)
    ensures Mapped(Select(Select(a + b, stageOf, s), EngineOf, e), CapabilityOf) ==
            Mapped(Select(Select(a, stageOf, s), EngineOf, e), CapabilityOf)
              + Mapped(Select(Select(b, stageOf, s), EngineOf, e), CapabilityOf)
  {
    SelectAppend(a, b, stageOf, s);
    SelectAppend(Select(a, stageOf, s), Select(b, stageOf, s), EngineOf, e);
    MappedAppend(Select(Select(a, stageOf, s), EngineOf, e), Select(Select(b, stageOf, s), EngineOf, e), CapabilityOf);
  }

  lemma {:induction false} EachSelected(cap: Capability, engines: seq<string>, stageOf: Choice -> Stage, s: Stage,
                                        e: string)
    requires NoRepeats(engines, Name)
    ensures Mapped(Select(Select(Each(cap, engines), stageOf, s), EngineOf, e), CapabilityOf) ==
            if e in engines && stageOf(Choice(cap, e)) == s then [cap] else []
    decreases |engines|
  {
    if engines == [] {
      assert Each(cap, engines) == [];
    } else {
      var n := |engines| - 1;
      var front, c := engines[..n], Choice(cap, engines[n]);
      assert Each(cap, engines) == Each(cap, front) + [c];
      EachSelected(cap, front, stageOf, s, e);
      SelectedAppend(Each(cap, front), [c], stageOf, s, e);
      ChoiceSelected(c, stageOf, s, e);
      assert engines == front + [engines[n]];
      assert engines[n] !in front by {
        forall i | 0 <= i < n ensures engines[i] != engines[n] {
          assert Name(engines[i]) != Name(engines[n]);
        }
      }
    }
  }

  /** Is the capability of the stage, and the engine chosen for it? */
  function TakenBy(choose: Capability -> seq<string>, stageOf: Choice -> Stage, s: Stage,
                   e: string): Capability -> bool {
    (c: Capability) => e in choose(c) && stageOf(Choice(c, e)) == s
  }

  /** An engine's task in a stage has exactly the wanted capabilities of the stage for which it
      was chosen, in the wanted order: in redundant mode too. */
  lemma {:induction false} WantedOrder(wanted: seq<Capability>, choose: Capability -> seq<string>,
                                       stageOf: Choice -> Stage, s: Stage, e: string)
    requires forall c :: c in wanted ==> NoRepeats(choose(c), Name)
    ensures Mapped(Select(Select(Choices(wanted, choose), stageOf, s), EngineOf, e), CapabilityOf) ==
            Keep(wanted, TakenBy(choose, stageOf, s, e))
    decreases |wanted|
  {
    if wanted != [] {
      var n := |wanted| - 1;
      var front, c := wanted[..n], wanted[n];
      assert wanted == front + [c] && wanted[..n + 1] == wanted && c in wanted;
      WantedOrder(front, choose, stageOf, s, e);
      WantedSnoc(wanted, n, choose);
      SelectedAppend(Choices(front, choose), Each(c, choose(c)), stageOf, s, e);
      EachSelected(c, choose(c), stageOf, s, e);
      KeepSnoc(front, c, TakenBy(choose, stageOf, s, e));
    }
  }

  // ----- with the registry as catalog

  function Ids(es: seq<Engine>): seq<string> {
    Mapped(es, (e: Engine) => e.manifest.id)
  }

  function Available(cat: Catalog, disabled: set<string>, c: Capability): seq<Engine>
    requires forall id :: id in cat.order ==> id in cat.engines
  {
    Keep(EnginesFor(cat, c), (e: Engine) => e.manifest.id !in disabled)
  }

  /** All available engines in redundant mode, otherwise the first. */
  function Chosen(cat: Catalog, disabled: set<string>, redundant: bool, c: Capability): seq<string>
    requires forall id :: id in cat.order ==> id in cat.engines
  {
    var es := Available(cat, disabled, c);
    Ids(if redundant || es == [] then es else es[..1])
  }

  function Chooser(cat: Catalog, disabled: set<string>, redundant: bool): Capability -> seq<string>
    requires forall id :: id in cat.order ==> id in cat.engines
  {
    (c: Capability) => Chosen(cat, disabled, redundant, c)
  }

  /** May the engine be planned for the capability? */
  predicate Candidate(cat: Catalog, disabled: set<string>, c: Capability, id: string) {
    id in cat.engines && Offers(cat.engines[id], c) && id !in disabled
  }

  lemma {:induction false} AvailableExactly(cat: Catalog, disabled: set<string>, c: Capability, e: Engine)
    requires Valid(cat)
    ensures e in Available(cat, disabled, c) <==>
            Candidate(cat, disabled, c, e.manifest.id) && cat.engines[e.manifest.id] == e
  {
    KeepMeans(EnginesFor(cat, c), (x: Engine) => x.manifest.id !in disabled);
    EnginesForExactly(cat, c, e);
  }

  lemma {:induction false} ChosenAreCandidates(cat: Catalog, disabled: set<string>, redundant: bool, c: Capability,
                                               id: string)
    requires Valid(cat) && id in Chosen(cat, disabled, redundant, c)
    ensures Candidate(cat, disabled, c, id) && AdapterFor(cat, id).Some?
  {
    var es := Available(cat, disabled, c);
    var i :| 0 <= i < |Chosen(cat, disabled, redundant, c)| && Chosen(cat, disabled, redundant, c)[i] == id;
    assert es[i].manifest.id == id && es[i] in es;
    AvailableExactly(cat, disabled, c, es[i]);
  }

  lemma {:induction false} SomeChosen(cat: Catalog, disabled: set<string>, redundant: bool, c: Capability, id: string)
    requires Valid(cat) && Candidate(cat, disabled, c, id)
    ensures Chosen(cat, disabled, redundant, c) != []
  {
    AvailableExactly(cat, disabled, c, cat.engines[id]);
  }

  /** A capability is skipped exactly when it is wanted and no engine that may run offers it. */
  lemma {:induction false} SkippedExactly(cat: Catalog, disabled: set<string>, redundant: bool, wanted: seq<Capability>,
                                          c: Capability)
    requires Valid(cat)
    ensures c in Skipped(wanted, Chooser(cat, disabled, redundant)) <==>
            c in wanted && forall id :: !Candidate(cat, disabled, c, id)
  {
    var choose := Chooser(cat, disabled, redundant);
    KeepMeans(wanted, (x: Capability) => choose(x) == []);
    if choose(c) != [] {
      assert choose(c)[0] in choose(c);
      ChosenAreCandidates(cat, disabled, redundant, c, choose(c)[0]);
    }
    if id :| Candidate(cat, disabled, c, id) {
      SomeChosen(cat, disabled, redundant, c, id);
    }
  }

  lemma {:induction false} NativeLeads(es: seq<Engine>, p: Engine -> bool)
    requires forall i, j :: 0 <= i < j < |es| && IsNative(es[j]) ==> IsNative(es[i])
    ensures forall e :: e in Keep(es, p) && IsNative(e) ==> IsNative(Keep(es, p)[0])
  {
    if es != [] {
      NativeLeads(es[1..], p);
      KeepMeans(es[1..], p);
      forall e | e in Keep(es, p) && IsNative(e) ensures IsNative(Keep(es, p)[0]) {
        if p(es[0]) && e != es[0] {
          assert e in Keep(es[1..], p) && e in es[1..];
          var j :| 0 <= j < |es[1..]| && es[1..][j] == e;
          assert es[j + 1] == e;
        }
      }
    }
  }

  function EngineId(e: Engine): string {
    e.manifest.id
  }

  lemma {:induction false} ListedDiffer(cat: Catalog, ids: seq<string>)
    requires (forall id :: id in ids ==> id in cat.engines && cat.engines[id].manifest.id == id) && NoRepeats(ids, Name)
    ensures NoRepeats(Listed(cat, ids), EngineId)
    ensures forall e :: e in Listed(cat, ids) ==> e.manifest.id in ids
  {
    if ids != [] {
      var tail := ids[1..];
      assert forall i :: 0 <= i < |tail| ==> tail[i] == ids[i + 1];
      ListedDiffer(cat, tail);
      forall e | e in Listed(cat, tail) ensures EngineId(e) != EngineId(cat.engines[ids[0]]) {
        var i :| 0 <= i < |tail| && tail[i] == e.manifest.id;
        assert Name(ids[0]) != Name(ids[i + 1]);
      }
      NoRepeatsCons(cat.engines[ids[0]], Listed(cat, tail), EngineId);
    }
  }

  lemma {:induction false} EnginesForDiffer(cat: Catalog, c: Capability)
    requires Valid(cat)
    ensures NoRepeats(EnginesFor(cat, c), EngineId)
  {
    var all := Listed(cat, cat.order);
    var offers, other := (e: Engine) => Offers(e, c), (e: Engine) => !IsNative(e);
    var matches := Keep(all, offers);
    forall i, j | 0 <= i < j < |cat.order| ensures Name(cat.order[i]) != Name(cat.order[j]) {
    }
    ListedDiffer(cat, cat.order);
    KeepDiffers(all, offers, EngineId);
    KeepSplitDiffers(matches, IsNative, other, EngineId);
  }

  /** No engine is chosen twice for a capability, in either mode. */
  lemma {:induction false} ChosenDiffer(cat: Catalog, disabled: set<string>, redundant: bool, c: Capability)
    requires Valid(cat)
    ensures NoRepeats(Chosen(cat, disabled, redundant, c), Name)
  {
    var enabled := (e: Engine) => e.manifest.id !in disabled;
    EnginesForDiffer(cat, c);
    KeepDiffers(EnginesFor(cat, c), enabled, EngineId);
    var es, ids := Available(cat, disabled, c), Chosen(cat, disabled, redundant, c);
    forall i, j | 0 <= i < j < |ids| ensures Name(ids[i]) != Name(ids[j]) {
      assert EngineId(es[i]) != EngineId(es[j]);
    }
  }

  /** With the registry as catalog, every task's capabilities are in wanted order, in either mode. */
  lemma {:induction false} RegistryKeepsOrder(cat: Catalog, disabled: set<string>, redundant: bool,
                                              wanted: seq<Capability>, s: Stage, e: string,
                                              choose: Capability -> seq<string>)
    requires Valid(cat) && choose == Chooser(cat, disabled, redundant)
    ensures Mapped(Select(Select(Choices(wanted, choose), StageKey, s), EngineOf, e), CapabilityOf) ==
            Keep(wanted, TakenBy(choose, StageKey, s, e))
  {
    forall c ensures NoRepeats(choose(c), Name) {
      ChosenDiffer(cat, disabled, redundant, c);
    }
    WantedOrder(wanted, choose, StageKey, s, e);
  }

  /** The engine chosen for a capability is native whenever a native one may run. */
  lemma {:induction false} NativeIsChosen(cat: Catalog, disabled: set<string>, c: Capability, id: string)
    requires Valid(cat) && Candidate(cat, disabled, c, id) && IsNative(cat.engines[id])
    ensures var chosen := Chosen(cat, disabled, false, c);
            |chosen| == 1 && chosen[0] in cat.engines && IsNative(cat.engines[chosen[0]])
  {
    var es := Available(cat, disabled, c);
    AvailableExactly(cat, disabled, c, cat.engines[id]);
    NativesLead(cat, c);
    NativeLeads(EnginesFor(cat, c), (e: Engine) => e.manifest.id !in disabled);
    assert es[0] in es;
    AvailableExactly(cat, disabled, c, es[0]);
  }

  lemma {:induction false} NativesLead(cat: Catalog, c: Capability)
    requires Valid(cat)
    ensures var es := EnginesFor(cat, c); forall i, j :: 0 <= i < j < |es| && IsNative(es[j]) ==> IsNative(es[i])
  {
    var matches := Keep(Listed(cat, cat.order), (e: Engine) => Offers(e, c));
    var other := (e: Engine) => !IsNative(e);
    KeepMeans(matches, IsNative);
    KeepMeans(matches, other);
    var a, b := Keep(matches, IsNative), Keep(matches, other);
    assert forall i :: 0 <= i < |a| ==> a[i] in a;
    assert forall i :: 0 <= i < |b| ==> b[i] in b;
  }

  lemma {:induction false} ChoicesMean(wanted: seq<Capability>, choose: Capability -> seq<string>, c: Choice)
    ensures c in Choices(wanted, choose) <==> c.capability in wanted && c.engine in choose(c.capability)
    decreases |wanted|
  {
    if wanted != [] {
      var n := |wanted| - 1;
      ChoicesMean(wanted[..n], choose, c);
      assert c.capability in wanted <==> c.capability in wanted[..n] || c.capability == wanted[n];
    }
  }

  lemma {:induction false} TaskMeans(choices: seq<Choice>, seeds: seq<string>, t: Task, c: Capability)
    requires t in Tasks(choices, seeds)
    ensures c in t.capabilities <==> Choice(c, t.engine) in choices
    ensures t.seeds == seeds && t.capabilities != []
  {
    var keys := Keys(choices, EngineOf);
    var i :| 0 <= i < |keys| && Tasks(choices, seeds)[i] == t;
    var g := Select(choices, EngineOf, keys[i]);
    SelectMeans(choices, EngineOf, keys[i]);
    assert keys[i] in keys;
    KeyHasMembers(choices, EngineOf, keys[i]);
    assert t.engine == keys[i] && t.capabilities == Mapped(g, CapabilityOf);
    if c in t.capabilities {
      var j :| 0 <= j < |g| && t.capabilities[j] == c;
      assert g[j] in g && g[j] == Choice(c, t.engine);
    }
    if Choice(c, t.engine) in choices {
      assert Choice(c, t.engine) in g;
      var j :| 0 <= j < |g| && g[j] == Choice(c, t.engine);
      assert t.capabilities[j] == c;
    }
  }

  /** Whatever the registry has been through, every planned task can run: its engine has an
      adapter, is not disabled, and offers each of its capabilities, all of which are
      wanted and belong to the stage. */
  lemma {:induction false} PlannedCanRun(rules: Rules, ops: seq<Op>, cat: Catalog, disabled: set<string>,
                                         redundant: bool,
                                         wanted: seq<Capability>, seeds: seq<string>, plan: Plan, st: PlanStage,
                                         t: Task, c: Capability)
    requires cat == RunOps(rules, ops) && Valid(cat)
    requires plan == PlanOf(wanted, Chooser(cat, disabled, redundant), StageKey, seeds) && st in plan.stages
             && t in st.tasks
    ensures AdapterFor(cat, t.engine).Some? && t.engine !in disabled && t.capabilities != []
    ensures c in t.capabilities ==> Candidate(cat, disabled, c, t.engine) && c in wanted && StageOf(c) == st.kind
  {
    var choose := Chooser(cat, disabled, redundant);
    var choices := Choices(wanted, choose);
    var own := Select(choices, StageKey, st.kind);
    StageIn(STAGES, choices, StageKey, seeds, st);
    SelectMeans(choices, StageKey, st.kind);
    TaskMeans(own, seeds, t, c);
    var d := t.capabilities[0];
    TaskMeans(own, seeds, t, d);
    ChoicesMean(wanted, choose, Choice(d, t.engine));
    ChosenAreCandidates(cat, disabled, redundant, d, t.engine);
    if c in t.capabilities {
      ChoicesMean(wanted, choose, Choice(c, t.engine));
      ChosenAreCandidates(cat, disabled, redundant, c, t.engine);
    }
  }

  /** In non-redundant mode the registry's plan loses nothing. */
  lemma {:induction false} RegistryPlanConserves(cat: Catalog, disabled: set<string>, wanted: seq<Capability>,
                                                 seeds: seq<string>, plan: Plan)
    requires Valid(cat) && plan == PlanOf(wanted, Chooser(cat, disabled, false), StageKey, seeds)
    ensures multiset(PlannedCapabilities(plan.stages)) + multiset(plan.skipped) == multiset(wanted)
  {
    var choose := Chooser(cat, disabled, false);
    assert forall c :: c in wanted ==> |choose(c)| <= 1;
    PlannedOrSkipped(wanted, choose, StageKey, seeds, plan);
  }
}

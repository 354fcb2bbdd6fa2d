/** Which engines may run: registration against the license policy and the lock file, the
    operations on registered engines, and the catalog the planner and orchestrator see. */
module Registry {
  import opened Wrappers
  import opened Text
  import opened Grouping
  import LicensePolicy

  datatype Capability =
    | CRAWL_HTTP | CRAWL_BROWSER | DISCOVERY_CONTENT | DISCOVERY_JS | DISCOVERY_API_SPEC | DISCOVERY_SUBDOMAIN
    | RECON_HTTP | FINGERPRINT_TECH | ANALYSIS_TLS | ANALYSIS_DNS | ANALYSIS_HEADERS | ANALYSIS_SECRETS
    | AUDIT_PASSIVE | AUDIT_ACTIVE | AUDIT_TEMPLATES | AUDIT_API_REST | AUDIT_API_GRAPHQL | AUDIT_API_SOAP
    | AUDIT_WEBSOCKET | AUDIT_AUTHZ | OOB_CALLBACK | VALIDATION

  datatype Integration = NATIVE | LIBRARY | CONTAINER_CLI | CONTAINER_API | EXTERNAL_SERVICE

  datatype Approval = APPROVED | PENDING_REVIEW | REJECTED

  /** An absent image is the empty string, as the code treats the two alike. */
  datatype Manifest = Manifest(id: string, license: string, integration: Integration, capabilities: seq<Capability>,
      image: string, enabled: bool)

  datatype LockEntry = LockEntry(license: string, imageDigest: string)

  datatype Adapter = Adapter(handle: nat)

  datatype Engine = Engine(manifest: Manifest, approval: Approval, problems: seq<string>, adapter: Option<Adapter>)

  /** The license policy as registration uses it. */
  datatype Rules = Rules(classOf: string -> LicensePolicy.LicenseClass, armsLength: set<Integration>)

  function PolicyRules(policy: LicensePolicy.Policy, armsLength: set<Integration>): Rules {
    Rules((license: string) => LicensePolicy.Classify(policy, license).class_, armsLength)
  }

  function IntegrationText(i: Integration): string {
    match i
    case NATIVE => "native"
    case LIBRARY => "library"
    case CONTAINER_CLI => "container_cli"
    case CONTAINER_API => "container_api"
    case EXTERNAL_SERVICE => "external_service"
  }

  predicate Usable(e: Engine) {
    e.problems == [] && e.manifest.enabled && e.approval == APPROVED
  }

  // ----- registration

  function LicenseProblems(rules: Rules, m: Manifest): (seq<string>, Approval) {
    match rules.classOf(m.license)
    case UNKNOWN => (["license '" + m.license + "' is UNKNOWN to policy"], REJECTED)
    case RED =>
      if m.integration in rules.armsLength then
        (["RED license '" + m.license + "' allowed only as isolated engine after recorded legal approval"],
            PENDING_REVIEW)
      else
        (["RED license '" + m.license + "' cannot be embedded (" + IntegrationText(m.integration) + ")"], REJECTED)
    case YELLOW => (["YELLOW license '" + m.license + "' requires recorded review"], PENDING_REVIEW)
    case GREEN => ([], APPROVED)
  }

  function MismatchProblems(m: Manifest, lock: LockEntry): seq<string> {
    if lock.license != "" && lock.license != m.license
    then ["license mismatch: manifest=" + m.license + " lock=" + lock.license] else []
  }

  function ImageProblems(m: Manifest, lock: LockEntry): seq<string> {
    if m.integration != CONTAINER_CLI && m.integration != CONTAINER_API then []
    else if m.image == "" then ["containerized engine has no image"]
    else if lock.imageDigest != "" && !Contains(m.image, "@sha256:") then ["image is not pinned by digest"]
    else []
  }

  function NewEngine(rules: Rules, m: Manifest, lock: Option<LockEntry>): Engine {
    if m.integration == NATIVE || m.integration == EXTERNAL_SERVICE then Engine(m, APPROVED, [], None)
    else
      var entry := if lock.Some? then lock.value else LockEntry(m.license, "");
      var (license, approval) := LicenseProblems(rules, m);
      Engine(m, approval,
             (if lock.None? then ["not pinned in engine-lock.yaml"] else []) + license + MismatchProblems(m, entry)
               + ImageProblems(m, entry),
             None)
  }

  /** What a manifest and lock entry must satisfy to be registered without a problem. */
  predicate Clean(rules: Rules, m: Manifest, lock: Option<LockEntry>) {
    || m.integration == NATIVE
    || m.integration == EXTERNAL_SERVICE
    || (&& lock.Some?
        && rules.classOf(m.license) == LicensePolicy.GREEN
        && (lock.value.license == "" || lock.value.license == m.license)
        && (m.integration == CONTAINER_CLI || m.integration == CONTAINER_API ==>
              m.image != "" && (lock.value.imageDigest == "" || Contains(m.image, "@sha256:"))))
  }

  lemma {:induction false} LicenseIsGreen(rules: Rules, m: Manifest)
    ensures LicenseProblems(rules, m).0 == [] <==> rules.classOf(m.license) == LicensePolicy.GREEN
    ensures LicenseProblems(rules, m).1 == APPROVED <==> rules.classOf(m.license) == LicensePolicy.GREEN
  {
  }

  lemma {:induction false} ImageIsPinned(m: Manifest, lock: LockEntry)
    ensures ImageProblems(m, lock) == [] <==>
              (m.integration == CONTAINER_CLI || m.integration == CONTAINER_API ==>
                 m.image != "" && (lock.imageDigest == "" || Contains(m.image, "@sha256:")))
  {
  }

  /** First-party and customer-hosted engines always come in clean; any other engine exactly
      when it is pinned, GREEN, matches its lock and, if containerized, names a pinned image. */
  lemma {:induction false} CleanExactly(rules: Rules, m: Manifest, lock: Option<LockEntry>)
    ensures NewEngine(rules, m, lock).problems == [] <==> Clean(rules, m, lock)
    ensures Clean(rules, m, lock) ==> NewEngine(rules, m, lock).approval == APPROVED
  {
    LicenseIsGreen(rules, m);
    if lock.Some? {
      ImageIsPinned(m, lock.value);
    }
  }

  /** A new engine is usable exactly when it is clean and its manifest enables it. */
  lemma {:induction false} UsableOnArrival(rules: Rules, m: Manifest, lock: Option<LockEntry>, e: Engine)
    requires e == NewEngine(rules, m, lock)
    ensures Usable(e) <==> Clean(rules, m, lock) && m.enabled
  {
    CleanExactly(rules, m, lock);
  }

  // ----- the catalog: engines in the order their ids were first registered

  datatype Catalog = Catalog(order: seq<string>, engines: map<string, Engine>)

  ghost predicate Valid(cat: Catalog) {
    && (forall id :: id in cat.order <==> id in cat.engines)
    && (forall i, j :: 0 <= i < j < |cat.order| ==> cat.order[i] != cat.order[j])
    && (forall id :: id in cat.engines ==> cat.engines[id].manifest.id == id)
  }

  function Put(cat: Catalog, id: string, e: Engine): Catalog {
    Catalog(if id in cat.engines then cat.order else cat.order + [id], cat.engines[id := e])
  }

  /** Drop the problems that an approval settles. */
  function Unsettled(problems: seq<string>): seq<string> {
    Keep(problems, (p: string) => !Contains(p, "recorded") && !Contains(p, "legal"))
  }

  datatype Op = Register(m: Manifest, lock: Option<LockEntry>) | Bind(id: string, adapter: Adapter)
              | Enable(id: string, on: bool) | Approve(id: string, reference: string)

  /** The engine an operation leaves under the id it names. */
  function Changed(rules: Rules, e: Engine, op: Op): Engine {
    match op
    case Register(m, lock) => NewEngine(rules, m, lock)
    case Bind(_, adapter) => e.(adapter := Some(adapter))
    case Enable(_, on) => e.(manifest := e.manifest.(enabled := on))
    case Approve(_, reference) =>
      e.(approval := APPROVED, problems := Unsettled(e.problems) + ["approved: " + reference])
  }

  function Target(op: Op): string {
    if op.Register? then op.m.id else op.id
  }

  /** Operations on an id that is not registered raise, and leave the registry as it was. */
  function Apply(rules: Rules, cat: Catalog, op: Op): Catalog {
    if op.Register? then Put(cat, op.m.id, NewEngine(rules, op.m, op.lock))
    else if op.id in cat.engines then Put(cat, op.id, Changed(rules, cat.engines[op.id], op))
    else cat
  }

  function RunOps(rules: Rules, ops: seq<Op>): Catalog
    decreases |ops|
  {
    if ops == [] then Catalog([], map[]) else Apply(rules, RunOps(rules, ops[..|ops| - 1]), ops[|ops| - 1])
  }

  class EngineRegistry {
    const rules: Rules
    var order: seq<string>
    var engines: map<string, Engine>

    constructor (rules: Rules)
      ensures State() == Catalog([], map[]) && this.rules == rules
    {
      this.rules := rules;
      order, engines := [], map[];
    }

    function State(): Catalog
      reads this
    {
      Catalog(order, engines)
    }

    method RegisterManifest(m: Manifest, locks: map<string, LockEntry>)
      modifies this
      ensures State() == Apply(rules, old(State()), Register(m, if m.id in locks then Some(locks[m.id]) else None))
    {
      var lock := if m.id in locks then Some(locks[m.id]) else None;
      if m.id !in engines {
        order := order + [m.id];
      }
      engines := engines[m.id := NewEngine(rules, m, lock)];
    }

    method BindAdapter(id: string, adapter: Adapter) returns (known: bool)
      modifies this
      ensures State() == Apply(rules, old(State()), Bind(id, adapter)) && (known <==> id in old(engines))
    {
      known := id in engines;
      if known {
        engines := engines[id := engines[id].(adapter := Some(adapter))];
      }
    }

    method SetEnabled(id: string, on: bool) returns (known: bool)
      modifies this
      ensures State() == Apply(rules, old(State()), Enable(id, on)) && (known <==> id in old(engines))
    {
      known := id in engines;
      if known {
        var e := engines[id];
        engines := engines[id := e.(manifest := e.manifest.(enabled := on))];
      }
    }

    method RecordApproval(id: string, reference: string) returns (known: bool)
      modifies this
      ensures State() == Apply(rules, old(State()), Approve(id, reference)) && (known <==> id in old(engines))
    {
      known := id in engines;
      if known {
        var e := engines[id];
        engines := engines[id :=
            e.(approval := APPROVED, problems := Unsettled(e.problems) + ["approved: " + reference])];
      }
    }
  }

  lemma {:induction false} RunIsValid(rules: Rules, ops: seq<Op>)
    ensures Valid(RunOps(rules, ops))
    decreases |ops|
  {
    if ops != [] {
      RunIsValid(rules, ops[..|ops| - 1]);
    }
  }

  // ----- what makes an engine usable, over any sequence of operations

  /** No problem since the last registration of `id`. */
  predicate Sound(rules: Rules, ops: seq<Op>, id: string)
    decreases |ops|
  {
    ops != [] &&
    var op := ops[|ops| - 1];
    if Target(op) != id then Sound(rules, ops[..|ops| - 1], id)
    else if op.Register? then Clean(rules, op.m, op.lock)
    else !op.Approve? && Sound(rules, ops[..|ops| - 1], id)
  }

  /** The last setting of the enabled flag. */
  predicate SwitchedOn(ops: seq<Op>, id: string)
    decreases |ops|
  {
    ops != [] &&
    var op := ops[|ops| - 1];
    if Target(op) != id then SwitchedOn(ops[..|ops| - 1], id)
    else if op.Register? then op.m.enabled
    else if op.Enable? && Registered(ops[..|ops| - 1], id) then op.on
    else SwitchedOn(ops[..|ops| - 1], id)
  }

  predicate Registered(ops: seq<Op>, id: string) {
    exists r :: 0 <= r < |ops| && ops[r].Register? && ops[r].m.id == id
  }

  /** `r` is the last registration of `id`, it was clean, and no approval followed. */
  ghost predicate CleanBirth(rules: Rules, ops: seq<Op>, id: string, r: int) {
    && 0 <= r < |ops| && ops[r].Register? && ops[r].m.id == id && Clean(rules, ops[r].m, ops[r].lock)
    && forall j :: r < j < |ops| && Target(ops[j]) == id ==> !ops[j].Register? && !ops[j].Approve?
  }

  lemma {:induction false} RegisteredIsKnown(rules: Rules, ops: seq<Op>, id: string)
    ensures id in RunOps(rules, ops).engines <==> Registered(ops, id)
    decreases |ops|
  {
    if ops != [] {
      var n := |ops| - 1;
      RegisteredIsKnown(rules, ops[..n], id);
      if Registered(ops[..n], id) {
        var r :| 0 <= r < n && ops[..n][r].Register? && ops[..n][r].m.id == id;
        assert ops[r].Register?;
      }
    }
  }

  lemma {:induction false} SoundMeans(rules: Rules, ops: seq<Op>, id: string)
    ensures Sound(rules, ops, id) <==> exists r :: CleanBirth(rules, ops, id, r)
    decreases |ops|
  {
    if ops != [] {
      var n := |ops| - 1;
      var front, op := ops[..n], ops[n];
      SoundMeans(rules, front, id);
      if Target(op) != id || (!op.Register? && !op.Approve?) {
        if r :| CleanBirth(rules, front, id, r) {
          assert CleanBirth(rules, ops, id, r);
        }
        if r :| CleanBirth(rules, ops, id, r) {
          assert r < n;
          assert CleanBirth(rules, front, id, r);
        }
      } else if op.Register? && Clean(rules, op.m, op.lock) {
        assert CleanBirth(rules, ops, id, n);
      }
    }
  }

  lemma {:induction false} SoundnessRuns(rules: Rules, ops: seq<Op>, id: string, cat: Catalog)
    requires cat == RunOps(rules, ops)
    ensures id in cat.engines && cat.engines[id].problems == [] <==> Sound(rules, ops, id)
    ensures id in cat.engines && cat.engines[id].problems == [] ==> cat.engines[id].approval == APPROVED
    decreases |ops|
  {
    if ops != [] {
      var n := |ops| - 1;
      SoundnessRuns(rules, ops[..n], id, RunOps(rules, ops[..n]));
      if ops[n].Register? {
        CleanExactly(rules, ops[n].m, ops[n].lock);
      }
    }
  }

  lemma {:induction false} SwitchRuns(rules: Rules, ops: seq<Op>, id: string, cat: Catalog)
    requires cat == RunOps(rules, ops)
    ensures id in cat.engines && cat.engines[id].manifest.enabled <==> SwitchedOn(ops, id)
    decreases |ops|
  {
    if ops != [] {
      var n := |ops| - 1;
      SwitchRuns(rules, ops[..n], id, RunOps(rules, ops[..n]));
      RegisteredIsKnown(rules, ops[..n], id);
    }
  }

  /** After any sequence of operations, an engine is usable exactly when its last registration
      was clean, no approval was recorded since, and its flag was last switched on.  In
      particular recording an approval never makes an engine usable. */
  lemma {:induction false} UsableExactly(rules: Rules, ops: seq<Op>, id: string, cat: Catalog)
    requires cat == RunOps(rules, ops)
    ensures id in cat.engines && Usable(cat.engines[id]) <==>
              (exists r :: CleanBirth(rules, ops, id, r)) && SwitchedOn(ops, id)
  {
    SoundnessRuns(rules, ops, id, cat);
    SwitchRuns(rules, ops, id, cat);
    SoundMeans(rules, ops, id);
  }

  /** An engine that needs the license policy's review cannot be made usable at all. */
  lemma {:induction false} ReviewedNeverUsable(rules: Rules, ops: seq<Op>, id: string, cat: Catalog)
    requires cat == RunOps(rules, ops)
    requires forall r :: 0 <= r < |ops| && ops[r].Register? && ops[r].m.id == id ==>
               ops[r].m.integration !in {NATIVE, EXTERNAL_SERVICE}
                 && rules.classOf(ops[r].m.license) != LicensePolicy.GREEN
    ensures !(id in cat.engines && Usable(cat.engines[id]))
  {
    UsableExactly(rules, ops, id, cat);
  }

  // ----- the catalog as the planner and the orchestrator see it

  function Listed(cat: Catalog, ids: seq<string>): seq<Engine>
    requires forall id :: id in ids ==> id in cat.engines
  {
    if ids == [] then [] else [cat.engines[ids[0]]] + Listed(cat, ids[1..])
  }

  predicate Offers(e: Engine, c: Capability) {
    Usable(e) && e.adapter.Some? && c in e.manifest.capabilities
  }

  predicate IsNative(e: Engine) {
    e.manifest.integration == NATIVE
  }

  /** The engines offering a capability, in registration order except that native ones come first. */
  function EnginesFor(cat: Catalog, c: Capability): seq<Engine>
    requires forall id :: id in cat.order ==> id in cat.engines
  {
    var matches := Keep(Listed(cat, cat.order), (e: Engine) => Offers(e, c));
    Keep(matches, IsNative) + Keep(matches, (e: Engine) => !IsNative(e))
  }

  function AdapterFor(cat: Catalog, id: string): Option<Adapter> {
    if id in cat.engines && Usable(cat.engines[id]) then cat.engines[id].adapter else None
  }

  lemma {:induction false} ListedMeans(cat: Catalog, ids: seq<string>)
    requires forall id :: id in ids ==> id in cat.engines
    ensures forall e :: e in Listed(cat, ids) <==> exists id :: id in ids && cat.engines[id] == e
  {
    if ids != [] {
      ListedMeans(cat, ids[1..]);
      forall e ensures e in Listed(cat, ids) <==> exists id :: id in ids && cat.engines[id] == e {
        if id :| id in ids && cat.engines[id] == e {
          assert id == ids[0] || id in ids[1..];
        }
        if e == cat.engines[ids[0]] {
          assert ids[0] in ids;
        } else if e in Listed(cat, ids[1..]) {
          var id :| id in ids[1..] && cat.engines[id] == e;
          assert id in ids;
        }
      }
    }
  }

  /** An engine is offered for a capability exactly when the registry has it, usable and bound;
      the first is native whenever any is; and each can actually be run. */
  lemma {:induction false} EnginesForExactly(cat: Catalog, c: Capability, e: Engine)
    requires Valid(cat)
    ensures e in EnginesFor(cat, c) <==> e.manifest.id in cat.engines && cat.engines[e.manifest.id] == e && Offers(e, c)
    ensures e in EnginesFor(cat, c) ==> AdapterFor(cat, e.manifest.id).Some?
    ensures e in EnginesFor(cat, c) && IsNative(e) ==> IsNative(EnginesFor(cat, c)[0])
  {
    var all := Listed(cat, cat.order);
    var offers, other := (x: Engine) => Offers(x, c), (x: Engine) => !IsNative(x);
    var matches := Keep(all, offers);
    ListedMeans(cat, cat.order);
    KeepMeans(all, offers);
    KeepMeans(matches, IsNative);
    KeepMeans(matches, other);
    var r := Keep(matches, IsNative) + Keep(matches, other);
    assert r == EnginesFor(cat, c);
    assert e in r <==> e in matches;
    if e in r && IsNative(e) {
      assert e in Keep(matches, IsNative);
      assert r[0] in Keep(matches, IsNative);
    }
  }

  // ----- approval

  /** The approval an engine arrives with: pending for what the license policy wants reviewed, a RED
      license counting only for engines kept at arm's length; rejected for what it does not know
      and for other RED licenses; and approved otherwise. */
  lemma {:induction false} ApprovalOnArrival(rules: Rules, m: Manifest, lock: Option<LockEntry>, a: Approval)
    requires a == NewEngine(rules, m, lock).approval
    ensures a == APPROVED <==>
              m.integration.NATIVE? || m.integration.EXTERNAL_SERVICE? || rules.classOf(m.license).GREEN?
    ensures a == PENDING_REVIEW <==>
              && !m.integration.NATIVE? && !m.integration.EXTERNAL_SERVICE?
              && (rules.classOf(m.license).YELLOW?
                  || (rules.classOf(m.license).RED? && m.integration in rules.armsLength))
  {
  }

  /** Recording an approval approves the engine and drops every problem that speaks of a record or
      of legal approval; it leaves the others and a note of itself, and nothing else changes. */
  lemma {:induction false} ApprovalLeaves(rules: Rules, cat: Catalog, id: string, reference: string, after: Catalog,
                                          p: string)
    requires id in cat.engines && after == Apply(rules, cat, Approve(id, reference))
    ensures id in after.engines && after.engines[id].approval == APPROVED
    ensures p in after.engines[id].problems <==>
              || p == "approved: " + reference
              || (p in cat.engines[id].problems && !Contains(p, "recorded") && !Contains(p, "legal"))
    ensures after.engines[id].manifest == cat.engines[id].manifest
            && after.engines[id].adapter == cat.engines[id].adapter
    ensures after.order == cat.order
            && forall other :: other != id ==> (other in after.engines <==> other in cat.engines)
                                               && (other in cat.engines ==> after.engines[other] == cat.engines[other])
  {
    KeepMeans(cat.engines[id].problems, (q: string) => !Contains(q, "recorded") && !Contains(q, "legal"));
  }
}

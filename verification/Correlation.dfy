/** Grouping observations of the same weakness into one finding. */
module Correlation {
  import opened Wrappers
  import opened Findings
  import opened Grouping
  import Taxonomy

  datatype Finding = Finding(
    id: string, fingerprint: string, category: Taxonomy.Category, severity: Severity, confidence: Confidence,
    riskScore: real, cwe: set<int>, host: string, port: int, endpoint: string, verb: Option<string>,
    parameter: Option<string>, affectedUrls: set<string>, description: string, references: set<string>,
    engines: set<string>, detectors: set<string>, observationIds: seq<string>, evidence: seq<Evidence>,
    firstSeen: int, lastSeen: int)

  function CategoryOf(o: Observation): Taxonomy.Category {
    Taxonomy.Classify(o.cwe, o.vulnClass)
  }

  /** The hash of the fingerprint's text, as a function of the class and place it is made of. */
  type Hash = (Taxonomy.Category, Location) -> string

  /** A hash without collisions: it tells apart exactly what the text tells apart. */
  ghost predicate Faithful(h: Hash) {
    forall c, l, d, m :: h(c, l) == h(d, m) <==> Fingerprint(Taxonomy.Key(c), l) == Fingerprint(Taxonomy.Key(d), m)
  }

  /** Places of different classes have different hashes. */
  ghost predicate TellsClasses(h: Hash) {
    forall c, l, d, m :: h(c, l) == h(d, m) ==> c == d
  }

  function KeyOf(h: Hash): Observation -> string {
    (o: Observation) => h(CategoryOf(o), o.location)
  }

  // ----- what a group of observations adds up to

  /** Everything a finding takes from its whole group, whatever the order. */
  datatype Summary = Summary(
    severity: Severity, anyConfirmed: bool, allFalse: bool, engines: set<string>, detectors: set<string>,
    cwes: set<int>, references: set<string>, urls: set<string>, digests: set<string>, first: int, last: int)

  const RANK_OF: Observation -> int := (o: Observation) => SeverityRank(o.severity)
  const TIME_OF: Observation -> int := (o: Observation) => o.observedAt
  const BACK_TIME_OF: Observation -> int := (o: Observation) => -o.observedAt
  const CONFIRMED_OF: Observation -> int := (o: Observation) => if o.confidence == CONFIRMED then 1 else 0
  const REAL_OF: Observation -> int := (o: Observation) => if o.confidence == FALSE_POSITIVE then 0 else 1

  function EngineOf(o: Observation): set<string> { {o.engineId} }
  function DetectorOf(o: Observation): set<string> { {o.engineId + ":" + o.detectorId} }
  function CwesOf(o: Observation): set<int> { set c | c in o.cwe }
  function ReferencesOf(o: Observation): set<string> { set r | r in o.references }
  function UrlText(loc: Location): string {
    loc.scheme + "://" + loc.host + ":" + IntText(loc.port) + loc.path
  }
  function UrlOf(o: Observation): set<string> {
    {UrlText(o.location)}
  }
  function DigestsOf(o: Observation): set<string> { set e | e in o.evidence :: e.digest }

  function SeverityOfRank(rank: int): Severity {
    if rank <= 0 then INFO else if rank == 1 then LOW else if rank == 2 then MEDIUM else if rank == 3 then HIGH
    else CRITICAL
  }

  lemma {:induction false} SeverityOfItsRank(s: Severity)
    ensures SeverityOfRank(SeverityRank(s)) == s
  {
  }

  function Summarize(g: seq<Observation>): Summary
    requires |g| > 0
  {
    Summary(
      SeverityOfRank(MaxOf(g, RANK_OF)), MaxOf(g, CONFIRMED_OF) == 1, MaxOf(g, REAL_OF) == 0,
      Collect(g, EngineOf), Collect(g, DetectorOf), Collect(g, CwesOf), Collect(g, ReferencesOf), Collect(g, UrlOf),
      Collect(g, DigestsOf), -MaxOf(g, BACK_TIME_OF), MaxOf(g, TIME_OF))
  }

  function ConfidenceFrom(s: Summary): Confidence {
    if s.allFalse then FALSE_POSITIVE
    else if s.anyConfirmed then CONFIRMED
    else if |s.engines| >= 2 then FIRM
    else TENTATIVE
  }

  function Join(a: Summary, b: Summary): Summary {
    Summary(
      if SeverityRank(a.severity) <= SeverityRank(b.severity) then b.severity else a.severity,
      a.anyConfirmed || b.anyConfirmed,
      a.allFalse && b.allFalse,
      a.engines + b.engines, a.detectors + b.detectors, a.cwes + b.cwes, a.references + b.references, a.urls + b.urls,
      a.digests + b.digests,
      if a.first <= b.first then a.first else b.first,
      if a.last <= b.last then b.last else a.last)
  }

  /** What the summary says of the members. */
  lemma {:induction false} SummaryMeans(g: seq<Observation>)
    requires |g| > 0
    ensures forall o :: o in g ==> SeverityRank(o.severity) <= SeverityRank(Summarize(g).severity)
    ensures exists o :: o in g && o.severity == Summarize(g).severity
    ensures Summarize(g).anyConfirmed <==> exists o :: o in g && o.confidence == CONFIRMED
    ensures Summarize(g).allFalse <==> forall o :: o in g ==> o.confidence == FALSE_POSITIVE
  {
    MaxIsReached(g, RANK_OF);
    MaxIsReached(g, CONFIRMED_OF);
    MaxIsReached(g, REAL_OF);
    var o :| o in g && RANK_OF(o) == MaxOf(g, RANK_OF);
    SeverityOfItsRank(o.severity);
    var c :| c in g && CONFIRMED_OF(c) == MaxOf(g, CONFIRMED_OF);
    var r :| r in g && REAL_OF(r) == MaxOf(g, REAL_OF);
    assert forall x :: x in g ==> RANK_OF(x) == SeverityRank(x.severity);
    assert forall x :: x in g ==> (CONFIRMED_OF(x) == 1 <==> x.confidence == CONFIRMED);
    assert forall x :: x in g ==> (REAL_OF(x) == 0 <==> x.confidence == FALSE_POSITIVE);
  }

  /** The engines, detectors and CWEs of a summary are those of the members, no more and no less. */
  lemma {:induction false} SetsMean(g: seq<Observation>, s: Summary, x: string, c: int)
    requires |g| > 0 && s == Summarize(g)
    ensures x in s.engines <==> exists o :: o in g && o.engineId == x
    ensures x in s.detectors <==> exists o :: o in g && o.engineId + ":" + o.detectorId == x
    ensures c in s.cwes <==> exists o :: o in g && c in o.cwe
  {
    CollectMeans(g, EngineOf);
    CollectMeans(g, DetectorOf);
    CollectMeans(g, CwesOf);
    assert x in s.engines <==> exists o :: o in g && x in EngineOf(o);
    assert x in s.detectors <==> exists o :: o in g && x in DetectorOf(o);
    assert c in s.cwes <==> exists o :: o in g && c in CwesOf(o);
  }

  /** So are its references and affected URLs. */
  lemma {:induction false} PlacesMean(g: seq<Observation>, s: Summary, x: string)
    requires |g| > 0 && s == Summarize(g)
    ensures x in s.references <==> exists o :: o in g && x in o.references
    ensures x in s.urls <==> exists o :: o in g && UrlText(o.location) == x
  {
    CollectMeans(g, ReferencesOf);
    CollectMeans(g, UrlOf);
    assert x in s.references <==> exists o :: o in g && x in ReferencesOf(o);
    assert x in s.urls <==> exists o :: o in g && x in UrlOf(o);
  }

  /** First and last seen are the earliest and the latest time of a member. */
  lemma {:induction false} TimesMean(g: seq<Observation>, s: Summary)
    requires |g| > 0 && s == Summarize(g)
    ensures forall o :: o in g ==> s.first <= o.observedAt <= s.last
    ensures (exists o :: o in g && o.observedAt == s.first) && (exists o :: o in g && o.observedAt == s.last)
  {
    MaxIsReached(g, TIME_OF);
    MaxIsReached(g, BACK_TIME_OF);
    assert forall o :: TIME_OF(o) == o.observedAt && BACK_TIME_OF(o) == -o.observedAt;
  }

  lemma {:induction false} RanksAreRanks(g: seq<Observation>)
    requires |g| > 0
    ensures 0 <= MaxOf(g, RANK_OF) <= 4 && 0 <= MaxOf(g, CONFIRMED_OF) <= 1 && 0 <= MaxOf(g, REAL_OF) <= 1
    ensures SeverityRank(SeverityOfRank(MaxOf(g, RANK_OF))) == MaxOf(g, RANK_OF)
  {
    MaxIsReached(g, RANK_OF);
    MaxIsReached(g, CONFIRMED_OF);
    MaxIsReached(g, REAL_OF);
  }

  /** The summary of two groups put together is the join of their summaries. */
  lemma {:induction false} SummaryIsHomomorphic(a: seq<Observation>, b: seq<Observation>)
    requires |a| > 0 && |b| > 0
    ensures Summarize(a + b) == Join(Summarize(a), Summarize(b))
  {
    CollectJoin(a, b, EngineOf);
    CollectJoin(a, b, DetectorOf);
    CollectJoin(a, b, CwesOf);
    CollectJoin(a, b, ReferencesOf);
    CollectJoin(a, b, UrlOf);
    CollectJoin(a, b, DigestsOf);
    MaxOfJoin(a, b, RANK_OF);
    MaxOfJoin(a, b, CONFIRMED_OF);
    MaxOfJoin(a, b, REAL_OF);
    MaxOfJoin(a, b, BACK_TIME_OF);
    MaxOfJoin(a, b, TIME_OF);
    RanksAreRanks(a);
    RanksAreRanks(b);
  }

  /** It depends on what is in the group only. */
  lemma {:induction false} SummaryIgnoresOrder(a: seq<Observation>, b: seq<Observation>)
    requires |a| > 0 && |b| > 0 && forall o :: o in a <==> o in b
    ensures Summarize(a) == Summarize(b)
  {
    CollectIgnoresOrder(a, b, EngineOf);
    CollectIgnoresOrder(a, b, DetectorOf);
    CollectIgnoresOrder(a, b, CwesOf);
    CollectIgnoresOrder(a, b, ReferencesOf);
    CollectIgnoresOrder(a, b, UrlOf);
    CollectIgnoresOrder(a, b, DigestsOf);
    MaxIgnoresOrder(a, b, RANK_OF);
    MaxIgnoresOrder(a, b, CONFIRMED_OF);
    MaxIgnoresOrder(a, b, REAL_OF);
    MaxIgnoresOrder(a, b, BACK_TIME_OF);
    MaxIgnoresOrder(a, b, TIME_OF);
  }

  // ----- one finding from one group

  predicate Outranks(a: Observation, b: Observation) {
    || SeverityRank(a.severity) > SeverityRank(b.severity)
    || (SeverityRank(a.severity) == SeverityRank(b.severity)
         && ConfidenceRank(a.confidence) > ConfidenceRank(b.confidence))
  }

  /** The first observation that no other outranks. */
  function Primary(g: seq<Observation>): (p: Observation)
    requires |g| > 0
    ensures p in g
  {
    if |g| == 1 then g[0]
    else
      var p := Primary(g[1..]);
      if Outranks(p, g[0]) then p else g[0]
  }

  /** Nothing in the group outranks the primary, and the primary outranks what precedes it. */
  lemma {:induction false} PrimaryIsFirstOfTheBest(g: seq<Observation>)
    requires |g| > 0
    ensures forall o :: o in g ==> !Outranks(o, Primary(g))
    ensures exists i :: 0 <= i < |g| && g[i] == Primary(g) && forall j :: 0 <= j < i ==> Outranks(Primary(g), g[j])
  {
    var p := Primary(g);
    if |g| == 1 || !Outranks(Primary(g[1..]), g[0]) {
      assert g[0] == p;
    }
    if |g| > 1 {
      var q, tail := Primary(g[1..]), g[1..];
      PrimaryIsFirstOfTheBest(tail);
      assert forall o :: o in g <==> o == g[0] || o in tail;
      if Outranks(q, g[0]) {
        var i :| 0 <= i < |tail| && tail[i] == q && forall j :: 0 <= j < i ==> Outranks(q, tail[j]);
        assert g[i + 1] == q && forall j :: 0 <= j < i + 1 ==> g[j] == if j == 0 then g[0] else tail[j - 1];
      }
    }
  }

  function EvidenceOf(g: seq<Observation>): seq<Evidence> {
    if g == [] then [] else g[0].evidence + EvidenceOf(g[1..])
  }

  function DigestOf(e: Evidence): string {
    e.digest
  }

  function ObservationId(o: Observation): string {
    o.id
  }

  function IdsOf(g: seq<Observation>): seq<string> {
    Mapped(g, ObservationId)
  }

  /** The first evidence of each content digest. */
  function KeptEvidence(g: seq<Observation>): seq<Evidence> {
    Distinct(EvidenceOf(g), DigestOf, {})
  }

  function Assembled(id: string, key: string, g: seq<Observation>, evidence: seq<Evidence>): Finding
    requires |g| > 0
  {
    var p, s := Primary(g), Summarize(g);
    Finding(
      id, key, CategoryOf(p), s.severity, ConfidenceFrom(s), 0.0, s.cwes + Taxonomy.Cwes(CategoryOf(p)),
      p.location.host, p.location.port, NormalizeEndpoint(p.location.path), p.location.verb, p.location.parameter,
      s.urls, p.description, s.references, s.engines, s.detectors, IdsOf(g), evidence, s.first, s.last)
  }

  function Merge(id: string, key: string, g: seq<Observation>): Finding
    requires |g| > 0
  {
    Assembled(id, key, g, KeptEvidence(g))
  }

  lemma {:induction false} EvidenceMembers(g: seq<Observation>, e: Evidence)
    ensures e in EvidenceOf(g) <==> exists o :: o in g && e in o.evidence
  {
    if g != [] {
      EvidenceMembers(g[1..], e);
      if o :| o in g && e in o.evidence {
        assert o == g[0] || o in g[1..];
      }
      if e in g[0].evidence {
        assert g[0] in g;
      } else if e in EvidenceOf(g[1..]) {
        var o :| o in g[1..] && e in o.evidence;
        assert o in g;
      }
    }
  }

  lemma {:induction false} EvidenceIsCovered(g: seq<Observation>, o: Observation, e: Evidence)
    requires o in g && e in o.evidence
    ensures exists k :: k in KeptEvidence(g) && k.digest == e.digest
  {
    EvidenceMembers(g, e);
    DistinctCovers(EvidenceOf(g), DigestOf, {}, e);
    var k :| k in Distinct(EvidenceOf(g), DigestOf, {}) && DigestOf(k) == DigestOf(e);
    assert k in KeptEvidence(g) && k.digest == e.digest;
  }

  lemma {:induction false} EvidenceIsOwned(g: seq<Observation>, e: Evidence)
    requires e in KeptEvidence(g)
    ensures exists o :: o in g && e in o.evidence
  {
    DistinctKeeps(EvidenceOf(g), DigestOf, {});
    EvidenceMembers(g, e);
  }

  /** A finding's evidence comes from its members, each content digest once, none missing. */
  lemma {:induction false} EvidenceIsDeduplicated(g: seq<Observation>, kept: seq<Evidence>)
    requires kept == Distinct(EvidenceOf(g), DigestOf, {})
    ensures forall e :: e in kept ==> exists o :: o in g && e in o.evidence
    ensures forall o, e :: o in g && e in o.evidence ==> exists k :: k in kept && k.digest == e.digest
    ensures forall i, j :: 0 <= i < j < |kept| ==> kept[i].digest != kept[j].digest
  {
    forall e | e in kept ensures exists o :: o in g && e in o.evidence {
      EvidenceIsOwned(g, e);
    }
    forall o, e | o in g && e in o.evidence ensures exists k :: k in kept && k.digest == e.digest {
      EvidenceIsCovered(g, o, e);
    }
    DistinctIsDistinct(EvidenceOf(g), DigestOf, {});
    assert NoRepeats(kept, DigestOf);
    forall i, j | 0 <= i < j < |kept| ensures kept[i].digest != kept[j].digest {
      assert DigestOf(kept[i]) != DigestOf(kept[j]);
    }
  }

  /** And of each digest it is the first. */
  lemma {:induction false} FirstEvidenceIsKept(g: seq<Observation>, e: Evidence) returns (i: nat)
    requires e in KeptEvidence(g)
    ensures i < |EvidenceOf(g)| && EvidenceOf(g)[i] == e
    ensures forall j :: 0 <= j < i ==> EvidenceOf(g)[j].digest != e.digest
  {
    i := DistinctIsFirst(EvidenceOf(g), DigestOf, {}, e);
    forall j | 0 <= j < i ensures EvidenceOf(g)[j].digest != e.digest {
      assert DigestOf(EvidenceOf(g)[j]) != DigestOf(e);
    }
  }

  // ----- who leads

  /** What has severity `s` and confidence `c` comes no later than what has `t` and `d`: CRITICAL
      before HIGH, MEDIUM, LOW and INFO, and at one severity CONFIRMED before FIRM, TENTATIVE and
      FALSE_POSITIVE. */
  ghost predicate Leads(s: Severity, c: Confidence, t: Severity, d: Confidence) {
    && (t.CRITICAL? ==> s.CRITICAL?) && (t.HIGH? ==> s.CRITICAL? || s.HIGH?)
    && (t.MEDIUM? ==> !s.LOW? && !s.INFO?) && (t.LOW? ==> !s.INFO?)
    && (s == t ==> && (d.CONFIRMED? ==> c.CONFIRMED?) && (d.FIRM? ==> c.CONFIRMED? || c.FIRM?)
                   && (d.TENTATIVE? ==> !c.FALSE_POSITIVE?))
  }

  /** The primary leads its whole group, and none before it does so. */
  lemma {:induction false} PrimaryLeads(g: seq<Observation>) returns (i: nat)
    requires |g| > 0
    ensures i < |g| && g[i] == Primary(g)
    ensures forall o :: o in g ==> Leads(g[i].severity, g[i].confidence, o.severity, o.confidence)
    ensures forall j :: 0 <= j < i ==> !Leads(g[j].severity, g[j].confidence, g[i].severity, g[i].confidence)
  {
    PrimaryIsFirstOfTheBest(g);
    i :| 0 <= i < |g| && g[i] == Primary(g) && forall j :: 0 <= j < i ==> Outranks(Primary(g), g[j]);
    forall o | o in g ensures Leads(g[i].severity, g[i].confidence, o.severity, o.confidence) {
      OutranksExactly(o, g[i]);
    }
    forall j | 0 <= j < i ensures !Leads(g[j].severity, g[j].confidence, g[i].severity, g[i].confidence) {
      OutranksExactly(g[i], g[j]);
    }
  }

  lemma {:induction false} OutranksExactly(a: Observation, b: Observation)
    ensures Outranks(a, b) <==> !Leads(b.severity, b.confidence, a.severity, a.confidence)
  {
  }

  lemma {:induction false} NotBelowExactly(a: Finding, b: Finding)
    ensures NotBelow(a, b) <==> Leads(a.severity, a.confidence, b.severity, b.confidence)
  {
  }

  // ----- all findings

  type Builder = (string, seq<Observation>, seq<Evidence>) --> Finding

  ghost predicate Builds(build: Builder) {
    forall k, g: seq<Observation>, es :: |g| > 0 ==> build.requires(k, g, es)
  }

  /** From the evidence kept of a group to the group alone. */
  function Making(build: Builder): (string, seq<Observation>) --> Finding
    requires Builds(build)
  {
    (key: string, g: seq<Observation>) requires |g| > 0 => build(key, g, KeptEvidence(g))
  }

  function Assembler(newId: string -> string): Builder {
    (key: string, g: seq<Observation>, evidence: seq<Evidence>)
      requires |g| > 0 => Assembled(newId(key), key, g, evidence)
  }

  function Merger(newId: string -> string): (string, seq<Observation>) --> Finding {
    Making(Assembler(newId))
  }

  predicate NotBelow(a: Finding, b: Finding) {
    || SeverityRank(a.severity) > SeverityRank(b.severity)
    || (SeverityRank(a.severity) == SeverityRank(b.severity)
         && ConfidenceRank(a.confidence) >= ConfidenceRank(b.confidence))
  }

  function Insert(f: Finding, fs: seq<Finding>): seq<Finding> {
    if fs == [] || NotBelow(f, fs[0]) then [f] + fs else [fs[0]] + Insert(f, fs[1..])
  }

  /** Stable, most severe and then most certain first. */
  function Sorted(fs: seq<Finding>): seq<Finding> {
    if fs == [] then [] else Insert(fs[0], Sorted(fs[1..]))
  }

  /** Findings by any key, before sorting; Correlated uses the fingerprint. */
  function FindingsBy(obs: seq<Observation>, key: Observation -> string,
                      make: (string, seq<Observation>) --> Finding): seq<Finding>
    requires forall k, g: seq<Observation> :: |g| > 0 ==> make.requires(k, g)
  {
    PartsAreNotEmpty(obs, key);
    MadeFrom(Keys(obs, key), Parts(obs, key, Keys(obs, key)), make)
  }

  function Unsorted(h: Hash, obs: seq<Observation>, newId: string -> string): seq<Finding> {
    FindingsBy(obs, KeyOf(h), Merger(newId))
  }

  function Correlated(h: Hash, obs: seq<Observation>, newId: string -> string): seq<Finding> {
    Sorted(Unsorted(h, obs, newId))
  }

  /** The loops that keep the first evidence of each content digest. */
  method Deduplicate(g: seq<Observation>) returns (kept: seq<Evidence>)
    ensures kept == KeptEvidence(g)
  {
    var seen := {};
    kept := [];
    var i := 0;
    assert g[0..] == g;
    while i < |g|
      invariant 0 <= i <= |g|
      invariant kept + Distinct(EvidenceOf(g[i..]), DigestOf, seen) == KeptEvidence(g)
    {
      var es := g[i].evidence;
      ghost var rest := EvidenceOf(g[i + 1..]);
      assert g[i..][0] == g[i] && g[i..][1..] == g[i + 1..];
      assert es[0..] == es;
      var j := 0;
      while j < |es|
        invariant 0 <= j <= |es|
        invariant kept + Distinct(es[j..] + rest, DigestOf, seen) == KeptEvidence(g)
      {
        DistinctStep(es, j, rest, seen, kept);
        if es[j].digest !in seen {
          seen := seen + {es[j].digest};
          kept := kept + [es[j]];
        }
        j := j + 1;
      }
      assert es[|es|..] + rest == rest;
      i := i + 1;
    }
  }

  lemma {:induction false} DistinctStep(es: seq<Evidence>, j: nat, rest: seq<Evidence>, seen: set<string>,
                                        kept: seq<Evidence>)
    requires j < |es|
    ensures kept + Distinct(es[j..] + rest, DigestOf, seen) ==
            if es[j].digest in seen then kept + Distinct(es[j + 1..] + rest, DigestOf, seen)
            else (kept + [es[j]]) + Distinct(es[j + 1..] + rest, DigestOf, seen + {es[j].digest})
  {
    var all := es[j..] + rest;
    assert all[0] == es[j] && all[1..] == es[j + 1..] + rest;
  }

  method CorrelateBy(obs: seq<Observation>, key: Observation -> string, build: Builder) returns (findings: seq<Finding>)
    requires Builds(build)
    ensures findings == Sorted(FindingsBy(obs, key, Making(build)))
  {
    var keys, parts := GroupsInOrder(obs, key);
    findings := [];
    var i := 0;
    while i < |keys|
      invariant 0 <= i <= |keys|
      invariant |findings| == i && forall j :: 0 <= j < i ==> findings[j] == Making(build)(keys[j], parts[j])
    {
      var evidence := Deduplicate(parts[i]);
      findings := findings + [build(keys[i], parts[i], evidence)];
      i := i + 1;
    }
    assert findings == MadeFrom(keys, parts, Making(build));
    findings := Sorted(findings);
  }

  /** The correlator: group by fingerprint, merge each group, sort. */
  method Correlate(h: Hash, obs: seq<Observation>, newId: string -> string) returns (findings: seq<Finding>)
    ensures findings == Correlated(h, obs, newId)
  {
    findings := CorrelateBy(obs, KeyOf(h), Assembler(newId));
  }
}

/** Correlating is a homomorphism: what a finding says of its group does not depend on the
    order of the observations, joins when lists are put together, and never drops. */
module CorrelationJoin {
  import opened Findings
  import opened Grouping
  import opened Correlation
  import opened CorrelationLaws
  import opened RiskScore
  import Taxonomy

  /** Everything a finding takes from its group as a whole. */
  function View(f: Finding): Summary {
    Summary(f.severity, f.confidence == CONFIRMED, f.confidence == FALSE_POSITIVE, f.engines, f.detectors, f.cwe,
            f.references, f.affectedUrls, Digests(f.evidence), f.firstSeen, f.lastSeen)
  }

  // ----- the confidence of a group

  lemma {:induction false} TwoInSet(s: set<string>)
    ensures |s| >= 2 <==> exists a, b :: a in s && b in s && a != b
  {
    if |s| >= 2 {
      var a :| a in s;
      assert |s - {a}| == |s| - 1;
      var b :| b in s - {a};
      assert a in s && b in s && a != b;
    }
    if a, b :| a in s && b in s && a != b {
      assert |s - {a}| == |s| - 1 && b in s - {a};
    }
  }

  lemma {:induction false} EnginesMean(g: seq<Observation>)
    ensures forall e :: e in Collect(g, EngineOf) <==> exists o :: o in g && o.engineId == e
  {
    CollectMeans(g, EngineOf);
    forall e ensures e in Collect(g, EngineOf) <==> exists o :: o in g && o.engineId == e {
      if e in Collect(g, EngineOf) {
        var o :| o in g && e in EngineOf(o);
        assert o.engineId == e;
      }
      if o :| o in g && o.engineId == e {
        assert e in EngineOf(o);
      }
    }
  }

  ghost predicate TwoEngines(g: seq<Observation>) {
    exists o, p :: o in g && p in g && o.engineId != p.engineId
  }

  lemma {:induction false} TwoEnginesExactly(g: seq<Observation>)
    ensures |Collect(g, EngineOf)| >= 2 <==> TwoEngines(g)
  {
    var s := Collect(g, EngineOf);
    EnginesMean(g);
    TwoInSet(s);
    if |s| >= 2 {
      var a, b :| a in s && b in s && a != b;
      var o :| o in g && o.engineId == a;
      var p :| p in g && p.engineId == b;
      assert o.engineId != p.engineId;
    }
    if o, p :| o in g && p in g && o.engineId != p.engineId {
      assert o.engineId in s && p.engineId in s;
    }
  }

  /** The merged confidence, exactly: a single engine never gives more than TENTATIVE short of
      a CONFIRMED member, and the engines of false positives count as agreement. */
  lemma {:induction false} ConfidenceExactly(g: seq<Observation>, c: Confidence)
    requires |g| > 0 && c == ConfidenceFrom(Summarize(g))
    ensures c == FALSE_POSITIVE <==> forall o :: o in g ==> o.confidence == FALSE_POSITIVE
    ensures c == CONFIRMED <==> exists o :: o in g && o.confidence == CONFIRMED
    ensures c == FIRM <==>
              && (forall o :: o in g ==> o.confidence != CONFIRMED)
              && (exists o :: o in g && o.confidence != FALSE_POSITIVE)
              && TwoEngines(g)
  {
    SummaryMeans(g);
    TwoEnginesExactly(g);
    var s := Summarize(g);
    assert |s.engines| == |Collect(g, EngineOf)|;
  }

  /** That is the confidence of the finding. */
  lemma {:induction false} MergedConfidence(id: string, key: string, g: seq<Observation>)
    requires |g| > 0
    ensures Merge(id, key, g).confidence == ConfidenceFrom(Summarize(g))
  {
  }

  /** One tentative report becomes FIRM because another engine's report was refuted. */
  lemma {:induction false} RefutedReportCorroborates(id: string, key: string, o: Observation, p: Observation)
    requires o.confidence == TENTATIVE && p.confidence == FALSE_POSITIVE && o.engineId != p.engineId
    ensures Merge(id, key, [o]).confidence == TENTATIVE && Merge(id, key, [o, p]).confidence == FIRM
  {
    var one, two := [o], [o, p];
    assert one[0] == o && two[0] == o && two[1] == p;
    assert TwoEngines(two);
    MergedConfidence(id, key, one);
    MergedConfidence(id, key, two);
    ConfidenceExactly(one, ConfidenceFrom(Summarize(one)));
    ConfidenceExactly(two, ConfidenceFrom(Summarize(two)));
  }

  // ----- the view of a merge

  lemma {:induction false} DigestsMean(g: seq<Observation>, d: string)
    ensures d in Collect(g, DigestsOf) <==> exists o, e :: o in g && e in o.evidence && e.digest == d
  {
    CollectMeans(g, DigestsOf);
    if d in Collect(g, DigestsOf) {
      var o :| o in g && d in DigestsOf(o);
      var e :| e in o.evidence && e.digest == d;
    }
    if o, e :| o in g && e in o.evidence && e.digest == d {
      assert d in DigestsOf(o);
    }
  }

  function Digests(es: seq<Evidence>): set<string> {
    set e | e in es :: e.digest
  }

  lemma {:induction false} DigestKept(g: seq<Observation>, kept: seq<Evidence>, o: Observation, e: Evidence)
    requires kept == KeptEvidence(g) && o in g && e in o.evidence
    ensures e.digest in Digests(kept)
  {
    EvidenceIsCovered(g, o, e);
    var k :| k in kept && k.digest == e.digest;
    assert k.digest in Digests(kept);
  }

  lemma {:induction false} DigestsKept(g: seq<Observation>, kept: seq<Evidence>)
    requires kept == KeptEvidence(g)
    ensures Digests(kept) == Collect(g, DigestsOf)
  {
    forall d ensures d in Digests(kept) <==> d in Collect(g, DigestsOf) {
      DigestsMean(g, d);
      if d in Digests(kept) {
        var e :| e in kept && e.digest == d;
        EvidenceIsOwned(g, e);
      }
      if d in Collect(g, DigestsOf) {
        var o, e :| o in g && e in o.evidence && e.digest == d;
        DigestKept(g, kept, o, e);
      }
    }
  }

  lemma {:induction false} ViewOfMerge(id: string, key: string, g: seq<Observation>, s: Summary)
    requires |g| > 0 && s == Summarize(g)
    ensures View(Merge(id, key, g)) == s.(cwes := s.cwes + Taxonomy.Cwes(CategoryOf(Primary(g))))
  {
    var f := Merge(id, key, g);
    DigestsKept(g, f.evidence);
    SummaryMeans(g);
  }

  lemma {:induction false} MembersHaveKey(h: Hash, obs: seq<Observation>, k: string)
    requires Select(obs, KeyOf(h), k) != []
    ensures KeyOf(h)(Primary(Select(obs, KeyOf(h), k))) == k && Primary(Select(obs, KeyOf(h), k)) in obs
  {
    SelectMeans(obs, KeyOf(h), k);
  }

  lemma {:induction false} SameCategory(h: Hash, a: seq<Observation>, b: seq<Observation>, k: string)
    requires TellsClasses(h) && Select(a, KeyOf(h), k) != [] && Select(b, KeyOf(h), k) != []
    ensures CategoryOf(Primary(Select(a, KeyOf(h), k))) == CategoryOf(Primary(Select(b, KeyOf(h), k)))
  {
    MembersHaveKey(h, a, k);
    MembersHaveKey(h, b, k);
    SameKeySameCategory(h, Primary(Select(a, KeyOf(h), k)), Primary(Select(b, KeyOf(h), k)));
  }

  // ----- order

  lemma {:induction false} SameElements<T>(a: seq<T>, b: seq<T>)
    requires multiset(a) == multiset(b)
    ensures forall x :: x in a <==> x in b
  {
    forall x ensures x in a <==> x in b {
      assert x in a <==> x in multiset(a);
      assert x in b <==> x in multiset(b);
    }
  }

  /** The confidence a finding shows is that of its view. */
  lemma {:induction false} ConfidenceOfView(id: string, key: string, g: seq<Observation>)
    requires |g| > 0
    ensures Merge(id, key, g).confidence == ConfidenceFrom(View(Merge(id, key, g)))
    ensures ScoreOf(Merge(id, key, g)) ==
            Score(CategoryOf(Primary(g)), Summarize(g).severity, ConfidenceFrom(Summarize(g)), |Summarize(g).engines|)
  {
    ViewOfMerge(id, key, g, Summarize(g));
  }

  /** Permuting the input keeps the fingerprints found, and for each of them the class, the
      confidence, the risk score and the whole view. */
  lemma {:induction false} OrderDoesNotMatter(h: Hash, a: seq<Observation>, b: seq<Observation>, k: string,
                                              newId: string -> string)
    requires TellsClasses(h) && multiset(a) == multiset(b)
    ensures Select(a, KeyOf(h), k) != [] <==> Select(b, KeyOf(h), k) != []
    ensures Select(a, KeyOf(h), k) != [] ==>
              var f, g := FindingAt(h, a, k, newId), FindingAt(h, b, k, newId);
              View(f) == View(g) && f.confidence == g.confidence && f.category == g.category && ScoreOf(f) == ScoreOf(g)
  {
    var x, y := Select(a, KeyOf(h), k), Select(b, KeyOf(h), k);
    SameElements(a, b);
    SelectMeans(a, KeyOf(h), k);
    SelectMeans(b, KeyOf(h), k);
    assert forall o :: o in x <==> o in y;
    assert x != [] ==> x[0] in y;
    assert y != [] ==> y[0] in x;
    if x != [] {
      SummaryIgnoresOrder(x, y);
      SameCategory(h, a, b, k);
      ViewOfMerge(newId(k), k, x, Summarize(x));
      ViewOfMerge(newId(k), k, y, Summarize(y));
      ConfidenceOfView(newId(k), k, x);
      ConfidenceOfView(newId(k), k, y);
    }
  }

  // ----- joining

  lemma {:induction false} JoinCwes(s: Summary, t: Summary, c: set<int>)
    ensures Join(s.(cwes := s.cwes + c), t.(cwes := t.cwes + c)) == Join(s, t).(cwes := Join(s, t).cwes + c)
  {
    assert (s.cwes + c) + (t.cwes + c) == (s.cwes + t.cwes) + c;
  }

  lemma {:induction false} JoinOfGroups(id: string, k: string, x: seq<Observation>, y: seq<Observation>,
                                        z: seq<Observation>)
    requires |x| > 0 && |y| > 0 && |z| > 0 && (forall o :: o in z <==> o in x + y)
    requires CategoryOf(Primary(x)) == CategoryOf(Primary(z)) && CategoryOf(Primary(y)) == CategoryOf(Primary(z))
    ensures View(Merge(id, k, z)) == Join(View(Merge(id, k, x)), View(Merge(id, k, y)))
    ensures Merge(id, k, z).category == Merge(id, k, x).category == Merge(id, k, y).category
  {
    SummaryIsHomomorphic(x, y);
    SummaryIgnoresOrder(z, x + y);
    ViewOfMerge(id, k, x, Summarize(x));
    ViewOfMerge(id, k, y, Summarize(y));
    ViewOfMerge(id, k, z, Summarize(z));
    JoinCwes(Summarize(x), Summarize(y), Taxonomy.Cwes(CategoryOf(Primary(z))));
  }

  lemma {:induction false} SharedFindingsJoin(h: Hash, a: seq<Observation>, b: seq<Observation>, k: string,
                                              newId: string -> string)
    requires TellsClasses(h) && Select(a, KeyOf(h), k) != [] && Select(b, KeyOf(h), k) != []
             && Select(a + b, KeyOf(h), k) != []
    ensures var f, g, both := FindingAt(h, a, k, newId), FindingAt(h, b, k, newId), FindingAt(h, a + b, k, newId);
            && View(both) == Join(View(f), View(g)) && both.confidence == ConfidenceFrom(Join(View(f), View(g)))
            && both.category == f.category == g.category
  {
    SelectAppend(a, b, KeyOf(h), k);
    var x, y, z := Select(a, KeyOf(h), k), Select(b, KeyOf(h), k), Select(a + b, KeyOf(h), k);
    SameCategory(h, a, b, k);
    SameCategory(h, a, a + b, k);
    JoinOfGroups(newId(k), k, x, y, z);
    ConfidenceOfView(newId(k), k, z);
  }

  lemma {:induction false} SameGroupSameFinding(h: Hash, a: seq<Observation>, c: seq<Observation>, k: string,
                                                newId: string -> string)
    requires Select(c, KeyOf(h), k) == Select(a, KeyOf(h), k) != []
    ensures FindingAt(h, c, k, newId) == FindingAt(h, a, k, newId)
  {
  }

  /** For two lists put together, a fingerprint is found if and only if it is found in one of them.
      The view of a finding in both is the join of the views, and its confidence follows from that
      join; a finding in one list only is that list's. */
  lemma {:induction false} FindingsJoin(h: Hash, a: seq<Observation>, b: seq<Observation>, c: seq<Observation>,
                                        k: string, newId: string -> string,
                                        inA: bool, inB: bool)
    requires TellsClasses(h) && c == a + b && inA == (Select(a, KeyOf(h), k) != [])
             && inB == (Select(b, KeyOf(h), k) != [])
    ensures Select(c, KeyOf(h), k) != [] <==> inA || inB
    ensures inA && inB ==>
              var f, g, both := FindingAt(h, a, k, newId), FindingAt(h, b, k, newId), FindingAt(h, c, k, newId);
              && View(both) == Join(View(f), View(g)) && both.confidence == ConfidenceFrom(Join(View(f), View(g)))
              && both.category == f.category == g.category
    ensures inA && !inB ==> FindingAt(h, c, k, newId) == FindingAt(h, a, k, newId)
    ensures !inA && inB ==> FindingAt(h, c, k, newId) == FindingAt(h, b, k, newId)
  {
    SelectAppend(a, b, KeyOf(h), k);
    if inA && inB {
      SharedFindingsJoin(h, a, b, k, newId);
    } else if inA {
      SameGroupSameFinding(h, a, c, k, newId);
    } else if inB {
      SameGroupSameFinding(h, b, c, k, newId);
    }
  }

  // ----- hearing more

  lemma {:induction false} BiggerUnion(a: set<string>, b: set<string>)
    ensures |a| <= |a + b|
  {
    assert |a + b| == |a| + |b - a| by {
      assert a + b == a + (b - a);
    }
  }

  lemma {:induction false} JoinIsAbove(s: Summary, t: Summary)
    ensures SeverityRank(s.severity) <= SeverityRank(Join(s, t).severity)
    ensures ConfidenceRank(ConfidenceFrom(s)) <= ConfidenceRank(ConfidenceFrom(Join(s, t)))
    ensures |s.engines| <= |Join(s, t).engines|
  {
    BiggerUnion(s.engines, t.engines);
  }

  /** A finding never gets less severe, less certain, less corroborated or less risky by
      observations added anywhere in the list. */
  lemma {:induction false} HearingMoreNeverLowers(h: Hash, a: seq<Observation>, b: seq<Observation>, k: string,
                                                  newId: string -> string)
    requires TellsClasses(h) && Select(a, KeyOf(h), k) != [] && (forall o :: o in a ==> o in b)
    ensures Select(b, KeyOf(h), k) != []
    ensures var f, g := FindingAt(h, a, k, newId), FindingAt(h, b, k, newId);
            && SeverityRank(f.severity) <= SeverityRank(g.severity)
            && ConfidenceRank(f.confidence) <= ConfidenceRank(g.confidence)
            && f.engines <= g.engines && f.affectedUrls <= g.affectedUrls && f.cwe <= g.cwe
            && 0.0 <= ScoreOf(f) <= ScoreOf(g) <= 100.0
  {
    var x, y := Select(a, KeyOf(h), k), Select(b, KeyOf(h), k);
    SelectMeans(a, KeyOf(h), k);
    SelectMeans(b, KeyOf(h), k);
    assert x[0] in y;
    assert forall o :: o in y <==> o in x + y;
    SameCategory(h, a, b, k);
    JoinOfGroups(newId(k), k, x, y, y);
    var f, g := FindingAt(h, a, k, newId), FindingAt(h, b, k, newId);
    ConfidenceOfView(newId(k), k, x);
    ConfidenceOfView(newId(k), k, y);
    JoinIsAbove(View(f), View(g));
    ScoreIsMonotone(f.category, f.severity, f.confidence, |f.engines|, g.severity, g.confidence, |g.engines|);
    ScoreRange(f.category, f.severity, f.confidence, |f.engines|);
    ScoreRange(g.category, g.severity, g.confidence, |g.engines|);
  }
}

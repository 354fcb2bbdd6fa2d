/** From observations to the confirmed-only view: where trust comes from. */
module Pipeline {
  import opened Wrappers
  import opened Findings
  import opened Grouping
  import opened Correlation
  import opened CorrelationLaws
  import opened CorrelationJoin
  import opened Validation
  import opened ValidationLaws
  import opened Proofs

  predicate NoneConfirmed(obs: seq<Observation>) {
    forall i :: 0 <= i < |obs| ==> obs[i].confidence != CONFIRMED
  }

  lemma {:induction false} MembersBy(obs: seq<Observation>, v: seq<Observation>, key: Observation -> string, k: string,
                                     o: Observation)
    requires SameKeys(v, obs, key)
    ensures o in Select(v, key, k) <==> exists i :: 0 <= i < |obs| && key(obs[i]) == k && o == v[i]
  {
    SelectMeans(v, key, k);
    if o in Select(v, key, k) {
      var i :| 0 <= i < |v| && v[i] == o;
      assert key(obs[i]) == k;
    }
  }

  /** A validated observation belongs to a group just when the original did. */
  lemma {:induction false} MembersAt(h: Hash, obs: seq<Observation>, answers: seq<Answer>, v: seq<Observation>,
                                     k: string, o: Observation)
    requires |obs| == |answers| && v == KeptAll(obs, answers, Kept)
    ensures o in Select(v, KeyOf(h), k) <==> exists i :: 0 <= i < |obs| && KeyOf(h)(obs[i]) == k && o == v[i]
  {
    ValidationKeepsKeys(h, obs, answers, v);
    MembersBy(obs, v, KeyOf(h), k, o);
  }

  ghost predicate ReproducedFor(h: Hash, obs: seq<Observation>, answers: seq<Answer>, k: string)
    requires |obs| == |answers|
  {
    exists i :: 0 <= i < |obs| && KeyOf(h)(obs[i]) == k && Shown(obs[i], answers[i])
  }

  ghost predicate SomeCandidate(h: Hash, obs: seq<Observation>, answers: seq<Answer>, k: string)
    requires |obs| == |answers|
  {
    exists i :: 0 <= i < |obs| && KeyOf(h)(obs[i]) == k && Survives(obs[i], answers[i])
  }

  ghost predicate TwoEnginesIn(obs: seq<Observation>, key: Observation -> string, k: string) {
    exists i, j :: 0 <= i < |obs| && 0 <= j < |obs| && key(obs[i]) == k && key(obs[j]) == k
      && obs[i].engineId != obs[j].engineId
  }

  lemma {:induction false} ConfirmedMember(h: Hash, obs: seq<Observation>, answers: seq<Answer>, v: seq<Observation>,
                                           k: string)
    requires |obs| == |answers| && v == KeptAll(obs, answers, Kept) && NoneConfirmed(obs)
    ensures (exists o :: o in Select(v, KeyOf(h), k) && o.confidence == CONFIRMED) <==>
            ReproducedFor(h, obs, answers, k)
  {
    if o :| o in Select(v, KeyOf(h), k) && o.confidence == CONFIRMED {
      MembersAt(h, obs, answers, v, k, o);
      var i :| 0 <= i < |obs| && KeyOf(h)(obs[i]) == k && o == v[i];
      ConfidenceAfter(obs[i], answers[i]);
      ShownExactly(obs[i], answers[i]);
    }
    if ReproducedFor(h, obs, answers, k) {
      var i :| 0 <= i < |obs| && KeyOf(h)(obs[i]) == k && Shown(obs[i], answers[i]);
      ShownExactly(obs[i], answers[i]);
      ConfidenceAfter(obs[i], answers[i]);
      MembersAt(h, obs, answers, v, k, v[i]);
    }
  }

  lemma {:induction false} CandidateMember(h: Hash, obs: seq<Observation>, answers: seq<Answer>, v: seq<Observation>,
                                           k: string)
    requires |obs| == |answers| && v == KeptAll(obs, answers, Kept)
    ensures (exists o :: o in Select(v, KeyOf(h), k) && o.confidence != FALSE_POSITIVE) <==>
            SomeCandidate(h, obs, answers, k)
  {
    if o :| o in Select(v, KeyOf(h), k) && o.confidence != FALSE_POSITIVE {
      MembersAt(h, obs, answers, v, k, o);
      var i :| 0 <= i < |obs| && KeyOf(h)(obs[i]) == k && o == v[i];
      SurvivesExactly(obs[i], answers[i], o.confidence);
    }
    if SomeCandidate(h, obs, answers, k) {
      var i :| 0 <= i < |obs| && KeyOf(h)(obs[i]) == k && Survives(obs[i], answers[i]);
      SurvivesExactly(obs[i], answers[i], v[i].confidence);
      MembersAt(h, obs, answers, v, k, v[i]);
    }
  }

  lemma {:induction false} EnginesBy(obs: seq<Observation>, v: seq<Observation>, key: Observation -> string, k: string)
    requires SameKeys(v, obs, key) && forall i :: 0 <= i < |obs| ==> v[i].engineId == obs[i].engineId
    ensures TwoEngines(Select(v, key, k)) <==> TwoEnginesIn(obs, key, k)
  {
    var g := Select(v, key, k);
    if TwoEngines(g) {
      var o, p :| o in g && p in g && o.engineId != p.engineId;
      MembersBy(obs, v, key, k, o);
      MembersBy(obs, v, key, k, p);
      var i :| 0 <= i < |obs| && key(obs[i]) == k && o == v[i];
      var j :| 0 <= j < |obs| && key(obs[j]) == k && p == v[j];
      assert obs[i].engineId != obs[j].engineId;
    }
    if TwoEnginesIn(obs, key, k) {
      var i, j :| 0 <= i < |obs| && 0 <= j < |obs| && key(obs[i]) == k && key(obs[j]) == k
        && obs[i].engineId != obs[j].engineId;
      MembersBy(obs, v, key, k, v[i]);
      MembersBy(obs, v, key, k, v[j]);
      assert v[i].engineId != v[j].engineId;
    }
  }

  lemma {:induction false} EnginesOfMembers(h: Hash, obs: seq<Observation>, answers: seq<Answer>, v: seq<Observation>,
                                            k: string)
    requires |obs| == |answers| && v == KeptAll(obs, answers, Kept)
    ensures TwoEngines(Select(v, KeyOf(h), k)) <==> TwoEnginesIn(obs, KeyOf(h), k)
  {
    forall i | 0 <= i < |obs| ensures v[i].engineId == obs[i].engineId {
      ValidationKeepsTheRest(h, obs[i], answers[i]);
    }
    ValidationKeepsKeys(h, obs, answers, v);
    EnginesBy(obs, v, KeyOf(h), k);
  }

  /** If no engine claims CONFIRMED, a finding is CONFIRMED exactly when the reported
      configuration condition of one of its observations shows in a fresh response. */
  lemma {:induction false} ConfirmedIsEarned(h: Hash, obs: seq<Observation>, answers: seq<Answer>, v: seq<Observation>,
                                             newId: string -> string, f: Finding)
    requires |obs| == |answers| && v == KeptAll(obs, answers, Kept) && NoneConfirmed(obs)
    requires f in Correlated(h, v, newId)
    ensures f.confidence == CONFIRMED <==> ReproducedFor(h, obs, answers, f.fingerprint)
  {
    var k := f.fingerprint;
    FindingsAreGroups(h, v, newId, f);
    MergedConfidence(newId(k), k, Select(v, KeyOf(h), k));
    ConfidenceExactly(Select(v, KeyOf(h), k), f.confidence);
    ConfirmedMember(h, obs, answers, v, k);
  }

  /** Without validation nothing is CONFIRMED. */
  lemma {:induction false} NothingConfirmedUnvalidated(h: Hash, obs: seq<Observation>, newId: string -> string,
                                                       f: Finding)
    requires NoneConfirmed(obs) && f in Correlated(h, obs, newId)
    ensures f.confidence != CONFIRMED
  {
    var k := f.fingerprint;
    FindingsAreGroups(h, obs, newId, f);
    MergedConfidence(newId(k), k, Select(obs, KeyOf(h), k));
    ConfidenceExactly(Select(obs, KeyOf(h), k), f.confidence);
    SelectMeans(obs, KeyOf(h), k);
  }

  lemma {:induction false} ReproductionLeavesEvidence(o: Observation, a: Answer)
    requires Reproduced(o, a)
    ensures exists e :: e in Kept(o, a).evidence && e.digest == ConfigDigest(o, true, a.response.value.status)
  {
    var e := Reverified(o, a.response.value).evidence;
    var w := Kept(o, a);
    assert w.evidence == o.evidence + [e];
    assert w.evidence[|o.evidence|] == e;
  }

  /** Every reproduction behind a finding is in its evidence, by content. */
  lemma {:induction false} ReproductionIsEvidenced(h: Hash, obs: seq<Observation>, answers: seq<Answer>,
                                                   v: seq<Observation>, newId: string -> string, f: Finding, i: nat)
    requires |obs| == |answers| && v == KeptAll(obs, answers, Kept) && f in Correlated(h, v, newId)
    requires i < |obs| && KeyOf(h)(obs[i]) == f.fingerprint && Shown(obs[i], answers[i])
    ensures exists e :: e in f.evidence && e.digest == ConfigDigest(obs[i], true, answers[i].response.value.status)
  {
    var g := Select(v, KeyOf(h), f.fingerprint);
    FindingsAreGroups(h, v, newId, f);
    MembersAt(h, obs, answers, v, f.fingerprint, v[i]);
    ShownExactly(obs[i], answers[i]);
    ReproductionLeavesEvidence(obs[i], answers[i]);
    var e :| e in v[i].evidence && e.digest == ConfigDigest(obs[i], true, answers[i].response.value.status);
    EvidenceIsCovered(g, v[i], e);
    var k :| k in KeptEvidence(g) && k.digest == e.digest;
    assert k in f.evidence;
  }

  lemma {:induction false} TrustIsConfidence(h: Hash, obs: seq<Observation>, newId: string -> string, f: Finding)
    requires f in Correlated(h, obs, newId)
    ensures TrustedFinding(f) <==> f.confidence == CONFIRMED || f.confidence == FIRM
  {
    var k := f.fingerprint;
    FindingsAreGroups(h, obs, newId, f);
    var g := Select(obs, KeyOf(h), k);
    ViewOfMerge(newId(k), k, g, Summarize(g));
    ConfidenceOfView(newId(k), k, g);
  }

  lemma {:induction false} IdsAreDistinct(fs: seq<Finding>, newId: string -> string)
    requires NoRepeats(fs, FingerprintOf) && forall f :: f in fs ==> f.id == newId(f.fingerprint)
    requires forall a, b :: newId(a) == newId(b) ==> a == b
    ensures NoRepeats(fs, IdOf)
  {
    forall i, j | 0 <= i < j < |fs| ensures IdOf(fs[i]) != IdOf(fs[j]) {
      assert fs[i] in fs && fs[j] in fs && FingerprintOf(fs[i]) != FingerprintOf(fs[j]);
    }
  }

  ghost predicate Trustworthy(h: Hash, obs: seq<Observation>, answers: seq<Answer>, k: string)
    requires |obs| == |answers|
  {
    ReproducedFor(h, obs, answers, k) || (TwoEnginesIn(obs, KeyOf(h), k) && SomeCandidate(h, obs, answers, k))
  }

  lemma {:induction false} TrustExactly(h: Hash, obs: seq<Observation>, answers: seq<Answer>, v: seq<Observation>,
                                        newId: string -> string, f: Finding)
    requires |obs| == |answers| && v == KeptAll(obs, answers, Kept) && NoneConfirmed(obs)
             && f in Correlated(h, v, newId)
    ensures TrustedFinding(f) <==> Trustworthy(h, obs, answers, f.fingerprint)
  {
    var k := f.fingerprint;
    FindingsAreGroups(h, v, newId, f);
    TrustIsConfidence(h, v, newId, f);
    MergedConfidence(newId(k), k, Select(v, KeyOf(h), k));
    ConfidenceExactly(Select(v, KeyOf(h), k), f.confidence);
    ConfirmedMember(h, obs, answers, v, k);
    CandidateMember(h, obs, answers, v, k);
    EnginesOfMembers(h, obs, answers, v, k);
  }

  /** The confirmed-only view, in terms of what came in: it holds exactly the findings with a
      reproduced observation, or with two engines and not only false positives. */
  lemma {:induction false} ConfirmedViewExactly(h: Hash, obs: seq<Observation>, answers: seq<Answer>,
                                                v: seq<Observation>, newId: string -> string, view: Report, f: Finding)
    requires |obs| == |answers| && v == KeptAll(obs, answers, Kept) && NoneConfirmed(obs)
    requires forall a, b :: newId(a) == newId(b) ==> a == b
    requires view == FilterConfirmed(Report(Correlated(h, v, newId), Some(BuildProofs(Correlated(h, v, newId)))))
    ensures f in view.findings <==> f in Correlated(h, v, newId) && Trustworthy(h, obs, answers, f.fingerprint)
  {
    var fs := Correlated(h, v, newId);
    FindingsAreGroups(h, v, newId, f);
    forall g | g in fs ensures g.id == newId(g.fingerprint) {
      FindingsAreGroups(h, v, newId, g);
    }
    IdsAreDistinct(fs, newId);
    FilterExactly(fs, view);
    KeepMeans(fs, TrustedFinding);
    if f in fs {
      TrustExactly(h, obs, answers, v, newId, f);
    }
  }

  // ----- verdicts

  /** The verdict of a proof, in terms of the observations behind the finding: Disputed when all are
      false positives; Confirmed when one is CONFIRMED; Corroborated by two engines; and otherwise
      Reported. */
  lemma {:induction false} VerdictExactly(h: Hash, obs: seq<Observation>, newId: string -> string, f: Finding,
                                          g: seq<Observation>, v: Verdict)
    requires f in Correlated(h, obs, newId) && g == Select(obs, KeyOf(h), f.fingerprint) && v == VerdictFor(f)
    ensures v == Disputed <==> forall o :: o in g ==> o.confidence == FALSE_POSITIVE
    ensures v == Confirmed <==> exists o :: o in g && o.confidence == CONFIRMED
    ensures v == Corroborated <==>
              && (exists o :: o in g && o.confidence != FALSE_POSITIVE) && TwoEngines(g)
              && forall o :: o in g ==> o.confidence != CONFIRMED
    ensures v == Reported <==>
              && (exists o :: o in g && o.confidence != FALSE_POSITIVE) && !TwoEngines(g)
              && forall o :: o in g ==> o.confidence != CONFIRMED
  {
    FindingsAreGroups(h, obs, newId, f);
    ConfidenceExactly(g, f.confidence) by {
      MergedConfidence(newId(f.fingerprint), f.fingerprint, g);
    }
    TwoEnginesExactly(g);
    EnginesOfMerge(newId(f.fingerprint), f.fingerprint, g);
  }

  lemma {:induction false} EnginesOfMerge(id: string, key: string, g: seq<Observation>)
    requires |g| > 0
    ensures Merge(id, key, g).engines == Collect(g, EngineOf)
  {
  }
}

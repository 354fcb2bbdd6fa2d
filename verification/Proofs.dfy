/** Verdicts, proof bundles (their verdict and identity) and the confirmed-only view. */
module Proofs {
  import opened Wrappers
  import opened Findings
  import opened Grouping
  import opened Correlation

  datatype Verdict = Confirmed | Corroborated | Reported | Disputed

  datatype Proof = Proof(findingId: string, fingerprint: string, verdict: Verdict)

  datatype Report = Report(findings: seq<Finding>, proofs: Option<seq<Proof>>)

  function VerdictFor(f: Finding): Verdict {
    if f.confidence == FALSE_POSITIVE then Disputed
    else if f.confidence == CONFIRMED then Confirmed
    else if |f.engines| >= 2 || f.confidence == FIRM then Corroborated
    else Reported
  }

  predicate Trusted(v: Verdict) {
    v == Confirmed || v == Corroborated
  }

  function Build(f: Finding): Proof {
    Proof(f.id, f.fingerprint, VerdictFor(f))
  }

  function BuildProofs(findings: seq<Finding>): (r: seq<Proof>)
    ensures |r| == |findings| && forall i :: 0 <= i < |r| ==> r[i] == Build(findings[i])
  {
    seq(|findings|, i requires 0 <= i < |findings| => Build(findings[i]))
  }

  function ConfirmedIds(proofs: seq<Proof>): set<string> {
    set p | p in proofs && Trusted(p.verdict) :: p.findingId
  }

  function FilterConfirmed(report: Report): Report {
    match report.proofs
    case None => report
    case Some(proofs) =>
      var ids := ConfirmedIds(proofs);
      Report(Keep(report.findings, (f: Finding) => f.id in ids), Some(Keep(proofs, (p: Proof) => p.findingId in ids)))
  }

  function IdOf(f: Finding): string {
    f.id
  }

  predicate TrustedFinding(f: Finding) {
    Trusted(VerdictFor(f))
  }

  lemma {:induction false} KeepBuilt(findings: seq<Finding>, p: Finding -> bool, q: Proof -> bool)
    requires forall f :: f in findings ==> (p(f) <==> q(Build(f)))
    ensures Keep(BuildProofs(findings), q) == BuildProofs(Keep(findings, p))
  {
    if findings != [] {
      assert BuildProofs(findings)[1..] == BuildProofs(findings[1..]);
      KeepBuilt(findings[1..], p, q);
      var rest := Keep(findings[1..], p);
      assert BuildProofs([findings[0]] + rest) == [Build(findings[0])] + BuildProofs(rest);
      assert [] + rest == rest;
    }
  }

  /** Of findings with distinct ids and their proofs, the confirmed-only view holds exactly the
      findings with a trusted verdict, in order, with exactly the proofs of those. */
  lemma {:induction false} FilterExactly(findings: seq<Finding>, view: Report)
    requires NoRepeats(findings, IdOf)
    requires view == FilterConfirmed(Report(findings, Some(BuildProofs(findings))))
    ensures view.findings == Keep(findings, TrustedFinding)
    ensures view.proofs == Some(BuildProofs(view.findings))
  {
    var ids := ConfirmedIds(BuildProofs(findings));
    var p := (f: Finding) => f.id in ids;
    var q := (b: Proof) => b.findingId in ids;
    assert forall f :: f in findings ==> (p(f) <==> TrustedFinding(f));
    KeepSame(findings, p, TrustedFinding);
    KeepBuilt(findings, p, q);
  }

  /** Filtering twice is filtering once. */
  lemma {:induction false} FilterIsIdempotent(report: Report)
    ensures FilterConfirmed(FilterConfirmed(report)) == FilterConfirmed(report)
  {
    if report.proofs.Some? {
      var proofs := report.proofs.value;
      var ids := ConfirmedIds(proofs);
      var p := (f: Finding) => f.id in ids;
      var q := (b: Proof) => b.findingId in ids;
      var kept := Keep(proofs, q);
      KeepMeans(proofs, q);
      var ids' := ConfirmedIds(kept);
      assert ids' == ids by {
        forall id ensures id in ids <==> id in ids' {
          if id in ids {
            var b :| b in proofs && Trusted(b.verdict) && b.findingId == id;
            assert b in kept;
          }
        }
      }
      KeepTwice(report.findings, p, p);
      KeepTwice(proofs, q, q);
    }
  }

  lemma {:induction false} KeepTwice<T(!new)>(xs: seq<T>, p: T -> bool, q: T -> bool)
    requires forall x :: p(x) <==> q(x)
    ensures Keep(Keep(xs, p), q) == Keep(xs, p)
  {
    if xs != [] {
      KeepTwice(xs[1..], p, q);
      var rest := Keep(xs[1..], p);
      assert ([xs[0]] + rest)[1..] == rest;
      assert [] + rest == rest;
    }
  }
}

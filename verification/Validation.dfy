/** Re-testing observations: the strategies, the engine, and the orchestrator's loop. */
module Validation {
  import opened Wrappers
  import opened Text
  import opened Findings
  import opened Grouping
  import opened Correlation

  datatype Response = Response(status: int, headers: map<string, string>, body: string)

  /** What the one request made for an observation brings: a response, or an exception; and
      the time at which the result is stamped. */
  datatype Answer = Answer(response: Option<Response>, at: int)

  function HeaderNames(r: Response): set<string> {
    set name | name in r.headers :: ToLower(name)
  }

  function Header(r: Response, name: string): string {
    if name in r.headers then r.headers[name] else ""
  }

  function SetCookie(r: Response): string {
    if Header(r, "set-cookie") != "" then Header(r, "set-cookie") else Header(r, "Set-Cookie")
  }

  predicate NamesHeader(name: string) {
    var n := ToLower(name);
    StartsWith(n, "content-security") || StartsWith(n, "strict-transport") || StartsWith(n, "x-")
      || StartsWith(n, "referrer")
  }

  function FirstHeader(names: seq<string>): Option<string> {
    if names == [] then None else if NamesHeader(names[0]) then Some(ToLower(names[0])) else FirstHeader(names[1..])
  }

  function HeaderInEvidence(evidence: seq<Evidence>): Option<string> {
    if evidence == [] then None
    else if FirstHeader(evidence[0].matched).Some? then FirstHeader(evidence[0].matched)
    else HeaderInEvidence(evidence[1..])
  }

  /** What follows the first colon. */
  function AfterColon(s: string): Option<string> {
    if s == "" then None else if s[0] == ':' then Some(s[1..]) else AfterColon(s[1..])
  }

  function ExpectedHeader(o: Observation): Option<string> {
    if HeaderInEvidence(o.evidence).Some? then HeaderInEvidence(o.evidence)
    else
      match AfterColon(o.detectorId)
      case Some(rest) => Some(ToLower(rest))
      case None => None
  }

  predicate IsConfig(o: Observation) {
    o.vulnClass in {
      "missing_security_header", "insecure_cookie", "cors_misconfiguration", "directory_listing", "clickjacking"}
  }

  predicate ConditionHolds(o: Observation, r: Response) {
    var names := HeaderNames(r);
    if o.vulnClass == "missing_security_header" then ExpectedHeader(o).Some? && ExpectedHeader(o).value !in names
    else if o.vulnClass == "clickjacking" then "x-frame-options" !in names && "content-security-policy" !in names
    else if o.vulnClass == "insecure_cookie" then
      var cookie := ToLower(SetCookie(r));
      !Contains(cookie, "secure") || !Contains(cookie, "httponly")
    else if o.vulnClass == "directory_listing" then
      var body := ToLower(r.body);
      Contains(body, "index of /") || Contains(body, "<title>directory listing")
    else o.vulnClass == "cors_misconfiguration" && "access-control-allow-origin" in names
  }

  /** The first matched text of the first evidence that has any. */
  function Marker(evidence: seq<Evidence>): string {
    if evidence == [] then "" else if evidence[0].matched != [] then evidence[0].matched[0] else Marker(evidence[1..])
  }

  predicate IsReflection(o: Observation) {
    o.vulnClass in {"xss", "open_redirect", "header_injection"} && Marker(o.evidence) != ""
  }

  // ----- the two strategies

  datatype Outcome = Outcome(confidence: Confidence, evidence: Evidence)

  const VALIDATOR := "vantage-validator"

  function ConfigSummary(o: Observation, holds: bool): string {
    "Re-verified " + o.vulnClass + ": condition " + (if holds then "holds" else "no longer holds") + " on fresh request"
  }

  /** The text whose hash is the digest of a validation result. */
  function ConfigDigest(o: Observation, holds: bool, status: int): string {
    "validation_result" + ConfigSummary(o, holds) + IntText(status)
  }

  function Reverified(o: Observation, r: Response): Outcome {
    var holds := ConditionHolds(o, r);
    Outcome(if holds then CONFIRMED else FALSE_POSITIVE,
            Evidence(ValidationResult, VALIDATOR, ConfigSummary(o, holds), [], None, ConfigDigest(o, holds, r.status)))
  }

  function DifferentialSummary(o: Observation, clean: bool): string {
    "Baseline differential for " + o.vulnClass + ": marker " + (if clean then "absent from" else "present in")
      + " clean baseline"
  }

  function Compared(o: Observation, r: Response): Outcome {
    var marker := Marker(o.evidence);
    var clean := !Contains(r.body, marker);
    Outcome(if clean then FIRM else FALSE_POSITIVE,
            Evidence(ValidationResult, VALIDATOR, DifferentialSummary(o, clean), [marker], None,
                     "validation_result" + DifferentialSummary(o, clean) + marker))
  }

  // ----- the engine

  function Amended(o: Observation, out: Outcome, at: int): Observation {
    var c := if o.confidence == CONFIRMED && out.confidence != FALSE_POSITIVE then CONFIRMED else out.confidence;
    o.(confidence := c, evidence := o.evidence + [out.evidence], observedAt := at)
  }

  /** The first strategy that handles the observation validates it; None is an exception. */
  function Validate(o: Observation, a: Answer): Option<Observation> {
    if IsConfig(o) then
      if a.response.None? then None else Some(Amended(o, Reverified(o, a.response.value), a.at))
    else if IsReflection(o) then
      if a.response.None? then None else Some(Amended(o, Compared(o, a.response.value), a.at))
    else Some(o)
  }

  /** The orchestrator keeps the original when validating it raises. */
  function Kept(o: Observation, a: Answer): Observation {
    if Validate(o, a).Some? then Validate(o, a).value else o
  }

  function KeptAll(obs: seq<Observation>, answers: seq<Answer>,
                   keep: (Observation, Answer) -> Observation): (r: seq<Observation>)
    requires |obs| == |answers|
    ensures |r| == |obs| && forall i :: 0 <= i < |r| ==> r[i] == keep(obs[i], answers[i])
  {
    seq(|obs|, i requires 0 <= i < |obs| => keep(obs[i], answers[i]))
  }

  method KeepEach(obs: seq<Observation>, answers: seq<Answer>, keep: (Observation, Answer) -> Observation)
    returns (r: seq<Observation>)
    requires |obs| == |answers|
    ensures r == KeptAll(obs, answers, keep)
  {
    r := [];
    var i := 0;
    while i < |obs|
      invariant 0 <= i <= |obs| && |r| == i
      invariant forall j :: 0 <= j < i ==> r[j] == keep(obs[j], answers[j])
    {
      r := r + [keep(obs[i], answers[i])];
      i := i + 1;
    }
  }

  method ValidateAll(obs: seq<Observation>, answers: seq<Answer>) returns (r: seq<Observation>)
    requires |obs| == |answers|
    ensures r == KeptAll(obs, answers, Kept)
  {
    r := KeepEach(obs, answers, Kept);
  }

  // ----- what validation may change

  predicate OnlyTrustChanged(o: Observation, v: Observation) {
    && v == o.(confidence := v.confidence, evidence := v.evidence, observedAt := v.observedAt)
    && (v.evidence == o.evidence || (|v.evidence| == |o.evidence| + 1 && v.evidence[..|o.evidence|] == o.evidence
                                     && v.evidence[|o.evidence|].engineId == VALIDATOR
                                        && v.evidence[|o.evidence|].kind == ValidationResult))
  }

  /** The re-test was made and contradicts the report. */
  predicate Refuted(o: Observation, a: Answer) {
    && a.response.Some?
    && if IsConfig(o) then !ConditionHolds(o, a.response.value)
       else IsReflection(o) && Contains(a.response.value.body, Marker(o.evidence))
  }

  predicate Reproduced(o: Observation, a: Answer) {
    IsConfig(o) && a.response.Some? && ConditionHolds(o, a.response.value)
  }

  predicate Meaningful(o: Observation, a: Answer) {
    !IsConfig(o) && IsReflection(o) && a.response.Some? && !Contains(a.response.value.body, Marker(o.evidence))
  }

  /** Confidence, one appended piece of evidence and the time are all that validation touches;
      the grouping key in particular stays. */
  lemma {:induction false} ValidationKeepsTheRest(h: Hash, o: Observation, a: Answer)
    ensures OnlyTrustChanged(o, Kept(o, a))
    ensures KeyOf(h)(Kept(o, a)) == KeyOf(h)(o)
  {
    var v := Kept(o, a);
    assert CategoryOf(v) == CategoryOf(o) && v.location == o.location;
  }

  /** Exactly when each confidence comes out.  Reading the first line: CONFIRMED needs a
      reproduced configuration condition, or was there before and was not refuted. */
  lemma {:induction false} ConfidenceAfter(o: Observation, a: Answer)
    ensures Kept(o, a).confidence == CONFIRMED <==> Reproduced(o, a) || (o.confidence == CONFIRMED && !Refuted(o, a))
    ensures Kept(o, a).confidence == FALSE_POSITIVE <==>
              Refuted(o, a) || (o.confidence == FALSE_POSITIVE && !Reproduced(o, a) && !Meaningful(o, a))
    ensures Kept(o, a).confidence == FIRM <==>
              (Meaningful(o, a) && o.confidence != CONFIRMED)
                || (o.confidence == FIRM && !Refuted(o, a) && !Reproduced(o, a))
  {
  }

  /** The result is the old confidence, CONFIRMED or FALSE_POSITIVE exactly unless a
      meaningful reflection lifts a TENTATIVE or FALSE_POSITIVE report to FIRM. */
  lemma {:induction false} ThirdOutcome(o: Observation, a: Answer)
    ensures Kept(o, a).confidence in {o.confidence, CONFIRMED, FALSE_POSITIVE} <==>
              !(Meaningful(o, a) && o.confidence in {TENTATIVE, FALSE_POSITIVE})
  {
    ConfidenceAfter(o, a);
  }

  /** Short of a refutation, validating never lowers the confidence. */
  lemma {:induction false} OnlyRefutationLowers(o: Observation, a: Answer)
    ensures ConfidenceRank(Kept(o, a).confidence) < ConfidenceRank(o.confidence) <==>
            Refuted(o, a) && o.confidence != FALSE_POSITIVE
  {
    ConfidenceAfter(o, a);
  }

  /** A third outcome does occur: a report its engine called a false positive comes back as FIRM. */
  lemma {:induction false} FalsePositiveRevived(o: Observation, a: Answer)
    requires o.vulnClass == "xss" && Marker(o.evidence) != "" && o.confidence == FALSE_POSITIVE
    requires a.response == Some(Response(200, map[], ""))
    ensures Kept(o, a).confidence == FIRM
  {
    assert Meaningful(o, a);
    ConfidenceAfter(o, a);
  }

  // ----- groups are the same before and after

  ghost predicate SameKeys(a: seq<Observation>, b: seq<Observation>, key: Observation -> string) {
    |a| == |b| && forall i :: 0 <= i < |a| ==> key(a[i]) == key(b[i]) && a[i].id == b[i].id
  }

  lemma {:induction false} SameGroups(a: seq<Observation>, b: seq<Observation>, key: Observation -> string, k: string)
    requires SameKeys(a, b, key)
    ensures Keys(a, key) == Keys(b, key)
    ensures IdsOf(Select(a, key, k)) == IdsOf(Select(b, key, k))
    decreases |a|
  {
    if a != [] {
      var n := |a| - 1;
      SameGroups(a[..n], b[..n], key, k);
    }
  }

  lemma {:induction false} ValidationKeepsKeys(h: Hash, obs: seq<Observation>, answers: seq<Answer>,
                                               v: seq<Observation>)
    requires |obs| == |answers| && v == KeptAll(obs, answers, Kept)
    ensures SameKeys(v, obs, KeyOf(h))
  {
    forall i | 0 <= i < |obs| ensures KeyOf(h)(v[i]) == KeyOf(h)(obs[i]) && v[i].id == obs[i].id {
      ValidationKeepsTheRest(h, obs[i], answers[i]);
    }
  }

  /** Validating moves no observation to another finding. */
  lemma {:induction false} ValidationKeepsGroups(h: Hash, obs: seq<Observation>, answers: seq<Answer>,
                                                 v: seq<Observation>, k: string)
    requires |obs| == |answers| && v == KeptAll(obs, answers, Kept)
    ensures Keys(v, KeyOf(h)) == Keys(obs, KeyOf(h))
    ensures IdsOf(Select(v, KeyOf(h), k)) == IdsOf(Select(obs, KeyOf(h), k))
  {
    ValidationKeepsKeys(h, obs, answers, v);
    SameGroups(v, obs, KeyOf(h), k);
  }
}

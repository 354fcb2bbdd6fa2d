/** When a re-test confirms and when it refutes, said of the response's own headers and body. */
module ValidationLaws {
  import opened Wrappers
  import opened Text
  import opened Findings
  import opened Validation
  import Taxonomy
  import Correlation

  // ----- what the engine reported

  /** A matched text begins with a header's name, in whatever case. */
  ghost predicate LooksLikeHeader(text: string) {
    exists name :: name in ["content-security", "strict-transport", "x-", "referrer"] && MentionedAt(text, name, 0)
  }

  ghost predicate HeaderAt(es: seq<Evidence>, i: nat, j: nat) {
    i < |es| && j < |es[i].matched| && LooksLikeHeader(es[i].matched[j])
  }

  /** The first header that the evidence names, in the order of the evidence and of its texts. */
  ghost predicate FirstHeaderAt(es: seq<Evidence>, i: nat, j: nat) {
    HeaderAt(es, i, j) && forall k: nat, l: nat :: k < i || (k == i && l < j) ==> !HeaderAt(es, k, l)
  }

  /** What stands behind the first colon. */
  ghost predicate BehindColon(text: string, rest: string) {
    exists front :: ':' !in front && text == front + ":" + rest
  }

  /** The header that a report says is missing: the first its evidence names, or else what follows
      the first colon of its detector's id; in lower case. */
  ghost predicate Expects(o: Observation, header: string) {
    if exists i: nat, j: nat :: HeaderAt(o.evidence, i, j) then
      exists i: nat, j: nat :: FirstHeaderAt(o.evidence, i, j) && header == ToLower(o.evidence[i].matched[j])
    else exists rest :: BehindColon(o.detectorId, rest) && header == ToLower(rest)
  }

  /** The first text of the first evidence that has any. */
  ghost predicate MarkedBy(es: seq<Evidence>, marker: string) {
    exists i :: 0 <= i < |es| && es[i].matched != [] && marker == es[i].matched[0]
                && forall k :: 0 <= k < i ==> es[k].matched == []
  }

  // ----- what the response shows

  ghost predicate Sends(r: Response, header: string) {
    exists name :: name in r.headers && ToLower(name) == header
  }

  /** The cookie header, under the one spelling that is looked up first or the other. */
  ghost predicate CookieText(r: Response, text: string) {
    if "set-cookie" in r.headers && r.headers["set-cookie"] != "" then text == r.headers["set-cookie"]
    else text == if "Set-Cookie" in r.headers then r.headers["Set-Cookie"] else ""
  }

  /** The reported condition shows in the response. */
  ghost predicate Evident(o: Observation, r: Response) {
    || (o.vulnClass == "missing_security_header" && exists h :: Expects(o, h) && !Sends(r, h))
    || (o.vulnClass == "clickjacking" && !Sends(r, "x-frame-options") && !Sends(r, "content-security-policy"))
    || (o.vulnClass == "insecure_cookie"
        && exists text :: CookieText(r, text) && !(Mentions(text, "secure") && Mentions(text, "httponly")))
    || (o.vulnClass == "directory_listing"
        && (Mentions(r.body, "index of /") || Mentions(r.body, "<title>directory listing")))
    || (o.vulnClass == "cors_misconfiguration" && Sends(r, "access-control-allow-origin"))
  }

  // ----- the expected header

  lemma {:induction false} NamesExactly(text: string)
    ensures NamesHeader(text) <==> LooksLikeHeader(text)
  {
    var names := ["content-security", "strict-transport", "x-", "referrer"];
    assert names[0] == "content-security" && names[1] == "strict-transport" && names[2] == "x-"
      && names[3] == "referrer";
    forall name | name in names ensures MentionedAt(text, name, 0) <==> StartsWith(ToLower(text), name) {
      PrefixLower(text, name);
    }
  }

  lemma {:induction false} PrefixLower(text: string, name: string)
    ensures MentionedAt(text, name, 0) <==> StartsWith(ToLower(text), name)
  {
    if |name| <= |text| {
      assert ToLower(text[0..|name|]) == ToLower(text)[..|name|];
    }
  }

  lemma {:induction false} FirstHeaderExactly(names: seq<string>) returns (j: nat)
    ensures FirstHeader(names).None? <==> forall l :: 0 <= l < |names| ==> !LooksLikeHeader(names[l])
    ensures FirstHeader(names).Some? ==>
              && j < |names| && LooksLikeHeader(names[j]) && FirstHeader(names).value == ToLower(names[j])
              && forall l :: 0 <= l < j ==> !LooksLikeHeader(names[l])
  {
    j := 0;
    if names != [] {
      NamesExactly(names[0]);
      assert forall l :: 1 <= l < |names| ==> names[l] == names[1..][l - 1];
      if !LooksLikeHeader(names[0]) {
        j := FirstHeaderExactly(names[1..]);
        j := j + 1;
      }
    }
  }

  lemma {:induction false} EvidenceHeader(es: seq<Evidence>) returns (i: nat, j: nat)
    ensures HeaderInEvidence(es).None? <==> forall k: nat, l: nat :: !HeaderAt(es, k, l)
    ensures HeaderInEvidence(es).Some? ==>
              FirstHeaderAt(es, i, j) && HeaderInEvidence(es).value == ToLower(es[i].matched[j])
  {
    i, j := 0, 0;
    if es != [] {
      j := FirstHeaderExactly(es[0].matched);
      if FirstHeader(es[0].matched).None? {
        i, j := EvidenceHeader(es[1..]);
        forall k: nat, l: nat ensures HeaderAt(es, k, l) <==> k > 0 && HeaderAt(es[1..], k - 1, l) {
        }
        i := i + 1;
        assert HeaderInEvidence(es).Some? ==> HeaderAt(es, i, j);
      } else {
        assert HeaderAt(es, 0, j);
      }
    }
  }

  lemma {:induction false} BehindIsAfter(text: string, rest: string)
    ensures AfterColon(text) == Some(rest) <==> BehindColon(text, rest)
  {
    if AfterColon(text) == Some(rest) {
      var front := FrontOf(text, rest);
    }
    if front :| ':' !in front && text == front + ":" + rest {
      AfterFront(front, rest);
    }
  }

  lemma {:induction false} FrontOf(text: string, rest: string) returns (front: string)
    requires AfterColon(text) == Some(rest)
    ensures ':' !in front && text == front + ":" + rest
  {
    front := "";
    if text[0] != ':' {
      front := FrontOf(text[1..], rest);
      front := [text[0]] + front;
    }
  }

  lemma {:induction false} AfterFront(front: string, rest: string)
    requires ':' !in front
    ensures AfterColon(front + ":" + rest) == Some(rest)
  {
    if front != "" {
      assert (front + ":" + rest)[1..] == front[1..] + ":" + rest;
      AfterFront(front[1..], rest);
    }
  }

  /** The header looked for is the expected one. */
  lemma {:induction false} ExpectedExactly(o: Observation, header: string)
    ensures ExpectedHeader(o) == Some(header) <==> Expects(o, header)
  {
    var i, j := EvidenceHeader(o.evidence);
    if HeaderInEvidence(o.evidence).Some? {
      assert HeaderAt(o.evidence, i, j);
      if k: nat, l: nat :| FirstHeaderAt(o.evidence, k, l) && header == ToLower(o.evidence[k].matched[l]) {
        assert k == i && l == j;
      }
    } else {
      if AfterColon(o.detectorId).Some? {
        BehindIsAfter(o.detectorId, AfterColon(o.detectorId).value);
      }
      if rest :| BehindColon(o.detectorId, rest) && header == ToLower(rest) {
        BehindIsAfter(o.detectorId, rest);
      }
    }
  }

  lemma {:induction false} MarkerExactly(es: seq<Evidence>, marker: string)
    requires marker != ""
    ensures Marker(es) == marker <==> MarkedBy(es, marker)
  {
    if es != [] && es[0].matched == [] {
      var rest := es[1..];
      MarkerExactly(rest, marker);
      if i :| 0 <= i < |rest| && rest[i].matched != [] && marker == rest[i].matched[0]
              && forall k :: 0 <= k < i ==> rest[k].matched == [] {
        assert es[i + 1] == rest[i] && forall k :: 1 <= k < i + 1 ==> es[k] == rest[k - 1];
      }
      if i :| 0 <= i < |es| && es[i].matched != [] && marker == es[i].matched[0]
              && forall k :: 0 <= k < i ==> es[k].matched == [] {
        assert rest[i - 1] == es[i] && forall k :: 0 <= k < i - 1 ==> rest[k] == es[k + 1];
      }
    }
  }

  // ----- the condition

  lemma {:induction false} SendsExactly(r: Response, header: string)
    ensures header in HeaderNames(r) <==> Sends(r, header)
  {
  }

  lemma {:induction false} CookieExactly(r: Response, text: string)
    ensures SetCookie(r) == text <==> CookieText(r, text)
  {
  }

  /** The condition that is re-checked is the one that shows. */
  lemma {:induction false} HoldsExactly(o: Observation, r: Response)
    ensures ConditionHolds(o, r) <==> Evident(o, r)
  {
    if o.vulnClass == "missing_security_header" {
      MissingExactly(o, r);
    } else if o.vulnClass == "insecure_cookie" {
      CookieHolds(o, r);
    } else {
      ContainsLower(r.body, "index of /");
      ContainsLower(r.body, "<title>directory listing");
      SendsExactly(r, "x-frame-options");
      SendsExactly(r, "content-security-policy");
      SendsExactly(r, "access-control-allow-origin");
    }
  }

  lemma {:induction false} MissingExactly(o: Observation, r: Response)
    requires o.vulnClass == "missing_security_header"
    ensures ConditionHolds(o, r) <==> exists h :: Expects(o, h) && !Sends(r, h)
  {
    if ExpectedHeader(o).Some? {
      ExpectedExactly(o, ExpectedHeader(o).value);
      SendsExactly(r, ExpectedHeader(o).value);
    }
    if h :| Expects(o, h) && !Sends(r, h) {
      ExpectedExactly(o, h);
    }
  }

  lemma {:induction false} CookieHolds(o: Observation, r: Response)
    requires o.vulnClass == "insecure_cookie"
    ensures ConditionHolds(o, r) <==>
            exists text :: CookieText(r, text) && !(Mentions(text, "secure") && Mentions(text, "httponly"))
  {
    var text := SetCookie(r);
    CookieExactly(r, text);
    ContainsLower(text, "secure");
    ContainsLower(text, "httponly");
    forall t | CookieText(r, t) ensures t == text {
      CookieExactly(r, t);
    }
  }

  // ----- the confidence after validation

  const CONDITIONS: seq<string> := [
    "missing_security_header", "clickjacking", "insecure_cookie", "directory_listing", "cors_misconfiguration"
  ]

  ghost predicate Configured(o: Observation) {
    o.vulnClass in CONDITIONS
  }

  ghost predicate Reflected(o: Observation, marker: string) {
    o.vulnClass in ["xss", "open_redirect", "header_injection"] && marker != "" && MarkedBy(o.evidence, marker)
  }

  lemma {:induction false} ClassesExactly(o: Observation)
    ensures IsConfig(o) <==> Configured(o)
    ensures IsReflection(o) <==> Reflected(o, Marker(o.evidence))
  {
    MarkerShows(o.evidence);
    var five := CONDITIONS;
    var three := ["xss", "open_redirect", "header_injection"];
    assert five[0] in five && five[1] in five && five[2] in five && five[3] in five && five[4] in five;
    assert three[0] in three && three[1] in three && three[2] in three;
  }

  lemma {:induction false} MarkerShows(es: seq<Evidence>)
    ensures Marker(es) != "" ==> MarkedBy(es, Marker(es))
  {
    if Marker(es) != "" {
      MarkerExactly(es, Marker(es));
    }
  }

  /** A report of one of the five configuration conditions that is re-tested comes out CONFIRMED
      exactly when the condition shows in the fresh response, and FALSE_POSITIVE otherwise. */
  lemma {:induction false} ConfiguredExactly(o: Observation, a: Answer, r: Response, after: Confidence)
    requires Configured(o) && a.response == Some(r) && after == Kept(o, a).confidence
    ensures after == CONFIRMED <==> Evident(o, r)
    ensures after == FALSE_POSITIVE <==> !Evident(o, r)
  {
    ClassesExactly(o);
    HoldsExactly(o, r);
  }

  /** A reflected marker that the clean response holds refutes the report; one it does not hold
      makes the report FIRM, unless it was CONFIRMED. */
  lemma {:induction false} ReflectedExactly(o: Observation, a: Answer, r: Response, marker: string, after: Confidence)
    requires Reflected(o, marker) && a.response == Some(r) && after == Kept(o, a).confidence
    ensures after == FALSE_POSITIVE <==> exists front, back :: r.body == front + marker + back
    ensures after != FALSE_POSITIVE ==> after == if o.confidence == CONFIRMED then CONFIRMED else FIRM
  {
    MarkerExactly(o.evidence, marker);
    ClassesExactly(o);
    NotBoth(o);
    ContainsSplit(r.body, marker);
  }

  lemma {:induction false} NotBoth(o: Observation)
    requires IsReflection(o)
    ensures !IsConfig(o)
  {
  }

  /** Any other report, and one whose re-test raised, stays as it was. */
  lemma {:induction false} OthersStay(o: Observation, a: Answer)
    requires a.response.None? || (!Configured(o) && forall marker :: !Reflected(o, marker))
    ensures Kept(o, a) == o
  {
    ClassesExactly(o);
  }

  /** A re-test leaves one piece of the validator's evidence behind what was there, holding the marker
      if there is one, and the time at which it was made; without one nothing changes. */
  lemma {:induction false} StampedExactly(o: Observation, a: Answer, after: Observation, marker: string)
    requires after == Kept(o, a)
    ensures a.response.Some? && Configured(o) ==>
              && after.observedAt == a.at && |after.evidence| == |o.evidence| + 1 && o.evidence <= after.evidence
              && after.evidence[|o.evidence|].matched == []
    ensures a.response.Some? && Reflected(o, marker) ==>
              && after.observedAt == a.at && |after.evidence| == |o.evidence| + 1 && o.evidence <= after.evidence
              && after.evidence[|o.evidence|].matched == [marker]
    ensures after.evidence == o.evidence ==> after == o
  {
    ClassesExactly(o);
    if Reflected(o, marker) {
      MarkerExactly(o.evidence, marker);
      NotBoth(o);
    }
  }

  /** The re-test was made and the reported configuration condition shows. */
  ghost predicate Shown(o: Observation, a: Answer) {
    Configured(o) && a.response.Some? && Evident(o, a.response.value)
  }

  /** The report is no false positive once the answer to its re-test is in. */
  ghost predicate Survives(o: Observation, a: Answer) {
    if a.response.None? then o.confidence != FALSE_POSITIVE
    else if Configured(o) then Evident(o, a.response.value)
    else if exists marker :: Reflected(o, marker) then
      forall marker, front, back :: Reflected(o, marker) ==> a.response.value.body != front + marker + back
    else o.confidence != FALSE_POSITIVE
  }

  lemma {:induction false} ShownExactly(o: Observation, a: Answer)
    ensures Reproduced(o, a) <==> Shown(o, a)
  {
    ClassesExactly(o);
    if a.response.Some? {
      HoldsExactly(o, a.response.value);
    }
  }

  lemma {:induction false} SurvivesExactly(o: Observation, a: Answer, after: Confidence)
    requires after == Kept(o, a).confidence
    ensures after != FALSE_POSITIVE <==> Survives(o, a)
  {
    if a.response.Some? {
      var r, m := a.response.value, Marker(o.evidence);
      if Configured(o) {
        ConfiguredExactly(o, a, r, after);
      } else if exists marker :: Reflected(o, marker) {
        forall marker | Reflected(o, marker) ensures marker == m {
          MarkerExactly(o.evidence, marker);
        }
        assert Reflected(o, m);
        ReflectedExactly(o, a, r, m, after);
      } else {
        OthersStay(o, a);
      }
    } else {
      OthersStay(o, a);
    }
  }

  // ----- the classes are those of the taxonomy

  function ClassNamed(name: string): Taxonomy.Category {
    if name == "missing_security_header" then Taxonomy.MissingSecurityHeader
    else if name == "clickjacking" then Taxonomy.Clickjacking
    else if name == "insecure_cookie" then Taxonomy.InsecureCookie
    else if name == "directory_listing" then Taxonomy.DirectoryListing
    else if name == "cors_misconfiguration" then Taxonomy.CorsMisconfiguration
    else if name == "xss" then Taxonomy.Xss
    else if name == "open_redirect" then Taxonomy.OpenRedirect
    else Taxonomy.HeaderInjection
  }

  lemma {:induction false} ConditionIsKey(name: string)
    requires name in CONDITIONS
    ensures Taxonomy.Key(ClassNamed(name)) == name
  {
  }

  lemma {:induction false} ReflectionIsKey(name: string)
    requires name in ["xss", "open_redirect", "header_injection"]
    ensures Taxonomy.Key(ClassNamed(name)) == name
  {
  }

  /** What the validator re-tests is what the taxonomy knows by that name: an observation it handles
      that lists no CWE is grouped under the class so named. */
  lemma {:induction false} ValidatedClassIsKnown(o: Observation, marker: string, c: Taxonomy.Category)
    requires (Configured(o) || Reflected(o, marker)) && o.cwe == [] && c == ClassNamed(o.vulnClass)
    ensures Correlation.CategoryOf(o) == c
  {
    if Configured(o) {
      ConditionIsKey(o.vulnClass);
    } else {
      ReflectionIsKey(o.vulnClass);
    }
    Taxonomy.ByKeyExactly(o.vulnClass, c);
  }
}

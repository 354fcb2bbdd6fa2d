/** When the two scope engines agree, exactly. */
module ScopeAgreement {
  import opened Wrappers
  import opened Text
  import opened ScopeRules
  import opened GoScope

  // ----- one contract, two readings

  /** A rule as it crosses from one engine to the other. */
  function Crossed(r: Rule): GoRule {
    GoRule(if r.kind == EXCLUDE then "exclude" else "include", r.host, r.schemes, r.ports, r.pathPrefix, r.pathRegex,
        r.methods)
  }

  function CrossedAll(rules: seq<Rule>): (r: seq<GoRule>)
    ensures |r| == |rules| && forall i :: 0 <= i < |r| ==> r[i] == Crossed(rules[i])
  {
    seq(|rules|, i requires 0 <= i < |rules| => Crossed(rules[i]))
  }

  /** Both languages compile the pattern or neither does, and it finds the same in the path. */
  predicate PatternAlike(py: Library, go: Library, pattern: string, path: string) {
    match (py.compile(pattern), go.compile(pattern))
    case (Some(a), Some(b)) => a(path) == b(path)
    case (None, None) => true
    case _ => false
  }

  /** The two languages read the rule's host, and its pattern on the path, alike; the prefix is
      not empty, which the rule's validator sees to. */
  predicate ReadAlike(py: Library, go: Library, r: Rule, path: string) {
    && py.address(r.host) == go.address(r.host) && py.block(r.host) == go.block(r.host) && r.pathPrefix != ""
    && (r.pathRegex.Some? ==> PatternAlike(py, go, r.pathRegex.value, path))
  }

  ghost predicate AllAlike(py: Library, go: Library, rules: seq<Rule>, u: Url) {
    py.address(u.host) == go.address(u.host) && forall r :: r in rules ==> ReadAlike(py, go, r, u.path)
  }

  lemma {:induction false} KindsCross(r: Rule)
    ensures IsExclude(Crossed(r)) <==> r.kind == EXCLUDE
  {
    assert ToLower("exclude") == "exclude";
    assert ToLower("include")[0] == 'i';
  }

  // ----- one rule

  /** A rule with the web schemes in place of an empty list, as the proxy reads it. */
  function WithSchemes(r: Rule): Rule {
    if r.schemes == [] then r.(schemes := ["https", "http"]) else r
  }

  /** The proxy matches exactly what the other engine matches with the default schemes. */
  lemma {:induction false} RuleReadsDefaults(py: Library, go: Library, r: Rule, u: Url)
    requires ReadAlike(py, go, r, u.path) && py.address(u.host) == go.address(u.host) && u.port > 0
    ensures GoMatches(go, Crossed(r), u) <==> MatchRule(py, WithSchemes(r), u) == Yes
  {
  }

  /** The two match alike exactly unless the scheme list is empty and the web schemes would
      make the rule match. */
  lemma {:induction false} RuleAgreesExactly(py: Library, go: Library, r: Rule, u: Url)
    requires ReadAlike(py, go, r, u.path) && py.address(u.host) == go.address(u.host) && u.port > 0
    ensures (GoMatches(go, Crossed(r), u) <==> MatchRule(py, r, u) == Yes) <==>
              r.schemes != [] || MatchRule(py, r.(schemes := ["https", "http"]), u) != Yes
  {
    RuleReadsDefaults(py, go, r, u);
  }

  // ----- the search

  /** What one rule's two outcomes have to do with each other. */
  ghost predicate Paired(r: Rule, py: Rule -> Outcome, go: GoRule -> bool) {
    && (py(r) == Yes ==> go(Crossed(r))) && (py(r) == Raise ==> !go(Crossed(r)))
    && (py(r) == No && go(Crossed(r)) ==> r.schemes == []) && (r.schemes == [] ==> py(r) == No)
  }

  lemma {:induction false} RulesPair(py: Library, go: Library, rules: seq<Rule>, u: Url)
    requires AllAlike(py, go, rules, u) && u.port > 0
    ensures forall r :: r in rules ==> Paired(r, Matcher(py, u), GoMatcher(go, u))
  {
    forall r | r in rules ensures Paired(r, Matcher(py, u), GoMatcher(go, u)) {
      RuleReadsDefaults(py, go, r, u);
      assert Matcher(py, u)(r) == MatchRule(py, r, u) && GoMatcher(go, u)(Crossed(r)) == GoMatches(go, Crossed(r), u);
    }
  }

  /** The rule the search names lists its schemes. */
  predicate Listed(rules: seq<Rule>, s: Search) {
    s.At? && s.rule < |rules| ==> rules[s.rule].schemes != []
  }

  lemma {:induction false} GoFindStep(rules: seq<Rule>, kind: Kind, go: GoRule -> bool, i: nat)
    requires i < |rules|
    ensures GoFind(CrossedAll(rules), kind == EXCLUDE, go, i) ==
            if rules[i].kind == kind && go(Crossed(rules[i])) then At(i)
            else GoFind(CrossedAll(rules), kind == EXCLUDE, go, i + 1)
  {
    KindsCross(rules[i]);
  }

  /** What the two searches have to do with each other. */
  ghost predicate SearchesAgree(rules: seq<Rule>, p: Search, g: Search) {
    && (p == g <==> !p.Broken? && Listed(rules, g)) && !g.Broken?
    && (g.At? ==> g.rule < |rules|) && (p.At? ==> p.rule < |rules| && Listed(rules, p))
  }

  lemma {:induction false} FindsAgree(rules: seq<Rule>, kind: Kind, py: Rule -> Outcome, go: GoRule -> bool, i: nat)
    requires i <= |rules| && forall r :: r in rules ==> Paired(r, py, go)
    ensures SearchesAgree(rules, Find(rules, kind, py, i), GoFind(CrossedAll(rules), kind == EXCLUDE, go, i))
    ensures Find(rules, kind, py, i).At? ==> i <= Find(rules, kind, py, i).rule
    decreases |rules| - i
  {
    if i < |rules| {
      assert rules[i] in rules && Paired(rules[i], py, go);
      GoFindStep(rules, kind, go, i);
      FindsAgree(rules, kind, py, go, i + 1);
    }
  }

  /** Nothing is named, or a rule that lists its schemes. */
  predicate Settled(rules: seq<Rule>, d: Decision) {
    (d.Excluded? || d.Included?) && d.rule < |rules| ==> rules[d.rule].schemes != []
  }

  lemma {:induction false} DecisionsAgree(rules: seq<Rule>, py: Rule -> Outcome, go: GoRule -> bool, p: Decision,
                                          g: Decision)
    requires (forall r :: r in rules ==> Paired(r, py, go)) && p == Decide(rules, py)
             && g == GoDecide(CrossedAll(rules), go)
    ensures p == g <==> p != BadPattern && Settled(rules, g)
    ensures p != PrivateAddress && g != PrivateAddress
  {
    FindsAgree(rules, EXCLUDE, py, go, 0);
    FindsAgree(rules, INCLUDE, py, go, 0);
  }

  // ----- the decision on a parsed URL

  /** For the same rules and the same parsed URL, the engines return the same verdict and rule
      index exactly when they take the private-address guard alike, no pattern that does not
      compile is reached, and the rule the proxy decides by, if any, lists its schemes. */
  lemma {:induction false} AgreeExactly(py: Library, go: Library, rules: seq<Rule>, authorized: bool, u: Url,
                                        p: Decision, g: Decision)
    requires AllAlike(py, go, rules, u) && u.port > 0
    requires p == CheckUrl(py, rules, authorized, Some(u))
             && g == GoCheckUrl(go, CrossedAll(rules), authorized, Some(u))
    ensures p == g <==>
              !authorized ||
              ((Guarded(py, rules, u.host) <==> GoGuarded(go, CrossedAll(rules), u.host)) && p != BadPattern
                  && Settled(rules, g))
  {
    RulesPair(py, go, rules, u);
    var dp, dg := Decide(rules, Matcher(py, u)), GoDecide(CrossedAll(rules), GoMatcher(go, u));
    DecisionsAgree(rules, Matcher(py, u), GoMatcher(go, u), dp, dg);
  }

  /** The scheme lists are filled in and the patterns compile. */
  ghost predicate Complete(lib: Library, rules: seq<Rule>) {
    forall r :: r in rules ==> r.schemes != [] && (r.pathRegex.Some? ==> lib.compile(r.pathRegex.value).Some?)
  }

  lemma {:induction false} FoundIsThere(rules: seq<GoRule>, exclude: bool, matches: GoRule -> bool, i: nat)
    requires i <= |rules|
    ensures GoFind(rules, exclude, matches, i).At? ==> GoFind(rules, exclude, matches, i).rule < |rules|
    decreases |rules| - i
  {
    if i < |rules| {
      FoundIsThere(rules, exclude, matches, i + 1);
    }
  }

  lemma {:induction false} NeverBroken(rules: seq<Rule>, kind: Kind, matches: Rule -> Outcome, i: nat)
    requires i <= |rules| && forall r :: r in rules ==> matches(r) != Raise
    ensures !Find(rules, kind, matches, i).Broken?
    decreases |rules| - i
  {
    if i < |rules| {
      assert rules[i] in rules;
      NeverBroken(rules, kind, matches, i + 1);
    }
  }

  lemma {:induction false} CompleteSettles(py: Library, go: Library, rules: seq<Rule>, authorized: bool, u: Url)
    requires Complete(py, rules)
    ensures CheckUrl(py, rules, authorized, Some(u)) != BadPattern
    ensures Settled(rules, GoCheckUrl(go, CrossedAll(rules), authorized, Some(u)))
  {
    var m := Matcher(py, u);
    forall r | r in rules ensures m(r) != Raise {
      assert m(r) == MatchRule(py, r, u);
    }
    NeverBroken(rules, EXCLUDE, m, 0);
    NeverBroken(rules, INCLUDE, m, 0);
    FoundIsThere(CrossedAll(rules), true, GoMatcher(go, u), 0);
    FoundIsThere(CrossedAll(rules), false, GoMatcher(go, u), 0);
    forall i | 0 <= i < |rules| ensures rules[i].schemes != [] {
      assert rules[i] in rules;
    }
  }

  // ----- the guard

  /** The guards agree where the libraries agree on the URL's host and the rules' hosts. */
  lemma {:induction false} GuardsAgree(py: Library, go: Library, rules: seq<Rule>, host: string)
    requires IsPrivateLiteral(py, host) <==> IsPrivateLiteral(go, host)
    requires forall r :: r in rules ==> (IsPrivateLiteral(py, r.host) <==> IsPrivateLiteral(go, r.host))
    ensures Guarded(py, rules, host) <==> GoGuarded(go, CrossedAll(rules), host)
  {
    var crossed := CrossedAll(rules);
    forall i | 0 <= i < |rules| ensures AllowsPrivate(py, rules[i]) <==> GoAllowsPrivate(go, crossed[i]) {
      assert rules[i] in rules;
    }
    if OptIn(py, rules) {
      var i :| 0 <= i < |rules| && AllowsPrivate(py, rules[i]);
      assert GoAllowsPrivate(go, crossed[i]);
    }
    if GoOptIn(go, crossed) {
      var i :| 0 <= i < |crossed| && GoAllowsPrivate(go, crossed[i]);
      assert AllowsPrivate(py, rules[i]);
    }
  }

  // ----- end to end

  /** From the same split URL, the two parse alike exactly unless one sees an explicit port 0
      that the other replaces by the scheme's default, or escapes in the path. */
  lemma {:induction false} ParseAgreesExactly(parts: Parts, verb: string)
    ensures Parse(parts, verb) == GoParse(parts, verb) <==>
              Parse(parts, verb).None? || (parts.port != Port(0) && PathOr(parts.path) == PathOr(parts.decodedPath))
  {
  }

  lemma {:induction false} ParsesDiffer(parts: Parts, verb: string)
    ensures Parse(parts, verb).None? ==> GoParse(parts, verb).None?
    ensures Parse(parts, verb).Some? && parts.port == Port(0) ==> GoParse(parts, verb).None?
    ensures Parse(parts, verb).Some? && parts.port != Port(0) ==>
              GoParse(parts, verb) == Some(Parse(parts, verb).value.(path := PathOr(parts.decodedPath)))
    ensures Parse(parts, verb).Some? ==> Parse(parts, verb).value.port > 0
  {
    assert ToUpper("") == "";
  }

  /** From the same split URL, with no explicit port 0 and no escape in the path: the checks
      agree exactly when the target is not authorized, nothing is parsed, or the condition on
      the parsed URL holds. */
  lemma {:induction false} ChecksAgreeExactly(py: Library, go: Library, rules: seq<Rule>, authorized: bool,
                                              parts: Parts, verb: string,
                                              p: Decision, g: Decision)
    requires parts.port != Port(0) && PathOr(parts.path) == PathOr(parts.decodedPath)
    requires Parse(parts, verb).Some? ==> AllAlike(py, go, rules, Parse(parts, verb).value)
    requires p == Check(py, rules, authorized, parts, verb)
             && g == GoCheckUrl(go, CrossedAll(rules), authorized, GoParse(parts, verb))
    ensures p == g <==>
              !authorized || Parse(parts, verb).None? ||
              (var host := Parse(parts, verb).value.host;
               (Guarded(py, rules, host) <==> GoGuarded(go, CrossedAll(rules), host)) && p != BadPattern
                 && Settled(rules, g))
  {
    ParseAgreesExactly(parts, verb);
    ParsesDiffer(parts, verb);
    var parsed := Parse(parts, verb);
    if parsed.Some? {
      AgreeExactly(py, go, rules, authorized, parsed.value, p, g);
    }
  }

  /** Under rules that are complete the guard is all that matters. */
  lemma {:induction false} CompleteChecksAgree(py: Library, go: Library, rules: seq<Rule>, authorized: bool,
                                               parts: Parts, verb: string, p: Decision, g: Decision)
    requires parts.port != Port(0) && PathOr(parts.path) == PathOr(parts.decodedPath) && Complete(py, rules)
    requires Parse(parts, verb).Some? ==> AllAlike(py, go, rules, Parse(parts, verb).value)
    requires p == Check(py, rules, authorized, parts, verb)
             && g == GoCheckUrl(go, CrossedAll(rules), authorized, GoParse(parts, verb))
    ensures p == g <==>
              !authorized || Parse(parts, verb).None? ||
              (var host := Parse(parts, verb).value.host; Guarded(py, rules, host) <==>
                  GoGuarded(go, CrossedAll(rules), host))
  {
    ChecksAgreeExactly(py, go, rules, authorized, parts, verb, p, g);
    ParseAgreesExactly(parts, verb);
    if Parse(parts, verb).Some? {
      CompleteSettles(py, go, rules, authorized, Parse(parts, verb).value);
    }
  }

  /** An explicit port 0 with a scheme that has a default: the checks agree exactly when the
      target is not authorized. */
  lemma {:induction false} PortZeroDiffers(py: Library, go: Library, rules: seq<Rule>, authorized: bool, parts: Parts,
                                           verb: string)
    requires parts.port == Port(0) && Parse(parts, verb).Some?
    ensures (Check(py, rules, authorized, parts, verb) ==
             GoCheckUrl(go, CrossedAll(rules), authorized, GoParse(parts, verb))) <==> !authorized
  {
    ParsesDiffer(parts, verb);
  }

  // ----- paths with escapes

  /** The rule as the proxy applies it, said in the other engine's terms: the web schemes stand in
      for an empty list, and a rule whose pattern does not compile matches nothing. */
  function Applied(lib: Library, r: Rule): Rule {
    if r.pathRegex.Some? && lib.compile(r.pathRegex.value).None? then r.(ports := Some([]), pathRegex := None)
    else WithSchemes(r)
  }

  function AppliedAll(lib: Library, rules: seq<Rule>): (r: seq<Rule>)
    ensures |r| == |rules| && forall i :: 0 <= i < |r| ==> r[i] == Applied(lib, rules[i])
  {
    seq(|rules|, i requires 0 <= i < |rules| => Applied(lib, rules[i]))
  }

  lemma {:induction false} RuleIsApplied(py: Library, go: Library, r: Rule, u: Url)
    requires ReadAlike(py, go, r, u.path) && py.address(u.host) == go.address(u.host) && u.port > 0
    ensures MatchRule(py, Applied(py, r), u) == if GoMatches(go, Crossed(r), u) then Yes else No
    ensures Applied(py, r).kind == r.kind
  {
    RuleReadsDefaults(py, go, r, u);
  }

  lemma {:induction false} FindIsApplied(py: Library, go: Library, rules: seq<Rule>, kind: Kind, u: Url, i: nat)
    requires AllAlike(py, go, rules, u) && u.port > 0 && i <= |rules|
    ensures Find(AppliedAll(py, rules), kind, Matcher(py, u), i) ==
            GoFind(CrossedAll(rules), kind == EXCLUDE, GoMatcher(go, u), i)
    decreases |rules| - i
  {
    if i < |rules| {
      var r := rules[i];
      assert r in rules;
      RuleIsApplied(py, go, r, u);
      assert Matcher(py, u)(Applied(py, r)) == MatchRule(py, Applied(py, r), u)
        && GoMatcher(go, u)(Crossed(r)) == GoMatches(go, Crossed(r), u);
      GoFindStep(rules, kind, GoMatcher(go, u), i);
      FindIsApplied(py, go, rules, kind, u, i + 1);
    }
  }

  lemma {:induction false} GuardIsApplied(lib: Library, rules: seq<Rule>, host: string)
    ensures Guarded(lib, AppliedAll(lib, rules), host) <==> Guarded(lib, rules, host)
  {
    var applied := AppliedAll(lib, rules);
    forall i | 0 <= i < |rules| ensures AllowsPrivate(lib, applied[i]) <==> AllowsPrivate(lib, rules[i]) {
      assert applied[i].host == rules[i].host;
    }
  }

  /** The proxy decides as the orchestrator's engine would under the applied rules, exactly when
      the target is not authorized or the guards are taken alike. */
  lemma {:induction false} ProxyApplies(py: Library, go: Library, rules: seq<Rule>, authorized: bool, u: Url)
    requires AllAlike(py, go, rules, u) && u.port > 0
    ensures GoCheckUrl(go, CrossedAll(rules), authorized, Some(u)) ==
            CheckUrl(py, AppliedAll(py, rules), authorized, Some(u)) <==>
              !authorized || (Guarded(py, rules, u.host) <==> GoGuarded(go, CrossedAll(rules), u.host))
  {
    GuardIsApplied(py, rules, u.host);
    FindIsApplied(py, go, rules, EXCLUDE, u, 0);
    FindIsApplied(py, go, rules, INCLUDE, u, 0);
  }

  /** Any path, escaped or not, and any rules: the checks agree exactly when the target is not
      authorized, or the guards agree and the orchestrator's engine decides the path as written
      under the rules and the decoded path under the applied rules alike. */
  lemma {:induction false} EscapesExactly(py: Library, go: Library, rules: seq<Rule>, authorized: bool, parts: Parts,
                                          verb: string, u: Url, v: Url,
                                          p: Decision, g: Decision)
    requires parts.port != Port(0) && Parse(parts, verb) == Some(u) && v == u.(path := PathOr(parts.decodedPath))
    requires AllAlike(py, go, rules, v)
    requires p == Check(py, rules, authorized, parts, verb)
             && g == GoCheckUrl(go, CrossedAll(rules), authorized, GoParse(parts, verb))
    ensures p == g <==>
              !authorized ||
              ((Guarded(py, rules, u.host) <==> GoGuarded(go, CrossedAll(rules), u.host))
               && p == CheckUrl(py, AppliedAll(py, rules), authorized, Some(v)))
  {
    ParsesDiffer(parts, verb);
    ProxyApplies(py, go, rules, authorized, v);
    GuardDecides(py, rules, authorized, u);
    GuardDecidesGo(go, CrossedAll(rules), authorized, v);
  }

  lemma {:induction false} GuardDecides(lib: Library, rules: seq<Rule>, authorized: bool, u: Url)
    ensures CheckUrl(lib, rules, authorized, Some(u)) == PrivateAddress <==> authorized && Guarded(lib, rules, u.host)
  {
  }

  lemma {:induction false} GuardDecidesGo(lib: Library, rules: seq<GoRule>, authorized: bool, u: Url)
    ensures GoCheckUrl(lib, rules, authorized, Some(u)) == PrivateAddress <==>
            authorized && GoGuarded(lib, rules, u.host)
  {
  }

  lemma {:induction false} EmptySchemes(lib: Library, u: Url, r: Rule)
    requires u.scheme == "https" && u.port == 443 && u.path != "" && u.path[0] == '/' && lib.address(u.host).None?
    requires r == Rule(INCLUDE, u.host, [], None, "/", None, None)
    ensures CheckUrl(lib, [r], true, Some(u)) == NotCovered
            && GoCheckUrl(lib, CrossedAll([r]), true, Some(u)) == Included(0)
  {
    var rules := [r];
    assert Matcher(lib, u)(r) == MatchRule(lib, r, u) == No;
    assert Find(rules, EXCLUDE, Matcher(lib, u), 1) == Nothing && Find(rules, INCLUDE, Matcher(lib, u), 1) == Nothing;
    KindsCross(r);
    assert GoMatcher(lib, u)(Crossed(r)) == GoMatches(lib, Crossed(r), u);
    assert "https" in Schemes(Crossed(r)) by {
      assert Schemes(Crossed(r))[0] == "https";
    }
    assert u.path[..1] == "/";
    assert GoFind(CrossedAll(rules), true, GoMatcher(lib, u), 1) == Nothing;
  }

  /** An https URL without port, on a named host. */
  predicate Secure(parts: Parts, host: string) {
    ToLower(parts.scheme) == "https" && parts.hostname != "" && parts.port.NoPort?
      && host == TrimDots(ToLower(parts.hostname))
  }

  lemma {:induction false} SecureParses(parts: Parts, verb: string, host: string, u: Url)
    requires Secure(parts, host) && u == Url("https", host, 443, PathOr(parts.path), ToUpper(verb))
    ensures Parse(parts, verb) == Some(u) && GoParse(parts, verb) == Some(u.(path := PathOr(parts.decodedPath)))
  {
    ParsesDiffer(parts, verb);
  }

  /** A rule with an empty scheme list covers nothing for one engine, and the web schemes for
      the other. */
  lemma {:induction false} EmptySchemesDiffer(lib: Library, parts: Parts, verb: string, host: string, r: Rule)
    requires Secure(parts, host) && parts.path == parts.decodedPath && StartsWith(parts.path, "/")
             && lib.address(host).None?
    requires r == Rule(INCLUDE, host, [], None, "/", None, None)
    ensures Check(lib, [r], true, parts, verb) == NotCovered
    ensures GoCheckUrl(lib, CrossedAll([r]), true, GoParse(parts, verb)) == Included(0)
  {
    var u := Url("https", host, 443, PathOr(parts.path), ToUpper(verb));
    SecureParses(parts, verb, host, u);
    EmptySchemes(lib, u, r);
  }

  function NoAdmin(host: string): seq<Rule> {
    [Rule(EXCLUDE, host, ["https"], None, "/admin", None, None), Rule(INCLUDE, host, ["https"], None, "/", None, None)]
  }

  lemma {:induction false} EscapeFlips(py: Library, go: Library, u: Url, v: Url, rules: seq<Rule>)
    requires u.scheme == "https" && u.port == 443 && u.path == "/%61dmin" && v == u.(path := "/admin")
             && rules == NoAdmin(u.host)
    requires py.address(u.host).None? && go.address(u.host).None?
    ensures CheckUrl(py, rules, true, Some(u)) == Included(1)
            && GoCheckUrl(go, CrossedAll(rules), true, Some(v)) == Excluded(0)
  {
    assert "/%61dmin"[1] != "/admin"[1] && "/%61dmin"[..1] == "/";
    assert MatchRule(py, rules[0], u) == No && MatchRule(py, rules[1], u) == Yes;
    assert Matcher(py, u)(rules[0]) == No && Matcher(py, u)(rules[1]) == Yes;
    assert Find(rules, EXCLUDE, Matcher(py, u), 2) == Nothing && Find(rules, EXCLUDE, Matcher(py, u), 1) == Nothing;
    assert Find(rules, INCLUDE, Matcher(py, u), 1) == At(1);
    KindsCross(rules[0]);
    assert GoMatcher(go, v)(Crossed(rules[0])) == GoMatches(go, Crossed(rules[0]), v) == true;
  }

  /** An escape that changes the verdict: `/%61dmin` passes one engine, and the other excludes
      what it decodes to. */
  lemma {:induction false} EscapeFlipsVerdict(py: Library, go: Library, parts: Parts, verb: string, host: string,
                                              rules: seq<Rule>)
    requires Secure(parts, host) && parts.path == "/%61dmin" && parts.decodedPath == "/admin"
    requires rules == NoAdmin(host) && py.address(host).None? && go.address(host).None?
    ensures Check(py, rules, true, parts, verb) == Included(1)
    ensures GoCheckUrl(go, CrossedAll(rules), true, GoParse(parts, verb)) == Excluded(0)
  {
    var u := Url("https", host, 443, "/%61dmin", ToUpper(verb));
    SecureParses(parts, verb, host, u);
    EscapeFlips(py, go, u, u.(path := "/admin"), rules);
  }
}

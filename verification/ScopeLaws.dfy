/** What a scope decision depends on, and what it does not. */
module ScopeLaws {
  import opened Wrappers
  import opened ScopeRules

  /** No reachable pattern fails to compile. */
  ghost predicate Compiles(lib: Library, rules: seq<Rule>) {
    forall r :: r in rules && r.pathRegex.Some? ==> lib.compile(r.pathRegex.value).Some?
  }

  ghost predicate NeverRaises(rules: seq<Rule>, matches: Rule -> Outcome) {
    forall r :: r in rules ==> matches(r) != Raise
  }

  ghost predicate SomeMatch(rules: seq<Rule>, kind: Kind, matches: Rule -> Outcome) {
    exists r :: r in rules && r.kind == kind && matches(r) == Yes
  }

  /** What a search says of the rules it went through. */
  lemma {:induction false} FindMeans(rules: seq<Rule>, kind: Kind, matches: Rule -> Outcome, i: nat)
    requires i <= |rules| && NeverRaises(rules, matches)
    ensures var s := Find(rules, kind, matches, i);
            && (s.Nothing? ==> forall j :: i <= j < |rules| && rules[j].kind == kind ==> matches(rules[j]) == No)
            && (s.At? ==> i <= s.rule < |rules| && rules[s.rule].kind == kind && matches(rules[s.rule]) == Yes)
            && (s.At? ==> forall j :: i <= j < s.rule && rules[j].kind == kind ==> matches(rules[j]) == No)
            && !s.Broken?
    decreases |rules| - i
  {
    if i < |rules| {
      assert rules[i] in rules;
      FindMeans(rules, kind, matches, i + 1);
    }
  }

  lemma {:induction false} FindExactly(rules: seq<Rule>, kind: Kind, matches: Rule -> Outcome)
    requires NeverRaises(rules, matches)
    ensures Find(rules, kind, matches, 0).At? <==> SomeMatch(rules, kind, matches)
    ensures !Find(rules, kind, matches, 0).Broken?
  {
    FindMeans(rules, kind, matches, 0);
    var s := Find(rules, kind, matches, 0);
    if s.At? {
      assert rules[s.rule] in rules;
    }
    if s.Nothing? {
      forall r | r in rules && r.kind == kind ensures matches(r) == No {
        var j :| 0 <= j < |rules| && rules[j] == r;
      }
    }
  }

  ghost predicate Covered(lib: Library, rules: seq<Rule>, kind: Kind, u: Url) {
    SomeMatch(rules, kind, Matcher(lib, u))
  }

  /** A URL is allowed exactly when the target is authorized, no private-address guard stands in
      the way, no exclude rule matches and some include rule does. */
  lemma {:induction false} AllowedExactly(lib: Library, rules: seq<Rule>, authorized: bool, u: Url)
    requires Compiles(lib, rules)
    ensures Allowed(CheckUrl(lib, rules, authorized, Some(u))) <==>
              authorized && !Guarded(lib, rules, u.host) && !Covered(lib, rules, EXCLUDE, u)
                && Covered(lib, rules, INCLUDE, u)
  {
    FindExactly(rules, EXCLUDE, Matcher(lib, u));
    FindExactly(rules, INCLUDE, Matcher(lib, u));
  }

  /** A refusal by a rule names the first matching exclude rule, an admission the first matching
      include rule. */
  lemma {:induction false} FirstRuleDecides(lib: Library, rules: seq<Rule>, u: Url, d: Decision)
    requires Compiles(lib, rules) && d == CheckUrl(lib, rules, true, Some(u))
    ensures d.Excluded? ==> d.rule < |rules| && rules[d.rule].kind == EXCLUDE && MatchRule(lib, rules[d.rule], u) == Yes
                            && forall j :: 0 <= j < d.rule && rules[j].kind == EXCLUDE ==>
                               MatchRule(lib, rules[j], u) == No
    ensures d.Included? ==> d.rule < |rules| && rules[d.rule].kind == INCLUDE && MatchRule(lib, rules[d.rule], u) == Yes
                            && forall j :: 0 <= j < d.rule && rules[j].kind == INCLUDE ==>
                               MatchRule(lib, rules[j], u) == No
  {
    var m := Matcher(lib, u);
    FindMeans(rules, EXCLUDE, m, 0);
    FindMeans(rules, INCLUDE, m, 0);
    assert forall r :: m(r) == MatchRule(lib, r, u);
  }

  lemma {:induction false} OptInMeans(lib: Library, rules: seq<Rule>)
    ensures OptIn(lib, rules) <==> exists r :: r in rules && AllowsPrivate(lib, r)
  {
    if OptIn(lib, rules) {
      var i :| 0 <= i < |rules| && AllowsPrivate(lib, rules[i]);
      assert rules[i] in rules;
    }
    if r :| r in rules && AllowsPrivate(lib, r) {
      var i :| 0 <= i < |rules| && rules[i] == r;
    }
  }

  /** The order of the rules does not matter to what is allowed. */
  lemma {:induction false} OrderDoesNotMatter(lib: Library, a: seq<Rule>, b: seq<Rule>, authorized: bool, u: Url)
    requires multiset(a) == multiset(b) && Compiles(lib, a)
    ensures Allowed(CheckUrl(lib, a, authorized, Some(u))) <==> Allowed(CheckUrl(lib, b, authorized, Some(u)))
  {
    forall r ensures r in a <==> r in b {
      assert r in a <==> r in multiset(a);
      assert r in b <==> r in multiset(b);
    }
    OptInMeans(lib, a);
    OptInMeans(lib, b);
    AllowedExactly(lib, a, authorized, u);
    AllowedExactly(lib, b, authorized, u);
  }

  // ----- the private-address guard

  /** A rule that matches a private literal other than through a wildcard is itself the opt-in,
      so the guard never rejects what such a rule covers. */
  lemma {:induction false} GuardIsCoherent(lib: Library, rules: seq<Rule>, rule: Rule, u: Url)
    requires rule in rules && MatchRule(lib, rule, u) == Yes && !IsWildcard(rule.host)
    ensures !Guarded(lib, rules, u.host)
  {
    if IsPrivateLiteral(lib, u.host) {
      OptInMeans(lib, rules);
    }
  }

  lemma {:induction false} OptInMore(lib: Library, rules: seq<Rule>, rule: Rule)
    ensures OptIn(lib, rules + [rule]) <==> OptIn(lib, rules) || AllowsPrivate(lib, rule)
  {
    OptInMeans(lib, rules);
    OptInMeans(lib, rules + [rule]);
    assert forall r :: r in rules + [rule] <==> r in rules || r == rule;
  }

  /** Exactly what adding an exclude rule does: it takes away what it matches; and if it is the
      first opt-in, it also lets in the private literals that the other rules would admit. */
  lemma {:induction false} AddingExclude(lib: Library, rules: seq<Rule>, ex: Rule, authorized: bool, u: Url)
    requires ex.kind == EXCLUDE && Compiles(lib, rules + [ex])
    ensures Allowed(CheckUrl(lib, rules + [ex], authorized, Some(u))) <==>
              MatchRule(lib, ex, u) != Yes &&
              (Allowed(CheckUrl(lib, rules, authorized, Some(u))) ||
               (authorized && AllowsPrivate(lib, ex) && Guarded(lib, rules, u.host)
                && !Covered(lib, rules, EXCLUDE, u) && Covered(lib, rules, INCLUDE, u)))
  {
    assert forall r :: r in rules ==> r in rules + [ex];
    AllowedExactly(lib, rules, authorized, u);
    AllowedExactly(lib, rules + [ex], authorized, u);
    OptInMore(lib, rules, ex);
  }

  /** An exclude rule that is no opt-in only takes away. */
  lemma {:induction false} ExcludeShrinks(lib: Library, rules: seq<Rule>, ex: Rule, authorized: bool, u: Url)
    requires ex.kind == EXCLUDE && Compiles(lib, rules + [ex]) && !AllowsPrivate(lib, ex)
    requires Allowed(CheckUrl(lib, rules + [ex], authorized, Some(u)))
    ensures Allowed(CheckUrl(lib, rules, authorized, Some(u)))
  {
    AddingExclude(lib, rules, ex, authorized, u);
  }

  function WildcardRule(): Rule {
    Rule(INCLUDE, "*.0.0.1", ["http"], None, "/", None, None)
  }

  function BlockRule(): Rule {
    Rule(EXCLUDE, "10.0.0.0/8", ["http"], None, "/", None, None)
  }

  function LoopbackUrl(): Url {
    Url("http", "127.0.0.1", 80, "/", "")
  }

  /** An exclude rule can let something in: excluding 10.0.0.0/8 admits the loopback address
      that a wildcard covers. */
  lemma {:induction false} ExcludeMayAdmit(lib: Library)
    requires IsPrivateLiteral(lib, "127.0.0.1") && lib.address("*.0.0.1").None?
             && !HostMatches(lib, "10.0.0.0/8", "127.0.0.1")
    ensures !Allowed(CheckUrl(lib, [WildcardRule()], true, Some(LoopbackUrl())))
    ensures Allowed(CheckUrl(lib, [WildcardRule()] + [BlockRule()], true, Some(LoopbackUrl())))
  {
    var w, b, u := WildcardRule(), BlockRule(), LoopbackUrl();
    OptInMeans(lib, [w]);
    assert !AllowsPrivate(lib, w) && AllowsPrivate(lib, b);
    assert Matcher(lib, u)(w) == Yes && w in [w];
    AllowedExactly(lib, [w], true, u);
    AddingExclude(lib, [w], b, true, u);
  }
}

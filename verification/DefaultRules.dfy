/** The include rules derived from a target's base URLs. */
module DefaultRules {
  import opened Wrappers
  import opened Text
  import opened ScopeRules
  import opened ScopeLaws

  /** Everything up to the last slash, without it; the whole path when there is none. */
  function BeforeLastSlash(path: string): string {
    if '/' !in path then path
    else if path[|path| - 1] == '/' then path[..|path| - 1]
    else BeforeLastSlash(path[..|path| - 1])
  }

  function Directory(path: string): string {
    if EndsWith(path, "/") then path else BeforeLastSlash(path) + "/"
  }

  function NormalHost(hostname: string): string {
    TrimDots(ToLower(Strip(hostname)))
  }

  function RuleFor(base: Parts): Rule {
    Rule(INCLUDE, NormalHost(base.hostname), [ToLower(if base.scheme == "" then "https" else base.scheme)],
         if base.port.Port? && base.port.number != 0 then Some([base.port.number]) else None,
         Directory(base.path), None, None)
  }

  function RulesOf(base: Parts, make: Parts -> Rule): seq<Rule> {
    if base.hostname == "" then [] else [make(base)]
  }

  function RulesBy(bases: seq<Parts>, make: Parts -> Rule): seq<Rule>
    decreases |bases|
  {
    if bases == [] then [] else RulesBy(bases[..|bases| - 1], make) + RulesOf(bases[|bases| - 1], make)
  }

  /** One rule per base URL that has a host, in their order. */
  function RulesFor(bases: seq<Parts>): seq<Rule> {
    RulesBy(bases, RuleFor)
  }

  method DefaultScopeRules(bases: seq<Parts>) returns (rules: seq<Rule>)
    ensures rules == RulesFor(bases)
  {
    rules := [];
    var i := 0;
    while i < |bases|
      invariant 0 <= i <= |bases| && rules == RulesBy(bases[..i], RuleFor)
    {
      RulesStep(bases, i, RuleFor);
      if bases[i].hostname != "" {
        rules := rules + [RuleFor(bases[i])];
      }
      i := i + 1;
    }
    assert bases[..|bases|] == bases;
  }

  lemma {:induction false} RulesStep(bases: seq<Parts>, i: nat, make: Parts -> Rule)
    requires i < |bases|
    ensures RulesBy(bases[..i + 1], make) == RulesBy(bases[..i], make) + RulesOf(bases[i], make)
  {
    assert bases[..i + 1][..i] == bases[..i];
  }

  /** What the URL type guarantees of a base URL, for hosts that are no wildcards. */
  ghost predicate WellFormed(b: Parts) {
    && (ToLower(b.scheme) == "http" || ToLower(b.scheme) == "https") && b.hostname != "" && !b.port.BadPort?
    && Strip(b.hostname) == b.hostname && !IsWildcard(NormalHost(b.hostname)) && '/' !in b.hostname
    && (b.path == "" || b.path[0] == '/')
  }

  // ----- directories

  lemma {:induction false} UpToLastSlash(path: string)
    requires '/' in path
    ensures BeforeLastSlash(path) + "/" <= path
    ensures forall p :: p <= path && p != "" && p[|p| - 1] == '/' ==> p <= BeforeLastSlash(path) + "/"
  {
    var n := |path| - 1;
    if path[n] == '/' {
      assert path[..n] + "/" == path;
    } else {
      var front := path[..n];
      assert path == front + [path[n]];
      UpToLastSlash(front);
      forall p | p <= path && p != "" && p[|p| - 1] == '/' ensures p <= front {
        assert |p| <= n;
      }
    }
  }

  /** The directory of a path is its longest prefix that ends in a slash. */
  lemma {:induction false} DirectoryIsLongest(path: string)
    requires path != "" && path[0] == '/'
    ensures Directory(path) <= path && EndsWith(Directory(path), "/")
    ensures forall p :: p <= path && p != "" && p[|p| - 1] == '/' ==> p <= Directory(path)
  {
    if EndsWith(path, "/") {
    } else {
      UpToLastSlash(path);
      assert (BeforeLastSlash(path) + "/")[|BeforeLastSlash(path)|..] == "/";
    }
  }

  lemma {:induction false} DirectoryOfEmpty()
    ensures Directory("") == "/"
  {
    assert BeforeLastSlash("") + "/" == "/";
  }

  lemma {:induction false} PathUnderItself(path: string)
    requires path == "" || path[0] == '/'
    ensures StartsWith(PathOr(path), Directory(path))
  {
    if path == "" {
      DirectoryOfEmpty();
    } else {
      DirectoryIsLongest(path);
    }
  }

  // ----- what the rules cover

  lemma {:induction false} RulesByMean(bases: seq<Parts>, make: Parts -> Rule, r: Rule)
    ensures r in RulesBy(bases, make) <==> exists b :: b in bases && b.hostname != "" && r == make(b)
    decreases |bases|
  {
    if bases != [] {
      var n := |bases| - 1;
      RulesByMean(bases[..n], make, r);
      assert forall b :: b in bases <==> b == bases[n] || b in bases[..n];
    }
  }

  lemma {:induction false} RulesMean(bases: seq<Parts>, r: Rule)
    ensures r in RulesFor(bases) <==> exists b :: b in bases && b.hostname != "" && r == RuleFor(b)
  {
    RulesByMean(bases, RuleFor, r);
    assert forall b :: (RuleFor)(b) == RuleFor(b);
  }

  function EffectivePort(b: Parts): int {
    if b.port.Port? && b.port.number != 0 then b.port.number else DefaultPort(ToLower(b.scheme))
  }

  /** The URL shares scheme, port and host (or address) with the base URL and lies in its directory. */
  ghost predicate Under(lib: Library, b: Parts, u: Url) {
    && u.scheme == ToLower(b.scheme)
    && u.port == EffectivePort(b)
    && (u.host == TrimDots(ToLower(b.hostname)) ||
        (lib.address(u.host).Some? && lib.address(TrimDots(ToLower(b.hostname))) == lib.address(u.host)))
    && StartsWith(u.path, Directory(b.path))
  }

  lemma {:induction false} TrimKeepsFree(s: string, c: char)
    requires c !in ToLower(s)
    ensures c !in TrimDots(ToLower(s))
  {
    assert TrimDots(ToLower(s)) <= ToLower(s);
  }

  lemma {:induction false} LowerKeepsSlashFree(s: string)
    requires '/' !in s
    ensures '/' !in ToLower(s)
  {
    forall i | 0 <= i < |s| ensures ToLower(s)[i] != '/' {
      assert s[i] != '/';
    }
  }

  lemma {:induction false} HostSlashFree(b: Parts)
    requires WellFormed(b)
    ensures '/' !in NormalHost(b.hostname) && NormalHost(b.hostname) == TrimDots(ToLower(b.hostname))
  {
    LowerKeepsSlashFree(b.hostname);
    TrimKeepsFree(b.hostname, '/');
  }

  lemma {:induction false} RuleCovers(lib: Library, b: Parts, u: Url)
    requires WellFormed(b)
    ensures MatchRule(lib, RuleFor(b), u) == Yes <==> Under(lib, b, u)
  {
    HostSlashFree(b);
    var r := RuleFor(b);
    assert |b.scheme| == |ToLower(b.scheme)| > 0;
    assert u.scheme in r.schemes <==> u.scheme == ToLower(b.scheme) by {
      assert r.schemes == [ToLower(b.scheme)];
    }
    if u.scheme == ToLower(b.scheme) {
      assert PortMatches(r, u) <==> u.port == EffectivePort(b);
    }
  }

  lemma {:induction false} DefaultsCompile(lib: Library, bases: seq<Parts>)
    ensures Compiles(lib, RulesFor(bases)) && forall r :: r in RulesFor(bases) ==> r.kind == INCLUDE
  {
    forall r | r in RulesFor(bases) ensures r.kind == INCLUDE && r.pathRegex.None? {
      RulesMean(bases, r);
    }
  }

  lemma {:induction false} CoveredExactly(lib: Library, bases: seq<Parts>, u: Url)
    requires forall b :: b in bases ==> WellFormed(b)
    ensures Covered(lib, RulesFor(bases), INCLUDE, u) <==> exists b :: b in bases && Under(lib, b, u)
    ensures !Covered(lib, RulesFor(bases), EXCLUDE, u)
  {
    var rules, m := RulesFor(bases), Matcher(lib, u);
    DefaultsCompile(lib, bases);
    if Covered(lib, rules, INCLUDE, u) {
      var r :| r in rules && r.kind == INCLUDE && m(r) == Yes;
      RulesMean(bases, r);
      var b :| b in bases && b.hostname != "" && r == RuleFor(b);
      RuleCovers(lib, b, u);
    }
    if b :| b in bases && Under(lib, b, u) {
      RulesMean(bases, RuleFor(b));
      RuleCovers(lib, b, u);
      assert m(RuleFor(b)) == Yes;
    }
  }

  /** The default rules admit exactly what lies under some base URL, private addresses
      included: covering one is the opt-in. */
  lemma {:induction false} DefaultsExactly(lib: Library, bases: seq<Parts>, u: Url)
    requires forall b :: b in bases ==> WellFormed(b)
    ensures Allowed(CheckUrl(lib, RulesFor(bases), true, Some(u))) <==> exists b :: b in bases && Under(lib, b, u)
  {
    var rules := RulesFor(bases);
    DefaultsCompile(lib, bases);
    AllowedExactly(lib, rules, true, u);
    CoveredExactly(lib, bases, u);
    if b :| b in bases && Under(lib, b, u) {
      RulesMean(bases, RuleFor(b));
      RuleCovers(lib, b, u);
      GuardIsCoherent(lib, rules, RuleFor(b), u);
    }
  }

  /** In particular every base URL is itself in scope. */
  lemma {:induction false} BasesAreAdmitted(lib: Library, bases: seq<Parts>, b: Parts, verb: string)
    requires (forall c :: c in bases ==> WellFormed(c)) && b in bases
    ensures Allowed(Check(lib, RulesFor(bases), true, b, verb))
  {
    var u := Parse(b, verb);
    assert |b.scheme| == |ToLower(b.scheme)| > 0;
    PathUnderItself(b.path);
    assert u.Some? && Under(lib, b, u.value);
    DefaultsExactly(lib, bases, u.value);
  }
}

/** The scope decision of the egress proxy, with its cache of compiled patterns. */
module GoScope {
  import opened Wrappers
  import opened Text
  import opened ScopeRules

  /** A rule as the proxy reads it: `kind` is a text, and the scheme list and path prefix have
      defaults when empty. */
  datatype GoRule = GoRule(
    kind: string, host: string, schemes: seq<string>, ports: Option<seq<int>>, pathPrefix: string,
    pathRegex: Option<string>,
    methods: Option<seq<string>>)

  predicate IsExclude(r: GoRule) {
    ToLower(r.kind) == "exclude"
  }

  function Schemes(r: GoRule): seq<string> {
    if r.schemes == [] then ["https", "http"] else r.schemes
  }

  function Prefix(r: GoRule): string {
    if r.pathPrefix == "" then "/" else r.pathPrefix
  }

  /** The decoded path counts, and an explicit port 0 is no port at all. */
  function GoParse(parts: Parts, verb: string): Option<Url> {
    if parts.scheme == "" || parts.hostname == "" || parts.port.BadPort? then None
    else
      var scheme := ToLower(parts.scheme);
      var port := if parts.port.Port? then parts.port.number else DefaultPort(scheme);
      if port == 0 then None
      else
        var method' := if verb != "" then ToUpper(verb) else "";
        Some(Url(scheme, TrimDots(ToLower(parts.hostname)), port, PathOr(parts.decodedPath), method'))
  }

  predicate GoHostMatches(lib: Library, ruleHost: string, host: string) {
    if ruleHost == host then true
    else if StartsWith(ruleHost, "*.") then EndsWith(host, ruleHost[1..]) && host != ruleHost[2..]
    else if lib.address(host).None? then false
    else if '/' in ruleHost then
      lib.block(ruleHost).Some?
        && lib.address(host).value / Pow2(lib.block(ruleHost).value.free) ==
        lib.block(ruleHost).value.base / Pow2(lib.block(ruleHost).value.free)
    else lib.address(ruleHost).Some? && lib.address(ruleHost).value == lib.address(host).value
  }

  predicate GoAllowsPrivate(lib: Library, r: GoRule) {
    IsPrivateLiteral(lib, r.host) || '/' in r.host
  }

  predicate GoOptIn(lib: Library, rules: seq<GoRule>) {
    exists i :: 0 <= i < |rules| && GoAllowsPrivate(lib, rules[i])
  }

  predicate GoPortMatches(r: GoRule, u: Url) {
    if r.ports.Some? then u.port in r.ports.value else u.port == DefaultPort(u.scheme)
  }

  predicate GoReaches(lib: Library, r: GoRule, u: Url) {
    u.scheme in Schemes(r) && GoHostMatches(lib, r.host, u.host) && GoPortMatches(r, u) && StartsWith(u.path, Prefix(r))
  }

  /** A pattern that does not compile matches nothing. */
  predicate GoRegexMatches(lib: Library, r: GoRule, u: Url) {
    r.pathRegex.None? || (lib.compile(r.pathRegex.value).Some? && lib.compile(r.pathRegex.value).value(u.path))
  }

  predicate GoVerbMatches(r: GoRule, u: Url) {
    r.methods.None? || u.verb == "" || u.verb in r.methods.value
  }

  predicate GoMatches(lib: Library, r: GoRule, u: Url) {
    GoReaches(lib, r, u) && GoRegexMatches(lib, r, u) && GoVerbMatches(r, u)
  }

  function GoFind(rules: seq<GoRule>, exclude: bool, matches: GoRule -> bool, i: nat): (s: Search)
    requires i <= |rules|
    ensures !s.Broken?
    decreases |rules| - i
  {
    if i == |rules| then Nothing
    else if IsExclude(rules[i]) == exclude && matches(rules[i]) then At(i)
    else GoFind(rules, exclude, matches, i + 1)
  }

  function GoMatcher(lib: Library, u: Url): GoRule -> bool {
    (r: GoRule) => GoMatches(lib, r, u)
  }

  predicate GoGuarded(lib: Library, rules: seq<GoRule>, host: string) {
    IsPrivateLiteral(lib, host) && !GoOptIn(lib, rules)
  }

  function GoDecide(rules: seq<GoRule>, matches: GoRule -> bool): Decision {
    match GoFind(rules, true, matches, 0)
    case At(i) => Excluded(i)
    case _ =>
      match GoFind(rules, false, matches, 0)
      case At(i) => Included(i)
      case _ => NotCovered
  }

  /** The decision as a function of rules and URL alone, with no cache. */
  function GoCheckUrl(lib: Library, rules: seq<GoRule>, authorized: bool, u: Option<Url>): Decision {
    if !authorized then Unauthorized
    else if u.None? then Unparseable
    else if GoGuarded(lib, rules, u.value.host) then PrivateAddress
    else GoDecide(rules, GoMatcher(lib, u.value))
  }

  class ScopeEngine {
    const lib: Library
    const rules: seq<GoRule>
    const authorized: bool
    var privateOptIn: bool
    var regexCache: map<string, string -> bool>

    /** The cache holds nothing but what compiling would give. */
    ghost predicate Valid()
      reads this
    {
      && privateOptIn == GoOptIn(lib, rules)
      && forall p :: p in regexCache ==> lib.compile(p) == Some(regexCache[p])
    }

    constructor (lib: Library, rules: seq<GoRule>, authorized: bool)
      ensures Valid() && this.lib == lib && this.rules == rules && this.authorized == authorized
    {
      this.lib, this.rules, this.authorized := lib, rules, authorized;
      var found, i := false, 0;
      while i < |rules|
        invariant 0 <= i <= |rules|
        invariant found <==> exists j :: 0 <= j < i && GoAllowsPrivate(lib, rules[j])
      {
        if GoAllowsPrivate(lib, rules[i]) {
          found := true;
        }
        i := i + 1;
      }
      privateOptIn := found;
      regexCache := map[];
    }

    /** Look the pattern up, compile and remember it when it is not there. */
    method SearchPath(pattern: string, path: string) returns (found: bool)
      requires Valid()
      modifies this`regexCache
      ensures Valid()
      ensures found <==> lib.compile(pattern).Some? && lib.compile(pattern).value(path)
    {
      if pattern !in regexCache {
        match lib.compile(pattern) {
          case None => return false;
          case Some(search) => regexCache := regexCache[pattern := search];
        }
      }
      found := regexCache[pattern](path);
    }

    method RuleMatches(r: GoRule, u: Url) returns (matched: bool)
      requires Valid()
      modifies this`regexCache
      ensures Valid()
      ensures matched == GoMatches(lib, r, u)
    {
      if !GoReaches(lib, r, u) {
        return false;
      }
      if r.pathRegex.Some? {
        var found := SearchPath(r.pathRegex.value, u.path);
        if !found {
          return false;
        }
      }
      matched := GoVerbMatches(r, u);
    }

    method FindRule(exclude: bool, u: Url) returns (s: Search)
      requires Valid()
      modifies this`regexCache
      ensures Valid()
      ensures s == GoFind(rules, exclude, GoMatcher(lib, u), 0)
    {
      var i := 0;
      while i < |rules|
        invariant 0 <= i <= |rules| && Valid()
        invariant GoFind(rules, exclude, GoMatcher(lib, u), i) == GoFind(rules, exclude, GoMatcher(lib, u), 0)
      {
        if IsExclude(rules[i]) == exclude {
          var matched := RuleMatches(rules[i], u);
          if matched {
            return At(i);
          }
        }
        i := i + 1;
      }
      s := Nothing;
    }

    /** Whatever was checked before, the answer is that of the rules and the URL. */
    method Check(parts: Parts, verb: string) returns (d: Decision)
      requires Valid()
      modifies this`regexCache
      ensures Valid()
      ensures d == GoCheckUrl(lib, rules, authorized, GoParse(parts, verb))
    {
      if !authorized {
        return Unauthorized;
      }
      var parsed := GoParse(parts, verb);
      if parsed.None? {
        return Unparseable;
      }
      var u := parsed.value;
      if IsPrivateLiteral(lib, u.host) && !privateOptIn {
        return PrivateAddress;
      }
      var s := FindRule(true, u);
      if s.At? {
        return Excluded(s.rule);
      }
      s := FindRule(false, u);
      d := if s.At? then Included(s.rule) else NotCovered;
    }

    /** So over any sequence of checks, the cache never changes an answer. */
    method CheckAll(asked: seq<(Parts, string)>) returns (answers: seq<Decision>)
      requires Valid()
      modifies this`regexCache
      ensures Valid() && |answers| == |asked|
      ensures forall i :: 0 <= i < |asked| ==>
              answers[i] == GoCheckUrl(lib, rules, authorized, GoParse(asked[i].0, asked[i].1))
    {
      answers := [];
      var i := 0;
      while i < |asked|
        invariant 0 <= i <= |asked| && |answers| == i && Valid()
        invariant forall j :: 0 <= j < i ==>
                  answers[j] == GoCheckUrl(lib, rules, authorized, GoParse(asked[j].0, asked[j].1))
      {
        var d := Check(asked[i].0, asked[i].1);
        answers := answers + [d];
        i := i + 1;
      }
    }
  }
}

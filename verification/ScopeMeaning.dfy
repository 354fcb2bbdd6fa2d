/** What a scope rule covers, said of the URL and the rule themselves. */
module ScopeMeaning {
  import opened Wrappers
  import opened Text
  import opened ScopeRules
  import opened ScopeLaws

  // ----- hosts

  /** Halving `n` times: what is left of an address without its last `n` bits. */
  function Halved(a: nat, n: nat): nat {
    if n == 0 then a else Halved(a / 2, n - 1)
  }

  lemma {:induction false} Twice(q: nat, m: nat)
    ensures q * (2 * m) == 2 * (q * m)
  {
  }

  lemma {:induction false} HalfOf(a: nat, y: nat, r: nat)
    requires a == 2 * y + r
    ensures a / 2 == y + r / 2
  {
  }

  lemma {:induction false} HalvedIs(a: nat, n: nat, m: nat, q: nat, r: nat)
    requires m == Pow2(n) && a == q * m + r && r < m
    ensures Halved(a, n) == q
    decreases n
  {
    if n > 0 {
      var half := Pow2(n - 1);
      Twice(q, half);
      HalfOf(a, q * half, r);
      HalvedIs(a / 2, n - 1, half, q, r / 2);
    }
  }

  lemma {:induction false} QuotientAndRest(a: nat, m: nat) returns (q: nat, r: nat)
    requires m > 0
    ensures q == a / m && a == q * m + r && r < m
  {
    q, r := a / m, a % m;
  }

  lemma {:induction false} HalvedIsDivided(a: nat, n: nat, m: nat)
    requires m == Pow2(n)
    ensures Halved(a, n) == a / m
  {
    var q, r := QuotientAndRest(a, m);
    HalvedIs(a, n, m, q, r);
  }

  /** A rule's host covers a host: literally; as whatever ends in a dot and the domain, for a wildcard; or, where the
      host is an address, as that address or as a block it lies in. */
  ghost predicate Covers(lib: Library, ruleHost: string, host: string) {
    || ruleHost == host
    || (exists domain, part :: ruleHost == "*." + domain && host == part + "." + domain)
    || (!StartsWith(ruleHost, "*.") && '/' !in ruleHost && lib.address(host).Some?
        && lib.address(ruleHost) == lib.address(host))
    || (!StartsWith(ruleHost, "*.") && '/' in ruleHost && lib.address(host).Some? && lib.block(ruleHost).Some?
        && var b := lib.block(ruleHost).value; Halved(lib.address(host).value, b.free) == Halved(b.base, b.free))
  }

  lemma {:induction false} WildcardExactly(ruleHost: string, host: string, domain: string)
    requires ruleHost == "*." + domain
    ensures EndsWith(host, ruleHost[1..]) && host != ruleHost[2..] <==>
            exists part :: host == part + "." + domain
  {
    assert ruleHost[1..] == "." + domain && ruleHost[2..] == domain;
    if EndsWith(host, "." + domain) {
      var part := host[..|host| - |domain| - 1];
      assert host == part + "." + domain;
    }
    if part :| host == part + "." + domain {
      assert host[|host| - |domain| - 1..] == "." + domain;
    }
  }

  lemma {:induction false} HostExactly(lib: Library, ruleHost: string, host: string)
    ensures HostMatches(lib, ruleHost, host) <==> Covers(lib, ruleHost, host)
  {
    if StartsWith(ruleHost, "*.") {
      var domain := ruleHost[2..];
      assert ruleHost == "*." + domain;
      WildcardExactly(ruleHost, host, domain);
      forall d | ruleHost == "*." + d ensures d == domain {
        assert d == ruleHost[2..];
      }
    } else {
      forall d ensures ruleHost != "*." + d {
        assert StartsWith("*." + d, "*.");
      }
      if lib.address(host).Some? && lib.block(ruleHost).Some? {
        var b := lib.block(ruleHost).value;
        HalvedIsDivided(lib.address(host).value, b.free, Pow2(b.free));
        HalvedIsDivided(b.base, b.free, Pow2(b.free));
      }
    }
  }

  // ----- one rule

  /** The port that goes without saying: 80 for http and ws, 443 for https and wss. */
  ghost predicate UsualPort(scheme: string, port: int) {
    (scheme in ["http", "ws"] && port == 80) || (scheme in ["https", "wss"] && port == 443)
  }

  lemma {:induction false} UsualPortExactly(scheme: string, port: int)
    requires port > 0
    ensures port == DefaultPort(scheme) <==> UsualPort(scheme, port)
  {
    assert ["http", "ws"][0] in ["http", "ws"] && ["http", "ws"][1] in ["http", "ws"];
    assert ["https", "wss"][0] in ["https", "wss"] && ["https", "wss"][1] in ["https", "wss"];
  }

  /** The rule covers the URL: it lists the scheme, covers the host, lists the port or, if it lists
      none, the port is the usual one; the path begins with its prefix, and its pattern, if any, is
      found in the path; and it lists the method, if both rule and request name any. */
  ghost predicate CoversUrl(lib: Library, r: Rule, u: Url) {
    && u.scheme in r.schemes && Covers(lib, r.host, u.host)
    && (if r.ports.Some? then u.port in r.ports.value else UsualPort(u.scheme, u.port))
    && (exists rest :: u.path == r.pathPrefix + rest)
    && (r.pathRegex.Some? ==>
          lib.compile(r.pathRegex.value).Some? && lib.compile(r.pathRegex.value).value(u.path))
    && (r.methods.Some? && u.verb != "" ==> u.verb in r.methods.value)
  }

  lemma {:induction false} PrefixExactly(path: string, prefix: string)
    ensures StartsWith(path, prefix) <==> exists rest :: path == prefix + rest
  {
    if StartsWith(path, prefix) {
      assert path == prefix + path[|prefix|..];
    }
  }

  /** A rule matches exactly what it covers. */
  lemma {:induction false} MatchExactly(lib: Library, r: Rule, u: Url)
    requires u.port > 0
    ensures MatchRule(lib, r, u) == Yes <==> CoversUrl(lib, r, u)
  {
    HostExactly(lib, r.host, u.host);
    UsualPortExactly(u.scheme, u.port);
    PrefixExactly(u.path, r.pathPrefix);
    ReachesExactly(lib, r, u);
  }

  lemma {:induction false} ReachesExactly(lib: Library, r: Rule, u: Url)
    requires (HostMatches(lib, r.host, u.host) <==> Covers(lib, r.host, u.host)) && u.port > 0
    requires u.port == DefaultPort(u.scheme) <==> UsualPort(u.scheme, u.port)
    ensures Reaches(lib, r, r.schemes, u) <==>
              && u.scheme in r.schemes && Covers(lib, r.host, u.host) && StartsWith(u.path, r.pathPrefix)
              && (if r.ports.Some? then u.port in r.ports.value else UsualPort(u.scheme, u.port))
  {
  }

  // ----- the decision

  ghost predicate PrivateHost(lib: Library, host: string) {
    exists a :: lib.address(host) == Some(a) && lib.isPrivate(a)
  }

  /** Some rule of the kind covers the URL. */
  ghost predicate SomeCovers(lib: Library, rules: seq<Rule>, kind: Kind, u: Url) {
    exists r :: r in rules && r.kind == kind && CoversUrl(lib, r, u)
  }

  lemma {:induction false} CoveredIs(lib: Library, rules: seq<Rule>, kind: Kind, u: Url)
    requires u.port > 0
    ensures Covered(lib, rules, kind, u) <==> SomeCovers(lib, rules, kind, u)
  {
    forall r ensures Matcher(lib, u)(r) == Yes <==> CoversUrl(lib, r, u) {
      MatchExactly(lib, r, u);
    }
  }

  lemma {:induction false} GuardIs(lib: Library, rules: seq<Rule>, host: string)
    ensures Guarded(lib, rules, host) <==>
            PrivateHost(lib, host) && forall r :: r in rules ==> !PrivateHost(lib, r.host) && '/' !in r.host
  {
    OptInMeans(lib, rules);
    forall h ensures IsPrivateLiteral(lib, h) <==> PrivateHost(lib, h) {
    }
  }

  /** What is allowed, with patterns that compile: the target is authorized; the URL names no private
      address, or some rule names one or a block; no exclude rule covers it, and some include rule
      does. */
  lemma {:induction false} AllowedMeans(lib: Library, rules: seq<Rule>, authorized: bool, u: Url)
    requires Compiles(lib, rules) && u.port > 0
    ensures Allowed(CheckUrl(lib, rules, authorized, Some(u))) <==>
              && authorized
              && (PrivateHost(lib, u.host) ==> exists r :: r in rules && (PrivateHost(lib, r.host) || '/' in r.host))
              && !SomeCovers(lib, rules, EXCLUDE, u) && SomeCovers(lib, rules, INCLUDE, u)
  {
    AllowedExactly(lib, rules, authorized, u);
    CoveredIs(lib, rules, EXCLUDE, u);
    CoveredIs(lib, rules, INCLUDE, u);
    GuardIs(lib, rules, u.host);
  }

  // ----- the parsed URL

  ghost predicate OnlyDots(s: string) {
    forall c :: c in s ==> c == '.'
  }

  lemma {:induction false} TrimExactly(s: string)
    ensures exists dots :: OnlyDots(dots) && s == TrimDots(s) + dots
    ensures TrimDots(s) != "" ==> TrimDots(s)[|TrimDots(s)| - 1] != '.'
  {
    var isDot := (c: char) => c == '.';
    if s != "" && s[|s| - 1] == '.' {
      var front := s[..|s| - 1];
      TrimExactly(front);
      assert StripRight(s, isDot) == StripRight(front, isDot);
      TrimSame(s, front);
      var dots :| OnlyDots(dots) && front == TrimDots(front) + dots;
      assert OnlyDots(dots + ".") && s == TrimDots(s) + (dots + ".");
    } else {
      assert OnlyDots("") && TrimDots(s) == s && s == s + "";
    }
  }

  lemma {:induction false} TrimSame(s: string, front: string)
    requires s == front + "."
    ensures TrimDots(s) == TrimDots(front)
  {
    assert s[..|s| - 1] == front;
  }

  /** What a split URL becomes: scheme and host in lower case, the host without final dots; the port
      that is given, and not 0, or else the usual one, without which the URL is refused; and the path
      as it is written, "/" for none. */
  lemma {:induction false} ParseExactly(parts: Parts, verb: string, u: Url)
    ensures Parse(parts, verb) == Some(u) ==>
              && parts.scheme != "" && parts.hostname != "" && u.scheme == ToLower(parts.scheme) && u.port > 0
              && (exists dots :: OnlyDots(dots) && ToLower(parts.hostname) == u.host + dots)
              && (u.host != "" ==> u.host[|u.host| - 1] != '.')
              && (if parts.port.Port? && parts.port.number != 0 then u.port == parts.port.number
                  else !parts.port.BadPort? && UsualPort(u.scheme, u.port))
              && u.path == (if parts.path == "" then "/" else parts.path) && u.verb == ToUpper(verb)
    ensures Parse(parts, verb).None? <==>
              || parts.scheme == "" || parts.hostname == "" || parts.port.BadPort?
              || ((parts.port.NoPort? || parts.port == Port(0))
                  && ToLower(parts.scheme) !in ["http", "ws", "https", "wss"])
  {
    TrimExactly(ToLower(parts.hostname));
    if Parse(parts, verb).Some? {
      UsualPortExactly(ToLower(parts.scheme), Parse(parts, verb).value.port);
    }
    var usual := ["http", "ws", "https", "wss"];
    assert usual[0] in usual && usual[1] in usual && usual[2] in usual && usual[3] in usual;
  }
}

/** The scope decision, as the orchestrator's own engine takes it. */
module ScopeRules {
  import opened Wrappers
  import opened Text

  datatype Kind = INCLUDE | EXCLUDE

  /** A rule as its validators leave it. */
  datatype Rule = Rule(
    kind: Kind, host: string, schemes: seq<string>, ports: Option<seq<int>>, pathPrefix: string,
    pathRegex: Option<string>,
    methods: Option<seq<string>>)

  datatype Port = NoPort | Port(number: nat) | BadPort

  /** A URL as the library splits it; an absent host is the empty string.  `path` is as written,
      `decodedPath` with percent escapes resolved. */
  datatype Parts = Parts(scheme: string, hostname: string, port: Port, path: string, decodedPath: string)

  /** `verb` is empty when none is given. */
  datatype Url = Url(scheme: string, host: string, port: int, path: string, verb: string)

  /** A block of IPv4 addresses: those that agree with `base` but for the last `free` bits. */
  datatype Block = Block(base: nat, free: nat)

  /** What a language's libraries know: addresses, blocks, which addresses are private, and
      regular expressions (None for a pattern that does not compile). */
  datatype Library = Library(
    address: string -> Option<nat>, block: string -> Option<Block>, isPrivate: nat -> bool,
    compile: string -> Option<string -> bool>)

  datatype Decision =
    | Unauthorized | Unparseable | PrivateAddress | Excluded(rule: nat) | Included(rule: nat) | NotCovered | BadPattern

  function Pow2(n: nat): (r: nat)
    ensures r > 0
  {
    if n == 0 then 1 else 2 * Pow2(n - 1)
  }

  predicate InBlock(a: nat, b: Block) {
    a / Pow2(b.free) == b.base / Pow2(b.free)
  }

  function DefaultPort(scheme: string): int {
    if scheme == "http" || scheme == "ws" then 80 else if scheme == "https" || scheme == "wss" then 443 else 0
  }

  function TrimDots(s: string): string {
    StripRight(s, (c: char) => c == '.')
  }

  function PathOr(path: string): string {
    if path == "" then "/" else path
  }

  /** An explicit port 0 counts as no port. */
  function Parse(parts: Parts, verb: string): Option<Url> {
    if parts.scheme == "" || parts.hostname == "" || parts.port.BadPort? then None
    else
      var scheme := ToLower(parts.scheme);
      var port := if parts.port.Port? && parts.port.number != 0 then parts.port.number else DefaultPort(scheme);
      if port == 0 then None
      else Some(Url(scheme, TrimDots(ToLower(parts.hostname)), port, PathOr(parts.path), ToUpper(verb)))
  }

  predicate IsWildcard(ruleHost: string) {
    StartsWith(ruleHost, "*.")
  }

  predicate HostMatches(lib: Library, ruleHost: string, host: string) {
    if ruleHost == host then true
    else if IsWildcard(ruleHost) then EndsWith(host, ruleHost[1..]) && host != ruleHost[2..]
    else if lib.address(host).None? then false
    else if '/' in ruleHost
      then lib.block(ruleHost).Some? && InBlock(lib.address(host).value, lib.block(ruleHost).value)
    else lib.address(ruleHost) == lib.address(host)
  }

  predicate IsPrivateLiteral(lib: Library, host: string) {
    lib.address(host).Some? && lib.isPrivate(lib.address(host).value)
  }

  predicate AllowsPrivate(lib: Library, rule: Rule) {
    IsPrivateLiteral(lib, rule.host) || '/' in rule.host
  }

  predicate OptIn(lib: Library, rules: seq<Rule>) {
    exists i :: 0 <= i < |rules| && AllowsPrivate(lib, rules[i])
  }

  // ----- one rule

  predicate PortMatches(rule: Rule, u: Url) {
    if rule.ports.Some? then u.port in rule.ports.value
    else u.port == (if DefaultPort(u.scheme) == 0 then -1 else DefaultPort(u.scheme))
  }

  predicate VerbMatches(rule: Rule, u: Url) {
    rule.methods.None? || u.verb == "" || u.verb in rule.methods.value
  }

  datatype Outcome = No | Yes | Raise

  /** Everything before the regular expression, for the given schemes. */
  predicate Reaches(lib: Library, rule: Rule, schemes: seq<string>, u: Url) {
    && u.scheme in schemes
    && HostMatches(lib, rule.host, u.host)
    && PortMatches(rule, u)
    && StartsWith(u.path, rule.pathPrefix)
  }

  function RegexOutcome(lib: Library, rule: Rule, u: Url): Outcome {
    if rule.pathRegex.None? then Yes
    else
      match lib.compile(rule.pathRegex.value)
      case None => Raise
      case Some(search) => if search(u.path) then Yes else No
  }

  /** A pattern that does not compile raises when it is reached. */
  function MatchRule(lib: Library, rule: Rule, u: Url): Outcome {
    if !Reaches(lib, rule, rule.schemes, u) then No
    else if RegexOutcome(lib, rule, u) != Yes then RegexOutcome(lib, rule, u)
    else if VerbMatches(rule, u) then Yes else No
  }

  // ----- the decision

  datatype Search = Nothing | At(rule: nat) | Broken

  /** The first rule of a kind, from index `i`, that matches or raises. */
  function Find(rules: seq<Rule>, kind: Kind, matches: Rule -> Outcome, i: nat): Search
    requires i <= |rules|
    decreases |rules| - i
  {
    if i == |rules| then Nothing
    else if rules[i].kind != kind || matches(rules[i]) == No then Find(rules, kind, matches, i + 1)
    else if matches(rules[i]) == Raise then Broken
    else At(i)
  }

  function Decide(rules: seq<Rule>, matches: Rule -> Outcome): Decision {
    match Find(rules, EXCLUDE, matches, 0)
    case Broken => BadPattern
    case At(i) => Excluded(i)
    case Nothing =>
      match Find(rules, INCLUDE, matches, 0)
      case Broken => BadPattern
      case At(i) => Included(i)
      case Nothing => NotCovered
  }

  function Matcher(lib: Library, u: Url): Rule -> Outcome {
    (r: Rule) => MatchRule(lib, r, u)
  }

  predicate Guarded(lib: Library, rules: seq<Rule>, host: string) {
    IsPrivateLiteral(lib, host) && !OptIn(lib, rules)
  }

  function CheckUrl(lib: Library, rules: seq<Rule>, authorized: bool, u: Option<Url>): Decision {
    if !authorized then Unauthorized
    else if u.None? then Unparseable
    else if Guarded(lib, rules, u.value.host) then PrivateAddress
    else Decide(rules, Matcher(lib, u.value))
  }

  function Check(lib: Library, rules: seq<Rule>, authorized: bool, parts: Parts, verb: string): Decision {
    CheckUrl(lib, rules, authorized, Parse(parts, verb))
  }

  predicate Allowed(d: Decision) {
    d.Included?
  }
}

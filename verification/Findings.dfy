/** Evidence, observations and unified findings, and the key that groups them. */
module Findings {
  import opened Wrappers
  import opened Text

  datatype Severity = INFO | LOW | MEDIUM | HIGH | CRITICAL

  datatype Confidence = TENTATIVE | FIRM | CONFIRMED | FALSE_POSITIVE

  function SeverityRank(s: Severity): int {
    match s
    case INFO => 0
    case LOW => 1
    case MEDIUM => 2
    case HIGH => 3
    case CRITICAL => 4
  }

  function ConfidenceRank(c: Confidence): int {
    match c
    case FALSE_POSITIVE => -1
    case TENTATIVE => 0
    case FIRM => 1
    case CONFIRMED => 2
  }

  datatype EvidenceKind =
    | HttpExchange | ResponseMatch | DomObservation | OobInteraction | TlsObservation | HeaderObservation
    | ValidationResult | Note

  /** `digest` is the content hash, `url` the URL an endpoint note carries in its data. */
  datatype Evidence = Evidence(kind: EvidenceKind, engineId: string, summary: string, matched: seq<string>,
      url: Option<string>, digest: string)

  datatype Location = Location(scheme: string, host: string, port: int, path: string, verb: Option<string>,
      parameter: Option<string>)

  datatype Observation = Observation(
    id: string, engineId: string, detectorId: string, title: string, vulnClass: string, severity: Severity,
    confidence: Confidence, cwe: seq<int>, location: Location, description: string, references: seq<string>,
    evidence: seq<Evidence>, observedAt: int)

  // ----- normalizing a path

  function SplitPath(s: string): (segs: seq<string>)
    ensures |segs| > 0
    ensures forall i :: 0 <= i < |segs| ==> '/' !in segs[i]
  {
    if s == "" then [""]
    else
      var rest := SplitPath(s[1..]);
      if s[0] == '/' then [""] + rest else [[s[0]] + rest[0]] + rest[1..]
  }

  function JoinPath(segs: seq<string>): string
    requires |segs| > 0
  {
    if |segs| == 1 then segs[0] else segs[0] + "/" + JoinPath(segs[1..])
  }

  predicate IsDigit(c: char) {
    '0' <= c <= '9'
  }

  predicate IsHex(c: char) {
    IsDigit(c) || 'a' <= c <= 'f' || 'A' <= c <= 'F'
  }

  predicate All(s: string, p: char -> bool) {
    forall i :: 0 <= i < |s| ==> p(s[i])
  }

  /** The patterns end in `$`, which also matches before one final line feed. */
  function Body(seg: string): string {
    if seg != "" && seg[|seg| - 1] == '\n' then seg[..|seg| - 1] else seg
  }

  predicate IsNumeric(seg: string) {
    Body(seg) != "" && All(Body(seg), IsDigit)
  }

  predicate IsHexLike(seg: string) {
    |Body(seg)| >= 8 && All(Body(seg), IsHex)
  }

  predicate IsUuid(seg: string) {
    var b := Body(seg);
    |b| == 36 && forall i :: 0 <= i < 36 ==> if i in {8, 13, 18, 23} then b[i] == '-' else IsHex(b[i])
  }

  function NormalizeSegment(seg: string): string {
    if seg == "" then seg
    else if IsUuid(seg) then "{uuid}"
    else if IsNumeric(seg) then "{id}"
    else if IsHexLike(seg) then "{hash}"
    else seg
  }

  function NormalizeSegments(segs: seq<string>): (r: seq<string>)
    ensures |r| == |segs|
    ensures forall i :: 0 <= i < |r| ==> r[i] == NormalizeSegment(segs[i])
  {
    seq(|segs|, i requires 0 <= i < |segs| => NormalizeSegment(segs[i]))
  }

  function NormalizeEndpoint(path: string): string {
    var norm := JoinPath(NormalizeSegments(SplitPath(path)));
    if norm == "" then "/" else norm
  }

  lemma {:induction false} SegmentsSnoc(segs: seq<string>, seg: string)
    ensures NormalizeSegments(segs + [seg]) == NormalizeSegments(segs) + [NormalizeSegment(seg)]
  {
  }

  method NormalizePath(path: string) returns (norm: string)
    ensures norm == NormalizeEndpoint(path)
  {
    var segs, out := SplitPath(path), [];
    var i := 0;
    while i < |segs|
      invariant 0 <= i <= |segs| && out == NormalizeSegments(segs[..i])
    {
      var seg := segs[i];
      assert segs[..i + 1] == segs[..i] + [seg];
      SegmentsSnoc(segs[..i], seg);
      if seg == "" {
        out := out + [seg];
      } else if IsUuid(seg) {
        out := out + ["{uuid}"];
      } else if IsNumeric(seg) {
        out := out + ["{id}"];
      } else if IsHexLike(seg) {
        out := out + ["{hash}"];
      } else {
        out := out + [seg];
      }
      i := i + 1;
    }
    assert segs[..|segs|] == segs;
    norm := JoinPath(out);
    if norm == "" {
      norm := "/";
    }
  }

  lemma {:induction false} SplitOfSegment(seg: string, tail: string)
    requires '/' !in seg
    ensures tail == "" ==> SplitPath(seg) == [seg]
    ensures tail != "" && tail[0] == '/' ==> SplitPath(seg + tail) == [seg] + SplitPath(tail[1..])
  {
    if seg == "" {
      assert seg + tail == tail;
    } else {
      assert (seg + tail)[1..] == seg[1..] + tail;
      SplitOfSegment(seg[1..], tail);
      assert seg == [seg[0]] + seg[1..];
    }
  }

  lemma {:induction false} SplitOfJoin(segs: seq<string>)
    requires |segs| > 0 && forall i :: 0 <= i < |segs| ==> '/' !in segs[i]
    ensures SplitPath(JoinPath(segs)) == segs
  {
    if |segs| == 1 {
      SplitOfSegment(segs[0], "");
    } else {
      var tail := "/" + JoinPath(segs[1..]);
      assert JoinPath(segs) == segs[0] + tail && tail[1..] == JoinPath(segs[1..]);
      SplitOfSegment(segs[0], tail);
      SplitOfJoin(segs[1..]);
    }
  }

  lemma {:induction false} SegmentStays(seg: string)
    requires '/' !in seg
    ensures '/' !in NormalizeSegment(seg) && NormalizeSegment(NormalizeSegment(seg)) == NormalizeSegment(seg)
    ensures NormalizeSegment(seg) == "" <==> seg == ""
  {
    assert "{uuid}"[0] == '{' && "{id}"[0] == '{' && "{hash}"[0] == '{';
  }

  lemma {:induction false} SegmentsStay(segs: seq<string>)
    requires |segs| > 0 && forall i :: 0 <= i < |segs| ==> '/' !in segs[i]
    ensures var n := NormalizeSegments(segs);
            SplitPath(JoinPath(n)) == n && NormalizeSegments(n) == n
  {
    var n := NormalizeSegments(segs);
    forall i | 0 <= i < |segs| ensures '/' !in n[i] && NormalizeSegment(n[i]) == n[i] {
      SegmentStays(segs[i]);
    }
    SplitOfJoin(n);
  }

  lemma {:induction false} SplitIsEmpty(path: string)
    ensures SplitPath(path) == [""] <==> path == ""
  {
    if path != "" {
      assert |SplitPath(path)| > 1 || SplitPath(path)[0] != "";
    }
  }

  lemma {:induction false} EmptyPath()
    ensures NormalizeEndpoint("") == "/" && NormalizeEndpoint("/") == "/"
    ensures |SplitPath("")| == 1 && |SplitPath("/")| == 2
  {
    assert SplitPath("/") == ["", ""];
    assert NormalizeSegments([""]) == [""] && NormalizeSegments(["", ""]) == ["", ""];
    assert JoinPath(["", ""]) == "/";
  }

  /** Normalizing is idempotent, and keeps the number of segments except that the empty path
      becomes "/", which has two. */
  lemma {:induction false} NormalizeIsIdempotent(path: string)
    ensures NormalizeEndpoint(NormalizeEndpoint(path)) == NormalizeEndpoint(path)
    ensures |SplitPath(NormalizeEndpoint(path))| == |SplitPath(path)| <==> path != ""
  {
    EmptyPath();
    if path != "" {
      var segs := SplitPath(path);
      var n := NormalizeSegments(segs);
      SegmentsStay(segs);
      SplitIsEmpty(path);
      SegmentStays(segs[0]);
      assert |segs| == 1 ==> segs == [segs[0]];
      assert NormalizeSegment(segs[0]) == n[0];
      assert JoinPath(n) == NormalizeEndpoint(path);
    }
  }

  // ----- the fingerprint

  function Digit(d: nat): char
    requires d < 10
  {
    ['0', '1', '2', '3', '4', '5', '6', '7', '8', '9'][d]
  }

  function NatText(n: nat): (s: string)
    ensures s != ""
  {
    if n < 10 then [Digit(n)] else NatText(n / 10) + [Digit(n % 10)]
  }

  function IntText(n: int): string {
    if n < 0 then "-" + NatText(-n) else NatText(n)
  }

  function OrStar(s: Option<string>): string {
    if s.None? || s.value == "" then "*" else s.value
  }

  /** The text that is hashed; the hash itself is `Correlation.Hash`, a parameter. */
  function Fingerprint(category: string, loc: Location): string {
    Piped([category, loc.host, IntText(loc.port), NormalizeEndpoint(loc.path), OrStar(loc.verb), OrStar(loc.parameter)])
  }

  /** The parts with the separator between them. */
  function Piped(parts: seq<string>): string {
    if parts == [] then "" else if |parts| == 1 then parts[0] else parts[0] + "|" + Piped(parts[1..])
  }

  lemma {:induction false} PipedCons(part: string, rest: seq<string>)
    requires rest != []
    ensures Piped([part] + rest) == part + "|" + Piped(rest)
  {
    assert ([part] + rest)[1..] == rest;
  }

  lemma {:induction false} PipedSix(a: string, b: string, c: string, d: string, e: string, f: string)
    ensures Piped([a, b, c, d, e, f]) == a + "|" + (b + "|" + (c + "|" + (d + "|" + (e + "|" + f))))
  {
    assert [a, b, c, d, e, f] == [a] + [b, c, d, e, f];
    assert [b, c, d, e, f] == [b] + [c, d, e, f];
    assert [c, d, e, f] == [c] + [d, e, f];
    assert [d, e, f] == [d] + [e, f];
    assert [e, f] == [e] + [f];
    PipedCons(a, [b, c, d, e, f]);
    PipedCons(b, [c, d, e, f]);
    PipedCons(c, [d, e, f]);
    PipedCons(d, [e, f]);
    PipedCons(e, [f]);
  }

  lemma {:induction false} FingerprintIs(category: string, loc: Location)
    ensures Fingerprint(category, loc) == category + "|" + (loc.host + "|" + (IntText(loc.port) + "|" + Tail(loc)))
  {
    PipedSix(category, loc.host, IntText(loc.port), NormalizeEndpoint(loc.path), OrStar(loc.verb),
        OrStar(loc.parameter));
  }

  predicate PipeFree(s: string) {
    '|' !in s
  }

  lemma {:induction false} NatTextIsDigits(n: nat)
    ensures All(NatText(n), IsDigit)
  {
    if n >= 10 {
      NatTextIsDigits(n / 10);
    }
  }

  lemma {:induction false} NatTextIsInjective(a: nat, b: nat)
    requires NatText(a) == NatText(b)
    ensures a == b
    decreases a
  {
    var s, t := NatText(a), NatText(b);
    assert s[|s| - 1] == t[|t| - 1];
    if a >= 10 && b >= 10 {
      assert s[..|s| - 1] == NatText(a / 10) && t[..|t| - 1] == NatText(b / 10);
      NatTextIsInjective(a / 10, b / 10);
    }
  }

  lemma {:induction false} IntTextIsInjective(a: int, b: int)
    requires IntText(a) == IntText(b)
    ensures a == b
  {
    NatTextIsDigits(if a < 0 then -a else a);
    NatTextIsDigits(if b < 0 then -b else b);
    assert IsDigit(NatText(if a < 0 then -a else a)[0]) && IsDigit(NatText(if b < 0 then -b else b)[0]);
    assert IntText(a)[0] == IntText(b)[0];
    if a < 0 {
      assert IntText(a)[1..] == NatText(-a) && IntText(b)[1..] == NatText(-b);
      NatTextIsInjective(-a, -b);
    } else {
      NatTextIsInjective(a, b);
    }
  }

  lemma {:induction false} IntTextIsPipeFree(n: int)
    ensures PipeFree(IntText(n))
  {
    NatTextIsDigits(if n < 0 then -n else n);
  }

  function FirstPipeAt(s: string): nat {
    if s == "" || s[0] == '|' then 0 else 1 + FirstPipeAt(s[1..])
  }

  function LastPipeAt(s: string): int {
    if s == "" || s[|s| - 1] == '|' then |s| - 1 else LastPipeAt(s[..|s| - 1])
  }

  lemma {:induction false} FirstPipeAfter(a: string, x: string)
    requires PipeFree(a)
    ensures FirstPipeAt(a + "|" + x) == |a|
  {
    if a != "" {
      assert (a + "|" + x)[1..] == a[1..] + "|" + x;
      FirstPipeAfter(a[1..], x);
    }
  }

  lemma {:induction false} LastPipeBefore(x: string, a: string)
    requires PipeFree(a)
    ensures LastPipeAt(x + "|" + a) == |x|
  {
    if a != "" {
      var n := |a| - 1;
      assert (x + "|" + a)[..|x| + 1 + n] == x + "|" + a[..n];
      LastPipeBefore(x, a[..n]);
    }
  }

  lemma {:induction false} FirstPipe(a: string, x: string, b: string, y: string)
    requires PipeFree(a) && PipeFree(b) && a + "|" + x == b + "|" + y
    ensures a == b && x == y
  {
    FirstPipeAfter(a, x);
    FirstPipeAfter(b, y);
    var s, t := a + "|" + x, b + "|" + y;
    assert s[..|a|] == a && s[|a| + 1..] == x && t[..|b|] == b && t[|b| + 1..] == y;
  }

  lemma {:induction false} LastPipe(x: string, a: string, y: string, b: string)
    requires PipeFree(a) && PipeFree(b) && x + "|" + a == y + "|" + b
    ensures a == b && x == y
  {
    LastPipeBefore(x, a);
    LastPipeBefore(y, b);
    var s, t := x + "|" + a, y + "|" + b;
    assert s[..|x|] == x && s[|x| + 1..] == a && t[..|y|] == y && t[|y| + 1..] == b;
  }

  function Tail(loc: Location): string {
    NormalizeEndpoint(loc.path) + "|" + (OrStar(loc.verb) + "|" + OrStar(loc.parameter))
  }

  /** Whatever a path or a parameter contains, equal fingerprints mean the same class, host
      and port, for host names free of the separator. */
  lemma {:induction false} SameFingerprintSameHost(a: string, l: Location, b: string, m: Location)
    requires PipeFree(a) && PipeFree(b) && PipeFree(l.host) && PipeFree(m.host)
    ensures Fingerprint(a, l) == Fingerprint(b, m) <==>
            a == b && l.host == m.host && l.port == m.port && Tail(l) == Tail(m)
  {
    FingerprintIs(a, l);
    FingerprintIs(b, m);
    IntTextIsPipeFree(l.port);
    IntTextIsPipeFree(m.port);
    if Fingerprint(a, l) == Fingerprint(b, m) {
      FirstPipe(a, l.host + "|" + (IntText(l.port) + "|" + Tail(l)), b,
          m.host + "|" + (IntText(m.port) + "|" + Tail(m)));
      FirstPipe(l.host, IntText(l.port) + "|" + Tail(l), m.host, IntText(m.port) + "|" + Tail(m));
      FirstPipe(IntText(l.port), Tail(l), IntText(m.port), Tail(m));
      IntTextIsInjective(l.port, m.port);
    }
  }

  /** The class can be read off the fingerprint, whatever hosts, paths and parameters contain. */
  lemma {:induction false} SameFingerprintSameClass(a: string, l: Location, b: string, m: Location)
    requires PipeFree(a) && PipeFree(b) && Fingerprint(a, l) == Fingerprint(b, m)
    ensures a == b
  {
    FingerprintIs(a, l);
    FingerprintIs(b, m);
    FirstPipe(a, l.host + "|" + (IntText(l.port) + "|" + Tail(l)), b, m.host + "|" + (IntText(m.port) + "|" + Tail(m)));
  }

  lemma {:induction false} JoinKeepsPipeFree(segs: seq<string>)
    requires |segs| > 0 && forall i :: 0 <= i < |segs| ==> PipeFree(segs[i])
    ensures PipeFree(JoinPath(segs))
  {
    if |segs| > 1 {
      JoinKeepsPipeFree(segs[1..]);
    }
  }

  lemma {:induction false} SplitKeepsPipeFree(path: string)
    requires PipeFree(path)
    ensures forall i :: 0 <= i < |SplitPath(path)| ==> PipeFree(SplitPath(path)[i])
  {
    if path != "" {
      SplitKeepsPipeFree(path[1..]);
    }
  }

  lemma {:induction false} EndpointIsPipeFree(path: string)
    requires PipeFree(path)
    ensures PipeFree(NormalizeEndpoint(path))
  {
    SplitKeepsPipeFree(path);
    var segs := SplitPath(path);
    forall i | 0 <= i < |segs| ensures PipeFree(NormalizeSegment(segs[i])) {
      assert PipeFree("{uuid}") && PipeFree("{id}") && PipeFree("{hash}");
    }
    JoinKeepsPipeFree(NormalizeSegments(segs));
  }

  /** With paths and parameters free of the separator as well, the fingerprint determines and
      is determined by class, host, port, endpoint, method-or-* and parameter-or-*. */
  lemma {:induction false} SameFingerprintExactly(a: string, l: Location, b: string, m: Location)
    requires PipeFree(a) && PipeFree(b) && PipeFree(l.host) && PipeFree(m.host)
    requires PipeFree(l.path) && PipeFree(m.path) && PipeFree(OrStar(l.parameter)) && PipeFree(OrStar(m.parameter))
    ensures Fingerprint(a, l) == Fingerprint(b, m) <==>
              && a == b && l.host == m.host && l.port == m.port
              && NormalizeEndpoint(l.path) == NormalizeEndpoint(m.path)
              && OrStar(l.verb) == OrStar(m.verb) && OrStar(l.parameter) == OrStar(m.parameter)
  {
    SameFingerprintSameHost(a, l, b, m);
    EndpointIsPipeFree(l.path);
    EndpointIsPipeFree(m.path);
    if Tail(l) == Tail(m) {
      FirstPipe(NormalizeEndpoint(l.path), OrStar(l.verb) + "|" + OrStar(l.parameter),
                NormalizeEndpoint(m.path), OrStar(m.verb) + "|" + OrStar(m.parameter));
      LastPipe(OrStar(l.verb), OrStar(l.parameter), OrStar(m.verb), OrStar(m.parameter));
    }
  }

  // ----- collisions

  predicate SamePlace(l: Location, m: Location) {
    && NormalizeEndpoint(l.path) == NormalizeEndpoint(m.path)
    && OrStar(l.verb) == OrStar(m.verb) && OrStar(l.parameter) == OrStar(m.parameter)
  }

  /** A plain host, and a verb in upper case as the validator leaves it. */
  predicate Validated(l: Location) {
    PipeFree(l.host) && ToUpper(OrStar(l.verb)) == OrStar(l.verb)
  }

  /** The text reads as an endpoint, a verb and a parameter, separated at `i` and `j`. */
  predicate CutAt(t: string, i: int, j: int) {
    && 0 <= i && i + 1 < j < |t| - 1 && t[i] == '|' && t[j] == '|'
    && NormalizeEndpoint(t[..i]) == t[..i] && ToUpper(t[i + 1..j]) == t[i + 1..j]
  }

  function FirstCut(l: Location): int {
    |NormalizeEndpoint(l.path)|
  }

  function SecondCut(l: Location): int {
    |NormalizeEndpoint(l.path)| + 1 + |OrStar(l.verb)|
  }

  lemma {:induction false} TailParts(e: string, v: string, p: string, t: string)
    requires t == e + "|" + (v + "|" + p)
    ensures var i, j := |e|, |e| + 1 + |v|;
            |t| == j + 1 + |p| && t[i] == '|' && t[j] == '|' && t[..i] == e && t[i + 1..j] == v && t[j + 1..] == p
  {
  }

  lemma {:induction false} OwnCut(l: Location)
    requires Validated(l)
    ensures CutAt(Tail(l), FirstCut(l), SecondCut(l))
  {
    NormalizeIsIdempotent(l.path);
    TailParts(NormalizeEndpoint(l.path), OrStar(l.verb), OrStar(l.parameter), Tail(l));
  }

  lemma {:induction false} SameCutSamePlace(l: Location, m: Location)
    requires Tail(l) == Tail(m)
    ensures SamePlace(l, m) <==> FirstCut(l) == FirstCut(m) && SecondCut(l) == SecondCut(m)
  {
    TailParts(NormalizeEndpoint(l.path), OrStar(l.verb), OrStar(l.parameter), Tail(l));
    TailParts(NormalizeEndpoint(m.path), OrStar(m.verb), OrStar(m.parameter), Tail(m));
  }

  function PlaceAt(l: Location, t: string, i: int, j: int): Location
    requires CutAt(t, i, j)
  {
    l.(path := t[..i], verb := Some(t[i + 1..j]), parameter := Some(t[j + 1..]))
  }

  lemma {:induction false} PartsOfText(t: string, i: int, j: int)
    requires 0 <= i < j < |t| && t[i] == '|' && t[j] == '|'
    ensures t == t[..i] + "|" + (t[i + 1..j] + "|" + t[j + 1..])
  {
  }

  lemma {:induction false} PlaceAtHasTail(l: Location, t: string, i: int, j: int, m: Location)
    requires PipeFree(l.host) && CutAt(t, i, j) && m == PlaceAt(l, t, i, j)
    ensures Validated(m) && Tail(m) == t && FirstCut(m) == i && SecondCut(m) == j
  {
    PartsOfText(t, i, j);
    assert NormalizeEndpoint(m.path) == t[..i] && OrStar(m.verb) == t[i + 1..j] && OrStar(m.parameter) == t[j + 1..];
  }

  /** Exactly which places share their fingerprint with another place: those whose endpoint,
      verb and parameter, written one after the other, can be cut elsewhere. */
  lemma {:induction false} CollidesExactly(category: string, l: Location)
    requires PipeFree(category) && Validated(l)
    ensures (exists m :: Validated(m) && Fingerprint(category, m) == Fingerprint(category, l) && !SamePlace(l, m)) <==>
              exists i, j :: CutAt(Tail(l), i, j) && (i != FirstCut(l) || j != SecondCut(l))
  {
    if m :| Validated(m) && Fingerprint(category, m) == Fingerprint(category, l) && !SamePlace(l, m) {
      SameFingerprintSameHost(category, m, category, l);
      OwnCut(m);
      SameCutSamePlace(l, m);
    }
    if i, j :| CutAt(Tail(l), i, j) && (i != FirstCut(l) || j != SecondCut(l)) {
      var m := PlaceAt(l, Tail(l), i, j);
      PlaceAtHasTail(l, Tail(l), i, j, m);
      SameFingerprintSameHost(category, m, category, l);
      SameCutSamePlace(l, m);
    }
  }

  lemma {:induction false} CollidingTails(l: Location, m: Location)
    requires l.path == "/a|*" && l.verb == None && l.parameter == Some("x")
    requires m.path == "/a" && m.verb == None && m.parameter == Some("*|x")
    ensures NormalizeEndpoint(l.path) == "/a|*" && NormalizeEndpoint(m.path) == "/a" && Tail(l) == Tail(m)
  {
    assert "/" + "a|*" == "/a|*" && "/" + "a" == "/a";
    PlainEndpoint("a|*");
    PlainEndpoint("a");
    assert "/a|*" + "|" + ("*" + "|" + "x") == "/a" + "|" + ("*" + "|" + "*|x");
  }

  /** Such places exist. */
  lemma {:induction false} SeparatorInPathCollides(category: string, l: Location, m: Location)
    requires l.path == "/a|*" && l.verb == None && l.parameter == Some("x")
    requires m == l.(path := "/a", parameter := Some("*|x"))
    ensures NormalizeEndpoint(l.path) != NormalizeEndpoint(m.path)
            && Fingerprint(category, l) == Fingerprint(category, m)
  {
    CollidingTails(l, m);
    assert |"/a|*"| != |"/a"|;
    FingerprintIs(category, l);
    FingerprintIs(category, m);
  }

  lemma {:induction false} PlainEndpoint(seg: string)
    requires seg != "" && '/' !in seg && NormalizeSegment(seg) == seg
    ensures NormalizeEndpoint("/" + seg) == "/" + seg
  {
    SplitOfJoin(["", seg]);
    assert JoinPath(["", seg]) == "/" + seg;
    assert NormalizeSegments(["", seg]) == ["", seg];
  }
}

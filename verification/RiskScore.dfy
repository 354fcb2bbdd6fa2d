/** The 0-100 risk score of a finding.  Decimal constants are exact here; only the rounding to
    tenths is modelled, half to even. */
module RiskScore {
  import opened Findings
  import opened Correlation
  import Taxonomy

  function Base(s: Severity): real {
    match s
    case INFO => 5.0
    case LOW => 25.0
    case MEDIUM => 50.0
    case HIGH => 75.0
    case CRITICAL => 95.0
  }

  function Certainty(c: Confidence): real {
    match c
    case FALSE_POSITIVE => 0.0
    case TENTATIVE => 0.6
    case FIRM => 0.85
    case CONFIRMED => 1.0
  }

  function Corroboration(engines: nat): real {
    if engines >= 3 then 1.08 else if engines == 2 then 1.04 else 1.0
  }

  function Exposure(c: Taxonomy.Category): real {
    match c
    case SqlInjection => 1.10
    case CommandInjection => 1.10
    case CodeInjection => 1.10
    case InsecureDeserialization => 1.10
    case Ssrf => 1.08
    case Xxe => 1.06
    case BrokenObjectAuthz => 1.06
    case BrokenAccessControl => 1.06
    case SecretExposure => 1.05
    case Xss => 1.03
    case MissingSecurityHeader => 0.9
    case InformationDisclosure => 0.92
    case DirectoryListing => 0.92
    case Clickjacking => 0.9
    case _ => 1.0
  }

  function RoundHalfEven(x: real): int {
    var n := x.Floor;
    var rest := x - n as real;
    if rest < 0.5 then n else if rest > 0.5 then n + 1 else if n % 2 == 0 then n else n + 1
  }

  function RoundToTenths(x: real): real {
    RoundHalfEven(10.0 * x) as real / 10.0
  }

  function Clamp(x: real): real {
    if x < 0.0 then 0.0 else if x > 100.0 then 100.0 else x
  }

  function Product(a: real, b: real, c: real, d: real): real {
    a * b * c * d
  }

  function Raw(category: Taxonomy.Category, s: Severity, c: Confidence, engines: nat): real {
    Product(Base(s), Certainty(c), Corroboration(engines), Exposure(category))
  }

  function Score(category: Taxonomy.Category, s: Severity, c: Confidence, engines: nat): real {
    Clamp(RoundToTenths(Raw(category, s, c, engines)))
  }

  function ScoreOf(f: Finding): real {
    Score(f.category, f.severity, f.confidence, |f.engines|)
  }

  function Scored(f: Finding): Finding {
    f.(riskScore := ScoreOf(f))
  }

  method UpdateEach(findings: array<Finding>, update: Finding -> Finding)
    modifies findings
    ensures forall i :: 0 <= i < findings.Length ==> findings[i] == update(old(findings[i]))
  {
    for i := 0 to findings.Length
      invariant forall j :: 0 <= j < i ==> findings[j] == update(old(findings[j]))
      invariant forall j :: i <= j < findings.Length ==> findings[j] == old(findings[j])
    {
      findings[i] := update(findings[i]);
    }
  }

  /** The orchestrator's scoring loop writes the score into each finding in place. */
  method ApplyAll(findings: array<Finding>)
    modifies findings
    ensures forall i :: 0 <= i < findings.Length ==> findings[i] == Scored(old(findings[i]))
  {
    UpdateEach(findings, Scored);
  }

  lemma {:induction false} RoundIsMonotone(x: real, y: real)
    requires x <= y
    ensures RoundHalfEven(x) <= RoundHalfEven(y)
  {
    assert x.Floor <= y.Floor;
  }

  lemma {:induction false} RoundIsNear(x: real)
    ensures x - 0.5 <= RoundHalfEven(x) as real <= x + 0.5
  {
  }

  lemma {:induction false} TenthsAreMonotone(x: real, y: real)
    requires x <= y
    ensures RoundToTenths(x) <= RoundToTenths(y)
  {
    RoundIsMonotone(10.0 * x, 10.0 * y);
  }

  lemma {:induction false} ProductMonotone(a: real, b: real, c: real, d: real)
    requires 0.0 <= a <= b && 0.0 <= c <= d
    ensures 0.0 <= a * c <= b * d
  {
    assert (b - a) * c >= 0.0 && b * (d - c) >= 0.0 && a * c >= 0.0;
  }

  lemma {:induction false} ProductOfFour(a: real, b: real, c: real, d: real, e: real, f: real, g: real, h: real)
    requires 0.0 <= a <= b && 0.0 <= c <= d && 0.0 <= e <= f && 0.0 <= g <= h
    ensures 0.0 <= Product(a, c, e, g) <= Product(b, d, f, h)
  {
    ProductMonotone(a, b, c, d);
    ProductMonotone(a * c, b * d, e, f);
    ProductMonotone(a * c * e, b * d * f, g, h);
  }

  lemma {:induction false} FactorsAreMonotone(s: Severity, c: Confidence, m: nat, t: Severity, d: Confidence, n: nat)
    requires SeverityRank(s) <= SeverityRank(t) && ConfidenceRank(c) <= ConfidenceRank(d) && m <= n
    ensures 0.0 <= Base(s) <= Base(t) && 0.0 <= Certainty(c) <= Certainty(d)
            && 0.0 <= Corroboration(m) <= Corroboration(n)
  {
  }

  lemma {:induction false} FactorsAreLarge(category: Taxonomy.Category, s: Severity, c: Confidence, n: nat)
    ensures 5.0 <= Base(s) && 1.0 <= Corroboration(n) && 0.9 <= Exposure(category)
            && (c != FALSE_POSITIVE ==> 0.6 <= Certainty(c))
  {
  }

  lemma {:induction false} RawIsMonotone(category: Taxonomy.Category, s: Severity, c: Confidence, m: nat, t: Severity,
                                         d: Confidence, n: nat)
    requires SeverityRank(s) <= SeverityRank(t) && ConfidenceRank(c) <= ConfidenceRank(d) && m <= n
    ensures 0.0 <= Raw(category, s, c, m) <= Raw(category, t, d, n)
  {
    FactorsAreMonotone(s, c, m, t, d, n);
    FactorsAreLarge(category, s, c, m);
    var x := Exposure(category);
    ProductOfFour(Base(s), Base(t), Certainty(c), Certainty(d), Corroboration(m), Corroboration(n), x, x);
  }

  /** More severe, more certain and more corroborated never scores lower. */
  lemma {:induction false} ScoreIsMonotone(category: Taxonomy.Category, s: Severity, c: Confidence, m: nat, t: Severity,
                                           d: Confidence, n: nat)
    requires SeverityRank(s) <= SeverityRank(t) && ConfidenceRank(c) <= ConfidenceRank(d) && m <= n
    ensures Score(category, s, c, m) <= Score(category, t, d, n)
  {
    RawIsMonotone(category, s, c, m, t, d, n);
    TenthsAreMonotone(Raw(category, s, c, m), Raw(category, t, d, n));
  }

  /** Scores lie in [0, 100], and only a false positive scores nothing. */
  lemma {:induction false} ScoreRange(category: Taxonomy.Category, s: Severity, c: Confidence, n: nat)
    ensures 0.0 <= Score(category, s, c, n) <= 100.0
    ensures Score(category, s, c, n) == 0.0 <==> c == FALSE_POSITIVE
  {
    if c == FALSE_POSITIVE {
      ProductWithZero(Base(s), Corroboration(n), Exposure(category));
    } else {
      RawIsLarge(category, s, c, n);
      var x := Raw(category, s, c, n);
      RoundIsNear(10.0 * x);
      assert RoundHalfEven(10.0 * x) as real >= 26.5;
    }
  }

  lemma {:induction false} ProductWithZero(a: real, c: real, d: real)
    ensures Product(a, 0.0, c, d) == 0.0
  {
    assert a * 0.0 == 0.0;
  }

  lemma {:induction false} RawIsLarge(category: Taxonomy.Category, s: Severity, c: Confidence, n: nat)
    requires c != FALSE_POSITIVE
    ensures Raw(category, s, c, n) >= 2.7
  {
    FactorsAreLarge(category, s, c, n);
    ProductOfFour(5.0, Base(s), 0.6, Certainty(c), 1.0, Corroboration(n), 0.9, Exposure(category));
    assert Product(5.0, 0.6, 1.0, 0.9) == 2.7;
  }

  // ----- the scores themselves

  /** The classes whose exposure weighs more, or less, than that of the others, in hundredths. */
  function Weight(c: Taxonomy.Category): int {
    if c.SqlInjection? || c.CommandInjection? || c.CodeInjection? || c.InsecureDeserialization? then 110
    else if c.Ssrf? then 108
    else if c.Xxe? || c.BrokenObjectAuthz? || c.BrokenAccessControl? then 106
    else if c.SecretExposure? then 105
    else if c.Xss? then 103
    else if c.MissingSecurityHeader? || c.Clickjacking? then 90
    else if c.InformationDisclosure? || c.DirectoryListing? then 92
    else 100
  }

  lemma {:induction false} TenthsStay(n: int)
    ensures RoundToTenths(n as real / 10.0) == n as real / 10.0
  {
    var x := n as real / 10.0;
    assert 10.0 * x == n as real;
    assert (n as real).Floor == n;
  }

  /** The score where all factors but one of a severity's are neutral. */
  lemma {:induction false} ScoreIs(category: Taxonomy.Category, s: Severity, c: Confidence, engines: nat, tenths: int)
    requires 0 <= tenths <= 1000 && OneFactor(Base(s), Certainty(c), Corroboration(engines), Exposure(category), tenths)
    ensures Score(category, s, c, engines) == tenths as real / 10.0
  {
    ProductIs(Base(s), Certainty(c), Corroboration(engines), Exposure(category), tenths);
    TenthsStay(tenths);
  }

  predicate OneFactor(a: real, b: real, c: real, d: real, tenths: int) {
    || (b == 1.0 && c == 1.0 && 10.0 * (a * d) == tenths as real)
    || (d == 1.0 && c == 1.0 && 10.0 * (a * b) == tenths as real)
    || (d == 1.0 && b == 1.0 && 10.0 * (a * c) == tenths as real)
  }

  lemma {:induction false} ProductIs(a: real, b: real, c: real, d: real, tenths: int)
    requires OneFactor(a, b, c, d, tenths)
    ensures Product(a, b, c, d) == tenths as real / 10.0
  {
    if b == 1.0 && c == 1.0 {
      assert a * b * c == a;
    } else if d == 1.0 && c == 1.0 {
      assert a * b * c == a * b;
    } else {
      assert a * b == a;
    }
  }

  /** A finding that one engine reports and validation confirmed scores 5, 25, 50, 75 or 95 by its
      severity, if its class weighs nothing extra. */
  lemma {:induction false} ScoresBySeverity(category: Taxonomy.Category)
    requires Weight(category) == 100
    ensures Score(category, INFO, CONFIRMED, 1) == 5.0 && Score(category, LOW, CONFIRMED, 1) == 25.0
    ensures Score(category, MEDIUM, CONFIRMED, 1) == 50.0 && Score(category, HIGH, CONFIRMED, 1) == 75.0
    ensures Score(category, CRITICAL, CONFIRMED, 1) == 95.0
  {
    ScoreIs(category, INFO, CONFIRMED, 1, 50);
    ScoreIs(category, LOW, CONFIRMED, 1, 250);
    ScoreIs(category, MEDIUM, CONFIRMED, 1, 500);
    ScoreIs(category, HIGH, CONFIRMED, 1, 750);
    ScoreIs(category, CRITICAL, CONFIRMED, 1, 950);
  }

  /** Of medium severity it scores 30 when TENTATIVE, 42.5 when FIRM and nothing as a false positive;
      and confirmed 52 from two engines, and 54 from three or more. */
  lemma {:induction false} ScoresByTrust(category: Taxonomy.Category, n: nat)
    requires Weight(category) == 100
    ensures Score(category, MEDIUM, FALSE_POSITIVE, 1) == 0.0 && Score(category, MEDIUM, TENTATIVE, 1) == 30.0
    ensures Score(category, MEDIUM, FIRM, 1) == 42.5 && Score(category, MEDIUM, CONFIRMED, 2) == 52.0
    ensures n >= 3 ==> Score(category, MEDIUM, CONFIRMED, n) == 54.0
    ensures n <= 1 ==> Score(category, MEDIUM, CONFIRMED, n) == 50.0
  {
    ScoreIs(category, MEDIUM, FALSE_POSITIVE, 1, 0);
    ScoreIs(category, MEDIUM, TENTATIVE, 1, 300);
    ScoreIs(category, MEDIUM, FIRM, 1, 425);
    ScoreIs(category, MEDIUM, CONFIRMED, 2, 520);
    if n >= 3 {
      ScoreIs(category, MEDIUM, CONFIRMED, n, 540);
    } else if n <= 1 {
      ScoreIs(category, MEDIUM, CONFIRMED, n, 500);
    }
  }

  /** Confirmed, of medium severity and from one engine, it scores half its class's weight. */
  lemma {:induction false} ScoresByClass(category: Taxonomy.Category)
    ensures Score(category, MEDIUM, CONFIRMED, 1) == Weight(category) as real / 2.0
  {
    ScoreIs(category, MEDIUM, CONFIRMED, 1, 5 * Weight(category));
  }

  /** Rounding gives the nearest whole number, and of two the even one. */
  lemma {:induction false} RoundExactly(x: real, n: int)
    ensures RoundHalfEven(x) == n <==>
              || (n as real - 0.5 < x < n as real + 0.5)
              || ((x == n as real - 0.5 || x == n as real + 0.5) && n % 2 == 0)
  {
  }
}

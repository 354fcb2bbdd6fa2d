/** The license policy: an evaluator that works directly on the text of an SPDX expression. */
module LicensePolicy {
  import opened Text

  datatype LicenseClass = GREEN | YELLOW | RED | UNKNOWN

  datatype Action = Allow | Review | Block

  datatype Reason = Empty | PolicyTable | NotInTable | MostPermissive(id: string) | MostRestrictive(id: string)

  datatype Decision = Decision(licenseId: string, class_: LicenseClass, action: Action, reason: Reason)

  /** Classes a policy file can list ids under. */
  type Listed = c: LicenseClass | c != UNKNOWN witness GREEN

  /** `table` is keyed by lower-cased SPDX id. */
  datatype Policy = Policy(table: map<string, Listed>, unknownAction: Action)

  function Severity(c: LicenseClass): nat {
    match c
    case GREEN => 0
    case YELLOW => 1
    case UNKNOWN => 2
    case RED => 3
  }

  function ActionFor(p: Policy, c: LicenseClass): Action {
    match c
    case GREEN => Allow
    case YELLOW => Review
    case RED => Block
    case UNKNOWN => p.unknownAction
  }

  function Lookup(p: Policy, id: string): LicenseClass {
    if ToLower(id) in p.table then p.table[ToLower(id)] else UNKNOWN
  }

  predicate IsParen(c: char) {
    c == '(' || c == ')'
  }

  /** One operand of a split: surrounding blanks and parentheses go. */
  function Operand(part: string): (r: string)
    ensures |r| <= |part|
  {
    Strip(StripBy(Strip(part), IsParen))
  }

  /** The operands of the non-blank parts; `limit` bounds their length, for termination. */
  function OperandsOf(parts: seq<string>, ghost limit: nat): (r: seq<string>)
    requires forall i :: 0 <= i < |parts| ==> |parts[i]| < limit
    ensures forall i :: 0 <= i < |r| ==> |r[i]| < limit
    ensures |parts| > 0 && Strip(parts[0]) != "" ==> |r| > 0
  {
    if parts == [] then []
    else (if Strip(parts[0]) == "" then [] else [Operand(parts[0])]) + OperandsOf(parts[1..], limit)
  }

  function Operands(raw: string, sep: string): (r: seq<string>)
    requires sep != "" && sep[0] == ' '
    requires raw != "" && !IsSpace(raw[0])
    requires Occurs(raw, sep)
    ensures |r| > 0
    ensures forall i :: 0 <= i < |r| ==> |r[i]| < |raw|
  {
    FirstPartIsNotBlank(raw, sep);
    OperandsOf(SplitOn(raw, sep), |raw|)
  }

  lemma {:induction false} FirstPartIsNotBlank(raw: string, sep: string)
    requires sep != "" && sep[0] == ' '
    requires raw != "" && !IsSpace(raw[0])
    ensures Strip(SplitOn(raw, sep)[0]) != ""
  {
    var first := SplitOn(raw, sep)[0];
    assert MatchAt(raw, sep, 0) ==> UpperChar(raw[0 + 0]) == ' ';
    assert first != "" && first[0] == raw[0];
    StripRightKeepsHead(first, IsSpace);
  }

  lemma {:induction false} StripRightKeepsHead(s: string, drop: char -> bool)
    requires s != [] && !drop(s[0])
    ensures StripRight(s, drop) != []
  {
    if |s| > 1 {
      StripRightKeepsHead(s[..|s| - 1], drop);
    }
  }

  /** The first decision of least severity, as min() picks it. */
  function MinOf(ds: seq<Decision>): (d: Decision)
    requires |ds| > 0
    ensures d in ds && forall i :: 0 <= i < |ds| ==> Severity(d.class_) <= Severity(ds[i].class_)
  {
    if |ds| == 1 then ds[0]
    else
      var rest := MinOf(ds[1..]);
      if Severity(ds[0].class_) <= Severity(rest.class_) then ds[0] else rest
  }

  /** The first decision of greatest severity, as max() picks it. */
  function MaxOf(ds: seq<Decision>): (d: Decision)
    requires |ds| > 0
    ensures d in ds && forall i :: 0 <= i < |ds| ==> Severity(ds[i].class_) <= Severity(d.class_)
  {
    if |ds| == 1 then ds[0]
    else
      var rest := MaxOf(ds[1..]);
      if Severity(rest.class_) <= Severity(ds[0].class_) then ds[0] else rest
  }

  /** Classify an SPDX expression.  Every call terminates, whatever the text is. */
  function Classify(p: Policy, licenseId: string): (d: Decision)
    ensures d.action == ActionFor(p, d.class_)
    decreases |licenseId|
  {
    var raw := Strip(licenseId);
    if raw == "" then Decision(licenseId, UNKNOWN, p.unknownAction, Empty)
    else if Occurs(raw, " OR ") then
      var parts := Operands(raw, " OR ");
      var best := MinOf(seq(|parts|, i requires 0 <= i < |parts| => Classify(p, parts[i])));
      Decision(raw, best.class_, best.action, MostPermissive(best.licenseId))
    else if Occurs(raw, " AND ") then
      var parts := Operands(raw, " AND ");
      var worst := MaxOf(seq(|parts|, i requires 0 <= i < |parts| => Classify(p, parts[i])));
      Decision(raw, worst.class_, worst.action, MostRestrictive(worst.licenseId))
    else if ToLower(raw) in p.table then
      var c := p.table[ToLower(raw)];
      Decision(raw, c, ActionFor(p, c), PolicyTable)
    else
      Decision(raw, UNKNOWN, p.unknownAction, NotInTable)
  }
}

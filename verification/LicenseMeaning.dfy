/** What an SPDX expression means, and when the text-based evaluator agrees with it.
    AND binds tighter than OR and parentheses group, as in Annex D, section D.4.5 of SPDX 2.3. */
module LicenseMeaning {
  import opened Text
  import opened LicensePolicy

  // ----- expressions and their meaning

  /** Concrete syntax: `op` keeps the spelling of the operator, and Paren every pair of
      parentheses. */
  datatype Expr =
    | Id(id: string)
    | Paren(inner: Expr)
    | Or(left: Expr, op: string, right: Expr)
    | And(left: Expr, op: string, right: Expr)

  datatype Keyword = OrWord | AndWord

  function Spelling(w: Keyword): string {
    match w
    case OrWord => "OR"
    case AndWord => "AND"
  }

  function Separator(w: Keyword): string {
    match w
    case OrWord => " OR "
    case AndWord => " AND "
  }

  /** No keyword stands between blanks in `s`, nor at either end of it. */
  ghost predicate Free(s: string, w: Keyword) {
    forall k :: !MatchAt(" " + s + " ", Separator(w), k)
  }

  predicate Solid(c: char) {
    !IsSpace(c) && !IsParen(c)
  }

  ghost predicate GoodId(id: string) {
    && id != "" && Solid(id[0]) && Solid(id[|id| - 1])
    && Free(id, OrWord) && Free(id, AndWord)
  }

  ghost predicate WellFormed(e: Expr) {
    match e
    case Id(id) => GoodId(id)
    case Paren(x) => WellFormed(x)
    case Or(l, op, r) => ToUpper(op) == "OR" && WellFormed(l) && WellFormed(r)
    case And(l, op, r) => ToUpper(op) == "AND" && WellFormed(l) && WellFormed(r) && !l.Or? && !r.Or?
  }

  function Print(e: Expr): string {
    match e
    case Id(id) => id
    case Paren(x) => "(" + Print(x) + ")"
    case Or(l, op, r) => Print(l) + " " + op + " " + Print(r)
    case And(l, op, r) => Print(l) + " " + op + " " + Print(r)
  }

  function Min(a: nat, b: nat): nat { if a <= b then a else b }
  function Max(a: nat, b: nat): nat { if a <= b then b else a }

  /** OR lets the distributor pick the milder operand; AND makes both apply. */
  function Meaning(e: Expr, sev: string -> nat): nat {
    match e
    case Id(id) => sev(id)
    case Paren(x) => Meaning(x, sev)
    case Or(l, _, r) => Min(Meaning(l, sev), Meaning(r, sev))
    case And(l, _, r) => Max(Meaning(l, sev), Meaning(r, sev))
  }

  function SeverityIn(p: Policy): string -> nat {
    (id: string) => Severity(Lookup(p, id))
  }

  predicate HasOr(e: Expr) {
    match e
    case Id(_) => false
    case Paren(x) => HasOr(x)
    case Or(_, _, _) => true
    case And(l, _, r) => HasOr(l) || HasOr(r)
  }

  predicate OrUnderAnd(e: Expr) {
    match e
    case Id(_) => false
    case Paren(x) => OrUnderAnd(x)
    case Or(l, _, r) => OrUnderAnd(l) || OrUnderAnd(r)
    case And(l, _, r) => HasOr(l) || HasOr(r)
  }

  /** A single id wrapped in parentheses, with no operator anywhere. */
  predicate LoneInParens(e: Expr) {
    e.Paren? && (e.inner.Id? || LoneInParens(e.inner))
  }

  /** The ids, as the policy table compares them. */
  function Ids(e: Expr): set<string> {
    match e
    case Id(id) => {ToLower(id)}
    case Paren(x) => Ids(x)
    case Or(l, _, r) => Ids(l) + Ids(r)
    case And(l, _, r) => Ids(l) + Ids(r)
  }

  predicate DistinctIds(e: Expr) {
    match e
    case Id(_) => true
    case Paren(x) => DistinctIds(x)
    case Or(l, _, r) => DistinctIds(l) && DistinctIds(r) && Ids(l) !! Ids(r)
    case And(l, _, r) => DistinctIds(l) && DistinctIds(r) && Ids(l) !! Ids(r)
  }

  // ----- the flat view: one cell per id

  /** An id with the operator before it and the parentheses that touch it. */
  datatype Cell = Cell(op: string, opens: nat, id: string, closes: nat)

  type Row = cs: seq<Cell> | |cs| > 0 witness [Cell("", 0, "", 0)]

  function CellText(c: Cell): string {
    Repeat('(', c.opens) + c.id + Repeat(')', c.closes)
  }

  function Render(cs: Row): string {
    if |cs| == 1 then CellText(cs[0])
    else CellText(cs[0]) + " " + cs[1].op + " " + Render(cs[1..])
  }

  function WithOp(cs: Row, op: string): Row {
    [cs[0].(op := op)] + cs[1..]
  }

  function Wrapped(cs: Row): Row {
    var withOpen := [cs[0].(opens := cs[0].opens + 1)] + cs[1..];
    var n := |cs| - 1;
    withOpen[..n] + [withOpen[n].(closes := withOpen[n].closes + 1)]
  }

  function Cells(e: Expr): Row {
    match e
    case Id(id) => [Cell("", 0, id, 0)]
    case Paren(x) => Wrapped(Cells(x))
    case Or(l, op, r) => Cells(l) + WithOp(Cells(r), op)
    case And(l, op, r) => Cells(l) + WithOp(Cells(r), op)
  }

  predicate IsOp(c: Cell, w: Keyword) {
    ToUpper(c.op) == Spelling(w)
  }

  ghost predicate GoodRow(cs: Row) {
    && (forall i :: 0 <= i < |cs| ==> GoodId(cs[i].id))
    && (forall i :: 1 <= i < |cs| ==> IsOp(cs[i], OrWord) || IsOp(cs[i], AndWord))
  }

  function FirstOp(cs: Row, w: Keyword): (n: nat)
    ensures 1 <= n <= |cs|
    ensures forall i :: 1 <= i < n ==> !IsOp(cs[i], w)
    ensures n < |cs| ==> IsOp(cs[n], w)
  {
    if |cs| == 1 || IsOp(cs[1], w) then 1 else 1 + FirstOp(cs[1..], w)
  }

  /** The rows between the operators `w`. */
  function Chunks(cs: Row, w: Keyword): (r: seq<Row>)
    ensures |r| > 0
    decreases |cs|
  {
    var n := FirstOp(cs, w);
    if n == |cs| then [cs] else [cs[..n]] + Chunks(cs[n..], w)
  }

  function RowMax(cs: Row, sev: string -> nat): nat {
    if |cs| == 1 then sev(cs[0].id) else Max(sev(cs[0].id), RowMax(cs[1..], sev))
  }

  // ----- the reading that ignores all parentheses

  /** Severities in the order they are written, with the operator between them. */
  datatype Reading = Last(value: nat) | Then(value: nat, isOr: bool, rest: Reading)

  function ReadingOf(cs: Row, sev: string -> nat): Reading {
    if |cs| == 1 then Last(sev(cs[0].id))
    else Then(sev(cs[0].id), IsOp(cs[1], OrWord), ReadingOf(cs[1..], sev))
  }

  /** The mildest stretch between two ORs, a stretch being as severe as its worst member;
      `acc` is the worst member of the stretch so far. */
  function FlatFrom(r: Reading, acc: nat): nat {
    match r
    case Last(v) => Max(acc, v)
    case Then(v, isOr, rest) =>
      if isOr then Min(Max(acc, v), FlatFrom(rest, 0)) else FlatFrom(rest, Max(acc, v))
  }

  function Flat(r: Reading): nat {
    FlatFrom(r, 0)
  }

  function Join(a: Reading, isOr: bool, b: Reading): Reading {
    match a
    case Last(v) => Then(v, isOr, b)
    case Then(v, o, rest) => Then(v, o, Join(rest, isOr, b))
  }

  /** The same reading, straight from the expression. */
  function FlatReading(e: Expr, sev: string -> nat): Reading {
    match e
    case Id(id) => Last(sev(id))
    case Paren(x) => FlatReading(x, sev)
    case Or(l, _, r) => Join(FlatReading(l, sev), true, FlatReading(r, sev))
    case And(l, _, r) => Join(FlatReading(l, sev), false, FlatReading(r, sev))
  }

  lemma {:induction false} FlatOr(a: Reading, b: Reading, acc: nat)
    ensures FlatFrom(Join(a, true, b), acc) == Min(FlatFrom(a, acc), Flat(b))
  {
    if a.Then? {
      FlatOr(a.rest, b, if a.isOr then 0 else Max(acc, a.value));
    }
  }

  lemma {:induction false} FlatRaised(r: Reading, acc: nat)
    ensures FlatFrom(r, acc) <= Max(acc, Flat(r))
  {
    if r.Then? && !r.isOr {
      FlatRaised(r.rest, Max(acc, r.value));
      FlatRaisedBack(r.rest, r.value);
    }
  }

  lemma {:induction false} FlatRaisedBack(r: Reading, acc: nat)
    ensures Flat(r) <= FlatFrom(r, acc)
  {
    FlatMonotone(r, 0, acc);
  }

  lemma {:induction false} FlatMonotone(r: Reading, a: nat, b: nat)
    requires a <= b
    ensures FlatFrom(r, a) <= FlatFrom(r, b)
  {
    if r.Then? && !r.isOr {
      FlatMonotone(r.rest, Max(a, r.value), Max(b, r.value));
    }
  }

  /** Joining by AND without parentheses never reads as more severe than it should. */
  lemma {:induction false} FlatAnd(a: Reading, b: Reading, acc: nat)
    ensures FlatFrom(Join(a, false, b), acc) <= Max(FlatFrom(a, acc), Flat(b))
  {
    match a
    case Last(v) => FlatRaised(b, Max(acc, v));
    case Then(v, isOr, rest) => FlatAnd(rest, b, if isOr then 0 else Max(acc, v));
  }
}

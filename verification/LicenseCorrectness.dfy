/** How the evaluator's answer relates to the meaning of the expression it was given. */
module LicenseCorrectness {
  import opened Text
  import opened LicensePolicy
  import opened LicenseMeaning
  import opened LicenseReading

  // ----- printing an expression is rendering its cells

  lemma {:induction false} RenderOpen(cs: Row)
    ensures Render([cs[0].(opens := cs[0].opens + 1)] + cs[1..]) == "(" + Render(cs)
  {
    var more := [cs[0].(opens := cs[0].opens + 1)] + cs[1..];
    assert more[1..] == cs[1..];
    assert Repeat('(', cs[0].opens + 1) == "(" + Repeat('(', cs[0].opens);
    assert CellText(more[0]) == "(" + CellText(cs[0]);
    if |cs| > 1 {
      var rest := " " + cs[1].op + " " + Render(cs[1..]);
      assert ("(" + CellText(cs[0])) + rest == "(" + (CellText(cs[0]) + rest);
    }
  }

  lemma {:induction false} RenderClose(cs: Row)
    ensures var n := |cs| - 1;
            Render(cs[..n] + [cs[n].(closes := cs[n].closes + 1)]) == Render(cs) + ")"
  {
    var n := |cs| - 1;
    var more: Row := cs[..n] + [cs[n].(closes := cs[n].closes + 1)];
    if n == 0 {
      RepeatSnoc(')', cs[0].closes);
    } else {
      RenderClose(cs[1..]);
      assert more[1..] == cs[1..][..n - 1] + [cs[n].(closes := cs[n].closes + 1)];
    }
  }

  lemma {:induction false} RenderWithOp(cs: Row, op: string)
    ensures Render(WithOp(cs, op)) == Render(cs)
  {
    assert WithOp(cs, op)[1..] == cs[1..];
  }

  lemma {:induction false} PrintIsRender(e: Expr)
    ensures Print(e) == Render(Cells(e))
  {
    match e
    case Id(_) =>
    case Paren(x) =>
      PrintIsRender(x);
      var cs := Cells(x);
      RenderOpen(cs);
      RenderClose([cs[0].(opens := cs[0].opens + 1)] + cs[1..]);
    case Or(l, op, r) =>
      PrintIsRender(l);
      PrintIsRender(r);
      RenderAppend(Cells(l), WithOp(Cells(r), op));
      RenderWithOp(Cells(r), op);
    case And(l, op, r) =>
      PrintIsRender(l);
      PrintIsRender(r);
      RenderAppend(Cells(l), WithOp(Cells(r), op));
      RenderWithOp(Cells(r), op);
  }

  /** Two rows that read the same once parentheses and the leading operator are ignored. */
  predicate SameReading(a: Row, b: Row) {
    && |a| == |b|
    && (forall i :: 0 <= i < |a| ==> a[i].id == b[i].id)
    && (forall i :: 1 <= i < |a| ==> a[i].op == b[i].op)
  }

  lemma {:induction false} WrappedReading(cs: Row)
    ensures SameReading(Wrapped(cs), cs)
  {
  }

  lemma {:induction false} GoodCells(e: Expr)
    requires WellFormed(e)
    ensures GoodRow(Cells(e))
  {
    match e
    case Id(_) =>
    case Paren(x) =>
      GoodCells(x);
      WrappedReading(Cells(x));
    case Or(l, op, r) =>
      GoodCells(l);
      GoodCells(r);
      GoodJoin(Cells(l), op, Cells(r));
    case And(l, op, r) =>
      GoodCells(l);
      GoodCells(r);
      GoodJoin(Cells(l), op, Cells(r));
  }

  lemma {:induction false} GoodJoin(a: Row, op: string, b: Row)
    requires GoodRow(a) && GoodRow(b) && (ToUpper(op) == "OR" || ToUpper(op) == "AND")
    ensures GoodRow(a + WithOp(b, op))
  {
  }

  lemma {:induction false} SingleCell(e: Expr)
    requires |Cells(e)| == 1
    ensures e.Id? || LoneInParens(e)
    ensures e.Id? ==> Cells(e)[0].opens == 0 && Cells(e)[0].closes == 0
  {
    if e.Paren? {
      SingleCell(e.inner);
    }
  }

  // ----- the flat reading against the meaning

  lemma {:induction false} SameReadingOf(a: Row, b: Row, sev: string -> nat)
    requires SameReading(a, b)
    ensures ReadingOf(a, sev) == ReadingOf(b, sev)
  {
    if |a| > 1 {
      assert SameReading(a[1..], b[1..]);
      SameReadingOf(a[1..], b[1..], sev);
    }
  }

  lemma {:induction false} ReadingOfCells(e: Expr, sev: string -> nat)
    requires WellFormed(e)
    ensures ReadingOf(Cells(e), sev) == FlatReading(e, sev)
  {
    match e
    case Id(_) =>
    case Paren(x) =>
      ReadingOfCells(x, sev);
      WrappedReading(Cells(x));
      SameReadingOf(Cells(e), Cells(x), sev);
    case Or(l, op, r) =>
      ReadingOfCells(l, sev);
      ReadingOfCells(r, sev);
      SameReadingOf(WithOp(Cells(r), op), Cells(r), sev);
      ReadingOfJoin(Cells(l), WithOp(Cells(r), op), sev);
    case And(l, op, r) =>
      ReadingOfCells(l, sev);
      ReadingOfCells(r, sev);
      SameReadingOf(WithOp(Cells(r), op), Cells(r), sev);
      AndIsNotOr(Cells(r), op);
      ReadingOfJoin(Cells(l), WithOp(Cells(r), op), sev);
  }

  lemma {:induction false} AndIsNotOr(r: Row, op: string)
    requires ToUpper(op) == "AND"
    ensures !IsOp(WithOp(r, op)[0], OrWord)
  {
    assert |ToUpper(op)| == 3;
  }

  lemma {:induction false} FlatBelowMeaning(e: Expr, sev: string -> nat)
    ensures Flat(FlatReading(e, sev)) <= Meaning(e, sev)
  {
    match e
    case Id(_) =>
    case Paren(x) => FlatBelowMeaning(x, sev);
    case Or(l, _, r) =>
      FlatBelowMeaning(l, sev);
      FlatBelowMeaning(r, sev);
      FlatOr(FlatReading(l, sev), FlatReading(r, sev), 0);
    case And(l, _, r) =>
      FlatBelowMeaning(l, sev);
      FlatBelowMeaning(r, sev);
      FlatAnd(FlatReading(l, sev), FlatReading(r, sev), 0);
  }

  lemma {:induction false} FlatWithoutOr(e: Expr, sev: string -> nat, isOr: bool, next: Reading, acc: nat)
    requires !HasOr(e)
    ensures FlatFrom(FlatReading(e, sev), acc) == Max(acc, Meaning(e, sev))
    ensures FlatFrom(Join(FlatReading(e, sev), false, next), acc) == FlatFrom(next, Max(acc, Meaning(e, sev)))
  {
    match e
    case Id(_) =>
    case Paren(x) => FlatWithoutOr(x, sev, isOr, next, acc);
    case And(l, _, r) =>
      var a, b := FlatReading(l, sev), FlatReading(r, sev);
      FlatWithoutOr(l, sev, false, b, acc);
      FlatWithoutOr(r, sev, isOr, next, Max(acc, Meaning(l, sev)));
      JoinIsAssociative(a, false, b, false, next);
      FlatWithoutOr(l, sev, false, Join(b, false, next), acc);
  }

  lemma {:induction false} JoinIsAssociative(a: Reading, p: bool, b: Reading, q: bool, c: Reading)
    ensures Join(Join(a, p, b), q, c) == Join(a, p, Join(b, q, c))
  {
    if a.Then? {
      JoinIsAssociative(a.rest, p, b, q, c);
    }
  }

  lemma {:induction false} FlatIsMeaning(e: Expr, sev: string -> nat)
    requires !OrUnderAnd(e)
    ensures Flat(FlatReading(e, sev)) == Meaning(e, sev)
  {
    match e
    case Id(_) =>
    case Paren(x) => FlatIsMeaning(x, sev);
    case Or(l, _, r) =>
      FlatIsMeaning(l, sev);
      FlatIsMeaning(r, sev);
      FlatOr(FlatReading(l, sev), FlatReading(r, sev), 0);
    case And(_, _, _) =>
      FlatWithoutOr(e, sev, false, Last(0), 0);
  }

  // ----- main results

  /** On every printed expression but a lone id in parentheses, the evaluator never answers
      more severely than the expression means, and answers exactly right when no OR stands
      under an AND: any operator case, any redundant parentheses, any policy. */
  lemma {:induction false} ClassifyAgainstMeaning(p: Policy, e: Expr)
    requires WellFormed(e) && !LoneInParens(e)
    ensures Class(p, Print(e)) == Flat(FlatReading(e, SeverityIn(p)))
    ensures Class(p, Print(e)) <= Meaning(e, SeverityIn(p))
    ensures !OrUnderAnd(e) ==> Class(p, Print(e)) == Meaning(e, SeverityIn(p))
  {
    ClassifyIsFlat(p, e);
    FlatBelowMeaning(e, SeverityIn(p));
    if !OrUnderAnd(e) {
      FlatIsMeaning(e, SeverityIn(p));
    }
  }

  lemma {:induction false} ClassifyIsFlat(p: Policy, e: Expr)
    requires WellFormed(e) && !LoneInParens(e)
    ensures Class(p, Print(e)) == Flat(FlatReading(e, SeverityIn(p)))
  {
    PrintIsRender(e);
    GoodCells(e);
    if |Cells(e)| == 1 {
      SingleCell(e);
    }
    ClassifyRow(p, Cells(e));
    ReadingOfCells(e, SeverityIn(p));
  }

  /** A lone id in parentheses is looked up with its parentheses on. */
  lemma {:induction false} LoneInParensIsLookedUpRaw(p: Policy, e: Expr)
    requires WellFormed(e) && LoneInParens(e)
    ensures Class(p, Print(e)) == Severity(Lookup(p, Print(e)))
  {
    PrintIsRender(e);
    GoodCells(e);
    LoneCells(e);
    FreeRow(Cells(e), OrWord);
    FreeRow(Cells(e), AndWord);
    NoSeparator(Print(e), OrWord);
    NoSeparator(Print(e), AndWord);
    OperandOfRow(Cells(e));
    ClassifyLeaf(p, Print(e));
  }

  lemma {:induction false} LoneCells(e: Expr)
    requires LoneInParens(e) || e.Id?
    ensures |Cells(e)| == 1
  {
    if e.Paren? {
      LoneCells(e.inner);
    }
  }

  // ----- why an OR under an AND goes wrong

  /** `sev` is GREEN on the chosen ids and RED on the others of `all`. */
  ghost predicate Divides(sev: string -> nat, all: set<string>, greens: set<string>) {
    forall id :: ToLower(id) in all ==> sev(id) == if ToLower(id) in greens then 0 else 3
  }

  lemma {:induction false} AllGreen(e: Expr, sev: string -> nat, all: set<string>, greens: set<string>)
    requires Divides(sev, all, greens) && Ids(e) <= greens <= all
    ensures Meaning(e, sev) == 0 == Flat(FlatReading(e, sev))
  {
    FlatBelowMeaning(e, sev);
    match e
    case Id(_) =>
    case Paren(x) => AllGreen(x, sev, all, greens);
    case Or(l, _, r) =>
      AllGreen(l, sev, all, greens);
      AllGreen(r, sev, all, greens);
    case And(l, _, r) =>
      AllGreen(l, sev, all, greens);
      AllGreen(r, sev, all, greens);
  }

  lemma {:induction false} NoneGreen(e: Expr, sev: string -> nat, all: set<string>, greens: set<string>)
    requires Divides(sev, all, greens) && Ids(e) <= all && Ids(e) !! greens
    ensures Meaning(e, sev) == 3
  {
    match e
    case Id(_) =>
    case Paren(x) => NoneGreen(x, sev, all, greens);
    case Or(l, _, r) =>
      NoneGreen(l, sev, all, greens);
      NoneGreen(r, sev, all, greens);
    case And(l, _, r) =>
      NoneGreen(l, sev, all, greens);
      NoneGreen(r, sev, all, greens);
  }

  lemma {:induction false} AtMostRed(e: Expr, sev: string -> nat, all: set<string>, greens: set<string>)
    requires Divides(sev, all, greens) && Ids(e) <= all
    ensures Meaning(e, sev) <= 3
  {
    match e
    case Id(_) =>
    case Paren(x) => AtMostRed(x, sev, all, greens);
    case Or(l, _, r) =>
      AtMostRed(l, sev, all, greens);
      AtMostRed(r, sev, all, greens);
    case And(l, _, r) =>
      AtMostRed(l, sev, all, greens);
      AtMostRed(r, sev, all, greens);
  }

  /** Ids before some OR of `e`: with these green, what follows `e` cannot matter. */
  function Before(e: Expr): (greens: set<string>)
    requires HasOr(e)
    ensures greens <= Ids(e)
  {
    match e
    case Paren(x) => Before(x)
    case Or(l, _, _) => Ids(l)
    case And(l, _, r) => if HasOr(l) then Before(l) else Ids(l) + Before(r)
  }

  /** Ids after some OR of `e`: with these green, what precedes `e` cannot matter. */
  function After(e: Expr): (greens: set<string>)
    requires HasOr(e)
    ensures greens <= Ids(e)
  {
    match e
    case Paren(x) => After(x)
    case Or(_, _, r) => Ids(r)
    case And(l, _, r) => if HasOr(r) then After(r) else After(l) + Ids(r)
  }

  lemma {:induction false} GreenBefore(e: Expr, sev: string -> nat, all: set<string>, greens: set<string>,
                                       next: Reading)
    requires Divides(sev, all, greens) && HasOr(e) && Before(e) <= greens <= all
    ensures Flat(Join(FlatReading(e, sev), false, next)) == 0
  {
    match e
    case Paren(x) => GreenBefore(x, sev, all, greens, next);
    case Or(l, _, r) =>
      var a, b := FlatReading(l, sev), FlatReading(r, sev);
      JoinIsAssociative(a, true, b, false, next);
      FlatOr(a, Join(b, false, next), 0);
      AllGreen(l, sev, all, greens);
    case And(l, _, r) =>
      var a, b := FlatReading(l, sev), FlatReading(r, sev);
      JoinIsAssociative(a, false, b, false, next);
      if HasOr(l) {
        GreenBefore(l, sev, all, greens, Join(b, false, next));
      } else {
        FlatAnd(a, Join(b, false, next), 0);
        AllGreen(l, sev, all, greens);
        GreenBefore(r, sev, all, greens, next);
      }
  }

  lemma {:induction false} GreenAfter(e: Expr, sev: string -> nat, all: set<string>, greens: set<string>, prev: Reading)
    requires Divides(sev, all, greens) && HasOr(e) && After(e) <= greens <= all
    ensures Flat(Join(prev, false, FlatReading(e, sev))) == 0
  {
    match e
    case Paren(x) => GreenAfter(x, sev, all, greens, prev);
    case Or(l, _, r) =>
      var a, b := FlatReading(l, sev), FlatReading(r, sev);
      JoinIsAssociative(prev, false, a, true, b);
      FlatOr(Join(prev, false, a), b, 0);
      AllGreen(r, sev, all, greens);
    case And(l, _, r) =>
      var a, b := FlatReading(l, sev), FlatReading(r, sev);
      JoinIsAssociative(prev, false, a, false, b);
      if HasOr(r) {
        GreenAfter(r, sev, all, greens, Join(prev, false, a));
      } else {
        FlatAnd(Join(prev, false, a), b, 0);
        AllGreen(r, sev, all, greens);
        GreenAfter(l, sev, all, greens, prev);
      }
  }

  /** The ids to list as GREEN so that the flat reading is GREEN and the meaning RED. */
  function Misleading(e: Expr): (greens: set<string>)
    requires OrUnderAnd(e)
    ensures greens <= Ids(e)
  {
    match e
    case Paren(x) => Misleading(x)
    case Or(l, _, r) => if OrUnderAnd(l) then Misleading(l) else Misleading(r)
    case And(l, _, r) => if HasOr(l) then Before(l) else After(r)
  }

  lemma {:induction false} MisleadingWorks(e: Expr, sev: string -> nat, all: set<string>)
    requires OrUnderAnd(e) && DistinctIds(e) && Ids(e) <= all && Divides(sev, all, Misleading(e))
    ensures Flat(FlatReading(e, sev)) == 0 && Meaning(e, sev) == 3
  {
    var greens := Misleading(e);
    match e
    case Paren(x) => MisleadingWorks(x, sev, all);
    case Or(l, op, r) =>
      FlatOr(FlatReading(l, sev), FlatReading(r, sev), 0);
      if OrUnderAnd(l) {
        MisleadingWorks(l, sev, all);
        NoneGreen(r, sev, all, greens);
      } else {
        MisleadingWorks(r, sev, all);
        NoneGreen(l, sev, all, greens);
      }
    case And(l, op, r) =>
      AtMostRed(e, sev, all, greens);
      if HasOr(l) {
        NoneGreen(r, sev, all, greens);
        GreenBefore(l, sev, all, greens, FlatReading(r, sev));
      } else {
        NoneGreen(l, sev, all, greens);
        GreenAfter(r, sev, all, greens, FlatReading(l, sev));
      }
  }

  /** Lists every id of `all`: the chosen ones as GREEN, the others as RED. */
  function Divided(all: set<string>, greens: set<string>): Policy {
    Policy(map id | id in all :: if id in greens then GREEN else RED, Block)
  }

  ghost predicate ReadRight(p: Policy, e: Expr) {
    Class(p, Print(e)) == Meaning(e, SeverityIn(p))
  }

  lemma {:induction false} DividedDivides(all: set<string>, greens: set<string>)
    ensures Divides(SeverityIn(Divided(all, greens)), all, greens)
  {
  }

  lemma {:induction false} DividedReads(e: Expr, p: Policy, sev: string -> nat)
    requires DistinctIds(e) && OrUnderAnd(e) && p == Divided(Ids(e), Misleading(e)) && sev == SeverityIn(p)
    ensures Flat(FlatReading(e, sev)) == 0 && Meaning(e, sev) == 3
  {
    DividedDivides(Ids(e), Misleading(e));
    MisleadingWorks(e, sev, Ids(e));
  }

  lemma {:induction false} ClassIsFlatOf(p: Policy, e: Expr, sev: string -> nat, n: nat)
    requires WellFormed(e) && !LoneInParens(e) && sev == SeverityIn(p) && n == Flat(FlatReading(e, sev))
    ensures Class(p, Print(e)) == n
  {
    ClassifyIsFlat(p, e);
  }

  /** Under an AND that holds an OR, some policy makes the evaluator answer GREEN where the
      expression means RED. */
  lemma {:induction false} SomePolicyIsMisled(e: Expr, p: Policy, sev: string -> nat)
    requires WellFormed(e) && !LoneInParens(e) && DistinctIds(e) && OrUnderAnd(e)
    requires p == Divided(Ids(e), Misleading(e)) && sev == SeverityIn(p)
    ensures Class(p, Print(e)) == 0 && Meaning(e, sev) == 3
  {
    DividedReads(e, p, sev);
    ClassIsFlatOf(p, e, sev, 0);
  }

  lemma {:induction false} MisledIsWrong(p: Policy, e: Expr, sev: string -> nat)
    requires sev == SeverityIn(p) && Class(p, Print(e)) != Meaning(e, sev)
    ensures !ReadRight(p, e)
  {
  }

  lemma {:induction false} SomePolicyReadsWrong(e: Expr, p: Policy, sev: string -> nat)
    requires WellFormed(e) && !LoneInParens(e) && DistinctIds(e) && OrUnderAnd(e)
    requires p == Divided(Ids(e), Misleading(e)) && sev == SeverityIn(p)
    ensures !ReadRight(p, e)
  {
    SomePolicyIsMisled(e, p, sev);
    MisledIsWrong(p, e, sev);
  }

  /** For an expression whose ids all differ, the evaluator is right under every policy
      exactly when no OR stands under an AND. */
  lemma {:induction false} RightForEveryPolicy(e: Expr)
    requires WellFormed(e) && !LoneInParens(e) && DistinctIds(e)
    ensures (forall p: Policy :: ReadRight(p, e)) <==> !OrUnderAnd(e)
  {
    if OrUnderAnd(e) {
      var p := Divided(Ids(e), Misleading(e));
      SomePolicyReadsWrong(e, p, SeverityIn(p));
    } else {
      forall p: Policy ensures ReadRight(p, e) {
        ClassifyAgainstMeaning(p, e);
      }
    }
  }

  function Choice(a: string, b: string, c: string): Expr {
    And(Paren(Or(Id(a), "OR", Id(b))), "AND", Id(c))
  }

  lemma {:induction false} ChoiceIsWellFormed(a: string, b: string, c: string)
    requires GoodId(a) && GoodId(b) && GoodId(c)
    ensures WellFormed(Choice(a, b, c))
  {
    assert ToUpper("OR") == "OR" && ToUpper("AND") == "AND";
    assert WellFormed(Id(a)) && WellFormed(Id(b)) && WellFormed(Id(c));
    assert WellFormed(Or(Id(a), "OR", Id(b)));
    assert WellFormed(Paren(Or(Id(a), "OR", Id(b))));
  }

  /** The smallest case: `(A OR B) AND C` is read right exactly when C is no more severe
      than A, whatever B is. */
  lemma {:induction false} ChoiceThenConjunction(p: Policy, a: string, b: string, c: string)
    requires GoodId(a) && GoodId(b) && GoodId(c)
    ensures ReadRight(p, Choice(a, b, c)) <==> SeverityIn(p)(c) <= SeverityIn(p)(a)
  {
    ChoiceIsWellFormed(a, b, c);
    ClassifyIsFlat(p, Choice(a, b, c));
    FlatOfChoice(a, b, c, SeverityIn(p));
  }

  lemma {:induction false} FlatOfChoice(a: string, b: string, c: string, sev: string -> nat)
    ensures Flat(FlatReading(Choice(a, b, c), sev)) == Min(sev(a), Max(sev(b), sev(c)))
    ensures Meaning(Choice(a, b, c), sev) == Max(Min(sev(a), sev(b)), sev(c))
  {
    var o := Or(Id(a), "OR", Id(b));
    assert FlatReading(Id(a), sev) == Last(sev(a)) && FlatReading(Id(b), sev) == Last(sev(b));
    assert FlatReading(o, sev) == Then(sev(a), true, Last(sev(b))) && Meaning(o, sev) == Min(sev(a), sev(b));
    assert FlatReading(Paren(o), sev) == FlatReading(o, sev) && Meaning(Paren(o), sev) == Meaning(o, sev);
    assert Join(Last(sev(b)), false, Last(sev(c))) == Then(sev(b), false, Last(sev(c)));
    assert FlatReading(Choice(a, b, c), sev) == Then(sev(a), true, Then(sev(b), false, Last(sev(c))));
    assert FlatFrom(Then(sev(b), false, Last(sev(c))), 0) == Max(sev(b), sev(c));
  }
}

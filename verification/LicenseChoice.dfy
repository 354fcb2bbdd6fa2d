/** The class and the action of a license expression, said of the ids a policy lists. */
module LicenseChoice {
  import opened Text
  import opened LicensePolicy
  import opened LicenseMeaning
  import opened LicenseReading
  import opened LicenseCorrectness

  /** The expression can be met by ids that are all right: some operand of each OR, and both of
      each AND. */
  predicate Met(e: Expr, right: string -> bool) {
    match e
    case Id(id) => right(id)
    case Paren(x) => Met(x, right)
    case Or(l, _, r) => Met(l, right) || Met(r, right)
    case And(l, _, r) => Met(l, right) && Met(r, right)
  }

  predicate ListedAs(p: Policy, id: string, c: LicenseClass) {
    ToLower(id) in p.table && p.table[ToLower(id)] == c
  }

  function IsGreen(p: Policy): string -> bool {
    (id: string) => ListedAs(p, id, GREEN)
  }

  function IsGreenOrYellow(p: Policy): string -> bool {
    (id: string) => ListedAs(p, id, GREEN) || ListedAs(p, id, YELLOW)
  }

  function IsNotRed(p: Policy): string -> bool {
    (id: string) => !ListedAs(p, id, RED)
  }

  lemma {:induction false} MeaningIsMet(e: Expr, sev: string -> nat, t: nat, right: string -> bool)
    requires forall id :: right(id) <==> sev(id) <= t
    ensures Met(e, right) <==> Meaning(e, sev) <= t
  {
    match e
    case Id(_) =>
    case Paren(x) =>
      MeaningIsMet(x, sev, t, right);
    case Or(l, _, r) =>
      MeaningIsMet(l, sev, t, right);
      MeaningIsMet(r, sev, t, right);
    case And(l, _, r) =>
      MeaningIsMet(l, sev, t, right);
      MeaningIsMet(r, sev, t, right);
  }

  lemma {:induction false} SeverityExactly(p: Policy, id: string, n: nat)
    requires n == SeverityIn(p)(id)
    ensures n <= 0 <==> ListedAs(p, id, GREEN)
    ensures n <= 1 <==> ListedAs(p, id, GREEN) || ListedAs(p, id, YELLOW)
    ensures n <= 2 <==> !ListedAs(p, id, RED)
  {
  }

  lemma {:induction false} MeetsExactly(p: Policy, e: Expr, m: nat)
    requires m == Meaning(e, SeverityIn(p))
    ensures m <= 0 <==> Met(e, IsGreen(p))
    ensures m <= 1 <==> Met(e, IsGreenOrYellow(p))
    ensures m <= 2 <==> Met(e, IsNotRed(p))
  {
    forall id
      ensures (IsGreen(p)(id) <==> SeverityIn(p)(id) <= 0) && (IsGreenOrYellow(p)(id) <==> SeverityIn(p)(id) <= 1)
              && (IsNotRed(p)(id) <==> SeverityIn(p)(id) <= 2)
    {
      SeverityExactly(p, id, SeverityIn(p)(id));
    }
    MeaningIsMet(e, SeverityIn(p), 0, IsGreen(p));
    MeaningIsMet(e, SeverityIn(p), 1, IsGreenOrYellow(p));
    MeaningIsMet(e, SeverityIn(p), 2, IsNotRed(p));
  }

  /** What is answered, for an expression in which no OR stands under an AND: GREEN when ids listed
      GREEN meet it, YELLOW when it takes some listed YELLOW, RED when it cannot be met without one
      listed RED, and otherwise UNKNOWN.  GREEN is allowed, YELLOW reviewed, RED blocked, and for
      UNKNOWN the policy says. */
  lemma {:induction false} AnswerExactly(p: Policy, e: Expr, c: LicenseClass, a: Action)
    requires WellFormed(e) && !LoneInParens(e) && !OrUnderAnd(e)
    requires c == Classify(p, Print(e)).class_ && a == Classify(p, Print(e)).action
    ensures c == GREEN <==> Met(e, IsGreen(p))
    ensures c == YELLOW <==> Met(e, IsGreenOrYellow(p)) && !Met(e, IsGreen(p))
    ensures c == RED <==> !Met(e, IsNotRed(p))
    ensures a == match c case GREEN => Allow case YELLOW => Review case RED => Block case UNKNOWN => p.unknownAction
  {
    ClassifyAgainstMeaning(p, e);
    MeetsExactly(p, e, Meaning(e, SeverityIn(p)));
    ClassIs(p, Print(e), c);
  }

  lemma {:induction false} ClassIs(p: Policy, text: string, c: LicenseClass)
    requires c == Classify(p, text).class_
    ensures c == GREEN <==> Class(p, text) <= 0
    ensures c == YELLOW <==> Class(p, text) == 1
    ensures c == RED <==> Class(p, text) > 2
  {
  }
}

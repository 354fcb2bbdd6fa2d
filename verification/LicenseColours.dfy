/** The exact condition for the evaluator to be right under every policy, ids repeated or not:
    it is enough to look at the policies that know nothing but GREEN and RED. */
module LicenseColours {
  import opened Text
  import opened LicensePolicy
  import opened LicenseMeaning
  import opened LicenseReading
  import opened LicenseCorrectness

  /** GREEN up to a severity, RED above it. */
  function Colour(v: nat, t: nat): nat {
    if v <= t then 0 else 3
  }

  ghost predicate Colours(other: string -> nat, sev: string -> nat, t: nat, ids: set<string>) {
    forall id :: ToLower(id) in ids ==> other(id) == Colour(sev(id), t)
  }

  function ColouredReading(r: Reading, t: nat): Reading {
    match r
    case Last(v) => Last(Colour(v, t))
    case Then(v, isOr, rest) => Then(Colour(v, t), isOr, ColouredReading(rest, t))
  }

  lemma {:induction false} JoinOfColours(a: Reading, isOr: bool, b: Reading, t: nat)
    ensures ColouredReading(Join(a, isOr, b), t) == Join(ColouredReading(a, t), isOr, ColouredReading(b, t))
  {
    if a.Then? {
      JoinOfColours(a.rest, isOr, b, t);
    }
  }

  lemma {:induction false} ReadingOfColours(e: Expr, other: string -> nat, sev: string -> nat, t: nat, ids: set<string>)
    requires Ids(e) <= ids && Colours(other, sev, t, ids)
    ensures FlatReading(e, other) == ColouredReading(FlatReading(e, sev), t)
  {
    match e
    case Id(_) =>
    case Paren(x) => ReadingOfColours(x, other, sev, t, ids);
    case Or(l, _, r) =>
      ReadingOfColours(l, other, sev, t, ids);
      ReadingOfColours(r, other, sev, t, ids);
      JoinOfColours(FlatReading(l, sev), true, FlatReading(r, sev), t);
    case And(l, _, r) =>
      ReadingOfColours(l, other, sev, t, ids);
      ReadingOfColours(r, other, sev, t, ids);
      JoinOfColours(FlatReading(l, sev), false, FlatReading(r, sev), t);
  }

  lemma {:induction false} FlatOfColours(r: Reading, acc: nat, t: nat)
    ensures FlatFrom(ColouredReading(r, t), Colour(acc, t)) == Colour(FlatFrom(r, acc), t)
  {
    if r.Then? {
      if r.isOr {
        FlatOfColours(r.rest, 0, t);
      } else {
        FlatOfColours(r.rest, Max(acc, r.value), t);
        assert Max(Colour(acc, t), Colour(r.value, t)) == Colour(Max(acc, r.value), t);
      }
    }
  }

  lemma {:induction false} MeaningOfColours(e: Expr, other: string -> nat, sev: string -> nat, t: nat, ids: set<string>)
    requires Ids(e) <= ids && Colours(other, sev, t, ids)
    ensures Meaning(e, other) == Colour(Meaning(e, sev), t)
  {
    match e
    case Id(_) =>
    case Paren(x) => MeaningOfColours(x, other, sev, t, ids);
    case Or(l, _, r) =>
      MeaningOfColours(l, other, sev, t, ids);
      MeaningOfColours(r, other, sev, t, ids);
    case And(l, _, r) =>
      MeaningOfColours(l, other, sev, t, ids);
      MeaningOfColours(r, other, sev, t, ids);
  }

  lemma {:induction false} LowerTwice(id: string)
    ensures ToLower(ToLower(id)) == ToLower(id)
  {
  }

  /** The ids a policy puts at or below a severity. */
  function UpTo(p: Policy, t: nat, ids: set<string>): set<string> {
    set id | id in ids && Severity(Lookup(p, id)) <= t
  }

  lemma {:induction false} DividedColours(p: Policy, t: nat, ids: set<string>)
    ensures Colours(SeverityIn(Divided(ids, UpTo(p, t, ids))), SeverityIn(p), t, ids)
  {
    var greens := UpTo(p, t, ids);
    DividedDivides(ids, greens);
    forall id | ToLower(id) in ids ensures SeverityIn(Divided(ids, greens))(id) == Colour(SeverityIn(p)(id), t) {
      LowerTwice(id);
    }
  }

  /** The policies over the expression's ids that know only two classes. */
  ghost predicate RightInTwoColours(e: Expr) {
    forall greens :: greens <= Ids(e) ==> ReadRight(Divided(Ids(e), greens), e)
  }

  lemma {:induction false} MisreadInTwoColours(p: Policy, e: Expr)
    requires WellFormed(e) && !LoneInParens(e) && !ReadRight(p, e)
    ensures !RightInTwoColours(e)
  {
    var ids, sev, t := Ids(e), SeverityIn(p), Class(p, Print(e));
    var q := Divided(ids, UpTo(p, t, ids));
    ClassifyAgainstMeaning(p, e);
    ClassifyAgainstMeaning(q, e);
    DividedColours(p, t, ids);
    ReadingOfColours(e, SeverityIn(q), sev, t, ids);
    FlatOfColours(FlatReading(e, sev), 0, t);
    MeaningOfColours(e, SeverityIn(q), sev, t, ids);
    assert !ReadRight(q, e) && UpTo(p, t, ids) <= ids;
  }

  lemma {:induction false} LoneHasOneId(e: Expr) returns (id: string)
    requires WellFormed(e) && (LoneInParens(e) || e.Id?)
    ensures Ids(e) == {ToLower(id)} && GoodId(id)
    ensures forall sev :: Meaning(e, sev) == sev(id)
  {
    if e.Id? {
      id := e.id;
    } else {
      id := LoneHasOneId(e.inner);
    }
  }

  lemma {:induction false} LoneIsMissing(e: Expr, id: string, text: string)
    requires LoneInParens(e) && GoodId(id) && text == Print(e)
    ensures ToLower(text) != ToLower(id)
  {
    assert text[0] == '(' && id[0] != '(';
    assert ToLower(text)[0] == '(' && ToLower(id)[0] != '(';
  }

  lemma {:induction false} OnlyGreen(p: Policy, id: string, text: string)
    requires p == Divided({ToLower(id)}, {ToLower(id)}) && ToLower(text) != ToLower(id)
    ensures Severity(Lookup(p, id)) == 0 && Severity(Lookup(p, text)) == 2
  {
  }

  /** A lone id in parentheses is misread by the policy that lists it, and only it, as GREEN. */
  lemma {:induction false} LoneIsMisread(e: Expr, p: Policy)
    requires WellFormed(e) && LoneInParens(e) && p == Divided(Ids(e), Ids(e))
    ensures !ReadRight(p, e)
  {
    var id := LoneHasOneId(e);
    LoneIsMissing(e, id, Print(e));
    OnlyGreen(p, id, Print(e));
    LoneReadsRaw(p, e, id);
  }

  lemma {:induction false} LoneReadsRaw(p: Policy, e: Expr, id: string)
    requires WellFormed(e) && LoneInParens(e) && Meaning(e, SeverityIn(p)) == SeverityIn(p)(id)
    ensures ReadRight(p, e) <==> Severity(Lookup(p, Print(e))) == Severity(Lookup(p, id))
  {
    LoneInParensIsLookedUpRaw(p, e);
  }

  /** For every expression, repeated ids or not: the evaluator is right under every policy
      exactly when the expression is no lone id in parentheses and it is right under every
      policy that divides the expression's ids into GREEN and RED. */
  lemma {:induction false} RightExactly(e: Expr)
    requires WellFormed(e)
    ensures (forall p: Policy :: ReadRight(p, e)) <==> !LoneInParens(e) && RightInTwoColours(e)
  {
    if LoneInParens(e) {
      LoneIsMisread(e, Divided(Ids(e), Ids(e)));
    } else if p: Policy :| !ReadRight(p, e) {
      MisreadInTwoColours(p, e);
    }
  }

  /** With repeated ids an OR under an AND need not be misread: `(A OR A) AND A` never is. */
  lemma {:induction false} RepeatedIdIsReadRight(p: Policy, a: string)
    requires GoodId(a)
    ensures OrUnderAnd(Choice(a, a, a)) && ReadRight(p, Choice(a, a, a))
  {
    ChoiceThenConjunction(p, a, a, a);
  }
}

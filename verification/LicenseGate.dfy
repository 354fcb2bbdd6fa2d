/** The license evaluator as the gate of the engine registry. */
module LicenseGate {
  import opened Wrappers
  import opened LicensePolicy
  import opened LicenseMeaning
  import opened LicenseReading
  import opened LicenseCorrectness
  import Registry

  /** A library engine under the license text, enabled and pinned. */
  predicate LibraryUnder(m: Registry.Manifest, lock: Option<Registry.LockEntry>, text: string) {
    && m.integration == Registry.LIBRARY && m.license == text && m.enabled
    && lock.Some? && (lock.value.license == "" || lock.value.license == text)
  }

  lemma {:induction false} GreenIsZero(c: LicenseClass)
    ensures Severity(c) == 0 <==> c == GREEN
  {
  }

  lemma {:induction false} LibraryIsClean(
    rules: Registry.Rules, m: Registry.Manifest, lock: Option<Registry.LockEntry>, text: string, n: nat)
    requires LibraryUnder(m, lock, text) && n == Severity(rules.classOf(text))
    ensures Registry.Clean(rules, m, lock) <==> n == 0
  {
    GreenIsZero(rules.classOf(text));
  }

  /** Such an engine is usable on registration exactly when its text has the class GREEN. */
  lemma {:induction false} UsableByClass(
    rules: Registry.Rules, m: Registry.Manifest, lock: Option<Registry.LockEntry>, text: string, n: nat,
    engine: Registry.Engine)
    requires LibraryUnder(m, lock, text) && n == Severity(rules.classOf(text))
    requires engine == Registry.NewEngine(rules, m, lock)
    ensures Registry.Usable(engine) <==> n == 0
  {
    LibraryIsClean(rules, m, lock, text, n);
    Registry.UsableOnArrival(rules, m, lock, engine);
  }

  lemma {:induction false} ClassOfPolicy(
    p: Policy, armsLength: set<Registry.Integration>, text: string, rules: Registry.Rules, n: nat)
    requires rules == Registry.PolicyRules(p, armsLength) && n == Class(p, text)
    ensures n == Severity(rules.classOf(text))
  {
  }

  /** Under a policy it is usable on registration exactly when the evaluator reads its license as GREEN. */
  lemma {:induction false} GateExactly(
    p: Policy, armsLength: set<Registry.Integration>, rules: Registry.Rules, m: Registry.Manifest,
    lock: Option<Registry.LockEntry>,
    text: string, engine: Registry.Engine, n: nat)
    requires rules == Registry.PolicyRules(p, armsLength) && LibraryUnder(m, lock, text)
    requires engine == Registry.NewEngine(rules, m, lock) && n == Class(p, text)
    ensures Registry.Usable(engine) <==> n == 0
  {
    ClassOfPolicy(p, armsLength, text, rules, n);
    UsableByClass(rules, m, lock, text, n, engine);
  }

  lemma {:induction false} ClassIsMeaning(p: Policy, e: Expr, text: string, sev: string -> nat, n: nat, meaning: nat)
    requires WellFormed(e) && !LoneInParens(e) && text == Print(e) && sev == SeverityIn(p)
    requires n == Class(p, text) && meaning == Meaning(e, sev) && !OrUnderAnd(e)
    ensures n == meaning
  {
    ClassifyAgainstMeaning(p, e);
  }

  lemma {:induction false} GreenIsRead(p: Policy, e: Expr, text: string, sev: string -> nat, n: nat)
    requires WellFormed(e) && !LoneInParens(e) && text == Print(e) && sev == SeverityIn(p)
    requires n == Class(p, text) && Meaning(e, sev) == 0
    ensures n == 0
  {
    ClassifyAgainstMeaning(p, e);
  }

  lemma {:induction false} RulesRead(
    p: Policy, armsLength: set<Registry.Integration>, rules: Registry.Rules, text: string, e: Expr, sev: string -> nat,
    meaning: nat)
    requires rules == Registry.PolicyRules(p, armsLength)
    requires WellFormed(e) && !LoneInParens(e) && text == Print(e) && sev == SeverityIn(p) && meaning == Meaning(e, sev)
    requires !OrUnderAnd(e)
    ensures meaning == Severity(rules.classOf(text))
  {
    ClassIsMeaning(p, e, text, sev, Class(p, text), meaning);
    ClassOfPolicy(p, armsLength, text, rules, Class(p, text));
  }

  /** Where no OR stands under an AND the gate is right: the engine is usable exactly when its
      license means GREEN. */
  lemma {:induction false} GateIsRight(
    p: Policy, armsLength: set<Registry.Integration>, rules: Registry.Rules, m: Registry.Manifest,
    lock: Option<Registry.LockEntry>,
    text: string, engine: Registry.Engine, e: Expr, sev: string -> nat, meaning: nat)
    requires rules == Registry.PolicyRules(p, armsLength) && LibraryUnder(m, lock, text)
    requires engine == Registry.NewEngine(rules, m, lock)
    requires WellFormed(e) && !LoneInParens(e) && text == Print(e) && sev == SeverityIn(p) && meaning == Meaning(e, sev)
    requires !OrUnderAnd(e)
    ensures Registry.Usable(engine) <==> meaning == 0
  {
    RulesRead(p, armsLength, rules, text, e, sev, meaning);
    UsableByClass(rules, m, lock, text, meaning, engine);
  }

  /** In general it errs only by letting in. */
  lemma {:induction false} GateLetsIn(
    p: Policy, armsLength: set<Registry.Integration>, rules: Registry.Rules, m: Registry.Manifest,
    lock: Option<Registry.LockEntry>,
    text: string, engine: Registry.Engine, n: nat, e: Expr, sev: string -> nat, meaning: nat)
    requires rules == Registry.PolicyRules(p, armsLength) && LibraryUnder(m, lock, text)
    requires engine == Registry.NewEngine(rules, m, lock) && n == Class(p, text)
    requires WellFormed(e) && !LoneInParens(e) && text == Print(e) && sev == SeverityIn(p) && meaning == Meaning(e, sev)
    requires meaning == 0
    ensures Registry.Usable(engine)
  {
    GreenIsRead(p, e, text, sev, n);
    GateExactly(p, armsLength, rules, m, lock, text, engine, n);
  }

  lemma {:induction false} MisledOn(e: Expr, p: Policy, text: string, sev: string -> nat, n: nat)
    requires WellFormed(e) && !LoneInParens(e) && DistinctIds(e) && OrUnderAnd(e) && text == Print(e)
    requires p == Divided(Ids(e), Misleading(e)) && sev == SeverityIn(p) && n == Class(p, text)
    ensures Meaning(e, sev) == 3 && n == 0
  {
    SomePolicyIsMisled(e, p, sev);
  }

  /** The misreading reaches the registry: for every expression with an OR under an AND and ids
      that all differ, there is a policy by which the license means RED, and yet every library
      engine under it is usable as soon as it is registered. */
  lemma {:induction false} MisreadLicensePasses(
    p: Policy, armsLength: set<Registry.Integration>, rules: Registry.Rules, m: Registry.Manifest,
    lock: Option<Registry.LockEntry>,
    text: string, engine: Registry.Engine, n: nat, e: Expr, sev: string -> nat)
    requires rules == Registry.PolicyRules(p, armsLength) && LibraryUnder(m, lock, text)
    requires engine == Registry.NewEngine(rules, m, lock) && n == Class(p, text)
    requires WellFormed(e) && !LoneInParens(e) && DistinctIds(e) && OrUnderAnd(e) && text == Print(e)
    requires p == Divided(Ids(e), Misleading(e)) && sev == SeverityIn(p)
    ensures Meaning(e, sev) == 3 && Registry.Usable(engine)
  {
    MisledOn(e, p, text, sev, n);
    GateExactly(p, armsLength, rules, m, lock, text, engine, n);
  }
}

/** The egress proxy's request handlers, which share one scope engine and its cache of compiled
    patterns without a lock.  Any number of checks, as a system of steps with at most one access
    to the cache each; the scheduler chooses whose step is next. */
module GoHandlers {
  import opened Wrappers
  import opened ScopeRules
  import opened GoScope

  /** The engine, and what is asked of it: one parsed URL for each handler. */
  datatype Proxy = Proxy(lib: Library, rules: seq<GoRule>, authorized: bool, asked: seq<Option<Url>>)

  /** Where one check stands: at a rule, about to write that rule's compiled pattern to the cache,
      or done. */
  datatype Phase = Scanning(exclude: bool, i: nat) | Storing(exclude: bool, i: nat) | Answered(d: Decision)

  datatype State = State(cache: map<string, string -> bool>, phase: seq<Phase>)

  function Right(c: Proxy, ask: Option<Url>): Decision {
    GoCheckUrl(c.lib, c.rules, c.authorized, ask)
  }

  predicate GetsToRules(c: Proxy, ask: Option<Url>) {
    c.authorized && ask.Some? && !GoGuarded(c.lib, c.rules, ask.value.host)
  }

  function Start(c: Proxy): State {
    State(map[], seq(|c.asked|, h requires 0 <= h < |c.asked| =>
      if GetsToRules(c, c.asked[h]) then Scanning(true, 0) else Answered(Right(c, c.asked[h]))))
  }

  predicate OfKind(c: Proxy, exclude: bool, i: nat) {
    i < |c.rules| && IsExclude(c.rules[i]) == exclude
  }

  predicate Matches(c: Proxy, u: Url, exclude: bool, i: nat) {
    OfKind(c, exclude, i) && GoMatches(c.lib, c.rules[i], u)
  }

  /** The rule needs its pattern for this URL. */
  predicate Consults(c: Proxy, u: Url, exclude: bool, i: nat) {
    OfKind(c, exclude, i) && GoReaches(c.lib, c.rules[i], u) && c.rules[i].pathRegex.Some?
  }

  predicate Compilable(c: Proxy, u: Url, exclude: bool, i: nat) {
    Consults(c, u, exclude, i) && c.lib.compile(c.rules[i].pathRegex.value).Some?
  }

  function After(exclude: bool, i: nat, matched: bool): Phase {
    if matched then Answered(if exclude then Excluded(i) else Included(i)) else Scanning(exclude, i + 1)
  }

  predicate Enabled(c: Proxy, s: State, h: nat) {
    && h < |s.phase| == |c.asked| && c.asked[h].Some? && !s.phase[h].Answered?
    && (s.phase[h].Storing? ==> Compilable(c, c.asked[h].value, s.phase[h].exclude, s.phase[h].i))
  }

  function Moved(s: State, h: nat, p: Phase): State
    requires h < |s.phase|
  {
    s.(phase := s.phase[h := p])
  }

  function Step(c: Proxy, s: State, h: nat): State
    requires Enabled(c, s, h)
  {
    var u := c.asked[h].value;
    match s.phase[h]
    case Scanning(exclude, i) =>
      if i >= |c.rules| then Moved(s, h, if exclude then Scanning(false, 0) else Answered(NotCovered))
      else if !Consults(c, u, exclude, i) then Moved(s, h, After(exclude, i, Matches(c, u, exclude, i)))
      else
        var pattern := c.rules[i].pathRegex.value;
        if pattern in s.cache then
          Moved(s, h, After(exclude, i, s.cache[pattern](u.path) && GoVerbMatches(c.rules[i], u)))
        else if c.lib.compile(pattern).None? then Moved(s, h, After(exclude, i, false))
        else Moved(s, h, Storing(exclude, i))
    case Storing(exclude, i) =>
      var pattern := c.rules[i].pathRegex.value;
      var search := c.lib.compile(pattern).value;
      var p := After(exclude, i, search(u.path) && GoVerbMatches(c.rules[i], u));
      Moved(s, h, p).(cache := s.cache[pattern := search])
  }

  /** The state after a sequence of steps, if each was possible. */
  function Exec(c: Proxy, s: State, hs: seq<nat>): Option<State>
    decreases |hs|
  {
    if hs == [] then Some(s)
    else if Enabled(c, s, hs[0]) then Exec(c, Step(c, s, hs[0]), hs[1..])
    else None
  }

  // ----- every answer is right

  /** The check comes to this rule: no rule before it decides. */
  ghost predicate Visits(c: Proxy, u: Url, exclude: bool, i: nat) {
    && (forall l :: 0 <= l < i ==> !Matches(c, u, exclude, l))
    && (!exclude ==> forall l :: 0 <= l < |c.rules| ==> !Matches(c, u, true, l))
  }

  ghost predicate GoodPhase(c: Proxy, ask: Option<Url>, p: Phase) {
    match p
    case Answered(d) => d == Right(c, ask)
    case Scanning(exclude, i) => GetsToRules(c, ask) && i <= |c.rules| && Visits(c, ask.value, exclude, i)
    case Storing(exclude, i) =>
      GetsToRules(c, ask) && Visits(c, ask.value, exclude, i) && Compilable(c, ask.value, exclude, i)
  }

  ghost predicate GoodCache(c: Proxy, cache: map<string, string -> bool>) {
    forall p :: p in cache ==> c.lib.compile(p) == Some(cache[p])
  }

  ghost predicate Inv(c: Proxy, s: State) {
    && GoodCache(c, s.cache) && |s.phase| == |c.asked|
    && forall h :: 0 <= h < |s.phase| ==> GoodPhase(c, c.asked[h], s.phase[h])
  }

  lemma {:induction false} SkipUnmatched(c: Proxy, u: Url, exclude: bool, i: nat, from: nat)
    requires from <= i <= |c.rules| && forall l :: from <= l < i ==> !Matches(c, u, exclude, l)
    ensures GoFind(c.rules, exclude, GoMatcher(c.lib, u), from) == GoFind(c.rules, exclude, GoMatcher(c.lib, u), i)
    decreases i - from
  {
    if from < i {
      assert !Matches(c, u, exclude, from);
      SkipUnmatched(c, u, exclude, i, from + 1);
    }
  }

  /** Where a check with no cache at all goes from a rule. */
  function Next(c: Proxy, u: Url, exclude: bool, i: nat): Phase {
    if i >= |c.rules| then (if exclude then Scanning(false, 0) else Answered(NotCovered))
    else After(exclude, i, Matches(c, u, exclude, i))
  }

  /** What is decided at a rule the check comes to is the answer. */
  lemma {:induction false} DecidedHere(c: Proxy, ask: Option<Url>, exclude: bool, i: nat, p: Phase)
    requires GetsToRules(c, ask) && i <= |c.rules| && Visits(c, ask.value, exclude, i)
    requires p == Next(c, ask.value, exclude, i)
    ensures GoodPhase(c, ask, p)
  {
    var u := ask.value;
    SkipUnmatched(c, u, exclude, i, 0);
    if !exclude {
      SkipUnmatched(c, u, true, |c.rules|, 0);
    }
  }

  lemma {:induction false} StepKeeps(c: Proxy, s: State, h: nat)
    requires Inv(c, s) && Enabled(c, s, h)
    ensures Inv(c, Step(c, s, h))
  {
    var t, ask, exclude, i := Step(c, s, h), c.asked[h], s.phase[h].exclude, s.phase[h].i;
    assert GoodPhase(c, ask, s.phase[h]);
    DecidedHere(c, ask, exclude, i, Next(c, ask.value, exclude, i));
    forall k | 0 <= k < |t.phase| ensures GoodPhase(c, c.asked[k], t.phase[k]) {
      assert GoodPhase(c, c.asked[k], s.phase[k]);
    }
  }

  lemma {:induction false} RunKeeps(c: Proxy, s: State, hs: seq<nat>, t: State)
    requires Inv(c, s) && Exec(c, s, hs) == Some(t)
    ensures Inv(c, t)
    decreases |hs|
  {
    if hs != [] {
      StepKeeps(c, s, hs[0]);
      RunKeeps(c, Step(c, s, hs[0]), hs[1..], t);
    }
  }

  /** However the handlers' steps fall, each check that is done has answered as it would alone on
      a fresh engine. */
  lemma {:induction false} AnswersAreRight(c: Proxy, hs: seq<nat>, s: State, h: nat)
    requires Exec(c, Start(c), hs) == Some(s) && h < |c.asked|
    ensures |s.phase| == |c.asked| && GoodCache(c, s.cache)
    ensures s.phase[h].Answered? ==> s.phase[h].d == GoCheckUrl(c.lib, c.rules, c.authorized, c.asked[h])
  {
    RunKeeps(c, Start(c), hs, s);
    assert GoodPhase(c, c.asked[h], s.phase[h]);
  }

  // ----- every check ends

  function Work(c: Proxy, p: Phase): int {
    match p
    case Answered(_) => 0
    case Scanning(exclude, i) => 2 * (|c.rules| - i) + 1 + if exclude then 2 * |c.rules| + 1 else 0
    case Storing(exclude, i) => 2 * (|c.rules| - i) + if exclude then 2 * |c.rules| + 1 else 0
  }

  function TotalWork(c: Proxy, ps: seq<Phase>): int {
    if ps == [] then 0 else Work(c, ps[0]) + TotalWork(c, ps[1..])
  }

  lemma {:induction false} WorkUpdate(c: Proxy, ps: seq<Phase>, h: nat, p: Phase)
    requires h < |ps|
    ensures TotalWork(c, ps[h := p]) == TotalWork(c, ps) - Work(c, ps[h]) + Work(c, p)
  {
    if h > 0 {
      assert ps[h := p][1..] == ps[1..][h - 1 := p];
      WorkUpdate(c, ps[1..], h - 1, p);
    } else {
      assert ps[0 := p][1..] == ps[1..];
    }
  }

  lemma {:induction false} WorkIsBounded(c: Proxy, ps: seq<Phase>)
    requires forall h :: 0 <= h < |ps| ==> 0 <= Work(c, ps[h]) <= 4 * |c.rules| + 2
    ensures 0 <= TotalWork(c, ps) <= |ps| * (4 * |c.rules| + 2)
  {
    if ps != [] {
      assert forall h :: 0 <= h < |ps[1..]| ==> ps[1..][h] == ps[h + 1];
      WorkIsBounded(c, ps[1..]);
      assert |ps| * (4 * |c.rules| + 2) == (|ps| - 1) * (4 * |c.rules| + 2) + (4 * |c.rules| + 2);
    }
  }

  lemma {:induction false} InvBoundsWork(c: Proxy, s: State)
    requires Inv(c, s)
    ensures 0 <= TotalWork(c, s.phase) <= |c.asked| * (4 * |c.rules| + 2)
  {
    forall h | 0 <= h < |s.phase| ensures 0 <= Work(c, s.phase[h]) <= 4 * |c.rules| + 2 {
      assert GoodPhase(c, c.asked[h], s.phase[h]);
    }
    WorkIsBounded(c, s.phase);
  }

  lemma {:induction false} StepWorks(c: Proxy, s: State, h: nat)
    requires Inv(c, s) && Enabled(c, s, h)
    ensures TotalWork(c, Step(c, s, h).phase) < TotalWork(c, s.phase)
  {
    assert GoodPhase(c, c.asked[h], s.phase[h]);
    WorkUpdate(c, s.phase, h, Step(c, s, h).phase[h]);
  }

  lemma {:induction false} RunIsShort(c: Proxy, s: State, hs: seq<nat>, t: State)
    requires Inv(c, s) && Exec(c, s, hs) == Some(t)
    ensures |hs| <= TotalWork(c, s.phase) - TotalWork(c, t.phase)
    decreases |hs|
  {
    if hs != [] {
      StepKeeps(c, s, hs[0]);
      StepWorks(c, s, hs[0]);
      RunIsShort(c, Step(c, s, hs[0]), hs[1..], t);
    }
  }

  /** No schedule is longer than 4 |rules| + 2 steps for each handler, and where one can go no
      further every check has answered. */
  lemma {:induction false} EveryCheckEnds(c: Proxy, hs: seq<nat>, s: State)
    requires Exec(c, Start(c), hs) == Some(s)
    ensures |hs| <= |c.asked| * (4 * |c.rules| + 2)
    ensures (forall h :: !Enabled(c, s, h)) <==> forall h :: 0 <= h < |s.phase| ==> s.phase[h].Answered?
  {
    RunKeeps(c, Start(c), hs, s);
    RunIsShort(c, Start(c), hs, s);
    InvBoundsWork(c, Start(c));
    InvBoundsWork(c, s);
    forall h: nat | h < |s.phase| ensures Enabled(c, s, h) <==> !s.phase[h].Answered? {
      assert GoodPhase(c, c.asked[h], s.phase[h]);
    }
  }

  // ----- two writers

  /** The check comes to a rule that needs a pattern which compiles. */
  ghost predicate ComesToPattern(c: Proxy, ask: Option<Url>) {
    GetsToRules(c, ask) && exists exclude, i :: Visits(c, ask.value, exclude, i) && Compilable(c, ask.value, exclude, i)
  }

  predicate BothStoring(s: State, g: nat, h: nat) {
    g < |s.phase| && h < |s.phase| && s.phase[g].Storing? && s.phase[h].Storing?
  }

  predicate Collide(c: Proxy, hs: seq<nat>, g: nat, h: nat) {
    Exec(c, Start(c), hs).Some? && BothStoring(Exec(c, Start(c), hs).value, g, h)
  }

  /** With the cache empty, a check runs alone up to its first write. */
  lemma {:induction false} RunsToWrite(c: Proxy, s: State, h: nat, exclude: bool, i: nat)
    returns (hs: seq<nat>, p: Phase)
    requires h < |s.phase| == |c.asked| && GetsToRules(c, c.asked[h]) && s.cache == map[]
    requires Visits(c, c.asked[h].value, exclude, i) && Compilable(c, c.asked[h].value, exclude, i)
    requires s.phase[h].Scanning? && s.phase[h].i <= |c.rules| && (s.phase[h].exclude || !exclude)
    requires s.phase[h].exclude == exclude ==> s.phase[h].i <= i
    ensures p.Storing? && Exec(c, s, hs) == Some(Moved(s, h, p))
    decreases Work(c, s.phase[h])
  {
    var u, at, j := c.asked[h].value, s.phase[h].exclude, s.phase[h].i;
    var t := Step(c, s, h);
    if j < |c.rules| && Compilable(c, u, at, j) {
      hs, p := [h], Storing(at, j);
      assert Exec(c, t, hs[1..]) == Some(t);
    } else {
      assert j < |c.rules| ==> !Matches(c, u, at, j);
      var rest;
      rest, p := RunsToWrite(c, t, h, exclude, i);
      hs := [h] + rest;
      assert hs[1..] == rest && Moved(t, h, p) == Moved(s, h, p);
    }
  }

  lemma {:induction false} ExecJoin(c: Proxy, s: State, a: seq<nat>, b: seq<nat>, t: State)
    requires Exec(c, s, a) == Some(t)
    ensures Exec(c, s, a + b) == Exec(c, t, b)
    decreases |a|
  {
    if a == [] {
      assert a + b == b;
    } else {
      assert (a + b)[1..] == a[1..] + b;
      ExecJoin(c, Step(c, s, a[0]), a[1..], b, t);
    }
  }

  /** Two handlers can be about to write to the cache at the same moment exactly when each of their
      checks comes to a pattern that compiles. */
  lemma {:induction false} CollideExactly(c: Proxy, g: nat, h: nat)
    requires g < |c.asked| && h < |c.asked| && g != h
    ensures (exists hs :: Collide(c, hs, g, h)) <==> ComesToPattern(c, c.asked[g]) && ComesToPattern(c, c.asked[h])
  {
    if hs :| Collide(c, hs, g, h) {
      var s := Exec(c, Start(c), hs).value;
      RunKeeps(c, Start(c), hs, s);
      assert GoodPhase(c, c.asked[g], s.phase[g]) && GoodPhase(c, c.asked[h], s.phase[h]);
    }
    if ComesToPattern(c, c.asked[g]) && ComesToPattern(c, c.asked[h]) {
      var hs := CollidingRun(c, g, h);
      assert Collide(c, hs, g, h);
    }
  }

  lemma {:induction false} CollidingRun(c: Proxy, g: nat, h: nat) returns (hs: seq<nat>)
    requires g < |c.asked| && h < |c.asked| && g != h
    requires ComesToPattern(c, c.asked[g]) && ComesToPattern(c, c.asked[h])
    ensures Collide(c, hs, g, h)
  {
    var s := Start(c);
    var exclude, i :| Visits(c, c.asked[g].value, exclude, i) && Compilable(c, c.asked[g].value, exclude, i);
    var first, p := RunsToWrite(c, s, g, exclude, i);
    var t := Moved(s, g, p);
    var exclude', i' :| Visits(c, c.asked[h].value, exclude', i') && Compilable(c, c.asked[h].value, exclude', i');
    var second, q := RunsToWrite(c, t, h, exclude', i');
    hs := first + second;
    ExecJoin(c, s, first, second, t);
  }
}

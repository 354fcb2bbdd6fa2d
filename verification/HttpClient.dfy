/** The scope-checked, rate-limited client shared by many coroutines, as a system of atomic
    steps between suspension points.  Any number of `fetch` calls are in progress at once;
    the scheduler, the clock and the server choose the next step. */
module HttpClient {
  import opened Wrappers
  import opened TokenBucket

  datatype Call = Call(verb: string, url: string)

  /** `allowed` is the scope decision, `bucket` the limiter as created at `bucket.updated`. */
  datatype Config = Config(calls: seq<Call>, allowed: Call -> bool, concurrency: nat, bucket: Bucket)

  /** Where one `fetch` call stands. */
  datatype Phase =
    | Idle                               // called, nothing done yet
    | Refused                            // returned: out of scope
    | WaitLock                           // queued for the bucket's lock
    | Sleeping(began: real, until: real) // inside the bucket, holding its lock
    | WaitSlot                           // granted, queued for the semaphore
    | InFlight                           // request sent, response pending
    | Done(ok: bool)                     // returned a response or an error

  datatype Sent = Sent(fetch: nat, at: real)

  /** `takes` and `sent` are the history of grants and of requests put on the wire. */
  datatype State = State(
    now: real, bucket: Bucket, holder: Option<nat>, free: nat, phase: seq<Phase>, takes: seq<Take>, sent: seq<Sent>)

  datatype Event =
    | Check(i: nat) | Begin(i: nat) | Wake(i: nat) | Send(i: nat) | Finish(i: nat, ok: bool) | Tick(to: real)

  function Initial(c: Config): State {
    State(c.bucket.updated, c.bucket, None, c.concurrency, seq(|c.calls|, _ => Idle), [], [])
  }

  predicate Enabled(c: Config, s: State, e: Event) {
    match e
    case Check(i) => i < |s.phase| == |c.calls| && s.phase[i].Idle?
    case Begin(i) => i < |s.phase| && s.phase[i].WaitLock? && s.holder.None? && s.bucket.rate > 0.0
    case Wake(i) => i < |s.phase| && s.phase[i].Sleeping? && s.phase[i].until <= s.now
    case Send(i) => i < |s.phase| && s.phase[i].WaitSlot? && s.free > 0
    case Finish(i, _) => i < |s.phase| && s.phase[i].InFlight?
    case Tick(to) => s.now <= to
  }

  function Step(c: Config, s: State, e: Event): State
    requires Enabled(c, s, e)
  {
    match e
    case Check(i) =>
      s.(phase := s.phase[i := if c.allowed(c.calls[i]) then WaitLock else Refused])
    case Begin(i) =>
      var level := Level(s.bucket, s.now);
      if level < 1.0
      then s.(bucket := s.bucket.(tokens := level, updated := s.now),
              holder := Some(i),
              phase := s.phase[i := Sleeping(s.now, s.now + (1.0 - level) / s.bucket.rate)])
      else s.(bucket := s.bucket.(tokens := level - 1.0, updated := s.now),
              phase := s.phase[i := WaitSlot],
              takes := s.takes + [Take(s.now, s.now)])
    case Wake(i) =>
      s.(bucket := s.bucket.(tokens := 0.0),
         holder := None,
         phase := s.phase[i := WaitSlot],
         takes := s.takes + [Take(s.phase[i].began, s.now)])
    case Send(i) =>
      s.(free := s.free - 1, phase := s.phase[i := InFlight], sent := s.sent + [Sent(i, s.now)])
    case Finish(i, ok) =>
      s.(free := s.free + 1, phase := s.phase[i := Done(ok)])
    case Tick(to) =>
      s.(now := to)
  }

  /** The state after a sequence of steps, if each was possible. */
  function Exec(c: Config, s: State, es: seq<Event>): Option<State>
    decreases |es|
  {
    if es == [] then Some(s)
    else if Enabled(c, s, es[0]) then Exec(c, Step(c, s, es[0]), es[1..])
    else None
  }

  // ----- counting phases

  function Count(ps: seq<Phase>, p: Phase -> bool): nat {
    if ps == [] then 0 else (if p(ps[0]) then 1 else 0) + Count(ps[1..], p)
  }

  lemma {:induction false} CountUpdate(ps: seq<Phase>, i: nat, x: Phase, p: Phase -> bool)
    requires i < |ps|
    ensures Count(ps[i := x], p) == Count(ps, p) - (if p(ps[i]) then 1 else 0) + (if p(x) then 1 else 0)
    ensures p(ps[i]) ==> Count(ps, p) > 0
  {
    if i > 0 {
      assert ps[i := x][1..] == ps[1..][i - 1 := x];
      CountUpdate(ps[1..], i - 1, x, p);
    } else {
      assert ps[0 := x][1..] == ps[1..];
    }
  }

  const FLYING: Phase -> bool := (p: Phase) => p.InFlight?
  const GRANTED: Phase -> bool := (p: Phase) => p.WaitSlot? || p.InFlight? || p.Done?
  const SENT_OUT: Phase -> bool := (p: Phase) => p.InFlight? || p.Done?

  // ----- the invariant

  ghost predicate LockInv(s: State) {
    && (s.holder.Some? ==> s.holder.value < |s.phase| && s.phase[s.holder.value].Sleeping?)
    && (forall i :: 0 <= i < |s.phase| && s.phase[i].Sleeping? ==> s.holder == Some(i))
  }

  ghost predicate BucketInv(c: Config, s: State) {
    c.bucket.rate > 0.0 && BucketMatches(c, s)
  }

  /** The bucket is what the grants so far leave, or that bucket looked at by its holder. */
  ghost predicate BucketMatches(c: Config, s: State)
    requires c.bucket.rate > 0.0
  {
    var left := AfterTakes(c.bucket, s.takes);
    && Run(c.bucket, c.bucket.updated, s.takes)
    && left.rate == c.bucket.rate
    && End(c.bucket.updated, s.takes) <= s.now
    && (s.holder.None? ==> s.bucket == left)
    && (s.holder.Some? && s.holder.value < |s.phase| && s.phase[s.holder.value].Sleeping? ==>
          var p := s.phase[s.holder.value];
          && End(c.bucket.updated, s.takes) <= p.began <= s.now
          && Level(left, p.began) < 1.0
          && s.bucket == left.(tokens := Level(left, p.began), updated := p.began)
          && p.until == p.began + (1.0 - Level(left, p.began)) / c.bucket.rate)
  }

  ghost predicate ScopeInv(c: Config, s: State) {
    && |s.phase| == |c.calls|
    && (forall i :: 0 <= i < |s.phase| && !s.phase[i].Idle? ==> (s.phase[i].Refused? <==> !c.allowed(c.calls[i])))
    && (forall k :: 0 <= k < |s.sent| ==> s.sent[k].fetch < |c.calls| && c.allowed(c.calls[s.sent[k].fetch]))
  }

  ghost predicate CountInv(c: Config, s: State) {
    && s.free + Count(s.phase, FLYING) == c.concurrency
    && |s.takes| == Count(s.phase, GRANTED)
    && |s.sent| == Count(s.phase, SENT_OUT)
  }

  /** The k-th request goes out no earlier than the k-th grant. */
  ghost predicate OrderInv(s: State) {
    && |s.sent| <= |s.takes|
    && (forall k :: 0 <= k < |s.takes| ==> s.takes[k].granted <= s.now)
    && (forall k :: 0 <= k < |s.sent| ==> s.takes[k].granted <= s.sent[k].at <= s.now)
  }

  ghost predicate Inv(c: Config, s: State) {
    LockInv(s) && BucketInv(c, s) && ScopeInv(c, s) && CountInv(c, s) && OrderInv(s)
  }

  lemma {:induction false} CountLess(ps: seq<Phase>)
    ensures Count(ps, SENT_OUT) <= Count(ps, GRANTED)
  {
    if ps != [] {
      CountLess(ps[1..]);
    }
  }

  lemma {:induction false} CountIdle(n: nat, p: Phase -> bool)
    requires !p(Idle)
    ensures Count(seq(n, _ => Idle), p) == 0
  {
    if n > 0 {
      assert seq(n, _ => Idle)[1..] == seq(n - 1, _ => Idle);
      CountIdle(n - 1, p);
    }
  }

  lemma {:induction false} InitialInv(c: Config)
    requires Sane(c.bucket)
    ensures Inv(c, Initial(c))
  {
    var s := Initial(c);
    CountIdle(|c.calls|, FLYING);
    CountIdle(|c.calls|, GRANTED);
    CountIdle(|c.calls|, SENT_OUT);
    SequentialRun(c.bucket, c.bucket.updated, Take(0.0, 0.0), []);
  }

  lemma {:induction false} StepLock(c: Config, s: State, e: Event)
    requires Inv(c, s) && Enabled(c, s, e)
    ensures LockInv(Step(c, s, e))
  {
  }

  lemma {:induction false} StepScope(c: Config, s: State, e: Event)
    requires Inv(c, s) && Enabled(c, s, e)
    ensures ScopeInv(c, Step(c, s, e))
  {
  }

  lemma {:induction false} StepCount(c: Config, s: State, e: Event)
    requires Inv(c, s) && Enabled(c, s, e)
    ensures CountInv(c, Step(c, s, e))
  {
    if !e.Tick? {
      var x := Step(c, s, e).phase[e.i];
      assert Step(c, s, e).phase == s.phase[e.i := x];
      CountUpdate(s.phase, e.i, x, FLYING);
      CountUpdate(s.phase, e.i, x, GRANTED);
      CountUpdate(s.phase, e.i, x, SENT_OUT);
    }
  }

  lemma {:induction false} StepOrder(c: Config, s: State, e: Event)
    requires Inv(c, s) && Enabled(c, s, e)
    ensures OrderInv(Step(c, s, e))
  {
    StepCount(c, s, e);
    CountLess(Step(c, s, e).phase);
  }

  lemma {:induction false} GrantKeepsBucket(c: Config, s: State, t: Take)
    requires Sane(c.bucket) && BucketInv(c, s)
    requires End(c.bucket.updated, s.takes) <= t.now && t.now + Wait(AfterTakes(c.bucket, s.takes), t.now) <= t.granted
    ensures Run(c.bucket, c.bucket.updated, s.takes + [t])
    ensures AfterTakes(c.bucket, s.takes + [t]) == Taken(AfterTakes(c.bucket, s.takes), t.now)
    ensures End(c.bucket.updated, s.takes + [t]) == t.granted
  {
    RunSnoc(c.bucket, c.bucket.updated, s.takes, t);
    AfterTakesSnoc(c.bucket, s.takes, t);
  }

  lemma {:induction false} StepBucket(c: Config, s: State, e: Event)
    requires Sane(c.bucket) && Inv(c, s) && Enabled(c, s, e)
    ensures BucketInv(c, Step(c, s, e))
  {
    match e
    case Begin(i) =>
      if Level(s.bucket, s.now) >= 1.0 {
        GrantKeepsBucket(c, s, Take(s.now, s.now));
      }
    case Wake(i) =>
      GrantKeepsBucket(c, s, Take(s.phase[i].began, s.now));
    case _ =>
  }

  /** Every state reached by any interleaving satisfies the invariant. */
  lemma {:induction false} ExecInv(c: Config, s: State, es: seq<Event>)
    requires Sane(c.bucket) && Inv(c, s) && Exec(c, s, es).Some?
    ensures Inv(c, Exec(c, s, es).value)
    decreases |es|
  {
    if es != [] {
      StepLock(c, s, es[0]);
      StepScope(c, s, es[0]);
      StepCount(c, s, es[0]);
      StepOrder(c, s, es[0]);
      StepBucket(c, s, es[0]);
      ExecInv(c, Step(c, s, es[0]), es[1..]);
    }
  }

  ghost predicate Reachable(c: Config, s: State) {
    exists es: seq<Event> :: Exec(c, Initial(c), es) == Some(s)
  }

  lemma {:induction false} ReachableInv(c: Config, s: State)
    requires Sane(c.bucket) && Reachable(c, s)
    ensures Inv(c, s)
  {
    var es: seq<Event> :| Exec(c, Initial(c), es) == Some(s);
    InitialInv(c);
    ExecInv(c, Initial(c), es);
  }

  // ----- safety

  /** At most one coroutine is inside the bucket, at most `concurrency` requests are in
      flight, and only allowed calls were ever put on the wire. */
  lemma {:induction false} Safety(c: Config, s: State)
    requires Sane(c.bucket) && Reachable(c, s)
    ensures forall i, j :: 0 <= i < |s.phase| && 0 <= j < |s.phase| && s.phase[i].Sleeping? && s.phase[j].Sleeping? ==>
            i == j
    ensures Count(s.phase, FLYING) <= c.concurrency
    ensures forall k :: 0 <= k < |s.sent| ==> s.sent[k].fetch < |c.calls| && c.allowed(c.calls[s.sent[k].fetch])
    ensures |s.phase| == |c.calls| && forall i :: 0 <= i < |s.phase| && s.phase[i].Refused? ==> !c.allowed(c.calls[i])
  {
    ReachableInv(c, s);
  }

  lemma {:induction false} EnvelopeLater(b: Bucket, takes: seq<Take>, k: nat, at: real)
    requires Sane(b) && Run(b, b.updated, takes) && k < |takes| && takes[k].granted <= at
    ensures (k + 1) as real <= b.rate + 2.0 * (b.rate * (at - b.updated))
  {
    var granted := takes[k].granted;
    EnvelopeAtGrant(b, takes, k);
    MultiplyMonotone(granted - b.updated, at - b.updated, b.rate);
    Doubled((k + 1) as real, b.rate, b.rate * (granted - b.updated), b.rate * (at - b.updated));
  }

  lemma {:induction false} EnvelopeAtGrant(b: Bucket, takes: seq<Take>, k: nat)
    requires Sane(b) && Run(b, b.updated, takes) && k < |takes|
    ensures (k + 1) as real <= b.rate + 2.0 * (b.rate * (takes[k].granted - b.updated))
  {
    WindowEnvelope(b, takes, 0, k + 1);
    assert takes[..0] == [] && End(b.updated, takes[..k + 1]) == takes[k].granted;
  }

  lemma {:induction false} Doubled(n: real, rate: real, x: real, y: real)
    requires n <= rate + 2.0 * x && x <= y
    ensures n <= rate + 2.0 * y
  {
  }

  /** The k-th request on the wire, counting from zero, keeps to the bucket's envelope: no
      more than R + 2RT requests go out in the first T seconds. */
  lemma {:induction false} SendEnvelope(c: Config, s: State, k: nat, at: real, b: Bucket)
    requires b == c.bucket && Sane(b) && Reachable(c, s) && k < |s.sent| && at == s.sent[k].at
    ensures k < |s.takes| && s.takes[k].granted <= at
    ensures (k + 1) as real <= b.rate + 2.0 * (b.rate * (at - b.updated))
  {
    ReachableInv(c, s);
    EnvelopeLater(b, s.takes, k, at);
  }

  // ----- progress

  predicate Finished(s: State) {
    forall i :: 0 <= i < |s.phase| ==> s.phase[i].Refused? || s.phase[i].Done?
  }

  function Rank(p: Phase): nat {
    match p
    case Idle => 5
    case WaitLock => 4
    case Sleeping(_, _) => 3
    case WaitSlot => 2
    case InFlight => 1
    case Refused => 0
    case Done(_) => 0
  }

  function Work(ps: seq<Phase>): nat {
    if ps == [] then 0 else Rank(ps[0]) + Work(ps[1..])
  }

  lemma {:induction false} WorkUpdate(ps: seq<Phase>, i: nat, x: Phase)
    requires i < |ps|
    ensures Work(ps[i := x]) == Work(ps) - Rank(ps[i]) + Rank(x)
  {
    if i > 0 {
      assert ps[i := x][1..] == ps[1..][i - 1 := x];
      WorkUpdate(ps[1..], i - 1, x);
    } else {
      assert ps[0 := x][1..] == ps[1..];
    }
  }

  /** Every step but the clock's brings the whole system closer to the end. */
  lemma {:induction false} StepWorks(c: Config, s: State, e: Event)
    requires Enabled(c, s, e)
    ensures e.Tick? ==> Work(Step(c, s, e).phase) == Work(s.phase)
    ensures !e.Tick? ==> Work(Step(c, s, e).phase) < Work(s.phase)
  {
    if !e.Tick? {
      var x := Step(c, s, e).phase[e.i];
      assert Step(c, s, e).phase == s.phase[e.i := x];
      WorkUpdate(s.phase, e.i, x);
    }
  }

  function Proper(es: seq<Event>): nat {
    if es == [] then 0 else (if es[0].Tick? then 0 else 1) + Proper(es[1..])
  }

  /** No interleaving of n fetches makes more than 5n steps, however the clock ticks. */
  lemma {:induction false} ExecIsShort(c: Config, s: State, es: seq<Event>)
    requires Exec(c, s, es).Some?
    ensures Proper(es) + Work(Exec(c, s, es).value.phase) <= Work(s.phase)
    decreases |es|
  {
    if es != [] {
      StepWorks(c, s, es[0]);
      ExecIsShort(c, Step(c, s, es[0]), es[1..]);
    }
  }

  lemma {:induction false} WorkOfIdle(n: nat)
    ensures Work(seq(n, _ => Idle)) == 5 * n
  {
    if n > 0 {
      assert seq(n, _ => Idle)[1..] == seq(n - 1, _ => Idle);
      WorkOfIdle(n - 1);
    }
  }

  lemma {:induction false} NoneFlying(ps: seq<Phase>)
    requires forall i :: 0 <= i < |ps| ==> !ps[i].InFlight?
    ensures Count(ps, FLYING) == 0
  {
    if ps != [] {
      NoneFlying(ps[1..]);
    }
  }

  /** No reachable unfinished state is stuck: a step is possible at once, or after letting
      the clock run until the sleeper's wake-up time. */
  lemma {:induction false} NextStep(c: Config, s: State) returns (tick: Event, e: Event)
    requires Sane(c.bucket) && Inv(c, s) && c.concurrency >= 1 && !Finished(s)
    ensures tick.Tick? && Enabled(c, s, tick)
    ensures !e.Tick? && Enabled(c, Step(c, s, tick), e)
  {
    tick := Tick(s.now);
    var i: nat :| i < |s.phase| && !s.phase[i].Refused? && !s.phase[i].Done?;
    if j: nat :| j < |s.phase| && s.phase[j].InFlight? {
      e := Finish(j, true);
    } else if s.phase[i].Idle? {
      e := Check(i);
    } else if s.holder.Some? {
      var h := s.holder.value;
      tick := Tick(if s.phase[h].until <= s.now then s.now else s.phase[h].until);
      e := Wake(h);
    } else if s.phase[i].WaitLock? {
      e := Begin(i);
    } else {
      NoneFlying(s.phase);
      e := Send(i);
    }
  }

  lemma {:induction false} ExecCons(c: Config, s: State, e: Event, es: seq<Event>)
    requires Enabled(c, s, e)
    ensures Exec(c, s, [e] + es) == Exec(c, Step(c, s, e), es)
  {
    assert ([e] + es)[1..] == es;
  }

  /** From every reachable state the fetches can all be brought to an end. */
  lemma {:induction false} CanFinish(c: Config, s: State) returns (es: seq<Event>)
    requires Sane(c.bucket) && Inv(c, s) && c.concurrency >= 1
    ensures Exec(c, s, es).Some? && Finished(Exec(c, s, es).value)
    decreases Work(s.phase)
  {
    if Finished(s) {
      es := [];
    } else {
      var tick, e := NextStep(c, s);
      var s1 := Step(c, s, tick);
      var s2 := Step(c, s1, e);
      StepWorks(c, s, tick);
      StepWorks(c, s1, e);
      StepInv(c, s, tick);
      StepInv(c, s1, e);
      var rest := CanFinish(c, s2);
      ExecCons(c, s1, e, rest);
      ExecCons(c, s, tick, [e] + rest);
      es := [tick] + ([e] + rest);
    }
  }

  lemma {:induction false} StepInv(c: Config, s: State, e: Event)
    requires Sane(c.bucket) && Inv(c, s) && Enabled(c, s, e)
    ensures Inv(c, Step(c, s, e))
  {
    assert [e][1..] == [];
    ExecInv(c, s, [e]);
  }

  /** The same, from the start: at most 5n steps, and never stuck. */
  lemma {:induction false} EveryFetchReturns(c: Config, es: seq<Event>)
    requires Sane(c.bucket) && c.concurrency >= 1 && Exec(c, Initial(c), es).Some?
    ensures Proper(es) <= 5 * |c.calls|
    ensures exists more: seq<Event> ::
              var t := Exec(c, Exec(c, Initial(c), es).value, more); t.Some? && Finished(t.value)
  {
    ExecIsShort(c, Initial(c), es);
    WorkOfIdle(|c.calls|);
    InitialInv(c);
    ExecInv(c, Initial(c), es);
    var more := CanFinish(c, Exec(c, Initial(c), es).value);
  }
}

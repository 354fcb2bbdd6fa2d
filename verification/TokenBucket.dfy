/** The request-rate limiter: a token bucket whose refill clock is read before the sleep and
    not after it, so that the time slept is credited once more at the next take. */
module TokenBucket {
  import TokenTime

  datatype Bucket = Bucket(rate: real, tokens: real, updated: real)

  const MIN_RATE: real := 0.1

  function Least(a: real, b: real): real {
    if a <= b then a else b
  }

  function Created(ratePerSec: real, now: real): Bucket {
    var rate := if ratePerSec < MIN_RATE then MIN_RATE else ratePerSec;
    Bucket(rate, rate, now)
  }

  /** The tokens in the bucket when it is looked at, at `now`. */
  function Level(b: Bucket, now: real): real {
    Least(b.rate, b.tokens + (now - b.updated) * b.rate)
  }

  function Wait(b: Bucket, now: real): real
    requires b.rate > 0.0
  {
    if Level(b, now) < 1.0 then (1.0 - Level(b, now)) / b.rate else 0.0
  }

  /** The bucket once a take begun at `now` has been granted. */
  function Taken(b: Bucket, now: real): Bucket {
    b.(tokens := if Level(b, now) < 1.0 then 0.0 else Level(b, now) - 1.0, updated := now)
  }

  ghost predicate Sane(b: Bucket) {
    b.rate > 0.0 && 0.0 <= b.tokens <= b.rate
  }

  /** The limiter as the client holds it.  `now` is the clock reading inside the lock,
      `oversleep` how much longer than asked the sleep lasts; both are the environment's. */
  class Limiter {
    const rate: real
    var tokens: real
    var updated: real

    ghost function State(): Bucket
      reads this
    {
      Bucket(rate, tokens, updated)
    }

    constructor (ratePerSec: real, now: real)
      ensures State() == Created(ratePerSec, now) && Sane(State())
    {
      rate := if ratePerSec < MIN_RATE then MIN_RATE else ratePerSec;
      tokens := if ratePerSec < MIN_RATE then MIN_RATE else ratePerSec;
      updated := now;
    }

    method Take(now: real, oversleep: real) returns (granted: real)
      requires Sane(State()) && updated <= now && 0.0 <= oversleep
      modifies this
      ensures State() == Taken(old(State()), now) && Sane(State())
      ensures now + Wait(old(State()), now) <= granted
      ensures Wait(old(State()), now) <= 1.0 / rate
      ensures Level(old(State()), now) >= 1.0 ==> granted == now
    {
      TakenIsSane(State(), now);
      tokens := Least(rate, tokens + (now - updated) * rate);
      updated := now;
      if tokens < 1.0 {
        var wait := (1.0 - tokens) / rate;
        granted := now + wait + oversleep;
        tokens := 0.0;
      } else {
        tokens := tokens - 1.0;
        granted := now;
      }
    }
  }

  /** A take keeps 0 <= tokens <= rate and never waits longer than one token's refill. */
  lemma {:induction false} TakenIsSane(b: Bucket, now: real)
    requires Sane(b) && b.updated <= now
    ensures Sane(Taken(b, now)) && 0.0 <= Level(b, now) && 0.0 <= Wait(b, now) <= 1.0 / b.rate
  {
    assert (now - b.updated) * b.rate >= 0.0;
    if Level(b, now) < 1.0 {
      DivideMonotone(1.0 - Level(b, now), 1.0, b.rate);
      DivideMonotone(0.0, 1.0 - Level(b, now), b.rate);
    } else {
      DivideMonotone(0.0, 1.0, b.rate);
    }
  }

  lemma {:induction false} DivideMonotone(a: real, b: real, c: real)
    requires a <= b && c > 0.0
    ensures a / c <= b / c
  {
    assert (b - a) / c >= 0.0;
  }

  lemma {:induction false} MultiplyMonotone(a: real, b: real, c: real)
    requires a <= b && c >= 0.0
    ensures a * c <= b * c
  {
    assert (b - a) * c >= 0.0;
  }

  // ----- from seconds to tokens

  /** One take, in seconds: the clock reading in the lock, and the instant it returns. */
  datatype Take = Take(now: real, granted: real)

  /** Turns seconds into tokens.  Most lemmas hold for any such function; only the last step
      to a rate multiplies. */
  type Clock = real -> real

  function ClockOf(rate: real): Clock {
    (t: real) => t * rate
  }

  function InTokens(clock: Clock, b: Bucket): TokenTime.Bucket {
    TokenTime.Bucket(b.rate, b.tokens, clock(b.updated))
  }

  function TakeInTokens(clock: Clock, t: Take): TokenTime.Take {
    TokenTime.Take(clock(t.now), clock(t.granted))
  }

  function TakesInTokens(clock: Clock, takes: seq<Take>): (r: seq<TokenTime.Take>)
    ensures |r| == |takes| && forall i :: 0 <= i < |takes| ==> r[i] == TakeInTokens(clock, takes[i])
  {
    seq(|takes|, i requires 0 <= i < |takes| => TakeInTokens(clock, takes[i]))
  }

  lemma {:induction false} TailInTokens(clock: Clock, t: Take, rest: seq<Take>)
    ensures TakesInTokens(clock, [t] + rest) == [TakeInTokens(clock, t)] + TakesInTokens(clock, rest)
  {
    var all := TakesInTokens(clock, [t] + rest);
    assert forall i :: 1 <= i < |all| ==> all[i] == TakeInTokens(clock, rest[i - 1]);
  }

  lemma {:induction false} PrefixInTokens(clock: Clock, takes: seq<Take>, k: nat)
    requires k <= |takes|
    ensures TakesInTokens(clock, takes[..k]) == TakesInTokens(clock, takes)[..k]
  {
  }

  function End(from: real, takes: seq<Take>): real {
    if takes == [] then from else takes[|takes| - 1].granted
  }

  lemma {:induction false} EndInTokens(clock: Clock, from: real, takes: seq<Take>)
    ensures TokenTime.End(clock(from), TakesInTokens(clock, takes)) == clock(End(from, takes))
  {
  }

  // ----- runs

  ghost predicate RunOn(clock: Clock, b: Bucket, from: real, takes: seq<Take>) {
    TokenTime.Run(InTokens(clock, b), clock(from), TakesInTokens(clock, takes))
  }

  /** Takes made one after the other, none before `from`, each waiting at least as long as it
      was told to; SequentialRun says it step by step in seconds. */
  ghost predicate Run(b: Bucket, from: real, takes: seq<Take>) {
    RunOn(ClockOf(b.rate), b, from, takes)
  }

  ghost predicate Fits(clock: Clock, b: Bucket, now: real)
    requires b.rate > 0.0
  {
    && TokenTime.Taken(InTokens(clock, b), clock(now)) == InTokens(clock, Taken(b, now))
    && TokenTime.Level(InTokens(clock, b), clock(now)) == Level(b, now)
    && TokenTime.Wait(InTokens(clock, b), clock(now)) == clock(now + Wait(b, now)) - clock(now)
  }

  ghost predicate Increasing(clock: Clock) {
    forall x, y :: x <= y <==> clock(x) <= clock(y)
  }

  lemma {:induction false} ClockFits(b: Bucket, now: real)
    requires b.rate > 0.0
    ensures Fits(ClockOf(b.rate), b, now)
  {
    assert (now - b.updated) * b.rate == now * b.rate - b.updated * b.rate;
    assert (now + Wait(b, now)) * b.rate == now * b.rate + Wait(b, now) * b.rate;
  }

  lemma {:induction false} ClockIncreases(rate: real)
    requires rate > 0.0
    ensures Increasing(ClockOf(rate))
  {
    var clock := ClockOf(rate);
    forall x: real, y: real ensures x <= y <==> clock(x) <= clock(y) {
      if x <= y {
        MultiplyMonotone(x, y, rate);
      } else {
        assert (x - y) * rate > 0.0;
      }
    }
  }

  lemma {:induction false} RunOfCons(b: TokenTime.Bucket, from: real, t: TokenTime.Take, rest: seq<TokenTime.Take>)
    ensures TokenTime.Run(b, from, [t] + rest) <==>
              from <= t.now && t.now + TokenTime.Wait(b, t.now) <= t.granted
                && TokenTime.Run(TokenTime.Taken(b, t.now), t.granted, rest)
  {
    assert ([t] + rest)[1..] == rest;
  }

  lemma {:induction false} SequentialRunOn(clock: Clock, b: Bucket, from: real, t: Take, rest: seq<Take>)
    requires b.rate > 0.0 && Increasing(clock) && Fits(clock, b, t.now)
    ensures RunOn(clock, b, from, [t] + rest) <==>
              from <= t.now && t.now + Wait(b, t.now) <= t.granted && RunOn(clock, Taken(b, t.now), t.granted, rest)
  {
    TailInTokens(clock, t, rest);
    RunOfCons(InTokens(clock, b), clock(from), TakeInTokens(clock, t), TakesInTokens(clock, rest));
  }

  /** A run is empty, or a take that starts no earlier than allowed and returns no earlier
      than its wait, followed by a run of the bucket it leaves. */
  lemma {:induction false} SequentialRun(b: Bucket, from: real, t: Take, rest: seq<Take>)
    requires b.rate > 0.0
    ensures Run(b, from, [])
    ensures Run(b, from, [t] + rest) <==>
              from <= t.now && t.now + Wait(b, t.now) <= t.granted && Run(Taken(b, t.now), t.granted, rest)
  {
    ClockFits(b, t.now);
    ClockIncreases(b.rate);
    SequentialRunOn(ClockOf(b.rate), b, from, t, rest);
  }

  function AfterTakes(b: Bucket, takes: seq<Take>): Bucket
    decreases |takes|
  {
    if takes == [] then b else AfterTakes(Taken(b, takes[0].now), takes[1..])
  }

  lemma {:induction false} AfterTakesSnoc(b: Bucket, takes: seq<Take>, t: Take)
    ensures AfterTakes(b, takes + [t]) == Taken(AfterTakes(b, takes), t.now)
    ensures AfterTakes(b, takes).rate == b.rate
    decreases |takes|
  {
    if takes == [] {
      assert ([] + [t])[1..] == [];
    } else {
      assert (takes + [t])[1..] == takes[1..] + [t];
      AfterTakesSnoc(Taken(b, takes[0].now), takes[1..], t);
    }
  }

  /** A run grows by a take that starts no earlier than the last one returned. */
  lemma {:induction false} RunSnoc(b: Bucket, from: real, takes: seq<Take>, t: Take)
    requires b.rate > 0.0 && Run(b, from, takes) && AfterTakes(b, takes).rate == b.rate
    requires End(from, takes) <= t.now && t.now + Wait(AfterTakes(b, takes), t.now) <= t.granted
    ensures Run(b, from, takes + [t])
    decreases |takes|
  {
    if takes == [] {
      SequentialRun(b, from, t, []);
      assert [t] + [] == [t] == takes + [t];
    } else {
      var head, tail := takes[0], takes[1..];
      assert takes == [head] + tail;
      SequentialRun(b, from, head, tail);
      EndOfTail(from, takes);
      RunSnoc(Taken(b, head.now), head.granted, tail, t);
      SequentialRun(b, from, head, tail + [t]);
      assert takes + [t] == [head] + (tail + [t]);
    }
  }

  lemma {:induction false} EndOfTail(from: real, takes: seq<Take>)
    requires takes != []
    ensures End(from, takes) == End(takes[0].granted, takes[1..])
  {
  }

  // ----- the envelope

  lemma {:induction false} CreatedIsSane(ratePerSec: real, from: real)
    ensures var b := Created(ratePerSec, from);
            Sane(b) && b.rate >= MIN_RATE && b.tokens == b.rate && b.updated == from
  {
  }

  lemma {:induction false} EnvelopeOn(clock: Clock, b: Bucket, takes: seq<Take>, i: nat)
    requires Sane(b) && RunOn(clock, b, b.updated, takes) && i <= |takes|
    ensures (|takes| - i) as real <= b.rate + 2.0 * (clock(End(b.updated, takes)) - clock(End(b.updated, takes[..i])))
  {
    TokenTime.WindowEnvelope(InTokens(clock, b), clock(b.updated), TakesInTokens(clock, takes), i);
    PrefixInTokens(clock, takes, i);
    EndInTokens(clock, b.updated, takes);
    EndInTokens(clock, b.updated, takes[..i]);
  }

  lemma {:induction false} RunPrefixOn(clock: Clock, b: Bucket, takes: seq<Take>, j: nat)
    requires Sane(b) && RunOn(clock, b, b.updated, takes) && j <= |takes|
    ensures RunOn(clock, b, b.updated, takes[..j])
  {
    TokenTime.RunSuffix(InTokens(clock, b), clock(b.updated), TakesInTokens(clock, takes), j);
    PrefixInTokens(clock, takes, j);
  }

  lemma {:induction false} Spans(rate: real, from: real, to: real)
    ensures ClockOf(rate)(to) - ClockOf(rate)(from) == rate * (to - from)
  {
  }

  lemma {:induction false} WindowOn(clock: Clock, b: Bucket, takes: seq<Take>, i: nat, j: nat)
    requires Sane(b) && RunOn(clock, b, b.updated, takes) && i <= j <= |takes|
    ensures (j - i) as real <= b.rate + 2.0 * (clock(End(b.updated, takes[..j])) - clock(End(b.updated, takes[..i])))
  {
    RunPrefixOn(clock, b, takes, j);
    EnvelopeOn(clock, b, takes[..j], i);
    assert takes[..j][..i] == takes[..i];
  }

  /** From any sane bucket, a new one included: between the i-th and the j-th grant of a run
      there are at most R + 2R(g_j - g_i) grants; with i = 0 the stretch starts at the
      bucket's own clock reading. */
  lemma {:induction false} WindowEnvelope(b: Bucket, takes: seq<Take>, i: nat, j: nat)
    requires Sane(b) && Run(b, b.updated, takes) && i <= j <= |takes|
    ensures (j - i) as real <= b.rate + 2.0 * (b.rate * (End(b.updated, takes[..j]) - End(b.updated, takes[..i])))
  {
    WindowOn(ClockOf(b.rate), b, takes, i, j);
    Spans(b.rate, End(b.updated, takes[..i]), End(b.updated, takes[..j]));
  }

  /** For a limiter created for `r` requests a second: its bucket starts full, and between any two
      grants there are at most r + 2rT, or, for rates asked to be lower than 0.1, what 0.1 gives. */
  lemma {:induction false} RequestedEnvelope(r: real, now: real, b: Bucket, takes: seq<Take>, i: nat, j: nat, t: real)
    requires b == Created(r, now) && Run(b, now, takes) && i <= j <= |takes|
    requires t == End(now, takes[..j]) - End(now, takes[..i])
    ensures b.tokens == b.rate && b.updated == now && Sane(b)
    ensures r >= 0.1 ==> b.rate == r && (j - i) as real <= r + 2.0 * (r * t)
    ensures r < 0.1 ==> b.rate == 0.1 && (j - i) as real <= 0.1 + 0.2 * t
  {
    WindowEnvelope(b, takes, i, j);
  }

  // ----- the nominal rate

  ghost predicate WithinNominal(b: Bucket, takes: seq<Take>) {
    |takes| as real <= b.rate + b.rate * (End(b.updated, takes) - b.updated)
  }

  /** Every prefix keeps to a full bucket plus the nominal rate. */
  ghost predicate Nominal(b: Bucket, takes: seq<Take>) {
    forall k :: 0 <= k <= |takes| ==> WithinNominal(b, takes[..k])
  }

  lemma {:induction false} NominalInTokens(b: Bucket, takes: seq<Take>)
    ensures var clock := ClockOf(b.rate); var start := clock(b.updated);
            WithinNominal(b, takes) <==>
              |takes| as real <= b.rate + (TokenTime.End(start, TakesInTokens(clock, takes)) - start)
  {
    EndInTokens(ClockOf(b.rate), b.updated, takes);
    Spans(b.rate, b.updated, End(b.updated, takes));
  }

  lemma {:induction false} ShortRunOn(clock: Clock, b: Bucket, takes: seq<Take>)
    requires Sane(b) && b.tokens == b.rate && RunOn(clock, b, b.updated, takes) && |takes| <= b.rate.Floor + 1
    ensures |takes| as real <= b.rate
            + (TokenTime.End(clock(b.updated), TakesInTokens(clock, takes)) - clock(b.updated))
  {
    assert b.rate.Floor as real <= b.rate;
    TokenTime.FewTakesAreNominal(InTokens(clock, b), clock(b.updated), TakesInTokens(clock, takes));
  }

  lemma {:induction false} ShortRunsAreNominal(b: Bucket, takes: seq<Take>)
    requires Sane(b) && b.tokens == b.rate && Run(b, b.updated, takes) && |takes| <= b.rate.Floor + 1
    ensures Nominal(b, takes)
  {
    forall k | 0 <= k <= |takes| ensures WithinNominal(b, takes[..k]) {
      RunPrefixOn(ClockOf(b.rate), b, takes, k);
      ShortRunOn(ClockOf(b.rate), b, takes[..k]);
      NominalInTokens(b, takes[..k]);
    }
  }

  function TakesInSeconds(rate: real, takes: seq<TokenTime.Take>): (r: seq<Take>)
    requires rate > 0.0
    ensures |r| == |takes|
  {
    seq(|takes|, i requires 0 <= i < |takes| => Take(takes[i].now / rate, takes[i].granted / rate))
  }

  lemma {:induction false} ThereAndBack(rate: real, takes: seq<TokenTime.Take>)
    requires rate > 0.0
    ensures TakesInTokens(ClockOf(rate), TakesInSeconds(rate, takes)) == takes
  {
    var there := TakesInSeconds(rate, takes);
    forall i | 0 <= i < |takes| ensures TakeInTokens(ClockOf(rate), there[i]) == takes[i] {
      var now, granted := takes[i].now, takes[i].granted;
      assert now / rate * rate == now && granted / rate * rate == granted;
    }
  }

  /** Takes made as early as possible, from the bucket's own clock reading on. */
  function Eager(b: Bucket, n: nat): (takes: seq<Take>)
    requires b.rate > 0.0
    ensures |takes| == n
  {
    var clock := ClockOf(b.rate);
    TakesInSeconds(b.rate, TokenTime.Eager(InTokens(clock, b), clock(b.updated), n))
  }

  lemma {:induction false} EagerRuns(b: Bucket, n: nat)
    requires b.rate > 0.0
    ensures Run(b, b.updated, Eager(b, n))
    ensures var clock := ClockOf(b.rate);
            TakesInTokens(clock, Eager(b, n)) == TokenTime.Eager(InTokens(clock, b), clock(b.updated), n)
  {
    var clock := ClockOf(b.rate);
    ThereAndBack(b.rate, TokenTime.Eager(InTokens(clock, b), clock(b.updated), n));
    TokenTime.EagerIsARun(InTokens(clock, b), clock(b.updated), n);
  }

  lemma {:induction false} EagerPrefixOn(clock: Clock, scaled: TokenTime.Bucket, start: real, takes: seq<Take>, k: nat)
    requires TakesInTokens(clock, takes) == TokenTime.Eager(scaled, start, |takes|) && k <= |takes|
    ensures TakesInTokens(clock, takes[..k]) == TokenTime.Eager(scaled, start, k)
  {
    PrefixInTokens(clock, takes, k);
    TokenTime.EagerPrefix(scaled, start, k, |takes|);
  }

  lemma {:induction false} LongRunsCanBreakIt(b: Bucket, n: nat)
    requires Sane(b) && b.tokens == b.rate && n > b.rate.Floor + 1
    ensures Run(b, b.updated, Eager(b, n)) && !Nominal(b, Eager(b, n))
  {
    var clock, k, takes := ClockOf(b.rate), b.rate.Floor + 2, Eager(b, n);
    var scaled, start := InTokens(clock, b), clock(b.updated);
    EagerRuns(b, n);
    EagerPrefixOn(clock, scaled, start, takes, k);
    TokenTime.EagerIsTooFast(scaled, start, b.rate.Floor);
    NominalInTokens(b, takes[..k]);
    assert !WithinNominal(b, takes[..k]);
  }

  ghost predicate AlwaysNominal(ratePerSec: real, from: real, n: nat) {
    forall takes: seq<Take> ::
      Run(Created(ratePerSec, from), from, takes) && |takes| == n ==> Nominal(Created(ratePerSec, from), takes)
  }

  /** The nominal rate is kept by every run of n takes exactly when n is at most one more
      than the whole tokens of a full bucket. */
  lemma {:induction false} NominalExactly(ratePerSec: real, from: real, n: nat)
    ensures AlwaysNominal(ratePerSec, from, n) <==> n <= Created(ratePerSec, from).rate.Floor + 1
  {
    var b := Created(ratePerSec, from);
    CreatedIsSane(ratePerSec, from);
    if n <= b.rate.Floor + 1 {
      forall takes: seq<Take> | Run(b, from, takes) && |takes| == n ensures Nominal(b, takes) {
        ShortRunsAreNominal(b, takes);
      }
    } else {
      LongRunsCanBreakIt(b, n);
      assert |Eager(b, n)| == n;
    }
  }

  // ----- without sleeps

  /** Every take finds a token. */
  ghost predicate Sleepless(b: Bucket, takes: seq<Take>)
    decreases |takes|
  {
    takes == [] || (Level(b, takes[0].now) >= 1.0 && Sleepless(Taken(b, takes[0].now), takes[1..]))
  }

  lemma {:induction false} SleptOfCons(b: TokenTime.Bucket, t: TokenTime.Take, rest: seq<TokenTime.Take>)
    ensures TokenTime.Slept(b, [t] + rest) ==
            TokenTime.Wait(b, t.now) + TokenTime.Slept(TokenTime.Taken(b, t.now), rest)
  {
    assert ([t] + rest)[1..] == rest;
  }

  lemma {:induction false} SleeplessInTokens(b: Bucket, takes: seq<Take>)
    requires b.rate > 0.0 && Sleepless(b, takes)
    ensures TokenTime.Slept(InTokens(ClockOf(b.rate), b), TakesInTokens(ClockOf(b.rate), takes)) == 0.0
    decreases |takes|
  {
    if takes != [] {
      var clock, t, rest := ClockOf(b.rate), takes[0], takes[1..];
      assert takes == [t] + rest;
      TailInTokens(clock, t, rest);
      SleptOfCons(InTokens(clock, b), TakeInTokens(clock, t), TakesInTokens(clock, rest));
      ClockFits(b, t.now);
      SleeplessInTokens(Taken(b, t.now), rest);
    }
  }

  lemma {:induction false} SleeplessPrefix(b: Bucket, takes: seq<Take>, k: nat)
    requires Sleepless(b, takes) && k <= |takes|
    ensures Sleepless(b, takes[..k])
    decreases k
  {
    if k > 0 {
      SleeplessPrefix(Taken(b, takes[0].now), takes[1..], k - 1);
      assert takes[..k][1..] == takes[1..][..k - 1];
    }
  }

  lemma {:induction false} SleeplessOn(clock: Clock, b: Bucket, takes: seq<Take>)
    requires Sane(b) && RunOn(clock, b, b.updated, takes)
    requires TokenTime.Slept(InTokens(clock, b), TakesInTokens(clock, takes)) == 0.0
    ensures |takes| as real <= b.rate
            + (TokenTime.End(clock(b.updated), TakesInTokens(clock, takes)) - clock(b.updated))
  {
    TokenTime.SleeplessIsNominal(InTokens(clock, b), clock(b.updated), TakesInTokens(clock, takes));
  }

  /** A run in which no take sleeps keeps to a full bucket plus the nominal rate throughout. */
  lemma {:induction false} SleeplessIsNominal(b: Bucket, takes: seq<Take>)
    requires Sane(b) && Run(b, b.updated, takes) && Sleepless(b, takes)
    ensures Nominal(b, takes)
  {
    forall k | 0 <= k <= |takes| ensures WithinNominal(b, takes[..k]) {
      RunPrefixOn(ClockOf(b.rate), b, takes, k);
      SleeplessPrefix(b, takes, k);
      SleeplessInTokens(b, takes[..k]);
      SleeplessOn(ClockOf(b.rate), b, takes[..k]);
      NominalInTokens(b, takes[..k]);
    }
  }

  // ----- how much faster than nominal

  lemma {:induction false} EagerGetsTwiceOn(clock: Clock, b: Bucket, takes: seq<Take>, n: nat, f: real, m: nat)
    requires Sane(b) && b.tokens == b.rate == n as real + f && 0.0 <= f < 1.0 && b.rate >= 1.0 - f
    requires TakesInTokens(clock, takes) == TokenTime.Eager(InTokens(clock, b), clock(b.updated), n + 2 * m)
    ensures clock(End(b.updated, takes)) - clock(b.updated) == m as real
  {
    TokenTime.EagerGetsTwice(InTokens(clock, b), clock(b.updated), n, f, m);
    EndInTokens(clock, b.updated, takes);
  }

  lemma {:induction false} EagerTime(b: Bucket, takes: seq<Take>, n: nat, f: real, m: nat)
    requires Sane(b) && b.tokens == b.rate == n as real + f && 0.0 <= f < 1.0 && b.rate >= 1.0 - f
    requires var clock := ClockOf(b.rate);
             TakesInTokens(clock, takes) == TokenTime.Eager(InTokens(clock, b), clock(b.updated), n + 2 * m)
    ensures b.rate * (End(b.updated, takes) - b.updated) == m as real
  {
    EagerGetsTwiceOn(ClockOf(b.rate), b, takes, n, f, m);
    Spans(b.rate, b.updated, End(b.updated, takes));
  }

  /** A new bucket of any rate R of at least 1/2, taken from eagerly, reaches the envelope
      again and again: after m / R seconds the grants are the whole part of R + 2m, which is
      the most the envelope admits. */
  lemma {:induction false} EnvelopeIsAttained(b: Bucket, m: nat, takes: seq<Take>)
    requires Sane(b) && b.tokens == b.rate && b.rate >= 0.5
    requires takes == Eager(b, b.rate.Floor + 2 * m)
    ensures |takes| as real <= b.rate + 2.0 * m as real < |takes| as real + 1.0 && Run(b, b.updated, takes)
    ensures b.rate * (End(b.updated, takes) - b.updated) == m as real
  {
    var n: nat := b.rate.Floor;
    EagerRuns(b, n + 2 * m);
    EagerTime(b, takes, n, b.rate - n as real, m);
  }

  lemma {:induction false} SlowOn(clock: Clock, b: Bucket, takes: seq<Take>)
    requires Sane(b) && b.rate < 1.0 && RunOn(clock, b, b.updated, takes)
    ensures |takes| as real * (1.0 - b.rate) <= clock(End(b.updated, takes)) - clock(b.updated)
  {
    TokenTime.SmallBucketsAreSlow(InTokens(clock, b), clock(b.updated), TakesInTokens(clock, takes));
    EndInTokens(clock, b.updated, takes);
  }

  /** Below one request a second every take waits, and k grants need at least k (1 - R) / R seconds. */
  lemma {:induction false} SlowRates(b: Bucket, takes: seq<Take>)
    requires Sane(b) && b.rate < 1.0 && Run(b, b.updated, takes)
    ensures |takes| as real * (1.0 - b.rate) <= b.rate * (End(b.updated, takes) - b.updated)
  {
    SlowOn(ClockOf(b.rate), b, takes);
    Spans(b.rate, b.updated, End(b.updated, takes));
  }

  lemma {:induction false} JustSoSlowOn(clock: Clock, b: Bucket, takes: seq<Take>, n: nat, product: real)
    requires Sane(b) && b.tokens == b.rate <= 0.5 && product == n as real * (1.0 - b.rate)
    requires TakesInTokens(clock, takes) == TokenTime.Eager(InTokens(clock, b), clock(b.updated), n)
    ensures clock(End(b.updated, takes)) - clock(b.updated) == product
  {
    TokenTime.SmallBucketsAreJustSoSlow(InTokens(clock, b), clock(b.updated), n);
    EndInTokens(clock, b.updated, takes);
  }

  lemma {:induction false} SlowTime(b: Bucket, takes: seq<Take>, n: nat, product: real)
    requires Sane(b) && b.tokens == b.rate <= 0.5 && product == n as real * (1.0 - b.rate)
    requires var clock := ClockOf(b.rate);
             TakesInTokens(clock, takes) == TokenTime.Eager(InTokens(clock, b), clock(b.updated), n)
    ensures b.rate * (End(b.updated, takes) - b.updated) == product
  {
    JustSoSlowOn(ClockOf(b.rate), b, takes, n, product);
    Spans(b.rate, b.updated, End(b.updated, takes));
  }

  /** Up to one request in two seconds that bound is attained by every number of eager takes,
      so the factor over the nominal rate is 1 / (1 - R) there, not 2. */
  lemma {:induction false} SlowRatesAreAttained(b: Bucket, n: nat, takes: seq<Take>, product: real)
    requires Sane(b) && b.tokens == b.rate <= 0.5 && takes == Eager(b, n) && product == n as real * (1.0 - b.rate)
    ensures |takes| == n && Run(b, b.updated, takes)
    ensures b.rate * (End(b.updated, takes) - b.updated) == product
  {
    EagerRuns(b, n);
    SlowTime(b, takes, n, product);
  }
}

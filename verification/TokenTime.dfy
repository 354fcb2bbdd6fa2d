/** The token bucket with time measured in tokens: one unit of time refills one token.
    Everything here is linear; TokenBucket translates it to seconds. */
module TokenTime {
  datatype Bucket = Bucket(capacity: real, tokens: real, updated: real)

  /** One take: the clock reading in the lock, and the instant it returns. */
  datatype Take = Take(now: real, granted: real)

  function Least(a: real, b: real): real {
    if a <= b then a else b
  }

  /** The tokens in the bucket when it is looked at, at `now`. */
  function Level(b: Bucket, now: real): real {
    Least(b.capacity, b.tokens + (now - b.updated))
  }

  function Wait(b: Bucket, now: real): real {
    if Level(b, now) < 1.0 then 1.0 - Level(b, now) else 0.0
  }

  /** The bucket once a take begun at `now` has been granted. */
  function Taken(b: Bucket, now: real): Bucket {
    b.(tokens := if Level(b, now) < 1.0 then 0.0 else Level(b, now) - 1.0, updated := now)
  }

  ghost predicate Sane(b: Bucket) {
    b.capacity > 0.0 && 0.0 <= b.tokens <= b.capacity
  }

  /** The takes are made one after the other, none before `from`, each waiting at least as
      long as it was told to. */
  ghost predicate Run(b: Bucket, from: real, takes: seq<Take>)
    decreases |takes|
  {
    takes != [] ==>
      && from <= takes[0].now
      && takes[0].now + Wait(b, takes[0].now) <= takes[0].granted
      && Run(Taken(b, takes[0].now), takes[0].granted, takes[1..])
  }

  function AfterTakes(b: Bucket, takes: seq<Take>): Bucket
    decreases |takes|
  {
    if takes == [] then b else AfterTakes(Taken(b, takes[0].now), takes[1..])
  }

  function End(from: real, takes: seq<Take>): real {
    if takes == [] then from else takes[|takes| - 1].granted
  }

  /** The waits asked for, and the refill lost because the bucket was full. */
  function Slept(b: Bucket, takes: seq<Take>): real
    decreases |takes|
  {
    if takes == [] then 0.0 else Wait(b, takes[0].now) + Slept(Taken(b, takes[0].now), takes[1..])
  }

  function Overflow(b: Bucket, takes: seq<Take>): real
    decreases |takes|
  {
    if takes == [] then 0.0
    else
      var now := takes[0].now;
      b.tokens + (now - b.updated) - Level(b, now) + Overflow(Taken(b, now), takes[1..])
  }

  /** Taking keeps the bucket sane and never turns the clock back. */
  lemma {:induction false} RunKeepsSane(b: Bucket, from: real, takes: seq<Take>)
    requires Sane(b) && b.updated <= from && Run(b, from, takes)
    ensures Sane(AfterTakes(b, takes)) && AfterTakes(b, takes).capacity == b.capacity
    ensures b.updated <= AfterTakes(b, takes).updated <= End(from, takes) && from <= End(from, takes)
    ensures 0.0 <= Slept(b, takes) <= End(from, takes) - from && 0.0 <= Overflow(b, takes)
    decreases |takes|
  {
    if takes != [] {
      RunKeepsSane(Taken(b, takes[0].now), takes[0].granted, takes[1..]);
    }
  }

  /** The exact account: what was granted and what is left equals what was there, plus the
      refill between the first and the last clock reading, plus once more the refill of the
      time slept, less what overflowed. */
  lemma {:induction false} Ledger(b: Bucket, from: real, takes: seq<Take>)
    requires Sane(b) && b.updated <= from && Run(b, from, takes)
    ensures var c := AfterTakes(b, takes);
            |takes| as real + c.tokens == b.tokens + (c.updated - b.updated) + Slept(b, takes) - Overflow(b, takes)
    decreases |takes|
  {
    if takes != [] {
      Ledger(Taken(b, takes[0].now), takes[0].granted, takes[1..]);
      assert |takes| as real == 1.0 + |takes[1..]| as real;
    }
  }

  /** The bucket as it stands at `at`, nothing taken. */
  function Rebased(b: Bucket, at: real): Bucket {
    b.(tokens := Level(b, at), updated := at)
  }

  /** In any stretch of a run, at most a full bucket plus twice the refill. */
  lemma {:induction false} Envelope(b: Bucket, from: real, takes: seq<Take>)
    requires Sane(b) && b.updated <= from && Run(b, from, takes)
    ensures |takes| as real <= b.capacity + 2.0 * (End(from, takes) - from)
  {
    var r := Rebased(b, from);
    RunKeepsSane(r, from, takes);
    Ledger(r, from, takes);
  }

  lemma {:induction false} RunSuffix(b: Bucket, from: real, takes: seq<Take>, i: nat)
    requires Sane(b) && b.updated <= from && Run(b, from, takes) && i <= |takes|
    ensures Run(b, from, takes[..i])
    ensures var c := AfterTakes(b, takes[..i]);
            Sane(c) && c.capacity == b.capacity && c.updated <= End(from, takes[..i])
              && Run(c, End(from, takes[..i]), takes[i..])
    decreases i
  {
    if i > 0 {
      var t := takes[0];
      RunSuffix(Taken(b, t.now), t.granted, takes[1..], i - 1);
      assert takes[..i][1..] == takes[1..][..i - 1] && takes[i..] == takes[1..][i - 1..];
    } else {
      assert takes[0..] == takes;
    }
  }

  lemma {:induction false} WindowEnvelope(b: Bucket, from: real, takes: seq<Take>, i: nat)
    requires Sane(b) && b.updated <= from && Run(b, from, takes) && i <= |takes|
    ensures |takes[i..]| as real <= b.capacity + 2.0 * (End(from, takes) - End(from, takes[..i]))
  {
    RunSuffix(b, from, takes, i);
    Envelope(AfterTakes(b, takes[..i]), End(from, takes[..i]), takes[i..]);
  }

  // ----- the nominal rate

  /** As long as the tokens suffice for all takes but one, the refill counts once. */
  lemma {:induction false} FewTakesAreNominal(b: Bucket, from: real, takes: seq<Take>)
    requires Sane(b) && b.updated <= from && Run(b, from, takes)
    requires |takes| as real - 1.0 <= Level(b, from)
    ensures |takes| as real <= Level(b, from) + (End(from, takes) - from)
    decreases |takes|
  {
    if |takes| > 1 {
      assert |takes[1..]| as real == |takes| as real - 1.0;
      FewTakesAreNominal(Taken(b, takes[0].now), takes[0].granted, takes[1..]);
    }
  }

  /** Takes made as early as possible. */
  function Eager(b: Bucket, from: real, n: nat): (takes: seq<Take>)
    ensures |takes| == n
    decreases n
  {
    if n == 0 then []
    else
      var granted := from + Wait(b, from);
      [Take(from, granted)] + Eager(Taken(b, from), granted, n - 1)
  }

  lemma {:induction false} EagerIsARun(b: Bucket, from: real, n: nat)
    ensures Run(b, from, Eager(b, from, n))
    decreases n
  {
    if n > 0 {
      EagerIsARun(Taken(b, from), from + Wait(b, from), n - 1);
      assert Eager(b, from, n)[1..] == Eager(Taken(b, from), from + Wait(b, from), n - 1);
    }
  }

  lemma {:induction false} EagerPrefix(b: Bucket, from: real, k: nat, n: nat)
    requires k <= n
    ensures Eager(b, from, n)[..k] == Eager(b, from, k)
    decreases k
  {
    if k > 0 {
      EagerPrefix(Taken(b, from), from + Wait(b, from), k - 1, n - 1);
    }
  }

  /** Two eager takes more than there are whole tokens beat the nominal refill. */
  lemma {:induction false} EagerIsTooFast(b: Bucket, from: real, n: nat)
    requires Sane(b) && b.updated == from && n as real <= b.tokens < n as real + 1.0
    ensures End(from, Eager(b, from, n + 2)) - from < n as real + 2.0 - b.tokens
    decreases n
  {
    if n > 0 {
      EagerIsTooFast(Taken(b, from), from, n - 1);
    }
  }

  lemma {:induction false} EagerEnd(b: Bucket, from: real, n: nat)
    requires n > 0
    ensures End(from, Eager(b, from, n)) ==
            End(from + Wait(b, from), Eager(Taken(b, from), from + Wait(b, from), n - 1))
  {
  }

  /** The bucket after two eager takes from a fraction of a token: one unit later, the same fraction. */
  lemma {:induction false} EagerPair(b: Bucket, from: real, f: real) returns (c: Bucket, half: real, d: Bucket)
    requires Sane(b) && b.updated <= from && Level(b, from) == f && 0.0 <= f < 1.0 && b.capacity >= 1.0 - f
    ensures c == Taken(b, from) && half == from + Wait(b, from)
    ensures d == Taken(c, half) && half + Wait(c, half) == from + 1.0
    ensures Sane(d) && d.capacity == b.capacity && d.updated <= from + 1.0 && Level(d, from + 1.0) == f
  {
    c, half := Taken(b, from), from + 1.0 - f;
    d := Taken(c, half);
    assert Level(c, half) == 1.0 - f;
    if f == 0.0 {
      assert Wait(c, half) == 0.0 && Level(d, from + 1.0) == 0.0;
    } else {
      assert Wait(c, half) == f && Level(d, from + 1.0) == f;
    }
  }

  lemma {:induction false} FractionGetsTwice(b: Bucket, from: real, f: real, m: nat)
    requires Sane(b) && b.updated <= from && Level(b, from) == f && 0.0 <= f < 1.0 && b.capacity >= 1.0 - f
    ensures End(from, Eager(b, from, 2 * m)) - from == m as real
    decreases m
  {
    if m > 0 {
      var c, half, d := EagerPair(b, from, f);
      EagerEnd(b, from, 2 * m);
      EagerEnd(c, half, 2 * m - 1);
      FractionGetsTwice(d, from + 1.0, f, m - 1);
      assert End(from, Eager(b, from, 2 * m)) == End(from + 1.0, Eager(d, from + 1.0, 2 * (m - 1)));
    }
  }

  /** From n whole tokens and a fraction f, eager takes get two more for every unit of refill,
      if the bucket holds what refills during the longer of the two waits. */
  lemma {:induction false} EagerGetsTwice(b: Bucket, from: real, n: nat, f: real, m: nat)
    requires Sane(b) && b.updated <= from && Level(b, from) == n as real + f && 0.0 <= f < 1.0 && b.capacity >= 1.0 - f
    ensures End(from, Eager(b, from, n + 2 * m)) - from == m as real
    decreases n
  {
    if n > 0 {
      assert Wait(b, from) == 0.0 && Level(Taken(b, from), from) == (n - 1) as real + f;
      EagerEnd(b, from, n + 2 * m);
      EagerGetsTwice(Taken(b, from), from, n - 1, f, m);
    } else {
      FractionGetsTwice(b, from, f, m);
    }
  }

  lemma {:induction false} OneMore(n: nat, x: real)
    ensures (n + 1) as real * x == n as real * x + x
  {
  }

  /** A bucket that never holds a whole token makes every take wait. */
  lemma {:induction false} SmallBucketsAreSlow(b: Bucket, from: real, takes: seq<Take>)
    requires Sane(b) && b.updated <= from && Run(b, from, takes) && b.capacity < 1.0
    ensures |takes| as real * (1.0 - b.capacity) <= End(from, takes) - from
    decreases |takes|
  {
    if takes != [] {
      var rest := takes[1..];
      SmallBucketsAreSlow(Taken(b, takes[0].now), takes[0].granted, rest);
      OneMore(|rest|, 1.0 - b.capacity);
      assert |takes| == |rest| + 1 && End(from, takes) == End(takes[0].granted, rest);
      assert takes[0].granted - from >= 1.0 - b.capacity;
    }
  }

  /** One that refills in that wait goes no slower. */
  lemma {:induction false} SmallWait(b: Bucket, from: real)
    requires Sane(b) && b.updated <= from && Level(b, from) == b.capacity && b.capacity <= 0.5
    ensures var next := from + 1.0 - b.capacity;
            from + Wait(b, from) == next && Level(Taken(b, from), next) == b.capacity && Sane(Taken(b, from))
  {
  }

  lemma {:induction false} SmallBucketsAreJustSoSlow(b: Bucket, from: real, n: nat)
    requires Sane(b) && b.updated <= from && Level(b, from) == b.capacity && b.capacity <= 0.5
    ensures End(from, Eager(b, from, n)) - from == n as real * (1.0 - b.capacity)
    decreases n
  {
    if n > 0 {
      SmallWait(b, from);
      EagerEnd(b, from, n);
      SmallBucketsAreJustSoSlow(Taken(b, from), from + 1.0 - b.capacity, n - 1);
      OneMore(n - 1, 1.0 - b.capacity);
    }
  }

  /** Without sleeps the refill counts once. */
  lemma {:induction false} SleeplessIsNominal(b: Bucket, from: real, takes: seq<Take>)
    requires Sane(b) && b.updated <= from && Run(b, from, takes) && Slept(b, takes) == 0.0
    ensures |takes| as real <= b.tokens + (End(from, takes) - b.updated)
  {
    RunKeepsSane(b, from, takes);
    Ledger(b, from, takes);
  }
}

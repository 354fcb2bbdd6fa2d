/** Running one engine: six calls to its adapter, any of which may raise, in one guarded block. */
module EngineRun {
  import opened Wrappers
  import opened Findings
  import opened Registry

  /** `engine` is the id by which the adapter describes itself. */
  datatype Request = Request(engine: string, capabilities: seq<Capability>, seeds: seq<string>)

  datatype Health = HEALTHY | DEGRADED | UNAVAILABLE

  datatype Prepared = Prepared(handle: nat)
  datatype Finished = Finished(handle: nat)
  datatype Raw = Raw(handle: nat)
  datatype Done = Done

  /** The adapters' calls; each may answer differently for each request.  An adapter that does
      not describe itself raises outside the guarded block. */
  datatype Engines = Engines(
    describe: Adapter -> Call<string>,
    health: (Adapter, Request) -> Call<Health>,
    prepare: (Adapter, Request) -> Call<Prepared>,
    execute: (Adapter, Request, Prepared) -> Call<Finished>,
    collect: (Adapter, Request, Finished) -> Call<Raw>,
    normalize: (Adapter, Request, Raw) -> Call<seq<Observation>>,
    cleanup: (Adapter, Request, Prepared) -> Call<Done>)

  /** What the run of an engine adds to the scan. */
  function Gathered(e: Engines, a: Adapter, r: Request): seq<Observation> {
    var health := e.health(a, r);
    if health.Raised? || health.value == UNAVAILABLE then []
    else
      var prepared := e.prepare(a, r);
      if prepared.Raised? then []
      else
        var finished := e.execute(a, r, prepared.value);
        if finished.Raised? then []
        else
          var raw := e.collect(a, r, finished.value);
          if raw.Raised? then []
          else
            var observations := e.normalize(a, r, raw.value);
            if observations.Raised? || e.cleanup(a, r, prepared.value).Raised? then [] else observations.value
  }

  /** What was normalized by a run that gets through all six calls; nothing if there is none. */
  method RunEngine(e: Engines, a: Adapter, r: Request) returns (observations: seq<Observation>)
    ensures observations != [] ==> AllSucceed(e, a, r, observations)
    ensures forall found :: AllSucceed(e, a, r, found) ==> observations == found
  {
    var health := e.health(a, r);
    if health.Raised? || health.value == UNAVAILABLE {
      return [];
    }
    var prepared := e.prepare(a, r);
    if prepared.Raised? {
      return [];
    }
    var finished := e.execute(a, r, prepared.value);
    if finished.Raised? {
      return [];
    }
    var raw := e.collect(a, r, finished.value);
    if raw.Raised? {
      return [];
    }
    var normalized := e.normalize(a, r, raw.value);
    if normalized.Raised? {
      return [];
    }
    var cleaned := e.cleanup(a, r, prepared.value);
    if cleaned.Raised? {
      return [];
    }
    observations := normalized.value;
  }

  /** The six calls, in their order, with what each returned. */
  ghost predicate AllSucceed(e: Engines, a: Adapter, r: Request, found: seq<Observation>) {
    exists h, p, x, raw ::
      && e.health(a, r) == Gave(h) && h != UNAVAILABLE && e.prepare(a, r) == Gave(p) && e.execute(a, r, p) == Gave(x)
      && e.collect(a, r, x) == Gave(raw) && e.normalize(a, r, raw) == Gave(found) && e.cleanup(a, r, p).Gave?
  }

  /** Observations survive exactly when the engine is not unavailable and all six calls succeed:
      then they are what was normalized, and otherwise there are none. */
  lemma {:induction false} SurviveExactly(e: Engines, a: Adapter, r: Request, found: seq<Observation>)
    requires found != []
    ensures Gathered(e, a, r) == found <==> AllSucceed(e, a, r, found)
  {
    if Gathered(e, a, r) == found {
      var p := e.prepare(a, r).value;
      var x := e.execute(a, r, p).value;
      var raw := e.collect(a, r, x).value;
      assert e.prepare(a, r) == Gave(p) && e.execute(a, r, p) == Gave(x) && e.collect(a, r, x) == Gave(raw);
      assert e.health(a, r) == Gave(e.health(a, r).value) && e.normalize(a, r, raw) == Gave(found);
    }
    if AllSucceed(e, a, r, found) {
      var h, p, x, raw :|
        && e.health(a, r) == Gave(h) && h != UNAVAILABLE && e.prepare(a, r) == Gave(p) && e.execute(a, r, p) == Gave(x)
        && e.collect(a, r, x) == Gave(raw) && e.normalize(a, r, raw) == Gave(found) && e.cleanup(a, r, p).Gave?;
    }
  }

  /** Those two conditions leave one possibility. */
  lemma {:induction false} SurvivorsAreGathered(e: Engines, a: Adapter, r: Request, observations: seq<Observation>)
    requires observations != [] ==> AllSucceed(e, a, r, observations)
    requires forall found :: AllSucceed(e, a, r, found) ==> observations == found
    ensures observations == Gathered(e, a, r)
  {
    if observations != [] {
      SurviveExactly(e, a, r, observations);
    } else if Gathered(e, a, r) != [] {
      SurviveExactly(e, a, r, Gathered(e, a, r));
    }
  }

  function CleansUp(): (Adapter, Request, Prepared) -> Call<Done> {
    (a: Adapter, r: Request, p: Prepared) => Gave(Done)
  }

  /** What an engine finds when nothing but its cleanup can fail is kept exactly when its cleanup
      does not. */
  lemma {:induction false} CleanupDiscards(e: Engines, a: Adapter, r: Request, found: seq<Observation>)
    requires Gathered(e.(cleanup := CleansUp()), a, r) == found && found != []
    ensures e.prepare(a, r).Gave?
    ensures Gathered(e, a, r) == if e.cleanup(a, r, e.prepare(a, r).value).Gave? then found else []
  {
  }

  // ----- engines that never fail

  ghost predicate NeverFails(e: Engines) {
    && (forall a, r :: e.health(a, r) == Gave(HEALTHY)) && (forall a, r :: e.prepare(a, r).Gave?)
    && (forall a, r, p :: e.execute(a, r, p).Gave?) && (forall a, r, x :: e.collect(a, r, x).Gave?)
    && (forall a, r, raw :: e.normalize(a, r, raw).Gave?) && (forall a, r, p :: e.cleanup(a, r, p).Gave?)
  }

  /** Does the run get through all six calls? */
  predicate GetsThrough(e: Engines, a: Adapter, r: Request) {
    && e.health(a, r).Gave? && e.health(a, r).value != UNAVAILABLE && e.prepare(a, r).Gave?
    && var p := e.prepare(a, r).value;
       e.execute(a, r, p).Gave?
       && e.collect(a, r, e.execute(a, r, p).value).Gave?
       && e.normalize(a, r, e.collect(a, r, e.execute(a, r, p).value).value).Gave?
       && e.cleanup(a, r, p).Gave?
  }

  function Or<T>(c: Call<T>, other: T): Call<T> {
    if c.Gave? then c else Gave(other)
  }

  /** The same engines with every run that would fail replaced by a healthy one that goes
      through all six calls and normalizes to nothing. */
  function Quiet(e: Engines): Engines {
    Engines(
      e.describe,
      (a: Adapter, r: Request) => Gave(HEALTHY),
      (a: Adapter, r: Request) => Or(e.prepare(a, r), Prepared(0)),
      (a: Adapter, r: Request, p: Prepared) => Or(e.execute(a, r, p), Finished(0)),
      (a: Adapter, r: Request, x: Finished) => Or(e.collect(a, r, x), Raw(0)),
      (a: Adapter, r: Request, raw: Raw) => if GetsThrough(e, a, r) then Or(e.normalize(a, r, raw), []) else Gave([]),
      (a: Adapter, r: Request, p: Prepared) => Gave(Done))
  }

  lemma {:induction false} QuietNeverFails(e: Engines)
    ensures NeverFails(Quiet(e))
  {
    var q := Quiet(e);
    forall a, r ensures q.health(a, r) == Gave(HEALTHY) {
    }
    forall a, r ensures q.prepare(a, r).Gave? {
      assert q.prepare(a, r) == Or(e.prepare(a, r), Prepared(0));
    }
    forall a, r, p ensures q.execute(a, r, p).Gave? {
      assert q.execute(a, r, p) == Or(e.execute(a, r, p), Finished(0));
    }
    forall a, r, x ensures q.collect(a, r, x).Gave? {
      assert q.collect(a, r, x) == Or(e.collect(a, r, x), Raw(0));
    }
    forall a, r, raw ensures q.normalize(a, r, raw).Gave? {
      assert q.normalize(a, r, raw) == if GetsThrough(e, a, r) then Or(e.normalize(a, r, raw), []) else Gave([]);
    }
    forall a, r, p ensures q.cleanup(a, r, p).Gave? {
      assert q.cleanup(a, r, p) == Gave(Done);
    }
  }

  /** Failing is finding nothing: engines that never fail can take the place of any engines,
      with the same observations from every run. */
  lemma {:induction false} QuietGathersTheSame(e: Engines, a: Adapter, r: Request)
    ensures NeverFails(Quiet(e)) && Gathered(Quiet(e), a, r) == Gathered(e, a, r)
  {
    var q := Quiet(e);
    QuietNeverFails(e);
    if GetsThrough(e, a, r) {
      var p := e.prepare(a, r).value;
      var x := e.execute(a, r, p).value;
      var raw := e.collect(a, r, x).value;
      assert q.prepare(a, r) == Gave(p) && q.execute(a, r, p) == Gave(x) && q.collect(a, r, x) == Gave(raw);
      assert q.normalize(a, r, raw) == e.normalize(a, r, raw);
    } else {
      var p := q.prepare(a, r).value;
      var x := q.execute(a, r, p).value;
      var raw := q.collect(a, r, x).value;
      assert q.normalize(a, r, raw) == Gave([]);
    }
  }
}

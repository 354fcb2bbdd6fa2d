/** What correlation promises: nothing lost, nothing merged that differs, nothing that depends
    on the order of the observations, and nothing lowered by hearing more. */
module CorrelationLaws {
  import opened Findings
  import opened Grouping
  import opened Correlation
  import Taxonomy

  // ----- sorting keeps the findings

  function FingerprintOf(f: Finding): string {
    f.fingerprint
  }

  lemma {:induction false} InsertKeeps(f: Finding, fs: seq<Finding>)
    ensures multiset(Insert(f, fs)) == multiset(fs) + multiset{f}
  {
    if fs != [] && !NotBelow(f, fs[0]) {
      InsertKeeps(f, fs[1..]);
      assert fs == [fs[0]] + fs[1..];
    }
  }

  lemma {:induction false} SortedKeeps(fs: seq<Finding>)
    ensures multiset(Sorted(fs)) == multiset(fs)
  {
    if fs != [] {
      SortedKeeps(fs[1..]);
      InsertKeeps(fs[0], Sorted(fs[1..]));
      assert fs == [fs[0]] + fs[1..];
    }
  }

  ghost predicate InOrder(fs: seq<Finding>) {
    forall i, j :: 0 <= i <= j < |fs| ==> NotBelow(fs[i], fs[j])
  }

  lemma {:induction false} InsertOrders(f: Finding, fs: seq<Finding>)
    requires InOrder(fs)
    ensures InOrder(Insert(f, fs))
  {
    if fs != [] {
      var tail := fs[1..];
      assert forall i :: 0 <= i < |tail| ==> tail[i] == fs[i + 1];
      if NotBelow(f, fs[0]) {
        forall i | 0 <= i < |fs| ensures NotBelow(f, fs[i]) {
          assert NotBelow(fs[0], fs[i]);
        }
      } else {
        InsertOrders(f, tail);
        InsertKeeps(f, tail);
        var r := Insert(f, tail);
        forall i | 0 <= i < |r| ensures NotBelow(fs[0], r[i]) {
          assert r[i] in multiset(r);
          assert r[i] == f || r[i] in tail;
        }
      }
    }
  }

  /** Findings come out most severe first, then most certain. */
  lemma {:induction false} SortedOrders(fs: seq<Finding>)
    ensures InOrder(Sorted(fs))
  {
    if fs != [] {
      SortedOrders(fs[1..]);
      InsertOrders(fs[0], Sorted(fs[1..]));
    }
  }

  /** So of any two findings the one that stands first leads. */
  lemma {:induction false} FindingsLead(h: Hash, obs: seq<Observation>, newId: string -> string, fs: seq<Finding>,
                                        i: nat, j: nat)
    requires fs == Correlated(h, obs, newId) && i < j < |fs|
    ensures Leads(fs[i].severity, fs[i].confidence, fs[j].severity, fs[j].confidence)
  {
    SortedOrders(Unsorted(h, obs, newId));
    NotBelowExactly(fs[i], fs[j]);
  }

  function IfAt(f: Finding, s: Severity, c: Confidence): seq<Finding> {
    if f.severity == s && f.confidence == c then [f] else []
  }

  /** The findings of one severity and confidence. */
  function AtLevel(fs: seq<Finding>, s: Severity, c: Confidence): seq<Finding> {
    if fs == [] then [] else IfAt(fs[0], s, c) + AtLevel(fs[1..], s, c)
  }

  lemma {:induction false} InsertIsStable(f: Finding, fs: seq<Finding>, s: Severity, c: Confidence)
    ensures AtLevel(Insert(f, fs), s, c) == IfAt(f, s, c) + AtLevel(fs, s, c)
  {
    if fs == [] || NotBelow(f, fs[0]) {
    } else {
      InsertIsStable(f, fs[1..], s, c);
    }
  }

  /** Findings that tie keep the order in which their fingerprints were met. */
  lemma {:induction false} SortedIsStable(fs: seq<Finding>, s: Severity, c: Confidence)
    ensures AtLevel(Sorted(fs), s, c) == AtLevel(fs, s, c)
  {
    if fs != [] {
      SortedIsStable(fs[1..], s, c);
      InsertIsStable(fs[0], Sorted(fs[1..]), s, c);
    }
  }

  // ----- each finding is its group

  /** The finding a list of observations yields for a fingerprint. */
  function FindingAt(h: Hash, obs: seq<Observation>, key: string, newId: string -> string): Finding
    requires Select(obs, KeyOf(h), key) != []
  {
    Merge(newId(key), key, Select(obs, KeyOf(h), key))
  }

  ghost predicate Labels(make: (string, seq<Observation>) --> Finding) {
    forall k, g: seq<Observation> :: |g| > 0 ==> make.requires(k, g) && make(k, g).fingerprint == k
  }

  lemma {:induction false} FindingsByKey(obs: seq<Observation>, key: Observation -> string,
                                         make: (string, seq<Observation>) --> Finding, f: Finding)
    requires Labels(make)
    ensures f in FindingsBy(obs, key, make) <==>
              Select(obs, key, f.fingerprint) != [] && f == make(f.fingerprint, Select(obs, key, f.fingerprint))
    ensures |FindingsBy(obs, key, make)| == |Keys(obs, key)|
  {
    var keys := Keys(obs, key);
    var parts, r := Parts(obs, key, keys), FindingsBy(obs, key, make);
    PartsAreNotEmpty(obs, key);
    KeyHasMembers(obs, key, f.fingerprint);
    if f in r {
      var i :| 0 <= i < |r| && r[i] == f;
      assert |parts[i]| > 0 && f == make(keys[i], parts[i]);
    }
    if f.fingerprint in keys && f == make(f.fingerprint, Select(obs, key, f.fingerprint)) {
      var i :| 0 <= i < |keys| && keys[i] == f.fingerprint;
      assert r[i] == f;
    }
  }

  lemma {:induction false} FindingsByAreDistinct(obs: seq<Observation>, key: Observation -> string,
                                                 make: (string, seq<Observation>) --> Finding)
    requires Labels(make)
    ensures NoRepeats(FindingsBy(obs, key, make), FingerprintOf)
  {
    KeysAreDistinct(obs, key);
    PartsAreNotEmpty(obs, key);
    var keys := Keys(obs, key);
    var parts, r := Parts(obs, key, keys), FindingsBy(obs, key, make);
    forall i | 0 <= i < |r| ensures FingerprintOf(r[i]) == keys[i] {
      assert |parts[i]| > 0 && r[i] == make(keys[i], parts[i]);
    }
  }

  lemma {:induction false} MergerLabels(newId: string -> string)
    ensures Labels(Merger(newId))
  {
    var make := Merger(newId);
    forall k, g: seq<Observation> | |g| > 0 ensures make.requires(k, g) && make(k, g).fingerprint == k {
      assert make(k, g) == Merge(newId(k), k, g);
    }
  }

  /** There is exactly one finding per fingerprint, and it is the merge of the observations
      that have the fingerprint, in their order. */
  lemma {:induction false} FindingsAreGroups(h: Hash, obs: seq<Observation>, newId: string -> string, f: Finding)
    ensures f in Correlated(h, obs, newId) <==>
            Select(obs, KeyOf(h), f.fingerprint) != [] && f == FindingAt(h, obs, f.fingerprint, newId)
    ensures NoRepeats(Correlated(h, obs, newId), FingerprintOf)
    ensures InOrder(Correlated(h, obs, newId))
  {
    var raw := Unsorted(h, obs, newId);
    MergerLabels(newId);
    FindingsByKey(obs, KeyOf(h), Merger(newId), f);
    FindingsByAreDistinct(obs, KeyOf(h), Merger(newId));
    SortedKeeps(raw);
    NoRepeatsPermuted(raw, Sorted(raw), FingerprintOf);
    SortedOrders(raw);
    assert f in Sorted(raw) <==> f in multiset(Sorted(raw));
  }

  // ----- conservation

  function AllIds(fs: seq<Finding>): seq<string> {
    if fs == [] then [] else fs[0].observationIds + AllIds(fs[1..])
  }

  ghost predicate Lists(make: (string, seq<Observation>) --> Finding) {
    forall k, g: seq<Observation> :: |g| > 0 ==> make.requires(k, g) && make(k, g).observationIds == IdsOf(g)
  }

  lemma {:induction false} IdsOfParts(keys: seq<string>, obs: seq<Observation>, key: Observation -> string,
                                      make: (string, seq<Observation>) --> Finding)
    requires Lists(make) && NoneEmpty(Parts(obs, key, keys))
    ensures AllIds(MadeFrom(keys, Parts(obs, key, keys), make)) == IdsOf(Flattened(keys, obs, key))
  {
    var parts := Parts(obs, key, keys);
    var made := MadeFrom(keys, parts, make);
    if keys != [] {
      var parts' := Parts(obs, key, keys[1..]);
      assert parts' == parts[1..] && |parts[0]| > 0;
      assert MadeFrom(keys[1..], parts', make) == made[1..];
      IdsOfParts(keys[1..], obs, key, make);
      MappedAppend(parts[0], Flattened(keys[1..], obs, key), ObservationId);
    }
  }

  lemma {:induction false} InsertKeepsIds(f: Finding, fs: seq<Finding>)
    ensures multiset(AllIds(Insert(f, fs))) == multiset(f.observationIds) + multiset(AllIds(fs))
  {
    if fs == [] || NotBelow(f, fs[0]) {
      assert ([f] + fs)[1..] == fs;
    } else {
      InsertKeepsIds(f, fs[1..]);
      assert ([fs[0]] + Insert(f, fs[1..]))[1..] == Insert(f, fs[1..]);
    }
  }

  lemma {:induction false} SortedKeepsIds(fs: seq<Finding>)
    ensures multiset(AllIds(Sorted(fs))) == multiset(AllIds(fs))
  {
    if fs != [] {
      SortedKeepsIds(fs[1..]);
      InsertKeepsIds(fs[0], Sorted(fs[1..]));
    }
  }

  lemma {:induction false} ConservedBy(obs: seq<Observation>, key: Observation -> string,
                                       make: (string, seq<Observation>) --> Finding)
    requires Lists(make)
    ensures multiset(AllIds(Sorted(FindingsBy(obs, key, make)))) == multiset(IdsOf(obs))
  {
    var keys := Keys(obs, key);
    PartsAreNotEmpty(obs, key);
    IdsOfParts(keys, obs, key, make);
    Conserved(obs, key);
    MappedPermuted(Flattened(keys, obs, key), obs, ObservationId);
    SortedKeepsIds(FindingsBy(obs, key, make));
  }

  lemma {:induction false} MergerLists(newId: string -> string)
    ensures Lists(Merger(newId))
  {
    var make := Merger(newId);
    forall k, g: seq<Observation> | |g| > 0 ensures make.requires(k, g) && make(k, g).observationIds == IdsOf(g) {
      assert make(k, g) == Merge(newId(k), k, g);
    }
  }

  /** No observation is lost, and none is counted in two findings. */
  lemma {:induction false} ObservationsAreConserved(h: Hash, obs: seq<Observation>, newId: string -> string)
    ensures multiset(AllIds(Correlated(h, obs, newId))) == multiset(IdsOf(obs))
  {
    MergerLists(newId);
    ConservedBy(obs, KeyOf(h), Merger(newId));
  }

  // ----- members of a finding agree

  /** The class is read off the text, whatever hosts and paths contain, so a hash without
      collisions tells classes apart. */
  lemma {:induction false} FaithfulTellsClasses(h: Hash)
    requires Faithful(h)
    ensures TellsClasses(h)
  {
    forall c, l, d, m | h(c, l) == h(d, m) ensures c == d {
      SameTextSameClass(c, l, d, m);
    }
  }

  lemma {:induction false} SameTextSameClass(c: Taxonomy.Category, l: Location, d: Taxonomy.Category, m: Location)
    requires Fingerprint(Taxonomy.Key(c), l) == Fingerprint(Taxonomy.Key(d), m)
    ensures c == d
  {
    Taxonomy.KeyHasNoPipe(c);
    Taxonomy.KeyHasNoPipe(d);
    SameFingerprintSameClass(Taxonomy.Key(c), l, Taxonomy.Key(d), m);
    Taxonomy.KeyIsInjective(c, d);
  }

  lemma {:induction false} SameKeySameCategory(h: Hash, o: Observation, p: Observation)
    requires TellsClasses(h) && KeyOf(h)(o) == KeyOf(h)(p)
    ensures CategoryOf(o) == CategoryOf(p)
  {
  }

  predicate PlainHost(o: Observation) {
    PipeFree(o.location.host)
  }

  predicate PlainPlace(o: Observation) {
    PipeFree(o.location.host) && PipeFree(o.location.path) && PipeFree(OrStar(o.location.parameter))
  }

  /** For hosts free of the separator, one key means one class, host and port. */
  lemma {:induction false} SameKeySameHost(h: Hash, o: Observation, p: Observation)
    requires Faithful(h) && KeyOf(h)(o) == KeyOf(h)(p) && PlainHost(o) && PlainHost(p)
    ensures o.location.host == p.location.host && o.location.port == p.location.port
  {
    Taxonomy.KeyHasNoPipe(CategoryOf(o));
    Taxonomy.KeyHasNoPipe(CategoryOf(p));
    SameFingerprintSameHost(Taxonomy.Key(CategoryOf(o)), o.location, Taxonomy.Key(CategoryOf(p)), p.location);
  }

  /** With plain paths and parameters too, one key means exactly one class and place. */
  lemma {:induction false} SameKeyExactly(h: Hash, o: Observation, p: Observation)
    requires Faithful(h) && PlainPlace(o) && PlainPlace(p)
    ensures KeyOf(h)(o) == KeyOf(h)(p) <==>
              && CategoryOf(o) == CategoryOf(p) && o.location.host == p.location.host
                 && o.location.port == p.location.port
              && NormalizeEndpoint(o.location.path) == NormalizeEndpoint(p.location.path)
              && OrStar(o.location.verb) == OrStar(p.location.verb)
                 && OrStar(o.location.parameter) == OrStar(p.location.parameter)
  {
    var a, b := Taxonomy.Key(CategoryOf(o)), Taxonomy.Key(CategoryOf(p));
    Taxonomy.KeyHasNoPipe(CategoryOf(o));
    Taxonomy.KeyHasNoPipe(CategoryOf(p));
    SameFingerprintExactly(a, o.location, b, p.location);
    if a == b {
      Taxonomy.KeyIsInjective(CategoryOf(o), CategoryOf(p));
    }
  }

  /** The class, host and port a finding reports are those of every member, and so are its
      endpoint, verb and parameter when paths and parameters are plain. */
  lemma {:induction false} FindingSpeaksForMembers(h: Hash, obs: seq<Observation>, newId: string -> string, f: Finding,
                                                   o: Observation)
    requires Faithful(h) && f in Correlated(h, obs, newId) && o in Select(obs, KeyOf(h), f.fingerprint)
    ensures f.category == CategoryOf(o)
    ensures (forall p :: p in obs ==> PlainHost(p)) ==> f.host == o.location.host && f.port == o.location.port
    ensures (forall p :: p in obs ==> PlainPlace(p)) ==>
              && f.endpoint == NormalizeEndpoint(o.location.path)
              && OrStar(f.verb) == OrStar(o.location.verb) && OrStar(f.parameter) == OrStar(o.location.parameter)
  {
    FindingsAreGroups(h, obs, newId, f);
    var g := Select(obs, KeyOf(h), f.fingerprint);
    SelectMeans(obs, KeyOf(h), f.fingerprint);
    var p := Primary(g);
    FaithfulTellsClasses(h);
    SameKeySameCategory(h, o, p);
    if forall p :: p in obs ==> PlainHost(p) {
      SameKeySameHost(h, o, p);
    }
    if forall p :: p in obs ==> PlainPlace(p) {
      SameKeyExactly(h, o, p);
    }
  }
}

/** Grouping a list by a key, over any element and key types, and folds over a group. */
module Grouping {
  /** The elements with key `k`, in order. */
  function Select<T, K(==)>(xs: seq<T>, key: T -> K, k: K): seq<T>
    decreases |xs|
  {
    if xs == [] then []
    else
      var n := |xs| - 1;
      Select(xs[..n], key, k) + if key(xs[n]) == k then [xs[n]] else []
  }

  /** The keys met, in order of first appearance. */
  function Keys<T, K(==)>(xs: seq<T>, key: T -> K): seq<K>
    decreases |xs|
  {
    if xs == [] then []
    else
      var n := |xs| - 1;
      var keys := Keys(xs[..n], key);
      if key(xs[n]) in keys then keys else keys + [key(xs[n])]
  }

  lemma {:induction false} SelectMeans<T(!new), K>(xs: seq<T>, key: T -> K, k: K)
    ensures forall x :: x in Select(xs, key, k) <==> x in xs && key(x) == k
    decreases |xs|
  {
    if xs != [] {
      var n := |xs| - 1;
      SelectMeans(xs[..n], key, k);
      assert forall x :: x in xs <==> x in xs[..n] || x == xs[n];
    }
  }

  lemma {:induction false} KeysMean<T(!new), K(!new)>(xs: seq<T>, key: T -> K)
    ensures forall k :: k in Keys(xs, key) <==> exists x :: x in xs && key(x) == k
    decreases |xs|
  {
    if xs != [] {
      var n := |xs| - 1;
      var before := Keys(xs[..n], key);
      KeysMean(xs[..n], key);
      forall k ensures k in Keys(xs, key) <==> exists x :: x in xs && key(x) == k {
        if x :| x in xs && key(x) == k {
          assert x in xs[..n] || x == xs[n];
        }
        if k in before {
          var x :| x in xs[..n] && key(x) == k;
          assert x in xs;
        } else if k in Keys(xs, key) {
          assert k == key(xs[n]) && xs[n] in xs;
        }
      }
    }
  }

  lemma {:induction false} KeysAreDistinct<T, K>(xs: seq<T>, key: T -> K)
    ensures forall i, j :: 0 <= i < j < |Keys(xs, key)| ==> Keys(xs, key)[i] != Keys(xs, key)[j]
    decreases |xs|
  {
    if xs != [] {
      KeysAreDistinct(xs[..|xs| - 1], key);
    }
  }

  lemma {:induction false} KeyHasMembers<T(!new), K(!new)>(xs: seq<T>, key: T -> K, k: K)
    ensures k in Keys(xs, key) <==> Select(xs, key, k) != []
  {
    KeysMean(xs, key);
    SelectMeans(xs, key, k);
    if k in Keys(xs, key) {
      var x :| x in xs && key(x) == k;
      assert x in Select(xs, key, k);
    }
    if Select(xs, key, k) != [] {
      assert Select(xs, key, k)[0] in xs;
    }
  }

  lemma {:induction false} SelectAppend<T, K>(a: seq<T>, b: seq<T>, key: T -> K, k: K)
    ensures Select(a + b, key, k) == Select(a, key, k) + Select(b, key, k)
    decreases |b|
  {
    if b == [] {
      assert a + b == a;
    } else {
      var n := |b| - 1;
      assert a + b == (a + b[..n]) + [b[n]];
      SelectAppend(a, b[..n], key, k);
    }
  }

  /** The groups of the given keys, one after the other. */
  function Flattened<T, K(==)>(keys: seq<K>, xs: seq<T>, key: T -> K): seq<T> {
    if keys == [] then [] else Select(xs, key, keys[0]) + Flattened(keys[1..], xs, key)
  }

  lemma {:induction false} FlattenedSnoc<T, K>(keys: seq<K>, xs: seq<T>, x: T, key: T -> K)
    requires forall i, j :: 0 <= i < j < |keys| ==> keys[i] != keys[j]
    ensures multiset(Flattened(keys, xs + [x], key)) ==
            multiset(Flattened(keys, xs, key)) + if key(x) in keys then multiset{x} else multiset{}
  {
    if keys != [] {
      FlattenedSnoc(keys[1..], xs, x, key);
    }
  }

  lemma {:induction false} FlattenedMore<T, K>(keys: seq<K>, k: K, xs: seq<T>, key: T -> K)
    ensures Flattened(keys + [k], xs, key) == Flattened(keys, xs, key) + Select(xs, key, k)
  {
    if keys == [] {
      assert ([] + [k])[1..] == [];
    } else {
      assert (keys + [k])[1..] == keys[1..] + [k];
      FlattenedMore(keys[1..], k, xs, key);
    }
  }

  /** Grouping loses nothing and duplicates nothing. */
  lemma {:induction false} Conserved<T(!new), K(!new)>(xs: seq<T>, key: T -> K)
    ensures multiset(Flattened(Keys(xs, key), xs, key)) == multiset(xs)
    decreases |xs|
  {
    if xs != [] {
      var n := |xs| - 1;
      var front, x := xs[..n], xs[n];
      assert xs == front + [x];
      var keys := Keys(front, key);
      Conserved(front, key);
      KeysAreDistinct(front, key);
      FlattenedSnoc(keys, front, x, key);
      if key(x) !in keys {
        FlattenedMore(keys, key(x), xs, key);
        KeyHasMembers(front, key, key(x));
      }
    }
  }

  /** The same over any list of keys that misses none. */
  lemma {:induction false} ConservedOver<T(!new), K(!new)>(keys: seq<K>, xs: seq<T>, key: T -> K)
    requires (forall i, j :: 0 <= i < j < |keys| ==> keys[i] != keys[j]) && forall x :: x in xs ==> key(x) in keys
    ensures multiset(Flattened(keys, xs, key)) == multiset(xs)
    decreases |xs|
  {
    if xs == [] {
      NothingFlattened(keys, xs, key);
    } else {
      var n := |xs| - 1;
      assert xs == xs[..n] + [xs[n]];
      ConservedOver(keys, xs[..n], key);
      FlattenedSnoc(keys, xs[..n], xs[n], key);
    }
  }

  lemma {:induction false} NothingFlattened<T, K>(keys: seq<K>, xs: seq<T>, key: T -> K)
    requires xs == []
    ensures Flattened(keys, xs, key) == []
  {
    if keys != [] {
      NothingFlattened(keys[1..], xs, key);
    }
  }

  /** Where a key first appears, or |xs|. */
  function FirstAt<T, K(==)>(xs: seq<T>, key: T -> K, k: K): (r: nat)
    ensures r <= |xs|
    ensures r < |xs| ==> key(xs[r]) == k
    ensures forall j :: 0 <= j < r ==> key(xs[j]) != k
    decreases |xs|
  {
    if xs == [] then 0
    else
      var n := |xs| - 1;
      var r := FirstAt(xs[..n], key, k);
      if r < n then r else if key(xs[n]) == k then n else n + 1
  }

  lemma {:induction false} NeverMet<T, K>(xs: seq<T>, key: T -> K, k: K)
    requires k !in Keys(xs, key)
    ensures FirstAt(xs, key, k) == |xs|
    decreases |xs|
  {
    if xs != [] {
      NeverMet(xs[..|xs| - 1], key, k);
    }
  }

  /** Keys come in the order of their first appearance. */
  lemma {:induction false} KeysInOrder<T(!new), K(!new)>(xs: seq<T>, key: T -> K, keys: seq<K>)
    requires keys == Keys(xs, key)
    ensures forall i :: 0 <= i < |keys| ==> FirstAt(xs, key, keys[i]) < |xs|
    ensures forall i, j :: 0 <= i < j < |keys| ==> FirstAt(xs, key, keys[i]) < FirstAt(xs, key, keys[j])
    decreases |xs|
  {
    if xs != [] {
      var n := |xs| - 1;
      var front, x := xs[..n], xs[n];
      var before := Keys(front, key);
      KeysInOrder(front, key, before);
      forall i | 0 <= i < |before| ensures FirstAt(xs, key, before[i]) == FirstAt(front, key, before[i]) < n {
      }
      if key(x) !in before {
        NeverMet(front, key, key(x));
      }
    }
  }

  ghost predicate Grouped<T, K(!new)>(xs: seq<T>, key: T -> K, keys: seq<K>, groups: map<K, seq<T>>) {
    && keys == Keys(xs, key)
    && (forall k :: k in groups <==> k in keys)
    && (forall k :: k in groups ==> groups[k] == Select(xs, key, k))
  }

  /** The grouping loop: `keys` in order of first appearance, each with its members. */
  method GroupBy<T(!new), K(==, !new)>(xs: seq<T>, key: T -> K) returns (keys: seq<K>, groups: map<K, seq<T>>)
    ensures Grouped(xs, key, keys, groups)
  {
    keys, groups := [], map[];
    var i := 0;
    while i < |xs|
      invariant 0 <= i <= |xs| && Grouped(xs[..i], key, keys, groups)
    {
      var x, k := xs[i], key(xs[i]);
      assert xs[..i + 1] == xs[..i] + [x];
      if k in groups {
        groups := groups[k := groups[k] + [x]];
      } else {
        GroupedNew(xs[..i], x, key, keys, groups);
        keys := keys + [k];
        groups := groups[k := [x]];
      }
      i := i + 1;
    }
    assert xs[..|xs|] == xs;
  }

  lemma {:induction false} GroupedNew<T(!new), K(!new)>(xs: seq<T>, x: T, key: T -> K, keys: seq<K>,
                                        groups: map<K, seq<T>>)
    requires Grouped(xs, key, keys, groups) && key(x) !in groups
    ensures Grouped(xs + [x], key, keys + [key(x)], groups[key(x) := [x]])
  {
    KeyHasMembers(xs, key, key(x));
    assert (xs + [x])[..|xs|] == xs;
    assert Keys(xs + [x], key) == keys + [key(x)];
    forall k ensures Select(xs + [x], key, k) == Select(xs, key, k) + if key(x) == k then [x] else [] {
      SelectSnoc(xs, x, key, k);
    }
  }

  lemma {:induction false} SelectSnoc<T, K>(xs: seq<T>, x: T, key: T -> K, k: K)
    ensures Select(xs + [x], key, k) == Select(xs, key, k) + if key(x) == k then [x] else []
  {
    assert (xs + [x])[..|xs|] == xs;
  }

  /** The groups, in the order of their keys. */
  function Parts<T, K(==)>(xs: seq<T>, key: T -> K, keys: seq<K>): (r: seq<seq<T>>)
    ensures |r| == |keys| && forall i :: 0 <= i < |r| ==> r[i] == Select(xs, key, keys[i])
  {
    seq(|keys|, i requires 0 <= i < |keys| => Select(xs, key, keys[i]))
  }

  predicate NoneEmpty<T>(parts: seq<seq<T>>) {
    forall i :: 0 <= i < |parts| ==> |parts[i]| > 0
  }

  method GroupsInOrder<T(!new), K(==, !new)>(xs: seq<T>, key: T -> K) returns (keys: seq<K>, parts: seq<seq<T>>)
    ensures keys == Keys(xs, key) && parts == Parts(xs, key, keys) && NoneEmpty(parts)
  {
    var groups;
    keys, groups := GroupBy(xs, key);
    parts := [];
    var i := 0;
    while i < |keys|
      invariant 0 <= i <= |keys|
      invariant |parts| == i && forall j :: 0 <= j < i ==> parts[j] == Select(xs, key, keys[j])
    {
      assert keys[i] in groups;
      parts := parts + [groups[keys[i]]];
      i := i + 1;
    }
    PartsAreNotEmpty(xs, key);
  }

  lemma {:induction false} PartsAreNotEmpty<T(!new), K(!new)>(xs: seq<T>, key: T -> K)
    ensures NoneEmpty(Parts(xs, key, Keys(xs, key)))
  {
    forall k | k in Keys(xs, key) ensures Select(xs, key, k) != [] {
      KeyHasMembers(xs, key, k);
    }
  }

  /** One result per group, made from its key and its members. */
  function MadeFrom<T(!new), K(!new), R>(keys: seq<K>, parts: seq<seq<T>>, make: (K, seq<T>) --> R): (r: seq<R>)
    requires |keys| == |parts| && NoneEmpty(parts)
    requires forall k, g: seq<T> :: |g| > 0 ==> make.requires(k, g)
    ensures |r| == |keys| && forall i :: 0 <= i < |r| ==> r[i] == make(keys[i], parts[i])
  {
    seq(|keys|, i requires 0 <= i < |keys| => make(keys[i], parts[i]))
  }

  // ----- folds over a group

  function MaxOf<T>(g: seq<T>, f: T -> int): int
    requires |g| > 0
  {
    if |g| == 1 then f(g[0])
    else
      var m := MaxOf(g[1..], f);
      if m <= f(g[0]) then f(g[0]) else m
  }

  lemma {:induction false} MaxIsReached<T(!new)>(g: seq<T>, f: T -> int)
    requires |g| > 0
    ensures forall x :: x in g ==> f(x) <= MaxOf(g, f)
    ensures exists x :: x in g && f(x) == MaxOf(g, f)
  {
    if |g| > 1 {
      MaxIsReached(g[1..], f);
      assert forall x :: x in g <==> x == g[0] || x in g[1..];
      if MaxOf(g, f) == f(g[0]) {
        assert g[0] in g;
      } else {
        var x :| x in g[1..] && f(x) == MaxOf(g[1..], f);
        assert x in g;
      }
    } else {
      assert g[0] in g;
    }
  }

  lemma {:induction false} MaxOfJoin<T>(a: seq<T>, b: seq<T>, f: T -> int)
    requires |a| > 0 && |b| > 0
    ensures MaxOf(a + b, f) == if MaxOf(a, f) <= MaxOf(b, f) then MaxOf(b, f) else MaxOf(a, f)
  {
    if |a| == 1 {
      assert (a + b)[1..] == b;
    } else {
      assert (a + b)[1..] == a[1..] + b;
      MaxOfJoin(a[1..], b, f);
    }
  }

  lemma {:induction false} MaxIgnoresOrder<T(!new)>(a: seq<T>, b: seq<T>, f: T -> int)
    requires |a| > 0 && |b| > 0 && forall x :: x in a <==> x in b
    ensures MaxOf(a, f) == MaxOf(b, f)
  {
    MaxIsReached(a, f);
    MaxIsReached(b, f);
    var x :| x in a && f(x) == MaxOf(a, f);
    var y :| y in b && f(y) == MaxOf(b, f);
    assert x in b && y in a;
  }

  function Collect<T, X>(g: seq<T>, f: T -> set<X>): set<X> {
    if g == [] then {} else f(g[0]) + Collect(g[1..], f)
  }

  lemma {:induction false} CollectMeans<T(!new), X(!new)>(g: seq<T>, f: T -> set<X>)
    ensures forall x :: x in Collect(g, f) <==> exists t :: t in g && x in f(t)
  {
    if g != [] {
      CollectMeans(g[1..], f);
      forall x ensures x in Collect(g, f) <==> exists t :: t in g && x in f(t) {
        if t :| t in g && x in f(t) {
          assert t == g[0] || t in g[1..];
        }
        if x in f(g[0]) {
          assert g[0] in g;
        }
      }
    }
  }

  lemma {:induction false} CollectJoin<T, X>(a: seq<T>, b: seq<T>, f: T -> set<X>)
    ensures Collect(a + b, f) == Collect(a, f) + Collect(b, f)
  {
    if a == [] {
      assert a + b == b;
    } else {
      assert (a + b)[1..] == a[1..] + b;
      CollectJoin(a[1..], b, f);
    }
  }

  lemma {:induction false} CollectIgnoresOrder<T(!new), X(!new)>(a: seq<T>, b: seq<T>, f: T -> set<X>)
    requires forall x :: x in a <==> x in b
    ensures Collect(a, f) == Collect(b, f)
  {
    CollectMeans(a, f);
    CollectMeans(b, f);
  }

  // ----- mapping

  function Mapped<T, R>(xs: seq<T>, f: T -> R): (r: seq<R>)
    ensures |r| == |xs| && forall i :: 0 <= i < |r| ==> r[i] == f(xs[i])
  {
    seq(|xs|, i requires 0 <= i < |xs| => f(xs[i]))
  }

  lemma {:induction false} MappedAppend<T, R>(a: seq<T>, b: seq<T>, f: T -> R)
    ensures Mapped(a + b, f) == Mapped(a, f) + Mapped(b, f)
  {
  }

  lemma {:induction false} MappedJoin<T, R>(a: seq<T>, b: seq<T>, f: T -> R)
    ensures multiset(Mapped(a + b, f)) == multiset(Mapped(a, f)) + multiset(Mapped(b, f))
  {
    MappedAppend(a, b, f);
  }

  lemma {:induction false} MappedPermuted<T(!new), R(!new)>(a: seq<T>, b: seq<T>, f: T -> R)
    requires multiset(a) == multiset(b)
    ensures multiset(Mapped(a, f)) == multiset(Mapped(b, f))
    decreases |b|
  {
    if b == [] {
      assert |multiset(a)| == |a| && a == [];
    } else {
      assert b == [b[0]] + b[1..];
      assert b[0] in multiset(b) && b[0] in multiset(a);
      var i :| 0 <= i < |a| && a[i] == b[0];
      var rest := a[..i] + a[i + 1..];
      assert a == a[..i] + ([a[i]] + a[i + 1..]);
      assert multiset(a) == multiset(rest) + multiset{b[0]};
      assert multiset(b) == multiset(b[1..]) + multiset{b[0]};
      assert multiset(rest) == multiset(a) - multiset{b[0]};
      MappedPermuted(rest, b[1..], f);
      MappedAppend(a[..i], [a[i]] + a[i + 1..], f);
      MappedAppend([a[i]], a[i + 1..], f);
      MappedAppend(a[..i], a[i + 1..], f);
      MappedAppend([b[0]], b[1..], f);
    }
  }

  // ----- filtering

  function Keep<T>(xs: seq<T>, p: T -> bool): seq<T> {
    if xs == [] then [] else (if p(xs[0]) then [xs[0]] else []) + Keep(xs[1..], p)
  }

  lemma {:induction false} KeepMeans<T(!new)>(xs: seq<T>, p: T -> bool)
    ensures forall x :: x in Keep(xs, p) <==> x in xs && p(x)
  {
    if xs != [] {
      KeepMeans(xs[1..], p);
      assert forall x :: x in xs <==> x == xs[0] || x in xs[1..];
    }
  }

  lemma {:induction false} KeepCons<T>(x: T, xs: seq<T>, p: T -> bool)
    ensures Keep([x] + xs, p) == (if p(x) then [x] else []) + Keep(xs, p)
  {
    assert ([x] + xs)[1..] == xs;
  }

  lemma {:induction false} KeepSnoc<T>(xs: seq<T>, x: T, p: T -> bool)
    ensures Keep(xs + [x], p) == Keep(xs, p) + if p(x) then [x] else []
  {
    if xs == [] {
      assert [] + [x] == [x] + [];
      KeepCons(x, [], p);
    } else {
      assert xs + [x] == [xs[0]] + (xs[1..] + [x]);
      KeepCons(xs[0], xs[1..] + [x], p);
      KeepSnoc(xs[1..], x, p);
    }
  }

  lemma {:induction false} KeepSame<T(!new)>(xs: seq<T>, p: T -> bool, q: T -> bool)
    requires forall x :: x in xs ==> (p(x) <==> q(x))
    ensures Keep(xs, p) == Keep(xs, q)
  {
    if xs != [] {
      KeepSame(xs[1..], p, q);
    }
  }

  /** Elements in order, the first of each tag. */
  function Distinct<T, K(==)>(xs: seq<T>, tag: T -> K, seen: set<K>): seq<T>
    decreases |xs|
  {
    if xs == [] then []
    else if tag(xs[0]) in seen then Distinct(xs[1..], tag, seen)
    else [xs[0]] + Distinct(xs[1..], tag, seen + {tag(xs[0])})
  }

  lemma {:induction false} DistinctKeeps<T(!new), K(!new)>(xs: seq<T>, tag: T -> K, seen: set<K>)
    ensures forall x :: x in Distinct(xs, tag, seen) ==> x in xs && tag(x) !in seen
    decreases |xs|
  {
    if xs != [] {
      DistinctKeeps(xs[1..], tag, seen);
      DistinctKeeps(xs[1..], tag, seen + {tag(xs[0])});
    }
  }

  lemma {:induction false} DistinctCovers<T(!new), K(!new)>(xs: seq<T>, tag: T -> K, seen: set<K>, x: T)
    requires x in xs && tag(x) !in seen
    ensures exists y :: y in Distinct(xs, tag, seen) && tag(y) == tag(x)
    decreases |xs|
  {
    var r := Distinct(xs, tag, seen);
    if tag(xs[0]) !in seen && tag(x) == tag(xs[0]) {
      assert r[0] == xs[0] && xs[0] in r;
    } else {
      var seen' := if tag(xs[0]) in seen then seen else seen + {tag(xs[0])};
      DistinctCovers(xs[1..], tag, seen', x);
      var y :| y in Distinct(xs[1..], tag, seen') && tag(y) == tag(x);
      assert y in r;
    }
  }

  ghost predicate NoRepeats<T, K(!new)>(xs: seq<T>, tag: T -> K) {
    forall i, j :: 0 <= i < j < |xs| ==> tag(xs[i]) != tag(xs[j])
  }

  lemma {:induction false} NoRepeatsCons<T(!new), K(!new)>(x: T, xs: seq<T>, tag: T -> K)
    requires NoRepeats(xs, tag) && forall y :: y in xs ==> tag(y) != tag(x)
    ensures NoRepeats([x] + xs, tag)
  {
  }

  lemma {:induction false} KeepDiffers<T(!new), K(!new)>(xs: seq<T>, p: T -> bool, tag: T -> K)
    requires NoRepeats(xs, tag)
    ensures NoRepeats(Keep(xs, p), tag)
  {
    if xs != [] {
      var tail := xs[1..];
      assert forall i :: 0 <= i < |tail| ==> tail[i] == xs[i + 1];
      KeepDiffers(tail, p, tag);
      KeepMeans(tail, p);
      forall y | y in Keep(tail, p) ensures tag(y) != tag(xs[0]) {
        var i :| 0 <= i < |tail| && tail[i] == y;
        assert xs[i + 1] == y;
      }
      NoRepeatsCons(xs[0], Keep(tail, p), tag);
      assert [] + Keep(tail, p) == Keep(tail, p);
    }
  }

  lemma {:induction false} TagsTell<T(!new), K(!new)>(xs: seq<T>, tag: T -> K, x: T, y: T)
    requires NoRepeats(xs, tag) && x in xs && y in xs && tag(x) == tag(y)
    ensures x == y
  {
    var i :| 0 <= i < |xs| && xs[i] == x;
    var j :| 0 <= j < |xs| && xs[j] == y;
    assert tag(xs[i]) == tag(xs[j]);
  }

  /** What is kept by one test, followed by what is kept by its opposite. */
  lemma {:induction false} KeepSplitDiffers<T(!new), K(!new)>(xs: seq<T>, p: T -> bool, q: T -> bool, tag: T -> K)
    requires NoRepeats(xs, tag) && forall x :: p(x) <==> !q(x)
    ensures NoRepeats(Keep(xs, p) + Keep(xs, q), tag)
  {
    var a, b := Keep(xs, p), Keep(xs, q);
    KeepDiffers(xs, p, tag);
    KeepDiffers(xs, q, tag);
    KeepMeans(xs, p);
    KeepMeans(xs, q);
    forall x, y | x in a && y in b ensures tag(x) != tag(y) {
      if tag(x) == tag(y) {
        TagsTell(xs, tag, x, y);
      }
    }
    var c := a + b;
    forall i, j | 0 <= i < j < |c| ensures tag(c[i]) != tag(c[j]) {
      if j < |a| {
        assert c[i] == a[i] && c[j] == a[j];
      } else if i < |a| {
        assert a[i] in a && b[j - |a|] in b;
      } else {
        assert c[i] == b[i - |a|] && c[j] == b[j - |a|];
      }
    }
  }

  lemma {:induction false} WithoutOne<T(!new), K(!new)>(xs: seq<T>, i: nat, rest: seq<T>, tag: T -> K)
    requires i < |xs| && rest == xs[..i] + xs[i + 1..] && NoRepeats(xs, tag)
    ensures multiset(xs) == multiset(rest) + multiset{xs[i]}
    ensures NoRepeats(rest, tag) && forall y :: y in rest ==> tag(y) != tag(xs[i])
  {
    assert xs == xs[..i] + ([xs[i]] + xs[i + 1..]);
    forall j | 0 <= j < |rest| ensures rest[j] == xs[if j < i then j else j + 1] && tag(rest[j]) != tag(xs[i]) {
    }
  }

  lemma {:induction false} PositionOf<T>(xs: seq<T>, x: T) returns (i: nat)
    requires x in multiset(xs)
    ensures i < |xs| && xs[i] == x
  {
    i :| 0 <= i < |xs| && xs[i] == x;
  }

  lemma {:induction false} NoRepeatsPermuted<T(!new), K(!new)>(xs: seq<T>, ys: seq<T>, tag: T -> K)
    requires NoRepeats(xs, tag) && multiset(xs) == multiset(ys)
    ensures NoRepeats(ys, tag)
    decreases |ys|
  {
    if ys != [] {
      assert ys == [ys[0]] + ys[1..];
      assert ys[0] in multiset(ys) && ys[0] in multiset(xs);
      var i := PositionOf(xs, ys[0]);
      var rest := xs[..i] + xs[i + 1..];
      WithoutOne(xs, i, rest, tag);
      assert multiset(ys) == multiset{ys[0]} + multiset(ys[1..]);
      assert multiset(rest) == multiset(xs) - multiset{ys[0]};
      NoRepeatsPermuted(rest, ys[1..], tag);
      forall y | y in ys[1..] ensures tag(y) != tag(ys[0]) {
        assert y in multiset(ys[1..]) && y in multiset(rest);
      }
    }
  }

  lemma {:induction false} DistinctIsDistinct<T(!new), K(!new)>(xs: seq<T>, tag: T -> K, seen: set<K>)
    ensures NoRepeats(Distinct(xs, tag, seen), tag)
    decreases |xs|
  {
    if xs != [] {
      if tag(xs[0]) in seen {
        DistinctIsDistinct(xs[1..], tag, seen);
      } else {
        var seen' := seen + {tag(xs[0])};
        DistinctIsDistinct(xs[1..], tag, seen');
        DistinctKeeps(xs[1..], tag, seen');
      }
    }
  }

  /** What is kept of equally tagged elements is the first. */
  lemma {:induction false} DistinctIsFirst<T(!new), K(!new)>(xs: seq<T>, tag: T -> K, seen: set<K>, x: T)
    returns (i: nat)
    requires x in Distinct(xs, tag, seen)
    ensures i < |xs| && xs[i] == x && tag(x) !in seen && forall j :: 0 <= j < i ==> tag(xs[j]) != tag(x)
    decreases |xs|
  {
    if tag(xs[0]) in seen {
      i := DistinctIsFirst(xs[1..], tag, seen, x);
      i := i + 1;
    } else if x == xs[0] {
      i := 0;
    } else {
      i := DistinctIsFirst(xs[1..], tag, seen + {tag(xs[0])}, x);
      i := i + 1;
    }
  }
}

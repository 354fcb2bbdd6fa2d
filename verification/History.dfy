/** Carrying `first_seen` from scan to scan. */
module History {
  import opened Wrappers
  import opened Findings
  import opened Grouping
  import opened Correlation
  import opened CorrelationLaws

  /** What happens to a finding between merging and storing: it may be scored, but keeps its
      fingerprint and times. */
  ghost predicate KeepsIdentity(update: Finding -> Finding) {
    forall f :: update(f).fingerprint == f.fingerprint && update(f).firstSeen == f.firstSeen
                && update(f).lastSeen == f.lastSeen
  }

  /** A scan with its findings: as correlated on the way in, as stored on the way out.  The
      table keeps one finding per scan and fingerprint. */
  datatype Scan = Scan(id: string, tenant: string, target: string, createdAt: int, completed: bool,
      findings: seq<Finding>)

  datatype Row = Row(id: string, tenant: string, target: string, createdAt: int, completed: bool,
      findings: map<string, Finding>)

  /** What upserting the findings one after the other leaves: the last of each fingerprint. */
  function Index(fs: seq<Finding>): map<string, Finding>
    decreases |fs|
  {
    if fs == [] then map[] else Index(fs[..|fs| - 1])[fs[|fs| - 1].fingerprint := fs[|fs| - 1]]
  }

  function Carried(previous: map<string, Finding>, f: Finding, now: int): Finding {
    if f.fingerprint in previous then f.(firstSeen := previous[f.fingerprint].firstSeen, lastSeen := now) else f
  }

  function CarriedAll(previous: map<string, Finding>, fs: seq<Finding>, now: nat -> int): (r: seq<Finding>)
    ensures |r| == |fs| && forall i :: 0 <= i < |r| ==> r[i] == Carried(previous, fs[i], now(i))
  {
    seq(|fs|, i requires 0 <= i < |fs| => Carried(previous, fs[i], now(i)))
  }

  /** The findings are updated in place, each stamped with its own reading of the clock. */
  method MergeAcrossScans(previous: map<string, Finding>, current: array<Finding>, now: nat -> int)
    modifies current
    ensures current[..] == CarriedAll(previous, old(current[..]), now)
  {
    for i := 0 to current.Length
      invariant forall j :: 0 <= j < i ==> current[j] == Carried(previous, old(current[j]), now(j))
      invariant forall j :: i <= j < current.Length ==> current[j] == old(current[j])
    {
      var f := current[i];
      if f.fingerprint in previous {
        current[i] := f.(firstSeen := previous[f.fingerprint].firstSeen, lastSeen := now(i));
      }
    }
  }

  predicate Precedes(row: Row, scan: Scan) {
    row.tenant == scan.tenant && row.completed && row.target == scan.target && row.id != scan.id
  }

  /** The most recently created completed scan of the same tenant and target. */
  function Previous(rows: seq<Row>, scan: Scan): Option<Row>
    decreases |rows|
  {
    if rows == [] then None
    else
      var row, before := rows[|rows| - 1], Previous(rows[..|rows| - 1], scan);
      if Precedes(row, scan) && (before.None? || before.value.createdAt < row.createdAt) then Some(row) else before
  }

  function PreviousFindings(rows: seq<Row>, scan: Scan): map<string, Finding> {
    match Previous(rows, scan)
    case None => map[]
    case Some(row) => row.findings
  }

  function Stored(rows: seq<Row>, scan: Scan, now: nat -> int, update: Finding -> Finding): Row {
    Row(scan.id, scan.tenant, scan.target, scan.createdAt, scan.completed,
        Index(Mapped(CarriedAll(PreviousFindings(rows, scan), scan.findings, now), update)))
  }

  class Store {
    var rows: seq<Row>

    constructor ()
      ensures rows == []
    {
      rows := [];
    }

    method FindPrevious(scan: Scan) returns (found: Option<Row>)
      ensures found == Previous(rows, scan)
    {
      found := None;
      var i := 0;
      while i < |rows|
        invariant 0 <= i <= |rows| && found == Previous(rows[..i], scan)
      {
        assert rows[..i + 1][..i] == rows[..i];
        if Precedes(rows[i], scan) && (found.None? || found.value.createdAt < rows[i].createdAt) {
          found := Some(rows[i]);
        }
        i := i + 1;
      }
      assert rows[..|rows|] == rows;
    }

    /** Update the findings in place from the scan before. */
    method MergeHistory(scan: Scan, current: array<Finding>, now: nat -> int)
      modifies current
      ensures current[..] == CarriedAll(PreviousFindings(rows, scan), old(current[..]), now)
    {
      var last := FindPrevious(scan);
      match last {
        case None =>
          assert CarriedAll(map[], current[..], now) == current[..];
        case Some(row) =>
          MergeAcrossScans(row.findings, current, now);
      }
    }

    /** Upsert the findings one after the other under the scan. */
    method Save(scan: Scan, current: array<Finding>)
      modifies this
      ensures rows == old(rows)
              + [Row(scan.id, scan.tenant, scan.target, scan.createdAt, scan.completed, Index(current[..]))]
    {
      var table := map[];
      var i := 0;
      while i < current.Length
        invariant 0 <= i <= current.Length && table == Index(current[..i])
      {
        assert current[..i + 1][..i] == current[..i];
        table := table[current[i].fingerprint := current[i]];
        i := i + 1;
      }
      assert current[..current.Length] == current[..];
      rows := rows + [Row(scan.id, scan.tenant, scan.target, scan.createdAt, scan.completed, table)];
    }
  }

  /** The clock readings of one scan. */
  function At(now: (nat, nat) -> int, i: nat): nat -> int {
    (j: nat) => now(i, j)
  }

  /** The rows after the first `n` scans. */
  function Run(scans: seq<Scan>, n: nat, now: (nat, nat) -> int, update: Finding -> Finding): (rows: seq<Row>)
    requires n <= |scans|
    ensures |rows| == n
  {
    if n == 0 then []
    else
      var before := Run(scans, n - 1, now, update);
      before + [Stored(before, scans[n - 1], At(now, n - 1), update)]
  }

  // ----- the history theorem

  ghost predicate Sequential(scans: seq<Scan>) {
    forall i, j :: 0 <= i < j < |scans| ==> scans[i].createdAt < scans[j].createdAt && scans[i].id != scans[j].id
  }

  predicate Comparable(scans: seq<Scan>, j: nat, i: nat)
    requires j < |scans| && i < |scans|
  {
    scans[j].completed && scans[j].tenant == scans[i].tenant && scans[j].target == scans[i].target
  }

  predicate Has(scans: seq<Scan>, i: nat, k: string)
    requires i < |scans|
  {
    k in Index(scans[i].findings)
  }

  /** Scan `s` begins the unbroken run of scans up to `i` in which fingerprint `k` is found. */
  ghost predicate StreakStart(scans: seq<Scan>, i: nat, k: string, s: nat)
    requires i < |scans|
  {
    && s <= i && Comparable(scans, s, i)
    && (forall j: nat :: s <= j <= i && Comparable(scans, j, i) ==> Has(scans, j, k))
    && (forall j: nat :: 0 <= j < s && Comparable(scans, j, i) && Has(scans, j, k) ==>
          exists m: nat :: j < m < s && Comparable(scans, m, i))
  }

  /** The last scan before `n` that scan `i` compares itself to. */
  function LastComparable(scans: seq<Scan>, n: nat, i: nat): (r: Option<nat>)
    requires n <= i < |scans|
    ensures r.Some? ==> r.value < n && Comparable(scans, r.value, i) && forall j: nat :: r.value < j < n ==>
            !Comparable(scans, j, i)
    ensures r.None? ==> forall j: nat :: 0 <= j < n ==> !Comparable(scans, j, i)
  {
    if n == 0 then None else if Comparable(scans, n - 1, i) then Some(n - 1) else LastComparable(scans, n - 1, i)
  }

  lemma {:induction false} RunPrefix(scans: seq<Scan>, n: nat, m: nat, now: (nat, nat) -> int,
                                     update: Finding -> Finding)
    requires n <= m <= |scans|
    ensures Run(scans, m, now, update)[..n] == Run(scans, n, now, update)
  {
    if n < m {
      RunPrefix(scans, n, m - 1, now, update);
    }
  }

  lemma {:induction false} RunAt(scans: seq<Scan>, n: nat, j: nat, now: (nat, nat) -> int, update: Finding -> Finding)
    requires j < n <= |scans|
    ensures Run(scans, n, now, update)[j] == Stored(Run(scans, j, now, update), scans[j], At(now, j), update)
  {
    RunPrefix(scans, j + 1, n, now, update);
    assert Run(scans, n, now, update)[j] == Run(scans, n, now, update)[..j + 1][j];
  }

  lemma {:induction false} Headers(scans: seq<Scan>, n: nat, j: nat, i: nat, now: (nat, nat) -> int,
                                   update: Finding -> Finding)
    requires Sequential(scans) && j < n <= i < |scans|
    ensures Precedes(Run(scans, n, now, update)[j], scans[i]) <==> Comparable(scans, j, i)
    ensures Run(scans, n, now, update)[j].createdAt == scans[j].createdAt
  {
    RunAt(scans, n, j, now, update);
  }

  lemma {:induction false} NextRow(scans: seq<Scan>, n: nat, i: nat, now: (nat, nat) -> int, update: Finding -> Finding,
                                   before: seq<Row>, row: Row)
    requires Sequential(scans) && 0 < n <= i < |scans|
    requires before == Run(scans, n - 1, now, update) && row == Run(scans, n, now, update)[n - 1]
    ensures Previous(Run(scans, n, now, update), scans[i]) ==
            if Comparable(scans, n - 1, i)
              && (Previous(before, scans[i]).None?
              || Previous(before, scans[i]).value.createdAt < scans[n - 1].createdAt)
            then Some(row) else Previous(before, scans[i])
  {
    Headers(scans, n, n - 1, i, now, update);
  }

  lemma {:induction false} PreviousIsLast(scans: seq<Scan>, n: nat, i: nat, now: (nat, nat) -> int,
                                          update: Finding -> Finding)
    requires Sequential(scans) && n <= i < |scans|
    ensures var p := LastComparable(scans, n, i);
            Previous(Run(scans, n, now, update), scans[i]) ==
              if p.None? then None else Some(Run(scans, n, now, update)[p.value])
  {
    if n > 0 {
      var before, rows := Run(scans, n - 1, now, update), Run(scans, n, now, update);
      PreviousIsLast(scans, n - 1, i, now, update);
      NextRow(scans, n, i, now, update, before, rows[n - 1]);
      var p := LastComparable(scans, n - 1, i);
      if p.Some? {
        assert before[p.value].createdAt < scans[n - 1].createdAt by {
          Headers(scans, n - 1, p.value, i, now, update);
        }
        assert rows[p.value] == before[p.value];
      }
    }
  }

  lemma {:induction false} CarriedIndex(previous: map<string, Finding>, fs: seq<Finding>, now: nat -> int,
                                        update: Finding -> Finding, k: string, table: map<string, Finding>)
    requires KeepsIdentity(update) && table == Index(Mapped(CarriedAll(previous, fs, now), update))
    ensures k in table <==> k in Index(fs)
    ensures k in Index(fs) ==> Index(fs)[k].fingerprint == k
    ensures k in Index(fs) ==> table[k].firstSeen == (if k in previous then previous[k] else Index(fs)[k]).firstSeen
    decreases |fs|
  {
    if fs != [] {
      var n := |fs| - 1;
      var all, front := Mapped(CarriedAll(previous, fs, now), update),
        Mapped(CarriedAll(previous, fs[..n], now), update);
      CarriedIndex(previous, fs[..n], now, update, k, Index(front));
      assert all[..n] == front;
      assert all[n] == update(Carried(previous, fs[n], now(n)));
    }
  }

  lemma {:induction false} StoredHas(scans: seq<Scan>, now: (nat, nat) -> int, update: Finding -> Finding, i: nat,
                                     k: string, rows: seq<Row>)
    requires KeepsIdentity(update) && i < |scans| && rows == Run(scans, |scans|, now, update)
    ensures k in rows[i].findings <==> Has(scans, i, k)
  {
    RunAt(scans, |scans|, i, now, update);
    CarriedIndex(PreviousFindings(Run(scans, i, now, update), scans[i]), scans[i].findings, At(now, i), update, k,
        rows[i].findings);
  }

  lemma {:induction false} PreviousRow(scans: seq<Scan>, now: (nat, nat) -> int, update: Finding -> Finding, i: nat,
                                       rows: seq<Row>)
    requires Sequential(scans) && i < |scans| && rows == Run(scans, |scans|, now, update)
    ensures var p := LastComparable(scans, i, i);
            PreviousFindings(Run(scans, i, now, update), scans[i]) == if p.Some? then rows[p.value].findings else map[]
  {
    PreviousIsLast(scans, i, i, now, update);
    RunPrefix(scans, i, |scans|, now, update);
    var p := LastComparable(scans, i, i);
    if p.Some? {
      assert rows[p.value] == rows[..i][p.value];
    }
  }

  /** One step of history: the value comes from the comparable scan before, if it had it. */
  lemma {:induction false} StoredFirstSeen(scans: seq<Scan>, now: (nat, nat) -> int, update: Finding -> Finding, i: nat,
                                           k: string, rows: seq<Row>)
    requires KeepsIdentity(update) && Sequential(scans) && i < |scans| && Has(scans, i, k)
             && rows == Run(scans, |scans|, now, update)
    ensures k in rows[i].findings
    ensures var p := LastComparable(scans, i, i);
            if p.Some? && Has(scans, p.value, k)
            then k in rows[p.value].findings && rows[i].findings[k].firstSeen == rows[p.value].findings[k].firstSeen
            else rows[i].findings[k].firstSeen == Index(scans[i].findings)[k].firstSeen
  {
    var p := LastComparable(scans, i, i);
    PreviousRow(scans, now, update, i, rows);
    RunAt(scans, |scans|, i, now, update);
    var previous := PreviousFindings(Run(scans, i, now, update), scans[i]);
    CarriedIndex(previous, scans[i].findings, At(now, i), update, k, rows[i].findings);
    if p.Some? {
      StoredHas(scans, now, update, p.value, k, rows);
    }
  }

  /** Over any sequence of scans of any tenants and targets, created one after the other, the
      stored `first_seen` of a finding is the one correlated in the first scan of the current
      unbroken run of completed scans of its target that found it. */
  lemma {:induction false} FirstSeenOfStreak(scans: seq<Scan>, now: (nat, nat) -> int, update: Finding -> Finding,
                                             i: nat, k: string, s: nat, rows: seq<Row>)
    requires Sequential(scans) && i < |scans| && StreakStart(scans, i, k, s) && Has(scans, i, k)
    requires KeepsIdentity(update) && rows == Run(scans, |scans|, now, update)
    ensures k in rows[i].findings && Has(scans, s, k)
    ensures rows[i].findings[k].firstSeen == Index(scans[s].findings)[k].firstSeen
    decreases i
  {
    StoredFirstSeen(scans, now, update, i, k, rows);
    if s < i {
      var j := LastComparable(scans, i, i).value;
      StreakGoesBack(scans, i, k, s, j);
      FirstSeenOfStreak(scans, now, update, j, k, s, rows);
    }
  }

  lemma {:induction false} StreakGoesBack(scans: seq<Scan>, i: nat, k: string, s: nat, j: nat)
    requires i < |scans| && StreakStart(scans, i, k, s) && LastComparable(scans, i, i) == Some(j) && Has(scans, j, k)
    ensures StreakStart(scans, j, k, s)
  {
    assert s <= j;
    assert forall m: nat :: 0 <= m < |scans| ==> Comparable(scans, m, j) == Comparable(scans, m, i);
  }

  /** Every found fingerprint of a completed scan has exactly one such first scan. */
  lemma {:induction false} StreakStartExists(scans: seq<Scan>, i: nat, k: string) returns (s: nat)
    requires i < |scans| && scans[i].completed && Has(scans, i, k)
    ensures StreakStart(scans, i, k, s)
    ensures forall t: nat :: StreakStart(scans, i, k, t) ==> t == s
    decreases i
  {
    var p := LastComparable(scans, i, i);
    if p.Some? && Has(scans, p.value, k) {
      var j := p.value;
      s := StreakStartExists(scans, j, k);
      assert forall m: nat :: 0 <= m < |scans| ==> Comparable(scans, m, j) == Comparable(scans, m, i);
      forall t: nat | StreakStart(scans, i, k, t) ensures t == s {
        StreakGoesBack(scans, i, k, t, j);
      }
    } else {
      s := i;
    }
  }

  /** What a correlated list is indexed by: its groups. */
  lemma {:induction false} CorrelatedIndex(h: Hash, obs: seq<Observation>, newId: string -> string, fs: seq<Finding>,
                                           k: string)
    requires fs == Correlated(h, obs, newId)
    ensures k in Index(fs) <==> Select(obs, KeyOf(h), k) != []
    ensures k in Index(fs) ==> Index(fs)[k] == FindingAt(h, obs, k, newId)
  {
    IndexMeans(fs, k);
    if k in Index(fs) {
      FindingsAreGroups(h, obs, newId, Index(fs)[k]);
    }
    if Select(obs, KeyOf(h), k) != [] {
      FindingsAreGroups(h, obs, newId, FindingAt(h, obs, k, newId));
    }
  }

  lemma {:induction false} IndexMeans(fs: seq<Finding>, k: string)
    ensures k in Index(fs) ==> Index(fs)[k] in fs && Index(fs)[k].fingerprint == k
    ensures forall f :: f in fs && f.fingerprint == k ==> k in Index(fs)
    decreases |fs|
  {
    if fs != [] {
      var n := |fs| - 1;
      IndexMeans(fs[..n], k);
      assert forall f :: f in fs <==> f in fs[..n] || f == fs[n];
    }
  }

  // ----- last seen

  lemma {:induction false} CarriedLastSeen(previous: map<string, Finding>, fs: seq<Finding>, now: nat -> int,
                                           update: Finding -> Finding, k: string, table: map<string, Finding>)
    returns (j: nat)
    requires KeepsIdentity(update) && table == Index(Mapped(CarriedAll(previous, fs, now), update)) && k in Index(fs)
    ensures k in table && j < |fs|
    ensures table[k].lastSeen == if k in previous then now(j) else Index(fs)[k].lastSeen
    decreases |fs|
  {
    var n := |fs| - 1;
    var all, front := Mapped(CarriedAll(previous, fs, now), update),
      Mapped(CarriedAll(previous, fs[..n], now), update);
    assert all[..n] == front && all[n] == update(Carried(previous, fs[n], now(n)));
    if fs[n].fingerprint == k {
      j := n;
    } else {
      j := CarriedLastSeen(previous, fs[..n], now, update, k, Index(front));
    }
  }

  /** The stored `last_seen` of a finding that the comparable scan before had is read from the clock in
      this scan; that of a new one is as correlated. */
  lemma {:induction false} StoredLastSeen(scans: seq<Scan>, now: (nat, nat) -> int, update: Finding -> Finding, i: nat,
                                          k: string, rows: seq<Row>, p: Option<nat>) returns (j: nat)
    requires KeepsIdentity(update) && Sequential(scans) && i < |scans| && Has(scans, i, k)
    requires rows == Run(scans, |scans|, now, update) && p == LastComparable(scans, i, i)
    ensures k in rows[i].findings
    ensures rows[i].findings[k].lastSeen ==
            if p.Some? && Has(scans, p.value, k) then now(i, j) else Index(scans[i].findings)[k].lastSeen
  {
    PreviousRow(scans, now, update, i, rows);
    RunAt(scans, |scans|, i, now, update);
    var previous := PreviousFindings(Run(scans, i, now, update), scans[i]);
    j := CarriedLastSeen(previous, scans[i].findings, At(now, i), update, k, rows[i].findings);
    if p.Some? {
      StoredHas(scans, now, update, p.value, k, rows);
    }
  }
}

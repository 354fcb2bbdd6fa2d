/** The life of a scan: legal transitions, time stamps and the audit trail. */
module Lifecycle {
  import opened Wrappers

  datatype State =
    | CREATED | QUEUED | PLANNING | RUNNING | PAUSED | CORRELATING | VALIDATING | REPORTING | COMPLETED | CANCELLING
    | CANCELLED | FAILED

  function Successors(s: State): set<State> {
    match s
    case CREATED => {QUEUED, CANCELLED}
    case QUEUED => {PLANNING, CANCELLING, CANCELLED}
    case PLANNING => {RUNNING, FAILED, CANCELLING}
    case RUNNING => {CORRELATING, PAUSED, FAILED, CANCELLING}
    case PAUSED => {RUNNING, CANCELLING, CANCELLED}
    case CORRELATING => {VALIDATING, FAILED, CANCELLING}
    case VALIDATING => {REPORTING, FAILED, CANCELLING}
    case REPORTING => {COMPLETED, FAILED}
    case CANCELLING => {CANCELLED}
    case COMPLETED => {}
    case CANCELLED => {}
    case FAILED => {}
  }

  predicate CanTransition(src: State, dst: State) {
    dst in Successors(src)
  }

  predicate Terminal(s: State) {
    s == COMPLETED || s == CANCELLED || s == FAILED
  }

  datatype Entry = Entry(state: State, at: int)

  datatype Scan = Scan(state: State, startedAt: Option<int>, finishedAt: Option<int>)

  /** A scan with its audit trail. */
  datatype Record = Record(scan: Scan, audit: seq<Entry>)

  function Entered(scan: Scan, dst: State, now: int): Scan {
    Scan(dst,
         if dst == RUNNING && scan.startedAt.None? then Some(now) else scan.startedAt,
         if Terminal(dst) then Some(now) else scan.finishedAt)
  }

  /** Asking for the present state changes nothing; an illegal request raises and changes nothing. */
  function SetState(r: Record, dst: State, now: int): Record {
    if r.scan.state == dst || !CanTransition(r.scan.state, dst) then r
    else Record(Entered(r.scan, dst, now), r.audit + [Entry(dst, now)])
  }

  class ScanStore {
    var scan: Scan
    var audit: seq<Entry>

    constructor ()
      ensures Contents() == New()
    {
      scan, audit := Scan(CREATED, None, None), [];
    }

    function Contents(): Record
      reads this
    {
      Record(scan, audit)
    }

    method Set(dst: State, now: int) returns (legal: bool)
      modifies this
      ensures Contents() == SetState(old(Contents()), dst, now)
      ensures legal <==> old(scan.state) == dst || CanTransition(old(scan.state), dst)
    {
      legal := true;
      if scan.state != dst {
        legal := CanTransition(scan.state, dst);
        if legal {
          var started, finished := scan.startedAt, scan.finishedAt;
          if dst == RUNNING && started.None? {
            started := Some(now);
          }
          if dst == COMPLETED || dst == FAILED || dst == CANCELLED {
            finished := Some(now);
          }
          scan := Scan(dst, started, finished);
          audit := audit + [Entry(dst, now)];
        }
      }
    }
  }

  function New(): Record {
    Record(Scan(CREATED, None, None), [])
  }

  /** Any sequence of requests, legal or not. */
  function Requests(asked: seq<Entry>): Record
    decreases |asked|
  {
    if asked == [] then New()
    else SetState(Requests(asked[..|asked| - 1]), asked[|asked| - 1].state, asked[|asked| - 1].at)
  }

  // ----- traces

  function Last(audit: seq<Entry>): State {
    if audit == [] then CREATED else audit[|audit| - 1].state
  }

  predicate IsPath(audit: seq<Entry>)
    decreases |audit|
  {
    audit == [] || (IsPath(audit[..|audit| - 1]) && CanTransition(Last(audit[..|audit| - 1]), Last(audit)))
  }

  function Pauses(audit: seq<Entry>): nat
    decreases |audit|
  {
    if audit == [] then 0 else Pauses(audit[..|audit| - 1]) + if Last(audit) == PAUSED then 1 else 0
  }

  predicate Visited(audit: seq<Entry>, s: State) {
    exists i :: 0 <= i < |audit| && audit[i].state == s
  }

  lemma {:induction false} PathSnoc(audit: seq<Entry>, e: Entry)
    ensures IsPath(audit + [e]) <==> IsPath(audit) && CanTransition(Last(audit), e.state)
    ensures Pauses(audit + [e]) == Pauses(audit) + if e.state == PAUSED then 1 else 0
    ensures Last(audit + [e]) == e.state
    ensures forall s :: Visited(audit + [e], s) <==> Visited(audit, s) || e.state == s
  {
    assert (audit + [e])[..|audit|] == audit;
    forall s ensures Visited(audit + [e], s) <==> Visited(audit, s) || e.state == s {
      assert (audit + [e])[|audit|] == e;
      if Visited(audit, s) {
        var i :| 0 <= i < |audit| && audit[i].state == s;
        assert (audit + [e])[i].state == s;
      }
    }
  }

  ghost predicate Consistent(r: Record) {
    && IsPath(r.audit) && Last(r.audit) == r.scan.state
    && (r.scan.finishedAt.Some? <==> Terminal(r.scan.state))
    && (r.scan.startedAt.Some? <==> Visited(r.audit, RUNNING))
    && (r.scan.finishedAt.Some? ==> r.audit != [] && r.scan.finishedAt.value == r.audit[|r.audit| - 1].at)
    && (r.scan.startedAt.Some? ==> FirstRunning(r.audit, r.scan.startedAt.value))
  }

  /** The first entry into RUNNING is stamped `at`. */
  ghost predicate FirstRunning(audit: seq<Entry>, at: int) {
    exists i :: 0 <= i < |audit| && audit[i] == Entry(RUNNING, at) && forall j :: 0 <= j < i ==>
      audit[j].state != RUNNING
  }

  lemma {:induction false} FirstRunningSnoc(audit: seq<Entry>, e: Entry, at: int)
    ensures FirstRunning(audit, at) ==> FirstRunning(audit + [e], at)
    ensures !Visited(audit, RUNNING) && e == Entry(RUNNING, at) ==> FirstRunning(audit + [e], at)
  {
    if FirstRunning(audit, at) {
      var i :| 0 <= i < |audit| && audit[i] == Entry(RUNNING, at) && forall j :: 0 <= j < i ==>
        audit[j].state != RUNNING;
      assert (audit + [e])[i] == audit[i];
    }
    if !Visited(audit, RUNNING) {
      assert (audit + [e])[|audit|] == e;
    }
  }

  lemma {:induction false} SetKeepsConsistent(r: Record, dst: State, now: int)
    requires Consistent(r)
    ensures Consistent(SetState(r, dst, now))
  {
    var e := Entry(dst, now);
    if r.scan.state != dst && CanTransition(r.scan.state, dst) {
      PathSnoc(r.audit, e);
      FirstRunningSnoc(r.audit, e, now);
      if r.scan.startedAt.Some? {
        FirstRunningSnoc(r.audit, e, r.scan.startedAt.value);
      }
    }
  }

  /** Whatever is asked, in whatever order: the audit trail is a legal path from CREATED to the
      present state; a scan has a finish time exactly when it is in a terminal state, that of
      its last entry, and a start time exactly when it has ever run, that of the first time. */
  lemma {:induction false} TraceIsPath(asked: seq<Entry>)
    ensures Consistent(Requests(asked))
    decreases |asked|
  {
    if asked != [] {
      var n := |asked| - 1;
      TraceIsPath(asked[..n]);
      SetKeepsConsistent(Requests(asked[..n]), asked[n].state, asked[n].at);
    }
  }

  /** Once terminal, always the same. */
  lemma {:induction false} TerminalAbsorbs(before: seq<Entry>, after: seq<Entry>)
    requires Terminal(Requests(before).scan.state)
    ensures Requests(before + after) == Requests(before)
    decreases |after|
  {
    if after == [] {
      assert before + after == before;
    } else {
      var n := |after| - 1;
      TerminalAbsorbs(before, after[..n]);
      assert (before + after)[..|before| + n] == before + after[..n];
    }
  }

  // ----- length

  function StepsLeft(s: State): nat {
    match s
    case CREATED => 7
    case QUEUED => 6
    case PLANNING => 5
    case RUNNING => 4
    case PAUSED => 5
    case CORRELATING => 3
    case VALIDATING => 2
    case REPORTING => 1
    case CANCELLING => 1
    case COMPLETED => 0
    case CANCELLED => 0
    case FAILED => 0
  }

  /** A trail with `k` pauses has at most 7 + 2k entries. */
  lemma {:induction false} TraceIsShort(audit: seq<Entry>)
    requires IsPath(audit)
    ensures |audit| + StepsLeft(Last(audit)) <= 7 + 2 * Pauses(audit)
    decreases |audit|
  {
    if audit != [] {
      TraceIsShort(audit[..|audit| - 1]);
    }
  }

  function LongTrail(k: nat): seq<Entry> {
    if k == 0 then [] + [Entry(QUEUED, 0)] + [Entry(PLANNING, 0)] + [Entry(RUNNING, 0)]
    else LongTrail(k - 1) + [Entry(PAUSED, 0)] + [Entry(RUNNING, 0)]
  }

  lemma {:induction false} LongTrailIsLong(k: nat)
    ensures var t := LongTrail(k); IsPath(t) && Last(t) == RUNNING && Pauses(t) == k && |t| == 3 + 2 * k
  {
    if k == 0 {
      var a := [] + [Entry(QUEUED, 0)];
      var b := a + [Entry(PLANNING, 0)];
      PathSnoc([], Entry(QUEUED, 0));
      PathSnoc(a, Entry(PLANNING, 0));
      PathSnoc(b, Entry(RUNNING, 0));
    } else {
      var t := LongTrail(k - 1);
      LongTrailIsLong(k - 1);
      PathSnoc(t, Entry(PAUSED, 0));
      PathSnoc(t + [Entry(PAUSED, 0)], Entry(RUNNING, 0));
    }
  }

  /** The bound is attained for every number of pauses. */
  lemma {:induction false} BoundIsAttained(k: nat) returns (audit: seq<Entry>)
    ensures IsPath(audit) && Pauses(audit) == k && |audit| == 7 + 2 * k && Last(audit) == COMPLETED
  {
    LongTrailIsLong(k);
    var a := LongTrail(k);
    var b := a + [Entry(CORRELATING, 0)];
    var c := b + [Entry(VALIDATING, 0)];
    var d := c + [Entry(REPORTING, 0)];
    audit := d + [Entry(COMPLETED, 0)];
    PathSnoc(a, Entry(CORRELATING, 0));
    PathSnoc(b, Entry(VALIDATING, 0));
    PathSnoc(c, Entry(REPORTING, 0));
    PathSnoc(d, Entry(COMPLETED, 0));
  }

  /** No state is a dead end: from any trail that has not ended, a terminal state can still be
      reached, in at most two more steps. */
  lemma {:induction false} CanAlwaysEnd(audit: seq<Entry>) returns (more: seq<Entry>)
    requires IsPath(audit) && !Terminal(Last(audit))
    ensures IsPath(audit + more) && Terminal(Last(audit + more)) && 1 <= |more| <= 2
  {
    var s := Last(audit);
    if s == CREATED || s == PAUSED || s == CANCELLING {
      more := [Entry(CANCELLED, 0)];
      PathSnoc(audit, more[0]);
    } else if s == REPORTING {
      more := [Entry(FAILED, 0)];
      PathSnoc(audit, more[0]);
    } else {
      more := [Entry(CANCELLING, 0), Entry(CANCELLED, 0)];
      PathSnoc(audit, more[0]);
      PathSnoc(audit + [more[0]], more[1]);
      assert audit + more == audit + [more[0]] + [more[1]];
    }
  }

  // ----- where each state comes from

  /** The states from which a state can be entered. */
  function Predecessors(s: State): set<State> {
    match s
    case CREATED => {}
    case QUEUED => {CREATED}
    case PLANNING => {QUEUED}
    case RUNNING => {PLANNING, PAUSED}
    case PAUSED => {RUNNING}
    case CORRELATING => {RUNNING}
    case VALIDATING => {CORRELATING}
    case REPORTING => {VALIDATING}
    case COMPLETED => {REPORTING}
    case CANCELLING => {QUEUED, PLANNING, RUNNING, PAUSED, CORRELATING, VALIDATING}
    case CANCELLED => {CREATED, QUEUED, PAUSED, CANCELLING}
    case FAILED => {PLANNING, RUNNING, CORRELATING, VALIDATING, REPORTING}
  }

  /** The state before the i-th entry of a trail. */
  function Before(audit: seq<Entry>, i: nat): State
    requires i < |audit|
  {
    if i == 0 then CREATED else audit[i - 1].state
  }

  predicate FollowsOn(audit: seq<Entry>, i: nat)
    requires i < |audit|
  {
    Before(audit, i) in Predecessors(audit[i].state)
  }

  lemma {:induction false} FollowsOnSnoc(front: seq<Entry>, e: Entry, audit: seq<Entry>)
    requires audit == front + [e]
    ensures FollowsOn(audit, |front|) <==> Last(front) in Predecessors(e.state)
    ensures forall i :: 0 <= i < |front| ==> (FollowsOn(audit, i) <==> FollowsOn(front, i))
  {
  }

  /** A trail is a legal path exactly when each entry is one that its predecessor leads to. */
  lemma {:induction false} PathExactly(audit: seq<Entry>)
    ensures IsPath(audit) <==> forall i :: 0 <= i < |audit| ==> FollowsOn(audit, i)
    decreases |audit|
  {
    if audit != [] {
      var n := |audit| - 1;
      PathExactly(audit[..n]);
      FollowsOnSnoc(audit[..n], audit[n], audit);
      ComesFrom(Last(audit[..n]), audit[n].state);
    }
  }

  lemma {:induction false} ComesFrom(src: State, dst: State)
    ensures CanTransition(src, dst) <==> src in Predecessors(dst)
  {
  }

  /** A scan that completed ran last, and then was correlated, validated and reported. */
  lemma {:induction false} CompletedThrough(audit: seq<Entry>)
    requires IsPath(audit) && Last(audit) == COMPLETED
    ensures |audit| >= 7
    ensures var n := |audit|;
            && audit[n - 5].state == RUNNING && audit[n - 4].state == CORRELATING && audit[n - 3].state == VALIDATING
            && audit[n - 2].state == REPORTING
    ensures audit[0].state == QUEUED && audit[1].state == PLANNING && audit[2].state == RUNNING
  {
    PathExactly(audit);
    var n := |audit|;
    assert FollowsOn(audit, n - 1);
    assert n >= 2 && FollowsOn(audit, n - 2);
    assert n >= 3 && FollowsOn(audit, n - 3);
    assert n >= 4 && FollowsOn(audit, n - 4);
    assert n >= 5 && FollowsOn(audit, n - 5);
    StartsSo(audit);
  }

  /** Every trail that ever reports begins by being queued, planned and run. */
  lemma {:induction false} StartsSo(audit: seq<Entry>)
    requires IsPath(audit) && Last(audit) in {RUNNING, PAUSED, CORRELATING, VALIDATING, REPORTING, COMPLETED}
    ensures |audit| >= 3 && audit[0].state == QUEUED && audit[1].state == PLANNING && audit[2].state == RUNNING
    decreases |audit|
  {
    var front := Unsnoc(audit);
    if Last(front) == PLANNING {
      var queued := Unsnoc(front);
      var start := Unsnoc(queued);
      NothingBefore(start);
      assert audit[0] == queued[0] && audit[1] == front[1];
    } else {
      StartsSo(front);
    }
  }

  lemma {:induction false} Unsnoc(audit: seq<Entry>) returns (front: seq<Entry>)
    requires IsPath(audit) && Last(audit) != CREATED
    ensures audit != [] && front == audit[..|audit| - 1] && IsPath(front)
    ensures Last(front) in Predecessors(Last(audit))
  {
    front := audit[..|audit| - 1];
    ComesFrom(Last(front), Last(audit));
  }

  /** No state leads to CREATED. */
  lemma {:induction false} NothingBefore(audit: seq<Entry>)
    requires IsPath(audit) && Last(audit) == CREATED
    ensures audit == []
  {
    if audit != [] {
      ComesFrom(Last(audit[..|audit| - 1]), CREATED);
    }
  }
}

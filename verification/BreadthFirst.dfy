/** Breadth-first search with a depth bound, over any graph: the worklist theory behind the
    crawler. */
module BreadthFirst {
  datatype Graph<!V> = Graph(roots: seq<V>, next: V -> seq<V>)

  datatype Item<V> = Item(node: V, depth: nat)

  /** `v` is at most `n` edges away from a root. */
  ghost predicate Near<V(!new)>(g: Graph<V>, v: V, n: nat) {
    if n == 0 then v in g.roots
    else Near(g, v, n - 1) || exists p :: Near(g, p, n - 1) && v in g.next(p)
  }

  lemma {:induction false} NearGrows<V(!new)>(g: Graph<V>, v: V, m: nat, n: nat)
    requires m <= n && Near(g, v, m)
    ensures Near(g, v, n)
    decreases n
  {
    if m < n {
      NearGrows(g, v, m, n - 1);
    }
  }

  /** `depth` remembers the depth at which each node was visited, `order` the order. */
  datatype State<V> = State(queue: seq<Item<V>>, order: seq<V>, depth: map<V, nat>)

  ghost predicate Pending<V>(queue: seq<Item<V>>, v: V, d: nat) {
    exists i :: 0 <= i < |queue| && queue[i].node == v && queue[i].depth <= d
  }

  /** The queue is in order of depth and spans at most one level. */
  ghost predicate QueueInv<V(!new)>(g: Graph<V>, bound: nat, s: State<V>) {
    && (forall i :: 0 <= i < |s.queue| ==> s.queue[i].depth <= bound && Near(g, s.queue[i].node, s.queue[i].depth))
    && (forall i, j :: 0 <= i <= j < |s.queue| ==> s.queue[i].depth <= s.queue[j].depth <= s.queue[i].depth + 1)
    && (forall p, i :: p in s.depth && 0 <= i < |s.queue| ==> s.depth[p] <= s.queue[i].depth)
  }

  /** Every node was visited at its distance from the roots. */
  ghost predicate DepthInv<V(!new)>(g: Graph<V>, bound: nat, s: State<V>) {
    forall p :: p in s.depth ==>
      && s.depth[p] <= bound
      && Near(g, p, s.depth[p])
      && (s.depth[p] > 0 ==> !Near(g, p, s.depth[p] - 1))
  }

  /** What has been met is visited or waiting. */
  ghost predicate MetInv<V(!new)>(g: Graph<V>, bound: nat, s: State<V>) {
    && (forall v :: v in g.roots ==> v in s.depth || Pending(s.queue, v, 0))
    && (forall p, v :: p in s.depth && s.depth[p] < bound && v in g.next(p) ==>
          v in s.depth || Pending(s.queue, v, s.depth[p] + 1))
  }

  ghost predicate OrderInv<V(!new)>(s: State<V>) {
    && (forall p :: p in s.order <==> p in s.depth)
    && (forall i, j :: 0 <= i < j < |s.order| ==>
         s.order[i] != s.order[j] && s.depth[s.order[i]] <= s.depth[s.order[j]])
  }

  ghost predicate Inv<V(!new)>(g: Graph<V>, bound: nat, s: State<V>) {
    QueueInv(g, bound, s) && DepthInv(g, bound, s) && MetInv(g, bound, s) && OrderInv(s)
  }

  function Items<V>(nodes: seq<V>, depth: nat): (r: seq<Item<V>>)
    ensures |r| == |nodes|
    ensures forall i :: 0 <= i < |r| ==> r[i] == Item(nodes[i], depth)
  {
    seq(|nodes|, i requires 0 <= i < |nodes| => Item(nodes[i], depth))
  }

  function Start<V>(g: Graph<V>): State<V> {
    State(Items(g.roots, 0), [], map[])
  }

  function Skip<V>(s: State<V>): State<V>
    requires s.queue != []
  {
    s.(queue := s.queue[1..])
  }

  /** Visit a node and queue what it leads to, if its depth allows. */
  function Visit<V>(s: State<V>, node: V, at: nat, rest: seq<Item<V>>, more: seq<Item<V>>): State<V> {
    State(rest + more, s.order + [node], s.depth[node := at])
  }

  ghost predicate CanVisit<V(!new)>(g: Graph<V>, bound: nat, s: State<V>, node: V, at: nat, rest: seq<Item<V>>,
                             more: seq<Item<V>>) {
    && Inv(g, bound, s)
    && s.queue == [Item(node, at)] + rest
    && node !in s.depth
    && more == if at < bound then Items(g.next(node), at + 1) else []
  }

  /** As long as the queue holds nothing at depth `k` or less, all nodes within `k` edges have
      been visited. */
  lemma {:induction false} Covered<V(!new)>(g: Graph<V>, bound: nat, s: State<V>, k: nat, v: V)
    requires DepthInv(g, bound, s) && MetInv(g, bound, s) && k <= bound
    requires forall i :: 0 <= i < |s.queue| ==> k < s.queue[i].depth
    requires Near(g, v, k)
    ensures v in s.depth && s.depth[v] <= k
    decreases k
  {
    if k > 0 {
      if Near(g, v, k - 1) {
        Covered(g, bound, s, k - 1, v);
      } else {
        var p :| Near(g, p, k - 1) && v in g.next(p);
        Covered(g, bound, s, k - 1, p);
      }
    }
    assert v in s.depth;
    if s.depth[v] > k {
      NearGrows(g, v, k, s.depth[v] - 1);
    }
  }

  lemma {:induction false} PendingMore<V>(queue: seq<Item<V>>, more: seq<Item<V>>, v: V, d: nat)
    requires Pending(queue, v, d) || Pending(more, v, d)
    ensures Pending(queue + more, v, d)
  {
    if Pending(queue, v, d) {
      var i :| 0 <= i < |queue| && queue[i].node == v && queue[i].depth <= d;
      assert (queue + more)[i] == queue[i];
    } else {
      var i :| 0 <= i < |more| && more[i].node == v && more[i].depth <= d;
      assert (queue + more)[|queue| + i] == more[i];
    }
  }

  lemma {:induction false} SkipInv<V(!new)>(g: Graph<V>, bound: nat, s: State<V>)
    requires Inv(g, bound, s) && s.queue != [] && s.queue[0].node in s.depth
    ensures Inv(g, bound, Skip(s))
  {
    var n := Skip(s);
    forall v | v in g.roots ensures v in n.depth || Pending(n.queue, v, 0) {
    }
    forall p, v | p in n.depth && n.depth[p] < bound && v in g.next(p)
      ensures v in n.depth || Pending(n.queue, v, n.depth[p] + 1)
    {
    }
  }

  lemma {:induction false} VisitDepth<V(!new)>(g: Graph<V>, bound: nat, s: State<V>, node: V, at: nat,
                                        rest: seq<Item<V>>, more: seq<Item<V>>)
    requires CanVisit(g, bound, s, node, at, rest, more)
    ensures DepthInv(g, bound, Visit(s, node, at, rest, more))
  {
    assert s.queue[0] == Item(node, at);
    if at > 0 && Near(g, node, at - 1) {
      Covered(g, bound, s, at - 1, node);
    }
  }

  lemma {:induction false} VisitQueue<V(!new)>(g: Graph<V>, bound: nat, s: State<V>, node: V, at: nat,
                                        rest: seq<Item<V>>, more: seq<Item<V>>)
    requires CanVisit(g, bound, s, node, at, rest, more)
    ensures QueueInv(g, bound, Visit(s, node, at, rest, more))
  {
    assert s.queue[0] == Item(node, at);
    assert forall i :: 0 <= i < |rest| ==> rest[i] == s.queue[i + 1];
    forall i | 0 <= i < |more| ensures more[i].depth == at + 1 <= bound && Near(g, more[i].node, at + 1) {
      assert more[i].node in g.next(node);
    }
  }

  lemma {:induction false} VisitMet<V(!new)>(g: Graph<V>, bound: nat, s: State<V>, node: V, at: nat, rest: seq<Item<V>>,
                                      more: seq<Item<V>>)
    requires CanVisit(g, bound, s, node, at, rest, more)
    ensures MetInv(g, bound, Visit(s, node, at, rest, more))
  {
    var n := Visit(s, node, at, rest, more);
    assert s.queue[0] == Item(node, at) && s.queue[1..] == rest;
    forall v | v in g.roots ensures v in n.depth || Pending(n.queue, v, 0) {
      if v !in n.depth {
        PendingMore(rest, more, v, 0);
      }
    }
    forall p, v | p in n.depth && n.depth[p] < bound && v in g.next(p)
      ensures v in n.depth || Pending(n.queue, v, n.depth[p] + 1)
    {
      if v !in n.depth {
        if p == node {
          var i :| 0 <= i < |g.next(node)| && g.next(node)[i] == v;
          assert more[i] == Item(v, at + 1);
        }
        PendingMore(rest, more, v, n.depth[p] + 1);
      }
    }
  }

  lemma {:induction false} VisitOrder<V(!new)>(g: Graph<V>, bound: nat, s: State<V>, node: V, at: nat,
                                        rest: seq<Item<V>>, more: seq<Item<V>>)
    requires CanVisit(g, bound, s, node, at, rest, more)
    ensures OrderInv(Visit(s, node, at, rest, more))
  {
    assert s.queue[0] == Item(node, at);
    var n := Visit(s, node, at, rest, more);
    assert forall i :: 0 <= i < |s.order| ==> n.order[i] == s.order[i] && s.order[i] in s.depth;
    assert n.order[|s.order|] == node;
    forall p ensures p in n.order <==> p in n.depth {
      assert p in s.order + [node] <==> p in s.order || p == node;
    }
  }

  lemma {:induction false} VisitInv<V(!new)>(g: Graph<V>, bound: nat, s: State<V>, node: V, at: nat, rest: seq<Item<V>>,
                                      more: seq<Item<V>>)
    requires CanVisit(g, bound, s, node, at, rest, more)
    ensures Inv(g, bound, Visit(s, node, at, rest, more))
  {
    VisitDepth(g, bound, s, node, at, rest, more);
    VisitQueue(g, bound, s, node, at, rest, more);
    VisitMet(g, bound, s, node, at, rest, more);
    VisitOrder(g, bound, s, node, at, rest, more);
  }

  /** Stopped at any time: a node within a visited node's distance minus one was visited. */
  lemma {:induction false} NothingNearerIsLeft<V(!new)>(g: Graph<V>, bound: nat, s: State<V>, p: V, n: nat, q: V)
    requires Inv(g, bound, s) && p in s.depth && n < s.depth[p] && Near(g, q, n)
    ensures q in s.depth
  {
    Covered(g, bound, s, n, q);
  }

  /** When the queue drains, exactly the nodes within the bound have been visited. */
  lemma {:induction false} DrainedIsComplete<V(!new)>(g: Graph<V>, bound: nat, s: State<V>, v: V)
    requires Inv(g, bound, s) && s.queue == []
    ensures v in s.depth <==> Near(g, v, bound)
  {
    if Near(g, v, bound) {
      Covered(g, bound, s, bound, v);
    }
    if v in s.depth {
      NearGrows(g, v, s.depth[v], bound);
    }
  }

  /** What has been visited when the search stops: every node at its distance and within the bound,
      nothing nearer left out, and everything within the bound if the queue drained. */
  ghost predicate VisitedByDistance<V(!new)>(g: Graph<V>, bound: nat, drained: bool, depth: map<V, nat>) {
    && (forall p :: p in depth ==>
          depth[p] <= bound && Near(g, p, depth[p]) && (depth[p] > 0 ==> !Near(g, p, depth[p] - 1)))
    && (forall p, q, n: nat :: p in depth && n < depth[p] && Near(g, q, n) ==> q in depth)
    && (drained ==> forall q :: q in depth <==> Near(g, q, bound))
  }

  lemma {:induction false} VisitedAtTheEnd<V(!new)>(g: Graph<V>, bound: nat, s: State<V>)
    requires Inv(g, bound, s)
    ensures VisitedByDistance(g, bound, s.queue == [], s.depth)
  {
    forall p, q, n: nat | p in s.depth && n < s.depth[p] && Near(g, q, n) ensures q in s.depth {
      NothingNearerIsLeft(g, bound, s, p, n, q);
    }
    if s.queue == [] {
      forall q ensures q in s.depth <==> Near(g, q, bound) {
        DrainedIsComplete(g, bound, s, q);
      }
    }
  }
}

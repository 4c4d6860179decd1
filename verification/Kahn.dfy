/** The cycle test of planner.py's _validate_dag: Kahn's algorithm over in-degree and adjacency tables. */
module Kahn {
  import opened PlanTypes
  import opened PlanGraph

  predicate NoRepeats(s: seq<StepId>) {
    forall i, j :: 0 <= i < j < |s| ==> s[i] != s[j]
  }

  // ---------- Counting occurrences ----------

  function Occurs(s: seq<StepId>, x: StepId): nat {
    if s == [] then 0 else Occurs(s[..|s| - 1], x) + if s[|s| - 1] == x then 1 else 0
  }

  lemma OccursAppend(s: seq<StepId>, y: StepId, x: StepId)
    ensures Occurs(s + [y], x) == Occurs(s, x) + if y == x then 1 else 0
  {
    assert (s + [y])[..|s|] == s;
  }

  lemma {:induction false} OccursConcat(s: seq<StepId>, t: seq<StepId>, x: StepId)
    ensures Occurs(s + t, x) == Occurs(s, x) + Occurs(t, x)
  {
    if t == [] {
      assert s + t == s;
    } else {
      assert (s + t)[..|s + t| - 1] == s + t[..|t| - 1];
      OccursConcat(s, t[..|t| - 1], x);
    }
  }

  lemma {:induction false} OccursMember(s: seq<StepId>, x: StepId)
    ensures x in s <==> Occurs(s, x) > 0
  {
    if s != [] {
      assert s == s[..|s| - 1] + [s[|s| - 1]];
      OccursMember(s[..|s| - 1], x);
    }
  }

  /** How many of the listed dependencies, counted with repetition, are not in done. */
  ghost function Unmet(ds: seq<StepId>, done: set<StepId>): nat {
    if ds == [] then 0 else Unmet(ds[..|ds| - 1], done) + if ds[|ds| - 1] in done then 0 else 1
  }

  lemma {:induction false} UnmetAfter(ds: seq<StepId>, done: set<StepId>, x: StepId)
    requires x !in done
    ensures Unmet(ds, done + {x}) + Occurs(ds, x) == Unmet(ds, done)
  {
    if ds != [] {
      UnmetAfter(ds[..|ds| - 1], done, x);
    }
  }

  lemma {:induction false} UnmetNone(ds: seq<StepId>)
    ensures Unmet(ds, {}) == |ds|
  {
    if ds != [] {
      UnmetNone(ds[..|ds| - 1]);
    }
  }

  lemma {:induction false} UnmetZero(ds: seq<StepId>, done: set<StepId>)
    ensures Unmet(ds, done) == 0 <==> forall d :: d in ds ==> d in done
  {
    if ds != [] {
      assert ds == ds[..|ds| - 1] + [ds[|ds| - 1]];
      UnmetZero(ds[..|ds| - 1], done);
    }
  }

  // ---------- The adjacency table ----------

  type Adjacency = map<StepId, seq<StepId>>

  function Copies(id: StepId, n: nat): seq<StepId> {
    if n == 0 then [] else Copies(id, n - 1) + [id]
  }

  lemma {:induction false} OccursCopies(id: StepId, n: nat, x: StepId)
    ensures Occurs(Copies(id, n), x) == if id == x then n else 0
  {
    if n > 0 {
      OccursCopies(id, n - 1, x);
      OccursAppend(Copies(id, n - 1), id, x);
    }
  }

  /** What the first i steps put into the list of x: each step once per dependency on x. */
  function Successors(ids: seq<StepId>, g: Graph, x: StepId, i: nat): seq<StepId>
    requires i <= |ids| && forall id :: id in ids ==> id in g
  {
    if i == 0 then [] else Successors(ids, g, x, i - 1) + Copies(ids[i - 1], Occurs(g[ids[i - 1]], x))
  }

  lemma LastOfFront(ids: seq<StepId>, i: nat, n: StepId)
    requires 0 < i <= |ids| && NoRepeats(ids)
    ensures ids[i - 1] in ids && ids[i - 1] !in ids[..i - 1]
    ensures n in ids[..i] <==> n in ids[..i - 1] || n == ids[i - 1]
  {
    assert ids[..i] == ids[..i - 1] + [ids[i - 1]];
  }

  lemma OccursNone(x: StepId)
    ensures Occurs([], x) == 0
  {
  }

  lemma {:induction false} SuccessorsMirror(ids: seq<StepId>, g: Graph, x: StepId, i: nat, n: StepId)
    requires i <= |ids| && NoRepeats(ids) && (forall id :: id in ids ==> id in g)
    ensures n in ids[..i] ==> n in g && Occurs(Successors(ids, g, x, i), n) == Occurs(g[n], x)
    ensures n !in ids[..i] ==> Occurs(Successors(ids, g, x, i), n) == 0
  {
    hide Occurs, Copies, NoRepeats;
    if i == 0 {
      OccursNone(n);
    } else {
      var id := ids[i - 1];
      SuccessorsMirror(ids, g, x, i - 1, n);
      LastOfFront(ids, i, n);
      OccursConcat(Successors(ids, g, x, i - 1), Copies(id, Occurs(g[id], x)), n);
      OccursCopies(id, Occurs(g[id], x), n);
    }
  }

  /** The table with id appended to the successors of the listed dependencies, once per occurrence. */
  ghost predicate EdgesAdded(adj: Adjacency, r: Adjacency, id: StepId, ds: seq<StepId>) {
    r.Keys == adj.Keys && forall x :: x in adj ==> r[x] == adj[x] + Copies(id, Occurs(ds, x))
  }

  lemma NoEdge(adj: Adjacency, id: StepId)
    ensures EdgesAdded(adj, adj, id, [])
  {
  }

  lemma OneEdge(adj: Adjacency, r: Adjacency, id: StepId, ds: seq<StepId>, d: StepId)
    requires EdgesAdded(adj, r, id, ds) && d in adj
    ensures EdgesAdded(adj, r[d := r[d] + [id]], id, ds + [d])
  {
    hide Occurs;
    forall x | x in adj ensures r[d := r[d] + [id]][x] == adj[x] + Copies(id, Occurs(ds + [d], x)) {
      OccursAppend(ds, d, x);
    }
  }

  /** Appends id to the successors of each of its dependencies, once per occurrence. */
  method AddEdges(adj: Adjacency, id: StepId, ds: seq<StepId>) returns (r: Adjacency)
    requires forall d :: d in ds ==> d in adj
    ensures EdgesAdded(adj, r, id, ds)
  {
    hide Occurs, Copies;
    r := adj;
    NoEdge(adj, id);
    for j := 0 to |ds|
      invariant EdgesAdded(adj, r, id, ds[..j])
    {
      assert ds[..j + 1] == ds[..j] + [ds[j]];
      OneEdge(adj, r, id, ds[..j], ds[j]);
      r := r[ds[j] := r[ds[j]] + [id]];
    }
    assert ds[..|ds|] == ds;
  }

  /** The occurrences of n among the successors of x are the occurrences of x among the dependencies of n. */
  ghost predicate Mirrors(adj: Adjacency, g: Graph) {
    && adj.Keys == g.Keys
    && (forall x, n :: x in adj && n in g ==> Occurs(adj[x], n) == Occurs(g[n], x))
    && forall x, n :: x in adj && n in adj[x] ==> n in g
  }

  lemma SuccessorsMirrorPair(ids: seq<StepId>, g: Graph, x: StepId, n: StepId)
    requires NoRepeats(ids) && forall id :: id in ids <==> id in g
    ensures n in g ==> Occurs(Successors(ids, g, x, |ids|), n) == Occurs(g[n], x)
    ensures n in Successors(ids, g, x, |ids|) ==> n in g
  {
    SuccessorsMirror(ids, g, x, |ids|, n);
    OccursMember(Successors(ids, g, x, |ids|), n);
    assert ids[..|ids|] == ids;
  }

  lemma SuccessorsMirrorAll(ids: seq<StepId>, g: Graph, adj: Adjacency)
    requires NoRepeats(ids) && forall id :: id in ids <==> id in g
    requires adj.Keys == g.Keys && forall x :: x in adj ==> adj[x] == Successors(ids, g, x, |ids|)
    ensures Mirrors(adj, g)
  {
    forall x, n | x in adj && n in g ensures Occurs(adj[x], n) == Occurs(g[n], x) {
      SuccessorsMirrorPair(ids, g, x, n);
    }
    forall x, n | x in adj && n in adj[x] ensures n in g {
      SuccessorsMirrorPair(ids, g, x, n);
    }
  }

  /** The table after the first i steps. */
  ghost predicate Built(ids: seq<StepId>, g: Graph, i: nat, adj: Adjacency)
    requires i <= |ids| && forall id :: id in ids ==> id in g
  {
    adj.Keys == g.Keys && forall x :: x in adj ==> adj[x] == Successors(ids, g, x, i)
  }

  lemma BuiltNext(ids: seq<StepId>, g: Graph, i: nat, adj: Adjacency, r: Adjacency)
    requires i < |ids| && (forall id :: id in ids ==> id in g) && Built(ids, g, i, adj)
    requires EdgesAdded(adj, r, ids[i], g[ids[i]])
    ensures Built(ids, g, i + 1, r)
  {
    hide Occurs, Copies;
  }

  lemma BuiltNone(ids: seq<StepId>, g: Graph)
    requires forall id :: id in ids ==> id in g
    ensures Built(ids, g, 0, map id | id in g :: [])
  {
  }

  method BuildAdjacency(ids: seq<StepId>, g: Graph) returns (adj: Adjacency)
    requires NoRepeats(ids) && forall id :: id in ids <==> id in g
    requires Closed(g)
    ensures Mirrors(adj, g)
  {
    hide EdgesAdded, Successors, Mirrors, NoRepeats;
    adj := map id | id in g :: [];
    BuiltNone(ids, g);
    for i := 0 to |ids|
      invariant Built(ids, g, i, adj)
    {
      ghost var before := adj;
      adj := AddEdges(adj, ids[i], g[ids[i]]);
      BuiltNext(ids, g, i, before, adj);
    }
    SuccessorsMirrorAll(ids, g, adj);
  }

  /** Lowers the in-degree of every listed successor and queues those that reach zero. */
  method Relax(successors: seq<StepId>, inDegree: map<StepId, nat>, queue: seq<StepId>)
    returns (deg: map<StepId, nat>, q: seq<StepId>)
    requires forall n :: n in successors ==> n in inDegree
    requires forall n :: n in inDegree ==> Occurs(successors, n) <= inDegree[n]
    requires NoRepeats(queue) && forall n :: n in queue ==> n in inDegree && inDegree[n] == 0
    ensures deg.Keys == inDegree.Keys
    ensures forall n :: n in inDegree ==> deg[n] + Occurs(successors, n) == inDegree[n]
    ensures NoRepeats(q)
    ensures forall n :: n in q <==> n in queue || (n in inDegree && inDegree[n] > 0 && deg[n] == 0)
  {
    deg, q := inDegree, queue;
    for k := 0 to |successors|
      invariant deg.Keys == inDegree.Keys
      invariant forall n :: n in inDegree ==> deg[n] + Occurs(successors[..k], n) == inDegree[n]
      invariant NoRepeats(q)
      invariant forall n :: n in q <==> n in queue || (n in inDegree && inDegree[n] > 0 && deg[n] == 0)
    {
      var n := successors[k];
      assert successors[..k + 1] == successors[..k] + [n];
      assert successors == successors[..k + 1] + successors[k + 1..] && n in successors;
      OccursConcat(successors[..k + 1], successors[k + 1..], n);
      forall x { OccursAppend(successors[..k], n, x); }
      deg := deg[n := deg[n] - 1];
      if deg[n] == 0 {
        q := q + [n];
      }
    }
    assert successors[..|successors|] == successors;
  }

  /** The in-degrees count the unsorted dependencies, and the queue holds the unsorted nodes without any. */
  ghost predicate Degrees(g: Graph, deg: map<StepId, nat>, queue: seq<StepId>, done: set<StepId>) {
    && deg.Keys == g.Keys
    && NoRepeats(queue)
    && (forall n :: n in queue ==> n in g && n !in done)
    && (forall n :: n in g ==> deg[n] == Unmet(g[n], done))
    && forall n :: n in g ==> (deg[n] == 0 <==> n in done || n in queue)
  }

  lemma TakeRank(g: Graph, rank: map<StepId, nat>, x: StepId)
    requires PartlyRanked(g, rank) && x in g && x !in rank && Unmet(g[x], rank.Keys) == 0
    ensures PartlyRanked(g, rank[x := |rank|])
    ensures rank[x := |rank|].Keys == rank.Keys + {x} && |rank[x := |rank|]| == |rank| + 1
    ensures |g.Keys - (rank.Keys + {x})| < |g.Keys - rank.Keys|
  {
    hide PartlyRanked, Unmet;
    UnmetZero(g[x], rank.Keys);
    assert Peelable(g, rank, x);
    PeelOne(g, rank, x);
    assert rank[x := |rank|].Keys == rank.Keys + {x};
    assert g.Keys - (rank.Keys + {x}) == g.Keys - rank.Keys - {x};
  }

  lemma TakeDegrees(g: Graph, adj: Adjacency, done: set<StepId>, x: StepId)
    requires Mirrors(adj, g) && x in g && x !in done
    ensures forall n :: n in g ==> Unmet(g[n], done + {x}) + Occurs(adj[x], n) == Unmet(g[n], done)
  {
    forall n | n in g ensures Unmet(g[n], done + {x}) + Occurs(adj[x], n) == Unmet(g[n], done) {
      UnmetAfter(g[n], done, x);
    }
  }

  lemma DrainedQueue(g: Graph, deg: map<StepId, nat>, rank: map<StepId, nat>)
    requires PartlyRanked(g, rank) && Closed(g) && Degrees(g, deg, [], rank.Keys)
    ensures |rank| == |g| <==> Acyclic(g)
  {
    if rank.Keys == g.Keys {
      assert |rank.Keys| == |g.Keys|;
      assert Ranked(g, rank);
    } else {
      ProperSubsetIsSmaller(rank.Keys, g.Keys);
      forall id | id in g && id !in rank ensures !Peelable(g, rank, id) {
        UnmetZero(g[id], rank.Keys);
      }
      NoneToPeel(g, rank);
      StuckHasCycle(g, g.Keys - rank.Keys);
      AcyclicIffNoCycle(g);
    }
  }

  lemma ProperSubsetIsSmaller(a: set<StepId>, b: set<StepId>)
    requires a <= b && a != b
    ensures |a| < |b|
  {
    assert |b| == |a| + |b - a|;
    var x :| x in b && x !in a;
    assert x in b - a;
  }

  /** Takes the first node off the queue and relaxes its successors. */
  method TakeNode(ghost g: Graph, adj: Adjacency, deg: map<StepId, nat>, queue: seq<StepId>, ghost done: set<StepId>)
    returns (deg': map<StepId, nat>, queue': seq<StepId>)
    requires Mirrors(adj, g) && Degrees(g, deg, queue, done) && queue != []
    ensures Degrees(g, deg', queue', done + {queue[0]})
  {
    hide Occurs, Unmet;
    var node := queue[0];
    assert node in queue && queue == [node] + queue[1..];
    TakeDegrees(g, adj, done, node);
    assert forall n :: n in adj[node] ==> n in g;
    deg', queue' := Relax(adj[node], deg, queue[1..]);
    assert node !in queue[1..];
    assert deg[node] == 0;
  }

  /** One pass of the sorting loop; the new node ranks above all sorted before it. */
  method SortOne(ghost g: Graph, adj: Adjacency, deg: map<StepId, nat>, queue: seq<StepId>,
                 ghost rank: map<StepId, nat>)
    returns (deg': map<StepId, nat>, queue': seq<StepId>, ghost rank': map<StepId, nat>)
    requires Mirrors(adj, g) && queue != []
    requires PartlyRanked(g, rank) && Degrees(g, deg, queue, rank.Keys)
    ensures PartlyRanked(g, rank') && Degrees(g, deg', queue', rank'.Keys)
    ensures |rank'| == |rank| + 1 && |g.Keys - rank'.Keys| < |g.Keys - rank.Keys|
  {
    ghost var node := queue[0];
    assert node in queue;
    TakeRank(g, rank, node);
    deg', queue' := TakeNode(g, adj, deg, queue, rank.Keys);
    rank' := rank[node := |rank|];
  }

  method Roots(ids: seq<StepId>, deg: map<StepId, nat>) returns (queue: seq<StepId>)
    requires NoRepeats(ids) && forall id :: id in ids ==> id in deg
    ensures NoRepeats(queue)
    ensures forall n :: n in queue <==> n in ids && deg[n] == 0
  {
    queue := [];
    for i := 0 to |ids|
      invariant NoRepeats(queue)
      invariant forall n :: n in queue <==> n in ids[..i] && deg[n] == 0
    {
      assert ids[i] in ids && ids[..i + 1] == ids[..i] + [ids[i]];
      if deg[ids[i]] == 0 {
        queue := queue + [ids[i]];
      }
    }
    assert ids[..|ids|] == ids;
  }

  /** In-degrees with repetition, and the nodes without dependencies in step order. */
  method InitialDegrees(ids: seq<StepId>, g: Graph) returns (deg: map<StepId, nat>, queue: seq<StepId>)
    requires NoRepeats(ids) && forall id :: id in ids <==> id in g
    ensures Degrees(g, deg, queue, {})
  {
    deg := map id | id in g :: |g[id]|;
    queue := Roots(ids, deg);
    forall n | n in g ensures deg[n] == Unmet(g[n], {}) {
      UnmetNone(g[n]);
    }
  }

  /** Topological sort: counts the nodes that can be sorted, which are all of them exactly on an acyclic graph. */
  method CountSortable(ids: seq<StepId>, g: Graph) returns (sorted: nat)
    requires NoRepeats(ids) && forall id :: id in ids <==> id in g
    requires Closed(g)
    ensures sorted == |g| <==> Acyclic(g)
  {
    var adj := BuildAdjacency(ids, g);
    var deg, queue := InitialDegrees(ids, g);
    sorted := 0;
    ghost var rank: map<StepId, nat> := map[];
    assert rank.Keys == {};
    while queue != []
      invariant PartlyRanked(g, rank) && sorted == |rank|
      invariant Degrees(g, deg, queue, rank.Keys)
      decreases |g.Keys - rank.Keys|
    {
      deg, queue, rank := SortOne(g, adj, deg, queue, rank);
      sorted := sorted + 1;
    }
    DrainedQueue(g, deg, rank);
  }
}

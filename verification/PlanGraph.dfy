/** Dependency graphs: ranks, cycles, longest chains, and the recursive meaning of a finished plan. */
module PlanGraph {
  import opened PlanTypes

  // ---------- Acyclicity ----------

  ghost predicate Closed(g: Graph) {
    forall id, d :: id in g && d in g[id] ==> d in g
  }

  /** A topological rank: every dependency ranks strictly below its dependent. */
  ghost predicate Ranked(g: Graph, rank: map<StepId, nat>) {
    && g.Keys <= rank.Keys
    && forall id, d :: id in g && d in g[id] && d in g ==> rank[d] < rank[id]
  }

  ghost predicate Acyclic(g: Graph) {
    exists rank :: Ranked(g, rank)
  }

  /** A dependency chain: each entry is a dependency of the next one. */
  ghost predicate IsPath(g: Graph, p: seq<StepId>) {
    && |p| > 0
    && (forall i :: 0 <= i < |p| ==> p[i] in g)
    && forall i, j :: 0 <= i && j == i + 1 && j < |p| ==> p[i] in g[p[j]]
  }

  ghost predicate IsCycle(g: Graph, p: seq<StepId>) {
    |p| >= 2 && IsPath(g, p) && p[0] == p[|p| - 1]
  }

  /** Some dependency of id lies in the set s. */
  ghost predicate LeadsInto(g: Graph, id: StepId, s: set<StepId>) {
    id in g && exists d :: d in g[id] && d in s
  }

  ghost predicate Stuck(g: Graph, s: set<StepId>) {
    s != {} && s <= g.Keys && forall id {:trigger LeadsInto(g, id, s)} :: id in s ==> LeadsInto(g, id, s)
  }

  lemma ExtendPath(g: Graph, p: seq<StepId>, id: StepId)
    requires IsPath(g, p) && id in g && p[|p| - 1] in g[id]
    ensures IsPath(g, p + [id]) && (p + [id])[0] == p[0] && (p + [id])[|p|] == id
  {
  }

  lemma {:induction false} PathRises(g: Graph, rank: map<StepId, nat>, p: seq<StepId>)
    requires Ranked(g, rank) && IsPath(g, p)
    ensures rank[p[0]] + |p| - 1 <= rank[p[|p| - 1]]
  {
    if |p| > 1 {
      PathRises(g, rank, p[..|p| - 1]);
    }
  }

  lemma {:induction false} DistinctFits(p: seq<StepId>, s: set<StepId>)
    requires forall i :: 0 <= i < |p| ==> p[i] in s
    requires forall i, j :: 0 <= i < j < |p| ==> p[i] != p[j]
    ensures |p| <= |s|
  {
    if p != [] {
      var last := |p| - 1;
      DistinctFits(p[..last], s - {p[last]});
    }
  }

  /** Following dependencies inside a set that never runs out of them gives chains of any length. */
  lemma {:induction false} WalkBack(g: Graph, stuck: set<StepId>, n: nat) returns (p: seq<StepId>)
    requires Stuck(g, stuck)
    ensures IsPath(g, p) && |p| == n + 1
    ensures forall i :: 0 <= i < |p| ==> p[i] in stuck
  {
    if n == 0 {
      var id :| id in stuck;
      p := [id];
    } else {
      var q := WalkBack(g, stuck, n - 1);
      assert LeadsInto(g, q[0], stuck);
      var d :| d in g[q[0]] && d in stuck;
      p := [d] + q;
    }
  }

  lemma StuckHasCycle(g: Graph, stuck: set<StepId>)
    requires Stuck(g, stuck)
    ensures exists p :: IsCycle(g, p)
  {
    var p := WalkBack(g, stuck, |stuck|);
    if forall i, j :: 0 <= i < j < |p| ==> p[i] != p[j] {
      DistinctFits(p, stuck);
      assert false;
    }
    var i, j :| 0 <= i < j < |p| && p[i] == p[j];
    assert IsCycle(g, p[i..j + 1]);
  }

  /** Every dependency of id that the graph knows is already ranked. */
  ghost predicate Peelable(g: Graph, rank: map<StepId, nat>, id: StepId) {
    id in g && forall d :: d in g[id] && d in g ==> d in rank
  }

  /** The ranks given so far: increasing along dependencies, and closed under them. */
  ghost predicate PartlyRanked(g: Graph, rank: map<StepId, nat>) {
    && rank.Keys <= g.Keys
    && (forall id :: id in rank ==> rank[id] < |rank|)
    && forall id, d :: id in rank && d in g[id] && d in g ==> d in rank && rank[d] < rank[id]
  }

  lemma PeelOne(g: Graph, rank: map<StepId, nat>, id: StepId)
    requires PartlyRanked(g, rank) && id !in rank && Peelable(g, rank, id)
    ensures PartlyRanked(g, rank[id := |rank|])
  {
    var rank' := rank[id := |rank|];
    assert rank'.Keys == rank.Keys + {id};
    assert |rank'.Keys| == |rank.Keys| + 1;
  }

  lemma ProperPart(a: set<StepId>, b: set<StepId>)
    requires a <= b && a != b
    ensures b - a != {}
  {
    var x :| x in b && x !in a;
    assert x in b - a;
  }

  lemma NoneToPeel(g: Graph, rank: map<StepId, nat>)
    requires rank.Keys <= g.Keys && rank.Keys != g.Keys
    requires forall id :: id in g && id !in rank ==> !Peelable(g, rank, id)
    ensures Stuck(g, g.Keys - rank.Keys)
  {
    var rest := g.Keys - rank.Keys;
    ProperPart(rank.Keys, g.Keys);
    forall id | id in rest ensures LeadsInto(g, id, rest) {
      assert !Peelable(g, rank, id);
      var d :| d in g[id] && d in g && d !in rank;
      assert d in rest;
    }
  }

  /** Peels off nodes whose dependencies are all ranked until none is left, or meets a cycle. */
  lemma {:induction false} Peel(g: Graph, rank: map<StepId, nat>)
    requires PartlyRanked(g, rank)
    ensures Acyclic(g) || exists p :: IsCycle(g, p)
    decreases |g.Keys - rank.Keys|
  {
    if rank.Keys == g.Keys {
      assert Ranked(g, rank);
    } else if id :| id in g.Keys - rank.Keys && Peelable(g, rank, id) {
      PeelOne(g, rank, id);
      assert g.Keys - rank[id := |rank|].Keys == g.Keys - rank.Keys - {id};
      Peel(g, rank[id := |rank|]);
    } else {
      NoneToPeel(g, rank);
      StuckHasCycle(g, g.Keys - rank.Keys);
    }
  }

  /** A rank exists exactly when no chain of dependencies returns to its start. */
  lemma AcyclicIffNoCycle(g: Graph)
    ensures Acyclic(g) <==> !exists p :: IsCycle(g, p)
  {
    if p, rank :| IsCycle(g, p) && Ranked(g, rank) {
      PathRises(g, rank, p);
    }
    Peel(g, map[]);
  }

  // ---------- Longest dependency chains ----------

  /** Depth 0 without dependencies, otherwise one more than the deepest dependency. */
  ghost predicate IsDepth(g: Graph, depth: map<StepId, nat>) {
    && depth.Keys == g.Keys
    && Ranked(g, depth)
    && forall id {:trigger HasDepAt(g, depth, id, depth[id] - 1)} ::
         id in g && depth[id] > 0 ==> HasDepAt(g, depth, id, depth[id] - 1)
  }

  ghost predicate HasDepAt(g: Graph, depth: map<StepId, nat>, id: StepId, k: int)
    requires id in g && depth.Keys == g.Keys
  {
    exists d :: d in g[id] && d in g && depth[d] == k
  }

  ghost function Depth(g: Graph, rank: map<StepId, nat>, id: StepId): nat
    requires Ranked(g, rank) && id in g
    decreases rank[id], |g[id]| + 1
  {
    DepthUpTo(g, rank, id, |g[id]|)
  }

  /** The depth that the first k dependencies alone would give. */
  ghost function DepthUpTo(g: Graph, rank: map<StepId, nat>, id: StepId, k: nat): nat
    requires Ranked(g, rank) && id in g && k <= |g[id]|
    decreases rank[id], k
  {
    if k == 0 then 0 else
    var rest := DepthUpTo(g, rank, id, k - 1);
    var d := g[id][k - 1];
    if d in g && Depth(g, rank, d) >= rest then Depth(g, rank, d) + 1 else rest
  }

  lemma {:induction false} DepthUpToIsMax(g: Graph, rank: map<StepId, nat>, id: StepId, k: nat)
    requires Ranked(g, rank) && id in g && k <= |g[id]|
    ensures forall j :: 0 <= j < k && g[id][j] in g ==> Depth(g, rank, g[id][j]) < DepthUpTo(g, rank, id, k)
    ensures DepthUpTo(g, rank, id, k) > 0 ==>
              exists j :: 0 <= j < k && g[id][j] in g && Depth(g, rank, g[id][j]) == DepthUpTo(g, rank, id, k) - 1
  {
    if k > 0 {
      DepthUpToIsMax(g, rank, id, k - 1);
    }
  }

  /** Every acyclic graph has a depth for each of its nodes. */
  lemma DepthExists(g: Graph, rank: map<StepId, nat>)
    requires Ranked(g, rank)
    ensures IsDepth(g, map id | id in g :: Depth(g, rank, id))
  {
    var depth := map id | id in g :: Depth(g, rank, id);
    forall id | id in g
      ensures forall d :: d in g[id] && d in g ==> depth[d] < depth[id]
      ensures depth[id] > 0 ==> HasDepAt(g, depth, id, depth[id] - 1)
    {
      DepthUpToIsMax(g, rank, id, |g[id]|);
      if depth[id] > 0 {
        var j :| 0 <= j < |g[id]| && g[id][j] in g && Depth(g, rank, g[id][j]) == depth[id] - 1;
        assert g[id][j] in g[id];
      }
    }
  }

  /** The depth is the length of the longest chain that ends in the node. */
  lemma {:induction false} DepthIsLongestChain(g: Graph, depth: map<StepId, nat>, id: StepId)
    requires IsDepth(g, depth) && id in g
    ensures forall p :: IsPath(g, p) && p[|p| - 1] == id ==> |p| <= depth[id] + 1
    ensures exists p :: IsPath(g, p) && p[|p| - 1] == id && |p| == depth[id] + 1
    decreases depth[id]
  {
    forall p | IsPath(g, p) && p[|p| - 1] == id ensures |p| <= depth[id] + 1 {
      PathRises(g, depth, p);
    }
    if depth[id] == 0 {
      assert IsPath(g, [id]);
    } else {
      assert HasDepAt(g, depth, id, depth[id] - 1);
      var d :| d in g[id] && d in g && depth[d] == depth[id] - 1;
      DepthIsLongestChain(g, depth, d);
      var p :| IsPath(g, p) && p[|p| - 1] == d && |p| == depth[d] + 1;
      ExtendPath(g, p, id);
    }
  }

  // ---------- The recursive meaning of a finished plan ----------

  ghost predicate DepsCompleted(g: Graph, st: Statuses, id: StepId)
    requires id in g
  {
    forall d :: d in g[id] ==> d in st && st[d] == Completed
  }

  function OwnStatus(o: Outcome): Status {
    if o.failed then Failed else Completed
  }

  /** A step takes its own outcome when all its dependencies completed, and is skipped otherwise. */
  ghost predicate SatisfiesRecursion(g: Graph, outs: Outcomes, st: Statuses)
    requires g.Keys <= outs.Keys
  {
    && st.Keys == g.Keys
    && forall id {:trigger DepsCompleted(g, st, id)} ::
         id in g ==> st[id] == if DepsCompleted(g, st, id) then OwnStatus(outs[id]) else Skipped
  }

  /** The same meaning as a recursion over the dependencies. */
  ghost function Expected(g: Graph, outs: Outcomes, rank: map<StepId, nat>, id: StepId): Status
    requires Ranked(g, rank) && g.Keys <= outs.Keys && id in g
    decreases rank[id]
  {
    if forall d :: d in g[id] ==> d in g && Expected(g, outs, rank, d) == Completed
    then OwnStatus(outs[id]) else Skipped
  }

  /** On an acyclic graph the recursion has a solution ... */
  lemma RecursionSolvable(g: Graph, outs: Outcomes, rank: map<StepId, nat>)
    requires Ranked(g, rank) && g.Keys <= outs.Keys
    ensures SatisfiesRecursion(g, outs, map id | id in g :: Expected(g, outs, rank, id))
  {
    var st := map id | id in g :: Expected(g, outs, rank, id);
    forall id | id in g
      ensures st[id] == if DepsCompleted(g, st, id) then OwnStatus(outs[id]) else Skipped
    {
      assert DepsCompleted(g, st, id) <==>
             forall d :: d in g[id] ==> d in g && Expected(g, outs, rank, d) == Completed;
    }
  }

  /** ... and only one. */
  lemma {:induction false} RecursionUnique(g: Graph, outs: Outcomes, rank: map<StepId, nat>, st: Statuses, id: StepId)
    requires Ranked(g, rank) && g.Keys <= outs.Keys && id in g
    requires SatisfiesRecursion(g, outs, st)
    ensures st[id] == Expected(g, outs, rank, id)
    decreases rank[id]
  {
    assert DepsCompleted(g, st, id) || !DepsCompleted(g, st, id);
    forall d | d in g[id] && d in g ensures st[d] == Expected(g, outs, rank, d) {
      RecursionUnique(g, outs, rank, st, d);
    }
  }

  /** Any two finished plans over the same acyclic graph and the same outcomes agree. */
  lemma Confluence(g: Graph, outs: Outcomes, st1: Statuses, st2: Statuses)
    requires Acyclic(g) && g.Keys <= outs.Keys
    requires SatisfiesRecursion(g, outs, st1) && SatisfiesRecursion(g, outs, st2)
    ensures st1 == st2
  {
    var rank :| Ranked(g, rank);
    forall id | id in g ensures st1[id] == st2[id] {
      RecursionUnique(g, outs, rank, st1, id);
      RecursionUnique(g, outs, rank, st2, id);
    }
  }

  /** A skipped step always sits at the end of a dependency chain that begins with a failed one. */
  lemma {:induction false} SkippedHasFailedAncestor(g: Graph, outs: Outcomes, rank: map<StepId, nat>, st: Statuses,
                                                    id: StepId)
    requires Closed(g) && Ranked(g, rank) && g.Keys <= outs.Keys && id in g
    requires SatisfiesRecursion(g, outs, st) && st[id] == Skipped
    ensures exists p :: IsPath(g, p) && p[|p| - 1] == id && st[p[0]] == Failed
    decreases rank[id]
  {
    assert !DepsCompleted(g, st, id);
    var d :| d in g[id] && st[d] != Completed;
    assert DepsCompleted(g, st, d) || !DepsCompleted(g, st, d);
    if st[d] == Failed {
      assert IsPath(g, [d, id]);
    } else {
      SkippedHasFailedAncestor(g, outs, rank, st, d);
      var p :| IsPath(g, p) && p[|p| - 1] == d && st[p[0]] == Failed;
      ExtendPath(g, p, id);
    }
  }

  /** Self-dependence is the smallest plan for which the recursion does not pin the result down. */
  lemma CyclicPlansAreNotPinnedDown()
    ensures var g: Graph := map[Null := [Null]];
            var outs: Outcomes := map[Null := Outcome(false, "")];
            && SatisfiesRecursion(g, outs, map[Null := Skipped])
            && SatisfiesRecursion(g, outs, map[Null := Completed])
  {
    assert Null in [Null];
  }
}

/** What the executor's rounds keep true: statuses, counters, stored results and the order of starts. */
module RunModel {
  import opened PlanTypes
  import opened PlanGraph
  import opened PlanModel

  // ---------- Statuses ----------

  /** The dependencies whose stored results a step's prompt quotes: the last five listed. */
  function LastFive(ds: seq<StepId>): seq<StepId> {
    if |ds| <= 5 then ds else ds[|ds| - 5..]
  }

  /** Quoting a dependency that completed without any text raises a TypeError. */
  predicate Hazard(g: Graph, outs: Outcomes, id: StepId)
    requires id in g
  {
    exists d :: d in LastFive(g[id]) && d in outs && outs[d].text == ""
  }

  /** Which prompts raise, by positions: one of the last five listed dependencies completed without text. */
  lemma HazardIff(g: Graph, outs: Outcomes, id: StepId)
    requires id in g
    ensures Hazard(g, outs, id) <==>
            exists k :: |g[id]| - 5 <= k < |g[id]| && 0 <= k && g[id][k] in outs && outs[g[id][k]].text == ""
  {
    var ds, last := g[id], LastFive(g[id]);
    assert |last| == if |ds| <= 5 then |ds| else 5;
    assert forall i :: 0 <= i < |last| ==> last[i] == ds[|ds| - |last| + i];
    if k :| |ds| - 5 <= k < |ds| && 0 <= k && ds[k] in outs && outs[ds[k]].text == "" {
      assert last[k - (|ds| - |last|)] == ds[k];
    }
    if d :| d in last && d in outs && outs[d].text == "" {
      var i :| 0 <= i < |last| && last[i] == d;
      assert ds[|ds| - |last| + i] == d;
    }
  }

  /** A dependency listed before the last five, and not again among them, is not quoted: its silence never raises. */
  lemma EarlySilenceIsHarmless(g: Graph, outs: Outcomes, id: StepId, k: nat)
    requires id in g && k + 5 < |g[id]|
    requires forall i :: |g[id]| - 5 <= i < |g[id]| ==> g[id][i] != g[id][k]
    requires forall d :: d in g[id] && d in outs && outs[d].text == "" ==> d == g[id][k]
    ensures !Hazard(g, outs, id)
  {
    HazardIff(g, outs, id);
    assert forall i :: |g[id]| - 5 <= i < |g[id]| ==> g[id][i] in g[id];
  }

  /** An executed step: its dependencies had completed, its status is its own outcome, and its prompt could be built. */
  ghost predicate Settled(g: Graph, outs: Outcomes, st: Statuses, id: StepId)
    requires id in g && id in st && id in outs
  {
    DepsCompleted(g, st, id) && st[id] == OwnStatus(outs[id]) && !Hazard(g, outs, id)
  }

  predicate Executed(s: Status) {
    s == Completed || s == Failed
  }

  /** The live steps are the running ones and may run; every executed step is settled. */
  ghost predicate Sound(g: Graph, outs: Outcomes, st: Statuses, live: set<StepId>) {
    && st.Keys == g.Keys && g.Keys <= outs.Keys && live <= g.Keys
    && (forall id :: id in st ==> (st[id] == Running <==> id in live))
    && (forall id {:trigger DepsCompleted(g, st, id)} :: id in live ==> DepsCompleted(g, st, id))
    && forall id {:trigger Settled(g, outs, st, id)} :: id in st && Executed(st[id]) ==> Settled(g, outs, st, id)
  }

  /** Every skipped step has a dependency that failed or was skipped. */
  ghost predicate SkipsExplained(g: Graph, st: Statuses)
    requires st.Keys == g.Keys
  {
    forall id {:trigger HasLostDep(g, st, id)} :: id in st && st[id] == Skipped ==> HasLostDep(g, st, id)
  }

  /** Steps that reached a final status keep it. */
  ghost predicate Keeps(st: Statuses, st': Statuses) {
    st.Keys == st'.Keys && forall id :: id in st && Terminal(st[id]) ==> st'[id] == st[id]
  }

  lemma KeepsFacts(g: Graph, outs: Outcomes, st: Statuses, st': Statuses, id: StepId)
    requires Keeps(st, st') && st.Keys == g.Keys && id in g && id in outs
    ensures DepsCompleted(g, st, id) ==> DepsCompleted(g, st', id)
    ensures HasLostDep(g, st, id) ==> HasLostDep(g, st', id)
    ensures Executed(st[id]) && Settled(g, outs, st, id) ==> Settled(g, outs, st', id)
  {
  }

  /** One change of statuses is sound when every changed step is. */
  lemma SoundStep(g: Graph, outs: Outcomes, st: Statuses, live: set<StepId>, st': Statuses, live': set<StepId>)
    requires Sound(g, outs, st, live) && Keeps(st, st') && live' <= g.Keys
    requires forall id :: id in st' ==> (st'[id] == Running <==> id in live')
    requires forall id {:trigger DepsCompleted(g, st, id)} :: id in live' && id !in live ==> DepsCompleted(g, st, id)
    requires forall id {:trigger Settled(g, outs, st', id)} ::
               id in st && st'[id] != st[id] && Executed(st'[id]) ==> Settled(g, outs, st', id)
    ensures Sound(g, outs, st', live')
  {
    forall id | id in live' ensures DepsCompleted(g, st', id) {
      KeepsFacts(g, outs, st, st', id);
      assert id in live ==> DepsCompleted(g, st, id);
      assert id !in live ==> DepsCompleted(g, st, id);
    }
    forall id | id in st' && Executed(st'[id]) ensures Settled(g, outs, st', id) {
      KeepsFacts(g, outs, st, st', id);
      if st'[id] == st[id] {
        assert Settled(g, outs, st, id);
      }
    }
  }

  lemma ExplainedStep(g: Graph, outs: Outcomes, st: Statuses, st': Statuses)
    requires st.Keys == g.Keys <= outs.Keys && SkipsExplained(g, st) && Keeps(st, st')
    requires forall id {:trigger HasLostDep(g, st', id)} ::
               id in st && st'[id] == Skipped && st[id] != Skipped ==> HasLostDep(g, st', id)
    ensures SkipsExplained(g, st')
  {
    forall id | id in st' && st'[id] == Skipped ensures HasLostDep(g, st', id) {
      KeepsFacts(g, outs, st, st', id);
      if st[id] == Skipped {
        assert HasLostDep(g, st, id);
      }
    }
  }

  // The four ways the executor changes statuses.

  /** Collecting the ready steps skips only steps behind a lost dependency. */
  lemma ScreeningSound(g: Graph, outs: Outcomes, st: Statuses)
    requires Sound(g, outs, st, {}) && SkipsExplained(g, st)
    ensures Sound(g, outs, SkipBlocked(g, st), {}) && SkipsExplained(g, SkipBlocked(g, st))
    ensures Keeps(st, SkipBlocked(g, st))
    ensures forall id :: id in st && SkipBlocked(g, st)[id] != st[id] ==>
              SkipBlocked(g, st)[id] == Skipped && st[id] == Pending
  {
    var st' := SkipBlocked(g, st);
    forall id | id in st
      ensures st'[id] == Screened(g, st, id) && (st'[id] == st[id] || (st[id] == Pending && st'[id] == Skipped))
      ensures st'[id] == Skipped && st[id] != Skipped ==> HasLostDep(g, st, id)
    {
    }
    SoundStep(g, outs, st, {}, st', {});
    forall id | id in st && st'[id] == Skipped && st[id] != Skipped ensures HasLostDep(g, st', id) {
      KeepsFacts(g, outs, st, st', id);
    }
    ExplainedStep(g, outs, st, st');
  }

  /** A ready step stays ready while its round's other steps are started. */
  lemma StartSound(g: Graph, outs: Outcomes, st: Statuses, live: set<StepId>, id: StepId)
    requires Sound(g, outs, st, live) && SkipsExplained(g, st)
    requires IsReady(g, st, id)
    ensures Sound(g, outs, st[id := Running], live + {id}) && SkipsExplained(g, st[id := Running])
    ensures Keeps(st, st[id := Running])
  {
    SoundStep(g, outs, st, live, st[id := Running], live + {id});
    ExplainedStep(g, outs, st, st[id := Running]);
  }

  lemma DrainSound(g: Graph, outs: Outcomes, st: Statuses, live: set<StepId>, id: StepId)
    requires Sound(g, outs, st, live) && SkipsExplained(g, st)
    requires id in live && !Hazard(g, outs, id)
    ensures var st' := st[id := OwnStatus(outs[id])];
            Sound(g, outs, st', live - {id}) && SkipsExplained(g, st') && Keeps(st, st')
  {
    var st' := st[id := OwnStatus(outs[id])];
    assert DepsCompleted(g, st, id);
    KeepsFacts(g, outs, st, st', id);
    assert Settled(g, outs, st', id);
    SoundStep(g, outs, st, live, st', live - {id});
    ExplainedStep(g, outs, st, st');
  }

  function SkipPending(st: Statuses): Statuses {
    map id | id in st :: if st[id] == Pending then Skipped else st[id]
  }

  lemma StopSound(g: Graph, outs: Outcomes, st: Statuses)
    requires Sound(g, outs, st, {})
    ensures Sound(g, outs, SkipPending(st), {}) && Keeps(st, SkipPending(st))
    ensures forall id :: id in st ==> Terminal(SkipPending(st)[id])
  {
    SoundStep(g, outs, st, {}, SkipPending(st), {});
  }

  /** When nothing is ready, every pending step waits for a lost, pending or unknown step, so skipping all of them
      gives exactly the recursive meaning. */
  lemma DeadlockSatisfiesRecursion(g: Graph, outs: Outcomes, st: Statuses)
    requires Sound(g, outs, st, {}) && SkipsExplained(g, st)
    requires forall id {:trigger IsReady(g, st, id)} :: !IsReady(g, st, id)
    ensures SatisfiesRecursion(g, outs, SkipPending(st))
  {
    var st' := SkipPending(st);
    StopSound(g, outs, st);
    forall id | id in g
      ensures st'[id] == if DepsCompleted(g, st', id) then OwnStatus(outs[id]) else Skipped
    {
      if Executed(st[id]) {
        assert Settled(g, outs, st', id);
      } else {
        if st[id] == Skipped {
          assert HasLostDep(g, st, id);
          KeepsFacts(g, outs, st, st', id);
        } else {
          assert !IsReady(g, st, id);
          var d :| d in g[id] && !(d in st && st[d] == Completed);
          assert !(d in st' && st'[d] == Completed);
        }
      }
    }
  }

  /** A finished run without pending steps has the recursive meaning too. */
  lemma FinishedSatisfiesRecursion(g: Graph, outs: Outcomes, st: Statuses)
    requires Sound(g, outs, st, {}) && SkipsExplained(g, st)
    requires forall id :: id in st ==> Terminal(st[id])
    ensures SatisfiesRecursion(g, outs, st)
  {
    forall id {:trigger IsReady(g, st, id)} ensures !IsReady(g, st, id) {
    }
    assert SkipPending(st) == st;
    DeadlockSatisfiesRecursion(g, outs, st);
  }

  /** In an unfinished run, an executed step already has the status the recursion gives it. */
  lemma {:induction false} ExecutedAsExpected(g: Graph, outs: Outcomes, rank: map<StepId, nat>, st: Statuses,
                                              live: set<StepId>, id: StepId)
    requires Sound(g, outs, st, live) && Ranked(g, rank) && id in g
    ensures DepsCompleted(g, st, id) ==> forall d :: d in g[id] ==> d in g && Expected(g, outs, rank, d) == Completed
    decreases rank[id]
  {
    if DepsCompleted(g, st, id) {
      forall d | d in g[id] ensures d in g && Expected(g, outs, rank, d) == Completed {
        assert Settled(g, outs, st, d);
        ExecutedAsExpected(g, outs, rank, st, live, d);
      }
    }
  }

  /** A plan some run of which stops with the TypeError: a step that the recursion would execute quotes a
      dependency without text. */
  ghost predicate Crashes(g: Graph, outs: Outcomes, rank: map<StepId, nat>)
    requires Ranked(g, rank) && g.Keys <= outs.Keys
  {
    exists id :: id in g && Expected(g, outs, rank, id) != Skipped && Hazard(g, outs, id)
  }

  lemma CrashIsExpected(g: Graph, outs: Outcomes, rank: map<StepId, nat>, st: Statuses, live: set<StepId>, id: StepId)
    requires Sound(g, outs, st, live) && Ranked(g, rank)
    requires id in live && Hazard(g, outs, id)
    ensures Crashes(g, outs, rank)
  {
    assert DepsCompleted(g, st, id);
    ExecutedAsExpected(g, outs, rank, st, live, id);
  }

  lemma NoCrashNoHazard(g: Graph, outs: Outcomes, rank: map<StepId, nat>, st: Statuses)
    requires Sound(g, outs, st, {}) && Ranked(g, rank) && SatisfiesRecursion(g, outs, st)
    ensures !Crashes(g, outs, rank)
  {
    forall id | id in g && Expected(g, outs, rank, id) != Skipped ensures !Hazard(g, outs, id) {
      RecursionUnique(g, outs, rank, st, id);
      assert Settled(g, outs, st, id);
    }
  }
}

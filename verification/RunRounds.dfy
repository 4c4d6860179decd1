/** Whole runs: how they end, and in which round each step of a run without failures starts. */
module RunRounds {
  import opened PlanTypes
  import opened PlanGraph
  import opened PlanModel
  import opened RunModel
  import opened RunLog

  /** Why a run ended: nothing was left, nothing was ready, one of the early stops, or a prompt that raised. A raise
      leaves steps of its round live; the early ones among them had already failed, but were not booked. */
  datatype Stop =
    | AllDone | Deadlock | Breaker | LowGainStop
    | Raised(culprit: StepId, live: set<StepId>, early: set<StepId>)

  // ---------- Rounds ----------

  ghost function PendingIds(st: Statuses): set<StepId> {
    set id | id in st && st[id] == Pending
  }

  lemma ScreeningShrinks(g: Graph, st: Statuses)
    requires g.Keys == st.Keys
    ensures PendingIds(SkipBlocked(g, st)) <= PendingIds(st)
    ensures |PendingIds(SkipBlocked(g, st))| <= |PendingIds(st)|
    ensures forall id {:trigger IsReady(g, st, id)} :: IsReady(g, st, id) <==> IsReady(g, SkipBlocked(g, st), id)
  {
    var st' := SkipBlocked(g, st);
    forall id | id in PendingIds(st') ensures id in PendingIds(st) {
      assert st'[id] == Screened(g, st, id);
    }
    SubsetIsNoLarger(PendingIds(st'), PendingIds(st));
    forall id | id in g ensures IsReady(g, st, id) <==> IsReady(g, st', id) {
      ScreeningKeepsReady(g, st, id);
    }
  }

  lemma ScreeningKeepsReady(g: Graph, st: Statuses, id: StepId)
    requires g.Keys == st.Keys && id in g
    ensures IsReady(g, st, id) <==> IsReady(g, SkipBlocked(g, st), id)
  {
    var st' := SkipBlocked(g, st);
    assert st'[id] == Screened(g, st, id);
    forall d | d in g[id] && d in st ensures st'[d] == Completed <==> st[d] == Completed {
      assert st'[d] == Screened(g, st, d);
    }
  }

  lemma SubsetIsNoLarger(a: set<StepId>, b: set<StepId>)
    requires a <= b
    ensures |a| <= |b|
  {
    assert b == a + (b - a);
  }

  /** A whole round turns every ready step into its own outcome and leaves fewer steps pending. */
  lemma RoundDone(g: Graph, outs: Outcomes, run0: Run, run: Run, ready: set<StepId>, round: nat)
    requires Progress(g, outs, run0, run, ready, {}, {}, round) && ready != {}
    ensures ready <= outs.Keys && run.st == AfterRound(run0.st, ready, outs)
    ensures |PendingIds(run.st)| < |PendingIds(run0.st)|
  {
    var some :| some in ready;
    assert IsReady(g, run0.st, some);
    assert PendingIds(run.st) <= PendingIds(run0.st) - {some};
    SubsetIsNoLarger(PendingIds(run.st), PendingIds(run0.st) - {some});
  }

  // ---------- Depths ----------

  ghost predicate AllSucceed(g: Graph, outs: Outcomes) {
    forall id :: id in g ==> id in outs && !outs[id].failed
  }

  /** After r rounds exactly the steps of depth below r are completed, and the others are pending. */
  ghost predicate Layered(g: Graph, depth: map<StepId, nat>, st: Statuses, r: nat)
    requires st.Keys == g.Keys == depth.Keys
  {
    forall id :: id in st ==> st[id] == if depth[id] < r then Completed else Pending
  }

  ghost predicate StartsAtDepth(depth: map<StepId, nat>, log: Log) {
    forall k :: 0 <= k < |log| && log[k].Started? ==> log[k].id in depth && log[k].round == depth[log[k].id]
  }

  /** n is one more than the greatest depth, or 0 for the empty graph. */
  ghost predicate IsHeight(g: Graph, depth: map<StepId, nat>, n: nat)
    requires depth.Keys == g.Keys
  {
    && (forall id :: id in g ==> depth[id] < n)
    && (n > 0 ==> exists id :: id in g && depth[id] == n - 1)
  }

  lemma LayerReady(g: Graph, depth: map<StepId, nat>, st: Statuses, r: nat, id: StepId)
    requires IsDepth(g, depth) && Closed(g) && st.Keys == g.Keys && Layered(g, depth, st, r) && id in g
    ensures IsReady(g, st, id) <==> depth[id] == r
    ensures Screened(g, st, id) == st[id]
  {
    if IsReady(g, st, id) && depth[id] > 0 {
      assert HasDepAt(g, depth, id, depth[id] - 1);
      var d :| d in g[id] && d in g && depth[d] == depth[id] - 1;
    }
  }

  /** While some step is pending, some step has exactly the depth that is due. */
  lemma {:induction false} LayerDue(g: Graph, depth: map<StepId, nat>, r: nat, id: StepId)
    requires IsDepth(g, depth) && id in g && depth[id] >= r
    ensures exists due :: due in g && depth[due] == r
    decreases depth[id]
  {
    if depth[id] > r {
      assert HasDepAt(g, depth, id, depth[id] - 1);
      var d :| d in g[id] && d in g && depth[d] == depth[id] - 1;
      LayerDue(g, depth, r, d);
    }
  }

  /** The graph has depths, no step fails, and the run is layered: what the rounds keep. */
  ghost predicate OnSchedule(g: Graph, outs: Outcomes, depth: map<StepId, nat>, run: Run, rounds: nat)
    requires run.st.Keys == g.Keys
  {
    IsDepth(g, depth) && Closed(g) && AllSucceed(g, outs) ==>
      && Layered(g, depth, run.st, rounds)
      && StartsAtDepth(depth, run.log)
      && (rounds > 0 ==> exists id :: id in g && depth[id] == rounds - 1)
  }

  lemma ScreeningOnSchedule(g: Graph, outs: Outcomes, depth: map<StepId, nat>, run: Run, rounds: nat)
    requires run.st.Keys == g.Keys && OnSchedule(g, outs, depth, run, rounds)
    ensures OnSchedule(g, outs, depth, run.(st := SkipBlocked(g, run.st)), rounds)
  {
    if IsDepth(g, depth) && Closed(g) && AllSucceed(g, outs) {
      forall id | id in g ensures SkipBlocked(g, run.st)[id] == run.st[id] {
        LayerReady(g, depth, run.st, rounds, id);
      }
      assert SkipBlocked(g, run.st) == run.st;
    }
  }

  lemma RoundOnSchedule(g: Graph, outs: Outcomes, depth: map<StepId, nat>, run0: Run, run: Run,
                        ready: set<StepId>, rounds: nat)
    requires run0.st.Keys == g.Keys && OnSchedule(g, outs, depth, run0, rounds)
    requires forall id {:trigger IsReady(g, run0.st, id)} :: id in ready <==> IsReady(g, run0.st, id)
    requires ready <= outs.Keys && run.st == AfterRound(run0.st, ready, outs) && ready != {}
    requires StartsInRound(|run0.log|, run.log, ready, rounds) && run0.log <= run.log
    ensures OnSchedule(g, outs, depth, run, rounds + 1)
  {
    if IsDepth(g, depth) && Closed(g) && AllSucceed(g, outs) {
      forall id | id in g ensures id in ready <==> depth[id] == rounds {
        LayerReady(g, depth, run0.st, rounds, id);
      }
      forall id | id in ready ensures id in g {
        assert IsReady(g, run0.st, id);
      }
      var some :| some in ready;
      assert depth[some] == rounds;
      forall k | 0 <= k < |run.log| && run.log[k].Started?
        ensures run.log[k].id in depth && run.log[k].round == depth[run.log[k].id]
      {
        if k < |run0.log| {
          assert run.log[k] == run0.log[k];
        }
      }
    }
  }

  // ---------- How a run ends ----------

  /** Books and log of a run, with no claim about why steps were skipped. */
  ghost predicate Accounted(g: Graph, outs: Outcomes, h0: seq<Outcome>, fp: Fingerprint, run: Run, live: set<StepId>) {
    && Sound(g, outs, run.st, live)
    && Ordered(g, outs, h0, fp, run.log)
    && LogTied(run.st, run.log)
    && Books(outs, run)
  }

  /** Live steps whose tries ended in failure are marked before they are booked. */
  function Marked(st: Statuses, early: set<StepId>): Statuses {
    map id | id in st :: if id in early then Failed else st[id]
  }

  function Unmarked(st: Statuses, early: set<StepId>): Statuses {
    map id | id in st :: if id in early then Running else st[id]
  }

  function EarlyIn(stop: Stop): set<StepId> {
    if stop.Raised? then stop.early else {}
  }

  /** The run as far as it was booked. */
  function BookedRun(run: Run, stop: Stop): Run {
    if stop.Raised? then run.(st := Unmarked(run.st, stop.early)) else run
  }

  ghost predicate FailedEarly(outs: Outcomes, st: Statuses, live: set<StepId>, early: set<StepId>) {
    early <= live && forall id :: id in early ==> id in st && st[id] == Failed && id in outs && outs[id].failed
  }

  /** Every step has a final status, except after a raise; and the statuses are what the reason for ending promises. */
  ghost predicate Ended(g: Graph, outs: Outcomes, h0: seq<Outcome>, fp: Fingerprint, run: Run, stop: Stop) {
    && Accounted(g, outs, h0, fp, BookedRun(run, stop), if stop.Raised? then stop.live else {})
    && (!stop.Raised? ==> forall id :: id in run.st ==> Terminal(run.st[id]))
    && match stop
       case AllDone => SatisfiesRecursion(g, outs, run.st)
       case Deadlock => SatisfiesRecursion(g, outs, run.st)
       case Breaker => TrailingFailures(h0 + Completions(run.log)) >= MAX_CONSECUTIVE_FAILURES
       case LowGainStop => TrailingLowGain(h0 + Completions(run.log), fp) >= MAX_LOW_GAIN_STEPS
       case Raised(culprit, live, early) =>
         && culprit in live && culprit in g && Hazard(g, outs, culprit)
         && culprit !in early && FailedEarly(outs, run.st, live, early)
  }

  lemma EndByCompletion(g: Graph, outs: Outcomes, h0: seq<Outcome>, fp: Fingerprint, run: Run)
    requires Consistent(g, outs, h0, fp, run, {}) && forall id :: id in run.st ==> Terminal(run.st[id])
    ensures Ended(g, outs, h0, fp, run, AllDone)
  {
    FinishedSatisfiesRecursion(g, outs, run.st);
  }

  lemma SkipTied(st: Statuses, log: Log)
    requires LogTied(st, log)
    ensures LogTied(SkipPending(st), log)
  {
  }

  lemma SkipAccounted(g: Graph, outs: Outcomes, h0: seq<Outcome>, fp: Fingerprint, run: Run)
    requires Consistent(g, outs, h0, fp, run, {})
    ensures var run' := run.(st := SkipPending(run.st));
            Accounted(g, outs, h0, fp, run', {}) && forall id :: id in run'.st ==> Terminal(run'.st[id])
  {
    StopSound(g, outs, run.st);
    SkipTied(run.st, run.log);
  }

  lemma EndByDeadlock(g: Graph, outs: Outcomes, h0: seq<Outcome>, fp: Fingerprint, run: Run)
    requires Consistent(g, outs, h0, fp, run, {})
    requires forall id {:trigger IsReady(g, run.st, id)} :: !IsReady(g, run.st, id)
    ensures Ended(g, outs, h0, fp, run.(st := SkipPending(run.st)), Deadlock)
  {
    SkipAccounted(g, outs, h0, fp, run);
    DeadlockSatisfiesRecursion(g, outs, run.st);
  }

  lemma EndByStop(g: Graph, outs: Outcomes, h0: seq<Outcome>, fp: Fingerprint, run: Run)
    requires Consistent(g, outs, h0, fp, run, {})
    ensures var run' := run.(st := SkipPending(run.st)); var h := h0 + Completions(run.log);
            && (TrailingFailures(h) >= MAX_CONSECUTIVE_FAILURES ==> Ended(g, outs, h0, fp, run', Breaker))
            && (TrailingLowGain(h, fp) >= MAX_LOW_GAIN_STEPS ==> Ended(g, outs, h0, fp, run', LowGainStop))
  {
    SkipAccounted(g, outs, h0, fp, run);
  }

  lemma MarkedBack(outs: Outcomes, st: Statuses, live: set<StepId>, early: set<StepId>)
    requires live <= st.Keys && forall id :: id in live ==> st[id] == Running
    requires early <= live && forall id :: id in early ==> id in outs && outs[id].failed
    ensures Unmarked(Marked(st, early), early) == st && FailedEarly(outs, Marked(st, early), live, early)
  {
  }

  lemma EndByRaise(g: Graph, outs: Outcomes, h0: seq<Outcome>, fp: Fingerprint, run0: Run, run: Run,
                   ready: set<StepId>, live: set<StepId>, early: set<StepId>, round: nat, culprit: StepId)
    requires RoundOk(g, outs, h0, fp, run0, run, ready, {}, live, round)
    requires culprit in live && culprit in g && Hazard(g, outs, culprit)
    requires culprit !in early && early <= live && forall id :: id in early ==> id in outs && outs[id].failed
    ensures Ended(g, outs, h0, fp, run.(st := Marked(run.st, early)), Raised(culprit, live, early))
  {
    hide Settled, Progress, Marked, Unmarked;
    MarkedBack(outs, run.st, live, early);
  }

  /** On an acyclic plan with depths and without failures, a run that no early stop cuts short ends with every step
      completed, and never in a deadlock. */
  lemma NoDeadlockOnSchedule(g: Graph, outs: Outcomes, depth: map<StepId, nat>, run: Run, rounds: nat)
    requires run.st.Keys == g.Keys && OnSchedule(g, outs, depth, run, rounds)
    requires IsDepth(g, depth) && Closed(g) && AllSucceed(g, outs)
    requires exists id :: id in run.st && run.st[id] == Pending
    ensures exists id :: IsReady(g, run.st, id)
  {
    var id :| id in run.st && run.st[id] == Pending;
    LayerDue(g, depth, rounds, id);
    var due :| due in g && depth[due] == rounds;
    LayerReady(g, depth, run.st, rounds, due);
  }

  lemma HeightReached(g: Graph, outs: Outcomes, depth: map<StepId, nat>, run: Run, rounds: nat)
    requires run.st.Keys == g.Keys && OnSchedule(g, outs, depth, run, rounds)
    requires forall id :: id in run.st ==> Terminal(run.st[id])
    ensures IsDepth(g, depth) && Closed(g) && AllSucceed(g, outs) ==> IsHeight(g, depth, rounds)
  {
  }

  /** The height of a graph with depths is the number of steps of its longest dependency chain. */
  lemma HeightIsLongestChain(g: Graph, depth: map<StepId, nat>, n: nat)
    requires IsDepth(g, depth) && IsHeight(g, depth, n)
    ensures forall p :: IsPath(g, p) ==> |p| <= n
    ensures n > 0 ==> exists p :: IsPath(g, p) && |p| == n
  {
    forall p | IsPath(g, p) ensures |p| <= n {
      DepthIsLongestChain(g, depth, p[|p| - 1]);
    }
    if n > 0 {
      var id :| id in g && depth[id] == n - 1;
      DepthIsLongestChain(g, depth, id);
    }
  }

  // ---------- The round loop ----------

  /** What holds between rounds. */
  ghost predicate BetweenRounds(g: Graph, outs: Outcomes, h0: seq<Outcome>, fp: Fingerprint, depth: map<StepId, nat>,
                                run: Run, rounds: nat) {
    Consistent(g, outs, h0, fp, run, {}) && OnSchedule(g, outs, depth, run, rounds)
  }

  lemma FreshRun(g: Graph, outs: Outcomes, h0: seq<Outcome>, fp: Fingerprint, depth: map<StepId, nat>, run: Run)
    requires run.st.Keys == g.Keys <= outs.Keys && forall id :: id in run.st ==> run.st[id] == Pending
    requires run.completed == run.failed == 0 && run.stored == map[] && run.log == []
    ensures BetweenRounds(g, outs, h0, fp, depth, run, 0)
  {
  }

  lemma ScreenBetweenRounds(g: Graph, outs: Outcomes, h0: seq<Outcome>, fp: Fingerprint, depth: map<StepId, nat>,
                            run: Run, rounds: nat)
    requires BetweenRounds(g, outs, h0, fp, depth, run, rounds)
    ensures BetweenRounds(g, outs, h0, fp, depth, run.(st := SkipBlocked(g, run.st)), rounds)
    ensures |PendingIds(SkipBlocked(g, run.st))| <= |PendingIds(run.st)|
    ensures forall id {:trigger IsReady(g, run.st, id)} ::
              IsReady(g, run.st, id) <==> IsReady(g, SkipBlocked(g, run.st), id)
  {
    ScreenKeeps(g, outs, h0, fp, run);
    ScreeningOnSchedule(g, outs, depth, run, rounds);
    ScreeningShrinks(g, run.st);
  }

  lemma RoundBetweenRounds(g: Graph, outs: Outcomes, h0: seq<Outcome>, fp: Fingerprint, depth: map<StepId, nat>,
                           run0: Run, run: Run, ready: set<StepId>, rounds: nat)
    requires BetweenRounds(g, outs, h0, fp, depth, run0, rounds)
    requires RoundOk(g, outs, h0, fp, run0, run, ready, {}, {}, rounds) && ready != {}
    requires forall id {:trigger IsReady(g, run0.st, id)} :: id in ready <==> IsReady(g, run0.st, id)
    ensures BetweenRounds(g, outs, h0, fp, depth, run, rounds + 1)
    ensures |PendingIds(run.st)| < |PendingIds(run0.st)|
  {
    RoundDone(g, outs, run0, run, ready, rounds);
    RoundOnSchedule(g, outs, depth, run0, run, ready, rounds);
  }

  /** Ended, and on schedule when the graph has depths and nothing failed. */
  ghost predicate Concluded(g: Graph, outs: Outcomes, h0: seq<Outcome>, fp: Fingerprint, depth: map<StepId, nat>,
                            run: Run, rounds: nat, stop: Stop) {
    && Ended(g, outs, h0, fp, run, stop)
    && (IsDepth(g, depth) && Closed(g) && AllSucceed(g, outs) ==>
          && stop != Deadlock
          && (stop == AllDone ==> StartsAtDepth(depth, run.log) && IsHeight(g, depth, rounds)))
  }

  lemma ConcludeAllDone(g: Graph, outs: Outcomes, h0: seq<Outcome>, fp: Fingerprint, depth: map<StepId, nat>,
                        run: Run, rounds: nat)
    requires BetweenRounds(g, outs, h0, fp, depth, run, rounds)
    requires forall id :: id in run.st ==> Terminal(run.st[id])
    ensures Concluded(g, outs, h0, fp, depth, run, rounds, AllDone)
  {
    EndByCompletion(g, outs, h0, fp, run);
    HeightReached(g, outs, depth, run, rounds);
  }

  lemma ConcludeDeadlock(g: Graph, outs: Outcomes, h0: seq<Outcome>, fp: Fingerprint, depth: map<StepId, nat>,
                         run: Run, rounds: nat)
    requires BetweenRounds(g, outs, h0, fp, depth, run, rounds)
    requires forall id {:trigger IsReady(g, run.st, id)} :: !IsReady(g, run.st, id)
    ensures (exists id :: id in run.st && run.st[id] == Pending) ==>
              Concluded(g, outs, h0, fp, depth, run.(st := SkipPending(run.st)), rounds, Deadlock)
    ensures (forall id :: id in run.st ==> run.st[id] != Pending) ==>
              run.(st := SkipPending(run.st)) == run && Concluded(g, outs, h0, fp, depth, run, rounds, AllDone)
  {
    hide Ended, Settled, SkipsExplained, Ordered, Books, LogTied;
    EndByDeadlock(g, outs, h0, fp, run);
    if exists id :: id in run.st && run.st[id] == Pending {
      if IsDepth(g, depth) && Closed(g) && AllSucceed(g, outs) {
        NoDeadlockOnSchedule(g, outs, depth, run, rounds);
        assert false;
      }
    } else {
      assert SkipPending(run.st) == run.st;
      ConcludeAllDone(g, outs, h0, fp, depth, run, rounds);
    }
  }

  lemma ConcludeStop(g: Graph, outs: Outcomes, h0: seq<Outcome>, fp: Fingerprint, depth: map<StepId, nat>,
                     run: Run, rounds: nat)
    requires BetweenRounds(g, outs, h0, fp, depth, run, rounds)
    ensures var run' := run.(st := SkipPending(run.st)); var h := h0 + Completions(run.log);
            && (TrailingFailures(h) >= MAX_CONSECUTIVE_FAILURES ==>
                  Concluded(g, outs, h0, fp, depth, run', rounds, Breaker))
            && (TrailingLowGain(h, fp) >= MAX_LOW_GAIN_STEPS ==>
                  Concluded(g, outs, h0, fp, depth, run', rounds, LowGainStop))
  {
    hide Ended;
    EndByStop(g, outs, h0, fp, run);
  }

  lemma ConcludeRaise(g: Graph, outs: Outcomes, h0: seq<Outcome>, fp: Fingerprint, depth: map<StepId, nat>,
                      run0: Run, run: Run, ready: set<StepId>, live: set<StepId>, early: set<StepId>, round: nat,
                      culprit: StepId)
    requires RoundOk(g, outs, h0, fp, run0, run, ready, {}, live, round)
    requires culprit in live && culprit in g && Hazard(g, outs, culprit)
    requires culprit !in early && early <= live && forall id :: id in early ==> id in outs && outs[id].failed
    ensures Concluded(g, outs, h0, fp, depth, run.(st := Marked(run.st, early)), round, Raised(culprit, live, early))
  {
    hide Ended;
    EndByRaise(g, outs, h0, fp, run0, run, ready, live, early, round, culprit);
  }

  // ---------- Reading a concluded run ----------

  /** Without failures, a plan with depths whose run no early stop cuts short takes exactly as many rounds as its
      longest chain of dependencies has steps, and each step starts in the round of its depth. */
  lemma RoundsMatchLongestChain(g: Graph, outs: Outcomes, h0: seq<Outcome>, fp: Fingerprint, depth: map<StepId, nat>,
                                run: Run, rounds: nat, stop: Stop)
    requires Concluded(g, outs, h0, fp, depth, run, rounds, stop) && (stop == AllDone || stop == Deadlock)
    requires IsDepth(g, depth) && Closed(g) && AllSucceed(g, outs)
    ensures stop == AllDone && StartsAtDepth(depth, run.log)
    ensures forall p :: IsPath(g, p) ==> |p| <= rounds
    ensures rounds > 0 ==> exists p :: IsPath(g, p) && |p| == rounds
  {
    hide Ended;
    HeightIsLongestChain(g, depth, rounds);
  }

  /** An early stop has its reason in the completions: three failures in a row at the end, or two successes since which
      nothing new has come. */
  lemma StopsForAReason(g: Graph, outs: Outcomes, h0: seq<Outcome>, fp: Fingerprint, run: Run, stop: Stop)
    requires Ended(g, outs, h0, fp, run, stop)
    ensures stop == Breaker ==> ThreeFailures(h0 + Completions(run.log))
    ensures stop == LowGainStop ==> TwoWithoutNews(h0 + Completions(run.log), fp)
  {
    hide TwoWithoutNews, TrailingLowGain, Accounted;
    TrailingFailuresMeaning(h0 + Completions(run.log));
    LowGainStopsIff(h0 + Completions(run.log), fp);
  }

  ghost function IdsAt(st: Statuses, s: Status): set<StepId> {
    set id | id in st && st[id] == s
  }

  /** The log of a run sorts its steps by status. */
  lemma StatusSets(st: Statuses, log: Log)
    requires LogTied(st, log)
    ensures IdsAt(st, Completed) == DrainedIds(log, false) && IdsAt(st, Failed) == DrainedIds(log, true)
    ensures (forall id :: id in st ==> Terminal(st[id])) ==>
              forall id :: id in st ==> (st[id] == Skipped <==> id !in StartedIds(log))
  {
  }

  lemma TerminalSets(st: Statuses)
    requires forall id :: id in st ==> Terminal(st[id])
    ensures |IdsAt(st, Completed)| + |IdsAt(st, Failed)| + |IdsAt(st, Skipped)| == |st|
  {
    assert st.Keys == IdsAt(st, Completed) + IdsAt(st, Failed) + IdsAt(st, Skipped);
  }

  lemma MarkedSets(st: Statuses, early: set<StepId>)
    requires early <= st.Keys && forall id :: id in early ==> st[id] == Failed
    ensures IdsAt(Unmarked(st, early), Completed) == IdsAt(st, Completed)
    ensures |IdsAt(Unmarked(st, early), Failed)| + |early| == |IdsAt(st, Failed)|
  {
    assert IdsAt(st, Failed) == IdsAt(Unmarked(st, early), Failed) + early;
  }

  /** completed_steps is the number of completed steps, and failed_steps that of failed steps but for those a raise left
      unbooked; a run that did not raise left none, and skipped are the steps without a start. */
  lemma CountersAndSkips(g: Graph, outs: Outcomes, h0: seq<Outcome>, fp: Fingerprint, run: Run, stop: Stop)
    requires Ended(g, outs, h0, fp, run, stop)
    ensures run.completed == |IdsAt(run.st, Completed)|
    ensures run.failed + |EarlyIn(stop)| == |IdsAt(run.st, Failed)|
    ensures !stop.Raised? ==> run.completed + run.failed + |IdsAt(run.st, Skipped)| == |g|
    ensures !stop.Raised? ==> forall id :: id in run.st ==> (run.st[id] == Skipped <==> id !in StartedIds(run.log))
  {
    hide LogTied, DrainedIds, StartedIds, Settled, IdsAt;
    StatusSets(BookedRun(run, stop).st, run.log);
    if stop.Raised? {
      MarkedSets(run.st, stop.early);
    } else {
      TerminalSets(run.st);
      assert |run.st| == |g|;
    }
  }

  /** On a validated plan: a run that no early stop cuts short raises exactly when some step the recursion would
      execute quotes a dependency without text; otherwise its statuses are the recursion's, whatever the order. */
  lemma UnstoppedRun(g: Graph, outs: Outcomes, h0: seq<Outcome>, fp: Fingerprint, run: Run, stop: Stop,
                     rank: map<StepId, nat>)
    requires Ended(g, outs, h0, fp, run, stop) && stop != Breaker && stop != LowGainStop
    requires Ranked(g, rank)
    ensures stop.Raised? <==> Crashes(g, outs, rank)
    ensures !stop.Raised? ==> forall id :: id in g ==> run.st[id] == Expected(g, outs, rank, id)
  {
    if stop.Raised? {
      CrashIsExpected(g, outs, rank, BookedRun(run, stop).st, stop.live, stop.culprit);
    } else {
      NoCrashNoHazard(g, outs, rank, run.st);
      forall id | id in g ensures run.st[id] == Expected(g, outs, rank, id) {
        RecursionUnique(g, outs, rank, run.st, id);
      }
    }
  }

  lemma EndedKeys(g: Graph, outs: Outcomes, h0: seq<Outcome>, fp: Fingerprint, run: Run, stop: Stop)
    requires Ended(g, outs, h0, fp, run, stop)
    ensures run.st.Keys == g.Keys <= outs.Keys
  {
  }

  /** Two runs over the same validated plan and outcomes, neither cut short by an early stop, end alike. */
  lemma RunsAreConfluent(g: Graph, outs: Outcomes, h1: seq<Outcome>, h2: seq<Outcome>, fp: Fingerprint,
                         run1: Run, run2: Run, stop1: Stop, stop2: Stop)
    requires Ended(g, outs, h1, fp, run1, stop1) && stop1 != Breaker && stop1 != LowGainStop
    requires Ended(g, outs, h2, fp, run2, stop2) && stop2 != Breaker && stop2 != LowGainStop
    requires Acyclic(g)
    ensures stop1.Raised? <==> stop2.Raised?
    ensures !stop1.Raised? ==>
              run1.st == run2.st && run1.completed == run2.completed && run1.failed == run2.failed
  {
    hide Ended, IdsAt, Expected;
    EndedKeys(g, outs, h1, fp, run1, stop1);
    EndedKeys(g, outs, h2, fp, run2, stop2);
    var rank :| Ranked(g, rank);
    UnstoppedRun(g, outs, h1, fp, run1, stop1, rank);
    UnstoppedRun(g, outs, h2, fp, run2, stop2, rank);
    if !stop1.Raised? {
      CountersAndSkips(g, outs, h1, fp, run1, stop1);
      CountersAndSkips(g, outs, h2, fp, run2, stop2);
      assert run1.st == run2.st;
    }
  }

  /** Every step a deadlock skips has a failed ancestor. */
  lemma DeadlockSkipsBehindFailures(g: Graph, outs: Outcomes, h0: seq<Outcome>, fp: Fingerprint, run: Run, stop: Stop,
                                    id: StepId)
    requires Ended(g, outs, h0, fp, run, stop) && (stop == AllDone || stop == Deadlock)
    requires Closed(g) && Acyclic(g) && id in g && run.st[id] == Skipped
    ensures exists p :: IsPath(g, p) && p[|p| - 1] == id && run.st[p[0]] == Failed
  {
    var rank :| Ranked(g, rank);
    SkippedHasFailedAncestor(g, outs, rank, run.st, id);
  }
}

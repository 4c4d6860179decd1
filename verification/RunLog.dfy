/** The record of one run: starts and completions in the order they happened, and the counters they drive. */
module RunLog {
  import opened Options
  import opened PlanTypes
  import opened PlanGraph
  import opened PlanModel
  import opened RunModel

  /** A step started in a round, with the identifiers whose results were stored then; or a step's completion. */
  datatype Event = Started(id: StepId, round: nat, stored: set<StepId>) | Drained(id: StepId, outcome: Outcome)

  type Log = seq<Event>

  function StartedIds(log: Log): set<StepId> {
    if log == [] then {} else
    var e := log[|log| - 1];
    StartedIds(log[..|log| - 1]) + if e.Started? then {e.id} else {}
  }

  /** The steps drained without failing, or those drained failing. */
  function DrainedIds(log: Log, failed: bool): set<StepId> {
    if log == [] then {} else
    var e := log[|log| - 1];
    DrainedIds(log[..|log| - 1], failed) + if e.Drained? && e.outcome.failed == failed then {e.id} else {}
  }

  /** The completions of the log, as the counters see them. */
  function Completions(log: Log): seq<Outcome> {
    if log == [] then [] else
    var e := log[|log| - 1];
    Completions(log[..|log| - 1]) + if e.Drained? then [e.outcome] else []
  }

  // ---------- The two early-stop counters, as functions of the completions ----------

  const MAX_CONSECUTIVE_FAILURES := 3
  const MAX_LOW_GAIN_STEPS := 2

  type Fingerprint = string -> int

  /** The length of the run of failures at the end. */
  function TrailingFailures(h: seq<Outcome>): nat {
    if h != [] && h[|h| - 1].failed then TrailingFailures(h[..|h| - 1]) + 1 else 0
  }

  function SeenFingerprints(h: seq<Outcome>, fp: Fingerprint): set<int> {
    if h == [] then {} else
    var o := h[|h| - 1];
    SeenFingerprints(h[..|h| - 1], fp) + if o.failed || o.text == "" then {} else {fp(o.text)}
  }

  /** The success after h brings nothing new: no text, or a fingerprint an earlier success had. */
  predicate LowGain(h: seq<Outcome>, text: string, fp: Fingerprint) {
    text == "" || fp(text) in SeenFingerprints(h, fp)
  }

  /** The length of the run of low-gain successes at the end, failures disregarded. */
  function TrailingLowGain(h: seq<Outcome>, fp: Fingerprint): nat {
    if h == [] then 0 else
    var init, o := h[..|h| - 1], h[|h| - 1];
    if o.failed then TrailingLowGain(init, fp)
    else if LowGain(init, o.text, fp) then TrailingLowGain(init, fp) + 1 else 0
  }

  /** Neither early stop applies after the completions h. */
  predicate MayContinue(h: seq<Outcome>, fp: Fingerprint) {
    TrailingFailures(h) < MAX_CONSECUTIVE_FAILURES && TrailingLowGain(h, fp) < MAX_LOW_GAIN_STEPS
  }

  lemma {:induction false} TrailingFailuresMeaning(h: seq<Outcome>)
    ensures var n := TrailingFailures(h);
            && n <= |h|
            && (forall i :: |h| - n <= i < |h| ==> h[i].failed)
            && (n < |h| ==> !h[|h| - n - 1].failed)
  {
    if h != [] && h[|h| - 1].failed {
      TrailingFailuresMeaning(h[..|h| - 1]);
    }
  }

  lemma {:induction false} SeenMeaning(h: seq<Outcome>, fp: Fingerprint, x: int)
    ensures x in SeenFingerprints(h, fp) <==>
            exists i :: 0 <= i < |h| && !h[i].failed && h[i].text != "" && fp(h[i].text) == x
  {
    if h != [] {
      var init := h[..|h| - 1];
      SeenMeaning(init, fp, x);
      assert forall i :: 0 <= i < |init| ==> h[i] == init[i];
    }
  }

  // ---------- The counters by positions ----------

  /** The completion at position i brought something new: a success, with text, and with a fingerprint that no earlier
      success with text had. */
  ghost predicate Informative(h: seq<Outcome>, fp: Fingerprint, i: nat)
    requires i < |h|
  {
    && !h[i].failed && h[i].text != ""
    && forall j :: 0 <= j < i && !h[j].failed && h[j].text != "" ==> fp(h[j].text) != fp(h[i].text)
  }

  /** Nothing new came from position a on, and a lies right behind the latest news, if there were any. */
  ghost predicate QuietFrom(h: seq<Outcome>, fp: Fingerprint, a: nat) {
    && a <= |h| && (a > 0 ==> Informative(h, fp, a - 1))
    && forall i :: a <= i < |h| ==> !Informative(h, fp, i)
  }

  /** The positions of the successes from a on. */
  ghost function SuccessesFrom(h: seq<Outcome>, a: nat): set<nat> {
    set i | a <= i < |h| && !h[i].failed
  }

  lemma LowGainIsNoNews(h: seq<Outcome>, fp: Fingerprint)
    requires h != [] && !h[|h| - 1].failed
    ensures LowGain(h[..|h| - 1], h[|h| - 1].text, fp) <==> !Informative(h, fp, |h| - 1)
  {
    var init := h[..|h| - 1];
    SeenMeaning(init, fp, fp(h[|h| - 1].text));
    assert forall i :: 0 <= i < |init| ==> h[i] == init[i];
  }

  lemma NewsOfFront(h: seq<Outcome>, fp: Fingerprint, n: nat, i: nat)
    requires i < n <= |h|
    ensures Informative(h[..n], fp, i) <==> Informative(h, fp, i)
  {
    assert forall j :: 0 <= j < n ==> h[..n][j] == h[j];
  }

  /** The low-gain counter is the number of successes since the latest one that brought something new, or since the
      start; failures in between leave it alone. */
  lemma {:induction false} TrailingLowGainMeaning(h: seq<Outcome>, fp: Fingerprint) returns (a: nat)
    ensures QuietFrom(h, fp, a)
    ensures TrailingLowGain(h, fp) == |SuccessesFrom(h, a)|
  {
    hide Informative;
    a := |h|;
    if h != [] {
      var n := |h| - 1;
      a := TrailingLowGainMeaning(h[..n], fp);
      assert forall i :: a <= i < n ==> h[..n][i] == h[i];
      forall i | 0 <= i < n ensures Informative(h[..n], fp, i) <==> Informative(h, fp, i) {
        NewsOfFront(h, fp, n, i);
      }
      if h[n].failed {
        FailureIsNoNews(h, fp, n);
        assert SuccessesFrom(h, a) == SuccessesFrom(h[..n], a);
      } else {
        LowGainIsNoNews(h, fp);
        if Informative(h, fp, n) {
          a := n + 1;
          assert SuccessesFrom(h, a) == {};
        } else {
          assert SuccessesFrom(h, a) == SuccessesFrom(h[..n], a) + {n};
        }
      }
    } else {
      assert SuccessesFrom(h, 0) == {};
    }
  }

  lemma FailureIsNoNews(h: seq<Outcome>, fp: Fingerprint, i: nat)
    requires i < |h| && h[i].failed
    ensures !Informative(h, fp, i)
  {
  }

  /** A failure changes neither the low-gain counter nor the fingerprints seen. */
  lemma FailureGainsNothing(h: seq<Outcome>, o: Outcome, fp: Fingerprint)
    requires o.failed
    ensures TrailingLowGain(h + [o], fp) == TrailingLowGain(h, fp)
    ensures SeenFingerprints(h + [o], fp) == SeenFingerprints(h, fp)
  {
    assert (h + [o])[..|h|] == h;
  }

  /** The last three completions all failed. */
  ghost predicate ThreeFailures(h: seq<Outcome>) {
    |h| >= 3 && h[|h| - 1].failed && h[|h| - 2].failed && h[|h| - 3].failed
  }

  /** Two successes, whatever failed between them, since which nothing new has come. */
  ghost predicate TwoWithoutNews(h: seq<Outcome>, fp: Fingerprint) {
    exists i, j :: 0 <= i < j < |h| && NothingNewSince(h, fp, i, j)
  }

  ghost predicate NothingNewSince(h: seq<Outcome>, fp: Fingerprint, i: nat, j: nat)
    requires i < j < |h|
  {
    !h[i].failed && !h[j].failed && forall k :: i <= k < |h| ==> !Informative(h, fp, k)
  }

  lemma TwoOf(s: set<nat>) returns (i: nat, j: nat)
    requires |s| >= 2
    ensures i < j && i in s && j in s
  {
    i :| i in s;
    assert |s - {i}| >= 1;
    j :| j in s - {i};
    if j < i {
      i, j := j, i;
    }
  }

  lemma LowGainStopsIff(h: seq<Outcome>, fp: Fingerprint)
    ensures TrailingLowGain(h, fp) >= MAX_LOW_GAIN_STEPS <==> TwoWithoutNews(h, fp)
  {
    hide Informative, TrailingLowGain;
    var a := TrailingLowGainMeaning(h, fp);
    if |SuccessesFrom(h, a)| >= 2 {
      var i, j := TwoOf(SuccessesFrom(h, a));
      assert NothingNewSince(h, fp, i, j);
    }
    if TwoWithoutNews(h, fp) {
      var i, j :| 0 <= i < j < |h| && NothingNewSince(h, fp, i, j);
      assert a > 0 ==> a - 1 < i;
      assert SuccessesFrom(h, a) == {i, j} + (SuccessesFrom(h, a) - {i, j});
    }
  }

  /** When the executor goes on, told by the completions alone. */
  lemma MayContinueIff(h: seq<Outcome>, fp: Fingerprint)
    ensures MayContinue(h, fp) <==> !ThreeFailures(h) && !TwoWithoutNews(h, fp)
  {
    hide TwoWithoutNews, TrailingLowGain;
    LowGainStopsIff(h, fp);
    TrailingFailuresMeaning(h);
  }

  // ---------- What every log of a run satisfies ----------

  /** The event e may follow the log: a step starts once, after all its dependencies completed and were stored,
      and only while no early stop applies; it is drained once, after its start, with its own outcome. */
  ghost predicate MayFollow(g: Graph, outs: Outcomes, h0: seq<Outcome>, fp: Fingerprint, log: Log, e: Event) {
    match e
    case Started(id, _, stored) =>
      && id in g && id !in StartedIds(log)
      && (forall d :: d in g[id] ==> d in stored && d in DrainedIds(log, false))
      && MayContinue(h0 + Completions(log), fp)
    case Drained(id, o) =>
      && id in StartedIds(log) && id !in DrainedIds(log, false) && id !in DrainedIds(log, true)
      && id in outs && o == outs[id]
  }

  ghost predicate Ordered(g: Graph, outs: Outcomes, h0: seq<Outcome>, fp: Fingerprint, log: Log) {
    log != [] ==>
      && Ordered(g, outs, h0, fp, log[..|log| - 1])
      && MayFollow(g, outs, h0, fp, log[..|log| - 1], log[|log| - 1])
  }

  lemma {:induction false} OrderedAt(g: Graph, outs: Outcomes, h0: seq<Outcome>, fp: Fingerprint, log: Log, k: nat)
    requires Ordered(g, outs, h0, fp, log) && k < |log|
    ensures MayFollow(g, outs, h0, fp, log[..k], log[k])
  {
    if k < |log| - 1 {
      OrderedAt(g, outs, h0, fp, log[..|log| - 1], k);
      assert log[..|log| - 1][..k] == log[..k];
    }
  }

  lemma {:induction false} StartedIdsMeaning(log: Log, id: StepId)
    ensures id in StartedIds(log) <==> exists k :: 0 <= k < |log| && log[k].Started? && log[k].id == id
  {
    if log != [] {
      var init := log[..|log| - 1];
      StartedIdsMeaning(init, id);
      assert forall k :: 0 <= k < |init| ==> log[k] == init[k];
    }
  }

  lemma {:induction false} DrainedIdsMeaning(log: Log, failed: bool, id: StepId)
    ensures id in DrainedIds(log, failed) <==>
            exists k :: 0 <= k < |log| && log[k].Drained? && log[k].outcome.failed == failed && log[k].id == id
  {
    if log != [] {
      var init := log[..|log| - 1];
      DrainedIdsMeaning(init, failed, id);
      assert forall k :: 0 <= k < |init| ==> log[k] == init[k];
    }
  }

  /** Over a whole run no step starts twice, and each dependency of a starting step completed before. */
  lemma OrderSafety(g: Graph, outs: Outcomes, h0: seq<Outcome>, fp: Fingerprint, log: Log, k: nat)
    requires Ordered(g, outs, h0, fp, log) && k < |log| && log[k].Started?
    ensures forall j :: 0 <= j < k && log[j].Started? ==> log[j].id != log[k].id
    ensures log[k].id in g
    ensures forall d :: d in g[log[k].id] ==>
              d in log[k].stored &&
              exists j :: 0 <= j < k && log[j].Drained? && log[j].id == d && !log[j].outcome.failed
    ensures MayContinue(h0 + Completions(log[..k]), fp)
  {
    OrderedAt(g, outs, h0, fp, log, k);
    forall j | 0 <= j < k && log[j].Started? ensures log[j].id != log[k].id {
      StartedIdsMeaning(log[..k], log[j].id);
      assert log[..k][j] == log[j];
    }
    forall d | d in g[log[k].id]
      ensures exists j :: 0 <= j < k && log[j].Drained? && log[j].id == d && !log[j].outcome.failed
    {
      DrainedIdsMeaning(log[..k], false, d);
      var j :| 0 <= j < k && log[..k][j].Drained? && log[..k][j].outcome.failed == false && log[..k][j].id == d;
      assert log[j] == log[..k][j];
    }
  }

  // ---------- The state of a run ----------

  /** What step.result becomes. */
  function ResultOf(text: string): Option<string> {
    if text == "" then None else Some(if |text| <= 2000 then text else text[..2000])
  }

  /** A result is the text, up to 2000 characters of it; without text there is none. */
  lemma ResultIsText(text: string)
    ensures ResultOf(text) == None <==> text == ""
    ensures text != "" && |text| <= 2000 ==> ResultOf(text) == Some(text)
    ensures |text| > 2000 ==> ResultOf(text).Some? && ResultOf(text).value <= text && |ResultOf(text).value| == 2000
  {
  }

  /** Statuses and counters of the plan, the results stored for this run, and the log. */
  datatype Run = Run(st: Statuses, completed: nat, failed: nat, stored: map<StepId, Option<string>>, log: Log)

  /** The log tells which steps were started, completed and failed. */
  ghost predicate LogTied(st: Statuses, log: Log) {
    && StartedIds(log) <= st.Keys && DrainedIds(log, false) <= st.Keys && DrainedIds(log, true) <= st.Keys
    && forall id :: id in st ==>
         && (id in StartedIds(log) <==> st[id] == Running || Executed(st[id]))
         && (id in DrainedIds(log, false) <==> st[id] == Completed)
         && (id in DrainedIds(log, true) <==> st[id] == Failed)
  }

  /** The counters are the sizes of two sets of steps; exactly the steps of the first have a stored result. */
  ghost predicate Counts(outs: Outcomes, completed: nat, failed: nat, stored: map<StepId, Option<string>>,
                         done: set<StepId>, lost: set<StepId>) {
    && completed == |done| && failed == |lost|
    && stored.Keys == done
    && forall id :: id in stored ==> id in outs && stored[id] == ResultOf(outs[id].text)
  }

  /** The counters are the numbers of completed and failed steps; exactly the completed steps have a stored result. */
  ghost predicate Books(outs: Outcomes, run: Run) {
    Counts(outs, run.completed, run.failed, run.stored, DrainedIds(run.log, false), DrainedIds(run.log, true))
  }

  ghost predicate Consistent(g: Graph, outs: Outcomes, h0: seq<Outcome>, fp: Fingerprint, run: Run, live: set<StepId>) {
    && Sound(g, outs, run.st, live) && SkipsExplained(g, run.st)
    && Ordered(g, outs, h0, fp, run.log)
    && LogTied(run.st, run.log)
    && Books(outs, run)
  }

  function AfterStart(run: Run, id: StepId, round: nat): Run {
    run.(st := run.st[id := Running], log := run.log + [Started(id, round, run.stored.Keys)])
  }

  function AfterDrain(run: Run, id: StepId, o: Outcome): Run {
    var log := run.log + [Drained(id, o)];
    if o.failed then run.(st := run.st[id := Failed], failed := run.failed + 1, log := log)
    else run.(st := run.st[id := Completed], completed := run.completed + 1,
              stored := run.stored[id := ResultOf(o.text)], log := log)
  }

  lemma StartIds(log: Log, e: Event)
    requires e.Started?
    ensures StartedIds(log + [e]) == StartedIds(log) + {e.id}
    ensures DrainedIds(log + [e], false) == DrainedIds(log, false)
    ensures DrainedIds(log + [e], true) == DrainedIds(log, true)
  {
    assert (log + [e])[..|log|] == log;
  }

  lemma StartTies(run: Run, id: StepId, round: nat)
    requires LogTied(run.st, run.log) && id in run.st && run.st[id] == Pending
    ensures id !in StartedIds(run.log)
    ensures LogTied(AfterStart(run, id, round).st, AfterStart(run, id, round).log)
  {
    hide StartedIds, DrainedIds;
    StartIds(run.log, Started(id, round, run.stored.Keys));
  }

  lemma StartBooks(outs: Outcomes, run: Run, id: StepId, round: nat)
    requires Books(outs, run)
    ensures Books(outs, AfterStart(run, id, round))
  {
    hide DrainedIds;
    StartIds(run.log, Started(id, round, run.stored.Keys));
  }

  lemma StartKeeps(g: Graph, outs: Outcomes, h0: seq<Outcome>, fp: Fingerprint, run: Run, live: set<StepId>,
                   id: StepId, round: nat)
    requires Consistent(g, outs, h0, fp, run, live)
    requires IsReady(g, run.st, id) && MayContinue(h0 + Completions(run.log), fp)
    ensures Consistent(g, outs, h0, fp, AfterStart(run, id, round), live + {id})
  {
    hide LogTied, Books, Ordered, Settled, SkipsExplained, MayContinue;
    StartSound(g, outs, run.st, live, id);
    StartTies(run, id, round);
    StartBooks(outs, run, id, round);
    StartFollows(g, outs, h0, fp, run, id, round);
  }

  lemma StartFollows(g: Graph, outs: Outcomes, h0: seq<Outcome>, fp: Fingerprint, run: Run, id: StepId, round: nat)
    requires Ordered(g, outs, h0, fp, run.log) && LogTied(run.st, run.log) && Books(outs, run)
    requires IsReady(g, run.st, id) && id !in StartedIds(run.log) && MayContinue(h0 + Completions(run.log), fp)
    ensures Ordered(g, outs, h0, fp, AfterStart(run, id, round).log)
  {
    hide DrainedIds, StartedIds, MayContinue;
    var run' := AfterStart(run, id, round);
    assert run'.log[..|run'.log| - 1] == run.log;
  }

  lemma DrainTies(run: Run, id: StepId, o: Outcome)
    requires LogTied(run.st, run.log) && id in run.st && run.st[id] == Running
    ensures id in StartedIds(run.log) && id !in DrainedIds(run.log, false) && id !in DrainedIds(run.log, true)
    ensures LogTied(AfterDrain(run, id, o).st, AfterDrain(run, id, o).log)
  {
    DrainIds(run.log, id, o);
    assert (run.log + [Drained(id, o)])[..|run.log|] == run.log;
  }

  lemma DrainIds(log: Log, id: StepId, o: Outcome)
    ensures DrainedIds(log + [Drained(id, o)], o.failed) == DrainedIds(log, o.failed) + {id}
    ensures DrainedIds(log + [Drained(id, o)], !o.failed) == DrainedIds(log, !o.failed)
  {
    assert (log + [Drained(id, o)])[..|log|] == log;
  }

  lemma CountFailure(outs: Outcomes, completed: nat, failed: nat, stored: map<StepId, Option<string>>,
                     done: set<StepId>, lost: set<StepId>, id: StepId)
    requires Counts(outs, completed, failed, stored, done, lost) && id !in lost
    ensures Counts(outs, completed, failed + 1, stored, done, lost + {id})
  {
  }

  lemma CountSuccess(outs: Outcomes, completed: nat, failed: nat, stored: map<StepId, Option<string>>,
                     done: set<StepId>, lost: set<StepId>, id: StepId)
    requires Counts(outs, completed, failed, stored, done, lost) && id in outs && id !in done
    ensures Counts(outs, completed + 1, failed, stored[id := ResultOf(outs[id].text)], done + {id}, lost)
  {
  }

  lemma DrainBooks(outs: Outcomes, run: Run, id: StepId)
    requires Books(outs, run) && id in outs
    requires id !in DrainedIds(run.log, false) && id !in DrainedIds(run.log, true)
    ensures Books(outs, AfterDrain(run, id, outs[id]))
  {
    hide DrainedIds, ResultOf;
    var done, lost := DrainedIds(run.log, false), DrainedIds(run.log, true);
    DrainIds(run.log, id, outs[id]);
    if outs[id].failed {
      CountFailure(outs, run.completed, run.failed, run.stored, done, lost, id);
    } else {
      CountSuccess(outs, run.completed, run.failed, run.stored, done, lost, id);
    }
  }

  lemma DrainKeeps(g: Graph, outs: Outcomes, h0: seq<Outcome>, fp: Fingerprint, run: Run, live: set<StepId>, id: StepId)
    requires Consistent(g, outs, h0, fp, run, live)
    requires id in live && !Hazard(g, outs, id)
    ensures Consistent(g, outs, h0, fp, AfterDrain(run, id, outs[id]), live - {id})
  {
    hide LogTied, Books, SkipsExplained, Settled;
    DrainSound(g, outs, run.st, live, id);
    DrainTies(run, id, outs[id]);
    DrainBooks(outs, run, id);
    var run' := AfterDrain(run, id, outs[id]);
    assert run'.log[..|run'.log| - 1] == run.log;
  }

  lemma ScreenTies(st: Statuses, st': Statuses, log: Log)
    requires LogTied(st, log) && st'.Keys == st.Keys
    requires forall id :: id in st ==> st'[id] == st[id] || (st'[id] == Skipped && st[id] == Pending)
    ensures LogTied(st', log)
  {
  }

  lemma ScreenKeeps(g: Graph, outs: Outcomes, h0: seq<Outcome>, fp: Fingerprint, run: Run)
    requires Consistent(g, outs, h0, fp, run, {})
    ensures Consistent(g, outs, h0, fp, run.(st := SkipBlocked(g, run.st)), {})
  {
    hide LogTied, DrainedIds, Sound, SkipBlocked;
    ScreeningSound(g, outs, run.st);
    ScreenTies(run.st, SkipBlocked(g, run.st), run.log);
  }

  // ---------- One round ----------

  /** In the middle of a round over the ready steps: todo still to start, live running, the others drained. */
  ghost predicate Progress(g: Graph, outs: Outcomes, run0: Run, run: Run,
                           ready: set<StepId>, todo: set<StepId>, live: set<StepId>, round: nat) {
    && ready <= run0.st.Keys == run.st.Keys == g.Keys <= outs.Keys
    && todo <= ready && live <= ready && todo !! live
    && Keeps(run0.st, run.st)
    && (forall id {:trigger IsReady(g, run0.st, id)} :: id in ready ==> IsReady(g, run0.st, id))
    && (forall id :: id in run.st ==>
          run.st[id] == if id !in ready then run0.st[id]
                        else if id in todo then Pending else if id in live then Running else OwnStatus(outs[id]))
    && run0.log <= run.log && StartsInRound(|run0.log|, run.log, ready, round)
  }

  /** From position n on, only the given steps are started, and in the given round. */
  ghost predicate StartsInRound(n: nat, log: Log, ready: set<StepId>, round: nat) {
    n <= |log| && forall k :: n <= k < |log| && log[k].Started? ==> log[k].round == round && log[k].id in ready
  }

  /** A step that is still to start is ready in the current state too. */
  lemma StaysReady(g: Graph, outs: Outcomes, run0: Run, run: Run,
                   ready: set<StepId>, todo: set<StepId>, live: set<StepId>, round: nat, id: StepId)
    requires Progress(g, outs, run0, run, ready, todo, live, round) && id in todo
    ensures IsReady(g, run.st, id)
  {
    assert IsReady(g, run0.st, id);
    KeepsFacts(g, outs, run0.st, run.st, id);
  }

  lemma StartProgress(g: Graph, outs: Outcomes, run0: Run, run: Run,
                      ready: set<StepId>, todo: set<StepId>, live: set<StepId>, round: nat, id: StepId)
    requires Progress(g, outs, run0, run, ready, todo, live, round) && id in todo
    ensures Progress(g, outs, run0, AfterStart(run, id, round), ready, todo - {id}, live + {id}, round)
    ensures Completions(AfterStart(run, id, round).log) == Completions(run.log)
  {
    assert (run.log + [Started(id, round, run.stored.Keys)])[..|run.log|] == run.log;
  }

  lemma DrainProgress(g: Graph, outs: Outcomes, run0: Run, run: Run,
                      ready: set<StepId>, todo: set<StepId>, live: set<StepId>, round: nat, id: StepId)
    requires Progress(g, outs, run0, run, ready, todo, live, round) && id in live
    ensures Progress(g, outs, run0, AfterDrain(run, id, outs[id]), ready, todo, live - {id}, round)
    ensures Completions(AfterDrain(run, id, outs[id]).log) == Completions(run.log) + [outs[id]]
  {
    assert (run.log + [Drained(id, outs[id])])[..|run.log|] == run.log;
  }

  /** Building the prompt of the step raises: one of the quoted results has no text. */
  predicate Unquotable(g: Graph, stored: map<StepId, Option<string>>, id: StepId)
    requires id in g
  {
    exists d :: d in LastFive(g[id]) && d in stored && stored[d] == None
  }

  /** Among completed dependencies, the ones stored without text are the ones whose outcome has no text. */
  lemma PromptRaises(g: Graph, outs: Outcomes, run: Run, id: StepId)
    requires id in g && DepsCompleted(g, run.st, id) && Books(outs, run) && LogTied(run.st, run.log)
    ensures Hazard(g, outs, id) <==> Unquotable(g, run.stored, id)
  {
    forall d | d in LastFive(g[id]) ensures d in run.stored && (run.stored[d] == None <==> outs[d].text == "") {
      assert d in g[id];
    }
  }

  /** What holds between any two steps of a round. */
  ghost predicate RoundOk(g: Graph, outs: Outcomes, h0: seq<Outcome>, fp: Fingerprint, run0: Run, run: Run,
                          ready: set<StepId>, todo: set<StepId>, live: set<StepId>, round: nat) {
    Consistent(g, outs, h0, fp, run, live) && Progress(g, outs, run0, run, ready, todo, live, round)
  }

  lemma BeginRoundOk(g: Graph, outs: Outcomes, h0: seq<Outcome>, fp: Fingerprint, run: Run,
                     ready: set<StepId>, round: nat)
    requires Consistent(g, outs, h0, fp, run, {})
    requires forall id {:trigger IsReady(g, run.st, id)} :: id in ready ==> IsReady(g, run.st, id)
    ensures RoundOk(g, outs, h0, fp, run, run, ready, ready, {}, round)
  {
    forall id | id in ready ensures id in g && run.st[id] == Pending {
      assert IsReady(g, run.st, id);
    }
  }

  lemma StartRoundOk(g: Graph, outs: Outcomes, h0: seq<Outcome>, fp: Fingerprint, run0: Run, run: Run,
                     ready: set<StepId>, todo: set<StepId>, live: set<StepId>, round: nat, id: StepId)
    requires RoundOk(g, outs, h0, fp, run0, run, ready, todo, live, round) && id in todo
    requires MayContinue(h0 + Completions(run.log), fp)
    ensures RoundOk(g, outs, h0, fp, run0, AfterStart(run, id, round), ready, todo - {id}, live + {id}, round)
    ensures Completions(AfterStart(run, id, round).log) == Completions(run.log)
  {
    StaysReady(g, outs, run0, run, ready, todo, live, round, id);
    StartKeeps(g, outs, h0, fp, run, live, id, round);
    StartProgress(g, outs, run0, run, ready, todo, live, round, id);
  }

  lemma DrainRoundOk(g: Graph, outs: Outcomes, h0: seq<Outcome>, fp: Fingerprint, run0: Run, run: Run,
                     ready: set<StepId>, todo: set<StepId>, live: set<StepId>, round: nat, id: StepId)
    requires RoundOk(g, outs, h0, fp, run0, run, ready, todo, live, round) && id in live
    ensures id in g && id in outs && id in run.st && run.st[id] == Running
    ensures Hazard(g, outs, id) <==> Unquotable(g, run.stored, id)
    ensures !Hazard(g, outs, id) ==>
              RoundOk(g, outs, h0, fp, run0, AfterDrain(run, id, outs[id]), ready, todo, live - {id}, round)
  {
    assert DepsCompleted(g, run.st, id);
    PromptRaises(g, outs, run, id);
    if !Hazard(g, outs, id) {
      DrainKeeps(g, outs, h0, fp, run, live, id);
      DrainProgress(g, outs, run0, run, ready, todo, live, round, id);
    }
  }

  /** The statuses after a whole round: every ready step has its own outcome. */
  ghost function AfterRound(st: Statuses, ready: set<StepId>, outs: Outcomes): Statuses
    requires ready <= outs.Keys
  {
    map id | id in st :: if id in ready then OwnStatus(outs[id]) else st[id]
  }
}

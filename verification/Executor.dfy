/** executor.py in DAG mode: rounds of ready steps, completions in any order, two early stops. */
module Executors {
  import opened Options
  import opened PlanTypes
  import opened PlanGraph
  import opened PlanModel
  import opened RetryPolicies
  import opened StepRetry
  import opened RunModel
  import opened RunLog
  import opened RunRounds

  /** The event streams of every try of every step. */
  type Events = StepId -> (nat -> seq<StepEvent>)

  type Reports = StepId -> Tries

  ghost predicate AllReported(events: Events, reports: Reports) {
    forall id {:trigger events(id)} :: Reported(events(id), reports(id))
  }

  /** outs holds the outcome the event streams give each step of the plan. */
  ghost predicate Foretold(steps: seq<PlanStep>, maxRetries: nat, reports: Reports, outs: Outcomes) {
    forall s :: s in steps ==> s.id in outs && outs[s.id] == OutcomeOf(ConfigOf(s, maxRetries), reports(s.id))
  }

  function Head(text: string): string {
    if |text| <= 200 then text else text[..200]
  }

  /** Every listed dependency that has a stored text, with at most 200 characters of it. */
  function Quotes(ids: seq<StepId>, stored: map<StepId, Option<string>>): seq<(StepId, string)> {
    if ids == [] then
      []
    else
      var before, last := Quotes(ids[..|ids| - 1], stored), ids[|ids| - 1];
      if last in stored && stored[last].Some? then
        before + [(last, Head(stored[last].value))]
      else
        before
  }

  lemma {:induction false} QuotesOfStored(ids: seq<StepId>, stored: map<StepId, Option<string>>)
    requires forall k :: 0 <= k < |ids| ==> ids[k] in stored && stored[ids[k]].Some?
    ensures |Quotes(ids, stored)| == |ids|
    ensures forall k :: 0 <= k < |ids| ==> Quotes(ids, stored)[k] == (ids[k], Head(stored[ids[k]].value))
  {
    if ids != [] {
      QuotesOfStored(ids[..|ids| - 1], stored);
    }
  }

  /** What is stored for a quoted dependency begins like what the dependency emitted. */
  lemma QuotedText(g: Graph, outs: Outcomes, run: Run, id: StepId, d: StepId)
    requires id in g && DepsCompleted(g, run.st, id) && Books(outs, run) && LogTied(run.st, run.log)
    requires !Hazard(g, outs, id) && d in LastFive(g[id])
    ensures d in outs && d in run.stored && run.stored[d].Some? && Head(run.stored[d].value) == Head(outs[d].text)
  {
    hide StartedIds, DrainedIds;
    assert d in g[id];
    assert outs[d].text != "";
  }

  lemma LastFiveAt(ds: seq<StepId>)
    ensures |LastFive(ds)| == if |ds| < 5 then |ds| else 5
    ensures forall k :: 0 <= k < |LastFive(ds)| ==> LastFive(ds)[k] == ds[|ds| - |LastFive(ds)| + k]
  {
  }

  /** A quote of a text: all of it, or its first 200 characters. */
  predicate IsHead(quote: string, text: string) {
    if |text| <= 200 then quote == text else |quote| == 200 && quote <= text
  }

  /** The quote is of the dependency listed at this place, and a head of what it emitted. */
  predicate QuotesDependency(ds: seq<StepId>, outs: Outcomes, quote: (StepId, string), at: int) {
    0 <= at < |ds| && quote.0 == ds[at] && ds[at] in outs && IsHead(quote.1, outs[ds[at]].text)
  }

  /** The prompt of a step that may run quotes the last five of its dependencies, in their order, each with the first
      200 characters of what that step emitted; storing a result loses none of them. */
  lemma QuotesAreHeads(g: Graph, outs: Outcomes, run: Run, id: StepId)
    requires id in g && DepsCompleted(g, run.st, id) && Books(outs, run) && LogTied(run.st, run.log)
    requires !Hazard(g, outs, id)
    ensures var ds, quotes := g[id], Quotes(LastFive(g[id]), run.stored);
            && |quotes| == (if |ds| < 5 then |ds| else 5)
            && forall k :: 0 <= k < |quotes| ==> QuotesDependency(ds, outs, quotes[k], |ds| - |quotes| + k)
  {
    hide Hazard, Quotes, LastFive, Books, LogTied, DepsCompleted, Head, IsHead;
    var ds, last, quotes := g[id], LastFive(g[id]), Quotes(LastFive(g[id]), run.stored);
    LastFiveAt(ds);
    forall k | 0 <= k < |last| ensures last[k] in run.stored && run.stored[last[k]].Some? {
      QuotedText(g, outs, run, id, last[k]);
    }
    QuotesOfStored(last, run.stored);
    forall k | 0 <= k < |quotes|
      ensures QuotesDependency(ds, outs, quotes[k], |ds| - |quotes| + k)
    {
      assert last[k] == ds[|ds| - |quotes| + k] && quotes[k] == (last[k], Head(run.stored[last[k]].value));
      QuotedText(g, outs, run, id, last[k]);
      HeadIsHead(outs[last[k]].text);
    }
  }

  lemma HeadIsHead(text: string)
    ensures IsHead(Head(text), text)
  {
  }

  /** How the task of a step ends: its prompt raised, or its tries emitted a text. */
  datatype TaskEnd = PromptRaised | Finished(text: string)

  /** The end of a task is the one the outcomes foretell. */
  ghost predicate EndsAs(g: Graph, outs: Outcomes, id: StepId, end: TaskEnd) {
    id in g && id in outs &&
    match end
    case PromptRaised => Hazard(g, outs, id)
    case Finished(text) => !Hazard(g, outs, id) && text == outs[id].text
  }

  /** The steps whose tasks ended in failure. */
  ghost function EarlyOf(ended: map<StepId, TaskEnd>, outs: Outcomes): set<StepId> {
    set id | id in ended && ended[id].Finished? && id in outs && outs[id].failed
  }

  /** The ended tasks of the live steps, and the early steps among them. */
  ghost predicate Tracked(g: Graph, outs: Outcomes, live: set<StepId>, ended: map<StepId, TaskEnd>,
      early: set<StepId>) {
    && ended.Keys <= live && early == EarlyOf(ended, outs)
    && forall id :: id in ended ==> EndsAs(g, outs, id, ended[id])
  }

  class Executor {
    const maxRetries: nat
    const fingerprint: Fingerprint
    var seenFingerprints: set<int>
    var consecutiveLowGain: nat
    var consecutiveFailures: nat
    /** The step results stored in working memory under this run. */
    var stored: map<StepId, Option<string>>
    /** The completions since the last reset, and the log of the current run. */
    ghost var history: seq<Outcome>
    ghost var log: Log

    /** The counters are functions of the completions since the last reset. */
    ghost predicate Valid()
      reads this
    {
      && consecutiveFailures == TrailingFailures(history)
      && consecutiveLowGain == TrailingLowGain(history, fingerprint)
      && seenFingerprints == SeenFingerprints(history, fingerprint)
    }

    constructor (maxRetries: nat, fingerprint: Fingerprint)
      ensures Valid() && history == [] && stored == map[] && log == []
      ensures this.maxRetries == maxRetries && this.fingerprint == fingerprint
    {
      this.maxRetries, this.fingerprint := maxRetries, fingerprint;
      seenFingerprints, consecutiveLowGain, consecutiveFailures, stored := {}, 0, 0, map[];
      history, log := [], [];
    }

    method ResetForRequest()
      modifies this`seenFingerprints, this`consecutiveLowGain, this`consecutiveFailures, this`history
      ensures Valid() && history == []
    {
      seenFingerprints, consecutiveLowGain, consecutiveFailures := {}, 0, 0;
      history := [];
    }

    ghost function View(plan: Plan): Run
      reads this, plan
    {
      Run(plan.st, plan.completedSteps, plan.failedSteps, stored, log)
    }

    /** Counts a success and tracks whether it brought anything new. */
    method UpdateInfoGain(stepResult: string)
      modifies this`seenFingerprints, this`consecutiveLowGain
      ensures LowGainIn(old(seenFingerprints), stepResult) ==>
                consecutiveLowGain == old(consecutiveLowGain) + 1 && seenFingerprints == old(seenFingerprints)
      ensures !LowGainIn(old(seenFingerprints), stepResult) ==>
                consecutiveLowGain == 0 && seenFingerprints == old(seenFingerprints) + {fingerprint(stepResult)}
    {
      if stepResult == "" {
        consecutiveLowGain := consecutiveLowGain + 1;
        return;
      }
      var fp := fingerprint(stepResult);
      if fp in seenFingerprints {
        consecutiveLowGain := consecutiveLowGain + 1;
      } else {
        seenFingerprints := seenFingerprints + {fp};
        consecutiveLowGain := 0;
      }
    }

    ghost predicate LowGainIn(seen: set<int>, text: string) {
      text == "" || fingerprint(text) in seen
    }

    /** Brings the counters up to date after one completion. */
    method CountCompletion(o: Outcome)
      requires Valid()
      modifies this`seenFingerprints, this`consecutiveLowGain, this`consecutiveFailures, this`history
      ensures Valid() && history == old(history) + [o]
    {
      history := history + [o];
      assert history[..|history| - 1] == old(history);
      if o.failed {
        consecutiveFailures := consecutiveFailures + 1;
      } else {
        consecutiveFailures := 0;
        UpdateInfoGain(o.text);
      }
    }

    /** The results quoted in a step's prompt; a stored result without text cannot be sliced and raises. */
    method GetPreviousResults(dependencyIds: seq<StepId>) returns (raised: bool, parts: seq<(StepId, string)>)
      ensures raised <==> exists d :: d in LastFive(dependencyIds) && d in stored && stored[d] == None
      ensures !raised ==> parts == Quotes(LastFive(dependencyIds), stored)
    {
      raised, parts := false, [];
      var quoted := LastFive(dependencyIds);
      for i := 0 to |quoted|
        invariant forall j :: 0 <= j < i ==> !(quoted[j] in stored && stored[quoted[j]] == None)
        invariant parts == Quotes(quoted[..i], stored)
      {
        assert quoted[..i + 1][..i] == quoted[..i];
        if quoted[i] in stored {
          match stored[quoted[i]] {
            case None =>
              raised := true;
              return;
            case Some(text) =>
              parts := parts + [(quoted[i], if |text| <= 200 then text else text[..200])];
          }
        }
      }
      assert quoted[..|quoted|] == quoted;
    }

    /** Marks a step as running and notes its start. */
    method StartStep(plan: Plan, step: PlanStep, ghost round: nat)
      requires plan.Valid() && step in plan.steps
      modifies this`log, plan`st, step`status
      ensures plan.Valid() && step.status == Running
      ensures View(plan) == AfterStart(old(View(plan)), step.id, round)
    {
      plan.SetStatus(step, Running);
      log := log + [Started(step.id, round, stored.Keys)];
    }

    /** The plan's part of a booking: result, status and counters. */
    method BookOnPlan(plan: Plan, step: PlanStep, text: string) returns (failed: bool)
      requires step in plan.steps && plan.Valid()
      modifies plan`st, plan`completedSteps, plan`failedSteps, step`status, step`result
      ensures plan.Valid() && failed == (old(step.status) == Failed) && step.result == ResultOf(text)
      ensures step.status == if failed then Failed else Completed
      ensures plan.st == old(plan.st)[step.id := step.status]
      ensures plan.failedSteps == old(plan.failedSteps) + if failed then 1 else 0
      ensures plan.completedSteps == old(plan.completedSteps) + if failed then 0 else 1
    {
      step.result := ResultOf(text);
      failed := step.status == Failed;
      if failed {
        plan.failedSteps := plan.failedSteps + 1;
      } else {
        plan.SetStatus(step, Completed);
        plan.completedSteps := plan.completedSteps + 1;
      }
    }

    /** Books a step whose tries are over: its result, its status, the counters and the stored results. */
    method DrainStep(plan: Plan, step: PlanStep, text: string, ghost o: Outcome)
      requires Valid() && step in plan.steps && plan.Valid()
      requires o == Outcome(step.status == Failed, text)
      modifies this, plan, step`status, step`result
      ensures Valid() && plan.Valid() && history == old(history) + [o]
      ensures step.status == OwnStatus(o) && step.result == ResultOf(text)
      ensures View(plan) == AfterDrain(old(View(plan)), step.id, o) && plan.deps == old(plan.deps)
    {
      hide TrailingFailures, TrailingLowGain, SeenFingerprints, Completions;
      var failed := BookOnPlan(plan, step, text);
      if !failed {
        stored := stored[step.id := step.result];
      }
      log := log + [Drained(step.id, o)];
      CountCompletion(Outcome(failed, text));
    }

    /** Building the prompt of a step. */
    method BuildPrompt(plan: Plan, step: PlanStep) returns (raised: bool)
      requires plan.Valid() && step in plan.steps
      ensures raised <==> Unquotable(plan.deps, stored, step.id)
    {
      var parts;
      raised, parts := GetPreviousResults(step.dependencies);
    }

    /** The task of a running step, up to its end: the prompt raises, or the tries come to their verdict. A verdict of
        failure is marked on the step at once; nothing is booked yet. */
    method RunTask(plan: Plan, step: PlanStep, events: Events, jitters: nat -> Jitter,
                   ghost reports: Reports, ghost outs: Outcomes)
      returns (end: TaskEnd)
      requires plan.Valid() && step in plan.steps && step.status == Running
      requires AllReported(events, reports) && Foretold(plan.steps, maxRetries, reports, outs)
      requires Hazard(plan.deps, outs, step.id) <==> Unquotable(plan.deps, stored, step.id)
      modifies plan`st, step
      ensures plan.Valid() && EndsAs(plan.deps, outs, step.id, end)
      ensures plan.st == old(plan.st)[step.id := if end.Finished? && outs[step.id].failed then Failed else Running]
    {
      hide Unquotable, Hazard, Judge, EmittedText, ConfigOf;
      var raised := BuildPrompt(plan, step);
      if raised {
        return PromptRaised;
      }
      ghost var slept, hints;
      var text;
      text, slept, hints := ExecuteStepWithRetry(step, maxRetries, events(step.id), jitters, reports(step.id));
      plan.st := plan.st[step.id := step.status];
      end := Finished(text);
    }

    /** The executor's bookkeeping and the plan agree with the abstract state of a run. */
    ghost predicate Represents(plan: Plan, reports: Reports, outs: Outcomes, h0: seq<Outcome>, run: Run)
      reads this, plan, plan.steps
    {
      && Valid() && plan.Valid()
      && Foretold(plan.steps, maxRetries, reports, outs)
      && View(plan) == run
      && history == h0 + Completions(run.log)
    }

    /** Starts one step of a round. */
    method BeginOne(plan: Plan, step: PlanStep, ghost reports: Reports, ghost outs: Outcomes, ghost h0: seq<Outcome>,
                    ghost run: Run, ghost round: nat)
      returns (ghost run': Run)
      requires Represents(plan, reports, outs, h0, run) && step in plan.steps
      modifies this`log, plan`st, step`status
      ensures run' == AfterStart(run, step.id, round) && Represents(plan, reports, outs, h0, run')
      ensures plan.deps == old(plan.deps)
    {
      hide TrailingFailures, TrailingLowGain, SeenFingerprints, Foretold, Completions;
      StartStep(plan, step, round);
      run' := AfterStart(run, step.id, round);
      CompletionsKept(run, step.id, round);
    }

    /** The same in the middle of a round: the early steps are marked as failed, though not booked. */
    ghost predicate Awaits(plan: Plan, reports: Reports, outs: Outcomes, h0: seq<Outcome>, run: Run, early: set<StepId>)
      reads this, plan, plan.steps
    {
      Represents(plan, reports, outs, h0, run.(st := Marked(run.st, early)))
    }

    lemma StartsUnmarked(plan: Plan, reports: Reports, outs: Outcomes, h0: seq<Outcome>, run: Run)
      requires Represents(plan, reports, outs, h0, run)
      ensures Awaits(plan, reports, outs, h0, run, {})
    {
      hide Represents;
      NothingMarked(run);
    }

    lemma EndsUnmarked(plan: Plan, reports: Reports, outs: Outcomes, h0: seq<Outcome>, run: Run)
      requires Awaits(plan, reports, outs, h0, run, {})
      ensures Represents(plan, reports, outs, h0, run)
    {
      hide Represents;
      NothingMarked(run);
    }

    /** The task of one live step ends. */
    method EndTask(plan: Plan, step: PlanStep, events: Events, jitters: nat -> Jitter, ghost reports: Reports,
                   ghost outs: Outcomes, ghost h0: seq<Outcome>, ghost run: Run, ghost early: set<StepId>)
      returns (end: TaskEnd)
      requires AllReported(events, reports) && Awaits(plan, reports, outs, h0, run, early)
      requires step in plan.steps && run.st[step.id] == Running && step.id !in early
      requires Hazard(plan.deps, outs, step.id) <==> Unquotable(plan.deps, run.stored, step.id)
      modifies plan`st, step
      ensures EndsAs(plan.deps, outs, step.id, end)
      ensures Awaits(plan, reports, outs, h0, run,
                     early + if end.Finished? && outs[step.id].failed then {step.id} else {})
    {
      hide TrailingFailures, TrailingLowGain, SeenFingerprints;
      end := RunTask(plan, step, events, jitters, reports, outs);
      ghost var early' := early + if end.Finished? && outs[step.id].failed then {step.id} else {};
      assert plan.st == Marked(run.st, early');
    }

    /** One ended task is booked. */
    method BookOne(plan: Plan, step: PlanStep, text: string, ghost reports: Reports,
                   ghost outs: Outcomes, ghost h0: seq<Outcome>, ghost run: Run, ghost early: set<StepId>)
      returns (ghost run': Run)
      requires Awaits(plan, reports, outs, h0, run, early)
      requires step in plan.steps && step.id in run.st && step.id in outs
      requires run.st[step.id] == Running && text == outs[step.id].text
      requires step.id in early <==> outs[step.id].failed
      modifies this, plan, step`status, step`result
      ensures run' == AfterDrain(run, step.id, outs[step.id])
      ensures Awaits(plan, reports, outs, h0, run', early - {step.id}) && plan.deps == old(plan.deps)
    {
      hide TrailingFailures, TrailingLowGain, SeenFingerprints, Foretold, Marked, AfterDrain, Completions;
      MarkedAt(run, early, step.id);
      DrainStep(plan, step, text, outs[step.id]);
      run' := AfterDrain(run, step.id, outs[step.id]);
      MarkedDrain(run, step.id, outs[step.id], early);
      CompletionsAfter(run, step.id, outs[step.id]);
    }

    /** Starts a step of a round, keeping what holds between the steps of a round. */
    method StartNext(plan: Plan, step: PlanStep, ghost reports: Reports, ghost outs: Outcomes, ghost h0: seq<Outcome>,
                     ghost run0: Run, ghost run: Run, ghost ready: set<StepId>, ghost todo: set<StepId>,
                         ghost round: nat)
      returns (ghost run': Run)
      requires Represents(plan, reports, outs, h0, run) && step in plan.steps && todo <= ready && step.id in todo
      requires MayContinue(h0 + Completions(run.log), fingerprint)
      requires RoundOk(plan.deps, outs, h0, fingerprint, run0, run, ready, todo, ready - todo, round)
      modifies this`log, plan`st, step`status
      ensures plan.deps == old(plan.deps)
      ensures Represents(plan, reports, outs, h0, run')
      ensures MayContinue(h0 + Completions(run'.log), fingerprint)
      ensures RoundOk(plan.deps, outs, h0, fingerprint, run0, run', ready,
                      todo - {step.id}, ready - (todo - {step.id}), round)
    {
      hide TrailingFailures, TrailingLowGain, SeenFingerprints;
      StartRoundOk(plan.deps, outs, h0, fingerprint, run0, run, ready, todo, ready - todo, round, step.id);
      assert ready - (todo - {step.id}) == ready - todo + {step.id};
      run' := BeginOne(plan, step, reports, outs, h0, run, round);
    }

    /** All steps of a round are marked running before any of their tries begins. */
    method StartAll(plan: Plan, steps: seq<PlanStep>, ghost reports: Reports, ghost outs: Outcomes,
                    ghost h0: seq<Outcome>, ghost run0: Run, ghost ready: set<StepId>, ghost round: nat)
      returns (ghost run: Run)
      requires Represents(plan, reports, outs, h0, run0) && MayContinue(h0 + Completions(run0.log), fingerprint)
      requires RoundOk(plan.deps, outs, h0, fingerprint, run0, run0, ready, ready, {}, round)
      requires Lists(plan, steps, ready)
      modifies this`log, plan`st, plan.steps
      ensures plan.deps == old(plan.deps)
      ensures Represents(plan, reports, outs, h0, run)
      ensures RoundOk(plan.deps, outs, h0, fingerprint, run0, run, ready, {}, ready, round)
    {
      hide Represents, RoundOk, MayContinue;
      run := run0;
      ghost var todo := ready;
      assert ready - todo == {};
      for i := 0 to |steps|
        invariant plan.deps == old(plan.deps) && MayContinue(h0 + Completions(run.log), fingerprint)
        invariant Represents(plan, reports, outs, h0, run)
        invariant RoundOk(plan.deps, outs, h0, fingerprint, run0, run, ready, todo, ready - todo, round)
        invariant todo <= ready && Lists(plan, steps[i..], todo)
      {
        var step := steps[i];
        ListsHead(plan, steps[i..], todo);
        run := StartNext(plan, step, reports, outs, h0, run0, run, ready, todo, round);
        todo := todo - {step.id};
        assert steps[i..][1..] == steps[i + 1..];
      }
      assert todo == {} && ready - todo == ready;
    }

    /** The task of a live step of a round ends. */
    method EndNext(plan: Plan, step: PlanStep, events: Events, jitters: nat -> Jitter,
                   ghost reports: Reports, ghost outs: Outcomes, ghost h0: seq<Outcome>, ghost run0: Run,
                   ghost run: Run, ghost ready: set<StepId>, ghost live: set<StepId>, ghost early: set<StepId>,
                   ghost round: nat)
      returns (end: TaskEnd)
      requires AllReported(events, reports) && Awaits(plan, reports, outs, h0, run, early)
      requires step in plan.steps && step.id in live && step.id !in early
      requires RoundOk(plan.deps, outs, h0, fingerprint, run0, run, ready, {}, live, round)
      modifies plan`st, step
      ensures EndsAs(plan.deps, outs, step.id, end)
      ensures Awaits(plan, reports, outs, h0, run,
                     early + if end.Finished? && outs[step.id].failed then {step.id} else {})
    {
      hide TrailingFailures, TrailingLowGain, SeenFingerprints;
      DrainRoundOk(plan.deps, outs, h0, fingerprint, run0, run, ready, {}, live, round, step.id);
      end := EndTask(plan, step, events, jitters, reports, outs, h0, run, early);
    }

    /** An ended task of a round is booked, keeping what holds between the steps of a round. */
    method BookNext(plan: Plan, step: PlanStep, text: string, ghost reports: Reports,
                    ghost outs: Outcomes, ghost h0: seq<Outcome>, ghost run0: Run,
                    ghost run: Run, ghost ready: set<StepId>, ghost live: set<StepId>, ghost early: set<StepId>,
                    ghost round: nat)
      returns (ghost run': Run)
      requires Awaits(plan, reports, outs, h0, run, early)
      requires step in plan.steps && step.id in live && EndsAs(plan.deps, outs, step.id, Finished(text))
      requires step.id in early <==> outs[step.id].failed
      requires RoundOk(plan.deps, outs, h0, fingerprint, run0, run, ready, {}, live, round)
      modifies this, plan, step`status, step`result
      ensures Awaits(plan, reports, outs, h0, run', early - {step.id}) && plan.deps == old(plan.deps)
      ensures RoundOk(plan.deps, outs, h0, fingerprint, run0, run', ready, {}, live - {step.id}, round)
    {
      hide TrailingFailures, TrailingLowGain, SeenFingerprints;
      DrainRoundOk(plan.deps, outs, h0, fingerprint, run0, run, ready, {}, live, round, step.id);
      run' := BookOne(plan, step, text, reports, outs, h0, run, early);
    }

    /** The tasks of the running steps end, and are booked after their end, in any order; the first one booked that
        raised ends the round. */
    method FinishAll(plan: Plan, steps: seq<PlanStep>, events: Events, jitters: nat -> Jitter,
                     ghost reports: Reports, ghost outs: Outcomes, ghost h0: seq<Outcome>,
                     ghost run0: Run, ghost run1: Run, ghost ready: set<StepId>, ghost round: nat)
      returns (raised: bool, ghost run: Run, ghost live: set<StepId>, ghost early: set<StepId>, ghost culprit: StepId)
      requires AllReported(events, reports) && Represents(plan, reports, outs, h0, run1)
      requires RoundOk(plan.deps, outs, h0, fingerprint, run0, run1, ready, {}, ready, round)
      requires Lists(plan, steps, ready)
      modifies this, plan, plan.steps
      ensures plan.deps == old(plan.deps)
      ensures Awaits(plan, reports, outs, h0, run, early)
      ensures RoundOk(plan.deps, outs, h0, fingerprint, run0, run, ready, {}, live, round)
      ensures early <= live && forall id :: id in early ==> id in outs && outs[id].failed
      ensures raised ==>
                culprit in live && culprit !in early && culprit in plan.deps && Hazard(plan.deps, outs, culprit)
      ensures !raised ==> live == {}
    {
      hide TrailingFailures, TrailingLowGain, SeenFingerprints, Awaits, Represents, RoundOk, Tracked;
      ghost var g := plan.deps;
      var pending, ended: map<StepId, TaskEnd> := steps, map[];
      TrackNone(g, outs, ready);
      run, live, early, culprit, raised := run1, ready, {}, Null, false;
      StartsUnmarked(plan, reports, outs, h0, run1);
      while pending != []
        invariant plan.deps == g
        invariant Awaits(plan, reports, outs, h0, run, early)
        invariant RoundOk(plan.deps, outs, h0, fingerprint, run0, run, ready, {}, live, round)
        invariant Lists(plan, pending, live)
        invariant Tracked(g, outs, live, ended, early)
        decreases |pending|, |live - ended.Keys|
      {
        var k :| 0 <= k < |pending|;
        var step := pending[k];
        ListsWithout(plan, pending, live, k);
        TrackedFacts(g, outs, live, ended, early, step.id);
        if step.id !in ended {
          var end := EndNext(plan, step, events, jitters, reports, outs, h0, run0, run, ready, live, early, round);
          TrackEnd(g, outs, live, ended, early, step.id, end);
          ended, early := ended[step.id := end], early + if end.Finished?
              && outs[step.id].failed then {step.id} else {};
        } else if ended[step.id].PromptRaised? {
          culprit, raised := step.id, true;
          return;
        } else {
          TrackBooking(g, outs, live, ended, early, step.id);
          run := BookNext(plan, step, ended[step.id].text, reports, outs, h0, run0, run, ready, live, early, round);
          live, pending := live - {step.id}, pending[..k] + pending[k + 1..];
          ended, early := ended - {step.id}, early - {step.id};
        }
      }
      TrackedFacts(g, outs, live, ended, early, Null);
    }

    /** One round over the ready steps, one step or several. */
    method ExecuteRound(plan: Plan, steps: seq<PlanStep>, events: Events, jitters: nat -> Jitter,
                        ghost reports: Reports, ghost outs: Outcomes, ghost h0: seq<Outcome>,
                        ghost depth: map<StepId, nat>, ghost run0: Run, ghost ready: set<StepId>, ghost round: nat)
      returns (raised: bool, ghost run: Run, ghost live: set<StepId>, ghost early: set<StepId>, ghost culprit: StepId)
      requires AllReported(events, reports) && Represents(plan, reports, outs, h0, run0)
      requires BetweenRounds(plan.deps, outs, h0, fingerprint, depth, run0, round)
      requires MayContinue(h0 + Completions(run0.log), fingerprint)
      requires forall id {:trigger IsReady(plan.deps, run0.st, id)} :: id in ready ==> IsReady(plan.deps, run0.st, id)
      requires Lists(plan, steps, ready)
      modifies this, plan, plan.steps
      ensures plan.deps == old(plan.deps)
      ensures Awaits(plan, reports, outs, h0, run, early)
      ensures RoundOk(plan.deps, outs, h0, fingerprint, run0, run, ready, {}, live, round)
      ensures early <= live && forall id :: id in early ==> id in outs && outs[id].failed
      ensures raised ==>
                culprit in live && culprit !in early && culprit in plan.deps && Hazard(plan.deps, outs, culprit)
      ensures !raised ==> live == {} && Represents(plan, reports, outs, h0, run)
    {
      hide TrailingFailures, TrailingLowGain, SeenFingerprints, Represents, Awaits, RoundOk;
      BeginRoundOk(plan.deps, outs, h0, fingerprint, run0, ready, round);
      ghost var run1 := StartAll(plan, steps, reports, outs, h0, run0, ready, round);
      raised, run, live, early, culprit :=
        FinishAll(plan, steps, events, jitters, reports, outs, h0, run0, run1, ready, round);
      if !raised {
        assert early == {};
        EndsUnmarked(plan, reports, outs, h0, run);
      }
    }

    /** Skips every step that is still pending. */
    method SkipRemaining(plan: Plan, ghost reports: Reports, ghost outs: Outcomes, ghost h0: seq<Outcome>,
        ghost run: Run)
      returns (ghost run': Run)
      requires Represents(plan, reports, outs, h0, run)
      modifies plan`st, plan.steps
      ensures plan.deps == old(plan.deps)
      ensures run' == run.(st := SkipPending(run.st)) && Represents(plan, reports, outs, h0, run')
    {
      hide TrailingFailures, TrailingLowGain, SeenFingerprints;
      for i := 0 to |plan.steps|
        invariant plan.Valid() && plan.st.Keys == run.st.Keys
        invariant forall j :: 0 <= j < |plan.steps| ==>
                    plan.st[plan.steps[j].id] ==
                    if j < i then SkipPending(run.st)[plan.steps[j].id] else run.st[plan.steps[j].id]
      {
        if plan.steps[i].status == Pending {
          plan.SetStatus(plan.steps[i], Skipped);
        }
      }
      forall id | id in plan.st ensures plan.st[id] == SkipPending(run.st)[id] {
        assert plan.Names(id);
      }
      run' := run.(st := SkipPending(run.st));
    }

    /** Collects the ready steps and keeps what holds between rounds. */
    method CollectReady(plan: Plan, ghost reports: Reports, ghost outs: Outcomes, ghost h0: seq<Outcome>,
                        ghost depth: map<StepId, nat>, ghost run0: Run, ghost rounds: nat)
      returns (steps: seq<PlanStep>, ghost run: Run, ghost ready: set<StepId>)
      requires Represents(plan, reports, outs, h0, run0)
      requires BetweenRounds(plan.deps, outs, h0, fingerprint, depth, run0, rounds)
      modifies plan`st, plan.steps
      ensures plan.deps == old(plan.deps)
      ensures Represents(plan, reports, outs, h0, run)
      ensures BetweenRounds(plan.deps, outs, h0, fingerprint, depth, run, rounds)
      ensures |PendingIds(run.st)| <= |PendingIds(run0.st)|
      ensures Lists(plan, steps, ready)
      ensures forall id {:trigger IsReady(plan.deps, run.st, id)} :: id in ready <==> IsReady(plan.deps, run.st, id)
    {
      hide ReadyAmong, SkipBlocked, Consistent, OnSchedule;
      ScreenBetweenRounds(plan.deps, outs, h0, fingerprint, depth, run0, rounds);
      steps := plan.GetReadySteps();
      run := run0.(st := SkipBlocked(plan.deps, run0.st));
      ready := ReadyIds(plan, steps, run0.st);
    }

    /** Runs the plan round by round until no step is left, nothing is ready, an early stop applies, or a prompt
        cannot be built. */
    method ExecuteFrom(plan: Plan, events: Events, jitters: nat -> Jitter, ghost reports: Reports,
                       ghost outs: Outcomes, ghost depth: map<StepId, nat>, ghost run0: Run)
      returns (raised: bool, ghost stop: Stop, ghost rounds: nat)
      requires AllReported(events, reports) && Represents(plan, reports, outs, history, run0)
      requires BetweenRounds(plan.deps, outs, history, fingerprint, depth, run0, 0)
      modifies this, plan, plan.steps
      ensures Represents(plan, reports, outs, old(history), View(plan)) && plan.deps == old(plan.deps)
      ensures Concluded(plan.deps, outs, old(history), fingerprint, depth, View(plan), rounds, stop)
      ensures raised <==> stop.Raised?
    {
      hide TrailingFailures, TrailingLowGain, SeenFingerprints, BetweenRounds, Concluded;
      ghost var h0 := history;
      ghost var run := run0;
      rounds, raised := 0, false;
      while true
        invariant plan.deps == old(plan.deps) && Represents(plan, reports, outs, h0, run)
        invariant BetweenRounds(plan.deps, outs, h0, fingerprint, depth, run, rounds)
        decreases |PendingIds(run.st)|
      {
        if plan.IsComplete() {
          stop := AllDone;
          AllStepsTerminal(plan, run.st);
          ConcludeAllDone(plan.deps, outs, h0, fingerprint, depth, run, rounds);
          return;
        }
        ghost var ready;
        var steps;
        steps, run, ready := CollectReady(plan, reports, outs, h0, depth, run, rounds);
        if steps == [] {
          ConcludeDeadlock(plan.deps, outs, h0, fingerprint, depth, run, rounds);
          stop := if exists id :: id in run.st && run.st[id] == Pending then Deadlock else AllDone;
          run := SkipRemaining(plan, reports, outs, h0, run);
          return;
        }
        if consecutiveFailures >= MAX_CONSECUTIVE_FAILURES {
          ConcludeStop(plan.deps, outs, h0, fingerprint, depth, run, rounds);
          stop := Breaker;
          run := SkipRemaining(plan, reports, outs, h0, run);
          return;
        }
        if consecutiveLowGain >= MAX_LOW_GAIN_STEPS {
          ConcludeStop(plan.deps, outs, h0, fingerprint, depth, run, rounds);
          stop := LowGainStop;
          run := SkipRemaining(plan, reports, outs, h0, run);
          return;
        }
        ghost var before := run;
        ghost var live, early, culprit;
        raised, run, live, early, culprit :=
          ExecuteRound(plan, steps, events, jitters, reports, outs, h0, depth, run, ready, rounds);
        if raised {
          stop := Raised(culprit, live, early);
          ConcludeRaise(plan.deps, outs, h0, fingerprint, depth, before, run, ready, live, early, rounds, culprit);
          return;
        }
        RoundBetweenRounds(plan.deps, outs, h0, fingerprint, depth, before, run, ready, rounds);
        rounds := rounds + 1;
      }
    }

    /** Executes a fresh plan under a fresh run of the working memory. */
    method Execute(plan: Plan, events: Events, jitters: nat -> Jitter, ghost depth: map<StepId, nat>)
      returns (raised: bool, ghost outs: Outcomes, ghost stop: Stop, ghost rounds: nat)
      requires Valid() && plan.Valid() && stored == map[]
      requires plan.completedSteps == plan.failedSteps == 0 && forall s :: s in plan.steps ==> s.status == Pending
      modifies this, plan, plan.steps
      ensures Valid() && plan.Valid() && plan.deps == old(plan.deps)
      ensures Foretold(plan.steps, maxRetries, ReportsOf(events), outs)
      ensures Concluded(plan.deps, outs, old(history), fingerprint, depth, View(plan), rounds, stop)
      ensures history == old(history) + Completions(log)
      ensures raised <==> stop.Raised?
    {
      hide TrailingFailures, TrailingLowGain, SeenFingerprints;
      log := [];
      outs := ForeseenOutcomes(plan, maxRetries, ReportsOf(events));
      forall id | id in plan.st ensures plan.st[id] == Pending {
        assert plan.Names(id);
      }
      FreshRun(plan.deps, outs, history, fingerprint, depth, View(plan));
      raised, stop, rounds := ExecuteFrom(plan, events, jitters, ReportsOf(events), outs, depth, View(plan));
    }
  }

  lemma NothingMarked(run: Run)
    ensures run.(st := Marked(run.st, {})) == run
  {
    assert Marked(run.st, {}) == run.st;
  }

  lemma MarkedAt(run: Run, early: set<StepId>, id: StepId)
    requires id in run.st
    ensures var st := Marked(run.st, early); id in st && st[id] == if id in early then Failed else run.st[id]
  {
  }

  /** A start completes nothing. */
  lemma CompletionsKept(run: Run, id: StepId, round: nat)
    ensures Completions(AfterStart(run, id, round).log) == Completions(run.log)
  {
    assert AfterStart(run, id, round).log[..|run.log|] == run.log;
  }

  lemma CompletionsAfter(run: Run, id: StepId, o: Outcome)
    ensures Completions(AfterDrain(run, id, o).log) == Completions(run.log) + [o]
  {
    assert AfterDrain(run, id, o).log[..|run.log|] == run.log;
  }

  /** Booking a step that was marked early, or not, takes it off the early ones. */
  lemma MarkedDrain(run: Run, id: StepId, o: Outcome, early: set<StepId>)
    requires id in run.st
    ensures AfterDrain(run.(st := Marked(run.st, early)), id, o)
         == AfterDrain(run, id, o).(st := Marked(AfterDrain(run, id, o).st, early - {id}))
  {
    assert Marked(run.st, early)[id := OwnStatus(o)] == Marked(run.st[id := OwnStatus(o)], early - {id});
  }

  lemma TrackNone(g: Graph, outs: Outcomes, live: set<StepId>)
    ensures Tracked(g, outs, live, map[], {})
  {
  }

  lemma TrackedFacts(g: Graph, outs: Outcomes, live: set<StepId>, ended: map<StepId, TaskEnd>, early: set<StepId>,
                     id: StepId)
    requires Tracked(g, outs, live, ended, early)
    ensures early <= live && forall x :: x in early ==> x in outs && outs[x].failed
    ensures id !in ended ==> id !in early
    ensures id in ended ==> EndsAs(g, outs, id, ended[id]) && id in g && id in outs
    ensures id in ended && ended[id].PromptRaised? ==> Hazard(g, outs, id) && id !in early
    ensures id in ended && ended[id].Finished? ==> (id in early <==> outs[id].failed)
  {
    hide Hazard;
  }

  lemma TrackEnd(g: Graph, outs: Outcomes, live: set<StepId>, ended: map<StepId, TaskEnd>, early: set<StepId>,
                 id: StepId, end: TaskEnd)
    requires Tracked(g, outs, live, ended, early) && id in live && id !in ended && EndsAs(g, outs, id, end)
    ensures Tracked(g, outs, live, ended[id := end], early + if end.Finished? && outs[id].failed then {id} else {})
    ensures |live - ended[id := end].Keys| < |live - ended.Keys|
  {
    hide EndsAs, EarlyOf;
    ShrinksBy(live - ended.Keys, live - ended[id := end].Keys, id);
    EndsInOuts(g, outs, id, end);
    EarlyOfMore(outs, ended, id, end);
  }

  lemma EarlyOfMore(outs: Outcomes, ended: map<StepId, TaskEnd>, id: StepId, end: TaskEnd)
    requires id !in ended && id in outs
    ensures EarlyOf(ended[id := end], outs)
         == EarlyOf(ended, outs) + if end.Finished? && outs[id].failed then {id} else {}
  {
  }

  lemma EndsInOuts(g: Graph, outs: Outcomes, id: StepId, end: TaskEnd)
    requires EndsAs(g, outs, id, end)
    ensures id in outs
  {
  }

  lemma TrackBooking(g: Graph, outs: Outcomes, live: set<StepId>, ended: map<StepId, TaskEnd>, early: set<StepId>,
                     id: StepId)
    requires Tracked(g, outs, live, ended, early)
    ensures Tracked(g, outs, live - {id}, ended - {id}, early - {id})
  {
    hide EndsAs;
  }

  lemma ShrinksBy(a: set<StepId>, b: set<StepId>, x: StepId)
    requires x in a && b == a - {x}
    ensures |b| < |a|
  {
  }

  ghost function ReportsOf(events: Events): Reports {
    id => ((k: nat) => ReportOf(events(id)(k)))
  }

  lemma ForeseenOutcomes(plan: Plan, maxRetries: nat, reports: Reports) returns (outs: Outcomes)
    requires plan.Valid()
    ensures Foretold(plan.steps, maxRetries, reports, outs) && outs.Keys == plan.st.Keys
  {
    hide OutcomeOf, ConfigOf;
    outs := map[];
    for i := 0 to |plan.steps|
      invariant forall j :: 0 <= j < i ==> plan.steps[j].id in outs
      invariant forall j :: 0 <= j < i ==>
                  outs[plan.steps[j].id] == OutcomeOf(ConfigOf(plan.steps[j], maxRetries), reports(plan.steps[j].id))
      invariant forall id :: id in outs ==> id in plan.st
    {
      outs := outs[plan.steps[i].id :=
                   OutcomeOf(ConfigOf(plan.steps[i], maxRetries), reports(plan.steps[i].id))];
    }
    forall id | id in plan.st ensures id in outs {
      assert plan.Names(id);
    }
  }

  lemma ReadyIds(plan: Plan, steps: seq<PlanStep>, st: Statuses) returns (ready: set<StepId>)
    requires plan.Valid() && st.Keys == plan.deps.Keys && plan.st == SkipBlocked(plan.deps, st)
    requires steps == ReadyAmong(plan.steps, plan.deps, st)
    ensures Lists(plan, steps, ready)
    ensures forall id {:trigger IsReady(plan.deps, plan.st, id)} :: id in ready <==> IsReady(plan.deps, plan.st, id)
  {
    hide ReadyAmong, SkipBlocked, DepsCompleted, Screened;
    ReadyAmongDistinct(plan.steps, plan.deps, st);
    forall s: PlanStep ensures s in steps <==> s in plan.steps && IsReady(plan.deps, st, s.id) {
      ReadyAmongMember(plan.steps, plan.deps, st, s);
    }
    ready := {};
    for i := 0 to |steps|
      invariant |ready| == i && forall id :: id in ready <==> exists j :: 0 <= j < i && steps[j].id == id
    {
      ready := ready + {steps[i].id};
    }
    ScreeningShrinks(plan.deps, st);
    forall id ensures id in ready <==> IsReady(plan.deps, plan.st, id) {
      if IsReady(plan.deps, plan.st, id) {
        assert plan.Names(id);
        assert IsReady(plan.deps, st, id);
        var s :| s in plan.steps && s.id == id;
        assert s in steps;
      }
      if id in ready {
        var j :| 0 <= j < |steps| && steps[j].id == id;
        assert steps[j] in steps;
        assert IsReady(plan.deps, st, id);
      }
    }
  }

  lemma AllStepsTerminal(plan: Plan, st: Statuses)
    requires plan.Valid() && plan.st == st && plan.IsComplete()
    ensures forall id :: id in st ==> Terminal(st[id])
  {
    forall id | id in st ensures Terminal(st[id]) {
      assert plan.Names(id);
    }
  }

  /** The steps carry exactly the given identifiers, each once. */
  ghost predicate Lists(plan: Plan, steps: seq<PlanStep>, ids: set<StepId>) {
    && Plan.DistinctIds(steps) && |steps| == |ids|
    && forall j :: 0 <= j < |steps| ==> steps[j] in plan.steps && steps[j].id in ids
  }

  lemma ListsHead(plan: Plan, steps: seq<PlanStep>, ids: set<StepId>)
    requires Lists(plan, steps, ids) && steps != []
    ensures steps[0] in plan.steps && steps[0].id in ids && Lists(plan, steps[1..], ids - {steps[0].id})
  {
  }

  lemma ListsWithout(plan: Plan, steps: seq<PlanStep>, ids: set<StepId>, k: nat)
    requires Lists(plan, steps, ids) && k < |steps|
    ensures steps[k] in plan.steps && steps[k].id in ids
    ensures Lists(plan, steps[..k] + steps[k + 1..], ids - {steps[k].id})
  {
    var rest := steps[..k] + steps[k + 1..];
    assert forall j :: 0 <= j < |rest| ==> rest[j] == steps[if j < k then j else j + 1];
  }
}

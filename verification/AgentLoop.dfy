/** loop.py's planning and execution phases: the plan is rebuilt from the planner's events and then executed. */
module AgentLoop {
  import opened PlanTypes
  import opened PlanGraph
  import opened PlanModel
  import opened PlanParser
  import opened Planner
  import opened RetryPolicies
  import opened RunModel
  import opened RunLog
  import opened RunRounds
  import opened Executors

  /** Python's truth value of an identifier: a step without one is not rebuilt. */
  predicate Truthy(id: StepId) {
    match id
    case Text(s) => s != ""
    case Number(n) => n != 0
    case Null => false
  }

  ghost function Surviving(g: Graph): Graph {
    map id | id in g && Truthy(id) :: g[id]
  }

  /** Rebuilding keeps a plan acyclic; its dependencies still exist exactly when no surviving step depends on one
      that was dropped. */
  lemma SurvivingIsSound(g: Graph)
    requires Closed(g) && Acyclic(g)
    ensures Acyclic(Surviving(g))
    ensures Closed(Surviving(g)) <==> forall id, d :: id in g && Truthy(id) && d in g[id] ==> Truthy(d)
  {
    var rank :| Ranked(g, rank);
    assert Ranked(Surviving(g), rank);
    if Closed(Surviving(g)) {
      forall id, d | id in g && Truthy(id) && d in g[id] ensures Truthy(d) {
        assert id in Surviving(g) && d in Surviving(g)[id];
        assert d in Surviving(g);
      }
    }
  }

  /** A step that depended on a dropped one is skipped, whatever the outcomes: it deadlocks behind no failure. */
  lemma OrphansAreSkipped(g: Graph, outs: Outcomes, rank: map<StepId, nat>, id: StepId, d: StepId)
    requires Ranked(Surviving(g), rank) && Surviving(g).Keys <= outs.Keys
    requires id in g && Truthy(id) && d in g[id] && !Truthy(d)
    ensures Expected(Surviving(g), outs, rank, id) == Skipped
  {
    assert d in Surviving(g)[id] && d !in Surviving(g);
  }

  /** The steps with a truthy identifier, in their order. */
  ghost function TruthySteps(steps: seq<PlanStep>): seq<PlanStep> {
    if steps == [] then
      []
    else
      var before, last := TruthySteps(steps[..|steps| - 1]), steps[|steps| - 1];
      if Truthy(last.id) then before + [last] else before
  }

  /** A fresh start of the same step. */
  ghost predicate IsCopy(copy: PlanStep, step: PlanStep)
    reads copy, step
  {
    && copy.id == step.id && copy.description == step.description && copy.dependencies == step.dependencies
    && copy.toolHint == step.toolHint && copy.retryStrategy == step.retryStrategy
    && copy.fallbackTool == step.fallbackTool && copy.fallbackChain == [] && copy.status == Pending
  }

  ghost predicate AreCopies(copies: seq<PlanStep>, steps: seq<PlanStep>)
    reads copies, steps
  {
    |copies| == |steps| && forall k :: 0 <= k < |copies| ==> IsCopy(copies[k], steps[k])
  }

  lemma {:induction false} TruthyStepsMember(steps: seq<PlanStep>, s: PlanStep)
    ensures s in TruthySteps(steps) <==> s in steps && Truthy(s.id)
  {
    hide Truthy;
    if steps != [] {
      TruthyStepsMember(steps[..|steps| - 1], s);
      assert s in steps <==> s in steps[..|steps| - 1] || s == steps[|steps| - 1];
    }
  }

  lemma {:induction false} TruthyStepsDistinct(steps: seq<PlanStep>)
    requires Plan.DistinctIds(steps)
    ensures Plan.DistinctIds(TruthySteps(steps))
  {
    hide Truthy;
    if steps != [] {
      var front, last := steps[..|steps| - 1], steps[|steps| - 1];
      var before := TruthySteps(front);
      assert forall i :: 0 <= i < |front| ==> front[i] == steps[i];
      TruthyStepsDistinct(front);
      forall k | 0 <= k < |before| ensures before[k].id != last.id {
        TruthyStepsMember(front, before[k]);
        var i :| 0 <= i < |front| && front[i] == before[k];
      }
    }
  }

  method CopyStep(step: PlanStep) returns (copy: PlanStep)
    ensures fresh(copy) && IsCopy(copy, step)
  {
    copy := new PlanStep(step.id, step.description, step.dependencies, step.toolHint,
                         step.retryStrategy, step.fallbackTool, []);
  }

  lemma OneMoreCopy(copies: seq<PlanStep>, steps: seq<PlanStep>, copy: PlanStep, step: PlanStep)
    requires AreCopies(copies, steps) && IsCopy(copy, step)
    ensures AreCopies(copies + [copy], steps + [step])
  {
    hide IsCopy;
  }

  /** The steps of the plan whose identifiers are truthy, copied in their order. */
  method CopySteps(plan: Plan) returns (copies: seq<PlanStep>)
    ensures fresh(copies) && AreCopies(copies, TruthySteps(plan.steps))
  {
    copies := [];
    ghost var kept: seq<PlanStep> := [];
    for i := 0 to |plan.steps|
      invariant fresh(copies) && kept == TruthySteps(plan.steps[..i]) && AreCopies(copies, kept)
    {
      assert plan.steps[..i + 1][..i] == plan.steps[..i];
      if Truthy(plan.steps[i].id) {
        var copy := CopyStep(plan.steps[i]);
        OneMoreCopy(copies, kept, copy, plan.steps[i]);
        copies, kept := copies + [copy], kept + [plan.steps[i]];
      }
    }
    assert plan.steps[..|plan.steps|] == plan.steps;
  }

  /** Copies of the truthy steps have distinct identifiers, and the surviving dependencies. */
  lemma CopiesSurvive(plan: Plan, copies: seq<PlanStep>)
    requires plan.Valid() && AreCopies(copies, TruthySteps(plan.steps))
    ensures Plan.DistinctIds(copies)
    ensures HaveGraph(copies, Surviving(plan.deps)) && forall s :: s in copies ==> s.status == Pending
    ensures copies == [] <==> Surviving(plan.deps) == map[]
  {
    hide Truthy;
    var kept := TruthySteps(plan.steps);
    TruthyStepsDistinct(plan.steps);
    forall k | 0 <= k < |copies|
      ensures copies[k].status == Pending && copies[k].id == kept[k].id && copies[k].id in Surviving(plan.deps)
              && copies[k].dependencies == Surviving(plan.deps)[copies[k].id]
    {
      assert IsCopy(copies[k], kept[k]);
      TruthyStepsMember(plan.steps, kept[k]);
      assert kept[k] in plan.steps;
    }
    forall id | id in Surviving(plan.deps) ensures exists k :: 0 <= k < |copies| && copies[k].id == id {
      assert plan.Names(id);
      var s :| s in plan.steps && s.id == id;
      TruthyStepsMember(plan.steps, s);
      var k :| 0 <= k < |kept| && kept[k] == s;
      assert copies[k].id == id;
    }
    if copies != [] {
      assert copies[0].id in Surviving(plan.deps);
    }
  }

  /** The steps have the identifiers and dependencies of a graph. */
  ghost predicate HaveGraph(steps: seq<PlanStep>, g: Graph)
    reads steps
  {
    && (forall k :: 0 <= k < |steps| ==> steps[k].id in g && steps[k].dependencies == g[steps[k].id])
    && forall id :: id in g ==> exists k :: 0 <= k < |steps| && steps[k].id == id
  }

  /** The graph of the rebuilt plan; nothing left means the default plan. */
  ghost function Rebuilt(g: Graph): Graph {
    if Surviving(g) == map[] then SingleStepGraph() else Surviving(g)
  }

  /** Exactly the steps whose identifier is the empty text, zero or null are dropped; a plan without them is rebuilt
      with its own graph. */
  lemma RebuiltAsPlanned(g: Graph)
    ensures Surviving(g).Keys == g.Keys - {Text(""), Number(0), Null}
    ensures forall id :: id in Surviving(g) ==> Surviving(g)[id] == g[id]
    ensures g != map[] && Text("") !in g && Number(0) !in g && Null !in g ==> Rebuilt(g) == g
  {
    assert forall id :: Truthy(id) <==> id !in {Text(""), Number(0), Null};
  }

  /** From the answer to the executor: a plan whose entries have distinct truthy ids and whose dependencies exist and
      form no cycle is executed as it was written. */
  lemma RunsAsWritten(data: StepsField, maxSteps: int, ids: seq<StepId>)
    requires WrittenAnswer(data, maxSteps, ids)
    requires forall id :: id in ids ==> id != Text("") && id != Number(0) && id != Null
    ensures var items := TakeUpTo(data.items, maxSteps);
            var asked := RequestedGraph(items, |items|);
            && GraphAsWritten(items, ids, asked)
            && (Closed(asked) && Acyclic(asked) ==> Rebuilt(PlannedGraph(data, maxSteps)) == asked)
  {
    hide Closed, Acyclic, RequestedGraph, PlannedGraph, Rebuilt;
    var items := TakeUpTo(data.items, maxSteps);
    var asked := RequestedGraph(items, |items|);
    PlannedAsWritten(data, maxSteps, ids);
    RepairedIsSound(asked);
    RebuiltAsPlanned(asked);
    assert ids[0] in asked;
  }

  /** The plan as the executor gets it. */
  method Rebuild(plan: Plan, query: string) returns (rebuilt: Plan)
    requires plan.Valid()
    ensures fresh(rebuilt) && fresh(rebuilt.steps) && rebuilt.Valid()
    ensures rebuilt.completedSteps == rebuilt.failedSteps == 0
    ensures forall s :: s in rebuilt.steps ==> s.status == Pending
    ensures rebuilt.deps == Rebuilt(plan.deps)
    ensures Surviving(plan.deps) != map[] ==> AreCopies(rebuilt.steps, TruthySteps(plan.steps))
  {
    hide HaveGraph, IsCopy, Surviving, TruthySteps;
    var copies := CopySteps(plan);
    ghost var kept := TruthySteps(plan.steps);
    forall k | 0 <= k < |kept| ensures kept[k] in plan.steps {
      TruthyStepsMember(plan.steps, kept[k]);
    }
    CopiesSurvive(plan, copies);
    if copies == [] {
      rebuilt := SingleStepPlan(query);
      forall s | s in rebuilt.steps ensures s.status == Pending {
        assert s.id in rebuilt.st;
      }
    } else {
      rebuilt := new Plan(copies);
      CopiedGraph(rebuilt, Surviving(plan.deps));
      assert forall k :: 0 <= k < |kept| ==> IsCopy(copies[k], kept[k]);
    }
  }

  lemma CopiedGraph(rebuilt: Plan, g: Graph)
    requires rebuilt.Valid() && HaveGraph(rebuilt.steps, g)
    ensures rebuilt.deps == g
  {
    forall id | id in rebuilt.deps ensures id in g && rebuilt.deps[id] == g[id] {
      assert rebuilt.Names(id);
    }
    forall id | id in g ensures id in rebuilt.deps {
      var k :| 0 <= k < |rebuilt.steps| && rebuilt.steps[k].id == id;
      assert rebuilt.steps[k] in rebuilt.steps;
    }
  }

  /** Neither early stop ended the run. */
  predicate RanOut(stop: Stop) {
    stop != Breaker && stop != LowGainStop
  }

  /** What a run over a plan comes to when no early stop applies: it raises exactly when some step the recursion would
      execute quotes a dependency without text, and otherwise ends in the statuses of the recursion. */
  ghost predicate RunsAsExpected(g: Graph, outs: Outcomes, st: Statuses, raised: bool) {
    forall rank: map<StepId, nat> | Ranked(g, rank) && g.Keys <= outs.Keys && st.Keys == g.Keys ::
      && (raised <==> Crashes(g, outs, rank))
      && (!raised ==> forall id :: id in g ==> st[id] == Expected(g, outs, rank, id))
  }

  lemma ConcludedAsExpected(g: Graph, outs: Outcomes, h0: seq<Outcome>, fp: Fingerprint, depth: map<StepId, nat>,
                            run: Run, rounds: nat, stop: Stop)
    requires Concluded(g, outs, h0, fp, depth, run, rounds, stop) && RanOut(stop)
    ensures RunsAsExpected(g, outs, run.st, stop.Raised?)
  {
    hide Ended;
    forall rank: map<StepId, nat> | Ranked(g, rank) && g.Keys <= outs.Keys && run.st.Keys == g.Keys
      ensures stop.Raised? <==> Crashes(g, outs, rank)
      ensures !stop.Raised? ==> forall id :: id in g ==> run.st[id] == Expected(g, outs, rank, id)
    {
      UnstoppedRun(g, outs, h0, fp, run, stop, rank);
    }
  }

  lemma SomeDepth(g: Graph) returns (depth: map<StepId, nat>)
    requires Acyclic(g)
    ensures IsDepth(g, depth)
  {
    var rank :| Ranked(g, rank);
    DepthExists(g, rank);
    depth := map id | id in g :: Depth(g, rank, id);
  }

  /** The planning phase: the plan that will run is the rebuilt copy of the planned one, and it is acyclic. */
  method PlanPhase(data: StepsField, maxSteps: int, query: string) returns (plan: Plan, ghost depth: map<StepId, nat>)
    ensures fresh(plan) && fresh(plan.steps) && plan.Valid() && plan.completedSteps == plan.failedSteps == 0
    ensures forall s :: s in plan.steps ==> s.status == Pending
    ensures plan.deps == Rebuilt(PlannedGraph(data, maxSteps)) && Acyclic(plan.deps) && IsDepth(plan.deps, depth)
  {
    hide Surviving, AreCopies, CarriesAnswer, PlannedGraph;
    var parsed := BuildPlan(data, maxSteps, query);
    SurvivingIsSound(parsed.deps);
    plan := Rebuild(parsed, query);
    SingleStepIsSound();
    depth := SomeDepth(plan.deps);
  }

  /** From the model's answer to the end of the run: whatever the answer and whatever the tools do, the executed plan
      is acyclic, and a run no early stop cuts short is what the recursion says; without failures, and with every
      dependency among the steps, it takes as many rounds as the longest chain of dependencies has steps. */
  method PlanAndExecute(executor: Executor, data: StepsField, maxSteps: int, query: string,
                        events: Events, jitters: nat -> Jitter)
    returns (plan: Plan, raised: bool, ghost outs: Outcomes, ghost depth: map<StepId, nat>,
             ghost stop: Stop, ghost rounds: nat)
    requires executor.stored == map[]
    modifies executor
    ensures executor.Valid() && plan.Valid() && plan.deps == Rebuilt(PlannedGraph(data, maxSteps))
    ensures Acyclic(plan.deps) && IsDepth(plan.deps, depth)
    ensures raised <==> stop.Raised?
    ensures Foretold(plan.steps, executor.maxRetries, ReportsOf(events), outs)
    ensures RanOut(stop) ==> RunsAsExpected(plan.deps, outs, plan.st, raised)
    ensures Concluded(plan.deps, outs, [], executor.fingerprint, depth, executor.View(plan), rounds, stop)
  {
    hide RunsAsExpected, Rebuilt, PlannedGraph, Concluded, Foretold, IsDepth;
    plan, depth := PlanPhase(data, maxSteps, query);
    executor.ResetForRequest();
    raised, outs, stop, rounds := executor.Execute(plan, events, jitters, depth);
    if RanOut(stop) {
      ConcludedAsExpected(plan.deps, outs, [], executor.fingerprint, depth, executor.View(plan), rounds, stop);
    }
  }
}

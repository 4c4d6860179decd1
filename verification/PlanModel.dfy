/** PlanStep and Plan (planner.py): the objects the executor updates in place. */
module PlanModel {
  import opened Options
  import opened PlanTypes
  import opened PlanGraph

  class PlanStep {
    const id: StepId
    const description: string
    const retryStrategy: string
    const fallbackTool: Option<string>
    /** Not a declared field of the dataclass; the executor looks for it and reads an absent one as empty. */
    const fallbackChain: seq<string>
    var dependencies: seq<StepId>
    var toolHint: Option<string>
    var status: Status
    var result: Option<string>
    var errorContext: Option<string>
    var retryCount: nat

    constructor (id: StepId, description: string, dependencies: seq<StepId>, toolHint: Option<string>,
                 retryStrategy: string, fallbackTool: Option<string>, fallbackChain: seq<string>)
      ensures this.id == id && this.dependencies == dependencies && this.toolHint == toolHint
      ensures this.description == description && this.retryStrategy == retryStrategy
      ensures this.fallbackTool == fallbackTool && this.fallbackChain == fallbackChain
      ensures status == Pending && result == None && errorContext == None && retryCount == 0
    {
      this.id, this.description, this.dependencies, this.toolHint := id, description, dependencies, toolHint;
      this.retryStrategy, this.fallbackTool, this.fallbackChain := retryStrategy, fallbackTool, fallbackChain;
      status, result, errorContext, retryCount := Pending, None, None, 0;
    }
  }

  /** A pending step all of whose dependencies completed. */
  ghost predicate IsReady(g: Graph, st: Statuses, id: StepId) {
    id in g && id in st && st[id] == Pending && DepsCompleted(g, st, id)
  }

  /** Some dependency of the step failed or was skipped. */
  ghost predicate HasLostDep(g: Graph, st: Statuses, id: StepId)
    requires id in g
  {
    exists d :: d in g[id] && d in st && (st[d] == Failed || st[d] == Skipped)
  }

  /** What becomes of one step's status when the ready steps are collected. */
  ghost function Screened(g: Graph, st: Statuses, id: StepId): Status
    requires id in g && id in st
  {
    if st[id] == Pending && !DepsCompleted(g, st, id) && HasLostDep(g, st, id) then Skipped else st[id]
  }

  /** The statuses after the steps behind a failed or skipped dependency have been skipped, one level deep. */
  ghost function SkipBlocked(g: Graph, st: Statuses): (r: Statuses)
    requires g.Keys == st.Keys
  {
    map id | id in st :: Screened(g, st, id)
  }

  ghost predicate IdsWith(st: Statuses, ids: set<StepId>, wanted: set<Status>) {
    forall d :: d in ids <==> d in st && st[d] in wanted
  }

  /** The screened statuses and the ready identifiers as plain values, unfolded one step at a time. */
  lemma Screening(g: Graph, st: Statuses) returns (target: Statuses, readyIds: set<StepId>)
    requires g.Keys == st.Keys
    ensures target.Keys == st.Keys
    ensures forall id {:trigger Screened(g, st, id)} :: id in st ==> target[id] == Screened(g, st, id)
    ensures forall id {:trigger IsReady(g, st, id)} :: id in readyIds <==> IsReady(g, st, id)
  {
    target := SkipBlocked(g, st);
    readyIds := set id | id in g && IsReady(g, st, id);
  }

  lemma Screened1(g: Graph, st: Statuses, target: Statuses)
    requires g.Keys == st.Keys == target.Keys
    requires forall id {:trigger Screened(g, st, id)} :: id in st ==> target[id] == Screened(g, st, id)
    ensures target == SkipBlocked(g, st)
  {
  }

  lemma ScreenStep(g: Graph, st: Statuses, id: StepId, completedIds: set<StepId>, failedIds: set<StepId>)
    requires id in g && id in st
    requires IdsWith(st, completedIds, {Completed}) && IdsWith(st, failedIds, {Failed, Skipped})
    ensures IsReady(g, st, id) <==> st[id] == Pending && forall d :: d in g[id] ==> d in completedIds
    ensures Screened(g, st, id) ==
            if st[id] == Pending && !IsReady(g, st, id) && exists d :: d in g[id] && d in failedIds
            then Skipped else st[id]
  {
  }

  predicate Terminal(s: Status) {
    s == Completed || s == Skipped || s == Failed
  }

  class Plan {
    const steps: seq<PlanStep>
    var completedSteps: nat
    var failedSteps: nat
    /** The statuses and dependencies of all steps, by identifier; Valid ties them to the step objects. */
    ghost var st: Statuses
    ghost var deps: Graph

    constructor (steps: seq<PlanStep>)
      requires DistinctIds(steps)
      ensures this.steps == steps && completedSteps == 0 && failedSteps == 0
      ensures Valid()
    {
      this.steps, completedSteps, failedSteps := steps, 0, 0;
      st, deps := map[], map[];
      new;
      for i := 0 to |steps|
        invariant st.Keys == deps.Keys
        invariant forall j :: 0 <= j < i ==> steps[j].id in st && st[steps[j].id] == steps[j].status
        invariant forall j :: 0 <= j < i ==> steps[j].id in deps && deps[steps[j].id] == steps[j].dependencies
        invariant forall id {:trigger Names(id)} :: id in st ==> Names(id)
      {
        assert Names(steps[i].id);
        st := st[steps[i].id := steps[i].status];
        deps := deps[steps[i].id := steps[i].dependencies];
      }
    }

    static ghost predicate DistinctIds(steps: seq<PlanStep>) {
      forall i, j :: 0 <= i < j < |steps| ==> steps[i].id != steps[j].id
    }

    ghost predicate Names(id: StepId) {
      exists s :: s in steps && s.id == id
    }

    ghost predicate Valid()
      reads this, steps
    {
      && DistinctIds(steps)
      && (forall s :: s in steps ==> s.id in st && st[s.id] == s.status)
      && (forall s :: s in steps ==> s.id in deps && deps[s.id] == s.dependencies)
      && st.Keys == deps.Keys
      && forall id {:trigger Names(id)} :: id in st ==> Names(id)
    }

    predicate IsComplete()
      reads steps
    {
      forall s :: s in steps ==> Terminal(s.status)
    }

    method SetStatus(step: PlanStep, status: Status)
      requires Valid() && step in steps
      modifies this`st, step`status
      ensures Valid()
      ensures st == old(st)[step.id := status]
    {
      step.status := status;
      st := st[step.id := status];
    }

    method SetDependencies(step: PlanStep, ds: seq<StepId>)
      requires Valid() && step in steps
      modifies this`deps, step`dependencies
      ensures Valid()
      ensures deps == old(deps)[step.id := ds]
    {
      step.dependencies := ds;
      deps := deps[step.id := ds];
    }

    /** The step identifiers in step order. */
    method StepIds() returns (ids: seq<StepId>)
      requires Valid()
      ensures |ids| == |steps| == |st|
      ensures forall i, j :: 0 <= i < j < |ids| ==> ids[i] != ids[j]
      ensures forall id :: id in ids <==> id in st
    {
      ids := [];
      ghost var seen: set<StepId> := {};
      for i := 0 to |steps|
        invariant |ids| == i && forall j :: 0 <= j < i ==> ids[j] == steps[j].id
        invariant |seen| == i && forall id :: id in seen <==> id in ids
      {
        assert steps[i].id !in ids;
        ids := ids + [steps[i].id];
        seen := seen + {steps[i].id};
      }
      forall id | id in st ensures id in ids {
        assert Names(id);
      }
      assert seen == st.Keys;
    }

    /** The identifiers of the steps with one of the wanted statuses. */
    method IdsOf(wanted: set<Status>) returns (ids: set<StepId>)
      requires Valid()
      ensures IdsWith(st, ids, wanted)
    {
      ids := {};
      for i := 0 to |steps|
        invariant forall j :: 0 <= j < i && steps[j].status in wanted ==> steps[j].id in ids
        invariant forall d :: d in ids ==> d in st && st[d] in wanted
      {
        if steps[i].status in wanted {
          ids := ids + {steps[i].id};
        }
      }
      forall d | d in st && st[d] in wanted ensures d in ids {
        assert Names(d);
      }
    }

    /** Decides one step against the statuses at the start of the pass. */
    method ScreenOne(step: PlanStep, completedIds: set<StepId>, failedIds: set<StepId>, ghost st0: Statuses)
      returns (ready: bool)
      requires Valid() && step in steps && st.Keys == st0.Keys && st[step.id] == st0[step.id]
      requires IdsWith(st0, completedIds, {Completed}) && IdsWith(st0, failedIds, {Failed, Skipped})
      modifies this`st, step`status
      ensures Valid() && ready == IsReady(deps, st0, step.id)
      ensures st == old(st)[step.id := Screened(deps, st0, step.id)]
    {
      ScreenStep(deps, st0, step.id, completedIds, failedIds);
      ready := false;
      if step.status == Pending {
        if forall d :: d in step.dependencies ==> d in completedIds {
          ready := true;
        } else if exists d :: d in step.dependencies && d in failedIds {
          SetStatus(step, Skipped);
        }
      }
    }

    /** In the middle of the pass: the first i steps have their new status, the others their old one. */
    ghost predicate ScreenedUpTo(now: Statuses, st0: Statuses, target: Statuses, i: nat) {
      && now.Keys == st0.Keys == target.Keys
      && forall j :: 0 <= j < |steps| ==>
           steps[j].id in now && now[steps[j].id] == if j < i then target[steps[j].id] else st0[steps[j].id]
    }

    lemma ScreenedNext(now: Statuses, st0: Statuses, target: Statuses, i: nat)
      requires DistinctIds(steps) && ScreenedUpTo(now, st0, target, i) && i < |steps|
      ensures steps[i].id in now && now[steps[i].id] == st0[steps[i].id]
      ensures ScreenedUpTo(now[steps[i].id := target[steps[i].id]], st0, target, i + 1)
    {
    }

    lemma AllScreened(target: Statuses, st0: Statuses)
      requires Valid() && ScreenedUpTo(st, st0, target, |steps|)
      ensures st == target
    {
      forall id | id in st ensures st[id] == target[id] {
        assert Names(id);
      }
    }

    lemma NoneScreened(target: Statuses)
      requires Valid() && target.Keys == st.Keys
      ensures ScreenedUpTo(st, st, target, 0)
    {
    }

    /** The steps that can start now, in step order; marks those behind a failed or skipped dependency as skipped. */
    method GetReadySteps() returns (ready: seq<PlanStep>)
      requires Valid()
      modifies this`st, steps
      ensures Valid() && st == SkipBlocked(old(deps), old(st))
      ensures ready == ReadyAmong(steps, old(deps), old(st))
    {
      hide IsReady, Screened, SkipBlocked, ScreenedUpTo;
      ghost var st0 := st;
      ghost var target, readyIds := Screening(deps, st0);
      var completedIds := IdsOf({Completed});
      var failedIds := IdsOf({Failed, Skipped});
      ready := [];
      NoneScreened(target);
      for i := 0 to |steps|
        invariant Valid() && st.Keys == st0.Keys && ScreenedUpTo(st, st0, target, i)
        invariant ready == ReadyAmong(steps[..i], deps, st0)
      {
        var step := steps[i];
        ScreenedNext(st, st0, target, i);
        var isReady := ScreenOne(step, completedIds, failedIds, st0);
        assert steps[..i + 1][..i] == steps[..i];
        if isReady {
          ready := ready + [step];
        }
      }
      Screened1(deps, st0, target);
      AllScreened(target, st0);
      assert steps[..|steps|] == steps;
    }
  }

  /** The ready ones of some steps, in their order. */
  ghost function ReadyAmong(steps: seq<PlanStep>, g: Graph, st: Statuses): seq<PlanStep> {
    if steps == [] then
      []
    else
      var before, last := ReadyAmong(steps[..|steps| - 1], g, st), steps[|steps| - 1];
      if IsReady(g, st, last.id) then before + [last] else before
  }

  /** They are exactly the ready steps, */
  lemma {:induction false} ReadyAmongMember(steps: seq<PlanStep>, g: Graph, st: Statuses, s: PlanStep)
    ensures s in ReadyAmong(steps, g, st) <==> s in steps && IsReady(g, st, s.id)
  {
    hide IsReady;
    if steps != [] {
      var front, last := steps[..|steps| - 1], steps[|steps| - 1];
      ReadyAmongMember(front, g, st, s);
      assert s in steps <==> s in front || s == last;
    }
  }

  /** and their identifiers differ when those of the steps do. */
  lemma {:induction false} ReadyAmongDistinct(steps: seq<PlanStep>, g: Graph, st: Statuses)
    requires Plan.DistinctIds(steps)
    ensures Plan.DistinctIds(ReadyAmong(steps, g, st))
  {
    hide IsReady;
    if steps != [] {
      var front, last := steps[..|steps| - 1], steps[|steps| - 1];
      var before := ReadyAmong(front, g, st);
      assert forall i :: 0 <= i < |front| ==> front[i] == steps[i];
      ReadyAmongDistinct(front, g, st);
      forall k | 0 <= k < |before| ensures before[k].id != last.id {
        ReadyAmongMember(front, g, st, before[k]);
        var i :| 0 <= i < |front| && front[i] == before[k];
      }
    }
  }
}

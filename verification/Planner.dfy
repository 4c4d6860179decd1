/** planner.py: turning parsed JSON into steps with distinct identifiers, and repairing the dependencies. */
module Planner {
  import opened Options
  import opened PlanTypes
  import opened PlanGraph
  import opened PlanModel
  import opened Kahn
  import opened PlanParser

  // ---------- _validate_dag ----------

  /** The listed dependencies that name an existing step, in order and with repetitions. */
  function Known(ds: seq<StepId>, ids: set<StepId>): seq<StepId> {
    if ds == [] then [] else
    (if ds[0] in ids then [ds[0]] else []) + Known(ds[1..], ids)
  }

  lemma {:induction false} KnownMembers(ds: seq<StepId>, ids: set<StepId>)
    ensures forall d :: d in Known(ds, ids) <==> d in ds && d in ids
  {
    if ds != [] {
      KnownMembers(ds[1..], ids);
      assert ds == [ds[0]] + ds[1..];
    }
  }

  lemma {:induction false} KnownKeepsAll(ds: seq<StepId>, ids: set<StepId>)
    requires forall d :: d in ds ==> d in ids
    ensures Known(ds, ids) == ds
  {
    if ds != [] {
      KnownKeepsAll(ds[1..], ids);
      assert ds == [ds[0]] + ds[1..];
    }
  }

  /** The graph without the dependencies on steps that do not exist. */
  ghost function Filtered(g: Graph): Graph {
    map id | id in g :: Known(g[id], g.Keys)
  }

  lemma FilteredIsClosed(g: Graph)
    ensures Closed(Filtered(g)) && Filtered(g).Keys == g.Keys
    ensures Closed(g) ==> Filtered(g) == g
  {
    forall id | id in g ensures forall d :: d in Filtered(g)[id] ==> d in g {
      KnownMembers(g[id], g.Keys);
    }
    if Closed(g) {
      forall id | id in g ensures Filtered(g)[id] == g[id] {
        KnownKeepsAll(g[id], g.Keys);
      }
    }
  }

  ghost function WithoutDependencies(g: Graph): Graph {
    map id | id in g :: []
  }

  lemma NoDependenciesNoCycle(g: Graph)
    ensures Acyclic(WithoutDependencies(g)) && Closed(WithoutDependencies(g))
  {
    assert Ranked(WithoutDependencies(g), map id | id in g :: 0);
  }

  /** The identifiers of a plan's steps, as the set the membership tests use. */
  method IdSet(plan: Plan) returns (ids: seq<StepId>, stepIds: set<StepId>)
    requires plan.Valid()
    ensures stepIds == plan.deps.Keys && |ids| == |plan.steps| == |plan.deps|
    ensures NoRepeats(ids) && forall id :: id in ids <==> id in plan.deps
  {
    ids := plan.StepIds();
    stepIds := set id | id in ids;
    assert |plan.st.Keys| == |plan.deps.Keys|;
  }

  method FilterDependencies(plan: Plan, stepIds: set<StepId>)
    requires plan.Valid() && stepIds == plan.deps.Keys
    modifies plan`deps, plan.steps`dependencies
    ensures plan.Valid() && plan.deps == Filtered(old(plan.deps))
  {
    ghost var g := plan.deps;
    for i := 0 to |plan.steps|
      invariant plan.Valid() && plan.deps.Keys == g.Keys
      invariant forall j :: 0 <= j < i ==> plan.deps[plan.steps[j].id] == Known(g[plan.steps[j].id], g.Keys)
      invariant forall j :: i <= j < |plan.steps| ==> plan.deps[plan.steps[j].id] == g[plan.steps[j].id]
    {
      var step := plan.steps[i];
      plan.SetDependencies(step, Known(step.dependencies, stepIds));
    }
    forall id | id in g ensures plan.deps[id] == Known(g[id], g.Keys) {
      assert plan.Names(id);
    }
  }

  method ClearDependencies(plan: Plan)
    requires plan.Valid()
    modifies plan`deps, plan.steps`dependencies
    ensures plan.Valid() && plan.deps == WithoutDependencies(old(plan.deps))
  {
    ghost var g := plan.deps;
    for i := 0 to |plan.steps|
      invariant plan.Valid() && plan.deps.Keys == g.Keys
      invariant forall j :: 0 <= j < i ==> plan.deps[plan.steps[j].id] == []
    {
      plan.SetDependencies(plan.steps[i], []);
    }
    forall id | id in g ensures plan.deps[id] == [] {
      assert plan.Names(id);
    }
  }

  /** The dependency table of a valid plan, read off its steps. */
  method DependencyTable(plan: Plan) returns (g: Graph)
    requires plan.Valid()
    ensures g == plan.deps
  {
    g := map[];
    for i := 0 to |plan.steps|
      invariant forall id :: id in g ==> id in plan.deps && g[id] == plan.deps[id]
      invariant forall j :: 0 <= j < i ==> plan.steps[j].id in g
    {
      g := g[plan.steps[i].id := plan.steps[i].dependencies];
    }
    forall id | id in plan.deps ensures id in g {
      assert plan.Names(id);
    }
  }

  /** Drops every dependency when the graph has a cycle. */
  method BreakCycles(plan: Plan, ids: seq<StepId>)
    requires plan.Valid() && Closed(plan.deps)
    requires |ids| == |plan.steps| == |plan.deps|
    requires NoRepeats(ids) && forall id :: id in ids <==> id in plan.deps
    modifies plan`deps, plan.steps`dependencies
    ensures plan.Valid()
    ensures plan.deps == if Acyclic(old(plan.deps)) then old(plan.deps) else WithoutDependencies(old(plan.deps))
  {
    var g := DependencyTable(plan);
    var sorted := CountSortable(ids, g);
    if sorted != |plan.steps| {
      ClearDependencies(plan);
    }
  }

  /** What _validate_dag makes of a dependency graph. */
  ghost function Repaired(g: Graph): Graph {
    if Acyclic(Filtered(g)) then Filtered(g) else WithoutDependencies(g)
  }

  lemma RepairedIsSound(g: Graph)
    ensures Closed(Repaired(g)) && Acyclic(Repaired(g)) && Repaired(g).Keys == g.Keys
    ensures Closed(g) && Acyclic(g) ==> Repaired(g) == g
    ensures Repaired(Repaired(g)) == Repaired(g)
  {
    FilteredIsClosed(g);
    NoDependenciesNoCycle(g);
    FilteredIsClosed(Repaired(g));
  }

  /** Filtering first and emptying then, if need be, is the repair. */
  lemma RepairedInSteps(g: Graph)
    ensures Repaired(g) == if Acyclic(Filtered(g)) then Filtered(g) else WithoutDependencies(Filtered(g))
  {
    assert WithoutDependencies(Filtered(g)) == WithoutDependencies(g);
  }

  /** Drops unknown dependencies; if what is left has a cycle, drops all of them. */
  method ValidateDag(plan: Plan)
    requires plan.Valid()
    modifies plan`deps, plan.steps`dependencies
    ensures plan.Valid()
    ensures plan.deps == Repaired(old(plan.deps))
    ensures Closed(plan.deps) && Acyclic(plan.deps)
  {
    hide Filtered, WithoutDependencies, Repaired, NoRepeats;
    ghost var g0 := plan.deps;
    var ids, stepIds := IdSet(plan);
    FilterDependencies(plan, stepIds);
    FilteredIsClosed(g0);
    RepairedIsSound(g0);
    RepairedInSteps(g0);
    BreakCycles(plan, ids);
  }

  // ---------- From the model's answer to a plan ----------

  method SingleStepPlan(query: string) returns (plan: Plan)
    ensures fresh(plan) && fresh(plan.steps) && plan.Valid() && plan.deps == SingleStepGraph()
    ensures |plan.steps| == 1 && plan.st == map[Text("s1") := Pending] && plan.completedSteps == plan.failedSteps == 0
  {
    var step := new PlanStep(Text("s1"), query, [], None, "auto_retry", None, []);
    plan := new Plan([step]);
    assert plan.steps[0] in plan.steps;
    forall id | id in plan.st ensures id == Text("s1") {
      assert plan.Names(id);
    }
  }

  /** The answer yields at least one step and no TypeError. */
  ghost predicate Usable(data: StepsField, maxSteps: int) {
    && data.Steps? && data.items != []
    && var items := TakeUpTo(data.items, maxSteps);
       (forall j :: 0 <= j < |items| ==> !Unusable(items[j])) && AssignedIds(items, |items|) != []
  }

  ghost function SingleStepGraph(): Graph {
    map[Text("s1") := []]
  }

  /** The graph of the plan: what the answer asks for, repaired, or the single step. */
  ghost function PlannedGraph(data: StepsField, maxSteps: int): Graph {
    if Usable(data, maxSteps) then
      var items := TakeUpTo(data.items, maxSteps);
      Repaired(RequestedGraph(items, |items|))
    else
      SingleStepGraph()
  }

  lemma SingleStepIsSound()
    ensures Closed(SingleStepGraph()) && Acyclic(SingleStepGraph()) && Repaired(SingleStepGraph()) == SingleStepGraph()
  {
    assert Ranked(SingleStepGraph(), map[Text("s1") := 0]);
    RepairedIsSound(SingleStepGraph());
  }

  /** The graph before the repair. */
  ghost function AskedGraph(data: StepsField, maxSteps: int): Graph {
    if Usable(data, maxSteps) then
      var items := TakeUpTo(data.items, maxSteps);
      RequestedGraph(items, |items|)
    else
      SingleStepGraph()
  }

  lemma PlannedIsRepaired(data: StepsField, maxSteps: int)
    ensures PlannedGraph(data, maxSteps) == Repaired(AskedGraph(data, maxSteps))
  {
    SingleStepIsSound();
  }

  /** A usable answer's entries are the plan's steps. */
  ghost predicate CarriesAnswer(plan: Plan, data: StepsField, maxSteps: int)
    reads plan.steps`toolHint, plan.steps`status
  {
    Usable(data, maxSteps) ==>
      var items := TakeUpTo(data.items, maxSteps);
      StepsCarry(plan.steps, items, |items|)
  }

  /** What the repair makes of each list of dependencies: without cycles exactly the unknown ones go, with one all do.
      */
  lemma RepairedDependencies(g: Graph)
    ensures Acyclic(g) ==> forall id :: id in g ==> Repaired(g)[id] == Known(g[id], g.Keys)
    ensures !Acyclic(g) ==> forall id :: id in g ==> Repaired(g)[id] == []
  {
    FilteredIsClosed(g);
    forall id | id in g ensures forall d :: d in Filtered(g)[id] <==> d in g[id] && d in g {
      KnownMembers(g[id], g.Keys);
    }
    if rank :| Ranked(g, rank) {
      assert Ranked(Filtered(g), rank);
    }
    if rank :| Ranked(Filtered(g), rank) {
      assert Ranked(g, rank);
    }
  }

  /** The entries of an answer that are read, where every one asks to be called otherwise than the others. */
  ghost predicate WrittenAnswer(data: StepsField, maxSteps: int, ids: seq<StepId>) {
    data.Steps? && ids != [] && Written(TakeUpTo(data.items, maxSteps), ids)
  }

  /** A plan written without repeated ids is planned as written, if its dependencies exist and form no cycle. */
  lemma PlannedAsWritten(data: StepsField, maxSteps: int, ids: seq<StepId>)
    requires WrittenAnswer(data, maxSteps, ids)
    ensures var items := TakeUpTo(data.items, maxSteps);
            var asked := RequestedGraph(items, |items|);
            && PlannedGraph(data, maxSteps) == Repaired(asked)
            && GraphAsWritten(items, ids, asked)
            && (Closed(asked) && Acyclic(asked) ==> GraphAsWritten(items, ids, PlannedGraph(data, maxSteps)))
  {
    hide Repaired, Closed, Acyclic, GraphAsWritten, RequestedGraph, AssignedIds;
    var items := TakeUpTo(data.items, maxSteps);
    WrittenIsKept(items, ids);
    RepairedIsSound(RequestedGraph(items, |items|));
  }

  /** And its steps are its entries, in their order. */
  lemma PlanAsWritten(plan: Plan, data: StepsField, maxSteps: int, ids: seq<StepId>)
    requires WrittenAnswer(data, maxSteps, ids) && CarriesAnswer(plan, data, maxSteps)
    ensures var items := TakeUpTo(data.items, maxSteps);
            && |plan.steps| == |items|
            && forall j :: 0 <= j < |items| ==>
                 plan.steps[j].id == ids[j] && FieldsAsWritten(plan.steps[j], items[j], j)
  {
    hide AssignedIds, AsksFor, StepsCarry, FieldsAsWritten;
    var items := TakeUpTo(data.items, maxSteps);
    WrittenIsKept(items, ids);
    StepsAsWritten(plan.steps, items, ids);
  }

  /** The parsed plan, or the single-step plan where the answer is of no use. */
  method PlanOrDefault(data: StepsField, maxSteps: int, query: string) returns (plan: Plan)
    ensures fresh(plan) && fresh(plan.steps)
    ensures plan.Valid() && |plan.steps| >= 1 && plan.completedSteps == plan.failedSteps == 0
    ensures maxSteps >= 1 ==> |plan.steps| <= maxSteps
    ensures forall s :: s in plan.steps ==> s.status == Pending
    ensures plan.deps == AskedGraph(data, maxSteps) && CarriesAnswer(plan, data, maxSteps)
  {
    var parsed := ParsePlan(data, maxSteps);
    if parsed.Parsed? && parsed.plan.steps != [] {
      plan := parsed.plan;
      var items := TakeUpTo(data.items, maxSteps);
      MadeCarry(plan.steps, items, |items|);
      assert Usable(data, maxSteps);
    } else {
      assert !Usable(data, maxSteps);
      plan := SingleStepPlan(query);
      forall s | s in plan.steps ensures s.status == Pending {
        assert s.id in plan.st;
      }
    }
  }

  /** The plan the executor gets, whatever the model answered: at least one step, distinct identifiers, nothing
      started, dependencies that exist and form no cycle. */
  method BuildPlan(data: StepsField, maxSteps: int, query: string) returns (plan: Plan)
    ensures plan.Valid() && |plan.steps| >= 1 && plan.completedSteps == plan.failedSteps == 0
    ensures maxSteps >= 1 ==> |plan.steps| <= maxSteps
    ensures forall s :: s in plan.steps ==> s.status == Pending
    ensures plan.deps == PlannedGraph(data, maxSteps) && Closed(plan.deps) && Acyclic(plan.deps)
    ensures CarriesAnswer(plan, data, maxSteps)
  {
    hide CarriesAnswer, Repaired, AskedGraph, PlannedGraph;
    PlannedIsRepaired(data, maxSteps);
    plan := PlanOrDefault(data, maxSteps, query);
    ghost var before := plan.st;
    assert forall s :: s in plan.steps ==> s.status == Pending;
    ValidateDag(plan);
    assert plan.st == before;
  }
}

/** planner.py's comparison template, the plan for comparative questions, and what the executor can make of it. */
module Templates {
  import opened Options
  import opened PlanTypes
  import opened PlanGraph
  import opened PlanModel
  import opened RunModel
  import opened Kahn
  import Planner
  import Decimal

  // ---------- The graph of the template ----------

  /** Searches without dependencies, and a comparison of all of them. */
  ghost function ComparisonGraph(searches: seq<StepId>, last: StepId): Graph {
    (map id | id in searches :: [])[last := searches]
  }

  /** Searches come first and the comparison, if there is anything to compare, second. */
  ghost function ComparisonDepth(searches: seq<StepId>, last: StepId): map<StepId, nat> {
    (map id | id in searches :: 0)[last := if searches == [] then 0 else 1]
  }

  /** A comparison plan takes two rounds of steps. */
  lemma ComparisonDepths(searches: seq<StepId>, last: StepId)
    requires last !in searches
    ensures Closed(ComparisonGraph(searches, last))
    ensures IsDepth(ComparisonGraph(searches, last), ComparisonDepth(searches, last))
  {
    var g, depth := ComparisonGraph(searches, last), ComparisonDepth(searches, last);
    if searches != [] {
      assert searches[0] in g[last] && searches[0] in g && depth[searches[0]] == 0;
    }
  }

  /** Cycle repair does not touch a comparison plan. */
  lemma ComparisonIsKept(searches: seq<StepId>, last: StepId)
    requires last !in searches
    ensures Planner.Repaired(ComparisonGraph(searches, last)) == ComparisonGraph(searches, last)
  {
    ComparisonDepths(searches, last);
    Planner.RepairedIsSound(ComparisonGraph(searches, last));
  }

  /** The run of a comparison that no early stop cuts short raises exactly when every search succeeded and one of the
      last five found nothing to say. */
  lemma ComparisonCrashes(searches: seq<StepId>, last: StepId, outs: Outcomes, rank: map<StepId, nat>)
    requires last !in searches
    requires Ranked(ComparisonGraph(searches, last), rank) && ComparisonGraph(searches, last).Keys <= outs.Keys
    ensures Crashes(ComparisonGraph(searches, last), outs, rank) <==>
              && (forall id :: id in searches ==> !outs[id].failed)
              && (exists k :: |searches| - 5 <= k < |searches| && 0 <= k && outs[searches[k]].text == "")
  {
    hide Hazard;
    var g := ComparisonGraph(searches, last);
    forall id | id in searches ensures Expected(g, outs, rank, id) == OwnStatus(outs[id]) && !Hazard(g, outs, id) {
      assert g[id] == [];
      HazardIff(g, outs, id);
    }
    HazardIff(g, outs, last);
    assert g[last] == searches && forall k :: 0 <= k < |searches| ==> searches[k] in outs;
    assert Expected(g, outs, rank, last) != Skipped <==> forall id :: id in searches ==> !outs[id].failed;
  }

  // ---------- Building the plan ----------

  function StepName(i: nat): StepId {
    Text("s" + Decimal.OfNat(i))
  }

  function Names(n: nat): (r: seq<StepId>)
    ensures |r| == n && forall i :: 0 <= i < n ==> r[i] == StepName(i + 1)
  {
    if n == 0 then [] else Names(n - 1) + [StepName(n)]
  }

  lemma StepNamesDiffer(i: nat, j: nat)
    requires i != j
    ensures StepName(i) != StepName(j)
  {
    if StepName(i) == StepName(j) {
      assert StepName(i).s[1..] == Decimal.OfNat(i) && StepName(j).s[1..] == Decimal.OfNat(j);
      Decimal.OfNatInjective(i, j);
    }
  }

  lemma NamesDiffer(n: nat)
    ensures NoRepeats(Names(n)) && StepName(n + 1) !in Names(n)
  {
    forall i, j | 0 <= i < j < n ensures Names(n)[i] != Names(n)[j] {
      StepNamesDiffer(i + 1, j + 1);
    }
    forall i | 0 <= i < n ensures Names(n)[i] != StepName(n + 1) {
      StepNamesDiffer(i + 1, n + 1);
    }
  }

  /** At most the first n characters. */
  function Head(s: string, n: nat): string {
    if |s| <= n then s else s[..n]
  }

  method SearchSteps(entities: seq<string>) returns (steps: seq<PlanStep>)
    ensures fresh(steps) && |steps| == |entities|
    ensures forall i :: 0 <= i < |steps| ==> steps[i].id == Names(|entities|)[i]
    ensures forall s :: s in steps ==> s.dependencies == [] && s.status == Pending
  {
    steps := [];
    for i := 0 to |entities|
      invariant fresh(steps) && |steps| == i
      invariant forall j :: 0 <= j < i ==> steps[j].id == StepName(j + 1)
      invariant forall s :: s in steps ==> s.dependencies == [] && s.status == Pending
    {
      var step := new PlanStep(StepName(i + 1), "研究" + entities[i] + "的相关信息，提取关键指标", [],
                               Some("search_knowledge_base"), "auto_retry", None, []);
      steps := steps + [step];
    }
  }

  lemma PlanHasGraph(plan: Plan, searches: seq<StepId>, last: StepId)
    requires plan.Valid() && last !in searches && |plan.steps| == |searches| + 1
    requires forall i :: 0 <= i < |searches| ==> plan.steps[i].id == searches[i] && plan.steps[i].dependencies == []
    requires plan.steps[|searches|].id == last && plan.steps[|searches|].dependencies == searches
    ensures plan.deps == ComparisonGraph(searches, last)
  {
    var g := ComparisonGraph(searches, last);
    forall i | 0 <= i < |plan.steps|
      ensures plan.steps[i].id in plan.deps && plan.steps[i].id in g
          && plan.deps[plan.steps[i].id] == g[plan.steps[i].id]
    {
      assert plan.steps[i] in plan.steps;
    }
    forall id | id in plan.deps ensures id in g && plan.deps[id] == g[id] {
      assert plan.Names(id);
    }
    assert g.Keys <= plan.deps.Keys;
  }

  /** One search for every entity, and a last step that depends on all of them. */
  method BuildComparisonPlan(entities: seq<string>, query: string) returns (plan: Plan)
    ensures fresh(plan) && fresh(plan.steps) && plan.Valid()
    ensures plan.deps == ComparisonGraph(Names(|entities|), StepName(|entities| + 1))
    ensures StepName(|entities| + 1) !in Names(|entities|)
    ensures forall s :: s in plan.steps ==> s.status == Pending
  {
    var searches := SearchSteps(entities);
    var last := new PlanStep(StepName(|entities| + 1), "对比各实体的关键信息，找出差异和共性: " + Head(query, 50),
                             Names(|entities|), Some("cross_document_analysis"), "auto_retry", None, []);
    NamesDiffer(|entities|);
    plan := new Plan(searches + [last]);
    PlanHasGraph(plan, Names(|entities|), StepName(|entities| + 1));
  }
}

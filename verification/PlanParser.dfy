/** planner.py's _parse_plan: steps with pairwise distinct identifiers from an already decoded JSON object. */
module PlanParser {
  import opened Options
  import opened PlanTypes
  import opened PlanModel
  import Decimal

  /** The "id" entry of a step: usable as a set member, or a list or object, which Python cannot hash. */
  datatype JsonId = Hashable(id: StepId) | Unhashable

  datatype StepData =
    | NotAnObject
    | StepData(id: Option<JsonId>, description: Option<string>, dependencies: seq<StepId>,
               toolHint: Option<string>, retryStrategy: Option<string>, fallbackTool: Option<string>)

  /** The "steps" entry: a list, or anything else. */
  datatype StepsField = NotAList | Steps(items: seq<StepData>)

  datatype ParseOutcome = NoPlan | TypeError | Parsed(plan: Plan)

  /** Python's s[:n] for any integer n. */
  function TakeUpTo<T>(s: seq<T>, n: int): (r: seq<T>)
    ensures n >= 0 ==> |r| == if n < |s| then n else |s|
    ensures n < 0 ==> |r| == if -n < |s| then |s| + n else 0
    ensures r <= s
  {
    if n >= |s| then s
    else if n >= 0 then s[..n]
    else if |s| + n >= 0 then s[..|s| + n] else []
  }

  function Render(id: StepId): string {
    match id
    case Text(s) => s
    case Number(n) => Decimal.OfInt(n)
    case Null => "None"
  }

  /** The id the step asks for: its own, or "s" and its position counted from one. */
  function GivenId(d: StepData, i: nat): JsonId
    requires d.StepData?
  {
    match d.id
    case Some(id) => id
    case None => Hashable(Text("s" + Decimal.OfNat(i + 1)))
  }

  function Renamed(id: StepId, i: nat): StepId {
    Text(Render(id) + "_" + Decimal.OfNat(i))
  }

  ghost function MaxLength(ids: seq<StepId>): nat {
    if ids == [] then 0 else
    var rest := MaxLength(ids[1..]);
    if ids[0].Text? && |ids[0].s| > rest then |ids[0].s| else rest
  }

  lemma {:induction false} MaxLengthBounds(ids: seq<StepId>, s: string)
    requires Text(s) in ids
    ensures |s| <= MaxLength(ids)
  {
    if ids[0] != Text(s) {
      assert ids == [ids[0]] + ids[1..];
      MaxLengthBounds(ids[1..], s);
    }
  }

  /** Renaming makes a text longer each time, and no used text is longer than the longest one. */
  lemma RenamingProgress(used: seq<StepId>, id: StepId, i: nat)
    requires id in used
    ensures Renamed(id, i).Text?
    ensures id.Text? ==> |id.s| <= MaxLength(used) && |Renamed(id, i).s| > |id.s|
  {
    if id.Text? {
      MaxLengthBounds(used, id.s);
    }
  }

  /** The first of id, id_i, id_i_i, ... that is not used yet. */
  ghost function UniqueId(used: seq<StepId>, id: StepId, i: nat): (r: StepId)
    ensures r !in used
    ensures id !in used ==> r == id
    decreases if id.Text? then 0 else 1, if id.Text? then MaxLength(used) - |id.s| else 0
  {
    if id in used then
      RenamingProgress(used, id, i);
      UniqueId(used, Renamed(id, i), i)
    else id
  }

  /** The identifiers given to the first n list entries; entries that are not objects get none. */
  ghost function AssignedIds(items: seq<StepData>, n: nat): seq<StepId>
    requires n <= |items| && forall j :: 0 <= j < n ==> !Unusable(items[j])
  {
    if n == 0 then [] else
    var before := AssignedIds(items, n - 1);
    assert !Unusable(items[n - 1]);
    if items[n - 1].NotAnObject? then before
    else before + [UniqueId(before, GivenId(items[n - 1], n - 1).id, n - 1)]
  }

  /** The dependencies the first n list entries ask for, under the identifiers they are given. */
  ghost function RequestedGraph(items: seq<StepData>, n: nat): Graph
    requires n <= |items| && forall j :: 0 <= j < n ==> !Unusable(items[j])
  {
    if n == 0 then map[] else
    var before := RequestedGraph(items, n - 1);
    assert !Unusable(items[n - 1]);
    if items[n - 1].NotAnObject? then before
    else before[UniqueId(AssignedIds(items, n - 1), GivenId(items[n - 1], n - 1).id, n - 1)
                := items[n - 1].dependencies]
  }

  /** A step with the fields of a list entry: all but its identifier and its dependencies. */
  ghost predicate Carries(step: PlanStep, d: StepData, i: nat)
    requires d.StepData?
    reads step`toolHint, step`status
  {
    && step.description == DescriptionOf(d.description, i)
    && step.toolHint == OrNone(d.toolHint) && step.retryStrategy == RetryOf(d.retryStrategy)
    && step.fallbackTool == OrNone(d.fallbackTool) && step.status == Pending
  }

  /** A step made from a list entry: everything but its identifier. */
  ghost predicate MadeFrom(step: PlanStep, d: StepData, i: nat)
    requires d.StepData?
    reads step
  {
    Carries(step, d, i) && step.dependencies == d.dependencies
  }

  /** The positions of the entries that become steps. */
  function Positions(items: seq<StepData>, n: nat): (r: seq<nat>)
    requires n <= |items|
    ensures forall k :: 0 <= k < |r| ==> r[k] < n && items[r[k]].StepData?
  {
    if n == 0 then [] else Positions(items, n - 1) + if items[n - 1].StepData? then [n - 1] else []
  }

  /** Looking the id up in the set of used ids raises. */
  predicate Unusable(d: StepData) {
    d.StepData? && d.id.Some? && d.id.value.Unhashable?
  }

  lemma {:induction false} AssignedDistinct(items: seq<StepData>, n: nat)
    requires n <= |items| && forall j :: 0 <= j < n ==> !Unusable(items[j])
    ensures var ids := AssignedIds(items, n);
            |ids| <= n && forall a, b :: 0 <= a < b < |ids| ==> ids[a] != ids[b]
  {
    hide UniqueId, GivenId;
    if n > 0 {
      AssignedDistinct(items, n - 1);
    }
  }

  /** What the i-th entry asks to be called, told by the entry alone: the id the model wrote, or, where it wrote none,
      "s" and the position counted from one. */
  predicate AsksFor(items: seq<StepData>, i: nat, id: StepId)
    requires i < |items|
  {
    && items[i].StepData?
    && if items[i].id.Some? then items[i].id == Some(Hashable(id)) else id == Text("s" + Decimal.OfNat(i + 1))
  }

  /** An entry gets what it asks for where no earlier one has it, and otherwise that and "_" and its position from zero
      behind it, unless this too is taken. */
  lemma AssignedAsAsked(items: seq<StepData>, i: nat, id: StepId)
    requires i < |items| && forall j :: 0 <= j <= i ==> !Unusable(items[j])
    requires AsksFor(items, i, id)
    ensures var before, after := AssignedIds(items, i), AssignedIds(items, i + 1);
            && (id !in before ==> after == before + [id])
            && (forall s :: id == Text(s) && id in before && Text(s + "_" + Decimal.OfNat(i)) !in before ==>
                  after == before + [Text(s + "_" + Decimal.OfNat(i))])
  {
  }

  /** Every entry is an object, these are what they ask to be called, and no two ask for the same. */
  ghost predicate Written(items: seq<StepData>, ids: seq<StepId>) {
    && |ids| == |items|
    && (forall j :: 0 <= j < |items| ==> items[j].StepData? && AsksFor(items, j, ids[j]))
    && forall a, b :: 0 <= a < b < |ids| ==> ids[a] != ids[b]
  }

  /** The graph has these identifiers, each with the dependencies its entry lists. */
  ghost predicate GraphAsWritten(items: seq<StepData>, ids: seq<StepId>, g: Graph)
    requires |ids| == |items| && forall j :: 0 <= j < |items| ==> items[j].StepData?
  {
    && (forall j :: 0 <= j < |ids| ==> ids[j] in g && g[ids[j]] == items[j].dependencies)
    && forall id :: id in g ==> id in ids
  }

  lemma AskedIsGiven(items: seq<StepData>, i: nat, id: StepId)
    requires i < |items| && AsksFor(items, i, id)
    ensures !Unusable(items[i]) && GivenId(items[i], i) == Hashable(id)
  {
  }

  lemma {:induction false} WrittenFront(items: seq<StepData>, ids: seq<StepId>, n: nat)
    requires Written(items, ids) && n <= |items|
    ensures AssignedIds(items, n) == ids[..n] && |Positions(items, n)| == n
    ensures forall k :: 0 <= k < n ==> Positions(items, n)[k] == k
  {
    hide UniqueId, AsksFor, GivenId;
    if n > 0 {
      WrittenFront(items, ids, n - 1);
      AskedIsGiven(items, n - 1, ids[n - 1]);
      assert ids[n - 1] !in ids[..n - 1];
      assert ids[..n] == ids[..n - 1] + [ids[n - 1]];
    }
  }

  /** A list whose entries ask for distinct ids keeps them all, in their order, and their dependencies with them. */
  lemma WrittenIsKept(items: seq<StepData>, ids: seq<StepId>)
    requires Written(items, ids)
    ensures forall j :: 0 <= j < |items| ==> !Unusable(items[j])
    ensures AssignedIds(items, |items|) == ids
    ensures GraphAsWritten(items, ids, RequestedGraph(items, |items|))
  {
    hide UniqueId, AsksFor, AssignedIds, Positions, RequestedGraph;
    WrittenFront(items, ids, |items|);
    assert ids[..|items|] == ids;
    forall j | 0 <= j < |items| ensures !Unusable(items[j]) {
      AskedIsGiven(items, j, ids[j]);
    }
    RequestedAt(items, |items|);
    var g := RequestedGraph(items, |items|);
    forall j | 0 <= j < |ids| ensures ids[j] in g && g[ids[j]] == items[j].dependencies {
      assert Positions(items, |items|)[j] == j;
    }
  }

  /** The fields of a step as its entry gives them; what is missing or empty has its default. */
  ghost predicate FieldsAsWritten(step: PlanStep, d: StepData, i: nat)
    requires d.StepData?
    reads step`toolHint, step`status
  {
    && step.description == (if d.description.Some? then d.description.value else "步骤 " + Decimal.OfNat(i + 1))
    && (forall h :: step.toolHint == Some(h) <==> d.toolHint == Some(h) && h != "")
    && (forall t :: step.fallbackTool == Some(t) <==> d.fallbackTool == Some(t) && t != "")
    && (forall s {:trigger Some(s)} :: s in {"ask_user", "skip"} ==>
          (step.retryStrategy == s <==> d.retryStrategy == Some(s)))
    && (step.retryStrategy !in {"ask_user", "skip"} ==> step.retryStrategy == "auto_retry")
    && step.status == Pending
  }

  lemma CarriedAsWritten(step: PlanStep, d: StepData, i: nat)
    requires d.StepData? && Carries(step, d, i)
    ensures FieldsAsWritten(step, d, i)
  {
  }

  /** The steps of a plan made from such a list are its entries. */
  lemma StepsAsWritten(steps: seq<PlanStep>, items: seq<StepData>, ids: seq<StepId>)
    requires Written(items, ids) && StepsCarry(steps, items, |items|)
    ensures |steps| == |ids|
    ensures forall j :: 0 <= j < |ids| ==> steps[j].id == ids[j] && FieldsAsWritten(steps[j], items[j], j)
  {
    hide AssignedIds, Positions, Carries, FieldsAsWritten;
    WrittenFront(items, ids, |items|);
    assert ids[..|items|] == ids;
    forall j | 0 <= j < |ids| ensures FieldsAsWritten(steps[j], items[j], j) {
      assert Carries(steps[j], items[Positions(items, |items|)[j]], Positions(items, |items|)[j]);
      CarriedAsWritten(steps[j], items[j], j);
    }
  }

  /** The graph by positions. */
  lemma {:induction false} RequestedAt(items: seq<StepData>, n: nat)
    requires n <= |items| && forall j :: 0 <= j < n ==> !Unusable(items[j])
    ensures |AssignedIds(items, n)| == |Positions(items, n)|
    ensures forall k :: 0 <= k < |Positions(items, n)| ==>
              && AssignedIds(items, n)[k] in RequestedGraph(items, n)
              && RequestedGraph(items, n)[AssignedIds(items, n)[k]] == items[Positions(items, n)[k]].dependencies
    ensures forall id :: id in RequestedGraph(items, n) ==> id in AssignedIds(items, n)
  {
    hide UniqueId, GivenId;
    if n > 0 {
      RequestedAt(items, n - 1);
      AssignedDistinct(items, n);
    }
  }

  /** The steps carry the identifiers and fields of the first n entries, in their order. */
  ghost predicate StepsCarry(steps: seq<PlanStep>, items: seq<StepData>, n: nat)
    requires n <= |items| && forall j :: 0 <= j < n ==> !Unusable(items[j])
    reads steps`toolHint, steps`status
  {
    && |steps| == |AssignedIds(items, n)| == |Positions(items, n)|
    && (forall k :: 0 <= k < |steps| ==> steps[k].id == AssignedIds(items, n)[k])
    && forall k :: 0 <= k < |steps| ==> Carries(steps[k], items[Positions(items, n)[k]], Positions(items, n)[k])
  }

  lemma MadeCarry(steps: seq<PlanStep>, items: seq<StepData>, n: nat)
    requires n <= |items| && forall j :: 0 <= j < n ==> !Unusable(items[j])
    requires StepsMade(steps, items, n)
    ensures StepsCarry(steps, items, n)
  {
    forall k | 0 <= k < |steps| ensures Carries(steps[k], items[Positions(items, n)[k]], Positions(items, n)[k]) {
      assert MadeFrom(steps[k], items[Positions(items, n)[k]], Positions(items, n)[k]);
    }
  }

  /** The steps made from the first n entries, in their order. */
  ghost predicate StepsMade(steps: seq<PlanStep>, items: seq<StepData>, n: nat)
    requires n <= |items| && forall j :: 0 <= j < n ==> !Unusable(items[j])
    reads steps
  {
    && |steps| == |AssignedIds(items, n)| == |Positions(items, n)|
    && (forall k :: 0 <= k < |steps| ==> steps[k].id == AssignedIds(items, n)[k])
    && forall k :: 0 <= k < |steps| ==> MadeFrom(steps[k], items[Positions(items, n)[k]], Positions(items, n)[k])
  }

  lemma NoSteps(items: seq<StepData>)
    ensures StepsMade([], items, 0)
  {
  }

  lemma AddNothing(steps: seq<PlanStep>, items: seq<StepData>, n: nat)
    requires n < |items| && forall j :: 0 <= j <= n ==> !Unusable(items[j])
    requires StepsMade(steps, items, n) && items[n].NotAnObject?
    ensures StepsMade(steps, items, n + 1) && AssignedIds(items, n + 1) == AssignedIds(items, n)
  {
    hide MadeFrom, UniqueId;
  }

  lemma AddStep(steps: seq<PlanStep>, items: seq<StepData>, n: nat, given: StepId, step: PlanStep)
    requires n < |items| && forall j :: 0 <= j <= n ==> !Unusable(items[j])
    requires StepsMade(steps, items, n) && items[n].StepData? && MadeFrom(step, items[n], n)
    requires GivenId(items[n], n) == Hashable(given) && step.id == UniqueId(AssignedIds(items, n), given, n)
    ensures StepsMade(steps + [step], items, n + 1) && AssignedIds(items, n + 1) == AssignedIds(items, n) + [step.id]
  {
    hide MadeFrom, UniqueId;
  }

  lemma StepsAreDistinct(steps: seq<PlanStep>, items: seq<StepData>)
    requires forall j :: 0 <= j < |items| ==> !Unusable(items[j])
    requires StepsMade(steps, items, |items|)
    ensures Plan.DistinctIds(steps) && |steps| <= |items|
    ensures forall s :: s in steps ==> s.status == Pending
  {
    AssignedDistinct(items, |items|);
  }

  /** A plan's dependencies, told by a list of its identifiers. */
  lemma GraphByIds(plan: Plan, ids: seq<StepId>, g: Graph)
    requires plan.Valid() && |plan.steps| == |ids|
    requires forall k :: 0 <= k < |ids| ==> plan.steps[k].id == ids[k]
    requires forall k :: 0 <= k < |ids| ==> ids[k] in g && g[ids[k]] == plan.steps[k].dependencies
    requires forall id :: id in g ==> id in ids
    ensures plan.deps == g
  {
    forall k | 0 <= k < |ids| ensures ids[k] in plan.deps && plan.deps[ids[k]] == g[ids[k]] {
      assert plan.steps[k] in plan.steps;
    }
    forall id | id in plan.deps ensures id in ids {
      assert plan.Names(id);
    }
    assert plan.deps.Keys == g.Keys;
  }

  lemma PlanHasRequestedGraph(plan: Plan, items: seq<StepData>)
    requires plan.Valid() && forall j :: 0 <= j < |items| ==> !Unusable(items[j])
    requires StepsMade(plan.steps, items, |items|)
    ensures plan.deps == RequestedGraph(items, |items|)
  {
    hide RequestedGraph, AssignedIds, Positions;
    RequestedAt(items, |items|);
    var ids, positions := AssignedIds(items, |items|), Positions(items, |items|);
    forall k | 0 <= k < |ids|
      ensures ids[k] in RequestedGraph(items, |items|)
              && RequestedGraph(items, |items|)[ids[k]] == plan.steps[k].dependencies
    {
      assert MadeFrom(plan.steps[k], items[positions[k]], positions[k]);
    }
    GraphByIds(plan, ids, RequestedGraph(items, |items|));
  }

  method FreshId(stepIds: set<StepId>, ghost used: seq<StepId>, given: StepId, i: nat) returns (sid: StepId)
    requires forall id :: id in stepIds <==> id in used
    ensures sid == UniqueId(used, given, i)
  {
    sid := given;
    while sid in stepIds
      invariant UniqueId(used, sid, i) == UniqueId(used, given, i)
      decreases if sid.Text? then 0 else 1, if sid.Text? then MaxLength(used) - |sid.s| else 0
    {
      RenamingProgress(used, sid, i);
      sid := Renamed(sid, i);
    }
  }

  function OrNone(o: Option<string>): Option<string> {
    if o == Some("") then None else o
  }

  function RetryOf(o: Option<string>): (r: string)
    ensures r in {"auto_retry", "ask_user", "skip"}
  {
    if o.Some? && o.value in {"auto_retry", "ask_user", "skip"} then o.value else "auto_retry"
  }

  function DescriptionOf(o: Option<string>, i: nat): string {
    if o.Some? then o.value else "步骤 " + Decimal.OfNat(i + 1)
  }

  method ParseStep(d: StepData, i: nat, sid: StepId) returns (step: PlanStep)
    requires d.StepData?
    ensures fresh(step) && step.id == sid && step.status == Pending
    ensures MadeFrom(step, d, i)
  {
    step := new PlanStep(sid, DescriptionOf(d.description, i), d.dependencies, OrNone(d.toolHint),
                         RetryOf(d.retryStrategy), OrNone(d.fallbackTool), []);
  }

  /** At most maxSteps entries are read; an unusable id among them raises; the rest get distinct ids. */
  method ParsePlan(data: StepsField, maxSteps: int) returns (r: ParseOutcome)
    ensures r.NoPlan? <==> data.NotAList? || data.items == []
    ensures r.TypeError? <==> data.Steps? && data.items != [] &&
                              exists d :: d in TakeUpTo(data.items, maxSteps) && Unusable(d)
    ensures r.Parsed? ==>
              var items := TakeUpTo(data.items, maxSteps);
              && fresh(r.plan) && fresh(r.plan.steps) && r.plan.Valid()
                  && r.plan.completedSteps == r.plan.failedSteps == 0
              && (forall d :: d in items ==> !Unusable(d))
              && StepsMade(r.plan.steps, items, |items|) && |r.plan.steps| <= |items|
              && r.plan.deps == RequestedGraph(items, |items|)
    ensures r.Parsed? && maxSteps >= 0 ==> |r.plan.steps| <= maxSteps
  {
    hide StepsMade;
    if data.NotAList? || data.items == [] {
      return NoPlan;
    }
    var items := TakeUpTo(data.items, maxSteps);
    var steps: seq<PlanStep> := [];
    var stepIds: set<StepId> := {};
    NoSteps(items);
    for i := 0 to |items|
      invariant forall j :: 0 <= j < i ==> !Unusable(items[j])
      invariant StepsMade(steps, items, i)
      invariant forall id :: id in stepIds <==> id in AssignedIds(items, i)
      invariant fresh(steps)
    {
      assert Unusable(items[i]) ==> items[i] in items;
      if items[i].StepData? {
        var given := GivenId(items[i], i);
        if given.Unhashable? {
          return TypeError;
        }
        var sid := FreshId(stepIds, AssignedIds(items, i), given.id, i);
        var step := ParseStep(items[i], i, sid);
        AddStep(steps, items, i, given.id, step);
        stepIds := stepIds + {sid};
        steps := steps + [step];
      } else {
        AddNothing(steps, items, i);
      }
    }
    StepsAreDistinct(steps, items);
    var plan := new Plan(steps);
    PlanHasRequestedGraph(plan, items);
    r := Parsed(plan);
  }
}

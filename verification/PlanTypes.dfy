/** The values a plan is made of: step identifiers, statuses and dependency graphs. */
module PlanTypes {

  /** A step identifier as it arrives from JSON: usually a string, but a number or null is hashable too. */
  datatype StepId = Text(s: string) | Number(n: int) | Null

  datatype Status = Pending | Running | Completed | Failed | Skipped

  /** What one execution of a step comes to: given up or not, and the text it emitted. */
  datatype Outcome = Outcome(failed: bool, text: string)

  /** Every step identifier with the identifiers it depends on, repetitions kept. */
  type Graph = map<StepId, seq<StepId>>

  type Statuses = map<StepId, Status>

  type Outcomes = map<StepId, Outcome>
}

/** What identifies one attempt at one step of one run. */
module Keys {
  import opened Values
  import opened Graphs

  /** Everything the hash of a step's inputs is taken over. */
  datatype StepInputs = StepInputs(
    node: NodeId, task: string, data: Fields, artifacts: Fields, attempt: nat, graphVersion: string)

  /** The idempotency key of a step: the run and the hashed inputs, taken as the inputs themselves. */
  datatype StepKey = StepKey(runId: string, inputs: StepInputs)
}

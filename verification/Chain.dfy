/** Sequential execution (`pkg/chain/chain.go`). */
module Chain {
  import opened GraphExec

  datatype ChainStep<!S> = ChainStep(id: string, run: Runnable<S>)

  datatype ChainResult<S> =
    | Completed(state: S)
    | Interrupted(state: S)
    | StepFailed(state: S, step: string, error: string)

  /** Running the steps one after the other, the first of them at `tick`. */
  function RunSteps<S>(steps: seq<ChainStep<S>>, cancelled: nat -> bool, tick: nat, state: S): ChainResult<S>
    decreases |steps|
  {
    if |steps| == 0 then Completed(state)
    else if cancelled(tick) then Interrupted(state)
    else
      match steps[0].run(tick, state)
      case Fail(left, error) => StepFailed(left, steps[0].id, error)
      case Ok(out) => RunSteps(steps[1..], cancelled, tick + 1, out)
  }

  method Invoke<S>(steps: seq<ChainStep<S>>, input: S, cancelled: nat -> bool) returns (r: ChainResult<S>)
    ensures r == RunSteps(steps, cancelled, 0, input)
  {
    var current := input;
    for i := 0 to |steps|
      invariant RunSteps(steps, cancelled, 0, input) == RunSteps(steps[i..], cancelled, i, current)
    {
      if cancelled(i) {
        return Interrupted(current);
      }
      var out := steps[i].run(i, current);
      if out.Fail? {
        return StepFailed(out.left, steps[i].id, out.error);
      }
      assert steps[i..][1..] == steps[i + 1..];
      current := out.value;
    }
    return Completed(current);
  }
}

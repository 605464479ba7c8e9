/**
 * What a step executor sees and leaves behind. `getInput(name)` reads the
 * phase's input values; `setOutput` and `log.error` are recorded in a `Run`
 * together with the boolean the executor returns.
 *
 * Informational logs (`log.info`, `log.success`) carry timings and sizes
 * and are not part of this model.
 */
module ExecutorIo {
  import opened Common
  import opened Json

  /** The phase's input values by name; a name without a value reads as `undefined`. */
  type Inputs = map<string, string>

  /** `getInput(name)` where the executor only goes on with a truthy value. */
  function Input(inputs: Inputs, name: string): (r: Option<string>)
    ensures r.Some? <==> name in inputs && inputs[name] != ""
    ensures r.Some? ==> r.value == inputs[name]
  {
    if name in inputs && inputs[name] != "" then Some(inputs[name]) else None
  }

  /** `getInput(name) || fallback`: the input's value when it is non-empty, the fallback otherwise. */
  function InputOr(inputs: Inputs, name: string, fallback: string): (r: string)
    ensures Input(inputs, name).Some? ==> r == Input(inputs, name).value
    ensures Input(inputs, name).None? ==> r == fallback
  {
    match Input(inputs, name)
    case Some(v) => v
    case None => fallback
  }

  /** The returned boolean, the `setOutput` calls in order, and the `log.error` messages in order. */
  datatype Run = Run(success: bool, outputs: seq<(string, Value)>, errors: seq<string>)

  /** An executor that logs one error and returns false. */
  function Fail(message: string): (r: Run)
    ensures !r.success && r.outputs == [] && r.errors == [message]
  {
    Run(false, [], [message])
  }

  /** An executor that sets these outputs and returns true. */
  function Done(outputs: seq<(string, Value)>): (r: Run)
    ensures r.success && r.outputs == outputs && r.errors == []
  {
    Run(true, outputs, [])
  }

  /** The value the last `setOutput(name, …)` of a run gave. */
  function OutputOf(run: Run, name: string): Option<Value> {
    LastValue(run.outputs, name)
  }
}

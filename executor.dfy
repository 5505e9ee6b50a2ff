/**
 * The command executor as an abstract oracle. Every external command the
 * components run (through the executor's WSL channel, with an explicit or the
 * default timeout, or through the live relay) is recorded as an `Invocation`;
 * the answer to the n-th invocation of a run is `answer(n, invocation)`, so the
 * same command may answer differently before and after an installation step.
 */
module Executor {
  import opened TextOps

  /** `(exit_code, output)` as the executor returns it. */
  datatype Response = Response(code: int, output: string)

  /**
   * `Captured(t)`: `ExecuteWSL(cmd, t)`, where `None` is the executor's default
   * timeout. `Relay`: `WSLProcess::Execute`, whose exit code alone is used.
   * `PowerShell`: `ExecutePowerShell(cmd)` on the Windows side.
   * The command-line layer calls `ExecCommandEx` itself: `Console(t)` with the
   * command text as given, `WslConsole(d, t)` with it wrapped by
   * `BuildWSLCommand` for distribution `d`, and `WslRelay(d)` hands the wrapped
   * text to `WSLProcess::Execute`.
   */
  datatype Channel =
    | Captured(timeout: Option<int>)
    | Relay
    | PowerShell
    | Console(seconds: int)
    | WslConsole(distro: string, seconds: int)
    | WslRelay(distro: string)

  datatype Invocation = Invocation(command: string, channel: Channel)

  /** The oracle and the invocations made so far. */
  datatype World = World(answer: (nat, Invocation) -> Response, log: seq<Invocation>)

  /** One invocation: answered by its position in the run, and logged. */
  function Run(w: World, inv: Invocation): (out: (Response, World))
    ensures out.0 == w.answer(|w.log|, inv)
    ensures out.1.answer == w.answer && out.1.log == w.log + [inv]
  {
    (w.answer(|w.log|, inv), World(w.answer, w.log + [inv]))
  }

  /** The executor object the components share. */
  class Host {
    const answer: (nat, Invocation) -> Response
    var log: seq<Invocation>

    constructor (answer: (nat, Invocation) -> Response)
      ensures this.answer == answer && log == []
    {
      this.answer := answer;
      log := [];
    }

    function State(): World
      reads this
    {
      World(answer, log)
    }

    method Execute(inv: Invocation) returns (r: Response)
      modifies this
      ensures r == Run(old(State()), inv).0
      ensures State() == Run(old(State()), inv).1
    {
      r := answer(|log|, inv);
      log := log + [inv];
    }
  }
}

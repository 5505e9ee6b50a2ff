/**
 * The values every environment component produces: an installation status,
 * the component's identity, a per-component result with its diagnostic code,
 * and the aggregate result of one check or install pass.
 */
module EnvTypes {

  datatype InstallationStatus = Success | Skipped | Failed | InProgress | Warning

  /**
   * Component identities. The six named here are the ones whose checkers are
   * part of this model; the others live in files the model does not include.
   */
  datatype EnvironmentComponent =
    | OSVersion
    | NvidiaGPU
    | NvidiaDriver
    | BIOSVirtualization
    | PipUpgrade
    | ParallaxProject
    | OtherComponent(id: nat)

  /** `{component, status, message, code}`; `code` is a diagnostic, not an exit code. */
  datatype ComponentResult = ComponentResult(
    component: EnvironmentComponent,
    status: InstallationStatus,
    message: string,
    code: int)

  /** What the orchestrator returns to the command layer. */
  datatype EnvironmentResult = EnvironmentResult(
    componentResults: seq<ComponentResult>,
    rebootRequired: bool,
    overallMessage: string)

  /** `CreateSuccessResult`: the base component's helper, non-failure code 0. */
  function SuccessResult(c: EnvironmentComponent, message: string): (r: ComponentResult)
    ensures r.component == c && r.status == Success && r.message == message
  {
    ComponentResult(c, Success, message, 0)
  }

  /** `CreateSkippedResult`: already satisfied. */
  function SkippedResult(c: EnvironmentComponent, message: string): (r: ComponentResult)
    ensures r.component == c && r.status == Skipped && r.message == message
  {
    ComponentResult(c, Skipped, message, 0)
  }

  /** `CreateWarningResult`. */
  function WarningResult(c: EnvironmentComponent, message: string): (r: ComponentResult)
    ensures r.component == c && r.status == Warning && r.message == message
  {
    ComponentResult(c, Warning, message, 0)
  }

  /** `CreateFailureResult(message, code)`. */
  function FailureResult(c: EnvironmentComponent, message: string, code: int): (r: ComponentResult)
    ensures r.component == c && r.status == Failed && r.message == message && r.code == code
  {
    ComponentResult(c, Failed, message, code)
  }
}

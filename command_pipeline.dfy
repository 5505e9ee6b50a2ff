/**
 * The template method every command runs (`BaseCommand::Execute`): a help
 * request wins outright; otherwise the arguments are validated, the
 * environment is prepared and the command's own step runs, and the first
 * result that is not `Success` is the answer.
 */
module CommandPipeline {
  import opened TextOps
  import opened Executor
  import EnvTypes
  import opened BaseCommand
  import Config
  import CheckCommand
  import InstallCommand
  import ModelCommands

  /** The five commands whose classes are part of this model. */
  datatype Kind = Check | Install | Run | Join | Chat

  predicate IsModelKind(k: Kind)
  {
    k == Run || k == Join || k == Chat
  }

  /** `GetName`. */
  function Name(k: Kind): string
  {
    match k
    case Check => "check"
    case Install => "install"
    case Run => ModelCommands.RunName
    case Join => ModelCommands.JoinName
    case Chat => ModelCommands.ChatName
  }

  /** `check` and `install` are administrator commands; the model commands need WSL. */
  function KindRequirements(k: Kind): (req: Requirements)
    ensures req.needAdmin <==> !IsModelKind(k)
    ensures req.needWsl <==> IsModelKind(k)
  {
    if IsModelKind(k) then ModelCommands.ModelRequirements(Name(k)) else AdminRequirements()
  }

  /** `ValidateArgsImpl` of each command. */
  function ValidateArgs(k: Kind, args: seq<string>): CommandResult
  {
    if IsModelKind(k) then ModelCommands.ValidateModelArgs(args) else OnlyHelpArgs(args)
  }

  /**
   * `ExecuteImpl` of each command: `check` and `install` consume the
   * orchestrator's result `env`, the model commands call the relay.
   */
  function ExecuteImplOutcome(k: Kind, args: seq<string>, distro: string, proxy: string,
                              env: EnvTypes.EnvironmentResult, w: World): (CommandResult, World)
  {
    match k
    case Check => (CheckCommand.CheckResult(CheckCommand.CheckExitCode(env)), w)
    case Install => (InstallCommand.InstallResult(InstallCommand.InstallExitCode(env)), w)
    case _ => ModelCommands.ModelExecute(Name(k), proxy, distro, args, w)
  }

  /** `Execute`: the stages in order, stopping at the first result that is not `Success`. */
  function ExecuteOutcome(k: Kind, args: seq<string>, distro: string, proxy: string, isAdmin: bool,
                          env: EnvTypes.EnvironmentResult, w: World): (CommandResult, World)
  {
    if ShouldShowHelp(args) then (Success, w)
    else
      var v := ValidateArgs(k, args);
      if v != Success then (v, w)
      else
        var (p, w1, _) := PrepareOutcome(KindRequirements(k), isAdmin, distro, w);
        if p != Success then (p, w1)
        else ExecuteImplOutcome(k, args, distro, proxy, env, w1)
  }

  /** `ExecuteImpl` on a prepared context. */
  method ExecuteImpl(k: Kind, ctx: Context, env: EnvTypes.EnvironmentResult, host: Host) returns (r: CommandResult)
    modifies host
    ensures (r, host.State()) == ExecuteImplOutcome(k, ctx.args, ctx.ubuntuVersion, ctx.proxyUrl, env, old(host.State()))
  {
    match k
    case Check =>
      var code := CheckCommand.CheckAllComponents(env);
      r := CheckCommand.CheckResult(code);
    case Install =>
      var code := InstallCommand.InstallAllComponents(env);
      r := InstallCommand.InstallResult(code);
    case _ =>
      r := ModelCommands.ExecuteModelCommand(Name(k), ctx, host);
  }

  /** `BaseCommand::Execute` with the configuration, the proxy and the administrator flag it reads. */
  method Execute(k: Kind, args: seq<string>, cfg: Config.ConfigManager, proxyUrl: string, isAdmin: bool,
                 env: EnvTypes.EnvironmentResult, host: Host) returns (r: CommandResult)
    modifies host
    ensures (r, host.State()) ==
      ExecuteOutcome(k, args, cfg.GetConfigValue(Config.KeyWslLinuxDistro, ""), proxyUrl, isAdmin, env, old(host.State()))
  {
    var ctx := new Context(args);
    if ShouldShowHelp(ctx.args) {
      return Success;
    }
    r := ValidateArgs(k, ctx.args);
    if r != Success {
      return;
    }
    r := PrepareEnvironment(ctx, KindRequirements(k), cfg, proxyUrl, isAdmin, host);
    if r != Success {
      return;
    }
    r := ExecuteImpl(k, ctx, env, host);
  }

  // ---------------------------------------------------------------------------
  // Properties of the pipeline

  /** A help flag anywhere answers `Success` with nothing run. */
  lemma HelpWins(k: Kind, args: seq<string>, distro: string, proxy: string, isAdmin: bool,
                 env: EnvTypes.EnvironmentResult, w: World, i: nat)
    requires i < |args| && IsHelpArg(args[i])
    ensures ExecuteOutcome(k, args, distro, proxy, isAdmin, env, w) == (Success, w)
  {
  }

  /**
   * `Success` needs every stage to succeed; a failed validation runs nothing,
   * and a failed preparation runs at most the WSL listing.
   */
  lemma FirstFailureWins(k: Kind, args: seq<string>, distro: string, proxy: string, isAdmin: bool,
                         env: EnvTypes.EnvironmentResult, w: World)
    requires !ShouldShowHelp(args)
    ensures var (r, w') := ExecuteOutcome(k, args, distro, proxy, isAdmin, env, w);
      var prep := PrepareOutcome(KindRequirements(k), isAdmin, distro, w);
      && (ValidateArgs(k, args) != Success ==> r == ValidateArgs(k, args) && w' == w)
      && (ValidateArgs(k, args) == Success && prep.0 != Success ==> r == prep.0 && w' == prep.1)
      && (r == Success <==>
            ValidateArgs(k, args) == Success && prep.0 == Success
            && ExecuteImplOutcome(k, args, distro, proxy, env, prep.1).0 == Success)
  {
  }

  /** Without help flags, no argument at all is the only one a `check` or `install` accepts. */
  lemma AdminArgs(k: Kind, args: seq<string>)
    requires !IsModelKind(k) && !ShouldShowHelp(args)
    ensures ValidateArgs(k, args) == Success <==> args == []
  {
    if args != [] {
      assert !IsHelpArg(args[0]);
    }
  }

  /**
   * `prakasa check` end to end: success exactly for no arguments, with
   * administrator rights, no pending reboot and no failed component; the
   * relay is never called.
   */
  lemma CheckEndToEnd(args: seq<string>, distro: string, proxy: string, isAdmin: bool,
                      env: EnvTypes.EnvironmentResult, w: World)
    requires !ShouldShowHelp(args)
    ensures var (r, w') := ExecuteOutcome(Check, args, distro, proxy, isAdmin, env, w);
      && w' == w
      && (r == Success <==>
            args == [] && isAdmin && !env.rebootRequired && !CheckCommand.AnyStatus(env.componentResults, EnvTypes.Failed))
      && (args != [] ==> r == InvalidArgs)
      && (args == [] && !isAdmin ==> r == EnvironmentError)
  {
    AdminArgs(Check, args);
    CheckCommand.CheckPasses(env);
  }

  /**
   * `prakasa install` end to end: it fails with `ExecutionError` exactly
   * when it gets as far as installing and a component failed without a
   * pending reboot.
   */
  lemma InstallEndToEnd(args: seq<string>, distro: string, proxy: string, isAdmin: bool,
                        env: EnvTypes.EnvironmentResult, w: World)
    requires !ShouldShowHelp(args)
    ensures var (r, w') := ExecuteOutcome(Install, args, distro, proxy, isAdmin, env, w);
      && w' == w
      && (r == Success <==>
            args == [] && isAdmin
            && (env.rebootRequired || !CheckCommand.AnyStatus(env.componentResults, EnvTypes.Failed)))
      && (r == ExecutionError <==>
            args == [] && isAdmin
            && !env.rebootRequired && CheckCommand.AnyStatus(env.componentResults, EnvTypes.Failed))
  {
    AdminArgs(Install, args);
    InstallCommand.InstallFails(env);
  }

  /**
   * A model command end to end: the WSL listing runs first; only when it
   * names the distribution does the relay run, and the relay's exit code
   * decides. The proxy is passed whenever one is configured.
   */
  lemma ModelEndToEnd(k: Kind, args: seq<string>, distro: string, proxy: string, isAdmin: bool,
                      env: EnvTypes.EnvironmentResult, w: World)
    requires IsModelKind(k) && !ShouldShowHelp(args)
    ensures var (r, w') := ExecuteOutcome(k, args, distro, proxy, isAdmin, env, w);
      var listed := WslListed(w, distro).0;
      var relay := ModelCommands.RelayInvocation(Name(k), proxy, distro, args);
      && w'.answer == w.answer
      && (!listed ==> r == EnvironmentError && w'.log == w.log + [WslListQuery])
      && (listed ==> w'.log == w.log + [WslListQuery, relay]
                     && (r == Success <==> w.answer(|w.log| + 1, relay).code == 0)
                     && (r != Success ==> r == ExecutionError))
  {
    PrepareLaw(KindRequirements(k), isAdmin, distro, w);
    var (p, w1, _) := PrepareOutcome(KindRequirements(k), isAdmin, distro, w);
    if p == Success {
      assert |w1.log| == |w.log| + 1;
      assert w.log + [WslListQuery] + [ModelCommands.RelayInvocation(Name(k), proxy, distro, args)]
          == w.log + [WslListQuery, ModelCommands.RelayInvocation(Name(k), proxy, distro, args)];
    }
  }
}

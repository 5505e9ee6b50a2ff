/**
 * The top-level dispatcher (`CommandParser`): a registry of named commands,
 * the global options, and the hand-off of the remaining arguments to the
 * command found by name.
 */
module CommandParser {
  import opened TextOps
  import opened Executor
  import EnvTypes
  import BaseCommand
  import Config
  import CommandPipeline

  /**
   * What a registered name runs: one of the command classes of this model,
   * or a command whose class is not part of it (`config`, `cmd`).
   */
  datatype Handler = Builtin(kind: CommandPipeline.Kind) | External(id: string)

  datatype Command = Command(name: string, description: string, handler: Handler)

  /**
   * The outcome of a handler outside the model, by its id and arguments:
   * the code it returns, or `None` when it throws.
   */
  type ExternalOutcome = (string, seq<string>) -> Option<int>

  /** The descriptions the help list shows. */
  const CheckDescription := "Check environment requirements"
  const InstallDescription := "Install required environment components"
  const ConfigDescription := "Configure parallax settings"
  const RunDescription := "Run Parallax inference server directly in WSL"
  const JoinDescription := "Join distributed inference cluster as a node"
  const ChatDescription := "Access chat interface from non-scheduler computer"
  const CmdDescription := "Execute commands in WSL or Python virtual environment"

  /** `InitializeBuiltinCommands`: the registration order and the descriptions. */
  function BuiltinCommands(): seq<Command>
  {
    [ Command("check", CheckDescription, Builtin(CommandPipeline.Check)),
      Command("install", InstallDescription, Builtin(CommandPipeline.Install)),
      Command("config", ConfigDescription, External("config")),
      Command("run", RunDescription, Builtin(CommandPipeline.Run)),
      Command("join", JoinDescription, Builtin(CommandPipeline.Join)),
      Command("chat", ChatDescription, Builtin(CommandPipeline.Chat)),
      Command("cmd", CmdDescription, External("cmd")) ]
  }

  /** `FindCommand`: the first registered command with the name. */
  function Find(commands: seq<Command>, name: string): Option<Command>
    decreases |commands|
  {
    if commands == [] then None
    else if commands[0].name == name then Some(commands[0])
    else Find(commands[1..], name)
  }

  /** Both directions: a hit is the first command with the name, a miss means none has it. */
  lemma {:induction false} FindFirst(commands: seq<Command>, name: string)
    ensures Find(commands, name).None? <==> forall i :: 0 <= i < |commands| ==> commands[i].name != name
    ensures Find(commands, name).Some? ==>
      exists i :: 0 <= i < |commands| && commands[i] == Find(commands, name).value
        && commands[i].name == name && forall j :: 0 <= j < i ==> commands[j].name != name
    decreases |commands|
  {
    if commands != [] && commands[0].name != name {
      FindFirst(commands[1..], name);
      assert forall i :: 1 <= i < |commands| ==> commands[i] == commands[1..][i - 1];
      if Find(commands, name).Some? {
        var i :| 0 <= i < |commands[1..]| && commands[1..][i] == Find(commands, name).value
          && commands[1..][i].name == name && forall j :: 0 <= j < i ==> commands[1..][j].name != name;
        assert commands[i + 1] == commands[1..][i];
      }
    } else if commands != [] {
      assert commands[0] == Find(commands, name).value;
    }
  }

  /** The first index with the name, when nothing before it has the name, is what `Find` returns. */
  lemma {:induction false} FindAt(commands: seq<Command>, name: string, i: nat)
    requires i < |commands| && commands[i].name == name
    requires forall j :: 0 <= j < i ==> commands[j].name != name
    ensures Find(commands, name) == Some(commands[i])
    decreases i
  {
    if i > 0 {
      assert forall j :: 0 <= j < i - 1 ==> commands[1..][j] == commands[j + 1];
      FindAt(commands[1..], name, i - 1);
    }
  }

  /** The options handled before any lookup. */
  predicate IsGlobalOption(a: string)
  {
    a == "--help" || a == "-h" || a == "--version" || a == "-v"
  }

  /**
   * `Parse`: no argument vector is 1, a bare program name shows help and is
   * 0, a global option is 0, an unknown name is 1, and a found command runs
   * on `argv[2..]` and its code is returned (1 when its handler throws).
   */
  function ParseOutcome(commands: seq<Command>, argv: seq<string>, distro: string, proxy: string,
                        isAdmin: bool, env: EnvTypes.EnvironmentResult, external: ExternalOutcome,
                        w: World): (int, World)
  {
    if |argv| < 1 then (1, w)
    else if |argv| == 1 then (0, w)
    else if IsGlobalOption(argv[1]) then (0, w)
    else
      match Find(commands, argv[1])
      case None => (1, w)
      case Some(c) => HandlerOutcome(c.handler, argv[2..], distro, proxy, isAdmin, env, external, w)
  }

  /** What a handler returns: a command class's result as an int, or the outside handler's code. */
  function HandlerOutcome(h: Handler, args: seq<string>, distro: string, proxy: string,
                          isAdmin: bool, env: EnvTypes.EnvironmentResult, external: ExternalOutcome,
                          w: World): (int, World)
  {
    match h
    case Builtin(k) =>
      var (r, w1) := CommandPipeline.ExecuteOutcome(k, args, distro, proxy, isAdmin, env, w);
      (BaseCommand.ToInt(r), w1)
    case External(id) =>
      match external(id, args)
      case None => (1, w)
      case Some(code) => (code, w)
  }

  // ---------------------------------------------------------------------------
  // Help layout

  /** The spaces after a name in the help list: up to column 15, at least one. */
  function PaddingWidth(name: string): (n: nat)
    ensures n >= 1
    ensures |name| < 15 ==> |name| + n == 15
    ensures |name| >= 14 ==> n == 1
  {
    if 15 - |name| < 1 then 1 else 15 - |name|
  }

  /** One line of the command list. */
  function HelpLine(c: Command): string
  {
    "  " + c.name + Spaces(PaddingWidth(c.name)) + c.description + "\n"
  }

  /** For a name of at most 14 characters the description starts in column 17; a longer name is followed by one space. */
  lemma HelpLineColumns(c: Command)
    ensures var line := HelpLine(c);
      && line[2..2 + |c.name|] == c.name
      && (|c.name| <= 14 ==> line[17..17 + |c.description|] == c.description)
      && (|c.name| >= 14 ==> line[2 + |c.name|..] == " " + c.description + "\n")
  {
    var pad := Spaces(PaddingWidth(c.name));
    var line := HelpLine(c);
    assert line == "  " + c.name + pad + c.description + "\n";
    assert |"  " + c.name + pad| == 2 + |c.name| + PaddingWidth(c.name);
    if |c.name| >= 14 {
      assert pad == " ";
    }
  }

  /** The command list of `ShowHelp`: one help line per command, in registration order. */
  function HelpList(cs: seq<Command>): string
  {
    if cs == [] then "" else HelpList(cs[..|cs| - 1]) + HelpLine(cs[|cs| - 1])
  }

  /** The list of two registries is the list of the first followed by the list of the second. */
  lemma {:induction false} HelpListAppend(a: seq<Command>, b: seq<Command>)
    ensures HelpList(a + b) == HelpList(a) + HelpList(b)
    decreases |b|
  {
    if b == [] {
      assert a + b == a;
    } else {
      var init := b[..|b| - 1];
      assert (a + b)[..|a + b| - 1] == a + init;
      assert (a + b)[|a + b| - 1] == b[|b| - 1];
      HelpListAppend(a, init);
      AppendAssoc(HelpList(a), HelpList(init), HelpLine(b[|b| - 1]));
    }
  }

  class CommandParser {
    var commands: seq<Command>
    var programName: string

    /** The constructor registers the built-in commands. */
    constructor ()
      ensures commands == BuiltinCommands() && programName == ""
    {
      commands := [];
      programName := "";
      new;
      InitializeBuiltinCommands();
    }

    method RegisterCommand(name: string, description: string, handler: Handler)
      modifies this
      ensures commands == old(commands) + [Command(name, description, handler)]
      ensures programName == old(programName)
    {
      commands := commands + [Command(name, description, handler)];
    }

    method InitializeBuiltinCommands()
      modifies this
      ensures commands == old(commands) + BuiltinCommands()
      ensures programName == old(programName)
    {
      RegisterCommand("check", CheckDescription, Builtin(CommandPipeline.Check));
      RegisterCommand("install", InstallDescription, Builtin(CommandPipeline.Install));
      RegisterCommand("config", ConfigDescription, External("config"));
      RegisterCommand("run", RunDescription, Builtin(CommandPipeline.Run));
      RegisterCommand("join", JoinDescription, Builtin(CommandPipeline.Join));
      RegisterCommand("chat", ChatDescription, Builtin(CommandPipeline.Chat));
      RegisterCommand("cmd", CmdDescription, External("cmd"));
    }

    /** The `find_if` over the registry. */
    method FindCommand(name: string) returns (found: Option<Command>)
      ensures found == Find(commands, name)
    {
      var i := 0;
      while i < |commands|
        invariant 0 <= i <= |commands|
        invariant forall j :: 0 <= j < i ==> commands[j].name != name
      {
        if commands[i].name == name {
          FindAt(commands, name, i);
          return Some(commands[i]);
        }
        i := i + 1;
      }
      FindFirst(commands, name);
      found := None;
    }

    /** The padding loop of `ShowHelp`. */
    method HelpPadding(name: string) returns (pad: string)
      ensures pad == Spaces(PaddingWidth(name))
    {
      var padding := 15 - |name|;
      if padding < 1 {
        padding := 1;
      }
      pad := "";
      var i := 0;
      while i < padding
        invariant 0 <= i <= padding
        invariant pad == Spaces(i)
      {
        pad := pad + " ";
        i := i + 1;
      }
    }

    /** The loop of `ShowHelp` over the registry: name, padding loop, description. */
    method CommandList() returns (text: string)
      ensures text == HelpList(commands)
    {
      text := "";
      for i := 0 to |commands|
        invariant text == HelpList(commands[..i])
      {
        var c := commands[i];
        var pad := HelpPadding(c.name);
        assert commands[..i + 1][..i] == commands[..i];
        text := text + ("  " + c.name + pad + c.description + "\n");
      }
      assert commands[..|commands|] == commands;
    }

    /**
     * `Parse`, with the configuration, proxy, administrator flag and
     * orchestrator result the command classes read, and the outcomes of the
     * handlers outside the model.
     */
    method Parse(argv: seq<string>, cfg: Config.ConfigManager, proxyUrl: string, isAdmin: bool,
                 env: EnvTypes.EnvironmentResult, external: ExternalOutcome, host: Host) returns (code: int)
      modifies this, host
      ensures (code, host.State()) ==
        ParseOutcome(old(commands), argv, cfg.GetConfigValue(Config.KeyWslLinuxDistro, ""), proxyUrl, isAdmin,
                     env, external, old(host.State()))
      ensures commands == old(commands)
      ensures programName == if |argv| >= 1 then argv[0] else old(programName)
    {
      if |argv| < 1 {
        return 1;
      }
      programName := argv[0];
      if |argv| == 1 {
        return 0;
      }
      var commandName := argv[1];
      if commandName == "--help" || commandName == "-h" {
        return 0;
      }
      if commandName == "--version" || commandName == "-v" {
        return 0;
      }
      var command := FindCommand(commandName);
      if command.None? {
        return 1;
      }
      var args: seq<string> := [];
      for i := 2 to |argv|
        invariant args == argv[2..i]
      {
        args := args + [argv[i]];
      }
      assert args == argv[2..];
      match command.value.handler
      case Builtin(k) =>
        var r := CommandPipeline.Execute(k, args, cfg, proxyUrl, isAdmin, env, host);
        code := BaseCommand.ToInt(r);
      case External(id) =>
        var outcome := external(id, args);
        code := if outcome.Some? then outcome.value else 1;
    }
  }

  // ---------------------------------------------------------------------------
  // Properties of the dispatcher

  /** The global options answer 0 before any lookup, whatever is registered. */
  lemma OptionsBeforeLookup(commands: seq<Command>, argv: seq<string>, distro: string, proxy: string,
                            isAdmin: bool, env: EnvTypes.EnvironmentResult, external: ExternalOutcome, w: World)
    requires |argv| >= 2 && IsGlobalOption(argv[1])
    ensures ParseOutcome(commands, argv, distro, proxy, isAdmin, env, external, w) == (0, w)
  {
  }

  /** An unregistered name answers 1 and runs nothing. */
  lemma UnknownCommand(commands: seq<Command>, argv: seq<string>, distro: string, proxy: string,
                       isAdmin: bool, env: EnvTypes.EnvironmentResult, external: ExternalOutcome, w: World)
    requires |argv| >= 2 && !IsGlobalOption(argv[1])
    requires forall i :: 0 <= i < |commands| ==> commands[i].name != argv[1]
    ensures ParseOutcome(commands, argv, distro, proxy, isAdmin, env, external, w) == (1, w)
  {
    FindFirst(commands, argv[1]);
  }

  /** Registering a name again does not change what it runs: the first registration wins. */
  lemma {:induction false} FirstRegistrationWins(commands: seq<Command>, c: Command, name: string)
    requires Find(commands, name).Some?
    ensures Find(commands + [c], name) == Find(commands, name)
    decreases |commands|
  {
    if commands[0].name != name {
      assert (commands + [c])[1..] == commands[1..] + [c];
      FirstRegistrationWins(commands[1..], c, name);
    }
  }

  /** In the built-in table every name runs its own command, and a built-in handler answers 0 to 3. */
  lemma BuiltinDispatch(k: CommandPipeline.Kind, argv: seq<string>, distro: string, proxy: string,
                        isAdmin: bool, env: EnvTypes.EnvironmentResult, external: ExternalOutcome, w: World)
    requires |argv| >= 2 && argv[1] == CommandPipeline.Name(k)
    ensures var out := CommandPipeline.ExecuteOutcome(k, argv[2..], distro, proxy, isAdmin, env, w);
      && ParseOutcome(BuiltinCommands(), argv, distro, proxy, isAdmin, env, external, w) == (BaseCommand.ToInt(out.0), out.1)
      && 0 <= BaseCommand.ToInt(out.0) <= 3
  {
    var t := BuiltinCommands();
    var i := BuiltinIndex(k);
    assert t[i].handler == Builtin(k) && t[i].name == CommandPipeline.Name(k);
    BuiltinNamesBefore(k, i);
    FindAt(t, argv[1], i);
    DispatchFound(t, argv, i, distro, proxy, isAdmin, env, external, w);
  }

  /** A found command's handler decides the outcome, on the arguments after its name. */
  lemma DispatchFound(commands: seq<Command>, argv: seq<string>, i: nat, distro: string, proxy: string,
                      isAdmin: bool, env: EnvTypes.EnvironmentResult, external: ExternalOutcome, w: World)
    requires |argv| >= 2 && !IsGlobalOption(argv[1])
    requires i < |commands| && Find(commands, argv[1]) == Some(commands[i])
    ensures ParseOutcome(commands, argv, distro, proxy, isAdmin, env, external, w)
      == HandlerOutcome(commands[i].handler, argv[2..], distro, proxy, isAdmin, env, external, w)
  {
  }

  /** Where each command class sits in the built-in table. */
  function BuiltinIndex(k: CommandPipeline.Kind): (i: nat)
    ensures i < |BuiltinCommands()|
  {
    match k
    case Check => 0
    case Install => 1
    case Run => 3
    case Join => 4
    case Chat => 5
  }

  lemma BuiltinNamesBefore(k: CommandPipeline.Kind, i: nat)
    requires i == BuiltinIndex(k)
    ensures forall j :: 0 <= j < i ==> BuiltinCommands()[j].name != CommandPipeline.Name(k)
  {
    var t := BuiltinCommands();
    var n := CommandPipeline.Name(k);
    assert t[0].name[0] == 'c' && t[1].name[0] == 'i' && t[2].name[0] == 'c' && t[3].name[0] == 'r' && t[4].name[0] == 'j';
    assert |t[0].name| == 5 && |t[2].name| == 6;
    assert n == t[i].name;
  }

  /** The handlers outside the model: their code, or 1 when they throw. */
  lemma ExternalDispatch(argv: seq<string>, id: string, distro: string, proxy: string,
                         isAdmin: bool, env: EnvTypes.EnvironmentResult, external: ExternalOutcome, w: World)
    requires |argv| >= 2 && (argv[1] == "config" || argv[1] == "cmd") && id == argv[1]
    ensures ParseOutcome(BuiltinCommands(), argv, distro, proxy, isAdmin, env, external, w)
      == (if external(id, argv[2..]).Some? then external(id, argv[2..]).value else 1, w)
  {
    var t := BuiltinCommands();
    if argv[1] == "config" {
      assert t[0].name[1] == 'h' && t[1].name[0] == 'i';
      FindAt(t, argv[1], 2);
      DispatchFound(t, argv, 2, distro, proxy, isAdmin, env, external, w);
    } else {
      assert |t[0].name| == 5 && t[1].name[0] == 'i' && |t[2].name| == 6 && t[3].name[0] == 'r';
      assert t[4].name[0] == 'j' && t[5].name[1] == 'h';
      FindAt(t, argv[1], 6);
      DispatchFound(t, argv, 6, distro, proxy, isAdmin, env, external, w);
    }
  }
}

/**
 * The command base layer: command results, environment requirements, the
 * help test, environment preparation and the quoting of arguments for the
 * WSL bash layer.
 */
module BaseCommand {
  import opened TextOps
  import opened Executor
  import opened ShellWords
  import Config

  datatype CommandResult = Success | InvalidArgs | EnvironmentError | ExecutionError

  /** `static_cast<int>(result)`: 0 for success, 1 to 3 for the three errors. */
  function ToInt(r: CommandResult): (n: int)
    ensures 0 <= n <= 3
    ensures n == 0 <==> r == Success
  {
    match r
    case Success => 0
    case InvalidArgs => 1
    case EnvironmentError => 2
    case ExecutionError => 3
  }

  /** Distinct results have distinct codes. */
  lemma ToIntInjective(a: CommandResult, b: CommandResult)
    ensures ToInt(a) == ToInt(b) ==> a == b
  {
  }

  datatype Requirements = Requirements(needWsl: bool, needAdmin: bool, syncProxy: bool)

  /** `AdminCommand::GetEnvironmentRequirements`: administrator rights only. */
  function AdminRequirements(): (req: Requirements)
    ensures req.needAdmin && !req.needWsl && !req.syncProxy
  {
    Requirements(false, true, false)
  }

  /** `WSLCommand::GetEnvironmentRequirements`: a working WSL only. */
  function WslRequirements(): (req: Requirements)
    ensures req.needWsl && !req.needAdmin && !req.syncProxy
  {
    Requirements(true, false, false)
  }

  predicate IsHelpArg(a: string)
  {
    a == "--help" || a == "-h"
  }

  /** `ShouldShowHelp`: some argument asks for help. */
  function ShouldShowHelp(args: seq<string>): (r: bool)
    ensures r <==> exists i :: 0 <= i < |args| && IsHelpArg(args[i])
  {
    if args == [] then false
    else if IsHelpArg(args[0]) then true
    else
      var r := ShouldShowHelp(args[1..]);
      assert forall i :: 1 <= i < |args| ==> args[i] == args[1..][i - 1];
      r
  }

  /**
   * The argument check of `check` and `install`: every argument must be a
   * help flag, anything else is `InvalidArgs`.
   */
  function OnlyHelpArgs(args: seq<string>): (r: CommandResult)
    ensures r == Success || r == InvalidArgs
    ensures r == InvalidArgs <==> exists i :: 0 <= i < |args| && !IsHelpArg(args[i])
  {
    if args == [] then Success
    else if !IsHelpArg(args[0]) then InvalidArgs
    else
      var r := OnlyHelpArgs(args[1..]);
      assert forall i :: 1 <= i < |args| ==> args[i] == args[1..][i - 1];
      r
  }

  // ---------------------------------------------------------------------------
  // Environment preparation

  /** `CommandContext`, which `PrepareEnvironment` fills in. */
  class Context {
    var args: seq<string>
    var ubuntuVersion: string
    var proxyUrl: string
    var isAdmin: bool
    var wslAvailable: bool

    constructor (args: seq<string>)
      ensures this.args == args && ubuntuVersion == "" && proxyUrl == ""
      ensures !isAdmin && !wslAvailable
    {
      this.args := args;
      ubuntuVersion := "";
      proxyUrl := "";
      isAdmin := false;
      wslAvailable := false;
    }
  }

  /** The distribution listing `CheckWSLEnvironment` asks for, with a 30-second limit. */
  const WslListQuery := Invocation("powershell.exe -Command \"wsl --list --quiet\"", Console(30))

  /** `CheckWSLEnvironment`: the listing succeeds and names the configured distribution. */
  function WslListed(w: World, distro: string): (r: (bool, World))
    ensures r.0 <==> w.answer(|w.log|, WslListQuery).code == 0 && Contains(w.answer(|w.log|, WslListQuery).output, distro)
    ensures r.1 == Run(w, WslListQuery).1
  {
    var (resp, w1) := Run(w, WslListQuery);
    (resp.code == 0 && Contains(resp.output, distro), w1)
  }

  /**
   * `PrepareEnvironment` after reading the configuration: missing
   * administrator rights are reported before WSL is probed; the WSL probe runs
   * only when WSL is required. The third part is the new `wsl_available`, when
   * it was set.
   */
  function PrepareOutcome(req: Requirements, isAdmin: bool, distro: string, w: World): (CommandResult, World, Option<bool>)
  {
    if req.needAdmin && !isAdmin then (EnvironmentError, w, None)
    else if req.needWsl then
      var (ok, w1) := WslListed(w, distro);
      (if ok then Success else EnvironmentError, w1, Some(ok))
    else (Success, w, None)
  }

  /** Preparation fails only with `EnvironmentError`, and only for a missing right or a missing WSL. */
  lemma PrepareLaw(req: Requirements, isAdmin: bool, distro: string, w: World)
    ensures var (r, w1, wsl) := PrepareOutcome(req, isAdmin, distro, w);
      && (r == Success || r == EnvironmentError)
      && (r == EnvironmentError <==>
            (req.needAdmin && !isAdmin) || (req.needWsl && !WslListed(w, distro).0))
      && (w1.log == if !(req.needAdmin && !isAdmin) && req.needWsl then w.log + [WslListQuery] else w.log)
      && w1.answer == w.answer
      && (wsl.Some? <==> !(req.needAdmin && !isAdmin) && req.needWsl)
  {
  }

  method CheckWslEnvironment(ctx: Context, host: Host) returns (ok: bool)
    modifies host
    ensures (ok, host.State()) == WslListed(old(host.State()), ctx.ubuntuVersion)
  {
    var r := host.Execute(WslListQuery);
    if r.code != 0 {
      return false;
    }
    ok := Contains(r.output, ctx.ubuntuVersion);
  }

  /**
   * `PrepareEnvironment`: the context takes the configured distribution (""
   * when unset), the proxy and the administrator flag, then the requirements
   * are checked.
   */
  method PrepareEnvironment(ctx: Context, req: Requirements, cfg: Config.ConfigManager,
                            proxyUrl: string, isAdmin: bool, host: Host) returns (r: CommandResult)
    modifies ctx, host
    ensures ctx.args == old(ctx.args)
    ensures ctx.ubuntuVersion == cfg.GetConfigValue(Config.KeyWslLinuxDistro, "")
    ensures ctx.proxyUrl == proxyUrl && ctx.isAdmin == isAdmin
    ensures var (r', w', wsl) := PrepareOutcome(req, isAdmin, ctx.ubuntuVersion, old(host.State()));
      && r == r' && host.State() == w'
      && ctx.wslAvailable == if wsl.Some? then wsl.value else old(ctx.wslAvailable)
  {
    ctx.ubuntuVersion := cfg.GetConfigValue(Config.KeyWslLinuxDistro, "");
    ctx.proxyUrl := proxyUrl;
    ctx.isAdmin := isAdmin;
    if req.needAdmin && !ctx.isAdmin {
      return EnvironmentError;
    }
    if req.needWsl {
      ctx.wslAvailable := CheckWslEnvironment(ctx, host);
      if !ctx.wslAvailable {
        return EnvironmentError;
      }
    }
    r := Success;
  }

  /** `BuildVenvActivationCommand`: enter the project, put CUDA 12.8 first on the path, activate the venv. */
  const VenvActivationCommand :=
    "cd ~/prakasa && export PATH=/usr/local/cuda-12.8/bin:$(echo '$PATH' | tr ':' '\\n' | grep -v '/mnt/c' | paste -sd ':' -) && source ./venv/bin/activate"

  // ---------------------------------------------------------------------------
  // Quoting arguments for bash

  /** The twenty characters `EscapeForShell` quotes for. */
  predicate IsShellSpecial(c: char)
  {
    || c == ' ' || c == '\t' || c == '\n' || c == '"' || c == '\'' || c == '&' || c == '|'
    || c == ';' || c == '<' || c == '>' || c == '(' || c == ')' || c == '$' || c == '`'
    || c == '*' || c == '?' || c == '[' || c == ']' || c == '{' || c == '}'
  }

  predicate HasShellSpecial(a: string)
  {
    exists i :: 0 <= i < |a| && IsShellSpecial(a[i])
  }

  /**
   * `EscapeForShell` as written: an argument with one of the twenty special
   * characters is single-quoted, any other is passed bare.
   */
  function EscapeForShell(a: string): (e: string)
    ensures e == a <==> !HasShellSpecial(a)
  {
    if HasShellSpecial(a) then SingleQuote(a) else a
  }

  /** The quoted branch reads back as the argument, as one word, whatever follows. */
  lemma EscapeForShellQuoted(a: string, rest: string, acc: seq<string>)
    requires HasShellSpecial(a)
    ensures Lex(EscapeForShell(a) + rest, Plain, None, acc) == Lex(rest, Plain, Some(a), acc)
  {
    SingleQuoteLex(a, rest, acc);
  }

  /** The bare branch does not always read back: a backslash is taken as an escape of what follows it. */
  lemma EscapeForShellDropsBackslash()
    ensures EscapeForShell("a\\b") == "a\\b" && Words("a\\b") == Some(["ab"])
  {
    var b := "a\\b";
    assert !IsShellSpecial(b[0]) && !IsShellSpecial(b[1]) && !IsShellSpecial(b[2]);
    BackslashLex([]);
    assert [] + ["ab"] == ["ab"];
  }

  /** `a\b` after a blank reads as the word `ab`. */
  lemma BackslashLex(acc: seq<string>)
    ensures Lex("a\\b", Plain, None, acc) == Some(acc + ["ab"])
  {
    var b := "a\\b";
    SafeStep(b, None, acc);
    var t := b[1..];
    assert t == "\\b" && t[0] == '\\' && t[1] == 'b' && t[2..] == [];
    assert Current(None) + [b[0]] == "a";
    assert Current(Some("a")) + [t[1]] == "ab";
    assert Lex(t, Plain, Some("a"), acc) == Lex([], Plain, Some("ab"), acc);
    assert Flush(acc, Some("ab")) == acc + ["ab"];
  }

  /** An empty argument is passed bare and gives no word at all. */
  lemma EscapeForShellDropsEmpty()
    ensures EscapeForShell("") == "" && Words("") == Some([])
  {
  }

  /** An argument starting with `#` is passed bare and starts a comment. */
  lemma EscapeForShellStartsComment()
    ensures EscapeForShell("#x") == "#x" && Words("#x") == Some([])
  {
    var h := "#x";
    assert !IsShellSpecial(h[0]) && !IsShellSpecial(h[1]);
    assert h[1..] == "x" && SkipLine("x") == "";
  }

  /**
   * The quoting the round trip needs: bare only for a non-empty argument of
   * characters bash reads as themselves, single-quoted otherwise.
   */
  function ShellQuote(a: string): string
  {
    if a != [] && AllSafe(a) then a else SingleQuote(a)
  }

  /** Every argument reads back as itself, as one word, whatever follows. */
  lemma ShellQuoteLex(a: string, rest: string, acc: seq<string>)
    ensures Lex(ShellQuote(a) + rest, Plain, None, acc) == Lex(rest, Plain, Some(a), acc)
  {
    if a != [] && AllSafe(a) {
      SafeLex(a, rest, None, acc);
      assert Current(None) + a == a;
    } else {
      SingleQuoteLex(a, rest, acc);
    }
  }

  /** Safe characters are not special, so both quotings agree except on the arguments that were misread. */
  lemma ShellQuoteAgrees(a: string)
    requires HasShellSpecial(a) || (a != [] && AllSafe(a))
    ensures ShellQuote(a) == EscapeForShell(a)
  {
    if a != [] && AllSafe(a) {
      assert forall i :: 0 <= i < |a| ==> !IsShellSpecial(a[i]);
    }
  }
}

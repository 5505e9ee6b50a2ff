/**
 * The `run`, `join` and `chat` commands: each builds `prakasa <verb>` with the
 * user's arguments passed through `EscapeForShell`, prefixes the venv activation and the
 * optional proxy variables, and hands the text to the WSL relay; the relay's
 * exit code decides the result.
 */
module ModelCommands {
  import opened TextOps
  import opened Executor
  import opened ShellWords
  import opened BaseCommand

  /** The program every model command runs inside the venv. */
  const Program := "prakasa"
  const RunName := "run"
  const JoinName := "join"
  const ChatName := "chat"

  /**
   * Every model command needs WSL; only `run` has `sync_proxy` false, a flag
   * nothing reads (`ModelExecute` adds the proxy for all three).
   */
  function ModelRequirements(name: string): (req: Requirements)
    ensures req.needWsl && !req.needAdmin
    ensures req.syncProxy <==> name != RunName
  {
    if name == RunName then Requirements(true, false, false) else Requirements(true, false, true)
  }

  /** The three `ValidateArgsImpl`s: any arguments are accepted (a lone help flag included). */
  function ValidateModelArgs(args: seq<string>): (r: CommandResult)
    ensures r == Success
  {
    Success
  }

  // ---------------------------------------------------------------------------
  // The command text

  /** `" " + quote(a)` for each argument in order. */
  function QuotedArgs(quote: string -> string, args: seq<string>): string
  {
    if args == [] then "" else " " + quote(args[0]) + QuotedArgs(quote, args[1..])
  }

  lemma {:induction false} QuotedArgsSnoc(quote: string -> string, args: seq<string>, a: string)
    ensures QuotedArgs(quote, args + [a]) == QuotedArgs(quote, args) + " " + quote(a)
    decreases |args|
  {
    var last := " " + quote(a);
    AppendAssoc(QuotedArgs(quote, args), " ", quote(a));
    if args == [] {
      QuotedArgsSingle(quote, a);
    } else {
      QuotedArgsSnoc(quote, args[1..], a);
      AppendAssoc(QuotedArgs(quote, args[1..]), " ", quote(a));
      QuotedArgsCons(quote, args, a);
      AppendAssoc(" " + quote(args[0]), QuotedArgs(quote, args[1..]), last);
    }
  }

  lemma QuotedArgsSingle(quote: string -> string, a: string)
    ensures QuotedArgs(quote, [a]) == "" + (" " + quote(a))
  {
    assert [a][1..] == [];
  }

  /** Both `args` and `args + [a]` start with the first argument's quoted word. */
  lemma QuotedArgsCons(quote: string -> string, args: seq<string>, a: string)
    requires args != []
    ensures QuotedArgs(quote, args + [a]) == " " + quote(args[0]) + QuotedArgs(quote, args[1..] + [a])
    ensures QuotedArgs(quote, args) == " " + quote(args[0]) + QuotedArgs(quote, args[1..])
  {
    assert (args + [a])[0] == args[0];
    assert (args + [a])[1..] == args[1..] + [a];
  }

  /** `prakasa <verb>` followed by the arguments, each through `EscapeForShell`: the text the program builds. */
  function SubCommand(verb: string, args: seq<string>): string
  {
    Program + " " + verb + QuotedArgs(EscapeForShell, args)
  }

  /** The same text with the corrected quoting `ShellQuote`. */
  function CorrectedSubCommand(verb: string, args: seq<string>): string
  {
    Program + " " + verb + QuotedArgs(ShellQuote, args)
  }

  /** `BuildRunCommand`, `BuildJoinCommand`, `BuildChatCommand`: the stream loop over the arguments. */
  method BuildCommand(verb: string, args: seq<string>) returns (cmd: string)
    ensures cmd == SubCommand(verb, args)
    ensures args == [] ==> cmd == Program + " " + verb
  {
    cmd := Program + " " + verb;
    for i := 0 to |args|
      invariant cmd == Program + " " + verb + QuotedArgs(EscapeForShell, args[..i])
    {
      QuotedArgsSnoc(EscapeForShell, args[..i], args[i]);
      assert args[..i + 1] == args[..i] + [args[i]];
      AppendAssoc(Program + " " + verb, QuotedArgs(EscapeForShell, args[..i]), " " + EscapeForShell(args[i]));
      cmd := cmd + " " + EscapeForShell(args[i]);
    }
    assert args[..|args|] == args;
  }

  /** `quote(a)` reads back as the word `a`, whatever follows it. */
  ghost predicate ReadsBack(quote: string -> string, a: string)
  {
    forall rest: string, acc: seq<string> :: Lex(quote(a) + rest, Plain, None, acc) == Lex(rest, Plain, Some(a), acc)
  }

  /** After a word, arguments whose quoted forms read back give exactly those arguments. */
  lemma {:induction false} QuotedArgsLex(quote: string -> string, args: seq<string>, w: string, acc: seq<string>)
    requires forall i :: 0 <= i < |args| ==> ReadsBack(quote, args[i])
    ensures Lex(QuotedArgs(quote, args), Plain, Some(w), acc) == Some(acc + [w] + args)
    decreases |args|
  {
    if args == [] {
      assert acc + [w] + args == acc + [w];
    } else {
      var tail := QuotedArgs(quote, args[1..]);
      assert QuotedArgs(quote, args) == " " + (quote(args[0]) + tail);
      BlankLex(quote(args[0]) + tail, Some(w), acc);
      assert ReadsBack(quote, args[0]);
      assert Lex(quote(args[0]) + tail, Plain, None, acc + [w]) == Lex(tail, Plain, Some(args[0]), acc + [w]);
      assert forall i :: 0 <= i < |args[1..]| ==> ReadsBack(quote, args[1..][i]) by {
        forall i | 0 <= i < |args[1..]| ensures ReadsBack(quote, args[1..][i]) {
          assert args[1..][i] == args[i + 1];
        }
      }
      QuotedArgsLex(quote, args[1..], args[0], acc + [w]);
      assert acc + [w] + [args[0]] + args[1..] == acc + [w] + args;
    }
  }

  /** After `prakasa <verb>`, the rest of the text is read with the verb as the current word. */
  lemma PrefixWords(verb: string, tail: string)
    requires verb != [] && AllSafe(verb)
    ensures Words(Program + " " + verb + tail) == Lex(tail, Plain, Some(verb), [Program])
  {
    ProgramSafe();
    AppendAssoc(Program + " ", verb, tail);
    AppendAssoc(Program, " ", verb + tail);
    assert Program + " " + verb + tail == Program + (" " + (verb + tail));
    SafeLex(Program, " " + (verb + tail), None, []);
    assert Current(None) + Program == Program;
    VerbLex(verb, tail);
  }

  /**
   * bash reads the built command as `prakasa`, the verb, then every argument
   * unchanged, when each argument holds a special character or is a
   * non-empty run of safe characters.
   */
  lemma SubCommandWords(verb: string, args: seq<string>)
    requires verb != [] && AllSafe(verb)
    requires forall i :: 0 <= i < |args| ==> HasShellSpecial(args[i]) || (args[i] != [] && AllSafe(args[i]))
    ensures Words(SubCommand(verb, args)) == Some([Program, verb] + args)
  {
    forall i | 0 <= i < |args| ensures ReadsBack(EscapeForShell, args[i]) {
      ShellQuoteAgrees(args[i]);
      forall rest: string, acc: seq<string>
        ensures Lex(EscapeForShell(args[i]) + rest, Plain, None, acc) == Lex(rest, Plain, Some(args[i]), acc)
      {
        ShellQuoteLex(args[i], rest, acc);
      }
    }
    PrefixWords(verb, QuotedArgs(EscapeForShell, args));
    QuotedArgsLex(EscapeForShell, args, verb, [Program]);
    assert [Program] + [verb] + args == [Program, verb] + args;
  }

  /** With the bare `a\b`, bash reads the word `ab` in its place. */
  lemma SubCommandMisreadsBackslash()
    ensures Words(SubCommand(RunName, ["a\\b"])) == Some([Program, RunName, "ab"])
  {
    var b := "a\\b";
    EscapeForShellDropsBackslash();
    assert [b][1..] == [] && QuotedArgs(EscapeForShell, [b]) == " " + b + "";
    assert " " + b + "" == " " + b;
    assert SubCommand(RunName, [b]) == Program + " " + RunName + (" " + b);
    VerbsSafe();
    PrefixWords(RunName, " " + b);
    BlankLex(b, Some(RunName), [Program]);
    assert Flush([Program], Some(RunName)) == [Program, RunName];
    BackslashLex([Program, RunName]);
    assert [Program, RunName] + ["ab"] == [Program, RunName, "ab"];
  }

  /** With the corrected quoting, every argument reads back unchanged. */
  lemma CorrectedSubCommandWords(verb: string, args: seq<string>)
    requires verb != [] && AllSafe(verb)
    ensures Words(CorrectedSubCommand(verb, args)) == Some([Program, verb] + args)
  {
    forall i | 0 <= i < |args| ensures ReadsBack(ShellQuote, args[i]) {
      forall rest: string, acc: seq<string>
        ensures Lex(ShellQuote(args[i]) + rest, Plain, None, acc) == Lex(rest, Plain, Some(args[i]), acc)
      {
        ShellQuoteLex(args[i], rest, acc);
      }
    }
    PrefixWords(verb, QuotedArgs(ShellQuote, args));
    QuotedArgsLex(ShellQuote, args, verb, [Program]);
    assert [Program] + [verb] + args == [Program, verb] + args;
  }

  lemma VerbLex(verb: string, tail: string)
    requires verb != [] && AllSafe(verb)
    ensures Lex(" " + (verb + tail), Plain, Some(Program), []) == Lex(tail, Plain, Some(verb), [Program])
  {
    BlankLex(verb + tail, Some(Program), []);
    assert Flush([], Some(Program)) == [Program];
    SafeLex(verb, tail, None, [Program]);
    assert Current(None) + verb == verb;
  }

  lemma ProgramSafe()
    ensures Program != [] && AllSafe(Program)
  {
    assert forall i :: 0 <= i < |Program| ==> 'a' <= Program[i] <= 'z';
  }

  lemma VerbsSafe()
    ensures AllSafe(RunName) && AllSafe(JoinName) && AllSafe(ChatName)
  {
    assert forall i :: 0 <= i < |RunName| ==> 'a' <= RunName[i] <= 'z';
    assert forall i :: 0 <= i < |JoinName| ==> 'a' <= JoinName[i] <= 'z';
    assert forall i :: 0 <= i < |ChatName| ==> 'a' <= ChatName[i] <= 'z';
  }

  /** `HTTP_PROXY='p' HTTPS_PROXY='p' ` when a proxy is set, nothing otherwise. */
  function ProxyPrefix(proxy: string): (p: string)
    ensures p == "" <==> proxy == ""
  {
    if proxy == "" then "" else "HTTP_PROXY='" + proxy + "' HTTPS_PROXY='" + proxy + "' "
  }

  /** `full_command`: the venv activation, ` && `, the proxy variables, the sub-command. */
  function FullCommand(proxy: string, sub: string): string
  {
    VenvActivationCommand + " && " + ProxyPrefix(proxy) + sub
  }

  /** The proxy appears, in both variables, exactly when it is set. */
  lemma FullCommandProxy(proxy: string, sub: string)
    ensures proxy == "" ==> FullCommand(proxy, sub) == VenvActivationCommand + " && " + sub
    ensures proxy != "" ==>
      FullCommand(proxy, sub) == VenvActivationCommand + (" && HTTP_PROXY='" + proxy + "' HTTPS_PROXY='" + proxy + "' " + sub)
  {
    PrefixShape(VenvActivationCommand, proxy, sub);
  }

  lemma PrefixShape(v: string, proxy: string, sub: string)
    ensures proxy == "" ==> v + " && " + ProxyPrefix(proxy) + sub == v + " && " + sub
    ensures proxy != "" ==>
      v + " && " + ProxyPrefix(proxy) + sub == v + (" && HTTP_PROXY='" + proxy + "' HTTPS_PROXY='" + proxy + "' " + sub)
  {
    if proxy == "" {
      assert v + " && " + "" == v + " && ";
    } else {
      var tail := proxy + "' HTTPS_PROXY='" + proxy + "' ";
      assert ProxyPrefix(proxy) == "HTTP_PROXY='" + tail;
      AppendAssoc(v + " && ", "HTTP_PROXY='", tail);
      AppendAssoc(v, " && ", "HTTP_PROXY='");
      AppendAssoc(v, " && " + "HTTP_PROXY='", tail);
      assert " && " + "HTTP_PROXY='" == " && HTTP_PROXY='";
      AppendAssoc(v, " && HTTP_PROXY='" + tail, sub);
      AppendAssoc(" && HTTP_PROXY='", tail, sub);
      assert " && HTTP_PROXY='" + proxy + "' HTTPS_PROXY='" + proxy + "' " + sub == " && HTTP_PROXY='" + tail + sub;
    }
  }

  /** What the relay runs for a model command: the full command in the context's distribution. */
  function RelayInvocation(verb: string, proxy: string, distro: string, args: seq<string>): Invocation
  {
    Invocation(FullCommand(proxy, SubCommand(verb, args)), WslRelay(distro))
  }

  /** The exit code decides: 0 is `Success`, anything else `ExecutionError`. */
  function RelayResult(code: int): (r: CommandResult)
    ensures r == Success <==> code == 0
    ensures r == Success || r == ExecutionError
  {
    if code == 0 then Success else ExecutionError
  }

  /** `ExecuteImpl` of `run` (through `RunParallaxScript`), `join` and `chat`. */
  function ModelExecute(verb: string, proxy: string, distro: string, args: seq<string>, w: World): (out: (CommandResult, World))
    ensures var inv := RelayInvocation(verb, proxy, distro, args);
      && out.0 == RelayResult(w.answer(|w.log|, inv).code)
      && out.1 == World(w.answer, w.log + [inv])
  {
    var (resp, w1) := Run(w, RelayInvocation(verb, proxy, distro, args));
    (RelayResult(resp.code), w1)
  }

  method ExecuteModelCommand(verb: string, ctx: Context, host: Host) returns (r: CommandResult)
    modifies host
    ensures (r, host.State()) == ModelExecute(verb, ctx.proxyUrl, ctx.ubuntuVersion, ctx.args, old(host.State()))
  {
    var sub := BuildCommand(verb, ctx.args);
    var full := VenvActivationCommand;
    if ctx.proxyUrl != "" {
      full := full + (" && HTTP_PROXY='" + ctx.proxyUrl + "' HTTPS_PROXY='" + ctx.proxyUrl + "' " + sub);
    } else {
      full := full + " && " + sub;
    }
    FullCommandProxy(ctx.proxyUrl, sub);
    assert full == FullCommand(ctx.proxyUrl, sub);
    var resp := host.Execute(Invocation(full, WslRelay(ctx.ubuntuVersion)));
    r := if resp.code == 0 then Success else ExecutionError;
  }

  // ---------------------------------------------------------------------------
  // The probes of `run` (not called by its `ExecuteImpl`)

  const LaunchScriptTest := "test -f ~/prakasa/src/prakasa/launch.py"
  const ProcessSearch := "pgrep -f 'python[0-9]*.*prakasa/launch.py'"

  /** `CheckLaunchScriptExists`, `IsParallaxProcessRunning`: the probe exits 0. */
  method ProbeSucceeds(text: string, ctx: Context, host: Host) returns (ok: bool)
    modifies host
    ensures var inv := Invocation(text, WslConsole(ctx.ubuntuVersion, 30));
      && (ok <==> old(host.State()).answer(|old(host.log)|, inv).code == 0)
      && host.log == old(host.log) + [inv]
  {
    var resp := host.Execute(Invocation(text, WslConsole(ctx.ubuntuVersion, 30)));
    ok := resp.code == 0;
  }
}

/**
 * The `check` command: it runs the orchestrator's environment check, shows a
 * line per component as results arrive, and folds the component statuses and
 * the reboot flag into an exit code, which `ExecuteImpl` turns into a command
 * result.
 */
module CheckCommand {
  import opened TextOps
  import opened EnvTypes
  import BaseCommand

  /** Some component of the pass ended with status `st`. */
  predicate AnyStatus(rs: seq<ComponentResult>, st: InstallationStatus)
  {
    exists i :: 0 <= i < |rs| && rs[i].status == st
  }

  /**
   * The exit code of `CheckAllComponents`: 2 for a pending reboot, then 1 for
   * any failure, then 3 for any warning, otherwise 0.
   */
  function CheckExitCode(env: EnvironmentResult): (code: int)
  {
    if env.rebootRequired then 2
    else if AnyStatus(env.componentResults, Failed) then 1
    else if AnyStatus(env.componentResults, Warning) then 3
    else 0
  }

  /** What each code means, in both directions. */
  lemma CheckExitCodeMeaning(env: EnvironmentResult)
    ensures var code := CheckExitCode(env);
      && (code == 0 || code == 1 || code == 2 || code == 3)
      && (code == 2 <==> env.rebootRequired)
      && (code == 1 <==> !env.rebootRequired && AnyStatus(env.componentResults, Failed))
      && (code == 3 <==> !env.rebootRequired && !AnyStatus(env.componentResults, Failed)
                          && AnyStatus(env.componentResults, Warning))
      && (code == 0 <==> !env.rebootRequired && !AnyStatus(env.componentResults, Failed)
                          && !AnyStatus(env.componentResults, Warning))
  {
  }

  /** No failure seen before index `i`, and `warnings` records whether a warning was. */
  predicate ScannedClean(rs: seq<ComponentResult>, i: nat, warnings: bool)
    requires i <= |rs|
  {
    && (forall j :: 0 <= j < i ==> rs[j].status != Failed)
    && (warnings <==> exists j :: 0 <= j < i && rs[j].status == Warning)
  }

  /**
   * `CheckAllComponents` after the orchestrator has returned: the scan of the
   * component statuses stops at the first failure.
   */
  method CheckAllComponents(env: EnvironmentResult) returns (code: int)
    ensures code == CheckExitCode(env)
  {
    var rs := env.componentResults;
    var hasFailures := false;
    var hasWarnings := false;
    var i := 0;
    while i < |rs|
      invariant 0 <= i <= |rs|
      invariant !hasFailures
      invariant ScannedClean(rs, i, hasWarnings)
    {
      if rs[i].status == Failed {
        hasFailures := true;
        break;
      } else if rs[i].status == Warning {
        hasWarnings := true;
      }
      i := i + 1;
    }
    if env.rebootRequired {
      return 2;
    }
    if hasFailures {
      assert rs[i].status == Failed;
      return 1;
    } else if hasWarnings {
      return 3;
    } else {
      return 0;
    }
  }

  /** `ExecuteImpl`: 0 and 3 (warnings) are success, every other code an environment error. */
  function CheckResult(code: int): (r: BaseCommand.CommandResult)
    ensures r == BaseCommand.Success || r == BaseCommand.EnvironmentError
    ensures r == BaseCommand.Success <==> code == 0 || code == 3
  {
    if code == 0 || code == 3 then BaseCommand.Success else BaseCommand.EnvironmentError
  }

  /** The check passes exactly when no reboot is pending and no component failed; warnings do not matter. */
  lemma CheckPasses(env: EnvironmentResult)
    ensures CheckResult(CheckExitCode(env)) == BaseCommand.Success <==>
      !env.rebootRequired && !AnyStatus(env.componentResults, Failed)
  {
    CheckExitCodeMeaning(env);
  }

  // ---------------------------------------------------------------------------
  // The per-component line

  /** The status symbol of the component callback. */
  function StatusSymbol(s: InstallationStatus): string
  {
    match s
    case Success => "[OK]"
    case Skipped => "[OK]"
    case Failed => "[FAIL]"
    case InProgress => "[...]"
    case Warning => "[WARN]"
  }

  /** The verdict after the name column. */
  function StatusLabel(s: InstallationStatus): string
  {
    if s == Failed then " FAILED"
    else if s == Skipped then " OK (Already installed)"
    else if s == Warning then " WARNING"
    else " OK"
  }

  /** Symbol and verdict together tell every status apart, though `[OK]` stands for two of them. */
  lemma StatusDisplayDistinct(s: InstallationStatus, t: InstallationStatus)
    ensures (StatusSymbol(s) == StatusSymbol(t) && StatusLabel(s) == StatusLabel(t)) <==> s == t
    ensures StatusSymbol(s) == "[OK]" <==> s == Success || s == Skipped
  {
    assert StatusSymbol(Failed)[1] == 'F' && StatusSymbol(InProgress)[1] == '.';
    assert StatusSymbol(Warning)[1] == 'W' && StatusSymbol(Success)[1] == 'O';
    assert StatusLabel(Skipped)[4] == '(' && |StatusLabel(Success)| == 3;
  }

  /** The detail message is shown only for a failure or a warning that has one. */
  predicate ShowsMessage(r: ComponentResult)
  {
    r.message != [] && (r.status == Failed || r.status == Warning)
  }

  /** The indented detail line, when shown. */
  function Detail(r: ComponentResult): string
  {
    if ShowsMessage(r) then "\n   " + r.message else ""
  }

  /**
   * The line the component callback writes: the symbol, the name left-aligned
   * in 25 columns, the verdict, the message on an indented line when shown.
   */
  function ComponentLine(r: ComponentResult, name: string): string
  {
    StatusSymbol(r.status) + (" " + PadRight(name, 25)) + StatusLabel(r.status) + (Detail(r) + "\n")
  }

  /** The line starts with the symbol, has the verdict in its column for a name that fits, shows the message when due, and ends the line. */
  lemma ComponentLineLayout(r: ComponentResult, name: string)
    ensures var line, sym := ComponentLine(r, name), StatusSymbol(r.status);
      && |line| > |sym| + 26 + |StatusLabel(r.status)|
      && line[..|sym|] == sym
      && (|name| <= 25 ==> line[|sym| + 26..|sym| + 26 + |StatusLabel(r.status)|] == StatusLabel(r.status))
      && (ShowsMessage(r) ==> Contains(line, r.message))
      && line[|line| - 1] == '\n'
  {
    var sym, verdict := StatusSymbol(r.status), StatusLabel(r.status);
    var mid := " " + PadRight(name, 25);
    LinePieces(sym, mid, verdict, Detail(r) + "\n");
    if ShowsMessage(r) {
      MessageIn(sym + mid + verdict, r.message);
    }
  }

  /** A message on its own indented line is part of the text. */
  lemma MessageIn(p: string, m: string)
    ensures Contains(p + ("\n   " + m + "\n"), m)
  {
    ContainsSelf(m);
    ContainsRight("\n   ", m, m);
    ContainsLeft("\n   " + m, "\n", m);
    ContainsRight(p, "\n   " + m + "\n", m);
  }

  /** Where the pieces of a four-part line sit. */
  lemma LinePieces(a: string, b: string, c: string, d: string)
    ensures var s := a + b + c + d;
      && s[..|a|] == a
      && s[|a| + |b|..|a| + |b| + |c|] == c
      && (d != [] ==> s[|s| - 1] == d[|d| - 1])
  {
    var s := a + b + c + d;
    assert s[..|a|] == a;
    assert s[|a| + |b|..|a| + |b| + |c|] == c;
  }
}

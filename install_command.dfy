/**
 * The `install` command: it runs the orchestrator's installation with a
 * progress callback, lists each component's outcome, and folds the statuses
 * and the reboot flag into an exit code, which `ExecuteImpl` turns into a
 * command result.
 */
module InstallCommand {
  import opened TextOps
  import opened EnvTypes
  import BaseCommand
  import CheckCommand

  /**
   * The exit code of `InstallAllComponents`: 2 for a pending reboot, 0 when
   * no component failed (warnings and skips count as installed), 1 otherwise.
   */
  function InstallExitCode(env: EnvironmentResult): (code: int)
  {
    if env.rebootRequired then 2
    else if CheckCommand.AnyStatus(env.componentResults, Failed) then 1
    else 0
  }

  /** No failure before index `i`. */
  predicate NoFailureBefore(rs: seq<ComponentResult>, i: nat)
    requires i <= |rs|
  {
    forall j :: 0 <= j < i ==> rs[j].status != Failed
  }

  /** `InstallAllComponents` after the orchestrator has returned: the scan stops at the first failure. */
  method InstallAllComponents(env: EnvironmentResult) returns (code: int)
    ensures code == InstallExitCode(env)
  {
    var rs := env.componentResults;
    var allSuccess := true;
    var i := 0;
    while i < |rs|
      invariant 0 <= i <= |rs|
      invariant allSuccess && NoFailureBefore(rs, i)
    {
      if rs[i].status == Failed {
        allSuccess := false;
        break;
      }
      i := i + 1;
    }
    if env.rebootRequired {
      return 2;
    }
    if allSuccess {
      return 0;
    } else {
      assert rs[i].status == Failed;
      return 1;
    }
  }

  /** `ExecuteImpl`: 0 and 2 (installed, reboot pending) are success, every other code an execution error. */
  function InstallResult(code: int): (r: BaseCommand.CommandResult)
    ensures r == BaseCommand.Success || r == BaseCommand.ExecutionError
    ensures r == BaseCommand.Success <==> code == 0 || code == 2
  {
    if code == 0 || code == 2 then BaseCommand.Success else BaseCommand.ExecutionError
  }

  /**
   * The installation fails exactly when no reboot is pending and some
   * component failed: a pending reboot hides failures.
   */
  lemma InstallFails(env: EnvironmentResult)
    ensures InstallResult(InstallExitCode(env)) == BaseCommand.ExecutionError <==>
      !env.rebootRequired && CheckCommand.AnyStatus(env.componentResults, Failed)
    ensures env.rebootRequired ==> InstallResult(InstallExitCode(env)) == BaseCommand.Success
  {
    var code := InstallExitCode(env);
    assert code == 0 || code == 1 || code == 2;
  }

  /** For the same pass, `install` fails only where `check` does; `check` also fails on a pending reboot. */
  lemma InstallFailureImpliesCheckFailure(env: EnvironmentResult)
    ensures InstallResult(InstallExitCode(env)) != BaseCommand.Success ==>
      CheckCommand.CheckResult(CheckCommand.CheckExitCode(env)) != BaseCommand.Success
    ensures env.rebootRequired ==>
      InstallResult(InstallExitCode(env)) == BaseCommand.Success &&
      CheckCommand.CheckResult(CheckCommand.CheckExitCode(env)) != BaseCommand.Success
  {
    InstallFails(env);
    CheckCommand.CheckPasses(env);
  }

  // ---------------------------------------------------------------------------
  // The results listing

  /**
   * The symbol and text of `DisplayResults`; the switch has no case for a
   * warning, so both stay empty for it.
   */
  function DisplayStatus(s: InstallationStatus): (d: (string, string))
  {
    match s
    case Success => ("[OK]", "INSTALLED")
    case Skipped => ("[OK]", "ALREADY INSTALLED")
    case Failed => ("[FAIL]", "FAILED")
    case InProgress => ("[PROGRESS]", "IN PROGRESS")
    case Warning => ("", "")
  }

  /** Every status but a warning gets a symbol and a text, and the text tells them apart. */
  lemma DisplayStatusShape(s: InstallationStatus, t: InstallationStatus)
    ensures DisplayStatus(s) == ("", "") <==> s == Warning
    ensures s != Warning && DisplayStatus(s).1 == DisplayStatus(t).1 ==> s == t
  {
    assert DisplayStatus(Success).1[0] == 'I' && DisplayStatus(InProgress).1[1] == 'N';
    assert DisplayStatus(Skipped).1[0] == 'A' && DisplayStatus(Failed).1[0] == 'F';
    assert |DisplayStatus(Success).1| == 9 && |DisplayStatus(InProgress).1| == 11;
  }

  /** One component of the listing: symbol, name in 25 columns, text, then the message whenever it is non-empty. */
  function ResultLine(r: ComponentResult, name: string): string
  {
    var (sym, text) := DisplayStatus(r.status);
    sym + (" " + PadRight(name, 25)) + (" " + text) + ((if r.message != [] then "\n   " + r.message else "") + "\n")
  }

  /** Unlike the check callback, the listing shows any non-empty message, whatever the status. */
  lemma ResultLineShowsMessage(r: ComponentResult, name: string)
    ensures r.message != [] ==> Contains(ResultLine(r, name), r.message)
    ensures ResultLine(r, name)[..|DisplayStatus(r.status).0|] == DisplayStatus(r.status).0
  {
    var (sym, text) := DisplayStatus(r.status);
    var mid := " " + PadRight(name, 25);
    CheckCommand.LinePieces(sym, mid, " " + text, (if r.message != [] then "\n   " + r.message else "") + "\n");
    if r.message != [] {
      CheckCommand.MessageIn(sym + mid + (" " + text), r.message);
    }
  }

  // ---------------------------------------------------------------------------
  // Progress reporting

  /** What one printed progress update writes: `\r[` + the percent right-aligned in 3 columns + `%] ` + the message. */
  function ProgressText(message: string, percent: int): (t: string)
  {
    "\r[" + PadLeft(IntToString(percent), 3) + "%] " + message + (if percent == 100 then "\n" else "")
  }

  /** The text starts by returning the carriage, and ends the line exactly at 100 percent, for a message that does not end one. */
  lemma ProgressTextShape(message: string, percent: int)
    ensures ProgressText(message, percent)[..2] == "\r["
    ensures message == [] || message[|message| - 1] != '\n' ==>
      (ProgressText(message, percent)[|ProgressText(message, percent)| - 1] == '\n' <==> percent == 100)
  {
    var head := "\r[" + PadLeft(IntToString(percent), 3) + "%] ";
    assert |head| >= 3 + 2 + 3;
    var t := ProgressText(message, percent);
    assert t == head + message + (if percent == 100 then "\n" else "");
    assert t[..2] == head[..2];
    assert head[|head| - 1] == ' ';
  }

  /** One callback: a change of percent prints and is recorded, a repeat does nothing. */
  function ProgressStep(last: int, out: string, message: string, percent: int): (int, string)
  {
    if percent != last then (percent, out + ProgressText(message, percent)) else (last, out)
  }

  /** A sequence of callbacks from a given state. */
  function ProgressRun(last: int, out: string, calls: seq<(string, int)>): (int, string)
    decreases |calls|
  {
    if calls == [] then (last, out)
    else
      var (l1, o1) := ProgressStep(last, out, calls[0].0, calls[0].1);
      ProgressRun(l1, o1, calls[1..])
  }

  /** After any non-empty sequence of callbacks the recorded percent is the last one reported. */
  lemma {:induction false} ProgressRunLast(last: int, out: string, calls: seq<(string, int)>)
    ensures ProgressRun(last, out, calls).0 == if calls == [] then last else calls[|calls| - 1].1
    decreases |calls|
  {
    if calls != [] {
      var (l1, o1) := ProgressStep(last, out, calls[0].0, calls[0].1);
      assert l1 == calls[0].1;
      ProgressRunLast(l1, o1, calls[1..]);
      if |calls| > 1 {
        assert calls[1..][|calls[1..]| - 1] == calls[|calls| - 1];
      }
    }
  }

  /** Output is only ever appended. */
  lemma {:induction false} ProgressRunAppends(last: int, out: string, calls: seq<(string, int)>)
    ensures var o := ProgressRun(last, out, calls).1; |o| >= |out| && o[..|out|] == out
    decreases |calls|
  {
    if calls != [] {
      var (l1, o1) := ProgressStep(last, out, calls[0].0, calls[0].1);
      assert |o1| >= |out| && o1[..|out|] == out;
      ProgressRunAppends(l1, o1, calls[1..]);
      var o := ProgressRun(l1, o1, calls[1..]).1;
      assert o[..|out|] == o[..|o1|][..|out|];
    }
  }

  /** Reporting the same percent twice in a row prints it once. */
  lemma RepeatIsSilent(last: int, out: string, m1: string, m2: string, percent: int)
    ensures var (l1, o1) := ProgressStep(last, out, m1, percent);
      ProgressStep(l1, o1, m2, percent) == (l1, o1)
  {
  }

  /** The static `last_progress`, starting at -1, and what has been written so far. */
  class ProgressPrinter {
    var lastProgress: int
    var output: string

    constructor ()
      ensures lastProgress == -1 && output == ""
    {
      lastProgress := -1;
      output := "";
    }

    /** `ProgressCallback`; the step name is not shown. */
    method ProgressCallback(step: string, message: string, percent: int)
      modifies this
      ensures (lastProgress, output) == ProgressStep(old(lastProgress), old(output), message, percent)
    {
      if percent != lastProgress {
        var before := output;
        var text := "\r[" + PadLeft(IntToString(percent), 3) + "%] " + message;
        output := output + text;
        lastProgress := percent;
        if percent == 100 {
          output := output + "\n";
          AppendAssoc(before, text, "\n");
        } else {
          assert text + "" == text;
        }
      }
    }
  }

  /** From a fresh printer the first callback prints, unless it reports -1. */
  lemma FirstCallPrints(message: string, percent: int)
    ensures ProgressStep(-1, "", message, percent).1 == (if percent != -1 then ProgressText(message, percent) else "")
  {
    assert "" + ProgressText(message, percent) == ProgressText(message, percent);
  }
}

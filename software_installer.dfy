/**
 * The pip and project-deployment components. Each decision is a function of
 * the executor's state (`World`): it names the commands it runs, in order,
 * and the answers it reads; the component classes perform the same steps
 * against a shared `Host` and are proved to match those functions.
 */
module SoftwareInstaller {
  import opened TextOps
  import opened EnvTypes
  import opened Executor
  import opened CommandSequence

  /** Exit code 0 with non-empty captured output. */
  predicate Answered(r: Response)
  {
    r.code == 0 && r.output != ""
  }

  // ---------------------------------------------------------------------------
  // pip

  const PipVersionQuery := Invocation("pip --version", Captured(None))

  /** apt's `-o Acquire::<scheme>::proxy="<proxy>"` option. */
  function AptProxyOption(scheme: string, proxy: string): string
  {
    "-o Acquire::" + scheme + "::proxy=\"" + proxy + "\""
  }

  /** Both apt proxy options, http then https, as every proxied apt command passes them. */
  function AptProxyOptions(proxy: string): string
  {
    AptProxyOption("http", proxy) + " " + AptProxyOption("https", proxy)
  }

  function InstallPipCommand(proxy: string): string
  {
    if proxy == "" then "apt-get install -y python3-pip"
    else "apt-get " + AptProxyOptions(proxy) + " install -y python3-pip"
  }

  /** pip's `--proxy <proxy>` flag. */
  function PipProxyFlag(proxy: string): string
  {
    "--proxy " + proxy + " "
  }

  function UpgradePipCommand(proxy: string): string
  {
    if proxy == "" then "pip install --upgrade pip --break-system-packages --ignore-installed"
    else "pip install " + PipProxyFlag(proxy) + "--upgrade pip --break-system-packages --ignore-installed"
  }

  /** `IsPipUpToDate`: one `pip --version` with the default timeout. */
  function PipProbe(w: World): (bool, World)
  {
    var (r, w1) := Run(w, PipVersionQuery);
    (Answered(r), w1)
  }

  /** `PipUpgradeManager::Check`. */
  function PipCheckSpec(w: World): (ComponentResult, World)
  {
    var (available, w1) := PipProbe(w);
    (if available then SkippedResult(PipUpgrade, "pip is available")
     else FailureResult(PipUpgrade, "pip is not installed", 24), w1)
  }

  /** `PipUpgradeManager::Install`: apt install only when pip is missing, then the upgrade. */
  function PipInstallSpec(w: World, proxy: string): (ComponentResult, World)
  {
    var (available, w1) := PipProbe(w);
    var (install, w2) :=
      if available then (Response(0, ""), w1)
      else Run(w1, Invocation(InstallPipCommand(proxy), Captured(Some(300))));
    if install.code != 0 then
      (FailureResult(PipUpgrade, "Failed to install python3-pip: " + install.output, 24), w2)
    else
      var (upgrade, w3) := Run(w2, Invocation(UpgradePipCommand(proxy), Captured(Some(300))));
      (if upgrade.code != 0 then FailureResult(PipUpgrade, "Failed to upgrade pip: " + upgrade.output, 24)
       else SuccessResult(PipUpgrade, "pip installed and upgraded successfully"), w3)
  }

  /** The check runs `pip --version` once and skips exactly when it answers. */
  lemma PipCheckLaw(w: World)
    ensures var (r, w1) := PipCheckSpec(w);
      && w1 == World(w.answer, w.log + [PipVersionQuery])
      && (r.status == Skipped <==> Answered(w.answer(|w.log|, PipVersionQuery)))
      && (r.status != Skipped ==> r == FailureResult(PipUpgrade, "pip is not installed", 24))
  {
  }

  /**
   * Install: with pip present only the upgrade runs; with pip missing the apt
   * install runs first and, when it fails, nothing else runs. The upgrade's
   * exit code alone decides the final result.
   */
  lemma PipInstallLaw(w: World, proxy: string)
    ensures var (r, w1) := PipInstallSpec(w, proxy);
      var n := |w.log|;
      var apt := Invocation(InstallPipCommand(proxy), Captured(Some(300)));
      var upgrade := Invocation(UpgradePipCommand(proxy), Captured(Some(300)));
      && r.component == PipUpgrade
      && (Answered(w.answer(n, PipVersionQuery)) ==>
            w1.log == w.log + [PipVersionQuery] + [upgrade]
            && (r.status == Success <==> w.answer(n + 1, upgrade).code == 0))
      && (!Answered(w.answer(n, PipVersionQuery)) && w.answer(n + 1, apt).code != 0 ==>
            w1.log == w.log + [PipVersionQuery] + [apt]
            && r == FailureResult(PipUpgrade,
                 "Failed to install python3-pip: " + w.answer(n + 1, apt).output, 24))
      && (!Answered(w.answer(n, PipVersionQuery)) && w.answer(n + 1, apt).code == 0 ==>
            w1.log == w.log + [PipVersionQuery] + [apt] + [upgrade]
            && (r.status == Success <==> w.answer(n + 2, upgrade).code == 0))
      && (r.status != Success ==> r.status == Failed && r.code == 24)
  {
  }

  /** Both apt proxy options occur in the option pair. */
  lemma AptOptionsCarryProxy(proxy: string)
    ensures Contains(AptProxyOptions(proxy), AptProxyOption("http", proxy))
    ensures Contains(AptProxyOptions(proxy), AptProxyOption("https", proxy))
  {
    var http := AptProxyOption("http", proxy);
    var https := AptProxyOption("https", proxy);
    ContainsSelf(http);
    ContainsLeft(http, " ", http);
    ContainsLeft(http + " ", https, http);
    ContainsSelf(https);
    ContainsRight(http + " ", https, https);
  }

  /** A non-empty proxy reaches both apt `Acquire` options and pip's `--proxy`. */
  lemma PipProxyPropagates(proxy: string)
    requires proxy != ""
    ensures Contains(InstallPipCommand(proxy), AptProxyOption("http", proxy))
    ensures Contains(InstallPipCommand(proxy), AptProxyOption("https", proxy))
    ensures Contains(UpgradePipCommand(proxy), PipProxyFlag(proxy))
  {
    var options := AptProxyOptions(proxy);
    AptOptionsCarryProxy(proxy);
    ContainsRight("apt-get ", options, AptProxyOption("http", proxy));
    ContainsLeft("apt-get " + options, " install -y python3-pip", AptProxyOption("http", proxy));
    ContainsRight("apt-get ", options, AptProxyOption("https", proxy));
    ContainsLeft("apt-get " + options, " install -y python3-pip", AptProxyOption("https", proxy));
    var flag := PipProxyFlag(proxy);
    ContainsSelf(flag);
    ContainsRight("pip install ", flag, flag);
    ContainsLeft("pip install " + flag, "--upgrade pip --break-system-packages --ignore-installed", flag);
  }

  // ---------------------------------------------------------------------------
  // Project probes

  const InstalledQuery := Invocation(
    "cd ~/parallax && [ -d ./venv ] && source ./venv/bin/activate && pip list | grep parallax",
    Captured(None))
  const RevParseQuery := Invocation(
    "cd ~/parallax && git rev-parse --is-inside-work-tree 2>/dev/null", Captured(Some(30)))
  const RevListQuery := Invocation(
    "cd ~/prakasa && git rev-list HEAD...origin/main --count 2>/dev/null", Captured(Some(30)))

  function FetchQuery(proxy: string): Invocation
  {
    Invocation(
      if proxy == "" then "cd ~/prakasa && git fetch origin"
      else "cd ~/prakasa && ALL_PROXY=" + proxy + " git fetch origin",
      Captured(Some(60)))
  }

  /** `IsParallaxProjectInstalled`. */
  function InstalledProbe(w: World): (bool, World)
  {
    var (r, w1) := Run(w, InstalledQuery);
    (Answered(r), w1)
  }

  /**
   * The rev-list count read: whitespace removed, then `std::stoi`; a
   * conversion that throws reads as "no updates".
   */
  predicate CountShowsUpdates(output: string)
  {
    var trimmed := StripSpaces(output);
    trimmed != "" && Stoi(trimmed).Some? && Stoi(trimmed).value > 0
  }

  /** A count that reads as a number was not blank. */
  lemma CountNeedsText(output: string)
    ensures Stoi(StripSpaces(output)).Some? ==> StripSpaces(output) != "" && output != ""
  {
    if StripSpaces(output) == "" {
      assert Stoi(StripSpaces(output)) == None;
    }
  }

  /** `HasParallaxProjectGitUpdates`: rev-parse, fetch and rev-list, stopping at the first failure. */
  function GitUpdatesProbe(w: World, proxy: string): (bool, World)
  {
    var (revParse, w1) := Run(w, RevParseQuery);
    if revParse.code != 0 then (false, w1)
    else
      var (fetch, w2) := Run(w1, FetchQuery(proxy));
      if fetch.code != 0 then (false, w2)
      else
        var (count, w3) := Run(w2, RevListQuery);
        (count.code == 0 && count.output != "" && CountShowsUpdates(count.output), w3)
  }

  /**
   * Updates are reported exactly when all three probes succeed and the count
   * reads as a positive integer.
   */
  lemma GitUpdatesLaw(w: World, proxy: string)
    ensures var n := |w.log|;
      var count := w.answer(n + 2, RevListQuery);
      GitUpdatesProbe(w, proxy).0 <==>
        && w.answer(n, RevParseQuery).code == 0
        && w.answer(n + 1, FetchQuery(proxy)).code == 0
        && count.code == 0
        && Stoi(StripSpaces(count.output)).Some?
        && Stoi(StripSpaces(count.output)).value > 0
  {
    var n := |w.log|;
    var w1 := World(w.answer, w.log + [RevParseQuery]);
    var w2 := World(w.answer, w1.log + [FetchQuery(proxy)]);
    assert Run(w, RevParseQuery) == (w.answer(n, RevParseQuery), w1);
    assert Run(w1, FetchQuery(proxy)) == (w.answer(n + 1, FetchQuery(proxy)), w2);
    assert Run(w2, RevListQuery).0 == w.answer(n + 2, RevListQuery);
    CountNeedsText(w.answer(n + 2, RevListQuery).output);
  }

  /** Each failed probe ends the probing; the log holds exactly the probes that ran. */
  lemma GitUpdatesLog(w: World, proxy: string)
    ensures var w1 := GitUpdatesProbe(w, proxy).1;
      var n := |w.log|;
      var revParse := w.answer(n, RevParseQuery).code;
      var fetch := w.answer(n + 1, FetchQuery(proxy)).code;
      && w1.answer == w.answer
      && (revParse != 0 ==> w1.log == w.log + [RevParseQuery])
      && (revParse == 0 && fetch != 0 ==> w1.log == w.log + [RevParseQuery] + [FetchQuery(proxy)])
      && (revParse == 0 && fetch == 0 ==>
            w1.log == w.log + [RevParseQuery] + [FetchQuery(proxy)] + [RevListQuery])
  {
  }

  /** Whitespace around the count does not matter, "0" means no updates, and so does text that is not a number. */
  lemma CountThreeShowsUpdates()
    ensures CountShowsUpdates("3\n")
  {
    assert StripSpaces("3\n") == "3";
    assert DigitRunEnd("3", 1) == 1;
    assert DigitRunEnd("3", 0) == 1;
    assert DigitsValue("3") == 3;
  }

  lemma CountZeroShowsNone()
    ensures !CountShowsUpdates("0\n")
  {
    assert StripSpaces("0\n") == "0";
    assert DigitRunEnd("0", 1) == 1;
    assert DigitRunEnd("0", 0) == 1;
  }

  lemma CountErrorShowsNone()
    ensures !CountShowsUpdates("fatal")
  {
    assert StripSpaces("fatal") == "fatal";
    assert DigitRunEnd("fatal", 0) == 0;
  }

  // ---------------------------------------------------------------------------
  // Install plan

  /** The command text each step passes to the executor. */
  function Text(c: Command): string
  {
    match c
    case Pull(proxy) =>
      if proxy == "" then "cd ~/prakasa && git pull"
      else "cd ~/prakasa && ALL_PROXY=" + proxy + " git pull"
    case RemoveOld => "rm -rf ~/prakasa"
    case Clone(proxy, repo) =>
      "cd ~ && " + (if proxy == "" then "" else "ALL_PROXY=" + proxy + " ") + "git clone " + repo
    case InstallVenv(proxy) =>
      if proxy == "" then "apt update && apt-get install -y python3-venv"
      else
        "apt -o Acquire::http::proxy=\"" + proxy + "\" -o Acquire::https::proxy=\"" + proxy
        + "\" update && apt-get -o Acquire::http::proxy=\"" + proxy
        + "\" -o Acquire::https::proxy=\"" + proxy + "\" install -y python3-venv"
    case InstallBase(proxy) =>
      if proxy == "" then
        "cd ~/prakasa && ([ -d ./venv ] || python3 -m venv ./venv) && source ./venv/bin/activate && pip install -e '.[gpu]'"
      else
        "cd ~/prakasa && ([ -d ./venv ] || python3 -m venv ./venv) && source ./venv/bin/activate && HTTP_PROXY=\""
        + proxy + "\" HTTPS_PROXY=\"" + proxy + "\" pip install -e '.[gpu]'"
    case AddCudaPath =>
      "grep -q '/usr/local/cuda-12.8/bin' ~/.bashrc || echo 'export PATH=/usr/local/cuda-12.8/bin:$PATH' >> ~/.bashrc"
  }

  function PullStep(proxy: string): Step { Step("update_parallax", Pull(proxy), 300, false) }
  const RemoveStep := Step("remove_old_prakasa", RemoveOld, 60, false)
  function CloneStep(proxy: string, repo: string): Step { Step("clone_prakasa", Clone(proxy, repo), 600, false) }
  function VenvStep(proxy: string): Step { Step("install_python3_venv", InstallVenv(proxy), 300, false) }
  function BaseStep(proxy: string): Step { Step("install_prakasa_base", InstallBase(proxy), 1800, true) }
  const CudaEnvStep := Step("add_cuda_env", AddCudaPath, 30, false)

  /** What the fresh-install probes found under `~/parallax`. */
  datatype FreshStart = PullExisting | ReplaceNonRepo | CloneNew

  const DirectoryQuery := Invocation("ls -la ~/parallax/.git 2>/dev/null || echo 'not found'", Captured(Some(30)))
  const BranchQuery := Invocation("cd ~/parallax && git branch 2>/dev/null || echo 'not git'", Captured(Some(30)))

  /** The directory probe, then (only when a directory was listed) the git probe. */
  function ProbeFreshStart(w: World): (FreshStart, World)
  {
    var (dir, w1) := Run(w, DirectoryQuery);
    if dir.code == 0 && !Contains(dir.output, "not found") then
      var (branch, w2) := Run(w1, BranchQuery);
      (if branch.code == 0 && !Contains(branch.output, "not git") then PullExisting else ReplaceNonRepo, w2)
    else (CloneNew, w1)
  }

  function FreshPrefix(start: FreshStart, proxy: string, repo: string): seq<Step>
  {
    match start
    case PullExisting => [PullStep(proxy)]
    case ReplaceNonRepo => [RemoveStep, CloneStep(proxy, repo)]
    case CloneNew => [CloneStep(proxy, repo)]
  }

  /** The plan the `emplace_back` calls build. */
  function Plan(updateMode: bool, start: FreshStart, proxy: string, repo: string): seq<Step>
  {
    if updateMode then [PullStep(proxy), BaseStep(proxy)]
    else FreshPrefix(start, proxy, repo) + [VenvStep(proxy), BaseStep(proxy), CudaEnvStep]
  }

  /** The update plan is exactly a pull and the package install. */
  lemma UpdatePlanShape(start: FreshStart, proxy: string, repo: string)
    ensures var plan := Plan(true, start, proxy, repo);
      && |plan| == 2
      && plan[0].name == "update_parallax" && plan[0].timeout == 300
      && plan[1].name == "install_prakasa_base" && plan[1].timeout == 1800
  {
  }

  /** Every fresh plan ends with the venv package, the project install and the CUDA path. */
  lemma FreshPlanTail(start: FreshStart, proxy: string, repo: string)
    ensures var plan := Plan(false, start, proxy, repo);
      var p := |FreshPrefix(start, proxy, repo)|;
      && |plan| == p + 3
      && plan[p].name == "install_python3_venv"
      && plan[p + 1].name == "install_prakasa_base"
      && plan[p + 2].name == "add_cuda_env"
  {
  }

  /** The prefix the fresh-install probes choose. */
  lemma FreshPlanPrefix(start: FreshStart, proxy: string, repo: string)
    ensures var plan := FreshPrefix(start, proxy, repo);
      && (start == PullExisting ==> |plan| == 1 && plan[0].name == "update_parallax")
      && (start == ReplaceNonRepo ==>
            |plan| == 2 && plan[0].name == "remove_old_prakasa" && plan[1].name == "clone_prakasa")
      && (start == CloneNew ==> |plan| == 1 && plan[0].name == "clone_prakasa")
  {
  }

  /**
   * In every plan exactly one step is real-time: the package install with
   * timeout 1800, last in an update and second to last in a fresh install.
   */
  lemma OnlyBaseStepIsRealtime(updateMode: bool, start: FreshStart, proxy: string, repo: string)
    ensures var plan := Plan(updateMode, start, proxy, repo);
      var b := if updateMode then |plan| - 1 else |plan| - 2;
      && |plan| >= 2
      && (forall j :: 0 <= j < |plan| ==> (plan[j].realtime <==> j == b))
      && plan[b] == BaseStep(proxy)
      && plan[b].name == "install_prakasa_base" && plan[b].timeout == 1800
  {
    var plan := Plan(updateMode, start, proxy, repo);
    if !updateMode {
      var prefix := FreshPrefix(start, proxy, repo);
      assert forall j :: 0 <= j < |prefix| ==> !prefix[j].realtime;
      var p := |prefix|;
      assert forall j :: 0 <= j < p ==> plan[j] == prefix[j];
      assert plan[p] == VenvStep(proxy) && plan[p + 1] == BaseStep(proxy) && plan[p + 2] == CudaEnvStep;
    } else {
      assert plan[0] == PullStep(proxy) && plan[1] == BaseStep(proxy);
    }
  }

  // ---------------------------------------------------------------------------
  // Component operations

  /** `ParallaxProjectInstaller::Check`. */
  function ProjectCheckSpec(w: World, proxy: string): (ComponentResult, World)
  {
    var (installed, w1) := InstalledProbe(w);
    if installed then
      var (updates, w2) := GitUpdatesProbe(w1, proxy);
      (if updates then WarningResult(ParallaxProject, "Parallax project is installed but has git updates available")
       else SkippedResult(ParallaxProject, "Parallax project is already installed and up to date"), w2)
    else (FailureResult(ParallaxProject, "Parallax project is not installed", 25), w1)
  }

  lemma ProjectCheckLaw(w: World, proxy: string)
    ensures var (r, w1) := ProjectCheckSpec(w, proxy);
      var installed := Answered(w.answer(|w.log|, InstalledQuery));
      var (updates, w2) := GitUpdatesProbe(Run(w, InstalledQuery).1, proxy);
      && (installed && updates ==> r.status == Warning && w1 == w2)
      && (installed && !updates ==> r.status == Skipped && w1 == w2)
      && (!installed ==> r == FailureResult(ParallaxProject, "Parallax project is not installed", 25)
                         && w1.log == w.log + [InstalledQuery])
  {
  }

  /** After a successful sequence: re-verify, and report in the mode's own words. */
  function Verify(w: World, updateMode: bool): (ComponentResult, World)
  {
    var (installed, w1) := InstalledProbe(w);
    (if installed then
       SuccessResult(ParallaxProject,
         if updateMode then "Prakasa project updated successfully" else "Prakasa project installed successfully")
     else
       FailureResult(ParallaxProject,
         if updateMode then "Parallax project update completed but verification failed"
         else "Parallax project installation completed but verification failed", 25), w1)
  }

  /** `ParallaxProjectInstaller::Install`. */
  function ProjectInstallSpec(w: World, proxy: string, repo: string): (ComponentResult, World)
  {
    var (installed, w1) := InstalledProbe(w);
    var (updates, w2) := if installed then GitUpdatesProbe(w1, proxy) else (false, w1);
    if installed && !updates then
      (SkippedResult(ParallaxProject, "Parallax project is already installed and up to date"), w2)
    else
      var (start, w3) := if installed then (PullExisting, w2) else ProbeFreshStart(w2);
      var (sequence, w4) := RunSequence(w3, Plan(installed, start, proxy, repo), Text);
      if sequence.status != Success then (sequence, w4)
      else Verify(w4, installed)
  }

  /** Installed and up to date: Skipped, and nothing runs after the probes. */
  lemma InstallSkipsWhenUpToDate(w: World, proxy: string, repo: string)
    requires Answered(w.answer(|w.log|, InstalledQuery))
    requires !GitUpdatesProbe(Run(w, InstalledQuery).1, proxy).0
    ensures ProjectInstallSpec(w, proxy, repo) ==
      (SkippedResult(ParallaxProject, "Parallax project is already installed and up to date"),
       GitUpdatesProbe(Run(w, InstalledQuery).1, proxy).1)
  {
  }

  /**
   * A failed sequence is the result as it stands; a successful one is followed
   * by exactly one re-verification, which alone decides success.
   */
  lemma InstallAfterSequence(w: World, proxy: string, repo: string)
    ensures var (installed, w1) := InstalledProbe(w);
      var (updates, w2) := if installed then GitUpdatesProbe(w1, proxy) else (false, w1);
      var (start, w3) := if installed then (PullExisting, w2) else ProbeFreshStart(w2);
      var (sequence, w4) := RunSequence(w3, Plan(installed, start, proxy, repo), Text);
      var (r, w5) := ProjectInstallSpec(w, proxy, repo);
      !(installed && !updates) ==>
        && (sequence.status != Success ==> r == sequence && w5 == w4)
        && (sequence.status == Success ==>
              w5.log == w4.log + [InstalledQuery]
              && (r.status == Success <==> Answered(w4.answer(|w4.log|, InstalledQuery)))
              && (r.status != Success ==> r.status == Failed && r.code == 25))
  {
    var (installed, w1) := InstalledProbe(w);
    var (updates, w2) := if installed then GitUpdatesProbe(w1, proxy) else (false, w1);
    if !(installed && !updates) {
      var (start, w3) := if installed then (PullExisting, w2) else ProbeFreshStart(w2);
      var (sequence, w4) := RunSequence(w3, Plan(installed, start, proxy, repo), Text);
      assert ProjectInstallSpec(w, proxy, repo) ==
        if sequence.status != Success then (sequence, w4) else Verify(w4, installed);
      VerifyLaw(w4, installed);
    }
  }

  /** The re-verification runs one probe, and its answer alone decides. */
  lemma VerifyLaw(w: World, updateMode: bool)
    ensures var (r, w1) := Verify(w, updateMode);
      && w1.log == w.log + [InstalledQuery]
      && (r.status == Success <==> Answered(w.answer(|w.log|, InstalledQuery)))
      && (r.status != Success ==> r.status == Failed && r.code == 25)
  {
  }

  // ---------------------------------------------------------------------------
  // The component objects

  class PipUpgradeManager {
    const host: Host
    const proxy: string

    constructor (host: Host, proxy: string)
      ensures this.host == host && this.proxy == proxy
    {
      this.host := host;
      this.proxy := proxy;
    }

    method IsPipUpToDate() returns (available: bool)
      modifies host
      ensures (available, host.State()) == PipProbe(old(host.State()))
    {
      var r := host.Execute(PipVersionQuery);
      available := r.code == 0 && r.output != "";
    }

    method Check() returns (result: ComponentResult)
      modifies host
      ensures (result, host.State()) == PipCheckSpec(old(host.State()))
    {
      var available := IsPipUpToDate();
      result := if available then SkippedResult(PipUpgrade, "pip is available")
                else FailureResult(PipUpgrade, "pip is not installed", 24);
    }

    method Install() returns (result: ComponentResult)
      modifies host
      ensures (result, host.State()) == PipInstallSpec(old(host.State()), proxy)
    {
      var available := IsPipUpToDate();
      if !available {
        var install := host.Execute(Invocation(InstallPipCommand(proxy), Captured(Some(300))));
        if install.code != 0 {
          return FailureResult(PipUpgrade, "Failed to install python3-pip: " + install.output, 24);
        }
      }
      var upgrade := host.Execute(Invocation(UpgradePipCommand(proxy), Captured(Some(300))));
      result := if upgrade.code != 0 then FailureResult(PipUpgrade, "Failed to upgrade pip: " + upgrade.output, 24)
                else SuccessResult(PipUpgrade, "pip installed and upgraded successfully");
    }
  }

  class ParallaxProjectInstaller {
    const host: Host
    const proxy: string
    /** The configured `prakasa_git_repo_url`. */
    const repo: string

    constructor (host: Host, proxy: string, repo: string)
      ensures this.host == host && this.proxy == proxy && this.repo == repo
    {
      this.host := host;
      this.proxy := proxy;
      this.repo := repo;
    }

    method IsParallaxProjectInstalled() returns (installed: bool)
      modifies host
      ensures (installed, host.State()) == InstalledProbe(old(host.State()))
    {
      var r := host.Execute(InstalledQuery);
      installed := r.code == 0 && r.output != "";
    }

    method HasParallaxProjectGitUpdates() returns (updates: bool)
      modifies host
      ensures (updates, host.State()) == GitUpdatesProbe(old(host.State()), proxy)
    {
      var revParse := host.Execute(RevParseQuery);
      if revParse.code != 0 {
        return false;
      }
      var fetch := host.Execute(FetchQuery(proxy));
      if fetch.code != 0 {
        return false;
      }
      var count := host.Execute(RevListQuery);
      updates := false;
      if count.code == 0 && count.output != "" {
        var trimmed := EraseSpaces(count.output);
        if trimmed != "" {
          var parsed := Stoi(trimmed);
          updates := parsed.Some? && parsed.value > 0;
        }
      }
    }

    method Check() returns (result: ComponentResult)
      modifies host
      ensures (result, host.State()) == ProjectCheckSpec(old(host.State()), proxy)
    {
      var installed := IsParallaxProjectInstalled();
      if installed {
        var updates := HasParallaxProjectGitUpdates();
        if updates {
          return WarningResult(ParallaxProject, "Parallax project is installed but has git updates available");
        } else {
          return SkippedResult(ParallaxProject, "Parallax project is already installed and up to date");
        }
      }
      result := FailureResult(ParallaxProject, "Parallax project is not installed", 25);
    }

    method ExecuteCommandSequence(steps: seq<Step>) returns (result: ComponentResult)
      modifies host
      ensures (result, host.State()) == RunSequence(old(host.State()), steps, Text)
    {
      var i := 0;
      while i < |steps|
        invariant 0 <= i <= |steps|
        invariant RunSequence(old(host.State()), steps, Text) == RunSequence(host.State(), steps[i..], Text)
      {
        var step := steps[i];
        var code: int;
        if step.realtime {
          var r := host.Execute(Invocation(Text(step.command), Relay));
          code := r.code;
        } else {
          var r := host.Execute(Invocation(Text(step.command), Captured(Some(step.timeout))));
          code := r.code;
        }
        if code != 0 {
          return FailureResult(ParallaxProject, "Failed at step '" + step.name + "': " + Text(step.command), 25);
        }
        assert steps[i..][1..] == steps[i + 1..];
        i := i + 1;
      }
      result := SuccessResult(ParallaxProject, "Command sequence completed successfully");
    }

    /**
     * The `emplace_back` part of `Install`: in fresh-install mode the directory
     * and git probes choose the first steps. `start` records what they found.
     */
    method BuildPlan(updateMode: bool) returns (commands: seq<Step>, ghost start: FreshStart)
      modifies host
      ensures updateMode ==> start == PullExisting && host.State() == old(host.State())
      ensures !updateMode ==> (start, host.State()) == ProbeFreshStart(old(host.State()))
      ensures commands == Plan(updateMode, start, proxy, repo)
    {
      commands := [];
      start := PullExisting;
      if updateMode {
        commands := commands + [PullStep(proxy)];
      } else {
        var dir := host.Execute(DirectoryQuery);
        if dir.code == 0 && !Contains(dir.output, "not found") {
          var branch := host.Execute(BranchQuery);
          if branch.code == 0 && !Contains(branch.output, "not git") {
            commands := commands + [PullStep(proxy)];
          } else {
            start := ReplaceNonRepo;
            commands := commands + [RemoveStep];
            commands := commands + [CloneStep(proxy, repo)];
          }
        } else {
          start := CloneNew;
          commands := commands + [CloneStep(proxy, repo)];
        }
      }
      ghost var prefix := commands;
      assert prefix == if updateMode then [PullStep(proxy)] else FreshPrefix(start, proxy, repo);
      if !updateMode {
        commands := commands + [VenvStep(proxy)];
      }
      commands := commands + [BaseStep(proxy)];
      if !updateMode {
        commands := commands + [CudaEnvStep];
      }
    }

    /** The re-verification after a successful sequence. */
    method VerifyInstalled(updateMode: bool) returns (result: ComponentResult)
      modifies host
      ensures (result, host.State()) == Verify(old(host.State()), updateMode)
    {
      var verified := IsParallaxProjectInstalled();
      result := if verified then
          SuccessResult(ParallaxProject,
            if updateMode then "Prakasa project updated successfully" else "Prakasa project installed successfully")
        else
          FailureResult(ParallaxProject,
            if updateMode then "Parallax project update completed but verification failed"
            else "Parallax project installation completed but verification failed", 25);
    }

    method Install() returns (result: ComponentResult)
      modifies host
      ensures (result, host.State()) == ProjectInstallSpec(old(host.State()), proxy, repo)
    {
      ghost var w0 := host.State();
      var installed := IsParallaxProjectInstalled();
      if installed {
        var updates := HasParallaxProjectGitUpdates();
        if !updates {
          return SkippedResult(ParallaxProject, "Parallax project is already installed and up to date");
        }
      }
      ghost var w2 := host.State();
      var commands, start := BuildPlan(installed);
      assert (start, host.State()) == if installed then (PullExisting, w2) else ProbeFreshStart(w2);
      var sequence := ExecuteCommandSequence(commands);
      ghost var w4 := host.State();
      assert ProjectInstallSpec(w0, proxy, repo) ==
        if sequence.status != Success then (sequence, w4) else Verify(w4, installed);
      if sequence.status != Success {
        return sequence;
      }
      result := VerifyInstalled(installed);
    }
  }
}

# prakasa Windows worker: a Dafny model of its decision logic

The Windows worker is the `prakasa` command-line front end. It checks and
installs a WSL-hosted inference environment, keeps a small key/value
configuration file, and starts the `prakasa run`, `join` and `chat`
programs inside WSL. This project models the parts of it that make
decisions. The programs it calls are not modelled.

- **Environment checks** (`SystemChecker`): the OS version, GPU, driver and
  BIOS-virtualization checks, as functions from probe results to a
  `ComponentResult`. They include the uppercase / allowlist / `RTX <series><model>[TI|SUPER]`
  rule for the GPU's name.
- **Toolchain and project installers** (`SoftwareInstaller`, `CommandSequence`):
  - the pip check and install flow;
  - the git-update probe and its parse of the commit count;
  - the step plan of the project installation, which depends on the probe answers;
  - the short-circuiting runner of the step list.

  A `Host` object is a scripted oracle for process execution: its `n`-th
  call to a command returns `answer(n, invocation)`, and it keeps the log of
  every call (`Executor`). Each installer method is proved equal to a
  specification function over the oracle's state, and the properties are
  proved about those functions.
- **Configuration store** (`Config`), as a `ConfigManager` class:
  - a map of values and a current path;
  - the defaults;
  - the `key=value` line format with escaping;
  - the line loader, which is last-wins and protects the built-in keys;
  - saving in key order;
  - get, set, has and reset.

  The file system is a `Disk` object holding each file as a sequence of lines.
- **Command layer** (`BaseCommand`, `CheckCommand`, `InstallCommand`,
  `ModelCommands`, `CommandPipeline`, `CommandParser`):
  - the template method that every command runs: help, then validate, then
    prepare, then execute, where the first failure wins;
  - the administrator and WSL requirements;
  - the `prakasa <verb> <args>` command text and its proxy prefix;
  - the exit-code folds of `check` and `install`, with their output lines and
    progress printer;
  - the `argv` dispatcher with its registry of commands.

  The `config` and `cmd` command classes are not part of this model. The
  dispatcher treats them as an outside handler whose result is a parameter.

Two helper modules support the proofs:

- `TextOps` holds:
  - substring search;
  - ASCII uppercasing;
  - the C `isspace` class;
  - `std::stoi` with its range check;
  - number printing and padding.
- `ShellWords` is a decoder for bash words: blanks, single and double
  quotes, backslash escapes and comments; a metacharacter makes it refuse the
  input. It lets the model state what bash reads from the command text that
  the worker builds.

## Model

| member | source | states |
|---|---|---|
| `EnvTypes.FailureResult` | src/parallax/environment/system_checker.cpp:35 | a failure result carries its component, the `Failed` status, the message and the code given |
| `SystemChecker.OSVersionCheck` | src/parallax/environment/system_checker.cpp:24-90 | a non-zero `RtlGetVersion` status fails with code 10 before any classification; otherwise the result is `Success` exactly when the major version is at least 11, or it is 10 with a build of at least 18362; every other outcome is `Failed` with code 10 |
| `SystemChecker.Windows11BuildSupported` | src/parallax/environment/system_checker.cpp:47-86 | example: build 22631 of Windows 10.0 is accepted and build 18361 is refused with code 10 |
| `SystemChecker.RtxAt` | src/parallax/environment/system_checker.cpp:176-188 | a parse found at index `i` stands on an `RTX` occurrence there and is well formed: the model is two digits, and the suffix is empty, `TI` or `SUPER` |
| `SystemChecker.RtxSearchFirst` | src/parallax/environment/system_checker.cpp:176-188 | the search succeeds exactly when some `RTX` occurrence at or after `i` parses, and it returns the parse at the earliest such occurrence; this is the regex's first match under backtracking |
| `SystemChecker.RtxSearchContainsRtx` | src/parallax/environment/system_checker.cpp:176-188 | a successful parse implies that the name contains `RTX` |
| `SystemChecker.MinimumRequirementCaseInsensitive` | src/parallax/environment/system_checker.cpp:153-155 | two names that uppercase alike get the same verdict, and that verdict is the verdict on the uppercased name |
| `SystemChecker.AllowlistAccepts` | src/parallax/environment/system_checker.cpp:161-173 | a name whose uppercase form contains any of the ten allowlisted card names is accepted, whatever else it contains |
| `SystemChecker.RtxRule` | src/parallax/environment/system_checker.cpp:176-301 | off the allowlist, a name is accepted exactly when its first RTX parse exists, its series fits an `int` and the series policy accepts it (series 50 or more; series 40 with model 60 or more; series 30 with model above 60, or 60 with a `TI` suffix); a series beyond `int` range, where `std::stoi` throws, is its own verdict; a name without `RTX` is rejected, GTX names included |
| `SystemChecker.GPUScenarios` | src/parallax/environment/system_checker.cpp:193-257 | example: the RTX 3060 Ti and RTX 4070 are accepted, the RTX 3060 and RTX 3050 rejected |
| `SystemChecker.IsGPUMeetsMinimumRequirement` | src/parallax/environment/system_checker.cpp:150-302 | the method (uppercasing loop, allowlist loop with early return, RTX parse) returns the verdict of the rule above |
| `SystemChecker.GPUCheck` | src/parallax/environment/system_checker.cpp:103-148 | not NVIDIA fails with code 7; NVIDIA below the minimum fails with code 8 and names the card; an accepted card succeeds with "Compatible NVIDIA GPU detected: " + name + the Blackwell or Hopper suffix; the out-of-range series that throws has no result |
| `SystemChecker.DriverCheck` | src/parallax/environment/system_checker.cpp:319-388 | success exactly when nvidia-smi exits 0 with output that is not all white space, or the registry has a version; with nvidia-smi the message has the white-space-free version and, only when the toolkit version is invalid and not "Not detected", the CUDA warning, and the status stays `Success`; otherwise a registry hit gives the registry message; everything else fails with code 20 |
| `SystemChecker.BIOSCheck` | src/parallax/environment/system_checker.cpp:406-480 | `systeminfo` exiting 0 decides first, and "Firmware: Yes" is tested before "Firmware: No" (success, then failure with code 20); when it does not decide, the result fails with code 20 exactly when `wsl --status` exits 0 and reports one of the three virtualization errors (the "not enabled" failure), and a `wsl --status` that exits 0 without one gives "BIOS virtualization is enabled"; if `wsl --status` also fails, the result is the "unable to verify definitively" success |
| `SystemChecker.BIOSCheckRun` | src/parallax/environment/system_checker.cpp:415-479 | `systeminfo` runs first; `wsl --status` runs only when `systeminfo` did not decide; the result is `BIOSCheck` of the two answers |
| `Executor.Host.Execute` | src/parallax/environment/software_installer2.cpp:354 | a call answers with the oracle's response for its position in the log and appends itself to the log |
| `CommandSequence.StepInvocation` | src/parallax/environment/software_installer2.cpp:343-356 | a step runs through the streaming relay exactly when it is realtime; any other step runs captured with its own timeout |
| `CommandSequence.SequenceStopsAtFirstFailure` | src/parallax/environment/software_installer2.cpp:337-366 | when step `k` is the first with a non-zero exit, the result is `Failed` with code 25 and names step `k`'s name and command, and exactly the steps `0..k` have run |
| `CommandSequence.SequenceAllSucceed` | src/parallax/environment/software_installer2.cpp:337-366 | when every step exits 0, every step has run, in order, and the result is `Success` |
| `CommandSequence.SequenceRunsPrefix` | src/parallax/environment/software_installer2.cpp:331-367 | for every oracle, the steps that ran are a prefix of the plan, in order; the result is `Success` exactly when every step exits 0, and otherwise `Failed` with code 25 |
| `CommandSequence.FirstFailure` | src/parallax/environment/software_installer2.cpp:337-366 | when some step fails, there is a first failing step, and every step before it exits 0 |
| `SoftwareInstaller.PipCheckLaw` | src/parallax/environment/software_installer2.cpp:20-32 | `pip --version` runs once; `Skipped` exactly when it exits 0 with non-empty output, otherwise "pip is not installed" with code 24 |
| `SoftwareInstaller.PipInstallLaw` | src/parallax/environment/software_installer2.cpp:34-87 | installed pip goes straight to the upgrade; missing pip runs the apt install first, and when that fails the result is `Failed` with code 24 and the apt output, and no upgrade runs; otherwise the upgrade runs and decides, `Success` exactly on exit 0; every failure has code 24 |
| `SoftwareInstaller.PipProxyPropagates` | src/parallax/environment/software_installer2.cpp:45-74 | a non-empty proxy appears in the apt `Acquire::http::proxy` and `Acquire::https::proxy` options and in pip's `--proxy` flag |
| `SoftwareInstaller.PipUpgradeManager.IsPipUpToDate` | src/parallax/environment/software_installer2.cpp:89-94 | one `pip --version` call, and the answer is whether it exited 0 with output |
| `SoftwareInstaller.PipUpgradeManager.Check` | src/parallax/environment/software_installer2.cpp:20-32 | the method's result and calls are those of the pip check specification |
| `SoftwareInstaller.PipUpgradeManager.Install` | src/parallax/environment/software_installer2.cpp:34-87 | the method's result and calls are those of the pip install specification |
| `SoftwareInstaller.GitUpdatesLaw` | src/parallax/environment/software_installer2.cpp:379-439 | updates are reported exactly when rev-parse exits 0, the fetch exits 0, the rev-list count exits 0, and its output without white space parses as an integer above 0 |
| `SoftwareInstaller.GitUpdatesLog` | src/parallax/environment/software_installer2.cpp:379-439 | a failed rev-parse stops before the fetch, and a failed fetch stops before the count |
| `SoftwareInstaller.CountNeedsText` | src/parallax/environment/software_installer2.cpp:417-434 | a count that parses came from non-blank output |
| `SoftwareInstaller.CountThreeShowsUpdates` | src/parallax/environment/software_installer2.cpp:417-434 | example: the output "3\n" means updates |
| `SoftwareInstaller.CountZeroShowsNone` | src/parallax/environment/software_installer2.cpp:417-434 | example: the output "0\n" means no updates |
| `SoftwareInstaller.CountErrorShowsNone` | src/parallax/environment/software_installer2.cpp:417-434 | example: the output "fatal", which does not convert, means no updates |
| `SoftwareInstaller.ParallaxProjectInstaller.IsParallaxProjectInstalled` | src/parallax/environment/software_installer2.cpp:369-377 | one probe, and the project is installed exactly when it exits 0 with output |
| `SoftwareInstaller.ParallaxProjectInstaller.HasParallaxProjectGitUpdates` | src/parallax/environment/software_installer2.cpp:379-439 | the method, with its in-place white-space erasure, matches the specification of the git probe |
| `TextOps.EraseSpaces` | src/parallax/environment/software_installer2.cpp:419-423 | the erase-remove loop computes `StripSpaces`: the result holds no whitespace character and is no longer than the input (the same idiom strips the driver version at system_checker.cpp:332-336) |
| `SoftwareInstaller.ProjectCheckLaw` | src/parallax/environment/software_installer2.cpp:112-142 | installed with updates is `Warning`, installed without updates is `Skipped`, and not installed is "Parallax project is not installed" with code 25, after the one probe |
| `SoftwareInstaller.ParallaxProjectInstaller.Check` | src/parallax/environment/software_installer2.cpp:112-142 | the method's result and calls are those of the project check specification |
| `SoftwareInstaller.UpdatePlanShape` | src/parallax/environment/software_installer2.cpp:185-194 | the update-mode plan is exactly `update_parallax` (300 s), then `install_prakasa_base` (1800 s) |
| `SoftwareInstaller.FreshPlanPrefix` | src/parallax/environment/software_installer2.cpp:199-257 | the fresh-mode plan starts with `[update_parallax]` for an existing git checkout, `[remove_old_prakasa, clone_prakasa]` for a directory that is not a repository, and `[clone_prakasa]` for no directory |
| `SoftwareInstaller.FreshPlanTail` | src/parallax/environment/software_installer2.cpp:259-302 | after that prefix the fresh-mode plan is `install_python3_venv`, `install_prakasa_base`, `add_cuda_env` |
| `SoftwareInstaller.OnlyBaseStepIsRealtime` | src/parallax/environment/software_installer2.cpp:278-293 | in every plan, `install_prakasa_base` with timeout 1800 is the one and only realtime step |
| `SoftwareInstaller.ParallaxProjectInstaller.BuildPlan` | src/parallax/environment/software_installer2.cpp:185-302 | the step vector is built from the probes. Update mode runs no probe; fresh mode runs the directory probe, then the branch probe only after a listing |
| `SoftwareInstaller.InstallSkipsWhenUpToDate` | src/parallax/environment/software_installer2.cpp:152-161 | installed and without updates, `Install` returns `Skipped` after the two probes and runs no step |
| `SoftwareInstaller.InstallAfterSequence` | src/parallax/environment/software_installer2.cpp:305-325 | a failed sequence's result is returned unchanged with nothing run after it; after a successful one the re-verification runs once and the result is `Success` exactly when it passes, otherwise `Failed` with code 25 |
| `SoftwareInstaller.VerifyLaw` | src/parallax/environment/software_installer2.cpp:313-325 | the re-verification is one probe and passes exactly when the probe shows the project |
| `SoftwareInstaller.ParallaxProjectInstaller.VerifyInstalled` | src/parallax/environment/software_installer2.cpp:313-325 | the method makes the one installed probe and its result and new oracle state are those of the re-verification specification, with the update or install message |
| `SoftwareInstaller.ParallaxProjectInstaller.ExecuteCommandSequence` | src/parallax/environment/software_installer2.cpp:331-367 | the loop with early return equals the sequence specification, which the `Sequence*` lemmas characterize |
| `SoftwareInstaller.ParallaxProjectInstaller.Install` | src/parallax/environment/software_installer2.cpp:144-329 | the whole installation (probes, plan, sequence, verification) equals its specification, which the lemmas above characterize |
| `Config.DefaultsShape` | src/parallax/config/config_manager.cpp:50-64 | the defaults are exactly the four built-in keys, none of them empty, and `proxy_url` has none |
| `Config.UnescapeEscape` | src/parallax/config/config_manager.cpp:207-289 | unescaping the escaped form of any value gives the value back |
| `Config.EscapeValue` | src/parallax/config/config_manager.cpp:255-289 | the append loop computes the escaping function, which round-trips through the unescaping |
| `Config.ParseLineShape` | src/parallax/config/config_manager.cpp:191-195 | a line fails to parse exactly when it has no `=`, and a parsed key never holds an `=` |
| `Config.Trim` | src/parallax/config/config_manager.cpp:201-204 | trimming removes only a run of spaces and tabs at each end and keeps the middle |
| `Config.UnescapeLiteral` | src/parallax/config/config_manager.cpp:208-248 | a value without a backslash is kept unchanged, and so is a lone backslash at its end |
| `Config.ParseKeyValue` | src/parallax/config/config_manager.cpp:188-252 | the method succeeds exactly when the parse function does, and returns its key and value |
| `Config.UnescapeValue` | src/parallax/config/config_manager.cpp:207-248 | the index loop computes the unescaping function |
| `Config.EntryLineRoundTrip` | src/parallax/config/config_manager.cpp:172 | a saved line of a key without `=`, newline, leading `#` or outer blanks, and of a value without outer spaces, is not skipped and parses back to that key and value |
| `Config.ApplyLinesAppend` | src/parallax/config/config_manager.cpp:112-125 | reading two blocks of lines is reading the first, then the second |
| `Config.ApplyLinesKeep` | src/parallax/config/config_manager.cpp:112-125 | a key no line sets keeps its prior value or its absence |
| `Config.ApplyLinesLast` | src/parallax/config/config_manager.cpp:112-125 | a key takes the value of the last line that sets it |
| `Config.ApplyLineKey` | src/parallax/config/config_manager.cpp:115-124 | a skipped (empty or `#`) or unparsable line changes nothing; a key line sets its own key and no other |
| `Config.ReadEntries` | src/parallax/config/config_manager.cpp:111-125 | the `getline` loop computes the line-reading function |
| `Config.ReadEntry` | src/parallax/config/config_manager.cpp:114-123 | one iteration skips an empty or `#` line, stores a parsed key and value over the map, and leaves the map unchanged for a line without `=`, as the line-reading function does |
| `Config.ProtectEffect` | src/parallax/config/config_manager.cpp:131-143 | the protection loop gives each listed key that is empty or absent its saved value, and leaves every other key as it was |
| `Config.ProtectBuiltins` | src/parallax/config/config_manager.cpp:131-143 | the loop over the built-in keys computes the protection function |
| `Config.BuiltinsSurviveLoad` | src/parallax/config/config_manager.cpp:105-143 | after a load none of the four built-in keys is empty: a key the file emptied is back at its pre-load value, and any other key holds what the lines left |
| `Config.KeyOrderUnique` | src/parallax/config/config_manager.h:81-82 | there is exactly one strictly ascending listing of a key set, so the saved order is determined |
| `Config.LeastKeyExists` | src/parallax/config/config_manager.cpp:170-173 | every non-empty key set has a least key, so the save loop can emit keys in ascending order |
| `Config.RenderFile` | src/parallax/config/config_manager.cpp:165-173 | the file is the two header comments, a blank line, then one escaped `key=value` line per key in strictly ascending key order |
| `Config.HeaderSkipped` | src/parallax/config/config_manager.cpp:166-167 | the loader skips all three header lines |
| `Config.ReadBack` | src/parallax/config/config_manager.cpp:112-125 | reading a saved file over any map overlays the saved map on it |
| `Config.SaveLoadRoundTrip` | src/parallax/config/config_manager.cpp:150-185 | saving a map of saveable entries with no empty built-in value, then loading the file into a fresh store, gives the defaults overlaid with that map |
| `Config.ValidKeysSaveable` | src/parallax/config/config_manager.cpp:14-19 | every valid key, and so every built-in key, survives the save-load round trip |
| `Config.ConfigManager.constructor` | src/parallax/config/config_manager.cpp:32-44 | the store starts from the defaults and loads the file at its path; a missing file is written out with the defaults, or, when its path is unwritable, the disk is left unchanged |
| `Config.ConfigManager.InitDefaultConfig` | src/parallax/config/config_manager.cpp:50-64 | the four defaults overwrite their keys, and every other key is kept, `proxy_url` included |
| `Config.ConfigManager.LoadConfig` | src/parallax/config/config_manager.cpp:67-87 | the store is cleared and reset to the defaults, and then the file read over the defaults gives the new values (built-ins protected); a missing file is written out from the defaults, and the result reports whether that write succeeded; a non-empty path becomes the current path |
| `Config.ConfigManager.LoadConfigInternal` | src/parallax/config/config_manager.cpp:91-147 | a readable file overlays the current map without clearing it and then protects the built-ins; a missing file saves the current map instead |
| `Config.ConfigManager.SaveConfig` | src/parallax/config/config_manager.cpp:150-185 | the values are unchanged; success exactly when the target is writable, and then the target holds the sorted rendering of the values; a failed open writes nothing; only a successful save with a non-empty path moves the current path |
| `Config.ConfigManager.GetConfigValue` | src/parallax/config/config_manager.cpp:292-303 | a present key gives its value and an absent key gives the supplied default |
| `Config.ConfigManager.SetConfigValue` | src/parallax/config/config_manager.cpp:306-311 | a following get of the key returns the value just set, and every other key reads as before |
| `Config.ConfigManager.HasConfigValue` | src/parallax/config/config_manager.cpp:314-318 | true exactly when the key is present |
| `Config.ConfigManager.GetAllConfigValues` | src/parallax/config/config_manager.cpp:347-351 | the listing holds exactly the keys `HasConfigValue` reports, each with the value `GetConfigValue` returns |
| `Config.ConfigManager.GetConfigPath` | src/parallax/config/config_manager.cpp:331-335 | the current path, the field that the constructor sets and that `LoadConfig` and `SaveConfig` move only as their contracts on `path` state |
| `Config.ConfigManager.ResetToDefaults` | src/parallax/config/config_manager.cpp:338-344 | the values are exactly the four built-in defaults, and `proxy_url` is absent |
| `Config.IsValidConfigKey` | src/parallax/config/config_manager.cpp:321-328 | true for exactly the five listed keys |
| `BaseCommand.ToInt` | src/parallax/cli/commands/base_command.h:20-26 | the codes are 0 to 3, only `Success` is 0, and different results have different codes |
| `BaseCommand.ToIntInjective` | src/parallax/cli/commands/base_command.h:20-26 | different results have different codes |
| `BaseCommand.AdminRequirements` | src/parallax/cli/commands/base_command.h:202-207 | administrator commands need administrator rights only |
| `BaseCommand.WslRequirements` | src/parallax/cli/commands/base_command.h:215-220 | WSL commands need WSL only |
| `BaseCommand.ShouldShowHelp` | src/parallax/cli/commands/base_command.h:102-113 | true exactly when some argument is `--help` or `-h` |
| `BaseCommand.OnlyHelpArgs` | src/parallax/cli/commands/check_command.cpp:15-27 | `InvalidArgs` exactly when some argument is neither `--help` nor `-h`, otherwise `Success` |
| `BaseCommand.Context.constructor` | src/parallax/cli/commands/base_command.h:29-36 | a fresh context holds the arguments with empty, false fields |
| `BaseCommand.WslListed` | src/parallax/cli/commands/base_command.h:161-178 | WSL is available exactly when the listing exits 0 and its output contains the configured distribution's name |
| `BaseCommand.CheckWslEnvironment` | src/parallax/cli/commands/base_command.h:161-178 | the method runs the listing once and answers as above |
| `BaseCommand.PrepareLaw` | src/parallax/cli/commands/base_command.h:123-155 | `EnvironmentError` exactly when administrator rights are needed and missing, or WSL is needed and not listed; the administrator test comes first and, when it fails, no listing runs; nothing else runs |
| `BaseCommand.PrepareEnvironment` | src/parallax/cli/commands/base_command.h:123-155 | the context gets the configured distribution, the proxy and the administrator flag, and the WSL flag when it was probed; the result and calls are those of the preparation specification |
| `BaseCommand.EscapeForShell` | src/parallax/cli/commands/base_command.h:258-303 | an argument comes back unchanged exactly when it has none of the twenty special characters |
| `BaseCommand.EscapeForShellQuoted` | src/parallax/cli/commands/base_command.h:284-298 | the quoted form, with each `'` as `'"'"'`, decodes in bash to the argument as one word, whatever follows |
| `BaseCommand.EscapeForShellDropsBackslash` | src/parallax/cli/commands/base_command.h:302 | example: `a\b` is passed bare and bash reads it as `ab` |
| `BaseCommand.EscapeForShellDropsEmpty` | src/parallax/cli/commands/base_command.h:302 | example: the empty argument is passed bare and bash reads no word for it |
| `BaseCommand.EscapeForShellStartsComment` | src/parallax/cli/commands/base_command.h:302 | example: `#x` is passed bare and bash reads it as a comment |
| `BaseCommand.ShellQuoteLex` | src/parallax/cli/commands/base_command.h:258-303 | the corrected quoting decodes to every argument as one word, whatever follows it |
| `BaseCommand.ShellQuoteAgrees` | src/parallax/cli/commands/base_command.h:262-298 | the corrected quoting gives the same text as the original on an argument with a special character and on a non-empty argument of safe characters |
| `CheckCommand.CheckExitCodeMeaning` | src/parallax/cli/commands/check_command.cpp:163-198 | 2 exactly for a pending reboot, whatever the statuses; otherwise 1 exactly for a failure, 3 exactly for a warning without failure, and 0 for neither |
| `CheckCommand.CheckAllComponents` | src/parallax/cli/commands/check_command.cpp:163-198 | the flag loop with `break` computes that exit code |
| `CheckCommand.CheckResult` | src/parallax/cli/commands/check_command.cpp:39-71 | 0 and 3 are `Success`; every other code is `EnvironmentError` |
| `CheckCommand.CheckPasses` | src/parallax/cli/commands/check_command.cpp:29-72 | `check` succeeds exactly when no reboot is pending and no component failed; warnings do not matter |
| `CheckCommand.StatusDisplayDistinct` | src/parallax/cli/commands/check_command.cpp:110-142 | Success and Skipped show `[OK]`, and no other status does; symbol and verdict together tell every status apart |
| `CheckCommand.ComponentLineLayout` | src/parallax/cli/commands/check_command.cpp:110-149 | a line starts with its symbol and, for a name that fits, has the verdict after the 25-column name; it shows the message only for a failure or warning that has one, and ends the line |
| `InstallCommand.InstallAllComponents` | src/parallax/cli/commands/install_command.cpp:99-133 | the loop with `break` returns 2 for a pending reboot, else 0 when no component failed (warnings and skips count as installed), else 1 |
| `InstallCommand.InstallResult` | src/parallax/cli/commands/install_command.cpp:50-61 | 0 and 2 are `Success`; every other code is `ExecutionError` |
| `InstallCommand.InstallFails` | src/parallax/cli/commands/install_command.cpp:50-133 | `install` fails exactly when no reboot is pending and a component failed; a pending reboot is always success |
| `InstallCommand.InstallFailureImpliesCheckFailure` | src/parallax/cli/commands/install_command.cpp:50-133 | on the same results, an `install` failure implies a `check` failure, and a pending reboot passes `install` but fails `check` |
| `InstallCommand.DisplayStatusShape` | src/parallax/cli/commands/install_command.cpp:148-165 | every status except `Warning` has a symbol and a text, the texts tell those statuses apart, and `Warning` shows nothing |
| `InstallCommand.ResultLineShowsMessage` | src/parallax/cli/commands/install_command.cpp:148-174 | the result line starts with the status symbol and shows any non-empty message, whatever the status |
| `InstallCommand.ProgressTextShape` | src/parallax/cli/commands/install_command.cpp:185-199 | an update starts with a carriage return and, for a message that does not end a line, ends the line exactly at 100 percent |
| `InstallCommand.ProgressPrinter.constructor` | src/parallax/cli/commands/install_command.cpp:188 | the recorded percentage starts at -1 with nothing printed |
| `InstallCommand.ProgressPrinter.ProgressCallback` | src/parallax/cli/commands/install_command.cpp:185-199 | a new percentage is printed and recorded; a repeated one changes nothing |
| `InstallCommand.RepeatIsSilent` | src/parallax/cli/commands/install_command.cpp:189-198 | reporting the same percentage twice in a row prints it once |
| `InstallCommand.FirstCallPrints` | src/parallax/cli/commands/install_command.cpp:188-198 | from a fresh printer, the first call prints unless it reports -1 |
| `InstallCommand.ProgressRunLast` | src/parallax/cli/commands/install_command.cpp:189-198 | after any calls, the recorded percentage is the last one reported |
| `InstallCommand.ProgressRunAppends` | src/parallax/cli/commands/install_command.cpp:189-198 | output is only ever appended |
| `ModelCommands.ModelRequirements` | src/parallax/cli/commands/model_commands.h:18-23 | every model command needs WSL and never administrator rights; only `run` has `sync_proxy` false (`join` and `chat` set it true: lines 114-119 and 137-142), a flag nothing reads (see `ModelCommands.ModelExecute` under "## Left out") |
| `ModelCommands.ValidateModelArgs` | src/parallax/cli/commands/model_commands.cpp:91-104 | every argument list is accepted, as in `chat` (lines 192-204) and `run` (`model_commands.h` lines 25-35) |
| `ModelCommands.BuildCommand` | src/parallax/cli/commands/model_commands.cpp:74-88 | the stream loop gives `prakasa <verb>` and then, for each argument in order, a space and its `EscapeForShell` form (as in `BuildJoinCommand` at 175-189 and `BuildChatCommand` at 278-292); with no argument the text is exactly `prakasa <verb>` |
| `ModelCommands.SubCommandWords` | src/parallax/cli/commands/model_commands.cpp:74-88 | bash reads the built text as `prakasa`, the verb, then every argument unchanged and in order, when each argument has a special character or is a non-empty run of safe characters |
| `ModelCommands.SubCommandMisreadsBackslash` | src/parallax/cli/commands/model_commands.cpp:74-88 | example: for `prakasa run a\b` the built text is read by bash as `prakasa`, `run`, `ab` |
| `ModelCommands.CorrectedSubCommandWords` | src/parallax/cli/commands/base_command.h:258-303 | with the corrected quoting, bash reads the text as `prakasa`, the verb, then every argument unchanged and in order, for any arguments |
| `ModelCommands.VerbsSafe` | src/parallax/cli/commands/model_commands.h:13 | the verbs `run`, `join` and `chat` read as themselves in bash |
| `ModelCommands.ProxyPrefix` | src/parallax/cli/commands/model_commands.cpp:50-62 | the proxy prefix is empty exactly when no proxy is configured |
| `ModelCommands.FullCommandProxy` | src/parallax/cli/commands/model_commands.cpp:112-124 | the full command is the venv activation, ` && `, the `HTTP_PROXY='p' HTTPS_PROXY='p' ` prefix exactly when a proxy `p` is set, and then the sub-command |
| `ModelCommands.RelayResult` | src/parallax/cli/commands/model_commands.cpp:134-144 | exit 0 is `Success` and every other exit is `ExecutionError` (as in `chat` at 234-244 and `run`'s `ExecuteImpl`, `model_commands.h` 62-68) |
| `ModelCommands.ModelExecute` | src/parallax/cli/commands/model_commands.cpp:106-145 | the relay runs the full command once in the configured distribution, and its exit code decides the result |
| `ModelCommands.ExecuteModelCommand` | src/parallax/cli/commands/model_commands.cpp:44-72 | the method builds the text with `+=` from the `EscapeForShell` sub-command and matches the relay specification |
| `ModelCommands.ProbeSucceeds` | src/parallax/cli/commands/model_commands.cpp:13-42 | the launch-script and process probes run once in the distribution and answer whether they exited 0 |
| `CommandPipeline.KindRequirements` | src/parallax/cli/commands/base_command.h:202-220 | `check` and `install` need administrator rights and not WSL; the model commands need WSL and not administrator rights |
| `CommandPipeline.Execute` | src/parallax/cli/commands/base_command.h:62-91 | the method goes through context, help, validation, preparation and `ExecuteImpl` with early returns, and matches the pipeline specification |
| `CommandPipeline.ExecuteImpl` | src/parallax/cli/commands/check_command.cpp:29-72 | each command's own step: the folds of `check` and `install` over the orchestrator's result, and the relay for the model commands |
| `CommandPipeline.HelpWins` | src/parallax/cli/commands/base_command.h:69-73 | a help flag anywhere answers `Success` and runs nothing |
| `CommandPipeline.FirstFailureWins` | src/parallax/cli/commands/base_command.h:76-90 | a failed validation is the answer and runs nothing; a failed preparation is the answer and runs no more than the listing; `Success` needs every stage to succeed |
| `CommandPipeline.AdminArgs` | src/parallax/cli/commands/install_command.cpp:13-25 | without help flags, `check` and `install` accept only the empty argument list |
| `CommandPipeline.CheckEndToEnd` | src/parallax/cli/commands/check_command.cpp:15-72 | `prakasa check` succeeds exactly for no arguments, administrator rights, no pending reboot and no failed component; arguments give `InvalidArgs`, missing rights `EnvironmentError`; it makes no oracle call besides the orchestrator's (check_command.cpp:158), which is not modelled |
| `CommandPipeline.InstallEndToEnd` | src/parallax/cli/commands/install_command.cpp:13-61 | `prakasa install` gives `ExecutionError` exactly when it gets to the fold and a component failed without a pending reboot, and `Success` when it reaches the fold otherwise; it makes no oracle call besides the orchestrator's (install_command.cpp:94), which is not modelled |
| `CommandPipeline.ModelEndToEnd` | src/parallax/cli/commands/model_commands.cpp:106-145 | the listing runs first; an unlisted distribution gives `EnvironmentError` with no relay; otherwise the relay runs once and its exit code alone decides |
| `CommandParser.FindFirst` | src/parallax/cli/command_parser.cpp:111-118 | a miss means no command has the name; a hit is the first registered command with it |
| `CommandParser.CommandParser.FindCommand` | src/parallax/cli/command_parser.cpp:111-118 | the linear search returns what the lookup function specifies |
| `CommandParser.CommandParser.RegisterCommand` | src/parallax/cli/command_parser.cpp:77-81 | registration appends the command at the end of the registry |
| `CommandParser.FirstRegistrationWins` | src/parallax/cli/command_parser.cpp:77-118 | registering a name again never changes what a lookup of it finds |
| `CommandParser.CommandParser.InitializeBuiltinCommands` | src/parallax/cli/command_parser.cpp:120-177 | appends check, install, config, run, join, chat and cmd, in that order |
| `CommandParser.CommandParser.constructor` | src/parallax/cli/command_parser.cpp:14-17 | a new parser holds exactly the built-in registry |
| `CommandParser.PaddingWidth` | src/parallax/cli/command_parser.cpp:91-92 | the padding is 15 minus the name's length, and at least 1 |
| `CommandParser.HelpLineColumns` | src/parallax/cli/command_parser.cpp:88-96 | the name starts at column 2, and the description starts at column 17 when the name has at most 14 characters; a longer name is followed by a single space |
| `CommandParser.CommandParser.HelpPadding` | src/parallax/cli/command_parser.cpp:91-95 | the padding loop gives exactly `PaddingWidth(name)` spaces |
| `CommandParser.CommandParser.CommandList` | src/parallax/cli/command_parser.cpp:88-96 | the loop over the registry prints one help line per command, in registration order |
| `CommandParser.HelpListAppend` | src/parallax/cli/command_parser.cpp:88-96 | the help list of two registries in sequence is the first list followed by the second |
| `CommandParser.CommandParser.Parse` | src/parallax/cli/command_parser.cpp:21-75 | the method, including its argument-copying loop, matches the dispatch specification and sets the program name from `argv[0]` |
| `CommandParser.OptionsBeforeLookup` | src/parallax/cli/command_parser.cpp:38-46 | `--help`, `-h`, `--version` and `-v` as the first argument give 0 before any lookup, and nothing runs |
| `CommandParser.UnknownCommand` | src/parallax/cli/command_parser.cpp:49-55 | a name nobody registered gives 1, and nothing runs |
| `CommandParser.DispatchFound` | src/parallax/cli/command_parser.cpp:57-68 | a found command's handler gets `argv[2..]` in order, and its outcome is the parser's |
| `CommandParser.BuiltinDispatch` | src/parallax/cli/command_parser.cpp:120-167 | each built-in name runs its command's pipeline on the rest of `argv` and returns that result as its integer code, between 0 and 3 |
| `CommandParser.ExternalDispatch` | src/parallax/cli/command_parser.cpp:137-176 | `config` and `cmd` return their handler's code, or 1 when it throws |

## Left out

- Windows calls are inputs to the checks: `RtlGetVersion`, the registry lookups of the driver check, `IsAdmin`, `GetNvidiaGPUInfo` and `GetCUDAInfo`.
- Process execution is the scripted oracle `Executor.Host`. The oracle stands in for `ExecCommandEx`, `ExecutePowerShell`, `ExecuteWSL`, `WSLProcess` (streaming, Ctrl+C forwarding, timeouts) and `ConvertPowerShellOutputToUtf8`. `BuildWSLCommand` and the PowerShell and CMD quoting layers around it are not part of this model either.
- `EnvironmentInstaller` (the orchestrator of the checks and installs, the reboot flag and the progress percentages) is not part of this model; `check` and `install` take its `EnvironmentResult` as an input.
- The `config` and `cmd` command classes are not part of this model. Their handlers are an outside outcome function.
- Files are a `Disk` of line sequences. A key holding a newline (`SetConfigValue` accepts one) is one line of the model's file, while the program writes it as two physical lines that `getline` reads back as two; values are escaped, so only keys are affected. Text-mode newline translation, `GetAppBinDir`, `JoinPath`, the singleton, the `recursive_mutex` and the destructor's save are left out.
- Console output is left out: the help and version text (except the command list, `CommandParser.CommandParser.CommandList`, which `Parse` does not call in this model), `setw` widths beyond the name column, the 800 ms pause, log calls, and the loop and summary message of `DisplayResults`. The line that `DisplayResults` and the check callback print for one component is modelled.
- `ComponentToString` is not part of this model: each component's display name is a parameter of the line functions.
- `src/parallax/main.cpp` (console code page, log set-up, top-level exception handler) is left out.
- `CommandParser.HandlerOutcome`: a built-in command's handler is modelled without exceptions; an exception from a built-in command, which `Parse` turns into 1, is not represented.
- `SystemChecker.GPUCheck`: when the RTX series is beyond `int` range, `std::stoi` throws out of the check. The model gives no result (`None`) for that case, because what the caller does with the exception lies outside these files.
- `SystemChecker.MeetsMinimumUpper` follows the one parse that `std::regex` performs on these names (first `RTX`, optional blanks, the longest digit run of length 3 or more, optional `TI`/`SUPER`). General regex semantics are not modelled.
- `ModelCommands.ModelExecute`: the proxy prefix is added whenever a proxy is configured, `run` included, because the code reads the context's proxy without looking at `sync_proxy`. `PrepareEnvironment` fills the proxy for every command. So the `sync_proxy` flag is modelled, but it changes nothing.
- The paths are kept as written: the installed, rev-parse, directory and branch probes look in `~/parallax`, while the fetch, rev-list, pull, clone and build steps work in `~/prakasa`.
- `TextOps.LexLess` orders keys by character code, as `std::map<std::string, …>` does for the ASCII keys this store uses. Locale collation is not modelled.
- `CommandParser.CommandParser.Parse`: the help and version screens print text; the model returns only their exit code.

## Findings

| source | as written | input that shows it | evidently intended | confidence | as-written member | corrected member |
|---|---|---|---|---|---|---|
| src/parallax/cli/commands/base_command.h:258-303 | an argument without one of the twenty listed characters is passed to `bash` bare, and a backslash is not on the list | the argument `a\b`: bash reads the word `ab` | every argument reaches the program unchanged, as one word | not executed | `ModelCommands.SubCommandMisreadsBackslash` | `ModelCommands.CorrectedSubCommandWords` |
| src/parallax/cli/commands/base_command.h:258-303 | the empty argument is passed bare | the argument `""`: bash reads no word at all, so the argument disappears | the empty argument arrives as an empty word | not executed | `BaseCommand.EscapeForShellDropsEmpty` | `ModelCommands.CorrectedSubCommandWords` |
| src/parallax/cli/commands/base_command.h:258-303 | `#` is not on the list | the argument `#x`: bash reads a comment and drops it with everything after it | the argument arrives as the word `#x` | not executed | `BaseCommand.EscapeForShellStartsComment` | `ModelCommands.CorrectedSubCommandWords` |

The corrected quoting `BaseCommand.ShellQuote` passes an argument bare only when it is non-empty and made of letters, digits and a few safe punctuation characters, and single-quotes every other argument. `BaseCommand.ShellQuoteAgrees` shows that it gives the same text as the original on an argument with a special character and on a non-empty argument of safe characters. Other bare arguments, such as `a^b`, `~/m` or text outside ASCII, are quoted by the corrected version, although bash reads some of them back unchanged from the original's bare form. The model's `prakasa <verb>` command text (`ModelCommands.SubCommand`, built by `ModelCommands.BuildCommand` and run by `ModelCommands.ModelExecute`) uses the original `EscapeForShell`. `ModelCommands.SubCommandWords` proves that every argument arrives intact under the condition above, and `ModelCommands.SubCommandMisreadsBackslash` shows a command where one does not. The corrected text `ModelCommands.CorrectedSubCommand` uses `BaseCommand.ShellQuote`, and `ModelCommands.CorrectedSubCommandWords` proves that every argument arrives intact, with no condition. In the three cases above, `bash` reads each text as a command on its own. The PowerShell and WSL layers that carry the text to `bash` are not part of this model.

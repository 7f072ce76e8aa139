# paste-and-pray provisioning script, modelled in Dafny

`run.py` prepares a developer machine for the `advocoders` Django project. It
detects the platform (`darwin` becomes `osx`, `linux2` becomes `linux`, and
anything else is fatal). It then walks an ordered catalog of install steps.
For each step it builds the step object and calls `always_run`. A step whose
name occurs in `--skip` is passed over. A step that is already satisfied and
not named in `--force` is passed over too. Otherwise the script prints
`<doing>...` and calls `setup`. Only `sh.ErrorReturnCode` is caught there,
and its stderr is printed. A forced step then ends the run with status 1. An
unforced step is probed again: satisfied means the run moves on; unsatisfied
means the script prints `ERROR: <name> failed.`, then the step's
troubleshooting text when it has a non-empty one, and exits with status 1.

The model has two layers.

- `Orchestrator` is the loop of `run_steps` over abstract step records
  (`StepRun`). Each record holds the step's name, its announcement, the
  outcome of its constructor and hook, the probe before and after `setup`,
  the outcome of `setup`, and its troubleshooting text. A run produces the
  hooks and setups it invoked, the lines it printed, and how it ended.
- `Provision` builds those records from a `Machine`. A machine holds the text
  files, other existing paths, and the output (or failure) of each query
  command the probes run. Every probe is computed from the machine. The three
  setups that edit files (hosts entry, environment variable, alias) are
  modelled as `prepend_file` does them. Every other setup is a shell command
  whose result and effect on the machine are a function parameter
  (`ShellEffect`).

Supporting modules: `Outcomes` (results, errors, probe answers), `Text`
(Python 2 `in`, `split`, `strip`, `lower` and `readlines` on strings, each
with a reference characterisation), `Platform` (OS detection, POSIX
`os.path.join`, the shell profile path), `Catalog` (step names,
announcements, troubleshooting texts and the per-OS catalog) and `Probes`
(the `already_satisfied` computations and `prepend_file`).

A few behaviours of the script are easy to misread; the model follows the
code:

- `--skip` and `--force` are raw strings and a step is selected when its
  class name occurs in them as a substring. They are not sets. So
  `--skip=VirtualEnvInstall` also skips `VirtualEnv`, and
  `--skip=RunServerAlias` also skips `RunServer`.
- Probe errors are not all read as "not satisfied". The version probes catch
  everything. The grep probes catch only a failing `cat`/`grep`. A failing
  `brew list`, apt dry run, `pip freeze`, an unreadable requirements file, or
  an OS tag with no shell profile escapes the probe and ends the run with an
  exception.
- The troubleshooting text is printed when it is truthy, so an empty text
  would be skipped like a missing one.
- Only `sys.platform == "linux2"` is Linux.
- The forced exit comes after any `setup` that does not escape, whether it
  returned or raised `ErrorReturnCode`. It comes before the re-check.
- `SetupDatabase.already_satisfied` reads the module-level `options`, which
  is the same dictionary the steps receive, so it is modelled as the same
  options record.

## Model

| member | source | states |
|---|---|---|
| Text.ContainsIffOccurs | run.py:480-489 | Python's `name in option` holds exactly when the name occurs contiguously somewhere in the option string |
| Text.ContainsTransitive | run.py:480-489 | a string containing a longer step name contains every name that occurs inside it |
| Text.JoinSplit | run.py:339 | splitting the freeze output on newlines loses nothing: joining the pieces back gives the original |
| Text.SplitHeadFree | run.py:327 | the text before the first `==` of a requirement line never contains `==` |
| Text.SplitHeadEndsAtSeparator | run.py:327 | the first piece of a split is the whole line, or is followed by the separator in the line |
| Text.SplitHeadFirst | run.py:327 | the first piece stops at the first `==`: no occurrence of the separator starts inside it |
| Text.SplitAt | run.py:327 | at the first occurrence of the separator, the first piece is everything before it and the other pieces are the split of everything after it |
| Text.SplitWithoutSeparator | run.py:327 | a line without `==` splits into just itself |
| Text.SplitPiecesFree | run.py:327 | no piece of a split contains the separator |
| Text.Strip | run.py:327 | `strip()` removes only whitespace, from both ends, and leaves no whitespace at either end |
| Text.StripStripped | run.py:327 | stripping an already stripped string changes nothing |
| Text.Lower | run.py:327 | `lower()` keeps the length and lower-cases each ASCII capital in place, leaving every other character alone |
| Text.ReadLines | run.py:340 | `readlines()` gives non-empty lines, each ending in its only newline except possibly the last |
| Text.ReadLinesConcat | run.py:340 | the lines `readlines()` returns concatenate back to the file contents |
| Platform.GetOs | run.py:51-56 | `darwin` gives `osx`, `linux2` gives `linux`, and every other platform raises the unsupported-OS error |
| Platform.JoinPath | run.py:71 | `os.path.join` keeps an absolute second part; otherwise it appends it, inserting a `/` exactly when the first part is non-empty and does not already end in `/` |
| Platform.JoinPathAssociative | run.py:35 | joining three parts in one call, as `join(a, b, c)` does left to right, equals joining the first with the join of the other two |
| Platform.BashConfigFile | run.py:64-72 | the profile is `~/.bashrc` on linux and `~/.bash_profile` on osx; any other OS tag raises NotImplementedError |
| Catalog.NameRoundTrip | run.py:106-108 | a step's display name (its class name) identifies the step |
| Catalog.DisplayNameInjective | run.py:106-108 | two different steps never share a display name |
| Catalog.DisplayDoing | run.py:110-112 | the announcement has no whitespace at either end and is cut out of the class docstring by removing only whitespace at its ends, which makes it the stripped docstring; for the environment-variable step it is exactly the sentence of run.py:364-366, which names the `PRODUCTION` variable |
| Catalog.TroubleshootingPresence | run.py:168-302 | exactly the XCode, homebrew, brew, apt and hosts steps have a remedy, and every remedy is non-empty |
| Catalog.GetSteps | run.py:453-470 | osx runs 11 steps starting with XCode, homebrew, brew and virtualenv; linux runs 8 starting with apt; both end with the same seven common steps |
| Catalog.CatalogDistinct | run.py:453-470 | no catalog lists a step twice |
| Catalog.NameOverlaps | run.py:480-489 | an option naming VirtualEnvInstall also names VirtualEnv, and one naming RunServerAlias also names RunServer |
| Probes.ExtractPip | run.py:325-327 | an extracted package name holds no `==`, has no surrounding whitespace and is lower case |
| Probes.ExtractPips | run.py:325-327 | extraction keeps one name per line, in order |
| Probes.ExtractPipUnpinned | run.py:325-327 | a line without `==` yields its whole text, stripped and lower-cased |
| Probes.ExtractPipPinned | run.py:325-327 | a pinned line `name==version` yields the stripped, lower-cased name, whatever the version holds |
| Probes.ExtractPipFixed | run.py:325-327 | a name that is already extracted is its own name |
| Probes.ExtractPipsIdempotent | run.py:325-327 | extracting names twice gives the same list as extracting once |
| Probes.InstalledNames | run.py:220 | a name is installed exactly when some non-empty listing line strips to it |
| Probes.MissingEmpty | run.py:221-222 | the set difference is empty exactly when every required name is present |
| Probes.BrewSatisfied | run.py:218-222 | brew is satisfied exactly when every dependency is the stripped form of some non-empty `brew list` line |
| Probes.BrewProbe | run.py:218-222 | a failing `brew list` escapes the probe with that command's own error; otherwise it holds exactly when every dependency is listed |
| Probes.RequiredCovered | run.py:339-342 | no required name is missing exactly when every requirement line names a package some freeze line names |
| Probes.PipsSatisfied | run.py:339-342 | the name comparison holds exactly when every requirement line is matched by a freeze line |
| Probes.VirtualEnvProbe | run.py:332-342 | false without the activation script; raises the error of `pip freeze` when it fails, and otherwise the error of opening the requirements file when that fails; otherwise holds exactly when every requirement is frozen |
| Probes.AptProbe | run.py:264-266 | a failing dry run escapes with its own error; otherwise the probe holds exactly when the dry run reports `0 upgraded, 0 newly installed` |
| Probes.VersionProbe | run.py:136-141 | never raises, and holds exactly when the version command succeeds with non-empty output |
| Probes.GrepProbe | run.py:368-373 | raises only when the path cannot be computed, and then with the error that computing it raised; holds exactly when the file exists and contains the term |
| Probes.PrependFile | run.py:75-80 | a missing file fails with an I/O error; otherwise only that file changes, to the line, a newline, then its old contents |
| Probes.PrependThenGrep | run.py:286-294 | after a successful prepend, grep finds a term of the new line or one the file already held |
| Probes.LinesHoldTheirTerms | run.py:368-412 | the hosts line, the export line and the alias line each contain the term their step greps for |
| Orchestrator.ExitStatus | run.py:489-499 | the exit status is 0 exactly when the run finished, and 1 otherwise |
| Orchestrator.FailureReport | run.py:494-498 | the failure line comes first; when the remedy is truthy it is followed by exactly an empty line, the banner and the remedy, and otherwise by nothing |
| Orchestrator.RunOne | run.py:478-499 | one step: a constructor error stops everything; the hook comes first; setup runs and is announced exactly when the step is built, unskipped, its probe answers, and it is unsatisfied or forced; forced exit exactly when forced and setup did not escape; a failure exit only after an unsatisfied re-check |
| Orchestrator.RunOneRaises | run.py:478-491 | an exception from the hook, from the first probe of an unskipped step, from setup unless it is `ErrorReturnCode`, or from the re-check of an unforced step ends the run with that exception |
| Orchestrator.RunOneReport | run.py:484-499 | a caught `ErrorReturnCode` has its stderr printed right after the announcement; the failure exit happens exactly when an unforced step's setup does not escape and the re-check says unsatisfied |
| Orchestrator.RunOneOutput | run.py:478-499 | a step prints nothing unless its setup is invoked; then the announcement, the stderr of a caught `ErrorReturnCode`, and the failure report only on the failure exit, so a forced exit or an escaping error prints at most two lines |
| Orchestrator.Run | run.py:477-499 | the run finishes exactly when every step proceeds |
| Orchestrator.RunWhenAllProceed | run.py:477-499 | when every step proceeds the run is all their events and output, in order |
| Orchestrator.RunStopsAtFirstHalt | run.py:477-499 | the first halting step ends the run with its ending, and no later step is reached |
| Orchestrator.SkipPrecedence | run.py:480-481 | no step whose name occurs in the skip string has its setup invoked, even when forced |
| Orchestrator.HooksOfReachedSteps | run.py:478-479 | across a list of steps that can all be built, each step's hook runs once, in list order; ForceTerminates applies it to the steps a run reaches |
| Orchestrator.HooksFollowCatalog | run.py:477-479 | the hooks run are a prefix of the catalog, and all of it when the run finishes |
| Orchestrator.StepHooks | run.py:478-479 | one step runs its own hook exactly when it could be built, and proceeds only then |
| Orchestrator.ShortCircuit | run.py:480-483 | when every step is skipped or satisfied and unforced, only the hooks run, nothing is printed and the run finishes |
| Orchestrator.PassedOverProceeds | run.py:478-483 | a skipped, or satisfied and unforced, step only runs its hook and proceeds |
| Orchestrator.ForceTerminates | run.py:482-491 | a reached step that is forced and not skipped, that could be built, whose hook returned and whose probe answered, runs its setup even if satisfied, then the run ends with status 1 and no later step is reached: by `exit(1)`, or by the setup's own exception when it is not `ErrorReturnCode` (such as the base class's NotImplementedError) |
| Orchestrator.ForcedStep | run.py:478-488 | a built, forced, unskipped step whose probe answers runs its hook and setup and then halts |
| Orchestrator.RecheckDecides | run.py:489-499 | after an unforced setup the re-check decides: satisfied continues; unsatisfied exits, and the printed lines end with the whole failure report: the `ERROR` line, then, only with a remedy, a blank line, the banner and the remedy |
| Provision.DefaultOptions | run.py:29-36 | with the defaults, the home directory is the one given, logging is verbose, skip and force are empty, and the project directory is `projects/advocoders` joined to the home directory: `home + "/projects/advocoders"`, or without the extra `/` when the home directory is empty or already ends in one |
| Provision.DefaultProjectDir | run.py:35 | joining `projects` and then `advocoders` to the home directory is joining `projects/advocoders` to it |
| Provision.StepProbe | run.py:133-420 | RunServer is always satisfied; the version, path and hosts probes never raise; the profile probes raise exactly on an OS tag without a profile; brew and apt raise exactly when their command fails |
| Provision.StepProbeReads | run.py:133-420 | each probe reads what its `already_satisfied` reads: the version probes their command, brew and apt their listing, GitClone whether the project directory exists, VirtualEnv `virtualenv/bin/activate_this.py`, `pip freeze` and `requirements.txt` under the project directory, the database step whether `sqlite3.db` exists there, and the hosts, variable and alias probes a grep of `/etc/hosts` or the shell profile |
| Provision.StepInit | run.py:319-320 | only VirtualEnv's constructor can fail, and it fails exactly when the project directory does not exist, with an I/O error naming it |
| Provision.StepHook | run.py:431-432 | only RunServer's `always_run` can fail, and it fails exactly when the project directory does not exist, with an I/O error naming it |
| Provision.PrependSetup | run.py:75-80 | a prepend succeeds exactly when the path is known and the file exists, and then changes that file as `prepend_file` does and nothing else on the machine; on failure the machine is untouched |
| Provision.StepSetup | run.py:118-450 | RunServer has no setup of its own (the base class raises NotImplementedError); SetupDatabase fails on its change of directory; the hosts setup prepends its line to `/etc/hosts` exactly when the file exists |
| Provision.StepRunOf | run.py:477-491 | each step the loop builds is recorded under its catalog display name |
| Provision.StepRunOfParts | run.py:477-491 | the record carries the step's `display_doing` and `display_troubleshooting`, its constructor, hook and first probe on the machine it meets, its setup there and the re-check on the machine the setup left; the line printed before setup is `display_doing` followed by `...` |
| Provision.TrajectoryFixed | run.py:477-478 | steps that all leave the machine alone all see the same machine |
| Provision.Plan | run.py:477-478 | the records follow the catalog one for one, under the catalog's names |
| Provision.Trajectory | run.py:477-486 | the first step sees the starting machine, and every later step sees the machine its predecessor turned the previous one into |
| Provision.MachinesSeen | run.py:477-486 | step `i + 1` sees the machine step `i` left: the one its `setup` produced when it ran, the same one otherwise |
| Provision.PlanThreadsMachines | run.py:477-491 | every step is built, hooked and probed on the machine its predecessor left, and that machine is what the previous `setup` produced when it was invoked, the unchanged machine otherwise |
| Provision.CloneThenVirtualEnv | run.py:312-320 | a clone that runs and leaves the project directory lets the VirtualEnv step after it change into that directory; without the clone, VirtualEnv meets the machine the clone step saw |
| Provision.HostsEditSeenNext | run.py:293-294 | once the hosts setup runs on a machine with `/etc/hosts`, its re-check holds and the next step sees the file with the entry prepended |
| Provision.RunSteps | run.py:473-477 | an unsupported platform raises before any step; otherwise the hooks run follow the OS catalog, and cover it all when the run finishes |
| Provision.SatisfiedMachineRunsNoSetup | run.py:477-483 | on a machine where every step is skipped or satisfied and unforced, a run invokes no setup, prints nothing, runs every hook in order and finishes |
| Provision.PrependStepProbes | run.py:283-412 | after a successful hosts, environment-variable or alias setup, the step's own probe holds |
| Provision.PrependStepsResolve | run.py:283-412 | an unforced hosts, environment-variable or alias step whose setup returns is resolved by the re-check and the run moves on |
| Provision.PrependStepsFailure | run.py:64-80 | the profile setups succeed exactly on linux or osx with an existing profile, and their failures escape the run |
| Provision.SkippingAliasSkipsServer | run.py:480-481 | `--skip=RunServerAlias` also keeps RunServer's setup from being invoked |
| Provision.DefaultsFollowTheProbe | run.py:480-483 | with the default empty skip and force strings, a step's setup runs exactly when it is built and its probe answers false |

## Left out

- Running commands through `sh` and `sudo -E -u $SUDO_USER` is not modelled. Every shell setup is the `ShellEffect` parameter and every query command's output is a field of `Machine`.
- Downloading and loading `sh.py` (`load_this_script_deps`), the temporary directory, `chmod 777` and argument parsing are left out. The options record stands for their result.
- The XCode download table and DMG handling are left out, including the NotImplementedError for an unknown macOS version. That setup is a shell effect, which may raise any error.
- The macOS version number is not modelled, because no step choice in `get_steps` depends on it.
- Virtualenv activation (`execfile` of `activate_this.py`) and its effect on later commands are left out. So is `always_run` of `VirtualEnv`, which only activates.
- The environment-variable step's `always_run` sets `os.environ`. This has no effect on the model and is left out.
- RunServer's `always_run` is modelled only as its change of directory. Starting the server, the banner, the sleep, opening the browser and waiting for Ctrl-C are left out.
- `--quiet` and the stdout of commands are not modelled. The output lines are only those `run_steps` prints itself.
- Probes.GrepProbe: `grep` is modelled as literal substring search. A regex pattern is not modelled; the dots in the host name would match any character.
- Text.Lower: only ASCII letters are lower-cased, as Python 2's byte-string `lower()` does in the C locale.
- Text.Strip and Text.Lower treat strings as byte strings. If `sh` hands back `unicode` output under Python 2, `strip()` also removes Unicode whitespace and `lower()` also lower-cases non-ASCII letters; that case is not modelled.
- Probes.ExtractPipPinned: stated only for names without `=`. A name ending in `=`, such as `a=` in `a===1`, is cut at the first `==` and loses that character.
- Provision.StepSetup: the contract fixes only RunServer, SetupDatabase's change of directory and the hosts edit. The other two file edits are stated by Provision.PrependStepsFailure and Provision.PrependStepProbes. The remaining setups are the shell parameter.

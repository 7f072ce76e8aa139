/** The whole script run against a machine: every step's probe is evaluated
    on the machine's files, directories and command outputs; the three steps
    that edit files (hosts entry, environment variable, alias) change the
    machine as `prepend_file` does; every other setup is a shell command whose
    result and effect on the machine are an input. */
module Provision {
  import opened Outcomes
  import opened Text
  import opened Platform
  import opened Catalog
  import opened Probes
  import opened Orchestrator

  /** The options record shared by every step. `os` is empty until platform
      detection fills it in. */
  datatype Options = Options(
    homeDir: string,
    projectDir: string,
    os: string,
    skip: string,       // raw `--skip` text, default ""
    force: string,      // raw `--force` text, default ""
    quiet: bool)

  /** `get_options` merged with the command-line defaults. */
  function DefaultOptions(homeDir: string): (o: Options)
    ensures o.homeDir == homeDir && !o.quiet
    ensures o.skip == "" && o.force == "" && o.os == ""
    ensures homeDir <= o.projectDir
    ensures |o.projectDir| >= |ProjectName| && o.projectDir[|o.projectDir| - |ProjectName|..] == ProjectName
    ensures o.projectDir == JoinPath(homeDir, ProjectsDir + "/" + ProjectName)
    ensures homeDir != "" && homeDir[|homeDir| - 1] != '/' ==>
      o.projectDir == homeDir + "/" + ProjectsDir + "/" + ProjectName
    ensures homeDir == "" || homeDir[|homeDir| - 1] == '/' ==>
      o.projectDir == homeDir + ProjectsDir + "/" + ProjectName
  {
    var projects := JoinPath(homeDir, ProjectsDir);
    var projectDir := JoinPath(projects, ProjectName);
    DefaultProjectDir(homeDir);
    Options(homeDir, projectDir, "", "", "", false)
  }

  const ProjectsDir := "projects"

  /** `~/projects/advocoders`, however the home directory ends. */
  lemma DefaultProjectDir(homeDir: string)
    ensures JoinPath(JoinPath(homeDir, ProjectsDir), ProjectName) ==
      JoinPath(homeDir, ProjectsDir + "/" + ProjectName)
    ensures !IsAbsolute(ProjectsDir + "/" + ProjectName)
  {
    assert !IsAbsolute(ProjectName) && !IsAbsolute(ProjectsDir);
    JoinPathAssociative(homeDir, ProjectsDir, ProjectName);
    assert JoinPath(ProjectsDir, ProjectName) == ProjectsDir + "/" + ProjectName;
  }

  /** Everything the probes read: text files by path, other existing paths,
      and the output (or failure) of each query command. */
  datatype Machine = Machine(
    files: map<string, string>,
    dirs: set<string>,
    makeVersion: Output,         // make -version
    brewVersion: Output,         // brew --version
    virtualenvVersion: Output,   // virtualenv --version
    brewList: Output,            // brew list -1
    aptDryRun: Output,           // apt-get install --dry-run ...
    pipFreeze: Output)           // pip freeze inside the virtualenv

  /** What an unmodelled setup command does: its result and the machine after it. */
  type ShellEffect = (StepName, Machine) -> (SetupResult, Machine)

  predicate PathExists(m: Machine, p: string) {
    p in m.files || p in m.dirs
  }

  function ReadFile(m: Machine, p: string): (r: Output)
    ensures r.Ok? <==> p in m.files
    ensures r.Err? ==> r.error == IoError(p)
  {
    if p in m.files then Ok(m.files[p]) else Err(IoError(p))
  }

  function ActivateThis(o: Options): string {
    JoinPath(o.projectDir, "virtualenv/bin/activate_this.py")
  }

  function RequirementsFile(o: Options): string {
    JoinPath(o.projectDir, "requirements.txt")
  }

  function DatabaseFile(o: Options): string {
    JoinPath(o.projectDir, "sqlite3.db")
  }

  function Profile(o: Options): Result<string> {
    BashConfigFile(o.homeDir, o.os)
  }

  /** `os.chdir(project_dir)`. */
  function ChangeToProject(o: Options, m: Machine): Option<Error> {
    if o.projectDir in m.dirs then None else Some(IoError(o.projectDir))
  }

  /** The steps whose probe can never raise: it catches every error, or
      only tests for a path. */
  const SafeProbes: set<StepName> :=
    {XCodeInstall, HomebrewInstall, VirtualEnvInstall, UpdateHostsFile, GitClone, SetupDatabase, RunServer}

  /** Each step's `already_satisfied` on a machine. */
  function StepProbe(n: StepName, o: Options, m: Machine): (r: Probe)
    ensures n == RunServer ==> r == Holds(true)
    ensures n in SafeProbes ==> r.Holds?
    ensures n in {ProductionEnvironmentVariable, RunServerAlias} ==>
      (r.ProbeRaised? <==> o.os != Linux && o.os != Osx)
    ensures n == BrewDependenciesInstall ==> (r.ProbeRaised? <==> m.brewList.Err?)
    ensures n == AptDependenciesInstall ==> (r.ProbeRaised? <==> m.aptDryRun.Err?)
  {
    match n
    case XCodeInstall => VersionProbe(m.makeVersion)
    case HomebrewInstall => VersionProbe(m.brewVersion)
    case BrewDependenciesInstall => BrewProbe(m.brewList)
    case VirtualEnvInstall => VersionProbe(m.virtualenvVersion)
    case AptDependenciesInstall => AptProbe(m.aptDryRun)
    case UpdateHostsFile => GrepProbe(m.files, Ok(HostsPath), HostNames)
    case GitClone => Holds(PathExists(m, o.projectDir))
    case VirtualEnv =>
      VirtualEnvProbe(PathExists(m, ActivateThis(o)), m.pipFreeze, ReadFile(m, RequirementsFile(o)))
    case ProductionEnvironmentVariable => GrepProbe(m.files, Profile(o), EnvVariable)
    case SetupDatabase => Holds(PathExists(m, DatabaseFile(o)))
    case RunServerAlias => GrepProbe(m.files, Profile(o), AliasTerm)
    case RunServer => Holds(true)
  }

  /** What each probe reads from the machine: the `--version` probes their
      command's output, brew and apt their listing, GitClone and the database
      step whether a path exists, VirtualEnv its activation script, freeze
      output and requirements file, and the file-edit probes a grep of their
      file. */
  lemma StepProbeReads(n: StepName, o: Options, m: Machine)
    ensures n == XCodeInstall ==> StepProbe(n, o, m) == VersionProbe(m.makeVersion)
    ensures n == HomebrewInstall ==> StepProbe(n, o, m) == VersionProbe(m.brewVersion)
    ensures n == VirtualEnvInstall ==> StepProbe(n, o, m) == VersionProbe(m.virtualenvVersion)
    ensures n == BrewDependenciesInstall ==> StepProbe(n, o, m) == BrewProbe(m.brewList)
    ensures n == AptDependenciesInstall ==> StepProbe(n, o, m) == AptProbe(m.aptDryRun)
    ensures n == UpdateHostsFile ==> StepProbe(n, o, m) == GrepProbe(m.files, Ok("/etc/hosts"), HostNames)
    ensures n == GitClone ==>
      StepProbe(n, o, m) == Holds(o.projectDir in m.files || o.projectDir in m.dirs)
    ensures n == VirtualEnv ==>
      var activate := JoinPath(o.projectDir, "virtualenv/bin/activate_this.py");
      var requirements := JoinPath(o.projectDir, "requirements.txt");
      StepProbe(n, o, m) ==
        VirtualEnvProbe(activate in m.files || activate in m.dirs, m.pipFreeze,
                        if requirements in m.files then Ok(m.files[requirements]) else Err(IoError(requirements)))
    ensures n == ProductionEnvironmentVariable ==>
      StepProbe(n, o, m) == GrepProbe(m.files, BashConfigFile(o.homeDir, o.os), EnvVariable)
    ensures n == SetupDatabase ==>
      var db := JoinPath(o.projectDir, "sqlite3.db");
      StepProbe(n, o, m) == Holds(db in m.files || db in m.dirs)
    ensures n == RunServerAlias ==>
      StepProbe(n, o, m) == GrepProbe(m.files, BashConfigFile(o.homeDir, o.os), AliasTerm)
  {
  }

  /** The constructor: only VirtualEnv's changes directory, and can fail. */
  function StepInit(n: StepName, o: Options, m: Machine): (r: Option<Error>)
    ensures r.Some? <==> n == VirtualEnv && o.projectDir !in m.dirs
    ensures r.Some? ==> r.value == IoError(o.projectDir)
  {
    if n == VirtualEnv then ChangeToProject(o, m) else None
  }

  /** `always_run`: only RunServer's can fail here, on its change of
      directory; the server it then starts is not modelled. */
  function StepHook(n: StepName, o: Options, m: Machine): (r: Option<Error>)
    ensures r.Some? <==> n == RunServer && o.projectDir !in m.dirs
    ensures r.Some? ==> r.value == IoError(o.projectDir)
  {
    if n == RunServer then ChangeToProject(o, m) else None
  }

  /** A setup that prepends `line` to the file at `path`. */
  function PrependSetup(m: Machine, path: Result<string>, line: string): (r: (SetupResult, Machine))
    ensures r.0 == SetupOk <==> path.Ok? && path.value in m.files
    ensures r.0 == SetupOk ==> r.1.files == PrependFile(m.files, path.value, line).value
    ensures r.0 == SetupOk ==> r.1 == m.(files := PrependFile(m.files, path.value, line).value)
    ensures r.0.SetupThrew? ==> r.1 == m
    ensures r.0.SetupThrew? && path.Ok? ==> r.0.error == IoError(path.value)
    ensures path.Err? ==> r == (SetupThrew(path.error), m)
  {
    match path
    case Err(e) => (SetupThrew(e), m)
    case Ok(p) =>
      match PrependFile(m.files, p, line)
      case Ok(files) => (SetupOk, m.(files := files))
      case Err(e) => (SetupThrew(e), m)
  }

  /** Each step's `setup` on a machine. */
  function StepSetup(n: StepName, o: Options, m: Machine, shell: ShellEffect): (r: (SetupResult, Machine))
    ensures n == RunServer ==> r == (SetupThrew(NotImplemented), m)
    ensures n == SetupDatabase && o.projectDir !in m.dirs ==> r == (SetupThrew(IoError(o.projectDir)), m)
    ensures n == UpdateHostsFile ==>
      (r.0 == SetupOk <==> HostsPath in m.files) &&
      (r.0 == SetupOk ==> HostsPath in r.1.files && r.1.files[HostsPath] == HostsLine + "\n" + m.files[HostsPath])
  {
    match n
    case UpdateHostsFile => PrependSetup(m, Ok(HostsPath), HostsLine)
    case ProductionEnvironmentVariable => PrependSetup(m, Profile(o), EnvLine)
    case RunServerAlias => PrependSetup(m, Profile(o), AliasLine(o.projectDir))
    case SetupDatabase =>
      (match ChangeToProject(o, m)
       case Some(e) => (SetupThrew(e), m)
       case None => shell(n, m))
    case RunServer => (SetupThrew(NotImplemented), m)
    case _ => shell(n, m)
  }

  /** The step as the orchestrator meets it on machine `m`. */
  function StepRunOf(n: StepName, o: Options, m: Machine, shell: ShellEffect): (s: StepRun)
    ensures s.name == DisplayName(n)
  {
    var (result, after) := StepSetup(n, o, m, shell);
    StepRun(DisplayName(n), DisplayDoing(n), StepInit(n, o, m), StepHook(n, o, m),
            StepProbe(n, o, m), result, StepProbe(n, o, after), Troubleshooting(n))
  }

  /** The record of a step carries the catalog's announcement and remedy
      texts, its constructor, hook and probe on the machine it meets, and
      its `setup` and re-check on that machine; so what `run_steps` prints
      before `setup` is the step's `display_doing`. */
  lemma StepRunOfParts(n: StepName, o: Options, m: Machine, shell: ShellEffect)
    ensures StepRunOf(n, o, m, shell).doing == DisplayDoing(n)
    ensures StepRunOf(n, o, m, shell).troubleshooting == Troubleshooting(n)
    ensures StepRunOf(n, o, m, shell).init == StepInit(n, o, m)
    ensures StepRunOf(n, o, m, shell).hook == StepHook(n, o, m)
    ensures StepRunOf(n, o, m, shell).pre == StepProbe(n, o, m)
    ensures StepRunOf(n, o, m, shell).setup == StepSetup(n, o, m, shell).0
    ensures StepRunOf(n, o, m, shell).post == StepProbe(n, o, StepSetup(n, o, m, shell).1)
    ensures SetupInvoked(StepRunOf(n, o, m, shell), o.skip, o.force) ==>
      RunOne(StepRunOf(n, o, m, shell), o.skip, o.force).output[0] == DisplayDoing(n) + "..."
  {
  }

  /** The machine the next step sees: changed only if `setup` ran. */
  function NextMachine(n: StepName, o: Options, m: Machine, shell: ShellEffect): Machine {
    if SetupInvoked(StepRunOf(n, o, m, shell), o.skip, o.force) then StepSetup(n, o, m, shell).1 else m
  }

  /** The machine each step of a list meets when each step turns the
      machine it sees into the one the next step sees. */
  function Trajectory(names: seq<StepName>, m: Machine, next: (StepName, Machine) -> Machine): (ms: seq<Machine>)
    ensures |ms| == |names|
    ensures |names| > 0 ==> ms[0] == m
    ensures forall i :: 0 <= i < |names| - 1 ==> ms[i + 1] == next(names[i], ms[i])
    decreases |names|
  {
    if |names| == 0 then []
    else
      var rest := Trajectory(names[1..], next(names[0], m), next);
      assert forall i :: 0 < i < |names| - 1 ==> names[i] == names[1..][i - 1];
      [m] + rest
  }

  /** Steps that all leave `m` alone all see `m`. */
  lemma {:induction false} TrajectoryFixed(names: seq<StepName>, m: Machine, next: (StepName, Machine) -> Machine)
    requires forall n :: n in names ==> next(n, m) == m
    ensures forall i :: 0 <= i < |names| ==> Trajectory(names, m, next)[i] == m
    decreases |names|
  {
    if |names| > 0 {
      var tail := names[1..];
      assert names[0] in names;
      assert forall n :: n in tail ==> n in names;
      TrajectoryFixed(tail, m, next);
      var rest := Trajectory(tail, m, next);
      var ms := Trajectory(names, m, next);
      assert ms == [m] + rest;
      forall i | 0 <= i < |names| ensures ms[i] == m {
        if i > 0 {
          assert ms[i] == rest[i - 1];
        }
      }
    }
  }

  /** The machine each step of a catalog meets: the first sees `m`, every
      later one what its predecessor left. */
  function MachinesSeen(names: seq<StepName>, o: Options, m: Machine, shell: ShellEffect): (ms: seq<Machine>)
    ensures |ms| == |names|
    ensures |names| > 0 ==> ms[0] == m
    ensures forall i :: 0 <= i < |names| - 1 ==> ms[i + 1] == NextMachine(names[i], o, ms[i], shell)
  {
    Trajectory(names, m, (n, m') => NextMachine(n, o, m', shell))
  }

  /** The steps of a catalog as the orchestrator meets them. */
  function Plan(names: seq<StepName>, o: Options, m: Machine, shell: ShellEffect): (r: seq<StepRun>)
    ensures |r| == |names|
    ensures StepNames(r) == Names(names)
  {
    var ms := MachinesSeen(names, o, m, shell);
    seq(|names|, i requires 0 <= i < |names| => StepRunOf(names[i], o, ms[i], shell))
  }

  /** Each step of a plan is built on the machine its predecessor left: the
      first on `m`, and step `i + 1` on what step `i`'s `setup` produced, or
      on the same machine when that `setup` was not invoked. */
  lemma PlanThreadsMachines(names: seq<StepName>, o: Options, m: Machine, shell: ShellEffect)
    ensures |names| > 0 ==> Plan(names, o, m, shell)[0] == StepRunOf(names[0], o, m, shell)
    ensures forall i :: 0 <= i < |names| - 1 ==>
      Plan(names, o, m, shell)[i + 1] ==
        StepRunOf(names[i + 1], o, NextMachine(names[i], o, MachinesSeen(names, o, m, shell)[i], shell), shell)
    ensures forall i :: 0 <= i < |names| - 1 ==>
      MachinesSeen(names, o, m, shell)[i + 1] ==
        if SetupInvoked(Plan(names, o, m, shell)[i], o.skip, o.force)
        then StepSetup(names[i], o, MachinesSeen(names, o, m, shell)[i], shell).1
        else MachinesSeen(names, o, m, shell)[i]
  {
    var ms := MachinesSeen(names, o, m, shell);
    var plan := Plan(names, o, m, shell);
    forall i | 0 <= i < |names| - 1
      ensures plan[i + 1] == StepRunOf(names[i + 1], o, NextMachine(names[i], o, ms[i], shell), shell)
      ensures ms[i + 1] == if SetupInvoked(plan[i], o.skip, o.force) then StepSetup(names[i], o, ms[i], shell).1 else ms[i]
    {
      assert ms[i + 1] == NextMachine(names[i], o, ms[i], shell);
    }
  }

  /** The clone makes the virtualenv step buildable: when GitClone's `setup`
      runs and leaves the project directory behind, the VirtualEnv step after
      it changes into that directory without error; when it does not run,
      VirtualEnv meets the machine GitClone saw. */
  lemma CloneThenVirtualEnv(names: seq<StepName>, o: Options, m: Machine, shell: ShellEffect, i: nat)
    requires i + 1 < |names| && names[i] == GitClone && names[i + 1] == VirtualEnv
    ensures (SetupInvoked(Plan(names, o, m, shell)[i], o.skip, o.force) &&
             o.projectDir in shell(GitClone, MachinesSeen(names, o, m, shell)[i]).1.dirs) ==>
      Plan(names, o, m, shell)[i + 1].init.None?
    ensures !SetupInvoked(Plan(names, o, m, shell)[i], o.skip, o.force) ==>
      Plan(names, o, m, shell)[i + 1].init == StepInit(VirtualEnv, o, MachinesSeen(names, o, m, shell)[i])
  {
    PlanThreadsMachines(names, o, m, shell);
  }

  /** The hosts entry reaches the next step: once UpdateHostsFile's `setup`
      runs on a machine with a hosts file, the step after it sees that file
      with the entry prepended. */
  lemma HostsEditSeenNext(names: seq<StepName>, o: Options, m: Machine, shell: ShellEffect, i: nat)
    requires i + 1 < |names| && names[i] == UpdateHostsFile
    ensures (SetupInvoked(Plan(names, o, m, shell)[i], o.skip, o.force) &&
             HostsPath in MachinesSeen(names, o, m, shell)[i].files) ==>
      && HostsPath in MachinesSeen(names, o, m, shell)[i + 1].files
      && MachinesSeen(names, o, m, shell)[i + 1].files[HostsPath] ==
           HostsLine + "\n" + MachinesSeen(names, o, m, shell)[i].files[HostsPath]
      && Plan(names, o, m, shell)[i].post == Holds(true)
  {
    var ms := MachinesSeen(names, o, m, shell);
    if SetupInvoked(Plan(names, o, m, shell)[i], o.skip, o.force) && HostsPath in ms[i].files {
      PlanThreadsMachines(names, o, m, shell);
      PrependStepProbes(UpdateHostsFile, o, ms[i], shell);
    }
  }

  /** `run_steps`: detect the OS, record it in the options, and walk its
      catalog. An unsupported platform raises before any step exists. */
  function RunSteps(platform: string, o: Options, m: Machine, shell: ShellEffect): (r: RunTrace)
    ensures GetOs(platform).Err? ==> r.events == [] && r.output == [] && r.ending == Raised(UnsupportedOS(platform))
    ensures GetOs(platform).Ok? ==> HookedSteps(r.events) <= Names(GetSteps(GetOs(platform).value))
    ensures r.ending == Finished ==> HookedSteps(r.events) == Names(GetSteps(GetOs(platform).value))
  {
    match GetOs(platform)
    case Err(e) => RunTrace([], [], Raised(e))
    case Ok(os) =>
      var steps := Plan(GetSteps(os), o.(os := os), m, shell);
      HooksFollowCatalog(steps, o.skip, o.force);
      Run(steps, o.skip, o.force)
  }

  /** Every step in `names` is skipped, or satisfied and unforced, on `m`. */
  predicate AllPassedOver(names: seq<StepName>, o: Options, m: Machine) {
    forall n :: n in names ==>
      && StepInit(n, o, m).None? && StepHook(n, o, m).None?
      && (Contains(o.skip, DisplayName(n)) || (StepProbe(n, o, m) == Holds(true) && !Contains(o.force, DisplayName(n))))
  }

  /** No setup runs while every step is passed over, so every step sees `m`. */
  lemma MachinesUnchanged(names: seq<StepName>, o: Options, m: Machine, shell: ShellEffect)
    requires AllPassedOver(names, o, m)
    ensures forall i :: 0 <= i < |names| ==> MachinesSeen(names, o, m, shell)[i] == m
  {
    var next := (n, m') => NextMachine(n, o, m', shell);
    forall n | n in names ensures next(n, m) == m {
      PassedOverStep(n, o, m, shell);
    }
    TrajectoryFixed(names, m, next);
  }

  lemma PlanPassedOver(names: seq<StepName>, o: Options, m: Machine, shell: ShellEffect)
    requires AllPassedOver(names, o, m)
    ensures forall i :: 0 <= i < |names| ==> PassedOver(Plan(names, o, m, shell)[i], o.skip, o.force)
  {
    MachinesUnchanged(names, o, m, shell);
    forall i | 0 <= i < |names| ensures PassedOver(Plan(names, o, m, shell)[i], o.skip, o.force) {
      assert names[i] in names;
      PassedOverStep(names[i], o, m, shell);
    }
  }

  lemma PassedOverStep(n: StepName, o: Options, m: Machine, shell: ShellEffect)
    requires StepInit(n, o, m).None? && StepHook(n, o, m).None?
    requires Contains(o.skip, DisplayName(n)) || (StepProbe(n, o, m) == Holds(true) && !Contains(o.force, DisplayName(n)))
    ensures PassedOver(StepRunOf(n, o, m, shell), o.skip, o.force)
    ensures NextMachine(n, o, m, shell) == m
  {
  }

  /** Idempotence of a second run: on a machine where every catalog step is
      already satisfied (or skipped) and none is forced, the run invokes no
      `setup`, prints nothing, runs every hook in catalog order and exits 0. */
  lemma SatisfiedMachineRunsNoSetup(platform: string, o: Options, m: Machine, shell: ShellEffect)
    requires GetOs(platform).Ok?
    requires AllPassedOver(GetSteps(GetOs(platform).value), o.(os := GetOs(platform).value), m)
    ensures RunSteps(platform, o, m, shell) ==
      RunTrace(Hooks(Names(GetSteps(GetOs(platform).value))), [], Finished)
  {
    var os := GetOs(platform).value;
    var o' := o.(os := os);
    var steps := Plan(GetSteps(os), o', m, shell);
    PlanPassedOver(GetSteps(os), o', m, shell);
    ShortCircuit(steps, o.skip, o.force);
  }

  /** Prepend then probe: when the hosts, environment-variable or alias
      setup returns normally, the re-check finds its term, so an unforced
      step of these kinds is resolved and the run moves on. */
  lemma PrependStepsResolve(n: StepName, o: Options, m: Machine, shell: ShellEffect)
    requires n == UpdateHostsFile || n == ProductionEnvironmentVariable || n == RunServerAlias
    requires StepSetup(n, o, m, shell).0 == SetupOk
    ensures StepRunOf(n, o, m, shell).post == Holds(true)
    ensures SetupInvoked(StepRunOf(n, o, m, shell), o.skip, o.force) && !Contains(o.force, DisplayName(n)) ==>
      Proceeds(StepRunOf(n, o, m, shell), o.skip, o.force)
  {
    var s := StepRunOf(n, o, m, shell);
    PrependStepProbes(n, o, m, shell);
    assert s.setup == SetupOk && s.post == Holds(true);
    if SetupInvoked(s, o.skip, o.force) && !Contains(o.force, DisplayName(n)) {
      RecheckDecides(s, o.skip, o.force);
    }
  }

  lemma PrependStepProbes(n: StepName, o: Options, m: Machine, shell: ShellEffect)
    requires n == UpdateHostsFile || n == ProductionEnvironmentVariable || n == RunServerAlias
    requires StepSetup(n, o, m, shell).0 == SetupOk
    ensures StepProbe(n, o, StepSetup(n, o, m, shell).1) == Holds(true)
  {
    LinesHoldTheirTerms(o.projectDir);
    match n {
      case UpdateHostsFile =>
        PrependThenGrep(m.files, HostsPath, HostsLine, HostNames);
      case ProductionEnvironmentVariable =>
        PrependThenGrep(m.files, Profile(o).value, EnvLine, EnvVariable);
      case RunServerAlias =>
        PrependThenGrep(m.files, Profile(o).value, AliasLine(o.projectDir), AliasTerm);
    }
  }

  /** The file-editing setups fail exactly when their file cannot be opened
      (or, for the profile, when the OS tag has no profile), and the failure
      is never `CommandFailed`, so it escapes the run. */
  lemma PrependStepsFailure(n: StepName, o: Options, m: Machine, shell: ShellEffect)
    requires n == ProductionEnvironmentVariable || n == RunServerAlias
    ensures StepSetup(n, o, m, shell).0 == SetupOk <==>
      (o.os == Linux || o.os == Osx) && Profile(o).value in m.files
    ensures StepSetup(n, o, m, shell).0.SetupThrew? ==> SetupEscapes(StepRunOf(n, o, m, shell))
  {
    var line := if n == ProductionEnvironmentVariable then EnvLine else AliasLine(o.projectDir);
    var r := StepSetup(n, o, m, shell);
    assert r == PrependSetup(m, Profile(o), line);
    assert StepRunOf(n, o, m, shell).setup == r.0;
  }

  /** Because skip matching is by substring, `--skip=RunServerAlias` also
      keeps RunServer's `setup` from ever being invoked. */
  lemma SkippingAliasSkipsServer(platform: string, o: Options, m: Machine, shell: ShellEffect)
    requires Contains(o.skip, DisplayName(RunServerAlias))
    ensures Setup(DisplayName(RunServer)) !in RunSteps(platform, o, m, shell).events
  {
    NameOverlaps(o.skip);
    if GetOs(platform).Ok? {
      var os := GetOs(platform).value;
      SkipPrecedence(Plan(GetSteps(os), o.(os := os), m, shell), o.skip, o.force);
    }
  }

  /** With the command-line defaults (empty skip and force strings) a step's
      `setup` runs exactly when its probe answers false. */
  lemma DefaultsFollowTheProbe(n: StepName, o: Options, m: Machine, shell: ShellEffect)
    requires o.skip == "" && o.force == ""
    ensures SetupInvoked(StepRunOf(n, o, m, shell), o.skip, o.force) <==>
      StepInit(n, o, m).None? && StepHook(n, o, m).None? && StepProbe(n, o, m) == Holds(false)
  {
    NothingInEmpty(DisplayName(n));
  }
}

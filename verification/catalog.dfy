/** The step catalog: every step class of the script, the name the
    orchestrator matches against `--skip` and `--force` (the class name), the
    line it prints before `setup`, its troubleshooting text, and the ordered
    list of steps for an OS tag. */
module Catalog {
  import opened Outcomes
  import opened Text
  import Platform

  datatype StepName =
    | XCodeInstall
    | HomebrewInstall
    | BrewDependenciesInstall
    | VirtualEnvInstall
    | AptDependenciesInstall
    | UpdateHostsFile
    | GitClone
    | VirtualEnv
    | ProductionEnvironmentVariable
    | SetupDatabase
    | RunServerAlias
    | RunServer

  const ProjectName := "advocoders"
  const HostNames := "advocoders.localhost.com"

  const BrewDependencies: seq<string> :=
    ["libxml2", "libxslt", "libmagic", "postgresql", "libevent"]

  const AptDependencies: seq<string> :=
    ["libxml2-dev", "libxslt1-dev", "libmagic1", "python-virtualenv",
     "postgresql", "libpq-dev", "libevent-dev"]

  /** `display_name`: the step's class name. */
  function DisplayName(n: StepName): string {
    match n
    case XCodeInstall => "XCodeInstall"
    case HomebrewInstall => "HomebrewInstall"
    case BrewDependenciesInstall => "BrewDependenciesInstall"
    case VirtualEnvInstall => "VirtualEnvInstall"
    case AptDependenciesInstall => "AptDependenciesInstall"
    case UpdateHostsFile => "UpdateHostsFile"
    case GitClone => "GitClone"
    case VirtualEnv => "VirtualEnv"
    case ProductionEnvironmentVariable => "ProductionEnvironmentVariable"
    case SetupDatabase => "SetupDatabase"
    case RunServerAlias => "RunServerAlias"
    case RunServer => "RunServer"
  }

  /** The step class a display name denotes, if any. */
  function NameOf(s: string): Option<StepName> {
    if s == "XCodeInstall" then Some(XCodeInstall)
    else if s == "HomebrewInstall" then Some(HomebrewInstall)
    else if s == "BrewDependenciesInstall" then Some(BrewDependenciesInstall)
    else if s == "VirtualEnvInstall" then Some(VirtualEnvInstall)
    else if s == "AptDependenciesInstall" then Some(AptDependenciesInstall)
    else if s == "UpdateHostsFile" then Some(UpdateHostsFile)
    else if s == "GitClone" then Some(GitClone)
    else if s == "VirtualEnv" then Some(VirtualEnv)
    else if s == "ProductionEnvironmentVariable" then Some(ProductionEnvironmentVariable)
    else if s == "SetupDatabase" then Some(SetupDatabase)
    else if s == "RunServerAlias" then Some(RunServerAlias)
    else if s == "RunServer" then Some(RunServer)
    else None
  }

  /** Display names identify their step: reading a name back gives the step. */
  lemma NameRoundTrip(n: StepName)
    ensures NameOf(DisplayName(n)) == Some(n)
  {
  }

  lemma DisplayNameInjective(a: StepName, b: StepName)
    ensures DisplayName(a) == DisplayName(b) ==> a == b
  {
    NameRoundTrip(a);
    NameRoundTrip(b);
  }

  /** The variable ProductionEnvironmentVariable sets, and its value. */
  const EnvVariable := "PRODUCTION"
  const EnvValue := "False"

  /** `SetEnvironmentVariable.display_doing` for a variable. */
  function SettingVariable(variable: string): string {
    "Setting the " + variable + " environment variable"
  }

  /** The class docstring of each step, as written between its quotes;
      the environment variable step has none of its own. */
  function Docstring(n: StepName): string {
    match n
    case XCodeInstall => " Downloading and installing XCode command line tools "
    case HomebrewInstall => " Installing homebrew "
    case BrewDependenciesInstall => " Installing dependendies "
    case VirtualEnvInstall => " Installing pip and virtualenv "
    case AptDependenciesInstall => " Installing apt dependencies "
    case UpdateHostsFile => " Updating hosts file "
    case GitClone => " Cloning the project repo "
    case VirtualEnv => " Setting up a virtualenv and installing python dependencies "
    case ProductionEnvironmentVariable => ""
    case SetupDatabase => " Creating a local sqlite database "
    case RunServerAlias => " Creating the bash alias "
    case RunServer => " Running local development web server "
  }

  /** `display_doing`: the stripped class docstring, or for the environment
      variable step the sentence naming its variable. */
  function DisplayDoing(n: StepName): (r: string)
    ensures IsStripped(r)
    ensures n == ProductionEnvironmentVariable ==> r == SettingVariable(EnvVariable) && Contains(r, EnvVariable)
    ensures n != ProductionEnvironmentVariable ==> exists a :: TrimmedAt(Docstring(n), r, a)
  {
    if n == ProductionEnvironmentVariable then
      var r := SettingVariable(EnvVariable);
      assert OccursAt(r, EnvVariable, 12);
      ContainsAt(r, EnvVariable, 12);
      r
    else Strip(Docstring(n))
  }

  /** A remedy text: its body between a leading and a trailing newline. */
  function Paragraph(body: string): (r: string)
    ensures |r| == |body| + 2 && r[0] == '\n' && r[|r| - 1] == '\n'
  {
    "\n" + body + "\n"
  }

  const XCodeRemedy :=
    "You can manually install the XCode Command Line Tools\n"
    + "by signing up for a free Apple ID and logging into\n"
    + "https://developer.apple.com/xcode/\n\n"
    + "Note: you don't need the full 2GB installer for Xcode;\n"
    + "the command line tools package is \"only\" 200MB."
  const HomebrewRemedy :=
    "You can install homebrew manually by running this:\n\n"
    + "ruby -e \"$(curl -fsSL https://raw.github.com/mxcl/homebrew/go)\""
  const BrewRemedy :=
    "You can install the dependencies manually by running this:\n\n"
    + "brew install " + JoinWith(BrewDependencies, " ")
  const AptRemedy :=
    "You can install the dependencies manually by running this:\n\n"
    + "sudo apt-get install --yes " + JoinWith(AptDependencies, " ")
  const HostsRemedy :=
    "You can update your hosts file manually with:\n\n"
    + "sudo sh -c 'echo \"127.0.0.1 " + HostNames + "\" >> /etc/hosts'"

  /** `display_troubleshooting`: the remedy printed when a step stays
      unsatisfied; the base class returns None. */
  function Troubleshooting(n: StepName): Option<string> {
    match n
    case XCodeInstall => Some(Paragraph(XCodeRemedy))
    case HomebrewInstall => Some(Paragraph(HomebrewRemedy))
    case BrewDependenciesInstall => Some(Paragraph(BrewRemedy))
    case AptDependenciesInstall => Some(Paragraph(AptRemedy))
    case UpdateHostsFile => Some(Paragraph(HostsRemedy))
    case _ => None
  }

  /** Exactly the XCode, homebrew, brew, apt and hosts-file steps carry a
      remedy, and every remedy is non-empty, so it is printed when present. */
  lemma TroubleshootingPresence(n: StepName)
    ensures Troubleshooting(n).Some? <==>
      n in {XCodeInstall, HomebrewInstall, BrewDependenciesInstall,
            AptDependenciesInstall, UpdateHostsFile}
    ensures Troubleshooting(n).Some? ==> Troubleshooting(n).value != ""
  {
  }

  /** The steps every platform runs, in order, after its bootstrap steps. */
  const CommonSteps: seq<StepName> :=
    [UpdateHostsFile, GitClone, VirtualEnv, ProductionEnvironmentVariable,
     SetupDatabase, RunServerAlias, RunServer]

  /** `get_steps`: the ordered catalog for an OS tag. The version is not an
      input: no step choice depends on it. */
  function GetSteps(os: string): (r: seq<StepName>)
    ensures |r| == if os == Platform.Osx then 11 else if os == Platform.Linux then 8 else 7
    ensures r[|r| - |CommonSteps|..] == CommonSteps
    ensures os == Platform.Osx ==>
      r[..4] == [XCodeInstall, HomebrewInstall, BrewDependenciesInstall, VirtualEnvInstall]
    ensures os == Platform.Linux ==> r[..1] == [AptDependenciesInstall]
  {
    (if os == Platform.Osx
     then [XCodeInstall, HomebrewInstall, BrewDependenciesInstall, VirtualEnvInstall]
     else [])
    + (if os == Platform.Linux then [AptDependenciesInstall] else [])
    + CommonSteps
  }

  predicate Distinct(steps: seq<StepName>) {
    forall i, j :: 0 <= i < j < |steps| ==> steps[i] != steps[j]
  }

  lemma DistinctConcat(a: seq<StepName>, b: seq<StepName>)
    requires Distinct(a) && Distinct(b)
    requires forall x :: x in a ==> x !in b
    ensures Distinct(a + b)
  {
    var c := a + b;
    forall i, j | 0 <= i < j < |c| ensures c[i] != c[j] {
      if j < |a| {
        assert c[i] == a[i] && c[j] == a[j];
      } else if i >= |a| {
        assert c[i] == b[i - |a|] && c[j] == b[j - |a|];
      } else {
        assert c[i] == a[i] && a[i] in a && c[j] == b[j - |a|] && b[j - |a|] in b;
      }
    }
  }

  lemma CommonDistinct()
    ensures Distinct(CommonSteps)
  {
  }

  /** No catalog lists a step twice. */
  lemma CatalogDistinct(os: string)
    ensures Distinct(GetSteps(os))
  {
    var r := GetSteps(os);
    var mac := [XCodeInstall, HomebrewInstall, BrewDependenciesInstall, VirtualEnvInstall];
    CommonDistinct();
    if os == Platform.Osx {
      assert r == mac + CommonSteps;
      DistinctConcat(mac, CommonSteps);
    } else if os == Platform.Linux {
      assert r == [AptDependenciesInstall] + CommonSteps;
      DistinctConcat([AptDependenciesInstall], CommonSteps);
    } else {
      assert r == CommonSteps;
    }
  }

  function Names(steps: seq<StepName>): (r: seq<string>)
    ensures |r| == |steps|
    ensures forall i :: 0 <= i < |steps| ==> r[i] == DisplayName(steps[i])
  {
    seq(|steps|, i requires 0 <= i < |steps| => DisplayName(steps[i]))
  }

  /** Because `--skip` and `--force` are matched by substring, naming one step
      can also name another: `VirtualEnvInstall` names `VirtualEnv`, and
      `RunServerAlias` names `RunServer`. */
  lemma NameOverlaps(option: string)
    ensures Contains(option, DisplayName(VirtualEnvInstall)) ==> Contains(option, DisplayName(VirtualEnv))
    ensures Contains(option, DisplayName(RunServerAlias)) ==> Contains(option, DisplayName(RunServer))
  {
    assert DisplayName(VirtualEnv) <= DisplayName(VirtualEnvInstall);
    assert DisplayName(RunServer) <= DisplayName(RunServerAlias);
    if Contains(option, DisplayName(VirtualEnvInstall)) {
      ContainsTransitive(option, DisplayName(VirtualEnvInstall), DisplayName(VirtualEnv));
    }
    if Contains(option, DisplayName(RunServerAlias)) {
      ContainsTransitive(option, DisplayName(RunServerAlias), DisplayName(RunServer));
    }
  }
}

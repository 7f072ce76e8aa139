/** The text and set logic inside the steps' `already_satisfied` probes and
    `setup` actions, with every shell command's output taken as an input. */
module Probes {
  import opened Outcomes
  import opened Text
  import opened Catalog

  // ---------------------------------------------------------- pip names

  /** One requirement or freeze line reduced to a package name: the part
      before the first `==`, stripped and lower-cased. */
  function ExtractPip(line: string): (r: string)
    ensures !Contains(r, "==")
    ensures IsStripped(r)
    ensures IsLower(r)
  {
    var head := Split(line, "==")[0];
    SplitHeadFree(line, "==");
    var name := Strip(head);
    StripKeepsAbsence(head, "==");
    LowerKeepsNoEquals(name);
    LowerKeepsStripped(name);
    LowerIsLower(name);
    Lower(name)
  }

  lemma StripKeepsAbsence(s: string, t: string)
    requires !Contains(s, t)
    ensures !Contains(Strip(s), t)
  {
    var a :| TrimmedAt(s, Strip(s), a);
    NotContainsSlice(s, t, a, a + |Strip(s)|);
  }

  /** `VirtualEnv.extract_pips`: the name of every line, in order. */
  function ExtractPips(lines: seq<string>): (r: seq<string>)
    ensures |r| == |lines|
    ensures forall i :: 0 <= i < |r| ==> r[i] == ExtractPip(lines[i])
    ensures forall i :: 0 <= i < |r| ==> !Contains(r[i], "==") && IsStripped(r[i]) && IsLower(r[i])
  {
    seq(|lines|, i requires 0 <= i < |lines| => ExtractPip(lines[i]))
  }

  /** A name that is already extracted is its own name. */
  lemma ExtractPipFixed(name: string)
    requires !Contains(name, "==") && IsStripped(name) && IsLower(name)
    ensures ExtractPip(name) == name
  {
    SplitWithoutSeparator(name, "==");
    StripStripped(name);
    LowerOfLower(name);
  }

  /** A line without a version pin names its lower-cased, stripped self. */
  lemma ExtractPipUnpinned(line: string)
    requires !Contains(line, "==")
    ensures ExtractPip(line) == Lower(Strip(line))
  {
    SplitWithoutSeparator(line, "==");
  }

  /** A pinned line `name==version`, as `pip freeze` prints it, names its
      lower-cased, stripped package name, provided the name holds no `=`. */
  lemma ExtractPipPinned(name: string, version: string)
    requires forall k :: 0 <= k < |name| ==> name[k] != '='
    ensures ExtractPip(name + "==" + version) == Lower(Strip(name))
  {
    var s := name + "==" + version;
    assert s[|name|..|name| + 2] == "==";
    forall j | 0 <= j < |name| ensures !OccursAt(s, "==", j) {
      assert s[j] == name[j];
    }
    SplitAt(s, "==", |name|);
    assert s[..|name|] == name;
  }

  /** Extracting names twice is extracting them once. */
  lemma ExtractPipsIdempotent(lines: seq<string>)
    ensures ExtractPips(ExtractPips(lines)) == ExtractPips(lines)
  {
    var once := ExtractPips(lines);
    forall i | 0 <= i < |once| ensures ExtractPip(once[i]) == once[i] {
      ExtractPipFixed(once[i]);
    }
  }

  // ---------------------------------------------------------- subset probes

  /** `[i.strip() for i in lines if i]`: empty lines are dropped before
      stripping, so a whitespace-only line yields the empty name. */
  function InstalledNames(lines: seq<string>): (r: seq<string>)
    ensures forall x :: x in r <==> exists l :: l in lines && l != "" && Strip(l) == x
    decreases |lines|
  {
    if |lines| == 0 then []
    else
      var rest := InstalledNames(lines[1..]);
      assert forall l :: l in lines <==> l == lines[0] || l in lines[1..];
      if lines[0] != "" then [Strip(lines[0])] + rest else rest
  }

  /** `list(set(required) - set(present))`, as a set. */
  function Missing(required: seq<string>, present: seq<string>): set<string> {
    (set x | x in required) - (set y | y in present)
  }

  lemma MissingEmpty(required: seq<string>, present: seq<string>)
    ensures Missing(required, present) == {} <==> forall x :: x in required ==> x in present
  {
    if Missing(required, present) == {} {
      forall x | x in required ensures x in present {
        assert x !in Missing(required, present);
      }
    }
  }

  /** The brew probe's verdict on the output of `brew list -1`: no required
      formula is missing from the installed names. */
  function BrewSatisfied(listing: string): (r: bool)
    ensures r <==> forall d :: d in BrewDependencies ==>
      exists l :: l in Split(listing, "\n") && l != "" && Strip(l) == d
  {
    var installed := InstalledNames(Split(listing, "\n"));
    MissingEmpty(BrewDependencies, installed);
    Missing(BrewDependencies, installed) == {}
  }

  /** `BrewDependenciesInstall.already_satisfied`: a failing `brew list`
      escapes the probe. */
  function BrewProbe(listing: Output): (r: Probe)
    ensures r.ProbeRaised? <==> listing.Err?
    ensures listing.Err? ==> r == ProbeRaised(listing.error)
    ensures r == Holds(true) <==>
      && listing.Ok?
      && forall d :: d in BrewDependencies ==>
           exists l :: l in Split(listing.value, "\n") && l != "" && Strip(l) == d
  {
    match listing
    case Ok(out) => Holds(BrewSatisfied(out))
    case Err(e) => ProbeRaised(e)
  }

  /** Every requirement line names a package some freeze line names. */
  ghost predicate RequirementsMet(frozen: string, wanted: string) {
    forall q :: q in ReadLines(wanted) ==>
      exists f :: f in Split(frozen, "\n") && ExtractPip(f) == ExtractPip(q)
  }

  /** The comparison at the end of the virtualenv probe: no required name is
      missing from the frozen names. */
  function PipsSatisfied(frozen: string, wanted: string): (r: bool)
    ensures r <==> RequirementsMet(frozen, wanted)
  {
    var installed := ExtractPips(Split(frozen, "\n"));
    var required := ExtractPips(ReadLines(wanted));
    RequiredCovered(ReadLines(wanted), Split(frozen, "\n"));
    Missing(required, installed) == {}
  }

  /** `VirtualEnv.already_satisfied`: false without the activation script;
      otherwise every required name must be among the frozen names. The
      freeze command runs before the requirements file is opened. */
  function VirtualEnvProbe(activateExists: bool, freeze: Output, requirements: Output): (r: Probe)
    ensures r.ProbeRaised? <==> activateExists && (freeze.Err? || requirements.Err?)
    ensures activateExists && freeze.Err? ==> r == ProbeRaised(freeze.error)
    ensures activateExists && freeze.Ok? && requirements.Err? ==> r == ProbeRaised(requirements.error)
    ensures r == Holds(true) <==>
      activateExists && freeze.Ok? && requirements.Ok? && RequirementsMet(freeze.value, requirements.value)
  {
    if !activateExists then Holds(false)
    else match freeze
      case Err(e) => ProbeRaised(e)
      case Ok(frozen) =>
        match requirements
        case Err(e) => ProbeRaised(e)
        case Ok(wanted) => Holds(PipsSatisfied(frozen, wanted))
  }

  /** Every required line's name is the name of some present line exactly
      when no extracted name is missing. */
  lemma RequiredCovered(required: seq<string>, present: seq<string>)
    ensures Missing(ExtractPips(required), ExtractPips(present)) == {} <==>
      forall q :: q in required ==> exists f :: f in present && ExtractPip(f) == ExtractPip(q)
  {
    var want := ExtractPips(required);
    var have := ExtractPips(present);
    MissingEmpty(want, have);
    if forall x :: x in want ==> x in have {
      forall q | q in required
        ensures exists f :: f in present && ExtractPip(f) == ExtractPip(q)
      {
        CoveredLine(required, present, q);
      }
    } else {
      var x :| x in want && x !in have;
      var i :| 0 <= i < |want| && want[i] == x;
      UncoveredLine(required, present, i);
    }
  }

  lemma CoveredLine(required: seq<string>, present: seq<string>, q: string)
    requires q in required
    requires forall x :: x in ExtractPips(required) ==> x in ExtractPips(present)
    ensures exists f :: f in present && ExtractPip(f) == ExtractPip(q)
  {
    var want := ExtractPips(required);
    var have := ExtractPips(present);
    var i :| 0 <= i < |required| && required[i] == q;
    assert want[i] in want;
    var j :| 0 <= j < |have| && have[j] == want[i];
    assert present[j] in present;
  }

  lemma UncoveredLine(required: seq<string>, present: seq<string>, i: int)
    requires 0 <= i < |required|
    requires ExtractPip(required[i]) !in ExtractPips(present)
    ensures !forall q :: q in required ==> exists f :: f in present && ExtractPip(f) == ExtractPip(q)
  {
    var q := required[i];
    var have := ExtractPips(present);
    assert q in required;
    forall f | f in present ensures ExtractPip(f) != ExtractPip(q) {
      var j :| 0 <= j < |present| && present[j] == f;
      assert have[j] == ExtractPip(f);
    }
  }

  const AptDone := "0 upgraded, 0 newly installed"

  /** `AptDependenciesInstall.already_satisfied`: the dry run reports nothing
      to do; a failing dry run escapes the probe. */
  function AptProbe(dryRun: Output): (r: Probe)
    ensures r.ProbeRaised? <==> dryRun.Err?
    ensures dryRun.Err? ==> r == ProbeRaised(dryRun.error)
    ensures r == Holds(true) <==> dryRun.Ok? && exists i :: OccursAt(dryRun.value, AptDone, i)
  {
    match dryRun
    case Ok(out) =>
      ContainsIffOccurs(out, AptDone);
      Holds(Contains(out, AptDone))
    case Err(e) => ProbeRaised(e)
  }

  /** The `--version` probes of XCode, homebrew and virtualenv: any error
      counts as not installed, and so does empty output. */
  function VersionProbe(version: Output): (r: Probe)
    ensures r.Holds?
    ensures r.ok <==> version.Ok? && version.value != ""
  {
    Holds(version.Ok? && |version.value| > 0)
  }

  // ---------------------------------------------------------- file edits

  /** `grep term` over `cat path`: a missing file makes `cat` fail, which the
      probe reads as false; a path that could not be computed escapes. */
  function GrepProbe(files: map<string, string>, path: Result<string>, term: string): (r: Probe)
    ensures r.ProbeRaised? <==> path.Err?
    ensures path.Err? ==> r == ProbeRaised(path.error)
    ensures r == Holds(true) <==>
      path.Ok? && path.value in files && exists i :: OccursAt(files[path.value], term, i)
  {
    match path
    case Err(e) => ProbeRaised(e)
    case Ok(p) =>
      if p in files then
        ContainsIffOccurs(files[p], term);
        Holds(Contains(files[p], term))
      else Holds(false)
  }

  /** `prepend_file`: the file becomes `content`, a newline, then its old
      contents; a missing file cannot be opened. */
  function PrependFile(files: map<string, string>, path: string, content: string): (r: Result<map<string, string>>)
    ensures r.Ok? <==> path in files
    ensures r.Err? ==> r.error == IoError(path)
    ensures r.Ok? ==> r.value.Keys == files.Keys
    ensures r.Ok? ==> forall p :: p in files && p != path ==> r.value[p] == files[p]
    ensures r.Ok? ==>
      var now := r.value[path];
      && |now| == |content| + 1 + |files[path]|
      && now[..|content|] == content
      && now[|content|] == '\n'
      && now[|content| + 1..] == files[path]
  {
    if path in files then Ok(files[path := content + "\n" + files[path]])
    else Err(IoError(path))
  }

  /** After a successful prepend, a grep for a term of the prepended line
      finds it, and a term the file already held is still found. */
  lemma PrependThenGrep(files: map<string, string>, path: string, content: string, term: string)
    requires path in files
    requires Contains(content, term) || Contains(files[path], term)
    ensures GrepProbe(PrependFile(files, path, content).value, Ok(path), term) == Holds(true)
  {
    var now := PrependFile(files, path, content).value[path];
    assert now == content + ("\n" + files[path]);
    if Contains(content, term) {
      ContainsConcat(content, "\n" + files[path], term);
    } else {
      ContainsConcat("\n", files[path], term);
      ContainsConcat(content, "\n" + files[path], term);
    }
  }

  const HostsPath := "/etc/hosts"
  const HostsLine := "127.0.0.1 " + HostNames

  const EnvLine := "export " + EnvVariable + "=" + EnvValue

  const AliasTerm := "runserver"

  /** The alias line `RunServerAlias.setup` writes for the project directory. */
  function AliasLine(projectDir: string): string {
    "alias runserver=\"cd " + projectDir
      + "; source ../virtualenv/bin/activate; ./manage.py runserver 8001\""
  }

  /** Each prepended line holds the term its step's probe greps for. */
  lemma LinesHoldTheirTerms(projectDir: string)
    ensures Contains(HostsLine, HostNames)
    ensures Contains(EnvLine, EnvVariable)
    ensures Contains(AliasLine(projectDir), AliasTerm)
  {
    assert OccursAt(HostsLine, HostNames, 10);
    ContainsAt(HostsLine, HostNames, 10);
    assert OccursAt(EnvLine, EnvVariable, 7);
    ContainsAt(EnvLine, EnvVariable, 7);
    var alias := AliasLine(projectDir);
    assert alias[6..15] == AliasTerm;
    ContainsAt(alias, AliasTerm, 6);
  }
}

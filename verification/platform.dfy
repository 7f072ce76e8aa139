/** Platform detection and the paths derived from it: the OS tag the script
    recognises, POSIX path joining, and the shell profile it edits. */
module Platform {
  import opened Outcomes
  import opened Text

  const Osx := "osx"
  const Linux := "linux"

  /** The OS tag for a Python 2 `sys.platform` value; any other platform is
      fatal. The macOS version number is not modelled. */
  function GetOs(platform: string): (r: Result<string>)
    ensures r.Ok? <==> platform == "darwin" || platform == "linux2"
    ensures r.Ok? ==> (r.value == Osx <==> platform == "darwin")
    ensures r.Ok? ==> r.value in {Osx, Linux}
    ensures r.Err? ==> r.error == UnsupportedOS(platform)
  {
    if platform == "darwin" then Ok(Osx)
    else if platform == "linux2" then Ok(Linux)
    else Err(UnsupportedOS(platform))
  }

  predicate IsAbsolute(p: string) {
    |p| > 0 && p[0] == '/'
  }

  /** POSIX `os.path.join(a, b)`: an absolute `b` replaces `a`; otherwise `b`
      is appended as a new path component, adding a `/` only if needed. */
  function JoinPath(a: string, b: string): (r: string)
    ensures |r| >= |b|
    ensures IsAbsolute(b) ==> r == b
    ensures !IsAbsolute(b) ==> a <= r && |r| - |a| - |b| in {0, 1}
    ensures r[|r| - |b|..] == b
    ensures !IsAbsolute(b) && a != "" ==> r[|r| - |b| - 1] == '/'
    ensures !IsAbsolute(b) && (a == "" || a[|a| - 1] == '/') ==> r == a + b
    ensures !IsAbsolute(b) && a != "" && a[|a| - 1] != '/' ==> r == a + "/" + b
  {
    if IsAbsolute(b) then b
    else if a == "" || a[|a| - 1] == '/' then a + b
    else a + "/" + b
  }

  /** Joining is associative: adding `b` and then `c` to `a` is adding the
      joined `b` and `c` to `a`, so `join(join(home, "projects"), name)` is
      `join(home, "projects/" + name)`. */
  lemma JoinPathAssociative(a: string, b: string, c: string)
    ensures JoinPath(JoinPath(a, b), c) == JoinPath(a, JoinPath(b, c))
  {
    if IsAbsolute(c) {
    } else if IsAbsolute(b) {
      assert JoinPath(b, c)[0] == b[0];
    } else {
      JoinRelative(a, b, c);
    }
  }

  /** What `a` contributes in front of any relative path it is joined to. */
  function Lead(a: string): (r: string)
    ensures r == [] || r[|r| - 1] == '/'
    ensures a <= r
  {
    if a == "" || a[|a| - 1] == '/' then a else a + "/"
  }

  lemma JoinLead(a: string, x: string)
    requires !IsAbsolute(x)
    ensures JoinPath(a, x) == Lead(a) + x
  {
  }

  lemma JoinRelative(a: string, b: string, c: string)
    requires !IsAbsolute(b) && !IsAbsolute(c)
    ensures JoinPath(JoinPath(a, b), c) == JoinPath(a, JoinPath(b, c))
  {
    JoinLead(a, b);
    if b == "" {
      JoinLead(a, c);
      assert JoinPath(b, c) == c;
      assert JoinPath(Lead(a), c) == Lead(a) + c;
    } else if b[|b| - 1] == '/' {
      assert (b + c)[0] == b[0];
      JoinSlashEnded(a, b, c);
    } else {
      JoinPlain(a, b, c);
    }
  }

  lemma JoinSlashEnded(a: string, b: string, c: string)
    requires !IsAbsolute(b) && !IsAbsolute(c) && b != "" && b[|b| - 1] == '/'
    requires !IsAbsolute(b + c)
    ensures JoinPath(JoinPath(a, b), c) == JoinPath(a, JoinPath(b, c))
  {
    var pre := Lead(a);
    LeadOfSlashEnded(b);
    LeadOfSlashEnded(pre + b);
    JoinLead(b, c);
    JoinLead(a, b);
    JoinLead(pre + b, c);
    JoinLead(a, b + c);
    AppendAssoc(pre, b, c);
  }

  /** A path already ending in `/` leads with itself. */
  lemma LeadOfSlashEnded(p: string)
    requires p != [] && p[|p| - 1] == '/'
    ensures Lead(p) == p
  {
  }

  lemma JoinPlain(a: string, b: string, c: string)
    requires !IsAbsolute(b) && !IsAbsolute(c) && b != "" && b[|b| - 1] != '/'
    ensures JoinPath(JoinPath(a, b), c) == JoinPath(a, JoinPath(b, c))
  {
    var pre := Lead(a);
    var bc := b + "/" + c;
    assert JoinPath(b, c) == bc;
    assert !IsAbsolute(bc) by { assert bc[0] == b[0]; }
    JoinLead(a, b);
    JoinLead(a, bc);
    var ab := pre + b;
    assert JoinPath(ab, c) == ab + "/" + c by { assert ab[|ab| - 1] == b[|b| - 1]; }
    AppendAssoc(pre, b + "/", c);
    AppendAssoc(pre, b, "/");
  }

  /** The shell profile name for each supported OS tag. */
  function ProfileName(os: string): Option<string> {
    if os == Linux then Some(".bashrc")
    else if os == Osx then Some(".bash_profile")
    else None
  }

  /** `bash_config_file`: the profile in the home directory, or
      NotImplementedError for an OS tag with no profile. */
  function BashConfigFile(home: string, os: string): (r: Result<string>)
    ensures r.Ok? <==> os == Linux || os == Osx
    ensures r.Err? ==> r.error == NotImplemented
    ensures os == Linux ==> r == Ok(JoinPath(home, ".bashrc"))
    ensures os == Osx ==> r == Ok(JoinPath(home, ".bash_profile"))
  {
    match ProfileName(os)
    case Some(name) => Ok(JoinPath(home, name))
    case None => Err(NotImplemented)
  }
}

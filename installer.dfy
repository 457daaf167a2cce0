/** The package installer of jira_agent/environment/installer.py: the command
    lines it builds for pip, poetry, npm, yarn and the known system tools, the
    `InstallResult` it makes of a command's outcome, the order and the
    suppression rules of `install_repo_requirements`, and the issues and the
    verdict of `setup_environment`. Running a command is not modelled: its
    outcome is given. */
module Installer {
  import opened Strings
  import opened Wrappers
  import opened Requirements

  /** Result of an installation attempt (the `InstallResult` dataclass). */
  datatype InstallResult = InstallResult(success: bool, package: string, command: string, output: string,
                                         error: Option<string>)

  /** How `subprocess.run` ended: the process exited with a return code, it ran
      past the five-minute timeout, its program was not found, or some other
      exception was raised. */
  datatype RunOutcome =
    | Exited(returnCode: int, stdout: string, stderr: string)
    | TimedOut
    | NotFound
    | Raised(message: string)

  /** The process ran and returned 0. */
  predicate Succeeds(outcome: RunOutcome) {
    outcome.Exited? && outcome.returnCode == 0
  }

  /** `_run_install`: the command line is the arguments joined by spaces; the
      attempt succeeds exactly when the process returns 0, and only a failed
      attempt carries an error: stderr, or the message of what went wrong.
      A missing program can only be reported for a command that names one. */
  function RunInstall(cmd: seq<string>, package: string, outcome: RunOutcome): (r: InstallResult)
    requires outcome.NotFound? ==> cmd != []
    ensures r.package == package && r.command == Join(cmd, " ")
    ensures r.success <==> Succeeds(outcome)
    ensures r.success <==> r.error.None?
    ensures outcome.Exited? ==> r.output == outcome.stdout && (!r.success ==> r.error == Some(outcome.stderr))
    ensures !outcome.Exited? ==> r.output == ""
    ensures outcome.TimedOut? ==> r.error == Some("Command timed out after 5 minutes")
    ensures outcome.NotFound? ==> r.error == Some("Command not found: " + cmd[0])
    ensures outcome.Raised? ==> r.error == Some(outcome.message)
  {
    var line := Join(cmd, " ");
    match outcome
    case Exited(rc, out, err) => InstallResult(rc == 0, package, line, out, if rc == 0 then None else Some(err))
    case TimedOut => InstallResult(false, package, line, "", Some("Command timed out after 5 minutes"))
    case NotFound => InstallResult(false, package, line, "", Some("Command not found: " + cmd[0]))
    case Raised(message) => InstallResult(false, package, line, "", Some(message))
  }

  /** The command line of three arguments. */
  lemma JoinThree(a: string, b: string, c: string)
    ensures Join([a, b, c], " ") == a + " " + b + " " + c
  {
    assert [a, b, c] == [a, b] + [c];
    JoinSnoc([a, b], c, " ");
    assert [a, b] == [a] + [b];
    JoinSnoc([a], b, " ");
  }

  /** Python's truthiness of an optional string: present and not empty. */
  predicate Truthy(s: Option<string>) {
    s.Some? && s.value != ""
  }

  /** The version specifier as it is written after the package name. */
  function VersionText(versionSpec: Option<string>): string {
    if Truthy(versionSpec) then versionSpec.value else ""
  }

  // ---------------------------------------------------------------------------
  // Python packages

  /** `install_python_package`: `pip3 install <spec>` or `poetry add <spec>`. */
  function InstallPythonPackage(package: string, versionSpec: Option<string>, usePip: bool,
                                outcome: RunOutcome): (r: InstallResult)
    ensures r.package == package
    ensures usePip ==> r.command == "pip3" + " " + "install" + " " + package + VersionText(versionSpec)
    ensures !usePip ==> r.command == "poetry" + " " + "add" + " " + package + VersionText(versionSpec)
    ensures r.success <==> Succeeds(outcome)
  {
    var spec := package + VersionText(versionSpec);
    var cmd := if usePip then ["pip3", "install", spec] else ["poetry", "add", spec];
    JoinThree(cmd[0], cmd[1], spec);
    RunInstall(cmd, package, outcome)
  }

  // ---------------------------------------------------------------------------
  // Node packages

  /** The package with `@<version>` when a version is given. */
  function NodeSpec(package: string, versionSpec: Option<string>): string {
    if Truthy(versionSpec) then package + "@" + versionSpec.value else package
  }

  /** The arguments `install_node_package` builds: yarn when the repository has
      a `yarn.lock`, npm otherwise. */
  function NodeArgs(package: string, versionSpec: Option<string>, dev: bool, yarnLock: bool): seq<string> {
    (if yarnLock then ["yarn", "add"] + (if dev then ["--dev"] else [])
     else ["npm", "install", if dev then "--save-dev" else "--save"])
    + [NodeSpec(package, versionSpec)]
  }

  /** The package spec is always the last argument; before it stand the
      program, its sub-command and the dependency flag, which yarn leaves out
      for a normal dependency. */
  lemma NodeArgsShape(package: string, versionSpec: Option<string>, dev: bool, yarnLock: bool)
    ensures var cmd := NodeArgs(package, versionSpec, dev, yarnLock);
      && |cmd| >= 3
      && cmd[|cmd| - 1] == NodeSpec(package, versionSpec)
      && cmd[..2] == (if yarnLock then ["yarn", "add"] else ["npm", "install"])
      && cmd[2..|cmd| - 1] == (if yarnLock then (if dev then ["--dev"] else [])
                               else [if dev then "--save-dev" else "--save"])
    ensures var spec := NodeSpec(package, versionSpec);
      StartsWith(spec, package) && (spec == package <==> !Truthy(versionSpec))
  {
    var spec := NodeSpec(package, versionSpec);
    if Truthy(versionSpec) {
      assert |spec| > |package|;
    }
  }

  /** The command line of a Node install begins with the program and ends
      with a space and the package spec. */
  lemma NodeCommandLine(package: string, versionSpec: Option<string>, dev: bool, yarnLock: bool)
    ensures var cmd := NodeArgs(package, versionSpec, dev, yarnLock);
      var line := Join(cmd, " ");
      && line == Join(cmd[..|cmd| - 1], " ") + " " + NodeSpec(package, versionSpec)
      && StartsWith(line, if yarnLock then "yarn" else "npm")
  {
    var cmd := NodeArgs(package, versionSpec, dev, yarnLock);
    assert cmd == cmd[..|cmd| - 1] + [NodeSpec(package, versionSpec)];
    JoinSnoc(cmd[..|cmd| - 1], NodeSpec(package, versionSpec), " ");
    JoinHead(cmd, " ");
  }

  /** The argument list of `install_node_package`, built by appending. */
  method NodeCommand(package: string, versionSpec: Option<string>, dev: bool, yarnLock: bool)
    returns (cmd: seq<string>)
    ensures cmd == NodeArgs(package, versionSpec, dev, yarnLock)
  {
    var pkgSpec := if Truthy(versionSpec) then package + "@" + versionSpec.value else package;
    if yarnLock {
      cmd := ["yarn", "add"];
      if dev {
        cmd := cmd + ["--dev"];
      }
      cmd := cmd + [pkgSpec];
    } else {
      cmd := ["npm", "install"];
      if dev {
        cmd := cmd + ["--save-dev"];
      } else {
        cmd := cmd + ["--save"];
      }
      cmd := cmd + [pkgSpec];
    }
  }

  /** `install_node_package`; `yarnLock` says whether the installer has a
      repository and it holds a `yarn.lock`. */
  method InstallNodePackage(package: string, versionSpec: Option<string>, dev: bool, yarnLock: bool,
                            outcome: RunOutcome) returns (r: InstallResult)
    ensures r == RunInstall(NodeArgs(package, versionSpec, dev, yarnLock), package, outcome)
    ensures r.package == package && (r.success <==> Succeeds(outcome))
  {
    var cmd := NodeCommand(package, versionSpec, dev, yarnLock);
    r := RunInstall(cmd, package, outcome);
  }

  // ---------------------------------------------------------------------------
  // System tools

  /** The install command of each tool `install_system_tool` knows. */
  function SystemCommand(tool: string): Option<seq<string>> {
    if tool == "pre-commit" then Some(["pip3", "install", "pre-commit"])
    else if tool == "dbt" then Some(["pip3", "install", "dbt-core", "dbt-databricks"])
    else if tool == "poetry" then Some(["pip3", "install", "poetry"])
    else if tool == "node" then Some(["brew", "install", "node"])
    else if tool == "gh" then Some(["brew", "install", "gh"])
    else if tool == "make" then Some(["xcode-select", "--install"])
    else None
  }

  const KnownTools: set<string> := {"pre-commit", "dbt", "poetry", "node", "gh", "make"}

  /** Exactly the six listed tools have a command, and none of them is empty. */
  lemma SystemCommandKnown(tool: string)
    ensures SystemCommand(tool).Some? <==> tool in KnownTools
    ensures SystemCommand(tool).Some? ==> |SystemCommand(tool).value| >= 2
  {
  }

  /** `install_system_tool`: an unknown tool fails at once with an empty command
      and no output; a known one runs its command. */
  function InstallSystemTool(tool: string, outcome: RunOutcome): (r: InstallResult)
    ensures r.package == tool
    ensures SystemCommand(tool).None? ==>
      !r.success && r.command == "" && r.output == "" && r.error == Some("Don't know how to install " + tool)
    ensures SystemCommand(tool).Some? ==>
      r.command == Join(SystemCommand(tool).value, " ") && (r.success <==> Succeeds(outcome))
  {
    match SystemCommand(tool)
    case Some(cmd) =>
      if cmd == [] then InstallResult(false, tool, "", "", Some("Don't know how to install " + tool))
      else RunInstall(cmd, tool, outcome)
    case None => InstallResult(false, tool, "", "", Some("Don't know how to install " + tool))
  }

  /** `setup_pre_commit`: `pre-commit install` in the repository, or a failure
      when there is no repository or it has no `.pre-commit-config.yaml`. */
  function SetupPreCommit(hasRepo: bool, hasConfig: bool, outcome: RunOutcome): (r: InstallResult)
    ensures !(hasRepo && hasConfig) ==>
      !r.success && r.package == "pre-commit" && r.command == "" && r.error == Some("No .pre-commit-config.yaml found")
    ensures hasRepo && hasConfig ==>
      r.package == "pre-commit hooks" && r.command == "pre-commit install" && (r.success <==> Succeeds(outcome))
  {
    if !hasRepo || !hasConfig then InstallResult(false, "pre-commit", "", "", Some("No .pre-commit-config.yaml found"))
    else RunInstall(["pre-commit", "install"], "pre-commit hooks", outcome)
  }

  // ---------------------------------------------------------------------------
  // Set-up commands and the repository's requirements

  /** `_run_setup_command`: the command string split into words, run, and
      reported under the string itself. `shlex.split` is taken as a split at
      single spaces, which is what it does to the detected set-up commands. */
  function RunSetupCommand(cmdStr: string, outcome: RunOutcome): (r: InstallResult)
    ensures r.package == cmdStr && (r.success <==> Succeeds(outcome))
  {
    RunInstall(Split(cmdStr, ' '), cmdStr, outcome)
  }

  /** Every detected set-up command is reported under its own command line. */
  lemma SetupCommandLine(c: SetupCommand, outcome: RunOutcome)
    ensures RunSetupCommand(c.Text(), outcome).command == c.Text()
  {
    JoinSplit(c.Text(), ' ');
  }

  /** What `install_repo_requirements` works with besides its flags: the set-up
      commands of the parsed requirements; the missing Python packages as
      `get_missing_packages` reports them after the set-up commands ran; the
      missing Node packages as it reports them after the Python installs;
      whether the repository has a `yarn.lock`; and the outcome of each command
      it runs, in the order it runs them. */
  datatype RepoRun = RepoRun(
    setupCommands: seq<string>,
    missingPython: seq<Requirement>,
    missingNode: seq<Requirement>,
    yarnLock: bool,
    setupOuts: seq<RunOutcome>,
    pythonOuts: seq<RunOutcome>,
    nodeOuts: seq<RunOutcome>)
  {
    /** One outcome per command. */
    predicate Valid() {
      |setupOuts| == |setupCommands| && |pythonOuts| == |missingPython| && |nodeOuts| == |missingNode|
    }
  }

  /** The results of the first `n` set-up commands. */
  function SetupResults(run: RepoRun, n: nat): (rs: seq<InstallResult>)
    requires run.Valid() && n <= |run.setupCommands|
    ensures |rs| == n
  {
    seq(n, k requires 0 <= k < n => RunSetupCommand(run.setupCommands[k], run.setupOuts[k]))
  }

  /** The per-package Python installs, for the first `n` missing packages. */
  function PythonResults(run: RepoRun, n: nat): (rs: seq<InstallResult>)
    requires run.Valid() && n <= |run.missingPython|
    ensures |rs| == n
  {
    seq(n, k requires 0 <= k < n =>
      InstallPythonPackage(run.missingPython[k].name, run.missingPython[k].versionSpec, true, run.pythonOuts[k]))
  }

  /** The per-package Node installs, for the first `n` missing packages. */
  function NodeResults(run: RepoRun, n: nat): (rs: seq<InstallResult>)
    requires run.Valid() && n <= |run.missingNode|
    ensures |rs| == n
  {
    seq(n, k requires 0 <= k < n =>
      RunInstall(NodeArgs(run.missingNode[k].name, run.missingNode[k].versionSpec, false, run.yarnLock),
                 run.missingNode[k].name, run.nodeOuts[k]))
  }

  /** The command string mentions one of the two installs. */
  predicate Mentions(cmdStr: string, a: string, b: string) {
    Contains(cmdStr, a) || Contains(cmdStr, b)
  }

  /** A flag of `install_repo_requirements` after the first `n` set-up
      commands: it is switched off by a successful command that mentions `a`
      or `b`, and never switched on again. */
  function KeepsFlag(flag: bool, run: RepoRun, n: nat, a: string, b: string): bool
    requires run.Valid() && n <= |run.setupCommands|
  {
    if n == 0 then flag
    else KeepsFlag(flag, run, n - 1, a, b)
         && !(Succeeds(run.setupOuts[n - 1]) && Mentions(run.setupCommands[n - 1], a, b))
  }

  /** One of the first `n` set-up commands succeeded and mentions `a` or `b`. */
  predicate Disabled(run: RepoRun, n: nat, a: string, b: string)
    requires run.Valid() && n <= |run.setupCommands|
  {
    exists k :: 0 <= k < n && Succeeds(run.setupOuts[k]) && Mentions(run.setupCommands[k], a, b)
  }

  /** A flag stays on exactly when it was on and no successful set-up command
      mentions either install. */
  lemma {:induction false} KeepsFlagMeans(flag: bool, run: RepoRun, n: nat, a: string, b: string)
    requires run.Valid() && n <= |run.setupCommands|
    ensures KeepsFlag(flag, run, n, a, b) <==> flag && !Disabled(run, n, a, b)
  {
    if n > 0 {
      KeepsFlagMeans(flag, run, n - 1, a, b);
      if Disabled(run, n, a, b) && !(Succeeds(run.setupOuts[n - 1]) && Mentions(run.setupCommands[n - 1], a, b)) {
        var k :| 0 <= k < n && Succeeds(run.setupOuts[k]) && Mentions(run.setupCommands[k], a, b);
        assert k < n - 1;
      }
    }
  }

  /** How many set-up commands `install_repo_requirements` runs. */
  function SetupCount(runSetup: bool, run: RepoRun): nat {
    if runSetup then |run.setupCommands| else 0
  }

  predicate PythonStays(python: bool, runSetup: bool, run: RepoRun)
    requires run.Valid()
  {
    KeepsFlag(python, run, SetupCount(runSetup, run), "poetry install", "pip install -r")
  }

  predicate NodeStays(node: bool, runSetup: bool, run: RepoRun)
    requires run.Valid()
  {
    KeepsFlag(node, run, SetupCount(runSetup, run), "npm install", "yarn install")
  }

  /** The only result without a repository. */
  const NoRepoResult := InstallResult(false, "", "", "", Some("No repo_path set"))

  /** The results of the first `n` set-up commands, then the Python installs
      when `pythonOn`, then the Node installs when `nodeOn`. */
  function Grouped(run: RepoRun, n: nat, pythonOn: bool, nodeOn: bool): seq<InstallResult>
    requires run.Valid() && n <= |run.setupCommands|
  {
    SetupResults(run, n)
    + (if pythonOn then PythonResults(run, |run.missingPython|) else [])
    + (if nodeOn then NodeResults(run, |run.missingNode|) else [])
  }

  /** What `install_repo_requirements` returns. */
  function RepoResults(hasRepo: bool, python: bool, node: bool, runSetup: bool, run: RepoRun): seq<InstallResult>
    requires run.Valid()
  {
    if !hasRepo then [NoRepoResult]
    else Grouped(run, SetupCount(runSetup, run), PythonStays(python, runSetup, run), NodeStays(node, runSetup, run))
  }

  /** The loop over the set-up commands of `install_repo_requirements`, with
      the two flags it may switch off. */
  method RunSetupCommands(pythonWanted: bool, nodeWanted: bool, run: RepoRun)
    returns (results: seq<InstallResult>, python: bool, node: bool)
    requires run.Valid()
    ensures results == SetupResults(run, |run.setupCommands|)
    ensures python == KeepsFlag(pythonWanted, run, |run.setupCommands|, "poetry install", "pip install -r")
    ensures node == KeepsFlag(nodeWanted, run, |run.setupCommands|, "npm install", "yarn install")
  {
    results := [];
    python, node := pythonWanted, nodeWanted;
    var commands := run.setupCommands;
    var i := 0;
    while i < |commands|
      invariant 0 <= i <= |commands|
      invariant results == SetupResults(run, i)
      invariant python == KeepsFlag(pythonWanted, run, i, "poetry install", "pip install -r")
      invariant node == KeepsFlag(nodeWanted, run, i, "npm install", "yarn install")
    {
      var cmdStr := commands[i];
      var result := RunSetupCommand(cmdStr, run.setupOuts[i]);
      results := results + [result];
      if result.success && (Contains(cmdStr, "poetry install") || Contains(cmdStr, "pip install -r")) {
        python := false;
      }
      if result.success && (Contains(cmdStr, "npm install") || Contains(cmdStr, "yarn install")) {
        node := false;
      }
      i := i + 1;
    }
  }

  /** The loop installing the missing Python packages one by one with pip. */
  method InstallPythonPackages(run: RepoRun) returns (results: seq<InstallResult>)
    requires run.Valid()
    ensures results == PythonResults(run, |run.missingPython|)
  {
    results := [];
    var missingPython := run.missingPython;
    for k := 0 to |missingPython|
      invariant results == PythonResults(run, k)
    {
      var req := missingPython[k];
      var result := InstallPythonPackage(req.name, req.versionSpec, true, run.pythonOuts[k]);
      results := results + [result];
    }
  }

  /** The loop installing the missing Node packages one by one as normal
      dependencies. */
  method InstallNodePackages(run: RepoRun) returns (results: seq<InstallResult>)
    requires run.Valid()
    ensures results == NodeResults(run, |run.missingNode|)
  {
    results := [];
    var missingNode := run.missingNode;
    for k := 0 to |missingNode|
      invariant results == NodeResults(run, k)
    {
      var req := missingNode[k];
      var result := InstallNodePackage(req.name, req.versionSpec, false, run.yarnLock, run.nodeOuts[k]);
      results := results + [result];
    }
  }

  /** `install_repo_requirements`; `hasRepo` says whether the installer was
      given a repository. */
  method InstallRepoRequirements(hasRepo: bool, pythonWanted: bool, nodeWanted: bool, runSetup: bool, run: RepoRun)
    returns (results: seq<InstallResult>)
    requires run.Valid()
    ensures results == RepoResults(hasRepo, pythonWanted, nodeWanted, runSetup, run)
  {
    if !hasRepo {
      results := [InstallResult(false, "", "", "", Some("No repo_path set"))];
      return;
    }
    results := [];
    var python, node := pythonWanted, nodeWanted;
    if runSetup && |run.setupCommands| > 0 {
      results, python, node := RunSetupCommands(pythonWanted, nodeWanted, run);
    }
    if python {
      var installed := InstallPythonPackages(run);
      results := results + installed;
    }
    if node {
      var installed := InstallNodePackages(run);
      results := results + installed;
    }
  }

  /** Without a repository there is exactly one result, and it failed. */
  lemma NoRepo(python: bool, node: bool, runSetup: bool, run: RepoRun)
    requires run.Valid()
    ensures var rs := RepoResults(false, python, node, runSetup, run);
      |rs| == 1 && !rs[0].success && rs[0].error == Some("No repo_path set")
  {
  }

  /** With a repository the results come in three groups: one per set-up
      command, under its own command string; then, when not switched off, one
      pip install per missing Python package; then, when not switched off, one
      npm or yarn install per missing Node package. */
  lemma RepoResultsOrder(run: RepoRun, n: nat, pythonOn: bool, nodeOn: bool)
    requires run.Valid() && n <= |run.setupCommands|
    ensures var rs := Grouped(run, n, pythonOn, nodeOn);
      var p := if pythonOn then |run.missingPython| else 0;
      && |rs| == n + p + (if nodeOn then |run.missingNode| else 0)
      && (forall k :: 0 <= k < n ==> rs[k].package == run.setupCommands[k])
      && (forall k :: n <= k < n + p ==>
            rs[k].package == run.missingPython[k - n].name && StartsWith(rs[k].command, "pip3"))
      && (forall k :: n + p <= k < |rs| ==>
            rs[k].package == run.missingNode[k - n - p].name
            && StartsWith(rs[k].command, if run.yarnLock then "yarn" else "npm"))
  {
    var rs := Grouped(run, n, pythonOn, nodeOn);
    var p := if pythonOn then |run.missingPython| else 0;
    var py := if pythonOn then PythonResults(run, |run.missingPython|) else [];
    var nd := if nodeOn then NodeResults(run, |run.missingNode|) else [];
    PythonGroup(run);
    NodeGroup(run);
    forall k | n <= k < n + p
      ensures rs[k].package == run.missingPython[k - n].name && StartsWith(rs[k].command, "pip3")
    {
      assert rs[k] == py[k - n];
    }
    forall k | n + p <= k < |rs|
      ensures rs[k].package == run.missingNode[k - n - p].name
      ensures StartsWith(rs[k].command, if run.yarnLock then "yarn" else "npm")
    {
      assert rs[k] == nd[k - n - p];
    }
  }

  /** Each Python install is a pip install of its package. */
  lemma PythonGroup(run: RepoRun)
    requires run.Valid()
    ensures var rs := PythonResults(run, |run.missingPython|);
      forall k :: 0 <= k < |rs| ==> rs[k].package == run.missingPython[k].name && StartsWith(rs[k].command, "pip3")
  {
  }

  /** Each Node install runs the program the lock file calls for. */
  lemma NodeGroup(run: RepoRun)
    requires run.Valid()
    ensures var rs := NodeResults(run, |run.missingNode|);
      forall k :: 0 <= k < |rs| ==>
        rs[k].package == run.missingNode[k].name && StartsWith(rs[k].command, if run.yarnLock then "yarn" else "npm")
  {
    var rs := NodeResults(run, |run.missingNode|);
    forall k | 0 <= k < |rs|
      ensures StartsWith(rs[k].command, if run.yarnLock then "yarn" else "npm")
    {
      var req := run.missingNode[k];
      NodeCommandLine(req.name, req.versionSpec, false, run.yarnLock);
    }
  }

  /** Per-package Python installs are skipped exactly when they were not
      wanted, or a set-up command that ran succeeded and mentions `poetry
      install` or `pip install -r`; the same for Node with `npm install` and
      `yarn install`. */
  lemma Suppression(python: bool, node: bool, runSetup: bool, run: RepoRun)
    requires run.Valid()
    ensures PythonStays(python, runSetup, run) <==>
      python && !(runSetup && Disabled(run, |run.setupCommands|, "poetry install", "pip install -r"))
    ensures NodeStays(node, runSetup, run) <==>
      node && !(runSetup && Disabled(run, |run.setupCommands|, "npm install", "yarn install"))
  {
    KeepsFlagMeans(python, run, SetupCount(runSetup, run), "poetry install", "pip install -r");
    KeepsFlagMeans(node, run, SetupCount(runSetup, run), "npm install", "yarn install");
  }

  // ---------------------------------------------------------------------------
  // setup_environment

  /** An issue that makes `setup_environment` fail. */
  predicate Failing(issue: string) {
    Contains(issue, "Failed") || Contains(issue, "Missing required")
  }

  /** `[i for i in issues if "Failed" in i or "Missing required" in i]`. */
  function FailingIssues(issues: seq<string>): (fs: seq<string>)
    ensures |fs| <= |issues|
    ensures forall x :: x in fs <==> x in issues && Failing(x)
  {
    if issues == [] then []
    else
      assert issues == [issues[0]] + issues[1..];
      (if Failing(issues[0]) then [issues[0]] else []) + FailingIssues(issues[1..])
  }

  /** The filter is empty exactly when no issue fails. */
  lemma {:induction false} FailingIssuesEmpty(issues: seq<string>)
    ensures |FailingIssues(issues)| == 0 <==> NoneFailing(issues)
  {
    if issues != [] {
      FailingIssuesEmpty(issues[1..]);
      assert issues == [issues[0]] + issues[1..];
      NoneFailingAppend([issues[0]], issues[1..]);
    }
  }

  /** Python's `f"{error}"` for an optional error. */
  function ErrorText(error: Option<string>): string {
    if error.Some? then error.value else "None"
  }

  /** The issue `setup_environment` records for missing packages of one kind. */
  function MissingCount(n: nat, kind: string): string {
    "Missing " + NatToString(n) + " " + kind + " packages"
  }

  /** The issue after its first word, free of `F` and `M` when the kind is. */
  lemma MissingCountTail(n: nat, kind: string)
    requires 'F' !in kind && 'M' !in kind
    ensures var s := MissingCount(n, kind);
      && s == "Missing " + s[8..]
      && 'F' !in s[8..] && 'M' !in s[8..] && IsDigit(s[8])
  {
    var digits := NatToString(n);
    var rest := digits + " " + kind + " packages";
    assert 'F' !in digits && 'M' !in digits;
    assert MissingCount(n, kind) == "Missing " + rest;
    assert rest[0] == digits[0];
  }

  /** A missing-packages issue does not make the set-up fail. */
  lemma MissingCountHarmless(n: nat, kind: string)
    requires 'F' !in kind && 'M' !in kind
    ensures !Failing(MissingCount(n, kind))
  {
    var s := MissingCount(n, kind);
    MissingCountTail(n, kind);
    assert 'F' !in s by {
      assert s == "Missing " + s[8..];
    }
    NotContainsByFirstChar(s, "Failed");
    assert 'M' !in s[1..] by {
      assert s[1..] == "issing " + s[8..];
    }
    assert s[..16][8] != "Missing required"[8];
    NotContainsPastHead(s, "Missing required");
  }

  /** No issue makes the set-up fail. */
  predicate NoneFailing(issues: seq<string>) {
    forall k :: 0 <= k < |issues| ==> !Failing(issues[k])
  }

  lemma NoneFailingAppend(a: seq<string>, b: seq<string>)
    ensures NoneFailing(a + b) <==> NoneFailing(a) && NoneFailing(b)
  {
    if NoneFailing(a) && NoneFailing(b) {
      forall k | 0 <= k < |a + b|
        ensures !Failing((a + b)[k])
      {
        if k >= |a| {
          assert (a + b)[k] == b[k - |a|];
        }
      }
    }
    if NoneFailing(a + b) {
      forall k | 0 <= k < |a|
        ensures !Failing(a[k])
      {
        assert (a + b)[k] == a[k];
      }
      forall k | 0 <= k < |b|
        ensures !Failing(b[k])
      {
        assert (a + b)[|a| + k] == b[k];
      }
    }
  }

  /** Every result reports success. */
  predicate AllSucceeded(results: seq<InstallResult>) {
    forall k :: 0 <= k < |results| ==> results[k].success
  }

  /** The results of installing each missing tool, in order. */
  function ToolResults(tools: seq<string>, outs: seq<RunOutcome>): (r: seq<InstallResult>)
    requires |outs| == |tools|
    ensures |r| == |tools| && forall k :: 0 <= k < |tools| ==> r[k] == InstallSystemTool(tools[k], outs[k])
  {
    seq(|tools|, k requires 0 <= k < |tools| => InstallSystemTool(tools[k], outs[k]))
  }

  /** The issue `setup_environment` records when installing `tool` failed. */
  function ToolFailure(tool: string, result: InstallResult): string {
    "Failed to install " + tool + ": " + ErrorText(result.error)
  }

  /** The issues for the failed installs among the first `n` missing tools. */
  function FailedTools(tools: seq<string>, results: seq<InstallResult>, n: nat): seq<string>
    requires |results| == |tools| && n <= |tools|
  {
    if n == 0 then []
    else
      FailedTools(tools, results, n - 1)
      + (if results[n - 1].success then [] else [ToolFailure(tools[n - 1], results[n - 1])])
  }

  /** Every failed install has its issue, and every issue is that of a failed
      install, in no more issues than tools. */
  lemma {:induction false} FailedToolsMembers(tools: seq<string>, results: seq<InstallResult>, n: nat)
    requires |results| == |tools| && n <= |tools|
    ensures var r := FailedTools(tools, results, n);
      && |r| <= n
      && (forall k :: 0 <= k < n && !results[k].success ==> ToolFailure(tools[k], results[k]) in r)
      && (forall x :: x in r ==> exists k :: 0 <= k < n && !results[k].success && x == ToolFailure(tools[k], results[k]))
  {
    if n > 0 {
      FailedToolsMembers(tools, results, n - 1);
    }
  }

  /** No issue at all exactly when every install succeeded. */
  lemma {:induction false} FailedToolsEmpty(tools: seq<string>, results: seq<InstallResult>, n: nat)
    requires |results| == |tools| && n <= |tools|
    ensures FailedTools(tools, results, n) == [] <==> AllSucceeded(results[..n])
  {
    if n > 0 {
      FailedToolsEmpty(tools, results, n - 1);
      assert results[..n - 1] == results[..n][..n - 1];
    }
  }

  /** The issues about missing required tools: the list of them, and with
      `autoInstall` one issue per tool whose install failed, in tool order. */
  function ToolIssueList(missingRequired: seq<string>, autoInstall: bool, toolOuts: seq<RunOutcome>): seq<string>
    requires |toolOuts| == |missingRequired|
  {
    if |missingRequired| == 0 then []
    else
      ["Missing required tools: " + Join(missingRequired, ", ")]
      + (if autoInstall then FailedTools(missingRequired, ToolResults(missingRequired, toolOuts), |missingRequired|) else [])
  }

  /** The install loop of `setup_environment` over the missing required tools. */
  method InstallMissingTools(tools: seq<string>, outs: seq<RunOutcome>) returns (failed: seq<string>)
    requires |outs| == |tools|
    ensures failed == FailedTools(tools, ToolResults(tools, outs), |tools|)
  {
    ghost var results := ToolResults(tools, outs);
    failed := [];
    for k := 0 to |tools|
      invariant failed == FailedTools(tools, results, k)
    {
      var tool := tools[k];
      var result := InstallSystemTool(tool, outs[k]);
      if !result.success {
        failed := failed + ["Failed to install " + tool + ": " + ErrorText(result.error)];
      }
    }
  }

  /** The issues `setup_environment` records about missing required tools. */
  method ToolIssues(missingRequired: seq<string>, autoInstall: bool, toolOuts: seq<RunOutcome>)
    returns (issues: seq<string>)
    requires |toolOuts| == |missingRequired|
    ensures issues == ToolIssueList(missingRequired, autoInstall, toolOuts)
    ensures |missingRequired| == 0 ==> issues == []
    ensures |missingRequired| > 0 ==>
      |issues| >= 1 && issues[0] == "Missing required tools: " + Join(missingRequired, ", ") && Failing(issues[0])
  {
    if |missingRequired| == 0 {
      return [];
    }
    var first := "Missing required tools: " + Join(missingRequired, ", ");
    assert OccursAt(first, "Missing required", 0);
    assert Failing(first);
    var failed: seq<string> := [];
    if autoInstall {
      failed := InstallMissingTools(missingRequired, toolOuts);
    }
    issues := [first] + failed;
  }

  /** The issue `setup_environment` records for a failed repository install. */
  function ResultFailure(result: InstallResult): string {
    "Failed: " + result.command + " - " + ErrorText(result.error)
  }

  /** The issues for the failed results among the first `n`, in order. */
  function FailedResults(results: seq<InstallResult>, n: nat): seq<string>
    requires n <= |results|
  {
    if n == 0 then []
    else FailedResults(results, n - 1) + (if results[n - 1].success then [] else [ResultFailure(results[n - 1])])
  }

  /** The issues about the repository install: one per failed result. */
  method FailedInstallIssues(results: seq<InstallResult>) returns (issues: seq<string>)
    ensures issues == FailedResults(results, |results|)
    ensures NoneFailing(issues) <==> AllSucceeded(results)
    ensures forall k :: 0 <= k < |issues| ==> StartsWith(issues[k], "Failed: ")
  {
    issues := [];
    for k := 0 to |results|
      invariant issues == FailedResults(results, k)
      invariant NoneFailing(issues) <==> forall j :: 0 <= j < k ==> results[j].success
      invariant forall j :: 0 <= j < |issues| ==> StartsWith(issues[j], "Failed: ")
    {
      var result := results[k];
      if !result.success {
        var issue := "Failed: " + result.command + " - " + ErrorText(result.error);
        assert OccursAt(issue, "Failed", 0);
        assert !NoneFailing([issue]) by {
          assert [issue][0] == issue && Failing(issue);
        }
        NoneFailingAppend(issues, [issue]);
        issues := issues + [issue];
      }
    }
  }

  /** The repository install of `setup_environment` with all flags on, and
      the issues it records for it. */
  method RepoInstallIssues(run: RepoRun) returns (failed: seq<string>)
    requires run.Valid()
    ensures failed == FailedResults(RepoResults(true, true, true, true, run), |RepoResults(true, true, true, true, run)|)
    ensures NoneFailing(failed) <==> AllSucceeded(RepoResults(true, true, true, true, run))
  {
    var results := InstallRepoRequirements(true, true, true, true, run);
    failed := FailedInstallIssues(results);
  }

  /** The issues `setup_environment` records for missing packages. */
  function MissingIssues(pythonCount: nat, nodeCount: nat): seq<string> {
    (if pythonCount > 0 then [MissingCount(pythonCount, "Python")] else [])
    + (if nodeCount > 0 then [MissingCount(nodeCount, "Node.js")] else [])
  }

  /** One issue per kind of package that is missing, Python first. */
  lemma MissingIssuesMembers(pythonCount: nat, nodeCount: nat)
    ensures var issues := MissingIssues(pythonCount, nodeCount);
      && |issues| == (if pythonCount > 0 then 1 else 0) + (if nodeCount > 0 then 1 else 0)
      && (pythonCount > 0 ==> issues[0] == MissingCount(pythonCount, "Python"))
      && (nodeCount > 0 ==> issues[|issues| - 1] == MissingCount(nodeCount, "Node.js"))
  {
  }

  /** Missing packages alone never make the set-up fail. */
  lemma MissingIssuesHarmless(pythonCount: nat, nodeCount: nat)
    ensures NoneFailing(MissingIssues(pythonCount, nodeCount))
  {
    var a := if pythonCount > 0 then [MissingCount(pythonCount, "Python")] else [];
    var b := if nodeCount > 0 then [MissingCount(nodeCount, "Node.js")] else [];
    MissingCountHarmless(pythonCount, "Python");
    MissingCountHarmless(nodeCount, "Node.js");
    assert NoneFailing(a) && NoneFailing(b);
    NoneFailingAppend(a, b);
  }

  /** `setup_environment` on the report of `check_for_repo` (its missing
      required tools) and the missing packages `get_missing_packages` reports;
      with `autoInstall`, `toolOuts` are the outcomes of the system-tool
      installs and `run` what the repository install works with. The set-up
      succeeds exactly when no required tool is missing and, if packages were
      installed, every install succeeded; a missing package alone is no
      failure. */
  method SetupEnvironment(missingRequired: seq<string>, missingPython: seq<Requirement>,
                          missingNode: seq<Requirement>, autoInstall: bool, toolOuts: seq<RunOutcome>,
                          run: RepoRun)
    returns (success: bool, issues: seq<string>)
    requires |toolOuts| == |missingRequired| && run.Valid()
    ensures success <==>
      && |missingRequired| == 0
      && !(autoInstall && (|missingPython| > 0 || |missingNode| > 0)
           && !AllSucceeded(RepoResults(true, true, true, true, run)))
    ensures |missingRequired| > 0 ==> |issues| >= 1 && issues[0] == "Missing required tools: " + Join(missingRequired, ", ")
    ensures forall x :: x in MissingIssues(|missingPython|, |missingNode|) ==> x in issues
    ensures issues == ToolIssueList(missingRequired, autoInstall, toolOuts)
      + MissingIssues(|missingPython|, |missingNode|)
      + (if autoInstall && (|missingPython| > 0 || |missingNode| > 0)
         then FailedResults(RepoResults(true, true, true, true, run), |RepoResults(true, true, true, true, run)|)
         else [])
  {
    issues := ToolIssues(missingRequired, autoInstall, toolOuts);
    ghost var tools := issues;
    assert NoneFailing(tools) <==> |missingRequired| == 0;
    ghost var counts: seq<string> := [];
    ghost var failures: seq<string> := [];
    if |missingPython| > 0 || |missingNode| > 0 {
      if |missingPython| > 0 {
        issues := issues + [MissingCount(|missingPython|, "Python")];
      }
      if |missingNode| > 0 {
        issues := issues + [MissingCount(|missingNode|, "Node.js")];
      }
      counts := MissingIssues(|missingPython|, |missingNode|);
      assert issues == tools + counts;
      if autoInstall {
        var failed := RepoInstallIssues(run);
        issues := issues + failed;
        failures := failed;
      }
    }
    assert issues == tools + counts + failures;
    MissingIssuesHarmless(|missingPython|, |missingNode|);
    NoneFailingAppend(tools, counts);
    NoneFailingAppend(tools + counts, failures);
    assert forall x :: x in counts ==> x in issues;
    FailingIssuesEmpty(issues);
    success := |FailingIssues(issues)| == 0;
  }
}

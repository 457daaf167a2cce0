/** The environment checker of jirade/environment/checker.py: which tools a
    repository needs, whether each is on the PATH, and the report built from
    those answers. Looking a program up on the PATH and running it for its
    version are outside the model; their answer is the `Probe` parameter. */
module Checker {
  import opened Strings
  import opened Wrappers

  /** The tools of `TOOL_INFO`. */
  datatype Tool = Python | Pip | Poetry | Git | Node | Npm | Dbt | PreCommit | Gh | Docker | Make
  {
    function Name(): string {
      match this
      case Python => "python"
      case Pip => "pip"
      case Poetry => "poetry"
      case Git => "git"
      case Node => "node"
      case Npm => "npm"
      case Dbt => "dbt"
      case PreCommit => "pre-commit"
      case Gh => "gh"
      case Docker => "docker"
      case Make => "make"
    }

    /** The first word of `check_cmd`: the program looked up on the PATH. */
    function Program(): string {
      match this
      case Python => "python3"
      case Pip => "pip3"
      case _ => Name()
    }

    function Hint(): string {
      match this
      case Python => "Install Python 3.11+ from python.org or: brew install python@3.11"
      case Pip => "Usually comes with Python. Try: python3 -m ensurepip"
      case Poetry => "Install with: curl -sSL https://install.python-poetry.org | python3 -"
      case Git => "Install with: brew install git"
      case Node => "Install from nodejs.org or: brew install node"
      case Npm => "Comes with Node.js"
      case Dbt => "Install with: pip install dbt-core dbt-databricks"
      case PreCommit => "Install with: pip install pre-commit"
      case Gh => "Install with: brew install gh"
      case Docker => "Install Docker Desktop from docker.com"
      case Make => "Install with: xcode-select --install (macOS)"
    }
  }

  /** `TOOL_INFO.get(name)`: the tool a name stands for, if it is one of them. */
  function Lookup(name: string): (t: Option<Tool>)
    ensures t.Some? ==> t.value.Name() == name
  {
    if name == "python" then Some(Python)
    else if name == "pip" then Some(Pip)
    else if name == "poetry" then Some(Poetry)
    else if name == "git" then Some(Git)
    else if name == "node" then Some(Node)
    else if name == "npm" then Some(Npm)
    else if name == "dbt" then Some(Dbt)
    else if name == "pre-commit" then Some(PreCommit)
    else if name == "gh" then Some(Gh)
    else if name == "docker" then Some(Docker)
    else if name == "make" then Some(Make)
    else None
  }

  /** Every tool is found under its own name, so no two tools share a name. */
  lemma LookupName(t: Tool)
    ensures Lookup(t.Name()) == Some(t)
  {
  }

  /** The program looked up for a name: `check_cmd[0]`, which is the name itself
      for a tool without an entry. */
  function ProgramOf(name: string): string {
    match Lookup(name)
    case Some(t) => t.Program()
    case None => name
  }

  /** `info.get("install_hint")`. */
  function InstallHint(name: string): Option<string> {
    match Lookup(name)
    case Some(t) => Some(t.Hint())
    case None => None
  }

  /** What is known about a program that is on the PATH: where it is, and the
      version its `--version` output shows, if any. */
  datatype Found = Found(path: string, version: Option<string>)

  /** The programs on the PATH, each with what its version run shows. */
  type Probe = map<string, Found>

  /** `ToolCheck`. */
  datatype ToolCheck = ToolCheck(name: string, required: bool, installed: bool,
                                 version: Option<string>, path: Option<string>,
                                 installHint: Option<string>)

  /** `check_tool(name, required)`. */
  function CheckTool(name: string, required: bool, probe: Probe): (c: ToolCheck)
    ensures c.name == name && c.required == required && c.installHint == InstallHint(name)
    ensures c.installed <==> ProgramOf(name) in probe
    ensures !c.installed ==> c.version.None? && c.path.None?
    ensures c.installed ==> (c.path == Some(probe[ProgramOf(name)].path)
                             && c.version == probe[ProgramOf(name)].version)
  {
    var program := ProgramOf(name);
    if program !in probe then ToolCheck(name, required, false, None, None, InstallHint(name))
    else ToolCheck(name, required, true, probe[program].version, Some(probe[program].path), InstallHint(name))
  }

  /** A tool missing from the PATH is reported as not installed, with neither a
      version nor a path, and with the hint of its `TOOL_INFO` entry. */
  lemma NotFound(t: Tool, required: bool, probe: Probe)
    requires t.Program() !in probe
    ensures var c := CheckTool(t.Name(), required, probe);
      !c.installed && c.version.None? && c.path.None? && c.installHint == Some(t.Hint())
  {
    LookupName(t);
  }

  /** `EnvironmentReport`. */
  datatype EnvironmentReport = EnvironmentReport(tools: seq<ToolCheck>, missingRequired: seq<string>,
                                                 missingOptional: seq<string>)
  {
    predicate IsReady()
      ensures IsReady() <==> forall t :: t !in missingRequired
    {
      assert |missingRequired| > 0 ==> missingRequired[0] in missingRequired;
      |missingRequired| == 0
    }
  }

  /** The lines of `summary()`. */
  function SummaryLines(r: EnvironmentReport): seq<string> {
    (if r.IsReady() then ["Environment is ready."]
     else ["Environment is NOT ready.", "Missing required tools: " + Join(r.missingRequired, ", ")])
    + (if r.missingOptional != [] then ["Missing optional tools: " + Join(r.missingOptional, ", ")] else [])
  }

  /** `summary()`. */
  function Summary(r: EnvironmentReport): (s: string)
    ensures r.IsReady() <==> StartsWith(s, "Environment is ready.")
    ensures !r.IsReady() ==> StartsWith(s, "Environment is NOT ready.\n")
  {
    var lines := SummaryLines(r);
    var head := if r.IsReady() then "Environment is ready." else "Environment is NOT ready.";
    assert lines[0] == head && (!r.IsReady() ==> |lines| >= 2);
    assert !r.IsReady() ==> Join(lines, "\n") == head + "\n" + Join(lines[1..], "\n");
    assert !r.IsReady() ==> Join(lines, "\n")[15] != "Environment is ready."[15];
    Join(lines, "\n")
  }

  /** Read line by line, the summary says whether the environment is ready, names
      the missing required tools exactly when it is not, and names the missing
      optional tools on a last line of their own exactly when there are some. */
  lemma SummaryReadsBack(r: EnvironmentReport)
    requires forall k :: 0 <= k < |r.missingRequired| ==> '\n' !in r.missingRequired[k]
    requires forall k :: 0 <= k < |r.missingOptional| ==> '\n' !in r.missingOptional[k]
    ensures var lines := Split(Summary(r), '\n');
      && |lines| == (if r.IsReady() then 1 else 2) + (if r.missingOptional == [] then 0 else 1)
      && (lines[0] == "Environment is ready." <==> r.IsReady())
      && (!r.IsReady() ==> lines[1] == "Missing required tools: " + Join(r.missingRequired, ", "))
      && (r.missingOptional != [] ==> lines[|lines| - 1] == "Missing optional tools: " + Join(r.missingOptional, ", "))
  {
    var lines := SummaryLines(r);
    JoinAvoids(r.missingRequired, ", ", '\n');
    JoinAvoids(r.missingOptional, ", ", '\n');
    var req := "Missing required tools: " + Join(r.missingRequired, ", ");
    var opt := "Missing optional tools: " + Join(r.missingOptional, ", ");
    var head := if r.IsReady() then ["Environment is ready."] else ["Environment is NOT ready.", req];
    var tail := if r.missingOptional != [] then [opt] else [];
    assert lines == head + tail;
    assert forall k :: 0 <= k < |head| ==> '\n' !in head[k];
    assert forall k :: 0 <= k < |tail| ==> '\n' !in tail[k];
    forall k | 0 <= k < |lines|
      ensures '\n' !in lines[k]
    {
      if k < |head| {
        assert lines[k] == head[k];
      } else {
        assert lines[k] == tail[k - |head|];
      }
    }
    SplitJoin(lines, '\n');
  }

  /** The tools `check_all` looks for when it is given none. */
  const DefaultTools: seq<(string, bool)> :=
    [("python", true), ("pip", true), ("git", true), ("gh", false), ("pre-commit", false)]

  /** `check_tool` for each tool of the list, in order. */
  function Checks(tools: seq<(string, bool)>, probe: Probe): (checks: seq<ToolCheck>)
    ensures |checks| == |tools|
    ensures forall i :: 0 <= i < |tools| ==> checks[i] == CheckTool(tools[i].0, tools[i].1, probe)
  {
    seq(|tools|, i requires 0 <= i < |tools| => CheckTool(tools[i].0, tools[i].1, probe))
  }

  /** The report after the first `n` checks: each check appended to `tools`,
      and the name of each failed one appended to the list its flag picks. */
  function Tally(checks: seq<ToolCheck>, n: nat): EnvironmentReport
    requires n <= |checks|
  {
    if n == 0 then EnvironmentReport([], [], [])
    else
      var r := Tally(checks, n - 1);
      var c := checks[n - 1];
      EnvironmentReport(r.tools + [c],
                        r.missingRequired + (if !c.installed && c.required then [c.name] else []),
                        r.missingOptional + (if !c.installed && !c.required then [c.name] else []))
  }

  /** The report `check_all` returns for a list of tools. */
  function ReportOf(tools: seq<(string, bool)>, probe: Probe): EnvironmentReport {
    var checks := Checks(tools, probe);
    Tally(checks, |checks|)
  }

  /** `check_all(tools)`. */
  method CheckAll(tools: Option<seq<(string, bool)>>, probe: Probe) returns (report: EnvironmentReport)
    ensures report == ReportOf(tools.GetOr(DefaultTools), probe)
  {
    var ts := tools.GetOr(DefaultTools);
    ghost var checks := Checks(ts, probe);
    report := EnvironmentReport([], [], []);
    for i := 0 to |ts|
      invariant report == Tally(checks, i)
    {
      var (name, required) := ts[i];
      var check := CheckTool(name, required, probe);
      assert check == checks[i] && check.name == name && check.required == required;
      ghost var next := EnvironmentReport(report.tools + [check],
        report.missingRequired + (if !check.installed && required then [name] else []),
        report.missingOptional + (if !check.installed && !required then [name] else []));
      assert Tally(checks, i + 1) == next;
      report := report.(tools := report.tools + [check]);
      if !check.installed {
        if required {
          report := report.(missingRequired := report.missingRequired + [name]);
        } else {
          report := report.(missingOptional := report.missingOptional + [name]);
        }
      }
    }
  }

  /** The names of the checks that failed, among the required ones or among
      the optional ones, in order. */
  function Missing(checks: seq<ToolCheck>, required: bool): seq<string>
    decreases |checks|
  {
    if checks == [] then []
    else
      var c := checks[|checks| - 1];
      Missing(checks[..|checks| - 1], required) + (if !c.installed && c.required == required then [c.name] else [])
  }

  /** A name is missing exactly when some check under that name with that flag
      failed. */
  lemma {:induction false} MissingMembers(checks: seq<ToolCheck>, required: bool, name: string)
    ensures name in Missing(checks, required) <==>
      exists i :: 0 <= i < |checks| && checks[i].name == name && !checks[i].installed && checks[i].required == required
    decreases |checks|
  {
    if checks != [] {
      var init := checks[..|checks| - 1];
      MissingMembers(init, required, name);
      assert forall i :: 0 <= i < |init| ==> init[i] == checks[i];
      if name in Missing(init, required) {
        var i :| 0 <= i < |init| && init[i].name == name && !init[i].installed && init[i].required == required;
        assert checks[i] == init[i];
      }
    }
  }

  /** One more check adds its name to the missing list its flag picks, if it
      failed. */
  lemma MissingStep(checks: seq<ToolCheck>, c: ToolCheck)
    ensures Missing(checks + [c], true) == Missing(checks, true) + (if !c.installed && c.required then [c.name] else [])
    ensures Missing(checks + [c], false) == Missing(checks, false) + (if !c.installed && !c.required then [c.name] else [])
  {
    assert (checks + [c])[..|checks|] == checks;
  }

  /** The tally of the first `n` checks holds those checks, and the failed
      required and failed optional ones among them. */
  lemma {:induction false} TallyParts(checks: seq<ToolCheck>, n: nat)
    requires n <= |checks|
    ensures Tally(checks, n) ==
      EnvironmentReport(checks[..n], Missing(checks[..n], true), Missing(checks[..n], false))
  {
    if n > 0 {
      TallyParts(checks, n - 1);
      assert checks[..n] == checks[..n - 1] + [checks[n - 1]];
      MissingStep(checks[..n - 1], checks[n - 1]);
    }
  }

  /** The report holds one check per tool, in the order given; its two missing
      lists are exactly the failed required and failed optional checks, in that
      order. */
  lemma ReportChecks(tools: seq<(string, bool)>, probe: Probe)
    ensures var r := ReportOf(tools, probe);
      && |r.tools| == |tools|
      && (forall i :: 0 <= i < |tools| ==> r.tools[i] == CheckTool(tools[i].0, tools[i].1, probe))
      && r.missingRequired == Missing(r.tools, true)
      && r.missingOptional == Missing(r.tools, false)
  {
    var checks := Checks(tools, probe);
    TallyParts(checks, |checks|);
    assert checks[..|checks|] == checks;
  }

  /** The environment is ready exactly when every required tool of the list is
      on the PATH. */
  lemma ReadyExactly(tools: seq<(string, bool)>, probe: Probe)
    ensures ReportOf(tools, probe).IsReady() <==>
      forall i :: 0 <= i < |tools| && tools[i].1 ==> ProgramOf(tools[i].0) in probe
  {
    var r := ReportOf(tools, probe);
    ReportChecks(tools, probe);
    if !r.IsReady() {
      MissingMembers(r.tools, true, r.missingRequired[0]);
    } else {
      forall i | 0 <= i < |tools| && tools[i].1
        ensures ProgramOf(tools[i].0) in probe
      {
        MissingMembers(r.tools, true, tools[i].0);
      }
    }
  }

  /** What `check_for_repo` sees of the repository: the repository
      configuration's dbt switch and which files exist, with the text of
      `pyproject.toml` when there is one. */
  datatype RepoLayout = RepoLayout(dbtEnabled: bool, dbtProjectAtRoot: bool, dbtProjectBelow: bool,
                                   preCommitConfig: bool, packageJson: bool, pyproject: Option<string>,
                                   makefile: bool, dockerfile: bool, dockerCompose: bool)

  predicate NeedsDbt(layout: RepoLayout) {
    layout.dbtEnabled || layout.dbtProjectAtRoot || layout.dbtProjectBelow
  }

  predicate UsesPoetry(layout: RepoLayout) {
    layout.pyproject.Some? && Contains(layout.pyproject.value, "[tool.poetry]")
  }

  /** Whether `check_for_repo` asks for the tool with this flag. */
  predicate Wanted(layout: RepoLayout, t: Tool, required: bool) {
    match t
    case Python => required
    case Pip => required
    case Git => required
    case Dbt => required && NeedsDbt(layout)
    case PreCommit => required && layout.preCommitConfig
    case Node => required && layout.packageJson
    case Npm => required && layout.packageJson
    case Poetry => required && UsesPoetry(layout)
    case Make => !required && layout.makefile
    case Docker => !required && (layout.dockerfile || layout.dockerCompose)
    case Gh => false
  }

  /** The tools `check_for_repo` may add to the list, in the order it adds
      them, each with the flag it gives it. */
  function Candidate(k: nat): (Tool, bool)
    requires k < 10
  {
    if k == 0 then (Python, true)
    else if k == 1 then (Pip, true)
    else if k == 2 then (Git, true)
    else if k == 3 then (Dbt, true)
    else if k == 4 then (PreCommit, true)
    else if k == 5 then (Node, true)
    else if k == 6 then (Npm, true)
    else if k == 7 then (Poetry, true)
    else if k == 8 then (Make, false)
    else (Docker, false)
  }

  /** No tool is a candidate twice. */
  lemma CandidatesDistinct(k: nat, m: nat)
    requires k < m < 10
    ensures Candidate(k).0 != Candidate(m).0
  {
  }

  /** The pair is one of the first `n` candidates. */
  predicate AmongFirst(n: nat, t: Tool, required: bool) {
    exists k :: 0 <= k < n && k < 10 && Candidate(k) == (t, required)
  }

  /** The first `n` candidates the repository calls for, in their order. */
  function Selected(layout: RepoLayout, n: nat): seq<(Tool, bool)>
    requires n <= 10
  {
    if n == 0 then []
    else
      var c := Candidate(n - 1);
      Selected(layout, n - 1) + (if Wanted(layout, c.0, c.1) then [c] else [])
  }

  /** A pair is selected exactly when it is among the candidates and it is
      wanted. */
  lemma {:induction false} SelectedMembers(layout: RepoLayout, n: nat, t: Tool, required: bool)
    requires n <= 10
    ensures (t, required) in Selected(layout, n) <==> AmongFirst(n, t, required) && Wanted(layout, t, required)
  {
    if n > 0 {
      SelectedMembers(layout, n - 1, t, required);
      if AmongFirst(n, t, required) && Candidate(n - 1) != (t, required) {
        var k :| 0 <= k < n && k < 10 && Candidate(k) == (t, required);
        assert AmongFirst(n - 1, t, required);
      }
    }
  }

  /** No tool is selected twice. */
  lemma {:induction false} SelectedDistinct(layout: RepoLayout, n: nat)
    requires n <= 10
    ensures forall i, j :: 0 <= i < j < |Selected(layout, n)| ==> Selected(layout, n)[i].0 != Selected(layout, n)[j].0
  {
    if n > 0 {
      SelectedDistinct(layout, n - 1);
      var s := Selected(layout, n);
      var s0 := Selected(layout, n - 1);
      forall i, j | 0 <= i < j < |s|
        ensures s[i].0 != s[j].0
      {
        assert s[i] == s0[i];
        if j < |s0| {
          assert s[j] == s0[j];
          assert s0[i].0 != s0[j].0;
        } else {
          assert j == |s0| && s == s0 + [Candidate(n - 1)];
          assert s[j] == Candidate(n - 1);
          assert s0[i] in s0;
          SelectedMembers(layout, n - 1, s[i].0, s[i].1);
          var k :| 0 <= k < n - 1 && k < 10 && Candidate(k) == s[i];
          CandidatesDistinct(k, n - 1);
          assert Candidate(k).0 != Candidate(n - 1).0;
        }
      }
    }
  }

  /** Every tool `check_for_repo` can want is a candidate with that flag. */
  lemma WantedIsCandidate(layout: RepoLayout, t: Tool, required: bool)
    requires Wanted(layout, t, required)
    ensures AmongFirst(10, t, required)
  {
    var k := match t
      case Python => 0 case Pip => 1 case Git => 2 case Dbt => 3 case PreCommit => 4
      case Node => 5 case Npm => 6 case Poetry => 7 case Make => 8 case Docker => 9 case Gh => 0;
    assert Candidate(k) == (t, required);
  }

  /** The first three candidates are always selected. */
  lemma SelectedBase(layout: RepoLayout)
    ensures Selected(layout, 3) == [(Python, true), (Pip, true), (Git, true)]
  {
    assert Selected(layout, 1) == [(Python, true)];
    assert Selected(layout, 2) == [(Python, true), (Pip, true)];
  }

  /** Later candidates only add to the end. */
  lemma {:induction false} SelectedPrefix(layout: RepoLayout, m: nat, n: nat)
    requires m <= n <= 10
    ensures |Selected(layout, m)| <= |Selected(layout, n)|
    ensures Selected(layout, n)[..|Selected(layout, m)|] == Selected(layout, m)
    decreases n
  {
    if m < n {
      SelectedPrefix(layout, m, n - 1);
      var a, b := Selected(layout, m), Selected(layout, n - 1);
      assert Selected(layout, n)[..|b|] == b;
      assert Selected(layout, n)[..|a|] == b[..|a|];
    }
  }

  /** The list `check_for_repo` builds begins with python, pip and git as
      required tools, holds a tool with a flag exactly when the repository
      calls for it with that flag (so dbt, wanted for any of three reasons, at
      most once), and names no tool twice. */
  lemma RepoToolsShape(layout: RepoLayout)
    ensures var tools := Selected(layout, 10);
      && |tools| >= 3
      && tools[..3] == [(Python, true), (Pip, true), (Git, true)]
      && (forall t: Tool, required: bool :: (t, required) in tools <==> Wanted(layout, t, required))
      && (forall i, j :: 0 <= i < j < |tools| ==> tools[i].0 != tools[j].0)
  {
    SelectedBase(layout);
    SelectedPrefix(layout, 3, 10);
    forall t: Tool, required: bool
      ensures (t, required) in Selected(layout, 10) <==> Wanted(layout, t, required)
    {
      SelectedMembers(layout, 10, t, required);
      if Wanted(layout, t, required) {
        WantedIsCandidate(layout, t, required);
      }
    }
    SelectedDistinct(layout, 10);
  }

  /** The pair alone when the condition holds, nothing otherwise. */
  function When(c: bool, x: (Tool, bool)): seq<(Tool, bool)> {
    if c then [x] else []
  }

  /** The selection written out candidate by candidate. */
  lemma SelectedSpelled(layout: RepoLayout)
    ensures Selected(layout, 10) ==
      [(Python, true), (Pip, true), (Git, true)]
      + When(NeedsDbt(layout), (Dbt, true))
      + When(layout.preCommitConfig, (PreCommit, true))
      + When(layout.packageJson, (Node, true))
      + When(layout.packageJson, (Npm, true))
      + When(UsesPoetry(layout), (Poetry, true))
      + When(layout.makefile, (Make, false))
      + When(layout.dockerfile || layout.dockerCompose, (Docker, false))
  {
    SelectedBase(layout);
  }

  /** The list of tools `check_for_repo` builds before it calls `check_all`: each
      conditional append adds the next candidate when its file or the
      configuration calls for it. */
  method RepoTools(layout: RepoLayout) returns (tools: seq<(Tool, bool)>)
    ensures tools == Selected(layout, 10)
  {
    tools := [(Python, true), (Pip, true), (Git, true)];
    if layout.dbtEnabled {
      tools := tools + [(Dbt, true)];
    } else if layout.dbtProjectAtRoot {
      tools := tools + [(Dbt, true)];
    } else if layout.dbtProjectBelow {
      tools := tools + [(Dbt, true)];
    }
    assert tools == [(Python, true), (Pip, true), (Git, true)] + When(NeedsDbt(layout), (Dbt, true));
    ghost var t0 := tools;
    if layout.preCommitConfig {
      tools := tools + [(PreCommit, true)];
    }
    assert tools == t0 + When(layout.preCommitConfig, (PreCommit, true));
    t0 := tools;
    if layout.packageJson {
      tools := tools + [(Node, true)];
      tools := tools + [(Npm, true)];
    }
    assert tools == t0 + When(layout.packageJson, (Node, true)) + When(layout.packageJson, (Npm, true));
    t0 := tools;
    if layout.pyproject.Some? {
      var content := layout.pyproject.value;
      if Contains(content, "[tool.poetry]") {
        tools := tools + [(Poetry, true)];
      }
    }
    assert tools == t0 + When(UsesPoetry(layout), (Poetry, true));
    t0 := tools;
    if layout.makefile {
      tools := tools + [(Make, false)];
    }
    assert tools == t0 + When(layout.makefile, (Make, false));
    t0 := tools;
    if layout.dockerfile || layout.dockerCompose {
      tools := tools + [(Docker, false)];
    }
    assert tools == t0 + When(layout.dockerfile || layout.dockerCompose, (Docker, false));
    SelectedSpelled(layout);
  }

  /** The `(name, required)` pairs handed to `check_all`. */
  function Entries(tools: seq<(Tool, bool)>): (entries: seq<(string, bool)>)
    ensures |entries| == |tools|
    ensures forall i :: 0 <= i < |tools| ==> entries[i] == (tools[i].0.Name(), tools[i].1)
  {
    seq(|tools|, i requires 0 <= i < |tools| => (tools[i].0.Name(), tools[i].1))
  }

  /** `check_for_repo`: `check_all` over the tools the repository calls for. */
  method CheckForRepo(layout: RepoLayout, probe: Probe) returns (report: EnvironmentReport)
    ensures var entries := Entries(Selected(layout, 10));
      report == ReportOf(entries, probe)
  {
    var tools := RepoTools(layout);
    report := CheckAll(Some(Entries(tools)), probe);
  }

  /** The report asks about the tool under its name with this flag. */
  predicate Asks(report: EnvironmentReport, t: Tool, required: bool) {
    exists i :: 0 <= i < |report.tools| && report.tools[i].name == t.Name() && report.tools[i].required == required
  }

  /** The report checks each tool of the list under its name and with its flag. */
  lemma ReportNames(tools: seq<(string, bool)>, probe: Probe)
    ensures var r := ReportOf(tools, probe);
      && |r.tools| == |tools|
      && forall i :: 0 <= i < |tools| ==> r.tools[i].name == tools[i].0 && r.tools[i].required == tools[i].1
  {
    ReportChecks(tools, probe);
  }

  /** Two tools with the same name are the same tool. */
  lemma NameInjective(t: Tool, u: Tool)
    requires t.Name() == u.Name()
    ensures t == u
  {
    LookupName(t);
    LookupName(u);
  }

  /** The report on a list of tools asks about exactly the tools of the list,
      each with its flag. */
  lemma ReportAsks(tools: seq<(Tool, bool)>, probe: Probe)
    ensures forall t: Tool, required: bool ::
      Asks(ReportOf(Entries(tools), probe), t, required) <==> (t, required) in tools
  {
    var entries := Entries(tools);
    var report := ReportOf(entries, probe);
    ReportNames(entries, probe);
    forall t: Tool, required: bool
      ensures Asks(report, t, required) <==> (t, required) in tools
    {
      if Asks(report, t, required) {
        var i :| 0 <= i < |report.tools| && report.tools[i].name == t.Name() && report.tools[i].required == required;
        NameInjective(t, tools[i].0);
        assert tools[i] == (t, required);
      }
      if (t, required) in tools {
        var i :| 0 <= i < |tools| && tools[i] == (t, required);
        assert report.tools[i].name == t.Name();
      }
    }
  }

  /** The report for a repository checks python, pip and git first, and checks
      a tool with a flag exactly when the repository calls for it so. */
  lemma RepoReport(layout: RepoLayout, probe: Probe)
    ensures var report := ReportOf(Entries(Selected(layout, 10)), probe);
      && |report.tools| >= 3
      && report.tools[0].name == Python.Name() && report.tools[1].name == Pip.Name()
      && report.tools[2].name == Git.Name()
      && forall t: Tool, required: bool :: Asks(report, t, required) <==> Wanted(layout, t, required)
  {
    var tools := Selected(layout, 10);
    var entries := Entries(tools);
    RepoToolsShape(layout);
    ReportNames(entries, probe);
    ReportAsks(tools, probe);
    assert tools[0] == (Python, true) && tools[1] == (Pip, true) && tools[2] == (Git, true) by {
      assert tools[..3][0] == tools[0] && tools[..3][1] == tools[1] && tools[..3][2] == tools[2];
    }
    assert entries[0].0 == Python.Name() && entries[1].0 == Pip.Name() && entries[2].0 == Git.Name();
  }
}

/** Requirement detection of jira_agent/environment/requirements.py: the
    parser of one `requirements.txt` line, the line loop over a file's
    content, the marking of installed Python packages from `pip3 list`, the
    list of missing packages and the detection of set-up commands. Files are
    given by their content (or their absence), and the output of `pip3 list`
    by the packages it lists. */
module Requirements {
  import opened Strings
  import opened Wrappers

  /** One package requirement (the `Requirement` dataclass). */
  datatype Requirement = Requirement(
    name: string,
    versionSpec: Option<string>,
    installed: bool,
    installedVersion: Option<string>,
    source: string)

  /** The requirements found in a repository (`RepoRequirements`). */
  datatype RepoRequirements = RepoRequirements(
    pythonPackages: seq<Requirement>,
    nodePackages: seq<Requirement>,
    systemPackages: seq<string>,
    setupCommands: seq<string>)
  {
    /** Some Python requirement was found. */
    predicate HasPython()
      ensures HasPython() <==> exists p :: p in pythonPackages
    {
      assert |pythonPackages| > 0 ==> pythonPackages[0] in pythonPackages;
      |pythonPackages| > 0
    }

    /** Some Node.js requirement was found. */
    predicate HasNode()
      ensures HasNode() <==> exists p :: p in nodePackages
    {
      assert |nodePackages| > 0 ==> nodePackages[0] in nodePackages;
      |nodePackages| > 0
    }
  }

  /** A requirement straight from a parsed line: nothing known about it yet. */
  function NewRequirement(name: string, versionSpec: Option<string>, source: string): (r: Requirement)
    ensures r.name == name && r.versionSpec == versionSpec && r.source == source
    ensures !r.installed && r.installedVersion.None?
  {
    Requirement(name, versionSpec, false, None, source)
  }

  // ---------------------------------------------------------------------------
  // One line

  /** Steps one and two of the parser: strip, then cut at the first `#` and
      strip again. */
  function CutComment(line: string): string {
    var t := Strip(line);
    if '#' in t then Strip(t[..IndexOf(t, '#')]) else t
  }

  /** Nothing from the first `#` on is left. */
  lemma CutCommentNoHash(line: string)
    ensures '#' !in CutComment(line)
  {
    var t := Strip(line);
    if '#' in t {
      var u := t[..IndexOf(t, '#')];
      var a := StripSpec(u);
      assert forall i :: 0 <= i < |Strip(u)| ==> Strip(u)[i] == u[a + i];
    }
  }

  /** `\[.*?\]` matches at the start of `s`: a `[` and a later `]` with no line
      break between them (`.` does not match a line break). */
  predicate GroupAtStart(s: string) {
    s != [] && s[0] == '[' && IndexOf(s[1..], ']') < IndexOf(s[1..], '\n')
  }

  /** Step three, `re.sub(r"\[.*?\]", "", line)`: every shortest `[...]` group,
      found left to right, is deleted. */
  function RemoveExtras(s: string): (r: string)
    ensures |r| <= |s|
    decreases |s|
  {
    if s == [] then []
    else if GroupAtStart(s) then RemoveExtras(s[IndexOf(s[1..], ']') + 2..])
    else [s[0]] + RemoveExtras(s[1..])
  }

  /** In `s`, a `]` comes before any line break. */
  predicate ClosesFirst(s: string) {
    IndexOf(s, ']') < IndexOf(s, '\n')
  }

  /** No `[...]` group is left for the expression to delete. */
  predicate NoGroups(s: string) {
    forall i :: 0 <= i < |s| && s[i] == '[' ==> !ClosesFirst(s[i + 1..])
  }

  /** A character other than `]` and a line break in front changes nothing. */
  lemma ClosesFirstCons(c: char, s: string)
    requires c != ']' && c != '\n'
    ensures ClosesFirst([c] + s) == ClosesFirst(s)
  {
    assert ([c] + s)[1..] == s;
  }

  /** Deleting groups never brings a `]` before the first line break. */
  lemma {:induction false} RemoveExtrasKeepsOpen(s: string)
    requires !ClosesFirst(s)
    ensures !ClosesFirst(RemoveExtras(s))
    decreases |s|
  {
    if s != [] {
      if s[0] == '[' {
        assert s == [s[0]] + s[1..];
        ClosesFirstCons(s[0], s[1..]);
      }
      assert !GroupAtStart(s);
      var rest := RemoveExtras(s[1..]);
      assert RemoveExtras(s) == [s[0]] + rest;
      if s[0] == '\n' {
        assert IndexOf([s[0]] + rest, '\n') == 0;
      } else {
        assert s[0] != ']';
        ClosesFirstCons(s[0], s[1..]);
        assert s == [s[0]] + s[1..];
        RemoveExtrasKeepsOpen(s[1..]);
        ClosesFirstCons(s[0], rest);
      }
    }
  }

  /** After the substitution no group is left. */
  lemma {:induction false} RemoveExtrasComplete(s: string)
    ensures NoGroups(RemoveExtras(s))
    decreases |s|
  {
    if s == [] {
    } else if GroupAtStart(s) {
      RemoveExtrasComplete(s[IndexOf(s[1..], ']') + 2..]);
    } else {
      var rest := RemoveExtras(s[1..]);
      var r := [s[0]] + rest;
      assert RemoveExtras(s) == r;
      RemoveExtrasComplete(s[1..]);
      forall i | 0 <= i < |r| && r[i] == '['
        ensures !ClosesFirst(r[i + 1..])
      {
        if i == 0 {
          assert r[1..] == rest;
          RemoveExtrasKeepsOpen(s[1..]);
        } else {
          assert r[i + 1..] == rest[i..];
          assert rest[i - 1] == '[';
        }
      }
    }
  }

  /** A line without groups goes through unchanged. */
  lemma {:induction false} RemoveExtrasNoGroups(s: string)
    requires NoGroups(s)
    ensures RemoveExtras(s) == s
    decreases |s|
  {
    if s != [] {
      assert !GroupAtStart(s);
      assert NoGroups(s[1..]) by {
        forall i | 0 <= i < |s[1..]| && s[1..][i] == '['
          ensures !ClosesFirst(s[1..][i + 1..])
        {
          assert s[1..][i + 1..] == s[i + 2..];
        }
      }
      RemoveExtrasNoGroups(s[1..]);
      assert s == [s[0]] + s[1..];
    }
  }

  /** `[a-zA-Z0-9_-]`. */
  predicate IsNameChar(c: char) {
    IsAsciiLetter(c) || IsDigit(c) || c == '_' || c == '-'
  }

  /** `[<>=!~]`. */
  predicate IsOperator(c: char) {
    c == '<' || c == '>' || c == '=' || c == '!' || c == '~'
  }

  /** Where the run of name characters from `j` on ends. */
  function NameEnd(s: string, j: nat): (e: nat)
    requires j <= |s|
    ensures j <= e <= |s|
    decreases |s| - j
  {
    if j < |s| && IsNameChar(s[j]) then NameEnd(s, j + 1) else j
  }

  /** The run is a maximal one. */
  lemma {:induction false} NameEndRun(s: string, j: nat)
    requires j <= |s|
    ensures var e := NameEnd(s, j);
      (forall k :: j <= k < e ==> IsNameChar(s[k])) && (e == |s| || !IsNameChar(s[e]))
    decreases |s| - j
  {
    if j < |s| && IsNameChar(s[j]) {
      NameEndRun(s, j + 1);
    }
  }

  /** Where the run of whitespace (`\s`) from `j` on ends. */
  function SpaceEnd(s: string, j: nat): (e: nat)
    requires j <= |s|
    ensures j <= e <= |s|
    decreases |s| - j
  {
    if j < |s| && IsSpace(s[j]) then SpaceEnd(s, j + 1) else j
  }

  /** The run is a maximal one. */
  lemma {:induction false} SpaceEndRun(s: string, j: nat)
    requires j <= |s|
    ensures var e := SpaceEnd(s, j);
      (forall k :: j <= k < e ==> IsSpace(s[k])) && (e == |s| || !IsSpace(s[e]))
    decreases |s| - j
  {
    if j < |s| && IsSpace(s[j]) {
      SpaceEndRun(s, j + 1);
    }
  }

  /** What `([<>=!~].*)?$` leaves of a specifier for group 2: `$` also matches
      in front of a final line break, which the group then does not hold. */
  function Group2(spec: string): string {
    if spec != [] && spec[|spec| - 1] == '\n' then spec[..|spec| - 1] else spec
  }

  /** Step four, `re.match(r"^([a-zA-Z0-9_-]+)\s*([<>=!~].*)?$", line)`: the
      name and the stripped version specifier, if the line matches. */
  function MatchNameSpec(c: string): Option<(string, Option<string>)> {
    var n := NameEnd(c, 0);
    var k := SpaceEnd(c, n);
    if n == 0 then None
    else if k == |c| then Some((c[..n], None))
    else if IsOperator(c[k]) && '\n' !in Group2(c[k..]) then Some((c[..n], Some(Strip(Group2(c[k..])))))
    else None
  }

  /** `_parse_requirement_line(line, source)`. */
  function ParseRequirementLine(line: string, source: string): (r: Option<Requirement>)
    ensures CutComment(line) == "" ==> r.None?
    ensures r.Some? ==> r.value.source == source && r.value.name != [] && !r.value.installed
  {
    var cut := CutComment(line);
    if cut == "" then None
    else
      match MatchNameSpec(RemoveExtras(cut))
      case None => None
      case Some((name, spec)) => Some(NewRequirement(name, spec, source))
  }

  /** The text the name pattern is matched against. */
  function Cleaned(line: string): string {
    RemoveExtras(CutComment(line))
  }

  /** Independent description of a matching line: a non-empty name, some
      whitespace, and either nothing or a specifier that starts with an
      operator and holds no line break except perhaps a final one. */
  predicate LineShape(c: string, name: string, ws: string, spec: string) {
    && c == name + ws + spec
    && name != []
    && (forall i :: 0 <= i < |name| ==> IsNameChar(name[i]))
    && (forall i :: 0 <= i < |ws| ==> IsSpace(ws[i]))
    && (spec == [] || (IsOperator(spec[0]) && '\n' !in Group2(spec)))
  }

  /** The version specifier recorded for the shape's specifier part. */
  function SpecOf(spec: string): Option<string> {
    if spec == [] then None else Some(Strip(Group2(spec)))
  }

  /** A line that is empty once stripped and cut at `#` gives no requirement. */
  lemma EmptyLineNone(line: string, source: string)
    requires CutComment(line) == ""
    ensures ParseRequirementLine(line, source).None?
  {
  }

  /** A maximal run of name characters from `j` to `e` is the one found. */
  lemma {:induction false} NameEndAt(s: string, j: nat, e: nat)
    requires j <= e <= |s|
    requires forall k :: j <= k < e ==> IsNameChar(s[k])
    requires e == |s| || !IsNameChar(s[e])
    ensures NameEnd(s, j) == e
    decreases e - j
  {
    if j < e {
      NameEndAt(s, j + 1, e);
    }
  }

  /** A maximal run of whitespace from `j` to `e` is the one found. */
  lemma {:induction false} SpaceEndAt(s: string, j: nat, e: nat)
    requires j <= e <= |s|
    requires forall k :: j <= k < e ==> IsSpace(s[k])
    requires e == |s| || !IsSpace(s[e])
    ensures SpaceEnd(s, j) == e
    decreases e - j
  {
    if j < e {
      SpaceEndAt(s, j + 1, e);
    }
  }

  /** The name pattern finds the name and the specifier of every line of that
      shape. */
  lemma MatchComplete(c: string, name: string, ws: string, spec: string)
    requires LineShape(c, name, ws, spec)
    ensures MatchNameSpec(c) == Some((name, SpecOf(spec)))
  {
    var n := |name|;
    var k := |name| + |ws|;
    assert forall i :: 0 <= i < n ==> c[i] == name[i];
    assert forall i :: n <= i < k ==> c[i] == ws[i - n];
    assert c[..n] == name;
    assert c[k..] == spec;
    assert spec != [] ==> c[k] == spec[0];
    assert ws != [] ==> IsSpace(c[n]);
    NameEndAt(c, 0, n);
    SpaceEndAt(c, n, k);
  }

  /** Every line of the matching shape gives the requirement with that name
      and specifier, with the source passed in and nothing known installed. */
  lemma ParseLineComplete(line: string, source: string, name: string, ws: string, spec: string)
    requires LineShape(Cleaned(line), name, ws, spec)
    ensures ParseRequirementLine(line, source) == Some(NewRequirement(name, SpecOf(spec), source))
  {
    MatchComplete(Cleaned(line), name, ws, spec);
  }

  /** Every requirement the parser returns comes from a line of that shape. */
  lemma ParseLineSound(line: string, source: string)
    requires ParseRequirementLine(line, source).Some?
    ensures var r := ParseRequirementLine(line, source).value;
      var c := Cleaned(line);
      && r == NewRequirement(r.name, r.versionSpec, source)
      && exists k :: |r.name| <= k <= |c| && LineShape(c, r.name, c[|r.name|..k], c[k..]) && r.versionSpec == SpecOf(c[k..])
  {
    var k := MatchSound(Cleaned(line));
  }

  /** What the name pattern matches has that shape, split at the end of the
      name and at the end of the whitespace after it. */
  lemma MatchSound(c: string) returns (k: nat)
    requires MatchNameSpec(c).Some?
    ensures var name := MatchNameSpec(c).value.0;
      && |name| <= k <= |c|
      && LineShape(c, name, c[|name|..k], c[k..])
      && MatchNameSpec(c).value.1 == SpecOf(c[k..])
  {
    var n := NameEnd(c, 0);
    k := SpaceEnd(c, n);
    NameEndRun(c, 0);
    SpaceEndRun(c, n);
    var name, ws, spec := c[..n], c[n..k], c[k..];
    assert forall i :: 0 <= i < |name| ==> name[i] == c[i];
    assert forall i :: 0 <= i < |ws| ==> ws[i] == c[n + i];
    assert k < |c| ==> spec[0] == c[k];
    assert c == name + ws + spec;
  }

  /** So the parser fails exactly on the lines of no such shape. */
  lemma ParseLineNone(line: string, source: string, name: string, ws: string, spec: string)
    requires ParseRequirementLine(line, source).None?
    ensures !LineShape(Cleaned(line), name, ws, spec)
  {
    if LineShape(Cleaned(line), name, ws, spec) {
      ParseLineComplete(line, source, name, ws, spec);
    }
  }

  // ---------------------------------------------------------------------------
  // The line loop over one file

  /** The lines of a file that are handed to the line parser: not blank, not a
      comment, not an option such as `-r base.txt` or `--index-url`. */
  predicate Kept(line: string) {
    var l := Strip(line);
    !(l == "" || StartsWith(l, "#") || StartsWith(l, "-r") || StartsWith(l, "--"))
  }

  /** What one line of a file contributes: the requirement the parser reads
      from the stripped line, if it is kept and parses. */
  function LineOutcome(line: string, source: string): Option<Requirement> {
    if Kept(line) then ParseRequirementLine(Strip(line), source) else None
  }

  /** The outcome of every line. */
  function Outcomes(lines: seq<string>, source: string): (outs: seq<Option<Requirement>>)
    ensures |outs| == |lines|
  {
    seq(|lines|, i requires 0 <= i < |lines| => LineOutcome(lines[i], source))
  }

  /** The requirements among the first `n` outcomes, in order. */
  function Somes(outs: seq<Option<Requirement>>, n: nat): seq<Requirement>
    requires n <= |outs|
  {
    if n == 0 then [] else Somes(outs, n - 1) + (if outs[n - 1].Some? then [outs[n - 1].value] else [])
  }

  /** Some outcome among the first `n` is `r`. */
  predicate Among(outs: seq<Option<Requirement>>, n: nat, r: Requirement)
    requires n <= |outs|
  {
    exists i :: 0 <= i < n && outs[i] == Some(r)
  }

  /** A requirement is collected exactly when one of the outcomes holds it. */
  lemma {:induction false} SomesMembers(outs: seq<Option<Requirement>>, n: nat, r: Requirement)
    requires n <= |outs|
    ensures r in Somes(outs, n) <==> Among(outs, n, r)
  {
    if n > 0 {
      SomesMembers(outs, n - 1, r);
      var prev := Somes(outs, n - 1);
      var extra := if outs[n - 1].Some? then [outs[n - 1].value] else [];
      assert Somes(outs, n) == prev + extra;
      if Among(outs, n, r) {
        var i :| 0 <= i < n && outs[i] == Some(r);
        if i < n - 1 {
          assert Among(outs, n - 1, r);
        }
      }
      if r in prev {
        var i :| 0 <= i < n - 1 && outs[i] == Some(r);
        assert Among(outs, n, r);
      } else if r in extra {
        assert outs[n - 1] == Some(r);
      }
    }
  }

  /** The requirements of a file's content. */
  function ContentReqs(content: string, source: string): seq<Requirement> {
    var lines := Split(content, '\n');
    Somes(Outcomes(lines, source), |lines|)
  }

  /** A requirement is found in a file exactly when a kept line of it parses to
      that requirement. */
  lemma ContentReqsMembers(content: string, source: string, r: Requirement)
    ensures var lines := Split(content, '\n');
      r in ContentReqs(content, source) <==>
        exists i :: 0 <= i < |lines| && Kept(lines[i]) && ParseRequirementLine(Strip(lines[i]), source) == Some(r)
  {
    var lines := Split(content, '\n');
    var outs := Outcomes(lines, source);
    SomesMembers(outs, |lines|, r);
    assert forall i :: 0 <= i < |lines| ==> outs[i] == LineOutcome(lines[i], source);
  }

  /** Stripping the line first, as the loop does, changes nothing for the
      parser, which strips it itself. */
  lemma ParseStripped(line: string, source: string)
    ensures ParseRequirementLine(Strip(line), source) == ParseRequirementLine(line, source)
  {
    StripTwice(line);
  }

  /** The parser hands back the source it is given and marks nothing installed. */
  lemma ParseLineFresh(line: string, source: string)
    requires ParseRequirementLine(line, source).Some?
    ensures ParseRequirementLine(line, source).value.source == source
    ensures !ParseRequirementLine(line, source).value.installed
  {
  }

  /** Each requirement found in a file carries the file it came from and is not
      yet known to be installed. */
  lemma ContentReqsFresh(content: string, source: string, r: Requirement)
    requires r in ContentReqs(content, source)
    ensures r.source == source && !r.installed
  {
    var lines := Split(content, '\n');
    ContentReqsMembers(content, source, r);
    var i :| 0 <= i < |lines| && Kept(lines[i]) && ParseRequirementLine(Strip(lines[i]), source) == Some(r);
    ParseLineFresh(Strip(lines[i]), source);
  }

  /** The loop `for line in content.split("\n")` of `_parse_requirements_txt`. */
  method ParseContent(content: string, source: string) returns (reqs: seq<Requirement>)
    ensures reqs == ContentReqs(content, source)
  {
    var lines := Split(content, '\n');
    reqs := [];
    ghost var outs := Outcomes(lines, source);
    for i := 0 to |lines|
      invariant reqs == Somes(outs, i)
    {
      var line := Strip(lines[i]);
      if line == "" || StartsWith(line, "#") {
        continue;
      }
      if StartsWith(line, "-r") || StartsWith(line, "--") {
        continue;
      }
      var req := ParseRequirementLine(line, source);
      if req.Some? {
        reqs := reqs + [req.value];
      }
    }
  }

  /** The files `_parse_requirements_txt` looks at, in order, relative to the
      repository root. */
  const RequirementFiles: seq<string> :=
    ["requirements.txt", "requirements/base.txt", "requirements/dev.txt", "requirements-dev.txt"]

  /** The requirements of the first `n` of those files; `files` maps the ones
      that exist to their content. */
  function FilesReqs(files: map<string, string>, n: nat): seq<Requirement>
    requires n <= |RequirementFiles|
  {
    if n == 0 then []
    else
      var path := RequirementFiles[n - 1];
      var more := if path in files then ContentReqs(files[path], path) else [];
      FilesReqs(files, n - 1) + more
  }

  /** `_parse_requirements_txt`: the files' requirements, file after file. */
  method ParseRequirementsTxt(files: map<string, string>) returns (reqs: seq<Requirement>)
    ensures reqs == FilesReqs(files, |RequirementFiles|)
  {
    reqs := [];
    for i := 0 to |RequirementFiles|
      invariant reqs == FilesReqs(files, i)
    {
      var path := RequirementFiles[i];
      FilesReqsAbsent(files, i);
      if path !in files {
        continue;
      }
      var found := ParseContent(files[path], path);
      reqs := reqs + found;
    }
  }

  /** A file that does not exist contributes nothing, and one that does
      contributes its own requirements after those of the files before it. */
  lemma FilesReqsAbsent(files: map<string, string>, n: nat)
    requires n < |RequirementFiles|
    ensures RequirementFiles[n] !in files ==> FilesReqs(files, n + 1) == FilesReqs(files, n)
    ensures var path := RequirementFiles[n];
      path in files ==>
        FilesReqs(files, n + 1) == FilesReqs(files, n) + ContentReqs(files[path], path)
  {
    assert FilesReqs(files, n) + [] == FilesReqs(files, n);
  }

  // ---------------------------------------------------------------------------
  // Installed packages

  /** One entry of `pip3 list --format=json`. */
  datatype PipPackage = PipPackage(name: string, version: string)

  /** `{pkg["name"].lower(): pkg["version"] for pkg in packages}`; a later entry
      overwrites an earlier one with the same lower-cased name. */
  function InstalledMap(packages: seq<PipPackage>): map<string, string> {
    if packages == [] then map[]
    else
      var last := packages[|packages| - 1];
      InstalledMap(packages[..|packages| - 1])[Lower(last.name) := last.version]
  }

  /** The map's keys are the lower-cased names listed, and each maps to the
      version of the last entry with that name. */
  lemma {:induction false} InstalledMapEntries(packages: seq<PipPackage>, i: nat)
    requires i < |packages|
    requires forall j :: i < j < |packages| ==> Lower(packages[j].name) != Lower(packages[i].name)
    ensures Lower(packages[i].name) in InstalledMap(packages)
    ensures InstalledMap(packages)[Lower(packages[i].name)] == packages[i].version
  {
    var front := packages[..|packages| - 1];
    if i < |packages| - 1 {
      InstalledMapEntries(front, i);
    }
  }

  /** No other key appears in the map. */
  lemma {:induction false} InstalledMapKeys(packages: seq<PipPackage>, key: string)
    requires key in InstalledMap(packages)
    ensures exists j :: 0 <= j < |packages| && Lower(packages[j].name) == key
  {
    var last := packages[|packages| - 1];
    var front := packages[..|packages| - 1];
    if key != Lower(last.name) {
      InstalledMapKeys(front, key);
      var j :| 0 <= j < |front| && Lower(front[j].name) == key;
      assert packages[j] == front[j];
    }
  }

  /** One requirement after the check: marked installed, with the version pip
      reports, when its lower-cased name is installed. */
  function Marked(r: Requirement, installed: map<string, string>): (m: Requirement)
    ensures m.name == r.name && m.versionSpec == r.versionSpec && m.source == r.source
    ensures Lower(r.name) in installed ==> m.installed && m.installedVersion == Some(installed[Lower(r.name)])
    ensures Lower(r.name) !in installed ==> m == r
  {
    if Lower(r.name) in installed then r.(installed := true, installedVersion := Some(installed[Lower(r.name)])) else r
  }

  /** `_check_installed_python`: `pipList` is None when `pip3 list` fails,
      exits non-zero or prints something unreadable, and then nothing changes. */
  method CheckInstalledPython(reqs: array<Requirement>, pipList: Option<seq<PipPackage>>)
    modifies reqs
    ensures pipList.None? ==> reqs[..] == old(reqs[..])
    ensures pipList.Some? ==>
      forall i :: 0 <= i < reqs.Length ==> reqs[i] == Marked(old(reqs[i]), InstalledMap(pipList.value))
  {
    if pipList.None? {
      return;
    }
    var installed := InstalledMap(pipList.value);
    for i := 0 to reqs.Length
      invariant forall j :: 0 <= j < i ==> reqs[j] == Marked(old(reqs[j]), installed)
      invariant forall j :: i <= j < reqs.Length ==> reqs[j] == old(reqs[j])
    {
      var nameLower := Lower(reqs[i].name);
      if nameLower in installed {
        reqs[i] := reqs[i].(installed := true, installedVersion := Some(installed[nameLower]));
      }
    }
  }

  /** `[r for r in reqs if not r.installed]`. */
  function NotInstalled(reqs: seq<Requirement>): (missing: seq<Requirement>)
    ensures |missing| <= |reqs|
  {
    if reqs == [] then []
    else (if reqs[0].installed then [] else [reqs[0]]) + NotInstalled(reqs[1..])
  }

  /** The filter keeps exactly the requirements not installed. */
  lemma {:induction false} NotInstalledMembers(reqs: seq<Requirement>, r: Requirement)
    ensures r in NotInstalled(reqs) <==> r in reqs && !r.installed
  {
    if reqs != [] {
      NotInstalledMembers(reqs[1..], r);
      assert reqs == [reqs[0]] + reqs[1..];
    }
  }

  /** The filter keeps the order: filtering a concatenation filters each part. */
  lemma {:induction false} NotInstalledAppend(a: seq<Requirement>, b: seq<Requirement>)
    ensures NotInstalled(a + b) == NotInstalled(a) + NotInstalled(b)
  {
    if a == [] {
      assert a + b == b;
    } else {
      var head := if a[0].installed then [] else [a[0]];
      assert (a + b)[0] == a[0];
      assert (a + b)[1..] == a[1..] + b;
      NotInstalledAppend(a[1..], b);
      assert NotInstalled(a + b) == head + (NotInstalled(a[1..]) + NotInstalled(b));
      assert head + (NotInstalled(a[1..]) + NotInstalled(b)) == (head + NotInstalled(a[1..])) + NotInstalled(b);
    }
  }

  /** `get_missing_packages` on the requirements of one repository. */
  function GetMissingPackages(reqs: RepoRequirements): (missing: (seq<Requirement>, seq<Requirement>))
    ensures |missing.0| <= |reqs.pythonPackages| && |missing.1| <= |reqs.nodePackages|
    ensures !reqs.HasPython() ==> missing.0 == []
    ensures !reqs.HasNode() ==> missing.1 == []
  {
    (NotInstalled(reqs.pythonPackages), NotInstalled(reqs.nodePackages))
  }

  /** The missing Python packages are exactly the listed ones not installed,
      and the same for Node packages. */
  lemma MissingPackages(reqs: RepoRequirements, p: Requirement)
    ensures p in GetMissingPackages(reqs).0 <==> p in reqs.pythonPackages && !p.installed
    ensures p in GetMissingPackages(reqs).1 <==> p in reqs.nodePackages && !p.installed
  {
    NotInstalledMembers(reqs.pythonPackages, p);
    NotInstalledMembers(reqs.nodePackages, p);
  }

  // ---------------------------------------------------------------------------
  // Set-up commands

  /** What `_detect_setup_commands` learns from the repository's files:
      the content of `Makefile` and `pyproject.toml` when they exist, whether
      the other files exist, and whether any `dbt_project.yml` lies below the
      root. */
  datatype RepoFiles = RepoFiles(
    makefile: Option<string>,
    pyproject: Option<string>,
    requirementsTxt: bool,
    packageJson: bool,
    yarnLock: bool,
    preCommitConfig: bool,
    dbtProject: bool)

  /** `re.search(r"^(setup|install|init):", content, re.MULTILINE)`: some line
      starts with one of the three targets. */
  predicate HasSetupTarget(content: string) {
    exists line :: line in Split(content, '\n') &&
      (StartsWith(line, "setup:") || StartsWith(line, "install:") || StartsWith(line, "init:"))
  }

  predicate MakeSetupTarget(f: RepoFiles) { f.makefile.Some? && HasSetupTarget(f.makefile.value) }

  predicate PoetryProject(f: RepoFiles) { f.pyproject.Some? && Contains(f.pyproject.value, "[tool.poetry]") }

  /** The set-up commands `_detect_setup_commands` can emit, in the order it
      emits them. */
  datatype SetupCommand = MakeSetup | PoetryInstall | PipInstallRequirements | YarnInstall
                        | NpmInstall | PreCommitInstall | DbtDeps
  {
    /** The command line as it appears in `setup_commands`. */
    function Text(): string {
      match this
      case MakeSetup => "make setup"
      case PoetryInstall => "poetry install"
      case PipInstallRequirements => "pip install -r requirements.txt"
      case YarnInstall => "yarn install"
      case NpmInstall => "npm install"
      case PreCommitInstall => "pre-commit install"
      case DbtDeps => "dbt deps"
    }

    /** The command's place in the order of emission. */
    function Rank(): nat {
      match this
      case MakeSetup => 0
      case PoetryInstall => 1
      case PipInstallRequirements => 2
      case YarnInstall => 3
      case NpmInstall => 4
      case PreCommitInstall => 5
      case DbtDeps => 6
    }
  }

  /** The command lines of a list of commands. */
  function Texts(commands: seq<SetupCommand>): (texts: seq<string>)
    ensures |texts| == |commands| && forall i :: 0 <= i < |commands| ==> texts[i] == commands[i].Text()
  {
    seq(|commands|, i requires 0 <= i < |commands| => commands[i].Text())
  }

  /** The commands appear in the order of emission. */
  predicate Ranked(commands: seq<SetupCommand>) {
    forall i, j :: 0 <= i < j < |commands| ==> commands[i].Rank() < commands[j].Rank()
  }

  /** Appending a command that ranks after all the others keeps the order. */
  lemma AppendRanked(commands: seq<SetupCommand>, c: SetupCommand)
    requires Ranked(commands) && forall d :: d in commands ==> d.Rank() < c.Rank()
    ensures Ranked(commands + [c])
    ensures forall d :: d in commands + [c] ==> d.Rank() <= c.Rank()
  {
    forall i, j | 0 <= i < j < |commands + [c]|
      ensures (commands + [c])[i].Rank() < (commands + [c])[j].Rank()
    {
      assert (commands + [c])[i] == commands[i] && commands[i] in commands;
    }
  }

  /** `[c]` when the condition holds, nothing otherwise. */
  function When(cond: bool, c: SetupCommand): (cs: seq<SetupCommand>)
    ensures forall d :: d in cs <==> cond && d == c
  {
    if cond then [c] else []
  }

  /** `_detect_setup_commands`; the command lines are `Texts(commands)`. Each
      check appends its command when its file condition holds. */
  method DetectSetupCommands(f: RepoFiles) returns (commands: seq<SetupCommand>)
    ensures MakeSetup in commands <==> MakeSetupTarget(f)
    ensures PoetryInstall in commands <==> PoetryProject(f)
    ensures PipInstallRequirements in commands <==> f.requirementsTxt
    ensures YarnInstall in commands <==> f.packageJson && f.yarnLock
    ensures NpmInstall in commands <==> f.packageJson && !f.yarnLock
    ensures PreCommitInstall in commands <==> f.preCommitConfig
    ensures DbtDeps in commands <==> f.dbtProject
    ensures !(YarnInstall in commands && NpmInstall in commands)
    ensures Ranked(commands)
  {
    var makeSetup := MakeSetupTarget(f);
    var poetry := PoetryProject(f);
    commands := When(makeSetup, MakeSetup);
    commands := commands + When(poetry, PoetryInstall);
    commands := commands + When(f.requirementsTxt, PipInstallRequirements);
    commands := commands + When(f.packageJson && f.yarnLock, YarnInstall);
    commands := commands + When(f.packageJson && !f.yarnLock, NpmInstall);
    commands := commands + When(f.preCommitConfig, PreCommitInstall);
    commands := commands + When(f.dbtProject, DbtDeps);
    RankedWhens(makeSetup, poetry, f.requirementsTxt, f.packageJson && f.yarnLock,
                f.packageJson && !f.yarnLock, f.preCommitConfig, f.dbtProject);
    WhensMembers(makeSetup, poetry, f.requirementsTxt, f.packageJson && f.yarnLock,
                 f.packageJson && !f.yarnLock, f.preCommitConfig, f.dbtProject, MakeSetup);
    WhensMembers(makeSetup, poetry, f.requirementsTxt, f.packageJson && f.yarnLock,
                 f.packageJson && !f.yarnLock, f.preCommitConfig, f.dbtProject, PoetryInstall);
    WhensMembers(makeSetup, poetry, f.requirementsTxt, f.packageJson && f.yarnLock,
                 f.packageJson && !f.yarnLock, f.preCommitConfig, f.dbtProject, PipInstallRequirements);
    WhensMembers(makeSetup, poetry, f.requirementsTxt, f.packageJson && f.yarnLock,
                 f.packageJson && !f.yarnLock, f.preCommitConfig, f.dbtProject, YarnInstall);
    WhensMembers(makeSetup, poetry, f.requirementsTxt, f.packageJson && f.yarnLock,
                 f.packageJson && !f.yarnLock, f.preCommitConfig, f.dbtProject, NpmInstall);
    WhensMembers(makeSetup, poetry, f.requirementsTxt, f.packageJson && f.yarnLock,
                 f.packageJson && !f.yarnLock, f.preCommitConfig, f.dbtProject, PreCommitInstall);
    WhensMembers(makeSetup, poetry, f.requirementsTxt, f.packageJson && f.yarnLock,
                 f.packageJson && !f.yarnLock, f.preCommitConfig, f.dbtProject, DbtDeps);
  }

  /** A command is among the seven optional ones exactly when its condition
      holds. */
  lemma WhensMembers(b0: bool, b1: bool, b2: bool, b3: bool, b4: bool, b5: bool, b6: bool, d: SetupCommand)
    ensures d in When(b0, MakeSetup) + When(b1, PoetryInstall) + When(b2, PipInstallRequirements)
                 + When(b3, YarnInstall) + When(b4, NpmInstall) + When(b5, PreCommitInstall) + When(b6, DbtDeps)
      <==> match d
           case MakeSetup => b0
           case PoetryInstall => b1
           case PipInstallRequirements => b2
           case YarnInstall => b3
           case NpmInstall => b4
           case PreCommitInstall => b5
           case DbtDeps => b6
  {
    var c0 := When(b0, MakeSetup);
    var c1 := c0 + When(b1, PoetryInstall);
    var c2 := c1 + When(b2, PipInstallRequirements);
    var c3 := c2 + When(b3, YarnInstall);
    var c4 := c3 + When(b4, NpmInstall);
    var c5 := c4 + When(b5, PreCommitInstall);
    var c6 := c5 + When(b6, DbtDeps);
    assert d in c1 <==> d in c0 || d in When(b1, PoetryInstall);
    assert d in c2 <==> d in c1 || d in When(b2, PipInstallRequirements);
    assert d in c3 <==> d in c2 || d in When(b3, YarnInstall);
    assert d in c4 <==> d in c3 || d in When(b4, NpmInstall);
    assert d in c5 <==> d in c4 || d in When(b5, PreCommitInstall);
    assert d in c6 <==> d in c5 || d in When(b6, DbtDeps);
  }

  /** The seven optional commands in their order of emission are ranked. */
  lemma RankedWhens(b0: bool, b1: bool, b2: bool, b3: bool, b4: bool, b5: bool, b6: bool)
    ensures Ranked(When(b0, MakeSetup) + When(b1, PoetryInstall) + When(b2, PipInstallRequirements)
                   + When(b3, YarnInstall) + When(b4, NpmInstall) + When(b5, PreCommitInstall) + When(b6, DbtDeps))
  {
    var cs: seq<SetupCommand> := [];
    var c0 := When(b0, MakeSetup);
    AppendWhen(cs, b0, MakeSetup);
    assert cs + c0 == c0;
    var c1 := c0 + When(b1, PoetryInstall);
    AppendWhen(c0, b1, PoetryInstall);
    var c2 := c1 + When(b2, PipInstallRequirements);
    AppendWhen(c1, b2, PipInstallRequirements);
    var c3 := c2 + When(b3, YarnInstall);
    AppendWhen(c2, b3, YarnInstall);
    var c4 := c3 + When(b4, NpmInstall);
    AppendWhen(c3, b4, NpmInstall);
    var c5 := c4 + When(b5, PreCommitInstall);
    AppendWhen(c4, b5, PreCommitInstall);
    AppendWhen(c5, b6, DbtDeps);
  }

  /** An optional command that ranks after all the others keeps the order. */
  lemma AppendWhen(commands: seq<SetupCommand>, cond: bool, c: SetupCommand)
    requires Ranked(commands) && forall d :: d in commands ==> d.Rank() < c.Rank()
    ensures Ranked(commands + When(cond, c))
    ensures forall d :: d in commands + When(cond, c) ==> d.Rank() <= c.Rank()
  {
    if cond {
      AppendRanked(commands, c);
    } else {
      assert commands + When(cond, c) == commands;
    }
  }

  /** Ranks follow one another strictly, so no command is emitted twice. */
  lemma RankedDistinct(commands: seq<SetupCommand>)
    requires Ranked(commands)
    ensures forall i, j :: 0 <= i < j < |commands| ==> commands[i] != commands[j]
  {
  }
}

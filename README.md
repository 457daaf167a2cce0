# jira-agent core, modelled in Dafny

This project models the core of jira-agent, a command-line agent that picks up
Jira tickets, opens GitHub pull requests for them, watches those pull requests,
and prepares a repository's tool chain before it works on it. The model covers
the parts of its logic that decide something:

- **PR tracker** (`pr_tracker.dfy`, module `PrTracker`). This is the dictionary of
  tracked pull requests, keyed by `repo#number`, together with its update, listing,
  removal and clean-up operations. It is a class whose fields are the dictionary
  and its insertion order.
- **Watch loop** (`watch.dfy`, module `Watch`). One poll of `watch` goes through
  the tickets in the trigger status, then through the merged pull requests. The
  in-flight ticket set and the handled-PR set live in a class `Watcher`.
  The answers of the ticket processor and of the transition call are given per
  call, by the position of the item in the poll's list, so two PRs naming the
  same ticket may get different answers. Properties about whole runs are proved
  over the fold of polls.
- **Ticket correlator** (`correlator.dfy`, module `Correlator`). This is the
  `\b(KEY-\d+)\b` case-insensitive search over `"{title} {branch}"`, modelled as
  leftmost-match semantics.
- **Command-line helpers** (`cli.dfy`, module `Cli`). These cover truncation of
  summaries and titles, the status icon and exit code, and the `owner/name`
  split of `init-config`.
- **Requirement detection** (`requirements.dfy`, module `Requirements`). This
  covers:
  - the requirement-line parser;
  - the `requirements.txt` files loop;
  - marking packages installed from a `pip3 list`;
  - the missing-package filter;
  - set-up command detection.
- **Environment checker** (`checker.dfy`, module `Checker`). This covers
  `check_tool` against a PATH probe, `check_all`, the report's readiness and
  summary, and the tool list `check_for_repo` builds from a repository's files.
- **Installer** (`installer.dfy`, module `Installer`). This covers:
  - the pip3/poetry/npm/yarn/system command lines;
  - the mapping of a subprocess outcome to an `InstallResult`;
  - `install_repo_requirements` with its suppression flags and result order;
  - the success rule of `setup_environment`.
- **Learning records** (`learning.dfy`, module `Learning`). This covers the
  categorisation of failure types, the normalisation behind the deduplication
  id, and the learning built from a verified fix.

Two modules support the rest. `strings.dfy` (module `Strings`) holds Python's
`strip` with the `str.isspace` character set, ASCII `lower`/`upper`, the
substring test, `split`/`join`, and integer formatting and parsing.
`wrappers.dfy` (module `Wrappers`) holds `Option`.

The outside world is passed in as parameters:

- the process runner's outcome (`RunOutcome`);
- the programs found on the PATH (`Probe`);
- the files present in a repository (`RepoFiles`, `RepoLayout`, a path-to-content map);
- the ticket processor and the transition call (function parameters);
- the SHA-256 digest (a function parameter);
- timestamps.

## Model

| member | source | states |
|---|---|---|
| PrTracker.KeyInjective | jirade/pr_tracker.py:62-64 | two (repo, number) pairs with the same `repo#number` key are the same pair |
| PrTracker.SetThenGet | jirade/pr_tracker.py:121-123 | `setattr` changes the named field to the value and leaves every other field as it was |
| PrTracker.ApplyUpdatesField | jirade/pr_tracker.py:121-123 | after the keyword-argument loop each field holds the last value given for it, or its old value |
| PrTracker.ApplyUnknownUpdates | jirade/pr_tracker.py:121-123 | keyword arguments naming no field of the record leave it unchanged |
| PrTracker.SelectMembers | jirade/pr_tracker.py:142-147 | a record is listed exactly when it is stored under one of the keys walked and the filter keeps it |
| PrTracker.ClosedKeys | jirade/pr_tracker.py:197-200 | the keys collected are exactly those whose record's status is merged or closed |
| PrTracker.OpenKeys | jirade/pr_tracker.py:197-202 | the keys surviving clean-up are exactly those whose record is neither merged nor closed |
| PrTracker.DropClosed | jirade/pr_tracker.py:201-202 | deleting the closed keys leaves the records that are not closed, unchanged |
| PrTracker.CleanupOutcome | jirade/pr_tracker.py:197-205 | deleting the collected keys one by one leaves a consistent store of the open records, in order, and removes as many records as keys |
| PrTracker.Tracker.constructor | jirade/pr_tracker.py:37 | a new tracker holds no records |
| PrTracker.Tracker.AddPr | jirade/pr_tracker.py:66-98 | the new record has the given fields and the defaults (open, pending, no feedback), replaces any record under its key, and a new key goes to the end of the order |
| PrTracker.Tracker.GetPr | jirade/pr_tracker.py:129-131 | a record is returned exactly when one is stored under the `repo#number` key, and it is that record; in a consistent store, exactly when the key is in the order |
| PrTracker.Tracker.UpdatePr | jirade/pr_tracker.py:100-127 | an unknown key gives None and changes nothing; otherwise the record gets the updates in order, then `last_checked`, and is returned |
| PrTracker.Tracker.GetOpenPrs | jirade/pr_tracker.py:133-147 | the result is the open records, of the repository when one is given, in insertion order |
| PrTracker.Tracker.GetPrsNeedingAttention | jirade/pr_tracker.py:149-172 | the result is the open records, filtered by a non-empty repository, whose CI failed or whose feedback is unaddressed, in insertion order |
| PrTracker.Tracker.ListedIffStored | jirade/pr_tracker.py:133-172 | both listings return exactly the stored records their filter keeps |
| PrTracker.Tracker.RemovePr | jirade/pr_tracker.py:174-189 | True exactly when the key was stored; afterwards the key is gone from the store and the order |
| PrTracker.Tracker.Delete | jirade/pr_tracker.py:186 | `del` removes one key from the store and from the order |
| PrTracker.Tracker.DeleteAll | jirade/pr_tracker.py:201-202 | deleting a list of keys removes exactly those keys |
| PrTracker.Tracker.CleanupClosed | jirade/pr_tracker.py:191-205 | the closed and merged records are gone, the others are unchanged and in order, and the count returned is the number removed |
| Correlator.DigitsEnd | jira_agent/main.py:586 | `\d+` runs over a maximal run of digits |
| Correlator.NoBoundaryInsideDigits | jira_agent/main.py:586 | backtracking inside a run of digits cannot reach a `\b` |
| Correlator.FirstMatch | jira_agent/main.py:650 | the search returns the leftmost position where the pattern matches, or nothing when it matches nowhere |
| Correlator.FirstTextAt | jira_agent/main.py:650 | the search's text is the text of the match at the position found |
| Correlator.CorrelateLeftmost | jira_agent/main.py:650-655 | the correlator finds nothing exactly when the pattern matches nowhere, and otherwise the text of the leftmost match |
| Correlator.TicketOfLeftmost | jira_agent/main.py:648-655 | the ticket of a PR is the upper-cased text of the leftmost match in the title, a space and the branch name, and there is none exactly when the pattern matches nowhere there |
| Correlator.FirstLeftmost | jira_agent/main.py:650 | a match with no match before it is the one found |
| Correlator.CorrelateShape | jira_agent/main.py:650-655 | a found ticket is the project key in upper case, `-`, and one or more digits |
| Correlator.MatchInTitle | jira_agent/main.py:650 | a match starting inside the title is not affected by the space and the branch name after it |
| Correlator.DigitsAgree | jira_agent/main.py:586 | a run of digits inside the title stops at the separating space at the latest |
| Correlator.TitleLeftmost | jira_agent/main.py:650 | the leftmost match of the title stays leftmost once a space and the branch name are appended |
| Correlator.TitleText | jira_agent/main.py:650-655 | a match inside the title reads the same ticket text once the branch name is appended |
| Correlator.TitleFirst | jira_agent/main.py:519-521 | a ticket key in the PR title wins over one in the branch name |
| Watch.TicketsAborted | jira_agent/main.py:673-674 | once an exception cuts the loop short, the later items change nothing |
| Watch.PrsAborted | jira_agent/main.py:673-674 | the same holds for the loop over merged PRs |
| Watch.InFlightSkipped | jira_agent/main.py:604-609 | a ticket already in flight is not processed again in the poll |
| Watch.TicketCallsOnly | jira_agent/main.py:603-625 | the Jira loop only makes processing calls |
| Watch.OnlyMergedRecorded | jira_agent/main.py:637-669 | the set of handled PR numbers only grows, and only by merged PRs seen in the poll |
| Watch.TransitionsMatched | jira_agent/main.py:637-669 | every call of the GitHub loop transitions the ticket the correlator found in a merged PR's title and branch, and records the answer of the call made for that PR |
| Watch.SameTicketTwoCalls | jira_agent/main.py:643-669 | two merged PRs naming the same ticket lead to two calls, each recorded with its own answer, and a raise from the second ends the poll |
| Watch.PrLoopClears | jira_agent/main.py:662-665 | the GitHub loop takes out of the in-flight set exactly the tickets whose transition succeeded |
| Watch.TicketsBeforePrs | jira_agent/main.py:596-671 | within one poll every ticket is handled before any PR |
| Watch.KindsInOrder | jira_agent/main.py:596-671 | processing calls followed by transition calls stay in that order |
| Watch.MergedRecorded | jira_agent/main.py:643-669 | a poll that is not cut short records every merged PR it saw as handled |
| Watch.InFlightExtends | jira_agent/main.py:603-625 | a call that does not clear a ticket leaves it in flight |
| Watch.ProcessStepGood | jira_agent/main.py:606-625 | processing a ticket that is not in flight keeps the run invariant |
| Watch.TransitionStepGood | jira_agent/main.py:655-669 | a transition call for a PR not yet handled keeps the run invariant |
| Watch.RecordStepGood | jira_agent/main.py:652-654 | recording a PR without a ticket key keeps the run invariant |
| Watch.TicketsGood | jira_agent/main.py:603-625 | the Jira loop keeps the run invariant |
| Watch.PrsGood | jira_agent/main.py:637-669 | the GitHub loop keeps the run invariant |
| Watch.PollGood | jira_agent/main.py:596-677 | one poll, exception included, keeps the run invariant |
| Watch.RunGood | jira_agent/main.py:595-677 | every run of polls keeps the invariant |
| Watch.TransitionOncePerPr | jira_agent/main.py:644-669 | across a run, a PR whose transition returned a verdict is never transitioned again |
| Watch.NoReprocessWhileInFlight | jira_agent/main.py:606-665 | across a run, a ticket whose processing completed or raised is not processed again until a transition of it succeeds |
| Watch.InFlightRemembered | jira_agent/main.py:606-625 | across a run, such a ticket stays in the in-flight set until then |
| Watch.Watcher.constructor | jira_agent/main.py:584-585 | both sets start empty |
| Watch.Watcher.Tick | jira_agent/main.py:596-677 | one poll updates the two sets and makes the calls the poll function describes |
| Watch.Watcher.HandleTickets | jira_agent/main.py:603-627 | the Jira loop updates the in-flight set as the ticket fold describes |
| Watch.Watcher.HandleMergedPrs | jira_agent/main.py:637-671 | the GitHub loop updates both sets as the PR fold describes |
| Cli.Truncate | jira_agent/main.py:318-319 | text within the limit is unchanged; longer text becomes its first `keep` characters and `...` |
| Cli.TruncateFits | jira_agent/main.py:318-319 | when `keep + 3` fits the limit, the result fits, begins with the text, and truncating again changes nothing |
| Cli.ListSummaryShape | jira_agent/main.py:318-319 | `list-tickets` keeps summaries of up to 40 characters and turns longer ones into 37 characters and `...` |
| Cli.ShortTitleShape | jira_agent/main.py:367-368 | the ticket picker and `list-prs` keep 45 characters and abbreviate to 42 and `...` |
| Cli.StatusIcon | jira_agent/main.py:744 | the check mark is shown exactly for completed, the circle exactly for skipped, and the cross for every other status |
| Cli.ExitCode | jira_agent/main.py:751 | the exit code of `process-ticket` is 0 or 1 |
| Cli.ExitCodeMeaning | jira_agent/main.py:744-751 | the exit code is 0 exactly for completed or skipped, and exactly when the icon is not the cross |
| Cli.InitConfig | jira_agent/main.py:836-848 | a repository argument without `/` is refused; otherwise owner, `/` and name rebuild the argument, with a slash-free owner, so the owner is the text before the first `/` |
| Cli.InitConfigSplit | jira_agent/main.py:836-849 | a repository without `/` is refused with exit code 1; otherwise owner and name rebuild the argument with a slash-free owner, and the output defaults to `configs/{owner}-{name}.yaml` |
| Cli.InitConfigUnique | jira_agent/main.py:845 | the split taken is the only one with a slash-free owner |
| Requirements.NewRequirement | jira_agent/environment/requirements.py:13-21 | a parsed requirement carries its name, specifier and source and is not marked installed |
| Requirements.CutCommentNoHash | jira_agent/environment/requirements.py:247-248 | nothing from the first `#` on survives |
| Requirements.RemoveExtras | jira_agent/environment/requirements.py:254 | removing the extras never lengthens the line |
| Requirements.RemoveExtrasKeepsOpen | jira_agent/environment/requirements.py:254 | deleting groups never brings a `]` before the first line break |
| Requirements.RemoveExtrasComplete | jira_agent/environment/requirements.py:254 | after the substitution no `[...]` group is left |
| Requirements.RemoveExtrasNoGroups | jira_agent/environment/requirements.py:254 | a line without groups goes through unchanged |
| Requirements.NameEndRun | jira_agent/environment/requirements.py:257 | the name is a maximal run of `[a-zA-Z0-9_-]` |
| Requirements.SpaceEndRun | jira_agent/environment/requirements.py:257 | the `\s*` run is maximal |
| Requirements.EmptyLineNone | jira_agent/environment/requirements.py:250-251 | a line that is empty once stripped and cut at `#` gives no requirement |
| Requirements.MatchComplete | jira_agent/environment/requirements.py:257-260 | every line of the shape name, spaces, optional operator-led specifier yields that name and that specifier |
| Requirements.ParseLineComplete | jira_agent/environment/requirements.py:234-267 | every line of that shape parses to the requirement with that name, stripped specifier and source |
| Requirements.ParseRequirementLine | jira_agent/environment/requirements.py:234-267 | a line empty once cut at `#` gives nothing; a returned requirement has a non-empty name, the given source and is not installed |
| Requirements.ParseLineSound | jira_agent/environment/requirements.py:234-267 | every requirement the parser returns comes from a line of that shape |
| Requirements.MatchSound | jira_agent/environment/requirements.py:257-260 | what the name pattern matches has that shape |
| Requirements.ParseLineNone | jira_agent/environment/requirements.py:266-267 | the parser returns None exactly on lines of no such shape |
| Requirements.SomesMembers | jira_agent/environment/requirements.py:111-113 | a requirement is collected exactly when one of the line outcomes holds it |
| Requirements.ContentReqsMembers | jira_agent/environment/requirements.py:99-113 | a requirement comes from a file exactly when a non-blank line that is neither a comment nor an option parses to it |
| Requirements.ParseStripped | jira_agent/environment/requirements.py:244 | stripping the line first, as the loop does, changes no result |
| Requirements.ParseLineFresh | jira_agent/environment/requirements.py:261-265 | the parser keeps the source it is given and marks nothing installed |
| Requirements.ContentReqsFresh | jira_agent/environment/requirements.py:96-113 | every requirement from a file carries that file's source and is not installed |
| Requirements.ParseContent | jira_agent/environment/requirements.py:99-113 | the line loop returns the file's requirements in line order |
| Requirements.ParseRequirementsTxt | jira_agent/environment/requirements.py:80-115 | the files loop returns the requirements of the four files, file after file |
| Requirements.FilesReqsAbsent | jira_agent/environment/requirements.py:92-97 | a missing file contributes nothing, and a present one contributes its content's requirements under its relative path |
| Requirements.InstalledMapEntries | jira_agent/environment/requirements.py:318-321 | each listed lower-cased name maps to the version of its last entry |
| Requirements.InstalledMapKeys | jira_agent/environment/requirements.py:318-321 | the map has no other keys |
| Requirements.Marked | jira_agent/environment/requirements.py:323-327 | a requirement whose lower-cased name is installed is marked with that version; any other is unchanged |
| Requirements.CheckInstalledPython | jira_agent/environment/requirements.py:307-330 | a failed `pip3 list` changes nothing; otherwise every requirement in the array is marked |
| Requirements.NotInstalled | jira_agent/environment/requirements.py:356-357 | the filter never lengthens the list |
| Requirements.NotInstalledMembers | jira_agent/environment/requirements.py:356-357 | the filter keeps exactly the requirements not installed |
| Requirements.NotInstalledAppend | jira_agent/environment/requirements.py:356-357 | the filter keeps the order |
| Requirements.MissingPackages | jira_agent/environment/requirements.py:348-359 | the missing Python and Node.js packages are exactly the listed ones not installed |
| Requirements.GetMissingPackages | jira_agent/environment/requirements.py:348-359 | no more missing packages than listed ones, and none of a kind the repository does not use |
| Requirements.RepoRequirements.HasPython | jira_agent/environment/requirements.py:33-36 | true exactly when some Python requirement was found |
| Requirements.RepoRequirements.HasNode | jira_agent/environment/requirements.py:38-41 | true exactly when some Node.js requirement was found |
| Requirements.Texts | jira_agent/environment/requirements.py:278-303 | each command is reported by its command line |
| Requirements.AppendRanked | jira_agent/environment/requirements.py:269-305 | appending a later-ranked command keeps emission order |
| Requirements.When | jira_agent/environment/requirements.py:269-305 | a conditional append adds the command exactly when its condition holds |
| Requirements.DetectSetupCommands | jira_agent/environment/requirements.py:269-305 | each command is emitted exactly when its file condition holds, yarn and npm never both, in the order of the checks |
| Requirements.WhensMembers | jira_agent/environment/requirements.py:269-305 | a command is among those emitted exactly when its condition holds |
| Requirements.RankedWhens | jira_agent/environment/requirements.py:269-305 | the commands come out in the order of the checks |
| Requirements.AppendWhen | jira_agent/environment/requirements.py:269-305 | an optional command that ranks after the others keeps that order |
| Requirements.RankedDistinct | jira_agent/environment/requirements.py:269-305 | no command is emitted twice |
| Checker.Lookup | jirade/environment/checker.py:129-131 | a name found in the tool table is that tool's name |
| Checker.LookupName | jirade/environment/checker.py:57-113 | every tool is found under its own name |
| Checker.CheckTool | jirade/environment/checker.py:119-171 | the check keeps name, flag and hint; it is installed exactly when the program is on the PATH, and only then has a path and version |
| Checker.NotFound | jirade/environment/checker.py:136-142 | a tool missing from the PATH is not installed, has no version or path, and keeps its hint |
| Checker.EnvironmentReport.IsReady | jirade/environment/checker.py:32-35 | ready exactly when no required tool is missing |
| Checker.Summary | jirade/environment/checker.py:37-50 | the summary starts with "Environment is ready." exactly when the environment is ready, and otherwise with the "NOT ready" line |
| Checker.SummaryReadsBack | jirade/environment/checker.py:37-50 | read line by line, the summary says whether the environment is ready and lists the missing required and optional tools |
| Checker.Checks | jirade/environment/checker.py:194-196 | one check per tool, in order |
| Checker.CheckAll | jirade/environment/checker.py:173-204 | the loop builds the report of the given tools, or of the five default tools when none are given |
| Checker.MissingMembers | jirade/environment/checker.py:198-202 | a name is in a missing list exactly when a failed check with that flag bears it |
| Checker.MissingStep | jirade/environment/checker.py:198-202 | one more failed check appends its name to the required or optional list, by its flag |
| Checker.TallyParts | jirade/environment/checker.py:192-204 | the tally holds the checks and the failed names of each kind |
| Checker.ReportChecks | jirade/environment/checker.py:192-204 | the report holds one check per tool, in order, and its missing lists are exactly the failed names by flag |
| Checker.ReadyExactly | jirade/environment/checker.py:33-35 | the report is ready exactly when the program of every required tool is on the PATH |
| Checker.CandidatesDistinct | jirade/environment/checker.py:218-253 | no tool is a candidate twice |
| Checker.SelectedMembers | jirade/environment/checker.py:218-253 | a tool is selected exactly when it is a candidate the repository calls for |
| Checker.SelectedDistinct | jirade/environment/checker.py:218-253 | no tool is asked for twice |
| Checker.WantedIsCandidate | jirade/environment/checker.py:218-253 | every tool the repository can call for is a candidate with that flag |
| Checker.SelectedBase | jirade/environment/checker.py:218-222 | python, pip and git come first, required |
| Checker.SelectedPrefix | jirade/environment/checker.py:224-253 | later candidates only append to the list |
| Checker.RepoToolsShape | jirade/environment/checker.py:218-253 | the list begins with python, pip and git and holds a tool exactly when the repository's files call for it with that flag |
| Checker.SelectedSpelled | jirade/environment/checker.py:218-253 | the list is the candidates in order: dbt, pre-commit, node with npm, poetry, make, docker, each only when called for |
| Checker.RepoTools | jirade/environment/checker.py:218-253 | the method builds exactly that list |
| Checker.Entries | jirade/environment/checker.py:255 | each tool is handed on by its name with its flag |
| Checker.CheckForRepo | jirade/environment/checker.py:206-255 | the repository's report is `check_all` over the tools it calls for |
| Checker.ReportNames | jirade/environment/checker.py:194-196 | the report checks each listed tool under its name and flag |
| Checker.NameInjective | jirade/environment/checker.py:57-113 | two tools with the same name are the same tool |
| Checker.ReportAsks | jirade/environment/checker.py:194-196 | the report asks about exactly the listed tools |
| Checker.RepoReport | jirade/environment/checker.py:206-255 | the repository's report checks python, pip and git first and checks any other tool exactly when the repository calls for it |
| Installer.RunInstall | jira_agent/environment/installer.py:227-292 | the command is the argument list joined by spaces; success exactly on exit code 0, with no error exactly on success; stdout becomes the output and stderr the error; with no output, a timeout gives "Command timed out after 5 minutes", a missing program "Command not found: " and the program, and any other exception its message |
| Installer.JoinThree | jira_agent/environment/installer.py:243 | three words joined by spaces |
| Installer.InstallPythonPackage | jira_agent/environment/installer.py:37-63 | `pip3 install` or `poetry add` of the package, then the specifier when it is non-empty; success as the run's |
| Installer.NodeArgsShape | jira_agent/environment/installer.py:81-95 | yarn gives `yarn add [--dev]` and npm `npm install --save-dev/--save`; the last word is the package, with `@version` exactly when a specifier is non-empty |
| Installer.NodeCommandLine | jira_agent/environment/installer.py:81-97 | the command line starts with yarn or npm and ends with the package spec |
| Installer.NodeCommand | jira_agent/environment/installer.py:84-95 | the method builds exactly the argument list |
| Installer.InstallNodePackage | jira_agent/environment/installer.py:65-97 | the result is the run of the yarn or npm command, reported under the package |
| Installer.SystemCommandKnown | jira_agent/environment/installer.py:107-117 | exactly the six known tools have a command, of at least two words |
| Installer.InstallSystemTool | jira_agent/environment/installer.py:99-128 | an unknown tool fails with "Don't know how to install" and no command; a known one runs its command |
| Installer.SetupPreCommit | jira_agent/environment/installer.py:193-212 | no repository or no config fails with an error; otherwise `pre-commit install` runs |
| Installer.RunSetupCommand | jira_agent/environment/installer.py:214-225 | a set-up command is split at spaces and run, and reported under its text |
| Installer.SetupCommandLine | jira_agent/environment/installer.py:214-225 | the reported command is the set-up command's text |
| Installer.SetupResults | jira_agent/environment/installer.py:160-165 | one result per set-up command |
| Installer.PythonResults | jira_agent/environment/installer.py:172-179 | one result per missing Python package |
| Installer.NodeResults | jira_agent/environment/installer.py:182-189 | one result per missing Node package |
| Installer.KeepsFlagMeans | jira_agent/environment/installer.py:164-169 | a flag stays on exactly when it started on and no successful set-up command mentioned either phrase |
| Installer.RunSetupCommands | jira_agent/environment/installer.py:160-169 | the set-up loop returns one result per command and clears the flags as that describes |
| Installer.InstallPythonPackages | jira_agent/environment/installer.py:172-179 | the Python loop returns one pip result per missing package, in order |
| Installer.InstallNodePackages | jira_agent/environment/installer.py:182-189 | the Node loop returns one result per missing package, in order |
| Installer.InstallRepoRequirements | jira_agent/environment/installer.py:130-191 | the results are the set-up commands' results, then the Python results unless suppressed, then the Node results unless suppressed; without a repository, one failed result |
| Installer.NoRepo | jira_agent/environment/installer.py:146-153 | without a repository the only result fails with "No repo_path set" |
| Installer.RepoResultsOrder | jira_agent/environment/installer.py:158-191 | set-up results come first, then one pip3 result per Python package, then one yarn or npm result per Node package |
| Installer.PythonGroup | jira_agent/environment/installer.py:172-179 | each Python result names its package and runs pip3 |
| Installer.NodeGroup | jira_agent/environment/installer.py:182-189 | each Node result names its package and runs yarn with a lock file, npm otherwise |
| Installer.Suppression | jira_agent/environment/installer.py:160-189 | the individual Python or Node installs run exactly when asked for and no successful set-up command mentioned their phrases |
| Installer.FailingIssues | jira_agent/environment/installer.py:364 | the filter keeps exactly the issues that mention "Failed" or "Missing required", and never more issues than given |
| Installer.FailingIssuesEmpty | jira_agent/environment/installer.py:364 | none fails exactly when no issue mentions "Failed" or "Missing required" |
| Installer.MissingCountTail | jira_agent/environment/installer.py:346-348 | the count issue is "Missing ", digits, and the kind |
| Installer.MissingCountHarmless | jira_agent/environment/installer.py:346-364 | a count issue never counts as failing |
| Installer.NoneFailingAppend | jira_agent/environment/installer.py:364 | a list has no failing issue exactly when neither part has |
| Installer.ToolResults | jira_agent/environment/installer.py:327-331 | one install result per missing tool, each that of installing that tool |
| Installer.FailedToolsMembers | jira_agent/environment/installer.py:327-333 | every failed tool install has its "Failed to install {tool}: {error}" issue, and every such issue comes from a failed install |
| Installer.FailedToolsEmpty | jira_agent/environment/installer.py:327-333 | there is no such issue exactly when every tool install succeeded |
| Installer.InstallMissingTools | jira_agent/environment/installer.py:326-333 | the install loop records exactly the "Failed to install" issues of the failed installs, in tool order |
| Installer.ToolIssues | jira_agent/environment/installer.py:323-333 | the issue list is exactly: nothing when no tool is missing, else "Missing required tools: …" first, then, when installing, one "Failed to install {tool}: {error}" issue per failed install in tool order |
| Installer.FailedInstallIssues | jira_agent/environment/installer.py:357-359 | one "Failed: {command} - {error}" issue per failed result, in order; none fails exactly when every result succeeded |
| Installer.RepoInstallIssues | jira_agent/environment/installer.py:353-359 | the repository install adds exactly the issues of its failed results, and a failing one exactly when some result failed |
| Installer.MissingIssuesMembers | jira_agent/environment/installer.py:344-348 | a count issue appears exactly for a non-empty missing list |
| Installer.MissingIssuesHarmless | jira_agent/environment/installer.py:344-364 | the count issues never count as failing |
| Installer.SetupEnvironment | jira_agent/environment/installer.py:295-374 | the issue list is exactly the tool issues, then the count issues, then with installing the repository install's "Failed: …" issues; success exactly when no required tool is missing and, when installing missing packages, every install succeeded |
| Learning.LearningDefaults | jira_agent/learning/models.py:57-72 | a learning built without them has medium confidence and no error output, files or diff |
| Learning.Categorize | jira_agent/learning/models.py:136-146 | a CI tool type gives ci-failure, a code-pattern type code-pattern, anything else error-resolution, by lower-cased type |
| Learning.TypesDisjoint | jira_agent/learning/models.py:138-139 | no failure type is in both sets |
| Learning.CategorizeIgnoresCase | jira_agent/learning/models.py:141-143 | the category does not depend on the case of the type |
| Learning.ComputeId | jira_agent/learning/models.py:75-82 | the id is twelve hexadecimal digits, the head of the digest of the normalised text |
| Learning.NormalPadded | jira_agent/learning/models.py:81 | surrounding whitespace is dropped by normalisation |
| Learning.NormalTwice | jira_agent/learning/models.py:81 | normalising twice is normalising once |
| Learning.ComputeIdIgnoresPadding | jira_agent/learning/models.py:75-82 | problems and solutions differing only in surrounding whitespace give the same id |
| Learning.ComputeIdIgnoresCase | jira_agent/learning/models.py:75-82 | problems and solutions differing only in letter case give the same id |
| Learning.ComputeIdOfNormal | jira_agent/learning/models.py:75-82 | normalising the problem and solution first gives the same id |
| Learning.NormalizedKeepsKinds | jira_agent/learning/models.py:81 | with colon-free category and subcategory, equal hashed texts have equal category and subcategory |
| Learning.LeadingFields | jira_agent/learning/models.py:81 | the first two colon-free fields of the hashed text are determined by it |
| Learning.FirstField | jira_agent/learning/models.py:81 | a colon-free field before a colon is determined by the text |
| Learning.Dedup | jira_agent/learning/models.py:129 | the files are listed once each, and exactly the files of either list |
| Learning.FromVerifiedFix | jira_agent/learning/models.py:85-133 | category, subcategory, problem, error output, solution, diff and id come from the failure and the fix; the files are the union without repeats |
| Learning.FromVerifiedFixMedium | jira_agent/learning/models.py:93-132 | without an explicit confidence the learning has medium confidence |
| Learning.SameFixSameId | jira_agent/learning/models.py:110-117 | fixes whose error message and solution differ only in case give learnings with the same id |
| Strings.TrimStart | jira_agent/environment/requirements.py:100 | dropping the leading whitespace never lengthens the text |
| Strings.TrimStartSpec | jira_agent/environment/requirements.py:100 | what is dropped is whitespace, what is kept is the rest of the text, and it does not start with whitespace |
| Strings.TrimEndSpec | jira_agent/environment/requirements.py:100 | what is dropped is whitespace, what is kept is the front of the text, and it does not end with whitespace |
| Strings.Strip | jira_agent/environment/requirements.py:100 | `strip()` never lengthens the text |
| Strings.StripSpec | jira_agent/environment/requirements.py:100 | `strip()` keeps one slice of the text, and everything before and after that slice is whitespace |
| Strings.StripEdges | jira_agent/environment/requirements.py:100 | the result of `strip()` neither starts nor ends with whitespace |
| Strings.StripTwice | jira_agent/environment/requirements.py:244 | stripping twice is stripping once |
| Strings.JoinSplit | jirade/environment/checker.py:50 | joining the parts of a split restores the text |
| Strings.SplitJoin | jirade/environment/checker.py:50 | splitting parts free of the separator restores them |
| Strings.ParseIntToString | jirade/pr_tracker.py:64 | a number's decimal text parses back to it |
| Strings.IntToStringInjective | jirade/pr_tracker.py:64 | distinct numbers have distinct decimal texts |

## Left out

- File and network I/O is not modelled: the JSON tracker file, reading
  repository files, the Jira and GitHub clients, and `print` and logging output.
  Files appear as their contents or as flags for their existence.
- Loading the tracker file (`_load`) and saving it (`_save`) are not modelled;
  the tracker starts empty.
- PrTracker.Tracker.GetPr: a tracked PR is a value, so `get_pr` and the
  listing methods hand out copies. In `pr_tracker.py` they return the stored
  objects, and a caller that changes one changes the tracker's record; that
  aliasing is not modelled.
- Subprocesses are not modelled: the outcome of each run is a parameter, and
  `cwd` is not recorded.
- `shutil.which` is a map from program to path and version. Extracting a
  version from a tool's output with `version_pattern` is not modelled.
- `glob("**/dbt_project.yml")` is a flag.
- `_parse_pyproject_toml`, `_parse_setup_py`, `_parse_package_json` and
  `_check_installed_node` are not modelled: they parse third-party formats
  (TOML, Python source and JSON).
- `parse_all` is not modelled as a whole. `setup_environment` receives the
  missing lists directly, though the source works them out by parsing twice.
- `shlex.split` in `_run_setup_command` is a split at single spaces; the
  detected set-up commands hold no quotes or repeated spaces.
- Letter case, `\w` and `\d` are ASCII only. Whitespace, for `strip()` and
  for `\s` alike, is Python's `str.isspace` set.
- SHA-256 is a function parameter. The UTF-8 encoding taken before hashing is
  left to that function.
- Timestamps are `now` parameters.
- `FailureRecord.context` is not modelled.
- The `auto_confirm` prompt loop of `install_repo_requirements` only prints,
  and is left out.
- The rest of `handle_watch` is left out: the configuration and authentication
  checks before its loop, `asyncio.sleep`, and `KeyboardInterrupt`.
- `update_pr` accepts any value for any field in Python. The model takes
  values of each field's declared type.
- `print_report` in both files and the main `print` loops are left out.
- `Learning.Dedup`: `list(set(...))` has no defined order in Python; the model
  keeps the order of first occurrence, and only membership and distinctness
  are stated.

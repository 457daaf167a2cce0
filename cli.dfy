/** The small pure helpers of the command-line front end (jira_agent/main.py):
    shortening of long summaries and titles for display, the icon and exit code
    shown for the result of processing one ticket, and the `owner/name` split
    of `init-config`. */
module Cli {
  import opened Strings
  import opened Wrappers

  /** `if len(s) > limit: s = s[:keep] + "..."`. */
  function Truncate(s: string, limit: nat, keep: nat): (r: string)
    requires keep <= limit
    ensures |s| <= limit ==> r == s
    ensures |s| > limit ==> |r| == keep + 3 && StartsWith(r, s[..keep]) && r[keep..] == "..."
  {
    if |s| > limit then s[..keep] + "..." else s
  }

  /** The summary column of `list-tickets`: at most 40 characters. */
  function ListSummary(summary: string): string {
    Truncate(summary, 40, 37)
  }

  /** The summary in the interactive ticket picker and the title column of
      `list-prs`: at most 45 characters. */
  function ShortTitle(title: string): string {
    Truncate(title, 45, 42)
  }

  /** When the kept part and the ellipsis fit in the limit, the result fits too,
      it begins with as much of the text as it keeps, and shortening it a second
      time changes nothing. */
  lemma TruncateFits(s: string, limit: nat, keep: nat)
    requires keep + 3 <= limit
    ensures |Truncate(s, limit, keep)| <= limit
    ensures Truncate(s, limit, keep) == s || StartsWith(s, Truncate(s, limit, keep)[..keep])
    ensures Truncate(Truncate(s, limit, keep), limit, keep) == Truncate(s, limit, keep)
  {
  }

  /** `list-tickets` shows a summary of up to 40 characters unchanged, and a
      longer one as exactly 40 characters: its first 37 and `...`. */
  lemma ListSummaryShape(summary: string)
    ensures |summary| <= 40 ==> ListSummary(summary) == summary
    ensures |summary| > 40 ==> ListSummary(summary) == summary[..37] + "..." && |ListSummary(summary)| == 40
    ensures ListSummary(ListSummary(summary)) == ListSummary(summary)
  {
    TruncateFits(summary, 40, 37);
  }

  /** The other listings keep 45 characters, abbreviating longer text to its
      first 42 and `...`. */
  lemma ShortTitleShape(title: string)
    ensures |title| <= 45 ==> ShortTitle(title) == title
    ensures |title| > 45 ==> ShortTitle(title) == title[..42] + "..." && |ShortTitle(title)| == 45
    ensures ShortTitle(ShortTitle(title)) == ShortTitle(title)
  {
    TruncateFits(title, 45, 42);
  }

  /** The icon printed before the result of `process` and `process-ticket`. */
  function StatusIcon(status: string): (icon: string)
    ensures icon == "✓" <==> status == "completed"
    ensures icon == "○" <==> status == "skipped"
    ensures icon != "✓" && icon != "○" ==> icon == "✗"
  {
    if status == "completed" then "✓" else if status == "skipped" then "○" else "✗"
  }

  /** The exit code of `process-ticket`, and of the interactive `process` once
      it has processed the picked ticket; the batch `process` always exits 0. */
  function ExitCode(status: string): (code: int)
    ensures code == 0 || code == 1
  {
    if status in ["completed", "skipped"] then 0 else 1
  }

  /** The command succeeds exactly for a completed or a skipped ticket, and
      exactly when the icon is not the cross. */
  lemma ExitCodeMeaning(status: string)
    ensures ExitCode(status) == 0 <==> status == "completed" || status == "skipped"
    ensures ExitCode(status) == 0 <==> StatusIcon(status) != "✗"
  {
  }

  /** What `init-config` does with its `<repo>` argument and its `--output`
      option: it refuses a repository without `/` with exit code 1, or it
      writes the template for `owner` and `name` to `output`. */
  datatype InitPlan = Rejected | Write(owner: string, name: string, output: string)

  /** The exit code of `init-config` once the plan is carried out. */
  function InitExitCode(plan: InitPlan): int {
    if plan.Rejected? then 1 else 0
  }

  /** `repo.split("/", 1)`, and `configs/{owner}-{name}.yaml` when `--output`
      is absent or empty. */
  function InitConfig(repo: string, output: Option<string>): (plan: InitPlan)
    ensures plan.Rejected? <==> '/' !in repo
    ensures plan.Write? ==> '/' !in plan.owner && |plan.owner| < |repo|
    ensures plan.Write? ==> plan.owner + "/" + plan.name == repo
  {
    var i := IndexOf(repo, '/');
    if i == |repo| then Rejected
    else
      var owner := repo[..i];
      var name := repo[i + 1..];
      assert owner + "/" + name == repo;
      var path := if output.None? || output.value == "" then "configs/" + owner + "-" + name + ".yaml" else output.value;
      Write(owner, name, path)
  }

  /** The split puts the text before the first `/` in `owner` and all the rest,
      further slashes included, in `name`; a repository without `/` is refused;
      an explicit output path is kept and a missing one defaults. */
  lemma InitConfigSplit(repo: string, output: Option<string>)
    ensures InitConfig(repo, output).Rejected? <==> '/' !in repo
    ensures InitExitCode(InitConfig(repo, output)) == 0 <==> '/' in repo
    ensures var plan := InitConfig(repo, output);
      plan.Write? ==> plan.owner + "/" + plan.name == repo && '/' !in plan.owner
    ensures var plan := InitConfig(repo, output);
      plan.Write? ==>
        plan.output == (if output.Some? && output.value != "" then output.value
                        else "configs/" + plan.owner + "-" + plan.name + ".yaml")
  {
    var i := IndexOf(repo, '/');
    if i < |repo| {
      assert repo == repo[..i] + "/" + repo[i + 1..];
    }
  }

  /** Only one split has a slash-free owner, so the one taken is that split. */
  lemma InitConfigUnique(repo: string, output: Option<string>, owner: string, name: string)
    requires owner + "/" + name == repo && '/' !in owner
    ensures InitConfig(repo, output).Write?
    ensures InitConfig(repo, output).owner == owner && InitConfig(repo, output).name == name
  {
    var i := IndexOf(repo, '/');
    assert repo[|owner|] == '/';
    assert forall j :: 0 <= j < |owner| ==> repo[j] == owner[j];
    assert i == |owner|;
    assert repo[..i] == owner;
    assert repo[i + 1..] == name;
  }
}
